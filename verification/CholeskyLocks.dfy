/**
 The locks of the Cholesky program. One rank of its kinds of tasks makes all its lists of dependencies rise, so that
 the only deadlocks are those of the mapper.
 */
module CholeskyLocks {
  import opened Wrappers
  import opened TaskRuntime
  import opened TaskDeadlocks
  import opened TaskLockOrder
  import C = Cholesky

  /** Solves by row, then updates by number, then factorizations. */
  function KindRank(t: C.Task, n: nat): int {
    match t
    case Solve(i, _) => i
    case Gemm(_, _, k) => n + k
    case Syrk(_, k) => n + k
    case Subcholesky(_) => 2 * n
  }

  /** Numbers of the runtime's tasks that stand for a task of the program. */
  type Labels = nat -> Option<C.Task>

  function LabelRank(labels: Labels, n: nat): Rank {
    (t: nat) => match labels(t) case None => -1 case Some(c) => KindRank(c, n)
  }

  predicate Labelled(labels: Labels, ts: seq<nat>, cs: seq<C.Task>) {
    |ts| == |cs| && forall i | 0 <= i < |ts| :: labels(ts[i]) == Some(cs[i])
  }

  ghost predicate NamesDependencies(labels: Labels, deps: seq<nat>, n: nat) {
    exists c: C.Task :: C.IsTask(c, n) && Labelled(labels, deps, C.Dependencies(c))
  }

  /** The body of `main` spawns the tasks of the program on the lists it declares, and awaits the last factorization.
      Nothing else spawns on dependencies or awaits. The tasks name no PArrays, so the mapper adds no dependencies to
      data movement tasks. The mapper may run anywhere, also in the thread of `main`. */
  ghost predicate OfCholesky(a: Act, labels: Labels, main: nat, n: nat) {
    match a
    case SpawnBy(x, deps) => x == main && NamesDependencies(labels, deps, n)
    case Other(Spawn(deps)) => deps == []
    case Other(MoveAsks(_, _)) => false
    case Other(Await(t, deps)) => t == main && n > 0 && Labelled(labels, deps, [C.Subcholesky(n - 1)])
    case _ => true
  }

  lemma ListsRise(t: C.Task, n: nat, i: nat, j: nat)
    requires C.IsTask(t, n) && i < j < |C.Dependencies(t)|
    ensures 0 <= KindRank(C.Dependencies(t)[i], n) < KindRank(C.Dependencies(t)[j], n)
  {
  }

  lemma ListsNotNegative(t: C.Task, n: nat, i: nat)
    requires C.IsTask(t, n) && i < |C.Dependencies(t)|
    ensures 0 <= KindRank(C.Dependencies(t)[i], n)
  {
  }

  lemma DependenciesRise(labels: Labels, main: nat, deps: seq<nat>, n: nat)
    requires labels(main) == None && NamesDependencies(labels, deps, n)
    ensures Ascending(deps, LabelRank(labels, n)) && AllHigher(main, deps, LabelRank(labels, n))
  {
    var c :| C.IsTask(c, n) && Labelled(labels, deps, C.Dependencies(c));
    var rank := LabelRank(labels, n);
    forall i, j | 0 <= i < j < |deps| ensures rank(deps[i]) < rank(deps[j]) {
      ListsRise(c, n, i, j);
      assert labels(deps[i]) == Some(C.Dependencies(c)[i]) && labels(deps[j]) == Some(C.Dependencies(c)[j]);
    }
    forall i | 0 <= i < |deps| ensures rank(main) < rank(deps[i]) {
      ListsNotNegative(c, n, i);
      assert labels(deps[i]) == Some(C.Dependencies(c)[i]);
    }
  }

  lemma StepObserves(w: Threads, a: Act, labels: Labels, main: nat, n: nat)
    requires labels(main) == None && OfCholesky(a, labels, main, n)
    requires ObservesAll(w, a, {Exposed, NoRace}, LabelRank(labels, n))
    ensures ObservesAll(w, a, CLAUSES, LabelRank(labels, n))
  {
    var rank := LabelRank(labels, n);
    if a.SpawnBy? {
      DependenciesRise(labels, main, a.deps, n);
    }
    assert Observes(w, a, InOrder, rank) && Observes(w, a, Higher, rank);
    assert Observes(w, a, Exposed, rank) && Observes(w, a, NoRace, rank);
  }

  lemma {:induction false} RunFollows(w: Threads, acts: seq<Act>, labels: Labels, main: nat, n: nat)
    requires labels(main) == None && forall i | 0 <= i < |acts| :: OfCholesky(acts[i], labels, main, n)
    requires Follows(w, acts, {Exposed, NoRace}, LabelRank(labels, n))
    ensures Follows(w, acts, CLAUSES, LabelRank(labels, n))
    decreases |acts|
  {
    if acts != [] {
      StepObserves(w, acts[0], labels, main, n);
      if Move(w, acts[0]).Some? {
        RunFollows(Move(w, acts[0]).value, acts[1..], labels, main, n);
      }
    }
  }

  lemma CholeskyDeadlockExact(acts: seq<Act>, labels: Labels, main: nat, n: nat)
    requires labels(main) == None && forall i | 0 <= i < |acts| :: OfCholesky(acts[i], labels, main, n)
    requires Moves(Begins(), acts).Some? && Follows(Begins(), acts, {Exposed, NoRace}, LabelRank(labels, n))
    ensures var w := Moves(Begins(), acts).value; AnyDeadlock(w) <==> FlagLeadsBack(w)
  {
    RunFollows(Begins(), acts, labels, main, n);
    RankedDeadlockExact(acts, LabelRank(labels, n));
  }

  /** However the threads interleave, everybody who holds a mutex can go on, or waits for somebody who can, unless the
      mapper waits for the mutex of a task from which the waits lead back to it. */
  lemma CholeskyGoesOn(acts: seq<Act>, labels: Labels, main: nat, n: nat, a: Node)
    requires labels(main) == None && forall i | 0 <= i < |acts| :: OfCholesky(acts[i], labels, main, n)
    requires Moves(Begins(), acts).Some? && Follows(Begins(), acts, {Exposed, NoRace}, LabelRank(labels, n))
    requires Occupied(Moves(Begins(), acts).value, a) && !FlagLeadsBack(Moves(Begins(), acts).value)
    ensures Goes(Moves(Begins(), acts).value, a)
  {
    RunFollows(Begins(), acts, labels, main, n);
    RankedProgramsGoOn(acts, LabelRank(labels, n), a);
  }
}
