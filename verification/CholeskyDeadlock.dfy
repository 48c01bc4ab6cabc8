/** The Cholesky program comes to a deadlock of the mapper, with the first tasks it spawns. */
module CholeskyDeadlock {
  import opened Wrappers
  import opened TaskRuntime
  import opened TaskRaces
  import opened TaskDeadlocks
  import opened TaskLockOrder
  import opened TaskDeadlockRuns
  import opened CholeskyLocks
  import C = Cholesky

  /** Task 0 is `main`; 1 factors the first block, and 2 and 3 solve for the two blocks below it. */
  function FirstTasks(): Labels {
    (t: nat) =>
      if t == 1 then Some(C.Subcholesky(0)) else if t == 2 then Some(C.Solve(1, 0))
      else if t == 3 then Some(C.Solve(2, 0)) else None
  }

  const FORK := SpawnsOnly(0, {[], [1]})

  lemma ForkIsOfCholesky(w: Threads, a: Act)
    requires Observes(w, a, FORK, ByAge())
    ensures OfCholesky(a, FirstTasks(), 0, 3)
  {
    if a.SpawnBy? {
      var c := if a.deps == [] then C.Subcholesky(0) else C.Solve(1, 0);
      assert C.IsTask(c, 3) && Labelled(FirstTasks(), a.deps, C.Dependencies(c));
    }
  }

  lemma {:induction false} RunIsOfCholesky(w: Threads, acts: seq<Act>, cs: set<Clause>)
    requires FORK in cs && Moves(w, acts).Some? && Follows(w, acts, cs, ByAge())
    ensures forall i | 0 <= i < |acts| :: OfCholesky(acts[i], FirstTasks(), 0, 3)
    decreases |acts|
  {
    if acts != [] {
      assert Observes(w, acts[0], FORK, ByAge());
      ForkIsOfCholesky(w, acts[0]);
      RunIsOfCholesky(Move(w, acts[0]).value, acts[1..], cs);
    }
  }

  // ---- the run ----

  const ALL := CLAUSES + {FORK}

  function Main(): Task {
    Root([], Executing, true)
  }

  function OnOne(phase: Phase): Task {
    NewTask([1]).(phase := phase)
  }

  function Queued(blocking: nat): Task {
    OnOne(Free).(status := Running, blocking := blocking)
  }

  /** `main` runs, and has spawned all the others. */
  function Forked(tasks: seq<Task>, workers: multiset<nat>): Threads {
    Threads(Quiet([Main()] + tasks, workers), map i | i in Children(|tasks|) :: 0, Off)
  }

  function Children(n: nat): (r: set<nat>)
    ensures forall i: nat :: i in r <==> 1 <= i <= n
  {
    if n == 0 then {} else Children(n - 1) + {n}
  }

  lemma Alone(w: Threads, t: nat)
    requires Known(w.s, t) && w.s.tasks[t].phase.Executing? && !Hosts(w, t)
    requires forall c: nat | c in w.parent && c < |w.s.tasks| :: !w.s.tasks[c].status.Waiting? || w.parent[c] != t
    ensures BodyRuns(w, t)
  {
  }

  lemma ForksNext(tasks: seq<Task>, deps: seq<nat>, workers: multiset<nat>, newest: seq<nat>)
    requires Reached(WithQueue(Forked(tasks, workers), newest), ALL) && (deps == [] || (deps == [1] && |tasks| > 0))
    requires forall i | 0 <= i < |tasks| :: !tasks[i].status.Waiting?
    requires deps == [1] ==> !tasks[0].phase.Spawning? && !tasks[0].move
    ensures Reached(WithQueue(Forked(tasks + [NewTask(deps)], workers), newest), ALL)
  {
    var w := WithQueue(Forked(tasks, workers), newest);
    Alone(w, 0);
    SpawnsInBody(w, 0, deps, ALL);
    var next := WithQueue(Forked(tasks + [NewTask(deps)], workers), newest);
    assert [Main()] + tasks + [NewTask(deps)] == next.s.tasks;
    assert w.parent[|w.s.tasks| := 0] == next.parent;
  }

  function WithQueue(w: Threads, newest: seq<nat>): Threads {
    w.(s := w.s.(newest := newest))
  }

  lemma ToMain()
    ensures Reached(Forked([], multiset{}), ALL)
  {
    OneTask(ALL);
    Runs(World([Root([], Free, false)], multiset{0}), 0, ALL);
    assert [Root([], Free, false)][0 := Main()] == [Main()] + [] && multiset{0} - multiset{0} == multiset{};
    assert Forked([], multiset{}).parent == map[];
  }

  /** The factorization is handed to a worker. */
  lemma ToFirst()
    ensures Reached(Forked([Root([], Free, false)], multiset{1}), ALL)
  {
    ToMain();
    assert WithQueue(Forked([], multiset{}), []) == Forked([], multiset{});
    ForksNext([], [], multiset{}, []);
    assert [] + [NewTask([])] == [NewTask([])];
    var w := Forked([NewTask([])], multiset{});
    assert WithQueue(w, []) == w;
    Prepare(w, 1, ALL);
    var next := Forked([Root([], Free, false)], multiset{1});
    assert w.s.tasks[1 := Root([], Free, false)] == next.s.tasks && multiset{} + multiset{1} == multiset{1};
  }

  lemma ToSecondFree()
    ensures Reached(Forked([Root([2], Free, false), OnOne(Free)], multiset{1}), ALL)
  {
    ToFirst();
    var one := Root([], Free, false);
    assert WithQueue(Forked([one], multiset{1}), []) == Forked([one], multiset{1});
    ForksNext([one], [1], multiset{1}, []);
    assert [one] + [NewTask([1])] == [one, NewTask([1])] && [] + [2] == [2];
    var w := Forked([one, NewTask([1])], multiset{1});
    assert WithQueue(w, []) == w;
    AsksLast(w, 2, 1, ALL);
    assert w.s.tasks[1 := Root([2], Free, false)][2 := OnOne(Free)]
        == Forked([Root([2], Free, false), OnOne(Free)], multiset{1}).s.tasks;
  }

  /** One solve is in the queue of new tasks. */
  lemma ToSecond()
    ensures Reached(WithQueue(Forked([Root([2], Free, false), Queued(1)], multiset{1}), [2]), ALL)
  {
    ToSecondFree();
    var w := Forked([Root([2], Free, false), OnOne(Free)], multiset{1});
    GetsReady(w, 2, ALL);
    assert w.s.tasks[2 := Queued(1)] == Forked([Root([2], Free, false), Queued(1)], multiset{1}).s.tasks;
    assert [2] + [] == [2];
  }

  lemma ToForked()
    ensures Reached(WithQueue(Forked([Root([2], Free, false), Queued(1), NewTask([1])], multiset{1}), [2]), ALL)
  {
    ToSecond();
    var one := Root([2], Free, false);
    ForksNext([one, Queued(1)], [1], multiset{1}, [2]);
    assert [one, Queued(1)] + [NewTask([1])] == [one, Queued(1), NewTask([1])];
  }

  /** The other has registered. */
  lemma ToRegistered()
    ensures Reached(WithQueue(Forked([Root([2, 3], Free, false), Queued(1), OnOne(Free)], multiset{1}), [2]), ALL)
  {
    ToForked();
    var w := WithQueue(Forked([Root([2], Free, false), Queued(1), NewTask([1])], multiset{1}), [2]);
    assert [2] + [3] == [2, 3];
    AsksLast(w, 3, 1, ALL);
    var next := WithQueue(Forked([Root([2, 3], Free, false), Queued(1), OnOne(Free)], multiset{1}), [2]);
    assert w.s.tasks[1 := Root([2, 3], Free, false)][3 := OnOne(Free)] == next.s.tasks;
  }

  /** And the factorization runs. */
  lemma ToThird()
    ensures Reached(WithQueue(Forked([Root([2, 3], Executing, true), Queued(1), OnOne(Free)], multiset{}), [2]), ALL)
  {
    ToRegistered();
    var w := WithQueue(Forked([Root([2, 3], Free, false), Queued(1), OnOne(Free)], multiset{1}), [2]);
    Runs(w, 1, ALL);
    var next := WithQueue(Forked([Root([2, 3], Executing, true), Queued(1), OnOne(Free)], multiset{}), [2]);
    assert w.s.tasks[1 := Root([2, 3], Executing, true)] == next.s.tasks;
    assert multiset{1} - multiset{1} == multiset{};
  }

  /** The mapper is about to read the flag of the factorization for the first solve. */
  function AboutToRead(one: Task, blocking: nat, phase: Phase): Threads {
    WithQueue(Forked([one, Queued(blocking), OnOne(phase)], multiset{}), [2]).(mapping := On(None, Reading([1])))
  }

  lemma ToReading()
    ensures Reached(AboutToRead(Root([2, 3], Executing, true), 1, Readying), ALL)
  {
    ToThird();
    var w := AboutToRead(Root([2, 3], Executing, true), 1, Free);
    FlagsOfOne(w.s, 2);
    Looks(w.(mapping := Off), None, ALL);
    var next := AboutToRead(Root([2, 3], Executing, true), 1, Readying);
    assert w.s.tasks[3 := OnOne(Readying)] == next.s.tasks;
    Onward(w, GetReady(3), next.s, ALL);
  }

  lemma ToEnded()
    ensures Reached(AboutToRead(Root([2, 3], Finishing([2, 3], true), true), 1, Readying), ALL)
  {
    ToReading();
    var w := AboutToRead(Root([2, 3], Executing, true), 1, Readying);
    Alone(w, 1);
    Ends(w, 1, ALL);
    var next := AboutToRead(Root([2, 3], Finishing([2, 3], true), true), 1, Readying);
    assert w.s.tasks[1 := next.s.tasks[1]] == next.s.tasks;
  }

  function Stuck(): Threads {
    AboutToRead(Root([2, 3], Finishing([3], true), true), 0, Readying)
  }

  lemma ToStuck()
    ensures Reached(Stuck(), ALL)
  {
    ToEnded();
    var w := AboutToRead(Root([2, 3], Finishing([2, 3], true), true), 1, Readying);
    assert [2, 3][1..] == [3] && w.s.tasks[1 := Stuck().s.tasks[1]][2 := Stuck().s.tasks[2]] == Stuck().s.tasks;
    assert Step(w.s, Notify(1)) == Some(Stuck().s) && !Races(w.s, Notify(1));
    Then(w, Other(Notify(1)), Stuck(), ALL);
  }

  lemma StuckGoesRound()
    ensures Deadlocked(Stuck(), {Mapper, Of(1), Of(3)}) && WaitsFor(Stuck(), Of(0), Of(3))
  {
    var w := Stuck();
    assert WaitsFor(w, Mapper, Of(1)) && WaitsFor(w, Of(1), Of(3)) && WaitsFor(w, Of(3), Mapper);
    CircleOfThree(w, Mapper, Of(1), Of(3));
  }

  /** The factorization of the first block ends while a worker fills the mapper's queue and `main` spawns the second
      solve. The mapper waits for the factorization, that to notify the solve, the solve to enter the queue that the
      mapper has, and `main` for the solve. */
  lemma CholeskyDeadlocks() returns (acts: seq<Act>, w: Threads)
    ensures forall i | 0 <= i < |acts| :: OfCholesky(acts[i], FirstTasks(), 0, 3)
    ensures Reaches(acts, w, CLAUSES) && Deadlocked(w, {Mapper, Of(1), Of(3)}) && WaitsFor(w, Of(0), Of(3))
  {
    ToStuck();
    w := Stuck();
    acts :| Reaches(acts, w, ALL);
    RunIsOfCholesky(Begins(), acts, ALL);
    FollowsLess(Begins(), acts, ALL, CLAUSES);
    StuckGoesRound();
  }

  lemma {:induction false} FollowsLess(w: Threads, acts: seq<Act>, more: set<Clause>, less: set<Clause>)
    requires less <= more && Follows(w, acts, more, ByAge())
    ensures Follows(w, acts, less, ByAge())
    decreases |acts|
  {
    if acts != [] && Move(w, acts[0]).Some? {
      FollowsLess(Move(w, acts[0]).value, acts[1..], more, less);
    }
  }
}
