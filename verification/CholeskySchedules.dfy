/**
 Every schedule of the Cholesky task graph that respects the declared dependencies computes the factor. Tasks may
 overlap: a task begins when its dependencies are done, clones its operands one by one at any later times, and
 writes its result after that.
 */
module CholeskySchedules {
  import opened Cholesky

  datatype State<B> = State(blocks: Matrix<B>, done: set<Task>, running: map<Task, map<nat, B>>)

  datatype Event = Begin(t: Task) | Clone(t: Task, operand: nat) | Write(t: Task)

  predicate AllDone(ts: seq<Task>, done: set<Task>) {
    forall i | 0 <= i < |ts| :: ts[i] in done
  }

  function Put<B>(blocks: Matrix<B>, p: Place, b: B): Matrix<B>
    requires p.0 < |blocks| && p.1 < |blocks[p.0]|
  {
    blocks[p.0 := blocks[p.0][p.1 := b]]
  }

  predicate Enabled<B>(s: State<B>, e: Event, n: nat) {
    IsTask(e.t, n) &&
    match e
    case Begin(t) => t !in s.done && t !in s.running && AllDone(Dependencies(t), s.done)
    case Clone(t, o) => t in s.running && o < |Operands(t)| && o !in s.running[t]
    case Write(t) => t in s.running && forall o | 0 <= o < |Operands(t)| :: o in s.running[t]
  }

  function Values<B>(cloned: map<nat, B>, n: nat): (values: seq<B>)
    requires forall o | 0 <= o < n :: o in cloned
    ensures |values| == n
  {
    seq(n, o requires 0 <= o < n => cloned[o])
  }

  function Step<B>(kernels: Kernels<B>, s: State<B>, e: Event): State<B>
    requires Square(s.blocks, |s.blocks|) && Enabled(s, e, |s.blocks|)
  {
    match e
    case Begin(t) => s.(running := s.running[t := map[]])
    case Clone(t, o) =>
      var p := Operands(t)[o];
      s.(running := s.running[t := s.running[t][o := s.blocks[p.0][p.1]]])
    case Write(t) =>
      s.(blocks := Put(s.blocks, Target(t), Result(kernels, t, Values(s.running[t], |Operands(t)|))),
         done := s.done + {t}, running := s.running - {t})
  }

  // ---- the invariant ----

  /** How many updates of block `(i, j)`, from the `k`-th on, are done. */
  function Progress(done: set<Task>, i: nat, j: nat, k: nat): (m: nat)
    requires k <= j
    ensures k <= m <= j
    decreases j - k
  {
    if k < j && Update(i, j, k) in done then Progress(done, i, j, k + 1) else k
  }

  function Current<B>(kernels: Kernels<B>, a: Matrix<B>, done: set<Task>, p: Place): B
    requires Square(a, |a|) && p.1 <= p.0 < |a|
  {
    if Final(p.0, p.1) in done then Factor(kernels, a, p.0, p.1)
    else Partial(kernels, a, p.0, p.1, Progress(done, p.0, p.1, 0))
  }

  ghost predicate Closed<B>(s: State<B>, n: nat) {
    && (forall t | t in s.done :: IsTask(t, n) && AllDone(Dependencies(t), s.done))
    && (forall t | t in s.running :: IsTask(t, n) && AllDone(Dependencies(t), s.done) && t !in s.done)
  }

  ghost predicate BlocksRight<B>(kernels: Kernels<B>, a: Matrix<B>, s: State<B>)
    requires Square(a, |a|) && Square(s.blocks, |a|)
  {
    forall i, j | 0 <= j <= i < |a| :: s.blocks[i][j] == Current(kernels, a, s.done, (i, j))
  }

  ghost predicate ClonesRight<B>(kernels: Kernels<B>, a: Matrix<B>, s: State<B>)
    requires Square(a, |a|)
  {
    forall t, o | t in s.running && IsTask(t, |a|) && o in s.running[t] && o < |Operands(t)| ::
      s.running[t][o] == Inputs(kernels, a, t)[o]
  }

  ghost predicate Inv<B>(kernels: Kernels<B>, a: Matrix<B>, s: State<B>) {
    && Square(a, |a|) && Square(s.blocks, |a|)
    && Closed(s, |a|) && BlocksRight(kernels, a, s) && ClonesRight(kernels, a, s)
  }

  // ---- operands are what they must be, at any time ----

  /** The first `k` updates are done and the next is not. */
  lemma {:induction false} ProgressIs(done: set<Task>, i: nat, j: nat, from: nat, k: nat)
    requires from <= k <= j && (forall m | from <= m < k :: Update(i, j, m) in done)
    requires k < j ==> Update(i, j, k) !in done
    ensures Progress(done, i, j, from) == k
    decreases k - from
  {
    if from < k {
      ProgressIs(done, i, j, from + 1, k);
    }
  }

  lemma DependsOnUpdates(t: Task, done: set<Task>, i: nat, j: nat, m: nat)
    requires AllDone(Dependencies(t), done)
    requires (t == Final(i, j) && m < j) || (exists k :: t == Update(i, j, k) && m < k)
    ensures Update(i, j, m) in done
  {
    var d := Dependencies(t);
    match t
    case Syrk(_, k) => assert d[1 + m] == Syrk(j, m);
    case Subcholesky(_) => assert d[m] == Syrk(j, m);
    case Gemm(_, _, k) => assert d[2 + m] == Gemm(i, j, m);
    case Solve(_, _) => assert d[m] == Gemm(i, j, m);
  }

  /** While an update of a block is pending, the block is not final, and exactly the updates before it are done. */
  lemma UpdateFindsPartial<B>(kernels: Kernels<B>, a: Matrix<B>, s: State<B>, i: nat, j: nat, k: nat)
    requires Square(a, |a|) && Closed(s, |a|) && k < j <= i < |a|
    requires Update(i, j, k) !in s.done && AllDone(Dependencies(Update(i, j, k)), s.done)
    ensures Current(kernels, a, s.done, (i, j)) == Partial(kernels, a, i, j, k)
  {
    forall m | 0 <= m < k ensures Update(i, j, m) in s.done {
      DependsOnUpdates(Update(i, j, k), s.done, i, j, m);
    }
    ProgressIs(s.done, i, j, 0, k);
    if Final(i, j) in s.done {
      DependsOnUpdates(Final(i, j), s.done, i, j, k);
    }
  }

  lemma FinalFindsPartial<B>(kernels: Kernels<B>, a: Matrix<B>, s: State<B>, i: nat, j: nat)
    requires Square(a, |a|) && Closed(s, |a|) && j <= i < |a|
    requires Final(i, j) !in s.done && AllDone(Dependencies(Final(i, j)), s.done)
    ensures Current(kernels, a, s.done, (i, j)) == Partial(kernels, a, i, j, j)
  {
    forall m | 0 <= m < j ensures Update(i, j, m) in s.done {
      DependsOnUpdates(Final(i, j), s.done, i, j, m);
    }
    ProgressIs(s.done, i, j, 0, j);
  }

  /** Whatever a begun task clones, whenever it does, is its proper input. */
  lemma OperandIsInput<B>(kernels: Kernels<B>, a: Matrix<B>, s: State<B>, t: Task, o: nat)
    requires Square(a, |a|) && Closed(s, |a|) && IsTask(t, |a|) && o < |Operands(t)|
    requires t !in s.done && AllDone(Dependencies(t), s.done)
    ensures var p := Operands(t)[o];
            p.1 <= p.0 < |a| && Current(kernels, a, s.done, p) == Inputs(kernels, a, t)[o]
  {
    var d := Dependencies(t);
    match t
    case Syrk(j, k) =>
      assert d[0] == Solve(j, k);
      UpdateFindsPartial(kernels, a, s, j, j, k);
    case Subcholesky(j) => FinalFindsPartial(kernels, a, s, j, j);
    case Gemm(i, j, k) =>
      assert d[0] == Solve(j, k) && d[1] == Solve(i, k);
      UpdateFindsPartial(kernels, a, s, i, j, k);
    case Solve(i, j) =>
      assert d[|d| - 1] == Subcholesky(j);
      FinalFindsPartial(kernels, a, s, i, j);
  }

  /** What a task writes is the next value of its target. */
  lemma ResultIsNext<B>(kernels: Kernels<B>, a: Matrix<B>, s: State<B>, t: Task)
    requires Square(a, |a|) && Closed(s, |a|) && IsTask(t, |a|) && t !in s.done && AllDone(Dependencies(t), s.done)
    ensures var p := Target(t);
            p.1 <= p.0 < |a| && Current(kernels, a, s.done + {t}, p) == Result(kernels, t, Inputs(kernels, a, t))
  {
    var p := Target(t);
    if t != Final(p.0, p.1) {
      assert t == Update(p.0, p.1, t.k);
      UpdateAdvances(kernels, a, s, p.0, p.1, t.k);
    }
  }

  lemma UpdateAdvances<B>(kernels: Kernels<B>, a: Matrix<B>, s: State<B>, i: nat, j: nat, k: nat)
    requires Square(a, |a|) && Closed(s, |a|) && k < j <= i < |a|
    requires Update(i, j, k) !in s.done && AllDone(Dependencies(Update(i, j, k)), s.done)
    ensures Current(kernels, a, s.done + {Update(i, j, k)}, (i, j)) == Partial(kernels, a, i, j, k + 1)
  {
    var t := Update(i, j, k);
    forall m | 0 <= m < k ensures Update(i, j, m) in s.done {
      DependsOnUpdates(t, s.done, i, j, m);
    }
    if k + 1 < j && Update(i, j, k + 1) in s.done {
      DependsOnUpdates(Update(i, j, k + 1), s.done, i, j, k);
    }
    ProgressIs(s.done + {t}, i, j, 0, k + 1);
    if Final(i, j) in s.done {
      DependsOnUpdates(Final(i, j), s.done, i, j, k);
    }
  }

  lemma {:induction false} OtherBlocksKeepProgress(done: set<Task>, t: Task, i: nat, j: nat, k: nat)
    requires k <= j && Target(t) != (i, j)
    ensures Progress(done + {t}, i, j, k) == Progress(done, i, j, k)
    decreases j - k
  {
    if k < j {
      OtherBlocksKeepProgress(done, t, i, j, k + 1);
    }
  }

  // ---- steps ----

  lemma BeginKeeps<B>(kernels: Kernels<B>, a: Matrix<B>, s: State<B>, t: Task)
    requires Inv(kernels, a, s) && Enabled(s, Begin(t), |a|)
    ensures Inv(kernels, a, Step(kernels, s, Begin(t)))
  {
  }

  lemma CloneKeeps<B>(kernels: Kernels<B>, a: Matrix<B>, s: State<B>, t: Task, o: nat)
    requires Inv(kernels, a, s) && Enabled(s, Clone(t, o), |a|)
    ensures Inv(kernels, a, Step(kernels, s, Clone(t, o)))
  {
    OperandIsInput(kernels, a, s, t, o);
  }

  lemma CurrentElsewhere<B>(kernels: Kernels<B>, a: Matrix<B>, done: set<Task>, t: Task, p: Place)
    requires Square(a, |a|) && p.1 <= p.0 < |a| && Target(t) != p
    ensures Current(kernels, a, done + {t}, p) == Current(kernels, a, done, p)
  {
    OtherBlocksKeepProgress(done, t, p.0, p.1, 0);
    assert Target(Final(p.0, p.1)) == p;
  }

  /** The clones of a task that is ready to write are its inputs. */
  lemma ClonedInputs<B>(kernels: Kernels<B>, a: Matrix<B>, s: State<B>, t: Task)
    requires Inv(kernels, a, s) && Enabled(s, Write(t), |a|)
    ensures Values(s.running[t], |Operands(t)|) == Inputs(kernels, a, t)
  {
  }

  lemma PutIsRight<B>(kernels: Kernels<B>, a: Matrix<B>, blocks: Matrix<B>, done: set<Task>, t: Task, b: B)
    requires Square(a, |a|) && Square(blocks, |a|) && Target(t).1 <= Target(t).0 < |a|
    requires forall i, j | 0 <= j <= i < |a| :: blocks[i][j] == Current(kernels, a, done, (i, j))
    requires b == Current(kernels, a, done + {t}, Target(t))
    ensures Square(Put(blocks, Target(t), b), |a|)
    ensures forall i, j | 0 <= j <= i < |a| ::
            Put(blocks, Target(t), b)[i][j] == Current(kernels, a, done + {t}, (i, j))
  {
    forall i, j | 0 <= j <= i < |a| ensures Put(blocks, Target(t), b)[i][j] == Current(kernels, a, done + {t}, (i, j)) {
      if (i, j) != Target(t) {
        CurrentElsewhere(kernels, a, done, t, (i, j));
      }
    }
  }

  lemma WriteKeeps<B>(kernels: Kernels<B>, a: Matrix<B>, s: State<B>, t: Task)
    requires Inv(kernels, a, s) && Enabled(s, Write(t), |a|)
    ensures Inv(kernels, a, Step(kernels, s, Write(t)))
  {
    ClonedInputs(kernels, a, s, t);
    ResultIsNext(kernels, a, s, t);
    PutIsRight(kernels, a, s.blocks, s.done, t, Result(kernels, t, Inputs(kernels, a, t)));
  }

  lemma StepKeeps<B>(kernels: Kernels<B>, a: Matrix<B>, s: State<B>, e: Event)
    requires Inv(kernels, a, s) && Enabled(s, e, |a|)
    ensures Inv(kernels, a, Step(kernels, s, e))
  {
    match e
    case Begin(t) => BeginKeeps(kernels, a, s, t);
    case Clone(t, o) => CloneKeeps(kernels, a, s, t, o);
    case Write(t) => WriteKeeps(kernels, a, s, t);
  }

  // ---- runs ----

  ghost predicate Schedule<B>(kernels: Kernels<B>, s: State<B>, run: seq<Event>)
    requires Square(s.blocks, |s.blocks|)
    decreases |run|
  {
    run == [] || (Enabled(s, run[0], |s.blocks|) && Square(Step(kernels, s, run[0]).blocks, |s.blocks|)
                  && Schedule(kernels, Step(kernels, s, run[0]), run[1..]))
  }

  ghost function After<B>(kernels: Kernels<B>, s: State<B>, run: seq<Event>): State<B>
    requires Square(s.blocks, |s.blocks|) && Schedule(kernels, s, run)
    decreases |run|
  {
    if run == [] then s else After(kernels, Step(kernels, s, run[0]), run[1..])
  }

  lemma {:induction false} RunKeeps<B>(kernels: Kernels<B>, a: Matrix<B>, s: State<B>, run: seq<Event>)
    requires Inv(kernels, a, s) && Schedule(kernels, s, run)
    ensures Inv(kernels, a, After(kernels, s, run))
    decreases |run|
  {
    if run != [] {
      StepKeeps(kernels, a, s, run[0]);
      RunKeeps(kernels, a, Step(kernels, s, run[0]), run[1..]);
    }
  }

  function Start<B>(a: Matrix<B>): State<B> {
    State(a, {}, map[])
  }

  /** No task writes above the diagonal. */
  ghost predicate SameAbove<B>(a: Matrix<B>, b: Matrix<B>)
    requires Square(a, |a|) && Square(b, |a|)
  {
    forall i, j | 0 <= i < j < |a| :: a[i][j] == b[i][j]
  }

  lemma {:induction false} RunKeepsAbove<B>(kernels: Kernels<B>, a: Matrix<B>, s: State<B>, run: seq<Event>)
    requires Inv(kernels, a, s) && Schedule(kernels, s, run)
    ensures Square(After(kernels, s, run).blocks, |a|) && SameAbove(s.blocks, After(kernels, s, run).blocks)
    decreases |run|
  {
    if run != [] {
      StepKeeps(kernels, a, s, run[0]);
      assert Target(run[0].t).1 <= Target(run[0].t).0;
      RunKeepsAbove(kernels, a, Step(kernels, s, run[0]), run[1..]);
    }
  }

  /** The theorem: every schedule that respects the dependencies and runs all tasks ends with the blocks the
      sequential program ends with: those of the blocked Cholesky recurrence on and below the diagonal, and the
      given ones above it. */
  lemma EveryScheduleFactors<B>(kernels: Kernels<B>, a: Matrix<B>, run: seq<Event>)
    requires Square(a, |a|) && Schedule(kernels, Start(a), run)
    requires forall t | IsTask(t, |a|) :: t in After(kernels, Start(a), run).done
    ensures var blocks := After(kernels, Start(a), run).blocks;
            Square(blocks, |a|) && forall i, j | 0 <= i < |a| && 0 <= j < |a| ::
              blocks[i][j] == if j <= i then Factor(kernels, a, i, j) else a[i][j]
  {
    StartIsRight(kernels, a);
    RunKeeps(kernels, a, Start(a), run);
    RunKeepsAbove(kernels, a, Start(a), run);
    forall i, j | 0 <= j <= i < |a| ensures Final(i, j) in After(kernels, Start(a), run).done {
      assert IsTask(Final(i, j), |a|);
    }
  }

  /** With kernels that keep their laws, what every such schedule leaves on and below the diagonal is the factor: times
      its transpose it is the given matrix. */
  lemma EveryScheduleMultipliesBack<B(!new)>(kernels: Kernels<B>, algebra: Algebra<B>, a: Matrix<B>, run: seq<Event>)
    requires Square(a, |a|) && Schedule(kernels, Start(a), run)
    requires forall t | IsTask(t, |a|) :: t in After(kernels, Start(a), run).done
    requires Lawful(kernels, algebra) && PivotsDefinite(kernels, algebra, a)
    ensures MultipliesBack(algebra, After(kernels, Start(a), run).blocks, a)
  {
    EveryScheduleFactors(kernels, a, run);
    FactorMultipliesBack(kernels, algebra, After(kernels, Start(a), run).blocks, a);
  }

  lemma StartIsRight<B>(kernels: Kernels<B>, a: Matrix<B>)
    requires Square(a, |a|)
    ensures Inv(kernels, a, Start(a))
  {
    assert forall i, j | 0 <= j <= i < |a| :: Progress({}, i, j, 0) == 0;
  }

  /** Where a task stands among those that write its block. */
  function Turn(t: Task): nat {
    match t
    case Syrk(_, k) => k
    case Subcholesky(j) => j
    case Gemm(_, _, k) => k
    case Solve(_, j) => j
  }

  /** A schedule that has not run some task can go on: nothing blocks for ever. */
  lemma {:induction false} UnfinishedGoesOn<B>(kernels: Kernels<B>, a: Matrix<B>, s: State<B>, t: Task)
    returns (e: Event)
    requires Inv(kernels, a, s) && IsTask(t, |a|) && t !in s.done
    ensures Enabled(s, e, |a|)
    decreases Target(t).1, Target(t).0, Turn(t)
  {
    if t in s.running {
      if o :| 0 <= o < |Operands(t)| && o !in s.running[t] {
        return Clone(t, o);
      }
      return Write(t);
    } else if AllDone(Dependencies(t), s.done) {
      return Begin(t);
    } else {
      var d :| 0 <= d < |Dependencies(t)| && Dependencies(t)[d] !in s.done;
      DependenciesBefore(t, d, |a|);
      e := UnfinishedGoesOn(kernels, a, s, Dependencies(t)[d]);
    }
  }

  lemma DependenciesBefore(t: Task, d: nat, n: nat)
    requires IsTask(t, n) && d < |Dependencies(t)|
    ensures var u := Dependencies(t)[d];
            && IsTask(u, n) && (Target(u).1 < Target(t).1
                                || (Target(u).1 == Target(t).1 && (Target(u).0 < Target(t).0
                                                                   || (Target(u).0 == Target(t).0
                                                                       && Turn(u) < Turn(t)))))
  {
  }

  /** Two tasks that run at the same time never touch the same block unless both only read it, so taking a clone or
      a copy as one step loses nothing. */
  lemma NoConflicts<B>(kernels: Kernels<B>, a: Matrix<B>, s: State<B>, t: Task, u: Task, o: nat)
    requires Inv(kernels, a, s) && t in s.running && u in s.running && t != u && o < |Operands(u)|
    ensures Target(t) != Target(u) && Target(t) != Operands(u)[o]
  {
    if Target(t) == Target(u) {
      SameTargetOrdered(s, |a|, t, u);
    } else if Target(t) == Operands(u)[o] {
      ReadsAreFinal(s, |a|, u, o);
      var p := Target(t);
      WritersAreDone(s, |a|, t, p);
    }
  }

  /** An operand other than the task's own target is final. */
  lemma ReadsAreFinal<B>(s: State<B>, n: nat, u: Task, o: nat)
    requires Closed(s, n) && u in s.running && o < |Operands(u)| && Operands(u)[o] != Target(u)
    ensures Final(Operands(u)[o].0, Operands(u)[o].1) in s.done
  {
    var d := Dependencies(u);
    match u
    case Syrk(j, k) => assert d[0] == Solve(j, k);
    case Subcholesky(j) =>
    case Gemm(i, j, k) => assert d[0] == Solve(j, k) && d[1] == Solve(i, k);
    case Solve(i, j) => assert d[|d| - 1] == Subcholesky(j);
  }

  lemma WritersAreDone<B>(s: State<B>, n: nat, t: Task, p: Place)
    requires Closed(s, n) && Target(t) == p && IsTask(t, n) && Final(p.0, p.1) in s.done
    ensures t in s.done
  {
    if t != Final(p.0, p.1) {
      assert t == Update(p.0, p.1, t.k);
      DependsOnUpdates(Final(p.0, p.1), s.done, p.0, p.1, t.k);
    }
  }

  lemma SameTargetOrdered<B>(s: State<B>, n: nat, t: Task, u: Task)
    requires Closed(s, n) && t in s.running && u in s.running && t != u
    ensures Target(t) != Target(u)
  {
    var p := Target(t);
    if Target(u) == p {
      if t == Final(p.0, p.1) {
        assert u == Update(p.0, p.1, u.k);
        DependsOnUpdates(t, s.done, p.0, p.1, u.k);
      } else if u == Final(p.0, p.1) {
        assert t == Update(p.0, p.1, t.k);
        DependsOnUpdates(u, s.done, p.0, p.1, t.k);
      } else {
        assert t == Update(p.0, p.1, t.k) && u == Update(p.0, p.1, u.k);
        if t.k < u.k {
          DependsOnUpdates(u, s.done, p.0, p.1, t.k);
        } else {
          DependsOnUpdates(t, s.done, p.0, p.1, u.k);
        }
      }
    }
  }
}
