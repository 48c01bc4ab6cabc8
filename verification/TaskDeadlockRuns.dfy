/**
 A run into a deadlock for each rule of TaskLockOrder that a program breaks, and two into deadlocks of the mapper that
 break none. Tasks rank in the order of spawning.
 */
module TaskDeadlockRuns {
  import opened Wrappers
  import opened TaskRuntime
  import opened TaskRaces
  import opened TaskDeadlocks
  import opened TaskLockOrder

  function ByAge(): Rank {
    t => t
  }

  predicate Reaches(acts: seq<Act>, w: Threads, cs: set<Clause>) {
    Moves(Begins(), acts) == Some(w) && Follows(Begins(), acts, cs, ByAge())
  }

  /** Some run that observes the clauses leads there. */
  ghost predicate Reached(w: Threads, cs: set<Clause>) {
    exists acts :: Reaches(acts, w, cs)
  }

  lemma {:induction false} Append(w: Threads, acts: seq<Act>, last: Threads, a: Act, cs: set<Clause>)
    requires Moves(w, acts) == Some(last) && Follows(w, acts, cs, ByAge())
    requires Move(last, a).Some? && ObservesAll(last, a, cs, ByAge())
    ensures Moves(w, acts + [a]) == Move(last, a) && Follows(w, acts + [a], cs, ByAge())
    decreases |acts|
  {
    var more := acts + [a];
    if acts == [] {
      assert more[0] == a && more[1..] == [];
    } else {
      assert more[0] == acts[0] && more[1..] == acts[1..] + [a];
      Append(Move(w, acts[0]).value, acts[1..], last, a, cs);
    }
  }

  /** One more step. */
  lemma Then(w: Threads, a: Act, next: Threads, cs: set<Clause>)
    requires Reached(w, cs) && Move(w, a) == Some(next) && ObservesAll(w, a, cs, ByAge())
    ensures Reached(next, cs)
  {
    var acts :| Reaches(acts, w, cs);
    Append(Begins(), acts, w, a, cs);
    assert Reaches(acts + [a], next, cs);
  }

  lemma BeginsReached(cs: set<Clause>)
    ensures Reached(Begins(), cs)
  {
    assert Reaches([], Begins(), cs);
  }

  // ---- steps that break no rule ----

  predicate Unremarkable(e: Event) {
    !e.Spawn? && !e.Await? && !e.Notify? && !e.MoveAsks?
  }

  lemma Onward(w: Threads, e: Event, next: State, cs: set<Clause>)
    requires Reached(w, cs) && Unremarkable(e) && Allowed(w, e) && Step(w.s, e) == Some(next)
    ensures Reached(w.(s := next, mapping := AfterStep(w.mapping, e)), cs)
  {
    Then(w, Other(e), w.(s := next, mapping := AfterStep(w.mapping, e)), cs);
  }

  /** A step of the mapping phase that is none of the runtime's. */
  lemma InPhase(w: Threads, a: Act, mapping: Mapping, cs: set<Clause>)
    requires Reached(w, cs) && EventOf(a).None? && Move(w, a) == Some(w.(mapping := mapping))
    ensures Reached(w.(mapping := mapping), cs)
  {
    Then(w, a, w.(mapping := mapping), cs);
  }

  // ---- a task on its way to a worker ----

  /** Queues and mapper are empty. */
  function Quiet(tasks: seq<Task>, workers: multiset<nat>): State {
    State(tasks, [], [], Idle, [], multiset{}, workers)
  }

  /** Nobody maps. */
  function Unmapped(s: State): Threads {
    Threads(s, map[], Off)
  }

  function World(tasks: seq<Task>, workers: multiset<nat>): Threads {
    Unmapped(Quiet(tasks, workers))
  }

  /** A thread outside of all tasks maps. */
  const PHASE := On(None, NotFilling)

  function InMapping(s: State): Threads {
    Threads(s, map[], PHASE)
  }

  /** The mapper takes the queue and looks. */
  lemma Looks(w: Threads, host: Option<nat>, cs: set<Clause>)
    requires Reached(w, cs) && w.mapping.Off? && w.s.mapper.Idle?
    requires host.Some? ==> BodyRuns(w, host.value) && !w.s.tasks[host.value].move
    ensures Reached(w.(mapping := On(host, Reading(Flags(w.s, w.s.newest)))), cs)
  {
    InPhase(w, Enter(host), On(host, NotFilling), cs);
    InPhase(w.(mapping := On(host, NotFilling)), TakeQueue, On(host, HasQueue), cs);
    InPhase(w.(mapping := On(host, HasQueue)), Look, On(host, Reading(Flags(w.s, w.s.newest))), cs);
  }

  lemma {:induction false} ReadsAll(w: Threads, host: Option<nat>, flags: seq<nat>, cs: set<Clause>)
    requires Reached(w.(mapping := On(host, Reading(flags))), cs) && AllKnown(w.s, flags)
    requires forall i | 0 <= i < |flags| :: w.s.tasks[flags[i]].phase.Free?
    ensures Reached(w.(mapping := On(host, Reading([]))), cs)
    decreases |flags|
  {
    if flags != [] {
      InPhase(w.(mapping := On(host, Reading(flags))), ReadFlag, On(host, Reading(flags[1..])), cs);
      ReadsAll(w, host, flags[1..], cs);
    } else {
      assert flags == [];
    }
  }

  predicate AllAssigned(s: State, ts: seq<nat>) {
    AllKnown(s, ts) && forall i | 0 <= i < |ts| :: s.tasks[ts[i]].isAssigned
  }

  lemma {:induction false} AsksAll(s: State, ts: seq<nat>)
    requires AllAssigned(s, ts)
    ensures Asked(s, ts) == ts
  {
    if ts != [] {
      AsksAll(s, ts[1..]);
      assert [ts[0]] + ts[1..] == ts;
    }
  }

  lemma FillOne(s: State, t: nat)
    requires s.newest == [t] && s.current == [] && DependenciesMapped(s, t)
    ensures Filled(s) == s.(newest := [], current := [t])
  {
    assert [] + [t] == [t];
    assert s.newest[0] == t && s.newest[1..] == [];
    assert Mappable(s, s.newest, true) == [t] && Mappable(s, s.newest, false) == [];
  }

  lemma FlagsOfOne(s: State, t: nat)
    requires Known(s, t) && AllAssigned(s, s.tasks[t].dependencies)
    ensures Flags(s, [t]) == s.tasks[t].dependencies
  {
    var deps := s.tasks[t].dependencies;
    AsksAll(s, deps);
    assert [t][1..] == [] && Flags(s, []) == [] && deps + [] == deps;
  }

  /** A task whose dependencies are all assigned, and whose mutexes nobody holds, goes from the queue to the mapper. */
  lemma ToMapper(w: Threads, t: nat, host: Option<nat>, cs: set<Clause>)
    requires Reached(w, cs) && w.mapping.Off? && w.s == Quiet(w.s.tasks, w.s.workers).(newest := [t])
    requires Known(w.s, t) && !w.s.tasks[t].isAssigned && AllAssigned(w.s, w.s.tasks[t].dependencies)
    requires var deps := w.s.tasks[t].dependencies; forall i | 0 <= i < |deps| :: w.s.tasks[deps[i]].phase.Free?
    requires host.Some? ==> BodyRuns(w, host.value) && !w.s.tasks[host.value].move
    ensures Reached(w.(s := Quiet(w.s.tasks, w.s.workers).(mapper := Placing(t)), mapping := On(host, NotFilling)), cs)
  {
    FlagsOfOne(w.s, t);
    Looks(w, host, cs);
    ReadsAll(w, host, w.s.tasks[t].dependencies, cs);
    var s1 := Quiet(w.s.tasks, w.s.workers).(current := [t]);
    FillOne(w.s, t);
    Onward(w.(mapping := On(host, Reading([]))), Fill, s1, cs);
    assert [t][..0] == [];
    Onward(w.(s := s1, mapping := On(host, NotFilling)), Dequeue,
           Quiet(w.s.tasks, w.s.workers).(mapper := Placing(t)), cs);
  }

  /** A new task enters the queue of new tasks. */
  lemma GetsReady(w: Threads, t: nat, cs: set<Clause>)
    requires Reached(w, cs) && w.mapping.Off? && Known(w.s, t)
    requires w.s.tasks[t].phase.Free? && w.s.tasks[t].status.Waiting?
    ensures Reached(w.(s := w.s.(tasks := w.s.tasks[t := w.s.tasks[t].(status := Running)],
                                 newest := [t] + w.s.newest)), cs)
  {
    var s1 := Put(w.s, t, w.s.tasks[t].(phase := Readying));
    Onward(w, GetReady(t), s1, cs);
    var s2 := w.s.(tasks := w.s.tasks[t := w.s.tasks[t].(status := Running)], newest := [t] + w.s.newest);
    assert s1.tasks[t := w.s.tasks[t].(status := Running)] == s2.tasks;
    Onward(w.(s := s1), ReadyToMap(t), s2, cs);
  }

  predicate IsFresh(task: Task) {
    task.status.Waiting? && task.phase.Free? && !task.move && !task.isAssigned && task.blocking == 0
    && task.dependencies == []
  }

  function Handed(task: Task): Task {
    task.(status := Running, isAssigned := true)
  }

  /** A new task without dependencies goes through the mapper, the scheduler and the launcher to a worker. */
  lemma Prepare(w: Threads, t: nat, cs: set<Clause>)
    requires Reached(w, cs) && w.mapping.Off? && w.s == Quiet(w.s.tasks, w.s.workers)
    requires Known(w.s, t) && IsFresh(w.s.tasks[t]) && !MapperAdds(w.s)
    ensures Reached(w.(s := Quiet(w.s.tasks[t := Handed(w.s.tasks[t])], w.s.workers + multiset{t})), cs)
  {
    var tasks := w.s.tasks[t := w.s.tasks[t].(status := Running)];
    GetsReady(w, t, cs);
    assert [t] + [] == [t];
    ToMapper(w.(s := Quiet(tasks, w.s.workers).(newest := [t])), t, None, cs);
    ToReady(w.(s := Quiet(tasks, w.s.workers).(mapper := Placing(t)), mapping := PHASE), t, cs);
    var ready := Quiet(tasks[t := Handed(w.s.tasks[t])], w.s.workers).(ready := [t]);
    InPhase(w.(s := ready, mapping := PHASE), Leave, Off, cs);
    ToWorker(w.(s := ready), t, cs);
    assert ready.tasks == w.s.tasks[t := Handed(w.s.tasks[t])];
  }

  lemma ToReady(w: Threads, t: nat, cs: set<Clause>)
    requires Reached(w, cs) && w.mapping == PHASE && w.s == Quiet(w.s.tasks, w.s.workers).(mapper := Placing(t))
    requires Known(w.s, t) && w.s.tasks[t].phase.Free? && w.s.tasks[t].blocking == 0 && !MapperAdds(w.s)
    ensures Reached(w.(s := Quiet(w.s.tasks[t := w.s.tasks[t].(isAssigned := true)], w.s.workers).(ready := [t])), cs)
  {
    var s1 := w.s.(mapper := Moving(t));
    Onward(w, PlacementSucceeds, s1, cs);
    var s2 := Quiet(w.s.tasks[t := w.s.tasks[t].(isAssigned := true)], w.s.workers).(mapper := Checking(t));
    Onward(w.(s := s1), Assign, s2, cs);
    assert [t] + [] == [t];
    Onward(w.(s := s2), CheckBlocked, Quiet(s2.tasks, w.s.workers).(ready := [t]), cs);
  }

  lemma ToWorker(w: Threads, t: nat, cs: set<Clause>)
    requires Reached(w, cs) && w.s == Quiet(w.s.tasks, w.s.workers).(ready := [t]) && t < |w.s.tasks|
    requires w.s.tasks[t].status.Running?
    ensures Reached(w.(s := Quiet(w.s.tasks, w.s.workers + multiset{t})), cs)
  {
    var s1 := Quiet(w.s.tasks, w.s.workers).(device := multiset{t});
    assert [t][..0] == [] && multiset{} + multiset{t} == multiset{t};
    Onward(w, Schedule, s1, cs);
    assert multiset{t} - multiset{t} == multiset{};
    Onward(w.(s := s1), Launch(t), Quiet(w.s.tasks, w.s.workers + multiset{t}), cs);
  }

  // ---- the steps of the tasks ----

  function Doing(task: Task, phase: Phase): Task {
    task.(phase := phase, started := true)
  }

  function WithTask(w: Threads, t: nat, task: Task, workers: multiset<nat>): Threads
    requires Known(w.s, t)
  {
    w.(s := w.s.(tasks := w.s.tasks[t := task], workers := workers))
  }

  /** A worker runs the body of `t`. */
  lemma Runs(w: Threads, t: nat, cs: set<Clause>)
    requires Reached(w, cs) && Known(w.s, t) && w.s.tasks[t].phase.Free? && w.s.tasks[t].status.Running?
    requires t in w.s.workers
    ensures Reached(WithTask(w, t, Doing(w.s.tasks[t], Executing), w.s.workers - multiset{t}), cs)
  {
    Onward(w, Begin(t), WithTask(w, t, Doing(w.s.tasks[t], Executing), w.s.workers - multiset{t}).s, cs);
  }

  lemma Ends(w: Threads, t: nat, cs: set<Clause>)
    requires Reached(w, cs) && BodyRuns(w, t)
    ensures Reached(WithTask(w, t, w.s.tasks[t].(phase := Finishing(w.s.tasks[t].dependents, true)), w.s.workers), cs)
  {
    Onward(w, Return(t, true), Put(w.s, t, w.s.tasks[t].(phase := Finishing(w.s.tasks[t].dependents, true))), cs);
  }

  /** `t` asks its first dependency, and has others to ask. */
  lemma Asks(w: Threads, t: nat, d: nat, rest: seq<nat>, cs: set<Clause>)
    requires Reached(w, cs) && Known(w.s, t) && Known(w.s, d) && t != d && rest != []
    requires w.s.tasks[t].phase == Spawning([d] + rest) && w.s.tasks[d].phase.Free? && !Terminal(w.s.tasks[d])
    ensures var dep := w.s.tasks[d];
            Reached(WithTask(WithTask(w, d, dep.(dependents := dep.dependents + [t]), w.s.workers),
                             t, w.s.tasks[t].(phase := Spawning(rest)), w.s.workers), cs)
  {
    assert ([d] + rest)[1..] == rest;
    Onward(w, Register(t), Linked(w.s, t, d, Spawning(rest)), cs);
  }

  lemma Spawns(w: Threads, deps: seq<nat>, cs: set<Clause>)
    requires Reached(w, cs) && AllKnown(w.s, deps) && ObservesAll(w, Other(Spawn(deps)), cs, ByAge())
    ensures Reached(w.(s := w.s.(tasks := w.s.tasks + [NewTask(deps)])), cs)
  {
    Then(w, Other(Spawn(deps)), w.(s := w.s.(tasks := w.s.tasks + [NewTask(deps)])), cs);
  }

  lemma Awaits(w: Threads, t: nat, deps: seq<nat>, cs: set<Clause>)
    requires Reached(w, cs) && BodyRuns(w, t) && !w.s.tasks[t].move
    requires AllKnown(w.s, deps) && ObservesAll(w, Other(Await(t, deps)), cs, ByAge())
    ensures Reached(WithTask(w, t, w.s.tasks[t].(phase := Depending(deps), blocking := |deps|, dependencies := deps),
                             w.s.workers), cs)
  {
    Then(w, Other(Await(t, deps)),
         w.(s := Put(w.s, t, w.s.tasks[t].(phase := Depending(deps), blocking := |deps|, dependencies := deps))), cs);
  }

  lemma SpawnsInBody(w: Threads, x: nat, deps: seq<nat>, cs: set<Clause>)
    requires Reached(w, cs) && BodyRuns(w, x) && !w.s.tasks[x].move
    requires AllKnown(w.s, deps) && ObservesAll(w, SpawnBy(x, deps), cs, ByAge())
    ensures Reached(w.(s := w.s.(tasks := w.s.tasks + [NewTask(deps)]), parent := w.parent[|w.s.tasks| := x]), cs)
  {
    Then(w, SpawnBy(x, deps),
         w.(s := w.s.(tasks := w.s.tasks + [NewTask(deps)]), parent := w.parent[|w.s.tasks| := x]), cs);
  }

  // ---- the runs ----

  /** A task without dependencies: handed to a worker, or in a later phase. */
  function Root(dependents: seq<nat>, phase: Phase, started: bool): Task {
    Task(false, Running, true, 0, [], dependents, phase, [], started)
  }

  function Asking(deps: seq<nat>, rest: seq<nat>): Task {
    NewTask(deps).(phase := Spawning(rest))
  }

  lemma OneTask(cs: set<Clause>)
    ensures Reached(World([Root([], Free, false)], multiset{0}), cs)
  {
    BeginsReached(cs);
    Spawns(Begins(), [], cs);
    assert [] + [NewTask([])] == [NewTask([])];
    Prepare(World([NewTask([])], multiset{}), 0, cs);
    assert [NewTask([])][0 := Root([], Free, false)] == [Root([], Free, false)];
    assert multiset{} + multiset{0} == multiset{0};
  }

  lemma TwoTasks(cs: set<Clause>)
    ensures Reached(World([Root([], Free, false), Root([], Free, false)], multiset{0, 1}), cs)
  {
    OneTask(cs);
    var root := Root([], Free, false);
    Spawns(World([root], multiset{0}), [], cs);
    assert [root] + [NewTask([])] == [root, NewTask([])];
    Prepare(World([root, NewTask([])], multiset{0}), 1, cs);
    assert [root, NewTask([])][1 := root] == [root, root];
    assert multiset{0} + multiset{1} == multiset{0, 1};
  }

  /** Somebody spawns a task on `[d] + rest`, and its registration gets past `d`. */
  lemma SpawnsAndAsks(tasks: seq<Task>, workers: multiset<nat>, d: nat, rest: seq<nat>, cs: set<Clause>)
    requires Reached(World(tasks, workers), cs) && d < |tasks| && AllKnown(World(tasks, workers).s, rest) && rest != []
    requires tasks[d].phase.Free? && !Terminal(tasks[d])
    requires ObservesAll(World(tasks, workers), Other(Spawn([d] + rest)), cs, ByAge())
    ensures Reached(World(tasks[d := tasks[d].(dependents := tasks[d].dependents + [|tasks|])]
                          + [Asking([d] + rest, rest)], workers), cs)
  {
    Spawns(World(tasks, workers), [d] + rest, cs);
    var w := World(tasks + [NewTask([d] + rest)], workers);
    Asks(w, |tasks|, d, rest, cs);
    assert w.s.tasks[d := tasks[d].(dependents := tasks[d].dependents + [|tasks|])][|tasks| := Asking([d] + rest, rest)]
        == tasks[d := tasks[d].(dependents := tasks[d].dependents + [|tasks|])] + [Asking([d] + rest, rest)];
  }

  lemma RunsAndEnds(tasks: seq<Task>, workers: multiset<nat>, t: nat, cs: set<Clause>)
    requires Reached(World(tasks, workers), cs) && t < |tasks| && t in workers
    requires tasks[t].phase.Free? && tasks[t].status.Running?
    ensures Reached(World(tasks[t := Doing(tasks[t], Finishing(tasks[t].dependents, true))], workers - multiset{t}), cs)
  {
    var w := World(tasks, workers);
    Runs(w, t, cs);
    var running := WithTask(w, t, Doing(tasks[t], Executing), workers - multiset{t});
    Ends(running, t, cs);
    assert running.s.tasks[t := Doing(tasks[t], Finishing(tasks[t].dependents, true))]
        == tasks[t := Doing(tasks[t], Finishing(tasks[t].dependents, true))];
  }

  /** The same for a task without dependents so far. */
  lemma FirstDependent(tasks: seq<Task>, workers: multiset<nat>, d: nat, rest: seq<nat>, cs: set<Clause>)
    requires Reached(World(tasks, workers), cs) && d < |tasks| && AllKnown(World(tasks, workers).s, rest) && rest != []
    requires tasks[d] == Root([], Free, false)
    requires ObservesAll(World(tasks, workers), Other(Spawn([d] + rest)), cs, ByAge())
    ensures Reached(World(tasks[d := Root([|tasks|], Free, false)] + [Asking([d] + rest, rest)], workers), cs)
  {
    SpawnsAndAsks(tasks, workers, d, rest, cs);
    assert tasks[d].dependents + [|tasks|] == [|tasks|];
  }

  lemma EndsRoot(tasks: seq<Task>, workers: multiset<nat>, t: nat, dependents: seq<nat>, cs: set<Clause>)
    requires Reached(World(tasks, workers), cs) && t < |tasks| && t in workers
    requires tasks[t] == Root(dependents, Free, false)
    ensures Reached(World(tasks[t := Root(dependents, Finishing(dependents, true), true)], workers - multiset{t}), cs)
  {
    RunsAndEnds(tasks, workers, t, cs);
  }

  /** A list that names a task twice: task 1 on [0, 0]. */
  lemma NamingTwiceDeadlocks() returns (acts: seq<Act>, w: Threads)
    ensures Reaches(acts, w, CLAUSES - {InOrder}) && Deadlocked(w, {Of(0), Of(1)})
  {
    var cs := CLAUSES - {InOrder};
    OneTask(cs);
    FirstDependent([Root([], Free, false)], multiset{0}, 0, [0], cs);
    var asked := [Root([1], Free, false), Asking([0] + [0], [0])];
    assert [Root([], Free, false)][0 := Root([1], Free, false)] + [Asking([0] + [0], [0])] == asked;
    EndsRoot(asked, multiset{0}, 0, [1], cs);
    w := World(asked[0 := Root([1], Finishing([1], true), true)], multiset{0} - multiset{0});
    acts :| Reaches(acts, w, cs);
    assert WaitsFor(w, Of(0), Of(1)) && WaitsFor(w, Of(1), Of(0));
    CircleOfTwo(w, Of(0), Of(1));
  }

  /** Task 2 has asked 0 and wants 1, which nobody has asked. */
  function TwoAndOne(workers: multiset<nat>): Threads {
    World([Root([2], Free, false), Root([], Free, false), Asking([0, 1], [1])], workers)
  }

  lemma ToTwoAndOne(cs: set<Clause>)
    requires cs <= CLAUSES
    ensures Reached(TwoAndOne(multiset{0, 1}), cs)
  {
    TwoTasks(cs);
    var root := Root([], Free, false);
    assert [0] + [1] == [0, 1];
    FirstDependent([root, root], multiset{0, 1}, 0, [1], cs);
    assert [root, root][0 := Root([2], Free, false)] + [Asking([0, 1], [1])] == TwoAndOne(multiset{0, 1}).s.tasks;
  }

  lemma ToOpposite(cs: set<Clause>)
    requires cs <= CLAUSES && InOrder !in cs
    ensures Reached(World([Root([2], Free, false), Root([3], Free, false), Asking([0, 1], [1]), Asking([1, 0], [0])],
                          multiset{0, 1}), cs)
  {
    ToTwoAndOne(cs);
    var before := TwoAndOne(multiset{0, 1}).s.tasks;
    FirstDependent(before, multiset{0, 1}, 1, [0], cs);
    assert [1] + [0] == [1, 0];
    assert before[1 := Root([3], Free, false)] + [Asking([1, 0], [0])]
        == [Root([2], Free, false), Root([3], Free, false), Asking([0, 1], [1]), Asking([1, 0], [0])];
  }

  /** Tasks 0 and 1 notify, in opposite orders. */
  function Opposite(): Threads {
    World([Root([2], Finishing([2], true), true), Root([3], Finishing([3], true), true), Asking([0, 1], [1]),
           Asking([1, 0], [0])], multiset{})
  }

  lemma OppositeEnd(cs: set<Clause>)
    requires cs <= CLAUSES && InOrder !in cs
    ensures Reached(Opposite(), cs)
  {
    ToOpposite(cs);
    var tasks := [Root([2], Free, false), Root([3], Free, false), Asking([0, 1], [1]), Asking([1, 0], [0])];
    EndsRoot(tasks, multiset{0, 1}, 0, [2], cs);
    var ended := tasks[0 := Root([2], Finishing([2], true), true)];
    assert multiset{0, 1} - multiset{0} == multiset{1} && multiset{1} - multiset{1} == multiset{};
    EndsRoot(ended, multiset{1}, 1, [3], cs);
    assert ended[1 := Root([3], Finishing([3], true), true)] == Opposite().s.tasks;
  }

  /** Lists in opposite orders: task 2 on [0, 1] and task 3 on [1, 0]. Nobody awaits anything. */
  lemma OppositeOrdersDeadlock() returns (acts: seq<Act>, w: Threads)
    ensures Reaches(acts, w, CLAUSES - {InOrder}) && Deadlocked(w, {Of(0), Of(1), Of(2), Of(3)})
  {
    OppositeEnd(CLAUSES - {InOrder});
    w := Opposite();
    acts :| Reaches(acts, w, CLAUSES - {InOrder});
    assert WaitsFor(w, Of(0), Of(2)) && WaitsFor(w, Of(2), Of(1)) && WaitsFor(w, Of(1), Of(3));
    assert WaitsFor(w, Of(3), Of(0));
    CircleOfFour(w, Of(0), Of(2), Of(1), Of(3));
  }

  lemma CircleOfTwo(w: Threads, a: Node, b: Node)
    requires WaitsFor(w, a, b) && WaitsFor(w, b, a)
    ensures Deadlocked(w, {a, b})
  {
    CircleDeadlocks(w, [a, b]);
    assert Members([a, b]) == {a, b};
  }

  lemma CircleOfThree(w: Threads, a: Node, b: Node, c: Node)
    requires WaitsFor(w, a, b) && WaitsFor(w, b, c) && WaitsFor(w, c, a)
    ensures Deadlocked(w, {a, b, c})
  {
    CircleDeadlocks(w, [a, b, c]);
    assert Members([a, b, c]) == {a, b, c};
  }

  lemma CircleOfFour(w: Threads, a: Node, b: Node, c: Node, d: Node)
    requires WaitsFor(w, a, b) && WaitsFor(w, b, c) && WaitsFor(w, c, d) && WaitsFor(w, d, a)
    ensures Deadlocked(w, {a, b, c, d})
  {
    CircleDeadlocks(w, [a, b, c, d]);
    assert Members([a, b, c, d]) == {a, b, c, d};
  }

  lemma ToUnregistered(cs: set<Clause>)
    requires cs <= CLAUSES
    ensures Reached(World([Root([], Free, false), NewTask([0])], multiset{0}), cs)
  {
    OneTask(cs);
    Spawns(World([Root([], Free, false)], multiset{0}), [0], cs);
    assert [Root([], Free, false)] + [NewTask([0])] == [Root([], Free, false), NewTask([0])];
  }

  /** Task 1 on [0] has not registered yet, and task 2 on [0, 1] waits for it. */
  lemma ToEarly(cs: set<Clause>)
    requires cs <= CLAUSES && Exposed !in cs
    ensures Reached(World([Root([2], Free, false), NewTask([0]), Asking([0, 1], [1])], multiset{0}), cs)
  {
    ToUnregistered(cs);
    var tasks := [Root([], Free, false), NewTask([0])];
    assert [0] + [1] == [0, 1];
    FirstDependent(tasks, multiset{0}, 0, [1], cs);
    assert tasks[0 := Root([2], Free, false)] + [Asking([0, 1], [1])]
        == [Root([2], Free, false), NewTask([0]), Asking([0, 1], [1])];
  }

  /** A task is named before its registration is over: task 2 on [0, 1] while 1 has still to ask 0. */
  lemma NamingEarlyDeadlocks() returns (acts: seq<Act>, w: Threads)
    ensures Reaches(acts, w, CLAUSES - {Exposed}) && Deadlocked(w, {Of(0), Of(1), Of(2)})
  {
    var cs := CLAUSES - {Exposed};
    ToEarly(cs);
    var asked := [Root([2], Free, false), NewTask([0]), Asking([0, 1], [1])];
    EndsRoot(asked, multiset{0}, 0, [2], cs);
    w := World(asked[0 := Root([2], Finishing([2], true), true)], multiset{0} - multiset{0});
    acts :| Reaches(acts, w, cs);
    assert WaitsFor(w, Of(0), Of(2)) && WaitsFor(w, Of(2), Of(1)) && WaitsFor(w, Of(1), Of(0));
    CircleOfThree(w, Of(0), Of(2), Of(1));
    assert {Of(0), Of(2), Of(1)} == {Of(0), Of(1), Of(2)};
  }

  /** Task 0 is about to notify 2, which waits for the registration with 1; the body of 1 runs. */
  function Half(): Threads {
    World([Root([2], Finishing([2], true), true), Root([], Executing, true), Asking([0, 1], [1])], multiset{})
  }

  lemma ToHalf(cs: set<Clause>)
    requires cs <= CLAUSES
    ensures Reached(Half(), cs)
  {
    ToTwoAndOne(cs);
    var tasks := TwoAndOne(multiset{0, 1}).s.tasks;
    EndsRoot(tasks, multiset{0, 1}, 0, [2], cs);
    var ended := tasks[0 := Root([2], Finishing([2], true), true)];
    Runs(World(ended, multiset{0, 1} - multiset{0}), 1, cs);
    assert multiset{0, 1} - multiset{0} - multiset{1} == multiset{};
    assert ended[1 := Root([], Executing, true)] == Half().s.tasks;
  }

  lemma NobodySpawns(w: Threads, t: nat)
    requires w.parent == map[] && !Hosts(w, t) && Known(w.s, t) && w.s.tasks[t].phase.Executing?
    ensures BodyRuns(w, t)
  {
  }

  /** Awaiting an older task: 1 awaits 0, which is about to notify 2, which asks 1. */
  lemma AwaitingOlderDeadlocks() returns (acts: seq<Act>, w: Threads)
    ensures Reaches(acts, w, CLAUSES - {Higher}) && Deadlocked(w, {Of(0), Of(1), Of(2)})
  {
    var cs := CLAUSES - {Higher};
    ToHalf(cs);
    NobodySpawns(Half(), 1);
    Awaits(Half(), 1, [0], cs);
    var task := Root([], Executing, true);
    w := WithTask(Half(), 1, task.(phase := Depending([0]), blocking := 1, dependencies := [0]), multiset{});
    acts :| Reaches(acts, w, cs);
    assert WaitsFor(w, Of(0), Of(2)) && WaitsFor(w, Of(2), Of(1)) && WaitsFor(w, Of(1), Of(0));
    CircleOfThree(w, Of(0), Of(2), Of(1));
    assert {Of(0), Of(2), Of(1)} == {Of(0), Of(1), Of(2)};
  }

  /** Spawning on an older task: the body of 1 spawns 3 on [0]. No list names more than one task in a wrong order. */
  lemma SpawningOnOlderDeadlocks() returns (acts: seq<Act>, w: Threads)
    ensures Reaches(acts, w, CLAUSES - {Higher}) && Deadlocked(w, {Of(0), Of(1), Of(2), Of(3)})
  {
    var cs := CLAUSES - {Higher};
    ToHalf(cs);
    NobodySpawns(Half(), 1);
    SpawnsInBody(Half(), 1, [0], cs);
    w := Threads(Half().s.(tasks := Half().s.tasks + [NewTask([0])]), Half().parent[3 := 1], Off);
    acts :| Reaches(acts, w, cs);
    assert WaitsFor(w, Of(0), Of(2)) && WaitsFor(w, Of(2), Of(1)) && WaitsFor(w, Of(1), Of(3))
        && WaitsFor(w, Of(3), Of(0));
    CircleOfFour(w, Of(0), Of(2), Of(1), Of(3));
    assert {Of(0), Of(2), Of(1), Of(3)} == {Of(0), Of(1), Of(2), Of(3)};
  }

  // ---- after the race ----

  lemma ToMoving(cs: set<Clause>)
    requires cs <= CLAUSES
    ensures Reached(InMapping(Quiet([NewTask([]).(status := Running)], multiset{}).(mapper := Moving(0))), cs)
  {
    BeginsReached(cs);
    Spawns(Begins(), [], cs);
    assert [] + [NewTask([])] == [NewTask([])];
    GetsReady(World([NewTask([])], multiset{}), 0, cs);
    var spawned := NewTask([]).(status := Running);
    assert [NewTask([])][0 := spawned] == [spawned] && [0] + [] == [0];
    ToMapper(Unmapped(Quiet([spawned], multiset{}).(newest := [0])), 0, None, cs);
    var moving := Quiet([spawned], multiset{}).(mapper := Moving(0));
    Onward(InMapping(moving.(mapper := Placing(0))), PlacementSucceeds, moving, cs);
  }

  /** Task 0 while its data movement task 1 has not ended, and task 1. */
  function Waits(isAssigned: bool): Task {
    Task(false, Running, isAssigned, 1, [1], [], Free, [], false)
  }

  function ToMove(): Task {
    Task(true, Running, true, 0, [], [0], Free, [], false)
  }

  lemma ToMoveAdded(cs: set<Clause>)
    requires cs <= CLAUSES
    ensures Reached(InMapping(Quiet([Waits(false), ToMove()], multiset{}).(mapper := Moving(0))), cs)
  {
    ToMoving(cs);
    var spawned := NewTask([]).(status := Running);
    assert [spawned][0 := Waits(false)] + [ToMove()] == [Waits(false), ToMove()] && [] + [1] == [1];
    Onward(InMapping(Quiet([spawned], multiset{}).(mapper := Moving(0))), AddMove,
           Quiet([Waits(false), ToMove()], multiset{}).(mapper := Moving(0)), cs);
  }

  lemma ToMoveQueued(cs: set<Clause>)
    requires cs <= CLAUSES
    ensures Reached(InMapping(Quiet([Waits(false), ToMove()], multiset{}).(mapper := Moving(0), ready := [1])), cs)
  {
    ToMoveAdded(cs);
    var s := Quiet([Waits(false), ToMove()], multiset{}).(mapper := Moving(0));
    assert 1 in Waits(false).dependencies && [1] + [] == [1];
    Onward(InMapping(s), EnqueueMove(1), s.(ready := [1]), cs);
  }

  /** Task 0 is assigned, its data movement task 1 has moved, and nobody has checked 0 yet. */
  lemma ToRace(cs: set<Clause>)
    requires cs <= CLAUSES
    ensures Reached(InMapping(Quiet([Waits(true), Doing(ToMove(), Finishing([0], true))], multiset{})
                              .(mapper := Checking(0))), cs)
  {
    ToMoveQueued(cs);
    AssignAndLaunch(cs);
    RunTheMove(cs);
  }

  /** The data movement task goes to a worker. */
  lemma LaunchMove(tasks: seq<Task>, cs: set<Clause>)
    requires Reached(InMapping(Quiet(tasks, multiset{}).(mapper := Checking(0), ready := [1])), cs) && |tasks| == 2
    requires !tasks[1].status.Completed?
    ensures Reached(InMapping(Quiet(tasks, multiset{1}).(mapper := Checking(0))), cs)
  {
    var s := Quiet(tasks, multiset{}).(mapper := Checking(0), device := multiset{1});
    assert [1][..0] == [] && multiset{} + multiset{1} == multiset{1};
    Onward(InMapping(Quiet(tasks, multiset{}).(mapper := Checking(0), ready := [1])), Schedule, s, cs);
    assert multiset{1} - multiset{1} == multiset{};
    Onward(InMapping(s), Launch(1), Quiet(tasks, multiset{1}).(mapper := Checking(0)), cs);
  }

  lemma AssignAndLaunch(cs: set<Clause>)
    requires Reached(InMapping(Quiet([Waits(false), ToMove()], multiset{}).(mapper := Moving(0), ready := [1])), cs)
    ensures Reached(InMapping(Quiet([Waits(true), ToMove()], multiset{1}).(mapper := Checking(0))), cs)
  {
    var tasks := [Waits(true), ToMove()];
    assert [Waits(false), ToMove()][0 := Waits(true)] == tasks;
    Onward(InMapping(Quiet([Waits(false), ToMove()], multiset{}).(mapper := Moving(0), ready := [1])), Assign,
           Quiet(tasks, multiset{}).(mapper := Checking(0), ready := [1]), cs);
    LaunchMove(tasks, cs);
  }

  lemma RunTheMove(cs: set<Clause>)
    requires Reached(InMapping(Quiet([Waits(true), ToMove()], multiset{1}).(mapper := Checking(0))), cs)
    ensures Reached(InMapping(Quiet([Waits(true), Doing(ToMove(), Finishing([0], true))], multiset{})
                              .(mapper := Checking(0))), cs)
  {
    var s1 := Quiet([Waits(true), ToMove()], multiset{1}).(mapper := Checking(0));
    var s2 := Quiet([Waits(true), Doing(ToMove(), Executing)], multiset{}).(mapper := Checking(0));
    assert s1.tasks[1 := Doing(ToMove(), Executing)] == s2.tasks && multiset{1} - multiset{1} == multiset{};
    Onward(InMapping(s1), Begin(1), s2, cs);
    NobodySpawns(InMapping(s2), 1);
    Ends(InMapping(s2), 1, cs);
    assert s2.tasks[1 := Doing(ToMove(), Finishing([0], true))]
        == [Waits(true), Doing(ToMove(), Finishing([0], true))];
  }

  lemma RaceNotifies(cs: set<Clause>)
    requires cs <= CLAUSES && NoRace !in cs
    ensures Reached(InMapping(Quiet([Twice([1], Free, false), Moved()], multiset{})
                              .(mapper := Checking(0), ready := [0])), cs)
  {
    ToRace(cs);
    var s := Quiet([Waits(true), Doing(ToMove(), Finishing([0], true))], multiset{}).(mapper := Checking(0));
    var next := Quiet([Twice([1], Free, false), Moved()], multiset{}).(mapper := Checking(0), ready := [0]);
    assert [0][1..] == [] && [0] + [] == [0];
    assert s.tasks[1 := Moved()][0 := Twice([1], Free, false)] == next.tasks;
    Then(InMapping(s), Other(Notify(1)), InMapping(next), cs);
  }

  /** The race: task 0 reaches two workers. */
  lemma ToTwice(cs: set<Clause>)
    requires cs <= CLAUSES && NoRace !in cs
    ensures Reached(World([Twice([1], Free, false), Moved()], multiset{0, 0}), cs)
  {
    RaceNotifies(cs);
    var tasks := [Twice([1], Free, false), Moved()];
    assert [0] + [0] == [0, 0];
    Onward(InMapping(Quiet(tasks, multiset{}).(mapper := Checking(0), ready := [0])), CheckBlocked,
           Quiet(tasks, multiset{}).(ready := [0, 0]), cs);
    InPhase(InMapping(Quiet(tasks, multiset{}).(ready := [0, 0])), Leave, Off, cs);
    TwiceToWorkers(tasks, cs);
  }

  lemma TwiceToWorkers(tasks: seq<Task>, cs: set<Clause>)
    requires Reached(Unmapped(Quiet(tasks, multiset{}).(ready := [0, 0])), cs) && |tasks| > 0
    requires tasks[0].status.Running?
    ensures Reached(World(tasks, multiset{0, 0}), cs)
  {
    var s0 := Quiet(tasks, multiset{}).(ready := [0, 0]);
    var s1 := Quiet(tasks, multiset{}).(ready := [0], device := multiset{0});
    assert [0, 0][..1] == [0] && multiset{} + multiset{0} == multiset{0};
    Onward(Unmapped(s0), Schedule, s1, cs);
    var s2 := Quiet(tasks, multiset{0}).(ready := [0]);
    assert multiset{0} - multiset{0} == multiset{};
    Onward(Unmapped(s1), Launch(0), s2, cs);
    ToWorker(Unmapped(s2), 0, cs);
    assert multiset{0} + multiset{0} == multiset{0, 0};
  }

  /** Task 0, which awaits task 2 or is to run. */
  function Twice(dependencies: seq<nat>, phase: Phase, started: bool): Task {
    Task(false, Running, true, if dependencies == [2] then 1 else 0, dependencies, [], phase, [], started)
  }

  function Moved(): Task {
    Task(true, Running, true, 0, [], [0], Finishing([], true), [], true)
  }

  /** The first worker runs task 0, which spawns task 2. */
  lemma FirstRun(cs: set<Clause>)
    requires cs <= CLAUSES
    requires NoRace !in cs
    ensures Reached(World([Twice([1], Executing, true), Moved(), NewTask([])], multiset{0}), cs)
  {
    ToTwice(cs);
    var w := World([Twice([1], Free, false), Moved()], multiset{0, 0});
    Runs(w, 0, cs);
    var running := [Twice([1], Executing, true), Moved()];
    assert [Twice([1], Free, false), Moved()][0 := Twice([1], Executing, true)] == running;
    assert multiset{0, 0} - multiset{0} == multiset{0};
    Spawns(World(running, multiset{0}), [], cs);
    assert running + [NewTask([])] == [Twice([1], Executing, true), Moved(), NewTask([])];
  }

  /** And awaits it. */
  lemma FirstAwait(cs: set<Clause>)
    requires cs <= CLAUSES
    requires NoRace !in cs
    ensures Reached(World([Twice([2], Depending([2]), true), Moved(), NewTask([])], multiset{0}), cs)
  {
    FirstRun(cs);
    var three := [Twice([1], Executing, true), Moved(), NewTask([])];
    var w3 := World(three, multiset{0});
    NobodySpawns(w3, 0);
    Awaits(w3, 0, [2], cs);
    assert three[0 := Twice([2], Depending([2]), true)] == [Twice([2], Depending([2]), true), Moved(), NewTask([])];
  }

  lemma Released(cs: set<Clause>)
    requires cs <= CLAUSES && NoRace !in cs
    ensures Reached(World([Twice([2], Free, true), Moved(), NewTask([]).(dependents := [0])], multiset{0}), cs)
  {
    FirstAwait(cs);
    var s0 := Quiet([Twice([2], Depending([2]), true), Moved(), NewTask([])], multiset{0});
    var asked := NewTask([]).(dependents := [0]);
    var s1 := Quiet([Twice([2], Depending([]), true), Moved(), asked], multiset{0});
    assert [2][1..] == [] && [] + [0] == [0];
    assert s0.tasks[2 := asked][0 := Twice([2], Depending([]), true)] == s1.tasks;
    Onward(Unmapped(s0), Depend(0), s1, cs);
    var s2 := Quiet([Twice([2], Free, true), Moved(), asked], multiset{0});
    assert s1.tasks[0 := Twice([2], Free, true)] == s2.tasks;
    Onward(Unmapped(s1), Resume(0), s2, cs);
  }

  /** It is registered and lets go of its mutex; task 2 is mapped and handed to a worker. */
  lemma Registered(cs: set<Clause>)
    requires cs <= CLAUSES && NoRace !in cs
    ensures Reached(World([Twice([2], Free, true), Moved(), Root([0], Free, false)], multiset{0, 2}), cs)
  {
    Released(cs);
    var tasks := [Twice([2], Free, true), Moved(), NewTask([]).(dependents := [0])];
    Prepare(World(tasks, multiset{0}), 2, cs);
    assert tasks[2 := Root([0], Free, false)] == [Twice([2], Free, true), Moved(), Root([0], Free, false)];
    assert multiset{0} + multiset{2} == multiset{0, 2};
  }

  lemma SecondRun(cs: set<Clause>)
    requires cs <= CLAUSES && NoRace !in cs
    ensures Reached(World([Twice([2], Executing, true), Moved(), Root([0], Finishing([0], true), true)], multiset{}),
                    cs)
  {
    Registered(cs);
    var tasks := [Twice([2], Free, true), Moved(), Root([0], Free, false)];
    EndsRoot(tasks, multiset{0, 2}, 2, [0], cs);
    var ended := tasks[2 := Root([0], Finishing([0], true), true)];
    assert multiset{0, 2} - multiset{2} == multiset{0} && multiset{0} - multiset{0} == multiset{};
    Runs(World(ended, multiset{0}), 0, cs);
    assert ended[0 := Twice([2], Executing, true)]
        == [Twice([2], Executing, true), Moved(), Root([0], Finishing([0], true), true)];
  }

  /** Task 2 is about to notify 0, which asks it again. */
  function AwaitedTwice(): Threads {
    World([Twice([2], Depending([2]), true), Moved(), Root([0], Finishing([0], true), true)], multiset{})
  }

  lemma SecondAwait(cs: set<Clause>)
    requires cs <= CLAUSES && NoRace !in cs
    ensures Reached(AwaitedTwice(), cs)
  {
    SecondRun(cs);
    var w := World([Twice([2], Executing, true), Moved(), Root([0], Finishing([0], true), true)], multiset{});
    NobodySpawns(w, 0);
    Awaits(w, 0, [2], cs);
    assert w.s.tasks[0 := Twice([2], Depending([2]), true)] == AwaitedTwice().s.tasks;
  }

  /** After the race: while task 2 is about to notify task 0, the second worker runs 0, which awaits 2 again. */
  lemma RacingDeadlocks() returns (acts: seq<Act>, w: Threads)
    ensures Reaches(acts, w, CLAUSES - {NoRace}) && Deadlocked(w, {Of(0), Of(2)})
  {
    SecondAwait(CLAUSES - {NoRace});
    w := AwaitedTwice();
    acts :| Reaches(acts, w, CLAUSES - {NoRace});
    assert WaitsFor(w, Of(0), Of(2)) && WaitsFor(w, Of(2), Of(0));
    CircleOfTwo(w, Of(0), Of(2));
  }

  // ---- deadlocks of the mapper ----

  /** `t` asks the last of its dependencies. */
  lemma AsksLast(w: Threads, t: nat, d: nat, cs: set<Clause>)
    requires Reached(w, cs) && Known(w.s, t) && Known(w.s, d) && t != d
    requires w.s.tasks[t].phase == Spawning([d]) && w.s.tasks[d].phase.Free? && !Terminal(w.s.tasks[d])
    ensures var dep := w.s.tasks[d];
            Reached(WithTask(WithTask(w, d, dep.(dependents := dep.dependents + [t]), w.s.workers),
                             t, w.s.tasks[t].(phase := Free), w.s.workers), cs)
  {
    assert [d][1..] == [];
    Onward(w, Register(t), Linked(w.s, t, d, Free), cs);
  }

  function OnZero(): Task {
    NewTask([0]).(phase := Free)
  }

  /** Task 1 on [0] is in the queue of new tasks. */
  function OneQueued(): Threads {
    Unmapped(Quiet([Root([1], Free, false), OnZero().(status := Running)], multiset{0}).(newest := [1]))
  }

  lemma ToOneOnZero(cs: set<Clause>)
    requires cs <= CLAUSES
    ensures Reached(World([Root([1], Free, false), OnZero()], multiset{0}), cs)
  {
    ToUnregistered(cs);
    var tasks := [Root([], Free, false), NewTask([0])];
    assert [] + [1] == [1];
    AsksLast(World(tasks, multiset{0}), 1, 0, cs);
    assert tasks[0 := Root([1], Free, false)][1 := OnZero()] == [Root([1], Free, false), OnZero()];
  }

  lemma ToOneQueued(cs: set<Clause>)
    requires cs <= CLAUSES
    ensures Reached(OneQueued(), cs)
  {
    ToOneOnZero(cs);
    GetsReady(World([Root([1], Free, false), OnZero()], multiset{0}), 1, cs);
    assert [Root([1], Free, false), OnZero()][1 := OnZero().(status := Running)] == OneQueued().s.tasks;
    assert [1] + [] == [1];
  }

  /** Task 2, also on [0], has registered. */
  function TwoOnZero(zero: Task, workers: multiset<nat>): Threads {
    Unmapped(Quiet([zero, OnZero().(status := Running), OnZero()], workers).(newest := [1]))
  }

  lemma ToTwoFree(cs: set<Clause>)
    requires cs <= CLAUSES
    ensures Reached(TwoOnZero(Root([1, 2], Free, false), multiset{0}), cs)
  {
    ToOneQueued(cs);
    Spawns(OneQueued(), [0], cs);
    var spawned := Unmapped(Quiet([Root([1], Free, false), OnZero().(status := Running), NewTask([0])], multiset{0})
                            .(newest := [1]));
    assert OneQueued().s.tasks + [NewTask([0])] == spawned.s.tasks && [1] + [2] == [1, 2];
    AsksLast(spawned, 2, 0, cs);
    assert spawned.s.tasks[0 := Root([1, 2], Free, false)][2 := OnZero()]
        == TwoOnZero(Root([1, 2], Free, false), multiset{0}).s.tasks;
  }

  /** And the body of 0 runs. */
  lemma ToTwoOnZero(cs: set<Clause>)
    requires cs <= CLAUSES
    ensures Reached(TwoOnZero(Root([1, 2], Executing, true), multiset{}), cs)
  {
    ToTwoFree(cs);
    var w := TwoOnZero(Root([1, 2], Free, false), multiset{0});
    Runs(w, 0, cs);
    assert w.s.tasks[0 := Root([1, 2], Executing, true)]
        == TwoOnZero(Root([1, 2], Executing, true), multiset{}).s.tasks;
    assert multiset{0} - multiset{0} == multiset{};
  }

  /** The mapper fills its queue, and is about to read the flag of 0. */
  function Filling(zero: Task, blocking: nat, phase: Phase): Threads {
    Threads(Quiet([zero, OnZero().(status := Running, blocking := blocking), OnZero().(phase := phase)], multiset{})
            .(newest := [1]), map[], On(None, Reading([0])))
  }

  lemma ToFilling(cs: set<Clause>)
    requires cs <= CLAUSES
    ensures Reached(Filling(Root([1, 2], Executing, true), 1, Readying), cs)
  {
    ToTwoOnZero(cs);
    var w := Filling(Root([1, 2], Executing, true), 1, Free);
    FlagsOfOne(w.s, 1);
    Looks(Unmapped(w.s), None, cs);
    var next := Filling(Root([1, 2], Executing, true), 1, Readying);
    assert w.s.tasks[2 := OnZero().(phase := Readying)] == next.s.tasks;
    Onward(w, GetReady(2), next.s, cs);
  }

  lemma ToNotifying(cs: set<Clause>)
    requires cs <= CLAUSES
    ensures Reached(Filling(Root([1, 2], Finishing([1, 2], true), true), 1, Readying), cs)
  {
    ToFilling(cs);
    var w := Filling(Root([1, 2], Executing, true), 1, Readying);
    NobodySpawns(w, 0);
    Ends(w, 0, cs);
    var next := Filling(Root([1, 2], Finishing([1, 2], true), true), 1, Readying);
    assert w.s.tasks[0 := next.s.tasks[0]] == next.s.tasks;
  }

  lemma ToNotified(cs: set<Clause>)
    requires cs <= CLAUSES
    ensures Reached(Filling(Root([1, 2], Finishing([2], true), true), 0, Readying), cs)
  {
    ToNotifying(cs);
    var w := Filling(Root([1, 2], Finishing([1, 2], true), true), 1, Readying);
    var next := Filling(Root([1, 2], Finishing([2], true), true), 0, Readying);
    assert [1, 2][1..] == [2] && w.s.tasks[0 := next.s.tasks[0]][1 := next.s.tasks[1]] == next.s.tasks;
    assert Step(w.s, Notify(0)) == Some(next.s) && !Races(w.s, Notify(0));
    Then(w, Other(Notify(0)), next, cs);
  }

  /** The mapper waits for the mutex of 0, whose flag it reads for task 1; 0 waits to notify 2; and 2 waits to enter the
      queue that the mapper has. */
  lemma FillingDeadlocks() returns (acts: seq<Act>, w: Threads)
    ensures Reaches(acts, w, CLAUSES) && Deadlocked(w, {Mapper, Of(0), Of(2)})
  {
    ToNotified(CLAUSES);
    w := Filling(Root([1, 2], Finishing([2], true), true), 0, Readying);
    acts :| Reaches(acts, w, CLAUSES);
    FillingGoesRound();
  }

  lemma FillingGoesRound()
    ensures Deadlocked(Filling(Root([1, 2], Finishing([2], true), true), 0, Readying), {Mapper, Of(0), Of(2)})
  {
    var w := Filling(Root([1, 2], Finishing([2], true), true), 0, Readying);
    assert WaitsFor(w, Mapper, Of(0)) && WaitsFor(w, Of(0), Of(2)) && WaitsFor(w, Of(2), Mapper);
    CircleOfThree(w, Mapper, Of(0), Of(2));
  }

  /** The body of 0 has spawned task 2, which is in the queue with 1. */
  function SpawnedInBody(): State {
    Quiet([Root([1], Executing, true), OnZero().(status := Running), NewTask([]).(status := Running)], multiset{})
    .(newest := [2, 1])
  }

  lemma ToSpawnedInBody(cs: set<Clause>)
    requires cs <= CLAUSES
    ensures Reached(Threads(SpawnedInBody(), map[2 := 0], Off), cs)
  {
    ToOneQueued(cs);
    var one := OnZero().(status := Running);
    Runs(OneQueued(), 0, cs);
    assert OneQueued().s.tasks[0 := Root([1], Executing, true)] == [Root([1], Executing, true), one];
    assert multiset{0} - multiset{0} == multiset{};
    var running := Quiet([Root([1], Executing, true), one], multiset{}).(newest := [1]);
    NobodySpawns(Unmapped(running), 0);
    SpawnsInBody(Unmapped(running), 0, [], cs);
    var spawned := running.(tasks := [Root([1], Executing, true), one, NewTask([])]);
    assert running.tasks + [NewTask([])] == spawned.tasks && map[][2 := 0] == map[2 := 0];
    GetsReady(Threads(spawned, map[2 := 0], Off), 2, cs);
    assert spawned.tasks[2 := NewTask([]).(status := Running)] == SpawnedInBody().tasks && [2] + [1] == [2, 1];
  }

  lemma FlagsInBody()
    ensures Flags(SpawnedInBody(), SpawnedInBody().newest) == [0]
  {
    var s := SpawnedInBody();
    FlagsOfOne(s, 1);
    assert Asked(s, s.tasks[2].dependencies) == [] && [] + [0] == [0];
    assert s.newest[1..] == [1] && s.newest[0] == 2;
  }

  /** A body spawns a task, and the thread goes on as the mapper: it reads the flag of the task it runs itself. */
  lemma FillingInABodyDeadlocks() returns (acts: seq<Act>, w: Threads)
    ensures Reaches(acts, w, CLAUSES) && Deadlocked(w, {Mapper, Of(0)})
  {
    ToSpawnedInBody(CLAUSES);
    var s := SpawnedInBody();
    FlagsInBody();
    Looks(Threads(s, map[2 := 0], Off), Some(0), CLAUSES);
    w := Threads(s, map[2 := 0], On(Some(0), Reading([0])));
    acts :| Reaches(acts, w, CLAUSES);
    assert WaitsFor(w, Mapper, Of(0)) && WaitsFor(w, Of(0), Mapper);
    CircleOfTwo(w, Mapper, Of(0));
  }
}
