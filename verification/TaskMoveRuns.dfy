/** Two runs in which the mapper is still adding dependencies to a data movement task when the first one finishes. */
module TaskMoveRuns {
  import opened Wrappers
  import opened TaskRuntime
  import opened TaskRaces
  import opened TaskRuntimeTheorems
  import opened TaskDeadlocks
  import opened TaskLockOrder
  import opened TaskDeadlockRuns
  import opened TaskMoves
  import M = TaskMapping

  // ---- task 2 on [0, 1], in the mapper's hand, with a data movement task ----

  /** Task 2 while the mapper has it. */
  function Mapped(blocking: int): Task {
    Task(false, Running, false, blocking, [0, 1, 3], [], Free, [0, 1], false)
  }

  /** Task 3, which moves data for 2. */
  function Moving3(dependencies: seq<nat>, blocking: int, phase: Phase): Task {
    Task(true, Running, true, blocking, dependencies, [2], phase, [], false)
  }

  function InHand2(tasks: seq<Task>, workers: multiset<nat>): Threads {
    InMapping(Quiet(tasks, workers).(mapper := Moving(2)))
  }

  lemma Spawned2(cs: set<Clause>)
    requires cs <= CLAUSES
    ensures Reached(World([Root([2], Free, false), Root([2], Free, false), NewTask([0, 1]).(phase := Free)],
                          multiset{0, 1}), cs)
  {
    ToTwoAndOne(cs);
    var w := TwoAndOne(multiset{0, 1});
    assert [1][1..] == [] && [] + [2] == [2];
    Onward(w, Register(2), Linked(w.s, 2, 1, Free), cs);
    assert w.s.tasks[1 := Root([2], Free, false)][2 := NewTask([0, 1]).(phase := Free)]
        == [Root([2], Free, false), Root([2], Free, false), NewTask([0, 1]).(phase := Free)];
  }

  lemma Placing2(cs: set<Clause>)
    requires cs <= CLAUSES
    ensures Reached(InMapping(Quiet([Root([2], Free, false), Root([2], Free, false),
                                     NewTask([0, 1]).(phase := Free, status := Running)], multiset{0, 1})
                              .(mapper := Placing(2))), cs)
  {
    Spawned2(cs);
    var root, task := Root([2], Free, false), NewTask([0, 1]).(phase := Free);
    var tasks := [root, root, task.(status := Running)];
    GetsReady(World([root, root, task], multiset{0, 1}), 2, cs);
    assert [root, root, task][2 := task.(status := Running)] == tasks && [2] + [] == [2];
    ToMapper(Unmapped(Quiet(tasks, multiset{0, 1}).(newest := [2])), 2, None, cs);
  }

  lemma ToInHand2(cs: set<Clause>)
    requires cs <= CLAUSES
    ensures Reached(InHand2([Root([2], Free, false), Root([2], Free, false), Mapped(3), Moving3([], 0, Free)],
                            multiset{0, 1}), cs)
  {
    Placing2(cs);
    var root, task := Root([2], Free, false), NewTask([0, 1]).(phase := Free, status := Running);
    var quiet := Quiet([root, root, task], multiset{0, 1});
    Onward(InMapping(quiet.(mapper := Placing(2))), PlacementSucceeds, quiet.(mapper := Moving(2)), cs);
    assert [root, root, task][2 := Mapped(3)] + [Moving3([], 0, Free)] == [root, root, Mapped(3), Moving3([], 0, Free)];
    assert [0, 1] + [3] == [0, 1, 3];
    Onward(InMapping(quiet.(mapper := Moving(2))), AddMove,
           quiet.(tasks := [root, root, Mapped(3), Moving3([], 0, Free)], mapper := Moving(2)), cs);
  }

  // ---- steps ----

  /** The mapper is about to add `d` to the dependencies of task 3. */
  lemma Asks3(tasks: seq<Task>, workers: multiset<nat>, d: nat, cs: set<Clause>)
    requires Reached(InHand2(tasks, workers), cs) && |tasks| > 3 && d < 2 && tasks[2].dependencies == [0, 1, 3]
    requires tasks[3].move && tasks[3].phase.Free? && !tasks[d].move && !MapperAdds(InHand2(tasks, workers).s)
    requires ObservesAll(InHand2(tasks, workers), Other(MoveAsks(3, d)), cs, ByAge())
    ensures Reached(InHand2(tasks[3 := tasks[3].(phase := Adding(d))], workers), cs)
  {
    assert 3 in tasks[2].dependencies && d in tasks[2].dependencies;
    Then(InHand2(tasks, workers), Other(MoveAsks(3, d)), InHand2(tasks[3 := tasks[3].(phase := Adding(d))], workers),
         cs);
  }

  lemma Adds3(tasks: seq<Task>, workers: multiset<nat>, d: nat, dependents: seq<nat>, cs: set<Clause>)
    requires Reached(InHand2(tasks, workers), cs) && |tasks| > 3 && d < 2
    requires tasks[3] == Moving3([], 0, Adding(d)) && tasks[d] == Root(dependents, Free, false)
    ensures Reached(InHand2(tasks[d := Root(dependents + [3], Free, false)][3 := Moving3([d], 1, Free)], workers), cs)
  {
    assert [] + [d] == [d];
    var next := tasks[d := Root(dependents + [3], Free, false)][3 := Moving3([d], 1, Free)];
    Then(InHand2(tasks, workers), Other(MoveAdds(3)), InHand2(next, workers), cs);
  }

  lemma Notifies(tasks: seq<Task>, workers: multiset<nat>, d: nat, t: nat, rest: seq<nat>, cs: set<Clause>)
    requires Reached(InHand2(tasks, workers), cs) && d < |tasks| && t < |tasks| && d != t && tasks[t].phase.Free?
    requires tasks[d].phase == Finishing([t] + rest, true) && !Schedulable(tasks[t].(blocking := tasks[t].blocking - 1))
    ensures Reached(InHand2(tasks[d := tasks[d].(phase := Finishing(rest, true))]
                                 [t := tasks[t].(blocking := tasks[t].blocking - 1)], workers), cs)
  {
    assert ([t] + rest)[1..] == rest;
    var w := InHand2(tasks, workers);
    var done, told := tasks[d].(phase := Finishing(rest, true)), tasks[t].(blocking := tasks[t].blocking - 1);
    var next := tasks[d := done][t := told];
    assert !Races(w.s, Notify(d));
    Then(w, Other(Notify(d)), InHand2(next, workers), cs);
  }

  lemma RootEnds(tasks: seq<Task>, workers: multiset<nat>, t: nat, dependents: seq<nat>, cs: set<Clause>)
    requires Reached(InHand2(tasks, workers), cs) && t < |tasks| && t in workers
    requires tasks[t] == Root(dependents, Free, false)
    ensures Reached(InHand2(tasks[t := Root(dependents, Finishing(dependents, true), true)], workers - multiset{t}), cs)
  {
    var w := InHand2(tasks, workers);
    Runs(w, t, cs);
    var running := WithTask(w, t, Doing(tasks[t], Executing), workers - multiset{t});
    NobodySpawns(running, t);
    Ends(running, t, cs);
    assert running.s.tasks[t := Root(dependents, Finishing(dependents, true), true)]
        == tasks[t := Root(dependents, Finishing(dependents, true), true)];
  }

  // ---- the movement task starts early ----

  lemma FirstAdded(d: nat, cs: set<Clause>)
    requires cs <= CLAUSES
    requires d < 2
    ensures var root := Root([2], Free, false);
            Reached(InHand2([root, root, Mapped(3), Moving3([d], 1, Free)][d := Root([2, 3], Free, false)],
                            multiset{0, 1}), cs)
  {
    ToInHand2(cs);
    var root := Root([2], Free, false);
    var tasks := [root, root, Mapped(3), Moving3([], 0, Free)];
    Asks3(tasks, multiset{0, 1}, d, cs);
    var asked := tasks[3 := Moving3([], 0, Adding(d))];
    assert [2] + [3] == [2, 3];
    Adds3(asked, multiset{0, 1}, d, [2], cs);
    assert asked[d := Root([2, 3], Free, false)][3 := Moving3([d], 1, Free)]
        == [root, root, Mapped(3), Moving3([d], 1, Free)][d := Root([2, 3], Free, false)];
  }

  /** Task 0 has ended and notified 2; it is about to notify 3. */
  lemma FirstNotified(cs: set<Clause>)
    requires cs <= CLAUSES
    ensures Reached(InHand2([Root([2, 3], Finishing([3], true), true), Root([2], Free, false), Mapped(2),
                             Moving3([0], 1, Free)], multiset{1}), cs)
  {
    FirstAdded(0, cs);
    var root, move := Root([2], Free, false), Moving3([0], 1, Free);
    var tasks := [Root([2, 3], Free, false), root, Mapped(3), move];
    assert [root, root, Mapped(3), move][0 := Root([2, 3], Free, false)] == tasks;
    RootEnds(tasks, multiset{0, 1}, 0, [2, 3], cs);
    var ended := tasks[0 := Root([2, 3], Finishing([2, 3], true), true)];
    assert multiset{0, 1} - multiset{0} == multiset{1} && [2] + [3] == [2, 3];
    Notifies(ended, multiset{1}, 0, 2, [3], cs);
    assert ended[0 := Root([2, 3], Finishing([3], true), true)][2 := Mapped(2)]
        == [Root([2, 3], Finishing([3], true), true), root, Mapped(2), move];
  }

  /** Task 3 was queued when its first dependency had finished; the mapper is about to add the second. */
  function AboutToAdd(): Threads {
    InMapping(State([Root([2, 3], Finishing([], true), true), Root([2], Free, false), Mapped(2),
                     Moving3([0], 0, Adding(1))],
                    [], [], Moving(2), [3], multiset{}, multiset{1}))
  }

  function MoveQueued(): Threads {
    AboutToAdd().(s := AboutToAdd().s.(tasks := [Root([2, 3], Finishing([], true), true), Root([2], Free, false),
                                                 Mapped(2), Moving3([0], 0, Free)]))
  }

  lemma ToMove3Queued(cs: set<Clause>)
    requires cs <= CLAUSES
    ensures Reached(MoveQueued(), cs)
  {
    FirstNotified(cs);
    var done, root := Root([2, 3], Finishing([], true), true), Root([2], Free, false);
    var w := InHand2([Root([2, 3], Finishing([3], true), true), root, Mapped(2), Moving3([0], 1, Free)], multiset{1});
    assert [3][1..] == [] && [3] + [] == [3];
    assert w.s.tasks[0 := done][3 := Moving3([0], 0, Free)] == MoveQueued().s.tasks;
    Then(w, Other(Notify(0)), MoveQueued(), cs);
  }

  lemma ToAboutToAdd(cs: set<Clause>)
    requires cs <= CLAUSES
    ensures Reached(AboutToAdd(), cs)
  {
    ToMove3Queued(cs);
    assert 3 in [0, 1, 3] && 1 in [0, 1, 3];
    assert MoveQueued().s.tasks[3 := Moving3([0], 0, Adding(1))] == AboutToAdd().s.tasks;
    Then(MoveQueued(), Other(MoveAsks(3, 1)), AboutToAdd(), cs);
  }

  /** A dependency is added to a data movement task that is queued already, in a run that breaks no rule. */
  lemma LateAdditionsHappen() returns (acts: seq<Act>, w: Threads, run: seq<Event>)
    ensures Reaches(acts, w, CLAUSES) && Reachable(w.s, run)
    ensures Step(w.s, MoveAdds(3)).Some? && AddsLate(w.s, MoveAdds(3))
  {
    ToAboutToAdd(CLAUSES);
    w := AboutToAdd();
    acts :| Reaches(acts, w, CLAUSES);
    MovesAreRuns(Begins(), acts);
    run := EventsOf(acts);
    AddsLateNow();
  }

  lemma AddsLateNow()
    ensures Step(AboutToAdd().s, MoveAdds(3)).Some? && AddsLate(AboutToAdd().s, MoveAdds(3))
  {
    assert 3 in AboutToAdd().s.ready;
  }

  // ---- a movement task is queued twice ----

  function Making3(tasks: seq<Task>, workers: multiset<nat>): M.Mapping {
    M.Mapping(InHand2(tasks, workers).s, M.Hand(Some(3), []))
  }

  lemma ToPlacing2() returns (acts: seq<M.Action>)
    ensures M.ReachedWithoutRace(
              M.Mapping(Quiet([Root([2], Free, false), Root([2], Free, false),
                               NewTask([0, 1]).(phase := Free, status := Running)], multiset{0, 1})
                        .(mapper := Placing(2)), M.EMPTY), acts)
  {
    Placing2(CLAUSES);
    var w := InMapping(Quiet([Root([2], Free, false), Root([2], Free, false),
                              NewTask([0, 1]).(phase := Free, status := Running)], multiset{0, 1})
                       .(mapper := Placing(2)));
    var threads :| Reaches(threads, w, CLAUSES);
    MovesAreRuns(Begins(), threads);
    acts := M.LiftRun(Start(), [], EventsOf(threads));
  }

  lemma ToMaking3() returns (acts: seq<M.Action>)
    ensures M.ReachedWithoutRace(Making3([Root([2], Free, false), Root([2], Free, false), Mapped(3),
                                          Moving3([], 0, Free)], multiset{0, 1}), acts)
  {
    acts := ToPlacing2();
    var root, task := Root([2], Free, false), NewTask([0, 1]).(phase := Free, status := Running);
    var quiet := Quiet([root, root, task], multiset{0, 1});
    acts := M.Onward(M.Mapping(quiet.(mapper := Placing(2)), M.EMPTY), acts, PlacementSucceeds,
                     M.Mapping(quiet.(mapper := Moving(2)), M.EMPTY));
    assert [root, root, task][2 := Mapped(3)] + [Moving3([], 0, Free)] == [root, root, Mapped(3), Moving3([], 0, Free)];
    assert [0, 1] + [3] == [0, 1, 3];
    acts := M.Onward(M.Mapping(quiet.(mapper := Moving(2)), M.EMPTY), acts, AddMove,
                     Making3([root, root, Mapped(3), Moving3([], 0, Free)], multiset{0, 1}));
  }

  lemma Does3(tasks: seq<Task>, workers: multiset<nat>, e: Event, next: seq<Task>, left: multiset<nat>,
              acts: seq<M.Action>)
    returns (longer: seq<M.Action>)
    requires M.ReachedWithoutRace(Making3(tasks, workers), acts)
    requires Step(InHand2(tasks, workers).s, e) == Some(InHand2(next, left).s)
    requires e == MoveAsks(3, 0) || e == MoveAdds(3) || e.Begin? || e.Return?
    ensures M.ReachedWithoutRace(Making3(next, left), longer)
  {
    longer := M.Onward(Making3(tasks, workers), acts, e, Making3(next, left));
  }

  lemma ToAsked3() returns (acts: seq<M.Action>)
    ensures M.ReachedWithoutRace(Making3([Root([2], Free, false), Root([2], Free, false), Mapped(3),
                                          Moving3([], 0, Adding(0))], multiset{0, 1}), acts)
  {
    acts := ToMaking3();
    var root := Root([2], Free, false);
    var tasks := [root, root, Mapped(3), Moving3([], 0, Free)];
    var asked := [root, root, Mapped(3), Moving3([], 0, Adding(0))];
    assert tasks[3 := Moving3([], 0, Adding(0))] == asked && 0 in [0, 1, 3] && 3 in [0, 1, 3];
    acts := Does3(tasks, multiset{0, 1}, MoveAsks(3, 0), asked, multiset{0, 1}, acts);
  }

  lemma ToAdded3() returns (acts: seq<M.Action>)
    ensures M.ReachedWithoutRace(Making3([Root([2, 3], Free, false), Root([2], Free, false), Mapped(3),
                                          Moving3([0], 1, Free)], multiset{0, 1}), acts)
  {
    acts := ToAsked3();
    var root := Root([2], Free, false);
    var asked := [root, root, Mapped(3), Moving3([], 0, Adding(0))];
    var added := [Root([2, 3], Free, false), root, Mapped(3), Moving3([0], 1, Free)];
    assert [] + [0] == [0] && [2] + [3] == [2, 3];
    assert asked[0 := Root([2, 3], Free, false)][3 := Moving3([0], 1, Free)] == added;
    acts := Does3(asked, multiset{0, 1}, MoveAdds(3), added, multiset{0, 1}, acts);
  }

  lemma ToBegun0() returns (acts: seq<M.Action>)
    ensures M.ReachedWithoutRace(Making3([Root([2, 3], Executing, true), Root([2], Free, false), Mapped(3),
                                          Moving3([0], 1, Free)], multiset{1}), acts)
  {
    acts := ToAdded3();
    var root, move := Root([2], Free, false), Moving3([0], 1, Free);
    var added := [Root([2, 3], Free, false), root, Mapped(3), move];
    var begun := [Root([2, 3], Executing, true), root, Mapped(3), move];
    assert multiset{0, 1} - multiset{0} == multiset{1};
    assert Begun(InHand2(added, multiset{1}).s, 0).tasks == begun;
    acts := Does3(added, multiset{0, 1}, Begin(0), begun, multiset{1}, acts);
  }

  lemma ToEnded0() returns (acts: seq<M.Action>)
    ensures M.ReachedWithoutRace(Making3([Root([2, 3], Finishing([2, 3], true), true), Root([2], Free, false),
                                          Mapped(3), Moving3([0], 1, Free)], multiset{1}), acts)
  {
    acts := ToBegun0();
    var root, move := Root([2], Free, false), Moving3([0], 1, Free);
    var begun := [Root([2, 3], Executing, true), root, Mapped(3), move];
    var ended := [Root([2, 3], Finishing([2, 3], true), true), root, Mapped(3), move];
    assert begun[0 := Root([2, 3], Finishing([2, 3], true), true)] == ended;
    acts := Does3(begun, multiset{1}, Return(0, true), ended, multiset{1}, acts);
  }

  /** Task 0 has run, has notified task 2, and is about to notify task 3. */
  function AboutToNotify3(): M.Mapping {
    Making3([Root([2, 3], Finishing([3], true), true), Root([2], Free, false), Mapped(2), Moving3([0], 1, Free)],
            multiset{1})
  }

  lemma ToAboutToNotify3() returns (acts: seq<M.Action>)
    ensures M.ReachedWithoutRace(AboutToNotify3(), acts)
  {
    acts := ToEnded0();
    var tasks := [Root([2, 3], Finishing([2, 3], true), true), Root([2], Free, false), Mapped(3),
                  Moving3([0], 1, Free)];
    assert [2, 3][1..] == [3];
    assert tasks[0 := Root([2, 3], Finishing([3], true), true)][2 := Mapped(2)] == AboutToNotify3().s.tasks;
    acts := M.Onward(Making3(tasks, multiset{1}), acts, Notify(0), AboutToNotify3());
  }

  /** The race does happen: the earlier user of the data finishes after the mapper has made the movement task depend on
      it, and before the mapper checks whether the movement task is blocked. */
  lemma MoveRacesHappen() returns (acts: seq<M.Action>, w: M.Mapping)
    ensures M.ReachedWithoutRace(w, acts) && M.Act(w, M.Plain(Notify(0))).Some? && M.RacesMove(w, M.Plain(Notify(0)))
  {
    acts := ToAboutToNotify3();
    w := AboutToNotify3();
  }

  // ---- the mapper is part of a deadlock ----

  lemma FourNew(cs: set<Clause>)
    requires cs <= CLAUSES
    ensures Reached(InHand2([Root([2], Free, false), Root([2, 3], Free, false), Mapped(3), Moving3([1], 1, Free),
                             NewTask([0, 1])], multiset{0, 1}), cs)
  {
    FirstAdded(1, cs);
    var root, move := Root([2], Free, false), Moving3([1], 1, Free);
    var tasks := [root, Root([2, 3], Free, false), Mapped(3), move];
    assert [root, root, Mapped(3), move][1 := Root([2, 3], Free, false)] == tasks;
    Spawns(InHand2(tasks, multiset{0, 1}), [0, 1], cs);
    assert tasks + [NewTask([0, 1])] == [root, Root([2, 3], Free, false), Mapped(3), move, NewTask([0, 1])];
  }

  lemma FourSpawned(cs: set<Clause>)
    requires cs <= CLAUSES
    ensures Reached(InHand2([Root([2, 4], Free, false), Root([2, 3], Free, false), Mapped(3), Moving3([1], 1, Free),
                             Asking([0, 1], [1])], multiset{0, 1}), cs)
  {
    FourNew(cs);
    var two, move := Root([2, 3], Free, false), Moving3([1], 1, Free);
    var w := InHand2([Root([2], Free, false), two, Mapped(3), move, NewTask([0, 1])], multiset{0, 1});
    assert [0] + [1] == [0, 1] && [2] + [4] == [2, 4];
    Asks(w, 4, 0, [1], cs);
    assert w.s.tasks[0 := Root([2, 4], Free, false)][4 := Asking([0, 1], [1])]
        == [Root([2, 4], Free, false), two, Mapped(3), move, Asking([0, 1], [1])];
  }

  lemma OneNotified(cs: set<Clause>)
    requires cs <= CLAUSES
    ensures Reached(InHand2([Root([2, 4], Free, false), Root([2, 3], Finishing([3], true), true), Mapped(2),
                             Moving3([1], 1, Free), Asking([0, 1], [1])], multiset{0}), cs)
  {
    FourSpawned(cs);
    var zero, move, four := Root([2, 4], Free, false), Moving3([1], 1, Free), Asking([0, 1], [1]);
    var tasks := [zero, Root([2, 3], Free, false), Mapped(3), move, four];
    RootEnds(tasks, multiset{0, 1}, 1, [2, 3], cs);
    var ended := tasks[1 := Root([2, 3], Finishing([2, 3], true), true)];
    assert multiset{0, 1} - multiset{1} == multiset{0} && [2] + [3] == [2, 3];
    Notifies(ended, multiset{0}, 1, 2, [3], cs);
    assert ended[1 := Root([2, 3], Finishing([3], true), true)][2 := Mapped(2)]
        == [zero, Root([2, 3], Finishing([3], true), true), Mapped(2), move, four];
  }

  lemma BothNotified(cs: set<Clause>)
    requires cs <= CLAUSES
    ensures Reached(InHand2([Root([2, 4], Finishing([4], true), true), Root([2, 3], Finishing([3], true), true),
                             Mapped(1), Moving3([1], 1, Free), Asking([0, 1], [1])], multiset{}), cs)
  {
    OneNotified(cs);
    var one, move, four := Root([2, 3], Finishing([3], true), true), Moving3([1], 1, Free), Asking([0, 1], [1]);
    var tasks := [Root([2, 4], Free, false), one, Mapped(2), move, four];
    RootEnds(tasks, multiset{0}, 0, [2, 4], cs);
    var ended := tasks[0 := Root([2, 4], Finishing([2, 4], true), true)];
    assert multiset{0} - multiset{0} == multiset{} && [2] + [4] == [2, 4];
    Notifies(ended, multiset{}, 0, 2, [4], cs);
    assert ended[0 := Root([2, 4], Finishing([4], true), true)][2 := Mapped(1)]
        == [Root([2, 4], Finishing([4], true), true), one, Mapped(1), move, four];
  }

  /** The mapper adds 1 and then 0 to a data movement task, while task 4 on [0, 1] registers. */
  lemma MovingInWrongOrderDeadlocks() returns (acts: seq<Act>, w: Threads)
    ensures Reaches(acts, w, CLAUSES - {InOrder}) && Deadlocked(w, {Of(0), Of(1), Of(3), Of(4)})
  {
    var cs := CLAUSES - {InOrder};
    BothNotified(cs);
    var tasks := [Root([2, 4], Finishing([4], true), true), Root([2, 3], Finishing([3], true), true), Mapped(1),
                  Moving3([1], 1, Free), Asking([0, 1], [1])];
    Asks3(tasks, multiset{}, 0, cs);
    w := InHand2(tasks[3 := Moving3([1], 1, Adding(0))], multiset{});
    acts :| Reaches(acts, w, cs);
    assert WaitsFor(w, Of(0), Of(4)) && WaitsFor(w, Of(4), Of(1)) && WaitsFor(w, Of(1), Of(3));
    assert WaitsFor(w, Of(3), Of(0));
    CircleOfFour(w, Of(0), Of(4), Of(1), Of(3));
    assert {Of(0), Of(4), Of(1), Of(3)} == {Of(0), Of(1), Of(3), Of(4)};
  }

  // ---- the mapper in the thread of a body ----

  /** The mapper has task 2 in its hand, in the thread of the body of 1. */
  function Hosted(tasks: seq<Task>, workers: multiset<nat>): Threads {
    Threads(Quiet(tasks, workers).(mapper := Moving(2)), map[], On(Some(1), NotFilling))
  }

  function Host(): Task {
    Root([], Executing, true)
  }

  /** Task 2 on [0], without and with the data movement task 3. */
  function Mapped2(blocking: nat, dependencies: seq<nat>): Task {
    OnZero().(status := Running, blocking := blocking, dependencies := dependencies)
  }

  lemma ToThree(cs: set<Clause>)
    requires cs <= CLAUSES
    ensures Reached(World([Root([], Free, false), Root([], Free, false), NewTask([0])], multiset{0, 1}), cs)
  {
    TwoTasks(cs);
    var root := Root([], Free, false);
    Spawns(World([root, root], multiset{0, 1}), [0], cs);
    assert [root, root] + [NewTask([0])] == [root, root, NewTask([0])];
  }

  lemma ToThreeAsked(cs: set<Clause>)
    requires cs <= CLAUSES
    ensures Reached(World([Root([2], Free, false), Root([], Free, false), OnZero()], multiset{0, 1}), cs)
  {
    ToThree(cs);
    var root := Root([], Free, false);
    assert [] + [2] == [2];
    AsksLast(World([root, root, NewTask([0])], multiset{0, 1}), 2, 0, cs);
    assert [root, root, NewTask([0])][0 := Root([2], Free, false)][2 := OnZero()]
        == [Root([2], Free, false), root, OnZero()];
  }

  lemma ToHost(cs: set<Clause>)
    requires cs <= CLAUSES
    ensures Reached(World([Root([2], Free, false), Host(), OnZero()], multiset{0}), cs)
  {
    ToThreeAsked(cs);
    var asked := [Root([2], Free, false), Root([], Free, false), OnZero()];
    Runs(World(asked, multiset{0, 1}), 1, cs);
    assert asked[1 := Host()] == [Root([2], Free, false), Host(), OnZero()];
    assert multiset{0, 1} - multiset{1} == multiset{0};
  }

  lemma ToHosted(cs: set<Clause>)
    requires cs <= CLAUSES
    ensures Reached(Hosted([Root([2], Free, false), Host(), Mapped2(1, [0])], multiset{0}), cs)
  {
    ToHost(cs);
    var zero := Root([2], Free, false);
    GetsReady(World([zero, Host(), OnZero()], multiset{0}), 2, cs);
    var tasks := [zero, Host(), Mapped2(1, [0])];
    assert [zero, Host(), OnZero()][2 := Mapped2(1, [0])] == tasks && [2] + [] == [2];
    var w := Unmapped(Quiet(tasks, multiset{0}).(newest := [2]));
    NobodySpawns(w, 1);
    ToMapper(w, 2, Some(1), cs);
    var placing := Hosted(tasks, multiset{0}).(s := Quiet(tasks, multiset{0}).(mapper := Placing(2)));
    Onward(placing, PlacementSucceeds, Hosted(tasks, multiset{0}).s, cs);
  }

  lemma ToHostedMove(cs: set<Clause>)
    requires cs <= CLAUSES
    ensures Reached(Hosted([Root([2], Free, false), Host(), Mapped2(2, [0, 3]), Moving3([], 0, Free)], multiset{0}), cs)
  {
    ToHosted(cs);
    var tasks := [Root([2], Free, false), Host(), Mapped2(1, [0])];
    var next := [Root([2], Free, false), Host(), Mapped2(2, [0, 3]), Moving3([], 0, Free)];
    assert tasks[2 := Mapped2(2, [0, 3])] + [Moving3([], 0, Free)] == next && [0] + [3] == [0, 3];
    Onward(Hosted(tasks, multiset{0}), AddMove, Hosted(next, multiset{0}).s, cs);
  }

  function HostedWith4(zero: Task, blocking: nat, phase: Phase, workers: multiset<nat>): Threads {
    Hosted([zero, Host(), Mapped2(blocking, [0, 3]), Moving3([], 0, phase), Asking([0, 1], [1])], workers)
  }

  lemma HostSpawned(cs: set<Clause>)
    requires cs <= CLAUSES
    ensures Reached(Hosted([Root([2], Free, false), Host(), Mapped2(2, [0, 3]), Moving3([], 0, Free), NewTask([0, 1])],
                           multiset{0}), cs)
  {
    ToHostedMove(cs);
    var tasks := [Root([2], Free, false), Host(), Mapped2(2, [0, 3]), Moving3([], 0, Free)];
    Spawns(Hosted(tasks, multiset{0}), [0, 1], cs);
    assert tasks + [NewTask([0, 1])]
        == [Root([2], Free, false), Host(), Mapped2(2, [0, 3]), Moving3([], 0, Free), NewTask([0, 1])];
  }

  lemma ToHostedWith4(cs: set<Clause>)
    requires cs <= CLAUSES
    ensures Reached(HostedWith4(Root([2, 4], Free, false), 2, Free, multiset{0}), cs)
  {
    HostSpawned(cs);
    var w := Hosted([Root([2], Free, false), Host(), Mapped2(2, [0, 3]), Moving3([], 0, Free), NewTask([0, 1])],
                    multiset{0});
    assert [0] + [1] == [0, 1] && [2] + [4] == [2, 4];
    Asks(w, 4, 0, [1], cs);
    assert w.s.tasks[0 := Root([2, 4], Free, false)][4 := Asking([0, 1], [1])]
        == HostedWith4(Root([2, 4], Free, false), 2, Free, multiset{0}).s.tasks;
  }

  lemma ZeroEnds(cs: set<Clause>)
    requires cs <= CLAUSES
    ensures Reached(HostedWith4(Root([2, 4], Finishing([2, 4], true), true), 2, Free, multiset{}), cs)
  {
    ToHostedWith4(cs);
    var w := HostedWith4(Root([2, 4], Free, false), 2, Free, multiset{0});
    Runs(w, 0, cs);
    var running := HostedWith4(Root([2, 4], Executing, true), 2, Free, multiset{});
    assert w.s.tasks[0 := running.s.tasks[0]] == running.s.tasks && multiset{0} - multiset{0} == multiset{};
    NobodySpawns(running, 0);
    Ends(running, 0, cs);
    var next := HostedWith4(Root([2, 4], Finishing([2, 4], true), true), 2, Free, multiset{});
    assert running.s.tasks[0 := next.s.tasks[0]] == next.s.tasks;
  }

  lemma ZeroNotifies(cs: set<Clause>)
    requires cs <= CLAUSES
    ensures Reached(HostedWith4(Root([2, 4], Finishing([4], true), true), 1, Free, multiset{}), cs)
  {
    ZeroEnds(cs);
    var w := HostedWith4(Root([2, 4], Finishing([2, 4], true), true), 2, Free, multiset{});
    var next := HostedWith4(Root([2, 4], Finishing([4], true), true), 1, Free, multiset{});
    assert [2, 4][1..] == [4] && w.s.tasks[0 := next.s.tasks[0]][2 := next.s.tasks[2]] == next.s.tasks;
    assert Step(w.s, Notify(0)) == Some(next.s) && !Races(w.s, Notify(0));
    Then(w, Other(Notify(0)), next, cs);
  }

  lemma ToHostedAsk(cs: set<Clause>)
    requires cs <= CLAUSES
    requires Higher !in cs
    ensures Reached(HostedWith4(Root([2, 4], Finishing([4], true), true), 1, Adding(0), multiset{}), cs)
  {
    ZeroNotifies(cs);
    var w := HostedWith4(Root([2, 4], Finishing([4], true), true), 1, Free, multiset{});
    var next := HostedWith4(Root([2, 4], Finishing([4], true), true), 1, Adding(0), multiset{});
    assert 3 in [0, 3] && 0 in [0, 3] && w.s.tasks[3 := next.s.tasks[3]] == next.s.tasks;
    Then(w, Other(MoveAsks(3, 0)), next, cs);
  }

  /** The body of 1 hosts the mapper, which adds 0 to a data movement task; 0 waits to notify 4, which asks 1. */
  lemma MovingInABodyDeadlocks() returns (acts: seq<Act>, w: Threads)
    ensures Reaches(acts, w, CLAUSES - {Higher}) && Deadlocked(w, {Mapper, Of(0), Of(1), Of(3), Of(4)})
  {
    var cs := CLAUSES - {Higher};
    ToHostedAsk(cs);
    w := HostedWith4(Root([2, 4], Finishing([4], true), true), 1, Adding(0), multiset{});
    acts :| Reaches(acts, w, cs);
    HostedGoesRound();
  }

  lemma CircleOfFive(w: Threads, a: Node, b: Node, c: Node, d: Node, e: Node)
    requires WaitsFor(w, a, b) && WaitsFor(w, b, c) && WaitsFor(w, c, d) && WaitsFor(w, d, e) && WaitsFor(w, e, a)
    ensures Deadlocked(w, {a, b, c, d, e})
  {
    CircleDeadlocks(w, [a, b, c, d, e]);
    assert Members([a, b, c, d, e]) == {a, b, c, d, e};
  }

  lemma HostedGoesRound()
    ensures Deadlocked(HostedWith4(Root([2, 4], Finishing([4], true), true), 1, Adding(0), multiset{}),
                       {Mapper, Of(0), Of(1), Of(3), Of(4)})
  {
    var w := HostedWith4(Root([2, 4], Finishing([4], true), true), 1, Adding(0), multiset{});
    assert WaitsFor(w, Mapper, Of(3)) && WaitsFor(w, Of(3), Of(0)) && WaitsFor(w, Of(0), Of(4));
    assert WaitsFor(w, Of(4), Of(1)) && WaitsFor(w, Of(1), Mapper);
    CircleOfFive(w, Mapper, Of(3), Of(0), Of(4), Of(1));
    assert {Mapper, Of(3), Of(0), Of(4), Of(1)} == {Mapper, Of(0), Of(1), Of(3), Of(4)};
  }
}
