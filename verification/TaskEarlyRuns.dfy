/**
 The race of TaskRaces does happen, and every race can end in a continuation that runs before the task it awaits
 has finished.
 */
module TaskEarlyRuns {
  import opened Wrappers
  import opened TaskRuntime
  import opened TaskGraphInvariants
  import opened TaskRuntimeInvariants
  import opened TaskRuntimeTheorems
  import opened TaskRaces

  lemma {:induction false} RunAppend(s: State, first: seq<Event>, second: seq<Event>)
    requires Run(s, first).Some?
    ensures Run(s, first + second) == Run(Run(s, first).value, second)
    decreases |first|
  {
    if first == [] {
      assert first + second == second;
    } else {
      assert (first + second)[1..] == first[1..] + second;
      RunAppend(Step(s, first[0]).value, first[1..], second);
    }
  }

  /** One more step of a run. */
  lemma Then(s: State, run: seq<Event>, t: State, e: Event)
    requires Run(s, run) == Some(t) && Step(t, e).Some?
    ensures Run(s, run + [e]) == Step(t, e)
  {
    RunAppend(s, run, [e]);
    var last := [e];
    assert last[0] == e && last[1..] == [];
  }

  // ---- a race is reachable ----

  /** Task 0 on its way through the mapper, without and with its data movement task. */
  function Fresh(status: Status): Task {
    Task(false, status, false, 0, [], [], Free, [], false)
  }

  function Waits(isAssigned: bool): Task {
    Task(false, Running, isAssigned, 1, [1], [], Free, [], false)
  }

  function Moves(phase: Phase, started: bool): Task {
    Task(true, Running, true, 0, [], [0], phase, [], started)
  }

  function Mapping(tasks: seq<Task>, mapper: Mapper): State {
    State(tasks, [], [], mapper, [], multiset{}, multiset{})
  }

  lemma ToPlacing() returns (run: seq<Event>)
    ensures Run(Start(), run) == Some(Mapping([Fresh(Running)], Placing(0)))
  {
    var s1 := Mapping([Fresh(Waiting)], Idle);
    assert Step(Start(), Spawn([])) == Some(s1) by {
      assert [] + [NewTask([])] == [Fresh(Waiting)];
    }
    var held := Fresh(Waiting).(phase := Readying);
    var readying := s1.(tasks := [held]);
    assert Step(s1, GetReady(0)) == Some(readying) by {
      assert [Fresh(Waiting)][0 := held] == [held];
    }
    var s2 := s1.(tasks := [Fresh(Running)], newest := [0]);
    assert Step(readying, ReadyToMap(0)) == Some(s2) by {
      assert [held][0 := Fresh(Running)] == [Fresh(Running)];
      assert [0] + [] == [0];
    }
    var s3 := s2.(newest := [], current := [0]);
    assert Step(s2, Fill) == Some(s3) by {
      assert DependenciesMapped(s2, 0);
      var queue := [0];
      assert queue[0] == 0 && queue[1..] == [] && [0] + [] == [0] && [] + [0] == [0];
      assert Mappable(s2, queue, true) == [0] && Mappable(s2, queue, false) == [];
    }
    var s4 := Mapping([Fresh(Running)], Placing(0));
    assert Step(s3, Dequeue) == Some(s4) by {
      assert [0][..0] == [];
    }
    run := [];
    Then(Start(), run, Start(), Spawn([]));
    Then(Start(), run + [Spawn([])], s1, GetReady(0));
    run := run + [Spawn([])] + [GetReady(0)];
    Then(Start(), run, readying, ReadyToMap(0));
    Then(Start(), run + [ReadyToMap(0)], s2, Fill);
    Then(Start(), run + [ReadyToMap(0)] + [Fill], s3, Dequeue);
    run := run + [ReadyToMap(0)] + [Fill] + [Dequeue];
  }

  /** Assigned and about to be checked; the data movement task is in the ready queue. */
  function Assigning(): State {
    Mapping([Waits(true), Moves(Free, false)], Checking(0)).(ready := [1])
  }

  lemma ToMoving() returns (run: seq<Event>)
    ensures Run(Mapping([Fresh(Running)], Placing(0)), run)
            == Some(Mapping([Waits(false), Moves(Free, false)], Moving(0)))
  {
    var s0 := Mapping([Fresh(Running)], Placing(0));
    var s1 := Mapping([Fresh(Running)], Moving(0));
    assert Step(s1, AddMove) == Some(Mapping([Waits(false), Moves(Free, false)], Moving(0))) by {
      assert [Fresh(Running)][0 := Waits(false)] + [Moves(Free, false)] == [Waits(false), Moves(Free, false)];
      assert [] + [1] == [1];
    }
    run := [];
    Then(s0, run, s0, PlacementSucceeds);
    Then(s0, run + [PlacementSucceeds], s1, AddMove);
    run := run + [PlacementSucceeds] + [AddMove];
  }

  lemma ToChecking() returns (run: seq<Event>)
    ensures Run(Mapping([Fresh(Running)], Placing(0)), run) == Some(Assigning())
  {
    var s0, s2 := Mapping([Fresh(Running)], Placing(0)), Mapping([Waits(false), Moves(Free, false)], Moving(0));
    run := ToMoving();
    var s3 := s2.(ready := [1]);
    assert Step(s2, EnqueueMove(1)) == Some(s3) by {
      assert 1 in s2.tasks[0].dependencies && [1] + [] == [1];
    }
    assert Step(s3, Assign) == Some(Assigning()) by {
      assert [Waits(false), Moves(Free, false)][0 := Waits(true)] == [Waits(true), Moves(Free, false)];
    }
    Then(s0, run, s2, EnqueueMove(1));
    Then(s0, run + [EnqueueMove(1)], s3, Assign);
    run := run + [EnqueueMove(1)] + [Assign];
  }

  lemma ToWorker() returns (run: seq<Event>)
    ensures Run(Assigning(), run) == Some(Assigning().(ready := [], workers := multiset{1}))
  {
    var s0 := Assigning();
    var s1 := s0.(ready := [], device := multiset{1});
    assert Step(s0, Schedule) == Some(s1) by {
      assert [1][..0] == [] && multiset{} + multiset{1} == multiset{1};
    }
    var s2 := s0.(ready := [], workers := multiset{1});
    assert Step(s1, Launch(1)) == Some(s2) by {
      assert multiset{1} - multiset{1} == multiset{} && multiset{} + multiset{1} == multiset{1};
    }
    run := [];
    Then(s0, run, s0, Schedule);
    Then(s0, run + [Schedule], s1, Launch(1));
    run := run + [Schedule] + [Launch(1)];
  }

  lemma ToMoved() returns (run: seq<Event>)
    ensures Run(Assigning().(ready := [], workers := multiset{1}), run)
            == Some(Mapping([Waits(true), Moves(Finishing([0], true), true)], Checking(0)))
  {
    var s0 := Assigning().(ready := [], workers := multiset{1});
    var s1 := Mapping([Waits(true), Moves(Executing, true)], Checking(0));
    assert Step(s0, Begin(1)) == Some(s1) by {
      assert [Waits(true), Moves(Free, false)][1 := Moves(Executing, true)] == [Waits(true), Moves(Executing, true)];
      assert multiset{1} - multiset{1} == multiset{};
    }
    var s2 := Mapping([Waits(true), Moves(Finishing([0], true), true)], Checking(0));
    assert Step(s1, Return(1, true)) == Some(s2) by {
      assert [Waits(true), Moves(Executing, true)][1 := Moves(Finishing([0], true), true)]
          == [Waits(true), Moves(Finishing([0], true), true)];
    }
    run := [];
    Then(s0, run, s0, Begin(1));
    Then(s0, run + [Begin(1)], s1, Return(1, true));
    run := run + [Begin(1)] + [Return(1, true)];
  }

  /** A task with one data movement task: the movement finishes between the task's assignment and the check. */
  lemma RacesHappen() returns (run: seq<Event>, s: State)
    ensures Reachable(s, run) && Step(s, Notify(1)).Some? && Races(s, Notify(1))
  {
    var first := ToPlacing();
    var second := ToChecking();
    var third := ToWorker();
    var fourth := ToMoved();
    RunAppend(Start(), first, second);
    RunAppend(Start(), first + second, third);
    RunAppend(Start(), first + second + third, fourth);
    run := first + second + third + fourth;
    s := Mapping([Waits(true), Moves(Finishing([0], true), true)], Checking(0));
    assert s.tasks[1].phase.rest[0] == 0 && s.tasks[0] == Waits(true);
  }

  // ---- from a race to an early continuation ----

  /** Both queue entries of a task can reach workers. */
  lemma {:induction false} Deliver(s: State, t: nat) returns (run: seq<Event>, r: State)
    requires t < |s.tasks| && !s.tasks[t].status.Completed?
    ensures Run(s, run) == Some(r) && r.tasks == s.tasks && r.workers[t] == Tokens(s, t)
    decreases 2 * |s.ready| + s.device[t]
  {
    if t in s.device || t in s.ready {
      var e := if t in s.device then Launch(t) else Schedule;
      var next := Step(s, e).value;
      if t !in s.device {
        TokensScheduled(s, t);
      }
      var rest, end := Deliver(next, t);
      run, r := [e] + rest, end;
      assert run[0] == e && run[1..] == rest;
    } else {
      run, r := [], s;
    }
  }

  /** `t` runs while something it awaits has not finished. */
  ghost predicate RunsEarly(s: State, t: nat) {
    && t < |s.tasks| && s.tasks[t].phase.Executing? && s.tasks[t].started
    && exists i :: 0 <= i < |s.tasks[t].dependencies| && s.tasks[t].dependencies[i] < |s.tasks|
                   && !Finished(s.tasks[s.tasks[t].dependencies[i]])
  }

  /** The first worker begins the task, which spawns another task and asks to await it. */
  lemma BeginAndAwait(s: State, t: nat) returns (run: seq<Event>, r: State)
    requires t < |s.tasks| && !s.tasks[t].move && Schedulable(s.tasks[t]) && s.tasks[t].phase.Free? && s.workers[t] >= 2
    ensures Run(s, run) == Some(r) && |r.tasks| == |s.tasks| + 1 && r.workers[t] >= 1
    ensures r.tasks[t]
            == s.tasks[t].(started := true, phase := Depending([|s.tasks|]), blocking := 1, dependencies := [|s.tasks|])
    ensures r.tasks[|s.tasks|] == NewTask([])
  {
    var n := |s.tasks|;
    var s1 := Step(s, Begin(t)).value;
    var s2 := Step(s1, Spawn([])).value;
    assert s2.tasks[t] == s1.tasks[t] && s2.tasks[n] == NewTask([]);
    r := Step(s2, Await(t, [n])).value;
    run := [];
    Then(s, run, s, Begin(t));
    Then(s, run + [Begin(t)], s1, Spawn([]));
    Then(s, run + [Begin(t)] + [Spawn([])], s2, Await(t, [n]));
    run := run + [Begin(t)] + [Spawn([])] + [Await(t, [n])];
  }

  /** The dependency is asked, and remembers the task. */
  lemma DependsOnNew(s: State, t: nat, n: nat) returns (r: State)
    requires t < n < |s.tasks| && s.tasks[t].phase == Depending([n]) && s.tasks[n] == NewTask([])
    ensures Step(s, Depend(t)) == Some(r) && t < n < |r.tasks| && r.workers == s.workers
    ensures r.tasks[t] == s.tasks[t].(phase := Depending([])) && !Finished(r.tasks[n])
  {
    assert [n][1..] == [];
    r := Step(s, Depend(t)).value;
  }

  lemma ResumesBlocked(s: State, t: nat, n: nat) returns (r: State)
    requires t < n < |s.tasks| && s.tasks[t].phase == Depending([]) && s.tasks[t].blocking == 1 && !Finished(s.tasks[n])
    ensures Step(s, Resume(t)) == Some(r) && t < n < |r.tasks| && r.workers == s.workers
    ensures r.tasks[t] == s.tasks[t].(phase := Free) && !Finished(r.tasks[n])
  {
    r := Step(s, Resume(t)).value;
  }

  lemma BeginsEarly(s: State, t: nat, n: nat) returns (r: State)
    requires t < n < |s.tasks| && s.tasks[t].phase.Free? && s.tasks[t].status.Running? && s.workers[t] >= 1
    requires s.tasks[t].dependencies == [n] && !Finished(s.tasks[n])
    ensures Step(s, Begin(t)) == Some(r) && RunsEarly(r, t)
  {
    r := Step(s, Begin(t)).value;
    assert r.tasks[t].dependencies[0] == n && !Finished(r.tasks[n]);
  }

  /** The task is registered with the new one and let go; then the second worker begins it. */
  lemma ContinueEarly(s: State, t: nat, n: nat) returns (run: seq<Event>, r: State)
    requires t < n < |s.tasks| && s.tasks[t].phase == Depending([n]) && s.tasks[t].blocking == 1
    requires s.tasks[t].dependencies == [n] && s.tasks[t].status.Running? && s.tasks[n] == NewTask([])
    requires s.workers[t] >= 1
    ensures Run(s, run) == Some(r) && RunsEarly(r, t)
  {
    var s1 := DependsOnNew(s, t, n);
    var s2 := ResumesBlocked(s1, t, n);
    r := BeginsEarly(s2, t, n);
    run := [];
    Then(s, run, s, Depend(t));
    Then(s, run + [Depend(t)], s1, Resume(t));
    Then(s, run + [Depend(t)] + [Resume(t)], s2, Begin(t));
    run := run + [Depend(t)] + [Resume(t)] + [Begin(t)];
  }

  lemma TwiceQueuedEndsEarly(s: State, t: nat) returns (run: seq<Event>, r: State)
    requires t < |s.tasks| && !s.tasks[t].move && Schedulable(s.tasks[t]) && s.tasks[t].phase.Free? && Tokens(s, t) >= 2
    ensures Run(s, run) == Some(r) && RunsEarly(r, t)
  {
    var first, delivered := Deliver(s, t);
    var second, awaiting := BeginAndAwait(delivered, t);
    RunAppend(s, first, second);
    var third, end := ContinueEarly(awaiting, t, |delivered.tasks|);
    RunAppend(s, first + second, third);
    run, r := first + second + third, end;
  }

  /** Every race can go on to a continuation that runs early, so the runs without a race are exactly those the
      promise about continuations can be made for. */
  lemma RacesCanEndEarly(s: State, run: seq<Event>, e: Event) returns (more: seq<Event>, r: State)
    requires ReachableWithoutRace(s, run) && Step(s, e).Some? && Races(s, e)
    ensures Reachable(r, run + [e] + more) && RunsEarly(r, s.mapper.t)
  {
    WithoutRaceIsOrderly(s, run);
    var raced := Step(s, e).value;
    RacedTwice(s, e);
    RacedIsSchedulable(s, e);
    var rest, end := TwiceQueuedEndsEarly(Step(raced, CheckBlocked).value, s.mapper.t);
    more, r := [CheckBlocked] + rest, end;
    assert more[0] == CheckBlocked && more[1..] == rest;
    Then(Start(), run, s, e);
    RunAppend(Start(), run + [e], more);
  }

  lemma RacedIsSchedulable(s: State, e: Event)
    requires Orderly(s) && Step(s, e).Some? && Races(s, e) && Step(Step(s, e).value, CheckBlocked).Some?
    ensures var c := Step(Step(s, e).value, CheckBlocked).value;
            && s.mapper.t < |c.tasks| && !c.tasks[s.mapper.t].move
            && Schedulable(c.tasks[s.mapper.t]) && c.tasks[s.mapper.t].phase.Free?
  {
  }
}
