/** Safety of the task runtime over every run: sequences of steps of any threads, in any interleaving. */
module TaskRuntimeTheorems {
  import opened Wrappers
  import opened TaskRuntime
  import opened TaskGraphInvariants
  import opened TaskRuntimeInvariants

  /** The state a run leads to, if every step of it is enabled. */
  function Run(s: State, run: seq<Event>): Option<State>
    decreases |run|
  {
    if run == [] then Some(s)
    else
      match Step(s, run[0])
      case None => None
      case Some(next) => Run(next, run[1..])
  }

  predicate Reachable(s: State, run: seq<Event>) {
    Run(Start(), run) == Some(s)
  }

  lemma {:induction false} RunKeepsInvariant(s: State, run: seq<Event>)
    requires Invariant(s) && Run(s, run).Some?
    ensures Invariant(Run(s, run).value)
    decreases |run|
  {
    if run != [] {
      InvariantKept(s, run[0]);
      RunKeepsInvariant(Step(s, run[0]).value, run[1..]);
    }
  }

  lemma {:induction false} RunKeepsDependenciesKnown(s: State, run: seq<Event>)
    requires Invariant(s) && DependenciesKnown(s) && Run(s, run).Some?
    ensures DependenciesKnown(Run(s, run).value)
    decreases |run|
  {
    if run != [] {
      InvariantKept(s, run[0]);
      DependenciesStayKnown(s, run[0]);
      RunKeepsDependenciesKnown(Step(s, run[0]).value, run[1..]);
    }
  }

  /** An assigned task stays assigned. */
  lemma {:induction false} RunKeepsAssigned(s: State, run: seq<Event>, t: nat)
    requires Run(s, run).Some? && t < |s.tasks|
    ensures var r := Run(s, run).value; t < |r.tasks| && (s.tasks[t].isAssigned ==> r.tasks[t].isAssigned)
    decreases |run|
  {
    if run != [] {
      GrowsAt(s, run[0], t);
      RunKeepsAssigned(Step(s, run[0]).value, run[1..], t);
    }
  }

  lemma ReachableIsInvariant(s: State, run: seq<Event>)
    requires Reachable(s, run)
    ensures Invariant(s) && DependenciesKnown(s)
  {
    StartIsInvariant();
    RunKeepsInvariant(Start(), run);
    RunKeepsDependenciesKnown(Start(), run);
  }

  // ---- never early ----

  ghost predicate AllFinished(tasks: seq<Task>, ts: seq<nat>) {
    forall i | 0 <= i < |ts| :: ts[i] < |tasks| && Finished(tasks[ts[i]])
  }

  /** A step that enqueues a task leaves it with the counter zero. */
  lemma EnqueuedAtZero(s: State, e: Event, t: nat)
    requires Step(s, e).Some? && Enqueues(s, e, t)
    ensures var r := Step(s, e).value;
            t < |s.tasks| == |r.tasks| && r.tasks[t].blocking == 0
            && r.tasks[t].started == s.tasks[t].started && r.tasks[t].move == s.tasks[t].move
  {
  }

  /** In every interleaving, a task enters the ready queue before its first run only when every dependency it was
      spawned with has finished. */
  lemma NeverEarly(s: State, run: seq<Event>, e: Event, t: nat)
    requires Reachable(s, run) && Step(s, e).Some? && Enqueues(s, e, t)
    requires t < |s.tasks| && !s.tasks[t].move && !s.tasks[t].started
    ensures AllFinished(Step(s, e).value.tasks, s.tasks[t].spawnedOn)
  {
    ReachableIsInvariant(s, run);
    InvariantKept(s, e);
    EnqueuedAtZero(s, e, t);
    GrowsAt(s, e, t);
    UnstartedAtZero(Step(s, e).value, t);
  }

  lemma UnstartedAtZero(s: State, t: nat)
    requires Invariant(s) && t < |s.tasks| && !s.tasks[t].move && !s.tasks[t].started && s.tasks[t].blocking == 0
    ensures AllFinished(s.tasks, s.tasks[t].spawnedOn)
  {
    assert Counted(s.tasks, t);
    ZeroMeansFinished(s.tasks, t);
    assert Remembers(s.tasks[t]);
    assert forall i | 0 <= i < |s.tasks[t].spawnedOn| :: s.tasks[t].spawnedOn[i] == s.tasks[t].dependencies[i];
  }

  /** In every reachable state the counter of a task that has not run, or that moves data, is the number of times it
      stands among dependents still to be notified, plus the dependencies it has not asked; finished tasks have no
      dependents. */
  lemma CountersAreExact(s: State, run: seq<Event>, t: nat)
    requires Reachable(s, run) && t < |s.tasks|
    ensures s.tasks[t].move || !s.tasks[t].started ==>
              s.tasks[t].blocking == Occurrences(s.tasks, t) + |Rest(s.tasks[t])|
    ensures Terminal(s.tasks[t]) ==> s.tasks[t].dependents == []
  {
    ReachableIsInvariant(s, run);
    assert Counts(s.tasks[t], false) ==> Counted(s.tasks, t);
  }

  // ---- no lost wakeup ----

  /** In every reachable state a running-state, assigned task with counter zero is being run, is in the ready queue,
      a device queue or with a worker, or the mapper is between assigning it and checking it. */
  lemma NoLostWakeup(s: State, run: seq<Event>, t: nat)
    requires Reachable(s, run) && t < |s.tasks| && !s.tasks[t].move
    requires s.tasks[t].status.Running? && s.tasks[t].isAssigned && s.tasks[t].blocking == 0
    ensures !s.tasks[t].phase.Free? || t in s.ready || t in s.device || t in s.workers || s.mapper == Checking(t)
  {
    ReachableIsInvariant(s, run);
  }

  // ---- mapping ----

  /** No task is assigned before all the dependencies it was spawned with are, and every task that is ready to be
      mapped and not assigned is in exactly one of the new queue, the current queue and the mapper's hand, once. */
  lemma MappingIsClosedAndConserves(s: State, run: seq<Event>, t: nat)
    requires Reachable(s, run) && t < |s.tasks| && !s.tasks[t].move
    ensures s.tasks[t].isAssigned ==> AllAssigned(s.tasks, s.tasks[t].spawnedOn)
    ensures Held(s, t) == if !s.tasks[t].status.Waiting? && !s.tasks[t].isAssigned then 1 else 0
  {
    ReachableIsInvariant(s, run);
  }

  /** The mapper never pops a task that is assigned already, which would stop the scheduler. */
  lemma MapperNeverStops(s: State, run: seq<Event>)
    requires Reachable(s, run) && s.mapper.Idle? && s.current != []
    ensures Step(s, Dequeue).Some?
  {
    ReachableIsInvariant(s, run);
    Dequeued(s);
  }

  // ---- oldest first ----

  function Schedules(run: seq<Event>): nat {
    if run == [] then 0 else (if run[0].Schedule? then 1 else 0) + Schedules(run[1..])
  }

  lemma ReadyByStep(s: State, e: Event)
    requires Step(s, e).Some?
    ensures var ready := Step(s, e).value.ready;
            if e.Schedule? then s.ready != [] && ready == s.ready[..|s.ready| - 1]
            else ready == s.ready || (|ready| == |s.ready| + 1 && ready[1..] == s.ready)
  {
    if !e.Schedule? && !e.CheckBlocked? && !e.EnqueueMove? && !e.Resume? && !e.Notify? {
      ReadySame(s, e);
    }
  }

  lemma ReadySame(s: State, e: Event)
    requires Step(s, e).Some? && !e.Schedule? && !e.CheckBlocked? && !e.EnqueueMove? && !e.Resume? && !e.Notify?
    ensures Step(s, e).value.ready == s.ready
  {
  }

  /** Ready tasks are scheduled in the order in which they became ready. Of those in the queue, as many as were
      scheduled since are gone, the oldest ones, and the others are still to the right of all newer ones. */
  lemma {:induction false} OldestFirst(s: State, run: seq<Event>, k: nat)
    requires Run(s, run).Some? && Schedules(run) + k == |s.ready|
    ensures var r := Run(s, run).value; k <= |r.ready| && r.ready[|r.ready| - k..] == s.ready[..k]
    decreases |run|
  {
    if run != [] {
      var next := Step(s, run[0]).value;
      ReadyByStep(s, run[0]);
      var left := if |next.ready| == |s.ready| + 1 then k + 1 else k;
      OldestFirst(next, run[1..], left);
      OldestLeft(s.ready, next.ready, Run(next, run[1..]).value.ready, k, left);
    }
  }

  lemma OldestLeft(before: seq<nat>, after: seq<nat>, end: seq<nat>, k: nat, left: nat)
    requires k <= |before| && left == (if |after| == |before| + 1 then k + 1 else k) && left <= |after|
    requires left <= |end| && end[|end| - left..] == after[..left]
    requires after == before || (|after| == |before| + 1 && after[1..] == before)
             || (before != [] && after == before[..|before| - 1])
    ensures end[|end| - k..] == before[..k]
  {
    if |after| == |before| + 1 {
      assert end[|end| - k..] == end[|end| - left..][1..] && before[..k] == after[..left][1..];
    } else {
      assert before[..k] == after[..k];
    }
  }

  /** New tasks queue up in the order in which they became ready: until the mapper fills its queue, those in the queue
      of new tasks stay, in order, to the right of all newer ones. */
  lemma {:induction false} NewTasksQueueUp(s: State, run: seq<Event>)
    requires Run(s, run).Some? && forall i | 0 <= i < |run| :: !run[i].Fill?
    ensures var r := Run(s, run).value;
            |s.newest| <= |r.newest| && r.newest[|r.newest| - |s.newest|..] == s.newest
    decreases |run|
  {
    if run != [] {
      var next := Step(s, run[0]).value;
      NewestByStep(s, run[0]);
      NewTasksQueueUp(next, run[1..]);
      var end := Run(next, run[1..]).value.newest;
      SuffixOfSuffix(s.newest, next.newest, end);
      assert Run(s, run) == Run(next, run[1..]);
    }
  }

  lemma NewestByStep(s: State, e: Event)
    requires Step(s, e).Some? && !e.Fill?
    ensures var newest := Step(s, e).value.newest;
            newest == s.newest || (|newest| == |s.newest| + 1 && newest[1..] == s.newest)
  {
  }

  lemma SuffixOfSuffix(first: seq<nat>, second: seq<nat>, third: seq<nat>)
    requires second == first || (|second| == |first| + 1 && second[1..] == first)
    requires |second| <= |third| && third[|third| - |second|..] == second
    ensures |first| <= |third| && third[|third| - |first|..] == first
  {
    assert third[|third| - |first|..] == third[|third| - |second|..][|second| - |first|..];
  }

  // ---- what a status says ----

  lemma StatusByChange(s: State, e: Event, t: nat, b: Task)
    requires t < |s.tasks| && Change(s, e, t, b)
    ensures b.status.Completed? ==> s.tasks[t].status.Completed? || (s.tasks[t].phase.Finishing? && s.tasks[t].phase.ok)
    ensures b.phase.Finishing? && b.phase.ok ==>
              e == Return(t, true) || (s.tasks[t].phase.Finishing? && s.tasks[t].phase.ok)
    ensures b.status.Failed? ==> s.tasks[t].status.Failed? || (s.tasks[t].phase.Finishing? && !s.tasks[t].phase.ok)
    ensures b.phase.Finishing? && !b.phase.ok ==>
              || e == Return(t, false) || (s.tasks[t].phase.Finishing? && !s.tasks[t].phase.ok)
              || (e == Begin(t) && !s.tasks[t].status.Running?)
  {
  }

  /** A task is completed only if its body returned without an exception. */
  lemma {:induction false} CompletedReturned(s: State, run: seq<Event>, t: nat)
    requires Run(s, run).Some? && t < |Run(s, run).value.tasks|
    requires t < |s.tasks| ==> !s.tasks[t].status.Completed? && !(s.tasks[t].phase.Finishing? && s.tasks[t].phase.ok)
    ensures var task := Run(s, run).value.tasks[t];
            task.status.Completed? || (task.phase.Finishing? && task.phase.ok) ==> Return(t, true) in run
    decreases |run|
  {
    if run != [] {
      var next := Step(s, run[0]).value;
      assert run == [run[0]] + run[1..];
      if run[0] != Return(t, true) {
        CompletedByStep(s, run[0], t);
        CompletedReturned(next, run[1..], t);
      }
    }
  }

  lemma CompletedByStep(s: State, e: Event, t: nat)
    requires Step(s, e).Some? && e != Return(t, true)
    requires t < |s.tasks| ==> !s.tasks[t].status.Completed? && !(s.tasks[t].phase.Finishing? && s.tasks[t].phase.ok)
    ensures var r := Step(s, e).value;
            t < |r.tasks| ==> !r.tasks[t].status.Completed? && !(r.tasks[t].phase.Finishing? && r.tasks[t].phase.ok)
  {
    if t < |s.tasks| {
      Changes(s, e, t);
      StatusByChange(s, e, t, Step(s, e).value.tasks[t]);
    } else if t < |Step(s, e).value.tasks| {
      NewTaskIs(s, e, t);
    }
  }

  /** A task fails only if its body raised, or if it was begun when it was not running any more. */
  lemma {:induction false} FailedRaised(s: State, run: seq<Event>, t: nat)
    requires Run(s, run).Some? && t < |Run(s, run).value.tasks|
    requires t < |s.tasks| ==> !s.tasks[t].status.Failed? && !(s.tasks[t].phase.Finishing? && !s.tasks[t].phase.ok)
    ensures var task := Run(s, run).value.tasks[t];
            task.status.Failed? || (task.phase.Finishing? && !task.phase.ok) ==>
              Return(t, false) in run || BegunLate(s, run, t)
    decreases |run|
  {
    if run != [] {
      var next := Step(s, run[0]).value;
      assert run == [run[0]] + run[1..];
      if run[0] != Return(t, false) && !(run[0] == Begin(t) && t < |s.tasks| && !s.tasks[t].status.Running?) {
        FailedByStep(s, run[0], t);
        FailedRaised(next, run[1..], t);
      }
    }
  }

  /** At some step of the run, `t` is begun although it is not running. */
  predicate BegunLate(s: State, run: seq<Event>, t: nat)
    decreases |run|
  {
    && run != []
    && ((run[0] == Begin(t) && t < |s.tasks| && !s.tasks[t].status.Running?)
        || match Step(s, run[0]) case None => false case Some(next) => BegunLate(next, run[1..], t))
  }

  lemma FailedByStep(s: State, e: Event, t: nat)
    requires Step(s, e).Some? && e != Return(t, false)
    requires !(e == Begin(t) && t < |s.tasks| && !s.tasks[t].status.Running?)
    requires t < |s.tasks| ==> !s.tasks[t].status.Failed? && !(s.tasks[t].phase.Finishing? && !s.tasks[t].phase.ok)
    ensures var r := Step(s, e).value;
            t < |r.tasks| ==> !r.tasks[t].status.Failed? && !(r.tasks[t].phase.Finishing? && !r.tasks[t].phase.ok)
  {
    if t < |s.tasks| {
      Changes(s, e, t);
      StatusByChange(s, e, t, Step(s, e).value.tasks[t]);
    } else if t < |Step(s, e).value.tasks| {
      NewTaskIs(s, e, t);
    }
  }

  /** What the status of a finished task says is what its body did, or that it was begun once too often. */
  lemma StatusIsOutcome(s: State, run: seq<Event>, t: nat)
    requires Reachable(s, run) && t < |s.tasks|
    ensures s.tasks[t].status.Completed? ==> Return(t, true) in run
    ensures s.tasks[t].status.Failed? ==> Return(t, false) in run || BegunLate(Start(), run, t)
  {
    CompletedReturned(Start(), run, t);
    FailedRaised(Start(), run, t);
  }

  // ---- filling the mapper's queue ----

  /** The queue is filtered in its order. */
  lemma {:induction false} MappableAppend(s: State, first: seq<nat>, second: seq<nat>, wanted: bool)
    ensures Mappable(s, first + second, wanted) == Mappable(s, first, wanted) + Mappable(s, second, wanted)
    decreases |first|
  {
    if first == [] {
      assert first + second == second;
    } else {
      assert (first + second)[0] == first[0] && (first + second)[1..] == first[1..] + second;
      MappableAppend(s, first[1..], second, wanted);
    }
  }

  lemma {:induction false} MappableAre(s: State, queue: seq<nat>, wanted: bool, t: nat)
    ensures t in Mappable(s, queue, wanted) <==> t in queue && DependenciesMapped(s, t) == wanted
  {
    if queue != [] {
      MappableAre(s, queue[1..], wanted, t);
      assert queue == [queue[0]] + queue[1..];
    }
  }

  /** New tasks overtake: if the queue is filled before it is used up, the task taken next is a new one exactly if some
      new task has all its dependencies mapped, and the older ones stay behind. */
  lemma NewOvertakeOld(s: State, run: seq<Event>)
    requires Reachable(s, run) && s.mapper.Idle? && s.current != []
    ensures Step(s, Fill) == Some(Filled(s)) && Filled(s).current != []
    ensures var next := Filled(s).current[|Filled(s).current| - 1];
            && (next in s.newest <==> exists t :: t in s.newest && DependenciesMapped(s, t))
            && (next in s.current <==> next !in s.newest)
  {
    ReachableIsConserved(s, run);
    NextIsNew(s);
  }

  lemma ReachableIsConserved(s: State, run: seq<Event>)
    requires Reachable(s, run)
    ensures Conserved(s)
  {
    ReachableIsInvariant(s, run);
  }

  lemma NextIsNew(s: State)
    requires Conserved(s) && s.current != []
    ensures var queue := Filled(s).current;
            && queue != []
            && (queue[|queue| - 1] in s.newest <==> exists t :: t in s.newest && DependenciesMapped(s, t))
            && (queue[|queue| - 1] in s.current <==> queue[|queue| - 1] !in s.newest)
  {
    SomeMappable(s, s.newest);
    NextAfterFill(s);
  }

  lemma SomeMappable(s: State, queue: seq<nat>)
    ensures Mappable(s, queue, true) != [] <==> exists t :: t in queue && DependenciesMapped(s, t)
  {
    if Mappable(s, queue, true) != [] {
      MappableAre(s, queue, true, Mappable(s, queue, true)[0]);
    }
    if t :| t in queue && DependenciesMapped(s, t) {
      MappableAre(s, queue, true, t);
    }
  }

  lemma NextAfterFill(s: State)
    requires Conserved(s) && s.current != []
    ensures var queue := Filled(s).current;
            && queue != []
            && (queue[|queue| - 1] in s.newest <==> Mappable(s, s.newest, true) != [])
            && (queue[|queue| - 1] in s.current <==> queue[|queue| - 1] !in s.newest)
  {
    var moved, queue := Mappable(s, s.newest, true), Filled(s).current;
    var next := queue[|queue| - 1];
    if moved == [] {
      assert next == s.current[|s.current| - 1];
    } else {
      assert next == moved[|moved| - 1];
      MappableAre(s, s.newest, true, next);
    }
    InOneQueue(s, next);
  }

  lemma InOneQueue(s: State, t: nat)
    requires Conserved(s)
    ensures !(t in s.newest && t in s.current)
  {
    assert Held(s, t) <= 1;
    assert t in s.newest ==> t in multiset(s.newest);
    assert t in s.current ==> t in multiset(s.current);
  }
}
