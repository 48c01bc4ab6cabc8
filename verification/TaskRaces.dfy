/**
 Continuations. A task that awaits others runs its body several times, and what the code promises about the later
 runs rests on a task never being queued twice. One interleaving of the mapper with a notification queues it
 twice; this module shows what holds in runs without it, and that it is exactly what breaks the promise.
 */
module TaskRaces {
  import opened Wrappers
  import opened TaskRuntime
  import opened TaskGraphInvariants
  import opened TaskRuntimeInvariants
  import opened TaskRuntimeTheorems

  /** A notification makes the task schedulable that the mapper has assigned and is about to check. Both the
      notification and the check then enqueue it. */
  predicate Races(s: State, e: Event) {
    e.Notify? && s.mapper.Checking? && Enqueues(s, e, s.mapper.t)
  }

  /** Somebody holds the task to run it. */
  predicate Busy(task: Task) {
    task.phase.Executing? || task.phase.Depending? || task.phase.Finishing?
  }

  /** A task is queued or run at most once at a time, and queued or run only with counter zero. */
  ghost predicate Single(s: State, t: nat)
    requires t < |s.tasks|
  {
    var task := s.tasks[t];
    && Tokens(s, t) + (if Busy(task) then 1 else 0) <= 1
    && (s.mapper == Checking(t) ==> Tokens(s, t) == 0 && !Busy(task) && task.status.Running?)
    && (Tokens(s, t) > 0 ==> task.blocking == 0 && task.status.Running? && task.phase.Free?)
    && (task.phase.Executing? ==> task.blocking == 0)
    && (task.phase.Finishing? ==> task.status.Running?)
    && (Terminal(task) ==> Tokens(s, t) == 0 && task.phase.Free?)
  }

  ghost predicate Exclusive(s: State) {
    forall t | 0 <= t < |s.tasks| && !s.tasks[t].move :: Single(s, t)
  }

  ghost predicate Orderly(s: State) {
    Invariant(s) && Graph(s.tasks, true) && Exclusive(s)
  }

  // ---- steps without a race keep it ----

  lemma ZeroIsNotNotified(s: State, d: nat, t: nat)
    requires Graph(s.tasks, true) && d < |s.tasks| && t < |s.tasks| && !s.tasks[t].move
    requires s.tasks[d].phase.Finishing? && s.tasks[d].phase.rest != [] && s.tasks[d].phase.rest[0] == t
    ensures s.tasks[t].blocking > 0
  {
    assert Counted(s.tasks, t);
    OccurrencesOne(s.tasks, d, t);
    assert t in Pending(s.tasks[d]);
  }

  lemma SingleByMoving(s: State, e: Event, t: nat)
    requires Orderly(s) && Step(s, e).Some? && t < |s.tasks| && !s.tasks[t].move && (e == Begin(t) || e == Resume(t))
    ensures t < |Step(s, e).value.tasks| && Single(Step(s, e).value, t)
  {
    TokensChange(s, e, t);
    assert Single(s, t) && Consistent(s.tasks[t]);
  }

  lemma SingleByPhase(s: State, e: Event, t: nat)
    requires Orderly(s) && Step(s, e).Some? && QuietTask(s, e) == Some(t) && t < |s.tasks| && !s.tasks[t].move
    requires !e.Begin? && !e.Resume?
    ensures t < |Step(s, e).value.tasks| && Single(Step(s, e).value, t)
  {
    QueuesUntouched(s, e);
    assert Single(s, t) && Consistent(s.tasks[t]);
    assert !s.tasks[t].isAssigned ==> Tokens(s, t) == 0;
  }

  lemma SingleByQuiet(s: State, e: Event, t: nat)
    requires Orderly(s) && Step(s, e).Some? && QuietTask(s, e) == Some(t) && t < |s.tasks| && !s.tasks[t].move
    ensures t < |Step(s, e).value.tasks| && Single(Step(s, e).value, t)
  {
    if e.Begin? || e.Resume? {
      SingleByMoving(s, e, t);
    } else {
      SingleByPhase(s, e, t);
    }
  }

  lemma SingleElsewhere(s: State, e: Event, t: nat)
    requires Orderly(s) && Step(s, e).Some? && QuietTask(s, e).Some? && QuietTask(s, e) != Some(t)
    requires t < |s.tasks| && !s.tasks[t].move
    ensures t < |Step(s, e).value.tasks| && Single(Step(s, e).value, t)
  {
    TokensChange(s, e, t);
    QuietStep(s, e);
    assert Single(s, t);
  }

  lemma CheckingOnQueues(s: State, e: Event, t: nat)
    requires Step(s, e).Some? && OnQueues(e) && t < |s.tasks| && !s.tasks[t].move
    ensures Step(s, e).value.mapper == Checking(t) ==> s.mapper == Checking(t) && !Enqueues(s, e, t)
    ensures Enqueues(s, e, t) ==> s.mapper == Checking(t) && Known(s, t) && s.tasks[t].phase.Free?
    ensures !Consumes(s, e, t) || !Enqueues(s, e, t)
  {
  }

  lemma SingleByQueues(s: State, e: Event, t: nat)
    requires Orderly(s) && Step(s, e).Some? && OnQueues(e) && t < |s.tasks| && !s.tasks[t].move
    ensures t < |Step(s, e).value.tasks| && Single(Step(s, e).value, t)
  {
    TokensChange(s, e, t);
    SameTasks(s, e);
    CheckingOnQueues(s, e, t);
    assert Single(s, t);
    assert s.mapper == Checking(t) ==> Consistent(s.tasks[t]);
  }

  lemma SingleByNotify(s: State, d: nat, t: nat)
    requires Orderly(s) && Step(s, Notify(d)).Some? && !Races(s, Notify(d)) && t < |s.tasks| && !s.tasks[t].move
    ensures t < |Step(s, Notify(d)).value.tasks| && Single(Step(s, Notify(d)).value, t)
  {
    TokensChange(s, Notify(d), t);
    assert Single(s, t) && Consistent(s.tasks[t]);
    if s.tasks[d].phase.rest[0] == t {
      ZeroIsNotNotified(s, d, t);
    }
  }

  lemma RegisterTouches(s: State, u: nat, t: nat)
    requires Step(s, Register(u)).Some? && t < |s.tasks|
    ensures var r := Step(s, Register(u)).value;
            && t < |r.tasks| && r.mapper == s.mapper && r.tasks[t].status == s.tasks[t].status
            && (if t == u then s.tasks[t].phase.Spawning? && (r.tasks[t].phase.Free? || r.tasks[t].phase.Spawning?)
                else r.tasks[t].phase == s.tasks[t].phase && r.tasks[t].blocking == s.tasks[t].blocking)
  {
  }

  lemma SingleByRegistering(s: State, e: Event, t: nat)
    requires Orderly(s) && Step(s, e).Some? && t < |s.tasks| && !s.tasks[t].move && e.Register?
    ensures t < |Step(s, e).value.tasks| && Single(Step(s, e).value, t)
  {
    QueuesUntouched(s, e);
    RegisterTouches(s, e.t, t);
    assert Single(s, t) && Consistent(s.tasks[t]);
    assert !s.tasks[t].isAssigned ==> Tokens(s, t) == 0;
  }

  lemma DependTouches(s: State, d: nat, t: nat)
    requires Step(s, Depend(d)).Some? && t < |s.tasks|
    ensures var r := Step(s, Depend(d)).value;
            && t < |r.tasks| && r.mapper == s.mapper && r.tasks[t].status == s.tasks[t].status
            && (if t == d
                then s.tasks[t].phase.Depending? && r.tasks[t].phase.Depending? && Tokens(r, t) == Tokens(s, t)
                else r.tasks[t].phase == s.tasks[t].phase && r.tasks[t].blocking == s.tasks[t].blocking)
  {
  }

  lemma SingleByDepending(s: State, e: Event, t: nat)
    requires Orderly(s) && Step(s, e).Some? && t < |s.tasks| && !s.tasks[t].move && e.Depend?
    ensures t < |Step(s, e).value.tasks| && Single(Step(s, e).value, t)
  {
    QueuesUntouched(s, e);
    DependTouches(s, e.t, t);
    assert Single(s, t);
  }

  lemma MoveAddsTouches(s: State, m: nat, t: nat)
    requires Step(s, MoveAdds(m)).Some? && t < |s.tasks| && t != m
    ensures var r := Step(s, MoveAdds(m)).value;
            && t < |r.tasks| && r.mapper == s.mapper
            && r.tasks[t] == s.tasks[t].(dependents := r.tasks[t].dependents)
  {
  }

  lemma SingleByOthers(s: State, e: Event, t: nat)
    requires Orderly(s) && Step(s, e).Some? && t < |s.tasks| && !s.tasks[t].move
    requires e.Spawn? || e.AddMove? || e.Await? || e.MoveAdds?
    ensures t < |Step(s, e).value.tasks| && Single(Step(s, e).value, t)
  {
    QueuesUntouched(s, e);
    if e.MoveAdds? {
      MoveAddsTouches(s, e.m, t);
    }
    assert Single(s, t) && Consistent(s.tasks[t]);
    assert !s.tasks[t].isAssigned ==> Tokens(s, t) == 0;
  }

  lemma NewTaskIsSingle(s: State, e: Event, t: nat)
    requires Orderly(s) && Step(s, e).Some? && |s.tasks| <= t < |Step(s, e).value.tasks|
    ensures Step(s, e).value.tasks[t].move || Single(Step(s, e).value, t)
  {
    NewTaskArrives(s, e, t);
    QueuesUntouched(s, e);
    assert !Token(s, t) && s.mapper != Checking(t);
  }

  lemma NewTaskArrives(s: State, e: Event, t: nat)
    requires Step(s, e).Some? && |s.tasks| <= t < |Step(s, e).value.tasks|
    ensures e.Spawn? || e.AddMove?
    ensures var r := Step(s, e).value;
            r.mapper == s.mapper && (r.tasks[t].move || r.tasks[t] == NewTask(e.deps))
  {
    if !e.Spawn? && !e.AddMove? {
      SameNumber(s, e);
    }
  }

  lemma SingleKept(s: State, e: Event, t: nat)
    requires Orderly(s) && Step(s, e).Some? && !Races(s, e) && t < |s.tasks| && !s.tasks[t].move
    ensures t < |Step(s, e).value.tasks| && Single(Step(s, e).value, t)
  {
    if QuietTask(s, e).Some? {
      if QuietTask(s, e) == Some(t) {
        SingleByQuiet(s, e, t);
      } else {
        SingleElsewhere(s, e, t);
      }
    } else if OnQueues(e) {
      SingleByQueues(s, e, t);
    } else if e.Notify? {
      SingleByNotify(s, e.t, t);
    } else if e.Register? {
      SingleByRegistering(s, e, t);
    } else if e.Depend? {
      SingleByDepending(s, e, t);
    } else {
      SingleByOthers(s, e, t);
    }
  }

  /** An await happens with nobody left to notify the task. */
  lemma NobodyNotifiesTheRunning(s: State, t: nat)
    requires Orderly(s) && t < |s.tasks| && s.tasks[t].phase.Executing? && !s.tasks[t].move
    ensures Occurrences(s.tasks, t) == 0
  {
    assert Single(s, t) && Counted(s.tasks, t);
  }

  lemma OrderlyKept(s: State, e: Event)
    requires Orderly(s) && Step(s, e).Some? && !Races(s, e)
    ensures Orderly(Step(s, e).value)
  {
    InvariantKept(s, e);
    CountersStayExact(s, e);
    ExclusiveKept(s, e);
  }

  lemma CountersStayExact(s: State, e: Event)
    requires Orderly(s) && Step(s, e).Some?
    ensures Graph(Step(s, e).value.tasks, true)
  {
    if e.Await? {
      NobodyNotifiesTheRunning(s, e.t);
    }
    GraphKept(s, e, true);
  }

  lemma ExclusiveKept(s: State, e: Event)
    requires Orderly(s) && Step(s, e).Some? && !Races(s, e)
    ensures Exclusive(Step(s, e).value)
  {
    var r := Step(s, e).value;
    forall t | 0 <= t < |r.tasks| && !r.tasks[t].move ensures Single(r, t) {
      SingleAt(s, e, t);
    }
  }

  lemma SingleAt(s: State, e: Event, t: nat)
    requires Orderly(s) && Step(s, e).Some? && !Races(s, e)
    requires t < |Step(s, e).value.tasks| && !Step(s, e).value.tasks[t].move
    ensures Single(Step(s, e).value, t)
  {
    if t < |s.tasks| {
      GrowsAt(s, e, t);
      SingleKept(s, e, t);
    } else {
      NewTaskIsSingle(s, e, t);
    }
  }

  // ---- runs ----

  predicate RaceFree(s: State, run: seq<Event>)
    decreases |run|
  {
    run == [] || (!Races(s, run[0])
        && match Step(s, run[0]) case None => true case Some(next) => RaceFree(next, run[1..]))
  }

  lemma {:induction false} RaceFreeRunsAreOrderly(s: State, run: seq<Event>)
    requires Orderly(s) && RaceFree(s, run) && Run(s, run).Some?
    ensures Orderly(Run(s, run).value)
    decreases |run|
  {
    if run != [] {
      OrderlyKept(s, run[0]);
      RaceFreeRunsAreOrderly(Step(s, run[0]).value, run[1..]);
    }
  }

  predicate ReachableWithoutRace(s: State, run: seq<Event>) {
    Reachable(s, run) && RaceFree(Start(), run)
  }

  lemma WithoutRaceIsOrderly(s: State, run: seq<Event>)
    requires ReachableWithoutRace(s, run)
    ensures Orderly(s)
  {
    StartIsInvariant();
    RaceFreeRunsAreOrderly(Start(), run);
  }

  /** In runs without the race, a task is enqueued (for its first run or to continue) only when everything it
      depends on or awaits has finished, and is begun only then, in the running state. */
  lemma ContinuationsAreNeverEarly(s: State, run: seq<Event>, e: Event, t: nat)
    requires ReachableWithoutRace(s, run) && Step(s, e).Some? && t < |s.tasks| && !s.tasks[t].move
    ensures t < |Step(s, e).value.tasks|
    ensures Enqueues(s, e, t) ==> AllFinished(Step(s, e).value.tasks, Step(s, e).value.tasks[t].dependencies)
    ensures e == Begin(t) ==> s.tasks[t].status.Running? && AllFinished(s.tasks, s.tasks[t].dependencies)
  {
    WithoutRaceIsOrderly(s, run);
    GrowsAt(s, e, t);
    if Enqueues(s, e, t) {
      EnqueuedIsCounted(s, e, t);
    }
    if e == Begin(t) {
      assert Single(s, t) && Counted(s.tasks, t);
      ZeroMeansFinished(s.tasks, t);
    }
  }

  lemma EnqueuedIsCounted(s: State, e: Event, t: nat)
    requires Orderly(s) && Step(s, e).Some? && Enqueues(s, e, t) && t < |s.tasks| && !s.tasks[t].move
    ensures var r := Step(s, e).value; t < |r.tasks| && AllFinished(r.tasks, r.tasks[t].dependencies)
  {
    GraphKept(s, e, true);
    EnqueuedAtZero(s, e, t);
    assert Counted(Step(s, e).value.tasks, t);
    ZeroMeansFinished(Step(s, e).value.tasks, t);
  }

  /** The first race is exactly what makes the mapper's next check queue a task twice. */
  lemma RaceQueuesTwice(s: State, run: seq<Event>, e: Event)
    requires ReachableWithoutRace(s, run) && Step(s, e).Some?
    ensures Races(s, e) <==>
              var checked := Step(Step(s, e).value, CheckBlocked);
              checked.Some? && exists t ::
                  0 <= t < |checked.value.tasks| && !checked.value.tasks[t].move && Tokens(checked.value, t) >= 2
  {
    WithoutRaceIsOrderly(s, run);
    var r := Step(s, e).value;
    if Races(s, e) {
      RacedTwice(s, e);
    } else {
      OrderlyKept(s, e);
      if Step(r, CheckBlocked).Some? {
        OrderlyKept(r, CheckBlocked);
        var c := Step(r, CheckBlocked).value;
        forall t | 0 <= t < |c.tasks| && !c.tasks[t].move ensures Tokens(c, t) < 2 {
          assert Single(c, t);
        }
      }
    }
  }

  lemma RacedTwice(s: State, e: Event)
    requires Orderly(s) && Step(s, e).Some? && Races(s, e)
    ensures var checked := Step(Step(s, e).value, CheckBlocked);
            && checked.Some? && s.mapper.t < |checked.value.tasks| && !checked.value.tasks[s.mapper.t].move
            && Tokens(checked.value, s.mapper.t) >= 2
  {
    var t, r := s.mapper.t, Step(s, e).value;
    TokensChange(s, e, t);
    EnqueuedAtZero(s, e, t);
    assert r.mapper == Checking(t) && r.tasks[t].phase.Free?;
    TokensChange(r, CheckBlocked, t);
  }
}
