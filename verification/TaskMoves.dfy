/**
 Data movement tasks. The mapper makes them one dependency at a time, and in between a notification may find that
 nothing is left to wait for. This module shows what holds for them, and what exactly lets one start early.
 */
module TaskMoves {
  import opened Wrappers
  import opened TaskRuntime
  import opened TaskGraphInvariants
  import opened TaskRuntimeInvariants
  import opened TaskRuntimeTheorems
  import opened TaskEarlyRuns

  predicate IsMove(s: State, m: nat) {
    m < |s.tasks| && s.tasks[m].move
  }

  /** A data movement task enters the ready queue only when every dependency it has by then has finished. */
  lemma MovesSeeDependencies(s: State, run: seq<Event>, e: Event, m: nat)
    requires Reachable(s, run) && Step(s, e).Some? && Enqueues(s, e, m) && IsMove(s, m)
    ensures m < |Step(s, e).value.tasks|
    ensures AllFinished(Step(s, e).value.tasks, Step(s, e).value.tasks[m].dependencies)
  {
    ReachableIsInvariant(s, run);
    InvariantKept(s, e);
    EnqueuedAtZero(s, e, m);
    MoveAtZero(Step(s, e).value, m);
  }

  lemma MoveAtZero(s: State, m: nat)
    requires Invariant(s) && IsMove(s, m) && s.tasks[m].blocking == 0
    ensures AllFinished(s.tasks, s.tasks[m].dependencies)
  {
    assert Counts(s.tasks[m], false) && Counted(s.tasks, m);
    ZeroMeansFinished(s.tasks, m);
  }

  /** The mapper adds a dependency that has not finished to a data movement task that is queued already, or has run. */
  predicate AddsLate(s: State, e: Event) {
    && e.MoveAdds? && Known(s, e.m) && s.tasks[e.m].phase.Adding? && Known(s, s.tasks[e.m].phase.dep)
    && !Terminal(s.tasks[s.tasks[e.m].phase.dep]) && (Token(s, e.m) || s.tasks[e.m].started)
  }

  /** What is queued or has run waits for nothing. */
  ghost predicate MovesReady(s: State) {
    forall m: nat | IsMove(s, m) && (Token(s, m) || s.tasks[m].started) :: s.tasks[m].blocking == 0
  }

  // ---- steps that do not add late keep it ----

  lemma ZeroStays(s: State, e: Event, m: nat)
    requires Invariant(s) && Step(s, e).Some? && !AddsLate(s, e) && IsMove(s, m) && (Token(s, m) || s.tasks[m].started)
    requires s.tasks[m].blocking == 0
    ensures m < |Step(s, e).value.tasks| && Step(s, e).value.tasks[m].blocking == 0
  {
    assert Counts(s.tasks[m], false) && Counted(s.tasks, m) && Consistent(s.tasks[m]);
    if e.Notify? {
      PendingOccurs(s.tasks, e.t, m);
      ZeroByNotify(s, e.t, m);
    } else if e.Register? || e.Depend? || e.MoveAdds? {
      ZeroByLinks(s, e, m);
    } else if QuietTask(s, e).Some? {
      QuietStep(s, e);
    } else {
      ZeroByOthers(s, e, m);
    }
  }

  lemma ZeroByNotify(s: State, d: nat, m: nat)
    requires Step(s, Notify(d)).Some? && IsMove(s, m) && m !in Pending(s.tasks[d])
    ensures m < |Step(s, Notify(d)).value.tasks| && Step(s, Notify(d)).value.tasks[m].blocking == s.tasks[m].blocking
  {
  }

  lemma ZeroByLinks(s: State, e: Event, m: nat)
    requires Step(s, e).Some? && (e.Register? || e.Depend? || e.MoveAdds?) && IsMove(s, m) && Rest(s.tasks[m]) == []
    requires e.MoveAdds? && e.m == m ==> Terminal(s.tasks[s.tasks[m].phase.dep])
    ensures m < |Step(s, e).value.tasks| && Step(s, e).value.tasks[m].blocking == s.tasks[m].blocking
  {
  }

  lemma ZeroByOthers(s: State, e: Event, m: nat)
    requires Step(s, e).Some? && QuietTask(s, e).None? && IsMove(s, m)
    requires !e.Register? && !e.Depend? && !e.MoveAdds? && !e.Notify?
    requires s.mapper.Moving? ==> s.mapper.t != m
    ensures m < |Step(s, e).value.tasks| && Step(s, e).value.tasks[m].blocking == s.tasks[m].blocking
  {
  }

  lemma StartsByChange(s: State, e: Event, m: nat, b: Task)
    requires m < |s.tasks| && Change(s, e, m, b)
    ensures b.started ==> s.tasks[m].started || e == Begin(m)
  {
  }

  lemma StartsByBegin(s: State, e: Event, m: nat)
    requires Step(s, e).Some? && m < |s.tasks|
    ensures m < |Step(s, e).value.tasks|
    ensures Step(s, e).value.tasks[m].started ==> s.tasks[m].started || (e == Begin(m) && Token(s, m))
  {
    Changes(s, e, m);
    StartsByChange(s, e, m, Step(s, e).value.tasks[m]);
  }

  lemma ReadyKeptAt(s: State, e: Event, m: nat)
    requires Invariant(s) && MovesReady(s) && Step(s, e).Some? && !AddsLate(s, e) && IsMove(s, m)
    ensures var r := Step(s, e).value;
            m < |r.tasks| && (Token(r, m) || r.tasks[m].started ==> r.tasks[m].blocking == 0)
  {
    TokensChange(s, e, m);
    StartsByBegin(s, e, m);
    if Enqueues(s, e, m) {
      EnqueuedAtZero(s, e, m);
    } else if Token(s, m) || s.tasks[m].started {
      ZeroStays(s, e, m);
    }
  }

  lemma NewMoveWaits(s: State, e: Event, m: nat)
    requires Invariant(s) && Step(s, e).Some? && |s.tasks| <= m < |Step(s, e).value.tasks|
    ensures !Token(Step(s, e).value, m) && !Step(s, e).value.tasks[m].started
  {
    NewTaskIs(s, e, m);
    QueuesUntouched(s, e);
    assert !Token(s, m);
  }

  lemma ReadyKept(s: State, e: Event)
    requires Invariant(s) && MovesReady(s) && Step(s, e).Some? && !AddsLate(s, e)
    ensures MovesReady(Step(s, e).value)
  {
    var r := Step(s, e).value;
    forall m: nat | IsMove(r, m) && (Token(r, m) || r.tasks[m].started) ensures r.tasks[m].blocking == 0 {
      if m < |s.tasks| {
        GrowsAt(s, e, m);
        ReadyKeptAt(s, e, m);
      } else {
        NewMoveWaits(s, e, m);
      }
    }
  }

  // ---- runs ----

  predicate NothingLate(s: State, run: seq<Event>)
    decreases |run|
  {
    run == [] || (!AddsLate(s, run[0])
                  && match Step(s, run[0]) case None => true case Some(next) => NothingLate(next, run[1..]))
  }

  lemma {:induction false} RunKeepsReady(s: State, run: seq<Event>)
    requires Invariant(s) && MovesReady(s) && NothingLate(s, run) && Run(s, run).Some?
    ensures Invariant(Run(s, run).value) && MovesReady(Run(s, run).value)
    decreases |run|
  {
    if run != [] {
      InvariantKept(s, run[0]);
      ReadyKept(s, run[0]);
      RunKeepsReady(Step(s, run[0]).value, run[1..]);
    }
  }

  /** In runs in which nothing is added late, a data movement task that is queued, runs or has run waits for nothing:
      all its dependencies have finished. */
  lemma MovesAreNeverEarly(s: State, run: seq<Event>, m: nat)
    requires Reachable(s, run) && NothingLate(Start(), run) && IsMove(s, m) && (Token(s, m) || s.tasks[m].started)
    ensures AllFinished(s.tasks, s.tasks[m].dependencies)
  {
    StartIsInvariant();
    RunKeepsReady(Start(), run);
    MoveAtZero(s, m);
  }

  // ---- a late addition lets the task start early ----

  ghost predicate StartedEarly(s: State, m: nat) {
    IsMove(s, m) && s.tasks[m].started && !AllFinished(s.tasks, s.tasks[m].dependencies)
  }

  /** `m` depends on `d`, which has not finished. */
  predicate Lacks(s: State, m: nat, d: nat) {
    IsMove(s, m) && d < |s.tasks| && d != m && d in s.tasks[m].dependencies && !Finished(s.tasks[d])
  }

  lemma LateIsUnfinished(s: State, e: Event)
    requires Invariant(s) && Step(s, e).Some? && AddsLate(s, e)
    ensures var r := Step(s, e).value;
            && Lacks(r, e.m, s.tasks[e.m].phase.dep) && r.tasks[e.m].phase.Free?
            && r.tasks[e.m].started == s.tasks[e.m].started && r.tasks[e.m].status == s.tasks[e.m].status
            && Tokens(r, e.m) == Tokens(s, e.m)
  {
    assert Consistent(s.tasks[e.m]);
    QueuesUntouched(s, e);
  }

  lemma LacksIsUnfinished(s: State, m: nat, d: nat)
    requires Lacks(s, m, d)
    ensures !AllFinished(s.tasks, s.tasks[m].dependencies)
  {
  }

  lemma BeginsAnyway(s: State, m: nat, d: nat)
    requires m in s.workers && Lacks(s, m, d) && s.tasks[m].phase.Free?
    ensures Step(s, Begin(m)).Some? && StartedEarly(Step(s, Begin(m)).value, m)
  {
    LacksIsUnfinished(Step(s, Begin(m)).value, m, d);
  }

  /** Every late addition can go on to a data movement task that has started while a dependency has not finished. */
  lemma LateMovesStartEarly(s: State, run: seq<Event>, e: Event) returns (more: seq<Event>, r: State)
    requires Reachable(s, run) && Step(s, e).Some? && AddsLate(s, e)
    ensures Reachable(r, run + [e] + more) && StartedEarly(r, e.m)
  {
    ReachableIsInvariant(s, run);
    LateIsUnfinished(s, e);
    Then(Start(), run, s, e);
    more, r := StartsSoon(Step(s, e).value, e.m, s.tasks[e.m].phase.dep);
    RunAppend(Start(), run + [e], more);
  }

  lemma StartsSoon(s: State, m: nat, d: nat) returns (more: seq<Event>, r: State)
    requires Lacks(s, m, d) && s.tasks[m].phase.Free? && (Token(s, m) || s.tasks[m].started)
    requires s.tasks[m].status.Completed? ==> s.tasks[m].started
    ensures Run(s, more) == Some(r) && StartedEarly(r, m)
  {
    if s.tasks[m].started {
      more, r := [], s;
      LacksIsUnfinished(s, m, d);
    } else {
      var deliver, delivered := Deliver(s, m);
      BeginsAnyway(delivered, m, d);
      r := Step(delivered, Begin(m)).value;
      more := deliver + [Begin(m)];
      Then(s, deliver, delivered, Begin(m));
    }
  }
}
