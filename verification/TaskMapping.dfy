/**
 What the mapper has in hand while it makes the data movement tasks of one task: the one that it has not checked yet,
 and the list of unblocked ones, which it enqueues when all are made. Other threads take steps in between. This module
 shows that no data movement task is lost, that each is queued once, and what exactly makes one be queued twice.
 */
module TaskMapping {
  import opened Wrappers
  import opened TaskRuntime
  import opened TaskGraphInvariants
  import opened TaskRuntimeInvariants
  import opened TaskRuntimeTheorems
  import opened TaskMoves

  datatype Hand = Hand(making: Option<nat>, mappable: seq<nat>)

  datatype Mapping = Mapping(s: State, h: Hand)

  /** A step of the state machine, or the mapper's look at the counter of the data movement task it has just made. */
  datatype Action = Plain(e: Event) | CheckMove

  const EMPTY := Hand(None, [])

  /** The order of the mapper's own steps. */
  predicate Permitted(h: Hand, e: Event) {
    match e
    case AddMove => h.making.None?
    case MoveAsks(m, _) => h.making == Some(m)
    case EnqueueMove(m) => h.making.None? && h.mappable != [] && h.mappable[0] == m
    case Assign => h == EMPTY
    case _ => true
  }

  function HandAfter(w: Mapping, e: Event): Hand {
    match e
    case AddMove => w.h.(making := Some(|w.s.tasks|))
    case EnqueueMove(_) => if w.h.mappable == [] then w.h else w.h.(mappable := w.h.mappable[1..])
    case _ => w.h
  }

  function Checked(w: Mapping, m: nat): Hand
    requires Known(w.s, m)
  {
    Hand(None, w.h.mappable + if w.s.tasks[m].blocking == 0 then [m] else [])
  }

  function Act(w: Mapping, a: Action): Option<Mapping> {
    match a
    case Plain(e) =>
      if Permitted(w.h, e) && Step(w.s, e).Some? then Some(Mapping(Step(w.s, e).value, HandAfter(w, e))) else None
    case CheckMove =>
      if w.h.making.Some? && MapperHas(w.s, w.h.making.value) then Some(w.(h := Checked(w, w.h.making.value)))
      else None
  }

  function Acts(w: Mapping, acts: seq<Action>): Option<Mapping>
    decreases |acts|
  {
    if acts == [] then Some(w)
    else
      match Act(w, acts[0])
      case None => None
      case Some(next) => Acts(next, acts[1..])
  }

  /** The steps of the state machine among them. */
  function Events(acts: seq<Action>): seq<Event> {
    if acts == [] then []
    else (match acts[0] case Plain(e) => [e] case CheckMove => []) + Events(acts[1..])
  }

  lemma {:induction false} ActsAreRuns(w: Mapping, acts: seq<Action>)
    requires Acts(w, acts).Some?
    ensures Run(w.s, Events(acts)) == Some(Acts(w, acts).value.s)
    decreases |acts|
  {
    if acts != [] {
      ActsAreRuns(Act(w, acts[0]).value, acts[1..]);
      if acts[0].Plain? {
        var run := [acts[0].e] + Events(acts[1..]);
        assert run[0] == acts[0].e && run[1..] == Events(acts[1..]);
      } else {
        assert [] + Events(acts[1..]) == Events(acts[1..]);
      }
    }
  }

  function Plains(run: seq<Event>): (acts: seq<Action>)
    ensures |acts| == |run| && forall i | 0 <= i < |run| :: acts[i] == Plain(run[i])
  {
    seq(|run|, i requires 0 <= i < |run| => Plain(run[i]))
  }

  /** From one empty hand to the next. */
  predicate Maps(s: State, acts: seq<Action>, r: State) {
    Acts(Mapping(s, EMPTY), acts) == Some(Mapping(r, EMPTY))
  }

  lemma {:induction false} ActsThen(w: Mapping, acts: seq<Action>, last: Mapping, more: seq<Action>)
    requires Acts(w, acts) == Some(last)
    ensures Acts(w, acts + more) == Acts(last, more)
    decreases |acts|
  {
    if acts == [] {
      assert acts + more == more;
    } else {
      assert (acts + more)[0] == acts[0] && (acts + more)[1..] == acts[1..] + more;
      ActsThen(Act(w, acts[0]).value, acts[1..], last, more);
    }
  }

  lemma MapsThen(s: State, acts: seq<Action>, r: State, more: seq<Action>, q: State)
    requires Maps(s, acts, r) && Maps(r, more, q)
    ensures Maps(s, acts + more, q)
  {
    ActsThen(Mapping(s, EMPTY), acts, Mapping(r, EMPTY), more);
  }

  lemma ActsOne(w: Mapping, a: Action)
    ensures Acts(w, [a]) == Act(w, a)
  {
    assert [a][1..] == [];
  }

  predicate IsMoveEvent(e: Event) {
    e.AddMove? || e.MoveAsks? || e.MoveAdds? || e.EnqueueMove?
  }

  lemma {:induction false} LiftPlain(s: State, run: seq<Event>, r: State)
    requires Run(s, run) == Some(r) && forall i | 0 <= i < |run| :: !IsMoveEvent(run[i])
    ensures Maps(s, Plains(run), r)
    decreases |run|
  {
    if run != [] {
      assert Plains(run)[0] == Plain(run[0]) && Plains(run)[1..] == Plains(run[1..]);
      LiftPlain(Step(s, run[0]).value, run[1..], r);
    }
  }

  /** While dependencies are added, the hand stays as it is. */
  lemma {:induction false} LiftAdding(s: State, h: Hand, run: seq<Event>, r: State, m: nat)
    requires Run(s, run) == Some(r) && h.making == Some(m)
    requires forall i | 0 <= i < |run| :: (run[i].MoveAsks? && run[i].m == m) || run[i].MoveAdds?
    ensures Acts(Mapping(s, h), Plains(run)) == Some(Mapping(r, h))
    decreases |run|
  {
    if run != [] {
      assert Plains(run)[0] == Plain(run[0]) && Plains(run)[1..] == Plains(run[1..]);
      LiftAdding(Step(s, run[0]).value, h, run[1..], r, m);
    }
  }

  /** One data movement task is made, gets its dependencies, and is checked. */
  lemma LiftMaking(s: State, mappable: seq<nat>, links: seq<Event>, r: State, m: nat)
    requires Run(s, [AddMove] + links) == Some(r) && m == |s.tasks| && MapperHas(r, m)
    requires forall i | 0 <= i < |links| :: (links[i].MoveAsks? && links[i].m == m) || links[i].MoveAdds?
    ensures Acts(Mapping(s, Hand(None, mappable)), [Plain(AddMove)] + Plains(links) + [CheckMove])
            == Some(Mapping(r, Hand(None, mappable + if r.tasks[m].blocking == 0 then [m] else [])))
  {
    var run, w, h := [AddMove] + links, Mapping(s, Hand(None, mappable)), Hand(Some(m), mappable);
    assert run[0] == AddMove && run[1..] == links;
    var created := Step(s, AddMove).value;
    ActsOne(w, Plain(AddMove));
    LiftAdding(created, h, links, r, m);
    ActsThen(w, [Plain(AddMove)], Mapping(created, h), Plains(links));
    ActsOne(Mapping(r, h), CheckMove);
    ActsThen(w, [Plain(AddMove)] + Plains(links), Mapping(r, h), [CheckMove]);
  }

  // ---- what is in the mapper's hand ----

  /** The mapper has made `m` for the task in its hand. */
  predicate MadeFor(s: State, m: nat) {
    && s.mapper.Moving? && Known(s, s.mapper.t) && Known(s, m)
    && m in s.tasks[s.mapper.t].dependencies && s.tasks[m].move
  }

  predicate InHand(h: Hand, m: nat) {
    h.making == Some(m) || m in h.mappable
  }

  predicate Distinct(ms: seq<nat>) {
    forall i, j | 0 <= i < j < |ms| :: ms[i] != ms[j]
  }

  ghost predicate Listed(w: Mapping) {
    && (forall m | InHand(w.h, m) :: MadeFor(w.s, m))
    && (forall m | m in w.h.mappable :: Known(w.s, m) && w.s.tasks[m].blocking == 0)
    && (forall m | 0 <= m < |w.s.tasks| && w.s.tasks[m].phase.Adding? :: w.h.making == Some(m))
    && Distinct(w.h.mappable) && (forall m | m in w.h.mappable :: w.h.making != Some(m))
  }

  lemma DependenciesByChange(s: State, e: Event, t: nat, b: Task, m: nat)
    requires t < |s.tasks| && Change(s, e, t, b) && !s.tasks[t].isAssigned && Consistent(s.tasks[t])
    requires m in s.tasks[t].dependencies
    ensures m in b.dependencies
  {
  }

  lemma MadeStays(s: State, e: Event, m: nat)
    requires Invariant(s) && MadeFor(s, m) && Step(s, e).Some? && !e.Assign?
    ensures MadeFor(Step(s, e).value, m)
  {
    var t := s.mapper.t;
    assert MapperKnows(s) && Consistent(s.tasks[t]);
    if Step(s, e).value.mapper != s.mapper {
      MovingLeavesByAssign(s, e);
    }
    GrowsAt(s, e, m);
    Changes(s, e, t);
    DependenciesByChange(s, e, t, Step(s, e).value.tasks[t], m);
  }

  lemma BlockingByChange(s: State, e: Event, m: nat, b: Task)
    requires m < |s.tasks| && Change(s, e, m, b) && s.tasks[m].move && Rest(s.tasks[m]) == []
    requires !s.tasks[m].phase.Adding? && s.mapper != Moving(m)
    requires e.Notify? && e.t < |s.tasks| ==> m !in Pending(s.tasks[e.t])
    ensures b.blocking == s.tasks[m].blocking
  {
  }

  /** A movement task to which nothing is added stays unblocked. */
  lemma UnblockedStays(s: State, e: Event, m: nat)
    requires Invariant(s) && IsMove(s, m) && !s.tasks[m].phase.Adding? && s.tasks[m].blocking == 0 && Step(s, e).Some?
    ensures m < |Step(s, e).value.tasks| && Step(s, e).value.tasks[m].blocking == 0
  {
    assert Counts(s.tasks[m], false) && Counted(s.tasks, m) && Consistent(s.tasks[m]) && MapperKnows(s);
    if e.Notify? && e.t < |s.tasks| {
      PendingOccurs(s.tasks, e.t, m);
    }
    Changes(s, e, m);
    BlockingByChange(s, e, m, Step(s, e).value.tasks[m]);
  }

  lemma NewMoveIsMade(s: State)
    requires Invariant(s) && Step(s, AddMove).Some?
    ensures MadeFor(Step(s, AddMove).value, |s.tasks|)
  {
  }

  lemma ListedByPlain(w: Mapping, e: Event)
    requires Invariant(w.s) && Listed(w) && Act(w, Plain(e)).Some?
    ensures Listed(Act(w, Plain(e)).value)
  {
    var r := Act(w, Plain(e)).value;
    if w.h.mappable != [] {
      TailIsDistinct(w.h.mappable);
    }
    forall m | InHand(r.h, m) ensures MadeFor(r.s, m) {
      if InHand(w.h, m) {
        MadeStays(w.s, e, m);
      } else {
        NewMoveIsMade(w.s);
      }
    }
    forall m | m in r.h.mappable ensures Known(r.s, m) && r.s.tasks[m].blocking == 0 && r.h.making != Some(m) {
      assert MadeFor(w.s, m);
      UnblockedStays(w.s, e, m);
    }
    forall m | 0 <= m < |r.s.tasks| && r.s.tasks[m].phase.Adding? ensures r.h.making == Some(m) {
      AddingIsMaking(w, e, m);
    }
  }

  lemma TailIsDistinct(ms: seq<nat>)
    requires Distinct(ms) && ms != []
    ensures Distinct(ms[1..]) && ms[0] !in ms[1..] && forall m | m in ms :: m == ms[0] || m in ms[1..]
  {
  }

  lemma AddingIsMaking(w: Mapping, e: Event, m: nat)
    requires Listed(w) && Act(w, Plain(e)).Some? && m < |Step(w.s, e).value.tasks|
    requires Step(w.s, e).value.tasks[m].phase.Adding?
    ensures HandAfter(w, e).making == Some(m)
  {
    if m >= |w.s.tasks| {
      NewTaskIs(w.s, e, m);
    } else if !w.s.tasks[m].phase.Adding? {
      AddingBefore(w.s, e, m);
    } else {
      AddsOnce(w.s, e);
    }
  }

  lemma AddsOnce(s: State, e: Event)
    requires MapperAdds(s) && Step(s, e).Some?
    ensures !e.AddMove?
  {
  }

  lemma ListedByCheck(w: Mapping)
    requires Invariant(w.s) && Listed(w) && Act(w, CheckMove).Some?
    ensures Listed(Act(w, CheckMove).value)
  {
    var r := Act(w, CheckMove).value;
    forall m | InHand(r.h, m) ensures InHand(w.h, m) && MadeFor(r.s, m) {}
    assert !MapperAdds(w.s);
  }

  lemma ListedKept(w: Mapping, a: Action)
    requires Invariant(w.s) && Listed(w) && Act(w, a).Some?
    ensures Invariant(Act(w, a).value.s) && Listed(Act(w, a).value)
  {
    if a.Plain? {
      InvariantKept(w.s, a.e);
      ListedByPlain(w, a.e);
    } else {
      ListedByCheck(w);
    }
  }

  // ---- no lost wakeup ----

  /** A data movement task that could run. */
  predicate Wakeable(s: State, m: nat) {
    IsMove(s, m) && s.tasks[m].status.Running? && s.tasks[m].phase.Free? && s.tasks[m].blocking == 0
  }

  ghost predicate MovesAwake(w: Mapping) {
    forall m: nat | Wakeable(w.s, m) :: Token(w.s, m) || InHand(w.h, m)
  }

  lemma WakesByChange(s: State, e: Event, m: nat, b: Task)
    requires m < |s.tasks| && Change(s, e, m, b) && Consistent(s.tasks[m]) && s.tasks[m].move
    requires !s.tasks[m].phase.Adding? && s.mapper != Moving(m)
    requires b.status.Running? && b.phase.Free? && b.blocking == 0
    ensures e == Resume(m)
            || (s.tasks[m].status.Running? && s.tasks[m].phase.Free?
                && (s.tasks[m].blocking == 0 || (e.Notify? && b.blocking == s.tasks[m].blocking - 1)))
  {
  }

  lemma NotifiesByStep(s: State, d: nat, m: nat)
    requires Step(s, Notify(d)).Some? && m < |s.tasks|
    requires Step(s, Notify(d)).value.tasks[m].blocking != s.tasks[m].blocking
    ensures s.tasks[d].phase.rest[0] == m
  {
  }

  /** A movement task that nothing is added to begins to be able to run by being enqueued. */
  lemma WakesByStep(s: State, e: Event, m: nat)
    requires Invariant(s) && Step(s, e).Some? && IsMove(s, m) && !s.tasks[m].phase.Adding? && !Wakeable(s, m)
    requires Wakeable(Step(s, e).value, m)
    ensures Enqueues(s, e, m)
  {
    assert Consistent(s.tasks[m]) && MapperKnows(s);
    Changes(s, e, m);
    WakesByChange(s, e, m, Step(s, e).value.tasks[m]);
    if e == Resume(m) {
      ResumesAwake(s, m);
    } else {
      NotifiesByStep(s, e.t, m);
    }
  }

  lemma ResumesAwake(s: State, m: nat)
    requires Step(s, Resume(m)).Some? && m < |s.tasks| && Consistent(s.tasks[m])
    requires Wakeable(Step(s, Resume(m)).value, m)
    ensures Enqueues(s, Resume(m), m)
  {
  }

  /** A movement task that can run stays in the queues and with the workers until it is run. */
  lemma ConsumedIsNotWakeable(s: State, e: Event, m: nat)
    requires Step(s, e).Some? && Consumes(s, e, m) && m < |s.tasks|
    ensures !Wakeable(Step(s, e).value, m)
  {
  }

  lemma AwakeAt(w: Mapping, e: Event, m: nat)
    requires Invariant(w.s) && Listed(w) && MovesAwake(w) && Act(w, Plain(e)).Some?
    requires IsMove(w.s, m) && Wakeable(Step(w.s, e).value, m)
    ensures Token(Step(w.s, e).value, m) || InHand(HandAfter(w, e), m)
  {
    TokensChange(w.s, e, m);
    if InHand(w.h, m) {
      InHandOrQueued(w, e, m);
    } else {
      if !Wakeable(w.s, m) {
        WakesByStep(w.s, e, m);
      }
      if Consumes(w.s, e, m) {
        ConsumedIsNotWakeable(w.s, e, m);
      }
    }
  }

  lemma InHandOrQueued(w: Mapping, e: Event, m: nat)
    requires Invariant(w.s) && Listed(w) && Act(w, Plain(e)).Some? && InHand(w.h, m)
    ensures InHand(HandAfter(w, e), m) || Enqueues(w.s, e, m)
  {
  }

  lemma NewIsInHand(w: Mapping, e: Event, m: nat)
    requires Act(w, Plain(e)).Some? && |w.s.tasks| <= m && IsMove(Step(w.s, e).value, m)
    ensures InHand(HandAfter(w, e), m)
  {
    NewTaskIs(w.s, e, m);
  }

  lemma MovesAwakeByPlain(w: Mapping, e: Event)
    requires Invariant(w.s) && Listed(w) && MovesAwake(w) && Act(w, Plain(e)).Some?
    ensures MovesAwake(Act(w, Plain(e)).value)
  {
    var r := Act(w, Plain(e)).value;
    forall m: nat | Wakeable(r.s, m) ensures Token(r.s, m) || InHand(r.h, m) {
      if m < |w.s.tasks| {
        GrowsAt(w.s, e, m);
        AwakeAt(w, e, m);
      } else {
        NewIsInHand(w, e, m);
      }
    }
  }

  lemma MovesAwakeKept(w: Mapping, a: Action)
    requires Invariant(w.s) && Listed(w) && MovesAwake(w) && Act(w, a).Some?
    ensures MovesAwake(Act(w, a).value)
  {
    if a.Plain? {
      MovesAwakeByPlain(w, a.e);
    } else {
      var r := Act(w, a).value;
      forall m: nat | Wakeable(r.s, m) ensures Token(r.s, m) || InHand(r.h, m) {
        assert Token(w.s, m) || InHand(w.h, m);
      }
    }
  }

  // ---- runs ----

  lemma {:induction false} ActsKeep(w: Mapping, acts: seq<Action>)
    requires Invariant(w.s) && Listed(w) && MovesAwake(w) && Acts(w, acts).Some?
    ensures var r := Acts(w, acts).value; Invariant(r.s) && Listed(r) && MovesAwake(r)
    decreases |acts|
  {
    if acts != [] {
      ListedKept(w, acts[0]);
      MovesAwakeKept(w, acts[0]);
      ActsKeep(Act(w, acts[0]).value, acts[1..]);
    }
  }

  predicate Reached(w: Mapping, acts: seq<Action>) {
    Acts(Mapping(Start(), EMPTY), acts) == Some(w)
  }

  lemma ReachedKeeps(w: Mapping, acts: seq<Action>)
    requires Reached(w, acts)
    ensures Reachable(w.s, Events(acts)) && Invariant(w.s) && Listed(w) && MovesAwake(w)
  {
    StartIsInvariant();
    ActsAreRuns(Mapping(Start(), EMPTY), acts);
    ActsKeep(Mapping(Start(), EMPTY), acts);
  }

  /** No wakeup of a data movement task is lost: one that is not blocked, not finished and not running is in a queue or
      with a worker, or the mapper has it in hand, with the compute task it was made for. */
  lemma NoLostMove(w: Mapping, acts: seq<Action>, m: nat)
    requires Reached(w, acts) && m < |w.s.tasks| && w.s.tasks[m].move
    requires w.s.tasks[m].status.Running? && w.s.tasks[m].phase.Free? && w.s.tasks[m].blocking == 0
    ensures m in w.s.ready || m in w.s.device || m in w.s.workers
            || (w.s.mapper.Moving? && w.s.mapper.t < |w.s.tasks| && m in w.s.tasks[w.s.mapper.t].dependencies
                && InHand(w.h, m))
  {
    ReachedKeeps(w, acts);
    assert Wakeable(w.s, m);
    assert Token(w.s, m) ==> m in multiset(w.s.ready) || m in w.s.device || m in w.s.workers;
  }

  /** The mapper can empty its hand: what it has made can be checked when its mutex is free, what is listed can be
      enqueued, and then the compute task can be assigned. */
  lemma HandCanBeEmptied(w: Mapping, acts: seq<Action>)
    requires Reached(w, acts)
    ensures w.h.making.Some? && !MapperAdds(w.s) ==>
              w.h.making.value < |w.s.tasks|
              && (w.s.tasks[w.h.making.value].phase.Free? <==> Act(w, CheckMove).Some?)
    ensures w.h.making.None? && w.h.mappable != [] ==> Act(w, Plain(EnqueueMove(w.h.mappable[0]))).Some?
    ensures !w.s.mapper.Moving? ==> w.h == EMPTY
  {
    ReachedKeeps(w, acts);
    if w.h.making.Some? {
      assert InHand(w.h, w.h.making.value);
    }
    if w.h.mappable != [] {
      assert InHand(w.h, w.h.mappable[0]) && w.h.mappable[0] in w.h.mappable;
    }
  }

  // ---- the mapper undisturbed ----

  predicate OnlyMoves(acts: seq<Action>) {
    forall i | 0 <= i < |acts| :: acts[i].Plain? ==> IsMoveEvent(acts[i].e)
  }

  predicate IsUnblocked(s: State, m: nat) {
    m < |s.tasks| && s.tasks[m].blocking == 0
  }

  /** The tasks from `lo` to `hi` that are not blocked, the newest first. */
  function Unblocked(s: State, lo: nat, hi: nat): seq<nat> {
    if hi <= lo then []
    else (if IsUnblocked(s, hi - 1) then [hi - 1] else []) + Unblocked(s, lo, hi - 1)
  }

  lemma {:induction false} UnblockedSame(s: State, r: State, lo: nat, hi: nat)
    requires forall m: nat | lo <= m < hi :: IsUnblocked(s, m) <==> IsUnblocked(r, m)
    ensures Unblocked(s, lo, hi) == Unblocked(r, lo, hi)
    decreases hi
  {
    if lo < hi {
      UnblockedSame(s, r, lo, hi - 1);
    }
  }

  function Reversed(ms: seq<nat>): seq<nat> {
    if ms == [] then [] else Reversed(ms[1..]) + [ms[0]]
  }

  lemma {:induction false} ReversedSnoc(ms: seq<nat>, m: nat)
    ensures Reversed(ms + [m]) == [m] + Reversed(ms)
  {
    if ms == [] {
      assert ([] + [m])[1..] == [];
    } else {
      assert (ms + [m])[1..] == ms[1..] + [m];
      ReversedSnoc(ms[1..], m);
    }
  }

  /** All counters except that of `t` are as they were, and no task is of another kind. */
  predicate SameBlocking(before: State, s: State, t: nat) {
    && |before.tasks| <= |s.tasks|
    && forall i | 0 <= i < |before.tasks| ::
         && s.tasks[i].move == before.tasks[i].move
         && (i != t ==> s.tasks[i].blocking == before.tasks[i].blocking)
  }

  predicate NewAreMoves(before: State, s: State) {
    forall i | |before.tasks| <= i < |s.tasks| :: s.tasks[i].move
  }

  function NextToCheck(w: Mapping): nat {
    if w.h.making.Some? then w.h.making.value else |w.s.tasks|
  }

  /** Of the data movement tasks made since `before`, those that were checked and found unblocked are in the list or in
      the ready queue, in the order in which they were made. */
  ghost predicate Lined(w: Mapping, before: State, t: nat) {
    var n := NextToCheck(w);
    && w.s.mapper == Moving(t) && t < |before.tasks| <= n <= |w.s.tasks|
    && (w.h.making.Some? ==> n + 1 == |w.s.tasks|)
    && Reversed(w.h.mappable) + w.s.ready == Unblocked(w.s, |before.tasks|, n) + before.ready
    && (forall m | 0 <= m < |w.s.tasks| && w.s.tasks[m].phase.Adding? :: w.h.making == Some(m))
    && SameBlocking(before, w.s, t) && NewAreMoves(before, w.s)
  }

  lemma MoveEventChange(s: State, e: Event, i: nat, b: Task)
    requires i < |s.tasks| && Change(s, e, i, b) && IsMoveEvent(e)
    ensures b.move == s.tasks[i].move
    ensures b.blocking != s.tasks[i].blocking ==>
              (e.AddMove? && s.mapper == Moving(i)) || (e == MoveAdds(i) && s.tasks[i].phase.Adding?)
  {
  }

  lemma BlockingByMove(s: State, e: Event, i: nat)
    requires Step(s, e).Some? && IsMoveEvent(e) && i < |s.tasks|
    ensures i < |Step(s, e).value.tasks| && Step(s, e).value.tasks[i].move == s.tasks[i].move
    ensures Step(s, e).value.tasks[i].blocking != s.tasks[i].blocking ==>
              (e.AddMove? && s.mapper == Moving(i)) || (e == MoveAdds(i) && s.tasks[i].phase.Adding?)
  {
    Changes(s, e, i);
    MoveEventChange(s, e, i, Step(s, e).value.tasks[i]);
  }

  lemma LinedTasks(w: Mapping, e: Event, before: State, t: nat)
    requires Lined(w, before, t) && Act(w, Plain(e)).Some? && IsMoveEvent(e)
    ensures var r := Act(w, Plain(e)).value;
            && r.s.mapper == Moving(t) && SameBlocking(before, r.s, t) && NewAreMoves(before, r.s)
            && NextToCheck(r) == NextToCheck(w)
            && Unblocked(r.s, |before.tasks|, NextToCheck(w)) == Unblocked(w.s, |before.tasks|, NextToCheck(w))
  {
    var r := Act(w, Plain(e)).value;
    forall i | 0 <= i < |w.s.tasks|
      ensures r.s.tasks[i].move == w.s.tasks[i].move
      ensures i < NextToCheck(w) && i != t ==> r.s.tasks[i].blocking == w.s.tasks[i].blocking
    {
      BlockingByMove(w.s, e, i);
    }
    forall i | |w.s.tasks| <= i < |r.s.tasks| ensures r.s.tasks[i].move {
      NewTaskIs(w.s, e, i);
    }
    UnblockedSame(w.s, r.s, |before.tasks|, NextToCheck(w));
  }

  lemma LinedQueue(w: Mapping, e: Event)
    requires Act(w, Plain(e)).Some? && IsMoveEvent(e)
    ensures var r := Act(w, Plain(e)).value;
            Reversed(r.h.mappable) + r.s.ready == Reversed(w.h.mappable) + w.s.ready
  {
    if e.EnqueueMove? {
      var ms := w.h.mappable;
      assert Reversed(ms[1..]) + ([ms[0]] + w.s.ready) == Reversed(ms) + w.s.ready;
    } else {
      QueuesUntouched(w.s, e);
    }
  }

  lemma LinedByPlain(w: Mapping, e: Event, before: State, t: nat)
    requires Lined(w, before, t) && Act(w, Plain(e)).Some? && IsMoveEvent(e)
    ensures Lined(Act(w, Plain(e)).value, before, t)
  {
    var r := Act(w, Plain(e)).value;
    LinedTasks(w, e, before, t);
    LinedQueue(w, e);
    LinedNumber(w, e);
    forall m | 0 <= m < |r.s.tasks| && r.s.tasks[m].phase.Adding? ensures r.h.making == Some(m) {
      if m >= |w.s.tasks| {
        NewTaskIs(w.s, e, m);
      } else if !w.s.tasks[m].phase.Adding? {
        AddingBefore(w.s, e, m);
      } else {
        AddsOnce(w.s, e);
      }
    }
  }

  lemma LinedNumber(w: Mapping, e: Event)
    requires Act(w, Plain(e)).Some? && IsMoveEvent(e)
    requires w.h.making.Some? ==> NextToCheck(w) + 1 == |w.s.tasks|
    ensures var r := Act(w, Plain(e)).value;
            (r.h.making.Some? ==> NextToCheck(r) + 1 == |r.s.tasks|) && NextToCheck(r) <= |r.s.tasks|
  {
    if !e.AddMove? {
      SameNumber(w.s, e);
    }
  }

  lemma LinedByCheck(w: Mapping, before: State, t: nat)
    requires Lined(w, before, t) && Act(w, CheckMove).Some?
    ensures Lined(Act(w, CheckMove).value, before, t)
  {
    var m, lo := w.h.making.value, |before.tasks|;
    ReversedSnoc(w.h.mappable, m);
    assert w.h.mappable + [] == w.h.mappable && [] + Unblocked(w.s, lo, m) == Unblocked(w.s, lo, m);
    assert [m] + Reversed(w.h.mappable) + w.s.ready == [m] + (Reversed(w.h.mappable) + w.s.ready);
    assert [m] + Unblocked(w.s, lo, m) + before.ready == [m] + (Unblocked(w.s, lo, m) + before.ready);
  }

  lemma {:induction false} LinedKept(w: Mapping, acts: seq<Action>, before: State, t: nat)
    requires Lined(w, before, t) && Acts(w, acts).Some? && OnlyMoves(acts)
    ensures Lined(Acts(w, acts).value, before, t)
    decreases |acts|
  {
    if acts != [] {
      if acts[0].Plain? {
        LinedByPlain(w, acts[0].e, before, t);
      } else {
        LinedByCheck(w, before, t);
      }
      LinedKept(Act(w, acts[0]).value, acts[1..], before, t);
    }
  }

  /** If nobody takes a step in between, the mapper leaves exactly the unblocked ones of the data movement tasks it made
      in the ready queue, left of what was there. */
  lemma UndisturbedMoves(s: State, acts: seq<Action>, r: State, t: nat)
    requires Acts(Mapping(s, EMPTY), acts) == Some(Mapping(r, EMPTY)) && OnlyMoves(acts)
    requires s.mapper == Moving(t) && t < |s.tasks| && !MapperAdds(s)
    ensures r.mapper == Moving(t) && r.ready == Unblocked(r, |s.tasks|, |r.tasks|) + s.ready
    ensures SameBlocking(s, r, t) && NewAreMoves(s, r)
  {
    LinedKept(Mapping(s, EMPTY), acts, s, t);
    assert [] + s.ready == s.ready && [] + r.ready == r.ready;
  }

  // ---- queued once ----

  /** A notification wakes the movement task that the mapper has made, and has not checked yet. The notification
      enqueues it, and the mapper will list it. */
  predicate RacesMove(w: Mapping, a: Action) {
    a.Plain? && a.e.Notify? && w.h.making.Some? && Enqueues(w.s, a.e, w.h.making.value)
  }

  /** How often `m` is queued, or will be. */
  function Queued(w: Mapping, m: nat): nat {
    Tokens(w.s, m) + if m in w.h.mappable then 1 else 0
  }

  /** A movement task is queued once, when it is not blocked, and not again after it has started. */
  ghost predicate Once(w: Mapping, m: nat)
    requires m < |w.s.tasks|
  {
    var task := w.s.tasks[m];
    && Queued(w, m) <= 1 && !task.phase.Depending?
    && (Queued(w, m) == 1 ==> task.blocking == 0 && !task.started)
    && (task.started ==> task.blocking == 0)
    && (w.h.making == Some(m) ==> Queued(w, m) == 0 && !task.started)
  }

  ghost predicate MovesOnce(w: Mapping) {
    forall m: nat | IsMove(w.s, m) :: Once(w, m)
  }

  lemma QueuedByPlain(w: Mapping, e: Event, m: nat)
    requires Invariant(w.s) && Listed(w) && Act(w, Plain(e)).Some? && IsMove(w.s, m)
    ensures Queued(Act(w, Plain(e)).value, m)
            == Queued(w, m) + (if Enqueues(w.s, e, m) && !e.EnqueueMove? then 1 else 0)
               - (if Consumes(w.s, e, m) then 1 else 0)
  {
    TokensChange(w.s, e, m);
    if w.h.mappable != [] {
      TailIsDistinct(w.h.mappable);
    }
  }

  lemma OnceByChange(s: State, e: Event, m: nat, b: Task)
    requires m < |s.tasks| && Change(s, e, m, b) && s.tasks[m].move && Consistent(s.tasks[m])
    requires !s.tasks[m].phase.Depending?
    ensures !b.phase.Depending? && (b.started <==> s.tasks[m].started || e == Begin(m))
  {
  }

  lemma WakenedIsFirst(w: Mapping, e: Event, m: nat)
    requires Invariant(w.s) && Listed(w) && Act(w, Plain(e)).Some? && IsMove(w.s, m) && Once(w, m)
    requires Enqueues(w.s, e, m) && !e.EnqueueMove?
    ensures e.Notify? && Queued(w, m) == 0 && !w.s.tasks[m].started
  {
    assert MapperKnows(w.s);
    if e.Notify? {
      assert Counts(w.s.tasks[m], false) && Counted(w.s.tasks, m);
      PendingOccurs(w.s.tasks, e.t, m);
    }
  }

  lemma StartsOnce(w: Mapping, e: Event, m: nat)
    requires Invariant(w.s) && Act(w, Plain(e)).Some? && IsMove(w.s, m) && Once(w, m)
    requires e == Begin(m)
    ensures Queued(w, m) == 1
  {
    assert m in w.s.workers;
  }

  lemma HandKeeps(w: Mapping, e: Event, m: nat)
    requires Act(w, Plain(e)).Some? && m < |w.s.tasks|
    ensures HandAfter(w, e).making == Some(m) <==> w.h.making == Some(m)
  {
  }

  lemma BlockedOnlyWhenMade(w: Mapping, e: Event, m: nat)
    requires Invariant(w.s) && Listed(w) && Act(w, Plain(e)).Some? && IsMove(w.s, m) && w.s.tasks[m].blocking == 0
    ensures w.h.making == Some(m)
            || (m < |Step(w.s, e).value.tasks| && Step(w.s, e).value.tasks[m].blocking == 0)
  {
    if w.h.making != Some(m) {
      UnblockedStays(w.s, e, m);
    }
  }

  lemma OnceAt(w: Mapping, e: Event, m: nat)
    requires Invariant(w.s) && Listed(w) && Act(w, Plain(e)).Some? && !RacesMove(w, Plain(e))
    requires IsMove(w.s, m) && Once(w, m)
    ensures m < |Step(w.s, e).value.tasks| && Once(Act(w, Plain(e)).value, m)
  {
    Changes(w.s, e, m);
    assert Consistent(w.s.tasks[m]);
    OnceByChange(w.s, e, m, Step(w.s, e).value.tasks[m]);
    QueuedByPlain(w, e, m);
    HandKeeps(w, e, m);
    if Enqueues(w.s, e, m) && !e.EnqueueMove? {
      WakenedIsFirst(w, e, m);
      EnqueuedAtZero(w.s, e, m);
    } else {
      if e == Begin(m) {
        StartsOnce(w, e, m);
      }
      if w.s.tasks[m].blocking == 0 {
        BlockedOnlyWhenMade(w, e, m);
      }
    }
  }

  lemma NewIsOnce(w: Mapping, e: Event, m: nat)
    requires Invariant(w.s) && Listed(w) && Act(w, Plain(e)).Some?
    requires |w.s.tasks| <= m && IsMove(Step(w.s, e).value, m)
    ensures Once(Act(w, Plain(e)).value, m)
  {
    NewTaskIs(w.s, e, m);
    QueuesUntouched(w.s, e);
    assert !Token(w.s, m);
    assert m in w.h.mappable ==> InHand(w.h, m);
  }

  lemma MovesOnceKept(w: Mapping, a: Action)
    requires Invariant(w.s) && Listed(w) && MovesOnce(w) && Act(w, a).Some? && !RacesMove(w, a)
    ensures MovesOnce(Act(w, a).value)
  {
    var r := Act(w, a).value;
    forall m: nat | IsMove(r.s, m) ensures Once(r, m) {
      if a.CheckMove? {
        assert Once(w, m);
      } else if m < |w.s.tasks| {
        GrowsAt(w.s, a.e, m);
        OnceAt(w, a.e, m);
      } else {
        NewIsOnce(w, a.e, m);
      }
    }
  }

  predicate MoveRaceFree(w: Mapping, acts: seq<Action>)
    decreases |acts|
  {
    acts == [] || (!RacesMove(w, acts[0])
                   && match Act(w, acts[0]) case None => true case Some(next) => MoveRaceFree(next, acts[1..]))
  }

  lemma {:induction false} ActsKeepOnce(w: Mapping, acts: seq<Action>)
    requires Invariant(w.s) && Listed(w) && MovesOnce(w) && Acts(w, acts).Some? && MoveRaceFree(w, acts)
    ensures MovesOnce(Acts(w, acts).value)
    decreases |acts|
  {
    if acts != [] {
      ListedKept(w, acts[0]);
      MovesOnceKept(w, acts[0]);
      ActsKeepOnce(Act(w, acts[0]).value, acts[1..]);
    }
  }

  predicate ReachedWithoutRace(w: Mapping, acts: seq<Action>) {
    Reached(w, acts) && MoveRaceFree(Mapping(Start(), EMPTY), acts)
  }

  lemma {:induction false} ActsAppend(w: Mapping, acts: seq<Action>, last: Mapping, a: Action)
    requires Acts(w, acts) == Some(last)
    ensures Acts(w, acts + [a]) == Act(last, a)
    ensures MoveRaceFree(w, acts) && !RacesMove(last, a) ==> MoveRaceFree(w, acts + [a])
    decreases |acts|
  {
    if acts == [] {
      assert [] + [a] == [a] && [a][1..] == [];
    } else {
      assert (acts + [a])[0] == acts[0] && (acts + [a])[1..] == acts[1..] + [a];
      ActsAppend(Act(w, acts[0]).value, acts[1..], last, a);
    }
  }

  /** One more step of a run without the race. */
  lemma Onward(w: Mapping, acts: seq<Action>, e: Event, next: Mapping) returns (longer: seq<Action>)
    requires ReachedWithoutRace(w, acts) && Act(w, Plain(e)) == Some(next) && !RacesMove(w, Plain(e))
    ensures ReachedWithoutRace(next, longer)
  {
    ActsAppend(Mapping(Start(), EMPTY), acts, w, Plain(e));
    longer := acts + [Plain(e)];
  }

  /** The mapper's hand is empty while there are no data movement tasks. */
  lemma {:induction false} LiftRun(s: State, acts: seq<Action>, rest: seq<Event>) returns (longer: seq<Action>)
    requires ReachedWithoutRace(Mapping(s, EMPTY), acts) && Run(s, rest).Some?
    requires forall m: nat :: !IsMove(Run(s, rest).value, m)
    ensures ReachedWithoutRace(Mapping(Run(s, rest).value, EMPTY), longer)
    decreases |rest|
  {
    longer := acts;
    if rest != [] {
      var next := Step(s, rest[0]).value;
      MovesStay(next, rest[1..]);
      NoMovesNoHand(s, rest[0]);
      longer := Onward(Mapping(s, EMPTY), acts, rest[0], Mapping(next, EMPTY));
      longer := LiftRun(next, longer, rest[1..]);
    }
  }

  lemma {:induction false} MovesStay(s: State, run: seq<Event>)
    requires Run(s, run).Some?
    ensures forall m: nat | IsMove(s, m) :: IsMove(Run(s, run).value, m)
    decreases |run|
  {
    if run != [] {
      Grows(s, run[0]);
      MovesStay(Step(s, run[0]).value, run[1..]);
    }
  }

  lemma MoveStepsHaveMoves(s: State, e: Event)
    requires Step(s, e).Some? && (e.AddMove? || e.MoveAsks? || e.EnqueueMove?)
    ensures exists m: nat :: IsMove(Step(s, e).value, m)
  {
    assert IsMove(Step(s, e).value, if e.AddMove? then |s.tasks| else e.m);
  }

  lemma NoMovesNoHand(s: State, e: Event)
    requires Step(s, e).Some? && forall m: nat :: !IsMove(Step(s, e).value, m)
    ensures Act(Mapping(s, EMPTY), Plain(e)) == Some(Mapping(Step(s, e).value, EMPTY))
  {
    if e.AddMove? || e.MoveAsks? || e.EnqueueMove? {
      MoveStepsHaveMoves(s, e);
    }
  }

  /** Without the race, a data movement task is queued at most once at a time, and never after it has started. */
  lemma MovesAreQueuedOnce(w: Mapping, acts: seq<Action>, m: nat)
    requires ReachedWithoutRace(w, acts) && m < |w.s.tasks| && w.s.tasks[m].move
    ensures multiset(w.s.ready)[m] + w.s.device[m] + w.s.workers[m] + (if m in w.h.mappable then 1 else 0) <= 1
    ensures w.s.tasks[m].started ==>
              m !in w.s.ready && m !in w.s.device && m !in w.s.workers && m !in w.h.mappable
  {
    WithoutRaceOnce(w, acts);
    assert Once(w, m);
    assert m in w.s.ready <==> m in multiset(w.s.ready);
  }

  lemma WithoutRaceOnce(w: Mapping, acts: seq<Action>)
    requires ReachedWithoutRace(w, acts)
    ensures Invariant(w.s) && Listed(w) && MovesOnce(w)
  {
    StartIsInvariant();
    ReachedKeeps(w, acts);
    ActsKeepOnce(Mapping(Start(), EMPTY), acts);
  }

  /** The first race is exactly what makes the mapper's check list a task that is queued already. */
  lemma RaceListsTwice(w: Mapping, acts: seq<Action>, a: Action)
    requires ReachedWithoutRace(w, acts) && Act(w, a).Some?
    ensures RacesMove(w, a) <==>
              var checked := Act(Act(w, a).value, CheckMove);
              checked.Some? && exists m: nat :: IsMove(checked.value.s, m) && Queued(checked.value, m) >= 2
  {
    WithoutRaceOnce(w, acts);
    var r := Act(w, a).value;
    if RacesMove(w, a) {
      RacedIsListed(w, a);
    } else {
      ListedKept(w, a);
      MovesOnceKept(w, a);
      if Act(r, CheckMove).Some? {
        MovesOnceKept(r, CheckMove);
        var c := Act(r, CheckMove).value;
        forall m: nat | IsMove(c.s, m) ensures Queued(c, m) < 2 {
          assert Once(c, m);
        }
      }
    }
  }

  lemma RacedIsListed(w: Mapping, a: Action)
    requires Invariant(w.s) && Listed(w) && MovesOnce(w) && Act(w, a).Some? && RacesMove(w, a)
    ensures var checked := Act(Act(w, a).value, CheckMove);
            && checked.Some? && IsMove(checked.value.s, w.h.making.value)
            && Queued(checked.value, w.h.making.value) >= 2
  {
    var m, r := w.h.making.value, Act(w, a).value;
    assert InHand(w.h, m);
    ListedKept(w, a);
    TokensChange(w.s, a.e, m);
    EnqueuedAtZero(w.s, a.e, m);
    MadeStays(w.s, a.e, m);
    NotifiedIsFree(w.s, a.e.t, m);
    assert MapperHas(r.s, m);
  }

  lemma NotifiedIsFree(s: State, d: nat, m: nat)
    requires Invariant(s) && Step(s, Notify(d)).Some? && Enqueues(s, Notify(d), m)
    ensures m < |Step(s, Notify(d)).value.tasks| && Step(s, Notify(d)).value.tasks[m].phase.Free?
  {
  }
}
