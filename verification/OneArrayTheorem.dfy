/**
 The theorem about `PArray`: over every run of accesses that keeps to the guards below, whatever order Python
 visits a set in, many device copies and a protocol behave like one array.
 */
module OneArrayTheorem {
  import opened Wrappers
  import opened Protocol
  import opened Buffers
  import opened OneArray
  import opened OneArraySteps
  import opened OneArrayParts

  /** The access goes to a whole copy: the whole array, or a part of an array the device holds completely. */
  ghost predicate UsesWhole(p: State, d: int, view: Option<View>)
    requires d in p.complete
  {
    view.None? || p.complete[d] == Some(true)
  }

  /** What a caller can check before an access. Runs of whole-array accesses never hold parts, so each of the
      clauses about parts is vacuous for them. */
  ghost predicate Guard(sys: System, cur: seq<int>, ev: Event)
    requires Wellformed(sys)
  {
    && ev.d in sys.p.local
    && match ev
       case ReadAt(d, view) =>
         if UsesWhole(sys.p, d, view) then view.Some? ==> Fits(view.value.positions, |cur|)
         else CanAccessPart(sys, cur, d, view.value)
       case WriteAt(d, view, values) =>
         if UsesWhole(sys.p, d, view) then
           && HoldsWhole(sys.p.local, d)
           && (IsModified(sys.p.local, d) ==> forall e :: !HoldsParts(sys.p.local, e))
           && (if view.None? then |values| == |cur|
               else Fits(view.value.positions, |cur|) && |values| == |view.value.positions|)
         else
           && CanAccessPart(sys, cur, d, view.value) && |values| == |view.value.positions|
           && (PartState(sys.p, d, view.value).Invalid? ==> forall e | Valid(sys.p.local, e) :: e == sys.p.owner)
       case EvictAt(d) => EvictsLastCopy(sys.p, d) && d != CPU_INDEX ==> HoldsWhole(sys.p.local, CPU_INDEX)
       case UpdateAt(d, _) => forall e | HoldsParts(sys.p.local, e) :: e == d
  }

  /** Which branch of `read` an access takes. */
  lemma ReadBranch(sys: System, order: seq<int>, d: int, view: Option<View>)
    requires Wellformed(sys) && IsOrder(sys.p.gpus, order) && d in sys.p.local
    ensures Step(sys, order, ReadAt(d, view))
            == Execute(sys.b, sys.p.gpus,
                       if view.None? && HoldsParts(sys.p.local, d) then ReadOverParts(sys.p, order, d)
                       else if UsesWhole(sys.p, d, view) then ReadWhole(sys.p, order, d)
                       else ReadPart(sys.p, order, d, view.value), view)
  {
  }

  lemma ReadStep(sys: System, cur: seq<int>, order: seq<int>, d: int, view: Option<View>)
    requires Inv(sys, cur) && IsOrder(sys.p.gpus, order) && Guard(sys, cur, ReadAt(d, view))
    ensures var r := Step(sys, order, ReadAt(d, view));
            && r.Some? && Inv(r.value, cur)
            && (view.Some? ==> Fits(view.value.positions, |cur|))
            && Seen(r.value.b, d, view) == Some(Expected(cur, view))
  {
    ReadBranch(sys, order, d, view);
    if view.None? && HoldsParts(sys.p.local, d) {
      ReadOverPartsStep(sys, cur, order, d);
      SeesWhole(Execute(sys.b, sys.p.gpus, ReadOverParts(sys.p, order, d), None).value, d, None, cur);
    } else if UsesWhole(sys.p, d, view) {
      assert HoldsWhole(sys.p.local, d);
      ReadWholeStep(sys, cur, order, d, view);
      SeesWhole(Execute(sys.b, sys.p.gpus, ReadWhole(sys.p, order, d), view).value, d, view, cur);
    } else {
      ReadPartStep(sys, cur, order, d, view.value);
    }
  }

  lemma SeesWhole(sys: System, d: int, view: Option<View>, cur: seq<int>)
    requires Wellformed(sys) && d in sys.b.buffer && sys.b.buffer[d] == Full(cur)
    requires view.Some? ==> Fits(view.value.positions, |cur|)
    ensures Seen(sys.b, d, view) == Some(Expected(cur, view))
  {
  }

  /** What a write access must do: show the task the logical array, and store into it. */
  ghost predicate WriteRefines(sys: System, cur: seq<int>, order: seq<int>, ev: Event)
    requires Wellformed(sys) && IsOrder(sys.p.gpus, order) && ev.d in sys.p.local && ev.WriteAt?
  {
    var seen, r := Accessed(sys, order, ev), Step(sys, order, ev);
    && seen.Some? && r.Some? && Inv(r.value, Applied(cur, ev))
    && (ev.view.Some? ==> Fits(ev.view.value.positions, |cur|))
    && Seen(seen.value.b, ev.d, ev.view) == Some(Expected(cur, ev.view))
  }

  lemma WholeAccess(sys: System, order: seq<int>, ev: Event)
    requires Wellformed(sys) && IsOrder(sys.p.gpus, order) && ev.WriteAt? && HoldsWhole(sys.p.local, ev.d)
    requires UsesWhole(sys.p, ev.d, ev.view)
    ensures Accessed(sys, order, ev) == Execute(sys.b, sys.p.gpus, WriteWhole(sys.p, order, ev.d), ev.view)
  {
  }

  lemma StoreWhole(sys: System, cur: seq<int>, order: seq<int>, ev: Event, seen: System)
    requires Wellformed(sys) && IsOrder(sys.p.gpus, order) && ev.WriteAt? && ev.d in sys.p.local
    requires Accessed(sys, order, ev) == Some(seen) && ev.d in seen.b.index
    requires ev.d in seen.b.buffer && seen.b.buffer[ev.d] == Full(cur)
    requires if ev.view.None? then |ev.values| == |cur|
             else Fits(ev.view.value.positions, |cur|) && |ev.values| == |ev.view.value.positions|
    ensures Seen(seen.b, ev.d, ev.view) == Some(Expected(cur, ev.view))
    ensures Step(sys, order, ev)
            == Some(System(seen.p, seen.b.(buffer := seen.b.buffer[ev.d := Full(Applied(cur, ev))])))
  {
  }

  lemma WriteWholeRefines(sys: System, cur: seq<int>, order: seq<int>, ev: Event)
    requires Inv(sys, cur) && IsOrder(sys.p.gpus, order) && Guard(sys, cur, ev) && ev.WriteAt?
    requires UsesWhole(sys.p, ev.d, ev.view)
    ensures WriteRefines(sys, cur, order, ev)
  {
    WholeAccess(sys, order, ev);
    WriteWholeStep(sys, cur, order, ev.d, ev.view, Applied(cur, ev));
    StoreWhole(sys, cur, order, ev, Accessed(sys, order, ev).value);
  }

  lemma WritePartRefines(sys: System, cur: seq<int>, order: seq<int>, ev: Event)
    requires Inv(sys, cur) && IsOrder(sys.p.gpus, order) && Guard(sys, cur, ev) && ev.WriteAt?
    requires !UsesWhole(sys.p, ev.d, ev.view)
    ensures WriteRefines(sys, cur, order, ev)
  {
    WritePartStep(sys, cur, order, ev.d, ev.view.value, ev.values);
  }

  /** One access: it does not raise, a task at its device sees the logical array (or the part of it that its
      view selects) before its own store, and afterwards the devices hold the array with that store applied. */
  lemma StepRefines(sys: System, cur: seq<int>, order: seq<int>, ev: Event)
    requires Inv(sys, cur) && IsOrder(sys.p.gpus, order) && Guard(sys, cur, ev)
    ensures var seen, r := Accessed(sys, order, ev), Step(sys, order, ev);
            && seen.Some? && r.Some? && Inv(r.value, Applied(cur, ev))
            && (ev.ReadAt? || ev.WriteAt? ==>
                  && (ev.view.Some? ==> Fits(ev.view.value.positions, |cur|))
                  && Seen(seen.value.b, ev.d, ev.view) == Some(Expected(cur, ev.view)))
  {
    match ev
    case ReadAt(d, view) => ReadStep(sys, cur, order, d, view);
    case WriteAt(d, view, values) =>
      if UsesWhole(sys.p, d, view) {
        WriteWholeRefines(sys, cur, order, ev);
      } else {
        WritePartRefines(sys, cur, order, ev);
      }
    case EvictAt(d) => EvictStep(sys, cur, order, d);
    case UpdateAt(d, data) => UpdateStep(sys, cur, d, data);
  }

  // ---- whole runs ----

  /** One access of a run, with the order in which Python happens to visit sets during it. */
  datatype Access = Access(ev: Event, order: seq<int>)

  /** Every access of the run meets its guard in the state the earlier ones lead to. */
  ghost predicate Guarded(sys: System, cur: seq<int>, run: seq<Access>)
    decreases |run|
  {
    Wellformed(sys) &&
    (run == [] ||
     (&& IsOrder(sys.p.gpus, run[0].order) && Guard(sys, cur, run[0].ev)
      && var r := Step(sys, run[0].order, run[0].ev);
         r.Some? ==> Guarded(r.value, Applied(cur, run[0].ev), run[1..])))
  }

  function AfterRun(cur: seq<int>, run: seq<Access>): seq<int>
    decreases |run|
  {
    if run == [] then cur else AfterRun(Applied(cur, run[0].ev), run[1..])
  }

  /** Every read and write of the run sees what it would see on one array. */
  ghost predicate SeesOneArray(sys: System, cur: seq<int>, run: seq<Access>)
    requires Guarded(sys, cur, run)
    decreases |run|
  {
    run == [] ||
    (var ev := run[0].ev;
     var seen, r := Accessed(sys, run[0].order, ev), Step(sys, run[0].order, ev);
     && seen.Some? && r.Some?
     && (ev.ReadAt? || ev.WriteAt? ==>
           && (ev.view.Some? ==> Fits(ev.view.value.positions, |cur|))
           && Seen(seen.value.b, ev.d, ev.view) == Some(Expected(cur, ev.view)))
     && SeesOneArray(r.value, Applied(cur, ev), run[1..]))
  }

  /** The main theorem, by induction over the run. */
  lemma {:induction false} ManyCopiesAreOneArray(sys: System, cur: seq<int>, run: seq<Access>)
    requires Inv(sys, cur) && Guarded(sys, cur, run)
    ensures SeesOneArray(sys, cur, run)
    decreases |run|
  {
    if run != [] {
      StepRefines(sys, cur, run[0].order, run[0].ev);
      ManyCopiesAreOneArray(Step(sys, run[0].order, run[0].ev).value, Applied(cur, run[0].ev), run[1..]);
    }
  }

  /** `PArray.__init__`: one modified copy at the device that holds the data. */
  function Created(gpus: nat, owner: int, data: seq<int>): System
    requires CPU_INDEX <= owner < gpus
  {
    System(Initial(gpus, owner),
           Buffers(map d | d in Devices(gpus) :: if d == owner then Full(data) else Empty,
                   map d | d in Devices(gpus) :: None))
  }

  lemma CreatedIsRight(gpus: nat, owner: int, data: seq<int>)
    requires CPU_INDEX <= owner < gpus
    ensures Inv(Created(gpus, owner, data), data)
  {
    var sys := Created(gpus, owner, data);
    InitialTyped(gpus, owner);
    assert SoleCopy(sys.p, owner);
    assert forall e | e in sys.b.index :: sys.b.index[e].None?;
    SoleCopyIsRight(sys, data, owner);
  }
}
