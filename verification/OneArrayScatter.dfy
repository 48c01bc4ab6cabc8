/**
 Scatter and gather: subarrays that are pairwise disjoint are read and written on their own devices while the
 owner is left alone, and then the whole array is asked for anywhere.
 */
module OneArrayScatter {
  import opened Wrappers
  import opened Protocol
  import opened Buffers
  import opened OneArray
  import opened OneArraySteps
  import opened OneArrayParts
  import opened OneArrayTheorem
  import opened OneArrayRuns

  /** The one device each subarray is used on, and the devices on which nothing is left of earlier whole copies. */
  datatype Homes = Homes(at: map<View, int>, clean: set<int>)

  ghost predicate DisjointViews(homes: Homes, size: nat) {
    && homes.at.Values <= homes.clean
    && (forall v | v in homes.at :: Fits(v.positions, size) && Distinct(v.positions))
    && (forall v, w, x | v in homes.at && w in homes.at && x in v.positions && x in w.positions :: v == w)
  }

  predicate LivesAt(homes: Homes, v: View, d: int) {
    v in homes.at && homes.at[v] == d
  }

  ghost predicate AtHome(gpus: nat, owner: int, homes: Homes, ev: Event) {
    match ev
    case ReadAt(d, Some(v)) => LivesAt(homes, v, d) && d != owner && CPU_INDEX <= d < gpus
    case WriteAt(d, Some(v), values) =>
      LivesAt(homes, v, d) && d != owner && CPU_INDEX <= d < gpus && |values| == |v.positions|
    case _ => false
  }

  /** Subarray reads and writes, each at its home, in any number and order. */
  ghost predicate ScatterRun(gpus: nat, owner: int, homes: Homes, run: seq<Access>) {
    forall i | 0 <= i < |run| :: IsOrder(gpus, run[i].order) && AtHome(gpus, owner, homes, run[i].ev)
  }

  predicate Writes(run: seq<Access>) {
    exists i :: 0 <= i < |run| && run[i].ev.WriteAt?
  }

  ghost predicate OnlyHomes(index: IndexMap, homes: Homes) {
    forall d, k | d in index && index[d].Some? && 0 <= k < |index[d].value| :: LivesAt(homes, index[d].value[k], d)
  }

  /** No whole copy besides the owner's is valid, and on clean devices neither a completeness mark nor a buffer is
      left of one. */
  ghost predicate NothingBeside(sys: System, owner: int, clean: set<int>)
    requires Wellformed(sys)
  {
    && sys.p.owner == owner
    && forall e | HoldsWhole(sys.p.local, e) && e != owner ::
         && sys.p.local[e] == Whole(Invalid)
         && (e in clean ==> sys.p.complete[e].None? && sys.b.buffer[e].Empty?)
  }

  ghost predicate Scattered(sys: System, cur: seq<int>, owner: int, homes: Homes) {
    && Inv(sys, cur) && DisjointViews(homes, |cur|)
    && NothingBeside(sys, owner, homes.clean) && OnlyHomes(sys.b.index, homes)
  }

  /** Only its own home can hold something a subarray covers, and then as that very subarray. */
  lemma HeldAtHome(sys: System, cur: seq<int>, owner: int, homes: Homes, d: int, v: View, e: int, k: int, x: nat)
    requires Scattered(sys, cur, owner, homes) && d in sys.p.local && LivesAt(homes, v, d)
    requires InPart(sys.b.index, e, k, x) && x in v.positions
    ensures e == d && !PartState(sys.p, d, v).Invalid?
  {
    assert LivesAt(homes, sys.b.index[e].value[k], e);
    assert sys.b.index[e].value[k] == v;
    assert !HoldsWhole(sys.p.local, d);
    assert PartsMatch(sys.p.local[d], sys.b.buffer[d], sys.b.index[d], cur);
    assert v in sys.p.local[d].states;
  }

  lemma PartIsFree(sys: System, cur: seq<int>, owner: int, homes: Homes, d: int, v: View)
    requires Scattered(sys, cur, owner, homes) && d in sys.p.local && d != owner && LivesAt(homes, v, d)
    ensures CanAccessPart(sys, cur, d, v) && sys.p.complete[d] != Some(true)
  {
    forall e, k, x | InPart(sys.b.index, e, k, x) && x in v.positions
      ensures !PartState(sys.p, d, v).Invalid?
    {
      HeldAtHome(sys, cur, owner, homes, d, v, e, k, x);
    }
    assert HoldsParts(sys.p.local, d) || HoldsWhole(sys.p.local, d);
    assert d in homes.at.Values;
  }

  lemma AppendedHome(b: Buffers, cur: seq<int>, homes: Homes, d: int, v: View)
    requires d in b.buffer && d in b.index && Fits(v.positions, |cur|) && OnlyHomes(b.index, homes)
    requires LivesAt(homes, v, d)
    ensures OnlyHomes(PartAppended(b, d, v, cur).index, homes)
  {
  }

  lemma ScatterRead(sys: System, cur: seq<int>, owner: int, homes: Homes, order: seq<int>, d: int, v: View)
    requires Scattered(sys, cur, owner, homes) && IsOrder(sys.p.gpus, order)
    requires d in sys.p.local && d != owner && LivesAt(homes, v, d)
    ensures Guard(sys, cur, ReadAt(d, Some(v)))
    ensures var r := Step(sys, order, ReadAt(d, Some(v)));
            && r.Some? && Scattered(r.value, cur, owner, homes) && r.value.p.gpus == sys.p.gpus
            && (Valid(r.value.p.local, owner) ==> Valid(sys.p.local, owner))
  {
    PartIsFree(sys, cur, owner, homes, d, v);
    if PartState(sys.p, d, v).Invalid? {
      LoadExecutes(sys, cur, d, v, PartRead(sys.p, d, v));
      ReadNewPart(sys, cur, d, v);
      AppendedHome(sys.b, cur, homes, d, v);
      var t := PartRead(sys.p, d, v);
      forall e | HoldsWhole(t.local, e) && e != owner ensures HoldsWhole(sys.p.local, e) && e != d {}
    } else {
      OpenedAgain(sys.p, d);
      RunNoop(sys.b, sys.p.gpus, Some(v));
    }
  }

  /** What a subarray write leaves before the task's store: nothing beside the owner, whose copy is invalid. */
  ghost predicate Claimed(r: Option<System>, gpus: nat, owner: int, homes: Homes) {
    && r.Some? && Wellformed(r.value) && r.value.p.gpus == gpus
    && NothingBeside(r.value, owner, homes.clean) && !Valid(r.value.p.local, owner) && OnlyHomes(r.value.b.index, homes)
  }

  lemma ClaimNew(sys: System, cur: seq<int>, owner: int, homes: Homes, order: seq<int>, d: int, v: View)
    requires Scattered(sys, cur, owner, homes) && IsOrder(sys.p.gpus, order)
    requires d in sys.p.local && d != owner && LivesAt(homes, v, d) && PartState(sys.p, d, v).Invalid?
    ensures sys.p.complete[d] != Some(true)
    ensures Claimed(Execute(sys.b, sys.p.gpus, WritePart(sys.p, order, d, v), Some(v)), sys.p.gpus, owner, homes)
  {
    PartIsFree(sys, cur, owner, homes, d, v);
    LoadExecutes(sys, cur, d, v, PartClaimed(sys.p, d, v));
    PartClaimedShape(sys.p, d, v);
    AppendedHome(sys.b, cur, homes, d, v);
    var t := PartClaimed(sys.p, d, v);
    forall e | HoldsWhole(t.local, e) && e != owner ensures HoldsWhole(sys.p.local, e) && e != d {}
  }

  lemma ClaimShared(sys: System, cur: seq<int>, owner: int, homes: Homes, order: seq<int>, d: int, v: View)
    requires Scattered(sys, cur, owner, homes) && IsOrder(sys.p.gpus, order)
    requires d in sys.p.local && d != owner && LivesAt(homes, v, d) && PartState(sys.p, d, v).Shared?
    ensures sys.p.complete[d] != Some(true)
    ensures Claimed(Execute(sys.b, sys.p.gpus, WritePart(sys.p, order, d, v), Some(v)), sys.p.gpus, owner, homes)
  {
    PartIsFree(sys, cur, owner, homes, d, v);
    UpgradeExecutes(sys, order, d, v);
    var others := OtherWholes(sys.p, Devices(sys.p.gpus));
    UpgradePart(sys, cur, order, d, v);
    NothingBesideUpgraded(sys, owner, homes.clean, d, v, others);
  }

  lemma NothingBesideUpgraded(sys: System, owner: int, clean: set<int>, d: int, v: View, others: seq<int>)
    requires Wellformed(sys) && NothingBeside(sys, owner, clean) && HoldsParts(sys.p.local, d) && d != owner
    requires var next := System(PartUpgraded(sys.p, d, v), Cleared(sys.b, others)); Wellformed(next)
    ensures var next := System(PartUpgraded(sys.p, d, v), Cleared(sys.b, others));
            NothingBeside(next, owner, clean) && !Valid(next.p.local, owner)
  {
    var t := PartUpgraded(sys.p, d, v);
    forall e | HoldsWhole(t.local, e) && e != owner ensures HoldsWhole(sys.p.local, e) && e != d {}
  }

  lemma ClaimAgain(sys: System, cur: seq<int>, owner: int, homes: Homes, order: seq<int>, d: int, v: View)
    requires Scattered(sys, cur, owner, homes) && IsOrder(sys.p.gpus, order)
    requires d in sys.p.local && d != owner && LivesAt(homes, v, d) && PartState(sys.p, d, v).Modified?
    ensures sys.p.complete[d] != Some(true)
    ensures Claimed(Execute(sys.b, sys.p.gpus, WritePart(sys.p, order, d, v), Some(v)), sys.p.gpus, owner, homes)
  {
    PartIsFree(sys, cur, owner, homes, d, v);
    OpenedAgain(sys.p, d);
    RunNoop(sys.b, sys.p.gpus, Some(v));
    assert IsModifiedPart(sys.p.local, d, v);
  }

  lemma ClaimPart(sys: System, cur: seq<int>, owner: int, homes: Homes, order: seq<int>, d: int, v: View)
    requires Scattered(sys, cur, owner, homes) && IsOrder(sys.p.gpus, order)
    requires d in sys.p.local && d != owner && LivesAt(homes, v, d)
    ensures CanAccessPart(sys, cur, d, v) && sys.p.complete[d] != Some(true)
    ensures Claimed(Execute(sys.b, sys.p.gpus, WritePart(sys.p, order, d, v), Some(v)), sys.p.gpus, owner, homes)
  {
    PartIsFree(sys, cur, owner, homes, d, v);
    match PartState(sys.p, d, v)
    case Invalid => ClaimNew(sys, cur, owner, homes, order, d, v);
    case Shared => ClaimShared(sys, cur, owner, homes, order, d, v);
    case Modified => ClaimAgain(sys, cur, owner, homes, order, d, v);
  }

  lemma ScatterWrite(sys: System, cur: seq<int>, owner: int, homes: Homes, order: seq<int>, d: int, v: View,
                     values: seq<int>)
    requires Scattered(sys, cur, owner, homes) && IsOrder(sys.p.gpus, order)
    requires d in sys.p.local && d != owner && LivesAt(homes, v, d) && |values| == |v.positions|
    ensures Guard(sys, cur, WriteAt(d, Some(v), values))
    ensures var r := Step(sys, order, WriteAt(d, Some(v), values));
            && r.Some? && r.value.p.gpus == sys.p.gpus
            && Scattered(r.value, Applied(cur, WriteAt(d, Some(v), values)), owner, homes)
            && !Valid(r.value.p.local, owner)
  {
    ClaimPart(sys, cur, owner, homes, order, d, v);
    OnlyOwnerValid(sys, owner, homes.clean);
    WritePartStep(sys, cur, order, d, v, values);
    var claimed := Execute(sys.b, sys.p.gpus, WritePart(sys.p, order, d, v), Some(v)).value;
    assert d in homes.at.Values;
    StoreBesideOwner(claimed, owner, homes.clean, d, v, values);
    StepStores(sys, order, d, v, values);
  }

  lemma OnlyOwnerValid(sys: System, owner: int, clean: set<int>)
    requires Wellformed(sys) && NothingBeside(sys, owner, clean)
    ensures forall e | Valid(sys.p.local, e) :: e == sys.p.owner
  {
  }

  lemma StepStores(sys: System, order: seq<int>, d: int, v: View, values: seq<int>)
    requires Wellformed(sys) && IsOrder(sys.p.gpus, order) && d in sys.p.local && sys.p.complete[d] != Some(true)
    ensures var claimed := Execute(sys.b, sys.p.gpus, WritePart(sys.p, order, d, v), Some(v));
            claimed.Some? && Seen(claimed.value.b, d, Some(v)).Some?
            && |Seen(claimed.value.b, d, Some(v)).value| == |values| ==>
              Step(sys, order, WriteAt(d, Some(v), values))
              == Some(System(claimed.value.p, Stored(claimed.value.b, d, Some(v), values)))
  {
  }

  lemma StoreBesideOwner(sys: System, owner: int, clean: set<int>, d: int, v: View, values: seq<int>)
    requires Wellformed(sys) && NothingBeside(sys, owner, clean) && d in sys.p.local && d != owner && d in clean
    requires Seen(sys.b, d, Some(v)).Some? && |Seen(sys.b, d, Some(v)).value| == |values|
    ensures Wellformed(System(sys.p, Stored(sys.b, d, Some(v), values)))
    ensures NothingBeside(System(sys.p, Stored(sys.b, d, Some(v), values)), owner, clean)
    ensures Stored(sys.b, d, Some(v), values).index == sys.b.index
  {
    assert !HoldsWhole(sys.p.local, d);
  }

  /** A scatter run meets every guard, and keeps the owner's base plus the parts equal to the logical array. */
  lemma ScatterStep(sys: System, cur: seq<int>, owner: int, homes: Homes, order: seq<int>, ev: Event)
    requires Scattered(sys, cur, owner, homes) && IsOrder(sys.p.gpus, order) && AtHome(sys.p.gpus, owner, homes, ev)
    ensures ev.d in sys.p.local && Guard(sys, cur, ev)
    ensures var r := Step(sys, order, ev);
            && r.Some? && Scattered(r.value, Applied(cur, ev), owner, homes) && r.value.p.gpus == sys.p.gpus
            && (ev.WriteAt? || !Valid(sys.p.local, owner) ==> !Valid(r.value.p.local, owner))
  {
    if ev.ReadAt? {
      ScatterRead(sys, cur, owner, homes, order, ev.d, ev.view.value);
    } else {
      ScatterWrite(sys, cur, owner, homes, order, ev.d, ev.view.value, ev.values);
    }
  }

  lemma WritesLater(run: seq<Access>)
    requires run != [] && Writes(run) && !run[0].ev.WriteAt?
    ensures Writes(run[1..])
  {
    var i :| 0 <= i < |run| && run[i].ev.WriteAt?;
    assert run[1..][i - 1].ev.WriteAt?;
  }

  lemma {:induction false} ScatterRunsAreGuarded(sys: System, cur: seq<int>, owner: int, homes: Homes, run: seq<Access>)
    requires Scattered(sys, cur, owner, homes) && ScatterRun(sys.p.gpus, owner, homes, run)
    ensures Guarded(sys, cur, run)
    ensures End(sys, run).Some? && Scattered(End(sys, run).value, AfterRun(cur, run), owner, homes)
    ensures End(sys, run).value.p.gpus == sys.p.gpus
    ensures Writes(run) || !Valid(sys.p.local, owner) ==> !Valid(End(sys, run).value.p.local, owner)
    decreases |run|
  {
    if run != [] {
      var ev, order := run[0].ev, run[0].order;
      ScatterStep(sys, cur, owner, homes, order, ev);
      forall i | 0 <= i < |run[1..]| ensures run[1..][i] == run[i + 1] {}
      ScatterRunsAreGuarded(Step(sys, order, ev).value, Applied(cur, ev), owner, homes, run[1..]);
      if Writes(run) && !ev.WriteAt? {
        WritesLater(run);
      }
    }
  }

  // ---- the closing access ----

  /** A whole write at a device with parts: the old owner gathers them, the device gets the result, and both
      buffers stay. */
  lemma WriteOverPartsGathers(sys: System, cur: seq<int>, order: seq<int>, d: int)
    requires Inv(sys, cur) && IsOrder(sys.p.gpus, order) && HoldsParts(sys.p.local, d)
    ensures var r := Execute(sys.b, sys.p.gpus, WriteOverParts(sys.p, order, d), None);
            && r.Some? && r.value.p == PartsWritten(sys.p, d)
            && KeyedBuffers(r.value.b, sys.p.gpus) && (forall e | e in r.value.b.index :: r.value.b.index[e].None?)
            && r.value.b.buffer[sys.p.owner] == r.value.b.buffer[d] == Full(cur)
  {
    var owner := sys.p.owner;
    GathersAtOwner(sys, cur, order, Modified);
    PartsEvicted(sys.p, sys.b, order, owner, cur, None);
    var b1 := Cleared(sys.b.(buffer := sys.b.buffer[owner := Full(cur)]),
                      EvictionList(sys.p, order, owner, Modified, None));
    var ops := WriteBack(sys.p, order, owner, Modified, None).ops;
    ThenLoadsWhole(sys.b, sys.p.gpus, ops, b1, d, owner, cur);
    Executes(sys.b, sys.p.gpus, PartsWritten(sys.p, d), ops + [Load(d, owner, false)], None,
             b1.(buffer := b1.buffer[d := Full(cur)]));
  }

  lemma ThenLoadsWhole(b: Buffers, gpus: nat, ops: seq<Op>, b1: Buffers, dst: int, src: int, cur: seq<int>)
    requires KeyedBuffers(b, gpus) && KeyedBuffers(b1, gpus) && RunOps(b, gpus, ops, None) == Some(b1)
    requires dst in b1.buffer && src in b1.buffer
    requires b1.index[dst].None? && b1.index[src].None? && b1.buffer[src] == Full(cur)
    ensures RunOps(b, gpus, ops + [Load(dst, src, false)], None) == Some(b1.(buffer := b1.buffer[dst := Full(cur)]))
  {
    RunOpsAppend(b, gpus, ops, [Load(dst, src, false)], None);
    LoadsWhole(b1, gpus, dst, src, cur);
  }

  lemma LoadsWhole(b: Buffers, gpus: nat, dst: int, src: int, cur: seq<int>)
    requires KeyedBuffers(b, gpus) && dst in b.buffer && src in b.buffer
    requires b.index[dst].None? && b.index[src].None? && b.buffer[src] == Full(cur)
    ensures RunOps(b, gpus, [Load(dst, src, false)], None) == Some(b.(buffer := b.buffer[dst := Full(cur)]))
  {
    RunSingle(b, gpus, Load(dst, src, false), None);
  }

  lemma ClosingWriteSees(sys: System, cur: seq<int>, order: seq<int>, d: int)
    requires Inv(sys, cur) && IsOrder(sys.p.gpus, order) && d in sys.p.local
    ensures var r := Execute(sys.b, sys.p.gpus, Write(sys.p, order, d, None), None);
            r.Some? && Seen(r.value.b, d, None) == Some(cur)
  {
    WriteBranch(sys.p, order, d);
    if HoldsParts(sys.p.local, d) {
      WriteOverPartsGathers(sys, cur, order, d);
    } else if IsModified(sys.p.local, d) {
      RunNoop(sys.b, sys.p.gpus, None);
      assert Valid(sys.p.local, d);
    } else {
      WriteWholeStep(sys, cur, order, d, None, cur);
    }
  }

  /** Which branch of `write` a whole access takes. */
  lemma WriteBranch(s: State, order: seq<int>, d: int)
    requires Typed(s) && IsOrder(s.gpus, order) && d in s.local
    ensures HoldsParts(s.local, d) || HoldsWhole(s.local, d)
    ensures Write(s, order, d, None) == if HoldsParts(s.local, d) then WriteOverParts(s, order, d)
            else WriteWhole(s, order, d)
  {
  }

  /** A whole write at a device without parts, when a part was written, ends the subarray phase. */
  lemma ClosingWriteRestores(sys: System, cur: seq<int>, order: seq<int>, ev: Event)
    requires Inv(sys, cur) && IsOrder(sys.p.gpus, order) && ev.WriteAt? && ev.view.None?
    requires HoldsWhole(sys.p.local, ev.d) && !Valid(sys.p.local, sys.p.owner) && |ev.values| == |cur|
    ensures Guard(sys, cur, ev)
    ensures var r := Step(sys, order, ev);
            r.Some? && Inv(r.value, ev.values) && NoParts(r.value.p.local)
  {
    assert IsModified(sys.p.local, ev.d) ==> Valid(sys.p.local, ev.d);
    WriteWholeRefines(sys, cur, order, ev);
    ClaimedState(sys, cur, order, ev.d);
    WholeAccess(sys, order, ev);
  }

  lemma ClaimedState(sys: System, cur: seq<int>, order: seq<int>, d: int)
    requires Inv(sys, cur) && IsOrder(sys.p.gpus, order) && HoldsWhole(sys.p.local, d) && !IsModified(sys.p.local, d)
    ensures var r := Execute(sys.b, sys.p.gpus, WriteWhole(sys.p, order, d), None);
            r.Some? && NoParts(r.value.p.local)
  {
    if Valid(sys.p.local, d) && d != sys.p.owner {
      ClaimFromShared(sys, cur, order, d, None);
    } else {
      ClaimDirectly(sys, cur, order, d, None);
    }
    WholeClaimedShape(sys.p, d);
  }

  /** Where a subarray phase starts: one complete copy at the owner, and nothing is left on the clean devices. */
  ghost predicate OneCopy(sys: System, cur: seq<int>, owner: int, clean: set<int>) {
    && Inv(sys, cur) && NoParts(sys.p.local) && Valid(sys.p.local, owner) && NothingBeside(sys, owner, clean)
  }

  lemma CreatedIsOneCopy(gpus: nat, owner: int, data: seq<int>, clean: set<int>)
    requires CPU_INDEX <= owner < gpus
    ensures OneCopy(Created(gpus, owner, data), data, owner, clean)
  {
    CreatedIsRight(gpus, owner, data);
  }

  lemma OneCopyIsScattered(sys: System, cur: seq<int>, owner: int, homes: Homes)
    requires OneCopy(sys, cur, owner, homes.clean) && DisjointViews(homes, |cur|)
    ensures Scattered(sys, cur, owner, homes)
  {
    forall d | d in sys.b.index ensures sys.b.index[d].None? {
      assert !HoldsParts(sys.p.local, d) && HoldsWhole(sys.p.local, d);
    }
  }

  /** The clean devices after a phase that a whole write at `d` closed: the old owner keeps its buffer and its
      completeness mark. */
  function CleanAfter(clean: set<int>, owner: int, d: int): set<int> {
    if d == owner then clean else clean - {owner}
  }

  /** A closing write at a device without parts leaves one complete copy, where the next phase can start. */
  lemma ClosingWriteLeavesOneCopy(sys: System, cur: seq<int>, owner: int, homes: Homes, order: seq<int>, ev: Event)
    requires Scattered(sys, cur, owner, homes) && IsOrder(sys.p.gpus, order) && ev.WriteAt? && ev.view.None?
    requires HoldsWhole(sys.p.local, ev.d) && !Valid(sys.p.local, owner) && |ev.values| == |cur|
    ensures Guard(sys, cur, ev)
    ensures var r := Step(sys, order, ev);
            && r.Some? && r.value.p.gpus == sys.p.gpus
            && OneCopy(r.value, ev.values, ev.d, CleanAfter(homes.clean, owner, ev.d))
  {
    ClosingWriteRestores(sys, cur, order, ev);
    ClaimsAlone(sys, cur, owner, homes, order, ev.d);
    StepStoresWhole(sys, cur, order, ev, WholeClaimed(sys.p, ev.d));
    ClosedBeside(sys, cur, owner, homes, order, ev.d, ev.values);
    WholeClaimedShape(sys.p, ev.d);
  }

  /** While nobody has a valid whole copy, the write claims one directly. */
  lemma ClaimsAlone(sys: System, cur: seq<int>, owner: int, homes: Homes, order: seq<int>, d: int)
    requires Scattered(sys, cur, owner, homes) && IsOrder(sys.p.gpus, order)
    requires HoldsWhole(sys.p.local, d) && !Valid(sys.p.local, owner)
    ensures !Valid(sys.p.local, d) && !IsModified(sys.p.local, d)
    ensures var r := Execute(sys.b, sys.p.gpus, WriteWhole(sys.p, order, d), None);
            ClaimedBy(r, WholeClaimed(sys.p, d), d, cur) && KeyedBuffers(r.value.b, sys.p.gpus)
  {
    OnlyOwnerValid(sys, owner, homes.clean);
    assert IsModified(sys.p.local, d) ==> Valid(sys.p.local, d);
    ClaimDirectly(sys, cur, order, d, None);
  }

  lemma ClosedBeside(sys: System, cur: seq<int>, owner: int, homes: Homes, order: seq<int>, d: int, values: seq<int>)
    requires Scattered(sys, cur, owner, homes) && IsOrder(sys.p.gpus, order)
    requires HoldsWhole(sys.p.local, d) && !Valid(sys.p.local, owner)
    requires Execute(sys.b, sys.p.gpus, WriteWhole(sys.p, order, d), None).Some?
    requires KeyedBuffers(Execute(sys.b, sys.p.gpus, WriteWhole(sys.p, order, d), None).value.b, sys.p.gpus)
    ensures var b := Execute(sys.b, sys.p.gpus, WriteWhole(sys.p, order, d), None).value.b;
            var r := System(WholeClaimed(sys.p, d), b.(buffer := b.buffer[d := Full(values)]));
            Wellformed(r) && NothingBeside(r, d, CleanAfter(homes.clean, owner, d))
  {
    var b := Execute(sys.b, sys.p.gpus, WriteWhole(sys.p, order, d), None).value.b;
    ClaimsAlone(sys, cur, owner, homes, order, d);
    forall e | e in sys.p.local && e != d && e in CleanAfter(homes.clean, owner, d)
      ensures e in WholeClaimed(sys.p, d).complete && WholeClaimed(sys.p, d).complete[e].None?
      ensures e in b.buffer && b.buffer[e].Empty?
    {
      StaysClean(sys, owner, homes.clean, d, e);
      ClaimClears(sys, cur, order, d, e);
    }
    ClaimedBeside(sys.p, b, d, CleanAfter(homes.clean, owner, d), values);
  }

  lemma ClaimedBeside(s: State, b: Buffers, d: int, clean: set<int>, values: seq<int>)
    requires Typed(s) && Versions(s) && HoldsWhole(s.local, d) && KeyedBuffers(b, s.gpus)
    requires forall e | e in s.local && e != d && e in clean ::
               && e in WholeClaimed(s, d).complete && WholeClaimed(s, d).complete[e].None?
               && e in b.buffer && b.buffer[e].Empty?
    ensures var r := System(WholeClaimed(s, d), b.(buffer := b.buffer[d := Full(values)]));
            Wellformed(r) && NothingBeside(r, d, clean)
  {
    WholeClaimedShape(s, d);
  }

  lemma StepStoresWhole(sys: System, cur: seq<int>, order: seq<int>, ev: Event, p: State)
    requires Wellformed(sys) && IsOrder(sys.p.gpus, order) && ev.WriteAt? && ev.view.None?
    requires HoldsWhole(sys.p.local, ev.d)
    requires |ev.values| == |cur|
    requires var r := Execute(sys.b, sys.p.gpus, WriteWhole(sys.p, order, ev.d), None);
             ClaimedBy(r, p, ev.d, cur) && KeyedBuffers(r.value.b, sys.p.gpus)
    ensures var b := Execute(sys.b, sys.p.gpus, WriteWhole(sys.p, order, ev.d), None).value.b;
            Step(sys, order, ev) == Some(System(p, b.(buffer := b.buffer[ev.d := Full(ev.values)])))
  {
    WholeAccess(sys, order, ev);
    StoreWhole(sys, cur, order, ev, Accessed(sys, order, ev).value);
  }

  /** A clean device has no completeness mark after the write, and its buffer is one the write clears or leaves
      empty. */
  lemma StaysClean(sys: System, owner: int, clean: set<int>, d: int, e: int)
    requires Wellformed(sys) && NothingBeside(sys, owner, clean) && HoldsWhole(sys.p.local, d)
    requires e in sys.p.local && e != d && e != owner && e in clean
    ensures e in WholeClaimed(sys.p, d).complete && WholeClaimed(sys.p, d).complete[e].None?
    ensures e in sys.b.buffer && (HoldsParts(sys.p.local, e) || sys.b.buffer[e].Empty?)
  {
    assert HoldsParts(sys.p.local, e) || HoldsWhole(sys.p.local, e);
  }

  /** The theorem. From one complete copy, over any run of subarray accesses at their homes, every access sees
      the logical array, and a whole read or write at any device then leaves it holding the owner's base with
      every subarray update applied. If a subarray was written and the closing access is a write at a device
      without parts, the whole-array regime holds again, and the next phase can start. */
  lemma ScatterGather(sys: System, cur: seq<int>, owner: int, homes: Homes, run: seq<Access>, order: seq<int>,
                      d: int, values: seq<int>)
    requires OneCopy(sys, cur, owner, homes.clean) && DisjointViews(homes, |cur|)
    requires ScatterRun(sys.p.gpus, owner, homes, run)
    requires IsOrder(sys.p.gpus, order) && d in sys.p.local && |values| == |AfterRun(cur, run)|
    ensures Guarded(sys, cur, run) && SeesOneArray(sys, cur, run)
    ensures End(sys, run).Some? && Wellformed(End(sys, run).value) && d in End(sys, run).value.p.local
    ensures End(sys, run).value.p.gpus == sys.p.gpus
    ensures var (p, b) := (End(sys, run).value.p, End(sys, run).value.b);
            var read := Execute(b, p.gpus, Read(p, order, d, None), None);
            var written := Execute(b, p.gpus, Write(p, order, d, None), None);
            && read.Some? && Seen(read.value.b, d, None) == Some(AfterRun(cur, run))
            && written.Some? && Seen(written.value.b, d, None) == Some(AfterRun(cur, run))
            && (Writes(run) && !HoldsParts(p.local, d) ==>
                  var r := Step(End(sys, run).value, order, WriteAt(d, None, values));
                  r.Some? && OneCopy(r.value, values, d, CleanAfter(homes.clean, owner, d)))
  {
    OneCopyIsScattered(sys, cur, owner, homes);
    ScatterRunsAreGuarded(sys, cur, owner, homes, run);
    ManyCopiesAreOneArray(sys, cur, run);
    Closing(End(sys, run).value, AfterRun(cur, run), order, d);
    if Writes(run) && !HoldsParts(End(sys, run).value.p.local, d) {
      ClosingWriteLeavesOneCopy(End(sys, run).value, AfterRun(cur, run), owner, homes, order, WriteAt(d, None, values));
    }
  }

  lemma Closing(sys: System, cur: seq<int>, order: seq<int>, d: int)
    requires Inv(sys, cur) && IsOrder(sys.p.gpus, order) && d in sys.p.local
    ensures var read := Execute(sys.b, sys.p.gpus, Read(sys.p, order, d, None), None);
            var written := Execute(sys.b, sys.p.gpus, Write(sys.p, order, d, None), None);
            && read.Some? && Seen(read.value.b, d, None) == Some(cur)
            && written.Some? && Seen(written.value.b, d, None) == Some(cur)
  {
    ReadStep(sys, cur, order, d, None);
    ClosingWriteSees(sys, cur, order, d);
  }

  // ---- phase after phase ----

  /** Subarray accesses, and the whole write that ends them. */
  datatype Phase = Phase(at: map<View, int>, run: seq<Access>, closing: Access)

  ghost predicate Closes(gpus: nat, size: nat, at: map<View, int>, closing: Access) {
    && IsOrder(gpus, closing.order) && closing.ev.WriteAt? && closing.ev.view.None?
    && |closing.ev.values| == size && CPU_INDEX <= closing.ev.d < gpus && closing.ev.d !in at.Values
  }

  /** Each phase writes some subarray, keeps to clean devices, and ends with a whole write at a device it does not
      use for subarrays. Nothing here depends on the state. */
  ghost predicate Phases(gpus: nat, size: nat, owner: int, clean: set<int>, phases: seq<Phase>)
    decreases |phases|
  {
    phases == [] ||
    (var phase := phases[0];
     && DisjointViews(Homes(phase.at, clean), size) && ScatterRun(gpus, owner, Homes(phase.at, clean), phase.run)
     && Writes(phase.run) && Closes(gpus, size, phase.at, phase.closing)
     && Phases(gpus, size, phase.closing.ev.d, CleanAfter(clean, owner, phase.closing.ev.d), phases[1..]))
  }

  function Accesses(phases: seq<Phase>): seq<Access> {
    if phases == [] then [] else phases[0].run + ([phases[0].closing] + Accesses(phases[1..]))
  }

  lemma GuardedRest(sys: System, cur: seq<int>, run: seq<Access>)
    requires run != [] && Guarded(sys, cur, run) && End(sys, run).Some?
    ensures Wellformed(sys) && IsOrder(sys.p.gpus, run[0].order) && Guard(sys, cur, run[0].ev)
    ensures var r := Step(sys, run[0].order, run[0].ev);
            && r.Some? && Wellformed(r.value) && Guarded(r.value, Applied(cur, run[0].ev), run[1..])
            && End(sys, run) == End(r.value, run[1..])
    ensures AfterRun(cur, run) == AfterRun(Applied(cur, run[0].ev), run[1..])
  {
  }

  lemma {:induction false} GuardedAppend(sys: System, cur: seq<int>, first: seq<Access>, second: seq<Access>)
    requires Guarded(sys, cur, first) && End(sys, first).Some?
    requires Guarded(End(sys, first).value, AfterRun(cur, first), second)
    ensures Guarded(sys, cur, first + second)
    decreases |first|
  {
    if first == [] {
      assert first + second == second;
    } else {
      GuardedRest(sys, cur, first);
      GuardedAppend(Step(sys, first[0].order, first[0].ev).value, Applied(cur, first[0].ev), first[1..], second);
      GuardedOnwards(sys, cur, first, second);
    }
  }

  lemma GuardedOnwards(sys: System, cur: seq<int>, first: seq<Access>, second: seq<Access>)
    requires first != [] && Wellformed(sys) && IsOrder(sys.p.gpus, first[0].order) && Guard(sys, cur, first[0].ev)
    requires var r := Step(sys, first[0].order, first[0].ev);
             r.Some? && Guarded(r.value, Applied(cur, first[0].ev), first[1..] + second)
    ensures Guarded(sys, cur, first + second)
  {
    FirstOf(first, second);
    GuardedFirst(sys, cur, first[0], first[1..] + second);
  }

  lemma FirstOf(first: seq<Access>, second: seq<Access>)
    requires first != []
    ensures first + second == [first[0]] + (first[1..] + second)
  {
  }

  lemma GuardedFirst(sys: System, cur: seq<int>, a: Access, rest: seq<Access>)
    requires Wellformed(sys) && IsOrder(sys.p.gpus, a.order) && Guard(sys, cur, a.ev)
    requires var r := Step(sys, a.order, a.ev); r.Some? && Guarded(r.value, Applied(cur, a.ev), rest)
    ensures Guarded(sys, cur, [a] + rest)
  {
    assert ([a] + rest)[1..] == rest;
  }

  lemma PartsAreAtHome(sys: System, cur: seq<int>, owner: int, homes: Homes, d: int)
    requires Scattered(sys, cur, owner, homes) && d in sys.p.local
    ensures HoldsParts(sys.p.local, d) ==> d in homes.at.Values
  {
    if HoldsParts(sys.p.local, d) {
      assert PartsMatch(sys.p.local[d], sys.b.buffer[d], sys.b.index[d], cur);
      assert LivesAt(homes, sys.b.index[d].value[0], d);
    }
  }

  lemma {:induction false} PhasesAreGuarded(sys: System, cur: seq<int>, owner: int, clean: set<int>, phases: seq<Phase>)
    requires OneCopy(sys, cur, owner, clean) && Phases(sys.p.gpus, |cur|, owner, clean, phases)
    ensures Guarded(sys, cur, Accesses(phases))
    decreases |phases|
  {
    if phases != [] {
      var phase, homes := phases[0], Homes(phases[0].at, clean);
      var ev, order := phase.closing.ev, phase.closing.order;
      OneCopyIsScattered(sys, cur, owner, homes);
      ScatterRunsAreGuarded(sys, cur, owner, homes, phase.run);
      var mid, now := End(sys, phase.run).value, AfterRun(cur, phase.run);
      SameLength(sys.p.gpus, owner, homes, cur, phase.run);
      PartsAreAtHome(mid, now, owner, homes, ev.d);
      ClosingWriteLeavesOneCopy(mid, now, owner, homes, order, ev);
      PhasesAreGuarded(Step(mid, order, ev).value, ev.values, ev.d, CleanAfter(clean, owner, ev.d), phases[1..]);
      GuardedFirst(mid, now, phase.closing, Accesses(phases[1..]));
      GuardedAppend(sys, cur, phase.run, [phase.closing] + Accesses(phases[1..]));
    }
  }

  lemma {:induction false} SameLength(gpus: nat, owner: int, homes: Homes, cur: seq<int>, run: seq<Access>)
    requires ScatterRun(gpus, owner, homes, run)
    ensures |AfterRun(cur, run)| == |cur|
    decreases |run|
  {
    if run != [] {
      assert AtHome(gpus, owner, homes, run[0].ev);
      forall i | 0 <= i < |run[1..]| ensures run[1..][i] == run[i + 1] {}
      SameLength(gpus, owner, homes, Applied(cur, run[0].ev), run[1..]);
    }
  }

  /** Scatter and gather, phase after phase, from a new array on: every access of every phase sees one array. */
  lemma PhasesSeeOneArray(gpus: nat, owner: int, data: seq<int>, clean: set<int>, phases: seq<Phase>)
    requires CPU_INDEX <= owner < gpus && Phases(gpus, |data|, owner, clean, phases)
    ensures Guarded(Created(gpus, owner, data), data, Accesses(phases))
    ensures SeesOneArray(Created(gpus, owner, data), data, Accesses(phases))
  {
    CreatedIsOneCopy(gpus, owner, data, clean);
    PhasesAreGuarded(Created(gpus, owner, data), data, owner, clean, phases);
    ManyCopiesAreOneArray(Created(gpus, owner, data), data, Accesses(phases));
  }

  // ---- bookkeeping ----

  lemma {:induction false} GuardedRunsKeepInv(sys: System, cur: seq<int>, run: seq<Access>)
    requires Inv(sys, cur) && Guarded(sys, cur, run)
    ensures End(sys, run).Some? && Inv(End(sys, run).value, AfterRun(cur, run))
    decreases |run|
  {
    if run != [] {
      StepRefines(sys, cur, run[0].order, run[0].ev);
      GuardedRunsKeepInv(Step(sys, run[0].order, run[0].ev).value, Applied(cur, run[0].ev), run[1..]);
    }
  }

  /** After any guarded run, a device with an index map has one buffer entry per view, each holding exactly the
      elements of the logical array that its view names, and no two views anywhere overlap; a device without one
      holds no subarrays that the protocol knows of. */
  lemma SubarrayBookkeeping(sys: System, cur: seq<int>, run: seq<Access>, d: int)
    requires Inv(sys, cur) && Guarded(sys, cur, run)
    ensures var r, now := End(sys, run), AfterRun(cur, run);
            && r.Some? && Disjoint(r.value.b.index)
            && (d in r.value.b.index && r.value.b.index[d].Some? ==>
                  && HoldsParts(r.value.p.local, d) && d in r.value.b.buffer
                  && PartsAgree(r.value.b.buffer[d], r.value.b.index[d], now)
                  && r.value.p.local[d].states.Keys == set v | v in r.value.b.index[d].value)
            && (HoldsParts(r.value.p.local, d) ==> d in r.value.b.index && r.value.b.index[d].Some?)
  {
    GuardedRunsKeepInv(sys, cur, run);
    var t, now := End(sys, run).value, AfterRun(cur, run);
    if HoldsParts(t.p.local, d) {
      assert PartsMatch(t.p.local[d], t.b.buffer[d], t.b.index[d], now);
    } else if d in t.b.index {
      assert HoldsWhole(t.p.local, d);
    }
  }
}
