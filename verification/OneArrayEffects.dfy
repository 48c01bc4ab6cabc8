/**
 What one access changes, and what it leaves alone: which copies are valid afterwards, which buffers are freed, and
 which device is the owner.
 */
module OneArrayEffects {
  import opened Wrappers
  import opened Protocol
  import opened Buffers
  import opened OneArray
  import opened OneArraySteps
  import opened OneArrayParts
  import opened OneArrayTheorem

  /** Everything about the devices other than `d`, and the protocol's counters, are as they were. */
  ghost predicate SameElsewhere(sys: System, next: System, d: int)
    requires Wellformed(sys) && Wellformed(next)
  {
    && next.p.gpus == sys.p.gpus && next.p.owner == sys.p.owner && next.p.latest == sys.p.latest
    && forall e | e in sys.p.local && e != d ::
         && next.p.local[e] == sys.p.local[e] && next.p.version[e] == sys.p.version[e]
         && next.p.complete[e] == sys.p.complete[e]
         && next.b.buffer[e] == sys.b.buffer[e] && next.b.index[e] == sys.b.index[e]
  }

  ghost predicate OtherValid(local: map<int, Local>, d: int) {
    exists e :: e != d && Valid(local, e)
  }

  // ---- evict ----

  /** A shared copy that is not the owner's goes: its buffer is freed, its marks are cleared, nothing else changes. */
  lemma EvictShared(sys: System, order: seq<int>, d: int)
    requires Wellformed(sys) && IsOrder(sys.p.gpus, order) && d in sys.p.local
    requires sys.p.local[d] == Whole(Shared) && d != sys.p.owner
    ensures var r := Step(sys, order, EvictAt(d));
            && r.Some? && Wellformed(r.value) && SameElsewhere(sys, r.value, d)
            && r.value.p.local[d] == Whole(Invalid) && r.value.p.version[d] == Version.At(-1)
            && r.value.p.complete[d] == None
            && r.value.b.buffer[d].Empty? && r.value.b.index[d].None?
  {
    RunSingle(sys.b, sys.p.gpus, Evict(d), None);
  }

  /** Nothing happens when there is no copy, when the last copy is the CPU's, and when the owner's copy has a shared
      one beside it: the code looks for another owner, and does not use it. */
  lemma EvictNothing(sys: System, cur: seq<int>, order: seq<int>, d: int)
    requires Inv(sys, cur) && IsOrder(sys.p.gpus, order) && d in sys.p.local
    requires if Valid(sys.p.local, d) then d == sys.p.owner && (d == CPU_INDEX || OtherValid(sys.p.local, d))
             else HoldsWhole(sys.p.local, d) || d == CPU_INDEX
    ensures Step(sys, order, EvictAt(d)) == Some(sys)
  {
    RunNoop(sys.b, sys.p.gpus, None);
    if Valid(sys.p.local, d) && OtherValid(sys.p.local, d) {
      SharedBeside(sys, cur, d);
    }
  }

  /** Copies beside each other are shared. */
  lemma SharedBeside(sys: System, cur: seq<int>, d: int)
    requires Inv(sys, cur) && Valid(sys.p.local, d)
    ensures OtherValid(sys.p.local, d) <==> sys.p.local[d] == Whole(Shared) && AnotherShared(sys.p, d)
  {
    if e :| e != d && Valid(sys.p.local, e) {
      assert !IsModified(sys.p.local, d) && !IsModified(sys.p.local, e);
      assert e in sys.p.local && sys.p.local[e] == Whole(Shared);
    }
    if AnotherShared(sys.p, d) {
      var e :| e in sys.p.local && e != d && sys.p.local[e] == Whole(Shared);
      assert Valid(sys.p.local, e);
    }
  }

  /** The device has the last copy, or holds slices. */
  ghost predicate HasLast(sys: System, d: int) {
    HoldsParts(sys.p.local, d) || (Valid(sys.p.local, d) && d == sys.p.owner && !OtherValid(sys.p.local, d))
  }

  /** The last copy goes to the CPU, which is then the only device with one. The buffer it came from is freed only if
      it held slices. */
  lemma EvictLastCopy(sys: System, cur: seq<int>, order: seq<int>, d: int)
    requires Inv(sys, cur) && IsOrder(sys.p.gpus, order) && d != CPU_INDEX
    requires HasLast(sys, d) && HoldsWhole(sys.p.local, CPU_INDEX)
    ensures var r := Step(sys, order, EvictAt(d));
            && r.Some? && Wellformed(r.value) && r.value.p.owner == CPU_INDEX
                && r.value.b.buffer[CPU_INDEX] == Full(cur)
            && IsModified(r.value.p.local, CPU_INDEX)
            && (forall e | e in r.value.p.local && e != CPU_INDEX :: r.value.p.local[e] == Whole(Invalid))
            && r.value.b.buffer[d] == if HoldsParts(sys.p.local, d) then Empty else Full(cur)
  {
    LastIsEvicted(sys, cur, d);
    EvictRuns(sys, cur, order, d);
    LastBuffers(sys.p, sys.b, cur, order, d);
    WrittenToCpuShape(sys.p, d);
    CpuAlone(sys.p, d);
  }

  lemma LastBuffers(s: State, b: Buffers, cur: seq<int>, order: seq<int>, d: int)
    requires Typed(s) && KeyedBuffers(b, s.gpus) && IsOrder(s.gpus, order) && d in s.local && d != CPU_INDEX
    requires Dropped(s.local[d], false, Modified) && HoldsWhole(s.local, CPU_INDEX)
    requires s.local[d].Whole? ==> b.buffer[d] == Full(cur)
    ensures var r := Cleared(b.(buffer := b.buffer[CPU_INDEX := Full(cur)]),
                             EvictionList(s, order, CPU_INDEX, Modified, Some(d)));
            && KeyedBuffers(r, s.gpus) && r.buffer[CPU_INDEX] == Full(cur)
            && r.buffer[d] == if s.local[d].Parts? then Empty else Full(cur)
  {
    SourceBuffer(s, order, d);
    EvictedDevices(s, order, CPU_INDEX, Modified, Some(d), CPU_INDEX);
  }

  lemma CpuAlone(s: State, d: int)
    requires Typed(s) && d in s.local && CPU_INDEX in s.local && SoleCopy(WrittenToCpu(s, d), CPU_INDEX)
    ensures var t := WrittenToCpu(s, d);
            && t.owner == CPU_INDEX && IsModified(t.local, CPU_INDEX)
            && forall e | e in t.local && e != CPU_INDEX :: t.local[e] == Whole(Invalid)
  {
  }

  lemma EvictRuns(sys: System, cur: seq<int>, order: seq<int>, d: int)
    requires Inv(sys, cur) && IsOrder(sys.p.gpus, order) && d in sys.p.local && d != CPU_INDEX
    requires EvictsLastCopy(sys.p, d) && Dropped(sys.p.local[d], false, Modified) && HoldsWhole(sys.p.local, CPU_INDEX)
    ensures Step(sys, order, EvictAt(d))
            == Some(System(WrittenToCpu(sys.p, d),
                           Cleared(sys.b.(buffer := sys.b.buffer[CPU_INDEX := Full(cur)]),
                                   EvictionList(sys.p, order, CPU_INDEX, Modified, Some(d)))))
  {
    InvReady(sys, cur);
    WriteBackGathers(sys.p, sys.b, order, CPU_INDEX, Modified, Some(d), sys.p.owner, cur, None);
    EvictOutcome(sys, order, d);
    Executes(sys.b, sys.p.gpus, WrittenToCpu(sys.p, d), WriteBack(sys.p, order, CPU_INDEX, Modified, Some(d)).ops, None,
             Cleared(sys.b.(buffer := sys.b.buffer[CPU_INDEX := Full(cur)]),
                     EvictionList(sys.p, order, CPU_INDEX, Modified, Some(d))));
  }

  lemma EvictOutcome(sys: System, order: seq<int>, d: int)
    requires Wellformed(sys) && IsOrder(sys.p.gpus, order) && d in sys.p.local && d != CPU_INDEX
    requires EvictsLastCopy(sys.p, d) && CPU_INDEX in sys.p.local
    requires WriteBack(sys.p, order, CPU_INDEX, Modified, Some(d)).Done?
    requires WriteBack(sys.p, order, CPU_INDEX, Modified, Some(d)).state == WrittenBack(sys.p, CPU_INDEX, Modified)
    ensures Step(sys, order, EvictAt(d))
            == Execute(sys.b, sys.p.gpus,
                       Done(WrittenToCpu(sys.p, d), WriteBack(sys.p, order, CPU_INDEX, Modified, Some(d)).ops), None)
  {
  }

  lemma LastIsEvicted(sys: System, cur: seq<int>, d: int)
    requires Inv(sys, cur) && HasLast(sys, d)
    ensures EvictsLastCopy(sys.p, d) && Dropped(sys.p.local[d], false, Modified)
    ensures Valid(sys.p.local, d) ==> sys.b.buffer[d] == Full(cur)
  {
    if Valid(sys.p.local, d) {
      SharedBeside(sys, cur, d);
    }
  }

  /** The evicted device is in the list only for its slices: one entry is taken out again. */
  lemma SourceBuffer(s: State, order: seq<int>, d: int)
    requires Keyed(s) && IsOrder(s.gpus, order) && d in s.local && d != CPU_INDEX && CPU_INDEX in s.local
    requires Dropped(s.local[d], false, Modified)
    ensures d in EvictionList(s, order, CPU_INDEX, Modified, Some(d)) <==> s.local[d].Parts?
  {
    EvictedDevices(s, order, CPU_INDEX, Modified, Some(d), d);
    if s.local[d].Whole? {
      var evictions, holders := Evictions(s, Devices(s.gpus), CPU_INDEX, Modified), Holders(s, order);
      OnceEvicted(s, Devices(s.gpus), CPU_INDEX, Modified, d);
      DeviceOnce(s.gpus, d);
      RemovedOnce(evictions + holders, d);
      assert d !in holders && multiset(evictions + holders)[d] == multiset(evictions)[d];
    }
  }

  lemma {:induction false} OnceEvicted(s: State, ids: seq<int>, dst: int, target: Msi, d: int)
    requires forall e | e in ids :: e in s.local
    ensures multiset(Evictions(s, ids, dst, target))[d] <= multiset(ids)[d]
  {
    if ids != [] {
      assert ids == ids[..|ids| - 1] + [ids[|ids| - 1]];
      OnceEvicted(s, ids[..|ids| - 1], dst, target, d);
    }
  }

  lemma DeviceOnce(gpus: nat, d: int)
    ensures multiset(Devices(gpus))[d] <= 1
  {
    forall i, j | 0 <= i < j < |Devices(gpus)| ensures Devices(gpus)[i] != Devices(gpus)[j] {
      DevicesDiffer(gpus, i, j);
    }
    DistinctOnce(Devices(gpus), d);
  }

  lemma {:induction false} DistinctOnce(ids: seq<int>, d: int)
    requires forall i, j | 0 <= i < j < |ids| :: ids[i] != ids[j]
    ensures multiset(ids)[d] <= 1
  {
    if ids != [] {
      assert ids == ids[..|ids| - 1] + [ids[|ids| - 1]];
      DistinctOnce(ids[..|ids| - 1], d);
      assert ids[|ids| - 1] == d ==> d !in ids[..|ids| - 1];
    }
  }

  lemma {:induction false} RemovedOnce(ids: seq<int>, d: int)
    requires multiset(ids)[d] <= 1
    ensures d !in RemoveFirst(ids, d)
  {
    if ids != [] {
      assert ids == [ids[0]] + ids[1..];
      if ids[0] == d {
        assert d !in multiset(ids[1..]);
      } else {
        RemovedOnce(ids[1..], d);
      }
    }
  }

  /** Whether a copy is there after an eviction that does not raise. It is exactly at the owner, when that is the CPU or
      has another copy beside it. A buffer with the whole array is freed exactly at devices that are not the owner. */
  lemma EvictExactly(sys: System, cur: seq<int>, order: seq<int>, d: int)
    requires Inv(sys, cur) && IsOrder(sys.p.gpus, order) && d in sys.p.local && Step(sys, order, EvictAt(d)).Some?
    ensures var r := Step(sys, order, EvictAt(d)).value;
            && Wellformed(r)
            && (Valid(r.p.local, d)
                <==> Valid(sys.p.local, d) && d == sys.p.owner && (d == CPU_INDEX || OtherValid(sys.p.local, d)))
            && (Valid(sys.p.local, d) ==> (r.b.buffer[d].Empty? <==> d != sys.p.owner))
            && (HoldsParts(sys.p.local, d) ==> (r.b.buffer[d].Empty? <==> d != CPU_INDEX))
  {
    EvictKind(sys, cur, order, d);
    if HasLast(sys, d) && d != CPU_INDEX {
      EvictLastCopy(sys, cur, order, d);
    } else if Valid(sys.p.local, d) && d != sys.p.owner {
      EvictShared(sys, order, d);
    } else {
      EvictNothing(sys, cur, order, d);
    }
  }

  lemma EvictKind(sys: System, cur: seq<int>, order: seq<int>, d: int)
    requires Inv(sys, cur) && IsOrder(sys.p.gpus, order) && d in sys.p.local && Step(sys, order, EvictAt(d)).Some?
    ensures HasLast(sys, d) && d != CPU_INDEX ==> HoldsWhole(sys.p.local, CPU_INDEX)
    ensures Valid(sys.p.local, d) && d != sys.p.owner ==> sys.p.local[d] == Whole(Shared)
    ensures Valid(sys.p.local, d) ==> sys.b.buffer[d] == Full(cur)
    ensures HoldsParts(sys.p.local, d) ==> sys.b.buffer[d].Subarrays?
  {
    if HasLast(sys, d) {
      LastIsEvicted(sys, cur, d);
    }
    if HasLast(sys, d) && d != CPU_INDEX {
      EvictRaisesThere(sys, order, d);
    }
    if HoldsParts(sys.p.local, d) {
      assert PartsMatch(sys.p.local[d], sys.b.buffer[d], sys.b.index[d], cur);
    }
    assert Valid(sys.p.local, d) && d != sys.p.owner ==> !IsModified(sys.p.local, d);
  }

  lemma EvictRaisesThere(sys: System, order: seq<int>, d: int)
    requires Wellformed(sys) && IsOrder(sys.p.gpus, order) && d in sys.p.local
    requires EvictsLastCopy(sys.p, d) && d != CPU_INDEX && Step(sys, order, EvictAt(d)).Some?
    ensures HoldsWhole(sys.p.local, CPU_INDEX)
  {
  }

  // ---- read ----

  /** A whole read at a device with a copy moves nothing. */
  lemma ReadInPlace(sys: System, cur: seq<int>, order: seq<int>, d: int, view: Option<View>)
    requires Inv(sys, cur) && IsOrder(sys.p.gpus, order) && Valid(sys.p.local, d) && UsesWhole(sys.p, d, view)
    ensures Step(sys, order, ReadAt(d, view)) == Some(sys.(p := sys.p.(complete := sys.p.complete[d := Some(true)])))
  {
    ReadBranch(sys, order, d, view);
    RunNoop(sys.b, sys.p.gpus, view);
  }

  /** Otherwise it brings one there. Every other copy, slice and buffer stays. */
  lemma ReadBringsCopy(sys: System, cur: seq<int>, order: seq<int>, d: int, view: Option<View>)
    requires Inv(sys, cur) && IsOrder(sys.p.gpus, order) && HoldsWhole(sys.p.local, d) && !Valid(sys.p.local, d)
    requires UsesWhole(sys.p, d, view)
    ensures var r := Step(sys, order, ReadAt(d, view));
            && r.Some? && Valid(r.value.p.local, d)
            && r.value.b == sys.b.(buffer := sys.b.buffer[d := Full(cur)])
            && (forall e | e != d :: Valid(r.value.p.local, e) <==> Valid(sys.p.local, e))
            && (forall e :: HoldsParts(r.value.p.local, e) <==> HoldsParts(sys.p.local, e))
  {
    ReadBranch(sys, order, d, view);
    WholeFetchExecutes(sys, cur, order, d, view);
    WholeFetchedShape(sys.p, d);
    WholeFetchedOutside(sys.p, d);
    OthersStay(sys.p, WholeFetched(sys.p, d), d);
  }

  lemma OthersStay(s: State, t: State, d: int)
    requires SameOutside(s, t, d)
    ensures forall e | e != d :: Valid(t.local, e) <==> Valid(s.local, e)
    ensures forall e :: HoldsParts(t.local, e) <==> HoldsParts(s.local, e)
  {
    forall e | e != d ensures Valid(t.local, e) <==> Valid(s.local, e) {
      assert HoldsWhole(t.local, e) <==> HoldsWhole(s.local, e);
    }
    forall e ensures HoldsParts(t.local, e) <==> HoldsParts(s.local, e) {}
  }

  /** Who is the owner after a whole read brought a copy to another device. The owner stays exactly if its copy is
      valid, it is a GPU, and it is one of GPU 0, 2 and so on or the reader is not. */
  lemma OwnerAfterRead(sys: System, cur: seq<int>, order: seq<int>, d: int)
    requires Inv(sys, cur) && IsOrder(sys.p.gpus, order) && HoldsWhole(sys.p.local, d) && d != sys.p.owner
    requires !Valid(sys.p.local, d)
    ensures var r := Step(sys, order, ReadAt(d, None));
            && r.Some?
            && r.value.p.owner == if Valid(sys.p.local, sys.p.owner) && sys.p.owner != CPU_INDEX
                                     && (sys.p.owner % 2 == 0 || d % 2 != 0) then sys.p.owner else d
  {
    ReadBranch(sys, order, d, None);
    WholeFetchExecutes(sys, cur, order, d, None);
    assert Number(sys.p.version, sys.p.owner) == sys.p.latest <==> Valid(sys.p.local, sys.p.owner);
  }

  // ---- write ----

  /** A write-back for writing drops every other copy and all slices, and frees their buffers. */
  lemma OthersEvicted(s: State, b: Buffers, order: seq<int>, d: int, cur: seq<int>, e: int)
    requires Keyed(s) && IsOrder(s.gpus, order) && KeyedBuffers(b, s.gpus) && d in s.local && e in s.local && e != d
    ensures var r := Cleared(b.(buffer := b.buffer[d := Full(cur)]), EvictionList(s, order, d, Modified, None));
            e in r.buffer && r.buffer[e] == if Valid(s.local, e) || HoldsParts(s.local, e) then Empty else b.buffer[e]
  {
    EvictedDevices(s, order, d, Modified, None, e);
  }

  /** The buffers of `before` with the other copies and slices dropped. */
  ghost predicate OthersFreed(local: map<int, Local>, before: Buffers, after: Buffers, d: int) {
    forall e | e in local && e != d :: e in before.buffer && e in after.buffer
      && after.buffer[e] == if Valid(local, e) || HoldsParts(local, e) then Empty else before.buffer[e]
  }

  lemma ClaimFrees(sys: System, cur: seq<int>, order: seq<int>, d: int, view: Option<View>)
    requires Inv(sys, cur) && IsOrder(sys.p.gpus, order) && HoldsWhole(sys.p.local, d) && !IsModified(sys.p.local, d)
    requires !Valid(sys.p.local, d) || d == sys.p.owner
    ensures var r := Execute(sys.b, sys.p.gpus, WriteWhole(sys.p, order, d), view);
            r.Some? && r.value.p == WholeClaimed(sys.p, d) && OthersFreed(sys.p.local, sys.b, r.value.b, d)
  {
    var b1 := ClaimExecutes(sys, cur, order, d, view);
    forall e | e in sys.p.local && e != d
      ensures e in sys.b.buffer && e in b1.buffer
              && b1.buffer[e] == if Valid(sys.p.local, e) || HoldsParts(sys.p.local, e) then Empty else sys.b.buffer[e]
    {
      OthersEvicted(sys.p.(complete := sys.p.complete[d := Some(true)]), sys.b, order, d, cur, e);
    }
  }

  lemma SharedClaimExecutes(sys: System, cur: seq<int>, order: seq<int>, d: int, view: Option<View>)
    returns (b1: Buffers)
    requires Inv(sys, cur) && IsOrder(sys.p.gpus, order) && Valid(sys.p.local, d)
    requires !IsModified(sys.p.local, d) && d != sys.p.owner
    ensures Execute(sys.b, sys.p.gpus, WriteWhole(sys.p, order, d), view) == Some(System(WholeClaimed(sys.p, d), b1))
    ensures var s2 := Bumped(sys.p.(complete := sys.p.complete[d := Some(true)]), d).(owner := d);
            && Keyed(s2)
            && b1 == Cleared(sys.b.(buffer := sys.b.buffer[d := Full(cur)]), EvictionList(s2, order, d, Modified, None))
  {
    var s2 := Bumped(sys.p.(complete := sys.p.complete[d := Some(true)]), d).(owner := d);
    InvReady(sys, cur);
    BumpedIsTop(sys, cur, d);
    WriteBackGathers(s2, sys.b, order, d, Modified, None, d, cur, view);
    BumpedBefore(sys.p, d);
    b1 := Cleared(sys.b.(buffer := sys.b.buffer[d := Full(cur)]), EvictionList(s2, order, d, Modified, None));
    Executes(sys.b, sys.p.gpus, WholeClaimed(sys.p, d), WriteBack(s2, order, d, Modified, None).ops, view, b1);
  }

  lemma SharedClaimFrees(sys: System, cur: seq<int>, order: seq<int>, d: int, view: Option<View>)
    requires Inv(sys, cur) && IsOrder(sys.p.gpus, order) && Valid(sys.p.local, d)
    requires !IsModified(sys.p.local, d) && d != sys.p.owner
    ensures var r := Execute(sys.b, sys.p.gpus, WriteWhole(sys.p, order, d), view);
            r.Some? && r.value.p == WholeClaimed(sys.p, d) && OthersFreed(sys.p.local, sys.b, r.value.b, d)
  {
    var b1 := SharedClaimExecutes(sys, cur, order, d, view);
    var s2 := Bumped(sys.p.(complete := sys.p.complete[d := Some(true)]), d).(owner := d);
    forall e | e in sys.p.local && e != d
      ensures e in sys.b.buffer && e in b1.buffer
              && b1.buffer[e] == if Valid(sys.p.local, e) || HoldsParts(sys.p.local, e) then Empty else sys.b.buffer[e]
    {
      OthersEvicted(s2, sys.b, order, d, cur, e);
    }
  }

  /** A whole write at a device without the modified copy leaves one copy, its own, and it is the owner then. Every
      other copy and all slices are gone, and so are their buffers. */
  lemma WriteLeavesOneCopy(sys: System, cur: seq<int>, order: seq<int>, d: int, view: Option<View>, values: seq<int>)
    requires Inv(sys, cur) && IsOrder(sys.p.gpus, order) && !IsModified(sys.p.local, d)
    requires d in sys.p.local && Guard(sys, cur, WriteAt(d, view, values)) && UsesWhole(sys.p, d, view)
    ensures var r := Step(sys, order, WriteAt(d, view, values));
            && r.Some? && r.value.p.owner == d && r.value.p.local[d] == Whole(Modified)
            && (forall e | e in sys.p.local && e != d :: e in r.value.p.local && r.value.p.local[e] == Whole(Invalid))
            && OthersFreed(sys.p.local, sys.b, r.value.b, d)
  {
    var ev := WriteAt(d, view, values);
    WriteWholeRefines(sys, cur, order, ev);
    WholeAccess(sys, order, ev);
    if Valid(sys.p.local, d) && d != sys.p.owner {
      SharedClaimFrees(sys, cur, order, d, view);
    } else {
      ClaimFrees(sys, cur, order, d, view);
    }
    WholeClaimedShape(sys.p, d);
    StoredElsewhere(sys, order, ev);
  }

  lemma StoredElsewhere(sys: System, order: seq<int>, ev: Event)
    requires Wellformed(sys) && IsOrder(sys.p.gpus, order) && ev.WriteAt? && ev.d in sys.p.local
    requires Step(sys, order, ev).Some?
    ensures var seen, r := Accessed(sys, order, ev), Step(sys, order, ev);
            && seen.Some? && r.value.p == seen.value.p
            && forall e | e in seen.value.b.buffer && e != ev.d ::
                 e in r.value.b.buffer && r.value.b.buffer[e] == seen.value.b.buffer[e]
  {
  }

  /** A write at the device with the modified copy moves nothing. */
  lemma WriteInPlace(sys: System, cur: seq<int>, order: seq<int>, d: int, view: Option<View>, values: seq<int>)
    requires Inv(sys, cur) && IsOrder(sys.p.gpus, order) && IsModified(sys.p.local, d)
    requires Guard(sys, cur, WriteAt(d, view, values)) && UsesWhole(sys.p, d, view)
    ensures Step(sys, order, WriteAt(d, view, values))
            == Some(System(sys.p.(complete := sys.p.complete[d := Some(true)]),
                           sys.b.(buffer := sys.b.buffer[d := Full(Applied(cur, WriteAt(d, view, values)))])))
  {
    var ev := WriteAt(d, view, values);
    WholeAccess(sys, order, ev);
    RunNoop(sys.b, sys.p.gpus, view);
    assert Valid(sys.p.local, d);
    StoreWhole(sys, cur, order, ev, Accessed(sys, order, ev).value);
  }

  // ---- slices ----

  /** A slice read changes nothing at other devices. */
  lemma SliceReadStays(sys: System, cur: seq<int>, order: seq<int>, d: int, v: View)
    requires Inv(sys, cur) && IsOrder(sys.p.gpus, order) && d in sys.p.local && sys.p.complete[d] != Some(true)
    requires CanAccessPart(sys, cur, d, v)
    ensures var r := Step(sys, order, ReadAt(d, Some(v)));
            r.Some? && Wellformed(r.value) && SameElsewhere(sys, r.value, d)
  {
    ReadPartStep(sys, cur, order, d, v);
    if PartState(sys.p, d, v).Invalid? {
      LoadExecutes(sys, cur, d, v, PartRead(sys.p, d, v));
    } else {
      OpenedAgain(sys.p, d);
      RunNoop(sys.b, sys.p.gpus, Some(v));
    }
  }

  /** The other devices' slices are as they were. */
  ghost predicate SameSlices(sys: System, next: System, d: int) {
    forall e | HoldsParts(sys.p.local, e) && e != d ::
      && e in next.p.local && next.p.local[e] == sys.p.local[e]
      && e in sys.b.buffer && e in next.b.buffer && next.b.buffer[e] == sys.b.buffer[e]
  }

  /** The other whole copies are invalid, and of their buffers only the owner's is kept. */
  ghost predicate WholesFreed(sys: System, next: System) {
    forall e | HoldsWhole(sys.p.local, e) ::
      && e in next.p.local && next.p.local[e] == Whole(Invalid)
      && e in sys.b.buffer && e in next.b.buffer
      && next.b.buffer[e] == if e == sys.p.owner then sys.b.buffer[e] else Empty
  }

  lemma UpgradeFrees(sys: System, cur: seq<int>, d: int, v: View)
    requires Inv(sys, cur) && HoldsParts(sys.p.local, d) && v in sys.p.local[d].states
    ensures var next := System(PartUpgraded(sys.p, d, v), Cleared(sys.b, OtherWholes(sys.p, Devices(sys.p.gpus))));
            WholesFreed(sys, next) && SameSlices(sys, next, d)
  {
    PartUpgradedShape(sys.p, d, v);
    var t := PartUpgraded(sys.p, d, v);
    forall e | HoldsWhole(sys.p.local, e) ensures e in t.local && t.local[e] == Whole(Invalid) {
      assert HoldsWhole(t.local, e) && !Valid(t.local, e);
    }
    forall e | HoldsParts(sys.p.local, e) && e != d ensures e in t.local && t.local[e] == sys.p.local[e] {
      assert HoldsParts(t.local, e);
    }
  }

  lemma PartAccess(sys: System, order: seq<int>, d: int, v: View, values: seq<int>)
    requires Wellformed(sys) && IsOrder(sys.p.gpus, order) && d in sys.p.local && sys.p.complete[d] != Some(true)
    ensures var ev, r := WriteAt(d, Some(v), values),
            Execute(sys.b, sys.p.gpus, WritePart(sys.p, order, d, v), Some(v));
            && Accessed(sys, order, ev) == r
            && (r.Some? && Seen(r.value.b, d, Some(v)).Some? && |Seen(r.value.b, d, Some(v)).value| == |values|
                ==> Step(sys, order, ev).Some?)
  {
  }

  lemma UpgradeAccess(sys: System, cur: seq<int>, order: seq<int>, d: int, v: View, values: seq<int>)
    requires Inv(sys, cur) && IsOrder(sys.p.gpus, order) && d in sys.p.local && sys.p.complete[d] != Some(true)
    requires CanAccessPart(sys, cur, d, v) && |values| == |v.positions| && PartState(sys.p, d, v).Shared?
    ensures Accessed(sys, order, WriteAt(d, Some(v), values))
            == Execute(sys.b, sys.p.gpus, WritePart(sys.p, order, d, v), Some(v))
    ensures Step(sys, order, WriteAt(d, Some(v), values)).Some?
  {
    WritePartStep(sys, cur, order, d, v, values);
    PartAccess(sys, order, d, v, values);
  }

  lemma FreedAfterStore(sys: System, seen: System, next: System, d: int)
    requires WholesFreed(sys, seen) && SameSlices(sys, seen, d) && HoldsParts(sys.p.local, d)
    requires next.p == seen.p
    requires forall e | e in seen.b.buffer && e != d :: e in next.b.buffer && next.b.buffer[e] == seen.b.buffer[e]
    ensures WholesFreed(sys, next) && SameSlices(sys, next, d)
  {
  }

  /** A store into a slice that was only read so far: all whole copies are invalid then, and only the owner's buffer
      is kept. */
  lemma SliceUpgradeFrees(sys: System, cur: seq<int>, order: seq<int>, d: int, v: View, values: seq<int>)
    requires Inv(sys, cur) && IsOrder(sys.p.gpus, order) && d in sys.p.local && sys.p.complete[d] != Some(true)
    requires CanAccessPart(sys, cur, d, v) && |values| == |v.positions| && PartState(sys.p, d, v).Shared?
    ensures var r := Step(sys, order, WriteAt(d, Some(v), values));
            r.Some? && WholesFreed(sys, r.value) && SameSlices(sys, r.value, d)
  {
    var ev := WriteAt(d, Some(v), values);
    UpgradeAccess(sys, cur, order, d, v, values);
    UpgradeExecutes(sys, order, d, v);
    StoredElsewhere(sys, order, ev);
    UpgradeFrees(sys, cur, d, v);
    FreedAfterStore(sys, Accessed(sys, order, ev).value, Step(sys, order, ev).value, d);
  }

  /** A store into a new slice changes no other slice and no other buffer; only the owner's copy is no longer valid. */
  lemma SliceClaimStays(sys: System, cur: seq<int>, order: seq<int>, d: int, v: View, values: seq<int>)
    requires Inv(sys, cur) && IsOrder(sys.p.gpus, order) && d in sys.p.local && sys.p.complete[d] != Some(true)
    requires CanAccessPart(sys, cur, d, v) && |values| == |v.positions| && PartState(sys.p, d, v).Invalid?
    ensures var r := Step(sys, order, WriteAt(d, Some(v), values));
            r.Some? ==>
              && r.value.p.local == sys.p.local[d := r.value.p.local[d]][sys.p.owner := Whole(Invalid)]
              && r.value.b.buffer == sys.b.buffer[d := r.value.b.buffer[d]]
  {
    LoadExecutes(sys, cur, d, v, PartClaimed(sys.p, d, v));
  }
}
