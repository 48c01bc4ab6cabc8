/**
 How exact the guards of OneArrayTheorem are. Each lemma takes one clause and shows, for all states and inputs,
 that without it the access raises or a later read sees old data.
 */
module OneArrayLimits {
  import opened Wrappers
  import opened Protocol
  import opened Buffers
  import opened OneArray
  import opened OneArraySteps
  import opened OneArrayParts
  import opened OneArrayTheorem
  import opened OneArrayRuns
  import opened OneArrayScatter

  /** Evicting with `keep_one_copy` raises exactly when the last copy would go to a CPU that holds parts: the
      CPU's version is then a dictionary. */
  lemma EvictRaises(sys: System, cur: seq<int>, order: seq<int>, d: int)
    requires Inv(sys, cur) && IsOrder(sys.p.gpus, order) && d in sys.p.local
    ensures Step(sys, order, EvictAt(d)).None?
            <==> EvictsLastCopy(sys.p, d) && d != CPU_INDEX && HoldsParts(sys.p.local, CPU_INDEX)
  {
    if EvictsLastCopy(sys.p, d) && d != CPU_INDEX && HoldsParts(sys.p.local, CPU_INDEX) {
      assert sys.p.version[CPU_INDEX].Each?;
    } else {
      assert EvictsLastCopy(sys.p, d) && d != CPU_INDEX ==> HoldsWhole(sys.p.local, CPU_INDEX);
      EvictStep(sys, cur, order, d);
    }
  }

  /** A subarray access at the owner raises exactly when the owner is not marked complete. The CPU is such an
      owner after an eviction: `evict` marks the evicted device instead. */
  lemma PartAtOwnerRaises(sys: System, cur: seq<int>, order: seq<int>, v: View, values: seq<int>)
    requires Inv(sys, cur) && IsOrder(sys.p.gpus, order) && Fits(v.positions, |cur|) && |values| == |v.positions|
    ensures Accessed(sys, order, ReadAt(sys.p.owner, Some(v))).None? <==> sys.p.complete[sys.p.owner] != Some(true)
    ensures Accessed(sys, order, WriteAt(sys.p.owner, Some(v), values)).None?
            <==> sys.p.complete[sys.p.owner] != Some(true)
  {
    var owner := sys.p.owner;
    if sys.p.complete[owner] == Some(true) {
      ReadWholeStep(sys, cur, order, owner, Some(v));
      WholeClaimOrNoop(sys, cur, order, owner, Some(v));
    } else {
      assert PartState(sys.p, owner, v).Invalid?;
      assert Opened(sys.p, owner).version[owner].Each?;
    }
  }

  lemma WholeClaimOrNoop(sys: System, cur: seq<int>, order: seq<int>, d: int, view: Option<View>)
    requires Inv(sys, cur) && IsOrder(sys.p.gpus, order) && HoldsWhole(sys.p.local, d)
    ensures Execute(sys.b, sys.p.gpus, WriteWhole(sys.p, order, d), view).Some?
  {
    if IsModified(sys.p.local, d) {
      RunNoop(sys.b, sys.p.gpus, view);
    } else if Valid(sys.p.local, d) && d != sys.p.owner {
      ClaimFromShared(sys, cur, order, d, view);
    } else {
      ClaimDirectly(sys, cur, order, d, view);
    }
  }

  /** Loading a new part works exactly if no old whole buffer was left behind at the device. */
  lemma LoadNeedsRoom(sys: System, cur: seq<int>, d: int, v: View, p: State)
    requires Inv(sys, cur) && d in sys.p.local && d != sys.p.owner && PartState(sys.p, d, v).Invalid?
    requires Fits(v.positions, |cur|) && Distinct(v.positions)
    requires forall x | x in v.positions :: !Covered(sys.b.index, x)
    ensures Execute(sys.b, sys.p.gpus, Done(p, [Load(d, sys.p.owner, true)]), Some(v)).None? <==> sys.b.buffer[d].Full?
  {
    assert HoldsWhole(sys.p.local, sys.p.owner);
    if sys.b.buffer[d].Full? {
      var op := Load(d, sys.p.owner, true);
      var b1 := SetMapping(sys.b, d, v);
      assert LastView(b1.index[d]) == Some(v);
      assert b1.index[sys.p.owner].None?;
      assert RunOp(sys.b, sys.p.gpus, op, Some(v)).None?;
      RunSingle(sys.b, sys.p.gpus, op, Some(v));
    } else {
      assert HoldsWhole(sys.p.local, d) || HoldsParts(sys.p.local, d);
      assert CanAccessPart(sys, cur, d, v);
      LoadExecutes(sys, cur, d, v, p);
    }
  }

  /** A first subarray access at a device whose old whole buffer was left behind raises, and only there. */
  lemma StaleBufferRaises(sys: System, cur: seq<int>, order: seq<int>, d: int, v: View, values: seq<int>)
    requires Inv(sys, cur) && IsOrder(sys.p.gpus, order) && d in sys.p.local && d != sys.p.owner
    requires sys.p.complete[d] != Some(true) && PartState(sys.p, d, v).Invalid?
    requires Fits(v.positions, |cur|) && Distinct(v.positions)
    requires forall x | x in v.positions :: !Covered(sys.b.index, x)
    ensures Accessed(sys, order, ReadAt(d, Some(v))).None? <==> sys.b.buffer[d].Full?
    ensures Accessed(sys, order, WriteAt(d, Some(v), values)).None? <==> sys.b.buffer[d].Full?
  {
    LoadNeedsRoom(sys, cur, d, v, PartRead(sys.p, d, v));
    LoadNeedsRoom(sys, cur, d, v, PartClaimed(sys.p, d, v));
    NewPartLoads(sys, order, d, v);
  }

  lemma NewPartLoads(sys: System, order: seq<int>, d: int, v: View)
    requires Wellformed(sys) && IsOrder(sys.p.gpus, order) && d in sys.p.local && d != sys.p.owner
    requires sys.p.complete[d] != Some(true) && PartState(sys.p, d, v).Invalid?
    ensures Read(sys.p, order, d, Some(v)) == Done(PartRead(sys.p, d, v), [Load(d, sys.p.owner, true)])
    ensures Write(sys.p, order, d, Some(v)) == Done(PartClaimed(sys.p, d, v), [Load(d, sys.p.owner, true)])
  {
  }

  // ---- update ----

  /** What a whole read at `d` then sees; `None` if it raises. */
  function ReadNext(sys: System, order: seq<int>, d: int): Option<seq<int>>
    requires Wellformed(sys) && IsOrder(sys.p.gpus, order) && d in sys.p.local
  {
    match Accessed(sys, order, ReadAt(d, None))
    case None => None
    case Some(r) => Seen(r.b, d, None)
  }

  lemma InitialShape(gpus: nat, owner: int)
    requires CPU_INDEX <= owner < gpus
    ensures var s := Initial(gpus, owner);
            && Typed(s) && OnlyOwner(s, owner)
  {
  }

  lemma SharedEvictsNothing(s: State, ids: seq<int>, dst: int)
    requires forall d | d in ids :: d in s.local
    ensures Evictions(s, ids, dst, Shared) == []
  {
    if ids != [] {
      assert ids == ids[..|ids| - 1] + [ids[|ids| - 1]];
      SharedEvictsNothing(s, ids[..|ids| - 1], dst);
    }
  }

  /** Only `owner` has data, and no device holds parts. */
  ghost predicate OnlyOwner(s: State, owner: int) {
    && NoParts(s.local) && HoldsWhole(s.local, owner) && Number(s.version, owner) == 0
    && forall d | HoldsWhole(s.local, d) && d != owner :: Number(s.version, d) == -1
  }

  lemma OnlyOwnerIsLatest(s: State, owner: int)
    requires Keyed(s) && OnlyOwner(s, owner)
    ensures LatestCopy(s, Devices(s.gpus)) == Some(owner)
  {
    LatestIsTop(s, owner);
  }

  lemma WholesHoldNothing(s: State, order: seq<int>)
    requires Keyed(s) && NoParts(s.local) && IsOrder(s.gpus, order)
    ensures Holders(s, order) == []
  {
    forall i | 0 <= i < |order| ensures order[i] in s.local && s.local[order[i]].Whole? {
      assert !HoldsParts(s.local, order[i]);
    }
    NoHolders(s, order);
  }

  lemma ReadingBack(s: State, order: seq<int>, e: int)
    requires Keyed(s) && IsOrder(s.gpus, order) && e in s.local && s.version[e].At?
    requires LatestCopy(s, Devices(s.gpus)).Some?
    ensures WriteBack(s, order, e, Shared, None) == Done(WrittenBack(s, e, Shared), Loads(e, Sources(s, order, e)))
  {
    ReadersEvictNobody(s, order, e);
    WriteBackDone(s, order, e, Shared, None);
    var loads := Loads(e, Sources(s, order, e));
    assert loads + Evicts([]) == loads;
  }

  lemma ReadersEvictNobody(s: State, order: seq<int>, e: int)
    requires Keyed(s) && IsOrder(s.gpus, order)
    ensures EvictionList(s, order, e, Shared, None) == []
  {
    SharedEvictsNothing(s, Devices(s.gpus), e);
  }

  /** A write-back for reading with no parts around: one load if some copy is newer, and nothing is evicted. */
  lemma LoadsIfStale(s: State, src: int, order: seq<int>, e: int)
    requires Keyed(s) && IsOrder(s.gpus, order) && e in s.local && s.version[e].At?
    requires Holders(s, order) == [] && LatestCopy(s, Devices(s.gpus)) == Some(src)
    ensures WriteBack(s, order, e, Shared, None)
            == Done(WrittenBack(s, e, Shared),
                    if Number(s.version, e) < Number(s.version, src) then [Load(e, src, false)] else [])
  {
    ReadingBack(s, order, e);
    LoadsOne(e, src);
    assert Sources(s, order, e) == (if Number(s.version, e) < Number(s.version, src) then [src] else []) + [];
  }

  lemma LoadsOne(e: int, src: int)
    ensures Loads(e, [src] + []) == [Load(e, src, false)] && Loads(e, [] + []) == []
  {
  }

  lemma FetchFromOwner(s: State, owner: int, order: seq<int>, e: int)
    requires Keyed(s) && OnlyOwner(s, owner) && IsOrder(s.gpus, order) && e in s.local && e != owner
    ensures WriteBack(s, order, e, Shared, None) == Done(WrittenBack(s, e, Shared), [Load(e, owner, false)])
  {
    WholesHoldNothing(s, order);
    OnlyOwnerIsLatest(s, owner);
    assert !HoldsParts(s.local, e) && HoldsWhole(s.local, e);
    LoadsIfStale(s, owner, order, e);
  }

  /** After a reset the first read elsewhere is a single load from the new owner. */
  lemma InitialFetch(gpus: nat, owner: int, order: seq<int>, e: int)
    requires CPU_INDEX <= owner < gpus && CPU_INDEX <= e < gpus && e != owner && IsOrder(gpus, order)
    ensures Typed(Initial(gpus, owner))
    ensures var outcome := Read(Initial(gpus, owner), order, e, None);
            outcome.Done? && outcome.ops == [Load(e, owner, false)]
  {
    InitialShape(gpus, owner);
    var s := Initial(gpus, owner);
    FetchFromOwner(s.(complete := s.complete[e := Some(true)]), owner, order, e);
    assert Read(s, order, e, None) == ReadWhole(s, order, e);
  }

  /** After `update` at `d`, a whole read sees the new data at every device except those that held parts: their
      index map survives, and the read extracts a part of the new data or raises. */
  lemma ReadsAfterUpdate(sys: System, cur: seq<int>, d: int, data: seq<int>, order: seq<int>, e: int)
    requires Inv(sys, cur) && IsOrder(sys.p.gpus, order) && d in sys.p.local && e in sys.p.local
    ensures Wellformed(Updated(sys, d, data)) && e in Updated(sys, d, data).p.local
    ensures ReadNext(Updated(sys, d, data), order, e) == Some(data) <==> e == d || !HoldsParts(sys.p.local, e)
  {
    var b := Updated(sys, d, data).b;
    InitialShape(sys.p.gpus, d);
    if e == d {
      RunNoop(b, sys.p.gpus, None);
    } else {
      InitialFetch(sys.p.gpus, d, order, e);
      RunSingle(b, sys.p.gpus, Load(e, d, false), None);
      LoadAfterUpdate(sys, cur, d, data, e);
    }
  }

  /** What a read of the slice `v` at `d` then sees; `None` if it raises. */
  function ReadPartNext(sys: System, order: seq<int>, d: int, v: View): Option<seq<int>>
    requires Wellformed(sys) && IsOrder(sys.p.gpus, order) && d in sys.p.local
  {
    match Accessed(sys, order, ReadAt(d, Some(v)))
    case None => None
    case Some(r) => Seen(r.b, d, Some(v))
  }

  /** A slice read after `update` is right exactly at the new owner, at devices without a surviving index map, and
      for the first view of such a map: the new subarray is alone in its buffer, but found by its place in the map. */
  lemma PartReadsAfterUpdate(sys: System, cur: seq<int>, d: int, data: seq<int>, order: seq<int>, e: int, v: View)
    requires Inv(sys, cur) && IsOrder(sys.p.gpus, order) && d in sys.p.local && e in sys.p.local
    requires Fits(v.positions, |data|)
    ensures Wellformed(Updated(sys, d, data)) && e in Updated(sys, d, data).p.local && e in sys.b.index
    ensures ReadPartNext(Updated(sys, d, data), order, e, v) == Some(Gather(data, v.positions))
            <==> e == d || ViewsOf(sys.b.index[e]) == [] || ViewsOf(sys.b.index[e])[0] == v
  {
    var next := Updated(sys, d, data);
    InitialShape(sys.p.gpus, d);
    if e == d {
      RunNoop(next.b, sys.p.gpus, Some(v));
      assert next.b.index[d].None? && next.b.buffer[d] == Full(data);
    } else {
      assert PartState(next.p, e, v).Invalid?;
      NewPartLoads(next, order, e, v);
      RunSingle(next.b, sys.p.gpus, Load(e, d, true), Some(v));
      LoadPartAfterUpdate(next.b, sys.p.gpus, d, data, e, v);
    }
  }

  lemma LoadPartAfterUpdate(b: Buffers, gpus: nat, d: int, data: seq<int>, e: int, v: View)
    requires KeyedBuffers(b, gpus) && d in b.buffer && e in b.buffer && e != d && Fits(v.positions, |data|)
    requires b.index[d].None? && b.buffer[d] == Full(data) && b.buffer[e].Empty?
    ensures var r := RunOp(b, gpus, Load(e, d, true), Some(v));
            && r.Some?
            && (Seen(r.value, e, Some(v)) == Some(Gather(data, v.positions))
                <==> ViewsOf(b.index[e]) == [] || ViewsOf(b.index[e])[0] == v)
  {
    var b1 := SetMapping(b, e, v);
    var views := ViewsOf(b.index[e]);
    assert b1.index[e] == Some(views + [v]) && LastView(b1.index[e]) == Some(v);
    assert [] + [Gather(data, v.positions)] == [Gather(data, v.positions)];
    assert v in views + [v];
    assert (views + [v])[0] == if views == [] then v else views[0];
  }

  lemma LoadAfterUpdate(sys: System, cur: seq<int>, d: int, data: seq<int>, e: int)
    requires Inv(sys, cur) && d in sys.p.local && e in sys.p.local && e != d
    ensures var b := Updated(sys, d, data).b;
            && KeyedBuffers(b, sys.p.gpus)
            && var r := RunOp(b, sys.p.gpus, Load(e, d, false), None);
               if HoldsParts(sys.p.local, e) then r.None? || Seen(r.value, e, None).None?
               else r.Some? && Seen(r.value, e, None) == Some(data)
  {
    var b := Updated(sys, d, data).b;
    assert b.index[d].None? && b.buffer[e].Empty? && b.index[e] == sys.b.index[e];
    if HoldsParts(sys.p.local, e) {
      assert PartsMatch(sys.p.local[e], sys.b.buffer[e], sys.b.index[e], cur);
      assert LastView(b.index[e]).Some?;
    } else {
      assert HoldsWhole(sys.p.local, e);
    }
  }

  // ---- writes that leave old copies behind ----

  /** Subarray writes of a new part keep every whole copy but the owner's, so its data is right only if nothing
      was changed. */
  lemma ReadsOwnCopy(sys: System, order: seq<int>, e: int, cur: seq<int>)
    requires Wellformed(sys) && IsOrder(sys.p.gpus, order) && Valid(sys.p.local, e)
    requires sys.b.buffer[e] == Full(cur)
    ensures ReadNext(sys, order, e) == Some(cur)
  {
    RunNoop(sys.b, sys.p.gpus, None);
  }

  lemma OtherCopyStaysOld(sys: System, cur: seq<int>, order: seq<int>, d: int, v: View, values: seq<int>, e: int,
                          order': seq<int>)
    requires Inv(sys, cur) && IsOrder(sys.p.gpus, order) && IsOrder(sys.p.gpus, order')
    requires d in sys.p.local && sys.p.complete[d] != Some(true) && CanAccessPart(sys, cur, d, v)
    requires PartState(sys.p, d, v).Invalid? && |values| == |v.positions|
    requires Valid(sys.p.local, e) && e != sys.p.owner && e != d
    ensures var r := Step(sys, order, WriteAt(d, Some(v), values));
            && r.Some? && Wellformed(r.value) && r.value.p.gpus == sys.p.gpus && e in r.value.p.local
            && ReadNext(r.value, order', e) == Some(cur)
  {
    var claimed := System(PartClaimed(sys.p, d, v), PartAppended(sys.b, d, v, cur));
    NewPartStored(sys, cur, order, d, v, values);
    PartClaimedShape(sys.p, d, v);
    var stored := Stored(claimed.b, d, Some(v), values);
    assert stored.buffer[e] == Full(cur);
    assert claimed.p.local[e] == sys.p.local[e];
    ReadsOwnCopy(System(claimed.p, stored), order', e, cur);
  }

  /** The state after a store into a newly loaded part. */
  lemma NewPartStored(sys: System, cur: seq<int>, order: seq<int>, d: int, v: View, values: seq<int>)
    requires Inv(sys, cur) && IsOrder(sys.p.gpus, order) && |values| == |v.positions|
    requires d in sys.p.local && sys.p.complete[d] != Some(true) && CanAccessPart(sys, cur, d, v)
    requires PartState(sys.p, d, v).Invalid?
    ensures var b := PartAppended(sys.b, d, v, cur);
            && Seen(b, d, Some(v)).Some? && |Seen(b, d, Some(v)).value| == |values|
            && KeyedBuffers(Stored(b, d, Some(v), values), sys.p.gpus) && Typed(PartClaimed(sys.p, d, v))
            && Step(sys, order, WriteAt(d, Some(v), values))
               == Some(System(PartClaimed(sys.p, d, v), Stored(b, d, Some(v), values)))
  {
    var claimed := System(PartClaimed(sys.p, d, v), PartAppended(sys.b, d, v, cur));
    LoadExecutes(sys, cur, d, v, PartClaimed(sys.p, d, v));
    PartClaimedShape(sys.p, d, v);
    AddedBookkeeping(sys, cur, d, v, PartClaimed(sys.p, d, v));
    SeenPart(claimed, cur, d, v);
    NewPartLoads(sys, order, d, v);
    StepStores(sys, order, d, v, values);
  }

  /** The devices after a modified owner stored something: it does not look for parts. */
  function OwnerStored(sys: System, d: int, now: seq<int>): System
    requires d in sys.p.complete
  {
    System(sys.p.(complete := sys.p.complete[d := Some(true)]), sys.b.(buffer := sys.b.buffer[d := Full(now)]))
  }

  /** Every held part still shows the old elements. */
  lemma PartsStayOld(sys: System, cur: seq<int>, d: int, now: seq<int>, e: int, v: View, order: seq<int>)
    requires Inv(sys, cur) && IsOrder(sys.p.gpus, order) && IsModified(sys.p.local, d)
    requires HoldsParts(sys.p.local, e) && v in sys.p.local[e].states
    ensures Wellformed(OwnerStored(sys, d, now))
    ensures var seen := Accessed(OwnerStored(sys, d, now), order, ReadAt(e, Some(v)));
            && Fits(v.positions, |cur|)
            && seen.Some? && Seen(seen.value.b, e, Some(v)) == Some(Gather(cur, v.positions))
  {
    SeenPart(sys, cur, e, v);
    MarkedComplete(sys, cur, d);
    var p := sys.p.(complete := sys.p.complete[d := Some(true)]);
    assert PartsMatch(sys.p.local[e], sys.b.buffer[e], sys.b.index[e], cur);
    OpenedAgain(p, e);
    RunNoop(OwnerStored(sys, d, now).b, sys.p.gpus, Some(v));
  }

  // ---- the clauses about writes, as equivalences ----

  /** A whole read at any device now sees `cur`. */
  ghost predicate AllRead(r: Option<System>, cur: seq<int>) {
    && r.Some? && Wellformed(r.value)
    && forall order, e | IsOrder(r.value.p.gpus, order) && e in r.value.p.local ::
         ReadNext(r.value, order, e) == Some(cur)
  }

  lemma InvAllRead(sys: System, cur: seq<int>)
    requires Inv(sys, cur)
    ensures AllRead(Some(sys), cur)
  {
    forall order, e | IsOrder(sys.p.gpus, order) && e in sys.p.local ensures ReadNext(sys, order, e) == Some(cur) {
      ReadStep(sys, cur, order, e, None);
    }
  }

  lemma DifferentElements(cur: seq<int>, positions: seq<nat>) returns (values: seq<int>)
    requires Fits(positions, |cur|) && Distinct(positions) && positions != []
    ensures |values| == |positions| && Scatter(cur, positions, values) != cur
  {
    values := seq(|positions|, i requires 0 <= i < |positions| => cur[positions[i]] + 1);
    WriteBackThenExtract(cur, positions, values);
    assert Gather(cur, positions)[0] != values[0];
  }

  /** After any store to a newly loaded part every whole read is right, exactly when the owner's was the only
      valid whole copy before. */
  lemma NewPartWriteExact(sys: System, cur: seq<int>, order: seq<int>, d: int, v: View)
    requires Inv(sys, cur) && IsOrder(sys.p.gpus, order) && d in sys.p.local && sys.p.complete[d] != Some(true)
    requires CanAccessPart(sys, cur, d, v) && PartState(sys.p, d, v).Invalid? && v.positions != []
    ensures (forall values | |values| == |v.positions| ::
               AllRead(Step(sys, order, WriteAt(d, Some(v), values)), Scatter(cur, v.positions, values)))
            <==> (forall e | Valid(sys.p.local, e) :: e == sys.p.owner)
  {
    if e :| Valid(sys.p.local, e) && e != sys.p.owner {
      var values := DifferentElements(cur, v.positions);
      OtherCopyStaysOld(sys, cur, order, d, v, values, e, order);
      assert !AllRead(Step(sys, order, WriteAt(d, Some(v), values)), Scatter(cur, v.positions, values));
    } else {
      forall values | |values| == |v.positions|
        ensures AllRead(Step(sys, order, WriteAt(d, Some(v), values)), Scatter(cur, v.positions, values))
      {
        WritePartRefines(sys, cur, order, WriteAt(d, Some(v), values));
        InvAllRead(Step(sys, order, WriteAt(d, Some(v), values)).value, Scatter(cur, v.positions, values));
      }
    }
  }

  /** Every held part, read again at its device, now shows the elements of `cur`. */
  ghost predicate AllPartsRead(r: Option<System>, cur: seq<int>) {
    && r.Some? && Wellformed(r.value)
    && forall order, e, v | IsOrder(r.value.p.gpus, order) && HoldsParts(r.value.p.local, e)
                            && v in r.value.p.local[e].states && Fits(v.positions, |cur|) ::
         var seen := Accessed(r.value, order, ReadAt(e, Some(v)));
         seen.Some? && Seen(seen.value.b, e, Some(v)) == Some(Gather(cur, v.positions))
  }

  /** A whole store, and a store into a slice, by a modified owner. */
  lemma StoredByOwner(sys: System, cur: seq<int>, order: seq<int>, d: int, view: Option<View>, values: seq<int>)
    requires Inv(sys, cur) && IsOrder(sys.p.gpus, order) && IsModified(sys.p.local, d)
    requires view.None? || sys.p.complete[d] == Some(true)
    requires view.Some? ==> Fits(view.value.positions, |cur|)
    requires |values| == if view.None? then |cur| else |view.value.positions|
    ensures Step(sys, order, WriteAt(d, view, values))
            == Some(OwnerStored(sys, d, Applied(cur, WriteAt(d, view, values))))
    ensures Wellformed(OwnerStored(sys, d, Applied(cur, WriteAt(d, view, values))))
  {
    assert Valid(sys.p.local, d);
    var ev := WriteAt(d, view, values);
    RunNoop(sys.b, sys.p.gpus, view);
    MarkedComplete(sys, cur, d);
    WholeAccess(sys, order, ev);
    StoreWhole(sys, cur, order, ev, Accessed(sys, order, ev).value);
  }

  /** No held part has an element that the store changes. */
  ghost predicate PartsUntouched(sys: System, cur: seq<int>, now: seq<int>) {
    && |now| == |cur|
    && forall e, v | HoldsParts(sys.p.local, e) && v in sys.p.local[e].states && Fits(v.positions, |cur|) ::
      Gather(now, v.positions) == Gather(cur, v.positions)
  }

  lemma OwnerStoreExact(sys: System, cur: seq<int>, d: int, now: seq<int>, order: seq<int>)
    requires Inv(sys, cur) && IsModified(sys.p.local, d) && |now| == |cur| && IsOrder(sys.p.gpus, order)
    ensures AllPartsRead(Some(OwnerStored(sys, d, now)), now) <==> PartsUntouched(sys, cur, now)
  {
    MarkedComplete(sys, cur, d);
    var r := OwnerStored(sys, d, now);
    assert Wellformed(r);
    if PartsUntouched(sys, cur, now) {
      forall order', e, v | IsOrder(sys.p.gpus, order') && HoldsParts(sys.p.local, e)
                            && v in sys.p.local[e].states && Fits(v.positions, |now|)
        ensures var seen := Accessed(r, order', ReadAt(e, Some(v)));
                seen.Some? && Seen(seen.value.b, e, Some(v)) == Some(Gather(now, v.positions))
      {
        PartsStayOld(sys, cur, d, now, e, v, order');
      }
    } else {
      var e, v :| HoldsParts(sys.p.local, e) && v in sys.p.local[e].states && Fits(v.positions, |cur|)
                  && Gather(now, v.positions) != Gather(cur, v.positions);
      PartsStayOld(sys, cur, d, now, e, v, order);
      assert HoldsParts(r.p.local, e) && v in r.p.local[e].states;
    }
  }

  /** After any store by a modified owner every held part is right, exactly when no held part has elements. */
  lemma OwnerWriteExact(sys: System, cur: seq<int>, order: seq<int>, d: int)
    requires Inv(sys, cur) && IsOrder(sys.p.gpus, order) && IsModified(sys.p.local, d)
    ensures (forall values | |values| == |cur| :: AllPartsRead(Step(sys, order, WriteAt(d, None, values)), values))
            <==> (forall e, v | HoldsParts(sys.p.local, e) && v in sys.p.local[e].states :: v.positions == [])
  {
    if e, v :| HoldsParts(sys.p.local, e) && v in sys.p.local[e].states && v.positions != [] {
      SeenPart(sys, cur, e, v);
      var values := cur[v.positions[0] := cur[v.positions[0]] + 1];
      StoredByOwner(sys, cur, order, d, None, values);
      assert Gather(values, v.positions)[0] != Gather(cur, v.positions)[0];
      OwnerStoreExact(sys, cur, d, values, order);
      assert !AllPartsRead(Step(sys, order, WriteAt(d, None, values)), values);
    } else {
      forall values | |values| == |cur|
        ensures AllPartsRead(Step(sys, order, WriteAt(d, None, values)), values)
      {
        StoredByOwner(sys, cur, order, d, None, values);
        OwnerStoreExact(sys, cur, d, values, order);
      }
    }
  }

  ghost predicate Overlap(v: View, w: View) {
    exists x :: x in v.positions && x in w.positions
  }

  lemma SliceStoreExact(sys: System, cur: seq<int>, order: seq<int>, d: int, v: View, values: seq<int>)
    requires Inv(sys, cur) && IsOrder(sys.p.gpus, order) && IsModified(sys.p.local, d)
    requires sys.p.complete[d] == Some(true)
    requires Fits(v.positions, |cur|) && |values| == |v.positions|
    ensures AllPartsRead(Step(sys, order, WriteAt(d, Some(v), values)), Scatter(cur, v.positions, values))
            <==> PartsUntouched(sys, cur, Scatter(cur, v.positions, values))
  {
    StoredByOwner(sys, cur, order, d, Some(v), values);
    OwnerStoreExact(sys, cur, d, Scatter(cur, v.positions, values), order);
  }

  ghost predicate ApartFromParts(sys: System, v: View) {
    forall e, w | HoldsParts(sys.p.local, e) && w in sys.p.local[e].states :: !Overlap(v, w)
  }

  lemma ApartIsUntouched(sys: System, cur: seq<int>, v: View, values: seq<int>)
    requires ApartFromParts(sys, v) && Fits(v.positions, |cur|) && |values| == |v.positions|
    ensures PartsUntouched(sys, cur, Scatter(cur, v.positions, values))
  {
    forall e, w | HoldsParts(sys.p.local, e) && w in sys.p.local[e].states && Fits(w.positions, |cur|)
      ensures Gather(Scatter(cur, v.positions, values), w.positions) == Gather(cur, w.positions)
    {
      assert !Overlap(v, w);
      KeepsApart(cur, v, values, w);
    }
  }

  lemma OverlapIsTouched(sys: System, cur: seq<int>, v: View) returns (values: seq<int>)
    requires Bookkeeping(sys, cur) && !ApartFromParts(sys, v) && Fits(v.positions, |cur|) && Distinct(v.positions)
    ensures |values| == |v.positions| && !PartsUntouched(sys, cur, Scatter(cur, v.positions, values))
  {
    var e, w :| HoldsParts(sys.p.local, e) && w in sys.p.local[e].states && Overlap(v, w);
    SeenPart(sys, cur, e, w);
    values := seq(|v.positions|, i requires 0 <= i < |v.positions| => cur[v.positions[i]] + 1);
    ChangesOverlap(cur, v, values, w);
  }

  /** After any store into a slice by a modified, complete owner every held part is right, exactly when the slice
      overlaps none of them. */
  lemma OwnerSliceWriteExact(sys: System, cur: seq<int>, order: seq<int>, d: int, v: View)
    requires Inv(sys, cur) && IsOrder(sys.p.gpus, order) && IsModified(sys.p.local, d)
    requires sys.p.complete[d] == Some(true)
    requires Fits(v.positions, |cur|) && Distinct(v.positions)
    ensures (forall values | |values| == |v.positions| ::
               AllPartsRead(Step(sys, order, WriteAt(d, Some(v), values)), Scatter(cur, v.positions, values)))
            <==> ApartFromParts(sys, v)
  {
    if ApartFromParts(sys, v) {
      forall values | |values| == |v.positions|
        ensures AllPartsRead(Step(sys, order, WriteAt(d, Some(v), values)), Scatter(cur, v.positions, values))
      {
        ApartIsUntouched(sys, cur, v, values);
        SliceStoreExact(sys, cur, order, d, v, values);
      }
    } else {
      var values := OverlapIsTouched(sys, cur, v);
      SliceStoreExact(sys, cur, order, d, v, values);
      assert !AllPartsRead(Step(sys, order, WriteAt(d, Some(v), values)), Scatter(cur, v.positions, values));
    }
  }

  lemma ChangesOverlap(cur: seq<int>, v: View, values: seq<int>, w: View)
    requires Fits(v.positions, |cur|) && Distinct(v.positions) && Fits(w.positions, |cur|) && Overlap(v, w)
    requires |values| == |v.positions| && forall i | 0 <= i < |values| :: values[i] == cur[v.positions[i]] + 1
    ensures Gather(Scatter(cur, v.positions, values), w.positions) != Gather(cur, w.positions)
  {
    var x :| x in v.positions && x in w.positions;
    var i :| 0 <= i < |v.positions| && v.positions[i] == x;
    var j :| 0 <= j < |w.positions| && w.positions[j] == x;
    WriteBackThenExtract(cur, v.positions, values);
    var now := Scatter(cur, v.positions, values);
    assert Gather(now, v.positions)[i] == values[i] && Gather(now, w.positions)[j] == now[x];
    assert Gather(cur, w.positions)[j] == cur[x];
  }

  lemma KeepsApart(cur: seq<int>, v: View, values: seq<int>, w: View)
    requires Fits(v.positions, |cur|) && Fits(w.positions, |cur|) && |values| == |v.positions| && !Overlap(v, w)
    ensures Gather(Scatter(cur, v.positions, values), w.positions) == Gather(cur, w.positions)
  {
    forall j | 0 <= j < |w.positions| ensures Scatter(cur, v.positions, values)[w.positions[j]] == cur[w.positions[j]] {
      assert w.positions[j] in w.positions;
      ScatterElsewhere(cur, v.positions, values, w.positions[j]);
    }
  }

  // ---- a whole write at a device that held parts ----

  /** `d` comes after `e` in the dictionaries, where the CPU is last. */
  predicate Later(d: int, e: int) {
    e != CPU_INDEX && (d == CPU_INDEX || d > e)
  }

  lemma {:induction false} LastOfLatest(s: State, ids: seq<int>, i: nat)
    requires Keyed(s) && (forall d | d in ids :: d in s.local) && i < |ids|
    requires HoldsWhole(s.local, ids[i]) && Number(s.version, ids[i]) >= -1
    requires forall j | 0 <= j < i && HoldsWhole(s.local, ids[j]) ::
             Number(s.version, ids[j]) <= Number(s.version, ids[i])
    requires forall j | i < j < |ids| && HoldsWhole(s.local, ids[j]) ::
             Number(s.version, ids[j]) < Number(s.version, ids[i])
    ensures LatestCopy(s, ids) == Some(ids[i])
    decreases |ids|
  {
    var init := ids[..|ids| - 1];
    assert ids == init + [ids[|ids| - 1]];
    if i < |ids| - 1 {
      LastOfLatest(s, init, i);
      assert HoldsWhole(s.local, ids[|ids| - 1]) ==> Number(s.version, ids[|ids| - 1]) < Number(s.version, ids[i]);
    } else if LatestCopy(s, init).Some? {
      var k :| 0 <= k < |init| && init[k] == LatestCopy(s, init).value;
      assert HoldsWhole(s.local, ids[k]);
    }
  }

  /** Two whole copies share the highest version: `_write_back_to` takes the later one. */
  lemma LaterOfTwo(s: State, d: int, e: int)
    requires Keyed(s) && HoldsWhole(s.local, d) && HoldsWhole(s.local, e) && Later(d, e)
    requires Number(s.version, d) == Number(s.version, e) >= 0
    requires forall f | HoldsWhole(s.local, f) && f != d && f != e :: Number(s.version, f) < Number(s.version, d)
    ensures LatestCopy(s, Devices(s.gpus)) == Some(d)
  {
    LastOfLatest(s, Devices(s.gpus), if d == CPU_INDEX then s.gpus else d);
  }

  ghost predicate TwoCopies(s: State, d: int, e: int) {
    && Typed(s) && NoParts(s.local) && s.owner == d && s.local.Keys == s.version.Keys
    && IsModified(s.local, d) && HoldsWhole(s.local, e) && d != e
    && (forall f | f in s.local && f != d :: s.local[f] == Whole(Invalid))
    && Number(s.version, d) == Number(s.version, e) == s.latest >= 0
    && (forall f | HoldsWhole(s.local, f) && f != d && f != e :: Number(s.version, f) < s.latest)
  }

  lemma PartsWrittenAt(s: State, d: int, f: int)
    requires Typed(s) && Versions(s) && HoldsParts(s.local, d) && f in s.local && f != d
    ensures var t := PartsWritten(s, d);
            && t.local[f] == Whole(Invalid) && t.version[f].At?
            && (if f == s.owner then Number(t.version, f) == s.latest else Number(t.version, f) < s.latest)
  {
    if HoldsWhole(s.local, f) {
      assert Valid(s.local, f) <==> Number(s.version, f) == s.latest;
      assert Number(s.version, f) <= Number(s.version, s.owner);
    }
  }

  lemma PartsWrittenShape(s: State, d: int)
    requires Typed(s) && Versions(s) && HoldsParts(s.local, d)
    ensures TwoCopies(PartsWritten(s, d), d, s.owner) && PartsWritten(s, d).gpus == s.gpus
  {
    var t := PartsWritten(s, d);
    assert HoldsWhole(s.local, s.owner) && t.local.Keys == s.local.Keys == t.version.Keys == t.complete.Keys;
    assert t.local[d] == Whole(Modified) && t.version[d] == At(s.latest) && t.latest == s.latest;
    forall f | f in s.local && f != d
      ensures t.local[f] == Whole(Invalid) && t.version[f].At?
              && (if f == s.owner then Number(t.version, f) == s.latest else Number(t.version, f) < s.latest)
    {
      PartsWrittenAt(s, d, f);
    }
    PartsWrittenHasNone(s, d);
  }

  lemma PartsWrittenHasNone(s: State, d: int)
    requires Typed(s) && HoldsParts(s.local, d)
    ensures Typed(PartsWritten(s, d)) && NoParts(PartsWritten(s, d).local)
  {
    var t := PartsWritten(s, d);
    assert HoldsWhole(s.local, s.owner) && t.local.Keys == s.local.Keys == t.version.Keys == t.complete.Keys;
    forall f | f in s.local ensures t.local[f].Whole? && t.version[f].At? && t.complete[f] != Some(false) {}
  }

  /** A read where no parts are held: it fetches from the latest copy if that is newer than its own, and keeps
      its own old buffer otherwise. */
  lemma FetchesFromLatest(sys: System, order: seq<int>, e: int, src: int)
    requires Wellformed(sys) && NoParts(sys.p.local) && IsOrder(sys.p.gpus, order)
    requires e in sys.p.local && sys.p.local[e] == Whole(Invalid) && src in sys.p.local
    requires LatestCopy(sys.p.(complete := sys.p.complete[e := Some(true)]), Devices(sys.p.gpus)) == Some(src)
    requires forall f | f in sys.b.index :: sys.b.index[f].None?
    requires sys.b.buffer[src].Full?
    requires (Number(sys.p.version, e) == Number(sys.p.version, src) && sys.b.buffer[e].Full?)
             || Number(sys.p.version, e) < Number(sys.p.version, src)
    ensures ReadNext(sys, order, e)
            == Some(sys.b.buffer[if Number(sys.p.version, e) < Number(sys.p.version, src) then src else e].data)
  {
    var s1 := sys.p.(complete := sys.p.complete[e := Some(true)]);
    assert !HoldsParts(sys.p.local, e);
    WholesHoldNothing(s1, order);
    LoadsIfStale(s1, src, order, e);
    ReadFollows(sys, order, e);
    LoadOrKeep(sys.b, sys.p.gpus, e, src, Number(sys.p.version, e) < Number(sys.p.version, src));
  }

  lemma LoadOrKeep(b: Buffers, gpus: nat, e: int, src: int, load: bool)
    requires KeyedBuffers(b, gpus) && e in b.buffer && src in b.buffer
    requires b.index[e].None? && b.index[src].None? && b.buffer[src].Full? && (load || b.buffer[e].Full?)
    ensures var r := RunOps(b, gpus, if load then [Load(e, src, false)] else [], None);
            r.Some? && Seen(r.value, e, None) == Some(b.buffer[if load then src else e].data)
  {
    if load {
      RunSingle(b, gpus, Load(e, src, false), None);
    }
  }

  lemma ReadFollows(sys: System, order: seq<int>, e: int)
    requires Wellformed(sys) && IsOrder(sys.p.gpus, order) && e in sys.p.local && sys.p.local[e] == Whole(Invalid)
    requires WriteBack(sys.p.(complete := sys.p.complete[e := Some(true)]), order, e, Shared, None).Done?
    ensures var ops := WriteBack(sys.p.(complete := sys.p.complete[e := Some(true)]), order, e, Shared, None).ops;
            ReadNext(sys, order, e) ==
            match RunOps(sys.b, sys.p.gpus, ops, None) case None => None case Some(b) => Seen(b, e, None)
  {
    assert Read(sys.p, order, e, None) == ReadWhole(sys.p, order, e);
  }

  lemma ReadAmongTwo(sys: System, order: seq<int>, d: int, former: int, e: int)
    requires Wellformed(sys) && TwoCopies(sys.p, d, former) && IsOrder(sys.p.gpus, order) && e in sys.p.local
    requires forall f | f in sys.b.index :: sys.b.index[f].None?
    requires sys.b.buffer[d].Full? && sys.b.buffer[former].Full?
    ensures ReadNext(sys, order, e)
            == Some(sys.b.buffer[if e == d || (e != former && Later(d, former)) then d else former].data)
  {
    assert !HoldsParts(sys.p.local, e) && HoldsWhole(sys.p.local, e);
    if e == d {
      RunNoop(sys.b, sys.p.gpus, None);
    } else {
      var s1 := sys.p.(complete := sys.p.complete[e := Some(true)]);
      var src := if Later(d, former) then d else former;
      LaterOfTwo(s1, src, if src == d then former else d);
      FetchesFromLatest(sys, order, e, src);
    }
  }

  /** A whole write at a device that held parts does not raise the version, so the old owner's copy stays at the
      latest one although it is invalid. What a read anywhere sees afterwards, case by case. */
  lemma ReadsAfterWriteOverParts(sys: System, cur: seq<int>, order: seq<int>, d: int, values: seq<int>,
                                 order': seq<int>, e: int)
    requires Inv(sys, cur) && IsOrder(sys.p.gpus, order) && IsOrder(sys.p.gpus, order')
    requires HoldsParts(sys.p.local, d) && |values| == |cur| && e in sys.p.local
    ensures var r := Step(sys, order, WriteAt(d, None, values));
            && r.Some? && Wellformed(r.value) && r.value.p.gpus == sys.p.gpus && e in r.value.p.local
            && ReadNext(r.value, order', e)
               == Some(if e == d || (e != sys.p.owner && Later(d, sys.p.owner)) then values else cur)
  {
    var r := StoreOverParts(sys, cur, order, d, values);
    PartsWrittenShape(sys.p, d);
    ReadAmongTwo(r, order', d, sys.p.owner, e);
  }

  lemma StoreOverParts(sys: System, cur: seq<int>, order: seq<int>, d: int, values: seq<int>) returns (r: System)
    requires Inv(sys, cur) && IsOrder(sys.p.gpus, order) && HoldsParts(sys.p.local, d) && |values| == |cur|
    ensures Step(sys, order, WriteAt(d, None, values)) == Some(r)
    ensures r.p == PartsWritten(sys.p, d) && KeyedBuffers(r.b, sys.p.gpus)
    ensures forall f | f in r.b.index :: r.b.index[f].None?
    ensures r.b.buffer[d] == Full(values) && r.b.buffer[sys.p.owner] == Full(cur)
  {
    WriteOverPartsGathers(sys, cur, order, d);
    var seen := Execute(sys.b, sys.p.gpus, WriteOverParts(sys.p, order, d), None).value;
    r := System(seen.p, seen.b.(buffer := seen.b.buffer[d := Full(values)]));
    AfterStore(seen.b, sys.p.gpus, d, sys.p.owner, values, cur);
    StoreFollows(sys, order, d, values, seen, cur);
  }

  lemma AfterStore(b: Buffers, gpus: nat, d: int, owner: int, values: seq<int>, cur: seq<int>)
    requires KeyedBuffers(b, gpus) && d in b.buffer && owner in b.buffer && d != owner && b.buffer[owner] == Full(cur)
    ensures var b1 := b.(buffer := b.buffer[d := Full(values)]);
            && d in b.index && KeyedBuffers(b1, gpus) && b1.buffer[d] == Full(values) && b1.buffer[owner] == Full(cur)
            && b1.index == b.index
  {
  }

  lemma OverPartsAccess(sys: System, order: seq<int>, d: int, values: seq<int>)
    requires Wellformed(sys) && IsOrder(sys.p.gpus, order) && HoldsParts(sys.p.local, d)
    ensures Accessed(sys, order, WriteAt(d, None, values))
            == Execute(sys.b, sys.p.gpus, WriteOverParts(sys.p, order, d), None)
  {
    WriteBranch(sys.p, order, d);
  }

  lemma StoreFollows(sys: System, order: seq<int>, d: int, values: seq<int>, seen: System, cur: seq<int>)
    requires Wellformed(sys) && IsOrder(sys.p.gpus, order) && HoldsParts(sys.p.local, d) && |values| == |cur|
    requires Execute(sys.b, sys.p.gpus, WriteOverParts(sys.p, order, d), None) == Some(seen)
    requires d in seen.b.buffer && d in seen.b.index && seen.b.buffer[d] == Full(cur)
    ensures Step(sys, order, WriteAt(d, None, values))
            == Some(System(seen.p, seen.b.(buffer := seen.b.buffer[d := Full(values)])))
  {
    OverPartsAccess(sys, order, d, values);
    assert Seen(seen.b, d, None) == Some(cur);
  }

  /** So a subarray phase must not end that way: no such write is right at the old owner unless it changes nothing. */
  lemma WriteOverPartsExact(sys: System, cur: seq<int>, order: seq<int>, d: int, values: seq<int>)
    requires Inv(sys, cur) && IsOrder(sys.p.gpus, order) && HoldsParts(sys.p.local, d) && |values| == |cur|
    ensures AllRead(Step(sys, order, WriteAt(d, None, values)), values) <==> values == cur
  {
    var r := Step(sys, order, WriteAt(d, None, values));
    ReadsAfterWriteOverParts(sys, cur, order, d, values, order, sys.p.owner);
    if values == cur {
      forall order', e | IsOrder(sys.p.gpus, order') && e in sys.p.local
        ensures ReadNext(r.value, order', e) == Some(cur)
      {
        ReadsAfterWriteOverParts(sys, cur, order, d, values, order', e);
      }
    }
  }
}
