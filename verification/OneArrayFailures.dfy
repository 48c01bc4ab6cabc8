/**
 The failures of OneArrayLimits as short runs of a new array of two elements: for each, the accesses that lead there,
 under any set iteration order, and what goes wrong at the next one.
 */
module OneArrayFailures {
  import opened Wrappers
  import opened Protocol
  import opened Buffers
  import opened OneArray
  import opened OneArraySteps
  import opened OneArrayParts
  import opened OneArrayTheorem
  import opened OneArrayRuns
  import opened OneArrayLimits

  const DATA: seq<int> := [1, 2]

  /** The slice of the first element. */
  const PART: View := View(7, [0])

  /** That of the second. */
  const OTHER: View := View(8, [1])

  /** The run leads from a new array to `r`. */
  ghost predicate Reaches(gpus: nat, owner: int, run: seq<Access>, r: System)
    requires CPU_INDEX <= owner < gpus
  {
    && Wellformed(Created(gpus, owner, DATA)) && End(Created(gpus, owner, DATA), run) == Some(r)
    && Wellformed(r) && r.p.gpus == gpus
  }

  lemma EndFirst(sys: System, a: Access, s: System, rest: seq<Access>)
    requires Wellformed(sys) && IsOrder(sys.p.gpus, a.order) && a.ev.d in sys.p.local
    requires Step(sys, a.order, a.ev) == Some(s) && Wellformed(s)
    ensures End(sys, [a] + rest) == End(s, rest)
  {
    assert ([a] + rest)[1..] == rest;
  }

  lemma EndOne(sys: System, a: Access, s: System)
    requires Wellformed(sys) && IsOrder(sys.p.gpus, a.order) && a.ev.d in sys.p.local
    requires Step(sys, a.order, a.ev) == Some(s) && Wellformed(s)
    ensures End(sys, [a]) == Some(s)
  {
    assert [a] + [] == [a];
    EndFirst(sys, a, s, []);
  }

  lemma ReachOne(gpus: nat, owner: int, a: Access, r: System)
    requires CPU_INDEX <= owner < gpus && IsOrder(gpus, a.order) && CPU_INDEX <= a.ev.d < gpus
    requires Wellformed(Created(gpus, owner, DATA)) && Wellformed(r) && r.p.gpus == gpus
    requires Step(Created(gpus, owner, DATA), a.order, a.ev) == Some(r)
    ensures Reaches(gpus, owner, [a], r)
  {
    EndOne(Created(gpus, owner, DATA), a, r);
  }

  lemma EndTwo(sys: System, a: Access, s: System, b: Access, r: System)
    requires Wellformed(sys) && IsOrder(sys.p.gpus, a.order) && a.ev.d in sys.p.local
    requires Step(sys, a.order, a.ev) == Some(s) && Wellformed(s) && IsOrder(s.p.gpus, b.order) && b.ev.d in s.p.local
    requires Step(s, b.order, b.ev) == Some(r) && Wellformed(r)
    ensures End(sys, [a, b]) == Some(r)
  {
    assert [a] + [b] == [a, b];
    EndOne(s, b, r);
    EndFirst(sys, a, s, [b]);
  }

  lemma ReachTwo(gpus: nat, owner: int, a: Access, s: System, b: Access, r: System)
    requires CPU_INDEX <= owner < gpus && IsOrder(gpus, a.order) && CPU_INDEX <= a.ev.d < gpus
    requires IsOrder(gpus, b.order) && CPU_INDEX <= b.ev.d < gpus
    requires Wellformed(Created(gpus, owner, DATA)) && Wellformed(s) && s.p.gpus == gpus
    requires Step(Created(gpus, owner, DATA), a.order, a.ev) == Some(s)
    requires Step(s, b.order, b.ev) == Some(r) && Wellformed(r) && r.p.gpus == gpus
    ensures Reaches(gpus, owner, [a, b], r)
  {
    EndTwo(Created(gpus, owner, DATA), a, s, b, r);
  }

  // ---- first steps ----

  /** The slice is read at a device other than the owner. */
  lemma SliceRead(gpus: nat, owner: int, d: int, order: seq<int>) returns (r: System)
    requires CPU_INDEX <= owner < gpus && CPU_INDEX <= d < gpus && d != owner && IsOrder(gpus, order)
    ensures Wellformed(Created(gpus, owner, DATA))
    ensures Step(Created(gpus, owner, DATA), order, ReadAt(d, Some(PART))) == Some(r)
    ensures Inv(r, DATA) && r.p == PartRead(Initial(gpus, owner), d, PART) && r.p.gpus == gpus
    ensures HoldsParts(r.p.local, d) && PART in r.p.local[d].states
    ensures r.p.owner == owner && IsModified(r.p.local, owner) && r.p.complete[owner] == Some(true)
  {
    var sys := Created(gpus, owner, DATA);
    CreatedIsRight(gpus, owner, DATA);
    assert CanAccessPart(sys, DATA, d, PART);
    LoadExecutes(sys, DATA, d, PART, PartRead(sys.p, d, PART));
    ReadNewPart(sys, DATA, d, PART);
    NewPartLoads(sys, order, d, PART);
    r := System(PartRead(sys.p, d, PART), PartAppended(sys.b, d, PART, DATA));
  }

  /** The array is read at a device other than the owner. */
  lemma WholeRead(sys: System, d: int, order: seq<int>) returns (r: System)
    requires Inv(sys, DATA) && NoParts(sys.p.local) && IsOrder(sys.p.gpus, order) && d in sys.p.local
    requires sys.p.local[d] == Whole(Invalid)
    ensures Step(sys, order, ReadAt(d, None)) == Some(r) && Inv(r, DATA) && r.p.gpus == sys.p.gpus
    ensures r.p == WholeFetched(sys.p, d) && r.b == sys.b.(buffer := sys.b.buffer[d := Full(DATA)])
  {
    assert !HoldsParts(sys.p.local, d) && !Valid(sys.p.local, d) && HoldsWhole(sys.p.local, d);
    WholeFetchExecutes(sys, DATA, order, d, None);
    WholeFetchedIsRight(sys, DATA, d);
    ReadBranch(sys, order, d, None);
    r := System(WholeFetched(sys.p, d), sys.b.(buffer := sys.b.buffer[d := Full(DATA)]));
  }

  /** After a fetch from the CPU the fetching GPU owns the array, and the CPU shares it without being marked
      complete. */
  lemma FetchedFromCpu(s: State, d: int)
    requires Typed(s) && s.owner == CPU_INDEX && 0 <= d < s.gpus && IsModified(s.local, CPU_INDEX)
    requires s.version[CPU_INDEX] == At(s.latest)
    ensures var t := WholeFetched(s, d);
            && t.owner == d && t.local[CPU_INDEX] == Whole(Shared)
            && t.complete[CPU_INDEX] == s.complete[CPU_INDEX]
            && forall e | e in s.local && e != d && e != CPU_INDEX && s.local[e] == Whole(Invalid) ::
                 t.local[e] == Whole(Invalid) && t.complete[e] == s.complete[e]
  {
  }

  /** The only copy is evicted from GPU 0 to the CPU. */
  lemma EvictedToCpu(order: seq<int>) returns (r: System)
    requires IsOrder(1, order)
    ensures Wellformed(Created(1, 0, DATA)) && Step(Created(1, 0, DATA), order, EvictAt(0)) == Some(r)
    ensures Inv(r, DATA) && NoParts(r.p.local) && r.p.gpus == 1
    ensures r.p.owner == CPU_INDEX && IsModified(r.p.local, CPU_INDEX) && r.p.version[CPU_INDEX] == At(r.p.latest)
    ensures r.p.complete[CPU_INDEX].None? && r.p.local[0] == Whole(Invalid)
  {
    var sys := Created(1, 0, DATA);
    CreatedIsRight(1, 0, DATA);
    assert NoParts(sys.p.local) && HoldsWhole(sys.p.local, CPU_INDEX);
    EvictStep(sys, DATA, order, 0);
    EvictKeepsNoParts(sys.p, order, 0);
    r := Step(sys, order, EvictAt(0)).value;
    EvictedState(order);
  }

  lemma EvictedState(order: seq<int>)
    requires IsOrder(1, order)
    ensures Typed(Initial(1, 0))
    ensures var r := EvictCopy(Initial(1, 0), order, 0);
            r.Done? ==>
              && r.state.owner == CPU_INDEX && IsModified(r.state.local, CPU_INDEX) && r.state.gpus == 1
              && r.state.version[CPU_INDEX] == At(r.state.latest)
              && r.state.complete[CPU_INDEX].None? && r.state.local[0] == Whole(Invalid)
  {
    InitialTyped(1, 0);
    assert EvictsLastCopy(Initial(1, 0), 0);
  }

  /** The array is read back at the GPU: the CPU's whole buffer stays. */
  lemma ReadBack(s: System, order: seq<int>) returns (r: System)
    requires Inv(s, DATA) && NoParts(s.p.local) && s.p.gpus == 1 && IsOrder(1, order)
    requires s.p.owner == CPU_INDEX && IsModified(s.p.local, CPU_INDEX) && s.p.version[CPU_INDEX] == At(s.p.latest)
    requires s.p.complete[CPU_INDEX].None? && 0 in s.p.local && s.p.local[0] == Whole(Invalid)
    ensures Step(s, order, ReadAt(0, None)) == Some(r) && Inv(r, DATA) && r.p.gpus == 1
    ensures r.p.owner == 0 && r.p.local[CPU_INDEX] == Whole(Shared) && r.p.complete[CPU_INDEX].None?
    ensures r.b.buffer[CPU_INDEX].Full? && forall x: nat :: !Covered(r.b.index, x)
  {
    r := WholeRead(s, 0, order);
    FetchedFromCpu(s.p, 0);
    assert Valid(r.p.local, CPU_INDEX);
    NothingCovered(s, DATA);
  }

  /** The CPU's new array is read at GPU 0, which owns it then; the CPU shares it. */
  lemma SharedWithGpu(order: seq<int>) returns (r: System)
    requires IsOrder(2, order)
    ensures Wellformed(Created(2, CPU_INDEX, DATA))
    ensures Step(Created(2, CPU_INDEX, DATA), order, ReadAt(0, None)) == Some(r) && Inv(r, DATA) && r.p.gpus == 2
    ensures r.p.owner == 0 && Valid(r.p.local, CPU_INDEX)
    ensures r.p.local[1] == Whole(Invalid) && r.p.complete[1].None? && CanAccessPart(r, DATA, 1, PART)
  {
    var sys := Created(2, CPU_INDEX, DATA);
    CreatedIsRight(2, CPU_INDEX, DATA);
    assert NoParts(sys.p.local);
    r := WholeRead(sys, 0, order);
    FetchedFromCpu(sys.p, 0);
    NothingCovered(sys, DATA);
  }

  // ---- accesses that raise ----

  /** A slice is on the CPU, and the GPU's copy should go there. */
  lemma EvictToSliceRaises(first: seq<int>, order: seq<int>) returns (r: System)
    requires IsOrder(1, first) && IsOrder(1, order)
    ensures Reaches(1, 0, [Access(ReadAt(CPU_INDEX, Some(PART)), first)], r)
    ensures Step(r, order, EvictAt(0)).None?
  {
    r := SliceRead(1, 0, CPU_INDEX, first);
    ReachOne(1, 0, Access(ReadAt(CPU_INDEX, Some(PART)), first), r);
    EvictRaises(r, DATA, order, 0);
  }

  /** After an eviction the CPU owns the array, but is not marked complete. */
  lemma SliceAtOwnerRaises(first: seq<int>, order: seq<int>) returns (r: System)
    requires IsOrder(1, first) && IsOrder(1, order)
    ensures Reaches(1, 0, [Access(EvictAt(0), first)], r)
    ensures Accessed(r, order, ReadAt(CPU_INDEX, Some(PART))).None?
  {
    r := EvictedToCpu(first);
    ReachOne(1, 0, Access(EvictAt(0), first), r);
    PartAtOwnerRaises(r, DATA, order, PART, [9]);
  }

  /** Read back at the GPU, the array leaves a whole buffer at the CPU, where slices now go. */
  lemma SliceBesideBufferRaises(first: seq<int>, second: seq<int>, order: seq<int>) returns (r: System)
    requires IsOrder(1, first) && IsOrder(1, second) && IsOrder(1, order)
    ensures Reaches(1, 0, [Access(EvictAt(0), first), Access(ReadAt(0, None), second)], r)
    ensures Accessed(r, order, ReadAt(CPU_INDEX, Some(PART))).None?
  {
    var s := EvictedToCpu(first);
    r := ReadBack(s, second);
    ReachTwo(1, 0, Access(EvictAt(0), first), s, Access(ReadAt(0, None), second), r);
    SliceAtFullRaises(r, order);
  }

  lemma SliceAtFullRaises(r: System, order: seq<int>)
    requires Inv(r, DATA) && r.p.gpus == 1 && IsOrder(1, order) && CPU_INDEX in r.p.local && CPU_INDEX in r.b.buffer
    requires r.p.owner == 0 && r.p.local[CPU_INDEX] == Whole(Shared) && r.p.complete[CPU_INDEX].None?
    requires r.b.buffer[CPU_INDEX].Full? && forall x: nat :: !Covered(r.b.index, x)
    ensures Accessed(r, order, ReadAt(CPU_INDEX, Some(PART))).None?
  {
    StaleBufferRaises(r, DATA, order, CPU_INDEX, PART, [9]);
  }

  lemma NothingCovered(sys: System, cur: seq<int>)
    requires Inv(sys, cur) && NoParts(sys.p.local)
    ensures forall x: nat :: !Covered(sys.b.index, x)
  {
    forall d | d in sys.b.index ensures sys.b.index[d].None? {
      assert !HoldsParts(sys.p.local, d) && HoldsWhole(sys.p.local, d);
    }
  }

  // ---- accesses that see old data ----

  /** The CPU shares the array with GPU 0, which owns it, when GPU 1 stores into the slice. */
  lemma SliceStoreMissesCpu(first: seq<int>, second: seq<int>, order: seq<int>) returns (r: System)
    requires IsOrder(2, first) && IsOrder(2, second) && IsOrder(2, order)
    ensures var run := [Access(ReadAt(0, None), first), Access(WriteAt(1, Some(PART), [9]), second)];
            Reaches(2, CPU_INDEX, run, r) && AfterRun(DATA, run) == [9, 2]
    ensures ReadNext(r, order, CPU_INDEX) == Some([1, 2])
  {
    var s := SharedWithGpu(first);
    OtherCopyStaysOld(s, DATA, second, 1, PART, [9], CPU_INDEX, order);
    r := Step(s, second, WriteAt(1, Some(PART), [9])).value;
    ReachTwo(2, CPU_INDEX, Access(ReadAt(0, None), first), s, Access(WriteAt(1, Some(PART), [9]), second), r);
    AfterTwo(ReadAt(0, None), first, WriteAt(1, Some(PART), [9]), second);
    ScatterFirst();
  }

  lemma ScatterFirst()
    ensures Scatter(DATA, [0], [9]) == [9, 2]
  {
    assert DATA[0 := 9] == [9, 2];
    WriteBackThenExtract(DATA, [0], [9]);
    assert Gather(Scatter(DATA, [0], [9]), [0])[0] == 9;
  }

  lemma AfterTwo(a: Event, first: seq<int>, b: Event, second: seq<int>)
    ensures AfterRun(DATA, [Access(a, first), Access(b, second)]) == Applied(Applied(DATA, a), b)
  {
    var run, last := [Access(a, first), Access(b, second)], [Access(b, second)];
    assert run[1..] == last && last[1..] == [];
    assert AfterRun(Applied(DATA, a), last) == AfterRun(Applied(Applied(DATA, a), b), []);
  }

  /** The owner stores a whole array while GPU 1 holds the slice. */
  lemma OwnerStoreMissesSlice(first: seq<int>, second: seq<int>, order: seq<int>) returns (r: System)
    requires IsOrder(2, first) && IsOrder(2, second) && IsOrder(2, order)
    ensures var run := [Access(ReadAt(1, Some(PART)), first), Access(WriteAt(CPU_INDEX, None, [8, 9]), second)];
            Reaches(2, CPU_INDEX, run, r) && AfterRun(DATA, run) == [8, 9]
    ensures var seen := Accessed(r, order, ReadAt(1, Some(PART)));
            seen.Some? && Seen(seen.value.b, 1, Some(PART)) == Some([1])
  {
    var s := SliceRead(2, CPU_INDEX, 1, first);
    r := OwnerStores(s, second, order);
    ReachTwo(2, CPU_INDEX, Access(ReadAt(1, Some(PART)), first), s, Access(WriteAt(CPU_INDEX, None, [8, 9]), second),
             r);
    AfterTwo(ReadAt(1, Some(PART)), first, WriteAt(CPU_INDEX, None, [8, 9]), second);
    assert Gather(DATA, [0]) == [1];
  }

  lemma OwnerStores(s: System, second: seq<int>, order: seq<int>) returns (r: System)
    requires Inv(s, DATA) && s.p.gpus == 2 && IsOrder(2, second) && IsOrder(2, order) && 1 in s.p.local
    requires IsModified(s.p.local, CPU_INDEX) && HoldsParts(s.p.local, 1) && PART in s.p.local[1].states
    ensures Step(s, second, WriteAt(CPU_INDEX, None, [8, 9])) == Some(r) && Wellformed(r) && r.p.gpus == 2
    ensures var seen := Accessed(r, order, ReadAt(1, Some(PART)));
            seen.Some? && Seen(seen.value.b, 1, Some(PART)) == Some(Gather(DATA, [0]))
  {
    StoredByOwner(s, DATA, second, CPU_INDEX, None, [8, 9]);
    PartsStayOld(s, DATA, CPU_INDEX, [8, 9], 1, PART, order);
    r := OwnerStored(s, CPU_INDEX, [8, 9]);
  }

  /** GPU 1 holds the slice and stores a whole array. */
  lemma StoreOverSliceMissesOwner(first: seq<int>, second: seq<int>, order: seq<int>) returns (r: System)
    requires IsOrder(2, first) && IsOrder(2, second) && IsOrder(2, order)
    ensures var run := [Access(ReadAt(1, Some(PART)), first), Access(WriteAt(1, None, [8, 9]), second)];
            Reaches(2, CPU_INDEX, run, r) && AfterRun(DATA, run) == [8, 9]
    ensures ReadNext(r, order, CPU_INDEX) == Some([1, 2])
  {
    var s := SliceRead(2, CPU_INDEX, 1, first);
    ReadsAfterWriteOverParts(s, DATA, second, 1, [8, 9], order, CPU_INDEX);
    r := Step(s, second, WriteAt(1, None, [8, 9])).value;
    ReachTwo(2, CPU_INDEX, Access(ReadAt(1, Some(PART)), first), s, Access(WriteAt(1, None, [8, 9]), second), r);
    AfterTwo(ReadAt(1, Some(PART)), first, WriteAt(1, None, [8, 9]), second);
  }

  lemma UpdateMissesOther(s: System, order: seq<int>)
    requires Inv(s, DATA) && IsOrder(2, order) && s.p == PartRead(Initial(2, CPU_INDEX), 1, PART)
    requires HoldsParts(s.p.local, 1) && PART in s.p.local[1].states
    ensures Wellformed(Updated(s, CPU_INDEX, [8, 9]))
    ensures ReadPartNext(Updated(s, CPU_INDEX, [8, 9]), order, 1, OTHER) != Some([9])
  {
    PartReadsAfterUpdate(s, DATA, CPU_INDEX, [8, 9], order, 1, OTHER);
    assert PartsMatch(s.p.local[1], s.b.buffer[1], s.b.index[1], DATA);
    assert PART in s.b.index[1].value && OTHER !in s.p.local[1].states;
    assert Gather([8, 9], OTHER.positions) == [9];
  }

  /** GPU 1 holds the slice when the array is updated. */
  lemma UpdateMissesSlice(first: seq<int>, second: seq<int>, order: seq<int>) returns (r: System)
    requires IsOrder(2, first) && IsOrder(2, second) && IsOrder(2, order)
    ensures var run := [Access(ReadAt(1, Some(PART)), first), Access(UpdateAt(CPU_INDEX, [8, 9]), second)];
            Reaches(2, CPU_INDEX, run, r) && AfterRun(DATA, run) == [8, 9]
    ensures ReadNext(r, order, 1) != Some([8, 9])
    ensures ReadPartNext(r, order, 1, OTHER) != Some([9])
  {
    var s := SliceRead(2, CPU_INDEX, 1, first);
    ReadsAfterUpdate(s, DATA, CPU_INDEX, [8, 9], order, 1);
    UpdateMissesOther(s, order);
    r := Updated(s, CPU_INDEX, [8, 9]);
    ReachTwo(2, CPU_INDEX, Access(ReadAt(1, Some(PART)), first), s, Access(UpdateAt(CPU_INDEX, [8, 9]), second), r);
    AfterTwo(ReadAt(1, Some(PART)), first, UpdateAt(CPU_INDEX, [8, 9]), second);
  }
}
