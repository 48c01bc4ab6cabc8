/**
 The two ways the tests and the documentation use a `PArray`, as runs that need no state-dependent guard:
 whole-array accesses only, and a scatter of disjoint subarrays followed by a gather.
 */
module OneArrayRuns {
  import opened Wrappers
  import opened Protocol
  import opened Buffers
  import opened OneArray
  import opened OneArraySteps
  import opened OneArrayTheorem

  // ---- whole-array runs ----

  /** Reads, writes, evictions and updates of the whole array; a write keeps the array's length. */
  ghost predicate WholeRun(gpus: nat, size: nat, run: seq<Access>)
    decreases |run|
  {
    run == [] ||
    (&& IsOrder(gpus, run[0].order) && CPU_INDEX <= run[0].ev.d < gpus
     && match run[0].ev
        case ReadAt(_, view) => view.None? && WholeRun(gpus, size, run[1..])
        case WriteAt(_, view, values) => view.None? && |values| == size && WholeRun(gpus, size, run[1..])
        case EvictAt(_) => WholeRun(gpus, size, run[1..])
        case UpdateAt(_, data) => WholeRun(gpus, |data|, run[1..]))
  }

  ghost predicate NoParts(local: map<int, Local>) {
    forall d :: !HoldsParts(local, d)
  }

  lemma SetWholeKeepsNoParts(local: map<int, Local>, d: int, state: Msi)
    requires NoParts(local)
    ensures NoParts(local[d := Whole(state)])
  {
    var next := local[d := Whole(state)];
    forall e ensures !HoldsParts(next, e) { assert !HoldsParts(local, e); }
  }

  lemma WrittenBackKeepsNoParts(s: State, dst: int, target: Msi)
    requires Keyed(s) && dst in s.local && NoParts(s.local)
    ensures NoParts(WrittenBack(s, dst, target).local)
  {
    forall e ensures !HoldsParts(WrittenBack(s, dst, target).local, e) { assert !HoldsParts(s.local, e); }
  }

  lemma ReadKeepsNoParts(s: State, order: seq<int>, d: int)
    requires Typed(s) && IsOrder(s.gpus, order) && d in s.local && NoParts(s.local)
    ensures Read(s, order, d, None).Done? ==> NoParts(Read(s, order, d, None).state.local)
  {
    assert !HoldsParts(s.local, d);
    var s1 := s.(complete := s.complete[d := Some(true)]);
    WrittenBackKeepsNoParts(s1, d, Shared);
    SetWholeKeepsNoParts(WrittenBack(s1, d, Shared).local, d, Shared);
    assert Read(s, order, d, None) == ReadWhole(s, order, d);
  }

  lemma WriteKeepsNoParts(s: State, order: seq<int>, d: int)
    requires Typed(s) && IsOrder(s.gpus, order) && d in s.local && NoParts(s.local)
    ensures Write(s, order, d, None).Done? ==> NoParts(Write(s, order, d, None).state.local)
  {
    assert !HoldsParts(s.local, d);
    assert Write(s, order, d, None) == WriteWhole(s, order, d);
    var s1 := s.(complete := s.complete[d := Some(true)]);
    var s2 := Bumped(s1, d).(owner := d);
    WrittenBackKeepsNoParts(s1, d, Modified);
    WrittenBackKeepsNoParts(s2, d, Modified);
    SetWholeKeepsNoParts(WrittenBack(s1, d, Modified).local, d, Modified);
    SetWholeKeepsNoParts(WrittenBack(s2, d, Modified).local, d, Modified);
  }

  lemma EvictKeepsNoParts(s: State, order: seq<int>, d: int)
    requires Typed(s) && IsOrder(s.gpus, order) && d in s.local && NoParts(s.local)
    ensures EvictCopy(s, order, d).Done? ==> NoParts(EvictCopy(s, order, d).state.local)
  {
    WrittenBackKeepsNoParts(s, CPU_INDEX, Modified);
    SetWholeKeepsNoParts(WrittenBack(s, CPU_INDEX, Modified).local, CPU_INDEX, Modified);
    SetWholeKeepsNoParts(s.local, d, Invalid);
  }

  lemma StepKeepsNoParts(sys: System, cur: seq<int>, order: seq<int>, ev: Event)
    requires Inv(sys, cur) && IsOrder(sys.p.gpus, order) && ev.d in sys.p.local && NoParts(sys.p.local)
    requires ev.ReadAt? || ev.WriteAt? ==> ev.view.None?
    ensures Step(sys, order, ev).Some? ==>
              Step(sys, order, ev).value.p.gpus == sys.p.gpus && NoParts(Step(sys, order, ev).value.p.local)
  {
    match ev
    case ReadAt(d, view) => ReadKeepsNoParts(sys.p, order, d);
    case WriteAt(d, view, values) => WriteKeepsNoParts(sys.p, order, d);
    case EvictAt(d) => EvictKeepsNoParts(sys.p, order, d);
    case UpdateAt(d, data) =>
  }

  /** The state a run ends in. */
  ghost function End(sys: System, run: seq<Access>): Option<System>
    requires Wellformed(sys)
    decreases |run|
  {
    if run == [] then Some(sys)
    else if !IsOrder(sys.p.gpus, run[0].order) || run[0].ev.d !in sys.p.local then None
    else
      match Step(sys, run[0].order, run[0].ev)
      case None => None
      case Some(s1) => if Wellformed(s1) then End(s1, run[1..]) else None
  }

  /** Runs of whole-array accesses meet every guard, and end with no parts and the last value written. */
  lemma {:induction false} WholeRunsAreGuarded(sys: System, cur: seq<int>, run: seq<Access>)
    requires Inv(sys, cur) && NoParts(sys.p.local) && WholeRun(sys.p.gpus, |cur|, run)
    ensures Guarded(sys, cur, run)
    ensures End(sys, run).Some? && End(sys, run).value.p.gpus == sys.p.gpus
    ensures Inv(End(sys, run).value, AfterRun(cur, run)) && NoParts(End(sys, run).value.p.local)
    decreases |run|
  {
    if run != [] {
      var ev, order := run[0].ev, run[0].order;
      assert !HoldsParts(sys.p.local, ev.d) && !HoldsParts(sys.p.local, CPU_INDEX);
      assert Guard(sys, cur, ev);
      StepRefines(sys, cur, order, ev);
      StepKeepsNoParts(sys, cur, order, ev);
      WholeRunsAreGuarded(Step(sys, order, ev).value, Applied(cur, ev), run[1..]);
    }
  }

  lemma WholeRunFromCreation(gpus: nat, owner: int, data: seq<int>, run: seq<Access>)
    requires CPU_INDEX <= owner < gpus && WholeRun(gpus, |data|, run)
    ensures var sys := Created(gpus, owner, data);
            && Wellformed(sys) && Inv(sys, data) && Guarded(sys, data, run)
            && End(sys, run).Some? && End(sys, run).value.p.gpus == gpus
            && Inv(End(sys, run).value, AfterRun(data, run)) && NoParts(End(sys, run).value.p.local)
  {
    CreatedIsRight(gpus, owner, data);
    WholeRunsAreGuarded(Created(gpus, owner, data), data, run);
  }

  /** Whole-array coherence: from creation on, every read and write of a whole-array run sees the last value
      written anywhere. */
  lemma WholeArrayCoherence(gpus: nat, owner: int, data: seq<int>, run: seq<Access>)
    requires CPU_INDEX <= owner < gpus && WholeRun(gpus, |data|, run)
    ensures Guarded(Created(gpus, owner, data), data, run)
    ensures SeesOneArray(Created(gpus, owner, data), data, run)
  {
    WholeRunFromCreation(gpus, owner, data, run);
    ManyCopiesAreOneArray(Created(gpus, owner, data), data, run);
  }

  // ---- single writer, many readers ----

  /** A modified device is the owner and the only valid copy; valid copies hold `cur` at the latest version;
      invalid ones have a smaller version. */
  ghost predicate ReaderOrWriter(sys: System, cur: seq<int>, d: int)
    requires d in sys.p.local
  {
    match sys.p.local[d]
    case Parts(_) => false
    case Whole(Invalid) => Number(sys.p.version, d) < sys.p.latest
    case Whole(state) =>
      && Number(sys.p.version, d) == sys.p.latest
      && d in sys.b.buffer && sys.b.buffer[d] == Full(cur)
      && (state.Modified? ==> d == sys.p.owner && forall e | Valid(sys.p.local, e) :: e == d)
  }

  ghost predicate SingleWriterManyReaders(sys: System, cur: seq<int>) {
    Valid(sys.p.local, sys.p.owner) && forall d | d in sys.p.local :: ReaderOrWriter(sys, cur, d)
  }

  lemma WholeStates(sys: System, cur: seq<int>)
    requires Inv(sys, cur) && NoParts(sys.p.local)
    ensures SingleWriterManyReaders(sys, cur)
  {
    var p := sys.p;
    forall d | d in p.local ensures ReaderOrWriter(sys, cur, d) {
      assert !HoldsParts(p.local, d) && HoldsWhole(p.local, d);
      if IsModified(p.local, d) {
        assert Valid(p.local, d);
        assert forall e | Valid(p.local, e) :: d == p.owner == e;
      }
      assert Number(p.version, d) <= Number(p.version, p.owner) <= p.latest;
    }
  }

  // ---- no operation list loses the last copy ----

  ghost predicate HoldsCopy(r: Option<Buffers>, cur: seq<int>) {
    r.Some? && exists d :: d in r.value.buffer && r.value.buffer[d] == Full(cur)
  }

  /** Each prefix of the list can be executed (so every load finds data at its source) and leaves a full copy
      of `cur` at some device. */
  ghost predicate NeverLoses(b: Buffers, gpus: nat, ops: seq<Op>, cur: seq<int>)
    requires KeyedBuffers(b, gpus)
  {
    forall i | 0 <= i <= |ops| :: HoldsCopy(RunOps(b, gpus, ops[..i], None), cur)
  }

  lemma SingleNeverLoses(b: Buffers, gpus: nat, op: Op, cur: seq<int>)
    requires KeyedBuffers(b, gpus) && HoldsCopy(Some(b), cur) && HoldsCopy(RunOp(b, gpus, op, None), cur)
    ensures NeverLoses(b, gpus, [op], cur)
  {
    RunSingle(b, gpus, op, None);
    forall i | 0 <= i <= 1 ensures HoldsCopy(RunOps(b, gpus, [op][..i], None), cur) {
      assert [op][..1] == [op] && [op][..0] == [];
    }
  }

  /** After a prefix of the evictions of a write-back, its destination still holds `cur`. */
  lemma EvictionsKeepDestination(s: State, b: Buffers, order: seq<int>, dst: int, target: Msi, keep: Option<int>,
                                 j: nat, cur: seq<int>)
    requires Keyed(s) && KeyedBuffers(b, s.gpus) && IsOrder(s.gpus, order) && HoldsWhole(s.local, dst)
    requires j <= |EvictionList(s, order, dst, target, keep)| && b.buffer[dst] == Full(cur)
    ensures HoldsCopy(RunOps(b, s.gpus, Evicts(EvictionList(s, order, dst, target, keep)[..j]), None), cur)
  {
    var evicted := EvictionList(s, order, dst, target, keep);
    forall i | 0 <= i < j ensures evicted[..j][i] in b.buffer && evicted[..j][i] != dst {
      assert evicted[i] in evicted;
      EvictedDevices(s, order, dst, target, keep, evicted[i]);
    }
    EvictAll(b, s.gpus, evicted[..j], None);
    assert dst !in evicted[..j];
    assert Cleared(b, evicted[..j]).buffer[dst] == Full(cur);
  }

  /** At most one load, then evictions that all leave `cur` at `dst`. */
  lemma LoadThenSome(b: Buffers, gpus: nat, loads: seq<Op>, b1: Buffers, evicted: seq<int>, i: nat)
    requires KeyedBuffers(b, gpus) && RunOps(b, gpus, loads, None) == Some(b1) && KeyedBuffers(b1, gpus)
    requires |loads| <= i <= |loads| + |evicted|
    ensures RunOps(b, gpus, (loads + Evicts(evicted))[..i], None)
            == RunOps(b1, gpus, Evicts(evicted[..i - |loads|]), None)
  {
    var j := i - |loads|;
    assert Evicts(evicted)[..j] == Evicts(evicted[..j]);
    assert (loads + Evicts(evicted))[..i] == loads + Evicts(evicted[..j]);
    RunOpsAppend(b, gpus, loads, Evicts(evicted[..j]), None);
  }

  lemma LoadThenEvicts(b: Buffers, gpus: nat, loads: seq<Op>, b1: Buffers, evicted: seq<int>, cur: seq<int>)
    requires KeyedBuffers(b, gpus) && HoldsCopy(Some(b), cur) && |loads| <= 1
    requires RunOps(b, gpus, loads, None) == Some(b1) && KeyedBuffers(b1, gpus)
    requires forall j | 0 <= j <= |evicted| :: HoldsCopy(RunOps(b1, gpus, Evicts(evicted[..j]), None), cur)
    ensures NeverLoses(b, gpus, loads + Evicts(evicted), cur)
  {
    var ops := loads + Evicts(evicted);
    forall i | 0 <= i <= |ops| ensures HoldsCopy(RunOps(b, gpus, ops[..i], None), cur) {
      if i >= |loads| {
        LoadThenSome(b, gpus, loads, b1, evicted, i);
      } else {
        assert ops[..i] == [];
      }
    }
  }

  lemma NoHolders(s: State, order: seq<int>)
    requires forall i | 0 <= i < |order| :: order[i] in s.local && s.local[order[i]].Whole?
    ensures Holders(s, order) == []
  {
  }

  lemma OneSource(s: State, order: seq<int>, dst: int)
    requires Keyed(s) && IsOrder(s.gpus, order) && NoParts(s.local)
    ensures |Sources(s, order, dst)| <= 1
  {
    forall i | 0 <= i < |order| ensures order[i] in s.local && s.local[order[i]].Whole? {
      assert !HoldsParts(s.local, order[i]);
    }
    NoHolders(s, order);
  }

  lemma WriteBackNeverLoses(s: State, b: Buffers, order: seq<int>, dst: int, target: Msi, keep: Option<int>,
                            top: int, cur: seq<int>)
    requires Keyed(s) && KeyedBuffers(b, s.gpus) && IsOrder(s.gpus, order) && HoldsWhole(s.local, dst)
    requires PartsReady(s.local, b, cur) && TopCopiesAgree(s, b, top, cur) && NoParts(s.local)
    requires HoldsCopy(Some(b), cur) && WriteBack(s, order, dst, target, keep).Done?
    ensures NeverLoses(b, s.gpus, WriteBack(s, order, dst, target, keep).ops, cur)
  {
    var evicted, loads := EvictionList(s, order, dst, target, keep), Loads(dst, Sources(s, order, dst));
    var b1 := b.(buffer := b.buffer[dst := Full(cur)]);
    LoadsGather(s, b, order, dst, top, cur, None);
    OneSource(s, order, dst);
    forall j | 0 <= j <= |evicted| ensures HoldsCopy(RunOps(b1, s.gpus, Evicts(evicted[..j]), None), cur) {
      EvictionsKeepDestination(s, b1, order, dst, target, keep, j, cur);
    }
    LoadThenEvicts(b, s.gpus, loads, b1, evicted, cur);
  }

  lemma SomeValidCopy(sys: System, cur: seq<int>)
    requires Inv(sys, cur) && NoParts(sys.p.local)
    ensures Valid(sys.p.local, sys.p.owner) && sys.b.buffer[sys.p.owner] == Full(cur)
    ensures HoldsCopy(Some(sys.b), cur)
    ensures NeverLoses(sys.b, sys.p.gpus, [Noop], cur)
  {
    assert Valid(sys.p.local, sys.p.owner);
    SingleNeverLoses(sys.b, sys.p.gpus, Noop, cur);
  }

  lemma ReadNeverLoses(sys: System, cur: seq<int>, order: seq<int>, d: int)
    requires Inv(sys, cur) && NoParts(sys.p.local) && IsOrder(sys.p.gpus, order) && d in sys.p.local
    ensures var outcome := Read(sys.p, order, d, None);
            outcome.Done? && NeverLoses(sys.b, sys.p.gpus, outcome.ops, cur)
  {
    SomeValidCopy(sys, cur);
    InvReady(sys, cur);
    assert !HoldsParts(sys.p.local, d);
    assert Read(sys.p, order, d, None) == ReadWhole(sys.p, order, d);
    if !Valid(sys.p.local, d) {
      FetchNeverLoses(sys, cur, order, d);
    }
  }

  lemma FetchNeverLoses(sys: System, cur: seq<int>, order: seq<int>, d: int)
    requires Inv(sys, cur) && NoParts(sys.p.local) && IsOrder(sys.p.gpus, order) && HoldsWhole(sys.p.local, d)
    ensures var r := WriteBack(sys.p.(complete := sys.p.complete[d := Some(true)]), order, d, Shared, None);
            r.Done? && NeverLoses(sys.b, sys.p.gpus, r.ops, cur)
  {
    var s1 := sys.p.(complete := sys.p.complete[d := Some(true)]);
    SomeValidCopy(sys, cur);
    InvReady(sys, cur);
    WriteBackGathers(s1, sys.b, order, d, Shared, None, sys.p.owner, cur, None);
    WriteBackNeverLoses(s1, sys.b, order, d, Shared, None, sys.p.owner, cur);
  }

  lemma WriteNeverLoses(sys: System, cur: seq<int>, order: seq<int>, d: int)
    requires Inv(sys, cur) && NoParts(sys.p.local) && IsOrder(sys.p.gpus, order) && d in sys.p.local
    ensures var outcome := Write(sys.p, order, d, None);
            outcome.Done? && NeverLoses(sys.b, sys.p.gpus, outcome.ops, cur)
  {
    SomeValidCopy(sys, cur);
    InvReady(sys, cur);
    assert !HoldsParts(sys.p.local, d);
    var s1 := sys.p.(complete := sys.p.complete[d := Some(true)]);
    assert Write(sys.p, order, d, None) == WriteWhole(sys.p, order, d);
    if Valid(sys.p.local, d) && !IsModified(sys.p.local, d) && d != sys.p.owner {
      var s2 := Bumped(s1, d).(owner := d);
      BumpedIsTop(sys, cur, d);
      WriteBackGathers(s2, sys.b, order, d, Modified, None, d, cur, None);
      WriteBackNeverLoses(s2, sys.b, order, d, Modified, None, d, cur);
    } else if !IsModified(sys.p.local, d) {
      WriteBackGathers(s1, sys.b, order, d, Modified, None, sys.p.owner, cur, None);
      WriteBackNeverLoses(s1, sys.b, order, d, Modified, None, sys.p.owner, cur);
    }
  }

  lemma EvictNeverLoses(sys: System, cur: seq<int>, order: seq<int>, d: int)
    requires Inv(sys, cur) && NoParts(sys.p.local) && IsOrder(sys.p.gpus, order) && d in sys.p.local
    ensures var outcome := EvictCopy(sys.p, order, d);
            outcome.Done? && NeverLoses(sys.b, sys.p.gpus, outcome.ops, cur)
  {
    SomeValidCopy(sys, cur);
    InvReady(sys, cur);
    assert !HoldsParts(sys.p.local, d) && !HoldsParts(sys.p.local, CPU_INDEX);
    if EvictsLastCopy(sys.p, d) {
      if d != CPU_INDEX {
        WriteBackGathers(sys.p, sys.b, order, CPU_INDEX, Modified, Some(d), sys.p.owner, cur, None);
        WriteBackNeverLoses(sys.p, sys.b, order, CPU_INDEX, Modified, Some(d), sys.p.owner, cur);
      }
    } else if Valid(sys.p.local, d) && d != sys.p.owner {
      assert Clear(sys.b, d).buffer[sys.p.owner] == Full(cur);
      SingleNeverLoses(sys.b, sys.p.gpus, Evict(d), cur);
    } else if Valid(sys.p.local, d) {
      assert forall ops: seq<Op> | ops == [] :: forall i | 0 <= i <= |ops| :: ops[..i] == [];
    }
  }

  // ---- the theorem ----

  /** A single writer or many readers now, and whatever `d` does next, the operation list it gets neither loads
      from an empty device nor evicts the last valid copy. */
  ghost predicate Safe(sys: System, cur: seq<int>, order: seq<int>, d: int) {
    && Wellformed(sys) && IsOrder(sys.p.gpus, order) && d in sys.p.local
    && SingleWriterManyReaders(sys, cur)
    && forall outcome | outcome in {Read(sys.p, order, d, None), Write(sys.p, order, d, None),
                                    EvictCopy(sys.p, order, d)} ::
         outcome.Done? && NeverLoses(sys.b, sys.p.gpus, outcome.ops, cur)
  }

  lemma WholeStatesAreSafe(sys: System, cur: seq<int>, order: seq<int>, d: int)
    requires Inv(sys, cur) && NoParts(sys.p.local) && IsOrder(sys.p.gpus, order) && d in sys.p.local
    ensures Safe(sys, cur, order, d)
  {
    WholeStates(sys, cur);
    ReadNeverLoses(sys, cur, order, d);
    WriteNeverLoses(sys, cur, order, d);
    EvictNeverLoses(sys, cur, order, d);
  }

  /** Every state a whole-array run reaches is safe for every device. */
  lemma WholeRunsAreSafe(gpus: nat, owner: int, data: seq<int>, run: seq<Access>, order: seq<int>, d: int)
    requires CPU_INDEX <= owner < gpus && WholeRun(gpus, |data|, run)
    requires IsOrder(gpus, order) && CPU_INDEX <= d < gpus
    ensures Wellformed(Created(gpus, owner, data))
    ensures var r := End(Created(gpus, owner, data), run);
            r.Some? && Safe(r.value, AfterRun(data, run), order, d)
  {
    WholeRunFromCreation(gpus, owner, data, run);
    WholeStatesAreSafe(End(Created(gpus, owner, data), run).value, AfterRun(data, run), order, d);
  }
}
