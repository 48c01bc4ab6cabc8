/** Each access keeps the invariant of OneArray and shows the task the logical array. */
module OneArraySteps {
  import opened Wrappers
  import opened Protocol
  import opened Buffers
  import opened OneArray

  lemma InvReady(sys: System, cur: seq<int>)
    requires Inv(sys, cur)
    ensures PartsReady(sys.p.local, sys.b, cur)
    ensures TopCopiesAgree(sys.p, sys.b, sys.p.owner, cur)
  {
    forall d | HoldsParts(sys.p.local, d) ensures PartsAgree(sys.b.buffer[d], sys.b.index[d], cur) {
      assert PartsMatch(sys.p.local[d], sys.b.buffer[d], sys.b.index[d], cur);
    }
  }

  lemma NothingEvicted(s: State, b: Buffers, order: seq<int>, dst: int)
    requires Keyed(s) && IsOrder(s.gpus, order)
    ensures Cleared(b, EvictionList(s, order, dst, Shared, None)) == b
  {
    var evicted := EvictionList(s, order, dst, Shared, None);
    forall d ensures d !in evicted { EvictedDevices(s, order, dst, Shared, None, d); }
  }

  /** The devices with parts, their subarrays and their buffers are the same in both systems. */
  ghost predicate SameParts(sys: System, next: System) {
    && next.b.index == sys.b.index
    && (forall d | d in next.b.buffer && next.b.buffer[d].Subarrays? :: d in sys.b.buffer && sys.b.buffer[d].Subarrays?)
    && (forall d {:trigger HoldsParts(next.p.local, d)} :: HoldsParts(next.p.local, d) <==> HoldsParts(sys.p.local, d))
    && (forall d | HoldsParts(next.p.local, d) ::
          d in sys.b.buffer && d in next.b.buffer && next.b.buffer[d] == sys.b.buffer[d]
          && next.p.local[d].states.Keys == sys.p.local[d].states.Keys
          && forall v | v in next.p.local[d].states :: !next.p.local[d].states[v].Invalid?)
  }

  lemma KeepsBookkeeping(sys: System, cur: seq<int>, next: System)
    requires Bookkeeping(sys, cur) && Wellformed(next) && SameParts(sys, next) && next.p.gpus == sys.p.gpus
    ensures Bookkeeping(next, cur)
  {
    forall d | HoldsParts(next.p.local, d)
      ensures PartsMatch(next.p.local[d], next.b.buffer[d], next.b.index[d], cur)
    {
      assert PartsMatch(sys.p.local[d], sys.b.buffer[d], sys.b.index[d], cur);
    }
    forall d | HoldsWhole(next.p.local, d) ensures next.b.index[d].None? && !next.b.buffer[d].Subarrays? {
      assert !HoldsParts(next.p.local, d);
      assert HoldsWhole(sys.p.local, d);
    }
  }

  /** A step that neither opens, closes nor changes a part. */
  lemma KeepsInv(sys: System, cur: seq<int>, next: System)
    requires Inv(sys, cur) && Wellformed(next) && SameParts(sys, next) && next.p.gpus == sys.p.gpus
    requires Versions(next.p) && SingleWriter(next.p.local, next.p.owner) && PartsExclude(next.p.local)
    requires CopiesRight(next.p, next.b, cur)
    requires Valid(next.p.local, next.p.owner) || exists d :: HoldsParts(sys.p.local, d)
    ensures Inv(next, cur)
  {
    KeepsBookkeeping(sys, cur, next);
    if !Valid(next.p.local, next.p.owner) {
      var d :| HoldsParts(sys.p.local, d);
      assert HoldsParts(next.p.local, d);
    }
  }

  /** `t` has the same devices with parts as `s`, and outside `d` the same versions and valid copies. */
  ghost predicate SameOutside(s: State, t: State, d: int) {
    && t.gpus == s.gpus
    && (forall e {:trigger HoldsParts(t.local, e)} :: HoldsParts(t.local, e) <==> HoldsParts(s.local, e))
    && (forall e {:trigger HoldsWhole(t.local, e)} ::
          && (HoldsWhole(t.local, e) <==> HoldsWhole(s.local, e))
          && (e != d ==> Number(t.version, e) == Number(s.version, e) && (Valid(t.local, e) <==> Valid(s.local, e))))
  }

  lemma WholeFetchedShape(s: State, d: int)
    requires Typed(s) && HoldsWhole(s.local, d) && !Valid(s.local, d)
    ensures var t := WholeFetched(s, d);
            && Typed(t) && t.latest == s.latest && Valid(t.local, d) && Number(t.version, d) == s.latest
            && Number(t.version, t.owner) == s.latest
  {
    WholeFetchedTyped(s, d);
  }

  lemma WholeFetchedOutside(s: State, d: int)
    requires Typed(s) && HoldsWhole(s.local, d) && !Valid(s.local, d)
    ensures SameOutside(s, WholeFetched(s, d), d)
    ensures forall e :: !IsModified(WholeFetched(s, d).local, e)
  {
    var t := WholeFetched(s, d);
    assert t.local.Keys == t.version.Keys == s.local.Keys;
    forall e | e != d
      ensures HoldsWhole(t.local, e) <==> HoldsWhole(s.local, e)
      ensures Number(t.version, e) == Number(s.version, e) && (Valid(t.local, e) <==> Valid(s.local, e))
    {
      if e in s.local { assert t.version[e] == s.version[e]; }
    }
  }

  /** Every part becomes shared. */
  ghost predicate PartsShared(before: map<int, Local>, after: map<int, Local>) {
    forall e | HoldsParts(after, e) ::
      HoldsParts(before, e) && after[e].states.Keys == before[e].states.Keys
      && forall v | v in after[e].states :: after[e].states[v].Shared?
  }

  lemma WholeFetchedParts(s: State, d: int)
    requires Typed(s) && HoldsWhole(s.local, d) && !Valid(s.local, d)
    ensures PartsShared(s.local, WholeFetched(s, d).local)
  {
  }

  /** Fetching a right copy for `d` keeps versions and copies right. */
  lemma FetchKeepsCopies(s: State, b: Buffers, cur: seq<int>, d: int, t: State)
    requires Versions(s) && CopiesRight(s, b, cur) && HoldsWhole(s.local, s.owner) && HoldsWhole(s.local, d)
    requires SameOutside(s, t, d) && t.latest == s.latest && HoldsWhole(t.local, t.owner) && d in b.buffer
    requires Valid(t.local, d) && Number(t.version, d) == Number(t.version, t.owner) == s.latest
    ensures Versions(t)
    ensures CopiesRight(t, b.(buffer := b.buffer[d := Full(cur)]), cur)
  {
    forall e | HoldsWhole(t.local, e) && e != d && Number(t.version, e) == s.latest ensures b.buffer[e] == Full(cur) {
      assert Valid(s.local, e);
    }
  }

  lemma FetchKeepsInv(sys: System, cur: seq<int>, d: int, t: State)
    requires Inv(sys, cur) && HoldsWhole(sys.p.local, d) && !Valid(sys.p.local, d)
    requires Typed(t) && t.latest == sys.p.latest && Valid(t.local, d) && Number(t.version, d) == t.latest
    requires Number(t.version, t.owner) == t.latest && SameOutside(sys.p, t, d) && PartsShared(sys.p.local, t.local)
    requires forall e :: !IsModified(t.local, e)
    ensures Inv(System(t, sys.b.(buffer := sys.b.buffer[d := Full(cur)])), cur)
  {
    FetchKeepsCopies(sys.p, sys.b, cur, d, t);
    KeepsInv(sys, cur, System(t, sys.b.(buffer := sys.b.buffer[d := Full(cur)])));
  }

  lemma WholeFetchedIsRight(sys: System, cur: seq<int>, d: int)
    requires Inv(sys, cur) && HoldsWhole(sys.p.local, d) && !Valid(sys.p.local, d)
    ensures Inv(System(WholeFetched(sys.p, d), sys.b.(buffer := sys.b.buffer[d := Full(cur)])), cur)
  {
    WholeFetchedShape(sys.p, d);
    WholeFetchedOutside(sys.p, d);
    WholeFetchedParts(sys.p, d);
    FetchKeepsInv(sys, cur, d, WholeFetched(sys.p, d));
  }

  lemma RunNoop(b: Buffers, gpus: nat, view: Option<View>)
    requires KeyedBuffers(b, gpus)
    ensures RunOps(b, gpus, [Noop], view) == Some(b)
  {
    RunSingle(b, gpus, Noop, view);
  }

  /** Marking a whole copy complete changes nothing else. */
  lemma MarkedComplete(sys: System, cur: seq<int>, d: int)
    requires Inv(sys, cur) && HoldsWhole(sys.p.local, d)
    ensures Inv(System(sys.p.(complete := sys.p.complete[d := Some(true)]), sys.b), cur)
  {
    KeepsInv(sys, cur, System(sys.p.(complete := sys.p.complete[d := Some(true)]), sys.b));
  }

  lemma MarkedReady(sys: System, cur: seq<int>, d: int)
    requires Inv(sys, cur) && HoldsWhole(sys.p.local, d)
    ensures var s1 := sys.p.(complete := sys.p.complete[d := Some(true)]);
            && Keyed(s1) && KeyedBuffers(sys.b, s1.gpus)
            && PartsReady(s1.local, sys.b, cur) && TopCopiesAgree(s1, sys.b, sys.p.owner, cur)
  {
    InvReady(sys, cur);
  }

  lemma FetchGathers(s: State, b: Buffers, order: seq<int>, d: int, top: int, cur: seq<int>, view: Option<View>)
    requires Keyed(s) && KeyedBuffers(b, s.gpus) && IsOrder(s.gpus, order) && HoldsWhole(s.local, d)
    requires PartsReady(s.local, b, cur) && TopCopiesAgree(s, b, top, cur)
    ensures var outcome := WriteBack(s, order, d, Shared, None);
            && outcome.Done?
            && RunOps(b, s.gpus, outcome.ops, view) == Some(b.(buffer := b.buffer[d := Full(cur)]))
  {
    WriteBackGathers(s, b, order, d, Shared, None, top, cur, view);
    NothingEvicted(s, b.(buffer := b.buffer[d := Full(cur)]), order, d);
  }

  lemma WholeFetchExecutes(sys: System, cur: seq<int>, order: seq<int>, d: int, view: Option<View>)
    requires Inv(sys, cur) && IsOrder(sys.p.gpus, order) && HoldsWhole(sys.p.local, d) && !Valid(sys.p.local, d)
    ensures Execute(sys.b, sys.p.gpus, ReadWhole(sys.p, order, d), view)
            == Some(System(WholeFetched(sys.p, d), sys.b.(buffer := sys.b.buffer[d := Full(cur)])))
  {
    var s1 := sys.p.(complete := sys.p.complete[d := Some(true)]);
    MarkedReady(sys, cur, d);
    FetchGathers(s1, sys.b, order, d, sys.p.owner, cur, view);
  }

  /** A whole read at a device without parts. */
  lemma ReadWholeStep(sys: System, cur: seq<int>, order: seq<int>, d: int, view: Option<View>)
    requires Inv(sys, cur) && IsOrder(sys.p.gpus, order) && HoldsWhole(sys.p.local, d)
    ensures var r := Execute(sys.b, sys.p.gpus, ReadWhole(sys.p, order, d), view);
            r.Some? && Inv(r.value, cur) && r.value.b.buffer[d] == Full(cur)
  {
    if Valid(sys.p.local, d) {
      RunNoop(sys.b, sys.p.gpus, view);
      MarkedComplete(sys, cur, d);
    } else {
      WholeFetchExecutes(sys, cur, order, d, view);
      WholeFetchedIsRight(sys, cur, d);
    }
  }

  // ---- a whole read at a device that holds parts ----

  lemma PartsReadShape(s: State, d: int)
    requires Typed(s) && HoldsParts(s.local, d)
    ensures var t := PartsRead(s, d);
            && Typed(t) && t.gpus == s.gpus && t.latest == s.latest
            && Number(t.version, d) == Number(t.version, s.owner) == Number(t.version, t.owner) == s.latest
            && Valid(t.local, d) && Valid(t.local, s.owner)
  {
  }

  lemma PartsReadOutside(s: State, d: int)
    requires Typed(s) && HoldsParts(s.local, d)
    ensures var t := PartsRead(s, d);
            && (forall e {:trigger HoldsWhole(t.local, e)} | e != d && e != s.owner ::
                  && (HoldsWhole(t.local, e) <==> HoldsWhole(s.local, e))
                  && Number(t.version, e) == Number(s.version, e) && (Valid(t.local, e) <==> Valid(s.local, e)))
            && (forall e :: !IsModified(t.local, e))
  {
    var t := PartsRead(s, d);
    assert t.local.Keys == t.version.Keys == s.local.Keys;
    forall e | e != d && e != s.owner
      ensures HoldsWhole(t.local, e) <==> HoldsWhole(s.local, e)
      ensures Number(t.version, e) == Number(s.version, e) && (Valid(t.local, e) <==> Valid(s.local, e))
    {
      if e in s.local { assert t.version[e] == s.version[e]; }
    }
  }

  lemma PartsReadParts(s: State, d: int)
    requires Typed(s) && HoldsParts(s.local, d)
    ensures var t := PartsRead(s, d);
            && PartsShared(s.local, t.local)
            && forall e {:trigger HoldsParts(t.local, e)} ::
                 HoldsParts(t.local, e) <==> HoldsParts(s.local, e) && e != d
  {
  }

  /** The buffers after the parts were gathered into `owner`, the parts of `d` dropped and the array copied there. */
  function PartsReadBuffers(b: Buffers, owner: int, d: int, cur: seq<int>): Buffers {
    Buffers(b.buffer[owner := Full(cur)][d := Full(cur)], b.index[d := None])
  }

  lemma PartsReadCopies(s: State, b: Buffers, cur: seq<int>, d: int)
    requires Typed(s) && Versions(s) && CopiesRight(s, b, cur) && HoldsParts(s.local, d)
    ensures Versions(PartsRead(s, d))
    ensures CopiesRight(PartsRead(s, d), PartsReadBuffers(b, s.owner, d, cur), cur)
  {
    PartsReadShape(s, d);
    PartsReadOutside(s, d);
    var t := PartsRead(s, d);
    assert HoldsWhole(s.local, s.owner);
    forall e | HoldsWhole(t.local, e) && e != d && e != s.owner && Number(t.version, e) == s.latest
      ensures e in b.buffer && b.buffer[e] == Full(cur)
    {
      assert Valid(s.local, e);
    }
  }

  lemma PartsReadBookkeeping(sys: System, cur: seq<int>, d: int)
    requires Bookkeeping(sys, cur) && HoldsParts(sys.p.local, d)
    ensures Bookkeeping(System(PartsRead(sys.p, d), PartsReadBuffers(sys.b, sys.p.owner, d, cur)), cur)
  {
    PartsReadShape(sys.p, d);
    PartsReadParts(sys.p, d);
    var next := System(PartsRead(sys.p, d), PartsReadBuffers(sys.b, sys.p.owner, d, cur));
    forall e | HoldsParts(next.p.local, e)
      ensures PartsMatch(next.p.local[e], next.b.buffer[e], next.b.index[e], cur)
    {
      assert PartsMatch(sys.p.local[e], sys.b.buffer[e], sys.b.index[e], cur);
    }
    forall e | HoldsWhole(next.p.local, e) ensures next.b.index[e].None? {
      assert !HoldsParts(next.p.local, e);
      assert e == d || HoldsWhole(sys.p.local, e);
    }
    DroppedDisjoint(sys.b.index, d);
  }

  lemma DroppedDisjoint(index: IndexMap, d: int)
    requires Disjoint(index)
    ensures Disjoint(index[d := None])
  {
    var next := index[d := None];
    forall e, k, f, l, x | InPart(next, e, k, x) && InPart(next, f, l, x) ensures e == f && k == l {
      assert InPart(index, e, k, x) && InPart(index, f, l, x);
    }
  }

  /** The first part of a whole access at a device with parts: the owner gathers them. */
  lemma GathersAtOwner(sys: System, cur: seq<int>, order: seq<int>, target: Msi)
    requires Inv(sys, cur) && IsOrder(sys.p.gpus, order)
    ensures HoldsWhole(sys.p.local, sys.p.owner) && PartsReady(sys.p.local, sys.b, cur)
    ensures sys.b.index[sys.p.owner].None?
    ensures var r := WriteBack(sys.p, order, sys.p.owner, target, None);
            && r.Done? && r.state == WrittenBack(sys.p, sys.p.owner, target)
            && RunOps(sys.b, sys.p.gpus, r.ops, None)
               == Some(Cleared(sys.b.(buffer := sys.b.buffer[sys.p.owner := Full(cur)]),
                               EvictionList(sys.p, order, sys.p.owner, target, None)))
  {
    InvReady(sys, cur);
    assert HoldsWhole(sys.p.local, sys.p.owner);
    WriteBackGathers(sys.p, sys.b, order, sys.p.owner, target, None, sys.p.owner, cur, None);
  }

  lemma PartsReadExecutes(sys: System, cur: seq<int>, order: seq<int>, d: int)
    requires Inv(sys, cur) && IsOrder(sys.p.gpus, order) && HoldsParts(sys.p.local, d)
    ensures Execute(sys.b, sys.p.gpus, ReadOverParts(sys.p, order, d), None)
            == Some(System(PartsRead(sys.p, d), PartsReadBuffers(sys.b, sys.p.owner, d, cur)))
  {
    var owner := sys.p.owner;
    GathersAtOwner(sys, cur, order, Shared);
    var b1 := sys.b.(buffer := sys.b.buffer[owner := Full(cur)]);
    NothingEvicted(sys.p, b1, order, owner);
    ReloadFrom(b1, sys.p.gpus, owner, d, cur);
    var ops := WriteBack(sys.p, order, owner, Shared, None).ops;
    RunOpsAppend(sys.b, sys.p.gpus, ops, [Evict(d), Load(d, owner, false)], None);
    Executes(sys.b, sys.p.gpus, PartsRead(sys.p, d), ops + [Evict(d), Load(d, owner, false)], None,
             PartsReadBuffers(sys.b, owner, d, cur));
  }

  lemma ReloadFrom(b: Buffers, gpus: nat, owner: int, d: int, cur: seq<int>)
    requires KeyedBuffers(b, gpus) && d in b.buffer && owner in b.buffer && d != owner
    requires b.buffer[owner] == Full(cur) && b.index[owner].None?
    ensures RunOps(b, gpus, [Evict(d), Load(d, owner, false)], None)
            == Some(Buffers(b.buffer[d := Full(cur)], b.index[d := None]))
  {
    var b1 := Clear(b, d);
    assert b1.buffer[d := Full(cur)] == b.buffer[d := Full(cur)];
    LoadWholeFirst(b1, gpus, d, owner, [], None);
    assert Loads(d, [owner] + []) == [Load(d, owner, false)];
    assert [Evict(d), Load(d, owner, false)][1..] == [Load(d, owner, false)];
    assert RunOp(b, gpus, Evict(d), None) == Some(b1);
  }

  lemma ReadOverPartsStep(sys: System, cur: seq<int>, order: seq<int>, d: int)
    requires Inv(sys, cur) && IsOrder(sys.p.gpus, order) && HoldsParts(sys.p.local, d)
    ensures var r := Execute(sys.b, sys.p.gpus, ReadOverParts(sys.p, order, d), None);
            r.Some? && Inv(r.value, cur) && r.value.b.buffer[d] == Full(cur)
  {
    PartsReadExecutes(sys, cur, order, d);
    PartsReadBookkeeping(sys, cur, d);
    PartsReadCopies(sys.p, sys.b, cur, d);
    PartsReadShape(sys.p, d);
    PartsReadOutside(sys.p, d);
    PartsReadParts(sys.p, d);
  }

  // ---- a whole write at a device without parts ----

  /** The only valid copy is `d`'s, it belongs to the owner, and no device holds parts. */
  ghost predicate SoleCopy(s: State, d: int) {
    && s.owner == d && HoldsWhole(s.local, d) && s.local[d] == Whole(Modified)
    && Number(s.version, d) == s.latest >= 0
    && forall e | e in s.local && e != d :: s.local[e] == Whole(Invalid) && -1 <= Number(s.version, e) < s.latest
  }

  lemma SoleCopyIsRight(next: System, cur: seq<int>, d: int)
    requires Wellformed(next) && SoleCopy(next.p, d) && next.b.buffer[d] == Full(cur)
    requires forall e | e in next.b.index :: next.b.index[e].None? && !next.b.buffer[e].Subarrays?
    ensures Inv(next, cur)
  {
  }

  lemma InitialIsSole(gpus: nat, d: int)
    requires CPU_INDEX <= d < gpus
    ensures Typed(Initial(gpus, d)) && SoleCopy(Initial(gpus, d), d)
  {
  }

  /** The state after `d` became the only copy by a whole write. */
  function WholeClaimed(s: State, d: int): State
    requires Keyed(s) && d in s.local
  {
    var w := WrittenBack(s.(complete := s.complete[d := Some(true)]), d, Modified);
    w.(latest := s.latest + 1, version := w.version[d := At(s.latest + 1)], owner := d,
       local := w.local[d := Whole(Modified)])
  }

  lemma OtherIsInvalid(s: State, d: int, e: int)
    requires Typed(s) && Versions(s) && HoldsWhole(s.local, d) && e in s.local && e != d
    ensures var t := WholeClaimed(s, d);
            && e in t.local && e in t.version
            && t.local[e] == Whole(Invalid) && t.version[e].At? && -1 <= t.version[e].number < t.latest
  {
    assert HoldsWhole(s.local, e) ==> -1 <= Number(s.version, e) <= Number(s.version, s.owner);
  }

  lemma WholeClaimedShape(s: State, d: int)
    requires Typed(s) && Versions(s) && HoldsWhole(s.local, d)
    ensures var t := WholeClaimed(s, d);
            Typed(t) && t.gpus == s.gpus && t.local.Keys == s.local.Keys && SoleCopy(t, d)
  {
    var t := WholeClaimed(s, d);
    assert t.local.Keys == t.version.Keys == s.local.Keys;
    forall e | e in s.local && e != d
      ensures t.local[e] == Whole(Invalid) && t.version[e].At? && -1 <= t.version[e].number < t.latest
    {
      OtherIsInvalid(s, d, e);
    }
  }

  /** Raising the version before the write-back or after it gives the same state. */
  lemma BumpedVersions(s: State, d: int)
    requires Keyed(s) && HoldsWhole(s.local, d)
    ensures var s1 := s.(complete := s.complete[d := Some(true)]);
            && Keyed(s1) && Keyed(Bumped(s1, d))
            && WrittenBack(Bumped(s1, d).(owner := d), d, Modified).version
               == WrittenBack(s1, d, Modified).version[d := At(s.latest + 1)]
  {
    var s1 := s.(complete := s.complete[d := Some(true)]);
    var a, b := WrittenBack(Bumped(s1, d).(owner := d), d, Modified).version, WrittenBack(s1, d, Modified).version;
    assert a.Keys == b[d := At(s.latest + 1)].Keys;
    assert forall e | e in a :: a[e] == b[d := At(s.latest + 1)][e];
  }

  lemma BumpedBefore(s: State, d: int)
    requires Keyed(s) && HoldsWhole(s.local, d)
    ensures var w := WrittenBack(Bumped(s.(complete := s.complete[d := Some(true)]), d).(owner := d), d, Modified);
            w.(local := w.local[d := Whole(Modified)]) == WholeClaimed(s, d)
  {
    var s1 := s.(complete := s.complete[d := Some(true)]);
    var w, t := WrittenBack(Bumped(s1, d).(owner := d), d, Modified), WholeClaimed(s, d);
    assert w.local == WrittenBack(s1, d, Modified).local && w.complete == t.complete;
    BumpedVersions(s, d);
  }

  lemma BumpedAfter(s: State, d: int)
    requires Keyed(s) && HoldsWhole(s.local, d)
    ensures var w := WrittenBack(s.(complete := s.complete[d := Some(true)]), d, Modified);
            Bumped(w, d).(owner := d, local := w.local[d := Whole(Modified)]) == WholeClaimed(s, d)
  {
  }

  ghost predicate ClaimedBy(r: Option<System>, p: State, d: int, cur: seq<int>) {
    && r.Some? && r.value.p == p
    && d in r.value.b.buffer && r.value.b.buffer[d] == Full(cur)
    && forall e | e in r.value.b.index ::
        r.value.b.index[e].None? && e in r.value.b.buffer && !r.value.b.buffer[e].Subarrays?
  }

  lemma ClaimFromShared(sys: System, cur: seq<int>, order: seq<int>, d: int, view: Option<View>)
    requires Inv(sys, cur) && IsOrder(sys.p.gpus, order)
    requires Valid(sys.p.local, d) && !IsModified(sys.p.local, d) && d != sys.p.owner
    ensures ClaimedBy(Execute(sys.b, sys.p.gpus, WriteWhole(sys.p, order, d), view), WholeClaimed(sys.p, d), d, cur)
  {
    var s2 := Bumped(sys.p.(complete := sys.p.complete[d := Some(true)]), d).(owner := d);
    InvReady(sys, cur);
    BumpedIsTop(sys, cur, d);
    WriteBackGathers(s2, sys.b, order, d, Modified, None, d, cur, view);
    PartsEvicted(s2, sys.b, order, d, cur, None);
    BumpedBefore(sys.p, d);
  }

  lemma ClaimDirectly(sys: System, cur: seq<int>, order: seq<int>, d: int, view: Option<View>)
    requires Inv(sys, cur) && IsOrder(sys.p.gpus, order) && HoldsWhole(sys.p.local, d)
    requires !IsModified(sys.p.local, d) && (!Valid(sys.p.local, d) || d == sys.p.owner)
    ensures ClaimedBy(Execute(sys.b, sys.p.gpus, WriteWhole(sys.p, order, d), view), WholeClaimed(sys.p, d), d, cur)
  {
    var b1 := ClaimExecutes(sys, cur, order, d, view);
    InvReady(sys, cur);
    PartsEvicted(sys.p.(complete := sys.p.complete[d := Some(true)]), sys.b, order, d, cur, None);
  }

  lemma ClaimExecutes(sys: System, cur: seq<int>, order: seq<int>, d: int, view: Option<View>) returns (b1: Buffers)
    requires Inv(sys, cur) && IsOrder(sys.p.gpus, order) && HoldsWhole(sys.p.local, d)
    requires !IsModified(sys.p.local, d) && (!Valid(sys.p.local, d) || d == sys.p.owner)
    ensures Execute(sys.b, sys.p.gpus, WriteWhole(sys.p, order, d), view) == Some(System(WholeClaimed(sys.p, d), b1))
    ensures var s1 := sys.p.(complete := sys.p.complete[d := Some(true)]);
            && Keyed(s1)
            && b1 == Cleared(sys.b.(buffer := sys.b.buffer[d := Full(cur)]), EvictionList(s1, order, d, Modified, None))
  {
    b1 := ClaimRuns(sys, cur, order, d, view);
    DirectClaim(sys.p, order, d);
    var s1 := sys.p.(complete := sys.p.complete[d := Some(true)]);
    Executes(sys.b, sys.p.gpus, WholeClaimed(sys.p, d), WriteBack(s1, order, d, Modified, None).ops, view, b1);
  }

  lemma Executes(b: Buffers, gpus: nat, p: State, ops: seq<Op>, view: Option<View>, b1: Buffers)
    requires KeyedBuffers(b, gpus) && RunOps(b, gpus, ops, view) == Some(b1)
    ensures Execute(b, gpus, Done(p, ops), view) == Some(System(p, b1))
  {
  }

  /** The branch of `write` that claims a whole copy directly. */
  lemma DirectClaim(s: State, order: seq<int>, d: int)
    requires Typed(s) && IsOrder(s.gpus, order) && HoldsWhole(s.local, d)
    requires !IsModified(s.local, d) && (!Valid(s.local, d) || d == s.owner)
    ensures var r := WriteBack(s.(complete := s.complete[d := Some(true)]), order, d, Modified, None);
            r.Done? && r.state == WrittenBack(s.(complete := s.complete[d := Some(true)]), d, Modified) ==>
              WriteWhole(s, order, d) == Done(WholeClaimed(s, d), r.ops)
  {
    BumpedAfter(s, d);
  }

  lemma ClaimRuns(sys: System, cur: seq<int>, order: seq<int>, d: int, view: Option<View>) returns (b1: Buffers)
    requires Inv(sys, cur) && IsOrder(sys.p.gpus, order) && HoldsWhole(sys.p.local, d)
    ensures var s1 := sys.p.(complete := sys.p.complete[d := Some(true)]);
            && Keyed(s1)
            && var r := WriteBack(s1, order, d, Modified, None);
            && r.Done? && r.state == WrittenBack(s1, d, Modified) && RunOps(sys.b, sys.p.gpus, r.ops, view) == Some(b1)
            && b1 == Cleared(sys.b.(buffer := sys.b.buffer[d := Full(cur)]), EvictionList(s1, order, d, Modified, None))
    ensures PartsReady(sys.p.local, sys.b, cur)
  {
    var s1 := sys.p.(complete := sys.p.complete[d := Some(true)]);
    InvReady(sys, cur);
    WriteBackGathers(s1, sys.b, order, d, Modified, None, sys.p.owner, cur, view);
    b1 := Cleared(sys.b.(buffer := sys.b.buffer[d := Full(cur)]), EvictionList(s1, order, d, Modified, None));
  }

  /** It also clears every buffer that held parts, and those that are empty stay so. */
  lemma ClaimClears(sys: System, cur: seq<int>, order: seq<int>, d: int, e: int)
    requires Inv(sys, cur) && IsOrder(sys.p.gpus, order) && HoldsWhole(sys.p.local, d)
    requires !IsModified(sys.p.local, d) && (!Valid(sys.p.local, d) || d == sys.p.owner)
    requires e in sys.b.buffer && e != d && (HoldsParts(sys.p.local, e) || sys.b.buffer[e].Empty?)
    ensures var r := Execute(sys.b, sys.p.gpus, WriteWhole(sys.p, order, d), None);
            r.Some? && e in r.value.b.buffer && r.value.b.buffer[e].Empty?
  {
    var b1 := ClaimExecutes(sys, cur, order, d, None);
    ClearsAt(sys.p.(complete := sys.p.complete[d := Some(true)]), sys.b, order, d, cur, e);
  }

  lemma ClearsAt(s: State, b: Buffers, order: seq<int>, d: int, cur: seq<int>, e: int)
    requires Keyed(s) && IsOrder(s.gpus, order) && d in b.buffer && e in b.buffer && e != d
    requires HoldsParts(s.local, e) || b.buffer[e].Empty?
    ensures var r := Cleared(b.(buffer := b.buffer[d := Full(cur)]), EvictionList(s, order, d, Modified, None));
            e in r.buffer && r.buffer[e].Empty?
  {
    EvictedDevices(s, order, d, Modified, None, e);
  }

  lemma BumpedIsTop(sys: System, cur: seq<int>, d: int)
    requires Inv(sys, cur) && Valid(sys.p.local, d)
    ensures var s2 := Bumped(sys.p.(complete := sys.p.complete[d := Some(true)]), d).(owner := d);
            Keyed(s2) && TopCopiesAgree(s2, sys.b, d, cur)
  {
    var s2 := Bumped(sys.p.(complete := sys.p.complete[d := Some(true)]), d).(owner := d);
    forall e | HoldsWhole(s2.local, e) && e != d ensures -1 <= Number(s2.version, e) < Number(s2.version, d) {
      assert Number(s2.version, e) == Number(sys.p.version, e);
    }
  }

  /** Whoever has an index map, or slices, or nothing, is evicted. */
  lemma PartIsEvicted(s: State, b: Buffers, order: seq<int>, dst: int, cur: seq<int>, keep: Option<int>, e: int)
    requires Keyed(s) && IsOrder(s.gpus, order) && HoldsWhole(s.local, dst) && PartsReady(s.local, b, cur)
    requires e in b.index && (b.index[e].Some? || e !in b.buffer || b.buffer[e].Subarrays?)
    ensures e in EvictionList(s, order, dst, Modified, keep)
  {
    assert !HoldsWhole(s.local, e) && HoldsParts(s.local, e);
    EvictedDevices(s, order, dst, Modified, keep, e);
  }

  /** After a write-back for writing, no index map is left. */
  lemma PartsEvicted(s: State, b: Buffers, order: seq<int>, dst: int, cur: seq<int>, keep: Option<int>)
    requires Keyed(s) && IsOrder(s.gpus, order) && HoldsWhole(s.local, dst) && PartsReady(s.local, b, cur)
    requires dst in b.buffer
    ensures var r := Cleared(b.(buffer := b.buffer[dst := Full(cur)]), EvictionList(s, order, dst, Modified, keep));
            && r.buffer[dst] == Full(cur)
            && forall e | e in r.index :: r.index[e].None? && e in r.buffer && !r.buffer[e].Subarrays?
  {
    EvictedDevices(s, order, dst, Modified, keep, dst);
    forall e | e in b.index && (b.index[e].Some? || e !in b.buffer || b.buffer[e].Subarrays?)
      ensures e in EvictionList(s, order, dst, Modified, keep)
    {
      PartIsEvicted(s, b, order, dst, cur, keep, e);
    }
  }

  /** A whole write at a device without parts, and the task's store. A modified owner does not look for parts. */
  lemma WriteWholeStep(sys: System, cur: seq<int>, order: seq<int>, d: int, view: Option<View>, values: seq<int>)
    requires Inv(sys, cur) && IsOrder(sys.p.gpus, order) && HoldsWhole(sys.p.local, d)
    requires IsModified(sys.p.local, d) ==> forall e :: !HoldsParts(sys.p.local, e)
    ensures var r := Execute(sys.b, sys.p.gpus, WriteWhole(sys.p, order, d), view);
            && r.Some? && d in r.value.b.buffer && d in r.value.b.index && r.value.b.buffer[d] == Full(cur)
            && Inv(System(r.value.p, r.value.b.(buffer := r.value.b.buffer[d := Full(values)])), values)
  {
    if IsModified(sys.p.local, d) {
      RunNoop(sys.b, sys.p.gpus, view);
      assert Valid(sys.p.local, d);
      StoreAtOwner(sys, cur, d, values);
    } else {
      if Valid(sys.p.local, d) && d != sys.p.owner {
        ClaimFromShared(sys, cur, order, d, view);
      } else {
        ClaimDirectly(sys, cur, order, d, view);
      }
      var r := Execute(sys.b, sys.p.gpus, WriteWhole(sys.p, order, d), view);
      StoreAtClaimant(sys, cur, r.value, d, values);
    }
  }

  lemma StoreAtClaimant(sys: System, cur: seq<int>, r: System, d: int, values: seq<int>)
    requires Inv(sys, cur) && HoldsWhole(sys.p.local, d) && KeyedBuffers(r.b, sys.p.gpus)
    requires ClaimedBy(Some(r), WholeClaimed(sys.p, d), d, cur)
    ensures Inv(System(r.p, r.b.(buffer := r.b.buffer[d := Full(values)])), values)
  {
    WholeClaimedShape(sys.p, d);
    var next := System(r.p, r.b.(buffer := r.b.buffer[d := Full(values)]));
    assert Wellformed(next) && SoleCopy(next.p, d) && next.b.index == r.b.index;
    SoleCopyIsRight(next, values, d);
  }

  lemma StoreAtOwner(sys: System, cur: seq<int>, d: int, values: seq<int>)
    requires Inv(sys, cur) && IsModified(sys.p.local, d) && forall e :: !HoldsParts(sys.p.local, e)
    ensures Inv(System(sys.p.(complete := sys.p.complete[d := Some(true)]),
                       sys.b.(buffer := sys.b.buffer[d := Full(values)])), values)
  {
    var next := System(sys.p.(complete := sys.p.complete[d := Some(true)]),
                       sys.b.(buffer := sys.b.buffer[d := Full(values)]));
    assert Valid(sys.p.local, d);
    forall e | e in sys.p.local
      ensures next.b.index[e].None? && !next.b.buffer[e].Subarrays? && (e != d ==> sys.p.local[e] == Whole(Invalid)) {
      assert !HoldsParts(sys.p.local, e) && HoldsWhole(sys.p.local, e);
      assert Valid(sys.p.local, e) ==> e == d;
    }
    SoleCopyIsRight(next, values, d);
  }

  // ---- evict ----

  /** The state after the last copy, at `d`, was written back to the CPU. */
  function WrittenToCpu(s: State, d: int): State
    requires Keyed(s) && CPU_INDEX in s.local
  {
    var w := WrittenBack(s, CPU_INDEX, Modified);
    w.(owner := CPU_INDEX, local := w.local[CPU_INDEX := Whole(Modified)], complete := w.complete[d := Some(true)])
  }

  lemma WrittenToCpuShape(s: State, d: int)
    requires Typed(s) && Versions(s) && d in s.local && d != CPU_INDEX && HoldsWhole(s.local, CPU_INDEX)
    ensures var t := WrittenToCpu(s, d);
            Typed(t) && t.gpus == s.gpus && t.local.Keys == s.local.Keys && SoleCopy(t, CPU_INDEX)
  {
    var t := WrittenToCpu(s, d);
    assert t.local.Keys == t.version.Keys == s.local.Keys;
    forall e | e in s.local && e != CPU_INDEX
      ensures t.local[e] == Whole(Invalid) && t.version[e].At? && -1 <= t.version[e].number < t.latest
    {
      assert HoldsWhole(s.local, e) ==> -1 <= Number(s.version, e) <= Number(s.version, s.owner);
    }
  }

  lemma EvictLast(sys: System, cur: seq<int>, order: seq<int>, d: int)
    requires Inv(sys, cur) && IsOrder(sys.p.gpus, order) && d in sys.p.local && d != CPU_INDEX
    requires EvictsLastCopy(sys.p, d) && HoldsWhole(sys.p.local, CPU_INDEX)
    ensures ClaimedBy(Execute(sys.b, sys.p.gpus, EvictCopy(sys.p, order, d), None), WrittenToCpu(sys.p, d), CPU_INDEX,
                      cur)
  {
    InvReady(sys, cur);
    WriteBackGathers(sys.p, sys.b, order, CPU_INDEX, Modified, Some(d), sys.p.owner, cur, None);
    PartsEvicted(sys.p, sys.b, order, CPU_INDEX, cur, Some(d));
  }

  /** The state after a shared copy that is not the owner's was dropped. */
  function CopyDropped(s: State, d: int): State {
    s.(local := s.local[d := Whole(Invalid)], version := s.version[d := At(-1)], complete := s.complete[d := None])
  }

  lemma NothingModified(local: map<int, Local>, owner: int, d: int)
    requires SingleWriter(local, owner) && PartsExclude(local) && Valid(local, d) && d != owner
    ensures forall e :: !IsModified(local, e)
    ensures forall e, v :: !IsModifiedPart(local, e, v)
  {
  }

  lemma DroppedVersions(s: State, d: int)
    requires Typed(s) && Versions(s) && Valid(s.local, d) && d != s.owner
    ensures Versions(CopyDropped(s, d))
  {
    var t := CopyDropped(s, d);
    forall e | HoldsWhole(t.local, e) && e != d
      ensures Number(t.version, e) == Number(s.version, e)
              && HoldsWhole(s.local, e) && (Valid(t.local, e) <==> Valid(s.local, e)) {}
    assert HoldsWhole(s.local, s.owner);
  }

  lemma DropShared(sys: System, cur: seq<int>, d: int)
    requires Inv(sys, cur) && Valid(sys.p.local, d) && d != sys.p.owner
    ensures Inv(System(CopyDropped(sys.p, d), Clear(sys.b, d)), cur)
  {
    var next := System(CopyDropped(sys.p, d), Clear(sys.b, d));
    DroppedVersions(sys.p, d);
    NothingModified(sys.p.local, sys.p.owner, d);
    assert forall e :: IsModified(next.p.local, e) ==> IsModified(sys.p.local, e);
    assert forall e, v :: IsModifiedPart(next.p.local, e, v) ==> IsModifiedPart(sys.p.local, e, v);
    DroppedCopiesRight(sys, cur, d);
    assert next.b.index == sys.b.index;
    assert forall e :: HoldsParts(next.p.local, e) ==> PartsMatch(sys.p.local[e], sys.b.buffer[e], sys.b.index[e], cur);
    KeepsInv(sys, cur, next);
  }

  lemma DroppedCopiesRight(sys: System, cur: seq<int>, d: int)
    requires Inv(sys, cur) && Valid(sys.p.local, d) && d != sys.p.owner
    ensures CopiesRight(CopyDropped(sys.p, d), Clear(sys.b, d), cur)
    ensures Clear(sys.b, d).index == sys.b.index
  {
    assert sys.b.index[d].None?;
    var t := CopyDropped(sys.p, d);
    forall e | HoldsWhole(t.local, e) && e != d
      ensures HoldsWhole(sys.p.local, e) && Number(t.version, e) == Number(sys.p.version, e)
              && (Valid(t.local, e) <==> Valid(sys.p.local, e)) {}
  }

  /** Evicting with `keep_one_copy` keeps the invariant, unless the last copy goes to a CPU that holds parts. */
  lemma EvictStep(sys: System, cur: seq<int>, order: seq<int>, d: int)
    requires Inv(sys, cur) && IsOrder(sys.p.gpus, order) && d in sys.p.local
    requires EvictsLastCopy(sys.p, d) && d != CPU_INDEX ==> HoldsWhole(sys.p.local, CPU_INDEX)
    ensures var r := Execute(sys.b, sys.p.gpus, EvictCopy(sys.p, order, d), None);
            r.Some? && Inv(r.value, cur)
  {
    RunNoop(sys.b, sys.p.gpus, None);
    if EvictsLastCopy(sys.p, d) {
      if d != CPU_INDEX {
        EvictLast(sys, cur, order, d);
        WrittenToCpuShape(sys.p, d);
        var r := Execute(sys.b, sys.p.gpus, EvictCopy(sys.p, order, d), None);
        SoleCopyIsRight(r.value, cur, CPU_INDEX);
      }
    } else if Valid(sys.p.local, d) && d != sys.p.owner {
      DropShared(sys, cur, d);
      RunSingle(sys.b, sys.p.gpus, Evict(d), None);
    }
  }

  // ---- update ----

  /** Replacing the array keeps the invariant, unless another device's index map is still there. */
  lemma UpdateStep(sys: System, cur: seq<int>, d: int, data: seq<int>)
    requires Inv(sys, cur) && d in sys.p.local
    requires forall e | HoldsParts(sys.p.local, e) :: e == d
    ensures Inv(Updated(sys, d, data), data) && Updated(sys, d, data).b.buffer[d] == Full(data)
  {
    var next := Updated(sys, d, data);
    InitialIsSole(sys.p.gpus, d);
    forall e | e in next.b.index ensures next.b.index[e].None? && !next.b.buffer[e].Subarrays? {
      if e != d {
        assert !HoldsParts(sys.p.local, e);
        assert HoldsWhole(sys.p.local, e);
      }
    }
    SoleCopyIsRight(next, data, d);
  }
}
