/** Subarray accesses: loading a part from the owner, and the task's store into a part. */
module OneArrayParts {
  import opened Wrappers
  import opened Protocol
  import opened Buffers
  import opened OneArray
  import opened OneArraySteps

  /** The assumption the protocol states: a view that is loaded is disjoint from every part already loaded,
      and the device is not the owner and has no stale whole buffer. */
  ghost predicate CanAccessPart(sys: System, cur: seq<int>, d: int, v: View)
    requires Wellformed(sys) && d in sys.p.local
  {
    && d != sys.p.owner && Fits(v.positions, |cur|) && Distinct(v.positions)
    && (PartState(sys.p, d, v).Invalid? ==>
          && (HoldsParts(sys.p.local, d) || sys.b.buffer[d].Empty?)
          && forall x | x in v.positions :: !Covered(sys.b.index, x))
  }

  function PartsOf(b: Buffer): seq<seq<int>> {
    if b.Subarrays? then b.parts else []
  }

  function ViewsOf(views: Option<seq<View>>): seq<View> {
    if views.Some? then views.value else []
  }

  /** The buffers after the part `v` of `cur` was appended at `d`. */
  function PartAppended(b: Buffers, d: int, v: View, cur: seq<int>): Buffers
    requires d in b.buffer && d in b.index && Fits(v.positions, |cur|)
  {
    Buffers(b.buffer[d := Subarrays(PartsOf(b.buffer[d]) + [Gather(cur, v.positions)])],
            b.index[d := Some(ViewsOf(b.index[d]) + [v])])
  }

  lemma LoadPart(b: Buffers, gpus: nat, owner: int, d: int, v: View, cur: seq<int>)
    requires KeyedBuffers(b, gpus) && d in b.buffer && owner in b.buffer && d != owner
    requires AgreesOffParts(b.buffer[owner], b.index, cur) && b.index[owner].None?
    requires !b.buffer[d].Full?
    requires Fits(v.positions, |cur|) && forall x | x in v.positions :: !Covered(b.index, x)
    ensures RunOp(b, gpus, Load(d, owner, true), Some(v)) == Some(PartAppended(b, d, v, cur))
  {
    var data := b.buffer[owner].data;
    assert Gather(data, v.positions) == Gather(cur, v.positions) by {
      forall i | 0 <= i < |v.positions| ensures data[v.positions[i]] == cur[v.positions[i]] {
        assert v.positions[i] in v.positions;
      }
    }
    var b1 := SetMapping(b, d, v);
    assert LastView(b1.index[d]) == Some(v);
    assert CopyData(b1, d, owner) == Some(PartAppended(b, d, v, cur));
  }

  /** `t` is `s` with part `v` added at `d`; the other devices hold parts as before. */
  ghost predicate PartAdded(s: map<int, Local>, t: map<int, Local>, d: int, v: View) {
    && HoldsParts(t, d)
    && (forall e {:trigger HoldsParts(t, e)} :: HoldsParts(t, e) <==> HoldsParts(s, e) || e == d)
    && (forall e | HoldsParts(t, e) && e != d :: t[e] == s[e])
    && (forall w :: w in t[d].states <==> (HoldsParts(s, d) && w in s[d].states) || w == v)
    && (forall w | w in t[d].states && w != v :: t[d].states[w] == s[d].states[w])
    && !t[d].states[v].Invalid?
  }

  lemma AppendedPartsAgree(b: Buffers, d: int, v: View, cur: seq<int>)
    requires d in b.buffer && d in b.index && Fits(v.positions, |cur|) && Distinct(v.positions)
    requires (b.index[d].None? && b.buffer[d].Empty?) || PartsAgree(b.buffer[d], b.index[d], cur)
    ensures PartsAgree(PartAppended(b, d, v, cur).buffer[d], PartAppended(b, d, v, cur).index[d], cur)
  {
    var views := ViewsOf(b.index[d]);
    var next := PartAppended(b, d, v, cur);
    forall k | 0 <= k <= |views|
      ensures PartAgrees(next.buffer[d].parts[k], next.index[d].value[k], cur)
    {
      if k < |views| { assert PartAgrees(b.buffer[d].parts[k], views[k], cur); }
    }
  }

  lemma AppendedDisjoint(b: Buffers, d: int, v: View, cur: seq<int>)
    requires d in b.buffer && d in b.index && Fits(v.positions, |cur|) && Disjoint(b.index)
    requires forall x | x in v.positions :: !Covered(b.index, x)
    ensures Disjoint(PartAppended(b, d, v, cur).index)
    ensures forall x: nat :: Covered(b.index, x) ==> Covered(PartAppended(b, d, v, cur).index, x)
  {
    var views, index := ViewsOf(b.index[d]), PartAppended(b, d, v, cur).index;
    forall e, k, x | InPart(b.index, e, k, x) ensures InPart(index, e, k, x) {}
    forall e, k, x | InPart(index, e, k, x)
      ensures InPart(b.index, e, k, x) || (e == d && k == |views| && !Covered(b.index, x))
    {
      if e == d && k == |views| { assert x in v.positions; }
    }
  }

  lemma AddedMatches(sys: System, cur: seq<int>, d: int, v: View, local: map<int, Local>, e: int)
    requires Bookkeeping(sys, cur) && d in sys.p.local && CanAccessPart(sys, cur, d, v)
    requires PartState(sys.p, d, v).Invalid? && PartAdded(sys.p.local, local, d, v) && HoldsParts(local, e)
    ensures var b := PartAppended(sys.b, d, v, cur);
            e in b.buffer && e in b.index && PartsMatch(local[e], b.buffer[e], b.index[e], cur)
  {
    var index := PartAppended(sys.b, d, v, cur).index;
    if e == d {
      assert HoldsParts(sys.p.local, d) ==> PartsMatch(sys.p.local[d], sys.b.buffer[d], sys.b.index[d], cur);
      assert !HoldsParts(sys.p.local, d) ==> HoldsWhole(sys.p.local, d);
      AppendedPartsAgree(sys.b, d, v, cur);
      assert index[d].value == ViewsOf(sys.b.index[d]) + [v];
    } else {
      assert PartsMatch(sys.p.local[e], sys.b.buffer[e], sys.b.index[e], cur);
    }
  }

  lemma AddedBookkeeping(sys: System, cur: seq<int>, d: int, v: View, p: State)
    requires Bookkeeping(sys, cur) && d in sys.p.local && CanAccessPart(sys, cur, d, v)
    requires PartState(sys.p, d, v).Invalid?
    requires Typed(p) && p.gpus == sys.p.gpus && PartAdded(sys.p.local, p.local, d, v)
    ensures Bookkeeping(System(p, PartAppended(sys.b, d, v, cur)), cur)
  {
    var next := System(p, PartAppended(sys.b, d, v, cur));
    AppendedDisjoint(sys.b, d, v, cur);
    forall e | HoldsParts(p.local, e)
      ensures PartsMatch(p.local[e], next.b.buffer[e], next.b.index[e], cur)
    {
      AddedMatches(sys, cur, d, v, p.local, e);
    }
    forall e | HoldsWhole(p.local, e) ensures next.b.index[e].None? && !next.b.buffer[e].Subarrays? {
      assert !HoldsParts(p.local, e);
      assert HoldsWhole(sys.p.local, e);
    }
  }

  // ---- reading a part ----

  function PartRead(s: State, d: int, v: View): State
    requires Typed(s) && d in s.local
  {
    SetPart(Opened(s, d), d, v, Shared, Number(s.version, s.owner))
  }

  /** `t` has the whole copies of `s` except at `d`, with the same states and versions. */
  ghost predicate SameWholesBut(s: State, t: State, d: int) {
    && t.gpus == s.gpus && t.owner == s.owner
    && !HoldsWhole(t.local, d)
    && forall e {:trigger HoldsWhole(t.local, e)} | e != d ::
         && (HoldsWhole(t.local, e) <==> HoldsWhole(s.local, e))
         && Number(t.version, e) == Number(s.version, e)
  }

  lemma PartReadShape(s: State, d: int, v: View)
    requires Typed(s) && d in s.local && d != s.owner && PartState(s, d, v).Invalid?
    ensures var t := PartRead(s, d, v);
            && Typed(t) && t.latest == s.latest && SameWholesBut(s, t, d) && PartAdded(s.local, t.local, d, v)
            && t.local[d].states[v] == Shared
            && forall e {:trigger Valid(t.local, e)} | e != d :: Valid(t.local, e) <==> Valid(s.local, e)
  {
  }

  /** Dropping one useless whole copy and covering more positions leaves the remaining copies right. */
  lemma CopiesStayRight(s: State, b: Buffers, t: State, d: int, v: View, cur: seq<int>)
    requires CopiesRight(s, b, cur) && SameWholesBut(s, t, d) && t.owner != d
    requires forall e | Valid(t.local, e) && e != d :: Valid(s.local, e)
    requires d in b.buffer && d in b.index && Fits(v.positions, |cur|) && Disjoint(b.index)
    requires forall x | x in v.positions :: !Covered(b.index, x)
    ensures CopiesRight(t, PartAppended(b, d, v, cur), cur)
  {
    AppendedDisjoint(b, d, v, cur);
    forall e | Valid(t.local, e)
      ensures e in PartAppended(b, d, v, cur).buffer && PartAppended(b, d, v, cur).buffer[e] == Full(cur)
    {
      assert HoldsWhole(t.local, e);
    }
  }

  lemma ReadNewPart(sys: System, cur: seq<int>, d: int, v: View)
    requires Inv(sys, cur) && d in sys.p.local && CanAccessPart(sys, cur, d, v) && PartState(sys.p, d, v).Invalid?
    ensures Inv(System(PartRead(sys.p, d, v), PartAppended(sys.b, d, v, cur)), cur)
  {
    var t := PartRead(sys.p, d, v);
    PartReadShape(sys.p, d, v);
    AddedBookkeeping(sys, cur, d, v, t);
    CopiesStayRight(sys.p, sys.b, t, d, v, cur);
    PartReadVersions(sys.p, d, v);
    assert HoldsParts(t.local, d);
  }

  lemma PartReadVersions(s: State, d: int, v: View)
    requires Typed(s) && Versions(s) && SingleWriter(s.local, s.owner) && PartsExclude(s.local)
    requires d in s.local && d != s.owner && PartState(s, d, v).Invalid?
    ensures var t := PartRead(s, d, v); Versions(t) && SingleWriter(t.local, t.owner) && PartsExclude(t.local)
  {
    PartReadShape(s, d, v);
    var t := PartRead(s, d, v);
    forall e, f | IsModified(t.local, e) && Valid(t.local, f) ensures e == t.owner == f {
      assert HoldsWhole(t.local, e) && HoldsWhole(t.local, f);
      assert IsModified(s.local, e) && Valid(s.local, f);
    }
    forall e, w, f | IsModifiedPart(t.local, e, w) ensures !Valid(t.local, f) {
      assert HoldsParts(t.local, e);
      assert IsModifiedPart(s.local, e, w);
      assert Valid(t.local, f) ==> HoldsWhole(t.local, f);
    }
  }

  lemma SeenPart(sys: System, cur: seq<int>, d: int, v: View)
    requires Bookkeeping(sys, cur) && HoldsParts(sys.p.local, d) && v in sys.p.local[d].states
    ensures Fits(v.positions, |cur|) && Seen(sys.b, d, Some(v)) == Some(Gather(cur, v.positions))
  {
    assert PartsMatch(sys.p.local[d], sys.b.buffer[d], sys.b.index[d], cur);
    var k := PartIndex(sys.b.index[d].value, v);
    assert PartAgrees(sys.b.buffer[d].parts[k], v, cur);
  }

  lemma LoadExecutes(sys: System, cur: seq<int>, d: int, v: View, p: State)
    requires Inv(sys, cur) && d in sys.p.local && CanAccessPart(sys, cur, d, v) && PartState(sys.p, d, v).Invalid?
    ensures Execute(sys.b, sys.p.gpus, Done(p, [Load(d, sys.p.owner, true)]), Some(v))
            == Some(System(p, PartAppended(sys.b, d, v, cur)))
  {
    assert HoldsWhole(sys.p.local, sys.p.owner);
    assert HoldsParts(sys.p.local, d) ==> PartsMatch(sys.p.local[d], sys.b.buffer[d], sys.b.index[d], cur);
    LoadPart(sys.b, sys.p.gpus, sys.p.owner, d, v, cur);
    RunSingle(sys.b, sys.p.gpus, Load(d, sys.p.owner, true), Some(v));
  }

  lemma OpenedAgain(s: State, d: int)
    requires Typed(s) && HoldsParts(s.local, d)
    ensures Opened(s, d) == s
  {
    assert s.complete[d := Some(false)] == s.complete;
  }

  /** A subarray read shows the task the elements of the logical array that its view selects. */
  lemma ReadPartStep(sys: System, cur: seq<int>, order: seq<int>, d: int, v: View)
    requires Inv(sys, cur) && IsOrder(sys.p.gpus, order) && d in sys.p.local && sys.p.complete[d] != Some(true)
    requires CanAccessPart(sys, cur, d, v)
    ensures var r := Execute(sys.b, sys.p.gpus, ReadPart(sys.p, order, d, v), Some(v));
            && r.Some? && Inv(r.value, cur)
            && Seen(r.value.b, d, Some(v)) == Some(Gather(cur, v.positions))
  {
    if PartState(sys.p, d, v).Invalid? {
      LoadExecutes(sys, cur, d, v, PartRead(sys.p, d, v));
      ReadNewPart(sys, cur, d, v);
      SeenPart(System(PartRead(sys.p, d, v), PartAppended(sys.b, d, v, cur)), cur, d, v);
    } else {
      OpenedAgain(sys.p, d);
      RunNoop(sys.b, sys.p.gpus, Some(v));
      SeenPart(sys, cur, d, v);
    }
  }

  // ---- writing a part ----

  lemma PartClaimedShape(s: State, d: int, v: View)
    requires Typed(s) && d in s.local && d != s.owner && PartState(s, d, v).Invalid?
    ensures var t := PartClaimed(s, d, v);
            && Typed(t) && SameWholesBut(s, t, d) && PartAdded(s.local, t.local, d, v)
            && IsModifiedPart(t.local, d, v)
            && forall e | Valid(t.local, e) :: Valid(s.local, e) && e != s.owner
  {
  }

  /** The protocol state while a part is modified: no whole copy is valid. */
  ghost predicate NoValidWhole(p: State) {
    && 0 <= Number(p.version, p.owner) < p.latest
    && (forall e | HoldsWhole(p.local, e) :: p.local[e] == Whole(Invalid))
    && (forall e | HoldsWhole(p.local, e) :: -1 <= Number(p.version, e) <= Number(p.version, p.owner))
  }

  lemma PartClaimedVersions(s: State, d: int, v: View)
    requires Typed(s) && Versions(s) && d in s.local && d != s.owner && PartState(s, d, v).Invalid?
    requires forall e | Valid(s.local, e) :: e == s.owner
    ensures NoValidWhole(PartClaimed(s, d, v))
  {
    PartClaimedShape(s, d, v);
    var t := PartClaimed(s, d, v);
    assert HoldsWhole(s.local, s.owner) && HoldsWhole(t.local, s.owner);
    forall e | HoldsWhole(t.local, e)
      ensures t.local[e] == Whole(Invalid) && -1 <= Number(t.version, e) <= Number(t.version, t.owner)
    {
      assert HoldsWhole(s.local, e);
      assert !Valid(t.local, e);
    }
  }

  lemma PartUpgradedShape(s: State, d: int, v: View)
    requires Typed(s) && Versions(s) && HoldsParts(s.local, d) && v in s.local[d].states
    ensures var t := PartUpgraded(s, d, v);
            && Typed(t) && t.gpus == s.gpus && t.owner == s.owner && NoValidWhole(t) && IsModifiedPart(t.local, d, v)
            && (forall e {:trigger HoldsParts(t.local, e)} ::
                  && (HoldsParts(t.local, e) <==> HoldsParts(s.local, e))
                  && (HoldsParts(t.local, e) && e != d ==> t.local[e] == s.local[e]))
            && t.local[d] == Parts(s.local[d].states[v := Modified])
            && (forall e | HoldsWhole(t.local, e) && e != s.owner :: Number(t.version, e) == -1)
            && Number(t.version, s.owner) == Number(s.version, s.owner)
  {
    assert HoldsWhole(s.local, s.owner);
  }

  /** The bookkeeping, and a base array at the owner that is right off the parts: all that is left of the
      invariant while some part is modified. */
  ghost predicate PartInv(sys: System, cur: seq<int>) {
    && Bookkeeping(sys, cur) && NoValidWhole(sys.p)
    && (forall d | HoldsWhole(sys.p.local, d) && Number(sys.p.version, d) == Number(sys.p.version, sys.p.owner) ::
          AgreesOffParts(sys.b.buffer[d], sys.b.index, cur))
  }

  lemma PartInvIsInv(sys: System, cur: seq<int>, d: int)
    requires PartInv(sys, cur) && HoldsParts(sys.p.local, d)
    ensures Inv(sys, cur)
  {
  }

  lemma WriteNewPart(sys: System, cur: seq<int>, d: int, v: View)
    requires Inv(sys, cur) && d in sys.p.local && CanAccessPart(sys, cur, d, v) && PartState(sys.p, d, v).Invalid?
    requires forall e | Valid(sys.p.local, e) :: e == sys.p.owner
    ensures PartInv(System(PartClaimed(sys.p, d, v), PartAppended(sys.b, d, v, cur)), cur)
    ensures IsModifiedPart(PartClaimed(sys.p, d, v).local, d, v)
  {
    var t := PartClaimed(sys.p, d, v);
    PartClaimedShape(sys.p, d, v);
    PartClaimedVersions(sys.p, d, v);
    AddedBookkeeping(sys, cur, d, v, t);
    CopiesStayRight(sys.p, sys.b, t, d, v, cur);
  }

  lemma UpgradeExecutes(sys: System, order: seq<int>, d: int, v: View)
    requires Wellformed(sys) && IsOrder(sys.p.gpus, order) && d in sys.p.local && d != sys.p.owner
    requires sys.p.complete[d] != Some(true) && PartState(sys.p, d, v).Shared?
    ensures Execute(sys.b, sys.p.gpus, WritePart(sys.p, order, d, v), Some(v))
            == Some(System(PartUpgraded(sys.p, d, v), Cleared(sys.b, OtherWholes(sys.p, Devices(sys.p.gpus)))))
  {
    OpenedAgain(sys.p, d);
    var others := OtherWholes(sys.p, Devices(sys.p.gpus));
    forall i | 0 <= i < |others| ensures others[i] in sys.b.buffer {
      assert others[i] in others;
    }
    EvictAll(sys.b, sys.p.gpus, others, Some(v));
    RunNoop(sys.b, sys.p.gpus, Some(v));
    assert others == [] ==> Cleared(sys.b, others) == sys.b;
  }

  lemma UpgradePart(sys: System, cur: seq<int>, order: seq<int>, d: int, v: View)
    requires Inv(sys, cur) && IsOrder(sys.p.gpus, order) && HoldsParts(sys.p.local, d)
    requires v in sys.p.local[d].states && sys.p.local[d].states[v].Shared? && d != sys.p.owner
    ensures var r := Execute(sys.b, sys.p.gpus, WritePart(sys.p, order, d, v), Some(v));
            && r.Some? && r.value.p == PartUpgraded(sys.p, d, v) && PartInv(r.value, cur)
  {
    UpgradeExecutes(sys, order, d, v);
    var others := OtherWholes(sys.p, Devices(sys.p.gpus));
    PartUpgradedShape(sys.p, d, v);
    UpgradedBookkeeping(sys, cur, d, v, others);
  }

  lemma UpgradedBookkeeping(sys: System, cur: seq<int>, d: int, v: View, others: seq<int>)
    requires Inv(sys, cur) && HoldsParts(sys.p.local, d) && v in sys.p.local[d].states
    requires forall e | e in others :: HoldsWhole(sys.p.local, e) && e != sys.p.owner
    ensures PartInv(System(PartUpgraded(sys.p, d, v), Cleared(sys.b, others)), cur)
  {
    PartUpgradedShape(sys.p, d, v);
    var next := System(PartUpgraded(sys.p, d, v), Cleared(sys.b, others));
    forall e | e in others ensures sys.b.index[e].None? {
      assert HoldsWhole(sys.p.local, e);
    }
    assert next.b.index == sys.b.index;
    assert forall e | HoldsParts(sys.p.local, e) :: PartsMatch(sys.p.local[e], sys.b.buffer[e], sys.b.index[e], cur);
    KeepsBookkeeping(sys, cur, next);
    assert HoldsWhole(sys.p.local, sys.p.owner);
  }

  // ---- the store into a part ----

  lemma GatherElsewhere(cur: seq<int>, positions: seq<nat>, values: seq<int>, others: seq<nat>)
    requires Fits(positions, |cur|) && |values| == |positions| && Fits(others, |cur|)
    requires forall x | x in others :: x !in positions
    ensures Gather(Scatter(cur, positions, values), others) == Gather(cur, others)
  {
    forall i | 0 <= i < |others| ensures Scatter(cur, positions, values)[others[i]] == cur[others[i]] {
      assert others[i] in others;
      ScatterElsewhere(cur, positions, values, others[i]);
    }
  }

  /** A part that does not overlap the written one still agrees. */
  lemma StoreKeepsPart(part: seq<int>, w: View, v: View, cur: seq<int>, values: seq<int>)
    requires PartAgrees(part, w, cur) && Fits(v.positions, |cur|) && |values| == |v.positions|
    requires forall x | x in w.positions :: x !in v.positions
    ensures PartAgrees(part, w, Scatter(cur, v.positions, values))
  {
    GatherElsewhere(cur, v.positions, values, w.positions);
  }

  /** The task's store into its part is a store into the logical array. */
  lemma StorePart(sys: System, cur: seq<int>, d: int, v: View, values: seq<int>)
    requires PartInv(sys, cur) && HoldsParts(sys.p.local, d) && v in sys.p.local[d].states
    requires |values| == |v.positions|
    ensures Fits(v.positions, |cur|) && Seen(sys.b, d, Some(v)) == Some(Gather(cur, v.positions))
    ensures Inv(System(sys.p, Stored(sys.b, d, Some(v), values)), Scatter(cur, v.positions, values))
  {
    SeenPart(sys, cur, d, v);
    var next := System(sys.p, Stored(sys.b, d, Some(v), values));
    var cur' := Scatter(cur, v.positions, values);
    assert PartsMatch(sys.p.local[d], sys.b.buffer[d], sys.b.index[d], cur);
    var k := PartIndex(sys.b.index[d].value, v);
    assert PartAgrees(sys.b.buffer[d].parts[k], v, cur);
    forall e | HoldsParts(sys.p.local, e)
      ensures PartsMatch(sys.p.local[e], next.b.buffer[e], next.b.index[e], cur')
    {
      StoredPartsAgree(sys, cur, d, v, values, e);
    }
    forall x: nat | x < |cur| && !Covered(sys.b.index, x) ensures cur'[x] == cur[x] {
      assert !InPart(sys.b.index, d, k, x);
      ScatterElsewhere(cur, v.positions, values, x);
    }
    assert PartInv(next, cur');
    PartInvIsInv(next, cur', d);
  }

  lemma StoredPartsAgree(sys: System, cur: seq<int>, d: int, v: View, values: seq<int>, e: int)
    requires Bookkeeping(sys, cur) && HoldsParts(sys.p.local, d) && v in sys.p.local[d].states
    requires |values| == |v.positions| && Fits(v.positions, |cur|) && Distinct(v.positions)
    requires Seen(sys.b, d, Some(v)).Some? && |Seen(sys.b, d, Some(v)).value| == |values|
    requires HoldsParts(sys.p.local, e)
    ensures PartsMatch(sys.p.local[e], Stored(sys.b, d, Some(v), values).buffer[e], sys.b.index[e],
                       Scatter(cur, v.positions, values))
  {
    assert PartsMatch(sys.p.local[d], sys.b.buffer[d], sys.b.index[d], cur);
    assert PartsMatch(sys.p.local[e], sys.b.buffer[e], sys.b.index[e], cur);
    var k := PartIndex(sys.b.index[d].value, v);
    var b := Stored(sys.b, d, Some(v), values);
    forall l | 0 <= l < |sys.b.index[e].value|
      ensures PartAgrees(b.buffer[e].parts[l], sys.b.index[e].value[l], Scatter(cur, v.positions, values))
    {
      var w := sys.b.index[e].value[l];
      if e == d && l == k {
        WriteBackThenExtract(cur, v.positions, values);
      } else {
        assert PartAgrees(sys.b.buffer[e].parts[l], w, cur);
        forall x | x in w.positions ensures x !in v.positions {
          assert InPart(sys.b.index, e, l, x);
          assert !InPart(sys.b.index, d, k, x);
        }
        StoreKeepsPart(sys.b.buffer[e].parts[l], w, v, cur, values);
      }
    }
  }

  /** A subarray write shows the task the selected elements, and its store changes exactly those. A new part
      may be written only when the owner's copy is the only valid whole copy. */
  lemma WritePartStep(sys: System, cur: seq<int>, order: seq<int>, d: int, v: View, values: seq<int>)
    requires Inv(sys, cur) && IsOrder(sys.p.gpus, order) && d in sys.p.local && sys.p.complete[d] != Some(true)
    requires CanAccessPart(sys, cur, d, v) && |values| == |v.positions|
    requires PartState(sys.p, d, v).Invalid? ==> forall e | Valid(sys.p.local, e) :: e == sys.p.owner
    ensures var r := Execute(sys.b, sys.p.gpus, WritePart(sys.p, order, d, v), Some(v));
            && r.Some?
            && Seen(r.value.b, d, Some(v)) == Some(Gather(cur, v.positions))
            && Inv(System(r.value.p, Stored(r.value.b, d, Some(v), values)), Scatter(cur, v.positions, values))
  {
    match PartState(sys.p, d, v)
    case Invalid =>
      LoadExecutes(sys, cur, d, v, PartClaimed(sys.p, d, v));
      WriteNewPart(sys, cur, d, v);
      StorePart(System(PartClaimed(sys.p, d, v), PartAppended(sys.b, d, v, cur)), cur, d, v, values);
    case Shared =>
      UpgradePart(sys, cur, order, d, v);
      PartUpgradedShape(sys.p, d, v);
      StorePart(Execute(sys.b, sys.p.gpus, WritePart(sys.p, order, d, v), Some(v)).value, cur, d, v, values);
    case Modified =>
      OpenedAgain(sys.p, d);
      RunNoop(sys.b, sys.p.gpus, Some(v));
      NothingValid(sys, cur, d, v);
      StorePart(sys, cur, d, v, values);
  }

  lemma NothingValid(sys: System, cur: seq<int>, d: int, v: View)
    requires Inv(sys, cur) && IsModifiedPart(sys.p.local, d, v)
    ensures PartInv(sys, cur)
  {
    assert HoldsWhole(sys.p.local, sys.p.owner);
    forall e | HoldsWhole(sys.p.local, e) ensures sys.p.local[e] == Whole(Invalid) {
      assert !Valid(sys.p.local, e);
    }
  }
}
