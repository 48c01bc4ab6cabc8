/**
 The class `Coherence` of `parla/parray/coherence.py`: the dictionaries it updates in place, statement by
 statement, proved against the functions of Protocol.dfy.
 */
module Coherence {
  import opened Wrappers
  import opened Protocol

  /** `list(target)`: the devices of a set in the order Python happens to visit them. */
  function Listed(order: seq<int>, target: set<int>): seq<int> {
    if order == [] then []
    else (if order[0] in target then [order[0]] else []) + Listed(order[1..], target)
  }

  lemma ListedHolders(s: State, order: seq<int>, target: set<int>)
    requires forall i | 0 <= i < |order| :: order[i] in s.local
    requires forall d :: d in target <==> d in s.local && s.local[d].Parts?
    ensures Listed(order, target) == Holders(s, order)
  {
    if order != [] {
      ListedHolders(s, order[1..], target);
    }
  }

  ghost predicate ResetTo(t: State, d: int) {
    d in t.local && t.local[d] == Whole(Invalid)
    && d in t.version && t.version[d] == At(-1)
    && d in t.complete && t.complete[d] == None
  }

  lemma ResetIsInitial(s: State, t: State, owner: int)
    requires Keyed(s) && owner in s.local && t.gpus == s.gpus
    requires t.local.Keys == t.version.Keys == t.complete.Keys == s.local.Keys
    requires forall d | d in s.local :: ResetTo(t, d)
    ensures Initial(s.gpus, owner)
            == State(t.gpus, t.local[owner := Whole(Modified)], t.version[owner := At(0)],
                     t.complete[owner := Some(true)], owner, 0)
    ensures Typed(Initial(s.gpus, owner))
  {
    var i := Initial(s.gpus, owner);
    InitialTyped(s.gpus, owner);
    forall d | d in s.local ensures d in i.local && d in Devices(s.gpus) && ResetTo(t, d) {}
    assert i.local == t.local[owner := Whole(Modified)];
    assert i.version == t.version[owner := At(0)];
    assert i.complete == t.complete[owner := Some(true)];
  }

  lemma StartIsInitial(gpus: nat, owner: int, states: map<int, Local>, versions: map<int, Version>,
                       completeness: map<int, Option<bool>>)
    requires CPU_INDEX <= owner < gpus
    requires states.Keys == versions.Keys == completeness.Keys && forall d :: d in states <==> CPU_INDEX <= d < gpus
    requires forall d | d in states :: ResetTo(State(gpus, states, versions, completeness, owner, 0), d)
    ensures Initial(gpus, owner)
            == State(gpus, states[owner := Whole(Modified)], versions[owner := At(0)],
                     completeness[owner := Some(true)], owner, 0)
    ensures Typed(Initial(gpus, owner))
  {
    InitialTyped(gpus, owner);
    ResetIsInitial(Initial(gpus, owner), State(gpus, states, versions, completeness, owner, 0), owner);
  }

  /** The dictionaries after a write-back visited the devices `done`. */
  ghost predicate Visited(s: State, t: State, done: set<int>, dst: int, target: Msi)
    requires Keyed(s)
  {
    && t.gpus == s.gpus && t.owner == s.owner && t.latest == s.latest
    && t.local.Keys == t.version.Keys == t.complete.Keys == s.local.Keys
    && (forall d | d in s.local :: VisitedAt(s, t, done, dst, target, d))
  }

  ghost predicate VisitedAt(s: State, t: State, done: set<int>, dst: int, target: Msi, d: int)
    requires Keyed(s) && d in s.local && t.local.Keys == t.version.Keys == t.complete.Keys == s.local.Keys
  {
    && t.local[d] == (if d in done then Downgraded(s.local[d], d == dst, target) else s.local[d])
    && t.version[d] == (if d in done && Dropped(s.local[d], d == dst, target) then At(-1) else s.version[d])
    && t.complete[d] == (if d in done && Dropped(s.local[d], d == dst, target) then None else s.complete[d])
  }

  function VisitedEntry(t: State, id: int, dst: int, target: Msi): State
    requires id in t.local
  {
    t.(local := t.local[id := Downgraded(t.local[id], id == dst, target)],
       version := if Dropped(t.local[id], id == dst, target) then t.version[id := At(-1)] else t.version,
       complete := if Dropped(t.local[id], id == dst, target) then t.complete[id := None] else t.complete)
  }

  lemma VisitOne(s: State, t: State, done: set<int>, id: int, dst: int, target: Msi)
    requires Keyed(s) && Visited(s, t, done, dst, target) && id in s.local && id !in done
    ensures Visited(s, VisitedEntry(t, id, dst, target), done + {id}, dst, target)
  {
    assert VisitedAt(s, t, done, dst, target, id);
    var next := VisitedEntry(t, id, dst, target);
    assert next.local.Keys == next.version.Keys == next.complete.Keys == s.local.Keys;
    forall d | d in s.local ensures VisitedAt(s, next, done + {id}, dst, target, d) {
      assert VisitedAt(s, t, done, dst, target, d);
    }
  }

  lemma VisitedAllAt(s: State, t: State, done: set<int>, dst: int, target: Msi, d: int)
    requires Keyed(s) && dst in s.local && Visited(s, t, done, dst, target) && d in s.local && d in done
    ensures var w := WrittenBack(s, dst, target);
            && t.local[d] == w.local[d] && t.complete[d] == w.complete[d]
            && (if d == dst then At(s.latest) else t.version[d]) == w.version[d]
  {
    assert VisitedAt(s, t, done, dst, target, d);
  }

  lemma SameMap<V>(a: map<int, V>, b: map<int, V>)
    requires a.Keys == b.Keys && forall d | d in a.Keys :: a[d] == b[d]
    ensures a == b
  {
    assert forall d :: d in a.Keys <==> d in b.Keys;
    assert forall d | d in a :: a[d] == b[d];
  }

  lemma VisitedAll(s: State, t: State, done: set<int>, dst: int, target: Msi)
    requires Keyed(s) && dst in s.local && Visited(s, t, done, dst, target) && forall d | d in s.local :: d in done
    ensures t.(version := t.version[dst := At(s.latest)]) == WrittenBack(s, dst, target)
  {
    var w := WrittenBack(s, dst, target);
    var version := t.version[dst := At(s.latest)];
    forall d | d in s.local
      ensures t.local[d] == w.local[d] && t.complete[d] == w.complete[d] && version[d] == w.version[d]
    {
      VisitedAllAt(s, t, done, dst, target, d);
    }
    assert w.local.Keys == w.version.Keys == w.complete.Keys == s.local.Keys == version.Keys;
    SameMap(t.local, w.local);
    SameMap(t.complete, w.complete);
    SameMap(version, w.version);
  }

  /** What a write-back collected from the devices `ids`: holders of parts, the latest copy, whom to evict. */
  datatype Collection = Collection(holders: set<int>, best: Option<int>, bestVersion: int, evicted: seq<int>)

  ghost predicate Collected(s: State, ids: seq<int>, dst: int, target: Msi, c: Collection)
    requires Keyed(s) && forall d | d in ids :: d in s.local
  {
    && (forall d :: d in c.holders <==> d in ids && s.local[d].Parts?)
    && c.best == LatestCopy(s, ids)
    && c.bestVersion == (if c.best.Some? then Number(s.version, c.best.value) else -1)
    && c.evicted == Evictions(s, ids, dst, target)
  }

  function With(c: Collection, entry: Local, number: int, id: int, dst: int, target: Msi): Collection {
    var newest := entry.Whole? && number >= c.bestVersion;
    Collection(
      if entry.Parts? then c.holders + {id} else c.holders,
      if newest then Some(id) else c.best,
      if newest then number else c.bestVersion,
      if Dropped(entry, id == dst, target) then c.evicted + [id] else c.evicted)
  }

  lemma CollectOne(s: State, ids: seq<int>, id: int, dst: int, target: Msi, c: Collection)
    requires Keyed(s) && (forall d | d in ids + [id] :: d in s.local) && (forall d | d in ids :: d in s.local)
    requires id in s.local && Collected(s, ids, dst, target, c)
    ensures Collected(s, ids + [id], dst, target, With(c, s.local[id], Number(s.version, id), id, dst, target))
  {
    assert (ids + [id])[..|ids|] == ids;
  }

  function Members(ids: seq<int>): set<int> {
    set d | d in ids
  }

  /** The loop of `_write_back_to` after the first `i` devices of `ids`. */
  ghost predicate Walked(s: State, t: State, ids: seq<int>, i: nat, dst: int, target: Msi, c: Collection)
    requires Keyed(s) && (forall j | 0 <= j < |ids| :: ids[j] in s.local) && i <= |ids|
  {
    && Visited(s, t, Members(ids[..i]), dst, target)
    && Collected(s, ids[..i], dst, target, c)
  }

  lemma WalkOne(s: State, t: State, ids: seq<int>, i: nat, dst: int, target: Msi, c: Collection)
    requires Keyed(s) && (forall j | 0 <= j < |ids| :: ids[j] in s.local) && i < |ids|
    requires (forall j | 0 <= j < i :: ids[j] != ids[i]) && Walked(s, t, ids, i, dst, target, c)
    ensures ids[i] in t.local && t.local[ids[i]] == s.local[ids[i]]
    ensures ids[i] in t.version && t.version[ids[i]] == s.version[ids[i]]
    ensures Walked(s, VisitedEntry(t, ids[i], dst, target), ids, i + 1, dst, target,
                   With(c, s.local[ids[i]], Number(s.version, ids[i]), ids[i], dst, target))
  {
    var done, next := Members(ids[..i]), Members(ids[..i + 1]);
    assert ids[..i + 1] == ids[..i] + [ids[i]];
    assert next == done + {ids[i]};
    VisitOne(s, t, done, ids[i], dst, target);
    CollectOne(s, ids[..i], ids[i], dst, target, c);
  }

  /** The same for the device list. */
  lemma WalkDevice(s: State, t: State, i: nat, dst: int, target: Msi, c: Collection)
    requires Keyed(s) && i <= s.gpus && (forall j | 0 <= j <= s.gpus :: Devices(s.gpus)[j] in s.local)
    requires Walked(s, t, Devices(s.gpus), i, dst, target, c)
    ensures var id := Devices(s.gpus)[i];
            && id in t.local && t.local[id] == s.local[id] && id in t.version && t.version[id] == s.version[id]
            && Walked(s, VisitedEntry(t, id, dst, target), Devices(s.gpus), i + 1, dst, target,
                      With(c, s.local[id], Number(s.version, id), id, dst, target))
  {
    forall j | 0 <= j < i ensures Devices(s.gpus)[j] != Devices(s.gpus)[i] {
      DevicesDiffer(s.gpus, j, i);
    }
    WalkOne(s, t, Devices(s.gpus), i, dst, target, c);
  }

  lemma DevicesKnown(s: State)
    requires Keyed(s)
    ensures forall j | 0 <= j <= s.gpus :: Devices(s.gpus)[j] in s.local
  {
    assert forall j | 0 <= j <= s.gpus :: Devices(s.gpus)[j] in Devices(s.gpus);
  }

  lemma WalkedAll(s: State, t: State, ids: seq<int>, dst: int, target: Msi, c: Collection)
    requires Keyed(s) && dst in s.local && (forall j | 0 <= j < |ids| :: ids[j] in s.local)
    requires (forall d | d in s.local :: d in ids) && Walked(s, t, ids, |ids|, dst, target, c)
    ensures t.(version := t.version[dst := At(s.latest)]) == WrittenBack(s, dst, target)
    ensures Collected(s, ids, dst, target, c)
  {
    assert ids[..|ids|] == ids;
    VisitedAll(s, t, Members(ids), dst, target);
  }

  /** The dictionaries while a write to a shared part invalidates the complete copies; `done` are visited. */
  ghost predicate Swept(s: State, t: State, done: set<int>)
    requires Keyed(s)
  {
    && t.gpus == s.gpus && t.owner == s.owner && t.latest == s.latest
    && t.local.Keys == t.version.Keys == t.complete.Keys == s.local.Keys
    && (forall d | d in s.local :: SweptAt(s, t, done, d))
  }

  ghost predicate SweptAt(s: State, t: State, done: set<int>, d: int)
    requires Keyed(s) && d in s.local && t.local.Keys == t.version.Keys == t.complete.Keys == s.local.Keys
  {
    && t.local[d] == (if d in done && s.local[d].Whole? then Whole(Invalid) else s.local[d])
    && t.version[d] == (if d in done && s.local[d].Whole? && d != s.owner then At(-1) else s.version[d])
    && t.complete[d] == (if d in done && s.local[d].Whole? && d != s.owner then None else s.complete[d])
  }

  function SweptEntry(t: State, id: int): State
    requires id in t.local
  {
    if t.local[id].Parts? then t
    else if id == t.owner then t.(local := t.local[id := Whole(Invalid)])
    else t.(local := t.local[id := Whole(Invalid)], version := t.version[id := At(-1)],
            complete := t.complete[id := None])
  }

  lemma SweepOne(s: State, t: State, done: set<int>, id: int)
    requires Keyed(s) && Swept(s, t, done) && id in s.local && id !in done
    ensures Swept(s, SweptEntry(t, id), done + {id})
  {
    assert SweptAt(s, t, done, id);
    var next := SweptEntry(t, id);
    assert next.local.Keys == next.version.Keys == next.complete.Keys == s.local.Keys;
    forall d | d in s.local ensures SweptAt(s, next, done + {id}, d) {
      assert SweptAt(s, t, done, d);
    }
  }

  lemma SweptAll(s: State, t: State, done: set<int>)
    requires Keyed(s) && Swept(s, t, done) && forall d | d in s.local :: d in done
    ensures t == WholesInvalidated(s)
  {
    var w := WholesInvalidated(s);
    forall d | d in s.local
      ensures t.local[d] == w.local[d] && t.version[d] == w.version[d] && t.complete[d] == w.complete[d]
    {
      assert d in done;
    }
    assert t.local == w.local && t.version == w.version && t.complete == w.complete;
  }

  lemma OthersIgnoreVersion(s: State, ids: seq<int>, latest: int)
    requires forall d | d in ids :: d in s.local
    ensures OtherWholes(s.(latest := latest), ids) == OtherWholes(s, ids)
  {
    if ids != [] {
      assert ids == ids[..|ids| - 1] + [ids[|ids| - 1]];
      OthersIgnoreVersion(s, ids[..|ids| - 1], latest);
    }
  }

  /** Invalidating the complete copies leaves the parts of a device alone, so one of them can become modified. */
  lemma UpgradeAfterDrop(s: State, d: int, v: View, w: State)
    requires Keyed(s) && d in s.local && s.local[d].Parts? && w == WholesInvalidated(s.(latest := s.latest + 1))
    ensures d in w.local && w.local[d].Parts? && d in w.version && w.version[d].Each?
    ensures PartUpgraded(s, d, v) == SetPart(w, d, v, Modified, w.latest)
  {
  }

  lemma EvictsOne(s: State, ids: seq<int>, id: int)
    requires (forall d | d in ids + [id] :: d in s.local) && (forall d | d in ids :: d in s.local) && id in s.local
    ensures Evicts(OtherWholes(s, ids + [id]))
            == Evicts(OtherWholes(s, ids)) + if s.local[id].Whole? && id != s.owner then [Evict(id)] else []
  {
    assert (ids + [id])[..|ids|] == ids;
    var others := OtherWholes(s, ids);
    assert Evicts(others + [id]) == Evicts(others) + [Evict(id)];
  }

  /** The loop over the complete copies after the first `i` devices of `ids`. */
  ghost predicate SweptFirst(s: State, t: State, ids: seq<int>, i: nat, ops: seq<Op>)
    requires Keyed(s) && (forall j | 0 <= j < |ids| :: ids[j] in s.local) && i <= |ids|
  {
    Swept(s, t, Members(ids[..i])) && ops == Evicts(OtherWholes(s, ids[..i]))
  }

  lemma SweepNext(s: State, t: State, ids: seq<int>, i: nat, ops: seq<Op>)
    requires Keyed(s) && (forall j | 0 <= j < |ids| :: ids[j] in s.local) && i < |ids|
    requires (forall j | 0 <= j < i :: ids[j] != ids[i]) && SweptFirst(s, t, ids, i, ops)
    ensures ids[i] in t.local && ids[i] in t.version && ids[i] in t.complete && t.local[ids[i]] == s.local[ids[i]]
    ensures SweptFirst(s, SweptEntry(t, ids[i]), ids, i + 1,
                       ops + if t.local[ids[i]].Whole? && ids[i] != t.owner then [Evict(ids[i])] else [])
  {
    assert ids[..i + 1] == ids[..i] + [ids[i]];
    assert Members(ids[..i + 1]) == Members(ids[..i]) + {ids[i]};
    SweepOne(s, t, Members(ids[..i]), ids[i]);
    EvictsOne(s, ids[..i], ids[i]);
  }

  lemma SweepDevice(s: State, t: State, i: nat, ops: seq<Op>)
    requires Keyed(s) && i <= s.gpus && (forall j | 0 <= j <= s.gpus :: Devices(s.gpus)[j] in s.local)
    requires SweptFirst(s, t, Devices(s.gpus), i, ops)
    ensures var id := Devices(s.gpus)[i];
            && id in t.local && id in t.version && id in t.complete && t.local[id] == s.local[id]
            && SweptFirst(s, SweptEntry(t, id), Devices(s.gpus), i + 1,
                          ops + if t.local[id].Whole? && id != t.owner then [Evict(id)] else [])
  {
    forall j | 0 <= j < i ensures Devices(s.gpus)[j] != Devices(s.gpus)[i] {
      DevicesDiffer(s.gpus, j, i);
    }
    SweepNext(s, t, Devices(s.gpus), i, ops);
  }

  lemma SweptLast(s: State, t: State, ids: seq<int>, ops: seq<Op>)
    requires Keyed(s) && (forall j | 0 <= j < |ids| :: ids[j] in s.local) && (forall d | d in s.local :: d in ids)
    requires SweptFirst(s, t, ids, |ids|, ops)
    ensures t == WholesInvalidated(s) && (forall d | d in ids :: d in s.local) && ops == Evicts(OtherWholes(s, ids))
  {
    assert ids[..|ids|] == ids;
    SweptAll(s, t, Members(ids));
  }

  /** The operation list from what the loop collected, and when there is none. */
  function Planned(order: seq<int>, dst: int, target: Msi, keep: Option<int>, c: Collection,
                   current: Version): Option<seq<Op>> {
    var holders := Listed(order, c.holders);
    var all := c.evicted + (if target.Modified? then holders else []);
    if c.best.None? || current.Each? || (target.Modified? && keep.Some? && keep.value !in all) then None
    else
      Some(Loads(dst, (if current.number < c.bestVersion then [c.best.value] else []) + holders)
           + Evicts(if target.Modified? && keep.Some? then RemoveFirst(all, keep.value) else all))
  }

  lemma WriteBackList(s: State, order: seq<int>, dst: int, target: Msi, keep: Option<int>, c: Collection)
    requires Keyed(s) && IsOrder(s.gpus, order) && dst in s.local
    requires Collected(s, Devices(s.gpus), dst, target, c)
    ensures var list := Planned(order, dst, target, keep, c, s.version[dst]);
            WriteBack(s, order, dst, target, keep)
            == if list.None? then Raised else Done(WrittenBack(s, dst, target), list.value)
  {
    ListedHolders(s, order, c.holders);
    assert c.best.Some? ==> c.bestVersion == Number(s.version, c.best.value);
  }

  /** The method's result and new state are those of the protocol function. `None` stands for an exception,
      after which the dictionaries are in no defined state. */
  ghost predicate Follows(outcome: Outcome, ops: Option<seq<Op>>, t: State) {
    match outcome
    case Raised => ops.None?
    case Done(s, list) => ops == Some(list) && t == s
  }

  lemma ReadWholeTyped(s: State, order: seq<int>, d: int)
    requires Typed(s) && IsOrder(s.gpus, order) && HoldsWhole(s.local, d)
    ensures var r := ReadWhole(s, order, d); r.Done? ==> Typed(r.state) && r.state.gpus == s.gpus
  {
    if s.local[d].state.Invalid? {
      WholeFetchedTyped(s, d);
    }
  }

  lemma PartsReadTyped(s: State, d: int)
    requires Typed(s) && d in s.local
    ensures Typed(PartsRead(s, d)) && PartsRead(s, d).gpus == s.gpus
  {
    WrittenBackTyped(s, s.owner, Shared);
  }

  lemma ReadPartTyped(s: State, order: seq<int>, d: int, v: View)
    requires Typed(s) && IsOrder(s.gpus, order) && d in s.local && s.complete[d] != Some(true)
    ensures var r := ReadPart(s, order, d, v); r.Done? ==> Typed(r.state) && r.state.gpus == s.gpus
  {
  }

  lemma ReadIsTyped(s: State, order: seq<int>, d: int, view: Option<View>)
    requires Typed(s) && IsOrder(s.gpus, order) && d in s.local
    ensures var r := Protocol.Read(s, order, d, view); r.Done? ==> Typed(r.state) && r.state.gpus == s.gpus
  {
    if view.Some? && s.complete[d] != Some(true) {
      ReadPartTyped(s, order, d, view.value);
    } else if view.None? && s.complete[d] == Some(false) {
      PartsReadTyped(s, d);
    } else {
      ReadWholeTyped(s, order, d);
    }
  }

  lemma ClaimedTyped(s: State, d: int)
    requires Typed(s) && HoldsWhole(s.local, d)
    ensures var w := WrittenBack(s, d, Modified);
            && Typed(w.(local := w.local[d := Whole(Modified)]))
            && Typed(Bumped(w, d).(owner := d, local := w.local[d := Whole(Modified)]))
  {
    WrittenBackTyped(s, d, Modified);
  }

  lemma BumpedTyped(s: State, d: int)
    requires Typed(s) && HoldsWhole(s.local, d)
    ensures var s1 := s.(complete := s.complete[d := Some(true)]);
            && Typed(s1) && HoldsWhole(s1.local, d)
            && Typed(Bumped(s1, d).(owner := d)) && HoldsWhole(Bumped(s1, d).(owner := d).local, d)
  {
  }

  lemma WriteWholeTyped(s: State, order: seq<int>, d: int)
    requires Typed(s) && IsOrder(s.gpus, order) && HoldsWhole(s.local, d)
    ensures var r := WriteWhole(s, order, d); r.Done? ==> Typed(r.state) && r.state.gpus == s.gpus
  {
    var s1 := s.(complete := s.complete[d := Some(true)]);
    BumpedTyped(s, d);
    if s.local[d].state.Shared? && d != s.owner {
      ClaimedTyped(Bumped(s1, d).(owner := d), d);
    } else if !s.local[d].state.Modified? {
      ClaimedTyped(s1, d);
    }
  }

  lemma WriteOverPartsTyped(s: State, order: seq<int>, d: int)
    requires Typed(s) && IsOrder(s.gpus, order) && d in s.local && s.local[d].Parts?
    ensures var r := WriteOverParts(s, order, d); r.Done? ==> Typed(r.state) && r.state.gpus == s.gpus
  {
    PartsWrittenTyped(s, d);
  }

  lemma PartsWrittenTyped(s: State, d: int)
    requires Typed(s) && d in s.local && d != s.owner
    ensures Typed(PartsWritten(s, d)) && PartsWritten(s, d).gpus == s.gpus
  {
    WrittenBackTyped(s, s.owner, Modified);
  }

  /** A device made ready for parts. The owner never gets a part: a write-back to it raises. */
  lemma OpenedForPart(s: State, order: seq<int>, d: int, v: View)
    requires Typed(s) && IsOrder(s.gpus, order) && d in s.local && s.complete[d] != Some(true)
    ensures var s1 := Opened(s, d);
            && Keyed(s1) && s1.local[d].Parts? && s1.version[d].Each? && s1.owner in s1.local
            && (d != s.owner ==> s1.version[s.owner].At? && s1.version[s.owner].number == Number(s.version, s.owner))
            && (d == s.owner ==>
                WriteBack(s1, order, d, Shared, None).Raised? && WriteBack(s1, order, d, Modified, None).Raised?)
  {
  }

  lemma OpenedTyped(s: State, d: int)
    requires Typed(s) && d in s.local && d != s.owner
    ensures Typed(Opened(s, d)) && Opened(s, d).local[d].Parts?
  {
  }

  lemma SetPartTyped(s: State, d: int, v: View, state: Msi, number: int)
    requires Typed(s) && d in s.local && s.local[d].Parts?
    ensures Typed(SetPart(s, d, v, state, number))
  {
  }

  lemma PartUpgradedTyped(s: State, d: int, v: View)
    requires Typed(s) && d in s.local && s.local[d].Parts?
    ensures Typed(PartUpgraded(s, d, v))
  {
    var w := WholesInvalidated(s.(latest := s.latest + 1));
    assert Typed(w) && w.local[d] == s.local[d];
    SetPartTyped(w, d, v, Modified, s.latest + 1);
  }

  lemma PartClaimedTyped(s: State, d: int, v: View)
    requires Typed(s) && d in s.local && d != s.owner
    ensures Typed(PartClaimed(s, d, v))
  {
    OpenedTyped(s, d);
    SetPartTyped(Opened(s, d), d, v, Modified, Number(s.version, s.owner) + 1);
  }

  lemma WritePartTyped(s: State, order: seq<int>, d: int, v: View)
    requires Typed(s) && IsOrder(s.gpus, order) && d in s.local && s.complete[d] != Some(true)
    ensures var r := WritePart(s, order, d, v); r.Done? ==> Typed(r.state) && r.state.gpus == s.gpus
  {
    OpenedForPart(s, order, d, v);
    if d != s.owner {
      OpenedTyped(s, d);
      PartUpgradedTyped(Opened(s, d), d, v);
      PartClaimedTyped(s, d, v);
    }
  }

  lemma WriteIsTyped(s: State, order: seq<int>, d: int, view: Option<View>)
    requires Typed(s) && IsOrder(s.gpus, order) && d in s.local
    ensures var r := Protocol.Write(s, order, d, view); r.Done? ==> Typed(r.state) && r.state.gpus == s.gpus
  {
    if view.Some? && s.complete[d] != Some(true) {
      WritePartTyped(s, order, d, view.value);
    } else if view.None? && s.complete[d] == Some(false) {
      WriteOverPartsTyped(s, order, d);
    } else {
      WriteWholeTyped(s, order, d);
    }
  }

  lemma LastCopyEvictedTyped(s: State, d: int)
    requires Typed(s) && HoldsWhole(s.local, CPU_INDEX) && d in s.local
    ensures var w := WrittenBack(s, CPU_INDEX, Modified);
            Typed(w.(owner := CPU_INDEX, local := w.local[CPU_INDEX := Whole(Modified)],
                     complete := w.complete[d := Some(true)]))
  {
    WrittenBackTyped(s, CPU_INDEX, Modified);
  }

  lemma CopyEvictedTyped(s: State, d: int)
    requires Typed(s) && HoldsWhole(s.local, d)
    ensures Typed(s.(local := s.local[d := Whole(Invalid)], version := s.version[d := At(-1)],
                     complete := s.complete[d := None]))
  {
  }

  lemma EvictIsTyped(s: State, order: seq<int>, d: int)
    requires Typed(s) && IsOrder(s.gpus, order) && d in s.local
    ensures var r := EvictCopy(s, order, d); r.Done? ==> Typed(r.state) && r.state.gpus == s.gpus
  {
    if EvictsLastCopy(s, d) {
      if s.local[CPU_INDEX].Whole? {
        LastCopyEvictedTyped(s, d);
      }
    } else {
      CopyEvictedTyped(s, d);
    }
  }

  class Coherence {
    const gpus: nat
    var local: map<int, Local>
    var version: map<int, Version>
    var complete: map<int, Option<bool>>
    var owner: int
    var latest: int

    ghost function Abs(): State
      reads this
    {
      State(gpus, local, version, complete, owner, latest)
    }

    ghost predicate Valid()
      reads this
    {
      Typed(Abs())
    }

    constructor (gpus: nat, initOwner: int)
      requires CPU_INDEX <= initOwner < gpus
      ensures this.gpus == gpus && Valid() && Abs() == Initial(gpus, initOwner)
    {
      var ids := Devices(gpus);
      var states := map d | d in ids :: Whole(Invalid);
      var versions := map d | d in ids :: At(-1);
      var completeness := map d | d in ids :: None;
      StartIsInitial(gpus, initOwner, states, versions, completeness);
      this.gpus := gpus;
      local := states[initOwner := Whole(Modified)];
      version := versions[initOwner := At(0)];
      complete := completeness[initOwner := Some(true)];
      owner := initOwner;
      latest := 0;
    }

    method Reset(newOwner: int)
      requires Valid() && CPU_INDEX <= newOwner < gpus
      modifies this
      ensures Valid() && Abs() == Initial(gpus, newOwner)
    {
      ghost var s := Abs();
      ForgetCopies();
      ResetIsInitial(s, Abs(), newOwner);
      local := local[newOwner := Whole(Modified)];
      owner := newOwner;
      version := version[newOwner := At(0)];
      complete := complete[newOwner := Some(true)];
      latest := 0;
    }

    /** The loop of `reset`: no device has a copy any more. */
    method ForgetCopies()
      requires Keyed(Abs())
      modifies `local, `version, `complete
      ensures local.Keys == version.Keys == complete.Keys == old(local.Keys)
      ensures forall d | d in old(local) :: ResetTo(Abs(), d)
    {
      ghost var s := Abs();
      var ids := Devices(gpus);
      for i := 0 to |ids|
        invariant local.Keys == version.Keys == complete.Keys == s.local.Keys
        invariant forall j | 0 <= j < i :: ResetTo(Abs(), ids[j])
      {
        assert ids[i] in ids;
        ForgetCopy(ids[i]);
      }
      forall d | d in s.local ensures ResetTo(Abs(), d) {
        assert d in ids;
      }
    }

    method ForgetCopy(id: int)
      requires id in local && id in version && id in complete
      modifies `local, `version, `complete
      ensures local == old(local)[id := Whole(Invalid)]
      ensures version == old(version)[id := At(-1)]
      ensures complete == old(complete)[id := None]
      ensures ResetTo(Abs(), id) && forall d :: old(ResetTo(Abs(), d)) ==> ResetTo(Abs(), d)
    {
      local := local[id := Whole(Invalid)];
      version := version[id := At(-1)];
      complete := complete[id := None];
    }

    /** The loop body of `_write_back_to`: note one device, and downgrade or drop its entry. */
    method Visit(id: int, dst: int, target: Msi, c: Collection) returns (r: Collection)
      requires id in local && id in version && (local[id].Whole? <==> version[id].At?)
      modifies `local, `version, `complete
      ensures r == With(c, old(local[id]), Number(old(version), id), id, dst, target)
      ensures Abs() == VisitedEntry(old(Abs()), id, dst, target)
    {
      r := c;
      var entry := local[id];
      var dropped := false;
      match entry {
        case Parts(states) =>
          r := r.(holders := r.holders + {id});
          if target.Modified? {
            dropped := true;
          } else {
            entry := Parts(AllShared(states));
          }
        case Whole(state) =>
          if version[id].number >= r.bestVersion {
            r := r.(bestVersion := version[id].number, best := Some(id));
          }
          if id != dst && !state.Invalid? {
            if target.Modified? {
              dropped := true;
            } else {
              entry := Whole(Shared);
            }
          }
      }
      if dropped {
        entry := Whole(Invalid);
        version := version[id := At(-1)];
        complete := complete[id := None];
        r := r.(evicted := r.evicted + [id]);
      }
      local := local[id := entry];
    }

    /** The loop of `_write_back_to` over all devices. */
    method VisitAll(dst: int, target: Msi) returns (c: Collection)
      requires Keyed(Abs()) && dst in local
      modifies `local, `version, `complete
      ensures Collected(old(Abs()), Devices(gpus), dst, target, c)
      ensures Abs().(version := version[dst := At(latest)]) == WrittenBack(old(Abs()), dst, target)
    {
      ghost var s := Abs();
      var ids := Devices(gpus);
      c := Collection({}, None, -1, []);
      DevicesKnown(s);
      for i := 0 to |ids|
        invariant Walked(s, Abs(), ids, i, dst, target, c)
      {
        WalkDevice(s, Abs(), i, dst, target, c);
        c := Visit(ids[i], dst, target, c);
      }
      WalkedAll(s, Abs(), ids, dst, target, c);
    }

    /** `_write_back_to`. */
    method WriteBackTo(dst: int, target: Msi, keep: Option<int>, order: seq<int>) returns (ops: Option<seq<Op>>)
      requires Keyed(Abs()) && IsOrder(gpus, order) && dst in local
      modifies `local, `version, `complete
      ensures Follows(WriteBack(old(Abs()), order, dst, target, keep), ops, Abs())
    {
      var currentVersion := version[dst];
      var c := VisitAll(dst, target);
      WriteBackList(old(Abs()), order, dst, target, keep, c);
      ops := Plan(order, dst, target, keep, c, currentVersion);
      if ops.Some? {
        version := version[dst := At(latest)];
      }
    }

    /** The rest of `_write_back_to`: which loads and evictions there are. */
    method Plan(order: seq<int>, dst: int, target: Msi, keep: Option<int>, c: Collection, current: Version)
      returns (ops: Option<seq<Op>>)
      ensures ops == Planned(order, dst, target, keep, c, current)
    {
      var sources := Listed(order, c.holders);
      var evicted := c.evicted + (if target.Modified? then sources else []);
      if c.best.None? || current.Each? || (target.Modified? && keep.Some? && keep.value !in evicted) {
        return None;
      }
      if target.Modified? && keep.Some? {
        evicted := RemoveFirst(evicted, keep.value);
      }
      sources := (if current.number < c.bestVersion then [c.best.value] else []) + sources;
      ops := Some(Loads(dst, sources) + Evicts(evicted));
    }

    // ---- read ----

    /** A new owner is elected after `d` received a whole copy. */
    method ElectOwner(d: int)
      requires owner in version
      modifies `owner
      ensures owner == NewOwner(old(Abs()), d)
    {
      if version[owner] == At(latest) {
        if owner == CPU_INDEX {
          owner := d;
        } else if d % 2 == 0 && owner % 2 != 0 {
          owner := d;
        }
      } else {
        owner := d;
      }
    }

    /** `read` of a complete copy, or of a part where the device holds a complete copy. */
    method ReadComplete(d: int, order: seq<int>) returns (ops: Option<seq<Op>>)
      requires Valid() && IsOrder(gpus, order) && d in local && local[d].Whole?
      modifies this
      ensures Follows(ReadWhole(old(Abs()), order, d), ops, Abs())
    {
      ghost var s := Abs();
      var state := local[d].state;
      complete := complete[d := Some(true)];
      if state.Invalid? {
        ops := WriteBackTo(d, Shared, None, order);
        if ops.None? {
          return;
        }
        ShareFetched(d);
        assert Abs() == WholeFetched(s, d);
      } else {
        ops := Some([Noop]);
      }
    }

    /** `d` has a shared copy now, and may become the owner. */
    method ShareFetched(d: int)
      requires owner in version && d in version && d in local
      modifies `local, `version, `owner
      ensures var w := old(Abs());
              var w1 := if d == w.owner then w
                        else w.(owner := NewOwner(w, d), version := w.version[d := At(w.latest)]);
              Abs() == w1.(local := w1.local[d := Whole(Shared)])
    {
      if d != owner {
        ElectOwner(d);
        version := version[d := At(latest)];
      }
      local := local[d := Whole(Shared)];
    }

    /** The special case of `read`: a complete copy is needed where there are parts. */
    method ReadOverHeldParts(d: int, order: seq<int>) returns (ops: Option<seq<Op>>)
      requires Valid() && IsOrder(gpus, order) && d in local && local[d].Parts?
      modifies this
      ensures Follows(ReadOverParts(old(Abs()), order, d), ops, Abs())
    {
      ghost var s := Abs();
      ops := WriteBackTo(owner, Shared, None, order);
      if ops.Some? {
        ops := Some(ops.value + [Evict(d), Load(d, owner, false)]);
        ReplaceParts(d);
        assert Abs() == PartsRead(s, d);
      }
    }

    /** `d` and the owner share the gathered copy. */
    method ReplaceParts(d: int)
      requires owner in version && owner in local && d in version && d in local
      modifies this
      ensures var w := old(Abs());
              var w1 := w.(complete := w.complete[d := Some(true)],
                           version := w.version[d := w.version[w.owner]],
                           local := w.local[w.owner := Whole(Shared)][d := Whole(Shared)]);
              Abs() == w1.(owner := NewOwner(w1, d))
    {
      complete := complete[d := Some(true)];
      version := version[d := version[owner]];
      local := local[owner := Whole(Shared)][d := Whole(Shared)];
      ElectOwner(d);
    }

    /** Turn a device that holds no complete copy into one that holds parts, and look the part up. */
    method Open(d: int, v: View) returns (state: Msi)
      requires Valid() && d in local && complete[d] != Some(true)
      modifies `local, `version, `complete
      ensures Abs() == Opened(old(Abs()), d) && state == PartState(old(Abs()), d, v)
    {
      if !local[d].Parts? {
        version := version[d := Each(map[])];
        local := local[d := Parts(map[])];
        state := Invalid;
      } else if v in local[d].states {
        state := local[d].states[v];
      } else {
        state := Invalid;
      }
      complete := complete[d := Some(false)];
      assert Abs() == Opened(old(Abs()), d);
    }

    method ReadSubarray(d: int, v: View, order: seq<int>) returns (ops: Option<seq<Op>>)
      requires Valid() && IsOrder(gpus, order) && d in local && complete[d] != Some(true)
      modifies this
      ensures Follows(ReadPart(old(Abs()), order, d, v), ops, Abs())
    {
      ghost var s := Abs();
      OpenedForPart(s, order, d, v);
      var state := Open(d, v);
      if !state.Invalid? {
        return Some([Noop]);
      }
      if d == owner {
        ops := WriteBackTo(d, Shared, None, order);
      } else {
        ops := Some([Load(d, owner, true)]);
        version := version[d := Each(version[d].numbers[v := version[owner].number])];
        local := local[d := Parts(local[d].states[v := Shared])];
      }
    }

    method Read(d: int, view: Option<View>, order: seq<int>) returns (ops: Option<seq<Op>>)
      requires Valid() && IsOrder(gpus, order) && d in local
      modifies this
      ensures Follows(Protocol.Read(old(Abs()), order, d, view), ops, Abs())
      ensures ops.Some? ==> Valid()
    {
      ReadIsTyped(Abs(), order, d, view);
      if view.Some? && complete[d] != Some(true) {
        ops := ReadSubarray(d, view.value, order);
      } else if view.None? && complete[d] == Some(false) {
        ops := ReadOverHeldParts(d, order);
      } else {
        ops := ReadComplete(d, order);
      }
    }

    // ---- write ----

    /** `write` of a complete copy, or of a part where the device holds a complete copy. */
    method WriteComplete(d: int, order: seq<int>) returns (ops: Option<seq<Op>>)
      requires Valid() && IsOrder(gpus, order) && d in local && local[d].Whole?
      modifies this
      ensures Follows(WriteWhole(old(Abs()), order, d), ops, Abs())
    {
      var state := local[d].state;
      complete := complete[d := Some(true)];
      if state.Modified? {
        return Some([Noop]);
      }
      if d == owner || state.Invalid? {
        ops := ClaimThenBump(d, order);
      } else {
        ops := BumpThenClaim(d, order);
      }
      if ops.Some? {
        MarkWhole(d);
      }
    }

    method MarkWhole(d: int)
      modifies `local
      ensures Abs() == old(Abs()).(local := old(local)[d := Whole(Modified)])
    {
      local := local[d := Whole(Modified)];
    }

    method ClaimThenBump(d: int, order: seq<int>) returns (ops: Option<seq<Op>>)
      requires Keyed(Abs()) && IsOrder(gpus, order) && d in local
      modifies this
      ensures match WriteBack(old(Abs()), order, d, Modified, None)
              case Raised => ops.None?
              case Done(w, list) => ops == Some(list) && d in w.version && Abs() == Bumped(w, d).(owner := d)
    {
      ops := WriteBackTo(d, Modified, None, order);
      if ops.Some? {
        Bump(d);
      }
    }

    /** `d` becomes the owner, at a new version. */
    method Bump(d: int)
      requires d in version
      modifies `latest, `version, `owner
      ensures Abs() == Bumped(old(Abs()), d).(owner := d)
    {
      latest := latest + 1;
      version := version[d := At(latest)];
      owner := d;
    }

    method BumpThenClaim(d: int, order: seq<int>) returns (ops: Option<seq<Op>>)
      requires Keyed(Abs()) && IsOrder(gpus, order) && d in local && local[d].Whole?
      modifies this
      ensures Follows(WriteBack(Bumped(old(Abs()), d).(owner := d), order, d, Modified, None), ops, Abs())
    {
      Bump(d);
      ops := WriteBackTo(d, Modified, None, order);
    }

    /** The special case of `write`: a complete copy is needed where there are parts. */
    method WriteOverHeldParts(d: int, order: seq<int>) returns (ops: Option<seq<Op>>)
      requires Valid() && IsOrder(gpus, order) && d in local && local[d].Parts?
      modifies this
      ensures Follows(WriteOverParts(old(Abs()), order, d), ops, Abs())
    {
      ghost var s := Abs();
      ops := WriteBackTo(owner, Modified, None, order);
      if ops.Some? {
        ops := Some(ops.value + [Load(d, owner, false)]);
        TakeOver(d);
        assert Abs() == PartsWritten(s, d);
      }
    }

    /** The gathered array moves to `d`, and the old owner's copy is no longer valid. */
    method TakeOver(d: int)
      requires owner in version && owner in local && d in version && d in local
      modifies this
      ensures var w := old(Abs());
              Abs() == w.(complete := w.complete[d := Some(true)],
                          version := w.version[d := w.version[w.owner]],
                          local := w.local[d := Whole(Modified)][w.owner := Whole(Invalid)], owner := d)
    {
      complete := complete[d := Some(true)];
      version := version[d := version[owner]];
      local := local[d := Whole(Modified)][owner := Whole(Invalid)];
      owner := d;
    }

    method WriteSubarray(d: int, v: View, order: seq<int>) returns (ops: Option<seq<Op>>)
      requires Valid() && IsOrder(gpus, order) && d in local && complete[d] != Some(true)
      modifies this
      ensures Follows(WritePart(old(Abs()), order, d, v), ops, Abs())
    {
      ghost var s := Abs();
      OpenedForPart(s, order, d, v);
      var state := Open(d, v);
      if state.Modified? {
        return Some([Noop]);
      }
      if d == owner {
        ops := WriteBackTo(d, Modified, None, order);
      } else if state.Invalid? {
        ops := ClaimNewPart(d, v);
      } else {
        ops := UpgradePart(d, v);
      }
    }

    /** A part that is not there yet: load it from the owner, whose copy is no longer valid. */
    method ClaimNewPart(d: int, v: View) returns (ops: Option<seq<Op>>)
      requires d in local && local[d].Parts? && d in version && version[d].Each? && d != owner
      requires owner in version && version[owner].At? && owner in local
      modifies this
      ensures var s1 := old(Abs());
              var number := s1.version[s1.owner].number;
              var s2 := SetPart(s1, d, v, Modified, number + 1);
              && ops == Some([Load(d, s1.owner, true)])
              && Abs() == s2.(latest := if number == s1.latest then s1.latest + 1 else s1.latest,
                              local := s2.local[s1.owner := Whole(Invalid)])
    {
      ops := Some([Load(d, owner, true)]);
      var number := version[owner].number;
      version := version[d := Each(version[d].numbers[v := number + 1])];
      if number == latest {
        latest := latest + 1;
      }
      local := local[d := Parts(local[d].states[v := Modified])];
      local := local[owner := Whole(Invalid)];
    }

    /** A shared part becomes modified: no complete copy stays valid. */
    method UpgradePart(d: int, v: View) returns (ops: Option<seq<Op>>)
      requires Keyed(Abs()) && d in local && local[d].Parts?
      modifies this
      ensures ops == Some(UpgradeOps(old(Abs()))) && Abs() == PartUpgraded(old(Abs()), d, v)
    {
      ghost var s := Abs();
      ops := DropAtNextVersion();
      UpgradeAfterDrop(s, d, v, Abs());
      version := version[d := Each(version[d].numbers[v := latest])];
      local := local[d := Parts(local[d].states[v := Modified])];
    }

    /** The upgrade before the part's own entry: a new latest version, no valid complete copy. */
    method DropAtNextVersion() returns (ops: Option<seq<Op>>)
      requires Keyed(Abs())
      modifies this
      ensures Abs() == WholesInvalidated(old(Abs()).(latest := old(latest) + 1))
      ensures ops == Some(UpgradeOps(old(Abs())))
    {
      OthersIgnoreVersion(Abs(), Devices(gpus), latest + 1);
      latest := latest + 1;
      var list := InvalidateWholes();
      ops := Some(if list == [] then [Noop] else list);
    }

    method Write(d: int, view: Option<View>, order: seq<int>) returns (ops: Option<seq<Op>>)
      requires Valid() && IsOrder(gpus, order) && d in local
      modifies this
      ensures Follows(Protocol.Write(old(Abs()), order, d, view), ops, Abs())
      ensures ops.Some? ==> Valid()
    {
      WriteIsTyped(Abs(), order, d, view);
      if view.Some? && complete[d] != Some(true) {
        ops := WriteSubarray(d, view.value, order);
      } else if view.None? && complete[d] == Some(false) {
        ops := WriteOverHeldParts(d, order);
      } else {
        ops := WriteComplete(d, order);
      }
    }

    /** Invalidate every complete copy, and drop all but the owner's. */
    method InvalidateWholes() returns (ops: seq<Op>)
      requires Keyed(Abs())
      modifies `local, `version, `complete
      ensures Abs() == WholesInvalidated(old(Abs()))
      ensures ops == Evicts(OtherWholes(old(Abs()), Devices(gpus)))
    {
      ghost var s := Abs();
      var ids := Devices(gpus);
      ops := [];
      DevicesKnown(s);
      for i := 0 to |ids|
        invariant SweptFirst(s, Abs(), ids, i, ops)
      {
        SweepDevice(s, Abs(), i, ops);
        var dropped := Invalidate(ids[i]);
        ops := ops + (if dropped then [Evict(ids[i])] else []);
      }
      SweptLast(s, Abs(), ids, ops);
    }

    /** The loop body: invalidate one device's complete copy, if it has one, and drop it unless it is the owner's. */
    method Invalidate(id: int) returns (dropped: bool)
      requires id in local
      modifies `local, `version, `complete
      ensures Abs() == SweptEntry(old(Abs()), id)
      ensures dropped == (old(local[id]).Whole? && id != owner)
    {
      dropped := false;
      if local[id].Whole? {
        local := local[id := Whole(Invalid)];
        if id != owner {
          version := version[id := At(-1)];
          complete := complete[id := None];
          dropped := true;
        }
      }
    }

    // ---- evict ----

    /** `evict` with `keep_one_copy`. */
    method EvictFrom(d: int, order: seq<int>) returns (ops: Option<seq<Op>>)
      requires Valid() && IsOrder(gpus, order) && d in local
      modifies this
      ensures Follows(EvictCopy(old(Abs()), order, d), ops, Abs())
      ensures ops.Some? ==> Valid()
      ensures old(local[d]) == Whole(Shared) && d != old(owner) ==>
                && ops == Some([Evict(d)]) && local == old(local)[d := Whole(Invalid)]
                && version == old(version)[d := At(-1)] && complete == old(complete)[d := None]
    {
      EvictIsTyped(Abs(), order, d);
      var evictLastCopy := false;
      ops := Some([]);
      if local[d] == Whole(Invalid) {
        ops := Some([Noop]);
      } else if local[d] == Whole(Shared) {
        if d == owner {
          var found := FindShared(d);
          evictLastCopy := !found;
        } else {
          local := local[d := Whole(Invalid)];
          version := version[d := At(-1)];
          complete := complete[d := None];
          ops := Some([Evict(d)]);
        }
      } else {
        evictLastCopy := true;
      }
      if evictLastCopy {
        if d != CPU_INDEX {
          ops := WriteToCpu(d, order);
        } else {
          ops := Some([Noop]);
        }
      }
    }

    /** Keep the last copy, at the CPU. */
    method WriteToCpu(d: int, order: seq<int>) returns (ops: Option<seq<Op>>)
      requires Keyed(Abs()) && IsOrder(gpus, order) && d in local && CPU_INDEX in local
      modifies this
      ensures match WriteBack(old(Abs()), order, CPU_INDEX, Modified, Some(d))
              case Raised => ops.None?
              case Done(w, list) =>
                && ops == Some(list)
                && Abs() == w.(owner := CPU_INDEX, local := w.local[CPU_INDEX := Whole(Modified)],
                               complete := w.complete[d := Some(true)])
    {
      ops := WriteBackTo(CPU_INDEX, Modified, Some(d), order);
      if ops.Some? {
        SettleAtCpu(d);
      }
    }

    /** The CPU owns the copy, and the evicted device is marked complete. */
    method SettleAtCpu(d: int)
      requires CPU_INDEX in local
      modifies this
      ensures Abs() == old(Abs()).(owner := CPU_INDEX, local := old(local)[CPU_INDEX := Whole(Modified)],
                                   complete := old(complete)[d := Some(true)])
    {
      owner := CPU_INDEX;
      local := local[CPU_INDEX := Whole(Modified)];
      complete := complete[d := Some(true)];
    }

    /** Whether another device has a shared complete copy. */
    method FindShared(d: int) returns (found: bool)
      requires Keyed(Abs())
      ensures found == AnotherShared(Abs(), d)
    {
      var ids := Devices(gpus);
      for i := 0 to |ids|
        invariant forall j | 0 <= j < i :: ids[j] in local && !(local[ids[j]] == Whole(Shared) && ids[j] != d)
      {
        assert ids[i] in ids;
        if local[ids[i]] == Whole(Shared) && ids[i] != d {
          return true;
        }
      }
      forall e | e in local ensures !(e != d && local[e] == Whole(Shared)) {
        assert e in ids;
      }
      return false;
    }
  }
}
