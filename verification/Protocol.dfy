/**
 The coherence protocol of `parla/parray/coherence.py` as functions from one protocol state to the next.

 `local`, `version` and `complete` are the dictionaries `_local_states`, `_versions` and `_is_complete`.
 A device's entry is either about one whole copy or, per subarray, about a list of parts.
 The class in Coherence.dfy updates those dictionaries in place and is proved against these functions.
 */
module Protocol {
  import opened Wrappers

  const CPU_INDEX := -1

  /** The identity of a subarray: its slices hash, and the positions of the flattened array it selects. */
  datatype View = View(hash: int, positions: seq<nat>)

  datatype Msi = Invalid | Shared | Modified

  datatype Local = Whole(state: Msi) | Parts(states: map<View, Msi>)

  datatype Version = At(number: int) | Each(numbers: map<View, int>)

  datatype Op = Noop | Error | Load(dst: int, src: int, subarray: bool) | Evict(src: int)

  datatype State = State(
    gpus: nat,
    local: map<int, Local>,
    version: map<int, Version>,
    complete: map<int, Option<bool>>,
    owner: int,
    latest: int)

  /** What one protocol call does: a new state and an operation list, or a Python exception. */
  datatype Outcome = Done(state: State, ops: seq<Op>) | Raised

  /** The devices in dictionary order: every GPU, then the CPU. */
  function Devices(gpus: nat): (ids: seq<int>)
    ensures |ids| == gpus + 1
    ensures forall d :: d in ids <==> CPU_INDEX <= d < gpus
  {
    var ids := seq(gpus, i => i) + [CPU_INDEX];
    assert forall d | CPU_INDEX <= d < gpus :: d in ids by {
      forall d | CPU_INDEX <= d < gpus ensures d in ids {
        assert ids[if d == CPU_INDEX then gpus else d] == d;
      }
    }
    ids
  }

  lemma DevicesDiffer(gpus: nat, i: nat, j: nat)
    requires i < j <= gpus
    ensures Devices(gpus)[i] != Devices(gpus)[j]
  {
  }

  predicate IsDevice(s: State, d: int) {
    CPU_INDEX <= d < s.gpus
  }

  /** The three dictionaries have every device as a key, and agree on which devices hold parts. */
  ghost predicate Keyed(s: State) {
    && s.version.Keys == s.complete.Keys == s.local.Keys
    && (forall d :: d in s.local <==> IsDevice(s, d))
    && (forall d | d in s.local :: s.local[d].Whole? <==> s.version[d].At?)
  }

  /** The version of the whole copy at `d`. Devices with parts get a number no whole copy has. */
  function Number(version: map<int, Version>, d: int): int {
    if d in version && version[d].At? then version[d].number else -2
  }

  ghost predicate Typed(s: State) {
    && Keyed(s)
    && s.owner in s.local && s.local[s.owner].Whole?
    && (forall d | d in s.local :: s.local[d].Parts? <==> s.complete[d] == Some(false))
  }

  /** Some order in which Python may iterate over a set of devices. */
  ghost predicate IsOrder(gpus: nat, order: seq<int>) {
    && (forall i | 0 <= i < |order| :: CPU_INDEX <= order[i] < gpus)
    && (forall d | CPU_INDEX <= d < gpus :: d in order)
  }

  function Initial(gpus: nat, owner: int): State {
    var ids := Devices(gpus);
    State(gpus,
          map d | d in ids :: if d == owner then Whole(Modified) else Whole(Invalid),
          map d | d in ids :: if d == owner then At(0) else At(-1),
          map d | d in ids :: if d == owner then Some(true) else None,
          owner, 0)
  }

  lemma InitialTyped(gpus: nat, owner: int)
    requires CPU_INDEX <= owner < gpus
    ensures Typed(Initial(gpus, owner))
  {
  }

  // ---- _write_back_to ----

  function Holders(s: State, order: seq<int>): (holders: seq<int>)
    requires forall i | 0 <= i < |order| :: order[i] in s.local
    ensures forall d :: d in holders <==> d in order && s.local[d].Parts?
  {
    if order == [] then []
    else
      (if s.local[order[0]].Parts? then [order[0]] else []) + Holders(s, order[1..])
  }

  /** The last of `ids` whose whole copy has the highest version. */
  function LatestCopy(s: State, ids: seq<int>): (best: Option<int>)
    requires Keyed(s) && forall d | d in ids :: d in s.local
    ensures best.Some? ==>
              best.value in ids && best.value in s.local && s.local[best.value].Whole?
                  && Number(s.version, best.value) >= -1
    ensures forall d | d in ids && s.local[d].Whole? && Number(s.version, d) >= -1 ::
              best.Some? && Number(s.version, d) <= Number(s.version, best.value)
  {
    if ids == [] then None
    else
      var best := LatestCopy(s, ids[..|ids| - 1]);
      var d := ids[|ids| - 1];
      assert ids == ids[..|ids| - 1] + [d];
      if s.local[d].Whole? && Number(s.version, d) >= (if best.Some? then Number(s.version, best.value) else -1)
      then Some(d) else best
  }

  function AllShared(states: map<View, Msi>): map<View, Msi> {
    map v | v in states :: Shared
  }

  function Downgraded(l: Local, isDestination: bool, target: Msi): Local {
    match l
    case Parts(states) => if target.Modified? then Whole(Invalid) else Parts(AllShared(states))
    case Whole(state) =>
      if isDestination || state.Invalid? then l
      else if target.Modified? then Whole(Invalid) else Whole(Shared)
  }

  predicate Dropped(l: Local, isDestination: bool, target: Msi) {
    target.Modified? && (l.Parts? || (!isDestination && !l.state.Invalid?))
  }

  function Evictions(s: State, ids: seq<int>, dst: int, target: Msi): (evicted: seq<int>)
    requires forall d | d in ids :: d in s.local
    ensures forall d :: d in evicted <==> d in ids && Dropped(s.local[d], d == dst, target)
  {
    if ids == [] then []
    else
      var d := ids[|ids| - 1];
      assert ids == ids[..|ids| - 1] + [d];
      Evictions(s, ids[..|ids| - 1], dst, target) + (if Dropped(s.local[d], d == dst, target) then [d] else [])
  }

  function RemoveFirst(ids: seq<int>, d: int): seq<int> {
    if ids == [] then [] else if ids[0] == d then ids[1..] else [ids[0]] + RemoveFirst(ids[1..], d)
  }

  function Loads(dst: int, sources: seq<int>): (ops: seq<Op>)
    ensures |ops| == |sources|
  {
    seq(|sources|, i requires 0 <= i < |sources| => Load(dst, sources[i], false))
  }

  function Evicts(ids: seq<int>): (ops: seq<Op>)
    ensures |ops| == |ids|
  {
    seq(|ids|, i requires 0 <= i < |ids| => Evict(ids[i]))
  }

  function EvictionList(s: State, order: seq<int>, dst: int, target: Msi, keep: Option<int>): seq<int>
    requires Keyed(s) && IsOrder(s.gpus, order)
  {
    var all := Evictions(s, Devices(s.gpus), dst, target) + (if target.Modified? then Holders(s, order) else []);
    if target.Modified? && keep.Some? then RemoveFirst(all, keep.value) else all
  }

  function WrittenBack(s: State, dst: int, target: Msi): State
    requires Keyed(s) && dst in s.local
  {
    s.(local := map d | d in s.local :: Downgraded(s.local[d], d == dst, target),
       version := map d | d in s.local ::
         if d == dst then At(s.latest) else if Dropped(s.local[d], false, target) then At(-1) else s.version[d],
       complete := map d | d in s.local ::
         if Dropped(s.local[d], d == dst, target) then None else s.complete[d])
  }

  /** `_write_back_to`: make `dst` hold the latest data, downgrading or dropping the other copies.
      It raises when no whole copy exists, when `dst` holds parts (its version is then a dictionary, which
      cannot be compared), and when the device to keep was not going to be evicted. */
  function WriteBack(s: State, order: seq<int>, dst: int, target: Msi, keep: Option<int>): Outcome
    requires Keyed(s) && IsOrder(s.gpus, order) && dst in s.local
  {
    var best := LatestCopy(s, Devices(s.gpus));
    var all := Evictions(s, Devices(s.gpus), dst, target) + (if target.Modified? then Holders(s, order) else []);
    if best.None? || s.version[dst].Each? || (target.Modified? && keep.Some? && keep.value !in all) then Raised
    else
      var stale := Number(s.version, dst) < Number(s.version, best.value);
      var sources := (if stale then [best.value] else []) + Holders(s, order);
      Done(WrittenBack(s, dst, target),
           Loads(dst, sources) + Evicts(EvictionList(s, order, dst, target, keep)))
  }

  // ---- read ----

  /** The owner after `d` received a whole copy. GPU 0 and 2 are preferred over 1 and 3, any GPU over the CPU. */
  function NewOwner(s: State, d: int): int
    requires s.owner in s.version
  {
    if s.version[s.owner] == At(s.latest) then
      if s.owner == CPU_INDEX || (d % 2 == 0 && s.owner % 2 != 0) then d else s.owner
    else d
  }

  /** The state after a whole read had to fetch a copy for `d`. */
  function WholeFetched(s: State, d: int): State
    requires Keyed(s) && d in s.local && s.owner in s.local
  {
    var w := WrittenBack(s.(complete := s.complete[d := Some(true)]), d, Shared);
    var w1 := if d == s.owner then w else w.(owner := NewOwner(w, d), version := w.version[d := At(w.latest)]);
    w1.(local := w1.local[d := Whole(Shared)])
  }

  function ReadWhole(s: State, order: seq<int>, d: int): Outcome
    requires Typed(s) && IsOrder(s.gpus, order) && d in s.local && s.local[d].Whole?
  {
    var s1 := s.(complete := s.complete[d := Some(true)]);
    if s.local[d].state.Invalid? then
      match WriteBack(s1, order, d, Shared, None)
      case Raised => Raised
      case Done(_, ops) => Done(WholeFetched(s, d), ops)
    else Done(s1, [Noop])
  }

  /** The state after a whole read gathered the parts into the owner and copied it to `d`. */
  function PartsRead(s: State, d: int): State
    requires Typed(s) && d in s.local
  {
    var w := WrittenBack(s, s.owner, Shared);
    var w1 := w.(complete := w.complete[d := Some(true)],
                 version := w.version[d := w.version[w.owner]],
                 local := w.local[w.owner := Whole(Shared)][d := Whole(Shared)]);
    w1.(owner := NewOwner(w1, d))
  }

  /** A whole read at a device that holds parts: gather into the owner, drop the parts, copy back. */
  function ReadOverParts(s: State, order: seq<int>, d: int): Outcome
    requires Typed(s) && IsOrder(s.gpus, order) && d in s.local
  {
    match WriteBack(s, order, s.owner, Shared, None)
    case Raised => Raised
    case Done(_, ops) => Done(PartsRead(s, d), ops + [Evict(d), Load(d, s.owner, false)])
  }

  /** The state after a first or repeated subarray access made `d` a device that holds parts. */
  function Opened(s: State, d: int): State
    requires Keyed(s) && d in s.local
  {
    s.(local := s.local[d := if s.local[d].Parts? then s.local[d] else Parts(map[])],
       version := s.version[d := if s.local[d].Parts? then s.version[d] else Each(map[])],
       complete := s.complete[d := Some(false)])
  }

  function PartState(s: State, d: int, v: View): Msi
    requires d in s.local
  {
    if s.local[d].Parts? && v in s.local[d].states then s.local[d].states[v] else Invalid
  }

  function SetPart(s: State, d: int, v: View, state: Msi, number: int): State
    requires d in s.local && s.local[d].Parts? && d in s.version && s.version[d].Each?
  {
    s.(local := s.local[d := Parts(s.local[d].states[v := state])],
       version := s.version[d := Each(s.version[d].numbers[v := number])])
  }

  function ReadPart(s: State, order: seq<int>, d: int, v: View): Outcome
    requires Typed(s) && IsOrder(s.gpus, order) && d in s.local && s.complete[d] != Some(true)
  {
    var s1 := Opened(s, d);
    if !PartState(s, d, v).Invalid? then Done(s1, [Noop])
    else if d == s.owner then WriteBack(s1, order, d, Shared, None)
    else Done(SetPart(s1, d, v, Shared, Number(s.version, s.owner)), [Load(d, s.owner, true)])
  }

  function Read(s: State, order: seq<int>, d: int, view: Option<View>): Outcome
    requires Typed(s) && IsOrder(s.gpus, order) && d in s.local
  {
    if view.Some? && s.complete[d] != Some(true) then ReadPart(s, order, d, view.value)
    else if view.None? && s.complete[d] == Some(false) then ReadOverParts(s, order, d)
    else ReadWhole(s, order, d)
  }

  // ---- write ----

  function Bumped(s: State, d: int): State
    requires d in s.version
  {
    s.(latest := s.latest + 1, version := s.version[d := At(s.latest + 1)])
  }

  function WriteWhole(s: State, order: seq<int>, d: int): Outcome
    requires Typed(s) && IsOrder(s.gpus, order) && d in s.local && s.local[d].Whole?
  {
    var s1 := s.(complete := s.complete[d := Some(true)]);
    if s.local[d].state.Modified? then Done(s1, [Noop])
    else if s.local[d].state.Shared? && d != s.owner then
      match WriteBack(Bumped(s1, d).(owner := d), order, d, Modified, None)
      case Raised => Raised
      case Done(w, ops) => Done(w.(local := w.local[d := Whole(Modified)]), ops)
    else
      match WriteBack(s1, order, d, Modified, None)
      case Raised => Raised
      case Done(w, ops) => Done(Bumped(w, d).(owner := d, local := w.local[d := Whole(Modified)]), ops)
  }

  /** The state after a whole write gathered the parts into the owner and moved the array to `d`. */
  function PartsWritten(s: State, d: int): State
    requires Typed(s) && d in s.local
  {
    var w := WrittenBack(s, s.owner, Modified);
    w.(complete := w.complete[d := Some(true)], version := w.version[d := w.version[w.owner]],
       local := w.local[d := Whole(Modified)][w.owner := Whole(Invalid)], owner := d)
  }

  /** A whole write at a device that holds parts. The version is not raised on this path. */
  function WriteOverParts(s: State, order: seq<int>, d: int): Outcome
    requires Typed(s) && IsOrder(s.gpus, order) && d in s.local
  {
    match WriteBack(s, order, s.owner, Modified, None)
    case Raised => Raised
    case Done(_, ops) => Done(PartsWritten(s, d), ops + [Load(d, s.owner, false)])
  }

  /** The whole copies other than `owner` that a write to a shared part drops, in dictionary order. */
  function OtherWholes(s: State, ids: seq<int>): (others: seq<int>)
    requires forall d | d in ids :: d in s.local
    ensures forall d :: d in others <==> d in ids && s.local[d].Whole? && d != s.owner
  {
    if ids == [] then []
    else
      var d := ids[|ids| - 1];
      assert ids == ids[..|ids| - 1] + [d];
      OtherWholes(s, ids[..|ids| - 1]) + (if s.local[d].Whole? && d != s.owner then [d] else [])
  }

  function WholesInvalidated(s: State): State
    requires Keyed(s)
  {
    s.(local := map d | d in s.local :: if s.local[d].Whole? then Whole(Invalid) else s.local[d],
       version := map d | d in s.local :: if s.local[d].Whole? && d != s.owner then At(-1) else s.version[d],
       complete := map d | d in s.local :: if s.local[d].Whole? && d != s.owner then None else s.complete[d])
  }

  /** The state after a write loaded a new part: the owner's copy is no longer valid. */
  function PartClaimed(s: State, d: int, v: View): State
    requires Typed(s) && d in s.local
  {
    var number := Number(s.version, s.owner);
    var s2 := SetPart(Opened(s, d), d, v, Modified, number + 1);
    s2.(latest := if number == s.latest then s.latest + 1 else s.latest,
        local := s2.local[s.owner := Whole(Invalid)])
  }

  /** The state after a write to a part that was shared: every whole copy is invalid, only the owner's is kept. */
  function PartUpgraded(s: State, d: int, v: View): State
    requires Keyed(s) && d in s.local && s.local[d].Parts?
  {
    SetPart(WholesInvalidated(s.(latest := s.latest + 1)), d, v, Modified, s.latest + 1)
  }

  function UpgradeOps(s: State): seq<Op>
    requires Keyed(s)
  {
    var evicts := Evicts(OtherWholes(s, Devices(s.gpus)));
    if evicts == [] then [Noop] else evicts
  }

  function WritePart(s: State, order: seq<int>, d: int, v: View): Outcome
    requires Typed(s) && IsOrder(s.gpus, order) && d in s.local && s.complete[d] != Some(true)
  {
    var s1 := Opened(s, d);
    var state := PartState(s, d, v);
    if state.Modified? then Done(s1, [Noop])
    else if d == s.owner then WriteBack(s1, order, d, Modified, None)
    else if state.Invalid? then
      Done(PartClaimed(s, d, v), [Load(d, s.owner, true)])
    else
      Done(PartUpgraded(s1, d, v), UpgradeOps(s1))
  }

  function Write(s: State, order: seq<int>, d: int, view: Option<View>): Outcome
    requires Typed(s) && IsOrder(s.gpus, order) && d in s.local
  {
    if view.Some? && s.complete[d] != Some(true) then WritePart(s, order, d, view.value)
    else if view.None? && s.complete[d] == Some(false) then WriteOverParts(s, order, d)
    else WriteWhole(s, order, d)
  }

  // ---- evict, with keep_one_copy ----

  predicate AnotherShared(s: State, d: int) {
    exists e :: e in s.local && e != d && s.local[e] == Whole(Shared)
  }

  predicate EvictsLastCopy(s: State, d: int)
    requires d in s.local
  {
    match s.local[d]
    case Whole(Invalid) => false
    case Whole(Shared) => d == s.owner && !AnotherShared(s, d)
    case _ => true
  }

  function EvictCopy(s: State, order: seq<int>, d: int): Outcome
    requires Typed(s) && IsOrder(s.gpus, order) && d in s.local
  {
    if EvictsLastCopy(s, d) then
      if d == CPU_INDEX then Done(s, [Noop])
      else
        match WriteBack(s, order, CPU_INDEX, Modified, Some(d))
        case Raised => Raised
        case Done(w, ops) =>
          Done(w.(owner := CPU_INDEX, local := w.local[CPU_INDEX := Whole(Modified)],
                  complete := w.complete[d := Some(true)]), ops)
    else if s.local[d] == Whole(Invalid) then Done(s, [Noop])
    else if d == s.owner then Done(s, [])
    else
      Done(s.(local := s.local[d := Whole(Invalid)], version := s.version[d := At(-1)],
              complete := s.complete[d := None]), [Evict(d)])
  }

  // ---- typing of what a write-back and a fetch leave ----

  predicate HoldsWhole(local: map<int, Local>, d: int) {
    d in local && local[d].Whole?
  }

  lemma WrittenBackTyped(s: State, dst: int, target: Msi)
    requires Typed(s) && HoldsWhole(s.local, dst)
    ensures var w := WrittenBack(s, dst, target); Typed(w) && HoldsWhole(w.local, dst) && HoldsWhole(w.local, s.owner)
  {
  }

  lemma WholeFetchedTyped(s: State, d: int)
    requires Typed(s) && HoldsWhole(s.local, d)
    ensures Typed(WholeFetched(s, d)) && WholeFetched(s, d).gpus == s.gpus
  {
    WrittenBackTyped(s.(complete := s.complete[d := Some(true)]), d, Shared);
  }
}
