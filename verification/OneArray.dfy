/**
 The protocol and the buffers together: what `PArray` in `parla/parray/core.py` does on one access, the
 invariant that ties every device's buffer to one logical array, and the theorem that many device copies
 behave like that one array.
 */
module OneArray {
  import opened Wrappers
  import opened Protocol
  import opened Buffers

  datatype System = System(p: State, b: Buffers)

  /** One access by a task: a coherence call, the execution of its operations, then the task's own store. */
  datatype Event =
    | ReadAt(d: int, view: Option<View>)
    | WriteAt(d: int, view: Option<View>, values: seq<int>)
    | EvictAt(d: int)
    | UpdateAt(d: int, data: seq<int>)

  ghost predicate Wellformed(sys: System) {
    Typed(sys.p) && KeyedBuffers(sys.b, sys.p.gpus)
  }

  /** `_coherence_read`, `_coherence_write` and `evict`: execute what the protocol call returned. */
  function Execute(b: Buffers, gpus: nat, outcome: Outcome, view: Option<View>): Option<System>
    requires KeyedBuffers(b, gpus)
  {
    match outcome
    case Raised => None
    case Done(p, ops) =>
      match RunOps(b, gpus, ops, view)
      case None => None
      case Some(b1) => Some(System(p, b1))
  }

  /** The position in the index map of the part a device holds for `v`. */
  function PartIndex(views: seq<View>, v: View): (k: nat)
    requires v in views
    ensures k < |views| && views[k] == v
  {
    if views[0] == v then 0 else 1 + PartIndex(views[1..], v)
  }

  /** What a task at device `d` sees of the array, or of the part selected by `view`. */
  function Seen(b: Buffers, d: int, view: Option<View>): Option<seq<int>> {
    if d !in b.buffer || d !in b.index then None
    else
      match b.buffer[d]
      case Empty => None
      case Full(data) =>
        if view.None? then Some(data)
        else if Fits(view.value.positions, |data|) then Some(Gather(data, view.value.positions)) else None
      case Subarrays(parts) =>
        if view.Some? && b.index[d].Some? && view.value in b.index[d].value
           && PartIndex(b.index[d].value, view.value) < |parts|
        then Some(parts[PartIndex(b.index[d].value, view.value)])
        else None
  }

  /** The task's store of `values` into the array or part it sees. */
  function Stored(b: Buffers, d: int, view: Option<View>, values: seq<int>): Buffers
    requires Seen(b, d, view).Some? && |Seen(b, d, view).value| == |values|
  {
    b.(buffer := b.buffer[d :=
      match b.buffer[d]
      case Full(data) => Full(if view.None? then values else Scatter(data, view.value.positions, values))
      case Subarrays(parts) => Subarrays(parts[PartIndex(b.index[d].value, view.value) := values])])
  }

  /** `PArray.update`: new data at one device, an empty buffer at the others, and a reset protocol.
      Only this device's index map is cleared. */
  function Updated(sys: System, d: int, data: seq<int>): System
    requires Wellformed(sys) && d in sys.p.local
  {
    System(Initial(sys.p.gpus, d),
           sys.b.(buffer := map e | e in sys.b.buffer :: if e == d then Full(data) else Empty,
                  index := sys.b.index[d := None]))
  }

  /** The device copies as the task at the event's device sees them, before its own store. */
  function Accessed(sys: System, order: seq<int>, ev: Event): Option<System>
    requires Wellformed(sys) && IsOrder(sys.p.gpus, order) && ev.d in sys.p.local
  {
    match ev
    case ReadAt(d, view) => Execute(sys.b, sys.p.gpus, Read(sys.p, order, d, view), view)
    case WriteAt(d, view, _) => Execute(sys.b, sys.p.gpus, Write(sys.p, order, d, view), view)
    case EvictAt(d) => Execute(sys.b, sys.p.gpus, EvictCopy(sys.p, order, d), None)
    case UpdateAt(d, data) => Some(Updated(sys, d, data))
  }

  function Step(sys: System, order: seq<int>, ev: Event): Option<System>
    requires Wellformed(sys) && IsOrder(sys.p.gpus, order) && ev.d in sys.p.local
  {
    match Accessed(sys, order, ev)
    case None => None
    case Some(s1) =>
      if ev.WriteAt? then
        if Seen(s1.b, ev.d, ev.view).Some? && |Seen(s1.b, ev.d, ev.view).value| == |ev.values|
        then Some(System(s1.p, Stored(s1.b, ev.d, ev.view, ev.values)))
        else None
      else Some(s1)
  }

  /** The same event on one ordinary array. */
  function Applied(cur: seq<int>, ev: Event): seq<int> {
    match ev
    case WriteAt(_, None, values) => values
    case WriteAt(_, Some(v), values) =>
      if Fits(v.positions, |cur|) && |values| == |v.positions| then Scatter(cur, v.positions, values) else cur
    case UpdateAt(_, data) => data
    case _ => cur
  }

  /** What the same read sees on one ordinary array. */
  function Expected(cur: seq<int>, view: Option<View>): seq<int>
    requires view.Some? ==> Fits(view.value.positions, |cur|)
  {
    if view.None? then cur else Gather(cur, view.value.positions)
  }

  // ---- the invariant ----

  predicate HoldsParts(local: map<int, Local>, d: int) {
    d in local && local[d].Parts?
  }

  predicate Valid(local: map<int, Local>, d: int) {
    HoldsWhole(local, d) && !local[d].state.Invalid?
  }

  predicate IsModified(local: map<int, Local>, d: int) {
    HoldsWhole(local, d) && local[d].state.Modified?
  }

  predicate IsModifiedPart(local: map<int, Local>, d: int, v: View) {
    HoldsParts(local, d) && v in local[d].states && local[d].states[v].Modified?
  }

  type IndexMap = map<int, Option<seq<View>>>

  /** Position `x` of the full array belongs to part `k` of device `d`. */
  predicate InPart(index: IndexMap, d: int, k: int, x: nat) {
    d in index && index[d].Some? && 0 <= k < |index[d].value| && x in index[d].value[k].positions
  }

  ghost predicate Covered(index: IndexMap, x: nat) {
    exists d, k :: InPart(index, d, k, x)
  }

  /** Some part covers `x` for a device of `ds`. */
  ghost predicate CoveredBy(index: IndexMap, ds: seq<int>, x: nat) {
    exists d, k :: d in ds && InPart(index, d, k, x)
  }

  /** A full array that agrees with `cur` wherever no part covers it. */
  ghost predicate AgreesOffParts(buffer: Buffer, index: IndexMap, cur: seq<int>) {
    && buffer.Full? && |buffer.data| == |cur|
    && forall x: nat | x < |cur| && !Covered(index, x) :: buffer.data[x] == cur[x]
  }

  /** The part holds the elements of `cur` that its view names. */
  ghost predicate PartAgrees(part: seq<int>, v: View, cur: seq<int>) {
    Fits(v.positions, |cur|) && Distinct(v.positions) && part == Gather(cur, v.positions)
  }

  ghost predicate PartsAgree(buffer: Buffer, views: Option<seq<View>>, cur: seq<int>) {
    && buffer.Subarrays? && views.Some? && |buffer.parts| == |views.value| > 0
    && forall k | 0 <= k < |views.value| :: PartAgrees(buffer.parts[k], views.value[k], cur)
  }

  /** Index map and buffer list of a device with parts have one entry per subarray the protocol knows there. */
  ghost predicate PartsMatch(local: Local, buffer: Buffer, views: Option<seq<View>>, cur: seq<int>)
    requires local.Parts?
  {
    && PartsAgree(buffer, views, cur)
    && (forall v :: v in local.states <==> v in views.value)
    && (forall v | v in local.states :: !local.states[v].Invalid?)
  }

  ghost predicate Disjoint(index: IndexMap) {
    forall d, k, e, l, x | InPart(index, d, k, x) && InPart(index, e, l, x) :: d == e && k == l
  }

  ghost predicate Bookkeeping(sys: System, cur: seq<int>) {
    && Wellformed(sys)
    && (forall d | HoldsWhole(sys.p.local, d) :: sys.b.index[d].None? && !sys.b.buffer[d].Subarrays?)
    && (forall d | HoldsParts(sys.p.local, d) ::
          PartsMatch(sys.p.local[d], sys.b.buffer[d], sys.b.index[d], cur))
    && Disjoint(sys.b.index)
  }

  /** Versions: the owner has the highest among whole copies; valid copies are at the latest, invalid ones below. */
  ghost predicate Versions(p: State) {
    && 0 <= Number(p.version, p.owner) <= p.latest
    && (forall d | HoldsWhole(p.local, d) :: -1 <= Number(p.version, d) <= Number(p.version, p.owner))
    && (forall d | HoldsWhole(p.local, d) :: Valid(p.local, d) <==> Number(p.version, d) == p.latest)
  }

  /** At most one writer: a modified whole copy belongs to the owner, and no other whole copy is valid then. */
  ghost predicate SingleWriter(local: map<int, Local>, owner: int) {
    forall d, e | IsModified(local, d) && Valid(local, e) :: d == owner == e
  }

  /** A modified part leaves no whole copy valid. */
  ghost predicate PartsExclude(local: map<int, Local>) {
    forall d, v, e | IsModifiedPart(local, d, v) :: !Valid(local, e)
  }

  /** Valid whole copies are the logical array; copies as new as the owner's are right off the parts. */
  ghost predicate CopiesRight(p: State, b: Buffers, cur: seq<int>) {
    && (forall d | Valid(p.local, d) :: d in b.buffer && b.buffer[d] == Full(cur))
    && (forall d | HoldsWhole(p.local, d) && Number(p.version, d) == Number(p.version, p.owner) ::
          d in b.buffer && AgreesOffParts(b.buffer[d], b.index, cur))
  }

  ghost predicate Inv(sys: System, cur: seq<int>) {
    && Bookkeeping(sys, cur)
    && Versions(sys.p)
    && SingleWriter(sys.p.local, sys.p.owner)
    && PartsExclude(sys.p.local)
    && CopiesRight(sys.p, sys.b, cur)
    && (Valid(sys.p.local, sys.p.owner) || exists d :: HoldsParts(sys.p.local, d))
  }

  // ---- gathering parts into a full array ----

  /** Writing the parts of one device, from the `k`-th on, into the full array at `dst`. */
  lemma {:induction false} CopyParts(b: Buffers, dst: int, src: int, k: nat, cur: seq<int>)
    requires dst in b.buffer && src in b.buffer && src in b.index && dst != src
    requires b.buffer[dst].Full? && |b.buffer[dst].data| == |cur|
    requires PartsAgree(b.buffer[src], b.index[src], cur) && k <= |b.index[src].value|
    ensures var r := CopyFrom(b, dst, src, k, None, b.index[src].value);
            && r.Some?
            && r.value.index == b.index
            && dst in r.value.buffer && r.value.buffer[dst].Full? && |r.value.buffer[dst].data| == |cur|
            && r.value.buffer == b.buffer[dst := r.value.buffer[dst]]
            && forall x: nat | x < |cur| ::
                 r.value.buffer[dst].data[x] ==
                 if exists i :: k <= i && InPart(b.index, src, i, x) then cur[x] else b.buffer[dst].data[x]
    decreases |b.index[src].value| - k
  {
    var views := b.index[src].value;
    if k < |views| {
      var data := b.buffer[dst].data;
      assert PartAgrees(b.buffer[src].parts[k], views[k], cur);
      ExtractThenWriteBack(data, views[k].positions, cur);
      var b1 := b.(buffer := b.buffer[dst := Full(Scatter(data, views[k].positions, b.buffer[src].parts[k]))]);
      CopyParts(b1, dst, src, k + 1, cur);
      var r := CopyFrom(b, dst, src, k, None, views);
      assert r == CopyFrom(b1, dst, src, k + 1, None, views);
      forall x: nat | x < |cur|
        ensures r.value.buffer[dst].data[x] ==
                if exists i :: k <= i && InPart(b.index, src, i, x) then cur[x] else data[x]
      {
        if InPart(b.index, src, k, x) {
          assert b1.buffer[dst].data[x] == cur[x];
        } else {
          assert b1.buffer[dst].data[x] == data[x];
          assert forall i | k <= i && InPart(b.index, src, i, x) :: k + 1 <= i;
        }
      }
    }
  }

  ghost predicate HoldersAgree(b: Buffers, dst: int, holders: seq<int>, cur: seq<int>) {
    forall i | 0 <= i < |holders| ::
      && holders[i] in b.buffer && holders[i] in b.index && holders[i] != dst
      && PartsAgree(b.buffer[holders[i]], b.index[holders[i]], cur)
  }

  /** Loading every device of `holders` into `dst` overlays `cur` on everything their parts cover. */
  lemma {:induction false} LoadParts(b: Buffers, gpus: nat, dst: int, holders: seq<int>, cur: seq<int>,
                                     view: Option<View>)
    requires KeyedBuffers(b, gpus) && dst in b.buffer
    requires b.buffer[dst].Full? && |b.buffer[dst].data| == |cur| && b.index[dst].None?
    requires HoldersAgree(b, dst, holders, cur)
    ensures var r := RunOps(b, gpus, Loads(dst, holders), view);
            && r.Some?
            && r.value.index == b.index
            && dst in r.value.buffer && r.value.buffer[dst].Full? && |r.value.buffer[dst].data| == |cur|
            && r.value.buffer == b.buffer[dst := r.value.buffer[dst]]
            && forall x: nat | x < |cur| ::
                 r.value.buffer[dst].data[x] ==
                 if CoveredBy(b.index, holders, x) then cur[x] else b.buffer[dst].data[x]
    decreases |holders|
  {
    if holders == [] {
      assert forall x: nat :: !CoveredBy(b.index, holders, x);
    } else {
      var src, rest := holders[0], holders[1..];
      CopyParts(b, dst, src, 0, cur);
      var b1 := CopyData(b, dst, src).value;
      assert Loads(dst, holders)[1..] == Loads(dst, rest);
      assert RunOp(b, gpus, Loads(dst, holders)[0], view) == Some(b1);
      LoadParts(b1, gpus, dst, rest, cur, view);
      var r := RunOps(b, gpus, Loads(dst, holders), view);
      assert holders == [src] + rest;
      forall x: nat | x < |cur|
        ensures r.value.buffer[dst].data[x] ==
                if CoveredBy(b.index, holders, x) then cur[x] else b.buffer[dst].data[x]
      {
        if CoveredBy(b.index, rest, x) {
          var d, k :| d in rest && InPart(b.index, d, k, x);
          assert d in holders;
        } else if k :| InPart(b.index, src, k, x) {
          assert src in holders;
        }
      }
    }
  }

  function Cleared(b: Buffers, ids: seq<int>): Buffers {
    Buffers(map d | d in b.buffer :: if d in ids then Empty else b.buffer[d],
            map d | d in b.index :: if d in ids then None else b.index[d])
  }

  lemma {:induction false} EvictAll(b: Buffers, gpus: nat, ids: seq<int>, view: Option<View>)
    requires KeyedBuffers(b, gpus) && forall i | 0 <= i < |ids| :: ids[i] in b.buffer
    ensures RunOps(b, gpus, Evicts(ids), view) == Some(Cleared(b, ids))
    decreases |ids|
  {
    if ids == [] {
      assert Cleared(b, ids) == b;
    } else {
      var b1 := Clear(b, ids[0]);
      assert ids == [ids[0]] + ids[1..];
      assert Evicts(ids)[1..] == Evicts(ids[1..]);
      EvictAll(b1, gpus, ids[1..], view);
      assert Cleared(b1, ids[1..]) == Cleared(b, ids);
    }
  }

  lemma {:induction false} RemoveFirstKeeps(xs: seq<int>, ys: seq<int>, k: int, d: int)
    ensures d != k ==> (d in RemoveFirst(xs, k) <==> d in xs)
    ensures d in RemoveFirst(xs, k) ==> d in xs
    ensures k in xs ==> RemoveFirst(xs + ys, k) == RemoveFirst(xs, k) + ys
    decreases |xs|
  {
    if xs != [] {
      assert xs == [xs[0]] + xs[1..] && (xs + ys)[1..] == xs[1..] + ys;
      RemoveFirstKeeps(xs[1..], ys, k, d);
    }
  }

  /** Who is evicted by a write-back. The device asked to be kept is evicted only if it holds parts. */
  lemma EvictedDevices(s: State, order: seq<int>, dst: int, target: Msi, keep: Option<int>, d: int)
    requires Keyed(s) && IsOrder(s.gpus, order)
    ensures d in EvictionList(s, order, dst, target, keep) ==>
              d in s.local && Dropped(s.local[d], d == dst, target)
    ensures d in s.local && Dropped(s.local[d], d == dst, target) && (Some(d) != keep || s.local[d].Parts?) ==>
              d in EvictionList(s, order, dst, target, keep)
  {
    var evictions, holders := Evictions(s, Devices(s.gpus), dst, target), Holders(s, order);
    if target.Modified? && keep.Some? {
      RemoveFirstKeeps(evictions + holders, [], keep.value, d);
      RemoveFirstKeeps(evictions, holders, keep.value, d);
    }
  }

  /** Every device with parts has matching buffers, every other device has no index map. */
  ghost predicate PartsReady(local: map<int, Local>, b: Buffers, cur: seq<int>) {
    && (forall d | HoldsWhole(local, d) :: d in b.index && b.index[d].None? && d in b.buffer && !b.buffer[d].Subarrays?)
    && (forall d | HoldsParts(local, d) :: d in b.index && d in b.buffer && PartsAgree(b.buffer[d], b.index[d], cur))
    && (forall d | d in b.index :: d in local)
  }

  /** `top` has the highest version of all whole copies, and each copy of that version is right wherever no
      part covers the array. */
  ghost predicate TopCopiesAgree(s: State, b: Buffers, top: int, cur: seq<int>) {
    && HoldsWhole(s.local, top)
    && (forall d | HoldsWhole(s.local, d) :: -1 <= Number(s.version, d) <= Number(s.version, top))
    && (forall d | HoldsWhole(s.local, d) && Number(s.version, d) == Number(s.version, top) ::
          d in b.buffer && AgreesOffParts(b.buffer[d], b.index, cur))
  }

  /** The sources a write-back loads from, in order. */
  function Sources(s: State, order: seq<int>, dst: int): seq<int>
    requires Keyed(s) && IsOrder(s.gpus, order)
  {
    var best := LatestCopy(s, Devices(s.gpus));
    (if best.Some? && Number(s.version, dst) < Number(s.version, best.value) then [best.value] else [])
    + Holders(s, order)
  }

  /** Loading all holders onto a full array that is right off the parts makes it right everywhere. */
  lemma HoldersReady(s: State, b: Buffers, order: seq<int>, dst: int, data: seq<int>, cur: seq<int>)
    requires Keyed(s) && KeyedBuffers(b, s.gpus) && IsOrder(s.gpus, order) && HoldsWhole(s.local, dst)
    requires PartsReady(s.local, b, cur)
    ensures HoldersAgree(b.(buffer := b.buffer[dst := Full(data)]), dst, Holders(s, order), cur)
  {
    var b0, holders := b.(buffer := b.buffer[dst := Full(data)]), Holders(s, order);
    forall i | 0 <= i < |holders|
      ensures && holders[i] in b0.buffer && holders[i] in b0.index && holders[i] != dst
              && PartsAgree(b0.buffer[holders[i]], b0.index[holders[i]], cur)
    {
      assert holders[i] in holders && HoldsParts(s.local, holders[i]);
    }
  }

  // An element is either covered, and then by a holder, or it was current before.
  lemma OverlaidElement(s: State, b: Buffers, order: seq<int>, data: seq<int>, cur: seq<int>, x: nat)
    requires Keyed(s) && KeyedBuffers(b, s.gpus) && IsOrder(s.gpus, order)
    requires PartsReady(s.local, b, cur) && AgreesOffParts(Full(data), b.index, cur) && x < |cur|
    ensures |data| == |cur| && cur[x] == if CoveredBy(b.index, Holders(s, order), x) then cur[x] else data[x]
  {
    CoveredByHolder(s, b, order, cur, x);
  }

  lemma StoredTwice(b: Buffers, dst: int, first: Buffer, second: Buffer, cur: seq<int>)
    requires second.Full? && |second.data| == |cur| && forall x: nat | x < |cur| :: second.data[x] == cur[x]
    ensures b.buffer[dst := first][dst := second] == b.buffer[dst := Full(cur)]
  {
    assert second.data == cur;
  }

  lemma OverlayCompletes(s: State, b: Buffers, order: seq<int>, dst: int, data: seq<int>, cur: seq<int>,
                         view: Option<View>)
    requires Keyed(s) && KeyedBuffers(b, s.gpus) && IsOrder(s.gpus, order) && HoldsWhole(s.local, dst)
    requires PartsReady(s.local, b, cur) && AgreesOffParts(Full(data), b.index, cur)
    ensures RunOps(b.(buffer := b.buffer[dst := Full(data)]), s.gpus, Loads(dst, Holders(s, order)), view)
            == Some(b.(buffer := b.buffer[dst := Full(cur)]))
  {
    var b0, holders := b.(buffer := b.buffer[dst := Full(data)]), Holders(s, order);
    HoldersReady(s, b, order, dst, data, cur);
    LoadParts(b0, s.gpus, dst, holders, cur, view);
    var loaded := RunOps(b0, s.gpus, Loads(dst, holders), view).value.buffer[dst];
    forall x: nat | x < |cur| ensures loaded.data[x] == cur[x] {
      OverlaidElement(s, b, order, data, cur, x);
    }
    StoredTwice(b, dst, Full(data), loaded, cur);
  }

  /** Whatever a part covers, a holder's part covers. */
  lemma CoveredByHolder(s: State, b: Buffers, order: seq<int>, cur: seq<int>, x: nat)
    requires Keyed(s) && KeyedBuffers(b, s.gpus) && IsOrder(s.gpus, order) && PartsReady(s.local, b, cur)
    ensures Covered(b.index, x) ==> CoveredBy(b.index, Holders(s, order), x)
  {
    if Covered(b.index, x) {
      var d, k :| InPart(b.index, d, k, x);
      assert d in s.local && !HoldsWhole(s.local, d);
      assert d in order && d in Holders(s, order);
    }
  }

  lemma LoadWholeFirst(b: Buffers, gpus: nat, dst: int, src: int, rest: seq<int>, view: Option<View>)
    requires KeyedBuffers(b, gpus) && dst in b.buffer && src in b.buffer
    requires b.index[dst].None? && b.index[src].None? && b.buffer[src].Full?
    ensures RunOps(b, gpus, Loads(dst, [src] + rest), view)
            == RunOps(b.(buffer := b.buffer[dst := b.buffer[src]]), gpus, Loads(dst, rest), view)
  {
    var loads := Loads(dst, [src] + rest);
    assert loads[0] == Load(dst, src, false) && loads[1..] == Loads(dst, rest);
    assert RunOp(b, gpus, loads[0], view) == Some(b.(buffer := b.buffer[dst := b.buffer[src]]));
  }

  lemma SameBuffer(b: Buffers, d: int)
    requires d in b.buffer
    ensures b.(buffer := b.buffer[d := b.buffer[d]]) == b
  {
    assert b.buffer[d := b.buffer[d]] == b.buffer;
  }

  lemma LatestIsTop(s: State, top: int)
    requires Keyed(s) && HoldsWhole(s.local, top)
    requires forall d | HoldsWhole(s.local, d) :: -1 <= Number(s.version, d) <= Number(s.version, top)
    ensures var best := LatestCopy(s, Devices(s.gpus));
            && best.Some? && HoldsWhole(s.local, best.value)
            && Number(s.version, best.value) == Number(s.version, top)
  {
    assert top in Devices(s.gpus);
    var best := LatestCopy(s, Devices(s.gpus));
    assert HoldsWhole(s.local, top) && -1 <= Number(s.version, top);
    assert HoldsWhole(s.local, best.value);
  }

  /** The loads of a write-back leave `cur` at the destination, whatever order the holders are visited in. */
  lemma LoadsGather(s: State, b: Buffers, order: seq<int>, dst: int, top: int, cur: seq<int>, view: Option<View>)
    requires Keyed(s) && KeyedBuffers(b, s.gpus) && IsOrder(s.gpus, order) && HoldsWhole(s.local, dst)
    requires PartsReady(s.local, b, cur) && TopCopiesAgree(s, b, top, cur)
    ensures LatestCopy(s, Devices(s.gpus)).Some?
    ensures RunOps(b, s.gpus, Loads(dst, Sources(s, order, dst)), view)
            == Some(b.(buffer := b.buffer[dst := Full(cur)]))
  {
    var best := LatestCopy(s, Devices(s.gpus));
    LatestIsTop(s, top);
    var stale := Number(s.version, dst) < Number(s.version, best.value);
    var source := if stale then best.value else dst;
    assert AgreesOffParts(b.buffer[source], b.index, cur);
    OverlayCompletes(s, b, order, dst, b.buffer[source].data, cur, view);
    if stale {
      LoadWholeFirst(b, s.gpus, dst, source, Holders(s, order), view);
    } else {
      assert Sources(s, order, dst) == Holders(s, order);
      SameBuffer(b, dst);
    }
  }

  lemma LoadsThenEvicts(s: State, b: Buffers, order: seq<int>, dst: int, top: int, cur: seq<int>, view: Option<View>,
                        evicted: seq<int>)
    requires Keyed(s) && KeyedBuffers(b, s.gpus) && IsOrder(s.gpus, order) && HoldsWhole(s.local, dst)
    requires PartsReady(s.local, b, cur) && TopCopiesAgree(s, b, top, cur)
    requires forall i | 0 <= i < |evicted| :: evicted[i] in b.buffer
    ensures LatestCopy(s, Devices(s.gpus)).Some?
    ensures RunOps(b, s.gpus, Loads(dst, Sources(s, order, dst)) + Evicts(evicted), view)
            == Some(Cleared(b.(buffer := b.buffer[dst := Full(cur)]), evicted))
  {
    LoadsGather(s, b, order, dst, top, cur, view);
    RunOpsAppend(b, s.gpus, Loads(dst, Sources(s, order, dst)), Evicts(evicted), view);
    EvictAll(b.(buffer := b.buffer[dst := Full(cur)]), s.gpus, evicted, view);
  }

  /** When a write-back does not raise. */
  lemma WriteBackDone(s: State, order: seq<int>, dst: int, target: Msi, keep: Option<int>)
    requires Keyed(s) && IsOrder(s.gpus, order) && HoldsWhole(s.local, dst) && LatestCopy(s, Devices(s.gpus)).Some?
    requires target.Modified? && keep.Some? ==>
               keep.value in s.local && Dropped(s.local[keep.value], keep.value == dst, target)
    ensures WriteBack(s, order, dst, target, keep)
            == Done(WrittenBack(s, dst, target),
                    Loads(dst, Sources(s, order, dst)) + Evicts(EvictionList(s, order, dst, target, keep)))
  {
    if target.Modified? && keep.Some? {
      assert keep.value in Evictions(s, Devices(s.gpus), dst, target);
    }
  }

  /** Executing a write-back: `cur` at its destination, evicted devices empty, everything else unchanged. */
  lemma WriteBackGathers(s: State, b: Buffers, order: seq<int>, dst: int, target: Msi, keep: Option<int>,
                         top: int, cur: seq<int>, view: Option<View>)
    requires Keyed(s) && KeyedBuffers(b, s.gpus) && IsOrder(s.gpus, order) && HoldsWhole(s.local, dst)
    requires PartsReady(s.local, b, cur) && TopCopiesAgree(s, b, top, cur)
    requires target.Modified? && keep.Some? ==>
               keep.value in s.local && Dropped(s.local[keep.value], keep.value == dst, target)
    ensures var outcome := WriteBack(s, order, dst, target, keep);
            && outcome.Done? && outcome.state == WrittenBack(s, dst, target)
            && RunOps(b, s.gpus, outcome.ops, view)
               == Some(Cleared(b.(buffer := b.buffer[dst := Full(cur)]), EvictionList(s, order, dst, target, keep)))
  {
    var evicted := EvictionList(s, order, dst, target, keep);
    forall i | 0 <= i < |evicted| ensures evicted[i] in b.buffer {
      assert evicted[i] in evicted;
      EvictedDevices(s, order, dst, target, keep, evicted[i]);
    }
    LoadsThenEvicts(s, b, order, dst, top, cur, view, evicted);
    WriteBackDone(s, order, dst, target, keep);
  }
}
