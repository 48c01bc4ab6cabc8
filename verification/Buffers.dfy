/**
 The per-device data of `parla/parray/memory.py` as functions on values, with real elements.

 A full array is the sequence of its elements in flattened order. A subarray is a sequence too, and the view
 recorded for it in the index map lists the positions of the full array its elements come from.
 `None` as a result stands for a Python exception.
 */
module Buffers {
  import opened Wrappers
  import opened Protocol

  datatype Buffer = Empty | Full(data: seq<int>) | Subarrays(parts: seq<seq<int>>)

  /** `_buffer` and `_indices_map`. */
  datatype Buffers = Buffers(buffer: map<int, Buffer>, index: map<int, Option<seq<View>>>)

  predicate Fits(positions: seq<nat>, size: nat) {
    forall i | 0 <= i < |positions| :: positions[i] < size
  }

  predicate Distinct(positions: seq<nat>) {
    forall i, j | 0 <= i < j < |positions| :: positions[i] != positions[j]
  }

  /** `data[slices]`: a copy of the selected elements. */
  function Gather(data: seq<int>, positions: seq<nat>): (part: seq<int>)
    requires Fits(positions, |data|)
    ensures |part| == |positions|
  {
    seq(|positions|, i requires 0 <= i < |positions| => data[positions[i]])
  }

  /** `data[slices] = part`. */
  function Scatter(data: seq<int>, positions: seq<nat>, part: seq<int>): (result: seq<int>)
    requires Fits(positions, |data|) && |part| == |positions|
    ensures |result| == |data|
    decreases |positions|
  {
    if positions == [] then data
    else
      assert Fits(positions[1..], |data|) by {
        assert forall i | 0 <= i < |positions| - 1 :: positions[1..][i] == positions[i + 1];
      }
      Scatter(data[positions[0] := part[0]], positions[1..], part[1..])
  }

  lemma {:induction false} ScatterElsewhere(data: seq<int>, positions: seq<nat>, part: seq<int>, p: nat)
    requires Fits(positions, |data|) && |part| == |positions| && p < |data| && p !in positions
    ensures Scatter(data, positions, part)[p] == data[p]
    decreases |positions|
  {
    if positions != [] {
      assert positions[0] in positions;
      assert Fits(positions[1..], |data|);
      ScatterElsewhere(data[positions[0] := part[0]], positions[1..], part[1..], p);
    }
  }

  /** Writing a part back and extracting it again gives the part; nothing outside the slice changes. */
  lemma {:induction false} WriteBackThenExtract(data: seq<int>, positions: seq<nat>, part: seq<int>)
    requires Fits(positions, |data|) && |part| == |positions| && Distinct(positions)
    ensures Gather(Scatter(data, positions, part), positions) == part
    ensures forall p: nat | p < |data| && p !in positions :: Scatter(data, positions, part)[p] == data[p]
    decreases |positions|
  {
    forall p: nat | p < |data| && p !in positions
      ensures Scatter(data, positions, part)[p] == data[p]
    {
      ScatterElsewhere(data, positions, part, p);
    }
    if positions != [] {
      var first, rest := data[positions[0] := part[0]], positions[1..];
      assert Fits(rest, |first|) && Distinct(rest);
      WriteBackThenExtract(first, rest, part[1..]);
      assert positions[0] !in rest;
      var result := Scatter(data, positions, part);
      assert result == Scatter(first, rest, part[1..]);
      forall i | 0 <= i < |positions| ensures result[positions[i]] == part[i] {
        if i > 0 {
          assert rest[i - 1] == positions[i];
          assert Gather(result, rest)[i - 1] == part[1..][i - 1];
        }
      }
    }
  }

  /** Writing back what was extracted from `source` copies exactly the selected elements of `source`. */
  lemma {:induction false} ExtractThenWriteBack(data: seq<int>, positions: seq<nat>, source: seq<int>)
    requires |source| == |data| && Fits(positions, |data|)
    ensures forall p: nat | p < |data| ::
              Scatter(data, positions, Gather(source, positions))[p] == if p in positions then source[p] else data[p]
    ensures source == data ==> Scatter(data, positions, Gather(source, positions)) == data
    decreases |positions|
  {
    if positions != [] {
      var first, rest := data[positions[0] := source[positions[0]]], positions[1..];
      assert Fits(rest, |first|);
      assert Gather(source, positions)[1..] == Gather(source, rest);
      assert positions == [positions[0]] + rest;
      ExtractThenWriteBack(first, rest, source);
    }
  }

  // ---- set_slices_mapping, clear, get_global_slices(device, -1) ----

  ghost predicate KeyedBuffers(b: Buffers, gpus: nat) {
    && b.buffer.Keys == b.index.Keys
    && (forall d :: d in b.buffer <==> CPU_INDEX <= d < gpus)
  }

  function SetMapping(b: Buffers, d: int, v: View): Buffers
    requires d in b.index
  {
    b.(index := b.index[d := Some((if b.index[d].Some? then b.index[d].value else []) + [v])])
  }

  function Clear(b: Buffers, d: int): Buffers {
    b.(index := b.index[d := None], buffer := b.buffer[d := Empty])
  }

  function LastView(views: Option<seq<View>>): Option<View> {
    if views.Some? && |views.value| > 0 then Some(views.value[|views.value| - 1]) else None
  }

  // ---- _move_data and copy_data_between_device ----

  function MoveData(b: Buffers, dst: int, src: int, k: nat, dstView: Option<View>,
                    srcView: Option<View>): Option<Buffers>
    requires dst in b.buffer && src in b.buffer
  {
    match (dstView, srcView)
    case (None, None) =>
      if b.buffer[src].Full? then Some(b.(buffer := b.buffer[dst := b.buffer[src]])) else None
    case (None, Some(v)) =>
      if b.buffer[dst].Full? && b.buffer[src].Subarrays? && k < |b.buffer[src].parts|
         && Fits(v.positions, |b.buffer[dst].data|) && |v.positions| == |b.buffer[src].parts[k]|
      then
        Some(b.(buffer := b.buffer[dst := Full(Scatter(b.buffer[dst].data, v.positions, b.buffer[src].parts[k]))]))
      else None
    case (Some(v), None) =>
      if !b.buffer[dst].Full? && b.buffer[src].Full? && Fits(v.positions, |b.buffer[src].data|) then
        var held := if b.buffer[dst].Empty? then [] else b.buffer[dst].parts;
        Some(b.(buffer := b.buffer[dst := Subarrays(held + [Gather(b.buffer[src].data, v.positions)])]))
      else None
    case (Some(_), Some(_)) => None
  }

  /** The copying loop from its `k`-th round on. */
  function CopyFrom(b: Buffers, dst: int, src: int, k: nat, dstView: Option<View>, srcViews: seq<View>): Option<Buffers>
    requires dst in b.buffer && src in b.buffer && k <= |srcViews|
    decreases |srcViews| - k
  {
    if k == |srcViews| then Some(b)
    else
      match MoveData(b, dst, src, k, dstView, Some(srcViews[k]))
      case None => None
      case Some(b1) => CopyFrom(b1, dst, src, k + 1, dstView, srcViews)
  }

  function CopyData(b: Buffers, dst: int, src: int): Option<Buffers>
    requires dst in b.buffer && src in b.buffer && dst in b.index && src in b.index
  {
    var dstView := LastView(b.index[dst]);
    if b.index[src].None? then MoveData(b, dst, src, 0, dstView, None)
    else CopyFrom(b, dst, src, 0, dstView, b.index[src].value)
  }

  // ---- _process_operations ----

  predicate OpInRange(op: Op, gpus: nat) {
    match op
    case Load(dst, src, _) => CPU_INDEX <= dst < gpus && CPU_INDEX <= src < gpus
    case Evict(src) => CPU_INDEX <= src < gpus
    case _ => true
  }

  function RunOp(b: Buffers, gpus: nat, op: Op, view: Option<View>): (r: Option<Buffers>)
    requires KeyedBuffers(b, gpus)
    ensures r.Some? ==> KeyedBuffers(r.value, gpus)
  {
    if !OpInRange(op, gpus) then None
    else
      match op
      case Noop => Some(b)
      case Error => None
      case Load(dst, src, subarray) =>
        if subarray && view.None? then None
        else
          var b1 := if subarray then SetMapping(b, dst, view.value) else b;
          CopyKeepsKeys(b1, gpus, dst, src);
          CopyData(b1, dst, src)
      case Evict(src) => Some(Clear(b, src))
  }

  function RunOps(b: Buffers, gpus: nat, ops: seq<Op>, view: Option<View>): (r: Option<Buffers>)
    requires KeyedBuffers(b, gpus)
    ensures r.Some? ==> KeyedBuffers(r.value, gpus)
    decreases |ops|
  {
    if ops == [] then Some(b)
    else
      match RunOp(b, gpus, ops[0], view)
      case None => None
      case Some(b1) => RunOps(b1, gpus, ops[1..], view)
  }

  lemma CopyKeepsKeys(b: Buffers, gpus: nat, dst: int, src: int)
    requires KeyedBuffers(b, gpus) && dst in b.buffer && src in b.buffer
    ensures CopyData(b, dst, src).Some? ==> KeyedBuffers(CopyData(b, dst, src).value, gpus)
  {
    if b.index[src].Some? {
      CopyFromKeepsKeys(b, gpus, dst, src, 0, LastView(b.index[dst]), b.index[src].value);
    }
  }

  lemma {:induction false} CopyFromKeepsKeys(
      b: Buffers, gpus: nat, dst: int, src: int, k: nat, dstView: Option<View>, srcViews: seq<View>)
    requires KeyedBuffers(b, gpus) && dst in b.buffer && src in b.buffer && k <= |srcViews|
    ensures CopyFrom(b, dst, src, k, dstView, srcViews).Some? ==>
              KeyedBuffers(CopyFrom(b, dst, src, k, dstView, srcViews).value, gpus)
    decreases |srcViews| - k
  {
    if k < |srcViews| {
      var moved := MoveData(b, dst, src, k, dstView, Some(srcViews[k]));
      if moved.Some? {
        CopyFromKeepsKeys(moved.value, gpus, dst, src, k + 1, dstView, srcViews);
      }
    }
  }

  lemma RunSingle(b: Buffers, gpus: nat, op: Op, view: Option<View>)
    requires KeyedBuffers(b, gpus)
    ensures RunOps(b, gpus, [op], view) == RunOp(b, gpus, op, view)
  {
    var ops := [op];
    assert ops[0] == op && ops[1..] == [];
    var r := RunOp(b, gpus, op, view);
    if r.Some? {
      assert RunOps(r.value, gpus, [], view) == Some(r.value);
    }
  }

  lemma {:induction false} RunOpsAppend(b: Buffers, gpus: nat, first: seq<Op>, second: seq<Op>, view: Option<View>)
    requires KeyedBuffers(b, gpus)
    ensures RunOps(b, gpus, first + second, view) ==
            match RunOps(b, gpus, first, view)
            case None => None
            case Some(b1) => RunOps(b1, gpus, second, view)
    decreases |first|
  {
    if first == [] {
      assert first + second == second;
    } else {
      assert (first + second)[1..] == first[1..] + second;
      var r := RunOp(b, gpus, first[0], view);
      if r.Some? {
        RunOpsAppend(r.value, gpus, first[1..], second, view);
      }
    }
  }
}
