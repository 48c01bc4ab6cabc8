/**
 The class `PArray` of `parla/parray/core.py`: one coherence protocol, one set of device buffers, and the glue
 that executes what the protocol asks for. Its ghost field is the array a user thinks of.
 */
module Parrays {
  import opened Wrappers
  import opened Protocol
  import opened Buffers
  import opened OneArray
  import opened OneArraySteps
  import opened OneArrayTheorem
  import opened OneArrayEffects
  import opened Coherence
  import opened DeviceBuffers

  class PArray {
    const coherence: Coherence
    const store: MultiDeviceBuffer
    ghost var logical: seq<int>

    ghost function Sys(): System
      reads coherence, store
    {
      System(coherence.Abs(), store.Abs())
    }

    ghost predicate Valid()
      reads this, coherence, store
    {
      coherence.gpus == store.gpus && Inv(Sys(), logical)
    }

    constructor (gpus: nat, location: int, data: seq<int>)
      requires CPU_INDEX <= location < gpus
      ensures Valid() && fresh(coherence) && fresh(store) && logical == data
      ensures Sys() == Created(gpus, location, data)
    {
      coherence := new Coherence(gpus, location);
      store := new MultiDeviceBuffer(gpus, location, data);
      logical := data;
      new;
      CreatedIsRight(gpus, location, data);
    }

    /** `_process_operations`: execute the list in order. */
    method ProcessOperations(ops: seq<Op>, view: Option<View>) returns (ok: bool)
      requires store.Valid()
      modifies store
      ensures match RunOps(old(store.Abs()), store.gpus, ops, view)
              case None => !ok
              case Some(b) => ok && store.Abs() == b && store.Valid()
    {
      for i := 0 to |ops|
        invariant store.Valid()
        invariant RunOps(old(store.Abs()), store.gpus, ops, view) == RunOps(store.Abs(), store.gpus, ops[i..], view)
      {
        assert ops[i..][0] == ops[i] && ops[i..][1..] == ops[i + 1..];
        ok := Process(ops[i], view);
        if !ok {
          return;
        }
      }
      return true;
    }

    method Process(op: Op, view: Option<View>) returns (ok: bool)
      requires store.Valid()
      modifies store
      ensures match RunOp(old(store.Abs()), store.gpus, op, view)
              case None => !ok
              case Some(b) => ok && store.Abs() == b && store.Valid()
    {
      if !OpInRange(op, store.gpus) {
        return false;
      }
      match op
      case Noop => ok := true;
      case Error => ok := false;
      case Load(dst, src, subarray) =>
        if subarray && view.None? {
          return false;
        }
        if subarray {
          store.SetSlicesMapping(dst, view.value);
        }
        ok := store.CopyDataBetweenDevice(dst, src);
      case Evict(src) =>
        store.ClearAt(src);
        ok := true;
    }

    ghost predicate Executed(r: Option<System>, ok: bool)
      reads coherence, store
    {
      match r
      case None => !ok
      case Some(sys) => ok && Sys() == sys
    }

    method CoherenceRead(d: int, view: Option<View>, order: seq<int>) returns (ok: bool)
      requires coherence.Valid() && store.Valid() && coherence.gpus == store.gpus
      requires IsOrder(coherence.gpus, order) && d in coherence.local
      modifies coherence, store
      ensures Executed(old(Execute(store.Abs(), store.gpus, Protocol.Read(coherence.Abs(), order, d, view), view)), ok)
    {
      var ops := coherence.Read(d, view, order);
      if ops.None? {
        return false;
      }
      ok := ProcessOperations(ops.value, view);
    }

    method CoherenceWrite(d: int, view: Option<View>, order: seq<int>) returns (ok: bool)
      requires coherence.Valid() && store.Valid() && coherence.gpus == store.gpus
      requires IsOrder(coherence.gpus, order) && d in coherence.local
      modifies coherence, store
      ensures Executed(old(Execute(store.Abs(), store.gpus, Protocol.Write(coherence.Abs(), order, d, view), view)), ok)
    {
      var ops := coherence.Write(d, view, order);
      if ops.None? {
        return false;
      }
      ok := ProcessOperations(ops.value, view);
    }

    /** `evict`, keeping one copy. A guarded eviction loses nothing, and it does evict: afterwards the device has a
        copy only if it was the owner, and is the CPU or had another copy beside its own. A copy that was not the
        owner's goes with its buffer, and nothing else changes then. */
    method EvictFrom(d: int, order: seq<int>) returns (ok: bool)
      requires Valid() && IsOrder(coherence.gpus, order) && Guard(Sys(), logical, EvictAt(d))
      modifies coherence, store
      ensures ok && Valid() && Some(Sys()) == old(Step(Sys(), order, EvictAt(d)))
      ensures OneArray.Valid(coherence.local, d)
              <==> old(OneArray.Valid(coherence.local, d) && d == coherence.owner
                       && (d == CPU_INDEX || OtherValid(coherence.local, d)))
      ensures old(OneArray.Valid(coherence.local, d) && d != coherence.owner)
              ==> d in store.buffer && store.buffer[d].Empty? && SameElsewhere(old(Sys()), Sys(), d)
    {
      EvictRefines(order, d);
      EvictEffect(order, d);
      var ops := coherence.EvictFrom(d, order);
      if ops.None? {
        return false;
      }
      ok := ProcessOperations(ops.value, None);
    }

    lemma EvictRefines(order: seq<int>, d: int)
      requires Valid() && IsOrder(coherence.gpus, order) && Guard(Sys(), logical, EvictAt(d))
      ensures var r := Execute(store.Abs(), store.gpus, EvictCopy(coherence.Abs(), order, d), None);
              r.Some? && Inv(r.value, logical) && r == Step(Sys(), order, EvictAt(d))
    {
      StepRefines(Sys(), logical, order, EvictAt(d));
    }

    lemma EvictEffect(order: seq<int>, d: int)
      requires Valid() && IsOrder(coherence.gpus, order) && d in coherence.local
      requires Step(Sys(), order, EvictAt(d)).Some?
      ensures var before, r := coherence.local, Step(Sys(), order, EvictAt(d)).value;
              && Wellformed(Sys()) && Wellformed(r)
              && (OneArray.Valid(r.p.local, d)
                  <==> OneArray.Valid(before, d) && d == coherence.owner && (d == CPU_INDEX || OtherValid(before, d)))
              && (OneArray.Valid(before, d) && d != coherence.owner
                  ==> d in r.b.buffer && r.b.buffer[d].Empty? && SameElsewhere(Sys(), r, d))
    {
      EvictExactly(Sys(), logical, order, d);
      EvictKind(Sys(), logical, order, d);
      if OneArray.Valid(coherence.local, d) && d != coherence.owner {
        EvictShared(Sys(), order, d);
      }
    }

    /** A task reads: it gets the array, or the elements its slice selects. */
    method ReadBy(d: int, view: Option<View>, order: seq<int>) returns (ok: bool, seen: Option<seq<int>>)
      requires Valid() && IsOrder(coherence.gpus, order) && Guard(Sys(), logical, ReadAt(d, view))
      modifies coherence, store
      ensures ok && Valid()
      ensures view.Some? ==> Fits(view.value.positions, |logical|)
      ensures seen == Some(Expected(logical, view))
    {
      StepRefines(Sys(), logical, order, ReadAt(d, view));
      ok := CoherenceRead(d, view, order);
      seen := Seen(Buffers(store.buffer, store.index), d, view);
    }

    /** A task writes: it first gets the array or its slice, then stores, and the array is the one with its store. */
    method WriteBy(d: int, view: Option<View>, values: seq<int>, order: seq<int>)
      returns (ok: bool, seen: Option<seq<int>>)
      requires Valid() && IsOrder(coherence.gpus, order) && Guard(Sys(), logical, WriteAt(d, view, values))
      modifies this, coherence, store
      ensures ok && Valid() && logical == Applied(old(logical), WriteAt(d, view, values))
      ensures view.Some? ==> Fits(view.value.positions, |old(logical)|)
      ensures seen == Some(Expected(old(logical), view))
    {
      WriteRefines(order, d, view, values);
      ok := CoherenceWrite(d, view, order);
      seen := Seen(Buffers(store.buffer, store.index), d, view);
      StoreValues(d, view, values);
      logical := Applied(logical, WriteAt(d, view, values));
    }

    /** What the task itself does with the array or slice it was given. */
    method StoreValues(d: int, view: Option<View>, values: seq<int>)
      requires Seen(store.Abs(), d, view).Some? && |Seen(store.Abs(), d, view).value| == |values|
      modifies store
      ensures store.Abs() == old(Stored(store.Abs(), d, view, values))
    {
      store.buffer := Stored(Buffers(store.buffer, store.index), d, view, values).buffer;
    }

    lemma WriteRefines(order: seq<int>, d: int, view: Option<View>, values: seq<int>)
      requires Valid() && IsOrder(coherence.gpus, order) && Guard(Sys(), logical, WriteAt(d, view, values))
      ensures view.Some? ==> Fits(view.value.positions, |logical|)
      ensures var r := Execute(store.Abs(), store.gpus, Protocol.Write(coherence.Abs(), order, d, view), view);
              && r.Some?
              && Seen(r.value.b, d, view) == Some(Expected(logical, view)) && |Expected(logical, view)| == |values|
              && Inv(System(r.value.p, Stored(r.value.b, d, view, values)), Applied(logical, WriteAt(d, view, values)))
    {
      StepRefines(Sys(), logical, order, WriteAt(d, view, values));
    }

    /** `update`: the array is replaced, its only copy is at `d`. */
    method Update(d: int, data: seq<int>)
      requires Valid() && Guard(Sys(), logical, UpdateAt(d, data))
      modifies this, coherence, store
      ensures Valid() && logical == data && Sys() == Updated(old(Sys()), d, data)
    {
      UpdateStep(Sys(), logical, d, data);
      store.buffer := map e | e in store.buffer :: if e == d then Full(data) else Empty;
      store.index := store.index[d := None];
      coherence.Reset(d);
      logical := data;
    }
  }
}
