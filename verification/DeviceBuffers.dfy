/**
 The class `MultiDeviceBuffer` of `parla/parray/memory.py`, reduced to what coherence operations do to it:
 the two dictionaries it updates in place, proved against the functions of Buffers.dfy.
 */
module DeviceBuffers {
  import opened Wrappers
  import opened Protocol
  import opened Buffers

  class MultiDeviceBuffer {
    const gpus: nat
    var buffer: map<int, Buffer>
    var index: map<int, Option<seq<View>>>

    ghost function Abs(): Buffers
      reads this
    {
      Buffers(buffer, index)
    }

    ghost predicate Valid()
      reads this
    {
      KeyedBuffers(Abs(), gpus)
    }

    /** A full array at `location`, nothing at the other devices. */
    constructor (gpus: nat, location: int, data: seq<int>)
      requires CPU_INDEX <= location < gpus
      ensures Valid() && this.gpus == gpus
      ensures buffer == map d | d in Devices(gpus) :: if d == location then Full(data) else Empty
      ensures index == map d | d in Devices(gpus) :: None
    {
      this.gpus := gpus;
      var ids := Devices(gpus);
      var empty: map<int, Buffer> := map d | d in ids :: Empty;
      var held := map d | d in ids :: if d == location then Full(data) else Empty;
      assert empty[location := Full(data)] == held;
      buffer := empty[location := Full(data)];
      index := map d | d in ids :: None;
    }

    method SetSlicesMapping(d: int, v: View)
      requires Valid() && d in index
      modifies `index
      ensures Valid() && Abs() == SetMapping(old(Abs()), d, v)
    {
      if index[d].None? {
        index := index[d := Some([v])];
        assert [] + [v] == [v];
      } else {
        index := index[d := Some(index[d].value + [v])];
      }
    }

    method ClearAt(d: int)
      requires Valid() && d in buffer
      modifies `index, `buffer
      ensures Valid() && Abs() == Clear(old(Abs()), d)
    {
      index := index[d := None];
      buffer := buffer[d := Empty];
    }

    /** `_move_data`: what is copied depends on whether the destination and the source have a slice each. */
    method Move(dst: int, src: int, k: nat, dstView: Option<View>, srcView: Option<View>) returns (ok: bool)
      requires Valid() && dst in buffer && src in buffer
      modifies `buffer
      ensures match MoveData(old(Abs()), dst, src, k, dstView, srcView)
              case None => !ok
              case Some(b) => ok && Abs() == b && Valid()
    {
      ok := false;
      if dstView.None? && srcView.None? {
        if buffer[src].Full? {
          buffer := buffer[dst := buffer[src]];
          ok := true;
        }
      } else if dstView.None? {
        var positions := srcView.value.positions;
        if buffer[dst].Full? && buffer[src].Subarrays? && k < |buffer[src].parts|
           && Fits(positions, |buffer[dst].data|) && |positions| == |buffer[src].parts[k]|
        {
          buffer := buffer[dst := Full(Scatter(buffer[dst].data, positions, buffer[src].parts[k]))];
          ok := true;
        }
      } else if srcView.None? {
        var positions := dstView.value.positions;
        if !buffer[dst].Full? && buffer[src].Full? && Fits(positions, |buffer[src].data|) {
          var part := Gather(buffer[src].data, positions);
          if buffer[dst].Empty? {
            buffer := buffer[dst := Subarrays([part])];
            assert [] + [part] == [part];
          } else {
            buffer := buffer[dst := Subarrays(buffer[dst].parts + [part])];
          }
          ok := true;
        }
      }
    }

    /** `copy_data_between_device`. A destination with subarrays receives the one its newest slice names. */
    method CopyDataBetweenDevice(dst: int, src: int) returns (ok: bool)
      requires Valid() && dst in buffer && src in buffer
      modifies `buffer
      ensures match CopyData(old(Abs()), dst, src)
              case None => !ok
              case Some(b) => ok && Abs() == b && Valid()
    {
      var dstView := LastView(index[dst]);
      if index[src].None? {
        ok := Move(dst, src, 0, dstView, None);
        return;
      }
      var srcViews := index[src].value;
      for k := 0 to |srcViews|
        invariant Valid() && dst in buffer && src in buffer
        invariant CopyFrom(old(Abs()), dst, src, 0, dstView, srcViews)
                  == CopyFrom(Abs(), dst, src, k, dstView, srcViews)
      {
        ok := Move(dst, src, k, dstView, Some(srcViews[k]));
        if !ok {
          return;
        }
      }
      return true;
    }
  }
}
