/**
 Slice arithmetic of `parla/parray/memory.py`: finding an index, or a slice, of the full array inside the slice
 that a subarray was cut out with. Slices are `(begin, end, step)` tuples as `slice.indices` returns them.
 */
module Slices {
  import opened Wrappers
  import opened Arithmetic

  datatype Slice = Slice(begin: int, end: int, step: int)

  predicate Positive(s: Slice) {
    s.step > 0
  }

  function Count(s: Slice): (n: nat)
    requires Positive(s)
  {
    if s.end <= s.begin then 0 else DivPos(s.end - s.begin - 1, s.step) + 1
  }

  function Nth(s: Slice, k: int): int {
    s.begin + k * s.step
  }

  ghost predicate Contains(s: Slice, n: int)
    requires Positive(s)
  {
    exists k :: 0 <= k < Count(s) && Nth(s, k) == n
  }

  // ---- division ----

  function DivPos(a: nat, s: int): (q: nat)
    requires s > 0
    ensures q == a / s
    ensures q * s <= a < q * s + s
  {
    DivisionTheorem(a, s);
    a / s
  }

  lemma MultipleRemainder(k: int, s: int)
    requires s > 0
    ensures (k * s) % s == 0 && (k * s) / s == k
  {
    DivideOut(0, k, s);
  }

  /** Position `k` is in the slice exactly when its element is before the end. */
  lemma InRange(s: Slice, k: int)
    requires Positive(s)
    ensures 0 <= k < Count(s) <==> 0 <= k && Nth(s, k) < s.end
  {
    if s.begin < s.end {
      var a := s.end - s.begin - 1;
      var q := DivPos(a, s.step);
      Monotone(k, q, s.step);
      Monotone(q + 1, k, s.step);
    } else if k >= 0 {
      Monotone(0, k, s.step);
    }
  }

  // ---- _map_int_with_slice ----

  function MapInt(n: int, s: Slice): Option<int>
    requires Positive(s)
  {
    if n < s.begin || n >= s.end then None
    else if (n - s.begin) % s.step != 0 then None
    else Some((n - s.begin) / s.step)
  }

  /** The result is the position of `n`, and there is one exactly when `n` is in the slice. */
  lemma MapIntFinds(n: int, s: Slice, k: int)
    requires Positive(s)
    ensures MapInt(n, s) == Some(k) <==> 0 <= k < Count(s) && Nth(s, k) == n
  {
    InRange(s, k);
    MultipleRemainder(k, s.step);
    DivisionTheorem(n - s.begin, s.step);
    if 0 <= k {
      Monotone(0, k, s.step);
    }
  }

  lemma MapIntFails(n: int, s: Slice)
    requires Positive(s)
    ensures MapInt(n, s).None? <==> !Contains(s, n)
  {
    if MapInt(n, s).Some? {
      MapIntFinds(n, s, MapInt(n, s).value);
    } else {
      forall k | 0 <= k < Count(s) ensures Nth(s, k) != n {
        MapIntFinds(n, s, k);
      }
    }
  }

  // ---- _map_slice_with_slice ----

  function Remainder(s: Slice): int
    requires Positive(s)
  {
    (s.end - s.begin) % s.step
  }

  /** The code's "last possible element". */
  function LastElement(s: Slice): int
    requires Positive(s)
  {
    s.end - s.step + Remainder(s)
  }

  function MapSlice(input: Slice, target: Slice): Option<Slice>
    requires Positive(input) && Positive(target)
  {
    var begin := MapInt(input.begin, target);
    var end := MapInt(LastElement(input), target);
    if begin.None? || end.None? then None
    else if input.step % target.step != 0 then None
    else Some(Slice(begin.value, end.value + 1, input.step / target.step))
  }

  /** Number of elements, and how far `LastElement` is from the last of them. */
  lemma Shape(s: Slice)
    requires Positive(s) && s.begin < s.end
    ensures var q, r := (s.end - s.begin) / s.step, Remainder(s);
            && 0 <= r < s.step && q >= 0 && (r == 0 ==> q >= 1)
            && Count(s) == (if r == 0 then q else q + 1)
            && LastElement(s) == s.begin + (q - 1) * s.step + 2 * r
  {
    var q, r := (s.end - s.begin) / s.step, Remainder(s);
    DivisionTheorem(s.end - s.begin, s.step);
    assert (q - 1) * s.step == q * s.step - s.step;
    var n := if r == 0 then q else q + 1;
    assert (q + 1) * s.step == q * s.step + s.step;
    InRange(s, n);
    InRange(s, n - 1);
  }

  /** `LastElement` is the last element exactly when the slice's length is a multiple of the step or half a step
      more. */
  predicate Exact(s: Slice)
    requires Positive(s)
  {
    Remainder(s) == 0 || 2 * Remainder(s) == s.step
  }

  lemma LastElementExact(s: Slice)
    requires Positive(s) && s.begin < s.end
    ensures Count(s) > 0
    ensures LastElement(s) == Nth(s, Count(s) - 1) <==> Exact(s)
  {
    Shape(s);
    var q := (s.end - s.begin) / s.step;
    assert (q - 1) * s.step == q * s.step - s.step;
  }

  /** Indexing the cut-out part with `local` gives the elements that `input` selects from the full array. */
  ghost predicate Faithful(input: Slice, target: Slice, local: Slice)
    requires Positive(input) && Positive(target) && Positive(local)
  {
    && Count(local) == Count(input)
    && forall i | 0 <= i < Count(input) ::
         && 0 <= Nth(local, i) < Count(target)
         && Nth(target, Nth(local, i)) == Nth(input, i)
  }

  /** What a result means: positions on the target's grid, and the step in units of the target's. */
  ghost predicate OnGrid(input: Slice, target: Slice, l: Slice)
    requires Positive(input) && Positive(target)
  {
    && Positive(l) && l.step * target.step == input.step
    && 0 <= l.begin < Count(target) && 0 <= l.end - 1 < Count(target)
    && Nth(target, l.begin) == input.begin && Nth(target, l.end - 1) == LastElement(input)
  }

  lemma MappedShape(input: Slice, target: Slice)
    requires Positive(input) && Positive(target) && input.begin < input.end && MapSlice(input, target).Some?
    ensures OnGrid(input, target, MapSlice(input, target).value)
  {
    var l := MapSlice(input, target).value;
    MapIntFinds(input.begin, target, l.begin);
    MapIntFinds(LastElement(input), target, l.end - 1);
    DivisionTheorem(input.step, target.step);
    if l.step <= 0 {
      Monotone(l.step, 0, target.step);
    }
  }

  /** The `i`-th local position maps back to the `i`-th element. */
  lemma MapsBack(input: Slice, target: Slice, l: Slice, i: nat)
    requires Positive(input) && Positive(target) && OnGrid(input, target, l)
    ensures Nth(target, Nth(l, i)) == Nth(input, i)
  {
    Distribute(l.begin, i * l.step, target.step);
    Associate(i, l.step, target.step);
  }

  /** It is in the local slice exactly when the element is not after `LastElement`. */
  lemma BeforeLast(input: Slice, target: Slice, l: Slice, i: nat)
    requires Positive(input) && Positive(target) && OnGrid(input, target, l)
    ensures i < Count(l) <==> Nth(input, i) <= LastElement(input)
  {
    MapsBack(input, target, l, i);
    Monotone(Nth(l, i), l.end - 1, target.step);
    InRange(l, i);
  }

  lemma StaysInTarget(input: Slice, target: Slice, l: Slice, i: nat)
    requires Positive(input) && Positive(target) && OnGrid(input, target, l) && i < Count(l)
    ensures 0 <= Nth(l, i) < Count(target)
  {
    Monotone(0, i, l.step);
    InRange(l, i);
  }

  /** A result is right exactly when the remainder of the slice's length is zero or at least half a step. With
      step 1 or 2 that is always so. */
  lemma SliceInSlice(input: Slice, target: Slice)
    requires Positive(input) && Positive(target) && input.begin < input.end && MapSlice(input, target).Some?
    ensures Positive(MapSlice(input, target).value)
    ensures Faithful(input, target, MapSlice(input, target).value)
            <==> Remainder(input) == 0 || 2 * Remainder(input) >= input.step
    ensures input.step <= 2 ==> Faithful(input, target, MapSlice(input, target).value)
  {
    var l := MapSlice(input, target).value;
    MappedShape(input, target);
    LocalLength(input, target);
    var r := Remainder(input);
    assert r >= 0 && (input.step <= 2 ==> r == 0 || 2 * r >= input.step) by { Shape(input); }
    if r == 0 || 2 * r >= input.step {
      forall i | 0 <= i < Count(input)
        ensures 0 <= Nth(l, i) < Count(target) && Nth(target, Nth(l, i)) == Nth(input, i)
      {
        MapsBack(input, target, l, i);
        StaysInTarget(input, target, l, i);
      }
    }
  }

  /** The local slice's length, against the input's. */
  lemma LocalLength(input: Slice, target: Slice)
    requires Positive(input) && Positive(target) && input.begin < input.end && MapSlice(input, target).Some?
    ensures var r := Remainder(input);
            && Positive(MapSlice(input, target).value)
            && Count(MapSlice(input, target).value)
               == Count(input) - if r == 0 || 2 * r >= input.step then 0 else 1
  {
    Shape(input);
    var q, r := (input.end - input.begin) / input.step, Remainder(input);
    assert (q - 1) * input.step == q * input.step - input.step && (q + 1) * input.step == q * input.step + input.step;
    LocalCount(input, target, if 2 * r >= input.step then q + 1 else q);
  }

  /** The local slice has `n` elements when `LastElement` lies between the `n - 1`-st and the `n`-th. */
  lemma LocalCount(input: Slice, target: Slice, n: nat)
    requires Positive(input) && Positive(target) && input.begin < input.end && MapSlice(input, target).Some?
    requires n > 0 ==> Nth(input, n - 1) <= LastElement(input)
    requires LastElement(input) < Nth(input, n)
    ensures Positive(MapSlice(input, target).value) && Count(MapSlice(input, target).value) == n
  {
    var l := MapSlice(input, target).value;
    MappedShape(input, target);
    BeforeLast(input, target, l, n);
    if n > 0 {
      BeforeLast(input, target, l, n - 1);
    }
  }

  // ---- when there is no result ----

  ghost predicate Subset(input: Slice, target: Slice)
    requires Positive(input) && Positive(target)
  {
    forall i | 0 <= i < Count(input) :: Contains(target, Nth(input, i))
  }

  /** With two elements on the target's grid, the step is a multiple of the target's. */
  lemma StepOnGrid(input: Slice, target: Slice)
    requires Positive(input) && Positive(target) && Count(input) >= 2 && Subset(input, target)
    ensures input.step % target.step == 0
  {
    assert Contains(target, Nth(input, 0)) && Contains(target, Nth(input, 1));
    var j :| 0 <= j < Count(target) && Nth(target, j) == Nth(input, 0);
    var k :| 0 <= k < Count(target) && Nth(target, k) == Nth(input, 1);
    assert (k - j) * target.step == input.step;
    MultipleRemainder(k - j, target.step);
  }

  lemma SubsetIsMapped(input: Slice, target: Slice)
    requires Positive(input) && Positive(target) && Count(input) >= 2 && Exact(input) && Subset(input, target)
    ensures MapSlice(input, target).Some?
  {
    assert input.begin < input.end;
    LastElementExact(input);
    MapIntFails(input.begin, target);
    MapIntFails(LastElement(input), target);
    StepOnGrid(input, target);
    assert Contains(target, Nth(input, 0)) && Contains(target, Nth(input, Count(input) - 1));
  }

  lemma RejectsNonSubsets(input: Slice, target: Slice)
    requires Positive(input) && Positive(target) && Count(input) >= 2 && Exact(input)
    ensures MapSlice(input, target).None? <==> !Subset(input, target)
  {
    assert input.begin < input.end;
    if MapSlice(input, target).Some? {
      SliceInSlice(input, target);
      FaithfulIsSubset(input, target, MapSlice(input, target).value);
    }
    if Subset(input, target) {
      SubsetIsMapped(input, target);
    }
  }

  lemma FaithfulIsSubset(input: Slice, target: Slice, local: Slice)
    requires Positive(input) && Positive(target) && Positive(local) && Faithful(input, target, local)
    ensures Subset(input, target)
  {
    forall i | 0 <= i < Count(input) ensures Contains(target, Nth(input, i)) {
      assert Nth(target, Nth(local, i)) == Nth(input, i);
    }
  }

  /** `None` means "not a subset" for every target exactly when the slice is exact: an inexact one is not even
      found in itself. */
  lemma RejectsExactly(input: Slice)
    requires Positive(input) && Count(input) >= 2
    ensures (forall target: Slice | Positive(target) :: MapSlice(input, target).None? <==> !Subset(input, target))
            <==> Exact(input)
  {
    if Exact(input) {
      forall target: Slice | Positive(target)
        ensures MapSlice(input, target).None? <==> !Subset(input, target)
      {
        RejectsNonSubsets(input, target);
      }
    } else {
      NotInItself(input);
      assert Subset(input, input);
      assert MapSlice(input, input).None?;
    }
  }

  lemma SubsetOfRange(input: Slice, range: Slice)
    requires Positive(input) && range.step == 1 && range.begin <= input.begin && input.end <= range.end
    ensures Subset(input, range)
  {
    forall i | 0 <= i < Count(input) ensures Contains(range, Nth(input, i)) {
      InRange(input, i);
      Monotone(0, i, input.step);
      var k := Nth(input, i) - range.begin;
      InRange(range, k);
      assert Nth(range, k) == Nth(input, i);
    }
  }

  lemma SubsetOfItself(s: Slice)
    requires Positive(s)
    ensures Subset(s, s)
  {
    assert forall i | 0 <= i < Count(s) :: Contains(s, Nth(s, i));
  }

  /** `range(0, 5, 4)` in `range(8)`: with remainder 1 and step 4 the code takes 2 for the last element. The local
      slice is wrong, and the slice is not found in itself. */
  lemma InexactSlice(input: Slice, target: Slice)
    requires input == Slice(0, 5, 4) && target == Slice(0, 8, 1)
    ensures LastElement(input) == 2
    ensures Subset(input, target) && MapSlice(input, target) == Some(Slice(0, 3, 4))
    ensures !Faithful(input, target, Slice(0, 3, 4))
    ensures Subset(input, input) && MapSlice(input, input) == None
  {
    InexactMapped(input, target);
    SliceInSlice(input, target);
    NotInItself(input);
    SubsetOfRange(input, target);
    SubsetOfItself(input);
  }

  lemma InexactMapped(input: Slice, target: Slice)
    requires input == Slice(0, 5, 4) && target == Slice(0, 8, 1)
    ensures Remainder(input) == 1 && LastElement(input) == 2
    ensures MapSlice(input, target) == Some(Slice(0, 3, 4))
  {
    DivideOut(1, 1, 4);
    assert MapInt(0, target) == Some(0) && MapInt(2, target) == Some(2);
  }

  lemma NotInItself(input: Slice)
    requires Positive(input) && input.begin < input.end && !Exact(input)
    ensures MapSlice(input, input).None?
  {
    Shape(input);
    var q, r := (input.end - input.begin) / input.step, Remainder(input);
    var last := LastElement(input);
    if MapInt(last, input).Some? {
      var k := MapInt(last, input).value;
      MapIntFinds(last, input, k);
      assert (k - (q - 1)) * input.step == 2 * r;
      assert 0 < 2 * r < 2 * input.step;
      Monotone(k - (q - 1), 0, input.step);
      Monotone(2, k - (q - 1), input.step);
    }
  }
}
