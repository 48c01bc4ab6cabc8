/**
 The parallel quicksort of `examples/simple/quicksort.py`: in-place partitioning and insertion sort, and the range
 tasks run in any order.
 */
module Quicksort {

  const CUTOFF := 1000

  /** A task's range, with both ends included; `hi == lo - 1` is the empty range. */
  datatype Range = Range(lo: int, hi: int)

  predicate Within(r: Range, n: nat) {
    0 <= r.lo <= r.hi + 1 <= n
  }

  predicate In(r: Range, x: int) {
    r.lo <= x <= r.hi
  }

  /** `t` has the same elements as `s` outside the range, and the same elements inside in some order. */
  ghost predicate Rearranged(s: seq<int>, t: seq<int>, r: Range) {
    && Within(r, |s|) && |t| == |s|
    && (forall x | 0 <= x < |s| && !In(r, x) :: t[x] == s[x])
    && multiset(t[r.lo..r.hi + 1]) == multiset(s[r.lo..r.hi + 1])
  }

  ghost predicate SortedIn(s: seq<int>, lo: int, end: int) {
    forall x, y | 0 <= lo <= x < y < end <= |s| :: s[x] <= s[y]
  }

  // ---- swapping ----

  function Swapped(s: seq<int>, i: int, j: int): seq<int>
    requires 0 <= i < |s| && 0 <= j < |s|
  {
    s[i := s[j]][j := s[i]]
  }

  lemma SwapRearranges(s: seq<int>, i: int, j: int, r: Range)
    requires Within(r, |s|) && In(r, i) && In(r, j)
    ensures Rearranged(s, Swapped(s, i, j), r)
  {
    SwapInRange(s, i, j, r);
    SwapKeepsElements(s[r.lo..r.hi + 1], i - r.lo, j - r.lo);
  }

  lemma SwapInRange(s: seq<int>, i: int, j: int, r: Range)
    requires Within(r, |s|) && In(r, i) && In(r, j)
    ensures Swapped(s, i, j)[r.lo..r.hi + 1] == Swapped(s[r.lo..r.hi + 1], i - r.lo, j - r.lo)
  {
  }

  lemma SwapKeepsElements(s: seq<int>, i: int, j: int)
    requires 0 <= i < |s| && 0 <= j < |s|
    ensures multiset(Swapped(s, i, j)) == multiset(s)
  {
  }

  lemma RearrangedThen(s: seq<int>, t: seq<int>, u: seq<int>, r: Range)
    requires Rearranged(s, t, r) && Rearranged(t, u, r)
    ensures Rearranged(s, u, r)
  {
  }

  method Swap(a: array<int>, i: int, j: int, ghost before: seq<int>, ghost r: Range)
    requires 0 <= i < a.Length && 0 <= j < a.Length && In(r, i) && In(r, j) && Rearranged(before, a[..], r)
    modifies a
    ensures a[i] == old(a[j]) && a[j] == old(a[i]) && Rearranged(before, a[..], r)
    ensures forall x | 0 <= x < a.Length && x != i && x != j :: a[x] == old(a[x])
  {
    a[i], a[j] := a[j], a[i];
    SwapRearranges(old(a[..]), i, j, r);
    assert a[..] == Swapped(old(a[..]), i, j);
    RearrangedThen(before, old(a[..]), a[..], r);
  }

  /** Smaller elements, the pivot, then the others. */
  ghost predicate Partitioned(s: seq<int>, r: Range, p: int) {
    && Within(r, |s|) && In(r, p)
    && (forall x | r.lo <= x < p :: s[x] < s[p])
    && (forall x | p < x <= r.hi :: s[p] <= s[x])
  }

  method Partition(a: array<int>, lo: int, hi: int) returns (p: int)
    requires 0 <= lo <= hi < a.Length
    modifies a
    ensures Rearranged(old(a[..]), a[..], Range(lo, hi)) && Partitioned(a[..], Range(lo, hi), p)
  {
    ghost var before, r := a[..], Range(lo, hi);
    var pivot := a[hi];
    var i := lo;
    for j := lo to hi
      invariant lo <= i <= j && a[hi] == pivot
      invariant Rearranged(before, a[..], r)
      invariant forall x | lo <= x < i :: a[x] < pivot
      invariant forall x | i <= x < j :: pivot <= a[x]
    {
      if a[j] < pivot {
        Swap(a, j, i, before, r);
        i := i + 1;
      }
    }
    Swap(a, i, hi, before, r);
    p := i;
  }

  method InsertionSort(a: array<int>, lo: int, hi: int)
    requires Within(Range(lo, hi), a.Length)
    modifies a
    ensures Rearranged(old(a[..]), a[..], Range(lo, hi)) && SortedIn(a[..], lo, hi + 1)
  {
    ghost var before, r := a[..], Range(lo, hi);
    for i := lo to hi + 1
      invariant Rearranged(before, a[..], r)
      invariant forall x, y | lo <= x < y < i :: a[x] <= a[y]
    {
      Insert(a, lo, i, before, r);
    }
  }

  /** The inner loop: move element `i` down to its place among the sorted elements before it. */
  method Insert(a: array<int>, lo: int, i: int, ghost before: seq<int>, ghost r: Range)
    requires 0 <= lo <= i < a.Length && In(r, lo) && In(r, i) && Rearranged(before, a[..], r)
    requires forall x, y | lo <= x < y < i :: a[x] <= a[y]
    modifies a
    ensures Rearranged(before, a[..], r)
    ensures forall x, y | lo <= x < y <= i :: a[x] <= a[y]
  {
    var j := i;
    while j > lo && a[j - 1] > a[j]
      invariant lo <= j <= i
      invariant Rearranged(before, a[..], r)
      invariant forall x, y | lo <= x < y <= i && y != j :: a[x] <= a[y]
    {
      Swap(a, j - 1, j, before, r);
      j := j - 1;
    }
  }

  // ---- range tasks ----

  ghost predicate SameRange(pending: seq<Range>, x: int, y: int) {
    exists k :: 0 <= k < |pending| && In(pending[k], x) && In(pending[k], y)
  }

  /** The pending ranges are disjoint. */
  ghost predicate Disjoint(pending: seq<Range>) {
    forall k, l, x | 0 <= k < |pending| && 0 <= l < |pending| && In(pending[k], x) && In(pending[l], x) :: k == l
  }

  /** Elements are in order unless one pending range still has to sort them. */
  ghost predicate Ordered(s: seq<int>, pending: seq<Range>) {
    forall x, y | 0 <= x < y < |s| && !SameRange(pending, x, y) :: s[x] <= s[y]
  }

  ghost predicate Progress(s: seq<int>, pending: seq<Range>) {
    && (forall k | 0 <= k < |pending| :: Within(pending[k], |s|))
    && Disjoint(pending) && Ordered(s, pending)
  }

  /** An element of a rearranged range was in the range before. */
  lemma ComesFrom(s: seq<int>, t: seq<int>, r: Range, x: int) returns (y: int)
    requires Rearranged(s, t, r) && In(r, x)
    ensures In(r, y) && s[y] == t[x]
  {
    assert t[r.lo..r.hi + 1][x - r.lo] in multiset(t[r.lo..r.hi + 1]);
    assert t[x] in s[r.lo..r.hi + 1];
    var k :| 0 <= k < r.hi + 1 - r.lo && s[r.lo..r.hi + 1][k] == t[x];
    y := r.lo + k;
  }

  function Replaced(pending: seq<Range>, k: int, left: seq<Range>): seq<Range>
    requires 0 <= k < |pending|
  {
    pending[..k] + left + pending[k + 1..]
  }

  /** The ranges a task leaves behind for its own: none if it sorted it, else the parts beside the pivot. */
  ghost predicate Leaves(t: seq<int>, r: Range, left: seq<Range>) {
    if left == [] then SortedIn(t, r.lo, r.hi + 1)
    else exists p :: Partitioned(t, r, p) && left == [Range(r.lo, p - 1), Range(p + 1, r.hi)]
  }

  lemma LeavesInOrder(t: seq<int>, r: Range, left: seq<Range>, x: int, y: int)
    requires Leaves(t, r, left) && Within(r, |t|) && r.lo <= x < y <= r.hi && !SameRange(left, x, y)
    ensures t[x] <= t[y]
  {
    if left != [] {
      var p :| Partitioned(t, r, p) && left == [Range(r.lo, p - 1), Range(p + 1, r.hi)];
      assert left[0] == Range(r.lo, p - 1) && left[1] == Range(p + 1, r.hi);
    }
  }

  lemma LeavesInside(t: seq<int>, r: Range, left: seq<Range>)
    requires Leaves(t, r, left) && Within(r, |t|)
    ensures forall k | 0 <= k < |left| :: Within(left[k], |t|)
    ensures forall k, x | 0 <= k < |left| && In(left[k], x) :: In(r, x)
    ensures Disjoint(left)
  {
  }

  /** Which range an entry of the new list came from. */
  lemma ReplacedAt(pending: seq<Range>, k: int, left: seq<Range>, l: int)
    requires 0 <= k < |pending| && 0 <= l < |Replaced(pending, k, left)|
    ensures var q := Replaced(pending, k, left)[l];
            if l < k then q == pending[l]
            else if l < k + |left| then q == left[l - k]
            else l - |left| + 1 < |pending| && q == pending[l - |left| + 1]
  {
  }

  lemma StillSameRange(pending: seq<Range>, k: int, left: seq<Range>, x: int, y: int)
    requires 0 <= k < |pending| && SameRange(pending, x, y)
    ensures SameRange(Replaced(pending, k, left), x, y) || (In(pending[k], x) && In(pending[k], y))
  {
    var l :| 0 <= l < |pending| && In(pending[l], x) && In(pending[l], y);
    var next := Replaced(pending, k, left);
    if l < k {
      assert next[l] == pending[l];
    } else if l > k {
      assert next[l - 1 + |left|] == pending[l];
    }
  }

  lemma LeftSameRange(pending: seq<Range>, k: int, left: seq<Range>, x: int, y: int)
    requires 0 <= k < |pending| && SameRange(left, x, y)
    ensures SameRange(Replaced(pending, k, left), x, y)
  {
    var l :| 0 <= l < |left| && In(left[l], x) && In(left[l], y);
    assert Replaced(pending, k, left)[k + l] == left[l];
  }

  lemma StepOrdered(s: seq<int>, t: seq<int>, pending: seq<Range>, k: int, left: seq<Range>, x: int, y: int)
    requires Progress(s, pending) && 0 <= k < |pending| && Rearranged(s, t, pending[k]) && Leaves(t, pending[k], left)
    requires 0 <= x < y < |s| && !SameRange(Replaced(pending, k, left), x, y)
    ensures t[x] <= t[y]
  {
    var r := pending[k];
    if In(r, x) && In(r, y) {
      if SameRange(left, x, y) { LeftSameRange(pending, k, left, x, y); }
      LeavesInOrder(t, r, left, x, y);
    } else {
      if SameRange(pending, x, y) { StillSameRange(pending, k, left, x, y); }
      var x', y' := x, y;
      if In(r, x) { x' := ComesFrom(s, t, r, x); }
      if In(r, y) { y' := ComesFrom(s, t, r, y); }
      StaysApart(pending, k, x, y, x', y');
      assert s[x'] <= s[y'];
    }
  }

  /** Moving one of two indices inside its range does not bring them into one range. */
  lemma StaysApart(pending: seq<Range>, k: int, x: int, y: int, x': int, y': int)
    requires Disjoint(pending) && 0 <= k < |pending| && x < y && !(In(pending[k], x) && In(pending[k], y))
    requires !SameRange(pending, x, y)
    requires if In(pending[k], x) then In(pending[k], x') else x' == x
    requires if In(pending[k], y) then In(pending[k], y') else y' == y
    ensures x' < y' && !SameRange(pending, x', y')
  {
    if l :| 0 <= l < |pending| && In(pending[l], x') && In(pending[l], y') {
      assert In(pending[k], x) || In(pending[k], y) ==> l == k;
    }
  }

  lemma StepKeeps(s: seq<int>, t: seq<int>, pending: seq<Range>, k: int, left: seq<Range>)
    requires Progress(s, pending) && 0 <= k < |pending| && Rearranged(s, t, pending[k]) && Leaves(t, pending[k], left)
    ensures Progress(t, Replaced(pending, k, left))
  {
    var next := Replaced(pending, k, left);
    LeavesInside(t, pending[k], left);
    forall l | 0 <= l < |next| ensures Within(next[l], |t|) {
      ReplacedAt(pending, k, left, l);
    }
    StepDisjoint(t, pending, k, left);
    forall x, y | 0 <= x < y < |t| && !SameRange(next, x, y) ensures t[x] <= t[y] {
      StepOrdered(s, t, pending, k, left, x, y);
    }
  }

  lemma StepDisjoint(t: seq<int>, pending: seq<Range>, k: int, left: seq<Range>)
    requires Disjoint(pending) && 0 <= k < |pending| && Within(pending[k], |t|) && Leaves(t, pending[k], left)
    ensures Disjoint(Replaced(pending, k, left))
  {
    var next := Replaced(pending, k, left);
    LeavesInside(t, pending[k], left);
    forall l, m, x | 0 <= l < |next| && 0 <= m < |next| && In(next[l], x) && In(next[m], x) ensures l == m {
      ReplacedAt(pending, k, left, l);
      ReplacedAt(pending, k, left, m);
    }
  }

  // ---- running the tasks ----

  /** The body of `quicksort`: sort a short range, or partition it and spawn a task for each part. */
  method RunTask(a: array<int>, lo: int, hi: int) returns (spawned: seq<Range>)
    requires Within(Range(lo, hi), a.Length)
    modifies a
    ensures Rearranged(old(a[..]), a[..], Range(lo, hi)) && Leaves(a[..], Range(lo, hi), spawned)
    ensures Work(spawned) < Work([Range(lo, hi)])
  {
    assert [Range(lo, hi)][1..] == [];
    if lo >= hi - CUTOFF {
      InsertionSort(a, lo, hi);
      return [];
    }
    var p := Partition(a, lo, hi);
    spawned := [Range(lo, p - 1), Range(p + 1, hi)];
    assert spawned[1..] == [Range(p + 1, hi)] && spawned[1..][1..] == [];
  }

  /** What is still to be done; every task leaves less behind than it takes. */
  function Work(pending: seq<Range>): nat {
    if pending == [] then 0
    else
      var first := pending[0];
      (if first.hi >= first.lo then 2 * (first.hi - first.lo + 1) + 1 else 1) + Work(pending[1..])
  }

  lemma {:induction false} WorkAppend(first: seq<Range>, second: seq<Range>)
    ensures Work(first + second) == Work(first) + Work(second)
    decreases |first|
  {
    if first == [] {
      assert first + second == second;
    } else {
      assert (first + second)[1..] == first[1..] + second;
      WorkAppend(first[1..], second);
    }
  }

  lemma WorkReplaced(pending: seq<Range>, k: int, left: seq<Range>)
    requires 0 <= k < |pending| && Work(left) < Work([pending[k]])
    ensures Work(Replaced(pending, k, left)) < Work(pending)
  {
    WorkAppend(pending[..k] + left, pending[k + 1..]);
    WorkAppend(pending[..k], left);
    WorkAppend(pending[..k] + [pending[k]], pending[k + 1..]);
    WorkAppend(pending[..k], [pending[k]]);
    assert pending == pending[..k] + [pending[k]] + pending[k + 1..];
  }

  /** The whole array is sorted, whichever pending task is run next at every point. */
  method ParallelQuicksort(a: array<int>)
    modifies a
    ensures SortedIn(a[..], 0, a.Length) && multiset(a[..]) == multiset(old(a[..]))
  {
    var pending := [Range(0, a.Length - 1)];
    assert Progress(a[..], pending) by {
      forall x, y | 0 <= x < y < a.Length ensures SameRange(pending, x, y) {
        assert In(pending[0], x) && In(pending[0], y);
      }
    }
    while pending != []
      invariant Progress(a[..], pending) && multiset(a[..]) == multiset(old(a[..]))
      decreases Work(pending)
    {
      var k :| 0 <= k < |pending|;
      ghost var before := a[..];
      var r := pending[k];
      var spawned := RunTask(a, r.lo, r.hi);
      RearrangedIsPermutation(before, a[..], r);
      StepKeeps(before, a[..], pending, k, spawned);
      WorkReplaced(pending, k, spawned);
      pending := Replaced(pending, k, spawned);
    }
  }

  lemma RearrangedIsPermutation(s: seq<int>, t: seq<int>, r: Range)
    requires Rearranged(s, t, r)
    ensures multiset(t) == multiset(s)
  {
    assert s == s[..r.lo] + s[r.lo..r.hi + 1] + s[r.hi + 1..];
    assert t == t[..r.lo] + t[r.lo..r.hi + 1] + t[r.hi + 1..];
    assert t[..r.lo] == s[..r.lo] && t[r.hi + 1..] == s[r.hi + 1..];
  }

  lemma SmallestFirst(s: seq<int>, t: seq<int>)
    requires SortedIn(s, 0, |s|) && SortedIn(t, 0, |t|) && multiset(s) == multiset(t) && s != [] && t != []
    ensures s[0] == t[0]
  {
    assert s[0] in multiset(t) && t[0] in multiset(s);
    var i :| 0 <= i < |t| && t[i] == s[0];
    var j :| 0 <= j < |s| && s[j] == t[0];
  }

  lemma TailsMatch(s: seq<int>, t: seq<int>)
    requires s != [] && t != [] && s[0] == t[0] && multiset(s) == multiset(t)
    ensures multiset(s[1..]) == multiset(t[1..])
  {
    assert s == [s[0]] + s[1..] && t == [t[0]] + t[1..];
    assert multiset(s[1..]) == multiset(s) - multiset{s[0]};
    assert multiset(t[1..]) == multiset(t) - multiset{t[0]};
  }

  /** So the result does not depend on the order: a sorted permutation is unique. */
  lemma {:induction false} SortedPermutationIsUnique(s: seq<int>, t: seq<int>)
    requires SortedIn(s, 0, |s|) && SortedIn(t, 0, |t|) && multiset(s) == multiset(t)
    ensures s == t
    decreases |s|
  {
    assert |s| == |multiset(s)| == |multiset(t)| == |t|;
    if s != [] {
      SmallestFirst(s, t);
      TailsMatch(s, t);
      SortedPermutationIsUnique(s[1..], t[1..]);
      assert s == [s[0]] + s[1..] && t == [t[0]] + t[1..];
    }
  }
}
