/**
 The order in which NumPy puts the axes of a result, and what it means for subarrays. An index with a list treats its
 integers as lists of one, too. If those entries are separated by a slice, the axis of the list comes first in the
 result; otherwise it stays where the list is. The code translates an index axis by axis as if it always stayed.
 */
module AxisOrder {
  import opened Wrappers
  import opened Slices
  import opened LocalSlices

  predicate HasList(g: seq<Index>) {
    exists i :: 0 <= i < |g| && g[i].Ints?
  }

  predicate OneList(g: seq<Index>) {
    forall i, j | 0 <= i < j < |g| :: !(g[i].Ints? && g[j].Ints?)
  }

  /** A slice stands between two entries that are integers or the list. */
  predicate Separated(g: seq<Index>) {
    exists i, j, k :: 0 <= i < j < k < |g| && !g[i].Range? && g[j].Range? && !g[k].Range?
  }

  /** The axes of the result that come before the list's when every axis stays where it is. */
  function SlicesBefore(g: seq<Index>): (n: nat)
    ensures n <= |g|
  {
    if g == [] || g[0].Ints? then 0 else (if g[0].Range? then 1 else 0) + SlicesBefore(g[1..])
  }

  /** `c` is a position in NumPy's result; this is the position when every axis stays where it is. */
  function Unmoved(g: seq<Index>, c: seq<int>): seq<int> {
    var n := SlicesBefore(g);
    if HasList(g) && Separated(g) && n < |c| then c[1..n + 1] + [c[0]] + c[n + 1..] else c
  }

  /** What NumPy selects, and where its result has positions. */
  function Selected(g: seq<Index>, c: seq<int>): seq<int> {
    Place(g, Unmoved(g, c))
  }

  ghost predicate InResult(g: seq<Index>, c: seq<int>)
    requires AllSimple(g)
  {
    InBounds(g, Unmoved(g, c))
  }

  /** There is no list, or it comes before every slice, or it forms one block with all integers. */
  predicate InPlace(g: seq<Index>) {
    !HasList(g) || SlicesBefore(g) == 0 || !Separated(g)
  }

  /** NumPy leaves the axes where they are exactly then. */
  lemma AxesStayExactly(g: seq<Index>, n: nat)
    requires HasList(g) ==> n > SlicesBefore(g)
    ensures InPlace(g) <==> forall c: seq<int> | |c| == n :: Unmoved(g, c) == c
  {
    if InPlace(g) {
      forall c: seq<int> | |c| == n ensures Unmoved(g, c) == c {
        AxesStay(g, c);
      }
    } else {
      var c := seq(n, i => i);
      assert Unmoved(g, c)[0] == c[1] != c[0];
    }
  }

  lemma AxesStay(g: seq<Index>, c: seq<int>)
    requires InPlace(g)
    ensures Unmoved(g, c) == c
  {
    if HasList(g) && Separated(g) && 0 < |c| {
      assert c[1..1] + [c[0]] + c[1..] == c;
    }
  }

  /** Indexing the subarray cut out by `view` with `l` gives at `c` the element that `g` selects from the full array,
      all with NumPy's order of axes. */
  ghost predicate SameInNumPy(view: seq<Index>, g: seq<Index>, l: seq<Index>, c: seq<int>) {
    && AllSimple(view) && AllSimple(l)
    && InResult(l, c) && InResult(view, Selected(l, c))
    && Selected(view, Selected(l, c)) == Selected(g, c)
  }

  /** The lookup is right in NumPy if each of the three indexes has at most one list, and that in place. */
  lemma LookupInNumPy(maps: seq<AxisMap>, g: seq<Index>, c: seq<int>)
    requires |maps| <= |g| && AllSimple(g) && AllSound(maps) && AllMappable(maps, g) && InResult(g, c)
    requires AllSimpleMaps(maps) && MapAxes(maps, g).Some?
    requires OneList(g) && OneList(IndexesOf(maps)) && OneList(MapAxes(maps, g).value)
    requires InPlace(g) && InPlace(IndexesOf(maps)) && InPlace(MapAxes(maps, g).value)
    ensures SameInNumPy(IndexesOf(maps), g, MapAxes(maps, g).value, c)
  {
    var view, l := IndexesOf(maps), MapAxes(maps, g).value;
    AxesStay(g, c);
    AxesStay(l, c);
    LookupIsFaithful(maps, g, c);
    AxesStay(view, Place(l, c));
  }

  // ---- the translated index ----

  /** No slice is looked up on an axis that was cut out by a list. */
  predicate SlicesOnSlices(maps: seq<AxisMap>, g: seq<Index>) {
    forall i | 0 <= i < |g| && i < |maps| && g[i].Range? :: maps[i].Span?
  }

  predicate SameKind(a: Index, b: Index) {
    (a.At? <==> b.At?) && (a.Ints? <==> b.Ints?)
  }

  /** `l` is `g`, kind by kind, without the integer entries at some places. `at[i]` is where `l[i]` comes from. */
  predicate ComesFrom(l: seq<Index>, g: seq<Index>, at: seq<nat>) {
    && |at| == |l|
    && (forall i | 0 <= i < |l| :: at[i] < |g| && SameKind(l[i], g[at[i]]))
    && (forall i, j | 0 <= i < j < |l| :: at[i] < at[j])
  }

  function Shifted(at: seq<nat>): (r: seq<nat>)
    ensures |r| == |at| && forall i | 0 <= i < |r| :: r[i] == at[i] + 1
  {
    seq(|at|, i requires 0 <= i < |at| => at[i] + 1)
  }

  lemma KindKept(m: Option<AxisMap>, g: Index)
    requires Simple(g) && (m.Some? ==> SimpleMap(m.value)) && (g.Range? && m.Some? ==> m.value.Span?)
    ensures MapAxis(m, g).Local? ==> SameKind(MapAxis(m, g).index, g)
    ensures MapAxis(m, g).Skipped? ==> g.At?
  {
  }

  lemma {:induction false} SlicesBeforeKept(maps: seq<AxisMap>, g: seq<Index>)
    requires AllSimple(g) && AllSimpleMaps(maps) && MapAxes(maps, g).Some? && SlicesOnSlices(maps, g)
    ensures SlicesBefore(MapAxes(maps, g).value) == SlicesBefore(g)
    decreases |g|
  {
    if g != [] {
      SlicesBeforeKept(Rest(maps), g[1..]);
      KindKept(First(maps), g[0]);
      assert MapAxis(First(maps), g[0]).Local? ==> MapAxes(maps, g).value[1..] == MapAxes(Rest(maps), g[1..]).value;
    }
  }

  lemma {:induction false} LocalComesFrom(maps: seq<AxisMap>, g: seq<Index>) returns (at: seq<nat>)
    requires AllSimple(g) && AllSimpleMaps(maps) && MapAxes(maps, g).Some? && SlicesOnSlices(maps, g)
    ensures ComesFrom(MapAxes(maps, g).value, g, at)
    decreases |g|
  {
    if g == [] {
      at := [];
    } else {
      var rest := LocalComesFrom(Rest(maps), g[1..]);
      KindKept(First(maps), g[0]);
      ComesFromLonger(MapAxes(Rest(maps), g[1..]).value, g, rest);
      at := if MapAxis(First(maps), g[0]).Skipped? then Shifted(rest) else [0] + Shifted(rest);
    }
  }

  lemma ComesFromLonger(l: seq<Index>, g: seq<Index>, at: seq<nat>)
    requires g != [] && ComesFrom(l, g[1..], at)
    ensures ComesFrom(l, g, Shifted(at))
    ensures forall a | SameKind(a, g[0]) :: ComesFrom([a] + l, g, [0] + Shifted(at))
  {
  }

  /** Then the lookup needs only the two indexes the program wrote to be in place. */
  lemma LocalInPlace(maps: seq<AxisMap>, g: seq<Index>)
    requires AllSimple(g) && AllSimpleMaps(maps) && MapAxes(maps, g).Some? && SlicesOnSlices(maps, g)
    requires OneList(g) && InPlace(g)
    ensures OneList(MapAxes(maps, g).value) && InPlace(MapAxes(maps, g).value)
  {
    var l := MapAxes(maps, g).value;
    var at := LocalComesFrom(maps, g);
    SlicesBeforeKept(maps, g);
    if i :| 0 <= i < |l| && l[i].Ints? {
      assert g[at[i]].Ints?;
    }
    if i, j, k :| 0 <= i < j < k < |l| && !l[i].Range? && l[j].Range? && !l[k].Range? {
      assert at[i] < at[j] < at[k] && !g[at[i]].Range? && g[at[j]].Range? && !g[at[k]].Range?;
    }
    forall i, j | 0 <= i < j < |l| ensures !(l[i].Ints? && l[j].Ints?) {
      assert at[i] < at[j] && SameKind(l[i], g[at[i]]) && SameKind(l[j], g[at[j]]);
    }
  }

  // ---- inputs ----

  /** A slice of consecutive numbers in another one from zero is found as it is. */
  lemma Consecutive(s: Slice, t: Slice)
    requires s.step == 1 && t.step == 1 && t.begin == 0 && 0 <= s.begin < s.end <= t.end
    ensures MapSlice(s, t) == Some(s) && Count(s) == s.end - s.begin
  {
    assert Remainder(s) == 0 && LastElement(s) == s.end - 1;
    assert MapInt(s.begin, t) == Some(s.begin) && MapInt(s.end - 1, t) == Some(s.end - 1);
  }

  lemma ListMap()
    ensures MapOf(Ints([1, 3])) == Dict([1, 3], map[1 := 0, 3 := 1])
    ensures SimpleMap(MapOf(Ints([1, 3])))
  {
    var one, two := [1], [1, 3];
    assert one[..0] == [] && two[..1] == one;
    assert KeysOf(one) == [1] && TableOf(one) == map[1 := 0];
  }

  lemma ListInItself()
    ensures SimpleMap(MapOf(Ints([1, 3]))) && MapAxis(Some(MapOf(Ints([1, 3]))), Ints([1, 3])) == Local(Ints([0, 1]))
  {
    ListMap();
    var m, ns := MapOf(Ints([1, 3])), [1, 3];
    FindAllEach(m, ns);
    assert Find(m, ns[0]) == Some(0) && Find(m, ns[1]) == Some(1);
    assert FindAll(m, ns).value == [0, 1];
  }

  lemma LastAxis(m: AxisMap, g: Index, l: Index)
    requires Simple(g) && SimpleMap(m) && MapAxis(Some(m), g) == Local(l)
    ensures AllSimple([g]) && AllSimpleMaps([m]) && MapAxes([m], [g]) == Some([l])
  {
    var maps, gs := [m], [g];
    assert Rest(maps) == [] && gs[1..] == [] && First(maps) == Some(m) && gs[0] == g;
    assert AllSimple(gs[1..]) && AllSimpleMaps(Rest(maps)) && MapAxes(Rest(maps), gs[1..]) == Some([]);
    assert [l] + [] == [l];
  }

  lemma FirstOfAxes(m: AxisMap, g: Index, maps: seq<AxisMap>, gs: seq<Index>, rest: seq<Index>)
    requires Simple(g) && SimpleMap(m) && AllSimple(gs) && AllSimpleMaps(maps) && MapAxes(maps, gs) == Some(rest)
    ensures AllSimple([g] + gs) && AllSimpleMaps([m] + maps)
    ensures MapAxes([m] + maps, [g] + gs) ==
            match MapAxis(Some(m), g) case Missing => None case Skipped => Some(rest) case Local(l) => Some([l] + rest)
  {
    assert Rest([m] + maps) == maps && ([g] + gs)[1..] == gs && First([m] + maps) == Some(m);
  }

  /** The map recorded for `(0, t, [1, 3])`, and the index `(0, s, [1, 3])`. */
  function MapsOfThree(t: Slice): seq<AxisMap> {
    [MapOf(At(0)), MapOf(Range(t)), MapOf(Ints([1, 3]))]
  }

  function Three(s: Slice): seq<Index> {
    [At(0), Range(s), Ints([1, 3])]
  }

  lemma ThreeMapped(s: Slice, t: Slice)
    requires s.step == 1 && t.step == 1 && t.begin == 0 && 0 <= s.begin < s.end <= t.end
    ensures AllSimple(Three(s)) && AllSimpleMaps(MapsOfThree(t)) && IndexesOf(MapsOfThree(t)) == Three(t)
    ensures MapAxes(MapsOfThree(t), Three(s)) == Some([Range(s), Ints([0, 1])])
  {
    Consecutive(s, t);
    ListMap();
    ListInItself();
    var maps, g := MapsOfThree(t), Three(s);
    LastAxis(maps[2], g[2], Ints([0, 1]));
    FirstOfAxes(maps[1], g[1], [maps[2]], [g[2]], [Ints([0, 1])]);
    assert [maps[1]] + [maps[2]] == [maps[1], maps[2]] && [g[1]] + [g[2]] == [g[1], g[2]];
    assert [Range(s)] + [Ints([0, 1])] == [Range(s), Ints([0, 1])];
    FirstOfAxes(maps[0], g[0], [maps[1], maps[2]], [g[1], g[2]], [Range(s), Ints([0, 1])]);
    assert [maps[0]] + [maps[1], maps[2]] == maps && [g[0]] + [g[1], g[2]] == g;
  }

  lemma ThreeMoved(s: Slice, a: int, b: int)
    ensures !InPlace(Three(s)) && Unmoved(Three(s), [a, b]) == [b, a]
  {
    var g, c := Three(s), [a, b];
    assert g[0].At? && g[1].Range? && g[2].Ints?;
    assert HasList(g) && Separated(g);
    assert g[1..][0] == g[1] && g[1..][1..][0] == g[2];
    assert SlicesBefore(g[1..][1..]) == 0 && SlicesBefore(g[1..]) == 1;
    assert c[1..2] + [c[0]] + c[2..] == [b, a];
  }

  /** `x[0, s, [1, 3]]` has the list's axis first. */
  lemma ThreeSelects(s: Slice, a: int, b: int)
    requires s.step == 1 && 0 <= a < 2
    ensures Selected(Three(s), [a, b]) == [0, s.begin + b, [1, 3][a]]
    ensures AllSimple(Three(s)) && (InResult(Three(s), [a, b]) <==> 0 <= b < Count(s))
  {
    ThreeMoved(s, a, b);
    var g := Three(s);
    assert g[1..] == [g[1], g[2]] && g[1..][1..] == [g[2]] && g[1..][1..][1..] == [];
    assert [b, a][1..] == [a] && [a][1..] == [];
    assert Place(g[1..][1..], [a]) == [[1, 3][a]];
    assert Place(g[1..], [b, a]) == [Nth(s, b)] + [[1, 3][a]];
    assert InBounds([g[2]], [a]);
    assert InBounds(g[1..], [b, a]) <==> 0 <= b < Count(s);
  }

  /** `y[s, [0, 1]]` leaves the axes in place. */
  lemma TwoSelects(s: Slice, a: int, b: int)
    requires s.step == 1
    ensures var l := [Range(s), Ints([0, 1])];
            && AllSimple(l) && (InResult(l, [a, b]) <==> 0 <= a < Count(s) && 0 <= b < 2)
            && (0 <= b < 2 ==> Selected(l, [a, b]) == [s.begin + a, b])
  {
    var l, c := [Range(s), Ints([0, 1])], [a, b];
    assert !Separated(l) && l[1..] == [Ints([0, 1])] && l[1..][1..] == [] && c[1..] == [b] && c[1..][1..] == [];
    assert Place(l[1..], [b]) == [Pick(l[1], b)];
    assert InBounds(l[1..], [b]) <==> 0 <= b < 2;
  }

  /** Rows 0 to 2 and columns 1 and 3 of the first plane were cut out, and are asked for again: the lookup does not
      have the elements of row 2. */
  lemma SeparatedListLosesElements(t: Slice)
    requires t == Slice(0, 3, 1)
    ensures AllSimple(Three(t)) && AllSimpleMaps(MapsOfThree(t)) && IndexesOf(MapsOfThree(t)) == Three(t)
    ensures MapAxes(MapsOfThree(t), Three(t)) == Some([Range(t), Ints([0, 1])])
    ensures !InPlace(Three(t)) && InResult(Three(t), [0, 2])
    ensures !SameInNumPy(Three(t), Three(t), [Range(t), Ints([0, 1])], [0, 2])
  {
    ThreeMapped(t, t);
    Consecutive(t, t);
    ThreeMoved(t, 0, 2);
    ThreeSelects(t, 0, 2);
    TwoSelects(t, 0, 2);
  }

  lemma RowsRead(t: Slice, s: Slice)
    requires s.step == 1 && s.begin == 1 && t.step == 1 && t.begin == 0
    ensures Selected(Three(t), Selected([Range(s), Ints([0, 1])], [0, 0])) == [0, 0, 3]
  {
    TwoSelects(s, 0, 0);
    ThreeSelects(t, 1, 0);
  }

  /** Asked for rows 1 and 2 only, it reads others: at the first place row 0, column 3, instead of row 1, column 1. */
  lemma SeparatedListReadsOthers(t: Slice, s: Slice)
    requires t == Slice(0, 3, 1) && s == Slice(1, 3, 1)
    ensures AllSimple(Three(s)) && AllSimpleMaps(MapsOfThree(t)) && IndexesOf(MapsOfThree(t)) == Three(t)
    ensures MapAxes(MapsOfThree(t), Three(s)) == Some([Range(s), Ints([0, 1])])
    ensures Selected(Three(s), [0, 0]) == [0, 1, 1]
    ensures Selected(Three(t), Selected([Range(s), Ints([0, 1])], [0, 0])) == [0, 0, 3]
  {
    ThreeMapped(s, t);
    ThreeSelects(s, 0, 0);
    RowsRead(t, s);
  }

  // ---- a slice on the axis of a list ----

  /** `(p, r, [1, 3])` cut out the subarray, and `(2, r, q)` is asked for, where `q` is 1 and 3. */
  function Cut(p: Slice, r: Slice): seq<AxisMap> {
    [MapOf(Range(p)), MapOf(Range(r)), MapOf(Ints([1, 3]))]
  }

  function Asked(r: Slice, q: Slice): seq<Index> {
    [At(2), Range(r), Range(q)]
  }

  lemma SliceOnList(q: Slice)
    requires Positive(q) && Elements(q) == [1, 3]
    ensures SimpleMap(MapOf(Ints([1, 3]))) && MapAxis(Some(MapOf(Ints([1, 3]))), Range(q)) == Local(Ints([0, 1]))
  {
    ListMap();
    ListInItself();
  }

  /** Both indexes are in place, but the translated one has a list where the slice `q` was, and NumPy moves its axis
      before the other. */
  lemma SliceOnListMoves(p: Slice, r: Slice, q: Slice)
    requires p.step == 1 && p.begin == 0 && p.end > 2 && r.step == 1 && r.begin == 0 && r.end > 0
    requires Positive(q) && Elements(q) == [1, 3]
    ensures AllSimple(Asked(r, q)) && AllSimpleMaps(Cut(p, r)) && InPlace(Asked(r, q)) && InPlace(IndexesOf(Cut(p, r)))
    ensures MapAxes(Cut(p, r), Asked(r, q)) == Some([At(2), Range(r), Ints([0, 1])])
    ensures !InPlace([At(2), Range(r), Ints([0, 1])])
  {
    Consecutive(r, r);
    SliceOnList(q);
    var maps, g := Cut(p, r), Asked(r, q);
    LastAxis(maps[2], g[2], Ints([0, 1]));
    FirstOfAxes(maps[1], g[1], [maps[2]], [g[2]], [Ints([0, 1])]);
    assert [maps[1]] + [maps[2]] == [maps[1], maps[2]] && [g[1]] + [g[2]] == [g[1], g[2]];
    assert [Range(r)] + [Ints([0, 1])] == [Range(r), Ints([0, 1])];
    FirstOfAxes(maps[0], g[0], [maps[1], maps[2]], [g[1], g[2]], [Range(r), Ints([0, 1])]);
    assert [maps[0]] + [maps[1], maps[2]] == maps && [g[0]] + [g[1], g[2]] == g;
    assert MapInt(2, p) == Some(2);
    assert [At(2)] + [Range(r), Ints([0, 1])] == [At(2), Range(r), Ints([0, 1])];
    ListMovesFirst(At(2), r);
  }

  lemma ListMovesFirst(a: Index, r: Slice)
    requires a.At?
    ensures !InPlace([a, Range(r), Ints([0, 1])])
  {
    var l := [a, Range(r), Ints([0, 1])];
    assert !l[0].Range? && l[1].Range? && l[2].Ints?;
    assert HasList(l) && Separated(l);
    assert l[1..][0] == l[1] && l[1..][1..][0] == l[2];
    assert SlicesBefore(l[1..][1..]) == 0 && SlicesBefore(l[1..]) == 1;
  }

  /** `1:5:2` is such a `q`. */
  lemma SpreadOut(q: Slice)
    requires q == Slice(1, 5, 2)
    ensures Positive(q) && Elements(q) == [1, 3]
  {
  }
}
