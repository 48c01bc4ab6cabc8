/**
 Index maps of `parla/parray/memory.py`: recording the slices a subarray was cut out with, and translating an index
 into the full array to an index into the subarray, over any number of dimensions.

 An index selects independently along each axis, and the axes of the result are in the order of the index. NumPy puts
 them in another order for some indexes with a list; AxisOrder says what that means for the lookup.
 */
module LocalSlices {
  import opened Wrappers
  import opened Slices

  /** One entry of an index. Slices are already instantiated by `indices(size)`. */
  datatype Index = At(n: int) | Ints(ns: seq<int>) | Range(slice: Slice)

  /** How one axis of the full array maps to the subarray: a dictionary, with its keys in insertion order, or the
      slice's tuple. */
  datatype AxisMap = Dict(keys: seq<int>, table: map<int, int>) | Span(slice: Slice)

  /** The code assumes that slices are "simple". */
  predicate Simple(g: Index) {
    g.Range? ==> Positive(g.slice)
  }

  predicate SimpleMap(m: AxisMap) {
    m.Span? ==> Positive(m.slice)
  }

  // ---- set_slices_mapping and get_global_slices ----

  function KeysOf(ns: seq<int>): (keys: seq<int>)
    ensures forall n :: n in keys <==> n in ns
  {
    if ns == [] then []
    else
      var init, last := ns[..|ns| - 1], ns[|ns| - 1];
      assert ns == init + [last];
      if last in init then KeysOf(init) else KeysOf(init) + [last]
  }

  function TableOf(ns: seq<int>): map<int, int> {
    if ns == [] then map[] else TableOf(ns[..|ns| - 1])[ns[|ns| - 1] := |ns| - 1]
  }

  function MapOf(g: Index): AxisMap {
    match g
    case At(n) => Dict([n], map[n := 0])
    case Ints(ns) => Dict(KeysOf(ns), TableOf(ns))
    case Range(s) => Span(s)
  }

  function IndexOf(m: AxisMap): Index {
    match m
    case Dict(keys, _) => if |keys| == 1 then At(keys[0]) else Ints(keys)
    case Span(s) => Range(s)
  }

  function IndexesOf(maps: seq<AxisMap>): (gs: seq<Index>)
    ensures |gs| == |maps|
  {
    seq(|maps|, i requires 0 <= i < |maps| => IndexOf(maps[i]))
  }

  predicate Distinct(ns: seq<int>) {
    forall i, j | 0 <= i < j < |ns| :: ns[i] != ns[j]
  }

  lemma DistinctSnoc(init: seq<int>, last: int)
    ensures Distinct(init + [last]) <==> Distinct(init) && last !in init
  {
    var ns := init + [last];
    if Distinct(ns) {
      assert forall i | 0 <= i < |init| :: ns[i] == init[i] && ns[i] != ns[|init|];
    }
  }

  lemma {:induction false} KeysOfDistinct(ns: seq<int>)
    ensures Distinct(KeysOf(ns)) && |KeysOf(ns)| <= |ns|
    ensures KeysOf(ns) == ns <==> Distinct(ns)
  {
    if ns != [] {
      var init, last := ns[..|ns| - 1], ns[|ns| - 1];
      KeysOfDistinct(init);
      assert ns == init + [last];
      DistinctSnoc(init, last);
      DistinctSnoc(KeysOf(init), last);
      if last !in init && KeysOf(ns) == ns {
        assert KeysOf(init) == ns[..|ns| - 1];
      }
    }
  }

  lemma {:induction false} TableOfDistinct(ns: seq<int>)
    requires Distinct(ns)
    ensures forall n :: n in TableOf(ns) <==> n in ns
    ensures forall i | 0 <= i < |ns| :: TableOf(ns)[ns[i]] == i
  {
    if ns != [] {
      var init, last := ns[..|ns| - 1], ns[|ns| - 1];
      TableOfDistinct(init);
      assert ns == init + [last];
      forall i | 0 <= i < |ns| ensures ns[i] in TableOf(ns) && TableOf(ns)[ns[i]] == i {
        if i < |init| {
          assert init[i] == ns[i];
        }
      }
    }
  }

  /** Recording an index and reading it back gives it again, except for lists with repetitions, and for lists of
      one element, which come back as that element. */
  lemma RecordedIndex(g: Index)
    ensures IndexOf(MapOf(g)) == g <==> (g.Ints? ==> Distinct(g.ns) && |g.ns| != 1)
  {
    if g.Ints? {
      KeysOfDistinct(g.ns);
    }
  }

  // ---- map_local_slices ----

  /** `_map_int_with_int_map` or `_map_int_with_slice`. */
  function Find(m: AxisMap, n: int): Option<int>
    requires SimpleMap(m)
  {
    match m
    case Dict(_, table) => if n in table then Some(table[n]) else None
    case Span(t) => MapInt(n, t)
  }

  /** Each position in turn, or `None` if some position is not found. */
  function FindAll(m: AxisMap, ns: seq<int>): Option<seq<int>>
    requires SimpleMap(m)
  {
    if ns == [] then Some([])
    else
      match (Find(m, ns[0]), FindAll(m, ns[1..]))
      case (Some(l), Some(rest)) => Some([l] + rest)
      case _ => None
  }

  lemma {:induction false} FindAllEach(m: AxisMap, ns: seq<int>)
    requires SimpleMap(m)
    ensures FindAll(m, ns).Some? <==> forall i | 0 <= i < |ns| :: Find(m, ns[i]).Some?
    ensures FindAll(m, ns).Some? ==>
              |FindAll(m, ns).value| == |ns| && forall i | 0 <= i < |ns| ::
                  Find(m, ns[i]) == Some(FindAll(m, ns).value[i])
  {
    if ns != [] {
      FindAllEach(m, ns[1..]);
      assert forall i | 0 < i < |ns| :: ns[i] == ns[1..][i - 1];
      assert forall i | 0 <= i < |ns| - 1 :: ns[1..][i] == ns[i + 1];
    }
  }

  function Elements(s: Slice): (ns: seq<int>)
    requires Positive(s)
    ensures |ns| == Count(s)
  {
    seq(Count(s), i requires 0 <= i < Count(s) => Nth(s, i))
  }

  /** One axis: not in this subarray, an axis the subarray does not have, or a local index. */
  datatype AxisResult = Missing | Skipped | Local(index: Index)

  function Found(n: Option<int>): AxisResult {
    if n.Some? then Local(At(n.value)) else Missing
  }

  function FoundAll(ns: Option<seq<int>>): AxisResult {
    if ns.Some? then Local(Ints(ns.value)) else Missing
  }

  function MapAxis(m: Option<AxisMap>, g: Index): AxisResult
    requires Simple(g) && (m.Some? ==> SimpleMap(m.value))
  {
    if m.None? then Local(g)
    else if m.value.Dict? && |m.value.keys| == 1 then
      if g == At(m.value.keys[0]) then Skipped else Missing
    else
      match g
      case At(n) => Found(Find(m.value, n))
      case Ints(ns) => FoundAll(FindAll(m.value, ns))
      case Range(s) =>
        if m.value.Dict? then FoundAll(FindAll(m.value, Elements(s)))
        else var l := MapSlice(s, m.value.slice); if l.Some? then Local(Range(l.value)) else Missing
  }

  /** A list of one index, and one with a repetition. The first is then not found by itself: the axis was recorded
      as an integer's. */
  lemma RecordedListsChange()
    ensures IndexOf(MapOf(Ints([3]))) == At(3) && IndexOf(MapOf(Ints([3, 5, 3]))) == Ints([3, 5])
    ensures SimpleMap(MapOf(Ints([3]))) && MapAxis(Some(MapOf(Ints([3]))), Ints([3])) == Missing
  {
    var two, three := [3, 5], [3, 5, 3];
    assert [3][..0] == [] && two[..1] == [3] && three[..2] == two;
    assert KeysOf([3]) == [3] && KeysOf(two) == [3, 5];
  }

  /** In general, a list is not found in the subarray it cut out exactly when it has one element; other indexes are
      found or skipped. */
  lemma ListNotFound(g: Index)
    requires Simple(g) && (g.Ints? ==> Distinct(g.ns)) && !g.Range?
    ensures SimpleMap(MapOf(g)) && (MapAxis(Some(MapOf(g)), g) == Missing <==> g.Ints? && |g.ns| == 1)
  {
    if g.Ints? {
      KeysOfDistinct(g.ns);
      TableOfDistinct(g.ns);
      FindAllEach(MapOf(g), g.ns);
    }
  }

  ghost predicate AllSimple(g: seq<Index>) {
    forall i | 0 <= i < |g| :: Simple(g[i])
  }

  ghost predicate AllSimpleMaps(maps: seq<AxisMap>) {
    forall i | 0 <= i < |maps| :: SimpleMap(maps[i])
  }

  function Rest<T>(s: seq<T>): seq<T> {
    if s == [] then [] else s[1..]
  }

  function First<T>(s: seq<T>): Option<T> {
    if s == [] then None else Some(s[0])
  }

  /** One subarray: every axis of the index in turn. Axes the map does not mention are the full array's. */
  ghost function MapAxes(maps: seq<AxisMap>, g: seq<Index>): Option<seq<Index>>
    requires AllSimple(g) && AllSimpleMaps(maps)
    decreases |g|
  {
    if g == [] then Some([])
    else
      match MapAxis(First(maps), g[0])
      case Missing => None
      case Skipped => MapAxes(Rest(maps), g[1..])
      case Local(l) =>
        Prepended([l], MapAxes(Rest(maps), g[1..]))
  }

  // ---- what an index selects ----

  function Size(g: Index): nat
    requires Simple(g)
  {
    match g
    case At(_) => 1
    case Ints(ns) => |ns|
    case Range(s) => Count(s)
  }

  function Pick(g: Index, k: int): int {
    match g
    case At(n) => n
    case Ints(ns) => if 0 <= k < |ns| then ns[k] else 0
    case Range(s) => Nth(s, k)
  }

  /** The coordinates, in the array that is indexed, of the result's element at `c`: integer axes are not in the
      result, and axes beyond the index are taken whole. */
  function Place(g: seq<Index>, c: seq<int>): seq<int>
    decreases |g|
  {
    if g == [] then c
    else if g[0].At? then [g[0].n] + Place(g[1..], c)
    else if c == [] then []
    else [Pick(g[0], c[0])] + Place(g[1..], c[1..])
  }

  /** `c` is a position of the result along the axes the index mentions. */
  ghost predicate InBounds(g: seq<Index>, c: seq<int>)
    requires AllSimple(g)
    decreases |g|
  {
    if g == [] then true
    else if g[0].At? then InBounds(g[1..], c)
    else c != [] && 0 <= c[0] < Size(g[0]) && InBounds(g[1..], c[1..])
  }

  // ---- faithfulness ----

  /** The map was recorded from a duplicate-free index. */
  ghost predicate Sound(m: AxisMap) {
    match m
    case Dict(keys, table) =>
      && (forall i | 0 <= i < |keys| :: keys[i] in table && table[keys[i]] == i)
      && (forall n | n in table :: 0 <= table[n] < |keys| && keys[table[n]] == n)
    case Span(s) => Positive(s)
  }

  lemma RecordedMapIsSound(g: Index)
    requires Simple(g) && (g.Ints? ==> Distinct(g.ns))
    ensures Sound(MapOf(g))
  {
    if g.Ints? {
      KeysOfDistinct(g.ns);
      TableOfDistinct(g.ns);
    }
  }

  /** Slices in slices are mapped right: they are not empty, and fall under the exactness condition. */
  predicate Mappable(m: Option<AxisMap>, g: Index)
    requires Simple(g)
  {
    m.Some? && m.value.Span? && g.Range? ==>
      g.slice.begin < g.slice.end && (Remainder(g.slice) == 0 || 2 * Remainder(g.slice) >= g.slice.step)
  }

  /** The local index along one axis selects what the global index does. */
  ghost predicate AxisFaithful(m: AxisMap, g: Index, l: Index)
    requires Simple(g) && Simple(IndexOf(m))
  {
    && Simple(l) && (l.At? <==> g.At?) && Size(l) == Size(g)
    && forall k | 0 <= k < Size(g) ::
         0 <= Pick(l, k) < Size(IndexOf(m)) && Pick(IndexOf(m), Pick(l, k)) == Pick(g, k)
  }

  /** What is found is the position of what was looked for. */
  lemma FindIsRight(m: AxisMap, n: int)
    requires Sound(m)
    ensures Find(m, n).Some? <==> Holds(m, n)
    ensures Find(m, n).Some? ==>
              0 <= Find(m, n).value < Length(m) && Entry(m, Find(m, n).value) == n
  {
    match m
    case Dict(keys, table) =>
      if n in keys {
        var i :| 0 <= i < |keys| && keys[i] == n;
      }
    case Span(t) =>
      MapIntFails(n, t);
      if MapInt(n, t).Some? {
        MapIntFinds(n, t, MapInt(n, t).value);
      }
  }

  ghost predicate Holds(m: AxisMap, n: int)
    requires SimpleMap(m)
  {
    match m
    case Dict(keys, _) => n in keys
    case Span(t) => Contains(t, n)
  }

  /** The subarray's length along the axis, and the full array's position of its `k`-th entry. */
  function Length(m: AxisMap): nat
    requires SimpleMap(m)
  {
    match m
    case Dict(keys, _) => |keys|
    case Span(t) => Count(t)
  }

  function Entry(m: AxisMap, k: int): int {
    match m
    case Dict(keys, _) => if 0 <= k < |keys| then keys[k] else 0
    case Span(t) => Nth(t, k)
  }

  lemma FindAllIsRight(m: AxisMap, ns: seq<int>)
    requires Sound(m)
    ensures FindAll(m, ns).Some? <==> forall i | 0 <= i < |ns| :: Holds(m, ns[i])
    ensures FindAll(m, ns).Some? ==>
              var ls := FindAll(m, ns).value;
              |ls| == |ns| && forall i | 0 <= i < |ns| :: 0 <= ls[i] < Length(m) && Entry(m, ls[i]) == ns[i]
  {
    FindAllEach(m, ns);
    forall i | 0 <= i < |ns|
      ensures Find(m, ns[i]).Some? <==> Holds(m, ns[i])
      ensures Find(m, ns[i]).Some? ==> 0 <= Find(m, ns[i]).value < Length(m) && Entry(m, Find(m, ns[i]).value) == ns[i]
    {
      FindIsRight(m, ns[i]);
    }
  }

  lemma HeadFaithful(m: AxisMap, g: Index)
    requires Simple(g) && Sound(m) && Mappable(Some(m), g) && MapAxis(Some(m), g).Local?
    ensures !IndexOf(m).At? && AxisFaithful(m, g, MapAxis(Some(m), g).index)
  {
    match g
    case At(n) => FindIsRight(m, n);
    case Ints(ns) => FindAllIsRight(m, ns);
    case Range(s) =>
      if m.Dict? {
        FindAllIsRight(m, Elements(s));
      } else {
        SliceInSlice(s, m.slice);
      }
  }

  ghost predicate AllSound(maps: seq<AxisMap>) {
    forall i | 0 <= i < |maps| :: Sound(maps[i])
  }

  ghost predicate AllMappable(maps: seq<AxisMap>, g: seq<Index>)
    requires AllSimple(g)
  {
    forall i | 0 <= i < |g| && i < |maps| :: Mappable(Some(maps[i]), g[i])
  }

  lemma SoundIsSimple(maps: seq<AxisMap>)
    requires AllSound(maps)
    ensures AllSimpleMaps(maps) && AllSimple(IndexesOf(maps))
  {
    forall i | 0 <= i < |maps| ensures SimpleMap(maps[i]) && Simple(IndexesOf(maps)[i]) {
      assert Sound(maps[i]);
    }
  }

  /** Indexing the subarray cut out by `view` with `l` gives at `c` the element that `g` selects from the full array. */
  ghost predicate SameElement(view: seq<Index>, g: seq<Index>, l: seq<Index>, c: seq<int>) {
    && AllSimple(view) && AllSimple(l)
    && InBounds(l, c) && InBounds(view, Place(l, c))
    && Place(view, Place(l, c)) == Place(g, c)
  }

  lemma SkippedAxis(view: seq<Index>, g: seq<Index>, l: seq<Index>, c: seq<int>)
    requires view != [] && g != [] && view[0] == g[0] && g[0].At?
    ensures SameElement(view, g, l, c) <==> SameElement(view[1..], g[1..], l, c)
  {
    if AllSimple(view[1..]) {
      forall i | 0 <= i < |view| ensures Simple(view[i]) {
        assert i > 0 ==> view[i] == view[1..][i - 1];
      }
    }
    if AllSimple(view) && AllSimple(l) {
      var p := Place(l, c);
      assert Place(view, p)[1..] == Place(view[1..], p) && Place(g, c)[1..] == Place(g[1..], c);
    }
  }

  lemma WholeAxis(g: seq<Index>, rest: seq<Index>, c: seq<int>)
    requires g != [] && Simple(g[0]) && AllSimple(g) && InBounds(g, c)
    requires SameElement([], g[1..], rest, if g[0].At? then c else c[1..])
    ensures SameElement([], g, [g[0]] + rest, c)
  {
    var l := [g[0]] + rest;
    assert l[1..] == rest;
  }

  lemma MappedAxis(m: AxisMap, view: seq<Index>, g: seq<Index>, i: Index, rest: seq<Index>, c: seq<int>)
    requires g != [] && AllSimple(g) && InBounds(g, c) && Sound(m) && !IndexOf(m).At? && Simple(IndexOf(m))
    requires AxisFaithful(m, g[0], i) && AllSimple(view) && AllSimple(rest)
    ensures SameElement([IndexOf(m)] + view, g, [i] + rest, c)
            <==> SameElement(view, g[1..], rest, if g[0].At? then c else c[1..])
  {
    var l, v := [i] + rest, [IndexOf(m)] + view;
    var tail := if g[0].At? then c else c[1..];
    assert l[1..] == rest && v[1..] == view;
    var k := if g[0].At? then 0 else c[0];
    assert Pick(IndexOf(m), Pick(i, k)) == Pick(g[0], k) && 0 <= k < Size(g[0]);
    var p := Place(l, c);
    assert p == [Pick(i, k)] + Place(rest, tail) && p[1..] == Place(rest, tail);
    assert Place(v, p) == [Pick(g[0], k)] + Place(view, Place(rest, tail))
        && Place(g, c) == [Pick(g[0], k)] + Place(g[1..], tail);
    assert Place(v, p)[1..] == Place(view, Place(rest, tail)) && Place(g, c)[1..] == Place(g[1..], tail);
  }

  /** The theorem: indexing the subarray with the local index, and looking up where the subarray's elements come
      from, is indexing the full array. `c` is any element of the result. */
  lemma {:induction false} LookupIsFaithful(maps: seq<AxisMap>, g: seq<Index>, c: seq<int>)
    requires |maps| <= |g| && AllSimple(g) && AllSound(maps) && AllMappable(maps, g) && InBounds(g, c)
    requires AllSimpleMaps(maps) && MapAxes(maps, g).Some?
    ensures SameElement(IndexesOf(maps), g, MapAxes(maps, g).value, c)
    decreases |g|
  {
    SoundIsSimple(maps);
    if g != [] {
      LookupIsFaithful(Rest(maps), g[1..], if g[0].At? then c else c[1..]);
      var l, rest := MapAxes(maps, g).value, MapAxes(Rest(maps), g[1..]).value;
      if maps == [] {
        WholeAxis(g, rest, c);
        assert IndexesOf(maps) == IndexesOf(Rest(maps)) == [];
      } else {
        assert IndexesOf(maps) == [IndexOf(maps[0])] + IndexesOf(Rest(maps));
        match MapAxis(Some(maps[0]), g[0])
        case Skipped =>
          assert IndexesOf(maps)[1..] == IndexesOf(Rest(maps));
          SkippedAxis(IndexesOf(maps), g, rest, c);
        case Local(i) =>
          HeadFaithful(maps[0], g[0]);
          MappedAxis(maps[0], IndexesOf(Rest(maps)), g, i, rest, c);
      }
    }
  }

  /** The coordinates of a result along the axes after those the index mentions. */
  function Beyond(g: seq<Index>, c: seq<int>): seq<int>
    decreases |g|
  {
    if g == [] then c else Beyond(g[1..], if g[0].At? then c else Rest(c))
  }

  /** `c` are positions along the subarray's axes, none of which was dropped. */
  ghost predicate Within(maps: seq<AxisMap>, c: seq<int>)
    requires AllSimpleMaps(maps)
  {
    |maps| <= |c| && forall i | 0 <= i < |maps| :: !IndexOf(maps[i]).At? && 0 <= c[i] < Length(maps[i])
  }

  ghost predicate SameNumbers(maps: seq<AxisMap>, c: seq<int>)
    requires |maps| <= |c|
  {
    forall i | 0 <= i < |maps| :: Entry(maps[i], c[i]) == c[i]
  }

  lemma {:induction false} WholeAxesPlace(maps: seq<AxisMap>, c: seq<int>)
    requires AllSound(maps) && AllSimpleMaps(maps) && Within(maps, c)
    ensures AllSimple(IndexesOf(maps)) && InBounds(IndexesOf(maps), c)
    ensures Place(IndexesOf(maps), c) == c <==> SameNumbers(maps, c)
    decreases |maps|
  {
    SoundIsSimple(maps);
    if maps != [] {
      WholeAxesPlace(maps[1..], c[1..]);
      assert IndexesOf(maps) == [IndexOf(maps[0])] + IndexesOf(maps[1..]);
      assert IndexesOf(maps)[1..] == IndexesOf(maps[1..]);
      assert !IndexOf(maps[0]).At? && 0 <= c[0] < Length(maps[0]);
      var rest := Place(IndexesOf(maps[1..]), c[1..]);
      assert Place(IndexesOf(maps), c) == [Entry(maps[0], c[0])] + rest && c == [c[0]] + c[1..];
      assert ([Entry(maps[0], c[0])] + rest)[1..] == rest;
      NumbersSnoc(maps, c);
    }
  }

  lemma NumbersSnoc(maps: seq<AxisMap>, c: seq<int>)
    requires 0 < |maps| <= |c|
    ensures SameNumbers(maps, c) <==> Entry(maps[0], c[0]) == c[0] && SameNumbers(maps[1..], c[1..])
  {
    if SameNumbers(maps[1..], c[1..]) && Entry(maps[0], c[0]) == c[0] {
      forall i | 0 <= i < |maps| ensures Entry(maps[i], c[i]) == c[i] {
        assert i > 0 ==> maps[i] == maps[1..][i - 1] && c[i] == c[1..][i - 1];
      }
    }
    if SameNumbers(maps, c) {
      forall i | 0 <= i < |maps| - 1 ensures Entry(maps[1..][i], c[1..][i]) == c[1..][i] {
        assert maps[i + 1] == maps[1..][i] && c[i + 1] == c[1..][i];
      }
    }
  }

  /** The rank condition matters: an index that stops before the subarray's last axes is accepted, and reads an
      entry's number in the subarray there as its number in the full array. It is right exactly where the two
      numbers agree, on every axis the index leaves out. */
  lemma {:induction false} ShortIndex(maps: seq<AxisMap>, g: seq<Index>, c: seq<int>)
    requires |g| <= |maps| && AllSimple(g) && AllSound(maps) && AllMappable(maps, g) && InBounds(g, c)
    requires AllSimpleMaps(maps) && MapAxes(maps, g).Some? && Within(maps[|g|..], Beyond(g, c))
    ensures SameElement(IndexesOf(maps), g, MapAxes(maps, g).value, c) <==> SameNumbers(maps[|g|..], Beyond(g, c))
    decreases |g|
  {
    if g == [] {
      assert maps[0..] == maps;
      WholeAxesPlace(maps, c);
    } else {
      assert maps[|g|..] == maps[1..][|g[1..]|..];
      ShortIndex(maps[1..], g[1..], if g[0].At? then c else c[1..]);
      FirstAxis(maps, g, c);
    }
  }

  /** Whether the first axis is skipped or mapped, what matters is the others. */
  lemma FirstAxis(maps: seq<AxisMap>, g: seq<Index>, c: seq<int>)
    requires 0 < |g| <= |maps| && AllSimple(g) && AllSound(maps) && AllMappable(maps, g) && InBounds(g, c)
    requires AllSimpleMaps(maps) && AllSimple(g[1..]) && AllSimpleMaps(maps[1..]) && MapAxes(maps, g).Some?
    ensures MapAxes(maps[1..], g[1..]).Some?
    ensures SameElement(IndexesOf(maps), g, MapAxes(maps, g).value, c)
            <==> SameElement(IndexesOf(maps[1..]), g[1..], MapAxes(maps[1..], g[1..]).value, if g[0].At? then c
                else c[1..])
  {
    LocalIsSimple(maps[1..], g[1..]);
    SoundIsSimple(maps[1..]);
    var rest := MapAxes(maps[1..], g[1..]).value;
    match MapAxis(Some(maps[0]), g[0])
    case Skipped =>
      SkippedFirst(maps, g, rest, c);
    case Local(i) =>
      HeadFaithful(maps[0], g[0]);
      MappedFirst(maps, g, i, rest, c);
  }

  lemma SkippedFirst(maps: seq<AxisMap>, g: seq<Index>, rest: seq<Index>, c: seq<int>)
    requires 0 < |g| <= |maps| && SimpleMap(maps[0]) && Simple(g[0]) && MapAxis(Some(maps[0]), g[0]).Skipped?
    ensures g[0].At?
    ensures SameElement(IndexesOf(maps), g, rest, c) <==> SameElement(IndexesOf(maps[1..]), g[1..], rest, c)
  {
    assert IndexesOf(maps)[1..] == IndexesOf(maps[1..]);
    SkippedAxis(IndexesOf(maps), g, rest, c);
  }

  lemma MappedFirst(maps: seq<AxisMap>, g: seq<Index>, i: Index, rest: seq<Index>, c: seq<int>)
    requires 0 < |g| <= |maps| && AllSimple(g) && InBounds(g, c) && Sound(maps[0]) && !IndexOf(maps[0]).At?
    requires Simple(IndexOf(maps[0])) && AxisFaithful(maps[0], g[0], i) && AllSimple(IndexesOf(maps[1..]))
    requires AllSimple(rest)
    ensures SameElement(IndexesOf(maps), g, [i] + rest, c)
            <==> SameElement(IndexesOf(maps[1..]), g[1..], rest, if g[0].At? then c else c[1..])
  {
    assert IndexesOf(maps) == [IndexOf(maps[0])] + IndexesOf(maps[1..]);
    MappedAxis(maps[0], IndexesOf(maps[1..]), g, i, rest, c);
  }

  /** Entry 0 of the rows 1 and 2 is row 1. */
  lemma ShortIndexReadsAnotherRow()
    ensures var rows := Span(Slice(1, 3, 1));
            && AllSimpleMaps([rows]) && MapAxes([rows], []) == Some([])
            && Place(IndexesOf([rows]), [0]) == [1] && Place([], [0]) == [0]
  {
    var view := IndexesOf([Span(Slice(1, 3, 1))]);
    assert view == [Range(Slice(1, 3, 1))] && view[1..] == [] && [0][1..] == [];
    assert Place(view, [0]) == [Pick(view[0], 0)] + Place([], []);
  }

  lemma {:induction false} LocalIsSimple(maps: seq<AxisMap>, g: seq<Index>)
    requires AllSimple(g) && AllSound(maps) && AllSimpleMaps(maps) && AllMappable(maps, g) && MapAxes(maps, g).Some?
    ensures AllSimple(MapAxes(maps, g).value)
    decreases |g|
  {
    if g != [] {
      LocalIsSimple(Rest(maps), g[1..]);
      if maps != [] && MapAxis(Some(maps[0]), g[0]).Local? {
        HeadFaithful(maps[0], g[0]);
      }
    }
  }

  /** An axis that the subarray has is missing exactly when some selected position is not the subarray's. A slice
      in a slice must be exact and have two elements for that. */
  lemma MissingMeansOutside(m: AxisMap, g: Index)
    requires Simple(g) && Sound(m) && !IndexOf(m).At?
    requires m.Span? && g.Range? ==> Count(g.slice) >= 2 && Exact(g.slice)
    ensures MapAxis(Some(m), g).Missing? <==> exists k :: 0 <= k < Size(g) && !Holds(m, Pick(g, k))
  {
    match g
    case At(n) =>
      FindIsRight(m, n);
      assert Pick(g, 0) == n;
    case Ints(ns) =>
      FindAllIsRight(m, ns);
      assert forall k | 0 <= k < |ns| :: Pick(g, k) == ns[k];
    case Range(s) =>
      if m.Dict? {
        FindAllIsRight(m, Elements(s));
        assert forall k | 0 <= k < Size(g) :: Pick(g, k) == Elements(s)[k];
      } else {
        RejectsNonSubsets(s, m.slice);
        assert forall k | 0 <= k < Size(g) :: Holds(m, Pick(g, k)) <==> Contains(m.slice, Nth(s, k));
      }
  }

  /** The subarray has all that the index asks for along one axis: its integer, if an integer cut it out, and otherwise
      every selected position. */
  ghost predicate HasAxis(m: AxisMap, g: Index)
    requires Simple(g) && SimpleMap(m)
  {
    if IndexOf(m).At? then g == IndexOf(m) else forall k | 0 <= k < Size(g) :: Holds(m, Pick(g, k))
  }

  /** The same along every axis that both the subarray's map and the index mention. */
  ghost predicate HasAll(maps: seq<AxisMap>, g: seq<Index>)
    requires AllSimple(g) && AllSimpleMaps(maps)
  {
    forall i | 0 <= i < |maps| && i < |g| :: HasAxis(maps[i], g[i])
  }

  /** Maps recorded from duplicate-free indexes, and slices in slices that are compared right. */
  ghost predicate AllCompared(maps: seq<AxisMap>, g: seq<Index>)
    requires AllSimple(g)
  {
    && AllSound(maps)
    && forall i | 0 <= i < |maps| && i < |g| :: maps[i].Span? && g[i].Range? ==>
         Count(g[i].slice) >= 2 && Exact(g[i].slice)
  }

  lemma HasAxisExactly(m: AxisMap, g: Index)
    requires Simple(g) && Sound(m) && (m.Span? && g.Range? ==> Count(g.slice) >= 2 && Exact(g.slice))
    ensures SimpleMap(m) && (MapAxis(Some(m), g).Missing? <==> !HasAxis(m, g))
  {
    if !IndexOf(m).At? {
      MissingMeansOutside(m, g);
    }
  }

  /** A subarray is used exactly if it has all of the index. Along axes its map does not mention it has everything. */
  lemma {:induction false} FoundExactly(maps: seq<AxisMap>, g: seq<Index>)
    requires AllSimple(g) && AllSimpleMaps(maps) && AllCompared(maps, g)
    ensures MapAxes(maps, g).Some? <==> HasAll(maps, g)
    decreases |g|
  {
    if g != [] {
      FoundExactly(Rest(maps), g[1..]);
      if maps != [] {
        HasAxisExactly(maps[0], g[0]);
        HasAllRest(maps, g);
      }
    }
  }

  ghost predicate EachCompared(subarrays: seq<seq<AxisMap>>, g: seq<Index>)
    requires AllSimple(g)
  {
    forall k | 0 <= k < |subarrays| :: AllCompared(subarrays[k], g)
  }

  lemma FirstFound(subarrays: seq<seq<AxisMap>>, g: seq<Index>, n: nat)
    requires AllSimple(g) && n <= |subarrays| && forall k | 0 <= k < |subarrays| :: AllSimpleMaps(subarrays[k])
    requires forall k | 0 <= k < n :: MapAxes(subarrays[k], g).None?
    requires n < |subarrays| ==> MapAxes(subarrays[n], g).Some?
    ensures EachCompared(subarrays, g) ==> n < |subarrays| ==> HasAll(subarrays[n], g)
    ensures EachCompared(subarrays, g) ==> forall k | 0 <= k < n :: !HasAll(subarrays[k], g)
  {
    forall k | 0 <= k < |subarrays| && EachCompared(subarrays, g)
      ensures MapAxes(subarrays[k], g).Some? <==> HasAll(subarrays[k], g)
    {
      FoundExactly(subarrays[k], g);
    }
  }

  lemma HasAllRest(maps: seq<AxisMap>, g: seq<Index>)
    requires AllSimple(g) && AllSimpleMaps(maps) && maps != [] && g != []
    ensures AllSimple(g[1..]) && AllSimpleMaps(maps[1..])
    ensures HasAll(maps, g) <==> HasAxis(maps[0], g[0]) && HasAll(maps[1..], g[1..])
  {
    assert forall i | 0 < i < |maps| && i < |g| :: maps[i] == maps[1..][i - 1] && g[i] == g[1..][i - 1];
    assert forall i | 0 <= i < |maps| - 1 && i < |g| - 1 :: maps[1..][i] == maps[i + 1] && g[1..][i] == g[i + 1];
  }

  // ---- the buffer's index maps ----

  class IndicesMap {
    const rank: nat
    var maps: map<int, Option<seq<seq<AxisMap>>>>

    constructor (rank: nat, devices: set<int>)
      ensures this.rank == rank && maps == map d | d in devices :: None
    {
      this.rank := rank;
      maps := map d | d in devices :: None;
    }

    /** `{ns[i]: i for i in range(len(ns))}`. */
    method TableFrom(ns: seq<int>) returns (m: AxisMap)
      ensures m == MapOf(Ints(ns))
    {
      var keys: seq<int> := [];
      var table: map<int, int> := map[];
      for i := 0 to |ns|
        invariant keys == KeysOf(ns[..i]) && table == TableOf(ns[..i])
      {
        assert ns[..i + 1][..i] == ns[..i];
        if ns[i] !in keys {
          keys := keys + [ns[i]];
        }
        table := table[ns[i] := i];
      }
      assert ns[..|ns|] == ns;
      return Dict(keys, table);
    }

    /** Record an index at a device. It fails when the index has more entries than the array has axes. */
    method SetSlicesMapping(d: int, g: seq<Index>) returns (ok: bool)
      requires d in maps
      modifies this
      ensures ok <==> |g| <= rank
      ensures !ok ==> maps == old(maps)
      ensures ok ==> d in maps && maps[d].Some? && |maps[d].value| > 0
                     && maps == old(maps)[d := maps[d]]
                     && maps[d].value[..|maps[d].value| - 1] == (if old(maps[d]).Some? then old(maps[d]).value else [])
                     && var added := maps[d].value[|maps[d].value| - 1];
                        |added| == |g| && forall i | 0 <= i < |g| :: added[i] == MapOf(g[i])
    {
      if rank < |g| {
        return false;
      }
      var added: seq<AxisMap> := [];
      for i := 0 to |g|
        invariant maps == old(maps)
        invariant |added| == i && forall j | 0 <= j < i :: added[j] == MapOf(g[j])
      {
        match g[i] {
          case At(n) => added := added + [Dict([n], map[n := 0])];
          case Ints(ns) =>
            var m := TableFrom(ns);
            added := added + [m];
          case Range(s) => added := added + [Span(s)];
        }
      }
      var held := if maps[d].Some? then maps[d].value else [];
      maps := maps[d := Some(held + [added])];
      return true;
    }

    /** The slices a subarray was cut out with; `k == -1` asks for the newest. */
    method GetGlobalSlices(d: int, k: int) returns (r: Option<seq<Index>>)
      requires d in maps && (maps[d].Some? ==> -1 <= k < |maps[d].value| && |maps[d].value| > 0)
      ensures maps[d].None? ==> r.None?
      ensures maps[d].Some? ==>
                r == Some(IndexesOf(maps[d].value[if k == -1 then |maps[d].value| - 1 else k]))
    {
      if maps[d].None? {
        return None;
      }
      var axes := maps[d].value[if k == -1 then |maps[d].value| - 1 else k];
      var slices: seq<Index> := [];
      for i := 0 to |axes|
        invariant |slices| == i && forall j | 0 <= j < i :: slices[j] == IndexOf(axes[j])
      {
        match axes[i] {
          case Dict(keys, _) => slices := slices + [if |keys| == 1 then At(keys[0]) else Ints(keys)];
          case Span(s) => slices := slices + [Range(s)];
        }
      }
      assert slices == IndexesOf(axes);
      return Some(slices);
    }

    /** `map_local_slices`: the first subarray that has all of the index, and the index into it. It fails when no
        subarray has, or when the index has more entries than the array has axes. */
    method MapLocalSlices(d: int, g: seq<Index>) returns (r: Option<(nat, seq<Index>)>)
      requires d in maps && maps[d].Some? && |maps[d].value| > 0
      requires AllSimple(g) && forall k | 0 <= k < |maps[d].value| :: AllSimpleMaps(maps[d].value[k])
      ensures r.Some? ==>
                && |g| <= rank && r.value.0 < |maps[d].value|
                && MapAxes(maps[d].value[r.value.0], g) == Some(r.value.1)
                && forall j | 0 <= j < r.value.0 :: MapAxes(maps[d].value[j], g).None?
      ensures r.None? <==> |g| > rank || forall k | 0 <= k < |maps[d].value| :: MapAxes(maps[d].value[k], g).None?
      ensures EachCompared(maps[d].value, g) ==>
                && (r.None? <==> |g| > rank || forall k | 0 <= k < |maps[d].value| :: !HasAll(maps[d].value[k], g))
                && (r.Some? ==> HasAll(maps[d].value[r.value.0], g)
                                && forall j | 0 <= j < r.value.0 :: !HasAll(maps[d].value[j], g))
    {
      if rank < |g| {
        return None;
      }
      var subarrays := maps[d].value;
      for k := 0 to |subarrays|
        invariant forall j | 0 <= j < k :: MapAxes(subarrays[j], g).None?
      {
        var local := MapOne(subarrays[k], g);
        if local.Some? {
          FirstFound(subarrays, g, k);
          return Some((k, local.value));
        }
      }
      FirstFound(subarrays, g, |subarrays|);
      return None;
    }

    /** The loop over the entries of the index, for one subarray. */
    method MapOne(axes: seq<AxisMap>, g: seq<Index>) returns (local: Option<seq<Index>>)
      requires AllSimple(g) && AllSimpleMaps(axes)
      ensures local == MapAxes(axes, g)
    {
      local := Some([]);
      var a := 0;
      assert After(axes, 0) == axes && g[0..] == g;
      assert MapAxes(axes, g).Some? ==> [] + MapAxes(axes, g).value == MapAxes(axes, g).value;
      while a < |g| && local.Some?
        invariant 0 <= a <= |g|
        invariant local.None? ==> MapAxes(axes, g).None?
        invariant local.Some? ==> MapAxes(axes, g) == Prepended(local.value, MapAxes(After(axes, a), g[a..]))
      {
        PrependedOne(local.value, MapAxes(Rest(After(axes, a)), g[a..][1..]));
        assert First(After(axes, a)) == if a < |axes| then Some(axes[a]) else None;
        assert Rest(After(axes, a)) == After(axes, a + 1) && g[a..][1..] == g[a + 1..];
        match MapAxis(if a < |axes| then Some(axes[a]) else None, g[a]) {
          case Missing => local := None;
          case Skipped =>
          case Local(l) => local := Some(local.value + [l]);
        }
        a := a + 1;
      }
      if local.Some? {
        assert g[a..] == [] && local.value + [] == local.value;
      }
    }
  }

  lemma PrependedOne(first: seq<Index>, rest: Option<seq<Index>>)
    ensures Prepended(first, None) == None
    ensures forall l :: Prepended(first, Prepended([l], rest)) == Prepended(first + [l], rest)
  {
    if rest.Some? {
      forall l ensures first + ([l] + rest.value) == first + [l] + rest.value {}
    }
  }

  function After<T>(s: seq<T>, a: nat): seq<T> {
    if a <= |s| then s[a..] else []
  }

  function Prepended(first: seq<Index>, rest: Option<seq<Index>>): Option<seq<Index>> {
    if rest.Some? then Some(first + rest.value) else None
  }
}
