/**
 The work order of the wavefront sweep in `examples/sweeps/sweeps_numba_sgpu.py`: index packing, the loops that
 fill the list of work items, and the upstream neighbours a work item waits for.

 Machine integers are modelled as unbounded ones.
 */
module Sweep {
  import opened Arithmetic

  /** A direction component, as far as the program looks at it: `np.signbit`, and whether it is less than zero.
      They differ for a negative zero and for a NaN with the sign bit set. */
  datatype Component = Component(signbit: bool, belowZero: bool)

  datatype Direction = Direction(x: Component, y: Component, z: Component)

  datatype Cell = Cell(x: int, y: int, z: int, d: int)

  datatype Grid = Grid(nx: nat, ny: nat, nz: nat, directions: seq<Direction>)

  predicate InGrid(g: Grid, c: Cell) {
    0 <= c.x < g.nx && 0 <= c.y < g.ny && 0 <= c.z < g.nz && 0 <= c.d < |g.directions|
  }

  function Total(g: Grid): int {
    g.nx * g.ny * g.nz * |g.directions|
  }

  // ---- ravel_4d_index and unravel_4d_index ----

  function Ravel(n0: int, n1: int, n2: int, n3: int, i0: int, i1: int, i2: int, i3: int): int {
    i3 + i2 * n3 + i1 * n2 * n3 + i0 * n1 * n2 * n3
  }

  function Unravel(n0: int, n1: int, n2: int, n3: int, ix: int): (int, int, int, int)
    requires n0 > 0 && n1 > 0 && n2 > 0 && n3 > 0
  {
    var d2 := ix / n3;
    var d1 := d2 / n2;
    var d0 := d1 / n1;
    (d0 % n0, d1 % n1, d2 % n2, ix % n3)
  }

  /** The packing, one index at a time. */
  lemma RavelNested(n0: int, n1: int, n2: int, n3: int, i0: int, i1: int, i2: int, i3: int)
    ensures Ravel(n0, n1, n2, n3, i0, i1, i2, i3) == i3 + (i2 + (i1 + i0 * n1) * n2) * n3
  {
    assert (i1 + i0 * n1) * n2 == i1 * n2 + i0 * n1 * n2;
    assert (i2 + (i1 + i0 * n1) * n2) * n3 == i2 * n3 + (i1 * n2 + i0 * n1 * n2) * n3;
  }

  lemma UnravelSteps(n0: int, n1: int, n2: int, n3: int, ix: int)
    requires n0 > 0 && n1 > 0 && n2 > 0 && n3 > 0
    ensures Unravel(n0, n1, n2, n3, ix) == (ix / n3 / n2 / n1 % n0, ix / n3 / n2 % n1, ix / n3 % n2, ix % n3)
  {
  }

  lemma UnravelRavel(n0: int, n1: int, n2: int, n3: int, i0: int, i1: int, i2: int, i3: int)
    requires 0 <= i0 < n0 && 0 <= i1 < n1 && 0 <= i2 < n2 && 0 <= i3 < n3
    ensures Unravel(n0, n1, n2, n3, Ravel(n0, n1, n2, n3, i0, i1, i2, i3)) == (i0, i1, i2, i3)
    ensures 0 <= Ravel(n0, n1, n2, n3, i0, i1, i2, i3) < n0 * n1 * n2 * n3
  {
    var a := i1 + i0 * n1;
    var b := i2 + a * n2;
    var ix := Ravel(n0, n1, n2, n3, i0, i1, i2, i3);
    assert ix == i3 + b * n3 by {
      RavelNested(n0, n1, n2, n3, i0, i1, i2, i3);
    }
    assert ix / n3 == b && ix % n3 == i3 by { DivideOut(i3, b, n3); }
    assert b / n2 == a && b % n2 == i2 by { DivideOut(i2, a, n2); }
    assert a / n1 == i0 && a % n1 == i1 by { DivideOut(i1, i0, n1); }
    assert i0 % n0 == i0 by { DivideOut(i0, 0, n0); }
    UnravelSteps(n0, n1, n2, n3, ix);
    assert 0 <= a < n0 * n1 by { PackedBound(i1, i0, n1, n0); }
    assert 0 <= b < n0 * n1 * n2 by { PackedBound(i2, a, n2, n0 * n1); }
    PackedBound(i3, b, n3, n0 * n1 * n2);
  }

  lemma PackedBefore(low0: int, high0: int, low1: int, high1: int, n: int)
    requires 0 <= low0 < n && 0 <= low1 < n
    ensures low0 + high0 * n < low1 + high1 * n <==> high0 < high1 || (high0 == high1 && low0 < low1)
  {
    Monotone(high0 + 1, high1, n);
    Monotone(high1 + 1, high0, n);
    assert (high0 + 1) * n == high0 * n + n && (high1 + 1) * n == high1 * n + n;
  }

  /** Packed indices are in the order of the loops: the last index runs fastest. */
  lemma RavelIsOrdered(n0: int, n1: int, n2: int, n3: int, i0: int, i1: int, i2: int, i3: int,
                       j0: int, j1: int, j2: int, j3: int)
    requires 0 <= i0 < n0 && 0 <= i1 < n1 && 0 <= i2 < n2 && 0 <= i3 < n3
    requires 0 <= j0 < n0 && 0 <= j1 < n1 && 0 <= j2 < n2 && 0 <= j3 < n3
    ensures Ravel(n0, n1, n2, n3, i0, i1, i2, i3) < Ravel(n0, n1, n2, n3, j0, j1, j2, j3)
            <==> i0 < j0 || (i0 == j0 && (i1 < j1 || (i1 == j1 && (i2 < j2 || (i2 == j2 && i3 < j3)))))
  {
    RavelNested(n0, n1, n2, n3, i0, i1, i2, i3);
    RavelNested(n0, n1, n2, n3, j0, j1, j2, j3);
    PackedBefore(i1, i0, j1, j0, n1);
    PackedBefore(i2, i1 + i0 * n1, j2, j1 + j0 * n1, n2);
    PackedBefore(i3, i2 + (i1 + i0 * n1) * n2, j3, j2 + (j1 + j0 * n1) * n2, n3);
    assert i1 + i0 * n1 == j1 + j0 * n1 <==> i0 == j0 && i1 == j1 by {
      PackedBefore(j1, j0, i1, i0, n1);
    }
    assert i2 + (i1 + i0 * n1) * n2 == j2 + (j1 + j0 * n1) * n2 <==> i0 == j0 && i1 == j1 && i2 == j2 by {
      PackedBefore(j2, j1 + j0 * n1, i2, i1 + i0 * n1, n2);
    }
  }

  lemma RavelUnravel(n0: int, n1: int, n2: int, n3: int, ix: int)
    requires n0 > 0 && n1 > 0 && n2 > 0 && n3 > 0 && 0 <= ix < n0 * n1 * n2 * n3
    ensures var (i0, i1, i2, i3) := Unravel(n0, n1, n2, n3, ix);
            && 0 <= i0 < n0 && 0 <= i1 < n1 && 0 <= i2 < n2 && 0 <= i3 < n3
            && Ravel(n0, n1, n2, n3, i0, i1, i2, i3) == ix
  {
    var d2 := ix / n3;
    var d1 := d2 / n2;
    var d0 := d1 / n1;
    assert 0 <= d2 < n0 * n1 * n2 && ix == ix % n3 + d2 * n3 by { QuotientBound(ix, n3, n0 * n1 * n2); }
    assert 0 <= d1 < n0 * n1 && d2 == d2 % n2 + d1 * n2 by { QuotientBound(d2, n2, n0 * n1); }
    assert 0 <= d0 < n0 && d1 == d1 % n1 + d0 * n1 by { QuotientBound(d1, n1, n0); }
    assert d0 % n0 == d0 by { DivideOut(d0, 0, n0); }
    UnravelSteps(n0, n1, n2, n3, ix);
    Remainders(n0, n1, n2, n3, ix);
    assert Ravel(n0, n1, n2, n3, d0, d1 % n1, d2 % n2, ix % n3) == ix by {
      RavelNested(n0, n1, n2, n3, d0, d1 % n1, d2 % n2, ix % n3);
    }
  }

  lemma Remainders(n0: int, n1: int, n2: int, n3: int, ix: int)
    requires n0 > 0 && n1 > 0 && n2 > 0 && n3 > 0
    ensures 0 <= ix / n3 / n2 / n1 % n0 < n0 && 0 <= ix / n3 / n2 % n1 < n1 && 0 <= ix / n3 % n2 < n2
    ensures 0 <= ix % n3 < n3
  {
  }

  function Code(g: Grid, c: Cell): int {
    Ravel(g.nx, g.ny, g.nz, |g.directions|, c.x, c.y, c.z, c.d)
  }

  lemma CodeInjective(g: Grid, a: Cell, b: Cell)
    requires InGrid(g, a) && InGrid(g, b) && Code(g, a) == Code(g, b)
    ensures a == b
  {
    UnravelRavel(g.nx, g.ny, g.nz, |g.directions|, a.x, a.y, a.z, a.d);
    UnravelRavel(g.nx, g.ny, g.nz, |g.directions|, b.x, b.y, b.z, b.d);
  }

  lemma NonEmpty(g: Grid)
    requires Total(g) > 0
    ensures g.nx > 0 && g.ny > 0 && g.nz > 0 && |g.directions| > 0
  {
    assert g.nx == 0 ==> g.nx * g.ny == 0;
    assert g.ny == 0 ==> g.nx * g.ny == 0;
    assert g.nx * g.ny == 0 || g.nz == 0 ==> g.nx * g.ny * g.nz == 0;
    assert g.nx * g.ny * g.nz == 0 || |g.directions| == 0 ==> Total(g) == 0;
  }

  /** The cell a work item stands for. */
  function CellOf(g: Grid, k: int): (c: Cell)
    requires 0 <= k < Total(g)
    ensures InGrid(g, c) && Code(g, c) == k
  {
    NonEmpty(g);
    RavelUnravel(g.nx, g.ny, g.nz, |g.directions|, k);
    var (x, y, z, d) := Unravel(g.nx, g.ny, g.nz, |g.directions|, k);
    Cell(x, y, z, d)
  }

  function Cells(g: Grid, items: seq<int>): (cells: seq<Cell>)
    requires forall p | 0 <= p < |items| :: 0 <= items[p] < Total(g)
    ensures |cells| == |items| && forall p | 0 <= p < |cells| :: cells[p] == CellOf(g, items[p])
  {
    seq(|items|, p requires 0 <= p < |items| => CellOf(g, items[p]))
  }

  // ---- the order ----

  function Offset(n: int, i: int, c: Component): int {
    if c.signbit then n - i - 1 else i
  }

  /** A cell's place in the loops: wavefront, direction, and the offsets along x and y. */
  datatype Key = Key(wavefront: int, d: int, x: int, y: int)

  function KeyOf(g: Grid, c: Cell): Key
    requires InGrid(g, c)
  {
    var dir := g.directions[c.d];
    var x, y, z := Offset(g.nx, c.x, dir.x), Offset(g.ny, c.y, dir.y), Offset(g.nz, c.z, dir.z);
    Key(x + y + z, c.d, x, y)
  }

  predicate Less(a: Key, b: Key) {
    a.wavefront < b.wavefront
    || (a.wavefront == b.wavefront
        && (a.d < b.d || (a.d == b.d && (a.x < b.x || (a.x == b.x && a.y < b.y)))))
  }

  lemma KeyInjective(g: Grid, a: Cell, b: Cell)
    requires InGrid(g, a) && InGrid(g, b) && KeyOf(g, a) == KeyOf(g, b)
    ensures a == b
  {
  }

  /** The cell the innermost loop body writes. */
  function CellAt(g: Grid, k: Key): Cell
    requires 0 <= k.d < |g.directions|
  {
    var dir := g.directions[k.d];
    Cell(Offset(g.nx, k.x, dir.x), Offset(g.ny, k.y, dir.y), Offset(g.nz, k.wavefront - k.x - k.y, dir.z), k.d)
  }

  /** The cells before `k`, in order. */
  ghost predicate WrittenBefore(g: Grid, cells: seq<Cell>, k: Key) {
    && (forall p | 0 <= p < |cells| :: InGrid(g, cells[p]) && Less(KeyOf(g, cells[p]), k))
    && (forall c | InGrid(g, c) && Less(KeyOf(g, c), k) :: c in cells)
    && (forall p, q | 0 <= p < q < |cells| :: Less(KeyOf(g, cells[p]), KeyOf(g, cells[q])))
  }

  /** Between two keys that no cell's key separates, nothing needs to be written. */
  lemma NothingBetween(g: Grid, cells: seq<Cell>, k: Key, l: Key)
    requires WrittenBefore(g, cells, k)
    requires forall c | InGrid(g, c) :: Less(KeyOf(g, c), k) <==> Less(KeyOf(g, c), l)
    ensures WrittenBefore(g, cells, l)
  {
  }

  lemma WriteNext(g: Grid, cells: seq<Cell>, k: Key)
    requires WrittenBefore(g, cells, k) && 0 <= k.d < |g.directions|
    requires 0 <= k.x < g.nx && 0 <= k.y < g.ny && 0 <= k.wavefront - k.x - k.y < g.nz
    ensures InGrid(g, CellAt(g, k)) && KeyOf(g, CellAt(g, k)) == k
    ensures WrittenBefore(g, cells + [CellAt(g, k)], Key(k.wavefront, k.d, k.x, k.y + 1))
  {
    var c := CellAt(g, k);
    assert KeyOf(g, c) == k;
    forall b | InGrid(g, b) && Less(KeyOf(g, b), Key(k.wavefront, k.d, k.x, k.y + 1)) ensures b in cells + [c] {
      if !Less(KeyOf(g, b), k) {
        KeyInjective(g, b, c);
      }
    }
  }

  // ---- counting ----

  predicate Distinct(s: seq<int>) {
    forall i, j | 0 <= i < j < |s| :: s[i] != s[j]
  }

  function Without(s: seq<int>, k: int): seq<int>
    requires 0 <= k < |s|
  {
    s[..k] + s[k + 1..]
  }

  lemma WithoutKeeps(s: seq<int>, k: int)
    requires 0 <= k < |s|
    ensures |Without(s, k)| == |s| - 1
    ensures forall i | 0 <= i < |s| - 1 :: Without(s, k)[i] == s[if i < k then i else i + 1]
    ensures forall x | x in s && x != s[k] :: x in Without(s, k)
  {
    forall x | x in s && x != s[k] ensures x in Without(s, k) {
      var j :| 0 <= j < |s| && s[j] == x;
      assert Without(s, k)[if j < k then j else j - 1] == x;
    }
  }

  lemma {:induction false} AtMost(s: seq<int>, n: nat)
    requires Distinct(s) && forall i | 0 <= i < |s| :: 0 <= s[i] < n
    ensures |s| <= n
    decreases n
  {
    assert s == [] || 0 <= s[0] < n;
    if n > 0 {
      if k :| 0 <= k < |s| && s[k] == n - 1 {
        WithoutKeeps(s, k);
        AtMost(Without(s, k), n - 1);
      } else {
        AtMost(s, n - 1);
      }
    }
  }

  lemma {:induction false} AtLeast(s: seq<int>, n: nat)
    requires forall k | 0 <= k < n :: k in s
    ensures |s| >= n
    decreases n
  {
    if n > 0 {
      assert n - 1 in s;
      var i :| 0 <= i < |s| && s[i] == n - 1;
      WithoutKeeps(s, i);
      AtLeast(Without(s, i), n - 1);
    }
  }

  function Codes(g: Grid, cells: seq<Cell>): (codes: seq<int>)
    ensures |codes| == |cells|
  {
    seq(|cells|, p requires 0 <= p < |cells| => Code(g, cells[p]))
  }

  /** Cells in the order of their keys are distinct, so they fit into the array. */
  lemma FitsArray(g: Grid, cells: seq<Cell>, k: Key)
    requires WrittenBefore(g, cells, k)
    ensures |cells| <= Total(g) && Distinct(Codes(g, cells))
  {
    forall p, q | 0 <= p < q < |cells| ensures Code(g, cells[p]) != Code(g, cells[q]) {
      if Code(g, cells[p]) == Code(g, cells[q]) {
        CodeInjective(g, cells[p], cells[q]);
      }
    }
    forall p | 0 <= p < |cells| ensures 0 <= Code(g, cells[p]) < Total(g) {
      var c := cells[p];
      UnravelRavel(g.nx, g.ny, g.nz, |g.directions|, c.x, c.y, c.z, c.d);
    }
    TotalNonNegative(g);
    AtMost(Codes(g, cells), Total(g));
  }

  lemma TotalNonNegative(g: Grid)
    ensures Total(g) >= 0
  {
    assert g.nx * g.ny >= 0;
    assert g.nx * g.ny * g.nz >= 0;
  }

  // ---- generate_items ----

  function Max(a: int, b: int): int {
    if a >= b then a else b
  }

  function Min(a: int, b: int): int {
    if a <= b then a else b
  }

  lemma SkipToFirstY(g: Grid, cells: seq<Cell>, w: int, d: int, x: int)
    requires WrittenBefore(g, cells, Key(w, d, x, 0))
    ensures WrittenBefore(g, cells, Key(w, d, x, Max(0, w - x - g.nz + 1)))
  {
    NothingBetween(g, cells, Key(w, d, x, 0), Key(w, d, x, Max(0, w - x - g.nz + 1)));
  }

  lemma NextX(g: Grid, cells: seq<Cell>, w: int, d: int, x: int, y: int)
    requires WrittenBefore(g, cells, Key(w, d, x, y)) && y >= Min(w - x + 1, g.ny)
    ensures WrittenBefore(g, cells, Key(w, d, x + 1, 0))
  {
    NothingBetween(g, cells, Key(w, d, x, y), Key(w, d, x + 1, 0));
  }

  lemma NextDirection(g: Grid, cells: seq<Cell>, w: int, d: int, x: int)
    requires WrittenBefore(g, cells, Key(w, d, x, 0)) && x >= Min(w + 1, g.nx)
    ensures WrittenBefore(g, cells, Key(w, d + 1, 0, 0))
  {
    NothingBetween(g, cells, Key(w, d, x, 0), Key(w, d + 1, 0, 0));
  }

  lemma NextWavefront(g: Grid, cells: seq<Cell>, w: int)
    requires WrittenBefore(g, cells, Key(w, |g.directions|, 0, 0))
    ensures WrittenBefore(g, cells, Key(w + 1, 0, 0, 0))
  {
    NothingBetween(g, cells, Key(w, |g.directions|, 0, 0), Key(w + 1, 0, 0, 0));
  }

  /** `items` starts with the packed `cells`. */
  ghost predicate Holds(g: Grid, items: seq<int>, cells: seq<Cell>) {
    |cells| <= |items| && forall p | 0 <= p < |cells| :: items[p] == Code(g, cells[p])
  }

  /** The list holds every cell once, packed, in the order of the loops. */
  ghost predicate Complete(g: Grid, items: seq<int>) {
    && |items| == Total(g) && (forall p | 0 <= p < |items| :: 0 <= items[p] < Total(g))
    && WrittenBefore(g, Cells(g, items), Key(g.nx + g.ny + g.nz, 0, 0, 0))
  }

  /** The innermost loop body: one cell. */
  method WriteCell(g: Grid, items: array<int>, next: nat, key: Key, ghost before: seq<Cell>)
    returns (ghost cells: seq<Cell>)
    requires items.Length == Total(g) && Holds(g, items[..], before) && next == |before|
    requires WrittenBefore(g, before, key) && 0 <= key.d < |g.directions|
    requires 0 <= key.x < g.nx && 0 <= key.y < g.ny && 0 <= key.wavefront - key.x - key.y < g.nz
    modifies items
    ensures Holds(g, items[..], cells) && |cells| == next + 1
    ensures WrittenBefore(g, cells, Key(key.wavefront, key.d, key.x, key.y + 1))
  {
    var dir := g.directions[key.d];
    var ix := if dir.x.signbit then g.nx - key.x - 1 else key.x;
    var iy := if dir.y.signbit then g.ny - key.y - 1 else key.y;
    var z := key.wavefront - key.x - key.y;
    var iz := if dir.z.signbit then g.nz - z - 1 else z;
    WriteNext(g, before, key);
    cells := before + [CellAt(g, key)];
    FitsArray(g, cells, Key(key.wavefront, key.d, key.x, key.y + 1));
    items[next] := Ravel(g.nx, g.ny, g.nz, |g.directions|, ix, iy, iz, key.d);
  }

  /** The innermost loop: one line of cells. */
  method GenerateLine(g: Grid, items: array<int>, start: nat, w: int, d: int, x: int, ghost before: seq<Cell>)
    returns (next: nat, ghost cells: seq<Cell>)
    requires items.Length == Total(g) && Holds(g, items[..], before) && start == |before|
    requires 0 <= d < |g.directions| && 0 <= x < Min(w + 1, g.nx) && WrittenBefore(g, before, Key(w, d, x, 0))
    modifies items
    ensures Holds(g, items[..], cells) && next == |cells| && WrittenBefore(g, cells, Key(w, d, x + 1, 0))
  {
    var y := Max(0, w - x - g.nz + 1);
    next, cells := start, before;
    SkipToFirstY(g, cells, w, d, x);
    while y < Min(w - x + 1, g.ny)
      invariant y >= Max(0, w - x - g.nz + 1)
      invariant Holds(g, items[..], cells) && next == |cells| && WrittenBefore(g, cells, Key(w, d, x, y))
    {
      cells := WriteCell(g, items, next, Key(w, d, x, y), cells);
      next := next + 1;
      y := y + 1;
    }
    NextX(g, cells, w, d, x, y);
  }

  method GenerateItems(g: Grid) returns (items: array<int>)
    ensures Complete(g, items[..])
  {
    TotalNonNegative(g);
    items := new int[g.nx * g.ny * g.nz * |g.directions|];
    var next := 0;
    ghost var cells := [];
    for w := 0 to g.nx + g.ny + g.nz
      invariant Holds(g, items[..], cells) && next == |cells| && WrittenBefore(g, cells, Key(w, 0, 0, 0))
    {
      for d := 0 to |g.directions|
        invariant Holds(g, items[..], cells) && next == |cells| && WrittenBefore(g, cells, Key(w, d, 0, 0))
      {
        for x := 0 to Min(w + 1, g.nx)
          invariant Holds(g, items[..], cells) && next == |cells| && WrittenBefore(g, cells, Key(w, d, x, 0))
        {
          next, cells := GenerateLine(g, items, next, w, d, x, cells);
        }
        NextDirection(g, cells, w, d, Min(w + 1, g.nx));
      }
      NextWavefront(g, cells, w);
    }
    FillsArray(g, cells);
    CellsAreWritten(g, items[..], cells);
  }

  /** At the end every cell is written, so the list is full. */
  lemma FillsArray(g: Grid, cells: seq<Cell>)
    requires WrittenBefore(g, cells, Key(g.nx + g.ny + g.nz, 0, 0, 0))
    ensures |cells| == Total(g)
  {
    FitsArray(g, cells, Key(g.nx + g.ny + g.nz, 0, 0, 0));
    TotalNonNegative(g);
    forall k | 0 <= k < Total(g) ensures k in Codes(g, cells) {
      CodeIsWritten(g, cells, k);
    }
    AtLeast(Codes(g, cells), Total(g));
  }

  lemma CodeIsWritten(g: Grid, cells: seq<Cell>, k: int)
    requires WrittenBefore(g, cells, Key(g.nx + g.ny + g.nz, 0, 0, 0)) && 0 <= k < Total(g)
    ensures k in Codes(g, cells)
  {
    var c := CellOf(g, k);
    assert c in cells;
    var p :| 0 <= p < |cells| && cells[p] == c;
    assert Codes(g, cells)[p] == k;
  }

  /** The written cells can be read off the list. */
  lemma CellsAreWritten(g: Grid, items: seq<int>, cells: seq<Cell>)
    requires |items| == |cells| == Total(g) && Holds(g, items, cells)
    requires WrittenBefore(g, cells, Key(g.nx + g.ny + g.nz, 0, 0, 0))
    ensures Complete(g, items)
  {
    forall p | 0 <= p < |items| ensures 0 <= items[p] < Total(g) && CellOf(g, items[p]) == cells[p] {
      var c := cells[p];
      assert c in cells;
      UnravelRavel(g.nx, g.ny, g.nz, |g.directions|, c.x, c.y, c.z, c.d);
    }
    assert Cells(g, items) == cells;
  }

  // ---- upstream neighbours ----

  datatype Axis = X | Y | Z

  function ComponentOf(dir: Direction, axis: Axis): Component {
    match axis
    case X => dir.x
    case Y => dir.y
    case Z => dir.z
  }

  /** The neighbour a work item waits for along an axis. */
  function Upstream(g: Grid, c: Cell, axis: Axis): Cell
    requires InGrid(g, c)
  {
    var step := if ComponentOf(g.directions[c.d], axis).belowZero then 1 else -1;
    match axis
    case X => c.(x := c.x + step)
    case Y => c.(y := c.y + step)
    case Z => c.(z := c.z + step)
  }

  /** Every work item stands in the list once. */
  lemma StandsOnce(g: Grid, items: seq<int>, c: Cell) returns (p: nat)
    requires Complete(g, items) && InGrid(g, c)
    ensures p < |items| && items[p] == Code(g, c) && Cells(g, items)[p] == c
    ensures forall r | 0 <= r < |items| && items[r] == Code(g, c) :: r == p
  {
    var cells := Cells(g, items);
    assert c in cells;
    p :| 0 <= p < |cells| && cells[p] == c;
    forall r | 0 <= r < |items| && items[r] == Code(g, c) ensures r == p {
      CodeInjective(g, cells[r], c);
      OnePlace(g, cells, r, p);
    }
  }

  /** The list is in the order of wavefronts. */
  lemma InWavefronts(g: Grid, items: seq<int>, p: nat, q: nat)
    requires Complete(g, items) && p < |items| && q < |items|
    ensures InGrid(g, Cells(g, items)[p]) && InGrid(g, Cells(g, items)[q])
    ensures KeyOf(g, Cells(g, items)[p]).wavefront < KeyOf(g, Cells(g, items)[q]).wavefront ==> p < q
  {
    var cells := Cells(g, items);
    assert q < p ==> Less(KeyOf(g, cells[q]), KeyOf(g, cells[p]));
  }

  /** Each upstream neighbour that is a cell stands strictly earlier, exactly when sign bit and comparison with
      zero agree; if they do not, the neighbour stands strictly later. */
  lemma UpstreamIsEarlier(g: Grid, items: seq<int>, c: Cell, axis: Axis) returns (p: nat, q: nat)
    requires Complete(g, items) && InGrid(g, c) && InGrid(g, Upstream(g, c, axis))
    ensures p < |items| && items[p] == Code(g, c) && forall r | 0 <= r < |items| && items[r] == Code(g, c) :: r == p
    ensures q < |items| && items[q] == Code(g, Upstream(g, c, axis))
    ensures var component := ComponentOf(g.directions[c.d], axis);
            q < p <==> (component.signbit <==> component.belowZero)
    ensures q != p
  {
    p := StandsOnce(g, items, c);
    q := StandsOnce(g, items, Upstream(g, c, axis));
    UpstreamKey(g, c, axis);
    InWavefronts(g, items, p, q);
    InWavefronts(g, items, q, p);
  }

  /** Two cells along x, and a direction whose x component is a negative zero (or such a NaN). */
  function TwoCells(): (g: Grid)
    ensures Total(g) == 2
  {
    var positive := Component(false, false);
    Grid(2, 1, 1, [Direction(Component(true, false), positive, positive)])
  }

  lemma TwoCodes(i: int)
    requires 0 <= i < 2
    ensures InGrid(TwoCells(), Cell(i, 0, 0, 0)) && CellOf(TwoCells(), i) == Cell(i, 0, 0, 0)
  {
    var g := TwoCells();
    assert |g.directions| == 1 && Ravel(2, 1, 1, 1, i, 0, 0, 0) == i;
    CodeInjective(g, CellOf(g, i), Cell(i, 0, 0, 0));
  }

  lemma SecondWaitsForFirst()
    ensures InGrid(TwoCells(), Cell(1, 0, 0, 0)) && Upstream(TwoCells(), Cell(1, 0, 0, 0), X) == Cell(0, 0, 0, 0)
    ensures ComponentOf(TwoCells().directions[0], X) == Component(true, false)
  {
  }

  lemma TwoItems(g: Grid, items: seq<int>, c: Cell, axis: Axis)
    requires Complete(g, items) && Total(g) == 2 && InGrid(g, c) && InGrid(g, Upstream(g, c, axis))
    requires Code(g, c) == 1 && Code(g, Upstream(g, c, axis)) == 0
    requires var component := ComponentOf(g.directions[c.d], axis); component.signbit != component.belowZero
    ensures items == [1, 0]
  {
    var p, q := UpstreamIsEarlier(g, items, c, axis);
    assert p < q < |items| == 2;
  }

  /** The second cell's work item comes first, and waits for the first cell's. */
  lemma NegativeZeroWaitsForLater(items: seq<int>)
    requires Complete(TwoCells(), items)
    ensures items == [1, 0] && Upstream(TwoCells(), CellOf(TwoCells(), 1), X) == CellOf(TwoCells(), 0)
  {
    TwoCodes(0);
    TwoCodes(1);
    SecondWaitsForFirst();
    TwoItems(TwoCells(), items, Cell(1, 0, 0, 0), X);
  }

  lemma OnePlace(g: Grid, cells: seq<Cell>, r: nat, p: nat)
    requires r < |cells| && p < |cells| && cells[r] == cells[p]
    requires WrittenBefore(g, cells, Key(g.nx + g.ny + g.nz, 0, 0, 0))
    ensures r == p
  {
  }

  lemma UpstreamKey(g: Grid, c: Cell, axis: Axis)
    requires InGrid(g, c) && InGrid(g, Upstream(g, c, axis))
    ensures var component := ComponentOf(g.directions[c.d], axis);
            KeyOf(g, Upstream(g, c, axis)).wavefront
            == KeyOf(g, c).wavefront + if component.signbit == component.belowZero then -1 else 1
  {
  }
}
