/**
 The task graph of `examples/cholesky/blocked_cholesky_cpu.py`: which blocks each task reads and writes, its declared
 dependencies, and the values it computes, over abstract kernels.
 */
module Cholesky {

  /** The spawned tasks, named as in the program. */
  datatype Task =
    | Syrk(j: nat, k: nat)
    | Subcholesky(j: nat)
    | Gemm(i: nat, j: nat, k: nat)
    | Solve(i: nat, j: nat)

  predicate IsTask(t: Task, n: nat) {
    match t
    case Syrk(j, k) => k < j < n
    case Subcholesky(j) => j < n
    case Gemm(i, j, k) => k < j < i < n
    case Solve(i, j) => j < i < n
  }

  function Syrks(j: nat, k: nat): (ts: seq<Task>)
    ensures |ts| == k
  {
    seq(k, m requires 0 <= m < k => Syrk(j, m))
  }

  function Gemms(i: nat, j: nat, k: nat): (ts: seq<Task>)
    ensures |ts| == k
  {
    seq(k, m requires 0 <= m < k => Gemm(i, j, m))
  }

  function Dependencies(t: Task): seq<Task> {
    match t
    case Syrk(j, k) => [Solve(j, k)] + Syrks(j, k)
    case Subcholesky(j) => Syrks(j, j)
    case Gemm(i, j, k) => [Solve(j, k), Solve(i, k)] + Gemms(i, j, k)
    case Solve(i, j) => Gemms(i, j, j) + [Subcholesky(j)]
  }

  type Place = (nat, nat)

  function Target(t: Task): Place {
    match t
    case Syrk(j, _) => (j, j)
    case Subcholesky(j) => (j, j)
    case Gemm(i, j, _) => (i, j)
    case Solve(i, j) => (i, j)
  }

  /** The blocks a task body clones, in order. */
  function Operands(t: Task): seq<Place> {
    match t
    case Syrk(j, k) => [(j, j), (j, k)]
    case Subcholesky(j) => [(j, j)]
    case Gemm(i, j, k) => [(i, j), (i, k), (j, k)]
    case Solve(i, j) => [(j, j), (i, j)]
  }

  /** The `k`-th task that updates block `(i, j)`, and the task that makes it final. */
  function Update(i: nat, j: nat, k: nat): Task {
    if i == j then Syrk(j, k) else Gemm(i, j, k)
  }

  function Final(i: nat, j: nat): Task {
    if i == j then Subcholesky(j) else Solve(i, j)
  }

  /** `cholesky_inplace`, `ltriang_solve` and `update`. */
  datatype Kernels<!B> = Kernels(chol: B -> B, solve: (B, B) -> B, update: (B, B, B) -> B)

  /** The block a task body writes, from the blocks it cloned. */
  function Result<B>(kernels: Kernels<B>, t: Task, values: seq<B>): B
    requires |values| == |Operands(t)|
  {
    match t
    case Syrk(_, _) => kernels.update(values[1], values[1], values[0])
    case Subcholesky(_) => kernels.chol(values[0])
    case Gemm(_, _, _) => kernels.update(values[1], values[2], values[0])
    case Solve(_, _) => kernels.solve(values[0], values[1])
  }

  // ---- the blocked Cholesky recurrence ----

  type Matrix<B> = seq<seq<B>>

  predicate Square<B>(a: Matrix<B>, n: nat) {
    |a| == n && forall i | 0 <= i < n :: |a[i]| == n
  }

  /** Block `(i, j)` after its first `k` updates. */
  function Partial<B>(kernels: Kernels<B>, a: Matrix<B>, i: nat, j: nat, k: nat): B
    requires Square(a, |a|) && k <= j <= i < |a|
    decreases j, 0, k
  {
    if k == 0 then a[i][j]
    else kernels.update(Factor(kernels, a, i, k - 1), Factor(kernels, a, j, k - 1), Partial(kernels, a, i, j, k - 1))
  }

  /** Block `(i, j)` of the factor. */
  function Factor<B>(kernels: Kernels<B>, a: Matrix<B>, i: nat, j: nat): B
    requires Square(a, |a|) && j <= i < |a|
    decreases j, if i == j then 1 else 2, 0
  {
    if i == j then kernels.chol(Partial(kernels, a, j, j, j))
    else kernels.solve(Factor(kernels, a, j, j), Partial(kernels, a, i, j, j))
  }

  // ---- what the recurrence computes ----

  /** The arithmetic of blocks: `times(x, y)` is `x` times the transpose of `y`. The blocks `cholesky_inplace` accepts
      are the definite ones, and `ltriang_solve` needs a regular triangle. */
  datatype Algebra<!B> = Algebra(zero: B, plus: (B, B) -> B, minus: (B, B) -> B, times: (B, B) -> B,
                                 definite: B -> bool, regular: B -> bool)

  ghost predicate Additive<B(!new)>(algebra: Algebra<B>) {
    && (forall x :: algebra.plus(algebra.zero, x) == x)
    && (forall x, y, z :: algebra.plus(algebra.plus(x, y), z) == algebra.plus(x, algebra.plus(y, z)))
    && (forall x, y :: algebra.plus(x, algebra.minus(y, x)) == y)
  }

  /** What the three kernels promise. */
  ghost predicate Lawful<B(!new)>(kernels: Kernels<B>, algebra: Algebra<B>) {
    && Additive(algebra)
    && (forall x, y, c :: kernels.update(x, y, c) == algebra.minus(c, algebra.times(x, y)))
    && (forall s | algebra.definite(s) ::
          algebra.times(kernels.chol(s), kernels.chol(s)) == s && algebra.regular(kernels.chol(s)))
    && (forall l, b | algebra.regular(l) :: algebra.times(kernels.solve(l, b), l) == b)
  }

  /** No call of `cholesky_inplace` raises. */
  ghost predicate PivotsDefinite<B>(kernels: Kernels<B>, algebra: Algebra<B>, a: Matrix<B>)
    requires Square(a, |a|)
  {
    forall j | 0 <= j < |a| :: algebra.definite(Partial(kernels, a, j, j, j))
  }

  /** The sum over the first `k` columns of row `i` times the transpose of row `j`. */
  function Products<B>(algebra: Algebra<B>, l: Matrix<B>, i: nat, j: nat, k: nat): B
    requires Square(l, |l|) && i < |l| && j < |l| && k <= |l|
  {
    if k == 0 then algebra.zero
    else algebra.plus(Products(algebra, l, i, j, k - 1), algebra.times(l[i][k - 1], l[j][k - 1]))
  }

  /** On and below the diagonal, `a` is the lower triangle of `l` times its transpose. */
  ghost predicate MultipliesBack<B>(algebra: Algebra<B>, l: Matrix<B>, a: Matrix<B>) {
    && Square(l, |a|) && Square(a, |a|)
    && forall i, j | 0 <= j <= i < |a| :: Products(algebra, l, i, j, j + 1) == a[i][j]
  }

  ghost predicate HoldsFactor<B>(kernels: Kernels<B>, l: Matrix<B>, a: Matrix<B>) {
    && Square(l, |a|) && Square(a, |a|)
    && forall i, j | 0 <= j <= i < |a| :: l[i][j] == Factor(kernels, a, i, j)
  }

  lemma {:induction false} UpdatesSubtract<B(!new)>(kernels: Kernels<B>, algebra: Algebra<B>, l: Matrix<B>,
                                                    a: Matrix<B>, i: nat, j: nat, k: nat)
    requires Lawful(kernels, algebra) && HoldsFactor(kernels, l, a) && k <= j <= i < |a|
    ensures algebra.plus(Products(algebra, l, i, j, k), Partial(kernels, a, i, j, k)) == a[i][j]
  {
    if k > 0 {
      UpdatesSubtract(kernels, algebra, l, a, i, j, k - 1);
      assert l[i][k - 1] == Factor(kernels, a, i, k - 1) && l[j][k - 1] == Factor(kernels, a, j, k - 1);
      var sum, product := Products(algebra, l, i, j, k - 1), algebra.times(l[i][k - 1], l[j][k - 1]);
      var before := Partial(kernels, a, i, j, k - 1);
      assert algebra.plus(algebra.plus(sum, product), algebra.minus(before, product))
          == algebra.plus(sum, algebra.plus(product, algebra.minus(before, product)));
    }
  }

  /** The theorem about the recurrence: the factor times its transpose is the matrix. */
  lemma FactorMultipliesBack<B(!new)>(kernels: Kernels<B>, algebra: Algebra<B>, l: Matrix<B>, a: Matrix<B>)
    requires Lawful(kernels, algebra) && HoldsFactor(kernels, l, a) && PivotsDefinite(kernels, algebra, a)
    ensures MultipliesBack(algebra, l, a)
  {
    forall i, j | 0 <= j <= i < |a| ensures Products(algebra, l, i, j, j + 1) == a[i][j] {
      UpdatesSubtract(kernels, algebra, l, a, i, j, j);
      assert algebra.definite(Partial(kernels, a, j, j, j));
      assert l[j][j] == Factor(kernels, a, j, j) && l[i][j] == Factor(kernels, a, i, j);
    }
  }

  /** Blocks of one number: the matrix with rows 4, 6 and 6, 25 has the factor with rows 2 and 3, 4. */
  lemma FactorOfTwoByTwo()
    ensures var kernels := Kernels((s: real) => if s == 4.0 then 2.0 else 4.0,
                                   (l: real, b: real) => if l == 0.0 then b else b / l,
                                   (x: real, y: real, c: real) => c - x * y);
            var algebra := Algebra(0.0, (x: real, y: real) => x + y, (x: real, y: real) => x - y,
                                   (x: real, y: real) => x * y, (s: real) => s == 4.0 || s == 16.0,
                                   (l: real) => l != 0.0);
            var a := [[4.0, 6.0], [6.0, 25.0]];
            && Lawful(kernels, algebra) && PivotsDefinite(kernels, algebra, a)
            && Factor(kernels, a, 0, 0) == 2.0 && Factor(kernels, a, 1, 0) == 3.0 && Factor(kernels, a, 1, 1) == 4.0
  {
    var kernels := Kernels((s: real) => if s == 4.0 then 2.0 else 4.0,
                           (l: real, b: real) => if l == 0.0 then b else b / l,
                           (x: real, y: real, c: real) => c - x * y);
    var a := [[4.0, 6.0], [6.0, 25.0]];
    assert Partial(kernels, a, 0, 0, 0) == 4.0 && Factor(kernels, a, 0, 0) == 2.0;
    assert Partial(kernels, a, 1, 0, 0) == 6.0 && Factor(kernels, a, 1, 0) == 3.0;
    assert Partial(kernels, a, 1, 1, 1) == 16.0 && Factor(kernels, a, 1, 1) == 4.0;
  }

  /** The values a task must find in the blocks it clones. */
  function Inputs<B>(kernels: Kernels<B>, a: Matrix<B>, t: Task): (values: seq<B>)
    requires Square(a, |a|) && IsTask(t, |a|)
    ensures |values| == |Operands(t)|
  {
    match t
    case Syrk(j, k) => [Partial(kernels, a, j, j, k), Factor(kernels, a, j, k)]
    case Subcholesky(j) => [Partial(kernels, a, j, j, j)]
    case Gemm(i, j, k) => [Partial(kernels, a, i, j, k), Factor(kernels, a, i, k), Factor(kernels, a, j, k)]
    case Solve(i, j) => [Factor(kernels, a, j, j), Partial(kernels, a, i, j, j)]
  }

  // ---- the sequential program ----

  /** The loops of the program with every task run where it is spawned, on the blocks in place. */
  method Sequential<B(!new)>(kernels: Kernels<B>, a: array2<B>, ghost initial: Matrix<B>, ghost algebra: Algebra<B>)
    requires a.Length0 == a.Length1 == |initial| && Square(initial, |initial|)
    requires forall i, j | 0 <= i < |initial| && 0 <= j < |initial| :: a[i, j] == initial[i][j]
    modifies a
    ensures forall i, j | 0 <= i < |initial| && 0 <= j < |initial| ::
              a[i, j] == if j <= i then Factor(kernels, initial, i, j) else initial[i][j]
    ensures Lawful(kernels, algebra) && PivotsDefinite(kernels, algebra, initial)
            ==> MultipliesBack(algebra, Rows(a), initial)
  {
    var n := a.Length0;
    for j := 0 to n
      invariant ColumnsDone(kernels, a, initial, j)
    {
      FactorDiagonal(kernels, a, initial, j);
      for i := j + 1 to n
        invariant forall x, y | 0 <= x < n && 0 <= y < n ::
                    a[x, y] == if y == j <= x < i then Factor(kernels, initial, x, j)
                        else Expected(kernels, initial, j, x, y)
      {
        SolveBlock(kernels, a, initial, i, j);
      }
    }
    if Lawful(kernels, algebra) && PivotsDefinite(kernels, algebra, initial) {
      FactorMultipliesBack(kernels, algebra, Rows(a), initial);
    }
  }

  ghost function Rows<B>(a: array2<B>): Matrix<B>
    reads a
  {
    seq(a.Length0, i requires 0 <= i < a.Length0 reads a =>
      seq(a.Length1, j requires 0 <= j < a.Length1 reads a => a[i, j]))
  }

  /** The updates of one diagonal block, and its factorization. */
  method FactorDiagonal<B>(kernels: Kernels<B>, a: array2<B>, ghost initial: Matrix<B>, j: nat)
    requires a.Length0 == a.Length1 == |initial| && Square(initial, |initial|) && j < |initial|
    requires a[j, j] == initial[j][j] && forall k | 0 <= k < j :: a[j, k] == Factor(kernels, initial, j, k)
    modifies a
    ensures a[j, j] == Factor(kernels, initial, j, j)
    ensures forall x, y | 0 <= x < |initial| && 0 <= y < |initial| && (x, y) != (j, j) :: a[x, y] == old(a[x, y])
  {
    for k := 0 to j
      invariant forall x, y | 0 <= x < |initial| && 0 <= y < |initial| && (x, y) != (j, j) :: a[x, y] == old(a[x, y])
      invariant a[j, j] == Partial(kernels, initial, j, j, k)
    {
      a[j, j] := kernels.update(a[j, k], a[j, k], a[j, j]);
    }
    a[j, j] := kernels.chol(a[j, j]);
  }

  /** The inner loop and the triangular solve for one block below the diagonal. */
  method SolveBlock<B>(kernels: Kernels<B>, a: array2<B>, ghost initial: Matrix<B>, i: nat, j: nat)
    requires a.Length0 == a.Length1 == |initial| && Square(initial, |initial|) && j < i < |initial|
    requires a[i, j] == initial[i][j] && a[j, j] == Factor(kernels, initial, j, j)
    requires forall k | 0 <= k < j ::
             a[i, k] == Factor(kernels, initial, i, k) && a[j, k] == Factor(kernels, initial, j, k)
    modifies a
    ensures a[i, j] == Factor(kernels, initial, i, j)
    ensures forall x, y | 0 <= x < |initial| && 0 <= y < |initial| && (x, y) != (i, j) :: a[x, y] == old(a[x, y])
  {
    for k := 0 to j
      invariant forall x, y | 0 <= x < |initial| && 0 <= y < |initial| && (x, y) != (i, j) :: a[x, y] == old(a[x, y])
      invariant a[i, j] == Partial(kernels, initial, i, j, k)
    {
      a[i, j] := kernels.update(a[i, k], a[j, k], a[i, j]);
    }
    a[i, j] := kernels.solve(a[j, j], a[i, j]);
  }

  /** The block at `(x, y)` when the columns before `j` are done. */
  ghost function Expected<B>(kernels: Kernels<B>, initial: Matrix<B>, j: nat, x: nat, y: nat): B
    requires Square(initial, |initial|) && x < |initial| && y < |initial|
  {
    if y < j && y <= x then Factor(kernels, initial, x, y) else initial[x][y]
  }

  ghost predicate ColumnsDone<B>(kernels: Kernels<B>, a: array2<B>, initial: Matrix<B>, j: nat)
    requires a.Length0 == a.Length1 == |initial| && Square(initial, |initial|)
    reads a
  {
    forall x, y | 0 <= x < |initial| && 0 <= y < |initial| :: a[x, y] == Expected(kernels, initial, j, x, y)
  }
}
