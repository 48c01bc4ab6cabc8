/**
 Logical devices of `parla/ldevice.py`: factorization, block slices, and the blocked maps to physical devices.
 Quotients are exact; the code computes them in floating point.
 */
module LDevice {
  import opened Arithmetic

  // ---- _factors and _split_number ----

  /** `ceil(n ** 0.5)`. */
  function CeilSqrt(n: nat): (c: nat)
    ensures c * c >= n && forall d: nat | d < c :: d * d < n
  {
    CeilSqrtFrom(n, 0)
  }

  function CeilSqrtFrom(n: nat, c: nat): (r: nat)
    requires forall d: nat | d < c :: d * d < n
    ensures r * r >= n && forall d: nat | d < r :: d * d < n
    decreases n - c * c
  {
    if c * c >= n then c else CeilSqrtFrom(n, c + 1)
  }

  function Factors(n: nat): seq<nat>
    requires n >= 1
    decreases n, 1, 0
  {
    FactorsFrom(n, 2)
  }

  /** The loop of `_factors` from `m` on. */
  function FactorsFrom(n: nat, m: nat): seq<nat>
    requires n >= 1 && m >= 2
    decreases n, 0, CeilSqrt(n) + 1 - m
  {
    if m > CeilSqrt(n) then [n]
    else if n % m == 0 then
      SmallerQuotient(n, m);
      [m] + Factors(n / m)
    else FactorsFrom(n, m + 1)
  }

  lemma SmallerQuotient(n: nat, m: nat)
    requires n >= 1 && m >= 2 && n % m == 0
    ensures 1 <= n / m < n && n == m * (n / m)
  {
    DivisionTheorem(n, m);
    Monotone(1, n / m, m);
    if n / m >= 1 {
      Monotone(2, m, n / m);
    }
  }

  function Product(ns: seq<nat>): nat {
    if ns == [] then 1 else ns[0] * Product(ns[1..])
  }

  predicate Divides(d: nat, n: nat) {
    d > 0 && n % d == 0
  }

  /** A prime, or one: nothing between one and it divides it. */
  ghost predicate PrimeOrOne(n: nat) {
    n >= 1 && forall d: nat | 2 <= d < n :: !Divides(d, n)
  }

  ghost predicate NoDivisorBelow(n: nat, m: nat) {
    forall d: nat | 2 <= d < m :: !Divides(d, n)
  }

  lemma SmallestDivisorIsPrime(n: nat, m: nat)
    requires n >= 1 && m >= 2 && Divides(m, n) && NoDivisorBelow(n, m)
    ensures PrimeOrOne(m)
  {
    forall d: nat | 2 <= d < m ensures !Divides(d, m) {
      if Divides(d, m) {
        DividesThrough(d, m, n);
      }
    }
  }

  lemma DividesThrough(d: nat, m: nat, n: nat)
    requires Divides(d, m) && Divides(m, n)
    ensures Divides(d, n)
  {
    DivisionTheorem(m, d);
    DivisionTheorem(n, m);
    assert n == (n / m * (m / d)) * d;
    DivideOut(0, n / m * (m / d), d);
  }

  /** A number without divisors up to its root is prime or one: any divisor has a small partner. */
  lemma NoSmallDivisorIsPrime(n: nat)
    requires n >= 1 && NoDivisorBelow(n, CeilSqrt(n) + 1)
    ensures PrimeOrOne(n)
  {
    forall d: nat | 2 <= d < n ensures !Divides(d, n) {
      if Divides(d, n) {
        PartnerDivides(n, d);
        if d > CeilSqrt(n) && n / d > CeilSqrt(n) {
          BothExceed(d, n / d, CeilSqrt(n));
        }
      }
    }
  }

  lemma BothExceed(d: nat, e: nat, c: nat)
    requires d > c && e > c
    ensures d * e > c * c
  {
    Monotone(c + 1, d, e);
    Monotone(c + 1, e, c + 1);
    assert (c + 1) * (c + 1) == c * c + 2 * c + 1;
  }

  lemma PartnerDivides(n: nat, d: nat)
    requires 2 <= d < n && Divides(d, n)
    ensures 2 <= n / d && Divides(n / d, n) && n == d * (n / d)
  {
    DivisionTheorem(n, d);
    var e := n / d;
    assert e == 1 ==> n == d;
    assert e <= 0 ==> n <= 0;
    DivideOut(0, d, e);
  }

  /** The factors multiply back to the number, and each is a prime or one. */
  lemma {:induction false} FactorsAreRight(n: nat, m: nat)
    requires n >= 1 && m >= 2 && NoDivisorBelow(n, m)
    ensures Product(FactorsFrom(n, m)) == n
    ensures forall k | 0 <= k < |FactorsFrom(n, m)| :: PrimeOrOne(FactorsFrom(n, m)[k])
    decreases n, CeilSqrt(n) + 1 - m
  {
    if m > CeilSqrt(n) {
      assert [n][1..] == [];
      NoSmallDivisorIsPrime(n);
    } else if n % m == 0 {
      SmallerQuotient(n, m);
      SmallestDivisorIsPrime(n, m);
      FactorsAreRight(n / m, 2);
      var rest := Factors(n / m);
      assert ([m] + rest)[1..] == rest;
    } else {
      FactorsAreRight(n, m + 1);
    }
  }

  /** A factor one for the smallest even number. */
  lemma FactorsOfTwo()
    ensures Factors(2) == [2, 1]
  {
    assert CeilSqrt(1) == 1 && CeilSqrt(2) == 2;
    assert FactorsFrom(1, 2) == [1];
  }

  function SplitNumber(n: nat): (nat, nat)
    requires n >= 1
  {
    var f := if |Factors(n)| == 1 then Factors(n) + [1] else Factors(n);
    (Product(f[..|f| / 2]), Product(f[|f| / 2..]))
  }

  lemma {:induction false} ProductAppend(a: seq<nat>, b: seq<nat>)
    ensures Product(a + b) == Product(a) * Product(b)
    decreases |a|
  {
    if a == [] {
      assert a + b == b;
    } else {
      assert (a + b)[1..] == a[1..] + b;
      ProductAppend(a[1..], b);
      assert a[0] * (Product(a[1..]) * Product(b)) == a[0] * Product(a[1..]) * Product(b);
    }
  }

  /** The two parts multiply back to the number. */
  lemma SplitMultipliesBack(n: nat)
    requires n >= 1
    ensures SplitNumber(n).0 * SplitNumber(n).1 == n
  {
    FactorsAreRight(n, 2);
    var factors := Factors(n);
    var f := if |factors| == 1 then factors + [1] else factors;
    ProductAppend(factors, [1]);
    assert [1][1..] == [] && Product([1]) == 1;
    assert f == f[..|f| / 2] + f[|f| / 2..];
    ProductAppend(f[..|f| / 2], f[|f| / 2..]);
  }

  /** Only the last factor can be one. */
  lemma {:induction false} OnlyLastIsOne(n: nat, m: nat)
    requires n >= 1 && m >= 2
    ensures |FactorsFrom(n, m)| >= 1
    ensures forall k | 0 <= k < |FactorsFrom(n, m)| :: FactorsFrom(n, m)[k] >= if k < |FactorsFrom(n, m)| - 1 then 2
            else 1
    decreases n, CeilSqrt(n) + 1 - m
  {
    if m > CeilSqrt(n) {
    } else if n % m == 0 {
      SmallerQuotient(n, m);
      OnlyLastIsOne(n / m, 2);
    } else {
      OnlyLastIsOne(n, m + 1);
    }
  }

  lemma {:induction false} ProductAtLeast(ns: seq<nat>, k: nat)
    requires forall i | 0 <= i < |ns| :: ns[i] >= 1
    ensures Product(ns) >= 1 && (k < |ns| ==> Product(ns) >= ns[k])
  {
    if ns != [] {
      ProductAtLeast(ns[1..], if k > 0 then k - 1 else 0);
      Monotone(1, Product(ns[1..]), ns[0]);
      Monotone(1, ns[0], Product(ns[1..]));
      assert ns[0] * Product(ns[1..]) == Product(ns[1..]) * ns[0];
    }
  }

  lemma ProductsOfFew(a: nat, b: nat)
    ensures Product([a]) == a && Product([a, b]) == a * b
  {
    assert [a][1..] == [] && [a, b][1..] == [b] && [b][1..] == [];
    assert a * (b * 1) == a * b;
  }

  lemma ProperIsComposite(a: nat, b: nat)
    requires a >= 2 && b >= 2
    ensures !PrimeOrOne(a * b)
  {
    Monotone(2, b, a);
    assert a * b == b * a;
    DivideOut(0, b, a);
    assert Divides(a, a * b);
  }

  /** A number with two factors is split into two proper ones, a prime or one into itself and one. */
  lemma SplitIsProper(n: nat)
    requires n >= 1
    ensures SplitNumber(n).1 == 1 <==> PrimeOrOne(n)
    ensures SplitNumber(n).0 == 1 <==> n == 1
  {
    FactorsAreRight(n, 2);
    OnlyLastIsOne(n, 2);
    var f := Factors(n);
    if |f| == 1 {
      ProductsOfFew(f[0], 1);
      ProductsOfFew(1, 1);
      var g := f + [1];
      assert f == [n] && g[..|g| / 2] == [n] && g[|g| / 2..] == [1];
    } else if |f| == 2 {
      ProductsOfFew(f[0], f[1]);
      ProductsOfFew(f[1], 1);
      assert f == [f[0], f[1]] && f[..1] == [f[0]] && f[1..] == [f[1]] && n == f[0] * f[1];
      if f[1] >= 2 {
        ProperIsComposite(f[0], f[1]);
      }
      Monotone(1, f[1], f[0]);
      assert f[1] == 1 ==> n == f[0];
    } else {
      var first, second := f[..|f| / 2], f[|f| / 2..];
      assert first[0] == f[0] && second[0] == f[|f| / 2];
      ProductAtLeast(first, 0);
      ProductAtLeast(second, 0);
      SplitMultipliesBack(n);
      ProperIsComposite(Product(first), Product(second));
    }
  }

  function Power(k: nat): (p: nat)
    ensures p >= 1
  {
    if k == 0 then 1 else 2 * Power(k - 1)
  }

  lemma {:induction false} PowerSum(j: nat, k: nat)
    ensures Power(j + k) == Power(j) * Power(k)
  {
    if j > 0 {
      PowerSum(j - 1, k);
      Associate(2, Power(j - 1), Power(k));
    }
  }

  function Twos(k: nat): (ns: seq<nat>)
    ensures |ns| == k && forall i | 0 <= i < k :: ns[i] == 2
  {
    seq(k, i => 2)
  }

  lemma {:induction false} PowerFactors(k: nat)
    ensures Factors(Power(k)) == Twos(k) + [1]
  {
    if k == 0 {
      assert CeilSqrt(1) == 1;
    } else {
      PowerFactors(k - 1);
      assert 2 <= CeilSqrt(Power(k)) by {
        assert CeilSqrt(Power(k)) <= 1 ==> CeilSqrt(Power(k)) * CeilSqrt(Power(k)) <= 1;
      }
      DivideOut(0, Power(k - 1), 2);
      assert Factors(Power(k)) == [2] + Factors(Power(k - 1));
    }
  }

  lemma {:induction false} ProductTwos(k: nat)
    ensures Product(Twos(k)) == Power(k)
  {
    if k > 0 {
      assert Twos(k)[1..] == Twos(k - 1);
      ProductTwos(k - 1);
    }
  }

  /** A power of two is split in the middle; the larger part comes first. */
  lemma SplitPower(k: nat)
    ensures SplitNumber(Power(k)) == (Power((k + 1) / 2), Power(k / 2))
  {
    PowerFactors(k);
    var f := Twos(k) + [1];
    if k == 0 {
      assert f == [1] && ([1] + [1])[..1] == [1] && ([1] + [1])[1..] == [1];
      ProductsOfFew(1, 1);
    } else {
      var h := (k + 1) / 2;
      assert |f| / 2 == h && f[..h] == Twos(h) && f[h..] == Twos(k - h) + [1];
      ProductTwos(h);
      ProductTwos(k - h);
      ProductAppend(Twos(k - h), [1]);
      ProductsOfFew(1, 1);
    }
  }

  // ---- _partition_slice ----

  function CeilDiv(a: nat, p: nat): nat
    requires p > 0
  {
    (a + p - 1) / p
  }

  lemma CeilDivIs(a: nat, p: nat, c: int)
    requires p > 0
    ensures CeilDiv(a, p) <= c <==> a <= c * p
  {
    DivisionTheorem(a + p - 1, p);
    var q := CeilDiv(a, p);
    Monotone(q, c, p);
    Monotone(q - 1, c, p);
    Monotone(c, q - 1, p);
    assert (q - 1) * p == q * p - p;
  }

  /** Where block `i` starts when `n` elements are cut into `p` blocks. */
  function BlockStart(i: nat, n: nat, p: nat): nat
    requires p > 0
  {
    CeilDiv(i * n, p)
  }

  /** `_partition_slice`: begin and end. */
  function PartitionSlice(i: nat, n: nat, p: nat, overlap: nat): (int, int)
    requires p > 0
  {
    var begin, end := BlockStart(i, n, p) - overlap, BlockStart(i + 1, n, p) + overlap;
    (if begin > 0 then begin else 0, if end < n then end else n)
  }

  lemma BlockStartBound(i: nat, n: nat, p: nat)
    requires p > 0 && i <= p
    ensures BlockStart(i, n, p) <= n && BlockStart(0, n, p) == 0 && BlockStart(p, n, p) == n
  {
    CeilDivIs(i * n, p, n);
    if n > 0 {
      Monotone(i, p, n);
    }
    CeilDivIs(p * n, p, n);
    CeilDivIs(p * n, p, n - 1);
    assert (n - 1) * p == n * p - p;
    CeilDivIs(0, p, 0);
  }

  /** The size of a block is the quotient rounded down or up. */
  lemma BlockSize(i: nat, n: nat, p: nat)
    requires p > 0
    ensures n / p <= BlockStart(i + 1, n, p) - BlockStart(i, n, p) <= CeilDiv(n, p)
  {
    var s, e := BlockStart(i, n, p), BlockStart(i + 1, n, p);
    assert (i + 1) * n == i * n + n;
    DivisionTheorem(n, p);
    var low, high := n / p, CeilDiv(n, p);
    CeilDivIs(i * n, p, s);
    CeilDivIs(n, p, high);
    assert (s + high) * p == s * p + high * p;
    CeilDivIs((i + 1) * n, p, s + high);
    CeilDivIs((i + 1) * n, p, e);
    assert (e - low) * p == e * p - low * p;
    CeilDivIs(i * n, p, e - low);
  }

  /** Without overlap the slices cut `[0, n)` into consecutive blocks, each of the rounded-down or rounded-up size. */
  lemma SlicesTile(i: nat, n: nat, p: nat)
    requires i < p
    ensures var (begin, end) := PartitionSlice(i, n, p, 0);
            && begin == BlockStart(i, n, p) && end == BlockStart(i + 1, n, p) && 0 <= begin <= end <= n
            && n / p <= end - begin <= CeilDiv(n, p)
            && (i == 0 ==> begin == 0) && (i == p - 1 ==> end == n)
            && (i + 1 < p ==> PartitionSlice(i + 1, n, p, 0).0 == end)
  {
    BlockStartBound(i, n, p);
    BlockStartBound(i + 1, n, p);
    BlockSize(i, n, p);
    DivisionTheorem(n, p);
    if i + 1 < p {
      BlockStartBound(i + 2, n, p);
    }
  }

  /** With overlap each slice is its block widened on both sides, cut off at the ends of `[0, n)`. */
  lemma SlicesOverlap(i: nat, n: nat, p: nat, overlap: nat, x: int)
    requires i < p
    ensures var (begin, end) := PartitionSlice(i, n, p, overlap);
            && 0 <= begin <= BlockStart(i, n, p) <= BlockStart(i + 1, n, p) <= end <= n
            && (begin <= x < end <==>
                  0 <= x < n && BlockStart(i, n, p) - overlap <= x < BlockStart(i + 1, n, p) + overlap)
  {
    SlicesTile(i, n, p);
  }

  // ---- blocked device maps ----

  /** `floor(i / (n / p))`: the block of index `i` of `n`, for `p` devices. */
  function BlockOf(i: nat, n: nat, p: nat): nat
    requires i < n
  {
    i * p / n
  }

  /** A slice starts at `i * n / p` rounded up, and a logical device's index is divided by `n / p` and rounded down. */
  lemma BlocksAreExact(i: nat, n: nat, p: nat, x: nat)
    requires i < p && x < n
    ensures x < PartitionSlice(i, n, p, 0).0 <==> x * p < i * n
    ensures BlockOf(x, n, p) * n <= x * p < (BlockOf(x, n, p) + 1) * n
  {
    CeilDivIs(i * n, p, x);
    QuotientIs(x * p, n, BlockOf(x, n, p));
    Distribute(BlockOf(x, n, p), 1, n);
  }

  /** The device of a logical device is the block whose slice contains it. */
  lemma DeviceIsBlock(i: nat, n: nat, p: nat, k: nat)
    requires i < n && p > 0
    ensures BlockOf(i, n, p) == k <==> BlockStart(k, n, p) <= i < BlockStart(k + 1, n, p)
  {
    QuotientIs(i * p, n, k);
    CeilDivIs(k * n, p, i);
    CeilDivIs((k + 1) * n, p, i);
    assert (k + 1) * n == k * n + n;
  }

  lemma DeviceInRange(i: nat, n: nat, p: nat)
    requires i < n && p > 0
    ensures BlockOf(i, n, p) < p
  {
    Monotone(i + 1, n, p);
    assert (i + 1) * p == i * p + p;
    DivisionTheorem(i * p, n);
    Monotone(p, BlockOf(i, n, p), n);
    assert p * n == n * p;
  }

  /** Sequences: the map is in range and monotone, each device gets one contiguous block, of the rounded-down or
      rounded-up size, and every device is used exactly when there are no more devices than logical devices. */
  lemma SequenceBlocked(n: nat, p: nat)
    requires n > 0 && p > 0
    ensures forall i | 0 <= i < n :: 0 <= BlockOf(i, n, p) < p
    ensures forall i, j | 0 <= i <= j < n :: BlockOf(i, n, p) <= BlockOf(j, n, p)
    ensures forall k, i | 0 <= k < p && 0 <= i < n ::
              BlockOf(i, n, p) == k <==> BlockStart(k, n, p) <= i < BlockStart(k + 1, n, p)
    ensures forall k: nat | k < p :: n / p <= BlockStart(k + 1, n, p) - BlockStart(k, n, p) <= CeilDiv(n, p)
    ensures (forall k: nat | k < p :: Used(k, n, p)) <==> p <= n
  {
    forall k: nat | k < p ensures n / p <= BlockStart(k + 1, n, p) - BlockStart(k, n, p) <= CeilDiv(n, p) {
      BlockSize(k, n, p);
    }
    forall i | 0 <= i < n ensures 0 <= BlockOf(i, n, p) < p { DeviceInRange(i, n, p); }
    forall i, j | 0 <= i <= j < n ensures BlockOf(i, n, p) <= BlockOf(j, n, p) { DeviceMonotone(i, j, n, p); }
    forall k, i | 0 <= k < p && 0 <= i < n
      ensures BlockOf(i, n, p) == k <==> BlockStart(k, n, p) <= i < BlockStart(k + 1, n, p)
    {
      DeviceIsBlock(i, n, p, k);
    }
    if p <= n {
      forall k: nat | k < p ensures Used(k, n, p) { UsedIfEnough(k, n, p); }
    } else if forall k: nat | k < p :: Used(k, n, p) {
      StartsSpread(p, n, p);
      BlockStartBound(p, n, p);
    }
  }

  lemma DeviceMonotone(i: nat, j: nat, n: nat, p: nat)
    requires i <= j < n && p > 0
    ensures BlockOf(i, n, p) <= BlockOf(j, n, p)
  {
    Monotone(i, j, p);
    DivisionTheorem(i * p, n);
    DivisionTheorem(j * p, n);
    Monotone(BlockOf(j, n, p) + 1, BlockOf(i, n, p), n);
    assert (BlockOf(j, n, p) + 1) * n == BlockOf(j, n, p) * n + n;
  }

  /** Some logical device is mapped to device `k`. */
  ghost predicate Used(k: nat, n: nat, p: nat) {
    exists i :: 0 <= i < n && BlockOf(i, n, p) == k
  }

  lemma UsedIfEnough(k: nat, n: nat, p: nat)
    requires k < p <= n
    ensures Used(k, n, p)
  {
    SlicesTile(k, n, p);
    DivisionTheorem(n, p);
    Monotone(1, n / p, p);
    Monotone(n / p, 0, p);
    var i := BlockStart(k, n, p);
    DeviceIsBlock(i, n, p, k);
    assert BlockOf(i, n, p) == k;
  }

  /** If every device is used, block `k` cannot start before `k`. */
  lemma {:induction false} StartsSpread(k: nat, n: nat, p: nat)
    requires n > 0 && k <= p && p > 0 && forall d: nat | d < p :: Used(d, n, p)
    ensures BlockStart(k, n, p) >= k
  {
    if k > 0 {
      StartsSpread(k - 1, n, p);
      assert Used(k - 1, n, p);
      var i :| 0 <= i < n && BlockOf(i, n, p) == k - 1;
      DeviceIsBlock(i, n, p, k - 1);
    }
  }

  /** `LDeviceGridBlocked.device`: the index of the physical device, for `devices` of them. */
  function GridDevice(i: nat, j: nat, nx: nat, ny: nat, devices: nat): nat
    requires i < nx && j < ny && devices >= 1
  {
    var (n, m) := SplitNumber(devices);
    BlockOf(i, nx, n) * m + BlockOf(j, ny, m)
  }

  /** Grids: the map is in range, and determines the two block coordinates. */
  lemma GridBlocked(i: nat, j: nat, nx: nat, ny: nat, devices: nat)
    requires i < nx && j < ny && devices >= 1
    ensures GridDevice(i, j, nx, ny, devices) < devices
    ensures var (n, m) := SplitNumber(devices);
            && m > 0 && GridDevice(i, j, nx, ny, devices) / m == BlockOf(i, nx, n)
            && GridDevice(i, j, nx, ny, devices) % m == BlockOf(j, ny, m)
  {
    var (n, m) := SplitNumber(devices);
    SplitMultipliesBack(devices);
    assert n > 0 && m > 0;
    DeviceInRange(i, nx, n);
    DeviceInRange(j, ny, m);
    PackedBound(BlockOf(j, ny, m), BlockOf(i, nx, n), m, n);
    DivideOut(BlockOf(j, ny, m), BlockOf(i, nx, n), m);
  }

  ghost predicate GridUsed(d: nat, nx: nat, ny: nat, devices: nat)
    requires devices >= 1
  {
    exists i, j :: 0 <= i < nx && 0 <= j < ny && GridDevice(i, j, nx, ny, devices) == d
  }

  lemma GridUses(d: nat, nx: nat, ny: nat, devices: nat, n: nat, m: nat)
    requires d < devices && (n, m) == SplitNumber(devices) && n <= nx && m <= ny
    ensures GridUsed(d, nx, ny, devices)
  {
    SplitMultipliesBack(devices);
    assert n > 0 && m > 0;
    QuotientBound(d, m, n);
    UsedIfEnough(d / m, nx, n);
    UsedIfEnough(d % m, ny, m);
    var i :| 0 <= i < nx && BlockOf(i, nx, n) == d / m;
    var j :| 0 <= j < ny && BlockOf(j, ny, m) == d % m;
    assert GridDevice(i, j, nx, ny, devices) == d;
  }

  /** If the device of blocks `k` and `l` is used, so are the blocks. */
  lemma GridUsesBlocks(k: nat, l: nat, nx: nat, ny: nat, devices: nat, n: nat, m: nat)
    requires devices >= 1 && (n, m) == SplitNumber(devices) && k < n && l < m
    ensures k * m + l < devices
    ensures GridUsed(k * m + l, nx, ny, devices) ==> Used(k, nx, n) && Used(l, ny, m)
  {
    SplitMultipliesBack(devices);
    PackedBound(l, k, m, n);
    if GridUsed(k * m + l, nx, ny, devices) {
      var i, j :| 0 <= i < nx && 0 <= j < ny && GridDevice(i, j, nx, ny, devices) == k * m + l;
      GridBlocked(i, j, nx, ny, devices);
      DivideOut(l, k, m);
    }
  }

  /** Every device is used exactly when both sides of the grid are at least the two factors. Otherwise the code
      warns. */
  lemma GridUsesAll(nx: nat, ny: nat, devices: nat)
    requires devices >= 1
    ensures var (n, m) := SplitNumber(devices);
            (forall d: nat | d < devices :: GridUsed(d, nx, ny, devices)) <==> n <= nx && m <= ny
  {
    var (n, m) := SplitNumber(devices);
    SplitMultipliesBack(devices);
    assert n > 0 && m > 0;
    if n <= nx && m <= ny {
      forall d: nat | d < devices ensures GridUsed(d, nx, ny, devices) { GridUses(d, nx, ny, devices, n, m); }
    } else if forall d: nat | d < devices :: GridUsed(d, nx, ny, devices) {
      forall k: nat | k < n ensures Used(k, nx, n) { GridUsesBlocks(k, 0, nx, ny, devices, n, m); }
      forall l: nat | l < m ensures Used(l, ny, m) { GridUsesBlocks(0, l, nx, ny, devices, n, m); }
      assert Used(0, nx, n) && Used(0, ny, m);
      SequenceBlocked(nx, n);
      SequenceBlocked(ny, m);
    }
  }

  // ---- ravelled grids ----

  /** `LDeviceGridRaveled.device`: the cell's number counts rows of `nx` cells, although a row has `ny`. */
  function RaveledDevice(i: nat, j: nat, nx: nat, ny: nat, devices: nat): nat
    requires i < nx && j < ny && devices >= 1
  {
    Monotone(1, nx, ny);
    Monotone(0, i, nx);
    Monotone(0, i * nx + j, devices);
    DivisionTheorem((i * nx + j) * devices, nx * ny);
    (i * nx + j) * devices / (nx * ny)
  }

  lemma RaveledInRange(i: nat, j: nat, nx: nat, ny: nat, devices: nat)
    requires i < nx && j < ny && devices >= 1
    ensures RaveledDevice(i, j, nx, ny, devices) < devices <==> i * nx + j < nx * ny
  {
    Monotone(1, nx, ny);
    var a, b := i * nx + j, nx * ny;
    DivisionTheorem(a * devices, b);
    if a < b {
      DeviceInRange(a, b, devices);
    } else {
      Monotone(b, a, devices);
      Monotone(devices, a * devices / b + 1, b);
      assert devices * b == b * devices;
    }
  }

  /** The device of every cell exists exactly when the grid is no higher than wide. */
  lemma RaveledExact(nx: nat, ny: nat, devices: nat)
    requires nx > 0 && ny > 0 && devices >= 1
    ensures (forall i: nat, j: nat | i < nx && j < ny :: RaveledDevice(i, j, nx, ny, devices) < devices) <==> nx <= ny
  {
    if nx <= ny {
      forall i: nat, j: nat | i < nx && j < ny ensures RaveledDevice(i, j, nx, ny, devices) < devices {
        RaveledInRange(i, j, nx, ny, devices);
        RowsFit(i, j, nx, ny);
      }
    } else {
      RaveledInRange(nx - 1, ny - 1, nx, ny, devices);
      LastCellOutside(nx, ny);
    }
  }

  lemma RowsFit(i: nat, j: nat, nx: nat, ny: nat)
    requires i < nx <= ny && j < ny
    ensures i * nx + j < nx * ny
  {
    Monotone(nx, ny, i + 1);
    Monotone(i + 1, nx, ny);
    assert i * nx <= i * ny by {
      if i > 0 { Monotone(nx, ny, i); }
      assert nx * i == i * nx && ny * i == i * ny;
    }
    assert (i + 1) * ny == i * ny + ny;
  }

  lemma LastCellOutside(nx: nat, ny: nat)
    requires 0 < ny < nx
    ensures (nx - 1) * nx + (ny - 1) >= nx * ny
  {
    Monotone(ny, nx - 1, nx);
    assert (nx - 1) * nx >= ny * nx == nx * ny;
  }
}
