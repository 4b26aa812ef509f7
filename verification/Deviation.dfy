/** Integer square root and the standard deviation in thousandths, in 64-bit arithmetic. */
module Deviation {
  import opened Numbers
  import opened Options

  const U32_LIMIT: nat := 0x1_0000_0000
  const MILLION: nat := 1_000_000

  /** Products wrap around where Rust's release arithmetic does. */
  function Wrap64(x: nat): (r: nat)
    ensures r < U64_LIMIT && (x < U64_LIMIT ==> r == x)
  {
    x % U64_LIMIT
  }

  predicate IsFloorSqrt(v: nat, r: nat) {
    r * r <= v && Above(v, r)
  }

  /** `x` is no smaller than the integer root. */
  predicate Above(v: nat, x: nat) {
    v < (x + 1) * (x + 1)
  }

  // ----- multiplication facts

  lemma Distribute(a: int, b: int, c: int)
    ensures (a + b) * c == a * c + b * c && c * (a + b) == c * a + c * b
  {
  }

  lemma SquareOfSum(a: int, b: int)
    ensures (a + b) * (a + b) == a * a + 2 * (a * b) + b * b
  {
    Distribute(a, b, a + b);
    Distribute(a, b, a);
    Distribute(a, b, b);
  }

  lemma SquareOfDifference(a: int, b: int)
    ensures (a - b) * (a - b) == a * a - 2 * (a * b) + b * b
    ensures (a - b) * (a - b) >= 0
  {
    SquareOfSum(a, -b);
    Negated(a, b);
    SquareIsNat(a - b);
  }

  lemma Negated(a: int, b: int)
    ensures a * -b == -(a * b) && -b * -b == b * b
  {
  }

  lemma SquareIsNat(x: int)
    ensures x * x >= 0
  {
  }

  lemma MulGrows(k: nat, a: nat, b: nat)
    requires a <= b
    ensures k * a <= k * b && a * k <= b * k
  {
    Distribute(a, b - a, k);
  }

  lemma SquareGrows(a: nat, b: nat)
    requires a <= b
    ensures a * a <= b * b
  {
    MulGrows(a, a, b);
    MulGrows(b, a, b);
  }

  lemma QuotientIs(v: nat, m: nat)
    requires m > 0
    ensures m * (v / m) <= v < m * (v / m) + m && v / m <= v
  {
    MulGrows(v / m, 1, m);
  }

  // ----- the root

  function Newton(v: nat, x: nat): nat
    requires x > 0
  {
    (x + v / x) / 2
  }

  /** The arithmetic mean is no smaller than the geometric one. */
  lemma MeanIsAbove(a: nat, b: nat, s: nat, v: nat)
    requires v < a * b && a + b <= 2 * (s + 1)
    ensures Above(v, s)
  {
    SquareOfSum(a, b);
    SquareOfDifference(a, b);
    SquareGrows(a + b, 2 * (s + 1));
    SquareOfSum(s + 1, s + 1);
  }

  /** One Newton step stays above the root, above zero and inside 64 bits. */
  lemma NewtonStep(v: nat, x: nat)
    requires 2 <= v < U64_LIMIT && 0 < x <= (v + 1) / 2 && Above(v, x)
    ensures Above(v, Newton(v, x)) && Newton(v, x) > 0 && x + v / x < U64_LIMIT
  {
    var q := v / x;
    QuotientIs(v, x);
    Distribute(q, 1, x);
    MeanIsAbove(x, q + 1, Newton(v, x), v);
    if x == 1 {
      assert v < 4;
    } else {
      MulGrows(q, 2, x);
    }
  }

  lemma StartIsAbove(v: nat)
    requires v >= 2
    ensures Above(v, v) && Above(v, (v + 1) / 2)
  {
    var y := (v + 1) / 2;
    SquareOfSum(y, 1);
    SquareOfSum(v, 1);
    MulGrows(v, 1, v);
  }

  lemma StoppedAtRoot(v: nat, x: nat)
    requires 2 <= v < U64_LIMIT && 0 < x && Newton(v, x) >= x
    ensures x * x <= v && x < U32_LIMIT
  {
    QuotientIs(v, x);
    MulGrows(x, x, v / x);
    if x >= U32_LIMIT {
      SquareGrows(U32_LIMIT, x);
    }
  }

  /** Newton's method from above, for every 64-bit value and without overflow. */
  method Isqrt(v: nat) returns (r: nat)
    requires v < U64_LIMIT
    ensures IsFloorSqrt(v, r) && r < U32_LIMIT
  {
    if v < 2 {
      return v;
    }
    var x: nat := v;
    var y: nat := (x + 1) / 2;
    StartIsAbove(v);
    while y < x
      invariant Above(v, x) && Above(v, y)
      invariant 0 < y <= (v + 1) / 2 && (x == v || (0 < x <= (v + 1) / 2 && y == Newton(v, x)))
      invariant x == v ==> y < x
      decreases x
    {
      x := y;
      NewtonStep(v, x);
      assert x + v / x < U64_LIMIT;
      y := (x + v / x) / 2;
      NewtonBelowStart(v, x);
    }
    StoppedAtRoot(v, x);
    return x;
  }

  lemma NewtonBelowStart(v: nat, x: nat)
    requires v >= 2 && 0 < x <= (v + 1) / 2
    ensures Newton(v, x) <= (v + 1) / 2
  {
    QuotientIs(v, x);
    if x >= 2 {
      MulGrows(v / x, 2, x);
    }
  }

  // ----- the deviation

  function Sum(vs: seq<nat>): nat {
    if vs == [] then 0 else Sum(vs[..|vs| - 1]) + vs[|vs| - 1]
  }

  function SumSq(vs: seq<nat>): nat {
    if vs == [] then 0 else SumSq(vs[..|vs| - 1]) + vs[|vs| - 1] * vs[|vs| - 1]
  }

  /** Sum of the squared distances to `y`. */
  function SquaresAbout(vs: seq<nat>, y: nat): nat {
    if vs == [] then 0
    else
      SquareOfDifference(vs[|vs| - 1], y);
      SquaresAbout(vs[..|vs| - 1], y) + (vs[|vs| - 1] - y) * (vs[|vs| - 1] - y)
  }

  lemma {:induction false} SquaresAboutIs(vs: seq<nat>, y: nat)
    ensures SquaresAbout(vs, y) == SumSq(vs) - 2 * (Sum(vs) * y) + |vs| * (y * y)
  {
    if vs != [] {
      var n := |vs| - 1;
      var x := vs[n];
      SquaresAboutIs(vs[..n], y);
      SquareOfDifference(x, y);
      Distribute(Sum(vs[..n]), x, y);
      Distribute(n, 1, y * y);
    }
  }

  lemma CauchyStep(n: nat, s: nat, q: nat, x: nat)
    requires s * s <= n * q && q - 2 * (s * x) + n * (x * x) >= 0
    ensures (s + x) * (s + x) <= (n + 1) * (q + x * x)
  {
    SquareOfSum(s, x);
    Distribute(n, 1, q + x * x);
    Distribute(q, x * x, n);
  }

  /** The square of a sum is at most the number of terms times the sum of squares. */
  lemma {:induction false} CauchySchwarz(vs: seq<nat>)
    ensures Sum(vs) * Sum(vs) <= |vs| * SumSq(vs)
  {
    if vs != [] {
      var n := |vs| - 1;
      CauchySchwarz(vs[..n]);
      SquaresAboutIs(vs[..n], vs[n]);
      CauchyStep(n, Sum(vs[..n]), SumSq(vs[..n]), vs[n]);
    }
  }

  /** n² times the variance. */
  function Spread(vs: seq<nat>): nat {
    CauchySchwarz(vs);
    |vs| * SumSq(vs) - Sum(vs) * Sum(vs)
  }

  /** `r` is the deviation in thousandths, rounded down: r² n² ≤ 10⁶ spread < (r+1)² n². */
  predicate IsDeviation(vs: seq<nat>, r: nat) {
    IsRootOf(MILLION * Spread(vs), |vs| * |vs|, r)
  }

  /** `r` is the root of `x / m`, rounded down. */
  predicate IsRootOf(x: nat, m: nat, r: nat) {
    r * r * m <= x < (r + 1) * (r + 1) * m
  }

  /** The same with the scaled spread cut off at the largest 64-bit number. */
  predicate IsCappedDeviation(vs: seq<nat>, r: nat) {
    IsRootOf(SaturatingMul(Spread(vs), MILLION), |vs| * |vs|, r)
  }

  /** The products that are formed without a guard stay inside 64 bits. */
  predicate Fits(vs: seq<nat>) {
    |vs| * SumSq(vs) < U64_LIMIT
  }

  lemma RootOfQuotient(x: nat, m: nat, r: nat)
    requires m > 0 && IsFloorSqrt(x / m, r)
    ensures IsRootOf(x, m, r)
  {
    var q := x / m;
    QuotientIs(x, m);
    MulGrows(m, r * r, q);
    MulGrows(m, q + 1, (r + 1) * (r + 1));
    Distribute(q, 1, m);
  }

  /** The arithmetic of the code between the two sums and the root. */
  function ScaledVariance(n: nat, sum: nat, sumSq: nat): nat
    requires Wrap64(n * n) > 0
  {
    SaturatingMul(SaturatingSub(Wrap64(sumSq * n), Wrap64(sum * sum)), MILLION) / Wrap64(n * n)
  }

  /** What the code takes the root of, wrap-around included. */
  function VarianceOf(values: seq<nat>): nat
    requires Wrap64(|values| * |values|) > 0
  {
    ScaledVariance(|values|, Wrap64(Sum(values)), Wrap64(SumSq(values)))
  }

  /** The result for every slice; dividing by n² panics when that wraps to zero. */
  predicate IsSd(values: seq<nat>, r: nat) {
    if |values| < 2 then r == 0
    else Wrap64(|values| * |values|) > 0 && IsFloorSqrt(VarianceOf(values), r)
  }

  /** The deviation in thousandths; no result where the division panics, which is exactly for
      two or more values whose number is a multiple of 2³². */
  method SdMilli(values: seq<nat>) returns (r: Option<nat>)
    requires |values| < U64_LIMIT
    ensures r.None? <==> |values| >= 2 && |values| % U32_LIMIT == 0
    ensures r.Some? ==> IsSd(values, r.value) && r.value < U32_LIMIT
  {
    var n := |values|;
    if n < 2 {
      return Some(0);
    }
    SquareWraps(n);
    if Wrap64(n * n) == 0 {
      return None;
    }
    VarianceIsSmall(n, Wrap64(Sum(values)), Wrap64(SumSq(values)));
    var root := Isqrt(ScaledVariance(n, Wrap64(Sum(values)), Wrap64(SumSq(values))));
    r := Some(root);
  }

  lemma VarianceIsSmall(n: nat, sum: nat, sumSq: nat)
    requires Wrap64(n * n) > 0
    ensures ScaledVariance(n, sum, sumSq) < U64_LIMIT
  {
    var x := SaturatingMul(SaturatingSub(Wrap64(sumSq * n), Wrap64(sum * sum)), MILLION);
    QuotientIs(x, Wrap64(n * n));
  }

  /** Where the sums fit, the result is the deviation, capped only by the saturating product. */
  lemma RootIsDeviation(values: seq<nat>, r: nat)
    requires 2 <= |values| < U32_LIMIT && Fits(values) && IsSd(values, r)
    ensures IsCappedDeviation(values, r)
    ensures MILLION * Spread(values) < U64_LIMIT ==> IsDeviation(values, r)
  {
    var n := |values|;
    SquareFits(n);
    NothingWraps(values);
    var x := SaturatingMul(Spread(values), MILLION);
    assert VarianceOf(values) == x / (n * n);
    RootOfQuotient(x, n * n, r);
  }

  /** The cap does not move the result across a threshold that fits below it. */
  lemma ThresholdIsExact(values: seq<nat>, r: nat, t: nat)
    requires IsCappedDeviation(values, r) && t * t * (|values| * |values|) < U64_LIMIT
    ensures r >= t <==> t * t * (|values| * |values|) <= MILLION * Spread(values)
  {
    var m := |values| * |values|;
    if r >= t {
      SquareGrows(t, r);
      MulGrows(m, t * t, r * r);
    } else {
      SquareGrows(r + 1, t);
      MulGrows(m, (r + 1) * (r + 1), t * t);
    }
  }

  // ----- when n² wraps to zero

  function Pow2(k: nat): (p: nat)
    ensures p > 0
  {
    if k == 0 then 1 else 2 * Pow2(k - 1)
  }

  lemma PowersAre()
    ensures Pow2(32) == U32_LIMIT && Pow2(32) * Pow2(32) == U64_LIMIT
  {
    assert Pow2(8) == 256;
    assert Pow2(16) == 65536;
    assert Pow2(24) == 16777216;
  }

  lemma MultipleIs(n: nat, d: nat, q: nat)
    requires d > 0 && n == d * q
    ensures n % d == 0
  {
    QuotientIs(n, d);
    if n / d < q {
      MulGrows(d, n / d + 1, q);
      Distribute(n / d, 1, d);
    } else {
      MulGrows(d, q, n / d);
    }
  }

  /** Doubling a number doubles its divisors. */
  lemma DoubledMultiple(m: nat, c: nat, d: nat)
    requires c > 0 && d > 0
    ensures c * d > 0 && (c * m % (c * d) == 0 <==> m % d == 0)
  {
    MulGrows(c, 1, d);
    if m % d == 0 {
      assert c * m == c * d * (m / d) by { assert m == d * (m / d); assert c * (d * (m / d)) == c * d * (m / d); }
      MultipleIs(c * m, c * d, m / d);
    }
    if c * m % (c * d) == 0 {
      var q := c * m / (c * d);
      assert c * m == c * (d * q) by { assert c * d * q == c * (d * q); }
      Cancel(c, m, d * q);
      MultipleIs(m, d, q);
    }
  }

  lemma Cancel(c: nat, a: nat, b: nat)
    requires c > 0 && c * a == c * b
    ensures a == b
  {
    if a < b {
      MulGrows(c, a + 1, b);
      Distribute(a, 1, c);
    } else if b < a {
      MulGrows(c, b + 1, a);
      Distribute(b, 1, c);
    }
  }

  /** An odd number has an odd square. */
  lemma OddSquare(m: nat)
    ensures (2 * m + 1) * (2 * m + 1) % 2 == 1
  {
    SquareOfSum(2 * m, 1);
    assert 2 * m * (2 * m) == 2 * (2 * m * m);
  }

  /** n² is a multiple of 4ᵏ exactly when n is one of 2ᵏ. */
  lemma {:induction false} SquareMultiple(n: nat, k: nat)
    ensures Pow2(k) * Pow2(k) > 0
    ensures n * n % (Pow2(k) * Pow2(k)) == 0 <==> n % Pow2(k) == 0
  {
    MulGrows(Pow2(k), 1, Pow2(k));
    if k > 0 {
      var p := Pow2(k - 1);
      var m := n / 2;
      MulGrows(p, 1, p);
      assert Pow2(k) * Pow2(k) == 4 * (p * p);
      if n % 2 == 0 {
        assert n == 2 * m && n * n == 4 * (m * m);
        SquareMultiple(m, k - 1);
        DoubledMultiple(m * m, 4, p * p);
        DoubledMultiple(m, 2, p);
      } else {
        OddSquare(m);
        NotMultiple(n * n, p * p * 2);
        NotMultiple(n, p);
      }
    }
  }

  lemma DivisionIs(n: nat, m: nat)
    requires m > 0
    ensures n == m * (n / m) + n % m
  {
  }

  lemma EvenMultiple(d: nat, q: nat)
    ensures 2 * d * q % 2 == 0
  {
    assert 2 * d * q == 2 * (d * q);
  }

  lemma NotMultiple(n: nat, d: nat)
    requires n % 2 == 1 && d > 0
    ensures n % (2 * d) != 0
  {
    DivisionIs(n, 2 * d);
    EvenMultiple(d, n / (2 * d));
  }

  lemma SquareWraps(n: nat)
    ensures Wrap64(n * n) == 0 <==> n % U32_LIMIT == 0
  {
    PowersAre();
    SquareMultiple(n, 32);
  }

  lemma SquareFits(n: nat)
    requires 2 <= n < U32_LIMIT
    ensures 0 < n * n < U64_LIMIT
  {
    SquareGrows(n, U32_LIMIT - 1);
    SquareGrows(1, n);
  }

  /** Then no product wraps, and the subtraction does not saturate either. */
  lemma NothingWraps(values: seq<nat>)
    requires Fits(values)
    ensures Wrap64(SumSq(values)) * |values| == |values| * SumSq(values) < U64_LIMIT
    ensures Wrap64(Sum(values)) * Wrap64(Sum(values)) == Sum(values) * Sum(values) < U64_LIMIT
    ensures SaturatingSub(|values| * SumSq(values), Sum(values) * Sum(values)) == Spread(values)
  {
    var n, s, q := |values|, Sum(values), SumSq(values);
    CauchySchwarz(values);
    if n > 0 {
      MulGrows(q, 1, n);
    }
    if s > 0 {
      MulGrows(s, 1, s);
    }
  }

  lemma {:induction false} ClampedSums(vs: seq<nat>, bound: nat)
    requires forall i :: 0 <= i < |vs| ==> vs[i] <= bound
    ensures SumSq(vs) <= |vs| * (bound * bound)
  {
    if vs != [] {
      var n := |vs| - 1;
      ClampedSums(vs[..n], bound);
      SquareGrows(vs[n], bound);
      assert (n + 1) * (bound * bound) == n * (bound * bound) + bound * bound;
    }
  }

  /** Up to a million lines, with the clamps the features use, only the last product may saturate. */
  lemma ClampsFit(vs: seq<nat>)
    requires |vs| <= 1_000_000 && forall i :: 0 <= i < |vs| ==> vs[i] <= 4000
    ensures Fits(vs)
  {
    var n := |vs|;
    ClampedSums(vs, 4000);
    MulGrows(n, SumSq(vs), n * 16_000_000);
    assert n * (n * 16_000_000) == 16_000_000 * (n * n);
    SquareGrows(n, 1_000_000);
  }
}
