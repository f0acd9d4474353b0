/** Polynomials given by their linear factors 1 - r w: the energy of their coefficients is decided by their
    values on the unit circle, and pulling a root towards the circle's inside lowers it. */
module LinearFactors {
  import opened ComplexNumbers
  import opened FastFourier
  import opened FourierSpec
  import opened Parseval
  import opened Powers
  import L = Linear

  /** The product of the factors 1 - r w. */
  ghost function Factors(r: seq<Complex>, w: Complex): Complex {
    if r == [] then ONE else Mul(Sub(ONE, Mul(r[0], w)), Factors(r[1..], w))
  }

  /** The coefficients of a polynomial times 1 - z w. */
  ghost function TimesFactor(z: Complex, x: seq<Complex>): (y: seq<Complex>)
    ensures |y| == |x| + 1
  {
    Difference(x + [ZERO], [ZERO] + Scaled(z, x))
  }

  ghost function Expanded(r: seq<Complex>): (x: seq<Complex>)
    ensures |x| == |r| + 1
  {
    if r == [] then [ONE] else TimesFactor(r[0], Expanded(r[1..]))
  }

  // ----- Coefficients and values -----

  lemma FactorEvaluates(z: Complex, x: seq<Complex>, u: Complex)
    ensures Horner(TimesFactor(z, x), u) == Mul(Sub(ONE, Mul(z, u)), Horner(x, u))
  {
    hide Add, Sub, Mul, Horner, Scaled, Difference;
    var h := Horner(x, u);
    ScaledLength(z, x);
    HornerDifference(x + [ZERO], [ZERO] + Scaled(z, x), u);
    PaddedHorner(x, u);
    ShiftedHorner(Scaled(z, x), u);
    HornerScaled(z, x, u);
    MulAssoc(u, z, h);
    MulComm(u, z);
    MulComm(Sub(ONE, Mul(z, u)), h);
    MulSub(h, ONE, Mul(z, u));
    MulUnits(h);
    MulComm(h, Mul(z, u));
  }

  lemma ScaledLength(z: Complex, x: seq<Complex>)
    ensures |Scaled(z, x)| == |x|
  {
  }

  lemma PaddedHorner(x: seq<Complex>, u: Complex)
    ensures Horner(x + [ZERO], u) == Horner(x, u)
  {
    hide Add, Mul;
    HornerConcat(x, [ZERO], u);
    var zero := [ZERO];
    assert zero[1..] == [];
    MulUnits(u);
    AddZero(ZERO);
    MulUnits(Pow(u, |x|));
    AddZero(Horner(x, u));
  }

  lemma ShiftedHorner(x: seq<Complex>, u: Complex)
    ensures Horner([ZERO] + x, u) == Mul(u, Horner(x, u))
  {
    hide Add, Mul;
    assert ([ZERO] + x)[1..] == x;
    AddZero(Mul(u, Horner(x, u)));
  }

  lemma {:induction false} ExpandedEvaluates(r: seq<Complex>, u: Complex)
    ensures Horner(Expanded(r), u) == Factors(r, u)
  {
    hide Sub, Mul, TimesFactor;
    if r == [] {
      OnlyOne(u);
    } else {
      ExpandedEvaluates(r[1..], u);
      FactorEvaluates(r[0], Expanded(r[1..]), u);
    }
  }

  lemma OnlyOne(u: Complex)
    ensures Horner([ONE], u) == ONE
  {
    hide Mul;
    var one := [ONE];
    assert one[1..] == [];
    MulUnits(u);
  }

  ghost function Padded(x: seq<Complex>, n: nat): (y: seq<Complex>)
    ensures |y| == |x| + n
  {
    if n == 0 then x else Padded(x, n - 1) + [ZERO]
  }

  lemma {:induction false} PaddingIsNothing(x: seq<Complex>, n: nat, u: Complex)
    ensures Horner(Padded(x, n), u) == Horner(x, u) && Energy(Padded(x, n)) == Energy(x)
  {
    hide Horner, Energy;
    if n > 0 {
      PaddingIsNothing(x, n - 1, u);
      PaddedHorner(Padded(x, n - 1), u);
      EnergyConcat(Padded(x, n - 1), [ZERO]);
      NoEnergy();
    }
  }

  lemma NoEnergy()
    ensures Energy([ZERO]) == 0.0
  {
    var zero := [ZERO];
    assert zero[1..] == [];
  }

  /** The values at the roots of unity of order 2^m. */
  ghost function Values(r: seq<Complex>, m: nat, turn: Turns): (v: seq<Complex>)
    ensures |v| == Pow2(m)
  {
    seq(Pow2(m), k requires 0 <= k => Factors(r, Pow(turn(false, Pow2(m)), k)))
  }

  /** The values on the circle tell the energy of the coefficients. */
  lemma ValuesTellEnergy(r: seq<Complex>, m: nat, turn: Turns)
    requires IsExponential(turn) && |r| < Pow2(m)
    ensures Energy(Values(r, m, turn)) == L.Times(Pow2(m) as real, Energy(Expanded(r)))
  {
    hide Factors, Expanded, Padded, Energy, Horner, DftSum, Dft, Pow, IsExponential;
    var w := turn(false, Pow2(m));
    var x := Padded(Expanded(r), Pow2(m) - |r| - 1);
    forall k: nat | k < Pow2(m) ensures Values(r, m, turn)[k] == Dft(x, w)[k] {
      DftIsHorner(x, w, k);
      PaddingIsNothing(Expanded(r), Pow2(m) - |r| - 1, Pow(w, k));
      ExpandedEvaluates(r, Pow(w, k));
    }
    assert Values(r, m, turn) == Dft(x, w);
    TransformKeepsEnergy(x, m, turn, false);
    PaddingIsNothing(Expanded(r), Pow2(m) - |r| - 1, w);
  }

  ghost predicate SameValues(r: seq<Complex>, s: seq<Complex>) {
    |r| == |s| && forall w: Complex :: Factors(r, w) == Factors(s, w)
  }

  lemma SameValuesSameEnergy(r: seq<Complex>, s: seq<Complex>, m: nat, turn: Turns)
    requires IsExponential(turn) && |r| < Pow2(m) && SameValues(r, s)
    ensures Energy(Expanded(r)) == Energy(Expanded(s))
  {
    hide Factors, Expanded, Energy, Pow, IsExponential, L.Times;
    assert Values(r, m, turn) == Values(s, m, turn);
    ValuesTellEnergy(r, m, turn);
    ValuesTellEnergy(s, m, turn);
    CancelTimes(Pow2(m) as real, Energy(Expanded(r)), Energy(Expanded(s)));
  }

  lemma CancelTimes(n: real, x: real, y: real)
    requires n != 0.0 && L.Times(n, x) == L.Times(n, y)
    ensures x == y
  {
    Cancel(n, x, y);
  }

  lemma {:induction false} FactorsConcat(a: seq<Complex>, b: seq<Complex>, w: Complex)
    ensures Factors(a + b, w) == Mul(Factors(a, w), Factors(b, w))
  {
    hide Sub, Mul;
    if a == [] {
      assert a + b == b;
      MulUnits(Factors(b, w));
    } else {
      assert (a + b)[1..] == a[1..] + b;
      FactorsConcat(a[1..], b, w);
      MulAssoc(Sub(ONE, Mul(a[0], w)), Factors(a[1..], w), Factors(b, w));
    }
  }

  /** The order of the factors does not matter. */
  lemma Reordered(a: seq<Complex>, b: seq<Complex>, c: seq<Complex>)
    ensures SameValues(a + (b + c), b + (a + c))
  {
    hide Mul, Factors;
    forall w: Complex ensures Factors(a + (b + c), w) == Factors(b + (a + c), w) {
      FactorsConcat(a, b + c, w);
      FactorsConcat(b, c, w);
      FactorsConcat(b, a + c, w);
      FactorsConcat(a, c, w);
      MulAssoc(Factors(a, w), Factors(b, w), Factors(c, w));
      MulAssoc(Factors(b, w), Factors(a, w), Factors(c, w));
      MulComm(Factors(a, w), Factors(b, w));
    }
  }

  // ----- One factor -----

  ghost function Cross(a: Complex, b: Complex): real {
    a.re * b.re + a.im * b.im
  }

  ghost function Overlap(x: seq<Complex>, y: seq<Complex>): real
    requires |x| == |y|
  {
    if x == [] then 0.0 else Cross(x[0], y[0]) + Overlap(x[1..], y[1..])
  }

  ghost function Stretched(t: real, x: seq<Complex>): (y: seq<Complex>)
    ensures |y| == |x|
  {
    seq(|x|, i requires 0 <= i < |x| => Scale(t, x[i]))
  }

  lemma {:induction false} EnergyOfDifference(x: seq<Complex>, y: seq<Complex>)
    requires |x| == |y|
    ensures Energy(Difference(x, y)) == Energy(x) + Energy(y) - 2.0 * Overlap(x, y)
  {
    hide NormSq, Sub, Cross;
    if x != [] {
      assert Difference(x, y)[1..] == Difference(x[1..], y[1..]);
      EnergyOfDifference(x[1..], y[1..]);
      DifferenceAt(x[0], y[0]);
    }
  }

  lemma DifferenceAt(a: Complex, b: Complex)
    ensures NormSq(Sub(a, b)) == NormSq(a) + NormSq(b) - 2.0 * Cross(a, b)
  {
    SquareOfDifference(a.re, b.re);
    SquareOfDifference(a.im, b.im);
  }

  lemma SquareOfDifference(a: real, b: real)
    ensures (a - b) * (a - b) == a * a + b * b - 2.0 * (a * b)
  {
  }

  lemma {:induction false} StretchedOverlap(x: seq<Complex>, t: real, y: seq<Complex>)
    requires |x| == |y|
    ensures Overlap(x, Stretched(t, y)) == t * Overlap(x, y)
    ensures Energy(Stretched(t, y)) == t * t * Energy(y)
  {
    hide NormSq, Cross, Scale;
    if x != [] {
      assert Stretched(t, y)[1..] == Stretched(t, y[1..]);
      StretchedOverlap(x[1..], t, y[1..]);
      StretchedAt(x[0], t, y[0]);
      L.Distribute(t, Cross(x[0], y[0]), Overlap(x[1..], y[1..]));
      L.Distribute(t * t, NormSq(y[0]), Energy(y[1..]));
    }
  }

  lemma StretchedAt(a: Complex, t: real, b: Complex)
    ensures Cross(a, Scale(t, b)) == t * Cross(a, b) && NormSq(Scale(t, b)) == t * t * NormSq(b)
  {
    assert a.re * (t * b.re) == t * (a.re * b.re) && a.im * (t * b.im) == t * (a.im * b.im);
    assert (t * b.re) * (t * b.re) == t * t * (b.re * b.re) && (t * b.im) * (t * b.im) == t * t * (b.im * b.im);
    L.Distribute(t, a.re * b.re, a.im * b.im);
    L.Distribute(t * t, b.re * b.re, b.im * b.im);
  }

  /** How far neighbouring coefficients agree after a turn by u. */
  ghost function Agreement(u: Complex, x: seq<Complex>): real {
    Overlap(x + [ZERO], [ZERO] + Scaled(u, x))
  }

  /** A root t u makes (1 + t^2) times the energy, less 2 t times the agreement. */
  lemma FactorEnergy(t: real, u: Complex, x: seq<Complex>)
    requires NormSq(u) == 1.0
    ensures Energy(TimesFactor(Scale(t, u), x)) ==
            Energy(x) + t * t * Energy(x) - 2.0 * (t * Agreement(u, x))
  {
    hide NormSq, Overlap, Energy, Difference;
    var low, high := x + [ZERO], [ZERO] + Scaled(u, x);
    StretchedScaled(t, u, x);
    EnergyOfDifference(low, Stretched(t, high));
    StretchedOverlap(low, t, high);
    EnergyConcat(x, [ZERO]);
    EnergyConcat([ZERO], Scaled(u, x));
    NoEnergy();
    EnergyScaled(u, x);
  }

  lemma StretchedScaled(t: real, u: Complex, x: seq<Complex>)
    ensures [ZERO] + Scaled(Scale(t, u), x) == Stretched(t, [ZERO] + Scaled(u, x))
  {
    hide Mul;
    var a, b := [ZERO] + Scaled(Scale(t, u), x), Stretched(t, [ZERO] + Scaled(u, x));
    forall i | 0 <= i < |a| ensures a[i] == b[i] {
      if i > 0 {
        MulComm(Scale(t, u), x[i - 1]);
        MulScale(x[i - 1], t, u);
        MulComm(x[i - 1], u);
      }
    }
  }

  // ----- Neighbours cannot agree everywhere -----

  lemma {:induction false} LaterDiffer(u: Complex, x: seq<Complex>, k: nat)
    requires NormSq(u) == 1.0 && k < |x|
    ensures NormSq(x[k]) <= (k + 1) as real * Energy(TimesFactor(u, x)[..k + 1])
  {
    hide NormSq, Add, Sub, Mul, Energy;
    var e := TimesFactor(u, x);
    assert e[..k + 1] == e[..k] + [e[k]];
    EnergyConcat(e[..k], [e[k]]);
    OneEnergy(e[k]);
    EnergyNonNegative(e[..k]);
    if k == 0 {
      assert e[0] == Sub(x[0], ZERO);
      SubZero(x[0]);
    } else {
      LaterDiffer(u, x, k - 1);
      var b := Mul(u, x[k - 1]);
      assert e[k] == Sub(x[k], b);
      AddBack(x[k], b);
      NormSqMul(u, x[k - 1]);
      WeightedSum(e[k], b, k as real);
      Weigh(NormSq(x[k]), NormSq(e[k]), NormSq(b), Energy(e[..k]), k as real);
    }
  }

  lemma OneEnergy(z: Complex)
    ensures Energy([z]) == NormSq(z)
  {
    var one := [z];
    assert one[1..] == [];
  }

  lemma SubZero(z: Complex)
    ensures Sub(z, ZERO) == z
  {
  }

  lemma AddBack(a: Complex, b: Complex)
    ensures Add(Sub(a, b), b) == a
  {
  }

  lemma WeightedSum(a: Complex, b: Complex, k: real)
    ensures L.Times(k, NormSq(Add(a, b))) <= L.Times(k * (1.0 + k), NormSq(a)) + L.Times(k + 1.0, NormSq(b))
  {
    Parts(a, b);
    WeightedSquares(a.re, b.re, k);
    WeightedSquares(a.im, b.im, k);
    hide *;
    AddWeighted(k, k * (1.0 + k), k + 1.0, L.Square(a.re + b.re), L.Square(a.im + b.im),
                L.Square(a.re), L.Square(a.im), L.Square(b.re), L.Square(b.im));
  }

  lemma Parts(a: Complex, b: Complex)
    ensures NormSq(a) == L.Square(a.re) + L.Square(a.im) && NormSq(b) == L.Square(b.re) + L.Square(b.im)
    ensures NormSq(Add(a, b)) == L.Square(a.re + b.re) + L.Square(a.im + b.im)
  {
  }

  lemma AddWeighted(k: real, m: real, n: real, x: real, x': real, y: real, y': real, z: real, z': real)
    requires L.Times(k, x) <= L.Times(m, y) + L.Times(n, z) && L.Times(k, x') <= L.Times(m, y') + L.Times(n, z')
    ensures L.Times(k, x + x') <= L.Times(m, y + y') + L.Times(n, z + z')
  {
    L.Distribute(k, x, x');
    L.Distribute(m, y, y');
    L.Distribute(n, z, z');
  }

  lemma WeightedSquares(a: real, b: real, k: real)
    ensures L.Times(k, L.Square(a + b)) <= L.Times(k * (1.0 + k), L.Square(a)) + L.Times(k + 1.0, L.Square(b))
  {
    var d := k * a - b;
    L.SquareIsPositive(d, d * d);
    var p := k * a;
    SquareOfDifference(p, b);
    assert p * p == k * k * (a * a) && p * b == k * (a * b);
    assert (a + b) * (a + b) == a * a + b * b + 2.0 * (a * b);
    L.Distribute(k, a * a + b * b, 2.0 * (a * b));
    L.Distribute(k, a * a, b * b);
    assert k * (1.0 + k) * (a * a) == k * (a * a) + k * k * (a * a);
  }

  lemma Weigh(x: real, e: real, b: real, s: real, k: real)
    requires k > 0.0 && L.Times(k, x) <= L.Times(k * (1.0 + k), e) + L.Times(k + 1.0, b) && b <= k * s
    ensures x <= (k + 1.0) * (s + e)
  {
    var y := (k + 1.0) * (s + e);
    MonotoneTimes(k + 1.0, b, k * s);
    assert k * y == k * (1.0 + k) * e + (k + 1.0) * (k * s);
    L.Distribute(k, x - y, y);
    if x > y {
      L.PositiveProduct(k, x - y, k * (x - y));
    }
  }

  lemma MonotoneTimes(c: real, a: real, b: real)
    requires c >= 0.0 && a <= b
    ensures c * a <= c * b
  {
    if a < b && c > 0.0 {
      L.PositiveProduct(c, b - a, c * (b - a));
      L.Distribute(c, b - a, a);
    }
  }

  lemma {:induction false} EnergyBound(x: seq<Complex>, b: real)
    requires forall i | 0 <= i < |x| :: NormSq(x[i]) <= b
    ensures Energy(x) <= |x| as real * b
  {
    hide NormSq;
    if x != [] {
      EnergyBound(x[1..], b);
    }
  }

  lemma CoefficientBound(u: Complex, x: seq<Complex>, k: nat)
    requires NormSq(u) == 1.0 && k < |x|
    ensures NormSq(x[k]) <= |x| as real * Energy(TimesFactor(u, x))
  {
    hide NormSq, Energy, TimesFactor;
    var e, n := TimesFactor(u, x), |x| as real;
    var low, high := e[..k + 1], e[k + 1..];
    LaterDiffer(u, x, k);
    assert e == low + high;
    EnergyConcat(low, high);
    EnergyNonNegative(high);
    EnergyNonNegative(low);
    WeakenBound(NormSq(x[k]), (k + 1) as real, Energy(low), n, Energy(e));
  }

  lemma WeakenBound(x: real, a: real, b: real, c: real, d: real)
    requires x <= a * b && 0.0 <= a <= c && 0.0 <= b <= d
    ensures x <= c * d
  {
    MonotoneTimes(a, b, d);
    MonotoneProduct(a, c, d);
  }

  lemma DifferencesCarryEnergy(u: Complex, x: seq<Complex>)
    requires NormSq(u) == 1.0
    ensures Energy(TimesFactor(u, x)) >= 0.0
    ensures Energy(x) <= |x| as real * (|x| as real * Energy(TimesFactor(u, x)))
  {
    hide NormSq, Energy, TimesFactor;
    EnergyNonNegative(TimesFactor(u, x));
    forall k | 0 <= k < |x| ensures NormSq(x[k]) <= |x| as real * Energy(TimesFactor(u, x)) {
      CoefficientBound(u, x, k);
    }
    EnergyBound(x, |x| as real * Energy(TimesFactor(u, x)));
  }

  lemma MonotoneProduct(a: real, b: real, c: real)
    requires a <= b && c >= 0.0
    ensures a * c <= b * c
  {
    MonotoneTimes(c, a, b);
  }

  // ----- Pulling roots in -----

  /** A polynomial with n coefficients is short enough to notice a root that moves to radius r. */
  predicate Noticeable(n: nat, r: real) {
    0.0 <= r <= 1.0 && (2.0 - 2.0 * r) * (n as real * n as real) <= 1.0
  }

  lemma PullingLowers(t: real, r: real, u: Complex, x: seq<Complex>)
    requires NormSq(u) == 1.0 && r < t && Energy(x) > 0.0 && Noticeable(|x|, r)
    ensures Energy(TimesFactor(Scale(r, u), x)) < Energy(TimesFactor(Scale(t, u), x))
  {
    hide *;
    var s, c, e := Energy(x), Agreement(u, x), Energy(TimesFactor(u, x));
    FactorEnergy(t, u, x);
    FactorEnergy(r, u, x);
    FactorEnergy(1.0, u, x);
    ScaleOne(u);
    DifferencesCarryEnergy(u, x);
    assert e == 2.0 * s - 2.0 * c;
    NoticeableMeans(|x|, r);
    GapIsPositive(s, c, e, t, r, |x| as real);
  }

  lemma NoticeableMeans(n: nat, r: real)
    ensures Noticeable(n, r) <==> 0.0 <= r <= 1.0 && (2.0 - 2.0 * r) * (n as real * n as real) <= 1.0
  {
  }

  lemma ScaleOne(u: Complex)
    ensures Scale(1.0, u) == u
  {
  }

  lemma GapIsPositive(s: real, c: real, e: real, t: real, r: real, n: real)
    requires s > 0.0 && e >= 0.0 && e == 2.0 * s - 2.0 * c && s <= n * (n * e)
    requires 0.0 <= r <= 1.0 && r < t && (2.0 - 2.0 * r) * (n * n) <= 1.0
    ensures s + r * r * s - 2.0 * (r * c) < s + t * t * s - 2.0 * (t * c)
  {
    var k, d := 2.0 - 2.0 * r, t - r;
    MonotoneTimes(k, s, n * (n * e));
    assert k * (n * (n * e)) == k * (n * n) * e;
    MonotoneProduct(k * (n * n), 1.0, e);
    assert k * s <= e;
    var q := (t + r - 2.0) * s + e;
    assert q >= d * s by {
      assert (t + r - 2.0) * s + k * s == d * s;
    }
    L.PositiveProduct(d, s, d * s);
    L.PositiveProduct(d, q, d * q);
    GapFactors(s, c, e, t, r);
  }

  lemma GapFactors(s: real, c: real, e: real, t: real, r: real)
    requires e == 2.0 * s - 2.0 * c
    ensures (t - r) * ((t + r - 2.0) * s + e) == t * t * s - 2.0 * (t * c) - (r * r * s - 2.0 * (r * c))
  {
    var d, q := t - r, (t + r - 2.0) * s + e;
    assert q == (t + r) * s + -2.0 * c;
    L.Distribute(d, (t + r) * s, -2.0 * c);
    assert d * ((t + r) * s) == t * t * s - r * r * s;
    assert d * (-2.0 * c) == -2.0 * (t * c) + 2.0 * (r * c);
    assert d * q == t * t * s - r * r * s - 2.0 * (t * c) + 2.0 * (r * c);
  }

  /** m is z, or z lay beyond radius r and m is its direction at that radius. */
  ghost predicate PulledTo(z: Complex, m: Complex, r: real) {
    m == z || exists t: real, u: Complex :: PulledAlong(z, m, r, t, u)
  }

  predicate PulledAlong(z: Complex, m: Complex, r: real, t: real, u: Complex) {
    NormSq(u) == 1.0 && t > r && z == Scale(t, u) && m == Scale(r, u)
  }

  lemma {:induction false} ExpandedHasEnergy(r: seq<Complex>)
    ensures Expanded(r)[0] == ONE && Energy(Expanded(r)) > 0.0
  {
    hide NormSq, Energy, TimesFactor;
    if r != [] {
      ExpandedHasEnergy(r[1..]);
      FirstCoefficient(r[0], Expanded(r[1..]));
    }
    OneIsUnit();
    EnergyNonNegative(Expanded(r));
    assert NormSq(Expanded(r)[0]) == 1.0;
  }

  lemma FirstCoefficient(z: Complex, x: seq<Complex>)
    requires x != []
    ensures TimesFactor(z, x)[0] == x[0]
  {
    hide Mul;
    SubZero(x[0]);
  }

  lemma OnePull(z: Complex, m: Complex, rest: seq<Complex>, r: real)
    requires PulledTo(z, m, r) && Noticeable(|rest| + 1, r)
    ensures Energy(Expanded([m] + rest)) <= Energy(Expanded([z] + rest))
    ensures m != z ==> Energy(Expanded([m] + rest)) < Energy(Expanded([z] + rest))
  {
    ExpandedHead(z, rest);
    ExpandedHead(m, rest);
    hide NormSq, Energy, TimesFactor, Expanded, Scale;
    if m != z {
      var t: real, u: Complex :| PulledAlong(z, m, r, t, u);
      ExpandedHasEnergy(rest);
      PullingLowers(t, r, u, Expanded(rest));
    }
  }

  lemma ExpandedHead(z: Complex, rest: seq<Complex>)
    ensures Expanded([z] + rest) == TimesFactor(z, Expanded(rest))
  {
    assert ([z] + rest)[1..] == rest;
  }

  ghost predicate AllPulled(zeros: seq<Complex>, moved: seq<Complex>, r: real) {
    |zeros| == |moved| && forall i | 0 <= i < |zeros| :: PulledTo(zeros[i], moved[i], r)
  }

  /** Pulling roots in lowers the energy, strictly if any root moves. */
  lemma {:induction false} PullsLowerEnergy(zeros: seq<Complex>, moved: seq<Complex>, base: seq<Complex>, r: real,
                                            m: nat, turn: Turns)
    requires IsExponential(turn) && |zeros| + |base| < Pow2(m) && Noticeable(|zeros| + |base|, r)
    requires AllPulled(zeros, moved, r)
    ensures Energy(Expanded(moved + base)) <= Energy(Expanded(zeros + base))
    ensures zeros != moved ==> Energy(Expanded(moved + base)) < Energy(Expanded(zeros + base))
    decreases |zeros|
  {
    hide IsExponential, Energy, Expanded, SameValues, PulledTo, Noticeable;
    if zeros != [] {
      var z, y := zeros[0], moved[0];
      var zs, ms := zeros[1..], moved[1..];
      assert zeros == [z] + zs && moved == [y] + ms;
      OnePull(z, y, zs + base, r);
      assert [z] + (zs + base) == zeros + base;
      Reordered([y], zs, base);
      SameValuesSameEnergy([y] + (zs + base), zs + ([y] + base), m, turn);
      PullsLowerEnergy(zs, ms, [y] + base, r, m, turn);
      Reordered(ms, [y], base);
      SameValuesSameEnergy(ms + ([y] + base), [y] + (ms + base), m, turn);
      assert [y] + (ms + base) == moved + base;
    }
  }
}
