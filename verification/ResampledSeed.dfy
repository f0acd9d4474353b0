/** Projecting the zeros of a seed inside the unit circle and resampling it by an all-pass warp
    (tools/gen_beam_error_profiles.py). */
module ResampledSeed {
  import opened Wrappers
  import opened ComplexNumbers
  import opened Cascade
  import opened AllPass
  import L = Linear

  // ----- The warp of the unit circle -----

  predicate Contracting(alpha: real) {
    -1.0 < alpha < 1.0
  }

  lemma BelowModulus(alpha: real, w: Complex)
    requires OnCircle(w)
    ensures NormSq(Above(alpha, w)) == NormSq(Below(alpha, w))
    ensures NormSq(Below(alpha, w)) == 0.0 ==> alpha * alpha == 1.0
  {
    var ax, ay := alpha * w.re, alpha * w.im;
    assert ax * ax + ay * ay == alpha * alpha by {
      assert ax * ax == alpha * alpha * (w.re * w.re) && ay * ay == alpha * alpha * (w.im * w.im);
      Unit(alpha * alpha, w.re * w.re, w.im * w.im);
    }
    assert Below(alpha, w) == Complex(1.0 - ax, -ay);
    assert (1.0 - ax) * (1.0 - ax) == 1.0 - 2.0 * ax + ax * ax;
    NonZeroParts(Below(alpha, w));
    assert ax == 1.0 && ay == 0.0 ==> ax * ax + ay * ay == 1.0;
  }

  lemma Unit(k: real, p: real, q: real)
    requires p + q == 1.0
    ensures k * p + k * q == k
  {
    assert k * p + k * q == k * (p + q);
  }

  lemma BelowIsNotZero(alpha: real, w: Complex)
    requires Contracting(alpha) && OnCircle(w)
    ensures NormSq(Below(alpha, w)) != 0.0
  {
    hide NormSq, Below;
    BelowModulus(alpha, w);
    SquareBelowOne(alpha);
  }

  lemma NonZeroParts(z: Complex)
    ensures z != ZERO ==> NormSq(z) != 0.0
  {
    L.SquareIsPositive(z.re, z.re * z.re);
    L.SquareIsPositive(z.im, z.im * z.im);
  }

  lemma SquareBelowOne(alpha: real)
    requires Contracting(alpha)
    ensures alpha * alpha < 1.0
  {
    assert 1.0 - alpha * alpha == (1.0 - alpha) * (1.0 + alpha);
    L.PositiveProduct(1.0 - alpha, 1.0 + alpha, (1.0 - alpha) * (1.0 + alpha));
  }

  /** (w - alpha) / (1 - alpha w) */
  function Warp(alpha: real, w: Complex): Complex
    requires Contracting(alpha) && OnCircle(w)
  {
    BelowIsNotZero(alpha, w);
    Div(Above(alpha, w), Below(alpha, w))
  }

  lemma WarpTimes(alpha: real, w: Complex)
    requires Contracting(alpha) && OnCircle(w)
    ensures Mul(Warp(alpha, w), Below(alpha, w)) == Above(alpha, w)
  {
    hide Mul, Div, NormSq, Below, Above;
    BelowIsNotZero(alpha, w);
    DivMul(Above(alpha, w), Below(alpha, w));
  }

  lemma WarpStaysOnCircle(alpha: real, w: Complex)
    requires Contracting(alpha) && OnCircle(w)
    ensures OnCircle(Warp(alpha, w))
  {
    hide Mul, Div, NormSq, Below, Above, Warp;
    WarpTimes(alpha, w);
    BelowIsNotZero(alpha, w);
    BelowModulus(alpha, w);
    var m := NormSq(Below(alpha, w));
    NormSqMul(Warp(alpha, w), Below(alpha, w));
    Cancel(m, NormSq(Warp(alpha, w)), 1.0);
  }

  /** The warp by -alpha undoes the warp by alpha. */
  lemma WarpBack(alpha: real, v: Complex)
    requires Contracting(alpha) && OnCircle(v)
    ensures OnCircle(Warp(-alpha, v)) && Warp(alpha, Warp(-alpha, v)) == v
  {
    WarpStaysOnCircle(-alpha, v);
    WarpTimes(-alpha, v);
    var w := Warp(-alpha, v);
    CrossMultiplied(alpha, v, w);
    BelowIsNotZero(alpha, w);
    hide Mul, Div, NormSq, Below, Above;
    DivUnique(Above(alpha, w), Below(alpha, w), v);
  }

  lemma CrossMultiplied(alpha: real, v: Complex, w: Complex)
    requires Mul(w, Below(-alpha, v)) == Above(-alpha, v)
    ensures Mul(v, Below(alpha, w)) == Above(alpha, w)
  {
    hide Mul;
    MulSub(w, ONE, Scale(-alpha, v));
    MulSub(v, ONE, Scale(alpha, w));
    MulUnits(w);
    MulUnits(v);
    MulScale(w, -alpha, v);
    MulScale(v, alpha, w);
    MulComm(v, w);
    ScaleNegated(alpha, Mul(v, w));
  }

  lemma ScaleNegated(r: real, z: Complex)
    ensures Scale(-r, z) == Neg(Scale(r, z))
  {
  }

  // ----- Roots -----

  datatype SeedError = LeadingZero | UnstablePole

  datatype Roots = Roots(first: Complex, second: Complex)

  /** A square root of every complex number, as cmath.sqrt is one. */
  ghost predicate ComplexRoot(root: Complex -> Complex) {
    forall d: Complex :: Mul(root(d), root(d)) == d
  }

  function QuadraticRoots(a: real, b: real, c: real, root: Complex -> Complex): Result<Roots, SeedError> {
    if a == 0.0 then Err(LeadingZero)
    else
      var discriminant := root(Complex(b * b - 4.0 * a * c, 0.0));
      Ok(Roots(DivReal(Add(Complex(-b, 0.0), discriminant), 2.0 * a),
               DivReal(Sub(Complex(-b, 0.0), discriminant), 2.0 * a)))
  }

  /** r1 and r2 are the roots of a z^2 + b z + c. */
  predicate AreRoots(a: real, b: real, c: real, r: Roots) {
    Scale(a, Add(r.first, r.second)) == Complex(-b, 0.0) && Scale(a, Mul(r.first, r.second)) == Complex(c, 0.0)
  }

  /** Both real, or each the conjugate of the other. */
  predicate Paired(r: Roots) {
    (r.first.im == 0.0 && r.second.im == 0.0) || r.second == Conj(r.first)
  }

  lemma RootsAreRoots(a: real, b: real, c: real, root: Complex -> Complex)
    requires ComplexRoot(root) && a != 0.0
    ensures var r := QuadraticRoots(a, b, c, root).value; AreRoots(a, b, c, r) && Paired(r)
  {
    var e := b * b - 4.0 * a * c;
    var d := root(Complex(e, 0.0));
    assert Mul(d, d) == Complex(e, 0.0);
    var r := QuadraticRoots(a, b, c, root).value;
    var m := 2.0 * a;
    QuotientTimes(Add(Complex(-b, 0.0), d), m, r.first);
    QuotientTimes(Sub(Complex(-b, 0.0), d), m, r.second);
    assert d.re * d.im == 0.0;
    RootParts(a, b, d, r);
    RootSum(a, b, r, d);
    RootProduct(a, b, c, d, r, m);
  }

  lemma RootParts(a: real, b: real, d: Complex, r: Roots)
    requires a != 0.0 && d.re * d.im == 0.0
    requires r.first == DivReal(Add(Complex(-b, 0.0), d), 2.0 * a)
    requires r.second == DivReal(Sub(Complex(-b, 0.0), d), 2.0 * a)
    ensures Paired(r)
  {
    L.PositiveProduct(1.0, 1.0, 1.0);
    if d.im != 0.0 {
      assert d.re == d.re * d.im / d.im;
      assert r.first == Complex(-b / (2.0 * a), d.im / (2.0 * a));
      assert -d.im / (2.0 * a) == -(d.im / (2.0 * a));
    }
  }

  lemma RootSum(a: real, b: real, r: Roots, d: Complex)
    requires Complex(2.0 * a * r.first.re, 2.0 * a * r.first.im) == Add(Complex(-b, 0.0), d)
    requires Complex(2.0 * a * r.second.re, 2.0 * a * r.second.im) == Sub(Complex(-b, 0.0), d)
    ensures Scale(a, Add(r.first, r.second)) == Complex(-b, 0.0)
  {
    L.Distribute(a, r.first.re, r.second.re);
    L.Distribute(a, r.first.im, r.second.im);
    assert 2.0 * (a * r.first.re) == 2.0 * a * r.first.re && 2.0 * (a * r.second.re) == 2.0 * a * r.second.re;
    assert 2.0 * (a * r.first.im) == 2.0 * a * r.first.im && 2.0 * (a * r.second.im) == 2.0 * a * r.second.im;
  }

  lemma RootProduct(a: real, b: real, c: real, d: Complex, r: Roots, m: real)
    requires a != 0.0 && m == 2.0 * a && Mul(d, d) == Complex(b * b - 4.0 * a * c, 0.0)
    requires Complex(m * r.first.re, m * r.first.im) == Add(Complex(-b, 0.0), d)
    requires Complex(m * r.second.re, m * r.second.im) == Sub(Complex(-b, 0.0), d)
    ensures Scale(a, Mul(r.first, r.second)) == Complex(c, 0.0)
  {
    var p, n, q := Scale(m, r.first), Complex(-b, 0.0), Mul(r.first, r.second);
    assert Scale(m, r.second) == Sub(n, d) && p == Add(n, d);
    assert Mul(n, n) == Complex(b * b, 0.0);
    hide Mul, Scale, Add, Sub;
    DifferenceOfSquares(n, d);
    MulScale(p, m, r.second);
    MulComm(p, r.second);
    MulScale(r.second, m, r.first);
    MulComm(r.second, r.first);
    assert Scale(m, Scale(m, q)) == Sub(Complex(b * b, 0.0), Complex(b * b - 4.0 * a * c, 0.0));
    ScaledTwice(m, a, q, b * b, 4.0 * a * c, c);
  }

  lemma DifferenceOfSquares(n: Complex, d: Complex)
    ensures Mul(Add(n, d), Sub(n, d)) == Sub(Mul(n, n), Mul(d, d))
  {
    assert Mul(Add(n, d), Sub(n, d)) == Sub(Add(Mul(n, n), Mul(n, d)), Add(Mul(n, d), Mul(d, d))) by {
      hide Mul, Add, Sub;
      MulSub(Add(n, d), n, d);
      MulComm(Add(n, d), n);
      MulComm(Add(n, d), d);
      MulAdd(n, n, d);
      MulAdd(d, n, d);
      MulComm(n, d);
    }
    hide Mul;
  }

  lemma ScaledTwice(m: real, a: real, q: Complex, b: real, e: real, c: real)
    requires a != 0.0 && m == 2.0 * a && e == 4.0 * a * c
    requires Scale(m, Scale(m, q)) == Sub(Complex(b, 0.0), Complex(b - e, 0.0))
    ensures Scale(a, q) == Complex(c, 0.0)
  {
    TwiceScaled(m, a, q.re, c);
    TwiceScaled(m, a, q.im, 0.0);
  }

  lemma TwiceScaled(m: real, a: real, x: real, c: real)
    requires a != 0.0 && m == 2.0 * a && m * (m * x) == 4.0 * a * c
    ensures a * x == c
  {
    assert m * (m * x) == 4.0 * a * (a * x);
    Cancel(4.0 * a, a * x, c);
  }

  /** The quadratic in the delay vanishes at the reciprocals of its roots. */
  lemma FactoredEval(a: real, b: real, c: real, r: Roots, w: Complex)
    requires AreRoots(a, b, c, r)
    ensures Eval(Quadratic(a, b, c), w) ==
            Scale(a, Mul(Sub(ONE, Mul(r.first, w)), Sub(ONE, Mul(r.second, w))))
  {
    var p, q := Mul(r.first, w), Mul(r.second, w);
    EvalTerms(Quadratic(a, b, c), w);
    hide Eval, Mul, AreRoots;
    ProductOfDifferences(ONE, p, ONE, q);
    MulUnits(ONE);
    MulUnits(p);
    MulUnits(q);
    LinearTerm(a, b, c, r, w);
    SquareTerm(a, b, c, r, w);
    ScaleTerms(a, p, q, Mul(p, q));
    ScaleNegated(b, w);
  }

  lemma ScaleTerms(a: real, p: Complex, q: Complex, t: Complex)
    ensures Scale(a, Add(Sub(Sub(ONE, q), p), t)) ==
            Add(Sub(Complex(a, 0.0), Scale(a, Add(p, q))), Scale(a, t))
  {
    ScaleTermsEntry(a, 1.0, p.re, q.re, t.re);
    ScaleTermsEntry(a, 0.0, p.im, q.im, t.im);
  }

  lemma ScaleTermsEntry(a: real, one: real, p: real, q: real, t: real)
    ensures a * (one - q - p + t) == a * one - a * (p + q) + a * t
  {
  }

  lemma LinearTerm(a: real, b: real, c: real, r: Roots, w: Complex)
    requires AreRoots(a, b, c, r)
    ensures Scale(a, Add(Mul(r.first, w), Mul(r.second, w))) == Scale(-b, w)
  {
    hide Mul, Scale, Add;
    MulComm(r.first, w);
    MulComm(r.second, w);
    MulAdd(w, r.first, r.second);
    MulScale(w, a, Add(r.first, r.second));
    RealTimes(w, -b);
  }

  lemma SquareTerm(a: real, b: real, c: real, r: Roots, w: Complex)
    requires AreRoots(a, b, c, r)
    ensures Scale(a, Mul(Mul(r.first, w), Mul(r.second, w))) == Scale(c, Mul(w, w))
  {
    hide Mul, Scale, Add;
    MulSwap(r.first, w, r.second, w);
    MulComm(Mul(r.first, r.second), Mul(w, w));
    MulScale(Mul(w, w), a, Mul(r.first, r.second));
    RealTimes(Mul(w, w), c);
  }

  // ----- Stable poles -----

  ghost predicate Stable(s: Section) {
    exists r: Roots :: StableWith(s, r)
  }

  predicate StableWith(s: Section, r: Roots) {
    AreRoots(1.0, s.a1, s.a2, r) && NormSq(r.first) < 1.0 && NormSq(r.second) < 1.0
  }

  lemma FactorIsNotZero(r: Complex, w: Complex)
    requires NormSq(r) < 1.0 && NormSq(w) <= 1.0
    ensures NormSq(Sub(ONE, Mul(r, w))) != 0.0
  {
    hide Mul, NormSq, Sub;
    var z := Mul(r, w);
    NonZeroParts(Sub(ONE, z));
    NormSqMul(r, w);
    NormSqNonNegative(r);
    ProductBelowOne(NormSq(r), NormSq(w));
    DifferenceFromOne(z);
  }

  lemma DifferenceFromOne(z: Complex)
    ensures Sub(ONE, z) == ZERO ==> NormSq(z) == 1.0
  {
    assert NormSq(ONE) == 1.0;
    hide NormSq;
  }

  lemma ProductBelowOne(p: real, q: real)
    requires 0.0 <= p < 1.0 && q <= 1.0
    ensures p * q < 1.0
  {
    if q < 1.0 && p > 0.0 {
      assert p * q == p - p * (1.0 - q);
      L.PositiveProduct(p, 1.0 - q, p * (1.0 - q));
    } else {
      assert q == 1.0 ==> p * q == p;
      assert p == 0.0 ==> p * q == 0.0;
    }
  }

  /** A stable denominator does not vanish on or inside the unit circle. */
  lemma StableIsRegular(s: Section, w: Complex)
    requires Stable(s) && NormSq(w) <= 1.0
    ensures NormSq(Eval(Denominator(s), w)) != 0.0
  {
    var r: Roots :| StableWith(s, r);
    hide Mul, NormSq, Eval, AreRoots;
    FactoredEval(1.0, s.a1, s.a2, r, w);
    var p, q := Sub(ONE, Mul(r.first, w)), Sub(ONE, Mul(r.second, w));
    FactorIsNotZero(r.first, w);
    FactorIsNotZero(r.second, w);
    NonZeroProduct(p, q);
    ScaleByOne(Mul(p, q));
  }

  lemma ScaleByOne(z: Complex)
    ensures Scale(1.0, z) == z
  {
  }

  lemma NonZeroProduct(a: Complex, b: Complex)
    requires NormSq(a) != 0.0 && NormSq(b) != 0.0
    ensures NormSq(Mul(a, b)) != 0.0
  {
    hide NormSq, Mul;
    NormSqMul(a, b);
    ZeroFactor(NormSq(a), NormSq(b), NormSq(Mul(a, b)));
  }

  lemma ZeroFactor(a: real, b: real, p: real)
    requires a != 0.0 && p == a * b
    ensures p == 0.0 ==> b == 0.0
  {
    if p == 0.0 {
      Cancel(a, b, 0.0);
    }
  }

  /** The leading coefficient of the mapped denominator. */
  function Leading(s: Section, alpha: real): real {
    Substituted(Denominator(s), alpha).c0
  }

  lemma LeadingIsNotZero(s: Section, alpha: real)
    requires Stable(s) && Contracting(alpha)
    ensures Leading(s, alpha) != 0.0
  {
    var w := Complex(-alpha, 0.0);
    SquareBelowOne(alpha);
    assert NormSq(w) == alpha * alpha;
    StableIsRegular(s, w);
    LeadingIsValue(s, alpha, w);
    assert Leading(s, alpha) == 0.0 ==> Eval(Denominator(s), w) == ZERO;
    assert NormSq(ZERO) == 0.0;
  }

  lemma LeadingIsValue(s: Section, alpha: real, w: Complex)
    requires w == Complex(-alpha, 0.0)
    ensures Eval(Denominator(s), w) == Complex(Leading(s, alpha), 0.0)
  {
    assert Mul(w, w) == Complex(L.Times(alpha, alpha), 0.0) by {
      RealTimes(w, -alpha);
      assert -alpha * -alpha == alpha * alpha;
    }
    hide Mul, L.Times;
    ProductUnits(s.a1, alpha);
    ProductUnits(s.a2, alpha);
    ProductLaws(alpha, s.a1, 0.0);
    ProductLaws(L.Times(alpha, alpha), s.a2, 0.0);
  }

  // ----- One mapped section -----

  function MappedSection(s: Section, alpha: real): Section
    requires Leading(s, alpha) != 0.0
  {
    var n, d := Substituted(Numerator(s), alpha), Substituted(Denominator(s), alpha);
    Section(n.c0 / d.c0, n.c1 / d.c0, n.c2 / d.c0, d.c1 / d.c0, d.c2 / d.c0)
  }

  lemma MappedParts(s: Section, alpha: real)
    requires Leading(s, alpha) != 0.0
    ensures var m, e := MappedSection(s, alpha), Leading(s, alpha);
      && Multiple(e, Numerator(m)) == Substituted(Numerator(s), alpha)
      && Multiple(e, Denominator(m)) == Substituted(Denominator(s), alpha)
  {
    hide L.Times, Substituted;
    var n, d := Substituted(Numerator(s), alpha), Substituted(Denominator(s), alpha);
    QuotientBack(n.c0, d.c0);
    QuotientBack(n.c1, d.c0);
    QuotientBack(n.c2, d.c0);
    QuotientBack(d.c1, d.c0);
    QuotientBack(d.c2, d.c0);
    ProductUnits(d.c0, 0.0);
  }

  lemma QuotientBack(x: real, e: real)
    requires e != 0.0
    ensures L.Times(e, x / e) == x
  {
  }

  /** A mapped section at w is the section at the warped point. */
  lemma MappedRatio(s: Section, alpha: real, w: Complex)
    requires Stable(s) && Contracting(alpha) && OnCircle(w) && Leading(s, alpha) != 0.0
    ensures OnCircle(Warp(alpha, w))
    ensures NormSq(Eval(Denominator(s), Warp(alpha, w))) != 0.0
    ensures NormSq(Eval(Denominator(MappedSection(s, alpha)), w)) != 0.0
    ensures Ratio(MappedSection(s, alpha), w) == Ratio(s, Warp(alpha, w))
  {
    var v, m, e := Warp(alpha, w), MappedSection(s, alpha), Leading(s, alpha);
    WarpStaysOnCircle(alpha, w);
    WarpTimes(alpha, w);
    BelowIsNotZero(alpha, w);
    StableIsRegular(s, v);
    MappedParts(s, alpha);
    hide Mul, NormSq, Eval, Div, Warp, Below, Above, MappedSection, Leading, Stable;
    var b := Below(alpha, w);
    SubstitutedEval(Numerator(s), alpha, w, v);
    SubstitutedEval(Denominator(s), alpha, w, v);
    EvalMultiple(e, Numerator(m), w);
    EvalMultiple(e, Denominator(m), w);
    NonZeroProduct(b, b);
    SameQuotient(Eval(Numerator(m), w), Eval(Denominator(m), w), Eval(Numerator(s), v), Eval(Denominator(s), v),
                 Mul(b, b), e);
  }

  lemma SameQuotient(n': Complex, d': Complex, n: Complex, d: Complex, k: Complex, e: real)
    requires Scale(e, n') == Mul(k, n) && Scale(e, d') == Mul(k, d)
    requires e != 0.0 && NormSq(k) != 0.0 && NormSq(d) != 0.0
    ensures NormSq(d') != 0.0 && Div(n', d') == Div(n, d)
  {
    NonZeroFactor(d', d, k, e);
    hide Mul, NormSq, Div, Scale;
    var x := Div(n, d);
    DivMul(n, d);
    MulScale(x, e, d');
    MulAssoc(x, k, d);
    MulComm(x, k);
    MulAssoc(k, x, d);
    CancelScale(e, Mul(x, d'), n');
    DivUnique(n', d', x);
  }

  lemma NonZeroFactor(d': Complex, d: Complex, k: Complex, e: real)
    requires Scale(e, d') == Mul(k, d) && NormSq(k) != 0.0 && NormSq(d) != 0.0
    ensures NormSq(d') != 0.0
  {
    hide Mul, NormSq, Scale;
    NonZeroParts(d');
    ScaleZero(e);
    NonZeroProduct(k, d);
  }

  lemma ScaleZero(e: real)
    ensures Scale(e, ZERO) == ZERO && NormSq(ZERO) == 0.0
  {
  }

  lemma CancelScale(e: real, x: Complex, y: Complex)
    requires e != 0.0 && Scale(e, x) == Scale(e, y)
    ensures x == y
  {
    Cancel(e, x.re, y.re);
    Cancel(e, x.im, y.im);
  }

  // ----- Whole cascades -----

  ghost predicate AllStable(sos: Sos) {
    forall i | 0 <= i < |sos| :: Stable(sos[i])
  }

  ghost predicate MapsTo(p: Sos, m: Sos, alpha: real) {
    && |m| == |p|
    && forall i | 0 <= i < |p| :: Leading(p[i], alpha) != 0.0 && m[i] == MappedSection(p[i], alpha)
  }

  lemma AllStableRegular(sos: Sos, w: Complex)
    requires AllStable(sos) && OnCircle(w)
    ensures Regular(sos, w)
  {
    forall i | 0 <= i < |sos| ensures NormSq(Eval(Denominator(sos[i]), w)) != 0.0 {
      StableIsRegular(sos[i], w);
    }
  }

  /** For any number of sections. */
  lemma {:induction false} MappedResponse(p: Sos, m: Sos, alpha: real, w: Complex)
    requires AllStable(p) && Contracting(alpha) && OnCircle(w) && MapsTo(p, m, alpha)
    ensures OnCircle(Warp(alpha, w)) && Regular(m, w) && Regular(p, Warp(alpha, w))
    ensures Response(m, w) == Response(p, Warp(alpha, w))
  {
    hide Warp, Eval, NormSq, Mul, Stable, MappedSection, Leading, Ratio, OnCircle;
    WarpStaysOnCircle(alpha, w);
    AllStableRegular(p, Warp(alpha, w));
    forall i | 0 <= i < |m| ensures NormSq(Eval(Denominator(m[i]), w)) != 0.0 {
      MappedRatio(p[i], alpha, w);
    }
    if p != [] {
      var k := |p| - 1;
      MappedRatio(p[k], alpha, w);
      MappedResponse(p[..k], m[..k], alpha, w);
    }
  }

  /** On the unit circle the two powers sum to one. */
  ghost predicate Complementary(a: Sos, b: Sos) {
    forall w: Complex | OnCircle(w) :: ComplementaryAt(a, b, w)
  }

  predicate ComplementaryAt(a: Sos, b: Sos, w: Complex) {
    Regular(a, w) && Regular(b, w) && NormSq(Response(a, w)) + NormSq(Response(b, w)) == 1.0
  }

  /** A mapped pair is complementary exactly when the pair it was mapped from is. */
  lemma ComplementSurvives(p: Sos, q: Sos, m: Sos, n: Sos, alpha: real)
    requires AllStable(p) && AllStable(q) && Contracting(alpha) && MapsTo(p, m, alpha) && MapsTo(q, n, alpha)
    ensures Complementary(m, n) <==> Complementary(p, q)
  {
    hide Warp, Regular, NormSq, AllStable, MapsTo, OnCircle;
    if Complementary(p, q) {
      forall w: Complex | OnCircle(w) ensures ComplementaryAt(m, n, w) {
        MappedResponse(p, m, alpha, w);
        MappedResponse(q, n, alpha, w);
        assert ComplementaryAt(p, q, Warp(alpha, w));
      }
    }
    if Complementary(m, n) {
      forall v: Complex | OnCircle(v) ensures ComplementaryAt(p, q, v) {
        WarpBack(alpha, v);
        var w := Warp(-alpha, v);
        MappedResponse(p, m, alpha, w);
        MappedResponse(q, n, alpha, w);
        assert ComplementaryAt(m, n, w);
      }
    }
  }
}
