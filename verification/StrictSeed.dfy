/** Projecting the zeros of a seed inside the unit circle, and the resampled seeds built from it
    (tools/gen_beam_error_profiles.py). */
module StrictSeed {
  import opened Wrappers
  import opened ComplexNumbers
  import opened Cascade
  import opened AllPass
  import opened ResampledSeed
  import L = Linear

  // ----- Moving zeros inside the circle -----

  const STRICT_ZERO_RADIUS := 1.0 - 1.0 / 1_000_000_000.0

  function Modulus(z: Complex, sqrt: real -> real): real {
    sqrt(NormSq(z))
  }

  /** A zero at or beyond the strict radius is pulled back to it along its own direction. */
  function Projected(z: Complex, sqrt: real -> real): Complex
    requires Modulus(z, sqrt) >= STRICT_ZERO_RADIUS ==> Modulus(z, sqrt) != 0.0
  {
    var radius := Modulus(z, sqrt);
    if radius >= STRICT_ZERO_RADIUS then Scale(STRICT_ZERO_RADIUS, DivReal(z, radius)) else z
  }

  function ProjectedSection(s: Section, zeros: Roots): Section {
    s.(b1 := -(s.b0 * Add(zeros.first, zeros.second).re), b2 := s.b0 * Mul(zeros.first, zeros.second).re)
  }

  /** Poles are checked first and never moved; zeros need a leading coefficient. */
  function ProjectSection(s: Section, root: Complex -> Complex, sqrt: real -> real): Result<Section, SeedError> {
    RadiusIsPositive();
    var poles := QuadraticRoots(1.0, s.a1, s.a2, root).value;
    if Modulus(poles.first, sqrt) >= 1.0 || Modulus(poles.second, sqrt) >= 1.0 then Err(UnstablePole)
    else
      var zeros := QuadraticRoots(s.b0, s.b1, s.b2, root);
      if zeros.Err? then Err(zeros.error)
      else Ok(ProjectedSection(s, Roots(Projected(zeros.value.first, sqrt), Projected(zeros.value.second, sqrt))))
  }

  lemma RadiusIsPositive()
    ensures 0.0 < STRICT_ZERO_RADIUS < 1.0
  {
  }

  lemma ModulusSquared(z: Complex, sqrt: real -> real)
    requires L.SquareRoot(sqrt)
    ensures Modulus(z, sqrt) >= 0.0 && L.Square(Modulus(z, sqrt)) == NormSq(z)
  {
    hide NormSq, L.Square;
    NormSqNonNegative(z);
  }

  lemma ModulusBelow(z: Complex, sqrt: real -> real, r: real)
    requires L.SquareRoot(sqrt) && r >= 0.0
    ensures Modulus(z, sqrt) < r <==> NormSq(z) < L.Square(r)
    ensures Modulus(z, sqrt) == r <==> NormSq(z) == L.Square(r)
  {
    hide NormSq, L.Square, Modulus;
    ModulusSquared(z, sqrt);
    L.SquareOrder(Modulus(z, sqrt), r);
  }

  /** The projected zero is inside the strict radius, real or conjugate as before, and the same zero
      exactly when it was inside already. */
  lemma ProjectedIsInside(z: Complex, sqrt: real -> real)
    requires L.SquareRoot(sqrt)
    ensures Modulus(z, sqrt) >= STRICT_ZERO_RADIUS ==> Modulus(z, sqrt) != 0.0
    ensures NormSq(Projected(z, sqrt)) <= L.Square(STRICT_ZERO_RADIUS)
    ensures NormSq(z) <= L.Square(STRICT_ZERO_RADIUS) ==> Projected(z, sqrt) == z
    ensures z.im == 0.0 ==> Projected(z, sqrt).im == 0.0
  {
    RadiusIsPositive();
    ModulusBelow(z, sqrt, STRICT_ZERO_RADIUS);
    ModulusSquared(z, sqrt);
    var radius := Modulus(z, sqrt);
    if radius >= STRICT_ZERO_RADIUS {
      var unit := DivReal(z, radius);
      QuotientTimes(z, radius, unit);
      UnitModulus(z, radius, unit);
      ScaledModulus(STRICT_ZERO_RADIUS, unit);
      hide NormSq, L.Square;
      if radius == STRICT_ZERO_RADIUS {
        assert Scale(STRICT_ZERO_RADIUS, unit) == z;
      }
    }
  }

  lemma UnitModulus(z: Complex, radius: real, unit: Complex)
    requires radius > 0.0 && z == Complex(radius * unit.re, radius * unit.im) && L.Square(radius) == NormSq(z)
    ensures NormSq(unit) == 1.0
  {
    var m, x, y := radius * radius, unit.re * unit.re, unit.im * unit.im;
    assert NormSq(z) == m * x + m * y by {
      assert (radius * unit.re) * (radius * unit.re) == m * x;
      assert (radius * unit.im) * (radius * unit.im) == m * y;
    }
    assert m * x + m * y == m * (x + y);
    L.PositiveProduct(radius, radius, m);
    Cancel(m, x + y, 1.0);
  }

  lemma ScaledModulus(r: real, unit: Complex)
    requires NormSq(unit) == 1.0
    ensures NormSq(Scale(r, unit)) == L.Square(r)
  {
    var m, x, y := r * r, unit.re * unit.re, unit.im * unit.im;
    assert (r * unit.re) * (r * unit.re) == m * x && (r * unit.im) * (r * unit.im) == m * y;
    Unit(m, x, y);
  }

  lemma ProjectedConjugate(z: Complex, sqrt: real -> real)
    requires L.SquareRoot(sqrt)
    ensures Modulus(z, sqrt) >= STRICT_ZERO_RADIUS ==> Modulus(z, sqrt) != 0.0
    ensures Modulus(Conj(z), sqrt) == Modulus(z, sqrt)
    ensures Projected(Conj(z), sqrt) == Conj(Projected(z, sqrt))
  {
    assert NormSq(Conj(z)) == NormSq(z);
    RadiusIsPositive();
    hide NormSq;
    var radius := Modulus(z, sqrt);
    if radius >= STRICT_ZERO_RADIUS {
      ScaleConj(z, radius);
    }
  }

  lemma ScaleConj(z: Complex, radius: real)
    requires radius != 0.0
    ensures Scale(STRICT_ZERO_RADIUS, DivReal(Conj(z), radius)) == Conj(Scale(STRICT_ZERO_RADIUS, DivReal(z, radius)))
  {
    assert -z.im / radius == -(z.im / radius);
  }

  /** The projected section has the projected zeros: nothing is lost by keeping real parts. */
  lemma PairedGivesRoots(s: Section, z: Roots)
    requires Paired(z)
    ensures var p := ProjectedSection(s, z);
      p.b0 == s.b0 && p.a1 == s.a1 && p.a2 == s.a2 && AreRoots(p.b0, p.b1, p.b2, z)
  {
    var sum, product := Add(z.first, z.second), Mul(z.first, z.second);
    assert sum.im == 0.0 && product.im == 0.0 by {
      if z.second == Conj(z.first) {
        TimesConj(z.first);
      }
    }
    hide Mul;
  }

  /** What projection promises of a section: the same poles inside the circle, and the zeros pulled in. */
  ghost predicate StrictVersion(s: Section, p: Section, zeros: Roots, moved: Roots, sqrt: real -> real) {
    && p.b0 == s.b0 && p.a1 == s.a1 && p.a2 == s.a2 && Stable(p)
    && AreRoots(s.b0, s.b1, s.b2, zeros) && AreRoots(p.b0, p.b1, p.b2, moved)
    && PulledIn(zeros.first, moved.first, sqrt) && PulledIn(zeros.second, moved.second, sqrt)
  }

  /** m is z inside the strict radius, or z's direction at that radius. */
  ghost predicate PulledIn(z: Complex, m: Complex, sqrt: real -> real) {
    && NormSq(m) <= L.Square(STRICT_ZERO_RADIUS)
    && (NormSq(z) <= L.Square(STRICT_ZERO_RADIUS) ==> m == z)
    && (NormSq(z) > L.Square(STRICT_ZERO_RADIUS) ==> Scale(Modulus(z, sqrt), m) == Scale(STRICT_ZERO_RADIUS, z))
  }

  lemma ProjectedIsPulledIn(z: Complex, sqrt: real -> real)
    requires L.SquareRoot(sqrt)
    ensures Modulus(z, sqrt) >= STRICT_ZERO_RADIUS ==> Modulus(z, sqrt) != 0.0
    ensures PulledIn(z, Projected(z, sqrt), sqrt)
  {
    ProjectedIsInside(z, sqrt);
    ModulusBelow(z, sqrt, STRICT_ZERO_RADIUS);
    hide NormSq, L.Square;
    var radius := Modulus(z, sqrt);
    if radius > STRICT_ZERO_RADIUS {
      var unit := DivReal(z, radius);
      QuotientTimes(z, radius, unit);
      SwapFactors(radius, STRICT_ZERO_RADIUS, unit.re);
      SwapFactors(radius, STRICT_ZERO_RADIUS, unit.im);
    }
  }

  lemma SwapFactors(a: real, b: real, x: real)
    ensures a * (b * x) == b * (a * x)
  {
  }

  lemma PolesDecide(s: Section, root: Complex -> Complex, sqrt: real -> real)
    requires ComplexRoot(root) && L.SquareRoot(sqrt)
    ensures var poles := QuadraticRoots(1.0, s.a1, s.a2, root).value;
      (Modulus(poles.first, sqrt) < 1.0 && Modulus(poles.second, sqrt) < 1.0) <==> Stable(s)
  {
    assert QuadraticRoots(1.0, s.a1, s.a2, root).Ok?;
    hide QuadraticRoots, Modulus, NormSq, AreRoots, L.SquareRoot, ComplexRoot, L.Square;
    var poles := QuadraticRoots(1.0, s.a1, s.a2, root).value;
    RootsAreRoots(1.0, s.a1, s.a2, root);
    ModulusBelow(poles.first, sqrt, 1.0);
    ModulusBelow(poles.second, sqrt, 1.0);
    SquareOfOne();
    assert NormSq(poles.first) < 1.0 && NormSq(poles.second) < 1.0 ==> StableWith(s, poles);
    if r: Roots :| StableWith(s, r) {
      RootsAreUnique(1.0, s.a1, s.a2, poles, r);
    }
  }

  /** Any root of a quadratic is one of any two that make it up. */
  lemma RootsAreUnique(a: real, b: real, c: real, r: Roots, t: Roots)
    requires a != 0.0 && AreRoots(a, b, c, r) && AreRoots(a, b, c, t)
    ensures r.first == t.first || r.first == t.second
    ensures r.second == t.first || r.second == t.second
  {
    assert Add(r.first, r.second) == Add(t.first, t.second) && Mul(r.first, r.second) == Mul(t.first, t.second) by {
      hide Mul, Add;
      CancelScale(a, Add(r.first, r.second), Add(t.first, t.second));
      CancelScale(a, Mul(r.first, r.second), Mul(t.first, t.second));
    }
    hide Mul, AreRoots;
    OneOf(r.first, r.second, t.first, t.second);
    MulComm(r.first, r.second);
    OneOf(r.second, r.first, t.first, t.second);
  }

  lemma OneOf(x: Complex, y: Complex, p: Complex, q: Complex)
    requires Add(x, y) == Add(p, q) && Mul(x, y) == Mul(p, q)
    ensures x == p || x == q
  {
    hide *;
    var d, e := Sub(x, p), Sub(x, q);
    CrossZero(x, y, p, q);
    NonZeroParts(d);
    NonZeroParts(e);
    ScaleZero(0.0);
    NonZeroProductIf(d, e);
    ZeroDifference(x, p);
    ZeroDifference(x, q);
  }

  lemma ZeroDifference(x: Complex, p: Complex)
    ensures Sub(x, p) == ZERO ==> x == p
  {
  }

  lemma CrossZero(x: Complex, y: Complex, p: Complex, q: Complex)
    requires Add(x, y) == Add(p, q) && Mul(x, y) == Mul(p, q)
    ensures Mul(Sub(x, p), Sub(x, q)) == ZERO
  {
    hide *;
    ProductOfDifferences(x, p, x, q);
    MulComm(p, x);
    MulAdd(x, p, q);
    MulAdd(x, x, y);
    Collect(Mul(x, x), Mul(x, q), Mul(x, p), Mul(p, q));
  }

  lemma Collect(a: Complex, b: Complex, c: Complex, d: Complex)
    requires Add(c, b) == Add(a, d)
    ensures Add(Sub(Sub(a, b), c), d) == ZERO
  {
  }

  lemma NonZeroProductIf(a: Complex, b: Complex)
    ensures NormSq(a) != 0.0 && NormSq(b) != 0.0 ==> NormSq(Mul(a, b)) != 0.0
  {
    if NormSq(a) != 0.0 && NormSq(b) != 0.0 {
      NonZeroProduct(a, b);
    }
  }

  /** Projection fails exactly on an unstable pole or, poles being stable, a vanishing leading coefficient. */
  lemma ProjectionFails(s: Section, root: Complex -> Complex, sqrt: real -> real)
    requires ComplexRoot(root) && L.SquareRoot(sqrt)
    ensures var r := ProjectSection(s, root, sqrt);
      && (r == Err(UnstablePole) <==> !Stable(s)) && (r == Err(LeadingZero) <==> Stable(s) && s.b0 == 0.0)
      && (r.Ok? <==> Stable(s) && s.b0 != 0.0)
  {
    PolesDecide(s, root, sqrt);
    hide Modulus, Projected, ComplexRoot, Stable, ProjectedSection;
  }

  lemma ProjectionSucceeds(s: Section, root: Complex -> Complex, sqrt: real -> real, p: Section)
    returns (zeros: Roots, moved: Roots)
    requires ComplexRoot(root) && L.SquareRoot(sqrt) && ProjectSection(s, root, sqrt) == Ok(p)
    ensures s.b0 != 0.0 && StrictVersion(s, p, zeros, moved, sqrt)
  {
    ProjectionFails(s, root, sqrt);
    ProjectSectionIs(s, root, sqrt, p);
    hide *;
    zeros := QuadraticRoots(s.b0, s.b1, s.b2, root).value;
    moved := Roots(Projected(zeros.first, sqrt), Projected(zeros.second, sqrt));
    ProjectedIsPulledIn(zeros.first, sqrt);
    ProjectedIsPulledIn(zeros.second, sqrt);
    RootsAreRoots(s.b0, s.b1, s.b2, root);
    ProjectedPair(zeros, moved, sqrt);
    PairedGivesRoots(s, moved);
    SamePoles(s, p);
    VersionIs(s, p, zeros, moved, sqrt);
  }

  lemma ProjectSectionIs(s: Section, root: Complex -> Complex, sqrt: real -> real, p: Section)
    requires ProjectSection(s, root, sqrt) == Ok(p)
    ensures s.b0 != 0.0 && QuadraticRoots(s.b0, s.b1, s.b2, root).Ok?
    ensures var zeros := QuadraticRoots(s.b0, s.b1, s.b2, root).value;
      && (Modulus(zeros.first, sqrt) >= STRICT_ZERO_RADIUS ==> Modulus(zeros.first, sqrt) != 0.0)
      && (Modulus(zeros.second, sqrt) >= STRICT_ZERO_RADIUS ==> Modulus(zeros.second, sqrt) != 0.0)
      && p == ProjectedSection(s, Roots(Projected(zeros.first, sqrt), Projected(zeros.second, sqrt)))
  {
    RadiusIsPositive();
    hide Modulus, Projected, ProjectedSection;
  }

  lemma VersionIs(s: Section, p: Section, zeros: Roots, moved: Roots, sqrt: real -> real)
    requires p.b0 == s.b0 && p.a1 == s.a1 && p.a2 == s.a2 && Stable(p)
    requires AreRoots(s.b0, s.b1, s.b2, zeros) && AreRoots(p.b0, p.b1, p.b2, moved)
    requires PulledIn(zeros.first, moved.first, sqrt) && PulledIn(zeros.second, moved.second, sqrt)
    ensures StrictVersion(s, p, zeros, moved, sqrt)
  {
    hide AreRoots, PulledIn, Stable;
  }

  lemma SamePoles(s: Section, p: Section)
    requires Stable(s) && p.a1 == s.a1 && p.a2 == s.a2
    ensures Stable(p)
  {
    hide AreRoots, NormSq;
    var r: Roots :| StableWith(s, r);
    assert StableWith(p, r);
  }

  /** Projection leaves a section alone exactly when both its zeros are within the strict radius. */
  lemma ProjectionIsIdentity(s: Section, p: Section, zeros: Roots, moved: Roots, sqrt: real -> real)
    requires StrictVersion(s, p, zeros, moved, sqrt) && s.b0 != 0.0
    ensures p == s <==> NormSq(zeros.first) <= L.Square(STRICT_ZERO_RADIUS)
                        && NormSq(zeros.second) <= L.Square(STRICT_ZERO_RADIUS)
  {
    hide NormSq, L.Square, Modulus, Stable;
    if p == s {
      RootsAreUnique(s.b0, s.b1, s.b2, zeros, moved);
    }
    hide Mul, Add, Scale;
    if moved == zeros {
      assert Complex(-p.b1, 0.0) == Complex(-s.b1, 0.0) && Complex(p.b2, 0.0) == Complex(s.b2, 0.0);
    }
  }

  lemma SquareOfOne()
    ensures L.Square(1.0) == 1.0
  {
  }

  lemma ProjectedPair(zeros: Roots, moved: Roots, sqrt: real -> real)
    requires L.SquareRoot(sqrt) && Paired(zeros)
    requires Modulus(zeros.first, sqrt) >= STRICT_ZERO_RADIUS ==> Modulus(zeros.first, sqrt) != 0.0
    requires Modulus(zeros.second, sqrt) >= STRICT_ZERO_RADIUS ==> Modulus(zeros.second, sqrt) != 0.0
    requires moved == Roots(Projected(zeros.first, sqrt), Projected(zeros.second, sqrt))
    ensures Paired(moved)
  {
    hide Projected, Modulus, NormSq;
    ProjectedIsInside(zeros.first, sqrt);
    ProjectedIsInside(zeros.second, sqrt);
    ProjectedConjugate(zeros.first, sqrt);
  }

  // ----- The seeds -----

  /** p is the projection of every section of sos. */
  ghost predicate ProjectsTo(sos: Sos, p: Sos, root: Complex -> Complex, sqrt: real -> real) {
    |p| == |sos| && forall i | 0 <= i < |sos| :: ProjectSection(sos[i], root, sqrt) == Ok(p[i])
  }

  /** The first section that cannot be projected fails with this error. */
  ghost predicate FirstFailure(sos: Sos, root: Complex -> Complex, sqrt: real -> real, error: SeedError) {
    exists i | 0 <= i < |sos| :: ProjectSection(sos[i], root, sqrt) == Err(error)
                                 && forall j | 0 <= j < i :: ProjectSection(sos[j], root, sqrt).Ok?
  }

  method StrictMinimumPhaseSos(sos: Sos, root: Complex -> Complex, sqrt: real -> real)
    returns (r: Result<Sos, SeedError>)
    requires ComplexRoot(root) && L.SquareRoot(sqrt)
    ensures r.Ok? ==> ProjectsTo(sos, r.value, root, sqrt) && AllStable(r.value)
    ensures r.Ok? <==> forall i | 0 <= i < |sos| :: Stable(sos[i]) && sos[i].b0 != 0.0
    ensures r.Err? ==> FirstFailure(sos, root, sqrt, r.error)
  {
    hide ProjectSection, ComplexRoot, L.SquareRoot, Stable;
    var projected: Sos := [];
    for i := 0 to |sos|
      invariant |projected| == i && AllStable(projected)
      invariant forall j | 0 <= j < i :: ProjectSection(sos[j], root, sqrt) == Ok(projected[j])
      invariant forall j | 0 <= j < i :: Stable(sos[j]) && sos[j].b0 != 0.0
    {
      var section := ProjectSection(sos[i], root, sqrt);
      ProjectionFails(sos[i], root, sqrt);
      if section.Err? {
        return Err(section.error);
      }
      ghost var zeros, moved := ProjectionSucceeds(sos[i], root, sqrt, section.value);
      SamePoles(sos[i], section.value) by {
        hide AreRoots, PulledIn;
      }
      projected := projected + [section.value];
    }
    r := Ok(projected);
  }

  /** The warp that turns one wire rate into another. */
  function Alpha(sourceRate: real, targetRate: real): real
    requires sourceRate > 0.0 && targetRate > 0.0
  {
    var ratio := targetRate / sourceRate;
    RatioIsPositive(sourceRate, targetRate, ratio);
    (ratio - 1.0) / (ratio + 1.0)
  }

  lemma RatioIsPositive(sourceRate: real, targetRate: real, ratio: real)
    requires sourceRate > 0.0 && targetRate > 0.0 && ratio == targetRate / sourceRate
    ensures ratio > 0.0
  {
  }

  lemma AlphaContracts(sourceRate: real, targetRate: real)
    requires sourceRate > 0.0 && targetRate > 0.0
    ensures Contracting(Alpha(sourceRate, targetRate))
  {
    var ratio := targetRate / sourceRate;
    RatioIsPositive(sourceRate, targetRate, ratio);
    QuotientInside(ratio - 1.0, ratio + 1.0);
  }

  /** The warp of a rate ratio is the bilinear map of one rate to the other: with v for the warped point,
      (1 - v) / (1 + v) is target / source times (1 - w) / (1 + w). */
  lemma AlphaScalesFrequency(sourceRate: real, targetRate: real, w: Complex)
    requires sourceRate > 0.0 && targetRate > 0.0 && OnCircle(w)
    ensures Contracting(Alpha(sourceRate, targetRate))
    ensures var v := Warp(Alpha(sourceRate, targetRate), w);
      Scale(sourceRate, Mul(Sub(ONE, v), Add(ONE, w))) == Scale(targetRate, Mul(Sub(ONE, w), Add(ONE, v)))
  {
    AlphaContracts(sourceRate, targetRate);
    var alpha := Alpha(sourceRate, targetRate);
    var v, below := Warp(alpha, w), Below(alpha, w);
    AlphaBalances(sourceRate, targetRate, alpha);
    WarpTimes(alpha, w);
    BelowIsNotZero(alpha, w);
    OneSides(alpha, w);
    hide *;
    var minus, plus := Sub(ONE, w), Add(ONE, w);
    MulComm(Sub(ONE, v), below);
    MulComm(Add(ONE, v), below);
    MulSub(below, ONE, v);
    MulAdd(below, ONE, v);
    MulUnits(below);
    MulComm(below, v);
    BilinearSides(sourceRate, targetRate, 1.0 + alpha, 1.0 - alpha, Sub(ONE, v), Add(ONE, v), minus, plus, below);
  }

  lemma OneSides(alpha: real, w: Complex)
    ensures Sub(Below(alpha, w), Above(alpha, w)) == Scale(1.0 + alpha, Sub(ONE, w))
    ensures Add(Below(alpha, w), Above(alpha, w)) == Scale(1.0 - alpha, Add(ONE, w))
  {
  }

  lemma AlphaBalances(sourceRate: real, targetRate: real, alpha: real)
    requires sourceRate > 0.0 && targetRate > 0.0 && alpha == Alpha(sourceRate, targetRate)
    ensures sourceRate * (1.0 + alpha) == targetRate * (1.0 - alpha)
  {
    var ratio := targetRate / sourceRate;
    RatioIsPositive(sourceRate, targetRate, ratio);
    assert alpha * (ratio + 1.0) == ratio - 1.0;
    assert ratio * sourceRate == targetRate;
    assert ratio * (1.0 - alpha) == 1.0 + alpha;
    assert sourceRate * (ratio * (1.0 - alpha)) == (ratio * sourceRate) * (1.0 - alpha);
  }

  lemma BilinearSides(s: real, t: real, p: real, q: real, a: Complex, b: Complex, minus: Complex, plus: Complex,
                      below: Complex)
    requires s * p == t * q && NormSq(below) != 0.0
    requires Mul(below, a) == Scale(p, minus) && Mul(below, b) == Scale(q, plus)
    ensures Scale(s, Mul(a, plus)) == Scale(t, Mul(minus, b))
  {
    hide *;
    var left, right, m := Scale(s, Mul(a, plus)), Scale(t, Mul(minus, b)), Mul(minus, plus);
    MulScale(below, s, Mul(a, plus));
    MulAssoc(below, a, plus);
    MulComm(Scale(p, minus), plus);
    MulScale(plus, p, minus);
    MulComm(plus, minus);
    MulScale(below, t, Mul(minus, b));
    MulComm(minus, b);
    MulAssoc(below, b, minus);
    MulComm(Scale(q, plus), minus);
    MulScale(minus, q, plus);
    ScaleTwice(s, p, m);
    ScaleTwice(t, q, m);
    MulComm(below, left);
    MulComm(below, right);
    CancelRight(left, right, below);
  }

  lemma ScaleTwice(a: real, b: real, z: Complex)
    ensures Scale(a, Scale(b, z)) == Scale(a * b, z)
  {
  }

  lemma QuotientInside(x: real, d: real)
    requires d > 0.0 && -d < x < d
    ensures -1.0 < x / d < 1.0
  {
  }

  method ResampledSeedSos(sourceRate: real, targetRate: real, sos: Sos, root: Complex -> Complex,
                          sqrt: real -> real)
    returns (r: Result<Sos, SeedError>)
    requires sourceRate > 0.0 && targetRate > 0.0 && ComplexRoot(root) && L.SquareRoot(sqrt)
    ensures r.Ok? <==> forall i | 0 <= i < |sos| :: Stable(sos[i]) && sos[i].b0 != 0.0
    ensures r.Err? ==> FirstFailure(sos, root, sqrt, r.error)
    ensures r.Ok? ==> exists p: Sos :: ProjectsTo(sos, p, root, sqrt) && AllStable(p)
                                       && MapsTo(p, r.value, Alpha(sourceRate, targetRate))
  {
    hide ProjectSection, ComplexRoot, L.SquareRoot, Stable, Alpha, MappedSection, Leading, Contracting;
    var alpha := Alpha(sourceRate, targetRate);
    AlphaContracts(sourceRate, targetRate);
    var strict := StrictMinimumPhaseSos(sos, root, sqrt);
    if strict.Err? {
      return strict;
    }
    var p := strict.value;
    var mapped: Sos := [];
    for i := 0 to |p|
      invariant |mapped| == i
      invariant forall j | 0 <= j < i :: Leading(p[j], alpha) != 0.0 && mapped[j] == MappedSection(p[j], alpha)
    {
      LeadingIsNotZero(p[i], alpha);
      mapped := mapped + [MappedSection(p[i], alpha)];
    }
    assert MapsTo(p, mapped, alpha);
    r := Ok(mapped);
  }

  // ----- What the docstring promises of the frozen pair -----

  function Half(sign: real): Section {
    Section(0.5, 0.5 * sign, 0.0, 0.0, 0.0)
  }

  /** A complementary pair with zeros on the circle: its projection is complementary no more. */
  lemma BoundaryZerosLoseComplement(root: Complex -> Complex, sqrt: real -> real, p: Sos, q: Sos)
    requires ComplexRoot(root) && L.SquareRoot(sqrt)
    requires ProjectsTo([Half(1.0)], p, root, sqrt) && ProjectsTo([Half(-1.0)], q, root, sqrt)
    ensures Complementary([Half(1.0)], [Half(-1.0)]) && !Complementary(p, q)
  {
    hide ProjectSection, ComplexRoot, L.SquareRoot, Complementary;
    assert [Half(1.0)][0] == Half(1.0) && [Half(-1.0)][0] == Half(-1.0);
    HalvesComplement();
    HalfProjects(1.0, p[0], root, sqrt);
    HalfProjects(-1.0, q[0], root, sqrt);
    assert p == [p[0]] && q == [q[0]];
    ProjectedHalves(p, q);
  }

  lemma HalvesComplement()
    ensures Complementary([Half(1.0)], [Half(-1.0)])
  {
    forall w: Complex | OnCircle(w) ensures ComplementaryAt([Half(1.0)], [Half(-1.0)], w) {
      FirstOrder(Half(1.0), w, Complex(0.5 + 0.5 * w.re, 0.5 * w.im));
      FirstOrder(Half(-1.0), w, Complex(0.5 - 0.5 * w.re, -0.5 * w.im));
      hide Ratio, Regular, Response, NormSq;
      ParallelogramLaw(w);
    }
  }

  lemma ParallelogramLaw(w: Complex)
    requires OnCircle(w)
    ensures NormSq(Complex(0.5 + 0.5 * w.re, 0.5 * w.im)) + NormSq(Complex(0.5 - 0.5 * w.re, -0.5 * w.im)) == 1.0
  {
    var x, y := w.re, w.im;
    assert (0.5 + 0.5 * x) * (0.5 + 0.5 * x) == 0.25 + 0.5 * x + 0.25 * (x * x);
    assert (0.5 - 0.5 * x) * (0.5 - 0.5 * x) == 0.25 - 0.5 * x + 0.25 * (x * x);
    assert (0.5 * y) * (0.5 * y) == 0.25 * (y * y) && (-0.5 * y) * (-0.5 * y) == 0.25 * (y * y);
  }

  /** The response of one section without poles and with no square term. */
  lemma FirstOrder(s: Section, w: Complex, n: Complex)
    requires s.b2 == s.a1 == s.a2 == 0.0
    requires n == Complex(s.b0 + L.Times(s.b1, w.re), L.Times(s.b1, w.im))
    ensures Regular([s], w) && Response([s], w) == n
  {
    hide Eval, Mul, Div, NormSq, L.Times;
    FirstOrderEval(s, w, n);
    OneIsUnit();
    MulUnits(n);
    DivUnique(n, ONE, n);
    MulUnits(Ratio(s, w));
    assert [s][..0] == [];
    assert Regular([], w) && Response([], w) == ONE;
  }

  lemma FirstOrderEval(s: Section, w: Complex, n: Complex)
    requires s.b2 == s.a1 == s.a2 == 0.0
    requires n == Complex(s.b0 + L.Times(s.b1, w.re), L.Times(s.b1, w.im))
    ensures Eval(Numerator(s), w) == n && Eval(Denominator(s), w) == ONE
  {
    hide L.Times, Mul;
    var ww := Mul(w, w);
    ProductUnits(ww.re, 0.0);
    ProductUnits(ww.im, 0.0);
    ProductUnits(w.re, 0.0);
    ProductUnits(w.im, 0.0);
  }

  lemma HalfProjects(sign: real, p: Section, root: Complex -> Complex, sqrt: real -> real)
    requires sign == 1.0 || sign == -1.0
    requires ComplexRoot(root) && L.SquareRoot(sqrt) && ProjectSection(Half(sign), root, sqrt) == Ok(p)
    ensures p == Section(0.5, 0.5 * sign * STRICT_ZERO_RADIUS, 0.0, 0.0, 0.0)
  {
    hide ProjectSection, ComplexRoot, Stable;
    var zeros, moved := ProjectionSucceeds(Half(sign), root, sqrt, p);
    HalfZeros(sign, zeros);
    ZeroPulls(moved, zeros, sign, sqrt);
    hide PulledIn, Modulus, L.SquareRoot;
    HalfMoved(p, moved, sign);
  }

  lemma HalfZeros(sign: real, zeros: Roots)
    requires sign == 1.0 || sign == -1.0
    requires AreRoots(0.5, 0.5 * sign, 0.0, zeros)
    ensures var z := Complex(-sign, 0.0); zeros == Roots(ZERO, z) || zeros == Roots(z, ZERO)
  {
    var known := Roots(ZERO, Complex(-sign, 0.0));
    assert AreRoots(0.5, 0.5 * sign, 0.0, known);
    assert Add(zeros.first, zeros.second) == Complex(-sign, 0.0);
    hide AreRoots;
    RootsAreUnique(0.5, 0.5 * sign, 0.0, zeros, known);
  }

  lemma ZeroPulls(moved: Roots, zeros: Roots, sign: real, sqrt: real -> real)
    requires sign == 1.0 || sign == -1.0
    requires L.SquareRoot(sqrt) && PulledIn(zeros.first, moved.first, sqrt) && PulledIn(zeros.second, moved.second, sqrt)
    requires var z := Complex(-sign, 0.0); zeros == Roots(ZERO, z) || zeros == Roots(z, ZERO)
    ensures var z := Complex(-sign * STRICT_ZERO_RADIUS, 0.0); moved == Roots(ZERO, z) || moved == Roots(z, ZERO)
  {
    hide PulledIn, L.SquareRoot;
    if zeros.first == ZERO {
      ZeroStays(moved.first, sqrt);
      UnitIsPulled(sign, moved.second, sqrt);
    } else {
      ZeroStays(moved.second, sqrt);
      UnitIsPulled(sign, moved.first, sqrt);
    }
  }

  lemma ZeroStays(m: Complex, sqrt: real -> real)
    requires PulledIn(ZERO, m, sqrt)
    ensures m == ZERO
  {
    hide NormSq, L.Square, Modulus, Scale;
    ScaleZero(0.0);
    SquareNonNegative(STRICT_ZERO_RADIUS);
  }

  lemma SquareNonNegative(x: real)
    ensures L.Square(x) >= 0.0
  {
    L.SquareIsPositive(x, x * x);
  }

  lemma UnitIsPulled(sign: real, m: Complex, sqrt: real -> real)
    requires sign == 1.0 || sign == -1.0
    requires L.SquareRoot(sqrt) && PulledIn(Complex(-sign, 0.0), m, sqrt)
    ensures m == Complex(-sign * STRICT_ZERO_RADIUS, 0.0)
  {
    var z := Complex(-sign, 0.0);
    assert NormSq(z) == 1.0;
    SquareOfOne();
    RadiusIsPositive();
    L.SquareOrder(STRICT_ZERO_RADIUS, 1.0);
    ModulusBelow(z, sqrt, 1.0);
    hide NormSq, L.Square, L.SquareRoot, Modulus;
    assert Scale(1.0, m) == Scale(STRICT_ZERO_RADIUS, z);
  }

  lemma HalfMoved(p: Section, moved: Roots, sign: real)
    requires p.b0 == 0.5 && p.a1 == p.a2 == 0.0 && AreRoots(p.b0, p.b1, p.b2, moved)
    requires var z := Complex(-sign * STRICT_ZERO_RADIUS, 0.0); moved == Roots(ZERO, z) || moved == Roots(z, ZERO)
    ensures p == Section(0.5, 0.5 * sign * STRICT_ZERO_RADIUS, 0.0, 0.0, 0.0)
  {
  }

  lemma ProjectedHalves(p: Sos, q: Sos)
    requires p == [Section(0.5, 0.5 * STRICT_ZERO_RADIUS, 0.0, 0.0, 0.0)]
    requires q == [Section(0.5, -0.5 * STRICT_ZERO_RADIUS, 0.0, 0.0, 0.0)]
    ensures !Complementary(p, q)
  {
    hide Regular, Response, NormSq;
    RadiusIsPositive();
    HalvesAtOne(p, q, STRICT_ZERO_RADIUS);
    OneIsUnit();
    assert !ComplementaryAt(p, q, ONE);
  }

  lemma HalvesAtOne(p: Sos, q: Sos, r: real)
    requires 0.0 < r < 1.0
    requires p == [Section(0.5, 0.5 * r, 0.0, 0.0, 0.0)] && q == [Section(0.5, -0.5 * r, 0.0, 0.0, 0.0)]
    ensures !ComplementaryAt(p, q, ONE)
  {
    hide Regular, Response, NormSq;
    AtOne(p[0], Complex(0.5 + 0.5 * r, 0.0));
    AtOne(q[0], Complex(0.5 - 0.5 * r, 0.0));
    PowersFallShort(r);
  }

  lemma AtOne(s: Section, n: Complex)
    requires s.b2 == s.a1 == s.a2 == 0.0 && n == Complex(s.b0 + s.b1, 0.0)
    ensures Regular([s], ONE) && Response([s], ONE) == n
  {
    ProductUnits(s.b1, 0.0);
    hide L.Times;
    FirstOrder(s, ONE, n);
  }

  lemma PowersFallShort(r: real)
    requires 0.0 < r < 1.0
    ensures NormSq(Complex(0.5 + 0.5 * r, 0.0)) + NormSq(Complex(0.5 - 0.5 * r, 0.0)) < 1.0
  {
    assert (0.5 + 0.5 * r) * (0.5 + 0.5 * r) + (0.5 - 0.5 * r) * (0.5 - 0.5 * r) == 0.5 + 0.5 * (r * r);
    L.PositiveProduct(1.0 - r, 1.0 + r, (1.0 - r) * (1.0 + r));
    assert (1.0 - r) * (1.0 + r) == 1.0 - r * r;
  }
}
