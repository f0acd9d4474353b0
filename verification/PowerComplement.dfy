/** When the resampled seeds keep the power complement of the pair they were made from
    (tools/gen_beam_error_profiles.py). */
module PowerComplement {
  import opened AllPass
  import opened Cascade
  import opened ComplexNumbers
  import opened FourierSpec
  import opened LinearFactors
  import opened Parseval
  import opened Powers
  import opened ResampledSeed
  import opened StrictSeed
  import opened Wrappers
  import L = Linear

  // ----- A cascade by its zeros and poles -----

  /** The roots of all sections in one sequence. */
  ghost function Flat(roots: seq<Roots>): (r: seq<Complex>)
    ensures |r| == 2 * |roots|
  {
    if roots == [] then []
    else Flat(roots[..|roots| - 1]) + [roots[|roots| - 1].first, roots[|roots| - 1].second]
  }

  /** The squared product of the leading coefficients. */
  ghost function Gain(sos: Sos): real {
    if sos == [] then 1.0 else L.Times(Gain(sos[..|sos| - 1]), L.Square(sos[|sos| - 1].b0))
  }

  ghost predicate HasZeros(sos: Sos, zeros: seq<Roots>) {
    |zeros| == |sos| && forall i | 0 <= i < |sos| :: AreRoots(sos[i].b0, sos[i].b1, sos[i].b2, zeros[i])
  }

  ghost predicate HasPoles(sos: Sos, poles: seq<Roots>) {
    |poles| == |sos| && forall i | 0 <= i < |sos| :: StableWith(sos[i], poles[i])
  }

  lemma PairFactors(r: Roots, w: Complex)
    ensures Factors([r.first, r.second], w) == Mul(Sub(ONE, Mul(r.first, w)), Sub(ONE, Mul(r.second, w)))
  {
    hide Mul, Sub;
    var pair, last := [r.first, r.second], [r.second];
    assert pair[1..] == last && last[1..] == [];
    assert Factors(last, w) == Mul(Sub(ONE, Mul(r.second, w)), Factors([], w));
    MulUnits(Sub(ONE, Mul(r.second, w)));
  }

  lemma QuadraticPower(a: real, b: real, c: real, r: Roots, w: Complex)
    requires AreRoots(a, b, c, r)
    ensures NormSq(Eval(Quadratic(a, b, c), w)) == L.Times(L.Square(a), NormSq(Factors([r.first, r.second], w)))
  {
    hide NormSq, Eval, AreRoots, Factors, Scale;
    FactoredEval(a, b, c, r, w);
    PairFactors(r, w);
    hide Mul, Sub;
    StretchedAt(ONE, a, Factors([r.first, r.second], w));
  }

  lemma SectionPower(s: Section, zeros: Roots, poles: Roots, w: Complex)
    requires AreRoots(s.b0, s.b1, s.b2, zeros) && StableWith(s, poles) && OnCircle(w)
    ensures NormSq(Eval(Denominator(s), w)) != 0.0
    ensures NormSq(Factors([poles.first, poles.second], w)) != 0.0
    ensures L.Times(NormSq(Ratio(s, w)), NormSq(Factors([poles.first, poles.second], w))) ==
            L.Times(L.Square(s.b0), NormSq(Factors([zeros.first, zeros.second], w)))
  {
    hide NormSq, Eval, AreRoots, Factors, Mul, Div;
    assert Stable(s);
    StableIsRegular(s, w);
    QuadraticPower(s.b0, s.b1, s.b2, zeros, w);
    QuadraticPower(1.0, s.a1, s.a2, poles, w);
    DivMul(Eval(Numerator(s), w), Eval(Denominator(s), w));
    NormSqMul(Ratio(s, w), Eval(Denominator(s), w));
  }

  lemma {:induction false} CascadePower(sos: Sos, zeros: seq<Roots>, poles: seq<Roots>, w: Complex)
    requires HasZeros(sos, zeros) && HasPoles(sos, poles) && OnCircle(w)
    ensures Regular(sos, w) && NormSq(Factors(Flat(poles), w)) != 0.0
    ensures L.Times(NormSq(Response(sos, w)), NormSq(Factors(Flat(poles), w))) ==
            L.Times(Gain(sos), NormSq(Factors(Flat(zeros), w)))
  {
    hide NormSq, Eval, AreRoots, StableWith, Factors, Mul, OnCircle, L.Times, L.Square, Ratio;
    forall i | 0 <= i < |sos| ensures NormSq(Eval(Denominator(sos[i]), w)) != 0.0 {
      SectionPower(sos[i], zeros[i], poles[i], w);
    }
    assert Regular(sos, w);
    if sos == [] {
      assert zeros == [] && poles == [];
      NoFactors(w);
      OneIsUnit();
    } else {
      var k := |sos| - 1;
      CascadePower(sos[..k], zeros[..k], poles[..k], w);
      SectionPower(sos[k], zeros[k], poles[k], w);
      FactorsConcat(Flat(zeros[..k]), [zeros[k].first, zeros[k].second], w);
      FactorsConcat(Flat(poles[..k]), [poles[k].first, poles[k].second], w);
      NormTimes(Factors(Flat(zeros[..k]), w), Factors([zeros[k].first, zeros[k].second], w));
      NormTimes(Factors(Flat(poles[..k]), w), Factors([poles[k].first, poles[k].second], w));
      NormTimes(Response(sos[..k], w), Ratio(sos[k], w));
      SwapTimes(NormSq(Response(sos[..k], w)), NormSq(Ratio(sos[k], w)),
                NormSq(Factors(Flat(poles[..k]), w)), NormSq(Factors([poles[k].first, poles[k].second], w)));
      SwapTimes(Gain(sos[..k]), L.Square(sos[k].b0),
                NormSq(Factors(Flat(zeros[..k]), w)), NormSq(Factors([zeros[k].first, zeros[k].second], w)));
    }
  }

  lemma NoFactors(w: Complex)
    ensures NormSq(Factors([], w)) == 1.0 && Flat([]) == [] && Gain([]) == 1.0 && Response([], w) == ONE
  {
  }

  lemma NormTimes(a: Complex, b: Complex)
    ensures NormSq(Mul(a, b)) == L.Times(NormSq(a), NormSq(b))
    ensures NormSq(a) != 0.0 && NormSq(b) != 0.0 ==> NormSq(Mul(a, b)) != 0.0
  {
    hide NormSq, Mul;
    NormSqMul(a, b);
    NonZeroProductIf(a, b);
  }

  lemma SwapTimes(a: real, b: real, c: real, d: real)
    ensures L.Times(L.Times(a, b), L.Times(c, d)) == L.Times(L.Times(a, c), L.Times(b, d))
  {
    assert (a * b) * (c * d) == (a * c) * (b * d);
  }

  // ----- Complementary pairs -----

  /** a and b are complementary at w: their zeros and poles balance there. */
  lemma BalancedAt(a: Sos, b: Sos, za: seq<Roots>, zb: seq<Roots>, pa: seq<Roots>, pb: seq<Roots>, w: Complex)
    requires HasZeros(a, za) && HasZeros(b, zb) && HasPoles(a, pa) && HasPoles(b, pb) && OnCircle(w)
    requires ComplementaryAt(a, b, w)
    ensures NormSq(Factors(Flat(pa) + Flat(pb), w)) ==
            L.Times(Gain(a), NormSq(Factors(Flat(za) + Flat(pb), w))) +
            L.Times(Gain(b), NormSq(Factors(Flat(zb) + Flat(pa), w)))
  {
    hide NormSq, Factors, Flat, Gain, HasZeros, HasPoles, OnCircle, Response, Regular, Mul;
    CascadePower(a, za, pa, w);
    CascadePower(b, zb, pb, w);
    FactorsConcat(Flat(pa), Flat(pb), w);
    FactorsConcat(Flat(za), Flat(pb), w);
    FactorsConcat(Flat(zb), Flat(pa), w);
    NormTimes(Factors(Flat(pa), w), Factors(Flat(pb), w));
    NormTimes(Factors(Flat(za), w), Factors(Flat(pb), w));
    NormTimes(Factors(Flat(zb), w), Factors(Flat(pa), w));
    Balance(NormSq(Response(a, w)), NormSq(Response(b, w)), NormSq(Factors(Flat(pa), w)),
            NormSq(Factors(Flat(pb), w)), Gain(a), NormSq(Factors(Flat(za), w)), Gain(b), NormSq(Factors(Flat(zb), w)));
  }

  lemma Balance(x: real, y: real, p: real, q: real, g: real, s: real, h: real, t: real)
    requires x + y == 1.0 && L.Times(x, p) == L.Times(g, s) && L.Times(y, q) == L.Times(h, t)
    ensures L.Times(p, q) == L.Times(g, L.Times(s, q)) + L.Times(h, L.Times(t, p))
  {
    assert g * (s * q) == x * p * q && h * (t * p) == y * q * p;
    L.Distribute(p * q, x, y);
    assert p * q * x == x * p * q && p * q * y == y * q * p;
  }

  lemma {:induction false} EnergiesAdd(c: seq<Complex>, g: real, a: seq<Complex>, h: real, b: seq<Complex>)
    requires |a| == |b| == |c|
    requires forall k | 0 <= k < |c| :: NormSq(c[k]) == L.Times(g, NormSq(a[k])) + L.Times(h, NormSq(b[k]))
    ensures Energy(c) == L.Times(g, Energy(a)) + L.Times(h, Energy(b))
  {
    hide NormSq;
    if c != [] {
      EnergiesAdd(c[1..], g, a[1..], h, b[1..]);
      L.Distribute(g, NormSq(a[0]), Energy(a[1..]));
      L.Distribute(h, NormSq(b[0]), Energy(b[1..]));
    }
  }

  /** A complementary pair balances the energies of its zeros and poles. */
  lemma EnergiesBalance(a: Sos, b: Sos, za: seq<Roots>, zb: seq<Roots>, pa: seq<Roots>, pb: seq<Roots>,
                        m: nat, turn: Turns)
    requires HasZeros(a, za) && HasZeros(b, zb) && HasPoles(a, pa) && HasPoles(b, pb) && Complementary(a, b)
    requires IsExponential(turn) && 2 * |a| + 2 * |b| < Pow2(m)
    ensures Energy(Expanded(Flat(pa) + Flat(pb))) ==
            L.Times(Gain(a), Energy(Expanded(Flat(za) + Flat(pb)))) +
            L.Times(Gain(b), Energy(Expanded(Flat(zb) + Flat(pa))))
  {
    hide NormSq, Factors, Flat, Gain, OnCircle, ComplementaryAt, Energy, Expanded, IsExponential, L.Times, Pow;
    var poles, first, second := Flat(pa) + Flat(pb), Flat(za) + Flat(pb), Flat(zb) + Flat(pa);
    var w := turn(false, Pow2(m));
    TurnIsUnit(turn, false, m);
    forall k: nat | k < Pow2(m)
      ensures NormSq(Values(poles, m, turn)[k]) ==
              L.Times(Gain(a), NormSq(Values(first, m, turn)[k])) + L.Times(Gain(b), NormSq(Values(second, m, turn)[k]))
    {
      PowIsUnit(w, k);
      UnitIsOnCircle(Pow(w, k));
      BalancedAt(a, b, za, zb, pa, pb, Pow(w, k));
    }
    EnergiesAdd(Values(poles, m, turn), Gain(a), Values(first, m, turn), Gain(b), Values(second, m, turn));
    ValuesTellEnergy(poles, m, turn);
    ValuesTellEnergy(first, m, turn);
    ValuesTellEnergy(second, m, turn);
    CancelCommon(Pow2(m) as real, Energy(Expanded(poles)), Gain(a), Energy(Expanded(first)), Gain(b),
                 Energy(Expanded(second)));
  }

  lemma UnitIsOnCircle(w: Complex)
    ensures OnCircle(w) <==> NormSq(w) == 1.0
  {
  }

  lemma CancelCommon(n: real, c: real, g: real, a: real, h: real, b: real)
    requires n != 0.0 && L.Times(n, c) == L.Times(g, L.Times(n, a)) + L.Times(h, L.Times(n, b))
    ensures c == L.Times(g, a) + L.Times(h, b)
  {
    assert g * (n * a) == n * (g * a) && h * (n * b) == n * (h * b);
    L.Distribute(n, g * a, h * b);
    Cancel(n, c, g * a + h * b);
  }

  // ----- What projection moves -----

  predicate WithinRadius(r: Roots) {
    NormSq(r.first) <= L.Square(STRICT_ZERO_RADIUS) && NormSq(r.second) <= L.Square(STRICT_ZERO_RADIUS)
  }

  /** No zero of any section is beyond the strict radius. */
  ghost predicate AllWithin(sos: Sos) {
    forall i | 0 <= i < |sos| :: ZerosWithin(sos[i])
  }

  ghost predicate ZerosWithin(s: Section) {
    forall r: Roots | AreRoots(s.b0, s.b1, s.b2, r) :: WithinRadius(r)
  }

  lemma AnyRootsDecide(s: Section, r: Roots)
    requires s.b0 != 0.0 && AreRoots(s.b0, s.b1, s.b2, r)
    ensures ZerosWithin(s) <==> WithinRadius(r)
  {
    hide NormSq, L.Square, AreRoots;
    if WithinRadius(r) {
      forall t: Roots | AreRoots(s.b0, s.b1, s.b2, t) ensures WithinRadius(t) {
        RootsAreUnique(s.b0, s.b1, s.b2, t, r);
      }
    }
  }

  lemma PulledInIsPulled(z: Complex, m: Complex, sqrt: real -> real)
    requires L.SquareRoot(sqrt) && PulledIn(z, m, sqrt)
    ensures PulledTo(z, m, STRICT_ZERO_RADIUS)
    ensures m == z <==> NormSq(z) <= L.Square(STRICT_ZERO_RADIUS)
  {
    hide NormSq, L.Square, L.SquareRoot;
    if NormSq(z) > L.Square(STRICT_ZERO_RADIUS) {
      RadiusIsPositive();
      ModulusBelow(z, sqrt, STRICT_ZERO_RADIUS);
      ModulusSquared(z, sqrt);
      var t := Modulus(z, sqrt);
      var u := DivReal(z, t);
      QuotientTimes(z, t, u);
      UnitModulus(z, t, u);
      SwapFactors(STRICT_ZERO_RADIUS, t, u.re);
      SwapFactors(STRICT_ZERO_RADIUS, t, u.im);
      CancelScale(t, m, Scale(STRICT_ZERO_RADIUS, u));
      assert PulledAlong(z, m, STRICT_ZERO_RADIUS, t, u);
    }
  }

  /** What is known of a cascade and its projection. */
  ghost predicate Projects(sos: Sos, p: Sos, zeros: seq<Roots>, moved: seq<Roots>, poles: seq<Roots>) {
    && HasZeros(sos, zeros) && HasZeros(p, moved) && HasPoles(sos, poles) && HasPoles(p, poles)
    && AllPulled(Flat(zeros), Flat(moved), STRICT_ZERO_RADIUS)
    && Gain(p) == Gain(sos) > 0.0
    && (AllWithin(sos) <==> Flat(moved) == Flat(zeros))
    && (AllWithin(sos) ==> p == sos)
  }

  lemma {:induction false} ProjectionMoves(sos: Sos, p: Sos, root: Complex -> Complex, sqrt: real -> real)
    returns (zeros: seq<Roots>, moved: seq<Roots>, poles: seq<Roots>)
    requires ComplexRoot(root) && L.SquareRoot(sqrt) && ProjectsTo(sos, p, root, sqrt)
    ensures Projects(sos, p, zeros, moved, poles)
    decreases |sos|
  {
    hide ComplexRoot, L.SquareRoot, ProjectSection, StrictVersion, Projects;
    if sos == [] {
      zeros, moved, poles := [], [], [];
      EmptyProjects(p);
    } else {
      var k := |sos| - 1;
      zeros, moved, poles := ProjectionMoves(sos[..k], p[..k], root, sqrt);
      var z, m := ProjectionSucceeds(sos[k], root, sqrt, p[k]);
      var r := OneMoreSection(sos[..k], p[..k], zeros, moved, poles, sos[k], p[k], z, m, sqrt);
      zeros, moved, poles := zeros + [z], moved + [m], poles + [r];
      assert sos == sos[..k] + [sos[k]] && p == p[..k] + [p[k]];
    }
  }

  lemma EmptyProjects(p: Sos)
    requires p == []
    ensures Projects([], p, [], [], [])
  {
  }

  lemma OneMoreSection(sos: Sos, p: Sos, zeros: seq<Roots>, moved: seq<Roots>, poles: seq<Roots>,
                       s: Section, s': Section, z: Roots, m: Roots, sqrt: real -> real) returns (r: Roots)
    requires L.SquareRoot(sqrt) && Projects(sos, p, zeros, moved, poles)
    requires s.b0 != 0.0 && StrictVersion(s, s', z, m, sqrt)
    ensures Projects(sos + [s], p + [s'], zeros + [z], moved + [m], poles + [r])
  {
    hide NormSq, L.SquareRoot, L.Square, AreRoots, PulledIn, PulledTo, ZerosWithin, AllWithin, Gain, Flat, HasZeros, HasPoles;
    r :| StableWith(s', r);
    hide StableWith, AllPulled;
    SamePoleRoots(s, s', r);
    ZerosGrow(sos, zeros, s, z);
    ZerosGrow(p, moved, s', m);
    PolesGrow(sos, poles, s, r);
    PolesGrow(p, poles, s', r);
    FlatGrows(zeros, z);
    FlatGrows(moved, m);
    GainGrows(sos, s);
    GainGrows(p, s');
    PulledInIsPulled(z.first, m.first, sqrt);
    PulledInIsPulled(z.second, m.second, sqrt);
    PulledGrows(Flat(zeros), Flat(moved), z, m);
    AnyRootsDecide(s, z);
    WithinGrows(sos, s);
    ProjectionIsIdentity(s, s', z, m, sqrt);
  }

  lemma PulledGrows(zeros: seq<Complex>, moved: seq<Complex>, z: Roots, m: Roots)
    requires AllPulled(zeros, moved, STRICT_ZERO_RADIUS)
    requires PulledTo(z.first, m.first, STRICT_ZERO_RADIUS) && PulledTo(z.second, m.second, STRICT_ZERO_RADIUS)
    ensures AllPulled(zeros + [z.first, z.second], moved + [m.first, m.second], STRICT_ZERO_RADIUS)
    ensures moved + [m.first, m.second] == zeros + [z.first, z.second] <==> moved == zeros && m == z
  {
    hide PulledTo;
    var a, b := zeros + [z.first, z.second], moved + [m.first, m.second];
    var k := |zeros|;
    assert a[..k] == zeros && b[..k] == moved;
    assert a[k] == z.first && b[k] == m.first && a[k + 1] == z.second && b[k + 1] == m.second;
  }

  lemma SamePoleRoots(s: Section, p: Section, r: Roots)
    requires StableWith(p, r) && p.a1 == s.a1 && p.a2 == s.a2
    ensures StableWith(s, r)
  {
  }

  lemma ZerosGrow(sos: Sos, zeros: seq<Roots>, s: Section, z: Roots)
    requires HasZeros(sos, zeros) && AreRoots(s.b0, s.b1, s.b2, z)
    ensures HasZeros(sos + [s], zeros + [z])
  {
    hide AreRoots;
  }

  lemma PolesGrow(sos: Sos, poles: seq<Roots>, s: Section, r: Roots)
    requires HasPoles(sos, poles) && StableWith(s, r)
    ensures HasPoles(sos + [s], poles + [r])
  {
    hide StableWith;
  }

  lemma FlatGrows(roots: seq<Roots>, r: Roots)
    ensures Flat(roots + [r]) == Flat(roots) + [r.first, r.second]
  {
    assert (roots + [r])[..|roots|] == roots;
  }

  lemma GainGrows(sos: Sos, s: Section)
    ensures Gain(sos + [s]) == L.Times(Gain(sos), L.Square(s.b0))
    ensures Gain(sos) > 0.0 && s.b0 != 0.0 ==> Gain(sos + [s]) > 0.0
  {
    assert (sos + [s])[..|sos|] == sos;
    L.SquareIsPositive(s.b0, L.Square(s.b0));
    if Gain(sos) > 0.0 && s.b0 != 0.0 {
      L.PositiveProduct(Gain(sos), L.Square(s.b0), Gain(sos) * L.Square(s.b0));
    }
  }

  lemma WithinGrows(sos: Sos, s: Section)
    ensures AllWithin(sos + [s]) <==> AllWithin(sos) && ZerosWithin(s)
  {
    hide ZerosWithin;
    var longer := sos + [s];
    assert longer[|sos|] == s;
    assert forall i | 0 <= i < |sos| :: longer[i] == sos[i];
  }

  // ----- The frozen pair -----

  lemma ShortEnough(n: nat)
    requires n <= 20_000
    ensures Noticeable(n, STRICT_ZERO_RADIUS)
  {
    var x := n as real;
    SquareMonotone(x, 20_000.0, x * x, 400_000_000.0);
    NoticeableMeans(n, STRICT_ZERO_RADIUS);
  }

  lemma SquareMonotone(x: real, y: real, p: real, q: real)
    requires 0.0 <= x <= y && p == x * x && q == y * y
    ensures p <= q
  {
    MonotoneTimes(x, x, y);
    MonotoneProduct(x, y, y);
  }

  lemma {:induction false} PowerExceeds(n: nat)
    ensures n < Pow2(n)
  {
    if n > 0 {
      PowerExceeds(n - 1);
    }
  }

  /** Of a complementary pair of at most ten thousand sections together: the seeds made from it are complementary
      exactly when no zero of the pair is beyond the strict radius. */
  lemma FrozenPairSurvives(a: Sos, b: Sos, p: Sos, q: Sos, m: Sos, n: Sos, alpha: real, root: Complex -> Complex,
                           sqrt: real -> real, turn: Turns)
    requires ComplexRoot(root) && L.SquareRoot(sqrt) && IsExponential(turn)
    requires Complementary(a, b) && |a| + |b| <= 10_000
    requires ProjectsTo(a, p, root, sqrt) && ProjectsTo(b, q, root, sqrt)
    requires Contracting(alpha) && MapsTo(p, m, alpha) && MapsTo(q, n, alpha)
    ensures Complementary(m, n) <==> AllWithin(a) && AllWithin(b)
  {
    hide ComplexRoot, L.SquareRoot, IsExponential, Complementary, ProjectsTo, MapsTo, AllWithin;
    var za, ma, pa := ProjectionMoves(a, p, root, sqrt);
    var zb, mb, pb := ProjectionMoves(b, q, root, sqrt);
    PolesAreStable(p, pa);
    PolesAreStable(q, pb);
    ComplementSurvives(p, q, m, n, alpha);
    if Complementary(p, q) {
      NothingMoved(a, b, p, q, za, zb, ma, mb, pa, pb, turn);
    }
  }

  lemma PolesAreStable(sos: Sos, poles: seq<Roots>)
    requires HasPoles(sos, poles)
    ensures AllStable(sos)
  {
    hide StableWith;
    assert forall i | 0 <= i < |sos| :: StableWith(sos[i], poles[i]);
  }

  /** Two pairs that differ by pulled zeros cannot both be complementary. */
  lemma NothingMoved(a: Sos, b: Sos, p: Sos, q: Sos, za: seq<Roots>, zb: seq<Roots>, ma: seq<Roots>, mb: seq<Roots>,
                     pa: seq<Roots>, pb: seq<Roots>, turn: Turns)
    requires IsExponential(turn) && |a| + |b| <= 10_000 && Projects(a, p, za, ma, pa) && Projects(b, q, zb, mb, pb)
    requires Complementary(a, b) && Complementary(p, q)
    ensures AllWithin(a) && AllWithin(b)
  {
    hide IsExponential, Complementary, AllWithin, Energy, Expanded, Gain, L.Times, AllPulled, Noticeable, AreRoots, StableWith;
    var k := 2 * |a| + 2 * |b|;
    PowerExceeds(k);
    ShortEnough(k);
    EnergiesBalance(a, b, za, zb, pa, pb, k, turn);
    EnergiesBalance(p, q, ma, mb, pa, pb, k, turn);
    PullsLowerEnergy(Flat(za), Flat(ma), Flat(pb), STRICT_ZERO_RADIUS, k, turn);
    PullsLowerEnergy(Flat(zb), Flat(mb), Flat(pa), STRICT_ZERO_RADIUS, k, turn);
    NoSlack(Gain(a), Energy(Expanded(Flat(ma) + Flat(pb))), Energy(Expanded(Flat(za) + Flat(pb))),
            Gain(b), Energy(Expanded(Flat(mb) + Flat(pa))), Energy(Expanded(Flat(zb) + Flat(pa))));
  }

  lemma NoSlack(g: real, x: real, y: real, h: real, s: real, t: real)
    requires g > 0.0 && h > 0.0 && x <= y && s <= t
    requires L.Times(g, x) + L.Times(h, s) == L.Times(g, y) + L.Times(h, t)
    ensures x == y && s == t
  {
    StrictTimes(g, x, y);
    StrictTimes(h, s, t);
  }

  lemma StrictTimes(g: real, x: real, y: real)
    requires g > 0.0 && x <= y
    ensures L.Times(g, x) <= L.Times(g, y) && (x < y ==> L.Times(g, x) < L.Times(g, y))
  {
    if x < y {
      L.PositiveProduct(g, y - x, g * (y - x));
      L.Distribute(g, y - x, x);
    }
  }
}
