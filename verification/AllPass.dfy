/** Frequency responses of section cascades under the all-pass substitution
    (tools/gen_beam_error_profiles.py). */
module AllPass {
  import opened ComplexNumbers
  import opened Cascade
  import L = Linear

  /** c0 + c1 w + c2 w^2 */
  datatype Quadratic = Quadratic(c0: real, c1: real, c2: real)

  function Eval(q: Quadratic, w: Complex): Complex {
    EvalWith(q, w, Mul(w, w))
  }

  function EvalWith(q: Quadratic, w: Complex, square: Complex): Complex {
    Complex(q.c0 + L.Times(q.c1, w.re) + L.Times(q.c2, square.re), L.Times(q.c1, w.im) + L.Times(q.c2, square.im))
  }

  function Numerator(s: Section): Quadratic {
    Quadratic(s.b0, s.b1, s.b2)
  }

  function Denominator(s: Section): Quadratic {
    Quadratic(1.0, s.a1, s.a2)
  }

  predicate OnCircle(w: Complex) {
    NormSq(w) == 1.0
  }

  predicate Regular(sos: Sos, w: Complex) {
    forall i | 0 <= i < |sos| :: NormSq(Eval(Denominator(sos[i]), w)) != 0.0
  }

  function Ratio(s: Section, w: Complex): Complex
    requires NormSq(Eval(Denominator(s), w)) != 0.0
  {
    Div(Eval(Numerator(s), w), Eval(Denominator(s), w))
  }

  /** The response at w, the value of one sample of delay. */
  function Response(sos: Sos, w: Complex): Complex
    requires Regular(sos, w)
  {
    if sos == [] then ONE else Mul(Response(sos[..|sos| - 1], w), Ratio(sos[|sos| - 1], w))
  }

  method ResponsePower(sos: Sos, z1: Complex) returns (power: real)
    requires Regular(sos, z1)
    ensures power == NormSq(Response(sos, z1))
  {
    hide Eval, Mul, Div, NormSq;
    var response := ONE;
    for i := 0 to |sos|
      invariant Regular(sos[..i], z1) && response == Response(sos[..i], z1)
    {
      assert sos[..i + 1][..i] == sos[..i];
      response := Mul(response, Ratio(sos[i], z1));
    }
    assert sos[..|sos|] == sos;
    SquaredModulus(response);
    power := response.re * response.re + response.im * response.im;
  }

  lemma SquaredModulus(z: Complex)
    ensures NormSq(z) == z.re * z.re + z.im * z.im
  {
  }

  // ----- The substitution -----

  /** The coefficients after w becomes (w - alpha) / (1 - alpha w) and the denominator is cleared. */
  function Substituted(q: Quadratic, alpha: real): Quadratic {
    var beta := L.Times(alpha, alpha);
    Quadratic(q.c0 - L.Times(alpha, q.c1) + L.Times(beta, q.c2),
              -2.0 * L.Times(alpha, q.c0) + L.Times(1.0 + beta, q.c1) - 2.0 * L.Times(alpha, q.c2),
              L.Times(beta, q.c0) - L.Times(alpha, q.c1) + q.c2)
  }

  /** 1 - alpha w */
  function Below(alpha: real, w: Complex): Complex {
    Sub(ONE, Scale(alpha, w))
  }

  /** w - alpha */
  function Above(alpha: real, w: Complex): Complex {
    Sub(w, Complex(alpha, 0.0))
  }

  lemma ProductLaws(a: real, b: real, c: real)
    ensures L.Times(a, b) == L.Times(b, a) && L.Times(a, L.Times(b, c)) == L.Times(L.Times(a, b), c)
    ensures L.Times(a, b + c) == L.Times(a, b) + L.Times(a, c) && L.Times(a + b, c) == L.Times(a, c) + L.Times(b, c)
  {
  }

  lemma ProductUnits(a: real, b: real)
    ensures L.Times(a, -b) == L.Times(-a, b) == -L.Times(a, b) && L.Times(-2.0 * a, b) == -2.0 * L.Times(a, b)
    ensures L.Times(a, 0.0) == L.Times(0.0, a) == 0.0 && L.Times(a, 1.0) == L.Times(1.0, a) == a
    ensures L.Times(a, -2.0 * b) == -2.0 * L.Times(a, b)
  {
  }

  lemma ScaleIs(r: real, z: Complex)
    ensures Scale(r, z) == Complex(L.Times(r, z.re), L.Times(r, z.im))
  {
  }

  lemma ProductOfDifferences(p: Complex, q: Complex, r: Complex, t: Complex)
    ensures Mul(Sub(p, q), Sub(r, t)) == Add(Sub(Sub(Mul(p, r), Mul(p, t)), Mul(q, r)), Mul(q, t))
  {
    assert Mul(Sub(p, q), Sub(r, t)) == Sub(Sub(Mul(p, r), Mul(q, r)), Sub(Mul(p, t), Mul(q, t))) by {
      hide Mul, Sub;
      MulSub(Sub(p, q), r, t);
      MulComm(Sub(p, q), r);
      MulComm(Sub(p, q), t);
      MulSub(r, p, q);
      MulSub(t, p, q);
      MulComm(r, p);
      MulComm(r, q);
      MulComm(t, p);
      MulComm(t, q);
    }
    hide Mul;
  }

  lemma RealTimes(k: Complex, c: real)
    ensures Mul(k, Complex(c, 0.0)) == Scale(c, k) && Mul(Complex(c, 0.0), k) == Scale(c, k)
  {
    TimesReal(k, c);
    MulComm(k, Complex(c, 0.0));
    hide Mul;
  }

  /** The products of 1 - alpha w and w - alpha, term by term. */
  lemma ProductsOfParts(alpha: real, w: Complex)
    ensures var s, t, u, a, ww := Below(alpha, w), Above(alpha, w), Scale(alpha, w), Complex(alpha, 0.0), Mul(w, w);
      && Mul(s, s) == Add(Sub(Sub(ONE, u), u), Scale(alpha, Scale(alpha, ww)))
      && Mul(t, s) == Add(Sub(Sub(w, Scale(alpha, ww)), a), Scale(alpha, u))
      && Mul(t, t) == Add(Sub(Sub(ww, u), u), Scale(alpha, a))
  {
    var u, a := Scale(alpha, w), Complex(alpha, 0.0);
    hide Mul, Add, Sub, Scale;
    RealTimes(w, alpha);
    RealTimes(u, alpha);
    RealTimes(a, alpha);
    MulUnits(ONE);
    MulUnits(u);
    MulUnits(w);
    MulUnits(a);
    MulScale(w, alpha, w);
    MulScale(u, alpha, w);
    MulComm(u, w);
    ProductOfDifferences(ONE, u, ONE, u);
    ProductOfDifferences(w, a, ONE, u);
    ProductOfDifferences(w, a, w, a);
  }

  function Multiple(k: real, q: Quadratic): Quadratic {
    Quadratic(L.Times(k, q.c0), L.Times(k, q.c1), L.Times(k, q.c2))
  }

  function Plus(q: Quadratic, r: Quadratic): Quadratic {
    Quadratic(q.c0 + r.c0, q.c1 + r.c1, q.c2 + r.c2)
  }

  lemma EvalMultiple(k: real, q: Quadratic, w: Complex)
    ensures Eval(Multiple(k, q), w) == Scale(k, Eval(q, w))
  {
    hide Mul, L.Times, Scale;
    var ww := Mul(w, w);
    ScaleIs(k, Eval(q, w));
    MultipleEntry(k, q.c0, q.c1, q.c2, w.re, ww.re);
    MultipleEntry(k, 0.0, q.c1, q.c2, w.im, ww.im);
    ProductUnits(k, 0.0);
  }

  lemma MultipleEntry(k: real, a: real, b: real, c: real, x: real, p: real)
    ensures L.Times(k, a) + L.Times(L.Times(k, b), x) + L.Times(L.Times(k, c), p) ==
            L.Times(k, a + L.Times(b, x) + L.Times(c, p))
  {
    hide L.Times;
    ProductLaws(k, b, x);
    ProductLaws(k, c, p);
    ProductLaws(k, a + L.Times(b, x), L.Times(c, p));
    ProductLaws(k, a, L.Times(b, x));
  }

  lemma EvalPlus(q: Quadratic, r: Quadratic, w: Complex)
    ensures Eval(Plus(q, r), w) == Add(Eval(q, w), Eval(r, w))
  {
    hide Mul, L.Times;
    var ww := Mul(w, w);
    ProductLaws(q.c1, r.c1, w.re);
    ProductLaws(q.c2, r.c2, ww.re);
    ProductLaws(q.c1, r.c1, w.im);
    ProductLaws(q.c2, r.c2, ww.im);
  }

  /** The quadratics of (1 - alpha w)^2, (w - alpha)(1 - alpha w) and (w - alpha)^2. */
  function Part0(alpha: real): Quadratic {
    Quadratic(1.0, -2.0 * alpha, L.Times(alpha, alpha))
  }

  function Part1(alpha: real): Quadratic {
    Quadratic(-alpha, 1.0 + L.Times(alpha, alpha), -alpha)
  }

  function Part2(alpha: real): Quadratic {
    Quadratic(L.Times(alpha, alpha), -2.0 * alpha, 1.0)
  }

  lemma SubstitutedParts(q: Quadratic, alpha: real)
    ensures Substituted(q, alpha) ==
            Plus(Plus(Multiple(q.c0, Part0(alpha)), Multiple(q.c1, Part1(alpha))), Multiple(q.c2, Part2(alpha)))
  {
    hide L.Times;
    var beta := L.Times(alpha, alpha);
    forall c: real
      ensures L.Times(c, 1.0) == c && L.Times(c, -2.0 * alpha) == -2.0 * L.Times(alpha, c)
      ensures L.Times(c, beta) == L.Times(beta, c) && L.Times(c, -alpha) == -L.Times(alpha, c)
      ensures L.Times(c, 1.0 + beta) == L.Times(1.0 + beta, c)
    {
      ProductUnits(c, alpha);
      ProductLaws(c, alpha, 0.0);
      ProductLaws(c, beta, 0.0);
      ProductLaws(c, 1.0 + beta, 0.0);
    }
  }

  lemma PartsEvaluate(alpha: real, w: Complex)
    ensures var s, t := Below(alpha, w), Above(alpha, w);
      && Mul(s, s) == Eval(Part0(alpha), w) && Mul(t, s) == Eval(Part1(alpha), w)
      && Mul(t, t) == Eval(Part2(alpha), w)
  {
    ProductsOfParts(alpha, w);
    hide Mul, Below, Above, Scale, L.Times;
    var u, a, ww := Scale(alpha, w), Complex(alpha, 0.0), Mul(w, w);
    ScaleIs(alpha, w);
    ScaleIs(alpha, ww);
    ScaleIs(alpha, u);
    ScaleIs(alpha, a);
    ScaleIs(alpha, Scale(alpha, ww));
    EntryLaws(alpha, w.re);
    EntryLaws(alpha, w.im);
    EntryLaws(alpha, ww.re);
    EntryLaws(alpha, ww.im);
    ProductUnits(alpha, 0.0);
  }

  lemma EntryLaws(alpha: real, x: real)
    ensures L.Times(alpha, L.Times(alpha, x)) == L.Times(L.Times(alpha, alpha), x)
    ensures L.Times(1.0 + L.Times(alpha, alpha), x) == x + L.Times(L.Times(alpha, alpha), x)
    ensures L.Times(-2.0 * alpha, x) == -2.0 * L.Times(alpha, x) && L.Times(-alpha, x) == -L.Times(alpha, x)
    ensures L.Times(1.0, x) == x
  {
    hide L.Times;
    ProductLaws(alpha, alpha, x);
    ProductLaws(1.0, L.Times(alpha, alpha), x);
    ProductUnits(alpha, x);
    ProductUnits(x, x);
  }

  /** At w the substituted quadratic is (1 - alpha w)^2 times the quadratic at the warped point. */
  lemma SubstitutedEval(q: Quadratic, alpha: real, w: Complex, v: Complex)
    requires Mul(v, Below(alpha, w)) == Above(alpha, w)
    ensures var s := Below(alpha, w); Eval(Substituted(q, alpha), w) == Mul(Mul(s, s), Eval(q, v))
  {
    hide *;
    var s, t := Below(alpha, w), Above(alpha, w);
    var q0, q1, q2 := Multiple(q.c0, Part0(alpha)), Multiple(q.c1, Part1(alpha)), Multiple(q.c2, Part2(alpha));
    SubstitutedParts(q, alpha);
    PartsEvaluate(alpha, w);
    EvalPlus(Plus(q0, q1), q2, w);
    EvalPlus(q0, q1, w);
    EvalMultiple(q.c0, Part0(alpha), w);
    EvalMultiple(q.c1, Part1(alpha), w);
    EvalMultiple(q.c2, Part2(alpha), w);
    ScaledEval(q, Mul(s, s), v);
    MulAssoc(s, s, v);
    MulComm(s, v);
    MulComm(s, t);
    MulSwap(s, s, v, v);
  }

  /** k times a quadratic at v, term by term. */
  lemma ScaledEval(q: Quadratic, k: Complex, v: Complex)
    ensures Mul(k, Eval(q, v)) ==
            Add(Add(Scale(q.c0, k), Scale(q.c1, Mul(k, v))), Scale(q.c2, Mul(k, Mul(v, v))))
  {
    hide *;
    var c, vv := Complex(q.c0, 0.0), Mul(v, v);
    EvalTerms(q, v);
    RealTimes(k, q.c0);
    MulAdd(k, Add(c, Scale(q.c1, v)), Scale(q.c2, vv));
    MulAdd(k, c, Scale(q.c1, v));
    MulScale(k, q.c1, v);
    MulScale(k, q.c2, vv);
  }

  lemma EvalTerms(q: Quadratic, v: Complex)
    ensures Eval(q, v) == Add(Add(Complex(q.c0, 0.0), Scale(q.c1, v)), Scale(q.c2, Mul(v, v)))
  {
    hide Mul, L.Times, Scale;
    ScaleIs(q.c1, v);
    ScaleIs(q.c2, Mul(v, v));
  }
}
