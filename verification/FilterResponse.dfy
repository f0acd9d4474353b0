/** That a cascade's runs have the frequency response by which its seeds are judged
    (tools/gen_beam_error_profiles.py). */
module FilterResponse {
  import opened AllPass
  import opened Cascade
  import opened ComplexNumbers
  import opened DifferenceEquations
  import L = Linear
  import S = StateSpaces

  /** The sum of x[n] w^n. */
  function Transform(x: L.Vector, w: Complex): Complex {
    if x == [] then ZERO else Add(Complex(x[0], 0.0), Mul(w, Transform(x[1..], w)))
  }

  /** What two states still owe the transform of the outputs. */
  function Owed(s1: real, s2: real, w: Complex): Complex {
    Add(Complex(s1, 0.0), Scale(s2, w))
  }

  function SectionFinal(s: Section, s1: real, s2: real, x: L.Vector): (real, real)
    decreases |x|
  {
    if x == [] then (s1, s2)
    else
      var r := SectionStep(s, x[0], s1, s2);
      SectionFinal(s, r.next1, r.next2, x[1..])
  }

  /** One sample moves what is owed by what the numerator makes of the input and the denominator of the output. */
  lemma SampleBalances(s: Section, x: real, s1: real, s2: real, w: Complex)
    ensures var r := SectionStep(s, x, s1, s2);
      Add(Scale(r.output, Eval(Denominator(s), w)), Mul(w, Owed(r.next1, r.next2, w))) ==
      Add(Scale(x, Eval(Numerator(s), w)), Owed(s1, s2, w))
  {
    var r := SectionStep(s, x, s1, s2);
    var square := Mul(w, w);
    EvalTerms(Numerator(s), w);
    EvalTerms(Denominator(s), w);
    assert Mul(w, Owed(r.next1, r.next2, w)) == Add(Scale(r.next1, w), Scale(r.next2, square)) by {
      hide Eval, Mul, Scale, Add, SectionStep;
      MulAdd(w, Complex(r.next1, 0.0), Scale(r.next2, w));
      RealTimes(w, r.next1);
      MulScale(w, r.next2, w);
    }
    hide Eval, Mul;
    Balance(s, x, s1, s2, 1.0, w.re, square.re);
    Balance(s, x, s1, s2, 0.0, w.im, square.im);
  }

  lemma Balance(s: Section, x: real, s1: real, s2: real, one: real, p: real, q: real)
    ensures var r := SectionStep(s, x, s1, s2);
      r.output * (1.0 * one + s.a1 * p + s.a2 * q) + (r.next1 * p + r.next2 * q) ==
      x * (s.b0 * one + s.b1 * p + s.b2 * q) + (s1 * one + s2 * p)
  {
    var y := s.b0 * x + s1;
    Spread(y, one, s.a1 * p, s.a2 * q);
    Spread(x, s.b0 * one, s.b1 * p, s.b2 * q);
    assert (s.b1 * x - s.a1 * y + s2) * p == x * (s.b1 * p) - y * (s.a1 * p) + s2 * p;
    assert (s.b2 * x - s.a2 * y) * q == x * (s.b2 * q) - y * (s.a2 * q);
    assert y * one == x * (s.b0 * one) + s1 * one;
  }

  lemma Spread(k: real, a: real, b: real, c: real)
    ensures k * (a + b + c) == k * a + k * b + k * c
  {
  }

  lemma SumsMeet(a: Complex, b: Complex, p: Complex, w1: Complex, w2: Complex, w3: Complex, w4: Complex)
    requires Add(w1, w2) == Add(w3, w4) && Add(a, w4) == Add(b, p)
    ensures Add(Add(a, w1), w2) == Add(Add(b, w3), p)
  {
  }

  lemma SwapIn(d: Complex, w: Complex, y: Complex)
    ensures Mul(d, Mul(w, y)) == Mul(w, Mul(d, y))
  {
    hide *;
    MulAssoc(d, w, y);
    MulComm(d, w);
    MulAssoc(w, d, y);
  }

  /** The balance of a run from the balance of its first sample and of the rest. */
  lemma RunBalances(d: Complex, n: Complex, y: real, x: real, ys: Complex, xs: Complex, p: Complex, p': Complex,
                    final: Complex, w: Complex, delay: Complex)
    requires Add(Mul(d, ys), Mul(delay, final)) == Add(Mul(n, xs), p')
    requires Add(Scale(y, d), Mul(w, p')) == Add(Scale(x, n), p)
    ensures Add(Mul(d, Add(Complex(y, 0.0), Mul(w, ys))), Mul(Mul(w, delay), final)) ==
            Add(Mul(n, Add(Complex(x, 0.0), Mul(w, xs))), p)
  {
    hide *;
    MulAdd(d, Complex(y, 0.0), Mul(w, ys));
    MulAdd(n, Complex(x, 0.0), Mul(w, xs));
    RealTimes(d, y);
    RealTimes(n, x);
    SwapIn(d, w, ys);
    SwapIn(n, w, xs);
    MulAssoc(w, delay, final);
    MulAdd(w, Mul(d, ys), Mul(delay, final));
    MulAdd(w, Mul(n, xs), p');
    SumsMeet(Scale(y, d), Scale(x, n), p, Mul(w, Mul(d, ys)), Mul(w, Mul(delay, final)), Mul(w, Mul(n, xs)), Mul(w, p'));
  }

  /** Denominator times outputs and numerator times inputs differ by what the states owe, before and after. */
  lemma {:induction false} SectionTransform(s: Section, s1: real, s2: real, x: L.Vector, w: Complex)
    ensures var final := SectionFinal(s, s1, s2, x);
      Add(Mul(Eval(Denominator(s), w), Transform(SectionRun(s, s1, s2, x), w)),
          Mul(Pow(w, |x|), Owed(final.0, final.1, w))) ==
      Add(Mul(Eval(Numerator(s), w), Transform(x, w)), Owed(s1, s2, w))
    decreases |x|
  {
    hide Eval, Mul, Add, Scale, SectionStep, Owed;
    if x == [] {
      MulUnits(Eval(Denominator(s), w));
      MulUnits(Eval(Numerator(s), w));
      MulUnits(Owed(s1, s2, w));
    } else {
      var r := SectionStep(s, x[0], s1, s2);
      var y := SectionRun(s, s1, s2, x);
      var final := SectionFinal(s, s1, s2, x);
      SectionTransform(s, r.next1, r.next2, x[1..], w);
      SampleBalances(s, x[0], s1, s2, w);
      assert y[1..] == SectionRun(s, r.next1, r.next2, x[1..]);
      RunBalances(Eval(Denominator(s), w), Eval(Numerator(s), w), r.output, x[0], Transform(y[1..], w),
                  Transform(x[1..], w), Owed(s1, s2, w), Owed(r.next1, r.next2, w),
                  Owed(final.0, final.1, w), w, Pow(w, |x| - 1));
    }
  }

  // ----- Whole cascades -----

  function CascadeFinal(sos: Sos, state: L.Vector, x: L.Vector): (r: L.Vector)
    requires |state| == 2 * |sos|
    ensures |r| == 2 * |sos|
    decreases |x|
  {
    if x == [] then state else CascadeFinal(sos, Step(sos, state, x[0]).next, x[1..])
  }

  lemma {:induction false} FinalComposes(sos: Sos, state: L.Vector, x: L.Vector)
    requires sos != [] && |state| == 2 * |sos|
    ensures var k := |sos| - 1;
      var fed := S.CascadeOutputs(sos[..k], state[..2 * k], x);
      var last := SectionFinal(sos[k], state[2 * k], state[2 * k + 1], fed);
      CascadeFinal(sos, state, x) == CascadeFinal(sos[..k], state[..2 * k], x) + [last.0, last.1]
    decreases |x|
  {
    hide Step, SectionStep;
    var k := |sos| - 1;
    if x == [] {
      assert state == state[..2 * k] + [state[2 * k], state[2 * k + 1]];
    } else {
      var r := Step(sos, state, x[0]);
      var before := Step(sos[..k], state[..2 * k], x[0]);
      StepLast(sos, state, x[0]);
      assert r.next[..2 * k] == before.next;
      FinalComposes(sos, r.next, x[1..]);
      var fed := S.CascadeOutputs(sos[..k], state[..2 * k], x);
      assert fed == [before.output] + S.CascadeOutputs(sos[..k], before.next, x[1..]);
      assert fed[1..] == S.CascadeOutputs(sos[..k], before.next, x[1..]);
    }
  }

  /** What the states of a cascade still owe its outputs. */
  function Remainder(sos: Sos, state: L.Vector, w: Complex): Complex
    requires |state| == 2 * |sos| && Regular(sos, w)
  {
    if sos == [] then ZERO
    else
      var k := |sos| - 1;
      Add(Mul(Ratio(sos[k], w), Remainder(sos[..k], state[..2 * k], w)),
          Div(Owed(state[2 * k], state[2 * k + 1], w), Eval(Denominator(sos[k]), w)))
  }

  /** Dividing a section's balance by its denominator. */
  lemma Divided(d: Complex, n: Complex, y: Complex, x: Complex, p: Complex, final: Complex, delay: Complex)
    requires NormSq(d) != 0.0 && Add(Mul(d, y), Mul(delay, final)) == Add(Mul(n, x), p)
    ensures Add(y, Mul(delay, Div(final, d))) == Add(Mul(Div(n, d), x), Div(p, d))
  {
    hide *;
    var u, v, r := Div(final, d), Div(p, d), Div(n, d);
    DivMul(final, d);
    DivMul(p, d);
    DivMul(n, d);
    MulComm(u, d);
    MulComm(v, d);
    MulComm(r, d);
    MulAdd(d, y, Mul(delay, u));
    SwapIn(d, delay, u);
    MulAdd(d, Mul(r, x), v);
    MulAssoc(d, r, x);
    MulComm(d, Add(y, Mul(delay, u)));
    MulComm(d, Add(Mul(r, x), v));
    CancelRight(Add(y, Mul(delay, u)), Add(Mul(r, x), v), d);
  }

  /** One more section: its balance over the balance of those before it. */
  lemma SectionsBalance(r: Complex, y: Complex, fed: Complex, x: Complex, response: Complex, u: Complex, v: Complex,
                        owed: Complex, owed': Complex, delay: Complex)
    requires Add(y, Mul(delay, u)) == Add(Mul(r, fed), v)
    requires Add(fed, Mul(delay, owed')) == Add(Mul(response, x), owed)
    ensures Add(y, Mul(delay, Add(Mul(r, owed'), u))) == Add(Mul(Mul(response, r), x), Add(Mul(r, owed), v))
  {
    hide *;
    MulAdd(r, fed, Mul(delay, owed'));
    MulAdd(r, Mul(response, x), owed);
    SwapIn(r, delay, owed');
    MulAdd(delay, Mul(r, owed'), u);
    MulAssoc(r, response, x);
    MulComm(r, response);
    Gather(y, Mul(delay, u), Mul(r, fed), v, Mul(delay, Mul(r, owed')), Mul(Mul(response, r), x), Mul(r, owed));
  }

  lemma Gather(y: Complex, du: Complex, rf: Complex, v: Complex, dro: Complex, h: Complex, ro: Complex)
    requires Add(y, du) == Add(rf, v) && Add(rf, dro) == Add(h, ro)
    ensures Add(y, Add(dro, du)) == Add(h, Add(ro, v))
  {
  }

  /** For any run of any cascade: the transform of the outputs is the response times that of the inputs, up to what
      the states owe before and after. */
  lemma {:induction false} CascadeTransform(sos: Sos, state: L.Vector, x: L.Vector, w: Complex)
    requires |state| == 2 * |sos| && Regular(sos, w)
    ensures Add(Transform(S.CascadeOutputs(sos, state, x), w),
                Mul(Pow(w, |x|), Remainder(sos, CascadeFinal(sos, state, x), w))) ==
            Add(Mul(Response(sos, w), Transform(x, w)), Remainder(sos, state, w))
    decreases |sos|
  {
    hide Eval, Mul, Add, Div, NormSq, Owed, Transform, Pow, S.CascadeOutputs, CascadeFinal, SectionRun, SectionFinal;
    var delay := Pow(w, |x|);
    if sos == [] {
      NothingChanges(state, x);
      MulUnits(Transform(x, w));
      MulUnits(delay);
    } else {
      var k := |sos| - 1;
      var fed := S.CascadeOutputs(sos[..k], state[..2 * k], x);
      var last := SectionFinal(sos[k], state[2 * k], state[2 * k + 1], fed);
      CascadeTransform(sos[..k], state[..2 * k], x, w);
      CascadeComposes(sos, state, x);
      FinalComposes(sos, state, x);
      SameLength(sos[..k], state[..2 * k], x);
      SectionTransform(sos[k], state[2 * k], state[2 * k + 1], fed, w);
      var d, n := Eval(Denominator(sos[k]), w), Eval(Numerator(sos[k]), w);
      var p, final := Owed(state[2 * k], state[2 * k + 1], w), Owed(last.0, last.1, w);
      var y := Transform(S.CascadeOutputs(sos, state, x), w);
      Divided(d, n, y, Transform(fed, w), p, final, delay);
      var done := CascadeFinal(sos, state, x);
      assert done[..2 * k] == CascadeFinal(sos[..k], state[..2 * k], x) && done[2 * k] == last.0 && done[2 * k + 1] == last.1;
      SectionsBalance(Ratio(sos[k], w), y, Transform(fed, w), Transform(x, w), Response(sos[..k], w), Div(final, d),
                      Div(p, d), Remainder(sos[..k], state[..2 * k], w), Remainder(sos[..k], done[..2 * k], w), delay);
    }
  }

  lemma {:induction false} SameLength(sos: Sos, state: L.Vector, x: L.Vector)
    requires |state| == 2 * |sos|
    ensures |S.CascadeOutputs(sos, state, x)| == |x|
    decreases |x|
  {
    hide Step;
    if x != [] {
      SameLength(sos, Step(sos, state, x[0]).next, x[1..]);
    }
  }

  lemma {:induction false} NothingChanges(state: L.Vector, x: L.Vector)
    requires state == []
    ensures S.CascadeOutputs([], state, x) == x && CascadeFinal([], state, x) == []
    decreases |x|
  {
    if x != [] {
      NothingChanges([], x[1..]);
      assert Step([], state, x[0]) == StepResult([], x[0]);
    }
  }

  lemma {:induction false} RestOwesNothing(sos: Sos, w: Complex)
    requires Regular(sos, w)
    ensures Remainder(sos, L.Zeros(2 * |sos|), w) == ZERO
  {
    hide Eval, Mul, Div, NormSq, Owed;
    if sos != [] {
      var k := |sos| - 1;
      RestOwesNothing(sos[..k], w);
      assert L.Zeros(2 * |sos|)[..2 * k] == L.Zeros(2 * k);
      MulUnits(Ratio(sos[k], w));
      NothingOwed(w, Eval(Denominator(sos[k]), w));
    }
  }

  lemma NothingOwed(w: Complex, d: Complex)
    requires NormSq(d) != 0.0
    ensures Div(Owed(0.0, 0.0, w), d) == ZERO
  {
    assert Owed(0.0, 0.0, w) == ZERO by {
      assert 0.0 * w.re == 0.0 && 0.0 * w.im == 0.0;
    }
    MulUnits(d);
    hide Mul, NormSq, Owed, Div;
    DivUnique(ZERO, d, ZERO);
  }

  /** The impulse response of a cascade, transformed, is its frequency response, up to what the states still owe. */
  lemma ImpulseHasResponse(sos: Sos, samples: nat, w: Complex)
    requires Regular(sos, w) && samples > 0
    ensures var impulse, rest := S.Impulse(samples), L.Zeros(2 * |sos|);
      Add(Transform(S.CascadeOutputs(sos, rest, impulse), w),
          Mul(Pow(w, samples), Remainder(sos, CascadeFinal(sos, rest, impulse), w))) == Response(sos, w)
  {
    hide Eval, Mul, Div, NormSq, Remainder, Response, S.CascadeOutputs, CascadeFinal, Transform;
    CascadeTransform(sos, L.Zeros(2 * |sos|), S.Impulse(samples), w);
    RestOwesNothing(sos, w);
    ImpulseTransform(samples, w);
    MulUnits(Response(sos, w));
    AddZero(Response(sos, w));
  }

  lemma ImpulseTransform(samples: nat, w: Complex)
    requires samples > 0
    ensures Transform(S.Impulse(samples), w) == ONE
  {
    var x := S.Impulse(samples);
    assert x[0] == 1.0;
    SilenceTransform(x[1..], w);
    hide Mul;
    MulUnits(w);
  }

  lemma {:induction false} SilenceTransform(x: L.Vector, w: Complex)
    requires forall i | 0 <= i < |x| :: x[i] == 0.0
    ensures Transform(x, w) == ZERO
  {
    if x != [] {
      hide Mul;
      SilenceTransform(x[1..], w);
      MulUnits(w);
    }
  }
}
