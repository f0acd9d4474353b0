/** The one-bit noise-shaping loop and its diagonal rescaling (tools/gen_crfb.py). */
module Modulator {
  import opened Linear
  import opened Elimination
  import opened Numbers

  /** The loop filter: x' = A x + bu u + bv v with quantizer input C x + d1 u. */
  datatype Plant = Plant(a: Matrix, bu: Vector, bv: Vector, c: Vector, d1: real)

  datatype LoopState = LoopState(x: Vector, peak: Vector, unstable: bool)

  const DIVERGE_LIMIT := 1000.0

  ghost predicate IsPlant(p: Plant, n: nat) {
    IsMatrix(p.a, n, n) && |p.bu| == |p.bv| == |p.c| == n
  }

  function QuantizerInput(p: Plant, x: Vector, u: real): real {
    Dot(p.c, x) + p.d1 * u
  }

  function Quantize(y: real, dither: real): real {
    if y + dither > 0.0 then 1.0 else -1.0
  }

  function NextState(p: Plant, x: Vector, u: real, v: real): (r: Vector)
    ensures |r| == |p.a|
  {
    Combine(Combine(MatVec(p.a, x), u, p.bu), v, p.bv)
  }

  predicate Diverged(x: Vector) {
    exists i | 0 <= i < |x| :: Abs(x[i]) > DIVERGE_LIMIT
  }

  /** The larger of each peak and the magnitude of its state. */
  function Peaks(peak: Vector, x: Vector): (r: Vector)
    ensures |r| == |peak|
  {
    seq(|peak|, i requires 0 <= i < |peak| => Larger(peak[i], Abs(At(x, i))))
  }

  /** One sample; a diverged state is flagged and reset before the peaks are taken. */
  function LoopStep(p: Plant, s: LoopState, u: real, dither: real): LoopState {
    var next := NextState(p, s.x, u, Quantize(QuantizerInput(p, s.x, u), dither));
    var x := if Diverged(next) then Zeros(|next|) else next;
    LoopState(x, Peaks(s.peak, x), s.unstable || Diverged(next))
  }

  /** The state of one column after k samples from rest. */
  function Run(p: Plant, n: nat, u: nat -> real, dither: nat -> real, k: nat): LoopState {
    if k == 0 then LoopState(Zeros(n), Zeros(n), false)
    else LoopStep(p, Run(p, n, u, dither, k - 1), u(k - 1), dither(k - 1))
  }

  function QuantizerInputs(p: Plant, n: nat, u: nat -> real, dither: nat -> real, k: nat): seq<real> {
    seq(k, j requires 0 <= j < k => QuantizerInput(p, Run(p, n, u, dither, j).x, u(j)))
  }

  /** The first k bits of the output stream. */
  function Bits(p: Plant, n: nat, u: nat -> real, dither: nat -> real, k: nat): seq<real> {
    seq(k, j requires 0 <= j < k => Quantize(QuantizerInput(p, Run(p, n, u, dither, j).x, u(j)), dither(j)))
  }

  // ----- The vectorized simulation -----

  function Stimulus(amps: Vector, wave: seq<Vector>, j: nat): nat -> real {
    (k: nat) => At(amps, j) * (if k < |wave| then At(wave[k], j) else 0.0)
  }

  function DitherOf(dither: seq<Vector>, j: nat): nat -> real {
    (k: nat) => if k < |dither| then At(dither[k], j) else 0.0
  }

  /** The run of column j by itself. */
  function Alone(p: Plant, n: nat, amps: Vector, wave: seq<Vector>, dither: seq<Vector>, j: nat, k: nat): LoopState {
    Run(p, n, Stimulus(amps, wave, j), DitherOf(dither, j), k)
  }

  predicate EndsAs(peak: Vector, unstable: bool, s: LoopState) {
    peak == s.peak && unstable == s.unstable
  }

  /** All columns at once; each ends as it would have alone. */
  method BatchSimulate(p: Plant, n: nat, amps: Vector, wave: seq<Vector>, dither: seq<Vector>, steps: nat)
    returns (peak: seq<Vector>, unstable: seq<bool>)
    requires IsPlant(p, n) && IsMatrix(wave, steps, |amps|) && IsMatrix(dither, steps, |amps|)
    ensures |peak| == |unstable| == |amps|
    ensures forall j: nat | j < |amps| :: EndsAs(peak[j], unstable[j], Alone(p, n, amps, wave, dither, j, steps))
  {
    hide NextState, Diverged, Quantize, QuantizerInput, Peaks;
    var k := |amps|;
    var x: seq<Vector> := seq(k, (j: nat) => Zeros(n));
    peak := seq(k, (j: nat) => Zeros(n));
    unstable := seq(k, (j: nat) => false);
    for step := 0 to steps
      invariant |x| == |peak| == |unstable| == k
      invariant forall j: nat | j < k ::
        LoopState(x[j], peak[j], unstable[j]) == Alone(p, n, amps, wave, dither, j, step)
    {
      for column := 0 to k
        invariant |x| == |peak| == |unstable| == k
        invariant forall j: nat | j < k :: LoopState(x[j], peak[j], unstable[j]) ==
                                           Alone(p, n, amps, wave, dither, j, if j < column then step + 1 else step)
      {
        var u := amps[column] * wave[step][column];
        var y := QuantizerInput(p, x[column], u);
        var v := Quantize(y, dither[step][column]);
        var next := NextState(p, x[column], u, v);
        var bad := Diverged(next);
        assert u == Stimulus(amps, wave, column)(step);
        assert dither[step][column] == DitherOf(dither, column)(step);
        if bad {
          unstable := unstable[column := true];
          next := Zeros(|next|);
        }
        x := x[column := next];
        peak := peak[column := Peaks(peak[column], next)];
      }
    }
  }

  // ----- The rescaled plant -----

  function Diagonal(t: Vector): (r: Matrix)
    ensures IsMatrix(r, |t|, |t|)
  {
    seq(|t|, i requires 0 <= i < |t| => Scale(t[i], Basis(|t|, i)))
  }

  predicate Positive(t: Vector) {
    forall i | 0 <= i < |t| :: t[i] > 0.0
  }

  function Reciprocals(t: Vector): (r: Vector)
    requires Positive(t)
    ensures |r| == |t|
  {
    seq(|t|, i requires 0 <= i < |t| => 1.0 / t[i])
  }

  /** The plant in the coordinates T^-1 x, with T = diag(t). */
  function Rescaled(p: Plant, t: Vector): Plant
    requires Positive(t)
  {
    var n := |t|;
    var inverse := Diagonal(Reciprocals(t));
    var c := seq(n, j requires 0 <= j < n => Dot(p.c, Column(Diagonal(t), j)));
    Plant(MatMul(MatMul(inverse, p.a, n), Diagonal(t), n), MatVec(inverse, p.bu), MatVec(inverse, p.bv), c, p.d1)
  }

  /** Each entry times its factor. */
  function TimesEach(t: Vector, x: Vector): (r: Vector)
    ensures |r| == |t|
  {
    seq(|t|, i requires 0 <= i < |t| => Times(t[i], At(x, i)))
  }

  lemma DiagonalScales(t: Vector, x: Vector)
    requires |x| == |t|
    ensures MatVec(Diagonal(t), x) == TimesEach(t, x)
  {
    forall i | 0 <= i < |t| ensures MatVec(Diagonal(t), x)[i] == TimesEach(t, x)[i] {
      hide Dot;
      DotScale(t[i], Basis(|t|, i), x);
      DotCommutes(Basis(|t|, i), x);
      DotBasis(x, |t|, i);
    }
  }

  lemma DivideBack(t: Vector, x: Vector)
    requires Positive(t) && |x| == |t|
    ensures MatVec(Diagonal(Reciprocals(t)), TimesEach(t, x)) == x
    ensures TimesEach(t, MatVec(Diagonal(Reciprocals(t)), x)) == x
  {
    hide Diagonal, MatVec, Times;
    var r := Reciprocals(t);
    DiagonalScales(r, TimesEach(t, x));
    DiagonalScales(r, x);
    forall i | 0 <= i < |t|
      ensures TimesEach(r, TimesEach(t, x))[i] == x[i] && TimesEach(t, TimesEach(r, x))[i] == x[i]
    {
      Cancels(t[i], r[i], x[i]);
    }
  }

  lemma Cancels(t: real, r: real, x: real)
    requires t > 0.0 && r == 1.0 / t
    ensures Times(r, Times(t, x)) == x && Times(t, Times(r, x)) == x
  {
    assert r * t == 1.0;
    assert r * (t * x) == (r * t) * x && t * (r * x) == (r * t) * x;
  }

  /** The scaled state is T^-1 times the original, and so are the peaks. */
  ghost predicate InStep(t: Vector, s: LoopState, scaled: LoopState) {
    && |s.x| == |s.peak| == |scaled.x| == |scaled.peak| == |t|
    && s.x == TimesEach(t, scaled.x) && s.peak == TimesEach(t, scaled.peak)
  }

  lemma SameQuantizerInput(p: Plant, n: nat, t: Vector, x: Vector, u: real)
    requires IsPlant(p, n) && |t| == |x| == n && Positive(t)
    ensures QuantizerInput(Rescaled(p, t), x, u) == QuantizerInput(p, TimesEach(t, x), u)
  {
    hide Dot, Diagonal, MatVec, MatMul, Reciprocals, Column, TimesEach;
    var c := Rescaled(p, t).c;
    RowTimes(p.c, Diagonal(t), n, c);
    Adjoint(Diagonal(t), n, x, p.c);
    DiagonalScales(t, x);
  }

  lemma SameNextState(p: Plant, n: nat, t: Vector, x: Vector, u: real, v: real)
    requires IsPlant(p, n) && |t| == |x| == n && Positive(t)
    ensures var scaled := NextState(Rescaled(p, t), x, u, v);
      |scaled| == n && TimesEach(t, scaled) == NextState(p, TimesEach(t, x), u, v)
  {
    hide Dot, Diagonal, MatVec, MatMul, Reciprocals, Column, TimesEach, Combine;
    var inverse := Diagonal(Reciprocals(t));
    var ax := MatVec(p.a, TimesEach(t, x));
    MatMulVec(MatMul(inverse, p.a, n), Diagonal(t), n, n, x);
    MatMulVec(inverse, p.a, n, n, MatVec(Diagonal(t), x));
    DiagonalScales(t, x);
    MatVecCombine(inverse, n, ax, u, p.bu);
    MatVecCombine(inverse, n, Combine(ax, u, p.bu), v, p.bv);
    DivideBack(t, NextState(p, TimesEach(t, x), u, v));
  }

  lemma SamePeaks(t: Vector, peak: Vector, x: Vector)
    requires Positive(t) && |peak| == |x| == |t|
    ensures TimesEach(t, Peaks(peak, x)) == Peaks(TimesEach(t, peak), TimesEach(t, x))
  {
    var left, right := TimesEach(t, Peaks(peak, x)), Peaks(TimesEach(t, peak), TimesEach(t, x));
    hide Times, Larger, Abs;
    forall i | 0 <= i < |t| ensures left[i] == right[i] {
      LargerScales(t[i], peak[i], x[i]);
    }
  }

  lemma LargerScales(t: real, p: real, x: real)
    requires t > 0.0
    ensures Times(t, Larger(p, Abs(x))) == Larger(Times(t, p), Abs(Times(t, x)))
  {
    OrderScales(t, x, 0.0);
    OrderScales(t, p, Abs(x));
    assert t * 0.0 == 0.0 && t * -x == -(t * x);
  }

  lemma OrderScales(t: real, a: real, b: real)
    requires t > 0.0
    ensures a >= b <==> t * a >= t * b
  {
    if a > b {
      PositiveProduct(t, a - b, t * (a - b));
    } else if a < b {
      PositiveProduct(t, b - a, t * (b - a));
    }
  }

  lemma TrippedIsNotZero(t: Vector, x: Vector)
    requires Positive(t) && |x| == |t| && (Diverged(x) || Diverged(TimesEach(t, x)))
    ensures x != Zeros(|t|) && TimesEach(t, x) != Zeros(|t|)
  {
    hide Times;
    var y := TimesEach(t, x);
    if Diverged(x) {
      var i :| 0 <= i < |x| && Abs(x[i]) > DIVERGE_LIMIT;
      ProductIsZero(t[i], x[i]);
      assert y[i] != 0.0 && x[i] != 0.0;
    } else {
      var i :| 0 <= i < |y| && Abs(y[i]) > DIVERGE_LIMIT;
      ProductIsZero(t[i], x[i]);
      assert y[i] != 0.0 && x[i] != 0.0;
    }
  }

  lemma ProductIsZero(t: real, x: real)
    requires t > 0.0
    ensures Times(t, x) == 0.0 <==> x == 0.0
  {
    OrderScales(t, x, 0.0);
    OrderScales(t, 0.0, x);
    assert t * 0.0 == 0.0;
  }

  /** The reset trips at this sample. */
  predicate Trips(p: Plant, s: LoopState, u: real, dither: real) {
    Diverged(NextState(p, s.x, u, Quantize(QuantizerInput(p, s.x, u), dither)))
  }

  /** From states in step, the next states are in step exactly when the reset trips in both or in neither. */
  lemma StepInStep(p: Plant, n: nat, t: Vector, s: LoopState, scaled: LoopState, u: real, dither: real)
    requires IsPlant(p, n) && |t| == n && Positive(t) && InStep(t, s, scaled)
    ensures QuantizerInput(Rescaled(p, t), scaled.x, u) == QuantizerInput(p, s.x, u)
    ensures InStep(t, LoopStep(p, s, u, dither), LoopStep(Rescaled(p, t), scaled, u, dither)) <==>
            (Trips(p, s, u, dither) <==> Trips(Rescaled(p, t), scaled, u, dither))
  {
    hide NextState, QuantizerInput, TimesEach, Peaks, Rescaled, Diverged, Positive;
    SameQuantizerInput(p, n, t, scaled.x, u);
    var v := Quantize(QuantizerInput(p, s.x, u), dither);
    SameNextState(p, n, t, scaled.x, u, v);
    var next := NextState(Rescaled(p, t), scaled.x, u, v);
    SamePeaks(t, scaled.peak, next);
    SamePeaks(t, scaled.peak, Zeros(n));
    ZerosInStep(t);
    if Diverged(next) || Diverged(TimesEach(t, next)) {
      TrippedIsNotZero(t, next);
    }
  }

  lemma ZerosInStep(t: Vector)
    ensures TimesEach(t, Zeros(|t|)) == Zeros(|t|)
  {
    forall i | 0 <= i < |t| ensures TimesEach(t, Zeros(|t|))[i] == 0.0 {
      assert t[i] * 0.0 == 0.0;
    }
  }

  lemma RunStep(p: Plant, n: nat, u: nat -> real, dither: nat -> real, k: nat)
    ensures Run(p, n, u, dither, k + 1) == LoopStep(p, Run(p, n, u, dither, k), u(k), dither(k))
    ensures Run(p, n, u, dither, 0) == LoopState(Zeros(n), Zeros(n), false)
  {
    hide LoopStep;
  }

  lemma StartInStep(t: Vector)
    ensures InStep(t, LoopState(Zeros(|t|), Zeros(|t|), false), LoopState(Zeros(|t|), Zeros(|t|), false))
  {
    ZerosInStep(t);
  }

  /** Over k samples the reset trips in the scaled run whenever it does in the original, and no more. */
  ghost predicate ResetsMatch(p: Plant, n: nat, t: Vector, u: nat -> real, dither: nat -> real, k: nat)
    requires Positive(t)
  {
    forall j: nat | j < k :: Trips(p, Run(p, n, u, dither, j), u(j), dither(j)) <==>
                             Trips(Rescaled(p, t), Run(Rescaled(p, t), n, u, dither, j), u(j), dither(j))
  }

  ghost predicate InStepAt(p: Plant, n: nat, t: Vector, u: nat -> real, dither: nat -> real, k: nat)
    requires Positive(t)
  {
    InStep(t, Run(p, n, u, dither, k), Run(Rescaled(p, t), n, u, dither, k))
  }

  lemma MatchGrows(p: Plant, n: nat, t: Vector, u: nat -> real, dither: nat -> real, k: nat)
    requires Positive(t)
    ensures ResetsMatch(p, n, t, u, dither, k + 1) <==>
            ResetsMatch(p, n, t, u, dither, k) &&
            (Trips(p, Run(p, n, u, dither, k), u(k), dither(k)) <==>
             Trips(Rescaled(p, t), Run(Rescaled(p, t), n, u, dither, k), u(k), dither(k)))
  {
    hide Trips, Run, Rescaled, Positive;
  }

  /** For every stimulus and dither, the scaled state is T^-1 times the original throughout exactly when the two
      runs trip the reset at the same samples. */
  lemma {:induction false} StatesAgree(p: Plant, n: nat, t: Vector, u: nat -> real, dither: nat -> real, k: nat)
    requires IsPlant(p, n) && |t| == n && Positive(t)
    ensures ResetsMatch(p, n, t, u, dither, k) <==> forall j: nat | j <= k :: InStepAt(p, n, t, u, dither, j)
  {
    hide Trips, InStep, Run, LoopStep, Rescaled, IsPlant, Positive;
    var scaled := Rescaled(p, t);
    if k == 0 {
      RunStep(p, n, u, dither, 0);
      RunStep(scaled, n, u, dither, 0);
      StartInStep(t);
    } else {
      StatesAgree(p, n, t, u, dither, k - 1);
      RunStep(p, n, u, dither, k - 1);
      RunStep(scaled, n, u, dither, k - 1);
      var s, s' := Run(p, n, u, dither, k - 1), Run(scaled, n, u, dither, k - 1);
      if InStepAt(p, n, t, u, dither, k - 1) {
        StepInStep(p, n, t, s, s', u(k - 1), dither(k - 1));
      }
      assert InStepAt(p, n, t, u, dither, k) == InStep(t, Run(p, n, u, dither, k), Run(scaled, n, u, dither, k));
      MatchGrows(p, n, t, u, dither, k - 1);
    }
  }

  /** Then the quantizer inputs and the bits are the same too. */
  lemma {:induction false} StreamsAgree(p: Plant, n: nat, t: Vector, u: nat -> real, dither: nat -> real, k: nat)
    requires IsPlant(p, n) && |t| == n && Positive(t) && ResetsMatch(p, n, t, u, dither, k)
    ensures QuantizerInputs(Rescaled(p, t), n, u, dither, k + 1) == QuantizerInputs(p, n, u, dither, k + 1)
    ensures Bits(Rescaled(p, t), n, u, dither, k + 1) == Bits(p, n, u, dither, k + 1)
  {
    hide Trips, InStep, Run, LoopStep, Rescaled, IsPlant, Positive, QuantizerInput, QuantizerInputs, Bits, Quantize;
    var scaled := Rescaled(p, t);
    StatesAgree(p, n, t, u, dither, k);
    assert InStepAt(p, n, t, u, dither, k);
    StepInStep(p, n, t, Run(p, n, u, dither, k), Run(scaled, n, u, dither, k), u(k), dither(k));
    AddLast(p, n, u, dither, k);
    AddLast(scaled, n, u, dither, k);
    if k == 0 {
      NoBits(p, n, u, dither);
      NoBits(scaled, n, u, dither);
    } else {
      StreamsAgree(p, n, t, u, dither, k - 1);
    }
  }

  /** A run that is not flagged has not tripped. */
  lemma {:induction false} QuietRun(p: Plant, n: nat, u: nat -> real, dither: nat -> real, k: nat)
    requires !Run(p, n, u, dither, k).unstable
    ensures forall j: nat | j < k :: !Trips(p, Run(p, n, u, dither, j), u(j), dither(j))
  {
    hide *;
    if k > 0 {
      RunStep(p, n, u, dither, k - 1);
      TripSetsFlag(p, Run(p, n, u, dither, k - 1), u(k - 1), dither(k - 1));
      QuietRun(p, n, u, dither, k - 1);
    }
  }

  /** The flag is set by a trip and never taken back. */
  lemma TripSetsFlag(p: Plant, s: LoopState, u: real, dither: real)
    ensures LoopStep(p, s, u, dither).unstable <==> s.unstable || Trips(p, s, u, dither)
  {
    hide NextState, QuantizerInput, Quantize, Diverged, Peaks;
  }

  /** Neither run being flagged is enough. */
  lemma QuietRunsMatch(p: Plant, n: nat, t: Vector, u: nat -> real, dither: nat -> real, k: nat)
    requires Positive(t) && !Run(p, n, u, dither, k).unstable && !Run(Rescaled(p, t), n, u, dither, k).unstable
    ensures ResetsMatch(p, n, t, u, dither, k)
  {
    hide Trips, Run, Rescaled, Positive;
    QuietRun(p, n, u, dither, k);
    QuietRun(Rescaled(p, t), n, u, dither, k);
  }

  lemma NoBits(p: Plant, n: nat, u: nat -> real, dither: nat -> real)
    ensures QuantizerInputs(p, n, u, dither, 0) == [] && Bits(p, n, u, dither, 0) == []
  {
  }

  lemma AddLast(p: Plant, n: nat, u: nat -> real, dither: nat -> real, k: nat)
    ensures var y := QuantizerInput(p, Run(p, n, u, dither, k).x, u(k));
      && QuantizerInputs(p, n, u, dither, k + 1) == QuantizerInputs(p, n, u, dither, k) + [y]
      && Bits(p, n, u, dither, k + 1) == Bits(p, n, u, dither, k) + [Quantize(y, dither(k))]
  {
    hide Run, QuantizerInput, Quantize;
  }

  /** Scaling by the peaks a run measured makes every peak of the same run one. */
  lemma ScalingNormalizes(p: Plant, n: nat, t: Vector, u: nat -> real, dither: nat -> real, k: nat)
    requires IsPlant(p, n) && |t| == n && Positive(t) && t == Run(p, n, u, dither, k).peak
    requires ResetsMatch(p, n, t, u, dither, k)
    ensures Run(Rescaled(p, t), n, u, dither, k).peak == Ones(n)
  {
    hide Run, Rescaled, Times;
    StatesAgree(p, n, t, u, dither, k);
    assert InStepAt(p, n, t, u, dither, k);
    var peak := Run(Rescaled(p, t), n, u, dither, k).peak;
    assert |peak| == n;
    forall i | 0 <= i < n ensures peak[i] == 1.0 {
      assert t[i] == TimesEach(t, peak)[i];
      Unit(t[i], peak[i]);
    }
    assert peak == Ones(n);
  }

  function Ones(n: nat): (r: Vector)
    ensures |r| == n
  {
    seq(n, (i: nat) => 1.0)
  }

  lemma Unit(t: real, x: real)
    requires t > 0.0 && t == Times(t, x)
    ensures x == 1.0
  {
    OrderScales(t, x, 1.0);
    OrderScales(t, 1.0, x);
    assert t * 1.0 == t;
  }

  // ----- What a run is -----

  /** Every bit is the sign of C x + d1 u plus the dither of its sample. */
  lemma BitsAreSigns(p: Plant, n: nat, u: nat -> real, dither: nat -> real, k: nat, j: nat)
    requires j < k
    ensures Bits(p, n, u, dither, k)[j] ==
            if Dot(p.c, Run(p, n, u, dither, j).x) + p.d1 * u(j) + dither(j) > 0.0 then 1.0 else -1.0
  {
    hide Run, Dot;
  }

  /** Between resets every state is A x + bu u + bv v of the one before and its bit; a reset leaves zeros. */
  lemma StatesAreLinear(p: Plant, n: nat, u: nat -> real, dither: nat -> real, k: nat, i: nat)
    requires IsPlant(p, n) && i < n
    ensures var s, next, v := Run(p, n, u, dither, k), Run(p, n, u, dither, k + 1), Bits(p, n, u, dither, k + 1)[k];
      var e := (l: nat) => Dot(if l < n then p.a[l] else [], s.x) + u(k) * At(p.bu, l) + v * At(p.bv, l);
      && |next.x| == n
      && next.x[i] == if exists l: nat | l < n :: Abs(e(l)) > 1000.0 then 0.0 else e(i)
  {
    hide Dot, Run;
    RunStep(p, n, u, dither, k);
    var s, v := Run(p, n, u, dither, k), Bits(p, n, u, dither, k + 1)[k];
    var e := (l: nat) => Dot(if l < n then p.a[l] else [], s.x) + u(k) * At(p.bu, l) + v * At(p.bv, l);
    var next := NextState(p, s.x, u(k), v);
    forall l: nat | l < n ensures next[l] == e(l) {
    }
    hide Abs, NextState;
    assert Diverged(next) <==> exists l: nat | l < n :: Abs(e(l)) > 1000.0;
  }

  /** The peaks are the largest magnitudes the states have had. */
  lemma {:induction false} PeaksAreLargest(p: Plant, n: nat, u: nat -> real, dither: nat -> real, k: nat, i: nat)
    requires IsPlant(p, n) && i < n
    ensures |Run(p, n, u, dither, k).peak| == n && forall j: nat | j <= k :: |Run(p, n, u, dither, j).x| == n
    ensures forall j: nat | j <= k :: Abs(Run(p, n, u, dither, j).x[i]) <= Run(p, n, u, dither, k).peak[i]
    ensures exists j: nat | j <= k :: Abs(Run(p, n, u, dither, j).x[i]) == Run(p, n, u, dither, k).peak[i]
  {
    hide Run, LoopStep, Abs;
    RunStep(p, n, u, dither, 0);
    if k == 0 {
      NoPeak(n, i);
    } else {
      PeaksAreLargest(p, n, u, dither, k - 1, i);
      RunStep(p, n, u, dither, k - 1);
      StepPeak(p, n, Run(p, n, u, dither, k - 1), u(k - 1), dither(k - 1), i);
      var was: nat :| was <= k - 1 && Abs(Run(p, n, u, dither, was).x[i]) == Run(p, n, u, dither, k - 1).peak[i];
      var now := Run(p, n, u, dither, k);
      assert Abs(Run(p, n, u, dither, k).x[i]) == now.peak[i] || Abs(Run(p, n, u, dither, was).x[i]) == now.peak[i];
    }
  }

  lemma NoPeak(n: nat, i: nat)
    requires i < n
    ensures Abs(Zeros(n)[i]) == Zeros(n)[i]
  {
  }

  lemma StepPeak(p: Plant, n: nat, s: LoopState, u: real, dither: real, i: nat)
    requires IsPlant(p, n) && |s.x| == |s.peak| == n && i < n
    ensures var r := LoopStep(p, s, u, dither);
      && |r.x| == |r.peak| == n && Abs(r.x[i]) <= r.peak[i] && s.peak[i] <= r.peak[i]
      && (r.peak[i] == s.peak[i] || r.peak[i] == Abs(r.x[i]))
  {
    hide NextState, Diverged, Quantize, QuantizerInput, Abs;
  }

  // ----- A reset in one run only -----

  /** A plant whose state is 2000 times its input, observed directly. */
  const LOUD := Plant([[0.0]], [2000.0], [0.0], [1.0], 0.0)

  lemma ScalarDot(a: real, b: real)
    ensures Dot([a], [b]) == a * b
  {
    assert Sum(1, Products([a], [b])) == Sum(0, Products([a], [b])) + Products([a], [b])(0);
  }

  /** One sample of a plant with a single state that only its input drives. */
  lemma ScalarStep(gain: real, c: real, x: real)
    ensures var p := Plant([[0.0]], [gain], [0.0], [c], 0.0);
      var y := c * x;
      && QuantizerInput(p, [x], 1.0) == y
      && forall v: real :: NextState(p, [x], 1.0, v) == [gain]
  {
    var p := Plant([[0.0]], [gain], [0.0], [c], 0.0);
    ScalarDot(c, x);
    ScalarDot(0.0, x);
    forall v: real ensures NextState(p, [x], 1.0, v) == [gain] {
      assert v * 0.0 == 0.0;
      assert NextState(p, [x], 1.0, v)[0] == gain;
    }
  }

  lemma LoudScaled()
    ensures Rescaled(LOUD, [10.0]) == Plant([[0.0]], [200.0], [0.0], [10.0], 0.0)
  {
    var t, r := [10.0], [0.1];
    assert Reciprocals(t) == r;
    assert Diagonal(t) == [[10.0]] by {
      assert Diagonal(t)[0] == [10.0];
    }
    assert Diagonal(r) == [[0.1]] by {
      assert Diagonal(r)[0] == [0.1];
    }
    hide Diagonal, Dot;
    var a := MatMul([[0.1]], [[0.0]], 1);
    ScalarDot(0.1, 0.0);
    assert Column([[0.0]], 0) == [0.0] && a[0] == [0.0] && a == [[0.0]];
    ScalarDot(0.0, 10.0);
    var b := MatMul(a, [[10.0]], 1);
    assert Column([[10.0]], 0) == [10.0] && b[0] == [0.0] && b == [[0.0]];
    ScalarDot(0.1, 2000.0);
    ScalarDot(1.0, 10.0);
  }

  /** The first sample trips the reset of the original but not of the plant scaled by ten: the second bits differ. */
  lemma ResetBreaksStream()
    ensures var u, quiet: nat -> real := (k: nat) => 1.0, (k: nat) => 0.0;
      Bits(LOUD, 1, u, quiet, 2)[1] == -1.0 && Bits(Rescaled(LOUD, [10.0]), 1, u, quiet, 2)[1] == 1.0
  {
    var u, quiet: nat -> real := (k: nat) => 1.0, (k: nat) => 0.0;
    LoudScaled();
    SecondBit(2000.0, 1.0, u, quiet);
    SecondBit(200.0, 10.0, u, quiet);
  }

  lemma SecondBit(gain: real, c: real, u: nat -> real, quiet: nat -> real)
    requires u(0) == u(1) == 1.0 && quiet(0) == quiet(1) == 0.0 && gain > 0.0 && c > 0.0
    ensures Bits(Plant([[0.0]], [gain], [0.0], [c], 0.0), 1, u, quiet, 2)[1] == if gain > DIVERGE_LIMIT then -1.0 else 1.0
  {
    var p := Plant([[0.0]], [gain], [0.0], [c], 0.0);
    var x := if gain > DIVERGE_LIMIT then 0.0 else gain;
    ScalarStep(gain, c, 0.0);
    ScalarStep(gain, c, x);
    RunStep(p, 1, u, quiet, 0);
    assert Zeros(1) == [0.0];
    assert Diverged([gain]) <==> gain > DIVERGE_LIMIT by {
      assert [gain][0] == gain;
    }
    hide NextState, QuantizerInput, Diverged, Peaks;
    assert Run(p, 1, u, quiet, 1).x == [x];
    if gain <= DIVERGE_LIMIT {
      PositiveProduct(c, gain, c * gain);
    }
  }
}
