/** Impulse responses: the cascade's outputs are its impulse response convolved with its input, and so
    are those of any form that agrees with it (tools/gen_beam_error_profiles.py). */
module Convolution {
  import opened Cascade
  import opened Linear
  import opened Numbers
  import opened StateSpaces

  // ----- The impulse response -----

  /** The state an impulse from rest leaves after so many silent samples. */
  function ImpulseState(sos: Sos, silent: nat): (x: Vector)
    ensures |x| == 2 * |sos|
  {
    if silent == 0 then Step(sos, Zeros(2 * |sos|), 1.0).next
    else Step(sos, ImpulseState(sos, silent - 1), 0.0).next
  }

  function ImpulseAt(sos: Sos, sample: nat): real {
    if sample == 0 then Step(sos, Zeros(2 * |sos|), 1.0).output
    else Step(sos, ImpulseState(sos, sample - 1), 0.0).output
  }

  method SosImpulse(sos: Sos, samples: nat) returns (result: Vector)
    ensures |result| == samples && forall k: nat | k < samples :: result[k] == ImpulseAt(sos, k)
    ensures result == CascadeOutputs(sos, Zeros(2 * |sos|), Impulse(samples))
  {
    hide Step, CascadeOutputs;
    var state := Zeros(2 * |sos|);
    result := [];
    NoOutputs(sos);
    for sample := 0 to samples
      invariant |state| == 2 * |sos| && |result| == sample
      invariant state == if sample == 0 then Zeros(2 * |sos|) else ImpulseState(sos, sample - 1)
      invariant state == StateAfter(sos, Impulse(sample))
      invariant result == CascadeOutputs(sos, Zeros(2 * |sos|), Impulse(sample))
      invariant forall k: nat | k < sample :: result[k] == ImpulseAt(sos, k)
    {
      var value := if sample == 0 then 1.0 else 0.0;
      ImpulseGrows(sample, value);
      OutputAppended(sos, Impulse(sample), value);
      var output;
      state, output := CascadeStep(sos, state, value);
      result := result + [output];
    }
  }

  /** The cascade's state after some inputs from rest. */
  function StateAfter(sos: Sos, inputs: Vector): (x: Vector)
    ensures |x| == 2 * |sos|
  {
    if inputs == [] then Zeros(2 * |sos|)
    else Step(sos, StateAfter(sos, inputs[..|inputs| - 1]), inputs[|inputs| - 1]).next
  }

  lemma NoOutputs(sos: Sos)
    ensures CascadeOutputs(sos, Zeros(2 * |sos|), Impulse(0)) == [] && StateAfter(sos, Impulse(0)) == Zeros(2 * |sos|)
  {
  }

  /** The state some inputs lead to from any state. */
  function StateFrom(sos: Sos, x: Vector, inputs: Vector): (y: Vector)
    requires |x| == 2 * |sos|
    ensures |y| == 2 * |sos|
    decreases |inputs|
  {
    if inputs == [] then x else StateFrom(sos, Step(sos, x, inputs[0]).next, inputs[1..])
  }

  lemma {:induction false} FromFront(sos: Sos, x: Vector, inputs: Vector, u: real)
    requires |x| == 2 * |sos|
    ensures var r := Step(sos, StateFrom(sos, x, inputs), u);
      && CascadeOutputs(sos, x, inputs + [u]) == CascadeOutputs(sos, x, inputs) + [r.output]
      && StateFrom(sos, x, inputs + [u]) == r.next
    decreases |inputs|
  {
    hide Step;
    var all := inputs + [u];
    if inputs == [] {
      assert all[1..] == [];
    } else {
      assert all[1..] == inputs[1..] + [u];
      FromFront(sos, Step(sos, x, inputs[0]).next, inputs[1..], u);
    }
  }

  lemma {:induction false} StatesMeet(sos: Sos, inputs: Vector)
    ensures StateFrom(sos, Zeros(2 * |sos|), inputs) == StateAfter(sos, inputs)
    decreases |inputs|
  {
    hide Step;
    if inputs != [] {
      var k := |inputs| - 1;
      StatesMeet(sos, inputs[..k]);
      FromFront(sos, Zeros(2 * |sos|), inputs[..k], inputs[k]);
      assert inputs == inputs[..k] + [inputs[k]];
    }
  }

  lemma OutputAppended(sos: Sos, inputs: Vector, u: real)
    ensures var r := Step(sos, StateAfter(sos, inputs), u);
      && CascadeOutputs(sos, Zeros(2 * |sos|), inputs + [u]) ==
         CascadeOutputs(sos, Zeros(2 * |sos|), inputs) + [r.output]
      && StateAfter(sos, inputs + [u]) == r.next
  {
    hide Step, CascadeOutputs, StateFrom;
    FromFront(sos, Zeros(2 * |sos|), inputs, u);
    StatesMeet(sos, inputs);
    assert (inputs + [u])[..|inputs|] == inputs;
  }

  // ----- Superposition -----

  /** The states left by the first k inputs as impulses, n samples in. */
  function Mix(sos: Sos, inputs: Vector, n: nat, k: nat): (x: Vector)
    requires k <= n
    ensures |x| == 2 * |sos|
  {
    if k == 0 then Zeros(2 * |sos|)
    else Combine(Mix(sos, inputs, n, k - 1), At(inputs, k - 1), ImpulseState(sos, n - k))
  }

  /** What the first k inputs contribute to the output at sample n. */
  function Echo(sos: Sos, inputs: Vector, n: nat, k: nat): real
    requires k <= n
  {
    if k == 0 then 0.0
    else Echo(sos, inputs, n, k - 1) + At(inputs, k - 1) * ImpulseAt(sos, n - (k - 1))
  }

  /** One silent sample moves every impulse on by one. */
  lemma {:induction false} MixSteps(sos: Sos, inputs: Vector, n: nat, k: nat)
    requires k <= n
    ensures Step(sos, Mix(sos, inputs, n, k), 0.0) ==
            StepResult(Mix(sos, inputs, n + 1, k), Echo(sos, inputs, n, k))
  {
    hide Step, Combine;
    if k == 0 {
      ZeroState(sos);
    } else {
      MixSteps(sos, inputs, n, k - 1);
      var x, c, y := Mix(sos, inputs, n, k - 1), At(inputs, k - 1), ImpulseState(sos, n - k);
      NoInput(c);
      StepLinear(sos, x, 0.0, c, y, 0.0, 0.0);
      hide Line;
      var r := Step(sos, Combine(x, c, y), 0.0);
      LineValue(r.output, Step(sos, x, 0.0).output, c, Step(sos, y, 0.0).output);
      assert r == StepResult(r.next, r.output);
    }
  }

  /** The state is the superposition of the impulses so far. */
  lemma {:induction false} StateIsMix(sos: Sos, inputs: Vector)
    ensures StateAfter(sos, inputs) == Mix(sos, inputs, |inputs|, |inputs|)
  {
    if inputs != [] {
      hide Step, Mix, ImpulseState;
      var n := |inputs| - 1;
      var before := inputs[..n];
      StateIsMix(sos, before);
      NextOutput(sos, before, inputs[n]);
      assert before + [inputs[n]] == inputs;
    }
  }

  lemma {:induction false} MixDependsOn(sos: Sos, a: Vector, b: Vector, n: nat, k: nat)
    requires k <= n && k <= |a| && k <= |b| && a[..k] == b[..k]
    ensures Mix(sos, a, n, k) == Mix(sos, b, n, k) && Echo(sos, a, n, k) == Echo(sos, b, n, k)
  {
    hide Combine;
    if k > 0 {
      assert a[k - 1] == a[..k][k - 1] == b[..k][k - 1] == b[k - 1];
      assert a[..k - 1] == a[..k][..k - 1] && b[..k - 1] == b[..k][..k - 1];
      MixDependsOn(sos, a, b, n, k - 1);
    }
  }

  /** An input adds its impulse to what silence would have given. */
  lemma InputAdds(sos: Sos, x: Vector, u: real)
    requires |x| == 2 * |sos|
    ensures var p, q, r := Step(sos, x, 0.0), Step(sos, Zeros(2 * |sos|), 1.0), Step(sos, x, u);
      r.next == Combine(p.next, u, q.next) && Line(r.output, p.output, u, q.output)
  {
    hide *;
    var rest := Zeros(2 * |sos|);
    OneInput(u);
    RestLength(sos);
    StepLinear(sos, x, 0.0, u, rest, 1.0, u);
    CombineNothingAdded(x, u);
  }

  lemma RestLength(sos: Sos)
    ensures |Zeros(2 * |sos|)| == 2 * |sos|
  {
  }

  /** A further input adds a fresh impulse to the moved ones. */
  lemma NextOutput(sos: Sos, before: Vector, u: real)
    requires StateAfter(sos, before) == Mix(sos, before, |before|, |before|)
    ensures var n, all := |before|, before + [u];
      && Step(sos, StateAfter(sos, before), u).next == Mix(sos, all, n + 1, n + 1)
      && Line(Step(sos, StateAfter(sos, before), u).output, Echo(sos, before, n, n), u, ImpulseAt(sos, 0))
  {
    hide *;
    var n, all := |before|, before + [u];
    var x := Mix(sos, before, n, n);
    MixLength(sos, before, n, n);
    InputAdds(sos, x, u);
    MixSteps(sos, before, n, n);
    ResultParts(Mix(sos, before, n + 1, n), Echo(sos, before, n, n));
    SamePrefix(before, u);
    MixDependsOn(sos, before, all, n + 1, n);
    LastImpulse(sos, all, n);
  }

  lemma SamePrefix(before: Vector, u: real)
    ensures (before + [u])[..|before|] == before[..|before|] && At(before + [u], |before|) == u
  {
  }

  lemma MixLength(sos: Sos, inputs: Vector, n: nat, k: nat)
    requires k <= n
    ensures |Mix(sos, inputs, n, k)| == 2 * |sos|
  {
  }

  /** The newest input is still where an impulse puts it. */
  lemma LastImpulse(sos: Sos, inputs: Vector, n: nat)
    ensures Mix(sos, inputs, n + 1, n + 1) ==
            Combine(Mix(sos, inputs, n + 1, n), At(inputs, n), Step(sos, Zeros(2 * |sos|), 1.0).next)
    ensures ImpulseAt(sos, 0) == Step(sos, Zeros(2 * |sos|), 1.0).output
  {
    hide Step, Combine;
  }

  lemma OneInput(u: real)
    ensures Line(u, 0.0, u, 1.0)
  {
  }

  lemma CombineNothingAdded(x: Vector, u: real)
    ensures Combine(x, u, Zeros(|x|)) == x
  {
    assert u * 0.0 == 0.0;
  }

  // ----- Convolution -----

  /** The products of the impulse response with the input read backwards from sample n. */
  function Lagged(sos: Sos, inputs: Vector, n: nat): nat -> real {
    (lag: nat) => if lag <= n then ImpulseAt(sos, lag) * At(inputs, n - lag) else 0.0
  }

  /** The contributions of the first k inputs are the longest lags. */
  lemma {:induction false} EchoIsTail(sos: Sos, inputs: Vector, n: nat, k: nat)
    requires k <= n
    ensures Sum(n + 1, Lagged(sos, inputs, n)) == Sum(n + 1 - k, Lagged(sos, inputs, n)) + Echo(sos, inputs, n, k)
  {
    hide ImpulseAt;
    if k > 0 {
      EchoIsTail(sos, inputs, n, k - 1);
      var lag := n + 1 - k;
      ProductCommutes(ImpulseAt(sos, lag), At(inputs, k - 1));
      assert Lagged(sos, inputs, n)(lag) == ImpulseAt(sos, lag) * At(inputs, k - 1);
    }
  }

  /** Every output from rest is the impulse response convolved with the input. */
  lemma OutputIsConvolution(sos: Sos, inputs: Vector, n: nat)
    requires n < |inputs|
    ensures var outputs := CascadeOutputs(sos, Zeros(2 * |sos|), inputs);
      |outputs| == |inputs| && outputs[n] == Sum(n + 1, Lagged(sos, inputs, n))
  {
    hide Step, Combine, ImpulseAt;
    var before := inputs[..n];
    OutputsPrefix(sos, inputs, n);
    StateIsMix(sos, before);
    NextOutput(sos, before, inputs[n]);
    LineValue(Step(sos, StateAfter(sos, before), inputs[n]).output, Echo(sos, before, n, n), inputs[n], ImpulseAt(sos, 0));
    MixDependsOn(sos, before, inputs, n, n);
    EchoIsTail(sos, inputs, n, n);
    ProductCommutes(ImpulseAt(sos, 0), inputs[n]);
    assert Sum(1, Lagged(sos, inputs, n)) == Lagged(sos, inputs, n)(0);
  }

  lemma {:induction false} OutputsPrefix(sos: Sos, inputs: Vector, n: nat)
    requires n < |inputs|
    ensures var outputs := CascadeOutputs(sos, Zeros(2 * |sos|), inputs);
      |outputs| == |inputs| && outputs[n] == Step(sos, StateAfter(sos, inputs[..n]), inputs[n]).output
    decreases |inputs|
  {
    hide Step;
    var k := |inputs| - 1;
    var before := inputs[..k];
    OutputAppended(sos, before, inputs[k]);
    assert before + [inputs[k]] == inputs;
    if n < k {
      OutputsPrefix(sos, before, n);
      assert before[..n] == inputs[..n];
    } else if k > 0 {
      OutputsPrefix(sos, before, 0);
    }
  }

  // ----- The agreement check -----

  /** In exact arithmetic a profile that gives the cascade's outputs passes the check with no error at all. */
  method RealizationAgreement(sos: Sos, profile: StateSpace, impulseSamples: nat, signal: Vector)
    returns (impulseError: real, convolutionError: real)
    requires Shaped(profile, 2 * |sos|) && SameOutputs(sos, profile) && |signal| <= impulseSamples
    ensures impulseError == convolutionError == 0.0
  {
    hide *;
    var sosResponse := SosImpulse(sos, impulseSamples);
    var stateResponse := StateSpaceRun(profile, 2 * |sos|, Impulse(impulseSamples));
    SameAt(sos, profile, Impulse(impulseSamples));
    impulseError := LargestDifference(sosResponse, stateResponse);
    var cascadeOutputs := CascadeRun(sos, signal);
    var profileOutputs := StateSpaceRun(profile, 2 * |sos|, signal);
    SameAt(sos, profile, signal);
    convolutionError := LargestDifference(cascadeOutputs, profileOutputs);
    AbsZero();
    for sample := 0 to |signal|
      invariant convolutionError == 0.0
    {
      OutputIsConvolution(sos, signal, sample);
      var convolved := Convolve(sos, sosResponse, signal, sample);
      convolutionError := Larger(convolutionError, Abs(cascadeOutputs[sample] - convolved));
      LargerZero();
    }
  }

  lemma LargerZero()
    ensures Larger(0.0, 0.0) == 0.0
  {
  }

  lemma SameAt(sos: Sos, profile: StateSpace, inputs: Vector)
    requires SameOutputs(sos, profile)
    ensures SpaceOutputs(profile, Zeros(2 * |sos|), inputs) == CascadeOutputs(sos, Zeros(2 * |sos|), inputs)
  {
    hide SpaceOutputs, CascadeOutputs;
  }

  method LargestDifference(left: Vector, right: Vector) returns (largest: real)
    requires left == right
    ensures largest == 0.0
  {
    hide Abs;
    AbsZero();
    largest := 0.0;
    for i := 0 to |left|
      invariant largest == 0.0
    {
      largest := Larger(largest, Abs(left[i] - right[i]));
    }
  }

  method CascadeRun(sos: Sos, inputs: Vector) returns (outputs: Vector)
    ensures outputs == CascadeOutputs(sos, Zeros(2 * |sos|), inputs) && |outputs| == |inputs|
  {
    hide *;
    var state := Zeros(2 * |sos|);
    outputs := [];
    RunStarts(sos, inputs);
    for i := 0 to |inputs|
      invariant |state| == 2 * |sos| && |outputs| == i && state == StateAfter(sos, inputs[..i])
      invariant outputs == CascadeOutputs(sos, Zeros(2 * |sos|), inputs[..i])
    {
      OutputAppended(sos, inputs[..i], inputs[i]);
      assert inputs[..i + 1] == inputs[..i] + [inputs[i]];
      StateLength(sos, inputs[..i + 1]);
      var output;
      state, output := CascadeStep(sos, state, inputs[i]);
      ResultParts(state, output);
      outputs := outputs + [output];
    }
    assert inputs[..|inputs|] == inputs;
  }

  lemma RunStarts(sos: Sos, inputs: Vector)
    ensures StateAfter(sos, inputs[..0]) == Zeros(2 * |sos|) && |Zeros(2 * |sos|)| == 2 * |sos|
    ensures CascadeOutputs(sos, Zeros(2 * |sos|), inputs[..0]) == []
  {
  }

  lemma StateLength(sos: Sos, inputs: Vector)
    ensures |StateAfter(sos, inputs)| == 2 * |sos|
  {
  }

  lemma ResultParts(state: Vector, output: real)
    ensures StepResult(state, output).next == state && StepResult(state, output).output == output
  {
  }

  method StateSpaceRun(profile: StateSpace, n: nat, inputs: Vector) returns (outputs: Vector)
    requires Shaped(profile, n)
    ensures outputs == SpaceOutputs(profile, Zeros(n), inputs)
  {
    hide *;
    var state := Zeros(n);
    outputs := [];
    SpaceStarts(profile, n, inputs);
    for i := 0 to |inputs|
      invariant state == FinalState(profile, Zeros(n), inputs[..i])
      invariant outputs == SpaceOutputs(profile, Zeros(n), inputs[..i])
    {
      SpaceAppended(profile, Zeros(n), inputs[..i], inputs[i]);
      assert inputs[..i + 1] == inputs[..i] + [inputs[i]];
      var step := SpaceStep(profile, state, inputs[i]);
      outputs := outputs + [step.output];
      state := step.next;
    }
    assert inputs[..|inputs|] == inputs;
  }

  lemma SpaceStarts(profile: StateSpace, n: nat, inputs: Vector)
    ensures FinalState(profile, Zeros(n), inputs[..0]) == Zeros(n) && SpaceOutputs(profile, Zeros(n), inputs[..0]) == []
  {
  }

  lemma {:induction false} SpaceAppended(profile: StateSpace, y: Vector, inputs: Vector, u: real)
    ensures var r := SpaceStep(profile, FinalState(profile, y, inputs), u);
      && SpaceOutputs(profile, y, inputs + [u]) == SpaceOutputs(profile, y, inputs) + [r.output]
      && FinalState(profile, y, inputs + [u]) == r.next
    decreases |inputs|
  {
    hide SpaceStep;
    var all := inputs + [u];
    if inputs == [] {
      assert all[1..] == [];
    } else {
      assert all[1..] == inputs[1..] + [u];
      SpaceAppended(profile, SpaceStep(profile, y, inputs[0]).next, inputs[1..], u);
    }
  }

  method Convolve(sos: Sos, response: Vector, signal: Vector, sample: nat) returns (total: real)
    requires sample < |signal| <= |response|
    requires forall k: nat | k < |response| :: response[k] == ImpulseAt(sos, k)
    ensures total == Sum(sample + 1, Lagged(sos, signal, sample))
  {
    hide ImpulseAt;
    total := 0.0;
    for lag := 0 to sample + 1
      invariant total == Sum(lag, Lagged(sos, signal, sample))
    {
      total := total + response[lag] * signal[sample - lag];
    }
  }
}
