/** A cascade of second-order sections and the state-space matrices read off it by probing
    (tools/gen_beam_error_profiles.py). */
module Cascade {
  import opened Linear

  datatype Section = Section(b0: real, b1: real, b2: real, a1: real, a2: real)

  type Sos = seq<Section>

  /** One section's output and next two states. */
  datatype SectionResult = SectionResult(output: real, next1: real, next2: real)

  /** The cascade's next state and output. */
  datatype StepResult = StepResult(next: Vector, output: real)

  function SectionStep(s: Section, fed: real, s1: real, s2: real): SectionResult {
    var output := s.b0 * fed + s1;
    SectionResult(output, s.b1 * fed - s.a1 * output + s2, s.b2 * fed - s.a2 * output)
  }

  /** The next state and the output of one sample, section by section. */
  function Step(sos: Sos, state: Vector, value: real): (r: StepResult)
    requires |state| == 2 * |sos|
    ensures |r.next| == |state|
  {
    if sos == [] then StepResult([], value)
    else
      var k := |sos| - 1;
      var before := Step(sos[..k], state[..2 * k], value);
      var last := SectionStep(sos[k], before.output, state[2 * k], state[2 * k + 1]);
      StepResult(before.next + [last.next1, last.next2], last.output)
  }

  method CascadeStep(sos: Sos, state: Vector, value: real) returns (nextState: Vector, output: real)
    requires |state| == 2 * |sos|
    ensures StepResult(nextState, output) == Step(sos, state, value)
  {
    nextState, output := [], value;
    for section := 0 to |sos|
      invariant StepResult(nextState, output) == Step(sos[..section], state[..2 * section], value)
    {
      hide SectionStep, Step;
      var s1, s2 := state[2 * section], state[2 * section + 1];
      var result := SectionStep(sos[section], output, s1, s2);
      output := result.output;
      nextState := nextState + [result.next1, result.next2];
      StepExtends(sos, state, value, section);
    }
    assert sos[..|sos|] == sos && state[..2 * |sos|] == state;
  }

  lemma StepExtends(sos: Sos, state: Vector, value: real, k: nat)
    requires |state| == 2 * |sos| && k < |sos|
    ensures var before := Step(sos[..k], state[..2 * k], value);
      var last := SectionStep(sos[k], before.output, state[2 * k], state[2 * k + 1]);
      Step(sos[..k + 1], state[..2 * (k + 1)], value) ==
      StepResult(before.next + [last.next1, last.next2], last.output)
  {
    hide SectionStep;
    assert sos[..k + 1][..k] == sos[..k];
    assert state[..2 * (k + 1)][..2 * k] == state[..2 * k];
  }

  // ----- Linearity -----

  /** r is a + c * b; naming the result keeps products out of other terms. */
  predicate Line(r: real, a: real, c: real, b: real) {
    r == a + c * b
  }

  /** One section is linear in what it is fed and in its two states. */
  lemma SectionLinear(s: Section, c: real, f: real, p1: real, p2: real, g: real, q1: real, q2: real,
                      h: real, r1: real, r2: real)
    requires Line(h, f, c, g) && Line(r1, p1, c, q1) && Line(r2, p2, c, q2)
    ensures var p, q, r := SectionStep(s, f, p1, p2), SectionStep(s, g, q1, q2), SectionStep(s, h, r1, r2);
      && Line(r.output, p.output, c, q.output)
      && Line(r.next1, p.next1, c, q.next1)
      && Line(r.next2, p.next2, c, q.next2)
  {
    hide Line;
    var p, q, r := SectionStep(s, f, p1, p2), SectionStep(s, g, q1, q2), SectionStep(s, h, r1, r2);
    OutputLinear(s.b0, c, f, g, h, p1, q1, r1, p.output, q.output, r.output);
    StateLinear(s.b1, s.a1, c, f, g, h, p.output, q.output, r.output, p2, q2, r2, p.next1, q.next1, r.next1);
    NoInput(c);
    StateLinear(s.b2, s.a2, c, f, g, h, p.output, q.output, r.output, 0.0, 0.0, 0.0, p.next2, q.next2, r.next2);
  }

  lemma NoInput(c: real)
    ensures Line(0.0, 0.0, c, 0.0)
  {
  }

  lemma Spread(b: real, x: real, c: real, y: real)
    ensures b * (x + c * y) == b * x + c * (b * y)
  {
  }

  lemma OutputLinear(b: real, c: real, f: real, g: real, h: real, p: real, q: real, r: real,
                     o: real, o': real, o2: real)
    requires Line(h, f, c, g) && Line(r, p, c, q)
    requires o == b * f + p && o' == b * g + q && o2 == b * h + r
    ensures Line(o2, o, c, o')
  {
    Spread(b, f, c, g);
    Distribute(c, b * g, q);
  }

  lemma StateLinear(b: real, a: real, c: real, f: real, g: real, h: real, o: real, o': real, o2: real,
                    p: real, q: real, r: real, n: real, n': real, n2: real)
    requires Line(h, f, c, g) && Line(o2, o, c, o') && Line(r, p, c, q)
    requires n == b * f - a * o + p && n' == b * g - a * o' + q && n2 == b * h - a * o2 + r
    ensures Line(n2, n, c, n')
  {
    Spread(b, f, c, g);
    Spread(a, o, c, o');
    DistributeThree(c, b * g, a * o', q);
  }

  lemma DistributeThree(c: real, x: real, y: real, z: real)
    ensures c * (x - y + z) == c * x - c * y + c * z
  {
  }

  /** The cascade is linear in its state and input together. */
  lemma {:induction false} StepLinear(sos: Sos, x: Vector, u: real, c: real, y: Vector, w: real, v: real)
    requires |x| == |y| == 2 * |sos| && Line(v, u, c, w)
    ensures var p, q, r := Step(sos, x, u), Step(sos, y, w), Step(sos, Combine(x, c, y), v);
      r.next == Combine(p.next, c, q.next) && Line(r.output, p.output, c, q.output)
  {
    hide SectionStep, Line, Combine;
    if sos == [] {
      CombineNothing(c);
    } else {
      hide Step;
      var k, z := |sos| - 1, Combine(x, c, y);
      var p, q, r := Step(sos[..k], x[..2 * k], u), Step(sos[..k], y[..2 * k], w), Step(sos[..k], z[..2 * k], v);
      CombinePrefix(x, c, y, 2 * k);
      StepLinear(sos[..k], x[..2 * k], u, c, y[..2 * k], w, v);
      SectionLinear(sos[k], c, p.output, x[2 * k], x[2 * k + 1], q.output, y[2 * k], y[2 * k + 1],
                    r.output, z[2 * k], z[2 * k + 1]);
      StepLast(sos, x, u);
      StepLast(sos, y, w);
      StepLast(sos, z, v);
      var p', q', r' := SectionStep(sos[k], p.output, x[2 * k], x[2 * k + 1]),
      SectionStep(sos[k], q.output, y[2 * k], y[2 * k + 1]), SectionStep(sos[k], r.output, z[2 * k], z[2 * k + 1]);
      CombinePairs(p.next, p'.next1, p'.next2, c, q.next, q'.next1, q'.next2, r'.next1, r'.next2);
    }
  }

  lemma CombineNothing(c: real)
    ensures Combine([], c, []) == []
  {
  }

  lemma StepLast(sos: Sos, state: Vector, value: real)
    requires sos != [] && |state| == 2 * |sos|
    ensures var k := |sos| - 1;
      var before := Step(sos[..k], state[..2 * k], value);
      var last := SectionStep(sos[k], before.output, state[2 * k], state[2 * k + 1]);
      Step(sos, state, value) == StepResult(before.next + [last.next1, last.next2], last.output)
  {
    hide SectionStep;
  }

  lemma CombinePrefix(x: Vector, c: real, y: Vector, n: nat)
    requires |x| == |y| == n + 2
    ensures var z := Combine(x, c, y);
      z[..n] == Combine(x[..n], c, y[..n]) && Line(z[n], x[n], c, y[n]) && Line(z[n + 1], x[n + 1], c, y[n + 1])
  {
    var left, right := Combine(x, c, y)[..n], Combine(x[..n], c, y[..n]);
    forall i | 0 <= i < n ensures left[i] == right[i] {
      assert At(y, i) == At(y[..n], i);
    }
  }

  lemma CombinePairs(a: Vector, p: real, q: real, c: real, b: Vector, p': real, q': real, r: real, r': real)
    requires |a| == |b| && Line(r, p, c, p') && Line(r', q, c, q')
    ensures Combine(a + [p, q], c, b + [p', q']) == Combine(a, c, b) + [r, r']
  {
    var left, right := Combine(a + [p, q], c, b + [p', q']), Combine(a, c, b) + [r, r'];
    forall i | 0 <= i < |a| + 2 ensures left[i] == right[i] {
      assert i == |a| || i == |a| + 1 || i < |a|;
    }
  }

  // ----- Reading the matrices off -----

  /** The matrices do what the cascade does, for every state and input. */
  ghost predicate Realizes(sos: Sos, a: Matrix, b: Vector, c: Vector, d: real) {
    var n := 2 * |sos|;
    && IsMatrix(a, n, n) && |b| == |c| == n
    && forall x: Vector, u: real | |x| == n ::
         Step(sos, x, u) == StepResult(Combine(MatVec(a, x), u, b), Dot(c, x) + u * d)
  }

  method CascadeStateSpace(sos: Sos) returns (a: Matrix, b: Vector, c: Vector, d: real)
    ensures Realizes(sos, a, b, c, d)
  {
    var n := 2 * |sos|;
    b, d := CascadeStep(sos, Zeros(n), 1.0);
    a := seq(n, i => Zeros(n));
    c := [];
    for column := 0 to n
      invariant IsMatrix(a, n, n) && |c| == column
      invariant forall j: nat | j < column :: Column(a, j) == Step(sos, Basis(n, j), 0.0).next
      invariant forall j: nat | j < column :: c[j] == Step(sos, Basis(n, j), 0.0).output
    {
      var nextState, output := CascadeStep(sos, Basis(n, column), 0.0);
      c := c + [output];
      a := SetColumn(a, n, column, nextState);
    }
    forall x: Vector, u: real | |x| == n
      ensures Step(sos, x, u) == StepResult(Combine(MatVec(a, x), u, b), Dot(c, x) + u * d)
    {
      ProbesSuffice(sos, a, b, c, d, x, u);
    }
  }

  method SetColumn(m: Matrix, n: nat, column: nat, values: Vector) returns (a: Matrix)
    requires IsMatrix(m, n, n) && |values| == n && column < n
    ensures IsMatrix(a, n, n) && Column(a, column) == values
    ensures forall j: nat | j < n && j != column :: Column(a, j) == Column(m, j)
  {
    a := m;
    for row := 0 to n
      invariant IsMatrix(a, n, n)
      invariant forall i: nat | i < n :: a[i] == if i < row then m[i][column := values[i]] else m[i]
    {
      a := a[row := a[row][column := values[row]]];
    }
    forall j: nat | j < n && j != column ensures Column(a, j) == Column(m, j) {
      assert forall i | 0 <= i < n :: At(a[i], j) == At(m[i], j);
    }
  }

  /** x with its entries from k on replaced by zero. */
  ghost function Cut(x: Vector, k: nat): (r: Vector)
    ensures |r| == |x|
  {
    seq(|x|, i requires 0 <= i < |x| => if i < k then x[i] else 0.0)
  }

  lemma CutGrows(x: Vector, k: nat)
    requires k < |x|
    ensures Cut(x, k + 1) == Combine(Cut(x, k), x[k], Basis(|x|, k))
  {
    forall i | 0 <= i < |x| ensures Cut(x, k + 1)[i] == Combine(Cut(x, k), x[k], Basis(|x|, k))[i] {
      assert x[k] * 1.0 == x[k] && x[k] * 0.0 == 0.0;
    }
  }

  /** By linearity the responses to the basis states determine the response to any state. */
  lemma {:induction false} ProbesGiveState(sos: Sos, a: Matrix, c: Vector, x: Vector, k: nat)
    requires var n := 2 * |sos|;
      && IsMatrix(a, n, n) && |c| == |x| == n && k <= n
      && (forall j: nat | j < n :: Column(a, j) == Step(sos, Basis(n, j), 0.0).next)
      && (forall j: nat | j < n :: c[j] == Step(sos, Basis(n, j), 0.0).output)
    ensures Step(sos, Cut(x, k), 0.0) == StepResult(MatVec(a, Cut(x, k)), Dot(c, Cut(x, k)))
  {
    var n := 2 * |sos|;
    if k == 0 {
      assert Cut(x, 0) == Zeros(n);
      ZeroState(sos);
      DotCommutes(c, Zeros(n));
      DotZeros(n, c);
      forall i | 0 <= i < n ensures Dot(a[i], Zeros(n)) == 0.0 {
        DotCommutes(a[i], Zeros(n));
        DotZeros(n, a[i]);
      }
      assert MatVec(a, Zeros(n)) == Zeros(n);
    } else {
      ProbesGiveState(sos, a, c, x, k - 1);
      CutGrows(x, k - 1);
      OneMoreProbe(sos, a, c, Cut(x, k - 1), x[k - 1], k - 1);
    }
  }

  lemma OneMoreProbe(sos: Sos, a: Matrix, c: Vector, y: Vector, s: real, j: nat)
    requires var n := 2 * |sos|;
      && IsMatrix(a, n, n) && |c| == |y| == n && j < n
      && Column(a, j) == Step(sos, Basis(n, j), 0.0).next && c[j] == Step(sos, Basis(n, j), 0.0).output
      && Step(sos, y, 0.0) == StepResult(MatVec(a, y), Dot(c, y))
    ensures var z := Combine(y, s, Basis(2 * |sos|, j));
      Step(sos, z, 0.0) == StepResult(MatVec(a, z), Dot(c, z))
  {
    hide *;
    var n := 2 * |sos|;
    var e := Basis(n, j);
    NoInput(s);
    StepLinear(sos, y, 0.0, s, e, 0.0, 0.0);
    MatVecCombine(a, n, y, s, e);
    MatVecBasis(a, n, j);
    DotCombineRight(c, y, s, e);
    DotBasis(c, n, j);
    LineIsUnique(Step(sos, Combine(y, s, e), 0.0).output, Dot(c, Combine(y, s, e)), Dot(c, y), s, c[j]);
  }

  lemma DotCombineRight(c: Vector, y: Vector, s: real, e: Vector)
    requires |c| == |y| == |e|
    ensures Line(Dot(c, Combine(y, s, e)), Dot(c, y), s, Dot(c, e))
  {
    hide Dot, Combine;
    DotCommutes(c, Combine(y, s, e));
    DotCombine(y, s, e, c);
    DotCommutes(c, y);
    DotCommutes(c, e);
  }

  lemma LineIsUnique(r: real, r': real, a: real, c: real, b: real)
    requires Line(r, a, c, b) && Line(r', a, c, b)
    ensures r == r'
  {
  }

  lemma MatVecBasis(a: Matrix, n: nat, j: nat)
    requires IsMatrix(a, n, n) && j < n
    ensures MatVec(a, Basis(n, j)) == Column(a, j)
  {
    forall i | 0 <= i < n ensures Dot(a[i], Basis(n, j)) == a[i][j] {
      DotBasis(a[i], n, j);
    }
  }

  lemma {:induction false} ZeroState(sos: Sos)
    ensures Step(sos, Zeros(2 * |sos|), 0.0) == StepResult(Zeros(2 * |sos|), 0.0)
  {
    if sos != [] {
      var k := |sos| - 1;
      ZeroState(sos[..k]);
      assert Zeros(2 * |sos|)[..2 * k] == Zeros(2 * k);
      ZeroSection(sos[k]);
      hide SectionStep;
      assert Zeros(2 * |sos|) == Zeros(2 * k) + [0.0, 0.0];
    }
  }

  lemma ZeroSection(s: Section)
    ensures SectionStep(s, 0.0, 0.0, 0.0) == SectionResult(0.0, 0.0, 0.0)
  {
  }

  lemma ProbesSuffice(sos: Sos, a: Matrix, b: Vector, c: Vector, d: real, x: Vector, u: real)
    requires var n := 2 * |sos|;
      && IsMatrix(a, n, n) && |c| == |x| == n && StepResult(b, d) == Step(sos, Zeros(n), 1.0)
      && (forall j: nat | j < n :: Column(a, j) == Step(sos, Basis(n, j), 0.0).next)
      && (forall j: nat | j < n :: c[j] == Step(sos, Basis(n, j), 0.0).output)
    ensures Step(sos, x, u) == StepResult(Combine(MatVec(a, x), u, b), Dot(c, x) + u * d)
  {
    var n := 2 * |sos|;
    ProbesGiveState(sos, a, c, x, n);
    assert Cut(x, n) == x;
    assert Line(u, 0.0, u, 1.0) && Combine(x, u, Zeros(n)) == x by {
      assert u * 0.0 == 0.0;
    }
    assert Step(sos, Zeros(n), 1.0) == StepResult(b, d);
    var r := Step(sos, x, u);
    hide *;
    StepLinear(sos, x, 0.0, u, Zeros(n), 1.0, u);
    LineValue(r.output, Dot(c, x), u, d);
    assert r == StepResult(r.next, r.output);
  }

  lemma LineValue(r: real, a: real, c: real, b: real)
    requires Line(r, a, c, b)
    ensures r == a + c * b
  {
  }
}
