/** The balanced state-space form of a cascade, its equivalence to the cascade and its energy
    identities (tools/gen_beam_error_profiles.py). */
module StateSpaces {
  import opened Wrappers
  import opened Linear
  import opened Elimination
  import opened Cascade
  import opened Gramian
  import opened Cholesky
  import opened Numbers

  datatype StateSpace = StateSpace(a: Matrix, b: Vector, c: Vector, d: real, p: Matrix, h: Vector, q: real)

  datatype BalanceError = Unsolvable(solving: SolveError) | Indefinite(factoring: FactorError)

  ghost predicate Shaped(s: StateSpace, n: nat) {
    IsMatrix(s.a, n, n) && |s.b| == |s.c| == |s.h| == n && s.p == Identity(n)
  }

  // ----- Runs -----

  function SpaceStep(s: StateSpace, y: Vector, u: real): (r: StepResult)
    ensures |r.next| == |s.a|
  {
    StepResult(Combine(MatVec(s.a, y), u, s.b), Dot(s.c, y) + u * s.d)
  }

  function SpaceOutputs(s: StateSpace, y: Vector, inputs: Vector): Vector
    decreases |inputs|
  {
    if inputs == [] then []
    else
      var r := SpaceStep(s, y, inputs[0]);
      [r.output] + SpaceOutputs(s, r.next, inputs[1..])
  }

  function CascadeOutputs(sos: Sos, x: Vector, inputs: Vector): Vector
    requires |x| == 2 * |sos|
    decreases |inputs|
  {
    if inputs == [] then []
    else
      var r := Step(sos, x, inputs[0]);
      [r.output] + CascadeOutputs(sos, r.next, inputs[1..])
  }

  /** From rest, both give the same outputs for every input sequence. */
  ghost predicate SameOutputs(sos: Sos, s: StateSpace) {
    forall inputs: Vector ::
      SpaceOutputs(s, Zeros(2 * |sos|), inputs) == CascadeOutputs(sos, Zeros(2 * |sos|), inputs)
  }

  // ----- The change of basis -----

  /** s is (a, b, c, d) seen through y = t x. */
  ghost predicate Conjugate(s: StateSpace, t: Matrix, inverse: Matrix, a: Matrix, b: Vector, c: Vector, d: real,
                            n: nat)
  {
    && Shaped(s, n) && Inverses(inverse, t, n) && IsMatrix(a, n, n) && |b| == |c| == n
    && s.b == MatVec(t, b) && s.d == d
    && forall y: Vector {:trigger MatVec(inverse, y)} | |y| == n :: Follows(s, t, a, c, y, MatVec(inverse, y))
  }

  /** s does to y what a and c do to x, seen through t. */
  predicate Follows(s: StateSpace, t: Matrix, a: Matrix, c: Vector, y: Vector, x: Vector) {
    MatVec(s.a, y) == MatVec(t, MatVec(a, x)) && Dot(s.c, y) == Dot(c, x)
  }

  /** h and q are A'b + dc and d^2 + b'b. */
  ghost predicate Supplied(s: StateSpace, n: nat) {
    && s.h == Combine(MatVec(Transpose(s.a, n), s.b), s.d, s.c)
    && s.q == s.d * s.d + Dot(s.b, s.b)
  }

  /** P is the identity: for all states, dot products split into next states and outputs. */
  ghost predicate Orthonormal(s: StateSpace, n: nat) {
    forall y: Vector, z: Vector {:trigger Splits(s, y, z)} | |y| == |z| == n :: Splits(s, y, z)
  }

  predicate Splits(s: StateSpace, y: Vector, z: Vector) {
    Dot(y, z) == Dot(MatVec(s.a, y), MatVec(s.a, z)) + Dot(s.c, y) * Dot(s.c, z)
  }

  /** Output energy plus the next state's energy is the state's energy plus what the input supplies. */
  ghost predicate Conserves(s: StateSpace, n: nat) {
    forall y: Vector, u: real {:trigger ConservesStep(s, y, u)} | |y| == n :: ConservesStep(s, y, u)
  }

  ghost predicate ConservesStep(s: StateSpace, y: Vector, u: real) {
    var r := SpaceStep(s, y, u);
    Square(r.output) + Dot(r.next, r.next) == Dot(y, y) + Supply(s, y, u)
  }

  function Supply(s: StateSpace, y: Vector, u: real): real {
    2.0 * u * Dot(s.h, y) + s.q * (u * u)
  }

  /** The form behaves as the cascade does and its state's squared length is the energy still to come;
      or the Gramian's or the transform's system collapses, or the Gramian is not positive definite. */
  method BalancedStateSpace(sos: Sos, sqrt: real -> real) returns (r: Result<StateSpace, BalanceError>)
    requires SquareRoot(sqrt)
    ensures r.Ok? ==> Shaped(r.value, 2 * |sos|) && SameOutputs(sos, r.value)
    ensures r.Ok? ==> Orthonormal(r.value, 2 * |sos|) && Conserves(r.value, 2 * |sos|)
    ensures r.Err? && r.error.Indefinite? ==> HasIndefiniteGramian(sos)
    ensures r.Err? && r.error.Unsolvable? ==> Degenerate(sos)
  {
    hide *;
    var n := 2 * |sos|;
    var a, b, c, d := CascadeStateSpace(sos);
    RealizedShape(sos, a, b, c, d);
    var gramian := ObservabilityGramian(a, c);
    if gramian.Err? {
      DegenerateGramian(sos, a, b, c, d);
      return Err(Unsolvable(gramian.error));
    }
    var p := gramian.value;
    SymmetricShape(p, n);
    var factor := CholeskyLower(p, n, sqrt);
    if factor.Err? {
      IndefiniteGramian(sos, a, b, c, d, p);
      return Err(Indefinite(factor.error));
    }
    FactorIsMatrix(factor.value, p, n);
    var transform := Transpose(factor.value, n);
    var inverse := Inverse(transform, n);
    if inverse.Err? {
      DegenerateTransform(sos, a, b, c, d, p, factor.value);
      return Err(Unsolvable(inverse.error));
    }
    InverseShape(inverse.value, transform, n);
    var s := Rebased(a, b, c, d, transform, inverse.value, n);
    RebasedIsConjugate(a, b, c, d, transform, inverse.value, n);
    ConjugateIsSame(sos, s, transform, inverse.value, a, b, c, d);
    ConjugateIsOrthonormal(s, factor.value, inverse.value, a, b, c, d, p, n);
    ConjugateShape(s, transform, inverse.value, a, b, c, d, n);
    OrthonormalConserves(s, n);
    r := Ok(s);
  }

  /** The matrices of the balanced form. */
  function Rebased(a: Matrix, b: Vector, c: Vector, d: real, t: Matrix, inverse: Matrix, n: nat): StateSpace
    requires IsMatrix(a, n, n) && |b| == |c| == n && IsMatrix(t, n, n) && IsMatrix(inverse, n, n)
  {
    var a' := MatMul(MatMul(t, a, n), inverse, n);
    var b' := MatVec(t, b);
    var c' := seq(n, j requires 0 <= j < n => Dot(c, Column(inverse, j)));
    var h := seq(n, j requires 0 <= j < n => Dot(Column(a', j), b') + c'[j] * d);
    StateSpace(a', b', c', d, Identity(n), h, d * d + Dot(b', b'))
  }

  // ----- When there is no balanced form -----

  ghost predicate HasIndefiniteGramian(sos: Sos) {
    exists a: Matrix, b: Vector, c: Vector, d: real, p: Matrix | Realizes(sos, a, b, c, d) ::
      Lyapunov(p, a, c, 2 * |sos|) && !PositiveDefinite(p, 2 * |sos|)
  }

  /** The Gramian's equations, or those inverting its factor, meet no pivot of at least 1e-30. */
  ghost predicate Degenerate(sos: Sos) {
    exists a: Matrix, b: Vector, c: Vector, d: real | Realizes(sos, a, b, c, d) ::
      || Collapses(Equations(a, 2 * |sos|), Targets(c, 2 * |sos|))
      || exists p: Matrix, l: Matrix | Lyapunov(p, a, c, 2 * |sos|) && Factors(l, p, 2 * |sos|) ::
           exists k: nat | k < 2 * |sos| :: Collapses(Transpose(l, 2 * |sos|), Basis(2 * |sos|, k))
  }

  lemma IndefiniteGramian(sos: Sos, a: Matrix, b: Vector, c: Vector, d: real, p: Matrix)
    requires Realizes(sos, a, b, c, d)
    requires Lyapunov(p, a, c, 2 * |sos|) && !PositiveDefinite(p, 2 * |sos|)
    ensures HasIndefiniteGramian(sos)
  {
    hide Realizes, Lyapunov, PositiveDefinite;
  }

  lemma DegenerateGramian(sos: Sos, a: Matrix, b: Vector, c: Vector, d: real)
    requires Realizes(sos, a, b, c, d)
    requires Collapses(Equations(a, 2 * |sos|), Targets(c, 2 * |sos|))
    ensures Degenerate(sos)
  {
    hide Realizes, Collapses, Equations, Targets;
  }

  lemma DegenerateTransform(sos: Sos, a: Matrix, b: Vector, c: Vector, d: real, p: Matrix, l: Matrix)
    requires Realizes(sos, a, b, c, d) && Lyapunov(p, a, c, 2 * |sos|) && Factors(l, p, 2 * |sos|)
    requires exists k: nat | k < 2 * |sos| :: Collapses(Transpose(l, 2 * |sos|), Basis(2 * |sos|, k))
    ensures Degenerate(sos)
  {
    hide Realizes, Lyapunov, Factors, Collapses, Transpose;
  }

  lemma RealizedShape(sos: Sos, a: Matrix, b: Vector, c: Vector, d: real)
    requires Realizes(sos, a, b, c, d)
    ensures IsMatrix(a, 2 * |sos|, 2 * |sos|) && |b| == |c| == 2 * |sos|
  {
  }

  lemma SymmetricShape(p: Matrix, n: nat)
    requires Symmetric(p, n)
    ensures IsMatrix(p, n, n)
  {
  }

  lemma FactorIsMatrix(l: Matrix, m: Matrix, n: nat)
    requires Factors(l, m, n)
    ensures IsMatrix(l, n, n) && IsMatrix(Transpose(l, n), n, n)
  {
  }

  lemma InverseShape(inverse: Matrix, t: Matrix, n: nat)
    requires Inverses(inverse, t, n)
    ensures IsMatrix(inverse, n, n) && IsMatrix(t, n, n)
  {
  }

  // ----- The balanced form is a change of basis -----

  lemma RebasedIsConjugate(a: Matrix, b: Vector, c: Vector, d: real, t: Matrix, inverse: Matrix, n: nat)
    requires IsMatrix(a, n, n) && |b| == |c| == n && IsMatrix(t, n, n) && IsMatrix(inverse, n, n)
    requires Inverses(inverse, t, n)
    ensures var s := Rebased(a, b, c, d, t, inverse, n);
      Conjugate(s, t, inverse, a, b, c, d, n) && Supplied(s, n)
  {
    var s := Rebased(a, b, c, d, t, inverse, n);
    RebasedShape(a, b, c, d, t, inverse, n);
    hide Rebased, MatVec, Inverses, Follows, Shaped, Supplied;
    forall y: Vector | |y| == n ensures Follows(s, t, a, c, y, MatVec(inverse, y)) {
      RebasedAt(a, b, c, d, t, inverse, n, y);
    }
  }

  lemma RebasedShape(a: Matrix, b: Vector, c: Vector, d: real, t: Matrix, inverse: Matrix, n: nat)
    requires IsMatrix(a, n, n) && |b| == |c| == n && IsMatrix(t, n, n) && IsMatrix(inverse, n, n)
    ensures var s := Rebased(a, b, c, d, t, inverse, n);
      Shaped(s, n) && Supplied(s, n) && s.b == MatVec(t, b) && s.d == d
  {
    hide MatMul, MatVec, Dot, Identity, Column, Transpose, Combine;
    SupplyVector(Rebased(a, b, c, d, t, inverse, n), n);
  }

  lemma RebasedAt(a: Matrix, b: Vector, c: Vector, d: real, t: Matrix, inverse: Matrix, n: nat, y: Vector)
    requires IsMatrix(a, n, n) && |b| == |c| == n && IsMatrix(t, n, n) && IsMatrix(inverse, n, n) && |y| == n
    ensures var s := Rebased(a, b, c, d, t, inverse, n);
      Follows(s, t, a, c, y, MatVec(inverse, y))
  {
    hide MatMul, MatVec, Dot, Column, Identity, Transpose;
    var s, x := Rebased(a, b, c, d, t, inverse, n), MatVec(inverse, y);
    MatMulVec(MatMul(t, a, n), inverse, n, n, y);
    MatMulVec(t, a, n, n, x);
    RowTimes(c, inverse, n, s.c);
    Adjoint(inverse, n, y, c);
  }

  lemma SupplyVector(s: StateSpace, n: nat)
    requires IsMatrix(s.a, n, n) && |s.b| == |s.c| == |s.h| == n
    requires forall j | 0 <= j < n :: s.h[j] == Dot(Column(s.a, j), s.b) + s.c[j] * s.d
    ensures s.h == Combine(MatVec(Transpose(s.a, n), s.b), s.d, s.c)
  {
    hide Dot;
    var r := Combine(MatVec(Transpose(s.a, n), s.b), s.d, s.c);
    forall j | 0 <= j < n ensures s.h[j] == r[j] {
      assert s.c[j] * s.d == s.d * s.c[j];
    }
  }

  // ----- Same outputs -----

  lemma ConjugateAt(s: StateSpace, t: Matrix, inverse: Matrix, a: Matrix, b: Vector, c: Vector, d: real, n: nat,
                    x: Vector, y: Vector)
    requires Conjugate(s, t, inverse, a, b, c, d, n) && |x| == |y| == n
    requires y == MatVec(t, x) || x == MatVec(inverse, y)
    ensures y == MatVec(t, x) && x == MatVec(inverse, y)
    ensures MatVec(s.a, y) == MatVec(t, MatVec(a, x)) && Dot(s.c, y) == Dot(c, x)
  {
    hide MatVec, Dot, Identity;
    assert Undoes(inverse, t, x) && Undoes(inverse, t, y);
    assert Follows(s, t, a, c, y, MatVec(inverse, y));
  }

  lemma ConjugateShape(s: StateSpace, t: Matrix, inverse: Matrix, a: Matrix, b: Vector, c: Vector, d: real, n: nat)
    requires Conjugate(s, t, inverse, a, b, c, d, n)
    ensures IsMatrix(t, n, n) && IsMatrix(a, n, n) && |t| == |a| == |b| == |c| == n && Shaped(s, n)
    ensures s.b == MatVec(t, b) && s.d == d && |inverse| == n
  {
  }

  lemma RealizesAt(sos: Sos, a: Matrix, b: Vector, c: Vector, d: real, x: Vector, u: real)
    requires Realizes(sos, a, b, c, d) && |x| == 2 * |sos|
    ensures Step(sos, x, u) == StepResult(Combine(MatVec(a, x), u, b), Dot(c, x) + u * d)
  {
    hide Step, MatVec, Dot, Combine;
  }

  lemma SpaceStepIs(s: StateSpace, y: Vector, u: real)
    ensures SpaceStep(s, y, u) == StepResult(Combine(MatVec(s.a, y), u, s.b), Dot(s.c, y) + u * s.d)
  {
  }

  lemma ConjugateStep(sos: Sos, s: StateSpace, t: Matrix, inverse: Matrix, a: Matrix, b: Vector, c: Vector,
                      d: real, x: Vector, u: real)
    requires Realizes(sos, a, b, c, d) && Conjugate(s, t, inverse, a, b, c, d, 2 * |sos|) && |x| == 2 * |sos|
    ensures var r := Step(sos, x, u);
      SpaceStep(s, MatVec(t, x), u) == StepResult(MatVec(t, r.next), r.output)
  {
    hide *;
    var n := 2 * |sos|;
    var y := MatVec(t, x);
    ConjugateShape(s, t, inverse, a, b, c, d, n);
    ConjugateAt(s, t, inverse, a, b, c, d, n, x, y);
    RealizesAt(sos, a, b, c, d, x, u);
    SpaceStepIs(s, y, u);
    MatVecCombine(t, n, MatVec(a, x), u, b);
  }

  lemma {:induction false} SameFrom(sos: Sos, s: StateSpace, t: Matrix, inverse: Matrix, a: Matrix, b: Vector,
                                    c: Vector, d: real, x: Vector, inputs: Vector)
    requires Realizes(sos, a, b, c, d) && Conjugate(s, t, inverse, a, b, c, d, 2 * |sos|) && |x| == 2 * |sos|
    ensures SpaceOutputs(s, MatVec(t, x), inputs) == CascadeOutputs(sos, x, inputs)
    decreases |inputs|
  {
    hide Realizes, Conjugate, MatVec, Step, SpaceStep;
    if inputs != [] {
      ConjugateStep(sos, s, t, inverse, a, b, c, d, x, inputs[0]);
      SameFrom(sos, s, t, inverse, a, b, c, d, Step(sos, x, inputs[0]).next, inputs[1..]);
    }
  }

  lemma ConjugateIsSame(sos: Sos, s: StateSpace, t: Matrix, inverse: Matrix, a: Matrix, b: Vector, c: Vector,
                        d: real)
    requires Realizes(sos, a, b, c, d) && Conjugate(s, t, inverse, a, b, c, d, 2 * |sos|)
    ensures SameOutputs(sos, s)
  {
    var n := 2 * |sos|;
    ConjugateShape(s, t, inverse, a, b, c, d, n);
    hide Realizes, Conjugate, MatVec, SpaceOutputs, CascadeOutputs, Zeros;
    MatVecZeros(t, n);
    forall inputs: Vector
      ensures SpaceOutputs(s, Zeros(n), inputs) == CascadeOutputs(sos, Zeros(n), inputs)
    {
      SameFrom(sos, s, t, inverse, a, b, c, d, Zeros(n), inputs);
    }
  }

  // ----- Energy -----

  /** A'PA + cc', factor by factor. */
  function Propagated(p: Matrix, a: Matrix, n: nat): (r: Matrix)
    requires IsMatrix(p, n, n) && IsMatrix(a, n, n)
    ensures IsMatrix(r, n, n)
  {
    MatMul(Transpose(a, n), MatMul(p, a, n), n)
  }

  lemma LyapunovRow(p: Matrix, a: Matrix, c: Vector, n: nat, i: nat)
    requires Lyapunov(p, a, c, n) && IsMatrix(a, n, n) && |c| == n && i < n
    ensures p[i] == Combine(Propagated(p, a, n)[i], c[i], c)
  {
    var g := Propagated(p, a, n);
    forall j | 0 <= j < n ensures p[i][j] == Combine(g[i], c[i], c)[j] {
      assert Balances(p, a, c, i, j);
      assert Column(MatMul(p, a, n), j) == MatVec(p, Column(a, j));
      assert g[i][j] == Dot(Column(a, i), MatVec(p, Column(a, j)));
    }
  }

  /** The Lyapunov equation as an identity of bilinear forms. */
  lemma LyapunovForm(p: Matrix, a: Matrix, c: Vector, n: nat, x: Vector, w: Vector)
    requires Lyapunov(p, a, c, n) && IsMatrix(a, n, n) && |c| == |x| == |w| == n
    ensures Dot(x, MatVec(p, w)) == Dot(MatVec(a, x), MatVec(p, MatVec(a, w))) + Dot(c, x) * Dot(c, w)
  {
    hide *;
    var s := Dot(c, w);
    var z := MatVec(p, MatVec(a, w));
    var gw := MatVec(Transpose(a, n), z);
    LyapunovImage(p, a, c, n, w);
    DotCommutes(x, Combine(gw, s, c));
    ShapesOf(p, a, n, z);
    DotCombine(gw, s, c, x);
    Adjoint(a, n, x, z);
    DotCommutes(z, MatVec(a, x));
    ProductCommutes(s, Dot(c, x));
  }

  lemma ShapesOf(p: Matrix, a: Matrix, n: nat, z: Vector)
    requires IsMatrix(a, n, n) && |z| == |p|
    ensures |MatVec(Transpose(a, n), z)| == n && |a| == n && forall i | 0 <= i < n :: |a[i]| == n
  {
  }

  /** P w is A'(P(A w)) plus c times c w. */
  lemma LyapunovImage(p: Matrix, a: Matrix, c: Vector, n: nat, w: Vector)
    requires Lyapunov(p, a, c, n) && IsMatrix(a, n, n) && |c| == |w| == n
    ensures |p| == n
    ensures MatVec(p, w) == Combine(MatVec(Transpose(a, n), MatVec(p, MatVec(a, w))), Dot(c, w), c)
  {
    var g, s := Propagated(p, a, n), Dot(c, w);
    var gw := MatVec(g, w);
    forall i | 0 <= i < n ensures Dot(p[i], w) == Combine(gw, s, c)[i] {
      hide Dot, Propagated;
      LyapunovRow(p, a, c, n, i);
      DotCombine(g[i], c[i], c, w);
      ProductCommutes(c[i], s);
    }
    assert MatVec(p, w) == Combine(gw, s, c);
    hide MatVec, Dot, Lyapunov, Combine, MatMul;
    MatMulVec(Transpose(a, n), MatMul(p, a, n), n, n, w);
    MatMulVec(p, a, n, n, w);
  }

  lemma ConjugateIsOrthonormal(s: StateSpace, l: Matrix, inverse: Matrix, a: Matrix, b: Vector, c: Vector,
                               d: real, p: Matrix, n: nat)
    requires Conjugate(s, Transpose(l, n), inverse, a, b, c, d, n)
    requires Factors(l, p, n) && Symmetric(p, n) && Lyapunov(p, a, c, n)
    ensures Orthonormal(s, n)
  {
    hide Conjugate, Factors, Symmetric, Lyapunov, Splits, Transpose;
    forall y: Vector, z: Vector | |y| == |z| == n
      ensures Splits(s, y, z)
    {
      PairSplits(s, l, inverse, a, b, c, d, p, n, y, z);
    }
  }

  lemma PairSplits(s: StateSpace, l: Matrix, inverse: Matrix, a: Matrix, b: Vector, c: Vector, d: real, p: Matrix,
                   n: nat, y: Vector, z: Vector)
    requires Conjugate(s, Transpose(l, n), inverse, a, b, c, d, n) && |y| == |z| == n
    requires Factors(l, p, n) && Symmetric(p, n) && Lyapunov(p, a, c, n)
    ensures Splits(s, y, z)
  {
    hide *;
    var t := Transpose(l, n);
    var x, w := MatVec(inverse, y), MatVec(inverse, z);
    ConjugateShape(s, t, inverse, a, b, c, d, n);
    SymmetricShape(p, n);
    ConjugateAt(s, t, inverse, a, b, c, d, n, x, y);
    ConjugateAt(s, t, inverse, a, b, c, d, n, w, z);
    FactoredForm(l, p, n, x, w);
    FactoredForm(l, p, n, MatVec(a, x), MatVec(a, w));
    LyapunovForm(p, a, c, n, x, w);
    SplitsIs(s, y, z);
  }

  lemma SplitsIs(s: StateSpace, y: Vector, z: Vector)
    ensures Splits(s, y, z) <==>
            Dot(y, z) == Dot(MatVec(s.a, y), MatVec(s.a, z)) + Dot(s.c, y) * Dot(s.c, z)
  {
  }

  lemma OrthonormalConserves(s: StateSpace, n: nat)
    requires Shaped(s, n) && Supplied(s, n) && Orthonormal(s, n)
    ensures Conserves(s, n)
  {
    forall y: Vector, u: real | |y| == n ensures ConservesStep(s, y, u) {
      StepConserves(s, n, y, u);
    }
  }

  lemma StepConserves(s: StateSpace, n: nat, y: Vector, u: real)
    requires Shaped(s, n) && Supplied(s, n) && Orthonormal(s, n) && |y| == n
    ensures ConservesStep(s, y, u)
  {
    hide *;
    var ay := MatVec(s.a, y);
    var r := SpaceStep(s, y, u);
    SpaceStepIs(s, y, u);
    OrthonormalPair(s, n, y, y);
    ShapeIs(s, n);
    SuppliedIs(s, n);
    SquaredLength(ay, u, s.b);
    DotCombine(MatVec(Transpose(s.a, n), s.b), s.d, s.c, y);
    Adjoint(s.a, n, y, s.b);
    EnergyAlgebra(Dot(ay, ay), Dot(s.b, ay), Dot(s.b, s.b), Dot(s.c, y), s.d, u, r.output, Dot(s.h, y), s.q);
    ConservedStep(s, y, u);
  }

  lemma SuppliedIs(s: StateSpace, n: nat)
    requires Supplied(s, n)
    ensures s.h == Combine(MatVec(Transpose(s.a, n), s.b), s.d, s.c) && s.q == s.d * s.d + Dot(s.b, s.b)
  {
  }

  lemma ShapeIs(s: StateSpace, n: nat)
    requires Shaped(s, n)
    ensures IsMatrix(s.a, n, n) && |s.a| == |s.b| == |s.c| == |s.h| == n && s.p == Identity(n)
    ensures |s.p| == n && forall i | 0 <= i < n :: |s.p[i]| == n
  {
  }

  lemma ConservedStep(s: StateSpace, y: Vector, u: real)
    requires var r := SpaceStep(s, y, u);
      Square(r.output) + Dot(r.next, r.next) == Dot(y, y) + (2.0 * u * Dot(s.h, y) + s.q * (u * u))
    ensures ConservesStep(s, y, u)
  {
    hide Square, Dot, SpaceStep;
  }

  lemma SquaredLength(a: Vector, u: real, b: Vector)
    requires |a| == |b|
    ensures var r := Combine(a, u, b); Dot(r, r) == Dot(a, a) + 2.0 * (u * Dot(b, a)) + Dot(b, b) * (u * u)
  {
    hide Dot, Combine;
    var r := Combine(a, u, b);
    DotCombine(a, u, b, r);
    DotCommutes(a, r);
    DotCommutes(b, r);
    DotCombine(a, u, b, a);
    DotCombine(a, u, b, b);
    DotCommutes(a, b);
    var cross, own := Dot(b, a), Dot(b, b);
    Distribute(u, cross, u * own);
    assert u * (u * own) == own * (u * u);
  }

  lemma EnergyAlgebra(alpha: real, beta: real, gamma: real, kappa: real, d: real, u: real, output: real,
                      hy: real, q: real)
    requires output == kappa + u * d && hy == beta + d * kappa && q == d * d + gamma
    ensures Square(output) + (alpha + 2.0 * (u * beta) + gamma * (u * u)) ==
            alpha + kappa * kappa + (2.0 * u * hy + q * (u * u))
  {
    assert output * output == kappa * kappa + 2.0 * (u * (d * kappa)) + (d * d) * (u * u);
    assert 2.0 * u * hy == 2.0 * (u * beta) + 2.0 * (u * (d * kappa));
    assert q * (u * u) == (d * d) * (u * u) + gamma * (u * u);
  }

  // ----- Energy over whole runs -----

  function OutputEnergy(s: StateSpace, y: Vector, inputs: Vector): real
    decreases |inputs|
  {
    if inputs == [] then 0.0
    else
      var r := SpaceStep(s, y, inputs[0]);
      Square(r.output) + OutputEnergy(s, r.next, inputs[1..])
  }

  function FinalState(s: StateSpace, y: Vector, inputs: Vector): Vector
    decreases |inputs|
  {
    if inputs == [] then y else FinalState(s, SpaceStep(s, y, inputs[0]).next, inputs[1..])
  }

  function SuppliedEnergy(s: StateSpace, y: Vector, inputs: Vector): real
    decreases |inputs|
  {
    if inputs == [] then 0.0
    else Supply(s, y, inputs[0]) + SuppliedEnergy(s, SpaceStep(s, y, inputs[0]).next, inputs[1..])
  }

  /** Over any input sequence, output energy and final state energy are what was there and what was supplied. */
  lemma {:induction false} EnergyIsConserved(s: StateSpace, n: nat, y: Vector, inputs: Vector)
    requires Conserves(s, n) && |s.a| == |y| == n
    ensures var final := FinalState(s, y, inputs);
      OutputEnergy(s, y, inputs) + Dot(final, final) == Dot(y, y) + SuppliedEnergy(s, y, inputs)
    decreases |inputs|
  {
    hide Dot, Supply, SpaceStep;
    if inputs != [] {
      assert ConservesStep(s, y, inputs[0]);
      EnergyIsConserved(s, n, SpaceStep(s, y, inputs[0]).next, inputs[1..]);
    }
  }

  /** One unit sample, then silence. */
  function Impulse(samples: nat): (r: Vector)
    ensures |r| == samples
  {
    seq(samples, (i: nat) => if i == 0 then 1.0 else 0.0)
  }

  function Silence(samples: nat): (r: Vector)
    ensures |r| == samples
  {
    Zeros(samples)
  }

  lemma {:induction false} SilenceSupplies(s: StateSpace, y: Vector, samples: nat)
    ensures SuppliedEnergy(s, y, Silence(samples)) == 0.0
    decreases samples
  {
    if samples > 0 {
      assert Silence(samples)[1..] == Silence(samples - 1);
      SilenceSupplies(s, SpaceStep(s, y, 0.0).next, samples - 1);
      assert Supply(s, y, 0.0) == 0.0;
    }
  }

  /** An impulse from rest supplies exactly q. */
  lemma ImpulseSupplies(s: StateSpace, n: nat, samples: nat)
    requires |s.h| == n && samples > 0
    ensures SuppliedEnergy(s, Zeros(n), Impulse(samples)) == s.q
  {
    assert Impulse(samples)[1..] == Silence(samples - 1);
    SilenceSupplies(s, SpaceStep(s, Zeros(n), 1.0).next, samples - 1);
    DotCommutes(s.h, Zeros(n));
    DotZeros(n, s.h);
    hide Dot;
    assert Supply(s, Zeros(n), 1.0) == s.q;
  }

  /** Every entry is below 1e-15 in magnitude. */
  predicate Settled(y: Vector) {
    forall i | 0 <= i < |y| :: Abs(y[i]) < 1.0 / 1_000_000_000_000_000.0
  }

  lemma {:induction false} OneMoreSample(s: StateSpace, y: Vector, inputs: Vector, u: real)
    ensures var state := FinalState(s, y, inputs);
      && FinalState(s, y, inputs + [u]) == SpaceStep(s, state, u).next
      && OutputEnergy(s, y, inputs + [u]) == OutputEnergy(s, y, inputs) + Square(SpaceStep(s, state, u).output)
    decreases |inputs|
  {
    hide SpaceStep, Square;
    var all := inputs + [u];
    if inputs == [] {
      assert all[1..] == [];
    } else {
      assert all[1..] == inputs[1..] + [u];
      OneMoreSample(s, SpaceStep(s, y, inputs[0]).next, inputs[1..], u);
    }
  }

  /** What the loop returns when it stops after k samples: at the limit, or the first time it has settled. */
  ghost predicate StopsAfter(s: StateSpace, n: nat, samples: nat, k: nat, energy: real, tail: real) {
    var final := FinalState(s, Zeros(n), Impulse(k));
    && energy == OutputEnergy(s, Zeros(n), Impulse(k)) && tail == Dot(final, final)
    && (k == samples || (0 < k && Settled(final)))
    && !SettlesBefore(s, n, k)
  }

  ghost predicate SettlesBefore(s: StateSpace, n: nat, k: nat) {
    exists j: nat | 0 < j < k :: Settled(FinalState(s, Zeros(n), Impulse(j)))
  }

  /** The energy of the impulse response and what is left in the state when the loop stops, at the sample
      limit or once the state has settled; together they are q. */
  method ImpulseEnergy(profile: StateSpace, n: nat, samples: nat) returns (energy: real, tail: real)
    requires Shaped(profile, n) && Conserves(profile, n) && n > 0
    ensures energy + tail == if samples == 0 then 0.0 else profile.q
    ensures exists k: nat | k <= samples :: StopsAfter(profile, n, samples, k, energy, tail)
  {
    hide *;
    var state := Zeros(n);
    energy := 0.0;
    var value := 1.0;
    ghost var done: nat := 0;
    RunStart(profile, n);
    for i := 0 to samples
      invariant done == i && |state| == n && value == (if i == 0 then 1.0 else 0.0)
      invariant state == FinalState(profile, Zeros(n), Impulse(i))
      invariant energy == OutputEnergy(profile, Zeros(n), Impulse(i))
      invariant !SettlesBefore(profile, n, i) && (i > 0 ==> !Settled(state))
    {
      ImpulseGrows(i, value);
      OneMoreSample(profile, Zeros(n), Impulse(i), value);
      var step := SpaceStep(profile, state, value);
      SquareIs(step.output);
      StepShape(profile, n, state, value);
      NotYet(profile, n, i);
      energy := energy + step.output * step.output;
      state := step.next;
      value := 0.0;
      done := i + 1;
      if Settled(state) {
        break;
      }
    }
    tail := Dot(state, state);
    StoppedRun(profile, n, samples, done, energy, tail, state);
    EnergyOfImpulse(profile, n, samples, done);
  }

  lemma RunStart(s: StateSpace, n: nat)
    ensures FinalState(s, Zeros(n), Impulse(0)) == Zeros(n) && OutputEnergy(s, Zeros(n), Impulse(0)) == 0.0
    ensures !SettlesBefore(s, n, 0)
  {
  }

  lemma ImpulseGrows(i: nat, value: real)
    requires value == if i == 0 then 1.0 else 0.0
    ensures Impulse(i + 1) == Impulse(i) + [value]
  {
  }

  lemma SquareIs(x: real)
    ensures Square(x) == x * x
  {
  }

  lemma StepShape(s: StateSpace, n: nat, y: Vector, u: real)
    requires Shaped(s, n)
    ensures |SpaceStep(s, y, u).next| == n
  {
  }

  lemma NotYet(s: StateSpace, n: nat, i: nat)
    requires !SettlesBefore(s, n, i)
    requires i > 0 ==> !Settled(FinalState(s, Zeros(n), Impulse(i)))
    ensures !SettlesBefore(s, n, i + 1)
  {
    hide Settled, FinalState, Impulse;
  }

  lemma StoppedRun(s: StateSpace, n: nat, samples: nat, k: nat, energy: real, tail: real, state: Vector)
    requires state == FinalState(s, Zeros(n), Impulse(k)) && energy == OutputEnergy(s, Zeros(n), Impulse(k))
    requires tail == Dot(state, state) && (k == samples || (0 < k && Settled(state))) && !SettlesBefore(s, n, k)
    ensures StopsAfter(s, n, samples, k, energy, tail)
  {
    hide Settled, FinalState, Impulse, Dot, SettlesBefore;
  }

  /** After any number of samples, output energy and state energy add up to q. */
  lemma EnergyOfImpulse(s: StateSpace, n: nat, samples: nat, k: nat)
    requires Shaped(s, n) && Conserves(s, n) && k <= samples && (samples > 0 ==> k > 0)
    ensures var final := FinalState(s, Zeros(n), Impulse(k));
      OutputEnergy(s, Zeros(n), Impulse(k)) + Dot(final, final) == if samples == 0 then 0.0 else s.q
  {
    hide Dot, FinalState, OutputEnergy, Conserves;
    EnergyIsConserved(s, n, Zeros(n), Impulse(k));
    DotZeros(n, Zeros(n));
    if k > 0 {
      ImpulseSupplies(s, n, k);
    }
  }

  // ----- The residual the profiles are checked with -----

  /** In exact arithmetic the balanced form leaves no residual. */
  method MaxLyapunovResidual(profile: StateSpace, n: nat) returns (maximum: real)
    requires Shaped(profile, n) && Orthonormal(profile, n)
    ensures maximum == 0.0
  {
    hide *;
    maximum := 0.0;
    ShapeIs(profile, n);
    for i := 0 to n
      invariant maximum == 0.0
    {
      for j := 0 to n
        invariant maximum == 0.0
      {
        var reconstructed := profile.c[i] * profile.c[j] + Dot(Column(profile.a, i), Column(profile.a, j));
        NoResidual(profile, n, i, j, reconstructed);
        var residual := Abs(profile.p[i][j] - reconstructed);
        AbsZero();
        maximum := if residual > maximum then residual else maximum;
      }
    }
  }

  lemma AbsZero()
    ensures Abs(0.0) == 0.0
  {
  }

  lemma NoResidual(s: StateSpace, n: nat, i: nat, j: nat, reconstructed: real)
    requires Shaped(s, n) && Orthonormal(s, n) && i < n && j < n
    requires reconstructed == s.c[i] * s.c[j] + Dot(Column(s.a, i), Column(s.a, j))
    ensures |s.p| == n && |s.p[i]| == n && s.p[i][j] == reconstructed
  {
    hide *;
    var e, f := Basis(n, i), Basis(n, j);
    ShapeIs(s, n);
    OrthonormalPair(s, n, e, f);
    MatVecBasis(s.a, n, i);
    MatVecBasis(s.a, n, j);
    DotBasis(s.c, n, i);
    DotBasis(s.c, n, j);
    DotBasis(e, n, j);
    IdentityRow(n, i);
  }

  lemma OrthonormalPair(s: StateSpace, n: nat, y: Vector, z: Vector)
    requires Orthonormal(s, n) && |y| == |z| == n
    ensures Dot(y, z) == Dot(MatVec(s.a, y), MatVec(s.a, z)) + Dot(s.c, y) * Dot(s.c, z)
  {
    hide Dot, MatVec;
    assert Splits(s, y, z);
  }

  lemma IdentityRow(n: nat, i: nat)
    requires i < n
    ensures Identity(n)[i] == Basis(n, i)
  {
  }
}
