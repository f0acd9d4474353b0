/** The observability Gramian as one flat linear system, its Cholesky factor, and matrix
    inversion by repeated solving (tools/gen_beam_error_profiles.py). */
module Gramian {
  import opened Wrappers
  import opened Linear
  import opened Elimination
  import opened IntegerDivision

  // ----- Flattening a double sum -----

  /** Where entry j of row i stands when rows of length n follow one another. */
  function Position(i: nat, n: nat, j: nat): nat {
    i * n + j
  }

  lemma PositionInverse(i: nat, m: nat, j: nat, n: nat)
    requires i < m && j < n
    ensures Position(i, n, j) < m * n
    ensures Position(i, n, j) / n == i && Position(i, n, j) % n == j
  {
    var p := Position(i, n, j);
    ProductMonotone(n, i + 1, m);
    assert (i + 1) * n == i * n + n;
    DivideStep(p, n);
    QuotientIsUnique(p, n, p / n, p % n, i, j);
  }

  lemma PositionSteps(i: nat, n: nat, j: nat)
    ensures Position(i, n, j) == Position(i, n, 0) + j
    ensures Position(i, n, n) == Position(i + 1, n, 0)
  {
    assert (i + 1) * n == i * n + n;
  }

  lemma RowAndColumn(q: nat, m: nat, n: nat)
    requires q < m * n
    ensures n > 0 && q / n < m && q % n < n && q == Position(q / n, n, q % n)
  {
    assert n == 0 ==> m * n == 0;
    DivideStep(q, n);
    ProductMonotone(n, m, q / n);
  }

  function Shifted(p: nat, g: nat -> real): nat -> real {
    (k: nat) => g(p + k)
  }

  lemma {:induction false} SumShift(p: nat, m: nat, g: nat -> real)
    ensures Sum(p + m, g) == Sum(p, g) + Sum(m, Shifted(p, g))
  {
    if m > 0 {
      SumShift(p, m - 1, g);
    }
  }

  lemma SumStep(n: nat, f: nat -> real)
    requires n > 0
    ensures Sum(n, f) == Sum(n - 1, f) + f(n - 1)
  {
  }

  /** A sum over positions is a double sum. */
  lemma {:induction false} SumFlatten(n: nat, m: nat, g: nat -> real, f: (nat, nat) -> real)
    requires forall k: nat, l: nat | k < n && l < m :: g(Position(k, m, l)) == f(k, l)
    ensures Sum(Position(n, m, 0), g) == Sum(n, RowSums(m, f))
  {
    if n > 0 {
      hide *;
      SumFlatten(n - 1, m, g, f);
      var p := Position(n - 1, m, 0);
      ShiftedRow(n - 1, m, g, f, p);
      SumShift(p, m, g);
      SumEqual(m, Shifted(p, g), RowOf(f, n - 1));
      PositionSteps(n - 1, m, m);
      SumStep(n, RowSums(m, f));
      RowSumAt(m, f, n - 1);
    } else {
      assert 0 * m == 0;
    }
  }

  lemma ShiftedRow(k: nat, m: nat, g: nat -> real, f: (nat, nat) -> real, p: nat)
    requires p == Position(k, m, 0) && forall l: nat | l < m :: g(Position(k, m, l)) == f(k, l)
    ensures forall l: nat | l < m :: Shifted(p, g)(l) == RowOf(f, k)(l)
  {
    forall l: nat | l < m ensures Shifted(p, g)(l) == RowOf(f, k)(l) {
      PositionSteps(k, m, l);
    }
  }

  lemma RowSumAt(m: nat, f: (nat, nat) -> real, i: nat)
    ensures RowSums(m, f)(i) == Sum(m, RowOf(f, i))
  {
  }

  // ----- The Lyapunov equation -----

  /** Entry (i, j) of P is that of A'PA + cc'. */
  ghost predicate Balances(p: Matrix, a: Matrix, c: Vector, i: nat, j: nat) {
    Entry(p, i, j) == Dot(Column(a, i), MatVec(p, Column(a, j))) + At(c, i) * At(c, j)
  }

  /** P is A'PA + cc'. */
  ghost predicate Lyapunov(p: Matrix, a: Matrix, c: Vector, n: nat) {
    IsMatrix(p, n, n) && forall i: nat, j: nat | i < n && j < n :: Balances(p, a, c, i, j)
  }

  function Delta(k: nat, i: nat, l: nat, j: nat): real {
    if k == i && l == j then 1.0 else 0.0
  }

  /** The coefficient of unknown (k, l) in equation (i, j). */
  function Coefficient(a: Matrix, i: nat, j: nat, k: nat, l: nat): real {
    Delta(k, i, l, j) - Entry(a, k, i) * Entry(a, l, j)
  }

  function EquationRow(a: Matrix, n: nat, i: nat, j: nat): (r: Vector)
    ensures |r| == n * n
  {
    seq(n * n, q requires 0 <= q < n * n => RowAndColumn(q, n, n); Coefficient(a, i, j, q / n, q % n))
  }

  lemma EquationRowAt(a: Matrix, n: nat, i: nat, j: nat, k: nat, l: nat)
    requires k < n && l < n
    ensures Position(k, n, l) < n * n && EquationRow(a, n, i, j)[Position(k, n, l)] == Coefficient(a, i, j, k, l)
  {
    hide Coefficient, Position;
    PositionInverse(k, n, l, n);
  }

  /** The unknowns arranged as a matrix. */
  function Arranged(flat: Vector, n: nat): (r: Matrix)
    ensures IsMatrix(r, n, n)
  {
    seq(n, i requires 0 <= i < n => seq(n, j requires 0 <= j < n => At(flat, Position(i, n, j))))
  }

  function Terms(a: Matrix, f: Matrix, i: nat, j: nat): (nat, nat) -> real {
    (k: nat, l: nat) => Coefficient(a, i, j, k, l) * Entry(f, k, l)
  }

  /** The part of the double sum that picks out entry (i, j). */
  function Own(f: Matrix, i: nat, j: nat): nat -> real {
    (k: nat) => if k == i then Entry(f, i, j) else 0.0
  }

  /** Equation (i, j) says what the Lyapunov equation says of entry (i, j). */
  lemma EquationMeans(a: Matrix, n: nat, flat: Vector, i: nat, j: nat)
    requires IsMatrix(a, n, n) && |flat| == n * n && i < n && j < n
    ensures var f := Arranged(flat, n);
      Dot(EquationRow(a, n, i, j), flat) == Entry(f, i, j) - Dot(Column(a, i), MatVec(f, Column(a, j)))
  {
    hide *;
    var f := Arranged(flat, n);
    var row, term, v := EquationRow(a, n, i, j), Terms(a, f, i, j), MatVec(f, Column(a, j));
    forall k: nat, l: nat | k < n && l < n
      ensures Products(row, flat)(Position(k, n, l)) == term(k, l)
    {
      EquationProduct(a, n, flat, i, j, k, l);
    }
    SumFlatten(n, n, Products(row, flat), term);
    forall k: nat | k < n
      ensures RowSums(n, term)(k) == Own(f, i, j)(k) + -1.0 * Products(Column(a, i), v)(k)
    {
      RowSumAt(n, term, k);
      EquationTerm(a, n, f, i, j, k);
    }
    OwnAt(f, i, j);
    CollectTerms(n, RowSums(n, term), Own(f, i, j), Products(Column(a, i), v), i);
    DotIsSum(row, flat);
    DotIsSum(Column(a, i), v);
    SquareLength(n);
    assert |Column(a, i)| == |a|;
    assert |a| == n by { MatrixLength(a, n); }
  }

  lemma MatrixLength(a: Matrix, n: nat)
    requires IsMatrix(a, n, n)
    ensures |a| == n
  {
  }

  lemma OwnAt(f: Matrix, i: nat, j: nat)
    ensures Own(f, i, j)(i) == Entry(f, i, j)
    ensures forall k: nat | k != i :: Own(f, i, j)(k) == 0.0
  {
  }

  lemma DotIsSum(a: Vector, b: Vector)
    ensures Dot(a, b) == Sum(|a|, Products(a, b))
  {
  }

  lemma SquareLength(n: nat)
    ensures Position(n, n, 0) == n * n
  {
  }

  lemma EquationProduct(a: Matrix, n: nat, flat: Vector, i: nat, j: nat, k: nat, l: nat)
    requires |flat| == n * n && k < n && l < n
    ensures Products(EquationRow(a, n, i, j), flat)(Position(k, n, l)) == Terms(a, Arranged(flat, n), i, j)(k, l)
  {
    hide Coefficient, Position, EquationRow;
    EquationRowAt(a, n, i, j, k, l);
  }

  lemma CollectTerms(n: nat, h: nat -> real, own: nat -> real, g: nat -> real, i: nat)
    requires i < n && forall k: nat | k < n && k != i :: own(k) == 0.0
    requires forall k: nat | k < n :: h(k) == own(k) + -1.0 * g(k)
    ensures Sum(n, h) == own(i) - Sum(n, g)
  {
    SumLinear(n, h, own, -1.0, g);
    SumSingle(n, own, i);
  }

  lemma EquationTerm(a: Matrix, n: nat, f: Matrix, i: nat, j: nat, k: nat)
    requires IsMatrix(a, n, n) && IsMatrix(f, n, n) && i < n && j < n && k < n
    ensures Sum(n, RowOf(Terms(a, f, i, j), k)) ==
            Own(f, i, j)(k) + -1.0 * Products(Column(a, i), MatVec(f, Column(a, j)))(k)
  {
    var column, s := Column(a, j), Entry(a, k, i);
    var g, row, own := Products(f[k], column), RowOf(Terms(a, f, i, j), k), DeltaRow(f, k, i, j);
    forall l: nat | l < n ensures row(l) == own(l) + -s * g(l) {
      RowTerm(a, n, f, i, j, k, l);
    }
    hide *;
    SumLinear(n, row, own, -s, g);
    DeltaSum(n, f, k, i, j);
    ProductValue(a, n, f, i, j, k);
    DotIsSum(f[k], column);
    NegatedProduct(s, Dot(f[k], column));
    assert |f[k]| == n by { RowLength(f, n, k); }
  }

  lemma RowLength(f: Matrix, n: nat, k: nat)
    requires IsMatrix(f, n, n) && k < n
    ensures |f[k]| == n
  {
  }

  lemma RowTerm(a: Matrix, n: nat, f: Matrix, i: nat, j: nat, k: nat, l: nat)
    requires IsMatrix(a, n, n) && IsMatrix(f, n, n) && i < n && j < n && k < n && l < n
    ensures RowOf(Terms(a, f, i, j), k)(l) ==
            DeltaRow(f, k, i, j)(l) + -Entry(a, k, i) * Products(f[k], Column(a, j))(l)
  {
    hide Delta;
    TermSplits(Delta(k, i, l, j), Entry(a, k, i), Entry(a, l, j), Entry(f, k, l), Coefficient(a, i, j, k, l));
  }

  lemma ProductValue(a: Matrix, n: nat, f: Matrix, i: nat, j: nat, k: nat)
    requires IsMatrix(a, n, n) && IsMatrix(f, n, n) && i < n && j < n && k < n
    ensures Products(Column(a, i), MatVec(f, Column(a, j)))(k) == Entry(a, k, i) * Dot(f[k], Column(a, j))
  {
    hide Dot;
  }

  lemma NegatedProduct(s: real, d: real)
    ensures -s * d == -1.0 * (s * d)
  {
  }

  function DeltaRow(f: Matrix, k: nat, i: nat, j: nat): nat -> real {
    (l: nat) => Delta(k, i, l, j) * Entry(f, k, l)
  }

  lemma DeltaSum(n: nat, f: Matrix, k: nat, i: nat, j: nat)
    requires i < n && j < n
    ensures Sum(n, DeltaRow(f, k, i, j)) == Own(f, i, j)(k)
  {
    if k == i {
      SumSingle(n, DeltaRow(f, k, i, j), j);
    } else {
      SumZero(n, DeltaRow(f, k, i, j));
    }
  }

  lemma TermSplits(d: real, s: real, t: real, f: real, e: real)
    requires e == d - s * t
    ensures e * f == d * f + -s * (f * t)
  {
  }

  // ----- Solving it -----

  /** The equations in the order of their unknowns. */
  function Equations(a: Matrix, n: nat): (r: Matrix)
    ensures IsMatrix(r, n * n, n * n)
  {
    seq(n * n, q requires 0 <= q < n * n => RowAndColumn(q, n, n); EquationRow(a, n, q / n, q % n))
  }

  function Targets(c: Vector, n: nat): (r: Vector)
    ensures |r| == n * n
  {
    seq(n * n, q requires 0 <= q < n * n => RowAndColumn(q, n, n); At(c, q / n) * At(c, q % n))
  }

  lemma EquationAt(a: Matrix, c: Vector, n: nat, flat: Vector, i: nat, j: nat)
    requires IsMatrix(a, n, n) && |flat| == n * n && i < n && j < n
    ensures var f, q := Arranged(flat, n), Position(i, n, j);
      && q < n * n && Equations(a, n)[q] == EquationRow(a, n, i, j) && Targets(c, n)[q] == At(c, i) * At(c, j)
      && (MatVec(Equations(a, n), flat)[q] == Targets(c, n)[q] <==> Balances(f, a, c, i, j))
  {
    PositionInverse(i, n, j, n);
    hide Position, EquationRow, Arranged, Dot, Entry, Column, At;
    EquationMeans(a, n, flat, i, j);
  }

  /** The flat system is the Lyapunov equation. */
  lemma EquationsMean(a: Matrix, c: Vector, n: nat, flat: Vector)
    requires IsMatrix(a, n, n) && |flat| == n * n
    ensures MatVec(Equations(a, n), flat) == Targets(c, n) <==> Lyapunov(Arranged(flat, n), a, c, n)
  {
    hide Equations, Targets, Arranged, Balances, Position, MatVec;
    var f, left, right := Arranged(flat, n), MatVec(Equations(a, n), flat), Targets(c, n);
    forall i: nat, j: nat | i < n && j < n
      ensures Position(i, n, j) < n * n
      ensures left[Position(i, n, j)] == right[Position(i, n, j)] <==> Balances(f, a, c, i, j)
    {
      EquationAt(a, c, n, flat, i, j);
    }
    if Lyapunov(f, a, c, n) {
      forall q | 0 <= q < n * n ensures left[q] == right[q] {
        RowAndColumn(q, n, n);
        assert Balances(f, a, c, q / n, q % n);
      }
    }
  }

  function Flattened(p: Matrix, n: nat): (r: Vector)
    ensures |r| == n * n
  {
    seq(n * n, q requires 0 <= q < n * n => RowAndColumn(q, n, n); Entry(p, q / n, q % n))
  }

  lemma ArrangeFlattened(p: Matrix, n: nat)
    requires IsMatrix(p, n, n)
    ensures Arranged(Flattened(p, n), n) == p
  {
    forall i, j | 0 <= i < n && 0 <= j < n ensures Arranged(Flattened(p, n), n)[i][j] == p[i][j] {
      hide Position;
      PositionInverse(i, n, j, n);
    }
    assert forall i | 0 <= i < n :: Arranged(Flattened(p, n), n)[i] == p[i];
  }

  /** If the flat system has one solution, so has the Lyapunov equation. */
  lemma OnlyGramian(a: Matrix, c: Vector, n: nat, flat: Vector, p: Matrix)
    requires IsMatrix(a, n, n) && |flat| == n * n && OnlySolution(Equations(a, n), Targets(c, n), flat)
    requires Lyapunov(p, a, c, n)
    ensures p == Arranged(flat, n)
  {
    hide Equations, Targets, Arranged, Balances, MatVec, Flattened;
    ArrangeFlattened(p, n);
    EquationsMean(a, c, n, Flattened(p, n));
  }

  lemma TransposeBalances(p: Matrix, a: Matrix, c: Vector, n: nat)
    requires IsMatrix(a, n, n) && Lyapunov(p, a, c, n)
    ensures Lyapunov(Transpose(p, n), a, c, n)
  {
    var t := Transpose(p, n);
    forall i: nat, j: nat | i < n && j < n ensures Balances(t, a, c, i, j) {
      assert Balances(p, a, c, j, i);
      hide Sum, Dot, MatVec;
      var u, v := Column(a, i), Column(a, j);
      Adjoint(p, n, u, v);
      DotCommutes(MatVec(t, v), u);
    }
  }

  ghost predicate Symmetric(p: Matrix, n: nat) {
    IsMatrix(p, n, n) && Transpose(p, n) == p
  }

  lemma SymmetricEntries(p: Matrix, n: nat, i: nat, j: nat)
    requires Symmetric(p, n) && i < n && j < n
    ensures Entry(p, i, j) == Entry(p, j, i)
  {
    assert Transpose(p, n)[i][j] == p[j][i];
  }

  /** The average of the arranged solution and its transpose. */
  function Averaged(flat: Vector, n: nat): (r: Matrix)
    ensures IsMatrix(r, n, n)
  {
    seq(n, i requires 0 <= i < n => seq(n, j requires 0 <= j < n =>
      0.5 * (At(flat, Position(i, n, j)) + At(flat, Position(j, n, i)))))
  }

  /** The equation has one solution, so the solution is its own transpose and averaging keeps it. */
  lemma AverageKeeps(a: Matrix, c: Vector, n: nat, flat: Vector)
    requires IsMatrix(a, n, n) && |flat| == n * n && OnlySolution(Equations(a, n), Targets(c, n), flat)
    ensures Averaged(flat, n) == Arranged(flat, n)
    ensures Symmetric(Averaged(flat, n), n) && Lyapunov(Averaged(flat, n), a, c, n)
  {
    var f := Arranged(flat, n);
    assert Lyapunov(f, a, c, n) && Transpose(f, n) == f by {
      hide Equations, Targets, Arranged, Balances, MatVec;
      EquationsMean(a, c, n, flat);
      TransposeBalances(f, a, c, n);
      OnlyGramian(a, c, n, flat, Transpose(f, n));
    }
    hide Position, Equations, Targets, Lyapunov, OnlySolution;
    var g := Averaged(flat, n);
    forall i, j | 0 <= i < n && 0 <= j < n ensures g[i][j] == f[i][j] {
      SymmetricEntries(f, n, i, j);
    }
    assert forall i | 0 <= i < n :: g[i] == f[i];
  }

  /** P solves P - A'PA = cc', is symmetric, and nothing else solves it; or the flat system collapses. */
  method ObservabilityGramian(a: Matrix, c: Vector) returns (r: Result<Matrix, SolveError>)
    requires IsMatrix(a, |c|, |c|)
    ensures r.Ok? ==> Symmetric(r.value, |c|)
    ensures r.Ok? ==> forall p: Matrix :: Lyapunov(p, a, c, |c|) <==> p == r.value
    ensures r.Err? <==> Collapses(Equations(a, |c|), Targets(c, |c|))
  {
    hide Equations, Targets, Averaged, Arranged, Lyapunov, Symmetric, Collapses;
    var n := |c|;
    var equation, rhs := BuildEquations(a, c);
    var flat := Solve(equation, rhs);
    if flat.Err? {
      return Err(flat.error);
    }
    AverageKeeps(a, c, n, flat.value);
    forall p: Matrix | Lyapunov(p, a, c, n) ensures p == Averaged(flat.value, n) {
      OnlyGramian(a, c, n, flat.value, p);
    }
    r := Ok(Averaged(flat.value, n));
  }

  method BuildEquations(a: Matrix, c: Vector) returns (equation: Matrix, rhs: Vector)
    requires IsMatrix(a, |c|, |c|)
    ensures equation == Equations(a, |c|) && rhs == Targets(c, |c|)
  {
    hide *;
    var n := |c|;
    equation, rhs := [], [];
    PositionZero(n);
    SquareLength(n);
    EquationsLength(a, n);
    for i := 0 to n
      invariant |equation| == |rhs| == Position(i, n, 0) <= n * n
      invariant equation == Equations(a, n)[..|equation|] && rhs == Targets(c, n)[..|rhs|]
    {
      PositionSteps(i, n, n);
      for j := 0 to n
        invariant |equation| == |rhs| == Position(i, n, j) <= n * n
        invariant equation == Equations(a, n)[..|equation|] && rhs == Targets(c, n)[..|rhs|]
      {
        NextPosition(i, n, j);
        var row := EquationRowOf(a, n, i, j);
        var target := c[i] * c[j];
        EquationAtPosition(a, c, n, i, j, target);
        equation, rhs := equation + [row], rhs + [target];
      }
    }
    assert equation == Equations(a, n) && rhs == Targets(c, n);
  }

  lemma EquationsLength(a: Matrix, n: nat)
    ensures |Equations(a, n)| == n * n
  {
  }

  lemma EquationAtPosition(a: Matrix, c: Vector, n: nat, i: nat, j: nat, target: real)
    requires IsMatrix(a, n, n) && |c| == n && i < n && j < n && target == c[i] * c[j]
    ensures var q := Position(i, n, j);
      q < |Equations(a, n)| == n * n && Equations(a, n)[q] == EquationRow(a, n, i, j) && Targets(c, n)[q] == target
  {
    hide Position, EquationRow;
    EquationAt(a, c, n, Zeros(n * n), i, j);
  }

  lemma PositionZero(n: nat)
    ensures Position(0, n, 0) == 0 <= n * n
  {
  }

  lemma NextPosition(i: nat, n: nat, j: nat)
    requires i < n && j < n
    ensures Position(i, n, j + 1) == Position(i, n, j) + 1 <= n * n
  {
    PositionInverse(i, n, j, n);
  }

  method EquationRowOf(a: Matrix, n: nat, i: nat, j: nat) returns (row: Vector)
    requires IsMatrix(a, n, n) && i < n && j < n
    ensures row == EquationRow(a, n, i, j)
  {
    hide *;
    row := [];
    PositionZero(n);
    SquareLength(n);
    for k := 0 to n
      invariant |row| == Position(k, n, 0) <= n * n && row == EquationRow(a, n, i, j)[..|row|]
    {
      PositionSteps(k, n, n);
      for ell := 0 to n
        invariant |row| == Position(k, n, ell) <= n * n && row == EquationRow(a, n, i, j)[..|row|]
      {
        NextPosition(k, n, ell);
        EquationRowAt(a, n, i, j, k, ell);
        row := row + [Coefficient(a, i, j, k, ell)];
      }
    }
    assert row == EquationRow(a, n, i, j);
  }
}
