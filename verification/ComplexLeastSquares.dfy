/** The least-squares answers computed from the Gram-Schmidt factors (tools/gen_crfb.py). */
module ComplexLeastSquares {
  import opened Wrappers
  import opened ComplexNumbers
  import opened ComplexLinear
  import opened GramSchmidt
  import Linear

  /** b less A x. */
  function Residual(cols: CMatrix, n: nat, x: CVector, b: CVector): (r: CVector)
    ensures |r| == |b|
  {
    CCombine(b, MINUS_ONE, LinComb(n, cols, x, |b|))
  }

  /** The residual is orthogonal to every column, and every other answer leaves a longer one. */
  ghost predicate BestAnswer(cols: CMatrix, n: nat, b: CVector, x: CVector)
    requires n <= |cols|
  {
    && |x| == n
    && (forall j: nat | j < n :: Inner(cols[j], Residual(cols, n, x, b)) == ZERO)
    && forall y: CVector {:trigger Residual(cols, n, y, b)} | |y| == n && y != x ::
         NormSquared(Residual(cols, n, x, b)) < NormSquared(Residual(cols, n, y, b))
  }

  function ResidualSquares(cols: CMatrix, n: nat, x: CMatrix, b: CMatrix): nat -> real {
    (k: nat) => NormSquared(Residual(cols, n, MatColumn(x, k), MatColumn(b, k)))
  }

  /** For any number of right-hand sides: fails exactly on a shape mismatch or a column within the tolerance
      of the span of those before it, and otherwise every answer is the best. */
  method DeterministicComplexLstsq(a: CMatrix, b: CMatrix, rows: nat, columns: nat, rhsColumns: nat,
                                   sqrt: real -> real)
    returns (result: Result<Solution, LstsqError>)
    requires IsCMatrix(a, rows, columns) && IsCMatrix(b, |b|, rhsColumns) && Linear.SquareRoot(sqrt)
    ensures result == Err(ShapeMismatch) <==> |b| != rows
    ensures |b| == rows ==> (result == Err(RankDeficient) <==> NearlyDependent(ColumnsOf(a, columns), columns))
    ensures result.Ok? ==> IsCMatrix(result.value.x, columns, rhsColumns) && result.value.rank == columns
    ensures result.Ok? ==> forall k: nat | k < rhsColumns ::
      BestAnswer(ColumnsOf(a, columns), columns, MatColumn(b, k), MatColumn(result.value.x, k))
    ensures result.Ok? ==>
      result.value.residual == Linear.Sum(rhsColumns, ResidualSquares(ColumnsOf(a, columns), columns, result.value.x, b))
  {
    hide Factored, NearlyDependent, BestAnswer, ColumnsOf, MatColumn, Linear.SquareRoot, Linear.Sum;
    if |b| != rows {
      return Err(ShapeMismatch);
    }
    var factors := Factorize(a, rows, columns, sqrt);
    if factors.Err? {
      return Err(factors.error);
    }
    ghost var cols := ColumnsOf(a, columns);
    var q, r := factors.value.q, factors.value.r;
    FactoredShape(cols, q, r, rows, columns);
    var projected := Project(q, b, rows, columns, rhsColumns);
    var answers: CMatrix := [];
    for k := 0 to rhsColumns
      invariant IsCMatrix(answers, k, columns)
      invariant forall j: nat | j < k :: BestAnswer(cols, columns, MatColumn(b, j), answers[j])
    {
      var x := BackSubstitute(r, columns, MatColumn(projected, k));
      ProjectedColumn(q, b, projected, rows, columns, rhsColumns, k);
      AnswerIsBest(cols, q, r, rows, columns, MatColumn(b, k), x);
      answers := answers + [x];
    }
    FactoredIsIndependent(cols, q, r, rows, columns);
    var solution := Turned(answers, columns);
    TurnedColumns(answers, columns, rhsColumns);
    var residual := Linear.Sum(rhsColumns, ResidualSquares(ColumnsOf(a, columns), columns, solution, b));
    result := Ok(Solution(solution, residual, columns));
  }

  function Turned(answers: CMatrix, n: nat): (r: CMatrix)
    ensures IsCMatrix(r, n, |answers|)
  {
    seq(n, i requires 0 <= i < n => MatColumn(answers, i))
  }

  lemma TurnedColumns(answers: CMatrix, n: nat, m: nat)
    requires IsCMatrix(answers, m, n)
    ensures forall k: nat | k < m :: MatColumn(Turned(answers, n), k) == answers[k]
  {
    forall k: nat | k < m ensures MatColumn(Turned(answers, n), k) == answers[k] {
    }
  }

  lemma FactoredShape(cols: CMatrix, q: CMatrix, r: CMatrix, rows: nat, n: nat)
    requires Factored(cols, q, r, rows, n)
    ensures |cols| == n && IsCMatrix(q, n, rows) && IsCMatrix(r, n, n) && Columns(cols, n, rows)
    ensures ZeroOutside(r, n, n, 0) && WeightyDiagonal(r, n, n) && Orthonormal(q, n) && Rebuilds(cols, q, r, rows, n)
  {
    hide ZeroOutside, WeightyDiagonal, Orthonormal, Rebuilds;
  }

  /** Entry (i, k) is the inner product of q[i] and right-hand side k. */
  method Project(q: CMatrix, b: CMatrix, rows: nat, columns: nat, rhsColumns: nat) returns (projected: CMatrix)
    requires IsCMatrix(q, columns, rows) && IsCMatrix(b, rows, rhsColumns)
    ensures IsCMatrix(projected, columns, rhsColumns)
    ensures forall i: nat, k: nat | i < columns && k < rhsColumns :: projected[i][k] == Inner(q[i], MatColumn(b, k))
  {
    hide Inner, MatColumn;
    projected := [];
    for column := 0 to columns
      invariant IsCMatrix(projected, column, rhsColumns)
      invariant forall i: nat, k: nat | i < column && k < rhsColumns ::
        projected[i][k] == Inner(q[i], MatColumn(b, k))
    {
      var line: CVector := [];
      for rhsColumn := 0 to rhsColumns
        invariant |line| == rhsColumn
        invariant forall k: nat | k < rhsColumn :: line[k] == Inner(q[column], MatColumn(b, k))
      {
        var value := InnerProduct(q[column], MatColumn(b, rhsColumn));
        line := line + [value];
      }
      projected := projected + [line];
    }
  }

  lemma ProjectedColumn(q: CMatrix, b: CMatrix, projected: CMatrix, rows: nat, n: nat, m: nat, k: nat)
    requires IsCMatrix(q, n, rows) && IsCMatrix(b, rows, m) && IsCMatrix(projected, n, m) && k < m
    requires forall i: nat, k: nat | i < n && k < m :: projected[i][k] == Inner(q[i], MatColumn(b, k))
    ensures forall i: nat | i < n :: MatColumn(projected, k)[i] == Inner(q[i], MatColumn(b, k))
  {
    hide Inner;
  }

  // ----- Back substitution -----

  function CBasis(n: nat, k: nat): (r: CVector)
    ensures |r| == n
  {
    seq(n, i => if i == k then ONE else ZERO)
  }

  /** Setting a zero entry adds one product. */
  lemma CDotSet(a: CVector, x: CVector, k: nat, v: Complex)
    requires k < |a| == |x| && x[k] == ZERO
    ensures CDot(a, x[k := v]) == Add(CDot(a, x), Mul(v, a[k]))
  {
    var e := CBasis(|a|, k);
    assert x[k := v] == CCombine(x, v, e) by {
      hide Add, Mul;
      forall i | 0 <= i < |x| ensures x[k := v][i] == CCombine(x, v, e)[i] {
        MulUnits(v);
        AddZero(x[i]);
        AddZero(v);
      }
    }
    CDotCombine(a, x, v, e);
    CDotBasis(a, k);
  }

  lemma CDotBasis(a: CVector, k: nat)
    requires k < |a|
    ensures CDot(a, CBasis(|a|, k)) == a[k]
  {
    hide Mul, Add;
    var f := CProducts(a, CBasis(|a|, k));
    forall j: nat | j < |a| ensures f(j) == if j == k then a[k] else ZERO {
      MulUnits(a[j]);
    }
    CSumSingle(|a|, f, k);
  }

  /** Solves the upper triangular system. */
  method BackSubstitute(r: CMatrix, n: nat, p: CVector) returns (x: CVector)
    requires IsCMatrix(r, n, n) && |p| == n && ZeroOutside(r, n, n, 0) && WeightyDiagonal(r, n, n)
    ensures |x| == n && forall i: nat | i < n :: CDot(r[i], x) == p[i]
  {
    hide CDot, CSum, CProducts, Add, Mul, Sub, Div, NormSq, ZeroOutside, WeightyDiagonal;
    x := CZeros(n);
    var row := n;
    while row > 0
      invariant row <= n == |x|
      invariant forall j: nat | j < row :: x[j] == ZERO
      invariant forall i: nat | row <= i < n :: CDot(r[i], x) == p[i]
    {
      row := row - 1;
      var value := p[row];
      LeadingZeros(r[row], x, row + 1, value);
      for column := row + 1 to n
        invariant value == Sub(p[row], CSum(column, CProducts(r[row], x)))
      {
        NextProduct(r[row], x, column, p[row]);
        value := Sub(value, Mul(r[row][column], x[column]));
      }
      UsableDiagonal(r, n, row);
      ghost var before := x;
      var entry := Div(value, r[row][row]);
      x := x[row := entry];
      RowSolved(r[row], before, row, n, value, entry, p[row]);
      forall i: nat | row < i < n ensures CDot(r[i], x) == p[i] {
        RowKept(r, n, before, row, i, entry);
      }
    }
  }

  lemma LeadingZeros(a: CVector, x: CVector, k: nat, value: Complex)
    requires k <= |a| == |x| && forall j: nat | j < k :: x[j] == ZERO
    ensures value == Sub(value, CSum(k, CProducts(a, x)))
  {
    forall j: nat | j < k ensures CProducts(a, x)(j) == ZERO {
      hide Mul;
      MulUnits(a[j]);
    }
    CSumZero(k, CProducts(a, x));
  }

  lemma NextProduct(a: CVector, x: CVector, k: nat, p: Complex)
    requires k < |a| == |x|
    ensures Sub(Sub(p, CSum(k, CProducts(a, x))), Mul(a[k], x[k])) == Sub(p, CSum(k + 1, CProducts(a, x)))
  {
    hide Mul;
  }

  lemma UsableDiagonal(r: CMatrix, n: nat, k: nat)
    requires IsCMatrix(r, n, n) && k < n && WeightyDiagonal(r, n, n)
    ensures NormSq(r[k][k]) != 0.0
  {
    NonZeroDiagonal(r[k][k]);
  }

  lemma RowSolved(a: CVector, x: CVector, k: nat, n: nat, value: Complex, entry: Complex, p: Complex)
    requires k < |a| == |x| == n && x[k] == ZERO && NormSq(a[k]) != 0.0
    requires value == Sub(p, CSum(n, CProducts(a, x))) && entry == Div(value, a[k])
    ensures CDot(a, x[k := entry]) == p
  {
    hide CSum, Mul, Div, NormSq;
    CDotSet(a, x, k, entry);
    DivMul(value, a[k]);
  }

  lemma RowKept(r: CMatrix, n: nat, x: CVector, k: nat, i: nat, entry: Complex)
    requires IsCMatrix(r, n, n) && |x| == n && k < i < n && x[k] == ZERO && ZeroOutside(r, n, n, 0)
    ensures CDot(r[i], x[k := entry]) == CDot(r[i], x)
  {
    assert r[i][k] == ZERO;
    hide *;
    CDotSet(r[i], x, k, entry);
    MulUnits(entry);
    AddZero(CDot(r[i], x));
  }

  /** An upper triangular matrix with a nonzero diagonal annihilates only zero. */
  lemma UpperIsRegular(r: CMatrix, n: nat, z: CVector)
    requires IsCMatrix(r, n, n) && |z| == n && ZeroOutside(r, n, n, 0) && WeightyDiagonal(r, n, n)
    requires forall i: nat | i < n :: CDot(r[i], z) == ZERO
    ensures z == CZeros(n)
  {
    var k := n;
    while k > 0
      invariant k <= n && forall i: nat | k <= i < n :: z[i] == ZERO
    {
      k := k - 1;
      LastUnknown(r, n, z, k);
    }
  }

  lemma LastUnknown(r: CMatrix, n: nat, z: CVector, k: nat)
    requires IsCMatrix(r, n, n) && |z| == n && k < n && ZeroOutside(r, n, n, 0) && WeightyDiagonal(r, n, n)
    requires CDot(r[k], z) == ZERO && forall i: nat | k < i < n :: z[i] == ZERO
    ensures z[k] == ZERO
  {
    var f := CProducts(r[k], z);
    forall j: nat | j < n && j != k ensures f(j) == ZERO {
      assert j < k ==> r[k][j] == ZERO;
      hide Mul;
      MulUnits(r[k][j]);
      MulUnits(z[j]);
    }
    CSumSingle(n, f, k);
    assert r[k][k] == Complex(r[k][k].re, 0.0);
    ToleranceIsPositive();
    RealFactor(r[k][k].re, z[k]);
  }

  // ----- Why the answer is best -----

  /** The entries of r are the inner products of the orthonormal vectors with the columns. */
  lemma FactorEntries(cols: CMatrix, q: CMatrix, r: CMatrix, rows: nat, n: nat, i: nat, j: nat)
    requires Factored(cols, q, r, rows, n) && i < n && j < n
    ensures |q| == |cols| == |r| == n && |r[i]| == n && Inner(q[i], cols[j]) == r[i][j]
  {
    FactoredShape(cols, q, r, rows, n);
    var column := MatColumn(r, j);
    assert cols[j] == LinComb(j + 1, q, column, rows);
    var f := Inners(q[i], q, column);
    InnerLinComb(q[i], j + 1, q, column);
    forall p: nat | p <= j ensures f(p) == if p == i then column[i] else ZERO {
      assert Inner(q[i], q[p]) == if i == p then ONE else ZERO;
      hide *;
      InnersAt(q[i], q, column, p);
      MulUnits(column[p]);
    }
    hide LinComb, Inners, Inner;
    if i <= j {
      CSumSingle(j + 1, f, i);
    } else {
      CSumZero(j + 1, f);
    }
  }

  lemma InnersAt(q: CVector, vs: CMatrix, z: CVector, p: nat)
    requires p < |vs| && p < |z|
    ensures Inners(q, vs, z)(p) == Mul(z[p], Inner(q, vs[p]))
  {
  }

  /** The i-th orthonormal vector sees of A x what row i of r does to x. */
  lemma ImageThroughFactor(cols: CMatrix, q: CMatrix, r: CMatrix, rows: nat, n: nat, x: CVector, i: nat)
    requires Factored(cols, q, r, rows, n) && |x| == n && i < n
    ensures |q| == |r| == n && Inner(q[i], LinComb(n, cols, x, rows)) == CDot(r[i], x)
  {
    FactoredShape(cols, q, r, rows, n);
    hide Factored, Inner, LinComb, Orthonormal, Rebuilds, ZeroOutside, WeightyDiagonal, Mul, CSum;
    InnerLinComb(q[i], n, cols, x);
    forall j: nat | j < n ensures Inners(q[i], cols, x)(j) == CProducts(r[i], x)(j) {
      FactorEntries(cols, q, r, rows, n, i, j);
      MulComm(x[j], r[i][j]);
    }
    CSumEqual(n, Inners(q[i], cols, x), CProducts(r[i], x));
  }

  lemma AnswerIsOrthogonal(cols: CMatrix, q: CMatrix, r: CMatrix, rows: nat, n: nat, b: CVector, x: CVector, j: nat)
    requires Factored(cols, q, r, rows, n) && |x| == n && |b| == rows && j < n && |q| == |r| == |cols| == n
    requires forall i: nat | i < n :: CDot(r[i], x) == Inner(q[i], b)
    ensures |cols[j]| == rows && Inner(Residual(cols, n, x, b), cols[j]) == ZERO
  {
    FactoredShape(cols, q, r, rows, n);
    var rest := Residual(cols, n, x, b);
    assert cols[j] == LinComb(j + 1, q, MatColumn(r, j), rows);
    hide Factored, Inner, LinComb, Orthonormal, Rebuilds, ZeroOutside, WeightyDiagonal, Residual, CDot;
    forall i: nat | i < n ensures Inner(rest, q[i]) == ZERO {
      SeesNothing(cols, q, r, rows, n, b, x, i);
    }
    OrthogonalToSpan(rest, j + 1, q, MatColumn(r, j));
  }

  lemma SeesNothing(cols: CMatrix, q: CMatrix, r: CMatrix, rows: nat, n: nat, b: CVector, x: CVector, i: nat)
    requires Factored(cols, q, r, rows, n) && |x| == n && |b| == rows && i < n && |q| == |r| == |cols| == n
    requires CDot(r[i], x) == Inner(q[i], b)
    ensures |q[i]| == rows && Inner(Residual(cols, n, x, b), q[i]) == ZERO
  {
    FactoredShape(cols, q, r, rows, n);
    hide Factored, Inner, LinComb, Orthonormal, Rebuilds, ZeroOutside, WeightyDiagonal, CDot, CCombine;
    ImageThroughFactor(cols, q, r, rows, n, x, i);
    InnerCombine(q[i], b, MINUS_ONE, LinComb(n, cols, x, rows));
    LessItself(Inner(q[i], b));
    InnerConjugate(Residual(cols, n, x, b), q[i]);
  }

  lemma LessItself(a: Complex)
    ensures Add(a, Mul(MINUS_ONE, a)) == ZERO
  {
  }

  lemma AnswerIsBest(cols: CMatrix, q: CMatrix, r: CMatrix, rows: nat, n: nat, b: CVector, x: CVector)
    requires Factored(cols, q, r, rows, n) && |x| == n && |b| == rows && |q| == |r| == |cols| == n
    requires forall i: nat | i < n :: CDot(r[i], x) == Inner(q[i], b)
    ensures BestAnswer(cols, n, b, x)
  {
    hide Factored, Inner, Residual, NormSquared, CDot;
    FactoredShape(cols, q, r, rows, n);
    forall j: nat | j < n
      ensures Inner(Residual(cols, n, x, b), cols[j]) == ZERO && Inner(cols[j], Residual(cols, n, x, b)) == ZERO
    {
      AnswerIsOrthogonal(cols, q, r, rows, n, b, x, j);
      InnerConjugate(cols[j], Residual(cols, n, x, b));
    }
    forall y: CVector | |y| == n && y != x
      ensures NormSquared(Residual(cols, n, x, b)) < NormSquared(Residual(cols, n, y, b))
    {
      OthersAreLonger(cols, q, r, rows, n, b, x, y);
    }
  }

  lemma OthersAreLonger(cols: CMatrix, q: CMatrix, r: CMatrix, rows: nat, n: nat, b: CVector, x: CVector, y: CVector)
    requires Factored(cols, q, r, rows, n) && |x| == |y| == n && |b| == rows && |cols| == n && y != x
    requires Columns(cols, n, rows)
    requires forall j: nat | j < n :: Inner(Residual(cols, n, x, b), cols[j]) == ZERO
    ensures NormSquared(Residual(cols, n, x, b)) < NormSquared(Residual(cols, n, y, b))
  {
    var d := CCombine(y, MINUS_ONE, x);
    var u := LinComb(n, cols, d, rows);
    DifferenceMoves(cols, rows, n, b, x, y);
    NonZeroImage(cols, q, r, rows, n, d);
    assert d != CZeros(n) by {
      DifferenceIsNotZero(x, y);
    }
    hide Factored, Inner, NormSquared, LinComb, Residual, CCombine;
    OrthogonalToSpan(Residual(cols, n, x, b), n, cols, d);
    MinusOneIsUnit();
    Pythagoras(Residual(cols, n, x, b), MINUS_ONE, u);
    NormSquaredPositive(u);
  }

  lemma MinusOneIsUnit()
    ensures NormSq(MINUS_ONE) == 1.0
  {
  }

  lemma DifferenceIsNotZero(x: CVector, y: CVector)
    requires |x| == |y| && y != x
    ensures CCombine(y, MINUS_ONE, x) != CZeros(|x|)
  {
    var d := CCombine(y, MINUS_ONE, x);
    var k :| 0 <= k < |x| && x[k] != y[k];
    assert d[k] == Complex(y[k].re - x[k].re, y[k].im - x[k].im);
    assert d[k] != ZERO;
  }

  lemma DifferenceMoves(cols: CMatrix, rows: nat, n: nat, b: CVector, x: CVector, y: CVector)
    requires Columns(cols, n, rows) && |x| == |y| == n && |b| == rows
    ensures Residual(cols, n, y, b) ==
            CCombine(Residual(cols, n, x, b), MINUS_ONE, LinComb(n, cols, CCombine(y, MINUS_ONE, x), rows))
  {
    hide LinComb, Add, Mul;
    LinCombLinear(n, cols, y, MINUS_ONE, x, rows);
    var ly, lx := LinComb(n, cols, y, rows), LinComb(n, cols, x, rows);
    var left, right := Residual(cols, n, y, b), CCombine(Residual(cols, n, x, b), MINUS_ONE, CCombine(ly, MINUS_ONE, lx));
    forall i | 0 <= i < rows ensures left[i] == right[i] {
      DifferenceEntry(b[i], lx[i], ly[i]);
    }
    assert left == right;
  }

  lemma DifferenceEntry(b: Complex, x: Complex, y: Complex)
    ensures Add(b, Mul(MINUS_ONE, y)) == Add(Add(b, Mul(MINUS_ONE, x)), Mul(MINUS_ONE, Add(y, Mul(MINUS_ONE, x))))
  {
  }

  /** A factored matrix sends only zero to zero. */
  lemma NonZeroImage(cols: CMatrix, q: CMatrix, r: CMatrix, rows: nat, n: nat, d: CVector)
    requires Factored(cols, q, r, rows, n) && |d| == n
    ensures LinComb(n, cols, d, rows) == CZeros(rows) ==> d == CZeros(n)
  {
    if LinComb(n, cols, d, rows) == CZeros(rows) {
      FactoredShape(cols, q, r, rows, n);
      hide Factored, Inner, LinComb, Orthonormal, Rebuilds, ZeroOutside, WeightyDiagonal, CDot;
      forall i: nat | i < n ensures CDot(r[i], d) == ZERO {
        ImageThroughFactor(cols, q, r, rows, n, d, i);
        InnerZeros(q[i]);
      }
      UpperIsRegular(r, n, d);
    }
  }

  // ----- A factored matrix has no column near the span of the others -----

  lemma ScaledLength(p: Complex, q: CVector)
    requires Inner(q, q) == ONE
    ensures NormSquared(Scaled(p, q)) == NormSq(p)
  {
    hide Inner, NormSquared, Scaled, Mul, Conj, NormSq;
    var s := Scaled(p, q);
    InnerSelf(s);
    InnerScaled(s, p, q);
    InnerConjugate(s, q);
    InnerScaled(q, p, q);
    MulUnits(p);
    MulComm(p, Conj(p));
    ConjTimes(p);
  }

  /** The part of v along a unit vector is no longer than v. */
  lemma Bessel(q: CVector, v: CVector)
    requires |q| == |v| && Inner(q, q) == ONE
    ensures NormSquared(v) >= NormSq(Inner(q, v))
  {
    var p := Inner(q, v);
    var w, s := CCombine(v, Neg(p), q), Scaled(p, q);
    assert v == CCombine(w, ONE, s) by {
      hide Inner, Add, Mul, Neg;
      forall i | 0 <= i < |v| ensures v[i] == CCombine(w, ONE, s)[i] {
        PutBack(v[i], p, q[i]);
      }
    }
    hide Inner, NormSquared, Scaled, CCombine, NormSq, Mul, Add, Neg, Conj;
    InnerCombine(q, v, Neg(p), q);
    MulUnits(Neg(p));
    AddNeg(p, p);
    SelfDifference(p);
    InnerScaled(w, p, q);
    InnerConjugate(w, q);
    ConjugateReal(0.0);
    MulUnits(p);
    OneIsUnit();
    Pythagoras(w, ONE, s);
    NormSquaredPositive(w);
    ScaledLength(p, q);
  }

  lemma PutBack(v: Complex, p: Complex, q: Complex)
    ensures v == Add(Add(v, Mul(Neg(p), q)), Mul(ONE, Mul(p, q)))
  {
    hide Mul;
    MulNeg(p, q);
    MulUnits(Mul(p, q));
  }

  lemma FactoredIsIndependent(cols: CMatrix, q: CMatrix, r: CMatrix, rows: nat, n: nat)
    requires Factored(cols, q, r, rows, n)
    ensures n <= |cols| && !NearlyDependent(cols, n)
  {
    FactoredShape(cols, q, r, rows, n);
    forall c: nat, z: CVector | c < n && |z| == n
      ensures NormSquared(Leftover(cols, c, z)) > Linear.Square(TOLERANCE)
    {
      LeftoverIsLong(cols, q, r, rows, n, c, z);
    }
  }

  lemma LeftoverIsLong(cols: CMatrix, q: CMatrix, r: CMatrix, rows: nat, n: nat, c: nat, z: CVector)
    requires Factored(cols, q, r, rows, n) && c < n && |z| == n && |cols| == n
    ensures NormSquared(Leftover(cols, c, z)) > Linear.Square(TOLERANCE)
  {
    FactoredShape(cols, q, r, rows, n);
    var d := r[c][c];
    assert d.re > TOLERANCE && d == Complex(d.re, 0.0);
    assert Inner(q[c], q[c]) == ONE;
    assert forall k: nat | k < c :: r[c][k] == ZERO;
    hide Factored, Orthonormal, Rebuilds, ZeroOutside, WeightyDiagonal, Inner, NormSquared, Mul, LinComb;
    var v, l := Leftover(cols, c, z), LinComb(c, cols, z, rows);
    FactorEntries(cols, q, r, rows, n, c, c);
    forall k | 0 <= k < c ensures Inner(q[c], cols[k]) == ZERO {
      FactorEntries(cols, q, r, rows, n, c, k);
    }
    OrthogonalToSpan(q[c], c, cols, z);
    InnerCombine(q[c], cols[c], MINUS_ONE, l);
    MulUnits(MINUS_ONE);
    AddZero(d);
    Bessel(q[c], v);
    DiagonalSquare(d);
  }

  lemma DiagonalSquare(d: Complex)
    requires d.re > TOLERANCE && d.im == 0.0
    ensures NormSq(d) > Linear.Square(TOLERANCE)
  {
    ToleranceIsPositive();
    var gap := d.re - TOLERANCE;
    assert d.re * d.re == TOLERANCE * TOLERANCE + gap * (d.re + TOLERANCE);
    Linear.PositiveProduct(gap, d.re + TOLERANCE, gap * (d.re + TOLERANCE));
  }

  // ----- Full rank alone does not suffice -----

  /** A single column of length 1e-16 is independent, and refused. */
  lemma FullRankIsNotEnough()
    ensures var a: CMatrix := [[Complex(1.0 / 10_000_000_000_000_000.0, 0.0)]];
      && (forall z: CVector | |z| == 1 && LinComb(1, ColumnsOf(a, 1), z, 1) == CZeros(1) :: z == CZeros(1))
      && NearlyDependent(ColumnsOf(a, 1), 1)
  {
    var tiny := 1.0 / 10_000_000_000_000_000.0;
    var a: CMatrix := [[Complex(tiny, 0.0)]];
    var cols := ColumnsOf(a, 1);
    assert cols[0] == [Complex(tiny, 0.0)];
    TinyIsIndependent(cols, tiny);
    TinyIsShort(cols, tiny);
  }

  lemma TinyIsIndependent(cols: CMatrix, tiny: real)
    requires |cols| == 1 && cols[0] == [Complex(tiny, 0.0)] && tiny != 0.0
    ensures forall z: CVector | |z| == 1 && LinComb(1, cols, z, 1) == CZeros(1) :: z == CZeros(1)
  {
    forall z: CVector | |z| == 1 && LinComb(1, cols, z, 1) == CZeros(1) ensures z == CZeros(1) {
      OneColumn(cols, z, tiny);
      assert CZeros(1)[0] == ZERO;
      hide Mul, LinComb;
      MulComm(z[0], Complex(tiny, 0.0));
      RealFactor(tiny, z[0]);
    }
  }

  lemma TinyIsShort(cols: CMatrix, tiny: real)
    requires |cols| == 1 && cols[0] == [Complex(tiny, 0.0)] && 0.0 <= tiny <= TOLERANCE
    ensures NearlyDependent(cols, 1)
  {
    hide Linear.Square, NormSquared, Leftover;
    var zero := CZeros(1);
    NothingAdded(cols[0], cols, zero);
    SumOfOne(tiny);
    SquareMonotone(tiny, TOLERANCE);
    assert NormSquared(Leftover(cols, 0, zero)) <= Linear.Square(TOLERANCE);
  }

  lemma OneColumn(cols: CMatrix, z: CVector, tiny: real)
    requires |cols| == 1 && cols[0] == [Complex(tiny, 0.0)] && |z| == 1
    ensures LinComb(1, cols, z, 1)[0] == Mul(z[0], Complex(tiny, 0.0))
  {
    hide Mul, Add;
    AddZero(Mul(z[0], Complex(tiny, 0.0)));
  }

  lemma NothingAdded(v: CVector, cols: CMatrix, z: CVector)
    requires |cols| > 0 && v == cols[0]
    ensures Leftover(cols, 0, z) == v
  {
    hide Mul, Add;
    forall i | 0 <= i < |v| ensures Leftover(cols, 0, z)[i] == v[i] {
      LessNothing(v[i]);
    }
  }

  lemma LessNothing(v: Complex)
    ensures Add(v, Mul(MINUS_ONE, ZERO)) == v
  {
    hide Add, Mul;
    MulUnits(MINUS_ONE);
    AddZero(v);
  }

  lemma SumOfOne(x: real)
    ensures NormSquared([Complex(x, 0.0)]) == Linear.Square(x)
  {
    var v := [Complex(x, 0.0)];
    assert Linear.Sum(1, Moduli(v)) == Linear.Sum(0, Moduli(v)) + Moduli(v)(0);
  }
}
