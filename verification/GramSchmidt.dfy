/** Complex least squares by modified Gram-Schmidt and back substitution (tools/gen_crfb.py). */
module GramSchmidt {
  import opened Wrappers
  import opened ComplexNumbers
  import opened ComplexLinear
  import Linear

  datatype LstsqError = ShapeMismatch | RankDeficient

  datatype QR = QR(q: CMatrix, r: CMatrix)

  /** The answers, one column per right-hand side, the squared length of all residuals, and the rank. */
  datatype Solution = Solution(x: CMatrix, residual: real, rank: nat)

  const TOLERANCE := 1.0 / 1_000_000_000_000_000.0
  const MINUS_ONE := Complex(-1.0, 0.0)

  predicate IsCMatrix(m: CMatrix, rows: nat, columns: nat) {
    |m| == rows && forall i | 0 <= i < rows :: |m[i]| == columns
  }

  function MatColumn(m: CMatrix, j: nat): (r: CVector)
    ensures |r| == |m|
  {
    seq(|m|, i requires 0 <= i < |m| => CAt(m[i], j))
  }

  function ColumnsOf(m: CMatrix, n: nat): (r: CMatrix)
    ensures |r| == n && Columns(r, n, |m|)
  {
    seq(n, j requires 0 <= j < n => MatColumn(m, j))
  }

  function SetEntry(m: CMatrix, i: nat, j: nat, v: Complex): (r: CMatrix)
    requires i < |m| && j < |m[i]|
    ensures |r| == |m|
  {
    m[i := m[i][j := v]]
  }

  // ----- The factorization -----

  ghost predicate Orthonormal(q: CMatrix, k: nat)
    requires k <= |q|
  {
    forall i: nat, j: nat | i < k && j < k :: Inner(q[i], q[j]) == if i == j then ONE else ZERO
  }

  /** Zero below the diagonal, right of column k, and in column k from row filled on. */
  ghost predicate ZeroOutside(r: CMatrix, n: nat, k: nat, filled: nat)
    requires IsCMatrix(r, n, n)
  {
    forall i: nat, j: nat | i < n && j < n && (j < i || k < j || (j == k && filled <= i)) :: r[i][j] == ZERO
  }

  ghost predicate WeightyDiagonal(r: CMatrix, n: nat, k: nat)
    requires IsCMatrix(r, n, n) && k <= n
  {
    forall i: nat | i < k :: r[i][i].re > TOLERANCE && r[i][i].im == 0.0
  }

  /** The first k columns are those of q times r. */
  ghost predicate Rebuilds(cols: CMatrix, q: CMatrix, r: CMatrix, rows: nat, k: nat)
    requires k <= |cols|
  {
    forall j: nat | j < k :: cols[j] == LinComb(j + 1, q, MatColumn(r, j), rows)
  }

  ghost predicate FactoredTo(cols: CMatrix, q: CMatrix, r: CMatrix, rows: nat, n: nat, k: nat, filled: nat) {
    && k <= n && |cols| == n && Columns(cols, n, rows) && IsCMatrix(q, n, rows) && IsCMatrix(r, n, n)
    && Orthonormal(q, k) && ZeroOutside(r, n, k, filled) && WeightyDiagonal(r, n, k)
    && Rebuilds(cols, q, r, rows, k)
  }

  /** Orthonormal q, upper triangular r with a positive diagonal, and their product is the matrix. */
  ghost predicate Factored(cols: CMatrix, q: CMatrix, r: CMatrix, rows: nat, n: nat) {
    FactoredTo(cols, q, r, rows, n, n, 0)
  }

  /** What is left of the column is orthogonal to the vectors already subtracted. */
  ghost predicate Projected(cols: CMatrix, q: CMatrix, r: CMatrix, rows: nat, n: nat, k: nat, previous: nat,
                            work: CVector)
  {
    && FactoredTo(cols, q, r, rows, n, k, previous) && previous <= k < n && |work| == rows
    && cols[k] == CCombine(work, ONE, LinComb(previous, q, MatColumn(r, k), rows))
    && forall p: nat | p < previous :: Inner(q[p], work) == ZERO
  }

  /** Column c less a combination of the columns before it. */
  function Leftover(cols: CMatrix, c: nat, z: CVector): (r: CVector)
    requires c < |cols|
    ensures |r| == |cols[c]|
  {
    CCombine(cols[c], MINUS_ONE, LinComb(c, cols, z, |cols[c]|))
  }

  /** Some column lies within the tolerance of the span of the columns before it. */
  ghost predicate NearlyDependent(cols: CMatrix, n: nat)
    requires n <= |cols|
  {
    exists c: nat, z: CVector | c < n && |z| == n :: NormSquared(Leftover(cols, c, z)) <= Linear.Square(TOLERANCE)
  }

  method Factorize(a: CMatrix, rows: nat, columns: nat, sqrt: real -> real)
    returns (result: Result<QR, LstsqError>)
    requires IsCMatrix(a, rows, columns) && Linear.SquareRoot(sqrt)
    ensures result.Ok? ==> Factored(ColumnsOf(a, columns), result.value.q, result.value.r, rows, columns)
    ensures result.Err? ==> result.error.RankDeficient? && NearlyDependent(ColumnsOf(a, columns), columns)
  {
    hide *;
    ghost var cols := ColumnsOf(a, columns);
    var q: CMatrix := seq(columns, (i: nat) => CZeros(rows));
    var r: CMatrix := seq(columns, (i: nat) => CZeros(columns));
    FactorStart(a, rows, columns, q, r);
    for column := 0 to columns
      invariant FactoredTo(cols, q, r, rows, columns, column, 0)
    {
      var work := MatColumn(a, column);
      ProjectStart(a, q, r, rows, columns, column);
      for previous := 0 to column
        invariant Projected(cols, q, r, rows, columns, column, previous, work)
      {
        Shapes(cols, q, r, rows, columns, column, previous, work);
        var projection := InnerProduct(q[previous], work);
        ProjectStep(cols, q, r, rows, columns, column, previous, work, projection);
        r := SetEntry(r, previous, column, projection);
        work := SubtractMultiple(work, projection, q[previous]);
      }
      Shapes(cols, q, r, rows, columns, column, column, work);
      var normSquared := SumOfSquares(work);
      var norm := sqrt(normSquared);
      RootOf(sqrt, work, norm);
      if norm <= TOLERANCE {
        TooClose(cols, q, r, rows, columns, column, work, norm);
        return Err(RankDeficient);
      }
      ToleranceIsPositive();
      var unit := DivideBy(work, norm);
      ColumnDone(cols, q, r, rows, columns, column, work, norm, unit);
      r := SetEntry(r, column, column, Complex(norm, 0.0));
      q := q[column := unit];
    }
    AllFactored(cols, q, r, rows, columns);
    result := Ok(QR(q, r));
  }

  // ----- The inner loops -----

  method InnerProduct(q: CVector, work: CVector) returns (projection: Complex)
    requires |q| == |work|
    ensures projection == Inner(q, work)
  {
    projection := ZERO;
    for row := 0 to |q|
      invariant projection == CSum(row, CProducts(Conjugated(q), work))
    {
      projection := Add(projection, Mul(Conj(q[row]), work[row]));
    }
  }

  method SubtractMultiple(work0: CVector, projection: Complex, q: CVector) returns (work: CVector)
    requires |q| == |work0|
    ensures work == CCombine(work0, Neg(projection), q)
  {
    hide Add, Mul, Sub, Neg;
    work := work0;
    for row := 0 to |q|
      invariant |work| == |work0|
      invariant forall i | 0 <= i < |q| ::
        work[i] == if i < row then CCombine(work0, Neg(projection), q)[i] else work0[i]
    {
      SubtractIsAdd(work0[row], projection, q[row]);
      work := work[row := Sub(work[row], Mul(projection, q[row]))];
    }
  }

  lemma SubtractIsAdd(w: Complex, p: Complex, q: Complex)
    ensures Sub(w, Mul(p, q)) == Add(w, Mul(Neg(p), q))
  {
    hide Add, Mul, Sub, Neg;
    MulNeg(p, q);
    AddNeg(w, Mul(p, q));
  }

  method SumOfSquares(work: CVector) returns (normSquared: real)
    ensures normSquared == NormSquared(work)
  {
    normSquared := 0.0;
    for row := 0 to |work|
      invariant normSquared == Linear.Sum(row, Moduli(work))
    {
      var value := work[row];
      normSquared := normSquared + (value.re * value.re + value.im * value.im);
    }
  }

  method DivideBy(work: CVector, norm: real) returns (unit: CVector)
    requires norm != 0.0
    ensures |unit| == |work| && work == Scaled(Complex(norm, 0.0), unit)
  {
    hide Mul;
    unit := [];
    for row := 0 to |work|
      invariant |unit| == row && forall i | 0 <= i < row :: work[i] == Mul(Complex(norm, 0.0), unit[i])
    {
      var entry := DivReal(work[row], norm);
      QuotientTimes(work[row], norm, entry);
      MulComm(Complex(norm, 0.0), entry);
      TimesReal(entry, norm);
      unit := unit + [entry];
    }
  }

  lemma RootOf(sqrt: real -> real, work: CVector, norm: real)
    requires Linear.SquareRoot(sqrt) && norm == sqrt(NormSquared(work))
    ensures norm >= 0.0 && Linear.Square(norm) == NormSquared(work)
  {
    hide NormSquared, Linear.Square;
    NormSquaredPositive(work);
  }

  lemma ToleranceIsPositive()
    ensures TOLERANCE > 0.0
  {
  }

  // ----- Steps of the factorization -----

  lemma FactorStart(a: CMatrix, rows: nat, n: nat, q: CMatrix, r: CMatrix)
    requires IsCMatrix(a, rows, n) && |q| == |r| == n
    requires forall i | 0 <= i < n :: q[i] == CZeros(rows) && r[i] == CZeros(n)
    ensures FactoredTo(ColumnsOf(a, n), q, r, rows, n, 0, 0)
  {
  }

  lemma Shapes(cols: CMatrix, q: CMatrix, r: CMatrix, rows: nat, n: nat, k: nat, previous: nat, work: CVector)
    requires Projected(cols, q, r, rows, n, k, previous, work)
    ensures k < n && |q| == |r| == n && |work| == rows && |r[k]| == n
    ensures previous < k ==> |q[previous]| == rows && |r[previous]| == n
  {
    hide LinComb, Inner;
  }

  lemma ProjectStart(a: CMatrix, q: CMatrix, r: CMatrix, rows: nat, n: nat, k: nat)
    requires IsCMatrix(a, rows, n) && FactoredTo(ColumnsOf(a, n), q, r, rows, n, k, 0) && k < n
    ensures Projected(ColumnsOf(a, n), q, r, rows, n, k, 0, MatColumn(a, k))
  {
    hide Orthonormal, Rebuilds, ZeroOutside, WeightyDiagonal, MatColumn, Inner, LinComb, CCombine;
    NothingSubtracted(MatColumn(a, k), q, MatColumn(r, k));
  }

  lemma NothingSubtracted(work: CVector, vs: CMatrix, z: CVector)
    ensures CCombine(work, ONE, LinComb(0, vs, z, |work|)) == work
  {
    hide Add, Mul;
    forall i | 0 <= i < |work| ensures CCombine(work, ONE, CZeros(|work|))[i] == work[i] {
      PlusNothing(work[i]);
    }
    assert CCombine(work, ONE, CZeros(|work|)) == work;
  }

  lemma PlusNothing(w: Complex)
    ensures Add(w, Mul(ONE, ZERO)) == w
  {
  }

  lemma AllFactored(cols: CMatrix, q: CMatrix, r: CMatrix, rows: nat, n: nat)
    requires FactoredTo(cols, q, r, rows, n, n, 0)
    ensures Factored(cols, q, r, rows, n)
  {
  }

  lemma ColumnOfSet(m: CMatrix, n: nat, i: nat, j: nat, v: Complex)
    requires IsCMatrix(m, n, n) && i < n && j < n
    ensures var s := SetEntry(m, i, j, v);
      IsCMatrix(s, n, n) && MatColumn(s, j) == MatColumn(m, j)[i := v]
      && forall k: nat | k != j :: MatColumn(s, k) == MatColumn(m, k)
  {
  }

  /** Changing a later column keeps what is already factored. */
  lemma KeepFactored(cols: CMatrix, q: CMatrix, q': CMatrix, r: CMatrix, rows: nat, n: nat, k: nat, filled: nat,
                     i: nat, v: Complex)
    requires FactoredTo(cols, q, r, rows, n, k, filled) && k < n && i <= k
    requires IsCMatrix(q', n, rows) && forall j | 0 <= j < k :: q'[j] == q[j]
    ensures var s := SetEntry(r, i, k, v);
      IsCMatrix(s, n, n) && Orthonormal(q', k) && WeightyDiagonal(s, n, k) && Rebuilds(cols, q', s, rows, k)
  {
    hide Inner, LinComb;
    var s := SetEntry(r, i, k, v);
    ColumnOfSet(r, n, i, k, v);
    hide MatColumn;
    forall j: nat | j < k ensures cols[j] == LinComb(j + 1, q', MatColumn(s, j), rows) {
      LinCombSame(j + 1, q, q', MatColumn(r, j), MatColumn(s, j), rows);
    }
  }

  lemma ProjectStep(cols: CMatrix, q: CMatrix, r: CMatrix, rows: nat, n: nat, k: nat, previous: nat, work: CVector,
                    projection: Complex)
    requires Projected(cols, q, r, rows, n, k, previous, work) && previous < k
    requires projection == Inner(q[previous], work)
    ensures |r| == n && |r[previous]| == n
    ensures Projected(cols, q, SetEntry(r, previous, k, projection), rows, n, k, previous + 1,
                      CCombine(work, Neg(projection), q[previous]))
  {
    var s, w := SetEntry(r, previous, k, projection), CCombine(work, Neg(projection), q[previous]);
    KeepFactored(cols, q, q, r, rows, n, k, previous, previous, projection);
    assert ZeroOutside(s, n, k, previous + 1);
    hide Orthonormal, Rebuilds, ZeroOutside, WeightyDiagonal, Columns, SetEntry;
    MoveTerm(q, r, rows, n, k, previous, work, projection, s);
    forall p: nat | p <= previous ensures Inner(q[p], w) == ZERO {
      StaysOrthogonal(q, k, rows, previous, work, projection, p);
    }
  }

  lemma StaysOrthogonal(q: CMatrix, k: nat, rows: nat, previous: nat, work: CVector, projection: Complex, p: nat)
    requires k <= |q| && Orthonormal(q, k) && p <= previous < k && projection == Inner(q[previous], work)
    requires |q[p]| == |q[previous]| == |work| == rows && (p < previous ==> Inner(q[p], work) == ZERO)
    ensures Inner(q[p], CCombine(work, Neg(projection), q[previous])) == ZERO
  {
    assert Inner(q[p], q[previous]) == if p == previous then ONE else ZERO;
    hide *;
    InnerCombine(q[p], work, Neg(projection), q[previous]);
    MulUnits(Neg(projection));
    AddNeg(projection, projection);
    AddZero(ZERO);
    SelfDifference(projection);
  }

  lemma SelfDifference(a: Complex)
    ensures Sub(a, a) == ZERO
  {
  }

  /** Taking a multiple out of the work and putting it into the combination keeps their sum. */
  lemma MoveTerm(q: CMatrix, r: CMatrix, rows: nat, n: nat, k: nat, previous: nat, work: CVector,
                 projection: Complex, s: CMatrix)
    requires IsCMatrix(q, n, rows) && IsCMatrix(r, n, n) && previous < k < n && |work| == rows
    requires s == SetEntry(r, previous, k, projection)
    ensures CCombine(CCombine(work, Neg(projection), q[previous]), ONE,
                     LinComb(previous + 1, q, MatColumn(s, k), rows)) ==
            CCombine(work, ONE, LinComb(previous, q, MatColumn(r, k), rows))
  {
    ColumnOfSet(r, n, previous, k, projection);
    var before := LinComb(previous, q, MatColumn(r, k), rows);
    LinCombSame(previous, q, q, MatColumn(r, k), MatColumn(s, k), rows);
    assert LinComb(previous + 1, q, MatColumn(s, k), rows) == CCombine(before, projection, q[previous]);
    hide LinComb, MatColumn, SetEntry, Add, Mul, Neg;
    var left := CCombine(CCombine(work, Neg(projection), q[previous]), ONE, CCombine(before, projection, q[previous]));
    var right := CCombine(work, ONE, before);
    forall i | 0 <= i < rows ensures left[i] == right[i] {
      MoveEntry(work[i], projection, q[previous][i], before[i]);
    }
    assert left == right;
  }

  lemma MoveEntry(w: Complex, p: Complex, q: Complex, l: Complex)
    ensures Add(Add(w, Mul(Neg(p), q)), Mul(ONE, Add(l, Mul(p, q)))) == Add(w, Mul(ONE, l))
  {
    hide Mul;
    MulNeg(p, q);
    MulUnits(Add(l, Mul(p, q)));
    MulUnits(l);
  }

  lemma ColumnDone(cols: CMatrix, q: CMatrix, r: CMatrix, rows: nat, n: nat, k: nat, work: CVector, norm: real,
                   unit: CVector)
    requires Projected(cols, q, r, rows, n, k, k, work) && norm > TOLERANCE
    requires Linear.Square(norm) == NormSquared(work)
    requires |unit| == rows && work == Scaled(Complex(norm, 0.0), unit)
    ensures |r| == n && |r[k]| == n && |q| == n
    ensures FactoredTo(cols, q[k := unit], SetEntry(r, k, k, Complex(norm, 0.0)), rows, n, k + 1, 0)
  {
    var q', s := q[k := unit], SetEntry(r, k, k, Complex(norm, 0.0));
    KeepFactored(cols, q, q', r, rows, n, k, k, k, Complex(norm, 0.0));
    assert ZeroOutside(s, n, k + 1, 0);
    assert WeightyDiagonal(s, n, k + 1);
    assert Rebuilds(cols, q', s, rows, k + 1) by {
      hide Orthonormal, ZeroOutside, WeightyDiagonal;
      LastColumn(cols, q, r, rows, n, k, work, norm, unit);
    }
    hide Rebuilds, ZeroOutside, WeightyDiagonal, NormSquared, Scaled;
    forall p: nat | p < k ensures Inner(q[p], unit) == ZERO {
      UnitIsOrthogonal(q[p], work, norm, unit);
    }
    UnitIsNormal(work, norm, unit);
    JoinOrthonormal(q, k, unit);
  }

  lemma LastColumn(cols: CMatrix, q: CMatrix, r: CMatrix, rows: nat, n: nat, k: nat, work: CVector, norm: real,
                   unit: CVector)
    requires IsCMatrix(q, n, rows) && IsCMatrix(r, n, n) && k < n == |cols| && |work| == |unit| == rows
    requires cols[k] == CCombine(work, ONE, LinComb(k, q, MatColumn(r, k), rows))
    requires work == Scaled(Complex(norm, 0.0), unit)
    ensures cols[k] == LinComb(k + 1, q[k := unit], MatColumn(SetEntry(r, k, k, Complex(norm, 0.0)), k), rows)
  {
    var s := SetEntry(r, k, k, Complex(norm, 0.0));
    ColumnOfSet(r, n, k, k, Complex(norm, 0.0));
    LinCombSame(k, q, q[k := unit], MatColumn(r, k), MatColumn(s, k), rows);
    var before := LinComb(k, q, MatColumn(r, k), rows);
    hide MatColumn, SetEntry, Add, Mul;
    assert LinComb(k + 1, q[k := unit], MatColumn(s, k), rows) == CCombine(before, Complex(norm, 0.0), unit);
    hide LinComb;
    forall i | 0 <= i < rows ensures cols[k][i] == CCombine(before, Complex(norm, 0.0), unit)[i] {
      MulUnits(before[i]);
      AddComm(work[i], before[i]);
    }
  }

  lemma UnitIsOrthogonal(x: CVector, work: CVector, norm: real, unit: CVector)
    requires |x| == |work| == |unit| && norm > TOLERANCE && work == Scaled(Complex(norm, 0.0), unit)
    requires Inner(x, work) == ZERO
    ensures Inner(x, unit) == ZERO
  {
    hide Inner, Mul, Scaled;
    InnerScaled(x, Complex(norm, 0.0), unit);
    RealFactor(norm, Inner(x, unit));
  }

  lemma RealFactor(norm: real, z: Complex)
    requires norm != 0.0 && Mul(Complex(norm, 0.0), z) == ZERO
    ensures z == ZERO
  {
    Linear.SquareIsPositive(0.0, 0.0);
    Cancel(norm, z.re, 0.0);
    Cancel(norm, z.im, 0.0);
  }

  lemma UnitIsNormal(work: CVector, norm: real, unit: CVector)
    requires |work| == |unit| && norm > TOLERANCE && work == Scaled(Complex(norm, 0.0), unit)
    requires Linear.Square(norm) == NormSquared(work)
    ensures Inner(unit, unit) == ONE
  {
    hide Inner, Mul, Scaled, NormSquared, Linear.Square;
    var c, s := Complex(norm, 0.0), NormSquared(unit);
    InnerSelf(work);
    InnerSelf(unit);
    InnerScaled(work, c, unit);
    InnerConjugate(work, unit);
    InnerScaled(unit, c, unit);
    TwiceScaled(norm, s);
    CancelSquare(norm, s);
  }

  lemma TwiceScaled(norm: real, s: real)
    ensures Mul(Complex(norm, 0.0), Conj(Mul(Complex(norm, 0.0), Complex(s, 0.0)))) ==
            Complex(Linear.Square(norm) * s, 0.0)
  {
  }

  lemma CancelSquare(norm: real, s: real)
    requires norm > TOLERANCE && Linear.Square(norm) == Linear.Square(norm) * s
    ensures s == 1.0
  {
    var m := norm * norm;
    Linear.SquareIsPositive(norm, m);
    Cancel(m, s, 1.0);
  }

  lemma JoinOrthonormal(q: CMatrix, k: nat, unit: CVector)
    requires k < |q| && Orthonormal(q, k) && Inner(unit, unit) == ONE
    requires forall p: nat | p < k :: |q[p]| == |unit| && Inner(q[p], unit) == ZERO
    ensures Orthonormal(q[k := unit], k + 1)
  {
    hide Inner;
    forall p: nat | p < k ensures Inner(unit, q[p]) == ZERO {
      InnerConjugate(unit, q[p]);
    }
  }

  // ----- A column too close to the ones before it -----

  /** What the orthonormal vectors span, the columns span. */
  lemma {:induction false} ColumnsSpan(cols: CMatrix, q: CMatrix, r: CMatrix, rows: nat, n: nat, m: nat, c: CVector)
    returns (z: CVector)
    requires Columns(cols, n, rows) && IsCMatrix(q, n, rows) && IsCMatrix(r, n, n) && |cols| == n && m <= n == |c|
    requires WeightyDiagonal(r, n, m) && Rebuilds(cols, q, r, rows, m)
    ensures |z| == n && LinComb(m, cols, z, rows) == LinComb(m, q, c, rows)
  {
    if m == 0 {
      z := CZeros(n);
    } else {
      var k := m - 1;
      ToleranceIsPositive();
      NonZeroDiagonal(r[k][k]);
      var t := Div(c[k], r[k][k]);
      var w := CCombine(c, Neg(t), MatColumn(r, k));
      var y := ColumnsSpan(cols, q, r, rows, n, k, w);
      z := y[k := t];
      hide NormSq, Div;
      ExchangeColumn(cols, q, r, rows, n, k, c, t, y, z);
    }
  }

  lemma NonZeroDiagonal(d: Complex)
    requires d.re > TOLERANCE
    ensures NormSq(d) != 0.0
  {
    NormSqPositive(d, NormSq(d));
  }

  lemma ExchangeColumn(cols: CMatrix, q: CMatrix, r: CMatrix, rows: nat, n: nat, k: nat, c: CVector, t: Complex,
                       y: CVector, z: CVector)
    requires Columns(cols, n, rows) && IsCMatrix(q, n, rows) && IsCMatrix(r, n, n) && |cols| == n && k < n == |c|
    requires |y| == n && z == y[k := t] && Rebuilds(cols, q, r, rows, k + 1)
    requires NormSq(r[k][k]) != 0.0 && t == Div(c[k], r[k][k])
    requires LinComb(k, cols, y, rows) == LinComb(k, q, CCombine(c, Neg(t), MatColumn(r, k)), rows)
    ensures LinComb(k + 1, cols, z, rows) == LinComb(k + 1, q, c, rows)
  {
    var column := MatColumn(r, k);
    DivMul(c[k], r[k][k]);
    hide Div, NormSq, Add, Mul, Neg, Inner;
    LinCombSame(k, cols, cols, y, z, rows);
    LinCombLinear(k, q, c, Neg(t), column, rows);
    var l, m := LinComb(k, q, c, rows), LinComb(k, q, column, rows);
    assert cols[k] == CCombine(m, column[k], q[k]);
    assert LinComb(k + 1, cols, z, rows) == CCombine(CCombine(l, Neg(t), m), t, CCombine(m, column[k], q[k]));
    assert LinComb(k + 1, q, c, rows) == CCombine(l, c[k], q[k]);
    hide LinComb, MatColumn;
    var left, right := CCombine(CCombine(l, Neg(t), m), t, CCombine(m, column[k], q[k])), CCombine(l, c[k], q[k]);
    forall i | 0 <= i < rows ensures left[i] == right[i] {
      ExchangeEntry(l[i], t, m[i], column[k], q[k][i], c[k]);
    }
    assert left == right;
  }

  lemma ExchangeEntry(l: Complex, t: Complex, m: Complex, d: Complex, q: Complex, c: Complex)
    requires Mul(t, d) == c
    ensures Add(Add(l, Mul(Neg(t), m)), Mul(t, Add(m, Mul(d, q)))) == Add(l, Mul(c, q))
  {
    assert Mul(t, Add(m, Mul(d, q))) == Add(Mul(t, m), Mul(c, q)) && Mul(Neg(t), m) == Neg(Mul(t, m)) by {
      hide *;
      MulAdd(t, m, Mul(d, q));
      MulAssoc(t, d, q);
      MulNeg(t, m);
    }
    hide Mul;
  }

  lemma TooClose(cols: CMatrix, q: CMatrix, r: CMatrix, rows: nat, n: nat, k: nat, work: CVector, norm: real)
    requires Projected(cols, q, r, rows, n, k, k, work)
    requires 0.0 <= norm <= TOLERANCE && Linear.Square(norm) == NormSquared(work)
    ensures n <= |cols| && NearlyDependent(cols, n)
  {
    hide Inner, NormSquared, Orthonormal, ZeroOutside;
    var l := LinComb(k, q, MatColumn(r, k), rows);
    var z := ColumnsSpan(cols, q, r, rows, n, k, MatColumn(r, k));
    assert Leftover(cols, k, z) == work by {
      hide LinComb, MatColumn, Add, Mul;
      forall i | 0 <= i < rows ensures Leftover(cols, k, z)[i] == work[i] {
        TakeAway(work[i], l[i]);
      }
    }
    hide Leftover;
    SquareMonotone(norm, TOLERANCE);
    assert NormSquared(Leftover(cols, k, z)) <= Linear.Square(TOLERANCE);
  }

  lemma TakeAway(w: Complex, l: Complex)
    ensures Add(Add(w, Mul(ONE, l)), Mul(MINUS_ONE, l)) == w
  {
  }

  lemma SquareMonotone(a: real, b: real)
    requires 0.0 <= a <= b
    ensures Linear.Square(a) <= Linear.Square(b)
  {
  }
}
