/** Cholesky factorisation and inversion by repeated solving (tools/gen_beam_error_profiles.py). */
module Cholesky {
  import opened Wrappers
  import opened Linear
  import opened Elimination
  import opened Gramian

  datatype FactorError = NotPositiveDefinite

  ghost predicate PositiveDefinite(m: Matrix, n: nat) {
    forall v: Vector {:trigger MatVec(m, v)} | |v| == n && v != Zeros(n) :: Dot(v, MatVec(m, v)) > 0.0
  }

  // ----- The factor row by row -----

  /** The first rows of a lower triangular factor; the other rows are still zero. */
  ghost predicate FactorsTo(l: Matrix, m: Matrix, n: nat, rows: nat) {
    && IsMatrix(l, n, n) && rows <= n
    && (forall i: nat, j: nat | i < j < n :: Entry(l, i, j) == 0.0)
    && (forall i: nat | i < rows :: Entry(l, i, i) > 0.0)
    && (forall i: nat | rows <= i < n :: l[i] == Zeros(n))
    && forall i: nat, j: nat | j <= i < rows :: Dot(l[i], l[j]) == Entry(m, i, j)
  }

  /** The row being filled agrees with the matrix as far as it goes. */
  ghost predicate RowTo(values: Vector, l: Matrix, m: Matrix, n: nat, row: nat, column: nat)
    requires column <= row < n
  {
    && |values| == n && |l| == n
    && (forall j: nat | column <= j < n :: values[j] == 0.0)
    && forall j: nat | j < column :: Dot(values, l[j]) == Entry(m, row, j)
  }

  /** A lower triangular factor with a positive diagonal. */
  ghost predicate Factors(l: Matrix, m: Matrix, n: nat) {
    FactorsTo(l, m, n, n)
  }

  method CholeskyLower(matrix: Matrix, n: nat, sqrt: real -> real) returns (r: Result<Matrix, FactorError>)
    requires IsMatrix(matrix, n, n) && SquareRoot(sqrt)
    ensures r.Ok? ==> Factors(r.value, matrix, n)
    ensures Symmetric(matrix, n) ==> (r.Ok? <==> PositiveDefinite(matrix, n))
  {
    hide *;
    var lower := seq(n, (i: nat) => Zeros(n));
    FactorStart(matrix, n, lower);
    for row := 0 to n
      invariant FactorsTo(lower, matrix, n, row)
    {
      var values := Zeros(n);
      FactorShape(lower, matrix, n, row);
      RowStart(values, lower, matrix, n, row);
      ghost var complete := false;
      for column := 0 to row + 1
        invariant column <= row ==> !complete && RowTo(values, lower, matrix, n, row, column)
        invariant column == row + 1 ==> |values| == n && FactorsTo(lower[row := values], matrix, n, row + 1)
      {
        RowShape(values, lower, matrix, n, row, column);
        MatrixShape(matrix, n, row);
        if row == column {
          var value := matrix[row][column] - Sum(column, Products(values, values));
          if value <= 0.0 {
            if Symmetric(matrix, n) {
              NegativePivot(lower, matrix, n, row, values, value);
            }
            return Err(NotPositiveDefinite);
          }
          RootAt(sqrt, value);
          RowComplete(lower, matrix, n, row, values, value, sqrt(value));
          values := values[column := sqrt(value)];
          complete := true;
        } else {
          FactorRow(lower, matrix, n, row, column);
          var value := matrix[row][column] - Sum(column, Products(values, lower[column]));
          var entry := value / lower[column][column];
          RowExtends(lower, matrix, n, row, column, values, value, entry);
          values := values[column := entry];
        }
      }
      lower := lower[row := values];
    }
    FactorsAll(lower, matrix, n);
    if Symmetric(matrix, n) {
      FactoredIsPositive(lower, matrix, n);
    }
    r := Ok(lower);
  }

  lemma FactorStart(m: Matrix, n: nat, l: Matrix)
    requires |l| == n && forall i | 0 <= i < n :: l[i] == Zeros(n)
    ensures FactorsTo(l, m, n, 0)
  {
  }

  lemma FactorShape(l: Matrix, m: Matrix, n: nat, rows: nat)
    requires FactorsTo(l, m, n, rows)
    ensures |l| == n
  {
  }

  lemma FactorsAll(l: Matrix, m: Matrix, n: nat)
    requires FactorsTo(l, m, n, n)
    ensures Factors(l, m, n)
  {
  }

  lemma RowStart(values: Vector, l: Matrix, m: Matrix, n: nat, row: nat)
    requires row < n && |l| == n && values == Zeros(n)
    ensures RowTo(values, l, m, n, row, 0)
  {
  }

  lemma RowShape(values: Vector, l: Matrix, m: Matrix, n: nat, row: nat, column: nat)
    requires column <= row < n && RowTo(values, l, m, n, row, column)
    ensures |values| == n
  {
  }

  lemma MatrixShape(m: Matrix, n: nat, row: nat)
    requires IsMatrix(m, n, n) && row < n
    ensures |m| == n && |m[row]| == n
  {
  }

  lemma RootAt(sqrt: real -> real, x: real)
    requires SquareRoot(sqrt) && x > 0.0
    ensures sqrt(x) > 0.0 && Square(sqrt(x)) == x
  {
    assert Square(0.0) == 0.0;
  }

  lemma FactorRow(l: Matrix, m: Matrix, n: nat, row: nat, column: nat)
    requires FactorsTo(l, m, n, row) && column < row
    ensures |l| == n && |l[column]| == n && l[column][column] > 0.0
  {
    assert Entry(l, column, column) > 0.0;
  }

  /** A sum that is zero from k on. */
  lemma {:induction false} SumCut(n: nat, k: nat, f: nat -> real)
    requires k <= n && forall j: nat | k <= j < n :: f(j) == 0.0
    ensures Sum(n, f) == Sum(k, f)
  {
    if k < n {
      SumCut(n - 1, k, f);
    }
  }

  /** Setting a zero entry adds one product. */
  lemma DotSet(a: Vector, k: nat, x: real, b: Vector)
    requires k < |a| == |b| && a[k] == 0.0
    ensures Dot(a[k := x], b) == Dot(a, b) + x * b[k]
  {
    var e := Basis(|a|, k);
    assert a[k := x] == Combine(a, x, e) by {
      assert x * 1.0 == x && x * 0.0 == 0.0;
    }
    DotCombine(a, x, e, b);
    DotCommutes(e, b);
    DotBasis(b, |b|, k);
  }

  lemma RowExtends(l: Matrix, m: Matrix, n: nat, row: nat, column: nat, values: Vector, value: real, entry: real)
    requires FactorsTo(l, m, n, row) && column < row < n && RowTo(values, l, m, n, row, column)
    requires IsMatrix(m, n, n) && value == m[row][column] - Sum(column, Products(values, l[column]))
    requires l[column][column] != 0.0 && entry == value / l[column][column]
    ensures RowTo(values[column := entry], l, m, n, row, column + 1)
  {
    hide Dot, Sum;
    var d := l[column][column];
    forall j: nat | j <= column ensures Dot(values[column := entry], l[j]) == Entry(m, row, j) {
      DotSet(values, column, entry, l[j]);
      if j == column {
        ShortDot(values, l[column], n, column);
        QuotientTimes(value, d, entry);
      } else {
        assert Entry(l, j, column) == 0.0;
        assert entry * 0.0 == 0.0;
      }
    }
  }

  lemma ShortDot(values: Vector, other: Vector, n: nat, k: nat)
    requires |values| == n && k <= n && forall j: nat | k <= j < n :: values[j] == 0.0
    ensures Dot(values, other) == Sum(k, Products(values, other))
  {
    SumCut(n, k, Products(values, other));
  }

  lemma QuotientTimes(x: real, d: real, q: real)
    requires d != 0.0 && q == x / d
    ensures q * d == x
  {
  }

  lemma RowComplete(l: Matrix, m: Matrix, n: nat, row: nat, values: Vector, value: real, root: real)
    requires FactorsTo(l, m, n, row) && row < n && RowTo(values, l, m, n, row, row)
    requires IsMatrix(m, n, n) && value == m[row][row] - Sum(row, Products(values, values))
    requires root > 0.0 && Square(root) == value
    ensures FactorsTo(l[row := values[row := root]], m, n, row + 1)
  {
    var full := values[row := root];
    forall j: nat | j < row ensures Dot(full, l[j]) == Entry(m, row, j) {
      hide Dot, Sum;
      assert Entry(l, j, row) == 0.0;
      DotSet(values, row, root, l[j]);
      assert root * 0.0 == 0.0;
    }
    ShortDot(values, values, n, row);
    DiagonalDot(values, row, root);
    hide Dot;
    RowAppended(l, m, n, row, full);
  }

  lemma DiagonalDot(values: Vector, k: nat, root: real)
    requires k < |values| && values[k] == 0.0
    ensures Dot(values[k := root], values[k := root]) == Dot(values, values) + Square(root)
  {
    hide Dot;
    DotSet(values, k, root, values[k := root]);
    DotCommutes(values, values[k := root]);
    DotSet(values, k, root, values);
    assert root * 0.0 == 0.0;
  }

  lemma RowAppended(l: Matrix, m: Matrix, n: nat, row: nat, full: Vector)
    requires FactorsTo(l, m, n, row) && row < n == |full|
    requires full[row] > 0.0 && Dot(full, full) == Entry(m, row, row)
    requires forall j: nat | j < row :: Dot(full, l[j]) == Entry(m, row, j)
    requires forall j: nat | row < j < n :: full[j] == 0.0
    ensures FactorsTo(l[row := full], m, n, row + 1)
  {
    hide Dot;
    var l' := l[row := full];
    forall i: nat, j: nat | i < j < n ensures Entry(l', i, j) == 0.0 {
      assert i != row ==> Entry(l', i, j) == Entry(l, i, j);
    }
    forall i: nat | i <= row ensures Entry(l', i, i) > 0.0 {
      assert i < row ==> Entry(l', i, i) == Entry(l, i, i);
    }
    forall i: nat, j: nat | j <= i <= row ensures Dot(l'[i], l'[j]) == Entry(m, i, j) {
      assert i < row ==> Dot(l[i], l[j]) == Entry(m, i, j);
    }
  }

  // ----- What the factor says about the matrix -----

  /** The factored matrix is L times its transpose, so its form is a dot product. */
  lemma FactoredForm(l: Matrix, m: Matrix, n: nat, v: Vector, w: Vector)
    requires IsMatrix(m, n, n) && Symmetric(m, n) && Factors(l, m, n) && |v| == |w| == n
    ensures var t := Transpose(l, n);
      MatVec(m, w) == MatVec(l, MatVec(t, w)) && Dot(v, MatVec(m, w)) == Dot(MatVec(t, v), MatVec(t, w))
  {
    var t := Transpose(l, n);
    forall i | 0 <= i < n ensures Dot(m[i], w) == Dot(l[i], MatVec(t, w)) {
      FactoredRow(l, m, n, i);
      hide Dot, Transpose, MatVec, Factors;
      Adjoint(l, n, l[i], w);
      DotCommutes(m[i], w);
      DotCommutes(MatVec(t, w), l[i]);
    }
    hide Dot;
    assert MatVec(m, w) == MatVec(l, MatVec(t, w));
    Adjoint(l, n, MatVec(t, w), v);
  }

  lemma FactoredRow(l: Matrix, m: Matrix, n: nat, i: nat)
    requires IsMatrix(m, n, n) && Symmetric(m, n) && Factors(l, m, n) && i < n
    ensures |l| == n && |l[i]| == n && IsMatrix(l, n, n) && m[i] == MatVec(l, l[i])
  {
    forall j | 0 <= j < n ensures m[i][j] == Dot(l[j], l[i]) {
      hide Dot;
      SymmetricEntries(m, n, i, j);
      DotCommutes(l[i], l[j]);
      assert if j <= i then Dot(l[i], l[j]) == Entry(m, i, j) else Dot(l[j], l[i]) == Entry(m, j, i);
    }
  }

  /** The transpose of a factor annihilates only zero. */
  lemma FactorIsRegular(l: Matrix, m: Matrix, n: nat, v: Vector)
    requires Factors(l, m, n) && |v| == n && MatVec(Transpose(l, n), v) == Zeros(n)
    ensures v == Zeros(n)
  {
    var k := n;
    while k > 0
      invariant k <= n && forall i: nat | k <= i < n :: v[i] == 0.0
    {
      k := k - 1;
      FactorColumn(l, m, n, v, k);
    }
  }

  lemma FactorColumn(l: Matrix, m: Matrix, n: nat, v: Vector, k: nat)
    requires Factors(l, m, n) && |v| == n && k < n && MatVec(Transpose(l, n), v) == Zeros(n)
    requires forall i: nat | k < i < n :: v[i] == 0.0
    ensures v[k] == 0.0
  {
    var f := Products(Column(l, k), v);
    assert MatVec(Transpose(l, n), v)[k] == Sum(n, f);
    forall i: nat | i < n && i != k ensures f(i) == 0.0 {
      assert i < k ==> Entry(l, i, k) == 0.0;
    }
    SumSingle(n, f, k);
    ZeroProduct(Entry(l, k, k), v[k], f(k));
  }

  lemma FactoredIsPositive(l: Matrix, m: Matrix, n: nat)
    requires IsMatrix(m, n, n) && Symmetric(m, n) && Factors(l, m, n)
    ensures PositiveDefinite(m, n)
  {
    forall v: Vector | |v| == n && v != Zeros(n) ensures Dot(v, MatVec(m, v)) > 0.0 {
      hide *;
      var y := MatVec(Transpose(l, n), v);
      FactoredForm(l, m, n, v, v);
      DotSelf(y);
      TransposedLength(l, n, v);
      if y == Zeros(n) {
        FactorIsRegular(l, m, n, v);
      }
    }
  }

  lemma TransposedLength(l: Matrix, n: nat, v: Vector)
    ensures |MatVec(Transpose(l, n), v)| == n
  {
  }

  // ----- A pivot that is not positive -----

  /** Combinations of the first k rows reach every vector that is zero from k on. */
  lemma {:induction false} RowsSpan(l: Matrix, n: nat, k: nat, t: Vector) returns (v: Vector)
    requires IsMatrix(l, n, n) && |t| == n && k <= n && forall j: nat | k <= j < n :: t[j] == 0.0
    requires forall i: nat, j: nat | i < j < n :: Entry(l, i, j) == 0.0
    requires forall i: nat | i < k :: Entry(l, i, i) != 0.0
    ensures |v| == n && (forall j: nat | k <= j < n :: v[j] == 0.0) && MatVec(Transpose(l, n), v) == t
  {
    if k == 0 {
      v := Zeros(n);
      forall j | 0 <= j < n ensures Dot(Transpose(l, n)[j], v) == 0.0 {
        DotCommutes(Transpose(l, n)[j], v);
        DotZeros(n, Transpose(l, n)[j]);
      }
    } else {
      var d := l[k - 1][k - 1];
      assert d == Entry(l, k - 1, k - 1);
      var s := t[k - 1] / d;
      var rest := Combine(t, -s, l[k - 1]);
      forall j: nat | k - 1 <= j < n ensures rest[j] == 0.0 {
        assert j > k - 1 ==> Entry(l, k - 1, j) == 0.0;
        assert rest[j] == t[j] + -s * l[k - 1][j];
        if j == k - 1 {
          QuotientTimes(t[j], d, s);
        }
      }
      var u := RowsSpan(l, n, k - 1, rest);
      v := Combine(u, s, Basis(n, k - 1));
      AddRow(l, n, k - 1, u, s, t, rest);
      forall j: nat | k <= j < n ensures v[j] == 0.0 {
        assert s * 0.0 == 0.0;
      }
    }
  }

  lemma AddRow(l: Matrix, n: nat, k: nat, u: Vector, s: real, t: Vector, rest: Vector)
    requires IsMatrix(l, n, n) && |t| == |u| == n && k < n
    requires rest == Combine(t, -s, l[k]) && MatVec(Transpose(l, n), u) == rest
    ensures MatVec(Transpose(l, n), Combine(u, s, Basis(n, k))) == t
  {
    var transposed, e := Transpose(l, n), Basis(n, k);
    MatVecCombine(transposed, n, u, s, e);
    forall j | 0 <= j < n ensures Dot(transposed[j], e) == l[k][j] {
      DotBasis(transposed[j], n, k);
    }
    assert MatVec(transposed, e) == l[k];
    hide Dot;
    forall j | 0 <= j < n ensures Combine(rest, s, l[k])[j] == t[j] {
      assert rest[j] == t[j] + -s * l[k][j];
    }
  }

  /** The direction in which the form of the matrix is the pivot found. */
  lemma NegativePivot(l: Matrix, m: Matrix, n: nat, row: nat, values: Vector, value: real)
    requires IsMatrix(m, n, n) && Symmetric(m, n) && FactorsTo(l, m, n, row) && row < n
    requires RowTo(values, l, m, n, row, row)
    requires value == m[row][row] - Sum(row, Products(values, values)) && value <= 0.0
    ensures !PositiveDefinite(m, n)
  {
    hide Dot, Sum, MatVec, Transpose, Products;
    var u := RowsSpan(l, n, row, Scale(-1.0, values));
    var v := u[row := 1.0];
    ShortDot(values, values, n, row);
    forall i: nat | i <= row ensures Dot(m[i], v) == if i == row then value else 0.0 {
      PivotRow(l, m, n, row, values, value, u, i);
    }
    FormIsPivot(m, n, row, v, value);
    assert v[row] == 1.0 && v != Zeros(n);
  }

  lemma FormIsPivot(m: Matrix, n: nat, row: nat, v: Vector, value: real)
    requires IsMatrix(m, n, n) && |v| == n && row < n && v[row] == 1.0
    requires forall i: nat | i <= row :: Dot(m[i], v) == if i == row then value else 0.0
    requires forall i: nat | row < i < n :: v[i] == 0.0
    ensures Dot(v, MatVec(m, v)) == value
  {
    var w := MatVec(m, v);
    var f := Products(v, w);
    forall i: nat | i < n && i != row ensures f(i) == 0.0 {
      assert i < row ==> w[i] == 0.0;
    }
    SumSingle(n, f, row);
  }

  lemma PivotRow(l: Matrix, m: Matrix, n: nat, row: nat, values: Vector, value: real, u: Vector, i: nat)
    requires IsMatrix(m, n, n) && Symmetric(m, n) && FactorsTo(l, m, n, row) && i <= row < n
    requires RowTo(values, l, m, n, row, row) && value == m[row][row] - Dot(values, values)
    requires |u| == n && (forall j: nat | row <= j < n :: u[j] == 0.0)
    requires MatVec(Transpose(l, n), u) == Scale(-1.0, values)
    ensures Dot(m[i], u[row := 1.0]) == if i == row then value else 0.0
  {
    hide Dot, Sum, MatVec, Transpose;
    var w := if i == row then values else l[i];
    DotCommutes(m[i], u[row := 1.0]);
    DotSet(u, row, 1.0, m[i]);
    LeadingRow(l, m, n, row, values, u, i, w);
    Adjoint(l, n, w, u);
    DotScale(-1.0, values, w);
    DotCommutes(values, w);
    SymmetricEntries(m, n, i, row);
  }

  /** As far as u reaches, row i of the matrix is the factor applied to row i of the factor. */
  lemma LeadingRow(l: Matrix, m: Matrix, n: nat, row: nat, values: Vector, u: Vector, i: nat, w: Vector)
    requires IsMatrix(m, n, n) && Symmetric(m, n) && FactorsTo(l, m, n, row) && i <= row < n
    requires RowTo(values, l, m, n, row, row) && w == if i == row then values else l[i]
    requires |u| == n && (forall j: nat | row <= j < n :: u[j] == 0.0)
    ensures Dot(u, m[i]) == Dot(u, MatVec(l, w))
    ensures |w| == n && (i < row ==> Dot(values, w) == m[i][row])
  {
    forall j: nat | j < n ensures Products(u, m[i])(j) == Products(u, MatVec(l, w))(j) {
      if j < row {
        hide Dot;
        SymmetricEntries(m, n, i, j);
        DotCommutes(l[j], w);
        assert i < row && i < j ==> Dot(l[j], l[i]) == Entry(m, j, i);
        assert i < row && j <= i ==> Dot(l[i], l[j]) == Entry(m, i, j);
      }
    }
    SumEqual(n, Products(u, m[i]), Products(u, MatVec(l, w)));
    SymmetricEntries(m, n, i, row);
  }

  // ----- Inversion -----

  /** Each undoes the other on v. */
  predicate Undoes(r: Matrix, m: Matrix, v: Vector) {
    MatVec(m, MatVec(r, v)) == v && MatVec(r, MatVec(m, v)) == v
  }

  ghost predicate Inverses(r: Matrix, m: Matrix, n: nat) {
    IsMatrix(r, n, n) && IsMatrix(m, n, n) && forall v: Vector {:trigger Undoes(r, m, v)} | |v| == n :: Undoes(r, m, v)
  }

  method Inverse(matrix: Matrix, n: nat) returns (r: Result<Matrix, SolveError>)
    requires IsMatrix(matrix, n, n)
    ensures r.Ok? ==> Inverses(r.value, matrix, n)
    ensures r.Err? <==> exists column: nat | column < n :: Collapses(matrix, Basis(n, column))
  {
    hide Collapses, OnlySolution, MatVec, Dot;
    var columns: Matrix := [];
    for column := 0 to n
      invariant IsMatrix(columns, column, n)
      invariant forall j: nat | j < column :: OnlySolution(matrix, Basis(n, j), columns[j])
      invariant forall j: nat | j < column :: !Collapses(matrix, Basis(n, j))
    {
      var solution := Solve(matrix, Basis(n, column));
      if solution.Err? {
        return Err(solution.error);
      }
      OnlySolutionLength(matrix, Basis(n, column), solution.value);
      columns := columns + [solution.value];
    }
    r := Ok(Transpose(columns, n));
    SolutionsInvert(matrix, n, columns);
  }

  lemma OnlySolutionLength(m: Matrix, rhs: Vector, x: Vector)
    requires OnlySolution(m, rhs, x)
    ensures |x| == |rhs|
  {
  }

  lemma SolutionsInvert(m: Matrix, n: nat, columns: Matrix)
    requires IsMatrix(m, n, n) && IsMatrix(columns, n, n)
    requires forall j: nat | j < n :: OnlySolution(m, Basis(n, j), columns[j])
    ensures Inverses(Transpose(columns, n), m, n)
  {
    var r := Transpose(columns, n);
    assert MatMul(m, r, n) == Identity(n) by {
      ProductIsIdentity(m, n, columns);
    }
    forall v: Vector | |v| == n ensures Undoes(r, m, v) {
      hide MatVec, Dot, OnlySolution, MatMul, Identity;
      RightInverse(m, r, n, v);
      if n > 0 {
        LeftInverse(m, r, n, v, columns[0]);
      }
    }
  }

  lemma ProductIsIdentity(m: Matrix, n: nat, columns: Matrix)
    requires IsMatrix(m, n, n) && IsMatrix(columns, n, n)
    requires forall j: nat | j < n :: OnlySolution(m, Basis(n, j), columns[j])
    ensures MatMul(m, Transpose(columns, n), n) == Identity(n)
  {
    var r := Transpose(columns, n);
    forall i, j | 0 <= i < n && 0 <= j < n ensures MatMul(m, r, n)[i][j] == Identity(n)[i][j] {
      ColumnOfTranspose(columns, n, j);
      assert MatVec(m, columns[j])[i] == Basis(n, j)[i];
    }
    assert forall i | 0 <= i < n :: MatMul(m, r, n)[i] == Identity(n)[i];
  }

  lemma RightInverse(m: Matrix, r: Matrix, n: nat, v: Vector)
    requires IsMatrix(m, n, n) && IsMatrix(r, n, n) && MatMul(m, r, n) == Identity(n) && |v| == n
    ensures MatVec(m, MatVec(r, v)) == v
  {
    hide MatMul, Identity, MatVec;
    MatMulVec(m, r, n, n, v);
    MatVecIdentity(n, v);
  }

  lemma LeftInverse(m: Matrix, r: Matrix, n: nat, v: Vector, x: Vector)
    requires IsMatrix(m, n, n) && IsMatrix(r, n, n) && MatMul(m, r, n) == Identity(n) && |v| == n > 0
    requires OnlySolution(m, Basis(n, 0), x)
    ensures MatVec(r, MatVec(m, v)) == v
  {
    hide MatVec, MatMul, Identity, OnlySolution;
    var image := MatVec(m, v);
    var back := MatVec(r, image);
    var z := Combine(back, -1.0, v);
    RightInverse(m, r, n, image);
    MatVecCombine(m, n, back, -1.0, v);
    SelfCancels(image);
    OnlySolutionIsRegular(m, Basis(n, 0), x, z);
    forall i | 0 <= i < n ensures back[i] == v[i] {
      assert z[i] == back[i] + -1.0 * v[i];
    }
  }

  lemma SelfCancels(v: Vector)
    ensures Combine(v, -1.0, v) == Zeros(|v|)
  {
  }
}
