/** Finite sums and the vectors and matrices built from them, over exact reals. */
module Linear {

  type Vector = seq<real>
  type Matrix = seq<Vector>

  // ----- Sums -----

  function Sum(n: nat, f: nat -> real): real {
    if n == 0 then 0.0 else Sum(n - 1, f) + f(n - 1)
  }

  lemma {:induction false} SumEqual(n: nat, f: nat -> real, g: nat -> real)
    requires forall k: nat | k < n :: f(k) == g(k)
    ensures Sum(n, f) == Sum(n, g)
  {
    if n > 0 {
      SumEqual(n - 1, f, g);
    }
  }

  lemma {:induction false} SumZero(n: nat, f: nat -> real)
    requires forall k: nat | k < n :: f(k) == 0.0
    ensures Sum(n, f) == 0.0
  {
    if n > 0 {
      SumZero(n - 1, f);
    }
  }

  /** The sum of f + c * g. */
  lemma {:induction false} SumLinear(n: nat, h: nat -> real, f: nat -> real, c: real, g: nat -> real)
    requires forall k: nat | k < n :: h(k) == f(k) + c * g(k)
    ensures Sum(n, h) == Sum(n, f) + c * Sum(n, g)
  {
    if n > 0 {
      SumLinear(n - 1, h, f, c, g);
      Distribute(c, Sum(n - 1, g), g(n - 1));
    }
  }

  lemma ProductCommutes(a: real, b: real)
    ensures a * b == b * a
  {
  }

  lemma Distribute(a: real, b: real, c: real)
    ensures a * (b + c) == a * b + a * c
  {
  }

  lemma SumScaled(n: nat, h: nat -> real, c: real, g: nat -> real)
    requires forall k: nat | k < n :: h(k) == c * g(k)
    ensures Sum(n, h) == c * Sum(n, g)
  {
    var zero: nat -> real := (k: nat) => 0.0;
    SumLinear(n, h, zero, c, g);
    SumZero(n, zero);
  }

  /** Only the term at k is not zero. */
  lemma {:induction false} SumSingle(n: nat, f: nat -> real, k: nat)
    requires k < n && forall j: nat | j < n && j != k :: f(j) == 0.0
    ensures Sum(n, f) == f(k)
  {
    if k == n - 1 {
      SumZero(n - 1, f);
    } else {
      SumSingle(n - 1, f, k);
    }
  }

  function RowSums(m: nat, f: (nat, nat) -> real): nat -> real {
    (i: nat) => Sum(m, RowOf(f, i))
  }

  function RowOf(f: (nat, nat) -> real, i: nat): nat -> real {
    (j: nat) => f(i, j)
  }

  function ColumnSums(n: nat, f: (nat, nat) -> real): nat -> real {
    (j: nat) => Sum(n, ColumnOf(f, j))
  }

  function ColumnOf(f: (nat, nat) -> real, j: nat): nat -> real {
    (i: nat) => f(i, j)
  }

  /** The order of a double sum does not matter. */
  lemma {:induction false} SumSwap(n: nat, m: nat, f: (nat, nat) -> real)
    ensures Sum(n, RowSums(m, f)) == Sum(m, ColumnSums(n, f))
  {
    if n == 0 {
      SumZero(m, ColumnSums(0, f));
    } else {
      SumSwap(n - 1, m, f);
      SumLinear(m, ColumnSums(n, f), ColumnSums(n - 1, f), 1.0, RowOf(f, n - 1));
    }
  }

  lemma {:induction false} SumNonNegative(n: nat, f: nat -> real)
    requires forall k: nat | k < n :: f(k) >= 0.0
    ensures Sum(n, f) >= 0.0
    ensures forall k: nat | k < n :: f(k) <= Sum(n, f)
  {
    if n > 0 {
      SumNonNegative(n - 1, f);
    }
  }

  // ----- Vectors -----

  function At(v: Vector, i: nat): real {
    if i < |v| then v[i] else 0.0
  }

  function Dot(a: Vector, b: Vector): real {
    Sum(|a|, Products(a, b))
  }

  function Products(a: Vector, b: Vector): nat -> real {
    (k: nat) => At(a, k) * At(b, k)
  }

  /** a + c * b */
  function Combine(a: Vector, c: real, b: Vector): (r: Vector)
    ensures |r| == |a|
  {
    seq(|a|, i requires 0 <= i < |a| => a[i] + c * At(b, i))
  }

  function Scale(c: real, a: Vector): (r: Vector)
    ensures |r| == |a|
  {
    seq(|a|, i requires 0 <= i < |a| => c * a[i])
  }

  function Zeros(n: nat): (r: Vector)
    ensures |r| == n
  {
    seq(n, (i: nat) => 0.0)
  }

  function Basis(n: nat, k: nat): (r: Vector)
    ensures |r| == n
  {
    seq(n, i => if i == k then 1.0 else 0.0)
  }

  lemma DotCommutes(a: Vector, b: Vector)
    requires |a| == |b|
    ensures Dot(a, b) == Dot(b, a)
  {
    SumEqual(|a|, Products(a, b), Products(b, a));
  }

  lemma DotCombine(a: Vector, c: real, b: Vector, x: Vector)
    requires |a| == |b|
    ensures Dot(Combine(a, c, b), x) == Dot(a, x) + c * Dot(b, x)
  {
    var r := Combine(a, c, b);
    forall k: nat | k < |a|
      ensures At(r, k) * At(x, k) == At(a, k) * At(x, k) + c * (At(b, k) * At(x, k))
    {
      CombineTerm(a[k], c, b[k], At(x, k));
    }
    SumLinear(|a|, Products(r, x), Products(a, x), c, Products(b, x));
  }

  lemma CombineTerm(a: real, c: real, b: real, x: real)
    ensures (a + c * b) * x == a * x + c * (b * x)
  {
  }

  lemma DotScale(c: real, a: Vector, x: Vector)
    ensures Dot(Scale(c, a), x) == c * Dot(a, x)
  {
    var r := Scale(c, a);
    forall k: nat | k < |a| ensures At(r, k) * At(x, k) == c * (At(a, k) * At(x, k)) {
      CombineTerm(0.0, c, a[k], At(x, k));
    }
    SumScaled(|a|, Products(r, x), c, Products(a, x));
  }

  lemma DotZeros(n: nat, x: Vector)
    ensures Dot(Zeros(n), x) == 0.0
  {
    SumZero(n, Products(Zeros(n), x));
  }

  lemma DotBasis(a: Vector, n: nat, k: nat)
    requires |a| == n && k < n
    ensures Dot(a, Basis(n, k)) == a[k]
  {
    SumSingle(n, Products(a, Basis(n, k)), k);
  }

  /** The square s of x; naming it keeps the solver from rewriting sign facts about x * x. */
  lemma SquareIsPositive(x: real, s: real)
    requires s == x * x
    ensures s >= 0.0 && (x != 0.0 ==> s > 0.0)
  {
    if x > 0.0 {
      PositiveProduct(x, x, s);
    } else if x < 0.0 {
      PositiveProduct(-x, -x, s);
    }
  }

  lemma PositiveProduct(a: real, b: real, p: real)
    requires a > 0.0 && b > 0.0 && p == a * b
    ensures p > 0.0
  {
  }

  lemma DotSelf(a: Vector)
    ensures Dot(a, a) >= 0.0
    ensures Dot(a, a) == 0.0 ==> a == Zeros(|a|)
  {
    var f := Products(a, a);
    forall k: nat | k < |a| ensures f(k) >= 0.0 && (a[k] != 0.0 ==> f(k) > 0.0) {
      SquareIsPositive(a[k], f(k));
    }
    SumNonNegative(|a|, f);
  }

  /** A product kept as one term, so that the solver does not multiply it out. */
  function Times(a: real, b: real): real {
    a * b
  }

  function Square(x: real): real {
    x * x
  }

  lemma SquareOrder(a: real, b: real)
    requires a >= 0.0 && b >= 0.0
    ensures a < b <==> Square(a) < Square(b)
    ensures a == b <==> Square(a) == Square(b)
  {
    if a < b {
      assert b * b - a * a == (b - a) * (b + a);
      PositiveProduct(b - a, b + a, (b - a) * (b + a));
    } else if b < a {
      assert a * a - b * b == (a - b) * (a + b);
      PositiveProduct(a - b, a + b, (a - b) * (a + b));
    }
  }

  /** The standard library's square root, as far as the algorithms rely on it. */
  ghost predicate SquareRoot(sqrt: real -> real) {
    forall x: real | x >= 0.0 :: sqrt(x) >= 0.0 && Square(sqrt(x)) == x
  }

  // ----- Matrices -----

  predicate IsMatrix(m: Matrix, rows: nat, columns: nat) {
    |m| == rows && forall i | 0 <= i < rows :: |m[i]| == columns
  }

  function Entry(m: Matrix, i: nat, j: nat): real {
    if i < |m| then At(m[i], j) else 0.0
  }

  function MatVec(m: Matrix, v: Vector): (r: Vector)
    ensures |r| == |m|
  {
    seq(|m|, i requires 0 <= i < |m| => Dot(m[i], v))
  }

  function Column(m: Matrix, j: nat): (r: Vector)
    ensures |r| == |m|
  {
    seq(|m|, i requires 0 <= i < |m| => At(m[i], j))
  }

  /** The transpose of a matrix with n columns. */
  function Transpose(m: Matrix, n: nat): (r: Matrix)
    ensures IsMatrix(r, n, |m|)
  {
    seq(n, j requires 0 <= j < n => Column(m, j))
  }

  /** The product of two matrices, the second with n columns. */
  function MatMul(a: Matrix, b: Matrix, n: nat): (r: Matrix)
    ensures IsMatrix(r, |a|, n)
  {
    seq(|a|, i requires 0 <= i < |a| => seq(n, j requires 0 <= j < n => Dot(a[i], Column(b, j))))
  }

  function Identity(n: nat): (r: Matrix)
    ensures IsMatrix(r, n, n)
  {
    seq(n, i requires 0 <= i < n => Basis(n, i))
  }

  lemma MatVecCombine(m: Matrix, n: nat, a: Vector, c: real, b: Vector)
    requires IsMatrix(m, |m|, n) && |a| == |b| == n
    ensures MatVec(m, Combine(a, c, b)) == Combine(MatVec(m, a), c, MatVec(m, b))
  {
    forall i | 0 <= i < |m|
      ensures MatVec(m, Combine(a, c, b))[i] == Combine(MatVec(m, a), c, MatVec(m, b))[i]
    {
      DotCommutes(m[i], Combine(a, c, b));
      DotCombine(a, c, b, m[i]);
      DotCommutes(m[i], a);
      DotCommutes(m[i], b);
    }
  }

  lemma MatVecIdentity(n: nat, v: Vector)
    requires |v| == n
    ensures MatVec(Identity(n), v) == v
  {
    forall i | 0 <= i < n ensures Dot(Identity(n)[i], v) == v[i] {
      DotCommutes(Basis(n, i), v);
      DotBasis(v, n, i);
    }
  }

  /** Moving a matrix across a dot product transposes it. */
  lemma Adjoint(m: Matrix, n: nat, v: Vector, w: Vector)
    requires IsMatrix(m, |m|, n) && |v| == n && |w| == |m|
    ensures Dot(w, MatVec(m, v)) == Dot(MatVec(Transpose(m, n), w), v)
  {
    hide Sum;
    var rows := |m|;
    var f: (nat, nat) -> real := (i: nat, j: nat) => At(w, i) * (Entry(m, i, j) * At(v, j));
    var mv, mw := MatVec(m, v), MatVec(Transpose(m, n), w);
    forall i: nat | i < rows ensures Products(w, mv)(i) == RowSums(n, f)(i) {
      AdjointRow(m, n, v, w, i, f);
    }
    SumEqual(rows, Products(w, mv), RowSums(n, f));
    SumSwap(rows, n, f);
    forall j: nat | j < n ensures ColumnSums(rows, f)(j) == Products(mw, v)(j) {
      AdjointColumn(m, n, v, w, j, f);
    }
    SumEqual(n, ColumnSums(rows, f), Products(mw, v));
  }

  lemma AdjointRow(m: Matrix, n: nat, v: Vector, w: Vector, i: nat, f: (nat, nat) -> real)
    requires IsMatrix(m, |m|, n) && |v| == n && |w| == |m| && i < |m|
    requires forall k: nat | k < n :: f(i, k) == At(w, i) * (Entry(m, i, k) * At(v, k))
    ensures Sum(n, RowOf(f, i)) == At(w, i) * At(MatVec(m, v), i)
  {
    SumScaled(n, RowOf(f, i), At(w, i), Products(m[i], v));
  }

  lemma AdjointColumn(m: Matrix, n: nat, v: Vector, w: Vector, j: nat, f: (nat, nat) -> real)
    requires IsMatrix(m, |m|, n) && |v| == n && |w| == |m| && j < n
    requires forall i: nat | i < |m| :: f(i, j) == At(w, i) * (Entry(m, i, j) * At(v, j))
    ensures Sum(|m|, ColumnOf(f, j)) == At(MatVec(Transpose(m, n), w), j) * At(v, j)
  {
    hide Sum;
    var column := Column(m, j);
    assert Transpose(m, n)[j] == column;
    forall i: nat | i < |m| ensures ColumnOf(f, j)(i) == At(v, j) * Products(column, w)(i) {
      Rearrange(At(w, i), Entry(m, i, j), At(v, j));
    }
    SumScaled(|m|, ColumnOf(f, j), At(v, j), Products(column, w));
  }

  lemma Rearrange(a: real, b: real, c: real)
    ensures a * (b * c) == c * (b * a)
  {
  }

  lemma ColumnOfTranspose(m: Matrix, n: nat, i: nat)
    requires IsMatrix(m, |m|, n) && i < |m|
    ensures Column(Transpose(m, n), i) == m[i]
  {
  }

  /** (a b) v is a (b v). */
  lemma MatMulVec(a: Matrix, b: Matrix, k: nat, n: nat, v: Vector)
    requires IsMatrix(a, |a|, k) && IsMatrix(b, k, n) && |v| == n
    ensures MatVec(MatMul(a, b, n), v) == MatVec(a, MatVec(b, v))
  {
    forall i | 0 <= i < |a|
      ensures Dot(MatMul(a, b, n)[i], v) == Dot(a[i], MatVec(b, v))
    {
      Adjoint(b, n, v, a[i]);
      var row, other := MatMul(a, b, n)[i], MatVec(Transpose(b, n), a[i]);
      forall j | 0 <= j < n ensures row[j] == other[j] {
        DotCommutes(a[i], Column(b, j));
      }
      assert row == other;
    }
  }

  lemma MatVecZeros(m: Matrix, n: nat)
    requires IsMatrix(m, |m|, n)
    ensures MatVec(m, Zeros(n)) == Zeros(|m|)
  {
    hide Dot;
    forall i | 0 <= i < |m| ensures Dot(m[i], Zeros(n)) == 0.0 {
      DotCommutes(m[i], Zeros(n));
      DotZeros(n, m[i]);
    }
  }

  /** The row vector c R is the transpose of R applied to c. */
  lemma RowTimes(c: Vector, m: Matrix, n: nat, r: Vector)
    requires IsMatrix(m, n, n) && |c| == |r| == n
    requires forall j | 0 <= j < n :: r[j] == Dot(c, Column(m, j))
    ensures r == MatVec(Transpose(m, n), c)
  {
    hide Dot;
    forall j | 0 <= j < n ensures r[j] == MatVec(Transpose(m, n), c)[j] {
      DotCommutes(c, Column(m, j));
    }
  }
}
