/** Vectors of complex numbers: sums, combinations and the inner product. */
module ComplexLinear {
  import opened ComplexNumbers
  import Linear

  type CVector = seq<Complex>
  type CMatrix = seq<CVector>

  // ----- Sums -----

  function CSum(n: nat, f: nat -> Complex): Complex {
    if n == 0 then ZERO else Add(CSum(n - 1, f), f(n - 1))
  }

  lemma {:induction false} CSumEqual(n: nat, f: nat -> Complex, g: nat -> Complex)
    requires forall k: nat | k < n :: f(k) == g(k)
    ensures CSum(n, f) == CSum(n, g)
  {
    if n > 0 {
      CSumEqual(n - 1, f, g);
    }
  }

  lemma {:induction false} CSumZero(n: nat, f: nat -> Complex)
    requires forall k: nat | k < n :: f(k) == ZERO
    ensures CSum(n, f) == ZERO
  {
    if n > 0 {
      CSumZero(n - 1, f);
    }
  }

  /** The sum of f + c * g. */
  lemma {:induction false} CSumLinear(n: nat, h: nat -> Complex, f: nat -> Complex, c: Complex, g: nat -> Complex)
    requires forall k: nat | k < n :: h(k) == Add(f(k), Mul(c, g(k)))
    ensures CSum(n, h) == Add(CSum(n, f), Mul(c, CSum(n, g)))
  {
    if n == 0 {
      MulUnits(c);
      AddZero(ZERO);
    } else {
      CSumLinear(n - 1, h, f, c, g);
      hide Add, Mul;
      MulAdd(c, CSum(n - 1, g), g(n - 1));
      AddSwap(CSum(n - 1, f), Mul(c, CSum(n - 1, g)), f(n - 1), Mul(c, g(n - 1)));
    }
  }

  /** Only the term at k is not zero. */
  lemma {:induction false} CSumSingle(n: nat, f: nat -> Complex, k: nat)
    requires k < n && forall j: nat | j < n && j != k :: f(j) == ZERO
    ensures CSum(n, f) == f(k)
  {
    hide Add;
    AddZero(f(n - 1));
    if k == n - 1 {
      CSumZero(n - 1, f);
    } else {
      CSumSingle(n - 1, f, k);
      AddZero(f(k));
    }
  }

  lemma {:induction false} CSumConj(n: nat, h: nat -> Complex, f: nat -> Complex)
    requires forall k: nat | k < n :: h(k) == Conj(f(k))
    ensures CSum(n, h) == Conj(CSum(n, f))
  {
    if n > 0 {
      CSumConj(n - 1, h, f);
    }
  }

  // ----- Vectors -----

  function CAt(v: CVector, i: nat): Complex {
    if i < |v| then v[i] else ZERO
  }

  function CZeros(n: nat): (r: CVector)
    ensures |r| == n
  {
    seq(n, (i: nat) => ZERO)
  }

  /** a + c * b */
  function CCombine(a: CVector, c: Complex, b: CVector): (r: CVector)
    ensures |r| == |a|
  {
    seq(|a|, i requires 0 <= i < |a| => Add(a[i], Mul(c, CAt(b, i))))
  }

  function CDot(a: CVector, b: CVector): Complex {
    CSum(|a|, CProducts(a, b))
  }

  function CProducts(a: CVector, b: CVector): nat -> Complex {
    (k: nat) => Mul(CAt(a, k), CAt(b, k))
  }

  function Conjugated(a: CVector): (r: CVector)
    ensures |r| == |a|
  {
    seq(|a|, i requires 0 <= i < |a| => Conj(a[i]))
  }

  /** The inner product, conjugate linear on the left. */
  function Inner(a: CVector, b: CVector): Complex {
    CDot(Conjugated(a), b)
  }

  function Moduli(a: CVector): nat -> real {
    (k: nat) => NormSq(CAt(a, k))
  }

  /** The squared length. */
  function NormSquared(a: CVector): real {
    Linear.Sum(|a|, Moduli(a))
  }

  lemma CDotCombine(x: CVector, a: CVector, c: Complex, b: CVector)
    requires |x| == |a| == |b|
    ensures CDot(x, CCombine(a, c, b)) == Add(CDot(x, a), Mul(c, CDot(x, b)))
  {
    hide Add, Mul;
    var r := CCombine(a, c, b);
    forall k: nat | k < |x|
      ensures CProducts(x, r)(k) == Add(CProducts(x, a)(k), Mul(c, CProducts(x, b)(k)))
    {
      MulAdd(x[k], a[k], Mul(c, b[k]));
      MulAssoc(x[k], c, b[k]);
      MulComm(x[k], c);
      MulAssoc(c, x[k], b[k]);
    }
    CSumLinear(|x|, CProducts(x, r), CProducts(x, a), c, CProducts(x, b));
  }

  lemma InnerCombine(x: CVector, a: CVector, c: Complex, b: CVector)
    requires |x| == |a| == |b|
    ensures Inner(x, CCombine(a, c, b)) == Add(Inner(x, a), Mul(c, Inner(x, b)))
  {
    CDotCombine(Conjugated(x), a, c, b);
  }

  lemma InnerConjugate(a: CVector, b: CVector)
    requires |a| == |b|
    ensures Inner(a, b) == Conj(Inner(b, a))
  {
    forall k: nat | k < |a|
      ensures CProducts(Conjugated(a), b)(k) == Conj(CProducts(Conjugated(b), a)(k))
    {
      ConjugateProduct(a[k], b[k]);
    }
    CSumConj(|a|, CProducts(Conjugated(a), b), CProducts(Conjugated(b), a));
  }

  lemma ConjugateProduct(a: Complex, b: Complex)
    ensures Mul(Conj(a), b) == Conj(Mul(Conj(b), a))
  {
  }

  lemma InnerZeros(a: CVector)
    ensures Inner(a, CZeros(|a|)) == ZERO && Inner(CZeros(|a|), a) == ZERO
  {
    forall k: nat | k < |a| ensures CProducts(Conjugated(a), CZeros(|a|))(k) == ZERO {
      MulUnits(Conj(a[k]));
    }
    CSumZero(|a|, CProducts(Conjugated(a), CZeros(|a|)));
    hide CSum;
    InnerConjugate(a, CZeros(|a|));
    InnerConjugate(CZeros(|a|), a);
  }

  lemma {:induction false} RealSum(n: nat, f: nat -> Complex, g: nat -> real)
    requires forall k: nat | k < n :: f(k) == Complex(g(k), 0.0)
    ensures CSum(n, f) == Complex(Linear.Sum(n, g), 0.0)
  {
    if n > 0 {
      RealSum(n - 1, f, g);
    }
  }

  lemma InnerSelf(a: CVector)
    ensures Inner(a, a) == Complex(NormSquared(a), 0.0)
  {
    forall k: nat | k < |a| ensures CProducts(Conjugated(a), a)(k) == Complex(Moduli(a)(k), 0.0) {
      OwnModulus(a[k]);
    }
    RealSum(|a|, CProducts(Conjugated(a), a), Moduli(a));
  }

  lemma OwnModulus(a: Complex)
    ensures Mul(Conj(a), a) == Complex(NormSq(a), 0.0)
  {
  }

  lemma NormSqPositive(a: Complex, s: real)
    requires s == NormSq(a)
    ensures s >= 0.0 && (a != ZERO ==> s > 0.0)
  {
    Linear.SquareIsPositive(a.re, a.re * a.re);
    Linear.SquareIsPositive(a.im, a.im * a.im);
  }

  lemma NormSquaredPositive(a: CVector)
    ensures NormSquared(a) >= 0.0
    ensures NormSquared(a) == 0.0 <==> a == CZeros(|a|)
  {
    var f := Moduli(a);
    forall k: nat | k < |a| ensures f(k) >= 0.0 && (a[k] != ZERO ==> f(k) > 0.0) {
      NormSqPositive(a[k], f(k));
    }
    Linear.SumNonNegative(|a|, f);
    if a == CZeros(|a|) {
      Linear.SumZero(|a|, f);
    }
  }

  /** Squared lengths of orthogonal vectors add. */
  lemma Pythagoras(a: CVector, c: Complex, b: CVector)
    requires |a| == |b| && Inner(a, b) == ZERO && NormSq(c) == 1.0
    ensures NormSquared(CCombine(a, c, b)) == NormSquared(a) + NormSquared(b)
  {
    hide *;
    var r, na, nb := CCombine(a, c, b), NormSquared(a), NormSquared(b);
    CombineLength(a, c, b);
    InnerSelf(r);
    InnerSelf(a);
    InnerSelf(b);
    InnerCombine(r, a, c, b);
    InnerConjugate(r, a);
    InnerConjugate(r, b);
    InnerCombine(a, a, c, b);
    InnerCombine(b, a, c, b);
    InnerConjugate(b, a);
    MulUnits(c);
    AddZero(Complex(na, 0.0));
    ConjugateReal(na);
    ConjugateReal(0.0);
    AddZero(Mul(c, Complex(nb, 0.0)));
    UnitScale(c, nb);
    AddReals(na, nb);
  }

  lemma CombineLength(a: CVector, c: Complex, b: CVector)
    ensures |CCombine(a, c, b)| == |a|
  {
  }

  lemma ConjugateReal(x: real)
    ensures Conj(Complex(x, 0.0)) == Complex(x, 0.0) && ZERO == Complex(0.0, 0.0)
  {
  }

  lemma AddReals(x: real, y: real)
    ensures Add(Complex(x, 0.0), Complex(y, 0.0)) == Complex(x + y, 0.0)
  {
  }

  lemma UnitScale(c: Complex, b: real)
    requires NormSq(c) == 1.0
    ensures Mul(c, Conj(Mul(c, Complex(b, 0.0)))) == Complex(b, 0.0)
  {
    var x, y := c.re * b, c.im * b;
    assert Mul(c, Complex(b, 0.0)) == Complex(x, y);
    assert c.re * x == b * (c.re * c.re) && c.im * y == b * (c.im * c.im);
    assert b * (c.re * c.re) + b * (c.im * c.im) == b * NormSq(c);
    assert c.re * y == c.im * x;
  }

  // ----- Linear combinations -----

  /** The sum of the first n vectors, each times its coefficient. */
  function LinComb(n: nat, vs: CMatrix, z: CVector, rows: nat): (r: CVector)
    ensures |r| == rows
  {
    if n == 0 || |vs| < n then CZeros(rows) else CCombine(LinComb(n - 1, vs, z, rows), CAt(z, n - 1), vs[n - 1])
  }

  predicate Columns(vs: CMatrix, n: nat, rows: nat) {
    n <= |vs| && forall k | 0 <= k < n :: |vs[k]| == rows
  }

  function Inners(q: CVector, vs: CMatrix, z: CVector): nat -> Complex {
    (k: nat) => Mul(CAt(z, k), if k < |vs| then Inner(q, vs[k]) else ZERO)
  }

  lemma {:induction false} InnerLinComb(q: CVector, n: nat, vs: CMatrix, z: CVector)
    requires Columns(vs, n, |q|)
    ensures Inner(q, LinComb(n, vs, z, |q|)) == CSum(n, Inners(q, vs, z))
  {
    hide Inner, CCombine, Add, Mul;
    if n == 0 {
      InnerZeros(q);
    } else {
      InnerLinComb(q, n - 1, vs, z);
      InnerCombine(q, LinComb(n - 1, vs, z, |q|), CAt(z, n - 1), vs[n - 1]);
    }
  }

  /** What is orthogonal to every vector is orthogonal to their combinations. */
  lemma OrthogonalToSpan(w: CVector, n: nat, vs: CMatrix, z: CVector)
    requires Columns(vs, n, |w|)
    requires forall k | 0 <= k < n :: Inner(w, vs[k]) == ZERO
    ensures Inner(w, LinComb(n, vs, z, |w|)) == ZERO
  {
    hide Inner;
    InnerLinComb(w, n, vs, z);
    forall k: nat | k < n ensures Inners(w, vs, z)(k) == ZERO {
      MulUnits(CAt(z, k));
    }
    CSumZero(n, Inners(w, vs, z));
  }


  lemma {:induction false} LinCombSame(n: nat, vs: CMatrix, ws: CMatrix, z: CVector, y: CVector, rows: nat)
    requires n <= |vs| && n <= |ws| && forall k | 0 <= k < n :: vs[k] == ws[k] && CAt(z, k) == CAt(y, k)
    ensures LinComb(n, vs, z, rows) == LinComb(n, ws, y, rows)
  {
    if n > 0 {
      LinCombSame(n - 1, vs, ws, z, y, rows);
    }
  }

  /** (p + c q) + (z + c w) v is (p + z v) + c (q + w v). */
  lemma RegroupTerm(p: Complex, c: Complex, q: Complex, z: Complex, w: Complex, v: Complex)
    ensures Add(Add(p, Mul(c, q)), Mul(Add(z, Mul(c, w)), v)) ==
            Add(Add(p, Mul(z, v)), Mul(c, Add(q, Mul(w, v))))
  {
    hide Add, Mul;
    MulComm(Add(z, Mul(c, w)), v);
    MulAdd(v, z, Mul(c, w));
    MulComm(v, z);
    MulComm(v, Mul(c, w));
    MulAssoc(c, w, v);
    MulAdd(c, q, Mul(w, v));
    AddSwap(p, Mul(c, q), Mul(z, v), Mul(c, Mul(w, v)));
  }

  lemma Regroup(p: CVector, c: Complex, q: CVector, z: Complex, w: Complex, v: CVector)
    requires |p| == |q| == |v|
    ensures CCombine(CCombine(p, c, q), Add(z, Mul(c, w)), v) == CCombine(CCombine(p, z, v), c, CCombine(q, w, v))
  {
    var left := CCombine(CCombine(p, c, q), Add(z, Mul(c, w)), v);
    var right := CCombine(CCombine(p, z, v), c, CCombine(q, w, v));
    hide Add, Mul;
    forall i | 0 <= i < |p| ensures left[i] == right[i] {
      RegroupTerm(p[i], c, q[i], z, w, v[i]);
    }
  }

  /** Combinations are linear in their coefficients. */
  lemma {:induction false} LinCombLinear(n: nat, vs: CMatrix, z: CVector, c: Complex, w: CVector, rows: nat)
    requires Columns(vs, n, rows) && n <= |z| == |w|
    ensures LinComb(n, vs, CCombine(z, c, w), rows) == CCombine(LinComb(n, vs, z, rows), c, LinComb(n, vs, w, rows))
  {
    hide Add, Mul;
    if n == 0 {
      ZerosCombine(rows, c);
    } else {
      LinCombLinear(n - 1, vs, z, c, w, rows);
      Regroup(LinComb(n - 1, vs, z, rows), c, LinComb(n - 1, vs, w, rows), z[n - 1], w[n - 1], vs[n - 1]);
    }
  }

  lemma ZerosCombine(n: nat, c: Complex)
    ensures CCombine(CZeros(n), c, CZeros(n)) == CZeros(n)
  {
    MulUnits(c);
  }

  /** The vector scaled by c. */
  function Scaled(c: Complex, a: CVector): (r: CVector)
    ensures |r| == |a|
  {
    seq(|a|, i requires 0 <= i < |a| => Mul(c, a[i]))
  }

  lemma InnerScaled(x: CVector, c: Complex, a: CVector)
    requires |x| == |a|
    ensures Inner(x, Scaled(c, a)) == Mul(c, Inner(x, a))
  {
    hide Add, Mul, Inner;
    var zeros := CZeros(|a|);
    assert Scaled(c, a) == CCombine(zeros, c, a) by {
      forall i | 0 <= i < |a| ensures Scaled(c, a)[i] == CCombine(zeros, c, a)[i] {
        AddZero(Mul(c, a[i]));
      }
    }
    InnerCombine(x, zeros, c, a);
    InnerZeros(x);
    AddZero(Mul(c, Inner(x, a)));
  }
}
