/** Exact complex arithmetic.  The ring laws are proved once, here; later
    modules hide the definitions and argue from these lemmas. */
module ComplexNumbers {

  datatype Complex = Complex(re: real, im: real)

  const ZERO := Complex(0.0, 0.0)
  const ONE := Complex(1.0, 0.0)

  function Add(a: Complex, b: Complex): Complex {
    Complex(a.re + b.re, a.im + b.im)
  }

  function Sub(a: Complex, b: Complex): Complex {
    Complex(a.re - b.re, a.im - b.im)
  }

  function Neg(a: Complex): Complex {
    Complex(-a.re, -a.im)
  }

  function Mul(a: Complex, b: Complex): Complex {
    Complex(a.re * b.re - a.im * b.im, a.re * b.im + a.im * b.re)
  }

  function Scale(r: real, a: Complex): Complex {
    Complex(r * a.re, r * a.im)
  }

  function DivReal(a: Complex, r: real): Complex
    requires r != 0.0
  {
    Complex(a.re / r, a.im / r)
  }

  function Div(a: Complex, b: Complex): Complex
    requires NormSq(b) != 0.0
  {
    DivReal(Mul(a, Conj(b)), NormSq(b))
  }

  function Conj(a: Complex): Complex {
    Complex(a.re, -a.im)
  }

  /** The squared modulus. */
  function NormSq(a: Complex): real {
    a.re * a.re + a.im * a.im
  }

  function Pow(a: Complex, n: nat): Complex {
    if n == 0 then ONE else Mul(a, Pow(a, n - 1))
  }

  lemma MulComm(a: Complex, b: Complex)
    ensures Mul(a, b) == Mul(b, a)
  {
  }

  lemma MulAssoc(a: Complex, b: Complex, c: Complex)
    ensures Mul(a, Mul(b, c)) == Mul(Mul(a, b), c)
  {
  }

  lemma MulAdd(a: Complex, b: Complex, c: Complex)
    ensures Mul(a, Add(b, c)) == Add(Mul(a, b), Mul(a, c))
  {
  }

  lemma MulSub(a: Complex, b: Complex, c: Complex)
    ensures Mul(a, Sub(b, c)) == Sub(Mul(a, b), Mul(a, c))
  {
  }

  lemma MulUnits(a: Complex)
    ensures Mul(ONE, a) == a && Mul(a, ONE) == a
    ensures Mul(ZERO, a) == ZERO && Mul(a, ZERO) == ZERO
    ensures Mul(a, Neg(ONE)) == Neg(a) && Mul(Neg(ONE), a) == Neg(a)
  {
  }

  lemma AddAssoc(a: Complex, b: Complex, c: Complex)
    ensures Add(a, Add(b, c)) == Add(Add(a, b), c)
  {
  }

  lemma AddComm(a: Complex, b: Complex)
    ensures Add(a, b) == Add(b, a)
  {
  }

  lemma AddZero(a: Complex)
    ensures Add(a, ZERO) == a && Add(ZERO, a) == a
  {
  }

  lemma AddSwap(a: Complex, b: Complex, c: Complex, d: Complex)
    ensures Add(Add(a, b), Add(c, d)) == Add(Add(a, c), Add(b, d))
  {
  }

  lemma AddNeg(a: Complex, b: Complex)
    ensures Add(a, Neg(b)) == Sub(a, b)
  {
  }

  lemma MulScale(a: Complex, r: real, b: Complex)
    ensures Mul(a, Scale(r, b)) == Scale(r, Mul(a, b))
  {
  }

  lemma MulNeg(a: Complex, b: Complex)
    ensures Mul(Neg(a), b) == Neg(Mul(a, b)) && Mul(a, Neg(b)) == Neg(Mul(a, b))
    ensures Mul(Neg(a), Neg(b)) == Mul(a, b)
  {
  }

  lemma MulSwap(a: Complex, b: Complex, c: Complex, d: Complex)
    ensures Mul(Mul(a, b), Mul(c, d)) == Mul(Mul(a, c), Mul(b, d))
  {
    hide *;
    MulAssoc(a, b, Mul(c, d));
    MulAssoc(b, c, d);
    MulComm(b, c);
    MulAssoc(c, b, d);
    MulAssoc(a, c, Mul(b, d));
  }

  lemma {:induction false} PowAdd(a: Complex, m: nat, n: nat)
    ensures Pow(a, m + n) == Mul(Pow(a, m), Pow(a, n))
  {
    if m == 0 {
      MulUnits(Pow(a, n));
    } else {
      PowAdd(a, m - 1, n);
      MulAssoc(a, Pow(a, m - 1), Pow(a, n));
    }
  }

  lemma {:induction false} PowOfProduct(a: Complex, b: Complex, n: nat)
    ensures Pow(Mul(a, b), n) == Mul(Pow(a, n), Pow(b, n))
  {
    if n == 0 {
    } else {
      PowOfProduct(a, b, n - 1);
      MulSwap(a, b, Pow(a, n - 1), Pow(b, n - 1));
    }
  }

  lemma {:induction false} PowOfOne(n: nat)
    ensures Pow(ONE, n) == ONE
  {
    hide Mul;
    if n > 0 {
      PowOfOne(n - 1);
      MulUnits(ONE);
    }
  }

  /** (a^k)^j is a^(j*k). */
  lemma {:induction false} PowPow(a: Complex, k: nat, j: nat)
    ensures 0 <= j * k
    ensures Pow(Pow(a, k), j) == Pow(a, j * k)
  {
    if j == 0 {
    } else {
      PowPow(a, k, j - 1);
      assert j * k == k + (j - 1) * k;
      PowAdd(a, k, (j - 1) * k);
    }
  }

  lemma OneIsUnit()
    ensures NormSq(ONE) == 1.0
  {
  }

  lemma DivMul(a: Complex, b: Complex)
    requires NormSq(b) != 0.0
    ensures Mul(Div(a, b), b) == a
  {
    var m, p := NormSq(b), Mul(a, Conj(b));
    var q := Div(a, b);
    assert Mul(p, b) == Complex(m * a.re, m * a.im) by {
      hide Mul, NormSq;
      MulAssoc(a, Conj(b), b);
      ConjTimes(b);
      TimesReal(a, m);
    }
    QuotientTimes(p, m, q);
    TimesQuotient(p, m, q, b, a);
  }

  lemma ConjTimes(b: Complex)
    ensures Mul(Conj(b), b) == Complex(NormSq(b), 0.0)
  {
  }

  lemma TimesReal(a: Complex, m: real)
    ensures Mul(a, Complex(m, 0.0)) == Complex(m * a.re, m * a.im)
  {
  }

  lemma QuotientTimes(p: Complex, m: real, q: Complex)
    requires m != 0.0 && q == DivReal(p, m)
    ensures p == Complex(m * q.re, m * q.im)
  {
  }

  lemma TimesQuotient(p: Complex, m: real, q: Complex, b: Complex, a: Complex)
    requires m != 0.0 && p == Complex(m * q.re, m * q.im) && Mul(p, b) == Complex(m * a.re, m * a.im)
    ensures Mul(q, b) == a
  {
    var r := Mul(q, b);
    assert m * r.re == m * a.re && m * r.im == m * a.im by {
      assert m * q.re * b.re - m * q.im * b.im == m * (q.re * b.re - q.im * b.im);
      assert m * q.re * b.im + m * q.im * b.re == m * (q.re * b.im + q.im * b.re);
    }
    Cancel(m, r.re, a.re);
    Cancel(m, r.im, a.im);
  }

  lemma Cancel(m: real, x: real, y: real)
    requires m != 0.0 && m * x == m * y
    ensures x == y
  {
    assert x == m * x / m && y == m * y / m;
  }

  lemma TimesConj(b: Complex)
    ensures Mul(b, Conj(b)) == Complex(NormSq(b), 0.0)
  {
  }

  lemma CancelRight(a: Complex, b: Complex, d: Complex)
    requires NormSq(d) != 0.0 && Mul(a, d) == Mul(b, d)
    ensures a == b
  {
    hide Mul, NormSq;
    MulAssoc(a, d, Conj(d));
    MulAssoc(b, d, Conj(d));
    TimesConj(d);
    TimesReal(a, NormSq(d));
    TimesReal(b, NormSq(d));
    Cancel(NormSq(d), a.re, b.re);
    Cancel(NormSq(d), a.im, b.im);
  }

  lemma DivUnique(n: Complex, d: Complex, x: Complex)
    requires NormSq(d) != 0.0 && Mul(x, d) == n
    ensures Div(n, d) == x
  {
    hide Mul, NormSq, Div;
    DivMul(n, d);
    CancelRight(Div(n, d), x, d);
  }

  lemma NormSqNonNegative(z: Complex)
    ensures NormSq(z) >= 0.0
  {
    assert z.re * z.re >= 0.0 && z.im * z.im >= 0.0;
  }

  /** The modulus of a product is the product of the moduli. */
  lemma NormSqMul(a: Complex, b: Complex)
    ensures NormSq(Mul(a, b)) == NormSq(a) * NormSq(b)
  {
    hide Mul, Conj, NormSq;
    TimesConj(Mul(a, b));
    ConjMul(a, b);
    MulSwap(a, b, Conj(a), Conj(b));
    TimesConj(a);
    TimesConj(b);
    TimesReal(Complex(NormSq(a), 0.0), NormSq(b));
  }

  lemma ConjMul(a: Complex, b: Complex)
    ensures Conj(Mul(a, b)) == Mul(Conj(a), Conj(b))
  {
  }
}
