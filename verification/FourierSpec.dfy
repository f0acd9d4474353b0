/** The discrete Fourier transform as a plain sum, and the laws of that sum
    that the fast algorithm and its inverse rest on. */
module FourierSpec {
  import opened ComplexNumbers
  import opened Powers

  /** exp(-2*pi*i / n) for the forward transform, exp(+2*pi*i / n) for the inverse. */
  type Turns = (bool, nat) -> Complex

  /** What the transforms use of the complex exponential. */
  ghost predicate IsExponential(turn: Turns) {
    && turn(true, 4) == Complex(0.0, 1.0)
    && (forall inv: bool :: turn(inv, 2) == Neg(ONE))
    && (forall inv: bool, n: nat :: SquareLaw(turn, inv, n))
    && (forall n: nat :: InverseLaw(turn, n))
  }

  ghost predicate SquareLaw(turn: Turns, inv: bool, n: nat) {
    n > 0 ==> Mul(turn(inv, 2 * n), turn(inv, 2 * n)) == turn(inv, n)
  }

  ghost predicate InverseLaw(turn: Turns, n: nat) {
    n > 0 ==> Mul(turn(false, n), turn(true, n)) == ONE
  }

  /** The first n terms of the transform at index k: the sum of x[j] * w^(j*k). */
  ghost function DftSum(x: seq<Complex>, w: Complex, k: nat, n: nat): Complex
    requires n <= |x|
  {
    if n == 0 then ZERO
    else Add(DftSum(x, w, k, n - 1), Mul(x[n - 1], Pow(w, (n - 1) * k)))
  }

  ghost function Dft(x: seq<Complex>, w: Complex): (r: seq<Complex>)
    ensures |r| == |x|
  {
    seq(|x|, k requires 0 <= k => DftSum(x, w, k, |x|))
  }

  // ----- The same sum in Horner form -----

  ghost function Horner(x: seq<Complex>, u: Complex): Complex {
    if x == [] then ZERO else Add(x[0], Mul(u, Horner(x[1..], u)))
  }

  ghost function Evens(x: seq<Complex>): seq<Complex> {
    seq(|x| / 2, i requires 0 <= i < |x| / 2 => x[2 * i])
  }

  ghost function Odds(x: seq<Complex>): seq<Complex> {
    seq(|x| / 2, i requires 0 <= i < |x| / 2 => x[2 * i + 1])
  }

  ghost function Sum(x: seq<Complex>, y: seq<Complex>): seq<Complex>
    requires |x| == |y|
  {
    seq(|x|, i requires 0 <= i < |x| => Add(x[i], y[i]))
  }

  ghost function Scaled(u: Complex, x: seq<Complex>): seq<Complex> {
    seq(|x|, i requires 0 <= i < |x| => Mul(u, x[i]))
  }

  /** x[i] * u^i */
  ghost function Twisted(x: seq<Complex>, u: Complex): seq<Complex> {
    seq(|x|, i requires 0 <= i < |x| => Mul(x[i], Pow(u, i)))
  }

  /** Horner evaluation splits at any point. */
  lemma {:induction false} HornerConcat(x: seq<Complex>, y: seq<Complex>, u: Complex)
    ensures Horner(x + y, u) == Add(Horner(x, u), Mul(Pow(u, |x|), Horner(y, u)))
  {
    hide Add, Mul;
    if x == [] {
      assert x + y == y;
      MulUnits(Horner(y, u));
      AddZero(Horner(y, u));
    } else {
      assert (x + y)[1..] == x[1..] + y;
      var rest, tail := Horner(x[1..], u), Horner(y, u);
      HornerConcat(x[1..], y, u);
      MulAdd(u, rest, Mul(Pow(u, |x| - 1), tail));
      MulAssoc(u, Pow(u, |x| - 1), tail);
      AddAssoc(x[0], Mul(u, rest), Mul(Pow(u, |x|), tail));
    }
  }

  lemma {:induction false} HornerIsDftSum(x: seq<Complex>, w: Complex, k: nat, n: nat)
    requires n <= |x|
    ensures Horner(x[..n], Pow(w, k)) == DftSum(x, w, k, n)
  {
    hide Add, Mul;
    if n > 0 {
      var u := Pow(w, k);
      HornerIsDftSum(x, w, k, n - 1);
      assert x[..n] == x[..n - 1] + [x[n - 1]];
      HornerConcat(x[..n - 1], [x[n - 1]], u);
      var last := [x[n - 1]];
      assert last[1..] == [];
      MulUnits(u);
      AddZero(x[n - 1]);
      MulComm(Pow(u, n - 1), x[n - 1]);
      PowPow(w, k, n - 1);
    }
  }

  lemma DftIsHorner(x: seq<Complex>, w: Complex, k: nat)
    requires k < |x|
    ensures Dft(x, w)[k] == Horner(x, Pow(w, k))
  {
    HornerIsDftSum(x, w, k, |x|);
    assert x[..|x|] == x;
  }

  /** Splitting by parity: decimation in time. */
  lemma {:induction false} HornerParity(x: seq<Complex>, u: Complex)
    requires |x| % 2 == 0
    ensures Horner(x, u) == Add(Horner(Evens(x), Mul(u, u)), Mul(u, Horner(Odds(x), Mul(u, u))))
  {
    hide Add, Mul;
    if x == [] {
      MulUnits(u);
      AddZero(ZERO);
    } else {
      var rest := x[2..];
      assert Evens(x)[1..] == Evens(rest);
      assert Odds(x)[1..] == Odds(rest);
      assert x[1..][1..] == rest;
      var v := Mul(u, u);
      var e, o := Horner(Evens(rest), v), Horner(Odds(rest), v);
      HornerParity(rest, u);
      assert Horner(x, u) == Add(x[0], Mul(u, Add(x[1], Mul(u, Add(e, Mul(u, o))))));
      ParityStep(x[0], x[1], u, e, o);
    }
  }

  lemma ParityStep(a: Complex, b: Complex, u: Complex, e: Complex, o: Complex)
    ensures Add(a, Mul(u, Add(b, Mul(u, Add(e, Mul(u, o)))))) ==
            Add(Add(a, Mul(Mul(u, u), e)), Mul(u, Add(b, Mul(Mul(u, u), o))))
  {
    hide *;
    var v := Mul(u, u);
    MulAdd(u, e, Mul(u, o));
    MulAssoc(u, u, o);
    MulAdd(u, b, Add(Mul(u, e), Mul(v, o)));
    MulAdd(u, Mul(u, e), Mul(v, o));
    MulAssoc(u, u, e);
    MulAdd(u, b, Mul(v, o));
    AddSwap(a, ZERO, Mul(u, b), Add(Mul(v, e), Mul(u, Mul(v, o))));
    AddZero(a);
    AddAssoc(Mul(u, b), Mul(v, e), Mul(u, Mul(v, o)));
    AddComm(Mul(u, b), Mul(v, e));
    AddAssoc(Mul(v, e), Mul(u, b), Mul(u, Mul(v, o)));
    AddAssoc(a, Mul(v, e), Add(Mul(u, b), Mul(u, Mul(v, o))));
  }

  lemma {:induction false} HornerSum(x: seq<Complex>, y: seq<Complex>, u: Complex)
    requires |x| == |y|
    ensures Horner(Sum(x, y), u) == Add(Horner(x, u), Horner(y, u))
  {
    hide Add, Mul;
    if x == [] {
      AddZero(ZERO);
    } else {
      HornerSum(x[1..], y[1..], u);
      assert Sum(x, y)[1..] == Sum(x[1..], y[1..]);
      MulAdd(u, Horner(x[1..], u), Horner(y[1..], u));
      AddSwap(x[0], y[0], Mul(u, Horner(x[1..], u)), Mul(u, Horner(y[1..], u)));
    }
  }

  lemma {:induction false} HornerScaled(c: Complex, x: seq<Complex>, u: Complex)
    ensures Horner(Scaled(c, x), u) == Mul(c, Horner(x, u))
  {
    hide Add, Mul;
    if x == [] {
      MulUnits(c);
    } else {
      HornerScaled(c, x[1..], u);
      assert Scaled(c, x)[1..] == Scaled(c, x[1..]);
      var rest := Horner(x[1..], u);
      MulAdd(c, x[0], Mul(u, rest));
      MulAssoc(c, u, rest);
      MulComm(c, u);
      MulAssoc(u, c, rest);
    }
  }

  /** Evaluating a twisted sequence at v is evaluating the sequence at u * v. */
  lemma {:induction false} HornerTwisted(x: seq<Complex>, u: Complex, v: Complex)
    ensures Horner(Twisted(x, u), v) == Horner(x, Mul(u, v))
  {
    hide Add, Mul;
    if x == [] {
    } else {
      MulUnits(x[0]);
      var rest := Twisted(x[1..], u);
      forall i | 0 <= i < |rest|
        ensures Twisted(x, u)[1..][i] == Scaled(u, rest)[i]
      {
        MulAssoc(x[i + 1], u, Pow(u, i));
        MulComm(x[i + 1], u);
        MulAssoc(u, x[i + 1], Pow(u, i));
      }
      assert Twisted(x, u)[1..] == Scaled(u, rest);
      HornerScaled(u, rest, v);
      HornerTwisted(x[1..], u, v);
      MulAssoc(v, u, Horner(x[1..], Mul(u, v)));
      MulComm(u, v);
    }
  }
}
