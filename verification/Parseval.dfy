/** The energy of a sequence, and that the transform keeps it: the means by which responses known only on
    the unit circle are compared. */
module Parseval {
  import opened ComplexNumbers
  import opened FastFourier
  import opened FourierSpec
  import opened Powers
  import L = Linear

  ghost function Energy(x: seq<Complex>): real {
    if x == [] then 0.0 else NormSq(x[0]) + Energy(x[1..])
  }

  lemma {:induction false} EnergyConcat(x: seq<Complex>, y: seq<Complex>)
    ensures Energy(x + y) == Energy(x) + Energy(y)
  {
    hide NormSq;
    if x == [] {
      assert x + y == y;
    } else {
      assert (x + y)[1..] == x[1..] + y;
      EnergyConcat(x[1..], y);
    }
  }

  lemma {:induction false} EnergyNonNegative(x: seq<Complex>)
    ensures Energy(x) >= 0.0
    ensures forall i | 0 <= i < |x| :: NormSq(x[i]) <= Energy(x)
  {
    if x != [] {
      NormSqNonNegative(x[0]);
      EnergyNonNegative(x[1..]);
      hide NormSq;
      forall i | 0 <= i < |x| ensures NormSq(x[i]) <= Energy(x) {
        assert i > 0 ==> x[i] == x[1..][i - 1];
      }
    }
  }

  lemma {:induction false} EnergyParity(x: seq<Complex>)
    requires |x| % 2 == 0
    ensures Energy(x) == Energy(Evens(x)) + Energy(Odds(x))
  {
    hide NormSq;
    if x != [] {
      var rest := x[2..];
      EnergyParity(rest);
      assert Evens(x)[1..] == Evens(rest) && Odds(x)[1..] == Odds(rest);
      assert x[1..][1..] == rest;
    }
  }

  lemma {:induction false} EnergyScaled(u: Complex, x: seq<Complex>)
    ensures Energy(Scaled(u, x)) == NormSq(u) * Energy(x)
  {
    hide NormSq, Mul;
    if x != [] {
      assert Scaled(u, x)[1..] == Scaled(u, x[1..]);
      EnergyScaled(u, x[1..]);
      NormSqMul(u, x[0]);
      L.Distribute(NormSq(u), NormSq(x[0]), Energy(x[1..]));
    }
  }

  /** Turning every entry leaves the energy alone. */
  lemma {:induction false} EnergyTwisted(x: seq<Complex>, u: Complex)
    requires NormSq(u) == 1.0
    ensures Energy(Twisted(x, u)) == Energy(x)
  {
    hide NormSq, Mul;
    if x != [] {
      var rest := Twisted(x[1..], u);
      forall i | 0 <= i < |rest| ensures Twisted(x, u)[1..][i] == Scaled(u, rest)[i] {
        MulAssoc(x[i + 1], u, Pow(u, i));
        MulComm(x[i + 1], u);
        MulAssoc(u, x[i + 1], Pow(u, i));
      }
      assert Twisted(x, u)[1..] == Scaled(u, rest);
      MulUnits(x[0]);
      EnergyTwisted(x[1..], u);
      EnergyScaled(u, rest);
    }
  }

  lemma {:induction false} Parallelogram(x: seq<Complex>, y: seq<Complex>)
    requires |x| == |y|
    ensures Energy(Sum(x, y)) + Energy(Difference(x, y)) == 2.0 * (Energy(x) + Energy(y))
  {
    hide NormSq, Add, Sub;
    if x != [] {
      assert Sum(x, y)[1..] == Sum(x[1..], y[1..]) && Difference(x, y)[1..] == Difference(x[1..], y[1..]);
      Parallelogram(x[1..], y[1..]);
      ParallelogramAt(x[0], y[0]);
    }
  }

  lemma ParallelogramAt(a: Complex, b: Complex)
    ensures NormSq(Add(a, b)) + NormSq(Sub(a, b)) == 2.0 * (NormSq(a) + NormSq(b))
  {
    Squares(a.re, b.re);
    Squares(a.im, b.im);
  }

  lemma Squares(a: real, b: real)
    ensures (a + b) * (a + b) + (a - b) * (a - b) == 2.0 * (a * a + b * b)
  {
  }

  /** The roots of unity of the transform are on the unit circle. */
  lemma {:induction false} TurnIsUnit(turn: Turns, inv: bool, m: nat)
    requires IsExponential(turn)
    ensures NormSq(turn(inv, Pow2(m))) == 1.0
  {
    if m == 0 {
      WholeTurn(turn, inv);
    } else {
      TurnIsUnit(turn, inv, m - 1);
      TurnLaws(turn, inv, Pow2(m - 1));
      SquareIsUnit(turn(inv, Pow2(m)), turn(inv, Pow2(m - 1)));
    }
  }

  lemma WholeTurn(turn: Turns, inv: bool)
    requires IsExponential(turn)
    ensures turn(inv, 1) == ONE
  {
    hide Mul, Neg, IsExponential;
    TurnLaws(turn, inv, 1);
    MulNeg(ONE, ONE);
    MulUnits(ONE);
  }

  lemma SquareIsUnit(w: Complex, square: Complex)
    requires Mul(w, w) == square && NormSq(square) == 1.0
    ensures NormSq(w) == 1.0
  {
    hide NormSq, Mul;
    NormSqMul(w, w);
    NormSqNonNegative(w);
    UnitRoot(NormSq(w));
  }

  lemma UnitRoot(x: real)
    requires x >= 0.0 && x * x == 1.0
    ensures x == 1.0
  {
    L.SquareOrder(x, 1.0);
  }

  lemma {:induction false} PowIsUnit(w: Complex, k: nat)
    requires NormSq(w) == 1.0
    ensures NormSq(Pow(w, k)) == 1.0
  {
    hide NormSq, Mul;
    if k == 0 {
      OneIsUnit();
    } else {
      PowIsUnit(w, k - 1);
      NormSqMul(w, Pow(w, k - 1));
    }
  }

  /** The transform multiplies the energy by the length. */
  lemma {:induction false} TransformKeepsEnergy(x: seq<Complex>, m: nat, turn: Turns, inv: bool)
    requires IsExponential(turn) && |x| == Pow2(m)
    ensures Energy(Dft(x, turn(inv, Pow2(m)))) == (Pow2(m) as real) * Energy(x)
    decreases m
  {
    hide *;
    var w := turn(inv, Pow2(m));
    PowersHalve(m);
    if m == 0 {
      OneSampleTransform(x, w);
    } else {
      var h := Pow2(m - 1);
      var a, b := x[..h], x[h..];
      HalfLengths(a, b, w);
      DftLength(x, w);
      EvenOutputs(x, m, turn, inv);
      OddOutputs(x, m, turn, inv);
      TransformKeepsEnergy(Sum(a, b), m - 1, turn, inv);
      TransformKeepsEnergy(Twisted(Difference(a, b), w), m - 1, turn, inv);
      EnergyParity(Dft(x, w));
      TurnIsUnit(turn, inv, m);
      EnergyTwisted(Difference(a, b), w);
      Parallelogram(a, b);
      assert a + b == x;
      EnergyConcat(a, b);
      L.Distribute(h as real, Energy(Sum(a, b)), Energy(Difference(a, b)));
      DoubledLength(h as real, Energy(x));
    }
  }

  lemma PowersHalve(m: nat)
    ensures m == 0 ==> Pow2(m) == 1
    ensures m > 0 ==> Pow2(m) == Pow2(m - 1) + Pow2(m - 1)
  {
  }

  lemma DftLength(x: seq<Complex>, w: Complex)
    ensures |Dft(x, w)| == |x|
  {
  }

  lemma DoubledLength(h: real, e: real)
    ensures h * (2.0 * e) == (h + h) * e
  {
  }

  lemma HalfLengths(a: seq<Complex>, b: seq<Complex>, w: Complex)
    requires |a| == |b|
    ensures |Sum(a, b)| == |Difference(a, b)| == |Twisted(Difference(a, b), w)| == |a|
  {
  }

  lemma OneSampleTransform(x: seq<Complex>, w: Complex)
    requires |x| == 1
    ensures Dft(x, w) == x
  {
    hide Mul;
    assert DftSum(x, w, 0, 1) == Add(DftSum(x, w, 0, 0), Mul(x[0], Pow(w, 0 * 0)));
    MulUnits(x[0]);
  }
}
