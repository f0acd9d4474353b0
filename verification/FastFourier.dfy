/** The radix-2 transform of tools/gen_beam_error_profiles.py: a bit-reversal
    swap pass followed by butterfly passes with a running twiddle factor. */
module FastFourier {
  import opened Powers
  import opened ComplexNumbers
  import opened FourierSpec

  // ----- The recursive transform -----

  ghost function BitReversed(x: seq<Complex>, m: nat): (r: seq<Complex>)
    requires |x| == Pow2(m)
    ensures |r| == |x|
    decreases m
  {
    if m == 0 then x else BitReversed(Evens(x), m - 1) + BitReversed(Odds(x), m - 1)
  }

  /** One block of a butterfly pass: even and odd halves combined with twiddle w. */
  ghost function Butterfly(e: seq<Complex>, o: seq<Complex>, w: Complex): seq<Complex>
    requires |e| == |o|
  {
    seq(2 * |e|, k requires 0 <= k < 2 * |e| =>
      if k < |e| then Add(e[k], Mul(o[k], Pow(w, k)))
      else Sub(e[k - |e|], Mul(o[k - |e|], Pow(w, k - |e|))))
  }

  ghost function Spectrum(y: seq<Complex>, m: nat, turn: Turns, inv: bool): (r: seq<Complex>)
    requires |y| == Pow2(m)
    ensures |r| == |y|
    decreases m
  {
    if m == 0 then y
    else
      var h := Pow2(m - 1);
      Butterfly(Spectrum(y[..h], m - 1, turn, inv), Spectrum(y[h..], m - 1, turn, inv), turn(inv, Pow2(m)))
  }

  // ----- Roots of unity -----

  lemma TurnLaws(turn: Turns, inv: bool, n: nat)
    requires IsExponential(turn) && n > 0
    ensures turn(inv, 2) == Neg(ONE)
    ensures Mul(turn(inv, 2 * n), turn(inv, 2 * n)) == turn(inv, n)
    ensures Mul(turn(!inv, n), turn(inv, n)) == ONE
  {
    hide Mul, Neg;
    assert SquareLaw(turn, inv, n) && InverseLaw(turn, n);
    MulComm(turn(true, n), turn(false, n));
  }

  lemma PowOne(a: Complex)
    ensures Pow(a, 1) == a
  {
    assert Pow(a, 1) == Mul(a, Pow(a, 0));
    MulUnits(a);
  }

  /** Half a turn is -1. */
  lemma {:induction false} HalfTurn(turn: Turns, inv: bool, m: nat)
    requires IsExponential(turn) && m > 0
    ensures Pow(turn(inv, Pow2(m)), Pow2(m - 1)) == Neg(ONE)
  {
    hide Mul, Neg, Pow, IsExponential;
    var w := turn(inv, Pow2(m));
    TurnLaws(turn, inv, Pow2(m - 1));
    if m == 1 {
      PowOne(w);
    } else {
      HalfTurn(turn, inv, m - 1);
      var n := Pow2(m - 2);
      PowOfProduct(w, w, n);
      PowAdd(w, n, n);
    }
  }

  /** Squaring w^k walks the roots of the next shorter transform, with period h. */
  lemma SquaredRoot(turn: Turns, inv: bool, m: nat, k: nat)
    requires IsExponential(turn) && m > 0
    ensures var w, h := turn(inv, Pow2(m)), Pow2(m - 1);
      && Mul(Pow(w, k), Pow(w, k)) == Pow(turn(inv, h), k)
      && Pow(w, h + k) == Neg(Pow(w, k))
  {
    hide Mul, Neg, Pow, IsExponential;
    var w, h := turn(inv, Pow2(m)), Pow2(m - 1);
    TurnLaws(turn, inv, h);
    PowOfProduct(w, w, k);
    HalfTurn(turn, inv, m);
    PowAdd(w, h, k);
    MulUnits(Pow(w, k));
  }

  // ----- The recursive transform is the sum -----

  lemma OneSampleBlock(x: seq<Complex>, turn: Turns, inv: bool)
    requires |x| == 1
    ensures Spectrum(BitReversed(x, 0), 0, turn, inv) == x
  {
  }

  lemma OneSampleSpectrum(x: seq<Complex>, u: Complex)
    requires |x| == 1
    ensures Horner(x, u) == x[0]
  {
    assert x[1..] == [];
    MulUnits(u);
    AddZero(x[0]);
  }

  lemma SpectrumAt(y: seq<Complex>, m: nat, turn: Turns, inv: bool, k: nat)
    requires m > 0 && |y| == Pow2(m) && k < |y|
    ensures var w, h := turn(inv, Pow2(m)), Pow2(m - 1);
      var j := if k < h then k else k - h;
      var e, o := Spectrum(y[..h], m - 1, turn, inv)[j], Spectrum(y[h..], m - 1, turn, inv)[j];
      Spectrum(y, m, turn, inv)[k] == if k < h then Add(e, Mul(o, Pow(w, j))) else Sub(e, Mul(o, Pow(w, j)))
  {
    hide Add, Sub, Mul, Pow;
  }

  lemma {:induction false} SpectrumIsHorner(x: seq<Complex>, m: nat, turn: Turns, inv: bool, k: nat)
    requires IsExponential(turn) && |x| == Pow2(m) && k < |x|
    ensures Spectrum(BitReversed(x, m), m, turn, inv)[k] == Horner(x, Pow(turn(inv, Pow2(m)), k))
    decreases m
  {
    hide Add, Sub, Mul, Neg, Horner, Pow, IsExponential, Spectrum, Butterfly;
    if m == 0 {
      OneSampleSpectrum(x, Pow(turn(inv, 1), k));
      OneSampleBlock(x, turn, inv);
    } else {
      SpectrumAt(BitReversed(x, m), m, turn, inv, k);
      var w, h := turn(inv, Pow2(m)), Pow2(m - 1);
      var j := if k < h then k else k - h;
      var y := BitReversed(x, m);
      assert y[..h] == BitReversed(Evens(x), m - 1);
      assert y[h..] == BitReversed(Odds(x), m - 1);
      SpectrumIsHorner(Evens(x), m - 1, turn, inv, j);
      SpectrumIsHorner(Odds(x), m - 1, turn, inv, j);
      ParityCombines(x, m, turn, inv, k);
    }
  }

  /** The transform of x at k from the transforms of its even and odd samples. */
  lemma ParityCombines(x: seq<Complex>, m: nat, turn: Turns, inv: bool, k: nat)
    requires IsExponential(turn) && m > 0 && |x| == Pow2(m) && k < |x|
    ensures var w, h := turn(inv, Pow2(m)), Pow2(m - 1);
      var j := if k < h then k else k - h;
      var e, o := Horner(Evens(x), Pow(turn(inv, h), j)), Horner(Odds(x), Pow(turn(inv, h), j));
      Horner(x, Pow(w, k)) == if k < h then Add(e, Mul(o, Pow(w, j))) else Sub(e, Mul(o, Pow(w, j)))
  {
    hide *;
    var w, h := turn(inv, Pow2(m)), Pow2(m - 1);
    Halves(m);
    var j := if k < h then k else k - h;
    SquaredRoot(turn, inv, m, j);
    AtRootAndOpposite(x, Pow(w, j), Pow(turn(inv, h), j));
  }

  lemma Halves(m: nat)
    requires m > 0
    ensures Pow2(m) == Pow2(m - 1) + Pow2(m - 1)
  {
  }

  /** x at u and at -u, for v = u * u. */
  lemma AtRootAndOpposite(x: seq<Complex>, u: Complex, v: Complex)
    requires |x| % 2 == 0 && Mul(u, u) == v
    ensures var e, o := Horner(Evens(x), v), Horner(Odds(x), v);
      Horner(x, u) == Add(e, Mul(o, u)) && Horner(x, Neg(u)) == Sub(e, Mul(o, u))
  {
    hide *;
    var e, o := Horner(Evens(x), v), Horner(Odds(x), v);
    HornerParity(x, u);
    MulComm(o, u);
    MulNeg(u, u);
    HornerParity(x, Neg(u));
    MulNeg(u, o);
    AddNeg(e, Mul(u, o));
  }

  lemma SpectrumIsDft(x: seq<Complex>, m: nat, turn: Turns, inv: bool)
    requires IsExponential(turn) && |x| == Pow2(m)
    ensures Spectrum(BitReversed(x, m), m, turn, inv) == Dft(x, turn(inv, Pow2(m)))
  {
    hide Add, Mul, Pow, Horner, DftSum, Spectrum, BitReversed, IsExponential;
    forall k: nat | k < |x|
      ensures Spectrum(BitReversed(x, m), m, turn, inv)[k] == Dft(x, turn(inv, Pow2(m)))[k]
    {
      SpectrumIsHorner(x, m, turn, inv, k);
      DftIsHorner(x, turn(inv, Pow2(m)), k);
    }
  }

  // ----- The inverse transform -----

  ghost function Difference(x: seq<Complex>, y: seq<Complex>): seq<Complex>
    requires |x| == |y|
  {
    seq(|x|, i requires 0 <= i < |x| => Sub(x[i], y[i]))
  }

  lemma HornerDifference(x: seq<Complex>, y: seq<Complex>, u: Complex)
    requires |x| == |y|
    ensures Horner(Difference(x, y), u) == Sub(Horner(x, u), Horner(y, u))
  {
    hide Add, Sub, Mul, Neg, Horner;
    forall i | 0 <= i < |x|
      ensures Difference(x, y)[i] == Sum(x, Scaled(Neg(ONE), y))[i]
    {
      MulUnits(y[i]);
      AddNeg(x[i], y[i]);
    }
    assert Difference(x, y) == Sum(x, Scaled(Neg(ONE), y));
    HornerSum(x, Scaled(Neg(ONE), y), u);
    HornerScaled(Neg(ONE), y, u);
    MulUnits(Horner(y, u));
    AddNeg(Horner(x, u), Horner(y, u));
  }

  /** The even outputs are the transform of the sum of the two halves. */
  lemma EvenOutputs(x: seq<Complex>, m: nat, turn: Turns, inv: bool)
    requires IsExponential(turn) && m > 0 && |x| == Pow2(m)
    ensures var h := Pow2(m - 1);
      Evens(Dft(x, turn(inv, Pow2(m)))) == Dft(Sum(x[..h], x[h..]), turn(inv, h))
  {
    hide Add, Mul, Neg, Horner, DftSum, IsExponential;
    var w, h := turn(inv, Pow2(m)), Pow2(m - 1);
    var a, b, v := x[..h], x[h..], turn(inv, h);
    forall k: nat | k < h
      ensures Dft(x, w)[2 * k] == Dft(Sum(a, b), v)[k]
    {
      DftIsHorner(x, w, 2 * k);
      DftIsHorner(Sum(a, b), v, k);
      SquaredRoot(turn, inv, m, k);
      PowAdd(w, k, k);
      var u := Pow(v, k);
      assert a + b == x;
      HornerConcat(a, b, u);
      HornerSum(a, b, u);
      PowOfProduct(Pow(w, k), Pow(w, k), h);
      PowPow(w, k, h);
      PowPow(w, h, k);
      assert h * k == k * h;
      HalfTurn(turn, inv, m);
      PowOfProduct(Neg(ONE), Neg(ONE), k);
      MulNeg(ONE, ONE);
      MulUnits(ONE);
      PowOfOne(k);
      MulUnits(Horner(b, u));
    }
  }

  /** The odd outputs are the transform of the twisted difference of the halves. */
  lemma OddOutputs(x: seq<Complex>, m: nat, turn: Turns, inv: bool)
    requires IsExponential(turn) && m > 0 && |x| == Pow2(m)
    ensures var w, h := turn(inv, Pow2(m)), Pow2(m - 1);
      Odds(Dft(x, w)) == Dft(Twisted(Difference(x[..h], x[h..]), w), turn(inv, h))
  {
    hide Add, Sub, Mul, Neg, Horner, DftSum, Pow, IsExponential;
    var w, h := turn(inv, Pow2(m)), Pow2(m - 1);
    var a, b, v := x[..h], x[h..], turn(inv, h);
    var d := Difference(a, b);
    forall k: nat | k < h
      ensures Dft(x, w)[2 * k + 1] == Dft(Twisted(d, w), v)[k]
    {
      DftIsHorner(x, w, 2 * k + 1);
      DftIsHorner(Twisted(d, w), v, k);
      HornerTwisted(d, w, Pow(v, k));
      SquaredRoot(turn, inv, m, k);
      PowAdd(w, k, k);
      PowAdd(w, 1, 2 * k);
      PowOne(w);
      var u := Pow(w, 2 * k + 1);
      assert u == Mul(w, Pow(v, k));
      assert a + b == x;
      HornerConcat(a, b, u);
      HornerDifference(a, b, u);
      OddPowerIsMinusOne(turn, inv, m, k);
      MulUnits(Horner(b, u));
      AddNeg(Horner(a, u), Horner(b, u));
    }
  }

  lemma OddPowerIsMinusOne(turn: Turns, inv: bool, m: nat, k: nat)
    requires IsExponential(turn) && m > 0
    ensures Pow(Pow(turn(inv, Pow2(m)), 2 * k + 1), Pow2(m - 1)) == Neg(ONE)
  {
    hide Mul, Neg, Pow, IsExponential;
    var w, h := turn(inv, Pow2(m)), Pow2(m - 1);
    PowPow(w, 2 * k + 1, h);
    PowPow(w, h, 2 * k + 1);
    assert h * (2 * k + 1) == (2 * k + 1) * h;
    HalfTurn(turn, inv, m);
    var minus := Neg(ONE);
    PowAdd(minus, 2 * k, 1);
    PowAdd(minus, k, k);
    PowOfProduct(minus, minus, k);
    MulNeg(ONE, ONE);
    MulUnits(ONE);
    PowOfOne(k);
    PowOne(minus);
    MulUnits(minus);
  }

  lemma TwistCancels(turn: Turns, inv: bool, n: nat, k: nat, r: real, d: Complex)
    requires IsExponential(turn) && n > 0
    ensures Mul(Pow(turn(!inv, n), k), Scale(r, Mul(d, Pow(turn(inv, n), k)))) == Scale(r, d)
  {
    hide Mul, Scale, Pow, IsExponential;
    var v, w := turn(!inv, n), turn(inv, n);
    TurnLaws(turn, inv, n);
    PowOfProduct(v, w, k);
    PowOfOne(k);
    MulScale(Pow(v, k), r, Mul(d, Pow(w, k)));
    MulComm(d, Pow(w, k));
    MulAssoc(Pow(v, k), Pow(w, k), d);
    MulUnits(d);
  }

  lemma SumPlusDifference(r: real, a: Complex, b: Complex)
    ensures Add(Scale(r, Add(a, b)), Scale(r, Sub(a, b))) == Scale(2.0 * r, a)
    ensures Sub(Scale(r, Add(a, b)), Scale(r, Sub(a, b))) == Scale(2.0 * r, b)
  {
  }

  /** Transforming with the opposite sign undoes a transform, up to the factor n. */
  lemma {:induction false} OppositeTransform(x: seq<Complex>, m: nat, turn: Turns, inv: bool, k: nat)
    requires IsExponential(turn) && |x| == Pow2(m) && k < |x|
    ensures Horner(Dft(x, turn(inv, Pow2(m))), Pow(turn(!inv, Pow2(m)), k)) == Scale(Pow2(m) as real, x[k])
    decreases m
  {
    hide Add, Sub, Mul, Neg, Horner, Scale, DftSum, Dft, Pow, IsExponential, Evens, Odds;
    if m == 0 {
      OneSample(x, turn(inv, 1), Pow(turn(!inv, 1), k));
    } else {
      var w, h := turn(inv, Pow2(m)), Pow2(m - 1);
      var j := if k < h then k else k - h;
      var a, b := x[..h], x[h..];
      var sums, twisted := Sum(a, b), Twisted(Difference(a, b), w);
      EvenOutputs(x, m, turn, inv);
      OddOutputs(x, m, turn, inv);
      OppositeTransform(sums, m - 1, turn, inv, j);
      OppositeTransform(twisted, m - 1, turn, inv, j);
      assert sums[j] == Add(a[j], b[j]);
      assert twisted[j] == Mul(Sub(a[j], b[j]), Pow(w, j));
      Reassemble(Dft(x, w), a[j], b[j], m, turn, inv, k);
    }
  }

  /** The two half-length answers at j combine to the answers at j and at j + h. */
  lemma Reassemble(spectrum: seq<Complex>, a: Complex, b: Complex, m: nat, turn: Turns, inv: bool, k: nat)
    requires IsExponential(turn) && m > 0 && |spectrum| == Pow2(m) && k < Pow2(m)
    requires var h := Pow2(m - 1);
      var j := if k < h then k else k - h;
      && Horner(Evens(spectrum), Pow(turn(!inv, h), j)) == Scale(h as real, Add(a, b))
      && Horner(Odds(spectrum), Pow(turn(!inv, h), j)) ==
         Scale(h as real, Mul(Sub(a, b), Pow(turn(inv, Pow2(m)), j)))
    ensures Horner(spectrum, Pow(turn(!inv, Pow2(m)), k)) ==
            Scale(Pow2(m) as real, if k < Pow2(m - 1) then a else b)
  {
    hide *;
    var w', h := turn(!inv, Pow2(m)), Pow2(m - 1);
    Halves(m);
    var j := if k < h then k else k - h;
    var r, u := h as real, Pow(w', j);
    var o := Scale(r, Mul(Sub(a, b), Pow(turn(inv, Pow2(m)), j)));
    SquaredRoot(turn, !inv, m, j);
    AtRootAndOpposite(spectrum, u, Pow(turn(!inv, h), j));
    TwistCancels(turn, inv, Pow2(m), j, r, Sub(a, b));
    MulComm(u, o);
    SumPlusDifference(r, a, b);
  }

  lemma OneSample(x: seq<Complex>, w: Complex, u: Complex)
    requires |x| == 1
    ensures Horner(Dft(x, w), u) == Scale(1.0, x[0])
  {
    assert DftSum(x, w, 0, 1) == Add(DftSum(x, w, 0, 0), Mul(x[0], Pow(w, 0 * 0)));
    assert Pow(w, 0 * 0) == ONE;
    assert DftSum(x, w, 0, 1) == x[0];
    var y := Dft(x, w);
    assert y[1..] == [];
    assert Horner(y[1..], u) == ZERO;
    MulUnits(u);
  }
}
