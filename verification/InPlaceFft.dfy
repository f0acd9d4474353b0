/** The transform as the generator runs it: on one buffer, in place. */
module InPlaceFft {
  import opened Powers
  import opened Wrappers
  import opened ComplexNumbers
  import opened FourierSpec
  import opened FastFourier
  import opened BitReversal

  datatype FftError = NotAPowerOfTwo

  /** What the transform computes: the plain sum, divided by the length when inverting. */
  ghost function Transform(x: seq<Complex>, inv: bool, turn: Turns): seq<Complex>
    requires |x| > 0
  {
    var y := Dft(x, turn(inv, |x|));
    if inv then seq(|x|, k requires 0 <= k < |x| => DivReal(y[k], |x| as real)) else y
  }

  method Fft(values: seq<Complex>, inverse: bool, turn: Turns) returns (r: Result<seq<Complex>, FftError>)
    requires IsExponential(turn)
    ensures r.Ok? <==> IsPowerOfTwo(|values|)
    ensures r.Ok? ==> values != [] && r.value == Transform(values, inverse, turn)
  {
    hide Butterfly, Spectrum, Dft, BitReversed, IsExponential, BitAnd, DivReal;
    var size := |values|;
    if size == 0 {
      return Err(NotAPowerOfTwo);
    }
    PowerOfTwoTest(size);
    if BitAnd(size, size - 1) != 0 {
      return Err(NotAPowerOfTwo);
    }
    ghost var m: nat :| size == Pow2(m);
    var result := new Complex[size](i requires 0 <= i < size => values[i]);
    assert result[..] == values;
    BitReverse(result, m);
    ghost var y := result[..];
    var length := 2;
    ghost var s := 0;
    SingletonBlocks(y, turn, inverse);
    while length <= size
      invariant s <= m && length == 2 * Pow2(s)
      invariant BlocksDone(result[..], y, 0, size, s, turn, inverse)
      decreases size - length
    {
      Pow2Monotone(s + 1, m);
      ButterflyPass(result, y, length, m, s + 1, turn, inverse);
      length := length * 2;
      s := s + 1;
    }
    if s < m {
      Pow2Monotone(s + 1, m);
    }
    assert BlockDone(result[..], y, 0, m, turn, inverse);
    assert result[..] == Spectrum(y, m, turn, inverse) by {
      assert y[0..size] == y && result[..][0..size] == result[..];
    }
    SpectrumIsDft(values, m, turn, inverse);
    if inverse {
      var scaled := seq(size, i requires 0 <= i < size reads result => DivReal(result[i], size as real));
      assert scaled == Transform(values, true, turn);
      return Ok(scaled);
    }
    r := Ok(result[..]);
  }

  // ----- The bit-reversal swap pass -----

  /** Positions below n, and their partners, hold their final samples. */
  ghost predicate SwappedBelow(r: seq<Complex>, x: seq<Complex>, m: nat, n: nat) {
    && |r| == |x| == Pow2(m)
    && forall i: nat {:trigger r[i]} | i < |x| ::
         r[i] == if i < n || Reverse(m, i) < n then x[Reverse(m, i)] else x[i]
  }

  method BitReverse(result: array<Complex>, ghost m: nat)
    requires result.Length == Pow2(m)
    modifies result
    ensures result[..] == BitReversed(old(result[..]), m)
  {
    hide *;
    var size := result.Length;
    ghost var x := result[..];
    var target := 0;
    ReverseZero(m);
    SwapsStart(x, m);
    for source := 1 to size
      invariant target == Reverse(m, source - 1)
      invariant SwappedBelow(result[..], x, m, source)
    {
      target := NextReversed(target, size, m, source - 1);
      SwapStep(result[..], x, m, source);
      if source < target {
        result[source], result[target] := result[target], result[source];
      }
    }
    SwapsFinish(result[..], x, m);
  }

  lemma SwapsStart(x: seq<Complex>, m: nat)
    requires |x| == Pow2(m)
    ensures SwappedBelow(x, x, m, 1)
  {
    ReverseZero(m);
    forall i: nat | i < |x| && Reverse(m, i) < 1 ensures i == 0 {
      ReverseInvolution(m, i);
    }
  }

  lemma SwapStep(r: seq<Complex>, x: seq<Complex>, m: nat, source: nat)
    requires SwappedBelow(r, x, m, source) && source < |x|
    ensures var t := Reverse(m, source);
      && t < |r|
      && SwappedBelow(if source < t then r[source := r[t]][t := r[source]] else r, x, m, source + 1)
  {
    hide Reverse, Pow2;
    forall i: nat | i < |x| ensures Reverse(m, Reverse(m, i)) == i {
      ReverseInvolution(m, i);
    }
  }

  lemma SwapsFinish(r: seq<Complex>, x: seq<Complex>, m: nat)
    requires SwappedBelow(r, x, m, |x|)
    ensures r == BitReversed(x, m)
  {
    hide Reverse, BitReversed;
    forall i: nat | i < |x| ensures r[i] == BitReversed(x, m)[i] {
      BitReversedAt(x, m, i);
    }
  }

  /** Adding one from the top bit down: the reversal of i + 1 from the reversal of i. */
  method NextReversed(reversed: nat, size: nat, ghost m: nat, ghost i: nat) returns (target: nat)
    requires size == Pow2(m) && i + 1 < size && reversed == Reverse(m, i)
    ensures target == Reverse(m, i + 1)
  {
    hide BitAnd, BitXor, Reverse;
    target := reversed;
    var bit := size / 2;
    ghost var k: nat, v: nat := m, i;
    ReverseCarry(k, v);
    while BitAnd(target, bit) != 0
      invariant 0 < k <= m && v + 1 < Pow2(k) && bit == Pow2(k - 1)
      invariant target == Reverse(k, v) && Reverse(m, i + 1) == Reverse(k, v + 1)
      decreases k
    {
      ReverseCarry(k, v);
      target := BitXor(target, bit);
      bit := bit / 2;
      k, v := k - 1, v / 2;
    }
    ReverseCarry(k, v);
    target := BitXor(target, bit);
  }

  // ----- The butterfly passes -----

  /** The block of 2^s entries at p holds the transform of the same block of y. */
  ghost predicate BlockDone(r: seq<Complex>, y: seq<Complex>, p: nat, s: nat, turn: Turns, inv: bool) {
    && p + Pow2(s) <= |r| == |y|
    && r[p..p + Pow2(s)] == Spectrum(y[p..p + Pow2(s)], s, turn, inv)
  }

  /** Every aligned block of 2^s entries between lo and hi is done. */
  ghost predicate BlocksDone(r: seq<Complex>, y: seq<Complex>, lo: nat, hi: nat, s: nat, turn: Turns, inv: bool) {
    forall p: nat | lo <= p < hi && p % Pow2(s) == 0 :: BlockDone(r, y, p, s, turn, inv)
  }

  lemma SingletonBlocks(y: seq<Complex>, turn: Turns, inv: bool)
    ensures BlocksDone(y, y, 0, |y|, 0, turn, inv)
  {
  }

  lemma {:induction false} Pow2Monotone(a: nat, b: nat)
    ensures a <= b ==> Pow2(a) <= Pow2(b) && Pow2(b) % Pow2(a) == 0
    ensures a > b ==> Pow2(a) > Pow2(b)
  {
    if a < b {
      Pow2Monotone(a, b - 1);
      DoubleMultiple(Pow2(b - 1), Pow2(a));
    } else if a > b + 1 {
      Pow2Monotone(a - 1, b);
    }
  }

  lemma DoubleMultiple(a: nat, n: nat)
    requires n > 0 && a % n == 0
    ensures (2 * a) % n == 0
  {
    var q := a / n;
    assert 2 * a == n * (2 * q);
    MultipleMod(2 * q, n);
  }

  lemma ProductMonotone(n: nat, a: int, b: int)
    ensures a <= b ==> n * a <= n * b
  {
  }

  lemma MultipleMod(q: nat, n: nat)
    requires n > 0
    ensures 0 <= n * q && (n * q) % n == 0
  {
    var p := n * q;
    var d, e := p / n, p % n;
    assert p == n * d + e;
    assert n * (q - d) == e;
    ProductMonotone(n, 1, q - d);
    ProductMonotone(n, q - d, -1);
  }

  lemma MultiplesAreApart(a: nat, b: nat, n: nat)
    requires n > 0 && a % n == 0 && b % n == 0 && a < b
    ensures a + n <= b
  {
    var p, q := a / n, b / n;
    assert a == n * p && b == n * q;
    ProductMonotone(n, q, p);
    ProductMonotone(n, p + 1, q);
  }

  lemma NextMultiple(a: nat, n: nat)
    requires n > 0 && a % n == 0
    ensures (a + n) % n == 0
  {
    MultipleMod(a / n + 1, n);
    assert a + n == n * (a / n + 1);
  }

  method ButterflyPass(result: array<Complex>, ghost y: seq<Complex>, length: nat, ghost m: nat, ghost s: nat,
                       turn: Turns, inv: bool)
    requires 0 < s <= m && length == Pow2(s) && result.Length == Pow2(m)
    requires BlocksDone(result[..], y, 0, result.Length, s - 1, turn, inv)
    modifies result
    ensures BlocksDone(result[..], y, 0, result.Length, s, turn, inv)
  {
    hide Butterfly, Spectrum, BlockDone;
    var root := turn(inv, length);
    var start := 0;
    Pow2Monotone(s, m);
    while start < result.Length
      invariant start % length == 0 && start <= result.Length
      invariant BlocksDone(result[..], y, 0, start, s, turn, inv)
      invariant BlocksDone(result[..], y, start, result.Length, s - 1, turn, inv)
      decreases result.Length - start
    {
      hide BlocksDone;
      MultiplesAreApart(start, result.Length, length);
      ghost var before := result[..];
      ButterflyBlock(result, start, length, root);
      PassStep(before, result[..], y, start, m, s, turn, inv);
      NextMultiple(start, length);
      start := start + length;
    }
  }

  /** Combining one block finishes it and leaves every other block alone. */
  lemma PassStep(before: seq<Complex>, after: seq<Complex>, y: seq<Complex>, start: nat, m: nat, s: nat,
                 turn: Turns, inv: bool)
    requires 0 < s <= m && |before| == |after| == Pow2(m) && start + Pow2(s) <= |before| && start % Pow2(s) == 0
    requires after[..start] == before[..start]
    requires after[start + Pow2(s)..] == before[start + Pow2(s)..]
    requires var h := Pow2(s - 1);
      after[start..start + Pow2(s)] ==
      Butterfly(before[start..start + h], before[start + h..start + Pow2(s)], turn(inv, Pow2(s)))
    requires BlocksDone(before, y, 0, start, s, turn, inv)
    requires BlocksDone(before, y, start, |before|, s - 1, turn, inv)
    ensures BlocksDone(after, y, 0, start + Pow2(s), s, turn, inv)
    ensures BlocksDone(after, y, start + Pow2(s), |after|, s - 1, turn, inv)
  {
    hide Butterfly, Spectrum;
    var n, h := Pow2(s), Pow2(s - 1);
    forall p: nat | p < start + n && p % n == 0
      ensures BlockDone(after, y, p, s, turn, inv)
    {
      if p < start {
        MultiplesAreApart(p, start, n);
        assert BlockDone(before, y, p, s, turn, inv);
        PrefixSlice(after, before, start, p, p + n);
      } else {
        if start < p {
          MultiplesAreApart(start, p, n);
        }
        StartIsAligned(start, s);
        assert BlockDone(before, y, start, s - 1, turn, inv);
        assert BlockDone(before, y, start + h, s - 1, turn, inv);
        JoinBlocks(before, after, y, start, s, turn, inv);
      }
    }
    forall p: nat | start + n <= p < |after| && p % h == 0
      ensures BlockDone(after, y, p, s - 1, turn, inv)
    {
      assert BlockDone(before, y, p, s - 1, turn, inv);
      SuffixSlice(after, before, start + n, p, p + h);
    }
  }

  lemma JoinBlocks(before: seq<Complex>, after: seq<Complex>, y: seq<Complex>, start: nat, s: nat,
                   turn: Turns, inv: bool)
    requires s > 0 && start + Pow2(s) <= |after| == |y|
    requires BlockDone(before, y, start, s - 1, turn, inv)
    requires BlockDone(before, y, start + Pow2(s - 1), s - 1, turn, inv)
    requires var h := Pow2(s - 1);
      after[start..start + Pow2(s)] ==
      Butterfly(before[start..start + h], before[start + h..start + Pow2(s)], turn(inv, Pow2(s)))
    ensures BlockDone(after, y, start, s, turn, inv)
  {
    hide Butterfly;
    var n, h := Pow2(s), Pow2(s - 1);
    var block := y[start..start + n];
    assert block[..h] == y[start..start + h];
    assert block[h..] == y[start + h..start + h + h];
  }

  lemma PrefixSlice(a: seq<Complex>, b: seq<Complex>, n: nat, p: nat, q: nat)
    requires p <= q <= n <= |a| && n <= |b| && a[..n] == b[..n]
    ensures a[p..q] == b[p..q]
  {
    assert forall i | p <= i < q :: a[i] == a[..n][i] && b[i] == b[..n][i];
  }

  lemma SuffixSlice(a: seq<Complex>, b: seq<Complex>, n: nat, p: nat, q: nat)
    requires n <= p <= q <= |a| == |b| && a[n..] == b[n..]
    ensures a[p..q] == b[p..q]
  {
    assert forall i | p <= i < q :: a[i] == a[n..][i - n] && b[i] == b[n..][i - n];
  }

  lemma StartIsAligned(start: nat, s: nat)
    requires s > 0 && start % Pow2(s) == 0
    ensures start % Pow2(s - 1) == 0 && (start + Pow2(s - 1)) % Pow2(s - 1) == 0
  {
    var h := Pow2(s - 1);
    var q := start / Pow2(s);
    assert start == h * (2 * q);
    MultipleMod(2 * q, h);
    NextMultiple(start, h);
  }

  method ButterflyBlock(result: array<Complex>, start: nat, length: nat, root: Complex)
    requires length % 2 == 0 && start + length <= result.Length
    modifies result
    ensures result[..start] == old(result[..])[..start]
    ensures result[start + length..] == old(result[..])[start + length..]
    ensures result[start..start + length] ==
            Butterfly(old(result[..])[start..start + length / 2], old(result[..])[start + length / 2..start + length], root)
  {
    hide *;
    ghost var x := result[..];
    var twiddle := ONE;
    PowZero(root);
    var half := length / 2;
    for offset := 0 to half
      invariant twiddle == Pow(root, offset)
      invariant forall i | 0 <= i < result.Length && !(start <= i < start + offset) &&
                           !(start + half <= i < start + half + offset) :: result[i] == x[i]
      invariant forall i {:trigger result[i]} | start <= i < start + offset ::
        result[i] == Add(x[i], Mul(x[i + half], Pow(root, i - start)))
      invariant forall i {:trigger result[i]} | start + half <= i < start + half + offset ::
        result[i] == Sub(x[i - half], Mul(x[i], Pow(root, i - half - start)))
    {
      var even := result[start + offset];
      var odd := Mul(result[start + offset + half], twiddle);
      result[start + offset] := Add(even, odd);
      result[start + offset + half] := Sub(even, odd);
      NextPower(root, offset);
      twiddle := Mul(twiddle, root);
    }
    assert result[..start] == x[..start];
    assert result[start + length..] == x[start + length..];
    BlockIsButterfly(result[..], x, start, half, root);
  }

  lemma PowZero(a: Complex)
    ensures Pow(a, 0) == ONE
  {
  }

  lemma NextPower(a: Complex, n: nat)
    ensures Mul(Pow(a, n), a) == Pow(a, n + 1)
  {
    hide Mul;
    MulComm(Pow(a, n), a);
  }

  lemma BlockIsButterfly(r: seq<Complex>, x: seq<Complex>, start: nat, half: nat, root: Complex)
    requires start + 2 * half <= |r| == |x|
    requires forall i {:trigger r[i]} | start <= i < start + half ::
      r[i] == Add(x[i], Mul(x[i + half], Pow(root, i - start)))
    requires forall i {:trigger r[i]} | start + half <= i < start + 2 * half ::
      r[i] == Sub(x[i - half], Mul(x[i], Pow(root, i - half - start)))
    ensures r[start..start + 2 * half] ==
            Butterfly(x[start..start + half], x[start + half..start + 2 * half], root)
  {
    hide Add, Sub, Mul, Pow;
    var e, o := x[start..start + half], x[start + half..start + 2 * half];
    var got, want := r[start..start + 2 * half], Butterfly(e, o, root);
    assert |got| == |want|;
    forall k | 0 <= k < 2 * half ensures got[k] == want[k] {
      var i := if k < half then start + k else start + k - half;
      assert e[i - start] == x[i] && o[i - start] == x[i + half];
      assert got[k] == r[start + k];
    }
  }

  // ----- The inverse call undoes the transform -----

  /** Either direction followed by the other returns the original sequence. */
  lemma TransformInverse(x: seq<Complex>, inv: bool, turn: Turns)
    requires IsExponential(turn) && IsPowerOfTwo(|x|)
    ensures x != [] && |Transform(x, inv, turn)| == |x|
    ensures Transform(Transform(x, inv, turn), !inv, turn) == x
  {
    hide Horner, Pow, DftSum, IsExponential, Mul;
    var m: nat :| |x| == Pow2(m);
    var n := |x|;
    var w, w' := turn(inv, n), turn(!inv, n);
    var y := Dft(x, w);
    forall k: nat | k < n
      ensures Dft(y, w')[k] == Scale(n as real, x[k])
    {
      DftIsHorner(y, w', k);
      OppositeTransform(x, m, turn, inv, k);
    }
    if inv {
      var z := Transform(x, true, turn);
      var r := 1.0 / n as real;
      assert z == Scaled(Complex(r, 0.0), y) by {
        forall k | 0 <= k < n ensures z[k] == Mul(Complex(r, 0.0), y[k]) {
          DivIsMul(y[k], n as real);
        }
      }
      forall k: nat | k < n ensures Dft(z, w')[k] == x[k] {
        DftIsHorner(z, w', k);
        DftIsHorner(y, w', k);
        HornerScaled(Complex(r, 0.0), y, Pow(w', k));
        ScaleCancels(x[k], n as real);
      }
      assert Dft(z, w') == x;
    } else {
      forall k: nat | k < n ensures DivReal(Dft(y, w')[k], n as real) == x[k] {
        ScaleCancels(x[k], n as real);
      }
      assert Transform(y, true, turn) == x;
    }
  }

  lemma DivIsMul(a: Complex, r: real)
    requires r != 0.0
    ensures DivReal(a, r) == Mul(Complex(1.0 / r, 0.0), a)
  {
    assert a.re / r == 1.0 / r * a.re && a.im / r == 1.0 / r * a.im;
  }

  lemma ScaleCancels(a: Complex, r: real)
    requires r != 0.0
    ensures Mul(Complex(1.0 / r, 0.0), Scale(r, a)) == a
    ensures DivReal(Scale(r, a), r) == a
  {
    DivIsMul(Scale(r, a), r);
  }

  // ----- Which way the transform turns -----

  /** exp(2*pi*i*f*j / n) for j from 0 on: f turns counter-clockwise. */
  ghost function Tone(n: nat, f: nat, turn: Turns): (r: seq<Complex>)
    ensures |r| == n
  {
    seq(n, j requires 0 <= j < n => Pow(turn(true, n), j * f))
  }

  ghost function Unit(n: nat, f: nat): (r: seq<Complex>)
    ensures |r| == n
  {
    seq(n, j => if j == f then ONE else ZERO)
  }

  lemma {:induction false} HornerOfNothing(x: seq<Complex>, u: Complex)
    requires forall i | 0 <= i < |x| :: x[i] == ZERO
    ensures Horner(x, u) == ZERO
  {
    if x != [] {
      hide Mul;
      HornerOfNothing(x[1..], u);
      MulUnits(u);
      AddZero(ZERO);
    }
  }

  lemma {:induction false} HornerOfUnit(n: nat, f: nat, u: Complex)
    requires f < n
    ensures Horner(Unit(n, f), u) == Pow(u, f)
  {
    hide Mul, Add;
    var x := Unit(n, f);
    if f == 0 {
      HornerOfNothing(x[1..], u);
      MulUnits(u);
      AddZero(ONE);
    } else {
      assert x[1..] == Unit(n - 1, f - 1);
      HornerOfUnit(n - 1, f - 1, u);
      AddZero(Pow(u, f));
    }
  }

  /** The forward transform puts a tone of f counter-clockwise turns at index f, and nothing elsewhere. */
  lemma ToneLandsAtItsIndex(m: nat, f: nat, turn: Turns)
    requires IsExponential(turn) && f < Pow2(m)
    ensures Tone(Pow2(m), f, turn) != []
    ensures Transform(Tone(Pow2(m), f, turn), false, turn) ==
            seq(Pow2(m), k => if k == f then Complex(Pow2(m) as real, 0.0) else ZERO)
  {
    var n := Pow2(m);
    var w, x := turn(true, n), Unit(n, f);
    hide Horner, Pow, Mul, IsExponential, DftSum;
    forall j: nat | j < n ensures Dft(x, w)[j] == Tone(n, f, turn)[j] {
      DftIsHorner(x, w, j);
      HornerOfUnit(n, f, Pow(w, j));
      PowPow(w, j, f);
      assert j * f == f * j;
    }
    assert Dft(x, w) == Tone(n, f, turn);
    forall k: nat | k < n
      ensures Dft(Dft(x, w), turn(false, n))[k] == if k == f then Complex(n as real, 0.0) else ZERO
    {
      DftIsHorner(Dft(x, w), turn(false, n), k);
      OppositeTransform(x, m, turn, true, k);
      ScaleUnits(n as real);
    }
  }

  lemma ScaleUnits(r: real)
    ensures Scale(r, ONE) == Complex(r, 0.0) && Scale(r, ZERO) == ZERO
  {
  }
}
