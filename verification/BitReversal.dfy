/** Integer bit operations and the bit-reversal permutation. */
module BitReversal {
  import opened Powers
  import opened FourierSpec
  import opened FastFourier
  import opened ComplexNumbers

  function BitAnd(a: nat, b: nat): nat {
    if a == 0 || b == 0 then 0 else 2 * BitAnd(a / 2, b / 2) + (a % 2) * (b % 2)
  }

  function BitXor(a: nat, b: nat): nat
    decreases a + b
  {
    if a == 0 then b else if b == 0 then a
    else 2 * BitXor(a / 2, b / 2) + (a % 2 + b % 2) % 2
  }

  ghost predicate IsPowerOfTwo(n: nat) {
    exists m: nat :: n == Pow2(m)
  }

  lemma {:induction false} BitAndSelf(n: nat)
    ensures BitAnd(n, n) == n
  {
    if n > 0 {
      BitAndSelf(n / 2);
    }
  }

  /** n & (n - 1) is zero exactly for the powers of two. */
  lemma {:induction false} PowerOfTwoTest(n: nat)
    requires n > 0
    ensures BitAnd(n, n - 1) == 0 <==> IsPowerOfTwo(n)
  {
    if n == 1 {
      assert n == Pow2(0);
    } else if n % 2 == 1 {
      BitAndSelf(n / 2);
      assert (n - 1) / 2 == n / 2;
      forall m: nat ensures n != Pow2(m) {
        assert m > 0 ==> Pow2(m) % 2 == 0;
      }
    } else {
      PowerOfTwoTest(n / 2);
      assert (n - 1) / 2 == n / 2 - 1;
      if IsPowerOfTwo(n / 2) {
        var m: nat :| n / 2 == Pow2(m);
        assert n == Pow2(m + 1);
      }
      if IsPowerOfTwo(n) {
        var m: nat :| n == Pow2(m);
        assert n / 2 == Pow2(m - 1);
      }
    }
  }

  /** Testing and flipping the top bit of a number of k + 1 bits. */
  lemma {:induction false} TopBit(t: nat, k: nat)
    requires t < 2 * Pow2(k)
    ensures BitAnd(t, Pow2(k)) != 0 <==> t >= Pow2(k)
    ensures BitXor(t, Pow2(k)) == if t >= Pow2(k) then t - Pow2(k) else t + Pow2(k)
  {
    if k > 0 {
      var b := Pow2(k - 1);
      assert Pow2(k) == 2 * b && Pow2(k) / 2 == b;
      TopBit(t / 2, k - 1);
      BitAndEven(t, b);
      BitXorEven(t, b);
    }
  }

  lemma BitAndEven(t: nat, b: nat)
    ensures BitAnd(t, 2 * b) == 2 * BitAnd(t / 2, b)
  {
    assert (2 * b) / 2 == b && (2 * b) % 2 == 0;
    if t != 0 && b != 0 {
      assert BitAnd(t, 2 * b) == 2 * BitAnd(t / 2, (2 * b) / 2) + (t % 2) * 0;
    }
  }

  lemma BitXorEven(t: nat, b: nat)
    requires b > 0
    ensures BitXor(t, 2 * b) == 2 * BitXor(t / 2, b) + t % 2
  {
    hide BitXor;
    var c := 2 * b;
    assert c / 2 == b && c % 2 == 0 && c > 0;
    if t == 0 {
      BitXorZero(b);
      BitXorZero(c);
    } else {
      BitXorStep(t, c);
    }
  }

  lemma BitXorZero(b: nat)
    ensures BitXor(0, b) == b
  {
  }

  lemma BitXorStep(a: nat, b: nat)
    requires a > 0 && b > 0
    ensures BitXor(a, b) == 2 * BitXor(a / 2, b / 2) + (a % 2 + b % 2) % 2
  {
  }

  /** The low m bits of i in reverse order. */
  function Reverse(m: nat, i: nat): (r: nat)
    ensures r < Pow2(m)
  {
    if m == 0 then 0 else (if i % 2 == 1 then Pow2(m - 1) else 0) + Reverse(m - 1, i / 2)
  }

  /** Carrying: while the top bit of the reversal is set, i is odd and the carry moves on. */
  lemma ReverseCarry(k: nat, v: nat)
    requires v + 1 < Pow2(k)
    ensures k > 0
    ensures BitAnd(Reverse(k, v), Pow2(k - 1)) != 0 ==>
      && k > 1 && v / 2 + 1 < Pow2(k - 1)
      && BitXor(Reverse(k, v), Pow2(k - 1)) == Reverse(k - 1, v / 2)
      && Reverse(k, v + 1) == Reverse(k - 1, v / 2 + 1)
    ensures BitAnd(Reverse(k, v), Pow2(k - 1)) == 0 ==>
      BitXor(Reverse(k, v), Pow2(k - 1)) == Reverse(k, v + 1)
  {
    var b, r := Pow2(k - 1), Reverse(k - 1, v / 2);
    assert Reverse(k, v) == (if v % 2 == 1 then b else 0) + r;
    TopBit(Reverse(k, v), k - 1);
    if v % 2 == 1 {
      assert (v + 1) / 2 == v / 2 + 1;
      assert k == 1 ==> Pow2(k) == 2;
    } else {
      assert (v + 1) / 2 == v / 2;
    }
  }

  /** Reversal read from the other end. */
  lemma {:induction false} ReverseTop(m: nat, i: nat)
    requires m > 0 && i < Pow2(m)
    ensures Reverse(m, i) ==
            if i < Pow2(m - 1) then 2 * Reverse(m - 1, i) else 2 * Reverse(m - 1, i - Pow2(m - 1)) + 1
  {
    if m == 1 {
    } else {
      var h := Pow2(m - 1);
      ReverseTop(m - 1, i / 2);
      assert i >= h ==> (i - h) % 2 == i % 2 && (i - h) / 2 == i / 2 - Pow2(m - 2);
    }
  }

  lemma {:induction false} ReverseInvolution(m: nat, i: nat)
    requires i < Pow2(m)
    ensures Reverse(m, Reverse(m, i)) == i
  {
    if m > 0 {
      ReverseInvolution(m - 1, i / 2);
      ReverseTop(m, Reverse(m, i));
    }
  }

  lemma {:induction false} ReverseZero(m: nat)
    ensures Reverse(m, 0) == 0
  {
    if m > 0 {
      ReverseZero(m - 1);
    }
  }

  /** The recursive even-odd shuffle is the bit-reversal permutation. */
  lemma {:induction false} BitReversedAt(x: seq<Complex>, m: nat, i: nat)
    requires |x| == Pow2(m) && i < |x|
    ensures BitReversed(x, m)[i] == x[Reverse(m, i)]
    decreases m
  {
    if m > 0 {
      var h := Pow2(m - 1);
      ReverseTop(m, i);
      if i < h {
        BitReversedAt(Evens(x), m - 1, i);
      } else {
        BitReversedAt(Odds(x), m - 1, i - h);
      }
    }
  }
}
