/** Products, quotients and remainders of natural numbers, kept apart from the proofs that need them. */
module IntegerDivision {

  lemma ProductMonotone(n: nat, a: int, b: int)
    ensures a <= b ==> a * n <= b * n
  {
  }

  lemma QuotientIsUnique(p: nat, n: nat, q: nat, r: nat, i: nat, j: nat)
    requires p == q * n + r && p == i * n + j && r < n && j < n
    ensures q == i && r == j
  {
    ProductMonotone(n, q + 1, i);
    ProductMonotone(n, i + 1, q);
    assert (q + 1) * n == q * n + n && (i + 1) * n == i * n + n;
  }

  lemma DivideStep(p: nat, n: nat)
    requires n > 0
    ensures p == p / n * n + p % n
  {
  }

  lemma MultipleOf(q: nat, n: nat)
    requires n > 0
    ensures 0 <= q * n && (q * n) % n == 0 && q * n / n == q
  {
    var p := q * n;
    ProductMonotone(n, 0, q);
    DivideStep(p, n);
    QuotientIsUnique(p, n, p / n, p % n, q, 0);
  }

  lemma RoundDown(x: nat, n: nat)
    requires n > 0
    ensures 0 <= x / n * n <= x < x / n * n + n && (x / n * n) % n == 0
  {
    DivideStep(x, n);
    MultipleOf(x / n, n);
  }
}
