/** Quotient and remainder by a divisor that is not a constant. */
module Division {

  lemma Multiple(d: int, n: nat)
    ensures d > 0 ==> d * n >= n
    ensures d < 0 ==> d * n <= 0 - n
  {
  }

  /** A number is divided when a quotient and a remainder are found. */
  lemma Divides(k: nat, n: nat, q: nat, r: nat)
    requires r < n && k == q * n + r
    ensures k / n == q && k % n == r
  {
    var d := k / n - q;
    assert d * n == r - k % n;
    Multiple(d, n);
  }
}
