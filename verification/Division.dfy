/** Quotients and remainders by a length that is not a constant. */
module Division {

  lemma Quotient(a: nat, n: nat, q: nat, r: nat)
    requires n > 0 && a == q * n + r && r < n
    ensures a % n == r
  {
    var d := a / n - q;
    assert d * n + (a % n - r) == 0;
    Scaled(d, n);
  }

  lemma Scaled(d: int, n: nat)
    ensures (d >= 1 ==> d * n >= n) && (d <= -1 ==> d * n <= -(n as int))
  {
    if d >= 1 {
      assert (d - 1) * n >= 0;
    } else if d <= -1 {
      assert (-d - 1) * n >= 0;
    }
  }
}
