/** The square root that turns a voter's token balance into voting credits, on integers. */
module IntegerSqrt {

  /** The integer square root: the largest `r` with `r * r <= n`; never more than `n` itself. */
  function ISqrt(n: nat): (r: nat)
    ensures r * r <= n < (r + 1) * (r + 1)
    ensures r <= n
  {
    if n < 4 then (if n == 0 then 0 else 1)
    else
      var s := ISqrt(n / 4);
      ISqrtStep(n, s);
      if (2 * s + 1) * (2 * s + 1) <= n then 2 * s + 1 else 2 * s
  }

  /** The root of `n` is twice the root of `n / 4`, or one more. */
  lemma ISqrtStep(n: nat, s: nat)
    requires 4 <= n && s * s <= n / 4 < (s + 1) * (s + 1) && s <= n / 4
    ensures (2 * s) * (2 * s) <= n < (2 * s + 2) * (2 * s + 2) && 2 * s + 1 <= n
  {
    var q := n / 4;
    assert n == 4 * q + n % 4;
    var t := s * s;
    var u := (s + 1) * (s + 1);
    assert (2 * s) * (2 * s) == 4 * t;
    assert (2 * s + 2) * (2 * s + 2) == 4 * u;
  }

  lemma SquareMono(a: nat, b: nat)
    requires a <= b
    ensures a * a <= b * b
  {
  }

  /** The bracket `r * r <= n < (r + 1) * (r + 1)` determines the root. */
  lemma ISqrtUnique(n: nat, r: nat)
    requires r * r <= n < (r + 1) * (r + 1)
    ensures ISqrt(n) == r
  {
    var q := ISqrt(n);
    if q < r {
      SquareMono(q + 1, r);
    } else if r < q {
      SquareMono(r + 1, q);
    }
  }

  /** A balance of 100 tokens of a 6-decimal mint gives 10,000 credits. */
  lemma HundredTokensGiveTenThousandCredits()
    ensures ISqrt(100_000_000) == 10_000
  {
    ISqrtUnique(100_000_000, 10_000);
  }
}
