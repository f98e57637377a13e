/** Quotients, remainders and powers of two. */
module Bits {
  lemma {:induction false} RowsBelow(q: nat, q': nat, n: nat)
    requires q < q'
    ensures q * n + n <= q' * n
    decreases q'
  {
    assert q' * n == (q' - 1) * n + n;
    if q < q' - 1 {
      RowsBelow(q, q' - 1, n);
    }
  }

  lemma QuotientUnique(q: nat, r: nat, q': nat, r': nat, n: nat)
    requires r < n && r' < n && q * n + r == q' * n + r'
    ensures q == q' && r == r'
  {
    if q < q' {
      RowsBelow(q, q', n);
    } else if q' < q {
      RowsBelow(q', q, n);
    }
  }

  lemma Distributes(a: nat, b: nat, n: nat)
    ensures (a + b) * n == a * n + b * n
  {
  }

  lemma DivisionIs(a: nat, n: nat, q: nat, r: nat)
    requires r < n && a == q * n + r
    ensures a / n == q && a % n == r
  {
    QuotientUnique(a / n, a % n, q, r, n);
  }

  function Pow2(k: nat): (p: nat)
    ensures p > 0
  {
    if k == 0 then 1 else 2 * Pow2(k - 1)
  }

  ghost predicate IsPow2(n: nat) {
    exists k: nat :: n == Pow2(k)
  }

  /** Dividing by `2 * p` is halving first. */
  lemma HalfFirst(a: nat, p: nat)
    requires p > 0
    ensures a / (2 * p) == a / 2 / p && a % (2 * p) == 2 * (a / 2 % p) + a % 2
  {
    var q, r := a / 2 / p, a / 2 % p;
    assert q * (2 * p) == 2 * (q * p);
    DivisionIs(a, 2 * p, q, 2 * r + a % 2);
  }
}
