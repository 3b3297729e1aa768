/** Facts about Euclidean `%` used by the slideshow index and the gallery window. */
module Modular {

  lemma ModOfSmall(a: nat, n: nat)
    requires a < n
    ensures a % n == a && (a + n) % n == a
  {
  }

  /** `(a + 1) % n` follows from `a % n` by one wrapping step. */
  lemma ModSuccessor(a: nat, n: nat)
    requires n > 0
    ensures (a + 1) % n == if a % n + 1 < n then a % n + 1 else 0
  {
    var q, r := a / n, a % n;
    assert a == q * n + r;
    if r + 1 < n {
      ModUnique(a + 1, n, q, r + 1);
    } else {
      assert a + 1 == (q + 1) * n + 0;
      ModUnique(a + 1, n, q + 1, 0);
    }
  }

  /** The remainder is determined by any quotient-remainder decomposition. */
  lemma ModUnique(a: nat, n: nat, q: int, r: int)
    requires n > 0 && 0 <= r < n && a == q * n + r
    ensures a % n == r
  {
    var q', r' := a / n, a % n;
    assert a == q' * n + r';
    assert (q - q') * n == r' - r;
    SmallMultipleIsZero(q - q', n);
  }

  lemma SmallMultipleIsZero(d: int, n: int)
    requires n > 0 && -n < d * n < n
    ensures d == 0
  {
  }
}
