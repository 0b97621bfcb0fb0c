/**
 Positions on a ring: which of them share a slot.
 */
module Laps {
  lemma ModApart(a: nat, b: nat, n: nat)
    requires 0 < n && a < b < a + n
    ensures a % n != b % n
  {
    var qa, qb := a / n, b / n;
    assert a == n * qa + a % n && b == n * qb + b % n;
    if a % n == b % n {
      assert b - a == n * (qb - qa);
      if qb - qa >= 1 { MulAtLeast(n, qb - qa); } else { MulAtMost(n, qb - qa); }
    }
  }

  lemma MulAtLeast(n: nat, k: int)
    requires k >= 1
    ensures n * k >= n
  {
  }

  lemma MulAtMost(n: nat, k: int)
    requires k <= 0
    ensures n * k <= 0
  {
  }

  lemma ModNext(a: nat, n: nat)
    requires 0 < n
    ensures (a + n) % n == a % n
  {
    var q, r := a / n, a % n;
    assert a == n * q + r;
    assert a + n == n * (q + 1) + r;
    ModIs(n, q + 1, r);
  }

  lemma ModIs(n: nat, q: nat, r: nat)
    requires r < n
    ensures (n * q + r) % n == r
  {
    var x := n * q + r;
    var q', r' := x / n, x % n;
    assert x == n * q' + r';
    assert n * (q - q') == r' - r && n * (q' - q) == r - r';
    if q > q' { MulAtLeast(n, q - q'); } else if q < q' { MulAtLeast(n, q' - q); }
  }

  /** A slot's first position is its own index. */
  lemma ModBelow(a: nat, n: nat)
    requires 0 < n
    ensures a % n <= a && (a < n ==> a % n == a)
  {
    var q, r := a / n, a % n;
    assert a == n * q + r;
    if a < n { ModIs(n, 0, a); }
  }

  /** A later position in the same slot is at least a lap ahead. */
  lemma LapAhead(a: nat, b: nat, n: nat)
    requires 0 < n && a < b && a % n == b % n
    ensures b >= a + n
  {
    if b < a + n { ModApart(a, b, n); }
  }
}
