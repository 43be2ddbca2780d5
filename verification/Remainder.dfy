/** Facts about remainders. */
module Remainders {

  lemma {:induction false} TimesMonotone(a: int, b: int, n: nat)
    requires a <= b
    ensures a * n <= b * n
  {
  }

  lemma {:induction false} RemainderUnique(a: int, r: nat, b: int, s: nat, n: nat)
    requires r < n && s < n && a * n + r == b * n + s
    ensures r == s
  {
    if a < b {
      TimesMonotone(a + 1, b, n);
    } else if b < a {
      TimesMonotone(b + 1, a, n);
    }
  }

  lemma {:induction false} SameRemainder(r: nat, m: nat, n: nat)
    requires n > 0
    ensures (m * n + r) % n == r % n
  {
    var x := m * n + r;
    assert r == r / n * n + r % n;
    assert x == (m + r / n) * n + r % n by {
      assert (m + r / n) * n == m * n + r / n * n;
    }
    RemainderUnique(x / n, x % n, m + r / n, r % n, n);
  }

  lemma {:induction false} CloseRemainders(x: nat, y: nat, n: nat)
    requires n > 0 && x <= y && x % n == y % n
    ensures y == x || y >= x + n
  {
    var k := y / n - x / n;
    assert x == x / n * n + x % n && y == y / n * n + y % n;
    assert y - x == k * n;
    if k >= 1 {
      TimesMonotone(1, k, n);
    } else {
      TimesMonotone(k, 0, n);
    }
  }

  lemma {:induction false} RemainderOf(x: nat, q: nat, r: nat, n: nat)
    requires r < n && x == q * n + r
    ensures x % n == r
  {
    RemainderUnique(x / n, x % n, q, r, n);
  }

  /** Some `o` below `n` leads from `i` to the remainder `b`. */
  lemma {:induction false} RemainderReached(i: nat, b: nat, n: nat) returns (o: nat)
    requires b < n
    ensures o < n && (i + o) % n == b
  {
    var q, r := i / n, i % n;
    var a := q * n;
    assert i == a + r;
    if r <= b {
      o := b - r;
      RemainderOf(i + o, q, b, n);
    } else {
      o := b - r + n;
      assert (q + 1) * n == a + n;
      RemainderOf(i + o, q + 1, b, n);
    }
  }
}
