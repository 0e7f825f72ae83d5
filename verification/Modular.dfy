/** Facts about remainders, proved from explicit quotients. */
module Modular {
  /** A multiple of n strictly between -n and n is zero. */
  lemma {:induction false} SmallMultiple(n: int, d: int)
    requires -n < n * d < n
    ensures d == 0
  {
    if d >= 1 {
      Grows(n, d);
    } else if d <= -1 {
      Grows(n, -d);
    }
  }

  lemma {:induction false} Grows(n: int, d: int)
    requires n >= 0 && d >= 1
    ensures n * d >= n
  {
    assert n * (d - 1) >= 0;
  }

  lemma {:induction false} ModUnique(x: int, n: int, q: int, r: int)
    requires n > 0 && x == n * q + r && 0 <= r < n
    ensures x % n == r
  {
    assert n * (x / n - q) == r - x % n;
    SmallMultiple(n, x / n - q);
  }

  lemma {:induction false} SameSlotNear(j: int, k: int, n: int)
    requires n > 0 && j % n == k % n && -n < j - k < n
    ensures j == k
  {
    assert j == n * (j / n) + j % n && k == n * (k / n) + k % n;
    assert j - k == n * (j / n - k / n);
    SmallMultiple(n, j / n - k / n);
  }

  lemma {:induction false} BumpStays(k: int, n: int)
    requires n > 0
    ensures (k % n + 1) % n == (k + 1) % n
  {
    var q, r := k / n, k % n;
    assert k == n * q + r;
    if r + 1 == n {
      assert k + 1 == n * (q + 1) + 0;
      ModUnique(k + 1, n, q + 1, 0);
      ModUnique(r + 1, n, 1, 0);
    } else {
      ModUnique(k + 1, n, q, r + 1);
      ModUnique(r + 1, n, 0, r + 1);
    }
  }

  lemma {:induction false} HalfOf(k: nat, n: nat, m: nat)
    requires n > 0 && m == 2 * n
    ensures k % m % n == k % n
  {
    var r := k % m;
    assert r == n * (r / n) + r % n;
    assert k == n * (2 * (k / m) + r / n) + r % n;
    ModUnique(k, n, 2 * (k / m) + r / n, r % n);
  }

  lemma {:induction false} SameRemainder(a: int, b: int, n: int)
    requires n > 0
    ensures a % n == b % n <==> (a - b) % n == 0
  {
    assert a == n * (a / n) + a % n && b == n * (b / n) + b % n;
    if a % n == b % n {
      assert a - b == n * (a / n - b / n) + 0;
      ModUnique(a - b, n, a / n - b / n, 0);
    }
    if (a - b) % n == 0 {
      assert a - b == n * ((a - b) / n);
      assert a == n * (b / n + (a - b) / n) + b % n;
      ModUnique(a, n, b / n + (a - b) / n, b % n);
    }
  }

  lemma {:induction false} Upward(start: nat, r: int, n: nat) returns (k: nat)
    requires 0 <= r < n
    ensures start <= k < start + n && k % n == r
  {
    var q, s := start / n, start % n;
    assert start == n * q + s;
    if r >= s {
      k := start + (r - s);
      ModUnique(k, n, q, r);
    } else {
      k := start + (r - s) + n;
      assert k == n * (q + 1) + r;
      ModUnique(k, n, q + 1, r);
    }
  }
}
