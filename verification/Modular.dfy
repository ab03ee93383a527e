/** The facts about remainders that the sequence numbers rest on. */
module Modular {

  lemma MultipleIsFar(n: nat, d: int)
    requires n > 0
    ensures d >= 1 ==> n * d >= n
    ensures d <= -1 ==> n * d + n <= 0
    ensures d == 0 ==> n * d == 0
  {
    if d >= 1 {
      assert n * (d - 1) >= 0;
    } else if d <= -1 {
      assert n * (-1 - d) >= 0;
    }
  }

  lemma RemainderIsUnique(x: int, n: nat, q: int, r: int)
    requires n > 0 && x == n * q + r && 0 <= r < n
    ensures x % n == r
  {
    var d := x / n - q;
    assert x == n * (x / n) + x % n;
    assert n * d == n * (x / n) - n * q;
    MultipleIsFar(n, d);
  }

  /** Counting on from a remainder is counting on from the number. */
  lemma RemainderOfNext(k: nat, n: nat)
    requires n > 0
    ensures (k % n + 1) % n == (k + 1) % n
  {
    var q, r := k / n, k % n;
    if r + 1 == n {
      assert n * (q + 1) == n * q + n;
      RemainderIsUnique(k + 1, n, q + 1, 0);
      RemainderIsUnique(r + 1, n, 1, 0);
    } else {
      RemainderIsUnique(k + 1, n, q, r + 1);
      RemainderIsUnique(r + 1, n, 0, r + 1);
    }
  }

  /** Numbers less than `n` apart have different remainders. */
  lemma CloseNumbersDiffer(n: nat, j: nat, k: nat)
    requires n > 0 && j < k < j + n
    ensures j % n != k % n
  {
    var d := k / n - j / n;
    assert n * d == n * (k / n) - n * (j / n);
    assert k - j == n * d + (k % n - j % n);
    MultipleIsFar(n, d);
  }
}
