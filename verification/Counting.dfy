/** Counting arguments and remainders that several components share. */
module Counting {

  // ----- the pigeonhole: n distinct indices below n are a permutation of them -----

  lemma {:induction false} AtMost(s: seq<int>, n: nat)
    requires forall k :: 0 <= k < |s| ==> 0 <= s[k] < n
    requires forall j, k :: 0 <= j < k < |s| ==> s[j] != s[k]
    ensures |s| <= n
  {
    assert s == [] || 0 <= s[0] < n;
    if i :| 0 <= i < |s| && s[i] == n - 1 {
      AtMost(s[..i] + s[i + 1..], n - 1);
    } else if n > 0 {
      AtMost(s, n - 1);
    }
  }

  lemma {:induction false} Pigeonhole(s: seq<int>, n: nat)
    requires |s| == n && (forall k :: 0 <= k < n ==> 0 <= s[k] < n)
    requires forall j, k :: 0 <= j < k < n ==> s[j] != s[k]
    ensures forall v :: 0 <= v < n ==> v in s
  {
    if n > 0 {
      if n - 1 !in s {
        AtMost(s, n - 1);
      }
      var i :| 0 <= i < n && s[i] == n - 1;
      var t := s[..i] + s[i + 1..];
      Pigeonhole(t, n - 1);
      forall v | 0 <= v < n ensures v in s {
        if v < n - 1 { assert v in t; }
      }
    }
  }

  // ----- remainders of a positive modulus -----

  lemma FarFromZero(d: int, n: int)
    requires n >= 0
    ensures d >= 1 ==> d * n >= n
    ensures d <= -1 ==> d * n <= -n
  {
  }

  /** Quotient and remainder are unique. */
  lemma ModUnique(q: int, r: int, n: nat)
    requires 0 <= r < n
    ensures (q * n + r) % n == r
  {
    var x := q * n + r;
    var d := x / n - q;
    assert d * n == r - x % n by {
      assert x == (x / n) * n + x % n;
      assert d * n == (x / n) * n - q * n;
    }
    FarFromZero(d, n);
  }

  lemma ShiftEqual(i: int, j: int, k: int, n: nat)
    requires n > 0 && i % n == j % n
    ensures (i + k) % n == (j + k) % n
  {
    var a, b, r := (i + k) / n, i / n - j / n, (i + k) % n;
    assert i == (i / n) * n + i % n && j == (j / n) * n + j % n && i + k == a * n + r;
    assert b * n == (i / n) * n - (j / n) * n;
    assert (a - b) * n == a * n - b * n;
    ModUnique(a - b, r, n);
  }

  /** Adding the same shift keeps remainders apart and equal alike. */
  lemma ModShift(i: int, j: int, k: int, n: nat)
    requires n > 0
    ensures i % n == j % n <==> (i + k) % n == (j + k) % n
  {
    if i % n == j % n {
      ShiftEqual(i, j, k, n);
    }
    if (i + k) % n == (j + k) % n {
      ShiftEqual(i + k, j + k, -k, n);
    }
  }
}
