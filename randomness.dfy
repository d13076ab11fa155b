/**
 * Python's `random` module, modelled as nondeterministic choice. Each method
 * picks some value with `:|`; callers see only its postcondition, so every
 * property proved about a caller holds whichever values are drawn. No
 * distribution is claimed.
 */
module Randomness {
  import opened Sequences

  /** The number of distinct values `random.random()` can return. */
  const Resolution: nat := 0x20_0000_0000_0000

  /** `random.random()`: CPython returns k / 2^53 for some 0 <= k < 2^53. */
  method Random() returns (r: real)
    ensures 0.0 <= r < 1.0
  {
    var k :| 0 <= k < Resolution;
    r := k as real / Resolution as real;
  }

  /** `random.choice(s)`; the source raises IndexError on an empty sequence. */
  method Choice<T>(s: seq<T>) returns (x: T)
    requires |s| > 0
    ensures x in s
  {
    var i :| 0 <= i < |s|;
    x := s[i];
  }

  /** `random.randint(lo, hi)`; the source raises ValueError when lo > hi. */
  method RandInt(lo: int, hi: int) returns (r: int)
    requires lo <= hi
    ensures lo <= r <= hi
  {
    r :| lo <= r <= hi;
  }

  /**
   * `random.sample(population, k)` seen through positions: k distinct
   * positions below n. The source raises ValueError when k > n.
   */
  method Sample(n: nat, k: nat) returns (s: seq<nat>)
    requires k <= n
    ensures |s| == k && Distinct(s)
    ensures forall i :: 0 <= i < |s| ==> s[i] < n
  {
    s := [];
    while |s| < k
      invariant |s| <= k && Distinct(s)
      invariant forall i :: 0 <= i < |s| ==> s[i] < n
    {
      MissingPosition(s, n);
      var p :| 0 <= p < n && p !in s;
      s := s + [p];
    }
  }

  /** Fewer than n distinct positions below n leave one out. */
  lemma {:induction false} MissingPosition(s: seq<nat>, n: nat)
    requires Distinct(s) && |s| < n
    requires forall i :: 0 <= i < |s| ==> s[i] < n
    ensures exists p :: 0 <= p < n && p !in s
  {
    if (n - 1) in s {
      var q :| 0 <= q < |s| && s[q] == n - 1;
      var rest := s[..q] + s[q + 1..];
      assert forall i :: 0 <= i < |rest| ==> rest[i] == (if i < q then s[i] else s[i + 1]);
      forall i | 0 <= i < |rest| ensures rest[i] < n - 1 {
        var j := if i < q then i else i + 1;
        assert rest[i] == s[j] && j != q;
      }
      MissingPosition(rest, n - 1);
      var p :| 0 <= p < n - 1 && p !in rest;
      assert p !in s;
    } else {
      assert 0 <= n - 1 < n;
    }
  }
}
