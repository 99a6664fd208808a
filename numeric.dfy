/**
 * Arithmetic helpers shared by the forecaster: sums, running (prefix) sums as
 * computed by a cumulative-sum column, and Python's round-half-to-even on
 * exact real values.
 */
module Numeric {

  /** Sum of a sequence, accumulated from the front. */
  function Sum(s: seq<real>): real
  {
    if |s| == 0 then 0.0 else Sum(s[..|s| - 1]) + s[|s| - 1]
  }

  /** Last element of a non-empty sequence. */
  function Last(s: seq<real>): real
    requires |s| > 0
  {
    s[|s| - 1]
  }

  /** Running sums, as a cumulative-sum column: entry k is the total of the first k+1 elements. */
  function PrefixSums(s: seq<real>): (p: seq<real>)
    ensures |p| == |s|
    ensures |s| > 0 ==> Last(p) == Sum(s)
  {
    if |s| == 0 then [] else PrefixSums(s[..|s| - 1]) + [Sum(s)]
  }

  /** Entry k of the running sums is the sum of the first k+1 elements. */
  lemma {:induction false} PrefixSumsAt(s: seq<real>, k: nat)
    requires k < |s|
    ensures PrefixSums(s)[k] == Sum(s[..k + 1])
  {
    if k == |s| - 1 {
      assert s[..k + 1] == s;
    } else {
      var init := s[..|s| - 1];
      PrefixSumsAt(init, k);
      assert init[..k + 1] == s[..k + 1];
    }
  }

  /** The first running sum is the first element, and consecutive running sums differ by the element added. */
  lemma {:induction false} PrefixSumsSteps(s: seq<real>)
    ensures |s| > 0 ==> PrefixSums(s)[0] == s[0]
    ensures forall j :: 1 <= j < |s| ==> PrefixSums(s)[j] - PrefixSums(s)[j - 1] == s[j]
  {
    if |s| > 0 {
      PrefixSumsAt(s, 0);
      assert s[..1] == [s[0]];
      assert [s[0]][..0] == [];
    }
    forall j | 1 <= j < |s|
      ensures PrefixSums(s)[j] - PrefixSums(s)[j - 1] == s[j]
    {
      PrefixSumsAt(s, j);
      PrefixSumsAt(s, j - 1);
      var u := s[..j + 1];
      assert u[..|u| - 1] == s[..j];
      assert Sum(u) == Sum(s[..j]) + s[j];
    }
  }

  /** Appending a value appends one running sum: the previous total plus that value. */
  lemma {:induction false} PrefixSumsAppend(s: seq<real>, x: real)
    ensures PrefixSums(s + [x]) == PrefixSums(s) + [Sum(s) + x]
  {
    assert (s + [x])[..|s|] == s;
  }

  /** Sum of a sequence whose entries are all non-negative is non-negative. */
  lemma {:induction false} SumNonNegative(s: seq<real>)
    requires forall i :: 0 <= i < |s| ==> s[i] >= 0.0
    ensures Sum(s) >= 0.0
  {
    if |s| > 0 {
      SumNonNegative(s[..|s| - 1]);
    }
  }

  /**
   * Python's built-in round on a number: to the nearest integer, ties to the
   * even neighbour.  Stated on exact reals.
   */
  function RoundHalfEven(x: real): (r: int)
    ensures (r as real) - 0.5 <= x <= (r as real) + 0.5
    ensures x - (x.Floor as real) == 0.5 ==> r % 2 == 0
  {
    var f := x.Floor;
    var frac := x - f as real;
    if frac < 0.5 then f
    else if frac > 0.5 then f + 1
    else if f % 2 == 0 then f
    else f + 1
  }

  /** An integer strictly closer than one half to x is what rounding gives. */
  lemma {:induction false} RoundIsNearest(x: real, n: int)
    requires (n as real) - 0.5 < x < (n as real) + 0.5
    ensures RoundHalfEven(x) == n
  {
    var r := RoundHalfEven(x);
    assert (r as real) - 0.5 <= x <= (r as real) + 0.5;
    assert -1.0 < (r - n) as real < 1.0;
  }

  /** Rounding an integer-valued number gives that integer back. */
  lemma {:induction false} RoundOfInteger(n: int)
    ensures RoundHalfEven(n as real) == n
  {
    RoundIsNearest(n as real, n);
  }
}
