/**
 * The two parallel sliding windows of the forecaster: the observation window
 * (the most recent totals, actual or predicted) and the cumulative window
 * (running totals over the same positions).  Both hold at most Capacity
 * entries; appending to a full window evicts its oldest entry.
 */
module SlidingWindow {
  import opened Numeric
  import opened LeastSquares

  /** Both windows keep at most six entries. */
  const Capacity: nat := 6

  function Min(a: int, b: int): int
  {
    if a <= b then a else b
  }

  /** The last n elements of s, or all of s when it is shorter (a `[-n:]` slice). */
  function LastN(s: seq<real>, n: nat): (r: seq<real>)
    ensures |r| == Min(|s|, n)
    ensures forall i :: 0 <= i < |r| ==> r[i] == s[|s| - |r| + i]
  {
    if |s| <= n then s else s[|s| - n..]
  }

  /**
   * Append x; when that makes the window longer than Capacity, drop its first
   * element.
   */
  function Push(w: seq<real>, x: real): (r: seq<real>)
    ensures |r| > 0 && Last(r) == x
    ensures |w| <= Capacity ==> |r| == Min(|w| + 1, Capacity)
  {
    var a := w + [x];
    if |a| > Capacity then a[1..] else a
  }

  /** On a window within capacity, pushing keeps exactly the last Capacity values of the window and x. */
  lemma {:induction false} PushIsLastN(w: seq<real>, x: real)
    requires |w| <= Capacity
    ensures Push(w, x) == LastN(w + [x], Capacity)
  {
  }

  /** Taking the last n again after appending one element loses nothing: the window only ever needs the tail. */
  lemma {:induction false} LastNAppend(s: seq<real>, x: real, n: nat)
    requires n >= 1
    ensures LastN(LastN(s, n) + [x], n) == LastN(s + [x], n)
  {
    var t := LastN(s, n);
    if |s| > n {
      assert (t + [x])[1..] == (s + [x])[|s| + 1 - n..];
    }
  }

  /**
   * The invariant the two windows keep: equal lengths, at most Capacity, and
   * each cumulative entry after the first exceeds its predecessor by the
   * observation at the same position.
   */
  ghost predicate Consistent(recent: seq<real>, cumEv: seq<real>)
  {
    && |recent| == |cumEv| <= Capacity
    && forall j :: 1 <= j < |cumEv| ==> cumEv[j] - cumEv[j - 1] == recent[j]
  }

  /**
   * The seeded windows keep the invariant: the observation window is the
   * history's last Capacity totals and the cumulative window their running
   * sums, whose first entry is the first observation.
   */
  lemma {:induction false} SeedConsistent(history: seq<real>)
    ensures Consistent(LastN(history, Capacity), PrefixSums(LastN(history, Capacity)))
    ensures |history| > 0 ==> PrefixSums(LastN(history, Capacity))[0] == LastN(history, Capacity)[0]
  {
    PrefixSumsSteps(LastN(history, Capacity));
  }

  /**
   * One forecast step's update keeps the invariant: the prediction goes into
   * the observation window and the last cumulative total plus the prediction
   * into the cumulative window, each with eviction at Capacity, so both grow
   * by one up to Capacity.
   */
  lemma {:induction false} AdvanceKeepsConsistent(recent: seq<real>, cumEv: seq<real>, pred: real)
    requires Consistent(recent, cumEv) && |recent| > 0
    ensures Consistent(Push(recent, pred), Push(cumEv, Last(cumEv) + pred))
    ensures |Push(recent, pred)| == Min(|recent| + 1, Capacity)
  {
    var r, c := recent + [pred], cumEv + [Last(cumEv) + pred];
    var r', c' := Push(recent, pred), Push(cumEv, Last(cumEv) + pred);
    assert forall j :: 1 <= j < |c| ==> c[j] - c[j - 1] == r[j];
    if |r| > Capacity {
      assert r' == r[1..] && c' == c[1..];
      forall j | 1 <= j < |c'|
        ensures c'[j] - c'[j - 1] == r'[j]
      {
        assert c'[j] == c[j + 1] && c'[j - 1] == c[j] && r'[j] == r[j + 1];
      }
    } else {
      assert r' == r && c' == c;
    }
  }

  /**
   * Offset between the cumulative window and the running sums of the
   * observation window: the same at every position.
   */
  lemma {:induction false} CumulativeOffsetAt(recent: seq<real>, cumEv: seq<real>, j: nat)
    requires Consistent(recent, cumEv) && j < |recent|
    ensures cumEv[j] - PrefixSums(recent)[j] == cumEv[0] - recent[0]
  {
    PrefixSumsSteps(recent);
    if j > 0 {
      CumulativeOffsetAt(recent, cumEv, j - 1);
    }
  }

  /** The cumulative window is the running sums of the observation window moved by a constant. */
  lemma {:induction false} CumulativeIsShiftedPrefixSums(recent: seq<real>, cumEv: seq<real>)
    requires Consistent(recent, cumEv) && |recent| > 0
    ensures cumEv == Shifted(PrefixSums(recent), cumEv[0] - recent[0])
  {
    forall j | 0 <= j < |recent|
      ensures cumEv[j] == Shifted(PrefixSums(recent), cumEv[0] - recent[0])[j]
    {
      CumulativeOffsetAt(recent, cumEv, j);
    }
  }

  /**
   * The growth slope over the cumulative window depends only on the
   * observation window: it equals the slope of the observations' running sums.
   */
  lemma {:induction false} GrowthSlopeFromObservations(recent: seq<real>, cumEv: seq<real>)
    requires Consistent(recent, cumEv)
    ensures Slope(cumEv) == Slope(PrefixSums(recent))
  {
    if |recent| > 0 {
      CumulativeIsShiftedPrefixSums(recent, cumEv);
      SlopeShiftInvariant(PrefixSums(recent), cumEv[0] - recent[0]);
    }
  }

  /**
   * The observation window after feeding the predictions ps one by one into
   * the window seeded from history.
   */
  function RecentAfter(history: seq<real>, ps: seq<real>): (r: seq<real>)
    ensures |r| == Min(Min(|history|, Capacity) + |ps|, Capacity)
    ensures |ps| > 0 ==> Last(r) == Last(ps)
    decreases |ps|
  {
    if |ps| == 0 then LastN(history, Capacity)
    else Push(RecentAfter(history, ps[..|ps| - 1]), Last(ps))
  }

  /**
   * The cumulative window after feeding the predictions ps one by one: each
   * step appends the newest running total plus the prediction.
   */
  function CumulativeAfter(history: seq<real>, ps: seq<real>): (c: seq<real>)
    requires |history| > 0
    ensures |c| > 0
    ensures |c| == Min(Min(|history|, Capacity) + |ps|, Capacity)
    decreases |ps|
  {
    if |ps| == 0 then PrefixSums(LastN(history, Capacity))
    else
      var c := CumulativeAfter(history, ps[..|ps| - 1]);
      Push(c, Last(c) + Last(ps))
  }

  /** Feeding one more prediction is one more step of the sliding-window update. */
  lemma {:induction false} AfterStep(history: seq<real>, ps: seq<real>, pred: real)
    requires |history| > 0
    ensures RecentAfter(history, ps + [pred]) == Push(RecentAfter(history, ps), pred)
    ensures CumulativeAfter(history, ps + [pred])
         == Push(CumulativeAfter(history, ps), Last(CumulativeAfter(history, ps)) + pred)
  {
    assert (ps + [pred])[..|ps|] == ps;
  }

  lemma {:induction false} RecentStep(history: seq<real>, ps: seq<real>, pred: real)
    ensures Push(LastN(history + ps, Capacity), pred) == LastN(history + (ps + [pred]), Capacity)
  {
    PushIsLastN(LastN(history + ps, Capacity), pred);
    LastNAppend(history + ps, pred, Capacity);
    assert (history + ps) + [pred] == history + (ps + [pred]);
  }

  /**
   * The observation window after any number of steps, without reference to
   * the steps: the last Capacity entries of the history followed by the
   * predictions.
   */
  lemma {:induction false} RecentClosedForm(history: seq<real>, ps: seq<real>)
    ensures RecentAfter(history, ps) == LastN(history + ps, Capacity)
    decreases |ps|
  {
    if |ps| == 0 {
      assert history + ps == history;
    } else {
      var init, pred := ps[..|ps| - 1], Last(ps);
      assert init + [pred] == ps;
      RecentClosedForm(history, init);
      RecentStep(history, init, pred);
    }
  }

  /**
   * One step on a window holding the last Capacity running sums of s: pushing
   * the newest running sum plus pred gives the last Capacity running sums of
   * s followed by pred.
   */
  lemma {:induction false} PushRunningSum(s: seq<real>, pred: real)
    requires |s| > 0
    ensures Push(LastN(PrefixSums(s), Capacity), Last(LastN(PrefixSums(s), Capacity)) + pred)
         == LastN(PrefixSums(s + [pred]), Capacity)
  {
    var sums := PrefixSums(s);
    var c := LastN(sums, Capacity);
    var v := Last(c) + pred;
    assert v == Sum(s) + pred;
    assert Push(c, v) == LastN(c + [v], Capacity) by { PushIsLastN(c, v); }
    assert LastN(c + [v], Capacity) == LastN(sums + [v], Capacity) by { LastNAppend(sums, v, Capacity); }
    assert sums + [v] == PrefixSums(s + [pred]) by { PrefixSumsAppend(s, pred); }
  }

  /**
   * The cumulative window after any number of steps, without reference to
   * the steps: the last Capacity running sums of the seeded observations
   * followed by the predictions.
   */
  lemma {:induction false} CumulativeClosedForm(history: seq<real>, ps: seq<real>)
    requires |history| > 0
    ensures CumulativeAfter(history, ps) == LastN(PrefixSums(LastN(history, Capacity) + ps), Capacity)
    decreases |ps|
  {
    var seed := LastN(history, Capacity);
    if |ps| == 0 {
      assert seed + ps == seed;
    } else {
      var init, pred := ps[..|ps| - 1], Last(ps);
      var c := CumulativeAfter(history, init);
      assert CumulativeAfter(history, ps) == Push(c, Last(c) + pred);
      assert c == LastN(PrefixSums(seed + init), Capacity) by { CumulativeClosedForm(history, init); }
      assert Push(c, Last(c) + pred) == LastN(PrefixSums((seed + init) + [pred]), Capacity) by {
        PushRunningSum(seed + init, pred);
      }
      assert (seed + init) + [pred] == seed + ps by {
        assert init + [pred] == ps;
      }
    }
  }

  /** Windows reached by any sequence of steps keep the invariant. */
  lemma {:induction false} AfterConsistent(history: seq<real>, ps: seq<real>)
    requires |history| > 0
    ensures Consistent(RecentAfter(history, ps), CumulativeAfter(history, ps))
    decreases |ps|
  {
    if |ps| == 0 {
      SeedConsistent(history);
    } else {
      var init := ps[..|ps| - 1];
      AfterConsistent(history, init);
      AdvanceKeepsConsistent(RecentAfter(history, init), CumulativeAfter(history, init), Last(ps));
    }
  }

  /**
   * After a step, the newest observation is the value fed back, and the
   * newest running total grew by exactly that value.
   */
  lemma {:induction false} AfterNewest(history: seq<real>, ps: seq<real>)
    requires |history| > 0 && |ps| > 0
    ensures Last(RecentAfter(history, ps)) == Last(ps)
    ensures Last(CumulativeAfter(history, ps)) == Last(CumulativeAfter(history, ps[..|ps| - 1])) + Last(ps)
  {
  }
}
