/** The rolling-median and MAD detector, over exact reals, and how little a minority can bend it. */
module Detectors {
  import opened Prelude

  datatype Verdict = Verdict(isAnomaly: bool, observed: real, expectedLow: real, expectedHigh: real, deviation: real)

  const MAD_TO_SIGMA: real := 1.4826
  const FLAT: real := 0.000000001

  function Insert(sorted: seq<real>, x: real): (r: seq<real>) {
    if sorted == [] || sorted[|sorted| - 1] <= x then sorted + [x]
    else Insert(sorted[..|sorted| - 1], x) + [sorted[|sorted| - 1]]
  }

  function Sort(xs: seq<real>): (r: seq<real>) {
    if xs == [] then [] else Insert(Sort(xs[..|xs| - 1]), xs[|xs| - 1])
  }

  /** The middle value, or the mean of the middle two. */
  function Middle(s: seq<real>): (m: real)
    requires s != []
  {
    var n := |s|;
    if n % 2 == 1 then s[n / 2] else (s[n / 2 - 1] + s[n / 2]) / 2.0
  }

  function Median(xs: seq<real>): (m: real)
    requires xs != []
  {
    SortLength(xs);
    Middle(Sort(xs))
  }

  function Deviations(xs: seq<real>, m: real): (r: seq<real>)
    ensures |r| == |xs| && forall i | 0 <= i < |xs| :: r[i] == Abs(xs[i] - m)
  {
    seq(|xs|, i requires 0 <= i < |xs| => Abs(xs[i] - m))
  }

  function Mad(xs: seq<real>): (m: real)
    requires xs != []
  {
    Median(Deviations(xs, Median(xs)))
  }

  function Judge(median: real, mad: real, observed: real, k: real): (v: Verdict) {
    var sigma := mad * MAD_TO_SIGMA;
    if sigma < FLAT then Verdict(observed != median, observed, median, median, observed - median)
    else
      var low, high := median - k * sigma, median + k * sigma;
      Verdict(observed < low || observed > high, observed, low, high, (observed - median) / sigma)
  }

  function MadThreshold(history: seq<real>, observed: real, k: real): (v: Verdict) {
    if |history| < 4 then Verdict(false, observed, observed, observed, 0.0)
    else Judge(Median(history), Mad(history), observed, k)
  }

  // ---------------------------------------------------------------- sorting keeps counts

  /** How many values lie within [low, high]. */
  function Count(xs: seq<real>, low: real, high: real): (n: nat)
    ensures n <= |xs|
  {
    if xs == [] then 0
    else Count(xs[..|xs| - 1], low, high) + if low <= xs[|xs| - 1] <= high then 1 else 0
  }

  ghost predicate Ascending(xs: seq<real>) {
    forall i, j | 0 <= i < j < |xs| :: xs[i] <= xs[j]
  }

  lemma CountAppend(xs: seq<real>, x: real, low: real, high: real)
    ensures Count(xs + [x], low, high) == Count(xs, low, high) + if low <= x <= high then 1 else 0
  {
    assert (xs + [x])[..|xs|] == xs;
  }

  lemma {:induction false} InsertKeeps(sorted: seq<real>, x: real, low: real, high: real)
    ensures Count(Insert(sorted, x), low, high) == Count(sorted + [x], low, high)
    ensures |Insert(sorted, x)| == |sorted| + 1
  {
    CountAppend(sorted, x, low, high);
    if sorted != [] && sorted[|sorted| - 1] > x {
      var init, last := sorted[..|sorted| - 1], sorted[|sorted| - 1];
      InsertKeeps(init, x, low, high);
      CountAppend(init, x, low, high);
      CountAppend(Insert(init, x), last, low, high);
    }
  }

  lemma {:induction false} InsertAscends(sorted: seq<real>, x: real)
    requires Ascending(sorted)
    ensures Ascending(Insert(sorted, x))
    ensures forall i | 0 <= i < |Insert(sorted, x)| :: Insert(sorted, x)[i] == x || Insert(sorted, x)[i] in sorted
  {
    if sorted != [] && sorted[|sorted| - 1] > x {
      InsertAscends(sorted[..|sorted| - 1], x);
    }
  }

  lemma {:induction false} SortLength(xs: seq<real>)
    ensures |Sort(xs)| == |xs|
  {
    if xs != [] {
      SortLength(xs[..|xs| - 1]);
      InsertKeeps(Sort(xs[..|xs| - 1]), xs[|xs| - 1], 0.0, 0.0);
    }
  }

  lemma {:induction false} SortKeeps(xs: seq<real>, low: real, high: real)
    ensures Count(Sort(xs), low, high) == Count(xs, low, high)
    ensures Ascending(Sort(xs))
  {
    if xs != [] {
      var init, last := xs[..|xs| - 1], xs[|xs| - 1];
      SortKeeps(init, low, high);
      InsertKeeps(Sort(init), last, low, high);
      InsertAscends(Sort(init), last);
      CountAppend(Sort(init), last, low, high);
    }
  }

  // ---------------------------------------------------------------- the median of a majority

  /** Values in [low, high] sit in one stretch of a sorted sequence, so beyond position k they are few. */
  lemma {:induction false} CountBelow(s: seq<real>, low: real, high: real, k: nat)
    requires Ascending(s) && k < |s|
    ensures s[k] > high ==> Count(s, low, high) <= k
    ensures s[k] < low ==> Count(s, low, high) <= |s| - k - 1
    decreases |s|
  {
    var n := |s| - 1;
    if k < n {
      CountBelow(s[..n], low, high, k);
    } else if s[n] < low {
      NoneWithin(s, low, high);
    }
  }

  lemma {:induction false} NoneWithin(s: seq<real>, low: real, high: real)
    requires Ascending(s) && s != [] && s[|s| - 1] < low
    ensures Count(s, low, high) == 0
    decreases |s|
  {
    if |s| > 1 {
      NoneWithin(s[..|s| - 1], low, high);
    }
  }

  /** With more than half of a sorted sequence in [low, high], the value at or next to the middle is too. */
  lemma CentralWithin(s: seq<real>, low: real, high: real, k: nat)
    requires Ascending(s) && 2 * Count(s, low, high) > |s| && |s| - 1 <= 2 * k + 1 && 2 * k <= |s|  && k < |s|
    ensures low <= s[k] <= high
  {
    CountBelow(s, low, high, k);
  }

  lemma MiddleWithin(s: seq<real>, low: real, high: real)
    requires Ascending(s) && s != [] && 2 * Count(s, low, high) > |s|
    ensures low <= Middle(s) <= high
  {
    var h := |s| / 2;
    if |s| == 2 * h {
      CentralWithin(s, low, high, h);
      CentralWithin(s, low, high, h - 1);
      MeanWithin(s[h - 1], s[h], low, high);
    } else {
      CentralWithin(s, low, high, h);
    }
  }

  lemma MeanWithin(a: real, b: real, low: real, high: real)
    requires low <= a <= high && low <= b <= high
    ensures low <= (a + b) / 2.0 <= high
  {
  }

  /** If more than half of the values lie in [low, high], so does the median. */
  lemma MajorityHoldsMedian(xs: seq<real>, low: real, high: real)
    requires xs != [] && 2 * Count(xs, low, high) > |xs|
    ensures low <= Median(xs) <= high
  {
    SortLength(xs);
    SortKeeps(xs, low, high);
    MiddleWithin(Sort(xs), low, high);
  }

  // ---------------------------------------------------------------- replaced values

  /** How many positions of two histories agree. */
  function Untouched(xs: seq<real>, ys: seq<real>): (n: nat)
    requires |xs| == |ys|
  {
    if xs == [] then 0
    else Untouched(xs[..|xs| - 1], ys[..|ys| - 1]) + if xs[|xs| - 1] == ys[|ys| - 1] then 1 else 0
  }

  /** [low, high] spans the values that were left alone. */
  ghost predicate Spans(xs: seq<real>, ys: seq<real>, low: real, high: real)
    requires |xs| == |ys|
  {
    forall i | 0 <= i < |xs| && xs[i] == ys[i] :: low <= xs[i] <= high
  }

  lemma {:induction false} UntouchedCounted(xs: seq<real>, ys: seq<real>, low: real, high: real)
    requires |xs| == |ys| && Spans(xs, ys, low, high)
    ensures Untouched(xs, ys) <= Count(ys, low, high)
  {
    if xs != [] {
      UntouchedCounted(xs[..|xs| - 1], ys[..|ys| - 1], low, high);
    }
  }

  lemma {:induction false} DeviationsCounted(ys: seq<real>, m: real, low: real, high: real)
    requires low <= m <= high
    ensures Count(ys, low, high) <= Count(Deviations(ys, m), 0.0, high - low)
  {
    if ys != [] {
      var n := |ys| - 1;
      DeviationsCounted(ys[..n], m, low, high);
      assert Deviations(ys, m)[..n] == Deviations(ys[..n], m);
    }
  }

  /**
   Replace fewer than half of the history values by anything at all: the median stays within the range
   of the values left alone, and the MAD within that range's width.
   */
  lemma MinorityCannotMove(xs: seq<real>, ys: seq<real>, low: real, high: real)
    requires |xs| == |ys| && ys != [] && Spans(xs, ys, low, high) && 2 * Untouched(xs, ys) > |xs|
    ensures low <= Median(ys) <= high
    ensures 0.0 <= Mad(ys) <= high - low
  {
    UntouchedCounted(xs, ys, low, high);
    MajorityHoldsMedian(ys, low, high);
    SpreadWithin(ys, Median(ys), low, high);
  }

  lemma SpreadWithin(ys: seq<real>, m: real, low: real, high: real)
    requires ys != [] && low <= m <= high && 2 * Count(ys, low, high) > |ys|
    ensures 0.0 <= Median(Deviations(ys, m)) <= high - low
  {
    DeviationsCounted(ys, m, low, high);
    MajorityHoldsMedian(Deviations(ys, m), 0.0, high - low);
  }

  lemma ScaledWidth(k: real, mad: real, width: real)
    requires k >= 0.0 && 0.0 <= mad <= width
    ensures 0.0 <= k * (mad * MAD_TO_SIGMA) <= k * (width * MAD_TO_SIGMA)
  {
    var slack := (width - mad) * MAD_TO_SIGMA;
    assert k * (width * MAD_TO_SIGMA) == k * (mad * MAD_TO_SIGMA) + k * slack;
    assert k * slack >= 0.0;
    assert k * (mad * MAD_TO_SIGMA) >= 0.0;
  }

  lemma JudgeBounded(median: real, mad: real, low: real, high: real, observed: real, k: real, margin: real)
    requires low <= median <= high && 0.0 <= mad <= high - low && k >= 0.0 && margin == k * ((high - low) * MAD_TO_SIGMA)
    ensures var v := Judge(median, mad, observed, k);
            && low - margin <= v.expectedLow <= v.expectedHigh <= high + margin
            && (observed > high + margin || observed < low - margin ==> v.isAnomaly)
  {
    ScaledWidth(k, mad, high - low);
    var sigma := mad * MAD_TO_SIGMA;
    var reach := k * sigma;
    assert 0.0 <= reach <= margin;
    var v := Judge(median, mad, observed, k);
    assert v.expectedLow == median || v.expectedLow == median - reach;
    assert v.expectedHigh == median || v.expectedHigh == median + reach;
  }

  /**
   So the expected band stays within a fixed multiple of that width around the untouched range, and an
   observation beyond that margin is flagged however the minority was chosen.
   */
  lemma BandStaysBounded(xs: seq<real>, ys: seq<real>, low: real, high: real, observed: real, k: real)
    requires |xs| == |ys| && |ys| >= 4 && Spans(xs, ys, low, high) && 2 * Untouched(xs, ys) > |xs| && k >= 0.0
    ensures var margin := k * ((high - low) * MAD_TO_SIGMA);
            var v := MadThreshold(ys, observed, k);
            && low - margin <= v.expectedLow <= v.expectedHigh <= high + margin
            && (observed > high + margin || observed < low - margin ==> v.isAnomaly)
  {
    MinorityCannotMove(xs, ys, low, high);
    JudgeBounded(Median(ys), Mad(ys), low, high, observed, k, k * ((high - low) * MAD_TO_SIGMA));
  }

  // ---------------------------------------------------------------- the median and the verdict, said outright

  lemma {:induction false} SortPermutes(xs: seq<real>)
    ensures multiset(Sort(xs)) == multiset(xs)
  {
    if xs != [] {
      var init, last := xs[..|xs| - 1], xs[|xs| - 1];
      SortPermutes(init);
      InsertPermutes(Sort(init), last);
      assert xs == init + [last];
    }
  }

  lemma {:induction false} InsertPermutes(sorted: seq<real>, x: real)
    ensures multiset(Insert(sorted, x)) == multiset(sorted) + multiset{x}
  {
    if sorted != [] && !(sorted[|sorted| - 1] <= x) {
      var init, last := sorted[..|sorted| - 1], sorted[|sorted| - 1];
      InsertPermutes(init, x);
      assert sorted == init + [last];
    }
  }

  lemma LastIsGreatest(s: seq<real>, y: real)
    requires Ascending(s) && y in multiset(s)
    ensures s != [] && y <= s[|s| - 1]
  {
    var j :| 0 <= j < |s| && s[j] == y;
  }

  lemma DropLast(s: seq<real>)
    requires s != []
    ensures multiset(s) == multiset(s[..|s| - 1]) + multiset{s[|s| - 1]}
  {
    assert s == s[..|s| - 1] + [s[|s| - 1]];
  }

  lemma SameLast(s: seq<real>, t: seq<real>)
    requires Ascending(s) && Ascending(t) && multiset(s) == multiset(t) && s != [] && t != []
    ensures s[|s| - 1] == t[|t| - 1]
  {
    assert s[|s| - 1] in multiset(s) && t[|t| - 1] in multiset(t);
    LastIsGreatest(t, s[|s| - 1]);
    LastIsGreatest(s, t[|t| - 1]);
  }

  lemma SameInit(s: seq<real>, t: seq<real>)
    requires |s| == |t| > 0 && multiset(s) == multiset(t) && s[|s| - 1] == t[|t| - 1]
    ensures multiset(s[..|s| - 1]) == multiset(t[..|t| - 1])
  {
    var x := s[|s| - 1];
    DropLast(s);
    DropLast(t);
    assert multiset(s[..|s| - 1]) == multiset(s) - multiset{x};
    assert multiset(t[..|t| - 1]) == multiset(t) - multiset{x};
  }

  /** Two ascending arrangements of the same values are one. */
  lemma {:induction false} AscendingUnique(s: seq<real>, t: seq<real>)
    requires Ascending(s) && Ascending(t) && multiset(s) == multiset(t)
    ensures s == t
  {
    assert |s| == |multiset(s)| && |t| == |multiset(t)|;
    if s != [] {
      var n := |s| - 1;
      SameLast(s, t);
      SameInit(s, t);
      AscendingUnique(s[..n], t[..n]);
      assert s == s[..n] + [s[n]] && t == t[..n] + [t[n]];
    }
  }

  lemma MiddleExact(s: seq<real>)
    requires s != []
    ensures Middle(s) == (s[(|s| - 1) / 2] + s[|s| / 2]) / 2.0
  {
    var n := |s|;
    assert if n % 2 == 1 then (n - 1) / 2 == n / 2 else (n - 1) / 2 == n / 2 - 1;
  }

  /** However the values are arranged, the median is the mean of the two middle ones in ascending order. */
  lemma MedianExact(xs: seq<real>, s: seq<real>)
    requires xs != [] && Ascending(s) && multiset(s) == multiset(xs)
    ensures s != [] && Median(xs) == (s[(|s| - 1) / 2] + s[|s| / 2]) / 2.0
  {
    SortPermutes(xs);
    SortKeeps(xs, 0.0, 0.0);
    SortLength(xs);
    AscendingUnique(s, Sort(xs));
    MiddleExact(s);
  }

  /**
   The verdict: with fewer than four values there is none. Otherwise the band reaches k times 1.4826 times
   the median absolute deviation to either side of the median, collapsed onto it if that scale is below
   10^-9; what lies outside is an anomaly, what lies inside, bounds included, is not; and the deviation has
   the sign of the observed value's distance from the median.
   */
  lemma VerdictExact(history: seq<real>, observed: real, k: real)
    requires k >= 0.0
    ensures var v := MadThreshold(history, observed, k);
            && v.observed == observed
            && (|history| < 4 ==> !v.isAnomaly)
            && (|history| >= 4 ==>
                  var median, scale := Median(history), 1.4826 * Mad(history);
                  var reach := if scale < 0.000000001 then 0.0 else k * scale;
                  && v.expectedLow == median - reach && v.expectedHigh == median + reach
                  && (v.isAnomaly <==> observed < v.expectedLow || v.expectedHigh < observed)
                  && (v.deviation > 0.0 <==> observed > median) && (v.deviation < 0.0 <==> observed < median))
  {
    if |history| >= 4 {
      SignOfQuotient(observed - Median(history), Mad(history) * MAD_TO_SIGMA);
    }
  }

  lemma SignOfQuotient(x: real, y: real)
    ensures y >= 0.000000001 ==> (x / y > 0.0 <==> x > 0.0) && (x / y < 0.0 <==> x < 0.0)
  {
    if y >= 0.000000001 {
      assert x / y * y == x;
    }
  }

  /** Each deviation is the distance of its own value, so the MAD is the median distance from the median. */
  lemma DeviationsExact(xs: seq<real>, i: nat)
    requires xs != [] && i < |xs|
    ensures var d := Deviations(xs, Median(xs));
            && |d| == |xs| && d[i] >= 0.0 && (d[i] == xs[i] - Median(xs) || d[i] == Median(xs) - xs[i])
            && Mad(xs) == Median(d)
  {
  }

}
