/** The clock offset estimated from the last samples of the server's time. */
module TimeSynchronization {
  import opened Options
  import opened Sequences

  const WINDOW := 5

  // The estimate

  predicate Ascending(xs: seq<real>) {
    forall i, j :: 0 <= i < j < |xs| ==> xs[i] <= xs[j]
  }

  function Inserted(x: real, xs: seq<real>): seq<real> {
    if xs == [] || x <= xs[0] then [x] + xs else [xs[0]] + Inserted(x, xs[1..])
  }

  function Sorted(xs: seq<real>): seq<real> {
    if xs == [] then [] else Inserted(xs[0], Sorted(xs[1..]))
  }

  lemma {:induction false} InsertedIs(x: real, xs: seq<real>)
    ensures multiset(Inserted(x, xs)) == multiset(xs) + multiset{x} && |Inserted(x, xs)| == |xs| + 1
  {
    if xs == [] || x <= xs[0] {
    } else {
      InsertedIs(x, xs[1..]);
      assert xs == [xs[0]] + xs[1..];
    }
  }

  predicate Within(xs: seq<real>, low: real, high: real) {
    forall i :: 0 <= i < |xs| ==> low <= xs[i] <= high
  }

  predicate AtLeast(xs: seq<real>, low: real) {
    forall i :: 0 <= i < |xs| ==> low <= xs[i]
  }

  lemma {:induction false} InsertedAtLeast(x: real, xs: seq<real>, low: real)
    requires low <= x && AtLeast(xs, low)
    ensures AtLeast(Inserted(x, xs), low)
  {
    if xs == [] || x <= xs[0] {
    } else {
      InsertedAtLeast(x, xs[1..], low);
    }
  }

  lemma {:induction false} InsertedAscends(x: real, xs: seq<real>)
    requires Ascending(xs)
    ensures Ascending(Inserted(x, xs))
  {
    if xs == [] || x <= xs[0] {
    } else {
      InsertedAscends(x, xs[1..]);
      InsertedAtLeast(x, xs[1..], xs[0]);
    }
  }

  lemma NoneAscend()
    ensures Ascending([])
  {
  }

  /** Sorting is a permutation into ascending order. */
  lemma {:induction false} SortedIs(xs: seq<real>)
    ensures Ascending(Sorted(xs)) && multiset(Sorted(xs)) == multiset(xs) && |Sorted(xs)| == |xs|
  {
    hide Inserted, Ascending;
    if xs == [] {
      NoneAscend();
    } else {
      SortedIs(xs[1..]);
      InsertedIs(xs[0], Sorted(xs[1..]));
      InsertedAscends(xs[0], Sorted(xs[1..]));
      assert xs == [xs[0]] + xs[1..];
    }
  }

  lemma PermutedWithin(xs: seq<real>, ys: seq<real>, low: real, high: real)
    requires multiset(xs) == multiset(ys) && Within(xs, low, high)
    ensures Within(ys, low, high)
  {
    forall i | 0 <= i < |ys| ensures low <= ys[i] <= high {
      assert ys[i] in multiset(xs);
    }
  }

  /** The middle of the sorted samples, or the mean of the two middle ones. */
  function Median(xs: seq<real>): real
    requires xs != []
  {
    SortedIs(xs);
    var s, n := Sorted(xs), |xs|;
    if n % 2 == 1 then s[n / 2] else (s[n / 2 - 1] + s[n / 2]) / 2.0
  }

  /** Later samples weigh more: 1, 3, 5 and so on. */
  function WeightedSum(xs: seq<real>): real {
    if xs == [] then 0.0
    else WeightedSum(xs[..|xs| - 1]) + (2 * |xs| - 1) as real * xs[|xs| - 1]
  }

  /** The sample at `i` has weight `2 i + 1`: moving it moves the sum by that much. */
  lemma {:induction false} WeightOf(xs: seq<real>, i: nat, y: real)
    requires i < |xs|
    ensures WeightedSum(xs[i := y]) == WeightedSum(xs) + (2 * i + 1) as real * (y - xs[i])
  {
    var n := |xs|;
    if i == n - 1 {
      assert xs[i := y][..n - 1] == xs[..n - 1];
    } else {
      WeightOf(xs[..n - 1], i, y);
      assert xs[i := y][..n - 1] == xs[..n - 1][i := y];
    }
  }

  function TotalWeight(n: nat): nat {
    if n == 0 then 0 else TotalWeight(n - 1) + 2 * n - 1
  }

  lemma {:induction false} OddWeightsMakeSquares(n: nat)
    ensures TotalWeight(n) == n * n
  {
    if n == 0 {
    } else {
      OddWeightsMakeSquares(n - 1);
    }
  }

  function WeightedAverage(xs: seq<real>): real
    requires xs != []
  {
    OddWeightsMakeSquares(|xs|);
    WeightedSum(xs) / TotalWeight(|xs|) as real
  }

  function Estimate(xs: seq<real>): real
    requires xs != []
  {
    (Median(xs) + WeightedAverage(xs)) / 2.0
  }

  /** The sum of the weighted distances of the samples from `center`. */
  function Imbalance(xs: seq<real>, center: real): real {
    if xs == [] then 0.0
    else Imbalance(xs[..|xs| - 1], center) + (2 * |xs| - 1) as real * (xs[|xs| - 1] - center)
  }

  lemma {:induction false} ImbalanceIs(xs: seq<real>, center: real)
    ensures Imbalance(xs, center) == WeightedSum(xs) - TotalWeight(|xs|) as real * center
  {
    if xs == [] {
    } else {
      var n := |xs|;
      ImbalanceIs(xs[..n - 1], center);
      assert TotalWeight(n) as real == TotalWeight(n - 1) as real + (2 * n - 1) as real;
      ShareOf(TotalWeight(n - 1) as real, (2 * n - 1) as real, xs[n - 1], center);
    }
  }

  lemma ShareOf(total: real, w: real, x: real, center: real)
    ensures (total + w) * center == total * center + w * center && w * (x - center) == w * x - w * center
  {
  }

  /** The samples, weighing 1, 3, 5 and so on, balance at a point from which the estimate is midway to the median. */
  lemma EstimateIsMidway(xs: seq<real>)
    requires xs != []
    ensures Imbalance(xs, 2.0 * Estimate(xs) - Median(xs)) == 0.0
  {
    hide Median, WeightedSum, TotalWeight, Imbalance;
    OddWeightsMakeSquares(|xs|);
    ImbalanceIs(xs, WeightedAverage(xs));
    assert TotalWeight(|xs|) as real * WeightedAverage(xs) == WeightedSum(xs);
  }

  /**
    At least half of the samples are not above the median, and at least half not below it; of the two
    middle ones it is as far.
   */
  lemma MedianHalves(xs: seq<real>)
    requires xs != []
    ensures var s, h := Sorted(xs), (|xs| + 1) / 2;
            && multiset(s) == multiset(xs) && |s| == |xs|
            && (forall i :: 0 <= i < h ==> s[i] <= Median(xs))
            && (forall i :: |xs| - h <= i < |xs| ==> Median(xs) <= s[i])
            && Median(xs) - s[(|xs| - 1) / 2] == s[|xs| / 2] - Median(xs)
  {
    hide Sorted;
    SortedIs(xs);
    var s, n := Sorted(xs), |xs|;
    assert s[(n - 1) / 2] <= s[n / 2];
    assert s[(n - 1) / 2] <= Median(xs) <= s[n / 2];
  }

  lemma MedianWithin(xs: seq<real>, low: real, high: real)
    requires xs != [] && Within(xs, low, high)
    ensures low <= Median(xs) <= high
  {
    hide Sorted;
    SortedIs(xs);
    PermutedWithin(xs, Sorted(xs), low, high);
  }

  /** A sum with the given total weight whose average would lie between the bounds. */
  predicate SumWithin(sum: real, total: real, low: real, high: real) {
    low * total <= sum <= high * total
  }

  lemma {:induction false} WeightedSumWithin(xs: seq<real>, low: real, high: real)
    requires Within(xs, low, high)
    ensures SumWithin(WeightedSum(xs), TotalWeight(|xs|) as real, low, high)
  {
    hide SumWithin;
    if xs == [] {
      assert SumWithin(0.0, 0.0, low, high) by { NothingWithin(low, high); }
    } else {
      var n := |xs|;
      WeightedSumWithin(xs[..n - 1], low, high);
      OneMoreWithin(WeightedSum(xs[..n - 1]), TotalWeight(n - 1) as real, (2 * n - 1) as real, xs[n - 1], low, high,
                    WeightedSum(xs), TotalWeight(n) as real);
    }
  }

  lemma NothingWithin(low: real, high: real)
    ensures SumWithin(0.0, 0.0, low, high)
  {
  }

  lemma OneMoreWithin(sum: real, total: real, w: real, x: real, low: real, high: real, sum': real, total': real)
    requires SumWithin(sum, total, low, high) && w >= 0.0 && low <= x <= high
    requires sum' == sum + w * x && total' == total + w
    ensures SumWithin(sum', total', low, high)
  {
    assert w * (x - low) >= 0.0 && w * (high - x) >= 0.0;
    assert low * total' == low * total + w * low && high * total' == high * total + w * high;
  }

  lemma QuotientWithin(sum: real, n: real, low: real, high: real)
    requires n > 0.0 && SumWithin(sum, n, low, high)
    ensures low <= sum / n <= high
  {
    assert low == (low * n) / n && high == (high * n) / n;
  }

  /** The estimate lies between the samples. */
  lemma EstimateWithin(xs: seq<real>, low: real, high: real)
    requires xs != [] && Within(xs, low, high)
    ensures low <= Estimate(xs) <= high
  {
    hide Median, WeightedSum, TotalWeight, SumWithin;
    MedianWithin(xs, low, high);
    WeightedSumWithin(xs, low, high);
    OddWeightsMakeSquares(|xs|);
    QuotientWithin(WeightedSum(xs), TotalWeight(|xs|) as real, low, high);
  }

  // The error of the estimate

  /** One query of the server's time, in milliseconds of the local counter; the server reads its clock at `readAt`. */
  datatype Query = Query(before: real, readAt: real, after: real) {
    predicate Valid() {
      before <= readAt <= after
    }

    function RoundTrip(): real {
      after - before
    }

    /** The sample taken when the server's clock is the local counter plus `offset`. */
    function Sample(offset: real): real {
      SampleOf(before, readAt + offset, after)
    }
  }

  /** Every query was answered, within `longest`. */
  predicate Answered(queries: seq<Query>, longest: real) {
    forall i :: 0 <= i < |queries| ==> queries[i].Valid() && queries[i].RoundTrip() <= longest
  }

  function SampleOf(before: real, serverTime: real, after: real): real {
    serverTime - (before + after) / 2.0
  }

  function Samples(queries: seq<Query>, offset: real): seq<real> {
    seq(|queries|, i requires 0 <= i < |queries| => queries[i].Sample(offset))
  }

  /** The estimate is off by at most half the longest round trip in the window. */
  lemma ErrorBound(queries: seq<Query>, offset: real, longest: real)
    requires queries != [] && Answered(queries, longest)
    ensures -longest / 2.0 <= Estimate(Samples(queries, offset)) - offset <= longest / 2.0
  {
    hide Estimate;
    EstimateWithin(Samples(queries, offset), offset - longest / 2.0, offset + longest / 2.0);
  }

  // The window

  /** What the window holds of everything appended to it. */
  function Last<T>(xs: seq<T>): seq<T> {
    Suffix(xs, WINDOW)
  }

  /** After any number of queries only the last five round trips bound the error. */
  lemma WindowErrorBound(queries: seq<Query>, offset: real, longest: real)
    requires queries != []
    requires forall i :: 0 <= i < |queries| && i >= |queries| - 5 ==>
      queries[i].Valid() && queries[i].RoundTrip() <= longest
    ensures -longest / 2.0 <= Estimate(Last(Samples(queries, offset))) - offset <= longest / 2.0
  {
    hide Estimate;
    assert Samples(Last(queries), offset) == Last(Samples(queries, offset));
    ErrorBound(Last(queries), offset, longest);
  }

  /** Appending to a full window drops its oldest sample. */
  function Pushed(window: seq<real>, x: real): seq<real> {
    if |window| < WINDOW then window + [x] else window[1..] + [x]
  }

  lemma PushedIsLast(xs: seq<real>, x: real)
    ensures Pushed(Last(xs), x) == Last(xs + [x])
  {
    if |xs| > WINDOW {
      assert Last(xs)[1..] + [x] == (xs + [x])[|xs| + 1 - WINDOW..];
    } else if |xs| == WINDOW {
      assert xs[1..] + [x] == (xs + [x])[1..];
    }
  }

  class TimeSynchronizer {
    var timeOffsetMs: seq<real>
    ghost var added: seq<real>

    /** The samples are the last ones added since they were cleared. */
    ghost predicate Valid()
      reads this
    {
      timeOffsetMs == Last(added)
    }

    constructor ()
      ensures Valid() && added == []
    {
      timeOffsetMs, added := [], [];
    }

    method AddTimeOffsetMsSample(offset: real)
      requires Valid()
      modifies this
      ensures Valid() && added == old(added) + [offset]
    {
      PushedIsLast(added, offset);
      timeOffsetMs := if |timeOffsetMs| < WINDOW then timeOffsetMs + [offset] else timeOffsetMs[1..] + [offset];
      added := added + [offset];
    }

    method ClearTimeOffsetMsSamples()
      modifies this
      ensures Valid() && added == []
    {
      timeOffsetMs, added := [], [];
    }

    method WeightedAverageOf(xs: seq<real>) returns (average: real)
      requires xs != []
      ensures average == WeightedAverage(xs)
    {
      var sum, weights, i := 0.0, 0, 0;
      while i < |xs|
        invariant 0 <= i <= |xs|
        invariant sum == WeightedSum(xs[..i]) && weights == TotalWeight(i)
      {
        assert xs[..i + 1][..i] == xs[..i];
        sum := sum + (2 * i + 1) as real * xs[i];
        weights := weights + 2 * i + 1;
        i := i + 1;
      }
      assert xs[..i] == xs;
      OddWeightsMakeSquares(|xs|);
      average := sum / weights as real;
    }

    /** Without samples the local clocks stand in. */
    method TimeOffsetMs(wallSeconds: real, counterSeconds: real) returns (offset: real)
      requires Valid()
      ensures offset == if added == [] then (wallSeconds - counterSeconds) * 1000.0 else Estimate(Last(added))
    {
      if timeOffsetMs == [] {
        offset := (wallSeconds - counterSeconds) * 1000.0;
      } else {
        var weightedAverage := WeightedAverageOf(timeOffsetMs);
        offset := (Median(timeOffsetMs) + weightedAverage) / 2.0;
      }
    }

    method Time(wallSeconds: real, counterSeconds: real) returns (now: real)
      requires Valid()
      ensures var offset := if added == [] then (wallSeconds - counterSeconds) * 1000.0 else Estimate(Last(added));
              now == counterSeconds + offset * 0.001
    {
      var offset := TimeOffsetMs(wallSeconds, counterSeconds);
      now := counterSeconds + offset * 0.001;
    }

    /** `None` stands for a failed query, which leaves the samples alone. */
    method UpdateServerTimeOffsetWithTimeProvider(beforeSeconds: real, serverTimeMs: Option<real>, afterSeconds: real)
      requires Valid()
      modifies this
      ensures Valid()
      ensures added == if serverTimeMs.None? then old(added)
                       else old(added) + [SampleOf(beforeSeconds * 1000.0, serverTimeMs.value, afterSeconds * 1000.0)]
    {
      if serverTimeMs.Some? {
        var localBeforeMs, localAfterMs := beforeSeconds * 1000.0, afterSeconds * 1000.0;
        var preImageMs := (localBeforeMs + localAfterMs) / 2.0;
        AddTimeOffsetMsSample(serverTimeMs.value - preImageMs);
      }
    }

    /** Under the lock, so that of several concurrent callers only the first successful one adds a sample. */
    method UpdateServerTimeIfNotInitialized(beforeSeconds: real, serverTimeMs: Option<real>, afterSeconds: real)
      requires Valid()
      modifies this
      ensures Valid()
      ensures added == if serverTimeMs.None? || old(added) != [] then old(added)
                       else [SampleOf(beforeSeconds * 1000.0, serverTimeMs.value, afterSeconds * 1000.0)]
    {
      if timeOffsetMs == [] {
        UpdateServerTimeOffsetWithTimeProvider(beforeSeconds, serverTimeMs, afterSeconds);
      }
    }
  }
}
