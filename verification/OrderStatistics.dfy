/**
 The summaries a publication recomputes from its runs: least value, median
 and nearest-rank 95th percentile, and their use on latency distributions.
 */
module OrderStatistics {
  import opened Options

  const U128_MAX := 0xFFFF_FFFF_FFFF_FFFF_FFFF_FFFF_FFFF_FFFF

  // ---- sorted

  function Insert(x: int, s: seq<int>): (r: seq<int>)
    ensures |r| == |s| + 1
  {
    if s == [] || x <= s[0] then [x] + s else [s[0]] + Insert(x, s[1..])
  }

  function Sort(values: seq<int>): (r: seq<int>)
    ensures |r| == |values|
  {
    if values == [] then [] else Insert(values[0], Sort(values[1..]))
  }

  predicate Sorted(s: seq<int>) {
    forall i, j :: 0 <= i <= j < |s| ==> s[i] <= s[j]
  }

  function CountAtMost(values: seq<int>, x: int): nat {
    if values == [] then 0 else (if values[0] <= x then 1 else 0) + CountAtMost(values[1..], x)
  }

  lemma {:induction false} InsertKeeps(x: int, s: seq<int>, y: int)
    requires Sorted(s)
    ensures Sorted(Insert(x, s))
    ensures CountAtMost(Insert(x, s), y) == CountAtMost([x] + s, y)
    ensures forall i :: 0 <= i <= |s| ==> Insert(x, s)[i] == x || Insert(x, s)[i] in s
  {
    if s != [] && x > s[0] {
      InsertKeeps(x, s[1..], y);
      assert ([x] + s)[1..] == s && ([x] + s[1..])[1..] == s[1..];
      assert Insert(x, s)[1..] == Insert(x, s[1..]);
    }
  }

  lemma {:induction false} SortKeeps(values: seq<int>, y: int)
    ensures Sorted(Sort(values)) && CountAtMost(Sort(values), y) == CountAtMost(values, y)
  {
    if values != [] {
      SortKeeps(values[1..], y);
      InsertKeeps(values[0], Sort(values[1..]), y);
      assert ([values[0]] + Sort(values[1..]))[1..] == Sort(values[1..]);
    }
  }

  lemma {:induction false} SortedRank(s: seq<int>, k: nat, x: int)
    requires Sorted(s) && k < |s|
    ensures s[k] <= x <==> CountAtMost(s, x) > k
    ensures s[0] > x ==> CountAtMost(s, x) == 0
  {
    if |s| > 1 {
      SortedRank(s[1..], if k > 0 then k - 1 else 0, x);
    }
  }

  /** What sorting is for: position k holds at most x exactly when more than k of the values are at
      most x, whatever order they came in. */
  lemma OrderStatistic(values: seq<int>, k: nat, x: int)
    requires k < |values|
    ensures Sort(values)[k] <= x <==> CountAtMost(values, x) > k
  {
    SortKeeps(values, x);
    SortedRank(Sort(values), k, x);
  }

  // ---- Summaries

  datatype Metric = Metric(min: int, median: int, p95: int)

  function CeilDiv(numerator: int, denominator: int): int
    requires denominator > 0
  {
    (numerator + denominator - 1) / denominator
  }

  function Summarize(values: seq<int>): Metric
    requires values != []
  {
    var ordered, n := Sort(values), |values|;
    var median := if n % 2 == 1 then ordered[n / 2] else (ordered[n / 2 - 1] + ordered[n / 2]) / 2;
    Metric(ordered[0], median, ordered[CeilDiv(n * 95, 100) - 1])
  }

  /** x is the least number with more than k values at most it. */
  ghost predicate IsRank(values: seq<int>, k: int, x: int) {
    CountAtMost(values, x) > k && forall y :: y < x ==> CountAtMost(values, y) <= k
  }

  lemma RankIs(values: seq<int>, k: nat)
    requires k < |values|
    ensures IsRank(values, k, Sort(values)[k])
  {
    var x := Sort(values)[k];
    OrderStatistic(values, k, x);
    forall y | y < x
      ensures CountAtMost(values, y) <= k
    {
      OrderStatistic(values, k, y);
    }
  }

  /** The three numbers without sorting. The percentile is the least number that at least 95 in 100
      of the values do not exceed; the median is the rounded-down mean of the least number that at
      least half do not exceed and the least number that more than half do not exceed. */
  ghost predicate Summarizes(m: Metric, values: seq<int>) {
    && IsRank(values, 0, m.min)
    && (exists low, high :: IsMiddle(values, low, high) && m.median == (low + high) / 2)
    && 100 * CountAtMost(values, m.p95) >= 95 * |values|
    && (forall y :: y < m.p95 ==> 100 * CountAtMost(values, y) < 95 * |values|)
  }

  ghost predicate IsMiddle(values: seq<int>, low: int, high: int) {
    && 2 * CountAtMost(values, low) >= |values| && 2 * CountAtMost(values, high) > |values|
    && (forall y :: y < low ==> 2 * CountAtMost(values, y) < |values|)
    && (forall y :: y < high ==> 2 * CountAtMost(values, y) <= |values|)
  }

  lemma MiddleIs(values: seq<int>)
    requires values != []
    ensures var s, n := Sort(values), |values|; IsMiddle(values, s[(n - 1) / 2], s[n / 2])
  {
    RankIs(values, (|values| - 1) / 2);
    RankIs(values, |values| / 2);
  }

  lemma SummaryMeaning(values: seq<int>)
    requires values != []
    ensures Summarizes(Summarize(values), values)
  {
    var n := |values|;
    RankIs(values, 0);
    MiddleIs(values);
    RankIs(values, CeilDiv(n * 95, 100) - 1);
    var low, high := Sort(values)[(n - 1) / 2], Sort(values)[n / 2];
    assert Summarize(values).median == (low + high) / 2;
  }

  /** Nothing else has that meaning. */
  lemma SummaryUnique(m: Metric, values: seq<int>)
    requires values != [] && Summarizes(m, values)
    ensures m == Summarize(values)
  {
    SummaryMeaning(values);
    var low, high :| IsMiddle(values, low, high) && m.median == (low + high) / 2;
    var low', high' :| IsMiddle(values, low', high') && Summarize(values).median == (low' + high') / 2;
    assert low == low' && high == high';
  }

  // ---- Permutation invariance

  lemma {:induction false} CountSplit(a: seq<int>, b: seq<int>, x: int)
    ensures CountAtMost(a + b, x) == CountAtMost(a, x) + CountAtMost(b, x)
  {
    if a == [] {
      assert a + b == b;
    } else {
      CountSplit(a[1..], b, x);
      assert (a + b)[0] == a[0] && (a + b)[1..] == a[1..] + b;
    }
  }

  function Without(b: seq<int>, i: nat): seq<int>
    requires i < |b|
  {
    b[..i] + b[i + 1..]
  }

  lemma CountWithout(b: seq<int>, i: nat, x: int)
    requires i < |b|
    ensures CountAtMost(b, x) == CountAtMost([b[i]], x) + CountAtMost(Without(b, i), x)
  {
    assert b == b[..i] + ([b[i]] + b[i + 1..]);
    CountSplit(b[..i], [b[i]] + b[i + 1..], x);
    CountSplit([b[i]], b[i + 1..], x);
    CountSplit(b[..i], b[i + 1..], x);
  }

  lemma ElementsWithout(b: seq<int>, i: nat)
    requires i < |b|
    ensures multiset(Without(b, i)) == multiset(b) - multiset{b[i]}
  {
    assert b == b[..i] + ([b[i]] + b[i + 1..]);
  }

  // A permutation pairs the first element with an equal one and permutes the rest.
  lemma Match(a: seq<int>, b: seq<int>) returns (i: nat)
    requires multiset(a) == multiset(b) && a != []
    ensures i < |b| && b[i] == a[0] && multiset(Without(a, 0)) == multiset(Without(b, i))
  {
    assert a[0] in multiset(a);
    i :| i < |b| && b[i] == a[0];
    ElementsWithout(a, 0);
    ElementsWithout(b, i);
  }

  lemma {:induction false} CountPermuted(a: seq<int>, b: seq<int>, x: int)
    requires multiset(a) == multiset(b)
    ensures CountAtMost(a, x) == CountAtMost(b, x)
  {
    assert |multiset(a)| == |a| && |multiset(b)| == |b|;
    if a != [] {
      var i := Match(a, b);
      CountWithout(a, 0, x);
      CountWithout(b, i, x);
      CountPermuted(Without(a, 0), Without(b, i), x);
    }
  }

  lemma SummaryPermuted(a: seq<int>, b: seq<int>)
    requires a != [] && multiset(a) == multiset(b)
    ensures b != [] && Summarize(a) == Summarize(b)
  {
    assert |multiset(a)| == |a| && |multiset(b)| == |b|;
    SummaryMeaning(a);
    forall x
      ensures CountAtMost(a, x) == CountAtMost(b, x)
    {
      CountPermuted(a, b, x);
    }
    var low, high :| IsMiddle(a, low, high) && Summarize(a).median == (low + high) / 2;
    assert IsMiddle(b, low, high);
    SummaryUnique(Summarize(a), b);
  }

  // ---- The validator accepts every summary

  predicate IsU128(value: int) {
    0 <= value <= U128_MAX
  }

  predicate ValidMetric(m: Metric) {
    IsU128(m.min) && IsU128(m.median) && IsU128(m.p95) && m.min <= m.median <= m.p95
  }

  lemma {:induction false} SortBounded(values: seq<int>)
    requires forall i :: 0 <= i < |values| ==> IsU128(values[i])
    ensures forall i :: 0 <= i < |values| ==> IsU128(Sort(values)[i])
  {
    if values != [] {
      SortBounded(values[1..]);
      SortKeeps(values[1..], 0);
      InsertKeeps(values[0], Sort(values[1..]), 0);
    }
  }

  lemma SummaryAccepted(values: seq<int>)
    requires values != [] && forall i :: 0 <= i < |values| ==> IsU128(values[i])
    ensures ValidMetric(Summarize(values))
  {
    SortKeeps(values, 0);
    SortBounded(values);
    var n := |values|;
    var rank := CeilDiv(n * 95, 100) - 1;
    assert n / 2 <= rank < n;
  }

  // ---- Monotone under domination

  predicate Dominated(a: seq<int>, b: seq<int>) {
    |a| == |b| && forall i :: 0 <= i < |a| ==> a[i] <= b[i]
  }

  predicate AtMost(a: Metric, b: Metric) {
    a.min <= b.min && a.median <= b.median && a.p95 <= b.p95
  }

  lemma {:induction false} CountDominated(a: seq<int>, b: seq<int>, x: int)
    requires Dominated(a, b)
    ensures CountAtMost(a, x) >= CountAtMost(b, x)
  {
    if a != [] {
      CountDominated(a[1..], b[1..], x);
    }
  }

  lemma RankDominated(a: seq<int>, b: seq<int>, k: nat)
    requires Dominated(a, b) && k < |a|
    ensures Sort(a)[k] <= Sort(b)[k]
  {
    var x := Sort(b)[k];
    OrderStatistic(b, k, x);
    CountDominated(a, b, x);
    OrderStatistic(a, k, x);
  }

  lemma SummaryDominated(a: seq<int>, b: seq<int>)
    requires Dominated(a, b) && a != []
    ensures AtMost(Summarize(a), Summarize(b))
  {
    forall k | 0 <= k < |a|
      ensures Sort(a)[k] <= Sort(b)[k]
    {
      RankDominated(a, b, k);
    }
  }

  // ---- Latency distributions

  datatype Latency = Latency(min: int, median: int, p95: int, p99: int)

  datatype LatencyAggregate = LatencyAggregate(min: Metric, median: Metric, p95: Metric, p99: Metric)

  predicate ValidLatency(l: Latency) {
    && IsU128(l.min) && IsU128(l.median) && IsU128(l.p95) && IsU128(l.p99)
    && l.min <= l.median <= l.p95 <= l.p99
  }

  predicate ValidLatencyAggregate(a: LatencyAggregate) {
    ValidMetric(a.min) && ValidMetric(a.median) && ValidMetric(a.p95) && ValidMetric(a.p99)
  }

  function Present<T>(values: seq<Option<T>>): seq<T> {
    if values == [] then []
    else (if values[0].Some? then [values[0].value] else []) + Present(values[1..])
  }

  function Mins(runs: seq<Latency>): seq<int> { seq(|runs|, i requires 0 <= i < |runs| => runs[i].min) }
  function Medians(runs: seq<Latency>): seq<int> { seq(|runs|, i requires 0 <= i < |runs| => runs[i].median) }
  function P95s(runs: seq<Latency>): seq<int> { seq(|runs|, i requires 0 <= i < |runs| => runs[i].p95) }
  function P99s(runs: seq<Latency>): seq<int> { seq(|runs|, i requires 0 <= i < |runs| => runs[i].p99) }

  function SummarizeLatency(values: seq<Option<Latency>>): (r: Option<LatencyAggregate>)
    ensures r.None? <==> forall i :: 0 <= i < |values| ==> values[i].None?
  {
    var runs := Present(values);
    PresentIff(values);
    if runs == [] then None
    else Some(LatencyAggregate(Summarize(Mins(runs)), Summarize(Medians(runs)),
                               Summarize(P95s(runs)), Summarize(P99s(runs))))
  }

  lemma {:induction false} PresentIff<T>(values: seq<Option<T>>)
    ensures Present(values) == [] <==> forall i :: 0 <= i < |values| ==> values[i].None?
    ensures forall i :: 0 <= i < |Present(values)| ==> Some(Present(values)[i]) in values
  {
    if values != [] {
      PresentIff(values[1..]);
      assert forall i :: 1 <= i < |values| ==> values[i] == values[1..][i - 1];
    }
  }

  /** Runs whose distributions are ordered aggregate to distributions that are ordered in each of
      their own least value, median and percentile, and the validator accepts the aggregate. */
  lemma AggregateOrdered(values: seq<Option<Latency>>)
    requires forall v :: v in values && v.Some? ==> ValidLatency(v.value)
    ensures SummarizeLatency(values).Some? ==>
              var a := SummarizeLatency(values).value;
              && ValidLatencyAggregate(a)
              && AtMost(a.min, a.median) && AtMost(a.median, a.p95) && AtMost(a.p95, a.p99)
  {
    var runs := Present(values);
    PresentIff(values);
    if runs != [] {
      assert forall i :: 0 <= i < |runs| ==> ValidLatency(runs[i]) by {
        assert forall i :: 0 <= i < |runs| ==> Some(runs[i]) in values;
      }
      hide Summarize;
      SummaryDominated(Mins(runs), Medians(runs));
      SummaryDominated(Medians(runs), P95s(runs));
      SummaryDominated(P95s(runs), P99s(runs));
      SummaryAccepted(Mins(runs));
      SummaryAccepted(Medians(runs));
      SummaryAccepted(P95s(runs));
      SummaryAccepted(P99s(runs));
    }
  }
}
