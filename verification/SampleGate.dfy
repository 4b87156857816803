/**
 The release checker's verdict on a whole sample series: the soak's length and
 sampling interval, enough samples, the rules of the series, and no growth of
 memory or threads between its first and its last samples.
 */
module SampleGate {
  import opened MobileEvidence
  import opened OrderStatistics

  const MIN_SOAK := 6 * 60 * 60
  const MAX_INTERVAL := 60
  const COVERAGE: real := 0.9
  const MAX_MEMORY_GROWTH: real := 8388608.0
  const MAX_THREAD_GROWTH: real := 4.0
  const WINDOW := 5

  // statistics.median: the middle value, or the mean of the two middle ones.
  function Median(values: seq<int>): real
    requires values != []
  {
    var s := Sort(values);
    (s[(|values| - 1) / 2] + s[|values| / 2]) as real / 2.0
  }

  function Memory(samples: seq<Sample>): seq<int> {
    seq(|samples|, i requires 0 <= i < |samples| => samples[i].memory)
  }

  function Threads(samples: seq<Sample>): seq<int> {
    seq(|samples|, i requires 0 <= i < |samples| => samples[i].threads)
  }

  function MinimumSamples(duration: int, interval: int): int
    requires interval >= 1
  {
    (duration as real / interval as real * COVERAGE).Floor + 1
  }

  function Window(samples: seq<Sample>): nat {
    if |samples| < WINDOW then |samples| else WINDOW
  }

  function FirstOf(samples: seq<Sample>): seq<Sample> {
    samples[..Window(samples)]
  }

  function LastOf(samples: seq<Sample>): seq<Sample> {
    samples[|samples| - Window(samples)..]
  }

  function MaxReal(a: real, b: real): real {
    if a < b then b else a
  }

  // The most memory the last samples may show, given the first.
  function MemoryLimit(first: real): real {
    first + MaxReal(MAX_MEMORY_GROWTH, first / 4.0)
  }

  predicate Steady(samples: seq<Sample>)
    requires samples != []
  {
    && Median(Memory(LastOf(samples))) <= MemoryLimit(Median(Memory(FirstOf(samples))))
    && Median(Threads(LastOf(samples))) <= Median(Threads(FirstOf(samples))) + MAX_THREAD_GROWTH
  }

  /** What the checker promises of a series. */
  ghost predicate Accepted(samples: seq<Sample>, duration: int, interval: int) {
    && duration >= MIN_SOAK && 1 <= interval <= MAX_INTERVAL && |samples| >= MinimumSamples(duration, interval)
    && SeriesOk(samples, duration, interval) && Steady(samples)
  }

  lemma MinimumPositive(duration: int, interval: int)
    requires duration >= 0 && interval >= 1
    ensures MinimumSamples(duration, interval) >= 1
  {
    assert duration as real / interval as real >= 0.0;
  }

  /** validate_samples: accepts exactly the series Accepted describes. */
  method ValidateSamples(samples: seq<Sample>, duration: int, interval: int) returns (ok: bool)
    ensures ok <==> Accepted(samples, duration, interval)
  {
    hide SeriesOk, Median;
    if duration < 1 || interval < 1 { return false; }
    if duration < MIN_SOAK { return false; }
    if interval > MAX_INTERVAL { return false; }
    MinimumPositive(duration, interval);
    if |samples| < MinimumSamples(duration, interval) { return false; }
    var series := ValidateSeries(samples, duration, interval);
    if !series { return false; }
    var first, last := Median(Memory(FirstOf(samples))), Median(Memory(LastOf(samples)));
    var allowed := MaxReal(MAX_MEMORY_GROWTH, first / 4.0);
    if last - first > allowed { return false; }
    if Median(Threads(LastOf(samples))) - Median(Threads(FirstOf(samples))) > MAX_THREAD_GROWTH { return false; }
    ok := true;
  }

  // ---- What acceptance means

  lemma QuotientAtLeast(duration: int, interval: int)
    requires duration >= MIN_SOAK && 1 <= interval <= MAX_INTERVAL
    ensures duration as real / interval as real >= 360.0
  {
    assert duration as real >= 360.0 * interval as real;
  }

  /** An accepted series has at least 325 samples, so its first and last five do not overlap. */
  lemma AcceptedIsDense(samples: seq<Sample>, duration: int, interval: int)
    requires Accepted(samples, duration, interval)
    ensures |samples| >= 325 && |FirstOf(samples)| == |LastOf(samples)| == WINDOW
  {
    QuotientAtLeast(duration, interval);
  }

  lemma MedianOfFive(values: seq<int>)
    requires |values| == WINDOW
    ensures Median(values) == Sort(values)[2] as real
  {
  }

  /** Most of the last five samples stay within the limit that the median of the first five sets:
      one outlier or two decide nothing. */
  lemma MemorySettles(samples: seq<Sample>, duration: int, interval: int)
    requires Accepted(samples, duration, interval)
    ensures |FirstOf(samples)| == WINDOW
    ensures var limit := MemoryLimit(Median(Memory(FirstOf(samples))));
            CountAtMost(Memory(LastOf(samples)), limit.Floor) >= 3
  {
    AcceptedIsDense(samples, duration, interval);
    var last, limit := Memory(LastOf(samples)), MemoryLimit(Median(Memory(FirstOf(samples))));
    MedianOfFive(last);
    assert Sort(last)[2] <= limit.Floor;
    OrderStatistic(last, 2, limit.Floor);
  }
}
