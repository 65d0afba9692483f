/**
 * Histogram helpers of the timeline chart: the time range of the logs, evenly
 * spaced buckets over it, the number of logs per bucket and the ticks of the
 * count axis. Bucket boundaries are exact reals.
 */
module Timeline {

  import opened Types

  datatype TimeRange = TimeRange(min: int, max: int)
  datatype TimeBucket = TimeBucket(start: real, end: real)
  datatype BucketedData = BucketedData(bucket: TimeBucket, count: nat)

  // ---------------------------------------------------------------------------
  // getTimeRange
  // ---------------------------------------------------------------------------

  /** r bounds every timestamp of logs and both its ends occur among them. */
  ghost predicate IsTimeRangeOf(logs: seq<LogEntry>, r: TimeRange) {
    (forall i :: 0 <= i < |logs| ==> r.min <= logs[i].time <= r.max) &&
    (exists i :: 0 <= i < |logs| && logs[i].time == r.min) &&
    (exists i :: 0 <= i < |logs| && logs[i].time == r.max)
  }

  /** The smallest and largest timestamp of the logs; None for no logs. */
  method GetTimeRange(logs: seq<LogEntry>) returns (r: Option<TimeRange>)
    ensures r.None? <==> |logs| == 0
    ensures r.Some? ==> IsTimeRangeOf(logs, r.value)
  {
    if |logs| == 0 {
      return None;
    }
    var min, max := logs[0].time, logs[0].time;
    ghost var argMin, argMax := 0, 0;
    var k := 0;
    while k < |logs|
      invariant 0 <= k <= |logs|
      invariant 0 <= argMin < |logs| && logs[argMin].time == min
      invariant 0 <= argMax < |logs| && logs[argMax].time == max
      invariant min <= logs[0].time <= max
      invariant forall i :: 0 <= i < k ==> min <= logs[i].time <= max
    {
      var log := logs[k];
      if log.time < min {
        min, argMin := log.time, k;
      }
      if log.time > max {
        max, argMax := log.time, k;
      }
      k := k + 1;
    }
    return Some(TimeRange(min, max));
  }

  /** Reordering the logs does not change which range is theirs. */
  lemma TimeRangeIgnoresOrder(logs: seq<LogEntry>, reordered: seq<LogEntry>, r: TimeRange)
    requires multiset(logs) == multiset(reordered)
    requires IsTimeRangeOf(logs, r)
    ensures IsTimeRangeOf(reordered, r)
  {
    forall j | 0 <= j < |reordered|
      ensures r.min <= reordered[j].time <= r.max
    {
      assert reordered[j] in multiset(logs);
      var i :| 0 <= i < |logs| && logs[i] == reordered[j];
    }
    var iMin :| 0 <= iMin < |logs| && logs[iMin].time == r.min;
    var iMax :| 0 <= iMax < |logs| && logs[iMax].time == r.max;
    assert logs[iMin] in multiset(reordered);
    assert logs[iMax] in multiset(reordered);
    var jMin :| 0 <= jMin < |reordered| && reordered[jMin] == logs[iMin];
    var jMax :| 0 <= jMax < |reordered| && reordered[jMax] == logs[iMax];
  }

  /** A list of logs has at most one range. */
  lemma TimeRangeUnique(logs: seq<LogEntry>, r1: TimeRange, r2: TimeRange)
    requires IsTimeRangeOf(logs, r1) && IsTimeRangeOf(logs, r2)
    ensures r1 == r2
  {
    var i1 :| 0 <= i1 < |logs| && logs[i1].time == r1.min;
    var i2 :| 0 <= i2 < |logs| && logs[i2].time == r2.min;
    var j1 :| 0 <= j1 < |logs| && logs[j1].time == r1.max;
    var j2 :| 0 <= j2 < |logs| && logs[j2].time == r2.max;
  }

  // ---------------------------------------------------------------------------
  // createTimeBuckets
  // ---------------------------------------------------------------------------

  /** The width of each of count buckets spanning [min, max]. */
  function BucketSize(min: int, max: int, count: int): real
    requires count != 0
  {
    (max - min) as real / count as real
  }

  /** Bucket i of those of width size laid end to end from min. */
  function NthBucket(min: int, size: real, i: nat): TimeBucket {
    TimeBucket(min as real + i as real * size, min as real + (i + 1) as real * size)
  }

  lemma NthBucketWidth(min: int, size: real, i: nat)
    ensures NthBucket(min, size, i).end - NthBucket(min, size, i).start == size
    ensures NthBucket(min, size, i).end == NthBucket(min, size, i + 1).start
  {
    assert (i + 1) as real * size == i as real * size + size;
  }

  lemma LastBucketEndsAtMax(min: int, max: int, count: nat)
    requires count >= 1
    ensures NthBucket(min, BucketSize(min, max, count), count - 1).end == max as real
  {
    var size := BucketSize(min, max, count);
    assert count as real * size == (max - min) as real;
  }

  /** Buckets laid end to end from min to max have the shape the chart relies on. */
  lemma EvenBuckets(min: int, max: int, count: nat, buckets: seq<TimeBucket>)
    requires min != max && count >= 1 && |buckets| == count
    requires forall j :: 0 <= j < count ==> buckets[j] == NthBucket(min, BucketSize(min, max, count), j)
    ensures forall i :: 0 <= i < |buckets| ==>
      buckets[i].start == min as real + i as real * BucketSize(min, max, count) &&
      buckets[i].end - buckets[i].start == BucketSize(min, max, count)
    ensures buckets[0].start == min as real && buckets[|buckets| - 1].end == max as real
    ensures forall i :: 0 <= i < |buckets| - 1 ==> buckets[i].end == buckets[i + 1].start
    ensures min < max ==> forall i :: 0 <= i < |buckets| ==> buckets[i].start < buckets[i].end
  {
    var size := BucketSize(min, max, count);
    LastBucketEndsAtMax(min, max, count);
    assert min < max ==> size > 0.0;
    forall j | 0 <= j < |buckets|
      ensures buckets[j].end - buckets[j].start == size
      ensures j < |buckets| - 1 ==> buckets[j].end == buckets[j + 1].start
    {
      NthBucketWidth(min, size, j);
    }
  }

  /**
   * count evenly spaced buckets from min to max; the single bucket [min, max]
   * when min == max. A count below one gives no buckets.
   */
  method CreateTimeBuckets(min: int, max: int, count: int) returns (buckets: seq<TimeBucket>)
    ensures min == max ==> buckets == [TimeBucket(min as real, max as real)]
    ensures min != max ==> |buckets| == if count > 0 then count else 0
    ensures min != max ==> forall i :: 0 <= i < |buckets| ==>
      buckets[i].start == min as real + i as real * BucketSize(min, max, count) &&
      buckets[i].end - buckets[i].start == BucketSize(min, max, count)
    ensures |buckets| > 0 ==> buckets[0].start == min as real && buckets[|buckets| - 1].end == max as real
    ensures forall i :: 0 <= i < |buckets| - 1 ==> buckets[i].end == buckets[i + 1].start
    ensures min < max ==> forall i :: 0 <= i < |buckets| ==> buckets[i].start < buckets[i].end
  {
    if min == max {
      return [TimeBucket(min as real, max as real)];
    }
    // JavaScript divides by zero to an infinite width here; no bucket is built then
    var bucketSize := if count != 0 then BucketSize(min, max, count) else 0.0;
    buckets := [];
    var i := 0;
    while i < count
      invariant 0 <= i <= (if count > 0 then count else 0)
      invariant |buckets| == i
      invariant forall j :: 0 <= j < i ==> buckets[j] == NthBucket(min, bucketSize, j)
    {
      buckets := buckets + [NthBucket(min, bucketSize, i)];
      i := i + 1;
    }
    if count > 0 {
      EvenBuckets(min, max, count, buckets);
    }
  }

  // ---------------------------------------------------------------------------
  // assignLogsToBuckets
  // ---------------------------------------------------------------------------

  function Clamp(i: int, hi: nat): (r: nat)
    ensures r <= hi
    ensures 0 <= i <= hi ==> r == i
  {
    if i < 0 then 0 else if i > hi then hi else i
  }

  /**
   * The bucket a timestamp is counted in: floor((time - min) / size) clamped
   * to [0, len - 1]. A zero width divides to plus or minus infinity, which the
   * clamp sends to the last or the first bucket, or to NaN when time == min,
   * which indexes no bucket (None).
   */
  function BucketIndex(time: int, min: real, size: real, len: nat): (r: Option<nat>)
    requires len >= 1
    ensures r.None? <==> size == 0.0 && time as real == min
    ensures r.Some? ==> r.value < len
  {
    if size == 0.0 then
      if time as real > min then Some(len - 1)
      else if (time as real) < min then Some(0)
      else None
    else
      Some(Clamp(((time as real - min) / size).Floor, len - 1))
  }

  /** The width the assignment divides by: the span over the number of buckets, or 1 for one bucket. */
  function AssignmentSize(buckets: seq<TimeBucket>): (size: real)
    requires |buckets| >= 1
    ensures |buckets| == 1 ==> size == 1.0
    ensures |buckets| > 1 ==> size * |buckets| as real == buckets[|buckets| - 1].end - buckets[0].start
  {
    if |buckets| == 1 then 1.0 else (buckets[|buckets| - 1].end - buckets[0].start) / |buckets| as real
  }

  /**
   * The bucket a log at `time` is counted in, measured from the first start
   * with the assignment's width. Only a zero span over several buckets can
   * leave a log without a bucket.
   */
  function IndexOf(buckets: seq<TimeBucket>, time: int): (r: Option<nat>)
    requires |buckets| >= 1
    ensures r.Some? ==> r.value < |buckets|
    ensures r.None? <==> |buckets| > 1 && buckets[|buckets| - 1].end == buckets[0].start && time as real == buckets[0].start
  {
    BucketIndex(time, buckets[0].start, AssignmentSize(buckets), |buckets|)
  }

  /** How many of the logs are counted in bucket k. */
  function CountIn(logs: seq<LogEntry>, buckets: seq<TimeBucket>, k: nat): nat
    requires |buckets| >= 1
  {
    if logs == [] then 0
    else CountIn(logs[..|logs| - 1], buckets, k)
         + (if IndexOf(buckets, logs[|logs| - 1].time) == Some(k) then 1 else 0)
  }

  /** The counts of a histogram added up. */
  function Total(data: seq<BucketedData>): nat {
    if data == [] then 0 else Total(data[..|data| - 1]) + data[|data| - 1].count
  }

  /** The histogram of the logs over the buckets: each bucket with the number of logs counted in it. */
  function Histogram(logs: seq<LogEntry>, buckets: seq<TimeBucket>): (h: seq<BucketedData>)
    ensures |h| == |buckets|
    ensures forall k :: 0 <= k < |h| ==> h[k].bucket == buckets[k]
  {
    if |buckets| == 0 then []
    else seq(|buckets|, k requires 0 <= k < |buckets| => BucketedData(buckets[k], CountIn(logs, buckets, k)))
  }

  /** Counting one more log in one bucket adds one to the total. */
  lemma {:induction false} TotalIncrement(data: seq<BucketedData>, k: nat)
    requires k < |data|
    ensures Total(data[k := data[k].(count := data[k].count + 1)]) == Total(data) + 1
  {
    var data' := data[k := data[k].(count := data[k].count + 1)];
    if k < |data| - 1 {
      assert data'[..|data'| - 1] == data[..|data| - 1][k := data[k].(count := data[k].count + 1)];
      TotalIncrement(data[..|data| - 1], k);
    } else {
      assert data'[..|data'| - 1] == data[..|data| - 1];
    }
  }

  /** A histogram whose every count is zero totals zero. */
  lemma {:induction false} TotalOfZeros(data: seq<BucketedData>)
    requires forall k :: 0 <= k < |data| ==> data[k].count == 0
    ensures Total(data) == 0
  {
    if data != [] {
      TotalOfZeros(data[..|data| - 1]);
    }
  }

  /** Counting the log at position n adds one to its own bucket and changes no other. */
  lemma HistogramSnoc(logs: seq<LogEntry>, buckets: seq<TimeBucket>, n: nat, b: nat)
    requires |buckets| >= 1 && n < |logs| && IndexOf(buckets, logs[n].time) == Some(b)
    ensures var h := Histogram(logs[..n], buckets);
            Histogram(logs[..n + 1], buckets) == h[b := h[b].(count := h[b].count + 1)]
  {
    assert logs[..n + 1][..n] == logs[..n];
  }

  /** When every log has a bucket, the histogram counts every log exactly once. */
  lemma {:induction false} HistogramTotal(logs: seq<LogEntry>, buckets: seq<TimeBucket>)
    requires |buckets| >= 1
    requires forall i :: 0 <= i < |logs| ==> IndexOf(buckets, logs[i].time).Some?
    ensures Total(Histogram(logs, buckets)) == |logs|
  {
    var n := |logs|;
    if n == 0 {
      TotalOfZeros(Histogram(logs, buckets));
    } else {
      var b := IndexOf(buckets, logs[n - 1].time).value;
      HistogramSnoc(logs, buckets, n - 1, b);
      assert logs[..n] == logs;
      HistogramTotal(logs[..n - 1], buckets);
      TotalIncrement(Histogram(logs[..n - 1], buckets), b);
    }
  }

  /**
   * One counter per bucket, in bucket order, each carrying its bucket, and each
   * log counted in exactly one of them; None when some log's index is NaN, where
   * the source throws.
   */
  method AssignLogsToBuckets(logs: seq<LogEntry>, buckets: seq<TimeBucket>) returns (r: Option<seq<BucketedData>>)
    ensures |buckets| == 0 ==> r == Some([])
    ensures r.None? <==> |buckets| > 0 && exists i :: 0 <= i < |logs| && IndexOf(buckets, logs[i].time).None?
    ensures r.Some? ==> r.value == Histogram(logs, buckets)
    ensures r.Some? ==> |r.value| == |buckets| && forall k :: 0 <= k < |buckets| ==> r.value[k].bucket == buckets[k]
    ensures r.Some? && |buckets| > 0 ==> Total(r.value) == |logs|
  {
    if |buckets| == 0 {
      return Some([]);
    }
    var data := new BucketedData[|buckets|](i requires 0 <= i < |buckets| => BucketedData(buckets[i], 0));
    var min := buckets[0].start;
    var bucketSize := AssignmentSize(buckets);
    var n := 0;
    assert logs[..n] == [];
    assert data[..] == Histogram(logs[..n], buckets);
    while n < |logs|
      invariant 0 <= n <= |logs|
      invariant forall i :: 0 <= i < n ==> IndexOf(buckets, logs[i].time).Some?
      invariant data[..] == Histogram(logs[..n], buckets)
    {
      var bucketIndex := BucketIndex(logs[n].time, min, bucketSize, |buckets|);
      if bucketIndex.None? {
        return None;
      }
      var b := bucketIndex.value;
      HistogramSnoc(logs, buckets, n, b);
      data[b] := data[b].(count := data[b].count + 1);
      n := n + 1;
    }
    assert logs[..n] == logs;
    HistogramTotal(logs, buckets);
    r := Some(data[..]);
  }

  /** A log exactly at the upper boundary is counted in the last bucket. */
  lemma UpperBoundaryInLastBucket(buckets: seq<TimeBucket>, time: int)
    requires |buckets| >= 1
    requires buckets[0].start != buckets[|buckets| - 1].end
    requires time as real == buckets[|buckets| - 1].end
    ensures IndexOf(buckets, time) == Some(|buckets| - 1)
  {
    var len := |buckets| as real;
    var span := buckets[|buckets| - 1].end - buckets[0].start;
    if |buckets| > 1 {
      var size := span / len;
      assert size != 0.0;
      assert (time as real - buckets[0].start) / size == len;
    }
  }

  /** With evenly spaced buckets, a log inside bucket k is counted in bucket k. */
  lemma LogInsideBucket(time: int, min: real, size: real, len: nat, k: nat)
    requires len >= 1 && size > 0.0 && k < len
    requires min + k as real * size <= time as real < min + (k + 1) as real * size
    ensures BucketIndex(time, min, size, len) == Some(k)
  {
    var x := (time as real - min) / size;
    assert x * size == time as real - min;
    ScaleCompare(k as real, x, size);
    ScaleCompare(x, (k + 1) as real, size);
    assert k as real <= x < (k + 1) as real;
  }

  /** Comparing two reals scaled by the same positive factor compares the reals. */
  lemma ScaleCompare(a: real, b: real, c: real)
    requires c > 0.0
    ensures a * c <= b * c <==> a <= b
    ensures a * c < b * c <==> a < b
  {
    if a <= b {
      assert (b - a) * c >= 0.0;
    } else {
      assert (a - b) * c > 0.0;
    }
  }

  // ---------------------------------------------------------------------------
  // calculateYAxisTicks
  // ---------------------------------------------------------------------------

  function Pow10(k: nat): (p: nat)
    ensures p >= 1
  {
    if k == 0 then 1 else 10 * Pow10(k - 1)
  }

  /** Math.floor(Math.log10(n)) for a positive integer n. */
  function Log10Floor(n: nat): (k: nat)
    requires n >= 1
    ensures Pow10(k) <= n < Pow10(k + 1)
  {
    if n < 10 then 0 else 1 + Log10Floor(n / 10)
  }

  /** The largest power of ten not above n. */
  function Magnitude(n: nat): (m: nat)
    requires n >= 1
    ensures 1 <= m <= n < 10 * m
  {
    Pow10(Log10Floor(n))
  }

  /** Math.ceil(n / d) for positive integers: the fewest steps of d that reach n. */
  function CeilDiv(n: nat, d: nat): (q: nat)
    requires n >= 1 && d >= 1
    ensures (q - 1) * d < n <= q * d
  {
    var q := (n + d - 1) / d;
    assert n + d - 1 == q * d + (n + d - 1) % d;
    q
  }

  /** n rounded up to a whole multiple of its magnitude: Math.ceil(n / magnitude) * magnitude. */
  function NiceMax(n: nat): (m: nat)
    requires n >= 1
    ensures n <= m < n + Magnitude(n)
    ensures m <= 10 * Magnitude(n)
  {
    var magnitude := Magnitude(n);
    var steps := CeilDiv(n, magnitude);
    assert steps * magnitude == (steps - 1) * magnitude + magnitude;
    IntScaleCompare(steps - 1, 10, magnitude);
    IntScaleCompare(steps, 10, magnitude);
    steps * magnitude
  }

  /** Comparing two integers scaled by the same positive factor compares the integers. */
  lemma IntScaleCompare(a: int, b: int, c: int)
    requires c > 0
    ensures a * c <= b * c <==> a <= b
    ensures a * c < b * c <==> a < b
  {
    if a <= b {
      assert (b - a) * c >= 0;
    } else {
      assert (a - b) * c > 0;
    }
  }

  /** Math.round: the nearest integer, halves rounded up. */
  function Round(x: real): (r: int)
    ensures x - 0.5 < r as real <= x + 0.5
  {
    (x + 0.5).Floor
  }

  /** Tick i of tickCount evenly spaced ticks from 0 to top, rounded to an integer. */
  function Tick(top: nat, tickCount: int, i: nat): (t: int)
    requires tickCount != 1
    ensures i == 0 ==> t == 0
  {
    Round(i as real * (top as real / (tickCount - 1) as real))
  }

  /** The ticks start at 0, end at top and never go down. */
  lemma TicksSpanZeroToTop(top: nat, tickCount: int)
    requires tickCount >= 2
    ensures Tick(top, tickCount, 0) == 0
    ensures Tick(top, tickCount, tickCount - 1) == top
    ensures forall i: nat, j: nat :: i <= j ==> Tick(top, tickCount, i) <= Tick(top, tickCount, j)
  {
    var step := top as real / (tickCount - 1) as real;
    assert (tickCount - 1) as real * step == top as real;
    assert step >= 0.0;
    forall i: nat, j: nat | i <= j
      ensures Tick(top, tickCount, i) <= Tick(top, tickCount, j)
    {
      assert i as real * step <= j as real * step by {
        assert (j - i) as real * step >= 0.0;
      }
    }
  }

  /**
   * tickCount evenly spaced ticks from 0 up to the rounded-up maximum; [0]
   * when nothing was counted.
   */
  method CalculateYAxisTicks(maxCount: nat, tickCount: int) returns (ticks: seq<int>)
    requires maxCount == 0 || tickCount != 1
    ensures maxCount == 0 ==> ticks == [0]
    ensures maxCount > 0 ==> |ticks| == if tickCount > 0 then tickCount else 0
    ensures maxCount > 0 ==> forall i :: 0 <= i < |ticks| ==> ticks[i] == Tick(NiceMax(maxCount), tickCount, i)
    ensures maxCount > 0 && tickCount >= 2 ==>
      ticks[0] == 0 && ticks[|ticks| - 1] == NiceMax(maxCount) && ticks[|ticks| - 1] >= maxCount
    ensures maxCount > 0 && tickCount >= 2 ==> forall i, j :: 0 <= i <= j < |ticks| ==> ticks[i] <= ticks[j]
  {
    if maxCount == 0 {
      return [0];
    }
    var niceMax := NiceMax(maxCount);
    var step := niceMax as real / (tickCount - 1) as real;
    ticks := [];
    var i := 0;
    while i < tickCount
      invariant 0 <= i <= (if tickCount > 0 then tickCount else 0)
      invariant |ticks| == i
      invariant forall j :: 0 <= j < i ==> ticks[j] == Tick(niceMax, tickCount, j)
    {
      ticks := ticks + [Round(i as real * step)];
      i := i + 1;
    }
    if tickCount >= 2 {
      TicksSpanZeroToTop(niceMax, tickCount);
      assert ticks[0] == Tick(niceMax, tickCount, 0);
      assert ticks[|ticks| - 1] == Tick(niceMax, tickCount, tickCount - 1);
    }
  }

  /** The rounded-up maxima of the chart's examples: 97 becomes 100 and 8500 becomes 9000. */
  lemma NiceMaxExamples()
    ensures NiceMax(97) == 100 && NiceMax(100) == 100 && NiceMax(8500) == 9000
  {
    assert Log10Floor(97) == 1 by { assert Log10Floor(9) == 0; }
    assert Log10Floor(100) == 2 by { assert Log10Floor(10) == 1 by { assert Log10Floor(1) == 0; } }
    assert Log10Floor(8500) == 3 by {
      assert Log10Floor(850) == 2 by { assert Log10Floor(85) == 1 by { assert Log10Floor(8) == 0; } }
    }
  }

  /** Five ticks for a maximum count of 97 are 0, 25, 50, 75 and 100. */
  lemma TicksFor97()
    ensures forall i :: 0 <= i < 5 ==> Tick(NiceMax(97), 5, i) == 25 * i
  {
    NiceMaxExamples();
    forall i | 0 <= i < 5
      ensures Tick(100, 5, i) == 25 * i
    {
      assert i as real * (100 as real / 4 as real) + 0.5 == (25 * i) as real + 0.5;
    }
  }
}
