/**
 * The overlay's performance counters (perf, stopPerf and the frame-rate part
 * of exitUpdate in index.js): named timers that keep their last ten samples
 * and show their mean, a list of timer names in first-seen order, and a
 * frame rate smoothed once per half-second window.
 */
module Timers {

  /** A named timer: `value` holds the start time between perf and stopPerf and the mean after. */
  datatype PerfRecord = PerfRecord(name: string, value: real, records: seq<real>)

  /** How many samples a timer keeps. */
  const MaxRecords: nat := 10

  /** The last `n` elements of `s` (all of them when there are fewer). */
  function LastN(s: seq<real>, n: nat): (r: seq<real>)
    ensures |r| == (if |s| <= n then |s| else n)
  {
    if |s| <= n then s else s[|s| - n..]
  }

  /** stopPerf's window step: after a push, shift once if the samples exceed the maximum. */
  function Window(rs: seq<real>): (w: seq<real>)
    ensures |rs| <= MaxRecords + 1 ==> |w| <= MaxRecords
    ensures |w| <= |rs| && w == rs[|rs| - |w|..]
  {
    if |rs| > MaxRecords then rs[1..] else rs
  }

  /** Pushing a sample and shifting keeps exactly the last ten samples of the whole history. */
  lemma WindowKeepsLastSamples(history: seq<real>, sample: real)
    ensures Window(LastN(history, MaxRecords) + [sample]) == LastN(history + [sample], MaxRecords)
  {
    var h := history + [sample];
    if |history| >= MaxRecords {
      assert LastN(history, MaxRecords) + [sample] == history[|history| - MaxRecords..] + [sample];
      assert (history[|history| - MaxRecords..] + [sample])[1..] == h[|h| - MaxRecords..];
    }
  }

  /** The sum of the first `k` samples. */
  function SumTo(s: seq<real>, k: nat): real
    requires k <= |s|
  {
    if k == 0 then 0.0 else SumTo(s, k - 1) + s[k - 1]
  }

  function Sum(s: seq<real>): real {
    SumTo(s, |s|)
  }

  /** `x` added up `n` times. */
  function Repeat(x: real, n: nat): real {
    if n == 0 then 0.0 else Repeat(x, n - 1) + x
  }

  lemma {:induction false} RepeatIsProduct(x: real, n: nat)
    ensures Repeat(x, n) == (n as real) * x
  {
    if n > 0 {
      RepeatIsProduct(x, n - 1);
    }
  }

  /** The arithmetic mean of the samples, by the summing loop of stopPerf: the mean taken once per sample adds up to their sum. */
  method Mean(rs: seq<real>) returns (avg: real)
    requires |rs| > 0
    ensures Repeat(avg, |rs|) == Sum(rs)
  {
    var sum := 0.0;
    var i := 0;
    while i < |rs|
      invariant 0 <= i <= |rs|
      invariant sum == SumTo(rs, i)
    {
      sum := sum + rs[i];
      i := i + 1;
    }
    avg := sum / (|rs| as real);
    RepeatIsProduct(avg, |rs|);
  }

  /**
   * The sample stopPerf takes: now minus the record's value. That value is
   * the start time when perf ran since the last stop, and the last mean
   * otherwise.
   */
  function Elapsed(record: PerfRecord, now: real): real {
    now - record.value
  }

  /**
   * What stopPerf does to a started timer's record with a new `sample` (now
   * minus the record's value: its start time after a perf, its last mean
   * after another stop): the sample is pushed, the record keeps only the
   * last ten (one shift after the push), and its value becomes their mean.
   */
  method StopRecord(record: PerfRecord, sample: real) returns (r: PerfRecord)
    ensures r.name == record.name && r.records == Window(record.records + [sample])
    ensures r.records != [] && Repeat(r.value, |r.records|) == Sum(r.records)
  {
    var records := record.records + [sample];
    if |records| > MaxRecords {
      records := records[1..];
    }
    var avg := Mean(records);
    r := PerfRecord(record.name, avg, records);
  }

  /** The sum lies between count times the smallest and count times the largest sample. */
  lemma {:induction false} SumToBetween(s: seq<real>, k: nat, lo: real, hi: real)
    requires k <= |s|
    requires forall i :: 0 <= i < |s| ==> lo <= s[i] <= hi
    ensures (k as real) * lo <= SumTo(s, k) <= (k as real) * hi
  {
    if k > 0 {
      SumToBetween(s, k - 1, lo, hi);
      assert (k as real) * lo == ((k - 1) as real) * lo + lo;
      assert (k as real) * hi == ((k - 1) as real) * hi + hi;
    }
  }

  /** Dividing both sides of an inequality by a positive factor. */
  lemma ScaleBack(x: real, y: real, n: real)
    requires n > 0.0 && n * x <= n * y
    ensures x <= y
  {
  }

  /** So the mean of samples within [lo, hi] is within [lo, hi]. */
  lemma MeanBetween(s: seq<real>, lo: real, hi: real, avg: real)
    requires |s| > 0 && Repeat(avg, |s|) == Sum(s)
    requires forall i :: 0 <= i < |s| ==> lo <= s[i] <= hi
    ensures lo <= avg <= hi
  {
    var n := |s| as real;
    SumToBetween(s, |s|, lo, hi);
    RepeatIsProduct(avg, |s|);
    ScaleBack(lo, avg, n);
    ScaleBack(avg, hi, n);
  }

  /** The names in order of first occurrence. */
  function FirstSeen(s: seq<string>): seq<string>
    decreases |s|
  {
    if s == [] then []
    else
      var d := FirstSeen(s[..|s| - 1]);
      if s[|s| - 1] in d then d else d + [s[|s| - 1]]
  }

  ghost predicate Distinct(s: seq<string>) {
    forall i, j :: 0 <= i < j < |s| ==> s[i] != s[j]
  }

  /** The first-seen list holds every name once and nothing else. */
  lemma {:induction false} FirstSeenIsDistinct(s: seq<string>)
    ensures Distinct(FirstSeen(s))
    ensures forall x :: x in FirstSeen(s) <==> x in s
    decreases |s|
  {
    if s != [] {
      var init := s[..|s| - 1];
      FirstSeenIsDistinct(init);
      assert s == init + [s[|s| - 1]];
    }
  }

  /** The fixed length of a frame-rate window and the weight of a new reading. */
  const FpsUpdateInterval: real := 0.5
  const FpsSmoothing: real := 0.8

  /** The displayed frame rate after one window: an exponential moving average. */
  function Smooth(displayed: real, reading: real): (r: real)
    ensures displayed <= reading ==> displayed <= r <= reading
    ensures reading <= displayed ==> reading <= r <= displayed
    ensures r - reading == 0.2 * (displayed - reading)
  {
    displayed * (1.0 - FpsSmoothing) + FpsSmoothing * reading
  }

  function SmoothTimes(displayed: real, reading: real, n: nat): real {
    if n == 0 then displayed else Smooth(SmoothTimes(displayed, reading, n - 1), reading)
  }

  function Pow(b: real, n: nat): real {
    if n == 0 then 1.0 else b * Pow(b, n - 1)
  }

  /** Under a constant reading, the distance to it shrinks by a factor of 0.2 each window. */
  lemma {:induction false} SmoothConverges(displayed: real, reading: real, n: nat)
    ensures SmoothTimes(displayed, reading, n) - reading == Pow(0.2, n) * (displayed - reading)
  {
    if n > 0 {
      SmoothConverges(displayed, reading, n - 1);
      var prev := SmoothTimes(displayed, reading, n - 1);
      assert Smooth(prev, reading) - reading == 0.2 * (prev - reading);
      assert 0.2 * (Pow(0.2, n - 1) * (displayed - reading)) == (0.2 * Pow(0.2, n - 1)) * (displayed - reading);
    }
  }

  /** Starting from 0 under a steady 60 frames per second, five windows show more than 59.9. */
  lemma SixtyAfterFiveWindows()
    ensures SmoothTimes(0.0, 60.0, 5) > 59.9
  {
    SmoothConverges(0.0, 60.0, 5);
    assert Pow(0.2, 5) == 0.00032;
  }
}
