/** The simulator's deterministic parts: the three anomaly injectors of
    `AnomalyInjector` and the timestamp and clipping post-processing of
    `MetricSimulator.generate`. The random baseline, spikes, trend,
    seasonality and noise are one input sequence. */
module Generator {
  import opened Basics
  import opened Types
  import opened Validator

  /** The anomaly metadata dict each injector returns beside the new series. */
  datatype Injection =
    | SpikeInjection(index: nat, magnitude: real, duration: int, originalValue: real, anomalousValue: real)
    | TrendInjection(startIndex: nat, slope: real, direction: string)
    | LevelShiftInjection(shiftIndex: nat, shiftAmount: real)
  {
    /** The `"type"` entry of the dict, also stored as `"anomaly_injected"`. */
    function Kind(): string
    {
      match this
      case SpikeInjection(_, _, _, _, _) => "spike"
      case TrendInjection(_, _, _) => "trend"
      case LevelShiftInjection(_, _) => "level_shift"
    }
  }

  /** `values[spike_index]` past the end of the list. */
  datatype InjectError = IndexOutOfRange(index: nat, length: nat)

  /** The new series keeps the identity, the timestamps and the number of values. */
  predicate KeepsShape(before: MetricSeries, after: MetricSeries)
  {
    && after.tenantId == before.tenantId && after.clusterId == before.clusterId
    && after.nodeId == before.nodeId && after.metricName == before.metricName
    && after.timestamps == before.timestamps && |after.values| == |before.values|
  }

  /** The series the injectors build: the new values, and the old metadata
      with `"anomaly_injected"` set. */
  function Rebuilt(series: MetricSeries, values: seq<real>, kind: string): MetricSeries
  {
    series.(values := values, metadata := series.metadata["anomaly_injected" := kind])
  }

  // ---------------------------------------------------------------------------
  // What each injector does to the values
  // ---------------------------------------------------------------------------

  /** `r` is `vs` with the positions in [k, k + d) multiplied by `m`. */
  predicate IsSpiked(vs: seq<real>, r: seq<real>, k: nat, m: real, d: int)
  {
    |r| == |vs| && forall i :: 0 <= i < |vs| ==> r[i] == if k <= i < k + d then vs[i] * m else vs[i]
  }

  /** `r` is `vs` with slope * (i - s) added at every position i >= s. */
  predicate IsTrended(vs: seq<real>, r: seq<real>, s: nat, slope: real)
  {
    |r| == |vs| && forall i :: 0 <= i < |vs| ==> r[i] == if i >= s then vs[i] + slope * (i - s) as real else vs[i]
  }

  /** `r` is `vs` with `amount` added at every position from `s` on. */
  predicate IsShifted(vs: seq<real>, r: seq<real>, s: nat, amount: real)
  {
    |r| == |vs| && forall i :: 0 <= i < |vs| ==> r[i] == if i >= s then vs[i] + amount else vs[i]
  }

  /** The `"direction"` entry of a trend. */
  function Direction(slope: real): (d: string)
    ensures d == "upward" <==> slope > 0.0
    ensures d == "upward" || d == "downward"
  {
    if slope > 0.0 then "upward" else "downward"
  }

  // ---------------------------------------------------------------------------
  // The injectors
  // ---------------------------------------------------------------------------

  /** `AnomalyInjector.inject_spike`: copies the values, multiplies the points
      from `spikeIndex` for `duration` points (cut at the end of the series)
      by `magnitude`, and reports the value at `spikeIndex` before and after. */
  method InjectSpike(series: MetricSeries, spikeIndex: nat, magnitude: real, duration: int)
    returns (r: Result<(MetricSeries, Injection), InjectError>)
    requires series.Valid()
    ensures r.Err? <==> spikeIndex >= |series.values|
    ensures r.Err? ==> r.error == IndexOutOfRange(spikeIndex, |series.values|)
    ensures r.Ok? ==>
      && KeepsShape(series, r.value.0) && r.value.0.Valid()
      && r.value.0.metadata == series.metadata["anomaly_injected" := r.value.1.Kind()]
      && IsSpiked(series.values, r.value.0.values, spikeIndex, magnitude, duration)
      && r.value.1 == SpikeInjection(spikeIndex, magnitude, duration,
                                     series.values[spikeIndex], r.value.0.values[spikeIndex])
    ensures r.Ok? && duration >= 1 ==> r.value.1.anomalousValue == r.value.1.originalValue * magnitude
    ensures r.Ok? && duration <= 0 ==> r.value.1.anomalousValue == r.value.1.originalValue
  {
    var n := |series.values|;
    if spikeIndex >= n {
      return Err(IndexOutOfRange(spikeIndex, n));
    }
    var a := new real[n](j requires 0 <= j < n => series.values[j]);
    var original := a[spikeIndex];
    var stop := Min(spikeIndex + duration, n);
    var i := spikeIndex;
    while i < stop
      invariant spikeIndex <= i <= Max(spikeIndex, stop)
      invariant forall j :: 0 <= j < n ==>
        a[j] == if spikeIndex <= j < i then series.values[j] * magnitude else series.values[j]
    {
      a[i] := a[i] * magnitude;
      i := i + 1;
    }
    var out := Rebuilt(series, a[..], "spike");
    r := Ok((out, SpikeInjection(spikeIndex, magnitude, duration, original, a[spikeIndex])));
  }

  /** `AnomalyInjector.inject_trend`: copies the values and adds
      `slope * (i - startIndex)` from `startIndex` to the end. */
  method InjectTrend(series: MetricSeries, startIndex: nat, slope: real) returns (out: MetricSeries, info: Injection)
    requires series.Valid()
    ensures KeepsShape(series, out) && out.Valid()
    ensures out.metadata == series.metadata["anomaly_injected" := info.Kind()]
    ensures IsTrended(series.values, out.values, startIndex, slope)
    ensures info == TrendInjection(startIndex, slope, Direction(slope))
  {
    var n := |series.values|;
    var a := new real[n](j requires 0 <= j < n => series.values[j]);
    var i := startIndex;
    while i < n
      invariant startIndex <= i <= Max(startIndex, n)
      invariant forall j :: 0 <= j < n ==>
        a[j] == if startIndex <= j < i then series.values[j] + slope * (j - startIndex) as real else series.values[j]
    {
      a[i] := a[i] + slope * (i - startIndex) as real;
      i := i + 1;
    }
    out := Rebuilt(series, a[..], "trend");
    info := TrendInjection(startIndex, slope, Direction(slope));
  }

  /** `AnomalyInjector.inject_level_shift`: copies the values and adds
      `shiftAmount` from `shiftIndex` to the end. */
  method InjectLevelShift(series: MetricSeries, shiftIndex: nat, shiftAmount: real)
    returns (out: MetricSeries, info: Injection)
    requires series.Valid()
    ensures KeepsShape(series, out) && out.Valid()
    ensures out.metadata == series.metadata["anomaly_injected" := info.Kind()]
    ensures IsShifted(series.values, out.values, shiftIndex, shiftAmount)
    ensures info == LevelShiftInjection(shiftIndex, shiftAmount)
  {
    var n := |series.values|;
    var a := new real[n](j requires 0 <= j < n => series.values[j]);
    var i := shiftIndex;
    while i < n
      invariant shiftIndex <= i <= Max(shiftIndex, n)
      invariant forall j :: 0 <= j < n ==>
        a[j] == if shiftIndex <= j < i then series.values[j] + shiftAmount else series.values[j]
    {
      a[i] := a[i] + shiftAmount;
      i := i + 1;
    }
    out := Rebuilt(series, a[..], "level_shift");
    info := LevelShiftInjection(shiftIndex, shiftAmount);
  }

  // ---------------------------------------------------------------------------
  // Properties of the injected values
  // ---------------------------------------------------------------------------

  /** A spike of magnitude at least 1 never lowers a non-negative value, and
      leaves every point outside its window as it was. */
  lemma SpikeRaises(vs: seq<real>, r: seq<real>, k: nat, m: real, d: int)
    requires IsSpiked(vs, r, k, m, d) && m >= 1.0
    requires forall i :: 0 <= i < |vs| ==> vs[i] >= 0.0
    ensures forall i :: 0 <= i < |vs| ==> r[i] >= vs[i]
    ensures forall i :: 0 <= i < |vs| && r[i] != vs[i] ==> k <= i < k + d
  {
    forall i | 0 <= i < |vs| && k <= i < k + d
      ensures r[i] >= vs[i]
    {
      assert r[i] - vs[i] == vs[i] * (m - 1.0);
      ProductSign(vs[i], m - 1.0);
    }
  }

  /** A trend leaves the value at its start and everything before it unchanged;
      from the start on, what it adds grows by `slope` per point, so it rises
      exactly when the direction is "upward". */
  lemma TrendGrowth(vs: seq<real>, r: seq<real>, s: nat, slope: real)
    requires IsTrended(vs, r, s, slope)
    ensures forall i :: 0 <= i < |vs| && i <= s ==> r[i] == vs[i]
    ensures forall i, j :: s <= i <= j < |vs| ==> (r[j] - vs[j]) - (r[i] - vs[i]) == slope * (j - i) as real
    ensures Direction(slope) == "upward" ==> forall i, j :: s <= i < j < |vs| ==> r[j] - vs[j] > r[i] - vs[i]
    ensures Direction(slope) == "downward" ==> forall i, j :: s <= i < j < |vs| ==> r[j] - vs[j] <= r[i] - vs[i]
  {
    forall i, j | s <= i <= j < |vs|
      ensures (r[j] - vs[j]) - (r[i] - vs[i]) == slope * (j - i) as real
    {
      assert r[j] - vs[j] == slope * (j - s) as real;
      assert r[i] - vs[i] == slope * (i - s) as real;
      assert (j - s) as real == (j - i) as real + (i - s) as real;
    }
    forall i, j | s <= i < j < |vs|
      ensures slope > 0.0 ==> r[j] - vs[j] > r[i] - vs[i]
      ensures slope <= 0.0 ==> r[j] - vs[j] <= r[i] - vs[i]
    {
      ProductSign(slope, (j - i) as real);
      ProductSign(-slope, (j - i) as real);
    }
  }

  /** A level shift adds `amount` once for every shifted point to the sum of the values. */
  lemma {:induction false} ShiftSum(vs: seq<real>, r: seq<real>, s: nat, amount: real)
    requires IsShifted(vs, r, s, amount)
    ensures Sum(r) == Sum(vs) + amount * (|vs| - Min(s, |vs|)) as real
    decreases |vs|
  {
    if vs != [] {
      var n := |vs|;
      assert IsShifted(vs[..n - 1], r[..n - 1], s, amount);
      ShiftSum(vs[..n - 1], r[..n - 1], s, amount);
      if s <= n - 1 {
        assert (n - Min(s, n)) as real == (n - 1 - Min(s, n - 1)) as real + 1.0;
      }
    }
  }

  /** A shift from the first point moves the mean by exactly the amount. */
  lemma ShiftMean(vs: seq<real>, r: seq<real>, amount: real)
    requires IsShifted(vs, r, 0, amount) && |vs| > 0
    ensures Mean(r) == Mean(vs) + amount
  {
    ShiftSum(vs, r, 0, amount);
    var n := |vs| as real;
    assert Mean(r) * n == Sum(r) == Mean(vs) * n + amount * n;
    assert (Mean(r) - Mean(vs) - amount) * n == 0.0;
  }

  // ---------------------------------------------------------------------------
  // Post-processing in MetricSimulator.generate
  // ---------------------------------------------------------------------------

  /** `start + i * interval` for the first `n` points. */
  function Timestamps(start: int, interval: int, n: nat): seq<int>
  {
    seq(n, i requires 0 <= i < n => start + i * interval)
  }

  /** The generated timestamps start at `start`, are `interval` apart, and for a
      positive interval strictly increase (so none repeats and they are sorted). */
  lemma TimestampSpacing(start: int, interval: int, n: nat)
    ensures |Timestamps(start, interval, n)| == n
    ensures n > 0 ==> Timestamps(start, interval, n)[0] == start
    ensures forall i :: 1 <= i < n ==> Timestamps(start, interval, n)[i] - Timestamps(start, interval, n)[i - 1] == interval
    ensures interval > 0 ==> forall i, j :: 0 <= i < j < n ==> Timestamps(start, interval, n)[i] < Timestamps(start, interval, n)[j]
  {
    var ts := Timestamps(start, interval, n);
    forall i | 1 <= i < n
      ensures ts[i] - ts[i - 1] == interval
    {
      assert i * interval == (i - 1) * interval + interval;
    }
    if interval > 0 {
      forall i, j | 0 <= i < j < n
        ensures ts[i] < ts[j]
      {
        MulAtLeastOnce(j - i, interval);
        assert j * interval == i * interval + (j - i) * interval;
      }
    }
  }

  /** `np.clip(x, lo, hi)` for one value. */
  function Clip(x: real, lo: real, hi: real): real
  {
    if x < lo then lo else if x > hi then hi else x
  }

  /** `np.clip(values, 0, 100)` for metrics whose name holds "usage" or
      "percent" (the same test the validator applies), `np.clip(values, 0, None)`
      for all others. */
  function Clipped(metricName: string, values: seq<real>): seq<real>
  {
    if PercentMetric(metricName) then seq(|values|, i requires 0 <= i < |values| => Clip(values[i], 0.0, 100.0))
    else seq(|values|, i requires 0 <= i < |values| => if values[i] < 0.0 then 0.0 else values[i])
  }

  /** The range of the clipped values: within [0, 100] for usage and percent
      metrics, non-negative otherwise; values already in range stay. */
  lemma ClipRange(metricName: string, values: seq<real>)
    ensures |Clipped(metricName, values)| == |values|
    ensures PercentMetric(metricName) ==>
      forall i :: 0 <= i < |values| ==> 0.0 <= Clipped(metricName, values)[i] <= 100.0
    ensures forall i :: 0 <= i < |values| ==> Clipped(metricName, values)[i] >= 0.0
    ensures forall i :: 0 <= i < |values| && 0.0 <= values[i] && (values[i] <= 100.0 || !PercentMetric(metricName)) ==>
      Clipped(metricName, values)[i] == values[i]
  {
  }

  /** Clipping twice is clipping once. */
  lemma ClipIdempotent(metricName: string, values: seq<real>)
    ensures Clipped(metricName, Clipped(metricName, values)) == Clipped(metricName, values)
  {
    ClipRange(metricName, values);
    var once := Clipped(metricName, values);
    ClipRange(metricName, once);
  }

  /** `MetricSimulator.generate` after the random steps: `shaped` is the
      baseline with the configured spikes, trend, seasonality and noise
      already applied. The timestamps are `startTime + i * interval`, the values
      are clipped, and the metadata names the simulator and its configuration
      text. Zero points fail the series' own length check. */
  function Generate(tenantId: string, clusterId: string, nodeId: string, metricName: string,
                    numPoints: nat, startTime: int, interval: int, shaped: seq<real>, configText: string)
    : (r: Result<MetricSeries, SeriesError>)
    requires |shaped| == numPoints
    ensures r.Ok? <==> numPoints >= 1
    ensures numPoints == 0 ==> r == Err(NoDataPoints)
    ensures r.Ok? ==>
      && r.value.Valid() && |r.value.values| == numPoints
      && r.value.tenantId == tenantId && r.value.clusterId == clusterId
      && r.value.nodeId == nodeId && r.value.metricName == metricName
      && r.value.timestamps[0] == startTime
      && (forall i :: 1 <= i < numPoints ==> r.value.timestamps[i] - r.value.timestamps[i - 1] == interval)
      && (forall i :: 0 <= i < numPoints ==> r.value.values[i] >= 0.0)
      && (PercentMetric(metricName) ==> forall i :: 0 <= i < numPoints ==> r.value.values[i] <= 100.0)
      && r.value.metadata == map["source" := "simulator", "config" := configText]
  {
    TimestampSpacing(startTime, interval, numPoints);
    ClipRange(metricName, shaped);
    NewMetricSeries(tenantId, clusterId, nodeId, metricName,
                    Timestamps(startTime, interval, numPoints), Clipped(metricName, shaped),
                    map["source" := "simulator", "config" := configText])
  }

  /** No gap among the first `n` timestamps exceeds `maxGap`, so no gap warning. */
  lemma {:induction false} NoGapWarnings(ts: seq<int>, maxGap: int, n: nat)
    requires n <= |ts|
    requires forall i :: 1 <= i < n ==> ts[i] - ts[i - 1] <= maxGap
    ensures GapWarnings(ts, maxGap, n) == []
    decreases n
  {
    if n > 1 {
      NoGapWarnings(ts, maxGap, n - 1);
    }
  }

  /** A generated series with its identity filled in and a sampling interval of
      at least one second and at most the validator's gap limit passes the
      ingestion validator without errors and without warnings. */
  lemma GeneratedIsClean(tenantId: string, clusterId: string, nodeId: string, metricName: string,
                         numPoints: nat, startTime: int, interval: int, shaped: seq<real>, configText: string,
                         config: ValidatorConfig)
    requires |shaped| == numPoints && numPoints >= 1
    requires tenantId != "" && clusterId != "" && nodeId != "" && metricName != ""
    requires 1 <= interval <= config.maxGapSeconds
    ensures Validation(Generate(tenantId, clusterId, nodeId, metricName, numPoints, startTime, interval, shaped, configText).value, config)
      == ValidationResult(true, [], [])
  {
    var s := Generate(tenantId, clusterId, nodeId, metricName, numPoints, startTime, interval, shaped, configText).value;
    var ts := s.timestamps;
    TimestampSpacing(startTime, interval, numPoints);
    assert ts == Timestamps(startTime, interval, numPoints);
    assert HasData(s);
    assert EarlyErrors(s, config) == [];
    assert SortErrors(ts, config) == [] by {
      SortedIffNoNegativeGap(ts);
    }
    assert GapErrors(ts, |ts|) == [] by {
      GapErrorsOnly(ts, |ts|);
    }
    assert DuplicateWarnings(ts) == [] by {
      DuplicatesIffRepeated(ts);
    }
    assert GapWarnings(ts, config.maxGapSeconds, |ts|) == [] by {
      NoGapWarnings(ts, config.maxGapSeconds, |ts|);
    }
    assert ValueWarnings(s) == [] by {
      assert !OutsidePercent(s.values) || !PercentMetric(metricName);
      assert !AnyNegative(s.values);
    }
  }
}
