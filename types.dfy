/** The analytics data contracts: metric series, per-window anomaly results and
    aggregated scores, with the checks their constructors run. */
module Types {
  import opened Basics

  /** A metric time series. The record itself is unconstrained, because the
      ingestion validator inspects records that break the contract; `Valid()` is
      what construction through `NewMetricSeries` guarantees. Timestamps are
      whole seconds. */
  datatype MetricSeries = MetricSeries(
    tenantId: string,
    clusterId: string,
    nodeId: string,
    metricName: string,
    timestamps: seq<int>,
    values: seq<real>,
    metadata: map<string, string>)
  {
    predicate Valid()
    {
      |timestamps| == |values| && |timestamps| >= 1
    }

    /** Number of observations. */
    function Length(): (n: nat)
      requires Valid()
      ensures n >= 1 && n == |values|
    {
      |timestamps|
    }

    /** (first timestamp, last timestamp); for sorted timestamps every
        observation lies inside it. */
    function TimeRange(): (r: (int, int))
      requires Valid()
      ensures r.0 == timestamps[0] && r.1 == timestamps[Length() - 1]
      ensures NonDecreasing(timestamps) ==>
        r.0 <= r.1 && forall i :: 0 <= i < |timestamps| ==> r.0 <= timestamps[i] <= r.1
    {
      (timestamps[0], timestamps[|timestamps| - 1])
    }
  }

  predicate NonDecreasing(ts: seq<int>)
  {
    forall i, j :: 0 <= i <= j < |ts| ==> ts[i] <= ts[j]
  }

  datatype SeriesError = LengthMismatch(timestampCount: nat, valueCount: nat) | NoDataPoints

  /** `MetricSeries(...)` with its `__post_init__` checks: the length check comes first. */
  function NewMetricSeries(tenantId: string, clusterId: string, nodeId: string, metricName: string,
                           timestamps: seq<int>, values: seq<real>, metadata: map<string, string>)
    : (r: Result<MetricSeries, SeriesError>)
    ensures r.Ok? <==> |timestamps| == |values| && |timestamps| >= 1
    ensures |timestamps| != |values| ==> r == Err(LengthMismatch(|timestamps|, |values|))
    ensures |timestamps| == |values| == 0 ==> r == Err(NoDataPoints)
    ensures r.Ok? ==>
      && r.value.Valid() && r.value.timestamps == timestamps && r.value.values == values
      && r.value.tenantId == tenantId && r.value.clusterId == clusterId
      && r.value.nodeId == nodeId && r.value.metricName == metricName && r.value.metadata == metadata
  {
    if |timestamps| != |values| then Err(LengthMismatch(|timestamps|, |values|))
    else if |timestamps| == 0 then Err(NoDataPoints)
    else Ok(MetricSeries(tenantId, clusterId, nodeId, metricName, timestamps, values, metadata))
  }

  /** The four anomaly labels; `Name()` is the string the source stores. */
  datatype Label = Spike | Trend | Seasonal | Normal
  {
    function Name(): string
    {
      match this
      case Spike => "spike"
      case Trend => "trend"
      case Seasonal => "seasonal"
      case Normal => "normal"
    }
  }

  /** Membership test against {"spike", "trend", "seasonal", "normal"}. */
  function ParseLabel(s: string): (r: Option<Label>)
    ensures r.Some? ==> r.value.Name() == s
  {
    if s == "spike" then Some(Spike)
    else if s == "trend" then Some(Trend)
    else if s == "seasonal" then Some(Seasonal)
    else if s == "normal" then Some(Normal)
    else None
  }

  /** A label string is accepted exactly when it is the name of one of the four labels. */
  lemma {:induction false} ParseLabelExact(s: string)
    ensures ParseLabel(s).Some? <==> exists l: Label :: l.Name() == s
    ensures forall l: Label :: ParseLabel(l.Name()) == Some(l)
  {
    if exists l: Label :: l.Name() == s {
      var l: Label :| l.Name() == s;
      match l
      case Spike =>
      case Trend =>
      case Seasonal =>
      case Normal =>
    }
    forall l: Label ensures ParseLabel(l.Name()) == Some(l) {
      match l
      case Spike =>
      case Trend =>
      case Seasonal =>
      case Normal =>
    }
  }

  /** One anomaly verdict for one metric window. Window bounds and the detection
      time are whole seconds; the engine's free-form metadata is a string map. */
  datatype AnomalyResult = AnomalyResult(
    tenantId: string,
    clusterId: string,
    nodeId: string,
    metricName: string,
    windowStart: int,
    windowEnd: int,
    score: real,
    anomalyLabel: Label,
    magnitude: Option<real>,
    explanation: Option<string>,
    detectedAt: int,
    engineMetadata: map<string, string>)
  {
    /** What `__post_init__` guarantees (the label is guaranteed by its type). */
    predicate Valid()
    {
      0.0 <= score <= 1.0 && (magnitude.Some? ==> 0.0 <= magnitude.value <= 1.0)
    }

    /** `is_anomaly`: marked as anything but "normal". */
    predicate IsAnomaly()
      ensures IsAnomaly() <==> anomalyLabel in {Spike, Trend, Seasonal}
    {
      anomalyLabel != Normal
    }
  }

  /** `is_anomaly` compares the stored label string with "normal". */
  lemma IsAnomalyByName(r: AnomalyResult)
    ensures r.IsAnomaly() <==> r.anomalyLabel.Name() != "normal"
  {
  }

  datatype ResultError =
    | ScoreOutOfRange(score: real)
    | InvalidLabel(name: string)
    | MagnitudeOutOfRange(magnitude: real)

  /** `AnomalyResult(...)` with its checks, in source order: score, label, magnitude. */
  function NewAnomalyResult(tenantId: string, clusterId: string, nodeId: string, metricName: string,
                            windowStart: int, windowEnd: int, score: real, labelName: string,
                            magnitude: Option<real>, explanation: Option<string>, detectedAt: int,
                            engineMetadata: map<string, string>)
    : (r: Result<AnomalyResult, ResultError>)
    ensures !(0.0 <= score <= 1.0) ==> r == Err(ScoreOutOfRange(score))
    ensures 0.0 <= score <= 1.0 && ParseLabel(labelName).None? ==> r == Err(InvalidLabel(labelName))
    ensures r.Ok? <==> 0.0 <= score <= 1.0 && ParseLabel(labelName).Some?
                       && (magnitude.Some? ==> 0.0 <= magnitude.value <= 1.0)
    ensures r.Ok? ==>
      && r.value.Valid() && r.value.anomalyLabel.Name() == labelName && r.value.score == score
      && r.value.magnitude == magnitude && r.value.tenantId == tenantId
      && r.value.clusterId == clusterId && r.value.nodeId == nodeId && r.value.metricName == metricName
  {
    if !(0.0 <= score <= 1.0) then Err(ScoreOutOfRange(score))
    else
      match ParseLabel(labelName)
      case None => Err(InvalidLabel(labelName))
      case Some(l) =>
        if magnitude.Some? && !(0.0 <= magnitude.value <= 1.0) then Err(MagnitudeOutOfRange(magnitude.value))
        else Ok(AnomalyResult(tenantId, clusterId, nodeId, metricName, windowStart, windowEnd,
                              score, l, magnitude, explanation, detectedAt, engineMetadata))
  }

  /** A score rolled up to node, cluster or tenant level. `clusterId` is absent at
      tenant level, `nodeId` at cluster and tenant level. */
  datatype AggregatedAnomalyScore = AggregatedAnomalyScore(
    tenantId: string,
    clusterId: Option<string>,
    nodeId: Option<string>,
    strategy: string,
    score: real,
    numMetricsAnalyzed: int,
    numAnomaliesDetected: int,
    timestamp: int)
  {
    predicate Valid()
    {
      0.0 <= score <= 1.0
    }
  }

  datatype ScoreError = AggregateScoreOutOfRange(score: real)

  /** `AggregatedAnomalyScore(...)`: rejects a score outside [0, 1]. */
  function NewAggregatedScore(tenantId: string, clusterId: Option<string>, nodeId: Option<string>,
                              strategy: string, score: real, numMetricsAnalyzed: int,
                              numAnomaliesDetected: int, timestamp: int)
    : (r: Result<AggregatedAnomalyScore, ScoreError>)
    ensures r.Ok? <==> 0.0 <= score <= 1.0
    ensures r.Err? ==> r.error == AggregateScoreOutOfRange(score)
    ensures r.Ok? ==>
      && r.value.Valid() && r.value.score == score && r.value.tenantId == tenantId
      && r.value.clusterId == clusterId && r.value.nodeId == nodeId && r.value.strategy == strategy
      && r.value.numMetricsAnalyzed == numMetricsAnalyzed
      && r.value.numAnomaliesDetected == numAnomaliesDetected && r.value.timestamp == timestamp
  {
    if 0.0 <= score <= 1.0 then
      Ok(AggregatedAnomalyScore(tenantId, clusterId, nodeId, strategy, score,
                                numMetricsAnalyzed, numAnomaliesDetected, timestamp))
    else Err(AggregateScoreOutOfRange(score))
  }
}
