/** Hierarchical aggregation of anomaly scores, metric → node → cluster → tenant:
    the four combination strategies, the identity checks of each level, the
    anomaly-count bookkeeping, stable ranking of nodes, and the grouping of
    results by node. */
module Aggregation {
  import opened Basics
  import opened Types
  import opened Scoring

  /** `AggregationStrategy`; `Name()` is the value stored on the aggregate. */
  datatype Strategy = MaxScore | MeanScore | WeightedScore | P95Score
  {
    function Name(): string
    {
      match this
      case MaxScore => "max"
      case MeanScore => "mean"
      case WeightedScore => "weighted"
      case P95Score => "p95"
    }
  }

  /** Why an `aggregate` call raises `ValueError`: no inputs, inputs from different
      parents, or a combined score the aggregate record refuses. */
  datatype AggError = EmptyInput | IdentityMismatch | ScoreRejected(score: real)

  /** `AggregationConfig`: a strategy per level and the metric weights. */
  datatype Config = Config(
    nodeStrategy: Strategy,
    clusterStrategy: Strategy,
    tenantStrategy: Strategy,
    metricWeights: map<string, real>)

  /** The configuration used when none is given. */
  function DefaultConfig(): Config
  {
    Config(MaxScore, MaxScore, MaxScore, map[])
  }

  /** The scores of the results, in order. */
  function Scores(rs: seq<AnomalyResult>): (s: seq<real>)
    ensures |s| == |rs| && forall i :: 0 <= i < |rs| ==> s[i] == rs[i].score
  {
    seq(|rs|, i requires 0 <= i < |rs| => rs[i].score)
  }

  /** Every score lies in [0, 1], as `AnomalyResult` construction guarantees. */
  predicate AllValid(rs: seq<AnomalyResult>)
  {
    forall i :: 0 <= i < |rs| ==> rs[i].Valid()
  }

  /** Number of results marked as anything but "normal". */
  function CountAnomalies(rs: seq<AnomalyResult>): (n: nat)
    ensures n == |Filter(rs, (r: AnomalyResult) => r.IsAnomaly())|
    ensures n <= |rs|
    decreases |rs|
  {
    if rs == [] then 0
    else CountAnomalies(rs[..|rs| - 1]) + (if rs[|rs| - 1].IsAnomaly() then 1 else 0)
  }

  // ---------------------------------------------------------------------------
  // Weighted mean
  // ---------------------------------------------------------------------------

  /** `metric_weights.get(metric, 1.0)`. */
  function WeightOf(weights: map<string, real>, metric: string): real
  {
    if metric in weights then weights[metric] else 1.0
  }

  function TotalWeight(rs: seq<AnomalyResult>, weights: map<string, real>): real
    decreases |rs|
  {
    if rs == [] then 0.0
    else TotalWeight(rs[..|rs| - 1], weights) + WeightOf(weights, rs[|rs| - 1].metricName)
  }

  function WeightedSum(rs: seq<AnomalyResult>, weights: map<string, real>): real
    decreases |rs|
  {
    if rs == [] then 0.0
    else
      var r := rs[|rs| - 1];
      WeightedSum(rs[..|rs| - 1], weights) + r.score * WeightOf(weights, r.metricName)
  }

  /** The weighted mean of the scores, or 0.0 when the weights do not add up to
      something positive. */
  function WeightedMeanOf(rs: seq<AnomalyResult>, weights: map<string, real>): (m: real)
    ensures TotalWeight(rs, weights) > 0.0 ==> m * TotalWeight(rs, weights) == WeightedSum(rs, weights)
    ensures TotalWeight(rs, weights) <= 0.0 ==> m == 0.0
  {
    var total := TotalWeight(rs, weights);
    if total > 0.0 then WeightedSum(rs, weights) / total else 0.0
  }

  /** `_weighted_mean`: one pass accumulating the weighted sum and the total weight. */
  method WeightedMean(rs: seq<AnomalyResult>, weights: map<string, real>) returns (m: real)
    ensures m == WeightedMeanOf(rs, weights)
  {
    var totalWeight := 0.0;
    var weightedSum := 0.0;
    var i := 0;
    while i < |rs|
      invariant 0 <= i <= |rs|
      invariant totalWeight == TotalWeight(rs[..i], weights)
      invariant weightedSum == WeightedSum(rs[..i], weights)
    {
      assert rs[..i + 1][..i] == rs[..i];
      var weight := WeightOf(weights, rs[i].metricName);
      weightedSum := weightedSum + rs[i].score * weight;
      totalWeight := totalWeight + weight;
      i := i + 1;
    }
    assert rs[..i] == rs;
    m := if totalWeight > 0.0 then weightedSum / totalWeight else 0.0;
  }

  /** No metric weight is negative. */
  predicate NonNegativeWeights(weights: map<string, real>)
  {
    forall k :: k in weights ==> weights[k] >= 0.0
  }

  lemma WeightNonNegative(weights: map<string, real>, metric: string)
    requires NonNegativeWeights(weights)
    ensures WeightOf(weights, metric) >= 0.0
  {
  }

  lemma {:induction false} TotalWeightNonNegative(rs: seq<AnomalyResult>, weights: map<string, real>)
    requires NonNegativeWeights(weights)
    ensures TotalWeight(rs, weights) >= 0.0
    decreases |rs|
  {
    if rs != [] {
      TotalWeightNonNegative(rs[..|rs| - 1], weights);
      WeightNonNegative(weights, rs[|rs| - 1].metricName);
    }
  }

  /** Scores at least `lo` give a weighted sum of at least `lo` times the total weight. */
  lemma {:induction false} WeightedSumAbove(rs: seq<AnomalyResult>, weights: map<string, real>, lo: real)
    requires NonNegativeWeights(weights)
    requires forall i :: 0 <= i < |rs| ==> lo <= rs[i].score
    ensures lo * TotalWeight(rs, weights) <= WeightedSum(rs, weights)
    decreases |rs|
  {
    if rs != [] {
      var init, r := rs[..|rs| - 1], rs[|rs| - 1];
      WeightedSumAbove(init, weights, lo);
      var w := WeightOf(weights, r.metricName);
      WeightNonNegative(weights, r.metricName);
      ProductSign(w, r.score - lo);
      assert w * (r.score - lo) == r.score * w - lo * w;
      assert lo * TotalWeight(rs, weights) == lo * TotalWeight(init, weights) + lo * w;
    }
  }

  /** Scores at most `hi` give a weighted sum of at most `hi` times the total weight. */
  lemma {:induction false} WeightedSumBelow(rs: seq<AnomalyResult>, weights: map<string, real>, hi: real)
    requires NonNegativeWeights(weights)
    requires forall i :: 0 <= i < |rs| ==> rs[i].score <= hi
    ensures WeightedSum(rs, weights) <= hi * TotalWeight(rs, weights)
    decreases |rs|
  {
    if rs != [] {
      var init, r := rs[..|rs| - 1], rs[|rs| - 1];
      WeightedSumBelow(init, weights, hi);
      var w := WeightOf(weights, r.metricName);
      WeightNonNegative(weights, r.metricName);
      ProductSign(w, hi - r.score);
      assert w * (hi - r.score) == hi * w - r.score * w;
      assert hi * TotalWeight(rs, weights) == hi * TotalWeight(init, weights) + hi * w;
    }
  }

  /** Bounds on a sum of `t` shares give bounds on the quotient. */
  lemma QuotientWithin(s: real, t: real, lo: real, hi: real)
    requires t > 0.0
    requires lo * t <= s <= hi * t
    ensures lo <= s / t <= hi
  {
    var m := s / t;
    assert m * t == s;
  }

  /** With no negative weight, the weighted mean stays within any bounds of the
      scores (the 0.0 of a non-positive total included). */
  lemma WeightedMeanWithin(rs: seq<AnomalyResult>, weights: map<string, real>, lo: real, hi: real)
    requires NonNegativeWeights(weights)
    requires lo <= 0.0 <= hi
    requires forall i :: 0 <= i < |rs| ==> lo <= rs[i].score <= hi
    ensures lo <= WeightedMeanOf(rs, weights) <= hi
  {
    var t := TotalWeight(rs, weights);
    if t > 0.0 {
      WeightedSumAbove(rs, weights, lo);
      WeightedSumBelow(rs, weights, hi);
      QuotientWithin(WeightedSum(rs, weights), t, lo, hi);
    }
  }

  lemma {:induction false} UnweightedTotals(rs: seq<AnomalyResult>, weights: map<string, real>)
    requires forall i :: 0 <= i < |rs| ==> rs[i].metricName !in weights
    ensures TotalWeight(rs, weights) == |rs| as real
    ensures WeightedSum(rs, weights) == Sum(Scores(rs))
    decreases |rs|
  {
    if rs != [] {
      var init := rs[..|rs| - 1];
      UnweightedTotals(init, weights);
      assert Scores(rs)[..|rs| - 1] == Scores(init);
    }
  }

  /** A result whose metric has no weight counts once, so without weights the
      weighted mean is the plain mean. */
  lemma WeightedWithoutWeights(rs: seq<AnomalyResult>, weights: map<string, real>)
    requires |rs| > 0
    requires forall i :: 0 <= i < |rs| ==> rs[i].metricName !in weights
    ensures WeightedMeanOf(rs, weights) == Mean(Scores(rs))
  {
    UnweightedTotals(rs, weights);
  }

  /** MAX, MEAN or P95 of the scores. WEIGHTED has no weights above node level
      and falls back to MAX there. */
  function Combine(scores: seq<real>, strategy: Strategy): (s: real)
    requires |scores| > 0
    ensures MinOf(scores) <= s <= MaxOf(scores)
    ensures strategy.MaxScore? || strategy.WeightedScore? ==> s == MaxOf(scores)
    ensures strategy.MeanScore? ==> s == Mean(scores)
    ensures strategy.P95Score? ==> s == Percentile(scores, 95)
  {
    if strategy.MeanScore? then
      var lo, hi := MinOf(scores), MaxOf(scores);
      MeanWithin(scores, lo, hi);
      Mean(scores)
    else if strategy.P95Score? then Percentile(scores, 95)
    else MaxOf(scores)
  }

  // ---------------------------------------------------------------------------
  // Node level
  // ---------------------------------------------------------------------------

  /** The (tenant, cluster, node) triple a result belongs to. */
  datatype NodeKey = NodeKey(tenantId: string, clusterId: string, nodeId: string)

  function KeyOf(r: AnomalyResult): NodeKey
  {
    NodeKey(r.tenantId, r.clusterId, r.nodeId)
  }

  /** All results come from the node of the first one. */
  predicate SameNode(rs: seq<AnomalyResult>)
    requires |rs| > 0
  {
    forall i :: 0 <= i < |rs| ==> KeyOf(rs[i]) == KeyOf(rs[0])
  }

  /** The combined node score of a non-empty list: the weighted mean under
      WEIGHTED, otherwise the plain combination of the scores. */
  function NodeScore(rs: seq<AnomalyResult>, strategy: Strategy, weights: map<string, real>): real
    requires |rs| > 0
  {
    if strategy == WeightedScore then WeightedMeanOf(rs, weights) else Combine(Scores(rs), strategy)
  }

  /** `NodeAnomalyAggregator.aggregate`: empty input first, then identity, then
      the score check of the aggregate record. */
  function AggregateNode(rs: seq<AnomalyResult>, strategy: Strategy, weights: map<string, real>, timestamp: int)
    : (r: Result<AggregatedAnomalyScore, AggError>)
    ensures rs == [] ==> r == Err(EmptyInput)
    ensures rs != [] && !SameNode(rs) ==> r == Err(IdentityMismatch)
    ensures rs != [] && SameNode(rs) ==>
      (r.Ok? <==> 0.0 <= NodeScore(rs, strategy, weights) <= 1.0)
    ensures r.Err? && r.error.ScoreRejected? ==> r.error.score == NodeScore(rs, strategy, weights)
    ensures r.Ok? ==>
      && r.value.Valid()
      && r.value.score == NodeScore(rs, strategy, weights)
      && r.value.tenantId == rs[0].tenantId
      && r.value.clusterId == Some(rs[0].clusterId)
      && r.value.nodeId == Some(rs[0].nodeId)
      && r.value.strategy == strategy.Name()
      && r.value.numMetricsAnalyzed == |rs|
      && r.value.numAnomaliesDetected == CountAnomalies(rs)
      && r.value.timestamp == timestamp
  {
    if rs == [] then Err(EmptyInput)
    else if !SameNode(rs) then Err(IdentityMismatch)
    else
      var first := rs[0];
      var score := NodeScore(rs, strategy, weights);
      match NewAggregatedScore(first.tenantId, Some(first.clusterId), Some(first.nodeId), strategy.Name(),
                               score, |rs|, CountAnomalies(rs), timestamp)
      case Ok(a) => Ok(a)
      case Err(_) => Err(ScoreRejected(score))
  }

  /** For valid results and no negative weight, a non-empty list from one node
      always aggregates: every strategy keeps the score in [0, 1]. */
  lemma NodeAggregates(rs: seq<AnomalyResult>, strategy: Strategy, weights: map<string, real>, timestamp: int)
    requires |rs| > 0 && SameNode(rs) && AllValid(rs)
    requires NonNegativeWeights(weights)
    ensures AggregateNode(rs, strategy, weights, timestamp).Ok?
  {
    var scores := Scores(rs);
    assert 0.0 <= MinOf(scores) && MaxOf(scores) <= 1.0 by {
      assert MinOf(scores) in scores && MaxOf(scores) in scores;
    }
    if strategy == WeightedScore {
      WeightedMeanWithin(rs, weights, 0.0, 1.0);
    }
  }

  /** The node aggregation of the two results of the repository's own check
      (scores 0.8 "spike" and 0.3 "normal" under MAX): score 0.8, two metrics,
      one anomaly. */
  lemma NodeAggregateExample(a: AnomalyResult, b: AnomalyResult, timestamp: int)
    requires KeyOf(a) == KeyOf(b)
    requires a.score == 0.8 && a.anomalyLabel == Spike
    requires b.score == 0.3 && b.anomalyLabel == Normal
    ensures AggregateNode([a, b], MaxScore, map[], timestamp).Ok?
    ensures AggregateNode([a, b], MaxScore, map[], timestamp).value.score == 0.8
    ensures AggregateNode([a, b], MaxScore, map[], timestamp).value.numMetricsAnalyzed == 2
    ensures AggregateNode([a, b], MaxScore, map[], timestamp).value.numAnomaliesDetected == 1
  {
    var rs := [a, b];
    assert Scores(rs) == [0.8, 0.3];
    assert rs[..1] == [a];
    assert CountAnomalies(rs) == 1;
  }

  // ---------------------------------------------------------------------------
  // Cluster and tenant level
  // ---------------------------------------------------------------------------

  /** The children's scores, in order. */
  function AggScores(ns: seq<AggregatedAnomalyScore>): seq<real>
  {
    seq(|ns|, i requires 0 <= i < |ns| => ns[i].score)
  }

  /** Sum of the children's anomaly counts. */
  function SumAnomalies(ns: seq<AggregatedAnomalyScore>): int
    decreases |ns|
  {
    if ns == [] then 0
    else SumAnomalies(ns[..|ns| - 1]) + ns[|ns| - 1].numAnomaliesDetected
  }

  /** All node scores share the tenant and cluster of the first. */
  predicate SameCluster(ns: seq<AggregatedAnomalyScore>)
    requires |ns| > 0
  {
    forall i :: 0 <= i < |ns| ==> ns[i].tenantId == ns[0].tenantId && ns[i].clusterId == ns[0].clusterId
  }

  /** All cluster scores share the tenant of the first. */
  predicate SameTenant(ns: seq<AggregatedAnomalyScore>)
    requires |ns| > 0
  {
    forall i :: 0 <= i < |ns| ==> ns[i].tenantId == ns[0].tenantId
  }

  predicate AllAggValid(ns: seq<AggregatedAnomalyScore>)
  {
    forall i :: 0 <= i < |ns| ==> ns[i].Valid()
  }

  lemma ValidChildrenBounded(ns: seq<AggregatedAnomalyScore>)
    requires |ns| > 0
    ensures AllAggValid(ns) ==> 0.0 <= MinOf(AggScores(ns)) && MaxOf(AggScores(ns)) <= 1.0
  {
    var scores := AggScores(ns);
    assert MinOf(scores) in scores && MaxOf(scores) in scores;
  }

  /** The record one rollup level produces from its children, or the error the
      aggregate record raises for its score. */
  function Rollup(ns: seq<AggregatedAnomalyScore>, clusterId: Option<string>, strategy: Strategy, timestamp: int)
    : (r: Result<AggregatedAnomalyScore, AggError>)
    requires |ns| > 0
    ensures AllAggValid(ns) ==> r.Ok?
    ensures r.Err? ==> r.error == ScoreRejected(Combine(AggScores(ns), strategy))
    ensures r.Ok? ==>
      && r.value.Valid()
      && r.value.score == Combine(AggScores(ns), strategy)
      && r.value.tenantId == ns[0].tenantId
      && r.value.clusterId == clusterId
      && r.value.nodeId == None
      && r.value.strategy == strategy.Name()
      && r.value.numMetricsAnalyzed == |ns|
      && r.value.numAnomaliesDetected == SumAnomalies(ns)
      && r.value.timestamp == timestamp
  {
    var scores := AggScores(ns);
    var score := Combine(scores, strategy);
    ValidChildrenBounded(ns);
    match NewAggregatedScore(ns[0].tenantId, clusterId, None, strategy.Name(), score, |ns|,
                             SumAnomalies(ns), timestamp)
    case Ok(a) => Ok(a)
    case Err(_) => Err(ScoreRejected(score))
  }

  /** `ClusterAnomalyAggregator.aggregate`: the cluster record has no node id. */
  function AggregateCluster(ns: seq<AggregatedAnomalyScore>, strategy: Strategy, timestamp: int)
    : (r: Result<AggregatedAnomalyScore, AggError>)
    ensures ns == [] ==> r == Err(EmptyInput)
    ensures ns != [] && !SameCluster(ns) ==> r == Err(IdentityMismatch)
    ensures ns != [] && SameCluster(ns) && AllAggValid(ns) ==> r.Ok?
    ensures r.Ok? ==>
      && ns != [] && SameCluster(ns)
      && r.value.tenantId == ns[0].tenantId && r.value.clusterId == ns[0].clusterId
      && r.value.nodeId == None
      && r.value.numMetricsAnalyzed == |ns| && r.value.numAnomaliesDetected == SumAnomalies(ns)
      && MinOf(AggScores(ns)) <= r.value.score <= MaxOf(AggScores(ns))
      && r.value.score == Combine(AggScores(ns), strategy)
      && r.value.strategy == strategy.Name() && r.value.timestamp == timestamp
  {
    if ns == [] then Err(EmptyInput)
    else if !SameCluster(ns) then Err(IdentityMismatch)
    else Rollup(ns, ns[0].clusterId, strategy, timestamp)
  }

  /** `TenantAnomalyAggregator.aggregate`: the tenant record has neither cluster nor node id. */
  function AggregateTenant(ns: seq<AggregatedAnomalyScore>, strategy: Strategy, timestamp: int)
    : (r: Result<AggregatedAnomalyScore, AggError>)
    ensures ns == [] ==> r == Err(EmptyInput)
    ensures ns != [] && !SameTenant(ns) ==> r == Err(IdentityMismatch)
    ensures ns != [] && SameTenant(ns) && AllAggValid(ns) ==> r.Ok?
    ensures r.Ok? ==>
      && ns != [] && SameTenant(ns)
      && r.value.tenantId == ns[0].tenantId && r.value.clusterId == None && r.value.nodeId == None
      && r.value.numMetricsAnalyzed == |ns| && r.value.numAnomaliesDetected == SumAnomalies(ns)
      && MinOf(AggScores(ns)) <= r.value.score <= MaxOf(AggScores(ns))
      && r.value.score == Combine(AggScores(ns), strategy)
      && r.value.strategy == strategy.Name() && r.value.timestamp == timestamp
  {
    if ns == [] then Err(EmptyInput)
    else if !SameTenant(ns) then Err(IdentityMismatch)
    else Rollup(ns, None, strategy, timestamp)
  }

  // ---------------------------------------------------------------------------
  // Ranking
  // ---------------------------------------------------------------------------

  predicate SortedDesc(s: seq<AggregatedAnomalyScore>)
  {
    forall i, j :: 0 <= i <= j < |s| ==> s[i].score >= s[j].score
  }

  /** The elements of `s` whose score is `v`, in order. */
  function Ties(s: seq<AggregatedAnomalyScore>, v: real): seq<AggregatedAnomalyScore>
    decreases |s|
  {
    if s == [] then []
    else (if s[0].score == v then [s[0]] else []) + Ties(s[1..], v)
  }

  lemma {:induction false} TiesAppend(a: seq<AggregatedAnomalyScore>, b: seq<AggregatedAnomalyScore>, v: real)
    ensures Ties(a + b, v) == Ties(a, v) + Ties(b, v)
    decreases |a|
  {
    if a == [] {
      assert a + b == b;
    } else {
      var head := if a[0].score == v then [a[0]] else [];
      assert (a + b)[0] == a[0] && (a + b)[1..] == a[1..] + b;
      TiesAppend(a[1..], b, v);
      AppendAssoc(head, Ties(a[1..], v), Ties(b, v));
    }
  }

  lemma TiesSingle(y: AggregatedAnomalyScore, v: real)
    ensures Ties([y], v) == if y.score == v then [y] else []
  {
    assert [y][1..] == [];
  }

  lemma {:induction false} TiesNone(s: seq<AggregatedAnomalyScore>, v: real)
    requires forall i :: 0 <= i < |s| ==> s[i].score != v
    ensures Ties(s, v) == []
    decreases |s|
  {
    if s != [] {
      TiesNone(s[1..], v);
    }
  }

  lemma SortedDescCons(y: AggregatedAnomalyScore, t: seq<AggregatedAnomalyScore>)
    requires SortedDesc(t)
    requires forall k :: 0 <= k < |t| ==> y.score >= t[k].score
    ensures SortedDesc([y] + t)
  {
    forall i, j | 0 <= i <= j < |t| + 1 ensures ([y] + t)[i].score >= ([y] + t)[j].score {
      if i > 0 {
        assert ([y] + t)[i] == t[i - 1] && ([y] + t)[j] == t[j - 1];
      } else {
        assert ([y] + t)[i] == y;
      }
    }
  }

  /** A bound on every score of `t` and on `x` bounds every score of a permutation of `t` plus `x`. */
  lemma ScoresBelow(r: seq<AggregatedAnomalyScore>, t: seq<AggregatedAnomalyScore>, x: AggregatedAnomalyScore, bound: real)
    requires multiset(r) == multiset(t) + multiset{x}
    requires forall k :: 0 <= k < |t| ==> t[k].score <= bound
    requires x.score <= bound
    ensures forall k :: 0 <= k < |r| ==> r[k].score <= bound
  {
    forall k | 0 <= k < |r|
      ensures r[k].score <= bound
    {
      assert r[k] in multiset(r);
      if r[k] != x {
        assert r[k] in multiset(t);
        var j :| 0 <= j < |t| && t[j] == r[k];
      }
    }
  }

  /** Inserts `x` into a descending sequence after every element whose score is
      at least its own. */
  function InsertDesc(x: AggregatedAnomalyScore, s: seq<AggregatedAnomalyScore>): (r: seq<AggregatedAnomalyScore>)
    requires SortedDesc(s)
    ensures SortedDesc(r)
    ensures multiset(r) == multiset(s) + multiset{x}
    ensures |r| == |s| + 1 && (r[0] == x || (s != [] && r[0] == s[0]))
    decreases |s|
  {
    if s == [] then [x]
    else if s[0].score < x.score then
      SortedDescCons(x, s);
      [x] + s
    else
      var rest := InsertDesc(x, s[1..]);
      assert s == [s[0]] + s[1..];
      assert forall k :: 0 <= k < |s[1..]| ==> s[1..][k].score <= s[0].score;
      ScoresBelow(rest, s[1..], x, s[0].score);
      SortedDescCons(s[0], rest);
      MultisetCons(s[0], rest, s[1..], x);
      [s[0]] + rest
  }

  /** Insertion puts `x` after the elements of equal score. */
  lemma {:induction false} InsertDescTies(x: AggregatedAnomalyScore, s: seq<AggregatedAnomalyScore>, v: real)
    requires SortedDesc(s)
    ensures Ties(InsertDesc(x, s), v) == Ties(s, v) + Ties([x], v)
    decreases |s|
  {
    if s == [] {
      assert InsertDesc(x, s) == [x];
    } else if s[0].score < x.score {
      assert InsertDesc(x, s) == [x] + s;
      TiesPrepend(x, s, v);
    } else {
      var rest := InsertDesc(x, s[1..]);
      assert InsertDesc(x, s) == [s[0]] + rest;
      InsertDescTies(x, s[1..], v);
      TiesShift(s[0], rest, s[1..], [x], v);
      assert s == [s[0]] + s[1..];
    }
  }

  /** `x` before elements of lower score: its ties come first or alone. */
  lemma TiesPrepend(x: AggregatedAnomalyScore, s: seq<AggregatedAnomalyScore>, v: real)
    requires SortedDesc(s) && s != [] && s[0].score < x.score
    ensures Ties([x] + s, v) == Ties(s, v) + Ties([x], v)
  {
    TiesSingle(x, v);
    TiesAppend([x], s, v);
    if v == x.score {
      TiesNone(s, v);
    }
  }

  lemma TiesShift(y: AggregatedAnomalyScore, a: seq<AggregatedAnomalyScore>, b: seq<AggregatedAnomalyScore>,
                  c: seq<AggregatedAnomalyScore>, v: real)
    requires Ties(a, v) == Ties(b, v) + Ties(c, v)
    ensures Ties([y] + a, v) == Ties([y] + b, v) + Ties(c, v)
  {
    TiesAppend([y], a, v);
    TiesAppend([y], b, v);
  }

  /** `sorted(node_scores, key=aggregate_score, reverse=True)`: descending by
      score, with the same elements. */
  function RankDesc(s: seq<AggregatedAnomalyScore>): (r: seq<AggregatedAnomalyScore>)
    ensures SortedDesc(r)
    ensures multiset(r) == multiset(s)
    ensures |r| == |s|
    decreases |s|
  {
    if s == [] then []
    else
      var init, last := s[..|s| - 1], s[|s| - 1];
      assert s == init + [last];
      var r := InsertDesc(last, RankDesc(init));
      assert |r| == |multiset(r)| == |s|;
      r
  }

  /** The sort is stable: elements of equal score keep their input order. */
  lemma {:induction false} RankDescStable(s: seq<AggregatedAnomalyScore>, v: real)
    ensures Ties(RankDesc(s), v) == Ties(s, v)
    decreases |s|
  {
    if s != [] {
      var init, last := s[..|s| - 1], s[|s| - 1];
      assert s == init + [last];
      RankDescStable(init, v);
      InsertDescTies(last, RankDesc(init), v);
      TiesAppend(init, [last], v);
    }
  }

  /** `ranked[:top_n] if top_n else ranked` (a negative `top_n` drops that many
      from the end, as Python slicing does). */
  function TakeTop<T>(ranked: seq<T>, topN: Option<int>): (r: seq<T>)
    ensures r <= ranked
    ensures topN.None? || topN == Some(0) ==> r == ranked
    ensures topN.Some? && topN.value > 0 ==> |r| == Min(topN.value, |ranked|)
    ensures topN.Some? && topN.value < 0 ==> |r| == Max(0, |ranked| + topN.value)
  {
    if topN.None? || topN.value == 0 then ranked
    else if topN.value > 0 then ranked[..Min(topN.value, |ranked|)]
    else ranked[..Max(0, |ranked| + topN.value)]
  }

  /** `ClusterAnomalyAggregator.rank_nodes`. */
  function RankNodes(ns: seq<AggregatedAnomalyScore>, topN: Option<int>): (r: seq<AggregatedAnomalyScore>)
    ensures SortedDesc(r)
    ensures multiset(r) <= multiset(ns)
    ensures topN.None? || topN == Some(0) ==> multiset(r) == multiset(ns)
    ensures topN.Some? && topN.value > 0 ==> |r| == Min(topN.value, |ns|)
    ensures topN.Some? && topN.value < 0 ==> |r| == Max(0, |ns| + topN.value)
  {
    var ranked := RankDesc(ns);
    var r := TakeTop(ranked, topN);
    SortedPrefix(ranked, r);
    r
  }

  /** A prefix of a descending sequence is descending and takes nothing extra. */
  lemma SortedPrefix(s: seq<AggregatedAnomalyScore>, r: seq<AggregatedAnomalyScore>)
    requires SortedDesc(s) && r <= s
    ensures SortedDesc(r) && multiset(r) <= multiset(s)
  {
    assert s == r + s[|r|..];
  }

  /** Without a cut, ranking reorders nothing of equal score. */
  lemma RankNodesStable(ns: seq<AggregatedAnomalyScore>, topN: Option<int>, v: real)
    requires topN.None? || topN == Some(0)
    ensures Ties(RankNodes(ns, topN), v) == Ties(ns, v)
  {
    RankDescStable(ns, v);
  }

  /** The nodes kept by a top-N cut are ranked no lower than any node it drops. */
  lemma TopNodesOutrank(ns: seq<AggregatedAnomalyScore>, topN: Option<int>)
    ensures forall i, j :: 0 <= i < |RankNodes(ns, topN)| <= j < |ns| ==>
      RankNodes(ns, topN)[i].score >= RankDesc(ns)[j].score
  {
    var ranked := RankDesc(ns);
    var r := RankNodes(ns, topN);
    assert r <= ranked;
    forall i, j | 0 <= i < |r| <= j < |ns| ensures r[i].score >= ranked[j].score {
      assert r[i] == ranked[i];
    }
  }

  // ---------------------------------------------------------------------------
  // Grouping by node
  // ---------------------------------------------------------------------------

  /** The distinct node keys of `rs` in order of first appearance. */
  function GroupKeys(rs: seq<AnomalyResult>): (ks: seq<NodeKey>)
    decreases |rs|
  {
    if rs == [] then []
    else
      var ks := GroupKeys(rs[..|rs| - 1]);
      var k := KeyOf(rs[|rs| - 1]);
      if k in ks then ks else ks + [k]
  }

  /** The results of node `k`, in input order. */
  function Group(rs: seq<AnomalyResult>, k: NodeKey): (g: seq<AnomalyResult>)
    ensures |g| <= |rs|
    decreases |rs|
  {
    if rs == [] then []
    else
      var r := rs[|rs| - 1];
      Group(rs[..|rs| - 1], k) + (if KeyOf(r) == k then [r] else [])
  }

  predicate Distinct<T(==)>(s: seq<T>)
  {
    forall i, j :: 0 <= i < j < |s| ==> s[i] != s[j]
  }

  /** The keys are distinct and are exactly the nodes that occur in the input. */
  lemma {:induction false} GroupKeysExact(rs: seq<AnomalyResult>)
    ensures Distinct(GroupKeys(rs))
    ensures forall k :: k in GroupKeys(rs) <==> exists i :: 0 <= i < |rs| && KeyOf(rs[i]) == k
    decreases |rs|
  {
    if rs != [] {
      var init := rs[..|rs| - 1];
      GroupKeysExact(init);
      forall k ensures (exists i :: 0 <= i < |rs| && KeyOf(rs[i]) == k)
                       <==> (k in GroupKeys(init) || k == KeyOf(rs[|rs| - 1])) {
        if exists i :: 0 <= i < |rs| && KeyOf(rs[i]) == k {
          var i :| 0 <= i < |rs| && KeyOf(rs[i]) == k;
          if i < |init| { assert KeyOf(init[i]) == k; }
        }
        if k in GroupKeys(init) {
          var i :| 0 <= i < |init| && KeyOf(init[i]) == k;
          assert KeyOf(rs[i]) == k;
        }
      }
    }
  }

  /** Every group holds exactly the results of its node. */
  lemma {:induction false} GroupExact(rs: seq<AnomalyResult>, k: NodeKey)
    ensures forall j :: 0 <= j < |Group(rs, k)| ==> KeyOf(Group(rs, k)[j]) == k
    ensures Group(rs, k) == [] <==> forall i :: 0 <= i < |rs| ==> KeyOf(rs[i]) != k
    decreases |rs|
  {
    if rs != [] {
      var init := rs[..|rs| - 1];
      GroupExact(init, k);
      if Group(init, k) != [] {
        var i :| 0 <= i < |init| && KeyOf(init[i]) == k;
        assert KeyOf(rs[i]) == k;
      }
      if forall i :: 0 <= i < |init| ==> KeyOf(init[i]) != k {
        forall i | 0 <= i < |rs| - 1 ensures KeyOf(rs[i]) != k {
          assert rs[i] == init[i];
        }
      }
    }
  }

  /** A group of an occurring node is a non-empty list from that one node, so
      `aggregate` never raises its empty-input or identity error for it. */
  lemma GroupWellFormed(rs: seq<AnomalyResult>, k: NodeKey)
    requires k in GroupKeys(rs)
    ensures |Group(rs, k)| > 0 && SameNode(Group(rs, k)) && KeyOf(Group(rs, k)[0]) == k
  {
    GroupKeysExact(rs);
    GroupExact(rs, k);
  }

  /** Inputs counted by a group measure: all results, or only the anomalies. */
  function Measure(rs: seq<AnomalyResult>, anomaliesOnly: bool): nat
  {
    if anomaliesOnly then CountAnomalies(rs) else |rs|
  }

  lemma MeasureAppend(rs: seq<AnomalyResult>, x: AnomalyResult, b: bool)
    ensures Measure(rs + [x], b) == Measure(rs, b) + Measure([x], b)
  {
    assert (rs + [x])[..|rs|] == rs;
    assert [x][..0] == [];
  }

  /** The measures of the groups of `keys`, summed. */
  function SumOver(rs: seq<AnomalyResult>, keys: seq<NodeKey>, b: bool): nat
    decreases |keys|
  {
    if keys == [] then 0
    else SumOver(rs, keys[..|keys| - 1], b) + Measure(Group(rs, keys[|keys| - 1]), b)
  }

  lemma {:induction false} SumOverStep(rs: seq<AnomalyResult>, x: AnomalyResult, keys: seq<NodeKey>, b: bool)
    requires Distinct(keys)
    ensures SumOver(rs + [x], keys, b) == SumOver(rs, keys, b) + (if KeyOf(x) in keys then Measure([x], b) else 0)
    decreases |keys|
  {
    if keys != [] {
      var init, k := keys[..|keys| - 1], keys[|keys| - 1];
      SumOverStep(rs, x, init, b);
      assert (rs + [x])[..|rs|] == rs;
      if KeyOf(x) == k {
        assert Group(rs + [x], k) == Group(rs, k) + [x];
        MeasureAppend(Group(rs, k), x, b);
        assert KeyOf(x) !in init;
      } else {
        assert Group(rs + [x], k) == Group(rs, k);
        assert KeyOf(x) in keys <==> KeyOf(x) in init;
      }
    }
  }

  /** A key that has not occurred yet starts a group of its own. */
  lemma NewGroup(init: seq<AnomalyResult>, x: AnomalyResult)
    requires KeyOf(x) !in GroupKeys(init)
    ensures Group(init + [x], KeyOf(x)) == [x]
  {
    GroupKeysExact(init);
    GroupExact(init, KeyOf(x));
    assert (init + [x])[..|init|] == init;
  }

  lemma KeysAppend(init: seq<AnomalyResult>, x: AnomalyResult)
    ensures GroupKeys(init + [x]) ==
      if KeyOf(x) in GroupKeys(init) then GroupKeys(init) else GroupKeys(init) + [KeyOf(x)]
  {
    assert (init + [x])[..|init|] == init;
  }

  /** The groups partition the input: their sizes add up to the input length and
      their anomaly counts to the input's anomaly count. */
  lemma {:induction false} GroupsPartition(rs: seq<AnomalyResult>, b: bool)
    ensures SumOver(rs, GroupKeys(rs), b) == Measure(rs, b)
    decreases |rs|
  {
    if rs != [] {
      var init, x := rs[..|rs| - 1], rs[|rs| - 1];
      assert rs == init + [x];
      var keys := GroupKeys(init);
      assert SumOver(init + [x], keys, b) == Measure(init + [x], b)
                                             - (if KeyOf(x) in keys then 0 else Measure([x], b)) by {
        GroupsPartition(init, b);
        GroupKeysExact(init);
        SumOverStep(init, x, keys, b);
        MeasureAppend(init, x, b);
      }
      KeysAppend(init, x);
      if KeyOf(x) !in keys {
        NewGroup(init, x);
        assert (keys + [KeyOf(x)])[..|keys|] == keys;
      }
    }
  }

  /** Every group aggregates without error. */
  predicate AllGroupsAggregate(rs: seq<AnomalyResult>, strategy: Strategy, weights: map<string, real>, timestamp: int)
  {
    forall k :: k in GroupKeys(rs) ==> AggregateNode(Group(rs, k), strategy, weights, timestamp).Ok?
  }

  /** Valid results and no negative weight: every group aggregates. */
  lemma GroupsAggregate(rs: seq<AnomalyResult>, strategy: Strategy, weights: map<string, real>, timestamp: int)
    requires AllValid(rs) && NonNegativeWeights(weights)
    ensures AllGroupsAggregate(rs, strategy, weights, timestamp)
  {
    forall k | k in GroupKeys(rs) ensures AggregateNode(Group(rs, k), strategy, weights, timestamp).Ok? {
      GroupWellFormed(rs, k);
      GroupExact(rs, k);
      var g := Group(rs, k);
      forall j | 0 <= j < |g| ensures g[j].Valid() {
        GroupMember(rs, k, j);
      }
      NodeAggregates(g, strategy, weights, timestamp);
    }
  }

  /** Each member of a group is one of the input results. */
  lemma {:induction false} GroupMember(rs: seq<AnomalyResult>, k: NodeKey, j: int)
    requires 0 <= j < |Group(rs, k)|
    ensures exists i :: 0 <= i < |rs| && rs[i] == Group(rs, k)[j]
    decreases |rs|
  {
    var init := rs[..|rs| - 1];
    if j < |Group(init, k)| {
      GroupMember(init, k, j);
      var i :| 0 <= i < |init| && init[i] == Group(init, k)[j];
      assert rs[i] == init[i];
    } else {
      assert Group(rs, k)[j] == rs[|rs| - 1];
    }
  }

  /** The node scores of the groups, in key order. */
  function NodeScores(rs: seq<AnomalyResult>, keys: seq<NodeKey>, strategy: Strategy,
                      weights: map<string, real>, timestamp: int): (ns: seq<AggregatedAnomalyScore>)
    requires forall k :: k in keys ==> AggregateNode(Group(rs, k), strategy, weights, timestamp).Ok?
    ensures |ns| == |keys|
    decreases |keys|
  {
    if keys == [] then []
    else
      NodeScores(rs, keys[..|keys| - 1], strategy, weights, timestamp)
        + [AggregateNode(Group(rs, keys[|keys| - 1]), strategy, weights, timestamp).value]
  }

  lemma {:induction false} NodeScoresCount(rs: seq<AnomalyResult>, keys: seq<NodeKey>, strategy: Strategy,
                                          weights: map<string, real>, timestamp: int)
    requires forall k :: k in keys ==> AggregateNode(Group(rs, k), strategy, weights, timestamp).Ok?
    ensures SumAnomalies(NodeScores(rs, keys, strategy, weights, timestamp)) == SumOver(rs, keys, true)
    decreases |keys|
  {
    if keys != [] {
      var init := keys[..|keys| - 1];
      NodeScoresCount(rs, init, strategy, weights, timestamp);
      var ns := NodeScores(rs, keys, strategy, weights, timestamp);
      assert ns[..|ns| - 1] == NodeScores(rs, init, strategy, weights, timestamp);
    }
  }

  /** The node scores of one cluster's valid results are valid and share that cluster. */
  lemma NodeScoresShareCluster(rs: seq<AnomalyResult>, strategy: Strategy, weights: map<string, real>, t1: int)
    requires |rs| > 0 && AllGroupsAggregate(rs, strategy, weights, t1)
    requires forall i :: 0 <= i < |rs| ==> rs[i].tenantId == rs[0].tenantId && rs[i].clusterId == rs[0].clusterId
    ensures
      var ns := NodeScores(rs, GroupKeys(rs), strategy, weights, t1);
      |ns| > 0 && AllAggValid(ns) && SameCluster(ns)
  {
    var keys := GroupKeys(rs);
    var ns := NodeScores(rs, keys, strategy, weights, t1);
    assert |ns| > 0 by {
      GroupKeysExact(rs);
      assert KeyOf(rs[0]) in keys;
    }
    forall i | 0 <= i < |ns|
      ensures ns[i].Valid() && ns[i].tenantId == rs[0].tenantId && ns[i].clusterId == Some(rs[0].clusterId)
    {
      NodeScoreAt(rs, keys, strategy, weights, t1, i);
      GroupWellFormed(rs, keys[i]);
      GroupMember(rs, keys[i], 0);
    }
  }

  /** Rolling the node scores of one cluster's results up to the cluster keeps
      the books: one metric per node, and as many anomalies as the results hold. */
  lemma ClusterRollupCounts(rs: seq<AnomalyResult>, nodeStrategy: Strategy, weights: map<string, real>,
                            clusterStrategy: Strategy, t1: int, t2: int)
    requires |rs| > 0 && AllValid(rs) && NonNegativeWeights(weights)
    requires forall i :: 0 <= i < |rs| ==> rs[i].tenantId == rs[0].tenantId && rs[i].clusterId == rs[0].clusterId
    ensures AllGroupsAggregate(rs, nodeStrategy, weights, t1)
    ensures
      var ns := NodeScores(rs, GroupKeys(rs), nodeStrategy, weights, t1);
      var c := AggregateCluster(ns, clusterStrategy, t2);
      && c.Ok?
      && c.value.numMetricsAnalyzed == |GroupKeys(rs)|
      && c.value.numAnomaliesDetected == CountAnomalies(rs)
  {
    GroupsAggregate(rs, nodeStrategy, weights, t1);
    var keys := GroupKeys(rs);
    var ns := NodeScores(rs, keys, nodeStrategy, weights, t1);
    NodeScoresShareCluster(rs, nodeStrategy, weights, t1);
    assert SumAnomalies(ns) == CountAnomalies(rs) by {
      NodeScoresCount(rs, keys, nodeStrategy, weights, t1);
      GroupsPartition(rs, true);
    }
  }

  lemma {:induction false} NodeScoreAt(rs: seq<AnomalyResult>, keys: seq<NodeKey>, strategy: Strategy,
                                       weights: map<string, real>, timestamp: int, i: int)
    requires forall k :: k in keys ==> AggregateNode(Group(rs, k), strategy, weights, timestamp).Ok?
    requires 0 <= i < |keys|
    ensures NodeScores(rs, keys, strategy, weights, timestamp)[i]
            == AggregateNode(Group(rs, keys[i]), strategy, weights, timestamp).value
    decreases |keys|
  {
    if i < |keys| - 1 {
      NodeScoreAt(rs, keys[..|keys| - 1], strategy, weights, timestamp, i);
    }
  }

  /** What the node aggregator makes of the group of `k`. */
  function NodeOutcome(rs: seq<AnomalyResult>, k: NodeKey, config: Config, timestamp: int)
    : Result<AggregatedAnomalyScore, AggError>
  {
    AggregateNode(Group(rs, k), config.nodeStrategy, config.metricWeights, timestamp)
  }

  /** The grouping state after the first `i` results: the keys in order of first
      appearance, each mapped to its results so far. */
  predicate GroupedUpTo(rs: seq<AnomalyResult>, i: int, order: seq<NodeKey>, byNode: map<NodeKey, seq<AnomalyResult>>)
    requires 0 <= i <= |rs|
  {
    && order == GroupKeys(rs[..i])
    && byNode.Keys == (set k | k in order)
    && forall k :: k in order ==> byNode[k] == Group(rs[..i], k)
  }

  /** Appending result `i` to its node's list (creating the list first for a new
      node) extends the grouping by one result. */
  function AddKey(order: seq<NodeKey>, key: NodeKey): seq<NodeKey>
  {
    if key in order then order else order + [key]
  }

  function AddToGroup(byNode: map<NodeKey, seq<AnomalyResult>>, r: AnomalyResult): map<NodeKey, seq<AnomalyResult>>
  {
    var key := KeyOf(r);
    var current := if key in byNode then byNode[key] else [];
    byNode[key := current + [r]]
  }

  lemma GroupingStep(rs: seq<AnomalyResult>, i: int, order: seq<NodeKey>, byNode: map<NodeKey, seq<AnomalyResult>>)
    requires 0 <= i < |rs| && GroupedUpTo(rs, i, order, byNode)
    ensures GroupedUpTo(rs, i + 1, AddKey(order, KeyOf(rs[i])), AddToGroup(byNode, rs[i]))
  {
    var key := KeyOf(rs[i]);
    var pre, post := rs[..i], rs[..i + 1];
    assert post == pre + [rs[i]];
    KeysAppend(pre, rs[i]);
    var order' := if key in order then order else order + [key];
    var current := if key in byNode then byNode[key] else [];
    var byNode' := byNode[key := current + [rs[i]]];
    assert byNode'.Keys == set k | k in order';
    forall k | k in order'
      ensures byNode'[k] == Group(post, k)
    {
      GroupAppend(pre, rs[i], k);
      if k == key && key !in order {
        NewGroup(pre, rs[i]);
      }
    }
  }

  lemma GroupAppend(init: seq<AnomalyResult>, x: AnomalyResult, k: NodeKey)
    ensures Group(init + [x], k) == Group(init, k) + (if KeyOf(x) == k then [x] else [])
  {
    assert (init + [x])[..|init|] == init;
  }

  /** The `j`-th key is the first whose group fails to aggregate, with error `e`. */
  predicate FirstFailure(rs: seq<AnomalyResult>, order: seq<NodeKey>, config: Config, timestamp: int,
                         j: int, e: AggError)
  {
    && 0 <= j < |order|
    && NodeOutcome(rs, order[j], config, timestamp) == Err(e)
    && forall j' :: 0 <= j' < j ==> NodeOutcome(rs, order[j'], config, timestamp).Ok?
  }

  /** The scores of the first `j` keys, each what the node aggregator returns for its group. */
  predicate ScoredUpTo(rs: seq<AnomalyResult>, order: seq<NodeKey>, j: int, config: Config, timestamp: int,
                       scores: map<NodeKey, AggregatedAnomalyScore>)
    requires 0 <= j <= |order|
  {
    && scores.Keys == (set k | k in order[..j])
    && forall k :: k in order[..j] ==> NodeOutcome(rs, k, config, timestamp) == Ok(scores[k])
  }

  /** The keys of `m` are the elements of `keys`. */
  predicate KeyedBy<V>(m: map<NodeKey, V>, keys: seq<NodeKey>)
  {
    m.Keys == set k | k in keys
  }

  /** Keying one more element of `order` extends a map keyed by a prefix of `order`. */
  lemma KeysStep<V>(order: seq<NodeKey>, j: int, m: map<NodeKey, V>, v: V)
    requires 0 <= j < |order| && KeyedBy(m, order[..j])
    ensures KeyedBy(m[order[j] := v], order[..j + 1])
  {
    assert order[..j + 1] == order[..j] + [order[j]];
  }

  lemma ScoringStep(rs: seq<AnomalyResult>, order: seq<NodeKey>, j: int, config: Config, timestamp: int,
                    scores: map<NodeKey, AggregatedAnomalyScore>, a: AggregatedAnomalyScore)
    requires 0 <= j < |order| && ScoredUpTo(rs, order, j, config, timestamp, scores)
    requires NodeOutcome(rs, order[j], config, timestamp) == Ok(a)
    ensures ScoredUpTo(rs, order, j + 1, config, timestamp, scores[order[j] := a])
  {
    assert KeyedBy(scores, order[..j]);
    KeysStep(order, j, scores, a);
    forall k | k in order[..j + 1]
      ensures NodeOutcome(rs, k, config, timestamp) == Ok(scores[order[j] := a][k])
    {
      if k != order[j] {
        InPrefixStep(order, j, k);
      }
    }
  }

  /** `AggregationPipeline.aggregate_nodes`: groups the results by node in order of
      first appearance, then aggregates each group with the node strategy. The
      key order is returned beside the map, as the Python dict keeps it. A group
      whose aggregation raises makes the whole call raise, with that group's
      error. */
  method AggregateNodes(config: Config, rs: seq<AnomalyResult>, timestamp: int)
    returns (order: seq<NodeKey>, r: Result<map<NodeKey, AggregatedAnomalyScore>, AggError>)
    ensures order == GroupKeys(rs)
    ensures r.Ok? <==> AllGroupsAggregate(rs, config.nodeStrategy, config.metricWeights, timestamp)
    ensures r.Ok? ==> r.value.Keys == set k | k in order
    ensures r.Ok? ==> forall k :: k in order ==> NodeOutcome(rs, k, config, timestamp) == Ok(r.value[k])
    ensures r.Err? ==> exists j :: FirstFailure(rs, order, config, timestamp, j, r.error)
  {
    var byNode;
    order, byNode := GroupByNode(rs);
    assert rs[..|rs|] == rs;
    r := ScoreGroups(config, rs, timestamp, order, byNode);
  }

  /** The grouping loop of `aggregate_nodes`: one pass over the results, each
      appended to its node's list, a node's key recorded on first sight. */
  method GroupByNode(rs: seq<AnomalyResult>) returns (order: seq<NodeKey>, byNode: map<NodeKey, seq<AnomalyResult>>)
    ensures GroupedUpTo(rs, |rs|, order, byNode)
  {
    byNode := map[];
    order := [];
    var i := 0;
    while i < |rs|
      invariant 0 <= i <= |rs|
      invariant GroupedUpTo(rs, i, order, byNode)
    {
      GroupingStep(rs, i, order, byNode);
      order, byNode := AddKey(order, KeyOf(rs[i])), AddToGroup(byNode, rs[i]);
      i := i + 1;
    }
  }

  /** The scoring loop of `aggregate_nodes`: each group in key order through the
      node aggregator, stopping at the first one that raises. */
  method ScoreGroups(config: Config, rs: seq<AnomalyResult>, timestamp: int,
                     order: seq<NodeKey>, byNode: map<NodeKey, seq<AnomalyResult>>)
    returns (r: Result<map<NodeKey, AggregatedAnomalyScore>, AggError>)
    requires GroupedUpTo(rs, |rs|, order, byNode)
    ensures r.Ok? <==> AllGroupsAggregate(rs, config.nodeStrategy, config.metricWeights, timestamp)
    ensures r.Ok? ==> r.value.Keys == set k | k in order
    ensures r.Ok? ==> forall k :: k in order ==> NodeOutcome(rs, k, config, timestamp) == Ok(r.value[k])
    ensures r.Err? ==> exists j :: FirstFailure(rs, order, config, timestamp, j, r.error)
  {
    assert rs[..|rs|] == rs;
    var scores: map<NodeKey, AggregatedAnomalyScore> := map[];
    var j := 0;
    while j < |order|
      invariant 0 <= j <= |order|
      invariant ScoredUpTo(rs, order, j, config, timestamp, scores)
    {
      var agg := AggregateNode(byNode[order[j]], config.nodeStrategy, config.metricWeights, timestamp);
      assert agg == NodeOutcome(rs, order[j], config, timestamp);
      if agg.Err? {
        assert order[j] in GroupKeys(rs);
        forall j' | 0 <= j' < j ensures NodeOutcome(rs, order[j'], config, timestamp).Ok? {
          assert order[j'] in order[..j];
        }
        assert FirstFailure(rs, order, config, timestamp, j, agg.error);
        r := Err(agg.error);
        return;
      }
      ScoringStep(rs, order, j, config, timestamp, scores, agg.value);
      scores := scores[order[j] := agg.value];
      j := j + 1;
    }
    assert order[..j] == order;
    r := Ok(scores);
  }
}
