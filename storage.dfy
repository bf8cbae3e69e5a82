/** The in-memory storage backend: metric series and anomaly results in
    four-level tables keyed by tenant, cluster, node and metric, aggregated
    scores in per-tenant lists, and the statistics counters. */
module Storage {
  import opened Basics
  import opened Types

  /** tenant -> cluster -> node -> metric -> entry. */
  type Table<V> = map<string, map<string, map<string, map<string, V>>>>

  datatype TableKey = TableKey(tenantId: string, clusterId: string, nodeId: string, metricName: string)

  function SeriesKey(s: MetricSeries): TableKey
  {
    TableKey(s.tenantId, s.clusterId, s.nodeId, s.metricName)
  }

  /** The entry at `k`, if all four levels hold it. */
  function Get<V>(tbl: Table<V>, k: TableKey): Option<V>
  {
    if k.tenantId in tbl && k.clusterId in tbl[k.tenantId] && k.nodeId in tbl[k.tenantId][k.clusterId]
       && k.metricName in tbl[k.tenantId][k.clusterId][k.nodeId]
    then Some(tbl[k.tenantId][k.clusterId][k.nodeId][k.metricName])
    else None
  }

  /** The level below a key of a defaultdict: the stored map, or a new empty one. */
  function Below<K, V>(m: map<K, map<string, V>>, k: K): map<string, V>
  {
    if k in m then m[k] else map[]
  }

  /** `tbl[t][c][n][m] = v` through the nested defaultdicts: the entry is
      written or overwritten and no other entry changes. */
  function Put<V>(tbl: Table<V>, k: TableKey, v: V): (r: Table<V>)
    ensures Get(r, k) == Some(v)
    ensures forall k' :: k' != k ==> Get(r, k') == Get(tbl, k')
    ensures r.Keys == tbl.Keys + {k.tenantId}
  {
    var byTenant := Below(tbl, k.tenantId);
    var byCluster := Below(byTenant, k.clusterId);
    var byNode := Below(byCluster, k.nodeId);
    tbl[k.tenantId := byTenant[k.clusterId := byCluster[k.nodeId := byNode[k.metricName := v]]]]
  }

  /** Reading `tbl[t][c][n]` through the nested defaultdicts: the missing
      tenant, cluster and node levels are created empty; no entry changes. */
  function Touch<V>(tbl: Table<V>, t: string, c: string, n: string): (r: Table<V>)
    ensures forall k :: Get(r, k) == Get(tbl, k)
    ensures r.Keys == tbl.Keys + {t}
  {
    var byTenant := Below(tbl, t);
    var byCluster := Below(byTenant, c);
    tbl[t := byTenant[c := byCluster[n := Below(byCluster, n)]]]
  }

  /** The keys of all entries, across the four levels. */
  function LeafKeys<V>(tbl: Table<V>): set<TableKey>
  {
    set t, c, n, m | t in tbl && c in tbl[t] && n in tbl[t][c] && m in tbl[t][c][n] :: TableKey(t, c, n, m)
  }

  lemma LeafKeysExact<V>(tbl: Table<V>)
    ensures forall k :: k in LeafKeys(tbl) <==> Get(tbl, k).Some?
  {
    forall k | Get(tbl, k).Some? ensures k in LeafKeys(tbl) {
      assert k == TableKey(k.tenantId, k.clusterId, k.nodeId, k.metricName);
    }
  }

  lemma PutLeafKeys<V>(tbl: Table<V>, k: TableKey, v: V)
    ensures LeafKeys(Put(tbl, k, v)) == LeafKeys(tbl) + {k}
  {
    LeafKeysExact(tbl);
    LeafKeysExact(Put(tbl, k, v));
  }

  lemma AddOne<T>(a: set<T>, x: T)
    ensures |a + {x}| == |a| + if x in a then 0 else 1
  {
    if x in a {
      assert a + {x} == a;
    }
  }

  /** Writing an entry adds one to the number of entries exactly when its key was new. */
  lemma PutCount<V>(tbl: Table<V>, k: TableKey, v: V)
    ensures |LeafKeys(Put(tbl, k, v))| == |LeafKeys(tbl)| + if Get(tbl, k).None? then 1 else 0
  {
    PutLeafKeys(tbl, k, v);
    LeafKeysExact(tbl);
    AddOne(LeafKeys(tbl), k);
  }

  /** Creating empty levels adds no entry. */
  lemma TouchCount<V>(tbl: Table<V>, t: string, c: string, n: string)
    ensures LeafKeys(Touch(tbl, t, c, n)) == LeafKeys(tbl)
  {
    LeafKeysExact(tbl);
    LeafKeysExact(Touch(tbl, t, c, n));
  }

  /** `aggregated_scores[tenant].append(score)`. */
  function AppendScore(m: map<string, seq<AggregatedAnomalyScore>>, t: string, x: AggregatedAnomalyScore)
    : (r: map<string, seq<AggregatedAnomalyScore>>)
    ensures r.Keys == m.Keys + {t}
    ensures |r[t]| >= 1 && r[t][|r[t]| - 1] == x
    ensures r[t][..|r[t]| - 1] == if t in m then m[t] else []
    ensures forall t' :: t' in m && t' != t ==> r[t'] == m[t']
  {
    var before := if t in m then m[t] else [];
    assert (before + [x])[..|before|] == before;
    m[t := before + [x]]
  }

  /** One element per stored aggregated score: its tenant and its position in that tenant's list. */
  function Entries(m: map<string, seq<AggregatedAnomalyScore>>): set<(string, int)>
  {
    set t, i | t in m && 0 <= i < |m[t]| :: (t, i)
  }

  /** No entry is stored exactly when every tenant's list is empty. */
  lemma EntriesEmpty(m: map<string, seq<AggregatedAnomalyScore>>)
    ensures |Entries(m)| == 0 <==> forall t :: t in m ==> m[t] == []
  {
    if exists t :: t in m && m[t] != [] {
      var t :| t in m && m[t] != [];
      assert (t, 0) in Entries(m);
    }
  }

  /** Appending a score adds one to the number of stored scores. */
  lemma AppendCount(m: map<string, seq<AggregatedAnomalyScore>>, t: string, x: AggregatedAnomalyScore)
    ensures |Entries(AppendScore(m, t, x))| == |Entries(m)| + 1
  {
    var r := AppendScore(m, t, x);
    var len := if t in m then |m[t]| else 0;
    assert (t, len) !in Entries(m);
    forall e | e in Entries(r) ensures e in Entries(m) + {(t, len)} {
      var (t', i) := e;
      if t' != t {
        assert r[t'] == m[t'];
      }
    }
    forall e | e in Entries(m) + {(t, len)} ensures e in Entries(r) {
      var (t', i) := e;
      if t' != t {
        assert r[t'] == m[t'];
      }
    }
    assert Entries(r) == Entries(m) + {(t, len)};
  }

  /** `zip(timestamps, values)`: the aligned pairs, as many as the shorter list. */
  function Zip(ts: seq<int>, vs: seq<real>): (z: seq<(int, real)>)
    ensures |z| == Min(|ts|, |vs|)
    ensures forall i :: 0 <= i < |z| ==> z[i] == (ts[i], vs[i])
  {
    seq(Min(|ts|, |vs|), i requires 0 <= i < Min(|ts|, |vs|) => (ts[i], vs[i]))
  }

  /** `start_time <= ts <= end_time`: both bounds inclusive. */
  function InWindow(lo: int, hi: int): ((int, real)) -> bool
  {
    (p: (int, real)) => lo <= p.0 <= hi
  }

  lemma FirstsSnoc(ps: seq<(int, real)>, p: (int, real))
    ensures Firsts(ps + [p]) == Firsts(ps) + [p.0]
    ensures Seconds(ps + [p]) == Seconds(ps) + [p.1]
  {
    assert Firsts(ps + [p])[|ps|] == p.0;
    assert Seconds(ps + [p])[|ps|] == p.1;
  }

  /** The filtering loop of `get_metric_series`: timestamps and values of the
      points with `lo <= t <= hi`, in order. */
  method PointsInRange(z: seq<(int, real)>, lo: int, hi: int) returns (ts: seq<int>, vs: seq<real>)
    ensures ts == Firsts(Filter(z, InWindow(lo, hi)))
    ensures vs == Seconds(Filter(z, InWindow(lo, hi)))
  {
    var keep := InWindow(lo, hi);
    ts, vs := [], [];
    var i := 0;
    while i < |z|
      invariant 0 <= i <= |z|
      invariant ts == Firsts(Filter(z[..i], keep))
      invariant vs == Seconds(Filter(z[..i], keep))
    {
      assert z[..i + 1][..i] == z[..i];
      ghost var kept := Filter(z[..i], keep);
      var (t, v) := z[i];
      if lo <= t <= hi {
        FirstsSnoc(kept, z[i]);
        ts := ts + [t];
        vs := vs + [v];
      }
      i := i + 1;
    }
    assert z[..i] == z;
  }

  /** The points of a stored series that a range query keeps, in stored order. */
  function RangeQuery(s: MetricSeries, lo: int, hi: int): seq<(int, real)>
  {
    Filter(Zip(s.timestamps, s.values), InWindow(lo, hi))
  }

  function Firsts(ps: seq<(int, real)>): (r: seq<int>)
    ensures |r| == |ps| && forall i :: 0 <= i < |ps| ==> r[i] == ps[i].0
  {
    seq(|ps|, i requires 0 <= i < |ps| => ps[i].0)
  }

  function Seconds(ps: seq<(int, real)>): (r: seq<real>)
    ensures |r| == |ps| && forall i :: 0 <= i < |ps| ==> r[i] == ps[i].1
  {
    seq(|ps|, i requires 0 <= i < |ps| => ps[i].1)
  }

  lemma {:induction false} FilterComplete<T>(s: seq<T>, p: T -> bool, x: T)
    requires x in s && p(x)
    ensures x in Filter(s, p)
    decreases |s|
  {
    if s[|s| - 1] != x {
      var i :| 0 <= i < |s| && s[i] == x;
      assert s[..|s| - 1][i] == x;
      FilterComplete(s[..|s| - 1], p, x);
    }
  }

  lemma {:induction false} FilterKeepsAll<T>(s: seq<T>, p: T -> bool)
    requires forall i :: 0 <= i < |s| ==> p(s[i])
    ensures Filter(s, p) == s
    decreases |s|
  {
    if s != [] {
      var init := s[..|s| - 1];
      assert forall i :: 0 <= i < |init| ==> p(init[i]);
      FilterKeepsAll(init, p);
      assert p(s[|s| - 1]);
      assert s == init + [s[|s| - 1]];
    }
  }

  /** The query keeps exactly the stored points whose timestamp lies within the
      inclusive range, each with its own value. */
  lemma RangeQueryExact(s: MetricSeries, lo: int, hi: int)
    ensures forall p :: p in RangeQuery(s, lo, hi) ==>
      lo <= p.0 <= hi && exists i :: 0 <= i < |s.timestamps| && i < |s.values| && p == (s.timestamps[i], s.values[i])
    ensures forall i :: 0 <= i < |s.timestamps| && i < |s.values| && lo <= s.timestamps[i] <= hi ==>
      (s.timestamps[i], s.values[i]) in RangeQuery(s, lo, hi)
  {
    var z := Zip(s.timestamps, s.values);
    forall p | p in RangeQuery(s, lo, hi)
      ensures exists i :: 0 <= i < |s.timestamps| && i < |s.values| && p == (s.timestamps[i], s.values[i])
    {
      var i :| 0 <= i < |z| && z[i] == p;
    }
    forall i | 0 <= i < |s.timestamps| && i < |s.values| && lo <= s.timestamps[i] <= hi
      ensures (s.timestamps[i], s.values[i]) in RangeQuery(s, lo, hi)
    {
      assert z[i] == (s.timestamps[i], s.values[i]);
      FilterComplete(z, InWindow(lo, hi), z[i]);
    }
  }

  /** A range that covers every point returns the whole series, and querying
      the answer again with the same range changes nothing. */
  lemma RangeQueryStable(s: MetricSeries, lo: int, hi: int)
    ensures (forall i :: 0 <= i < |s.timestamps| ==> lo <= s.timestamps[i] <= hi) ==>
      RangeQuery(s, lo, hi) == Zip(s.timestamps, s.values)
    ensures Filter(RangeQuery(s, lo, hi), InWindow(lo, hi)) == RangeQuery(s, lo, hi)
  {
    var z := Zip(s.timestamps, s.values);
    if forall i :: 0 <= i < |s.timestamps| ==> lo <= s.timestamps[i] <= hi {
      FilterKeepsAll(z, InWindow(lo, hi));
    }
    var r := RangeQuery(s, lo, hi);
    forall i | 0 <= i < |r| ensures InWindow(lo, hi)(r[i]) {
      assert r[i] in r;
    }
    FilterKeepsAll(r, InWindow(lo, hi));
  }

  datatype StorageError = NotFound(key: TableKey) | NoDataInRange(key: TableKey, startTime: int, endTime: int)

  /** What `get_stats` reports. */
  datatype StorageStats = StorageStats(totalTenants: nat, totalMetrics: nat, totalAnomalies: nat,
                                       totalAggregatedScores: nat)

  class InMemoryStorage {
    var metrics: Table<MetricSeries>
    var anomalies: Table<AnomalyResult>
    var aggregatedScores: map<string, seq<AggregatedAnomalyScore>>

    constructor()
      ensures metrics == map[] && anomalies == map[] && aggregatedScores == map[]
    {
      metrics, anomalies, aggregatedScores := map[], map[], map[];
    }

    /** `store_metric`: the series is filed under its own identity, replacing any earlier one. */
    method StoreMetric(series: MetricSeries)
      modifies this
      ensures metrics == Put(old(metrics), SeriesKey(series), series)
      ensures anomalies == old(anomalies) && aggregatedScores == old(aggregatedScores)
    {
      metrics := Put(metrics, SeriesKey(series), series);
    }

    /** `get_metric_series`: the stored series cut to the points with
        `startTime <= t <= endTime`. The lookup leaves empty tenant, cluster
        and node levels behind even when it fails. */
    method GetMetricSeries(key: TableKey, startTime: int, endTime: int) returns (r: Result<MetricSeries, StorageError>)
      modifies this
      ensures metrics == Touch(old(metrics), key.tenantId, key.clusterId, key.nodeId)
      ensures anomalies == old(anomalies) && aggregatedScores == old(aggregatedScores)
      ensures Get(old(metrics), key).None? ==> r == Err(NotFound(key))
      ensures Get(old(metrics), key).Some? ==>
        var stored := Get(old(metrics), key).value;
        var kept := RangeQuery(stored, startTime, endTime);
        if kept == [] then r == Err(NoDataInRange(key, startTime, endTime))
        else r == Ok(MetricSeries(stored.tenantId, stored.clusterId, stored.nodeId, stored.metricName,
                                  Firsts(kept), Seconds(kept), stored.metadata))
             && r.value.Valid()
    {
      metrics := Touch(metrics, key.tenantId, key.clusterId, key.nodeId);
      var byNode := metrics[key.tenantId][key.clusterId][key.nodeId];
      if key.metricName !in byNode {
        return Err(NotFound(key));
      }
      var series := byNode[key.metricName];
      assert Get(metrics, key) == Some(series);
      var filteredTimestamps, filteredValues := PointsInRange(Zip(series.timestamps, series.values), startTime, endTime);
      if filteredTimestamps == [] {
        return Err(NoDataInRange(key, startTime, endTime));
      }
      r := Ok(MetricSeries(series.tenantId, series.clusterId, series.nodeId, series.metricName,
                           filteredTimestamps, filteredValues, series.metadata));
    }

    /** `store_anomaly_result`: filed under the key the caller gives, whatever
        identity the result itself carries. */
    method StoreAnomalyResult(key: TableKey, result: AnomalyResult)
      modifies this
      ensures anomalies == Put(old(anomalies), key, result)
      ensures metrics == old(metrics) && aggregatedScores == old(aggregatedScores)
    {
      anomalies := Put(anomalies, key, result);
    }

    /** `store_aggregated_score`: appended to its tenant's list. */
    method StoreAggregatedScore(score: AggregatedAnomalyScore)
      modifies this
      ensures aggregatedScores == AppendScore(old(aggregatedScores), score.tenantId, score)
      ensures metrics == old(metrics) && anomalies == old(anomalies)
    {
      aggregatedScores := AppendScore(aggregatedScores, score.tenantId, score);
    }

    /** `get_stats`: tenant keys of the metric table (empty levels included),
        metric entries, anomaly entries and stored aggregated scores. */
    function Stats(): (s: StorageStats)
      reads this
      ensures s.totalTenants == 0 ==> s.totalMetrics == 0
      ensures s.totalMetrics == 0 <==> forall k :: Get(metrics, k).None?
      ensures s.totalAnomalies == 0 <==> forall k :: Get(anomalies, k).None?
      ensures s.totalAggregatedScores == 0 <==> forall t :: t in aggregatedScores ==> aggregatedScores[t] == []
    {
      LeafKeysExact(metrics);
      LeafKeysExact(anomalies);
      EntriesEmpty(aggregatedScores);
      StorageStats(|metrics.Keys|, |LeafKeys(metrics)|, |LeafKeys(anomalies)|, |Entries(aggregatedScores)|)
    }
  }

  /** A lookup on an empty store leaves one tenant behind and still no metric,
      so the tenant count of `get_stats` grows after a failed lookup. */
  lemma FailedLookupAddsTenant(key: TableKey)
    ensures var tbl: Table<MetricSeries> := Touch(map[], key.tenantId, key.clusterId, key.nodeId);
      |tbl.Keys| == 1 && |LeafKeys(tbl)| == 0
  {
    var empty: Table<MetricSeries> := map[];
    var tbl := Touch(empty, key.tenantId, key.clusterId, key.nodeId);
    TouchCount(empty, key.tenantId, key.clusterId, key.nodeId);
    assert tbl.Keys == {key.tenantId};
  }
}
