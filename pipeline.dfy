/** The ingestion pipeline: collect, validate, store, and keep the counters
    of an ingestion run. The collector's output is an input of each run, and
    the storage backend may fail on a chosen call. */
module Pipeline {
  import opened Basics
  import opened Types
  import opened Validator
  import opened Storage

  /** One line of the run's error log. */
  datatype LogEntry =
    | ValidationError(issue: Issue)
    | ValidationWarning(issue: Issue)  // logged with the "WARNING: " prefix
    | BatchLine(message: BatchMessage)
    | StorageFailure

  function IssueEntries(issues: seq<Issue>): (r: seq<LogEntry>)
    ensures |r| == |issues| && forall i :: 0 <= i < |issues| ==> r[i] == ValidationError(issues[i])
  {
    seq(|issues|, i requires 0 <= i < |issues| => ValidationError(issues[i]))
  }

  function WarningEntries(issues: seq<Issue>): (r: seq<LogEntry>)
    ensures |r| == |issues| && forall i :: 0 <= i < |issues| ==> r[i] == ValidationWarning(issues[i])
  {
    seq(|issues|, i requires 0 <= i < |issues| => ValidationWarning(issues[i]))
  }

  function MessageEntries(messages: seq<BatchMessage>): (r: seq<LogEntry>)
    ensures |r| == |messages| && forall i :: 0 <= i < |messages| ==> r[i] == BatchLine(messages[i])
  {
    seq(|messages|, i requires 0 <= i < |messages| => BatchLine(messages[i]))
  }

  /** `IngestionStats`. */
  class IngestionStats {
    var totalCollected: int
    var totalValid: int
    var totalInvalid: int
    var totalStored: int
    var errors: seq<LogEntry>

    constructor()
      ensures totalCollected == 0 && totalValid == 0 && totalInvalid == 0 && totalStored == 0
      ensures errors == []
    {
      totalCollected, totalValid, totalInvalid, totalStored := 0, 0, 0, 0;
      errors := [];
    }

    /** Counting one validation outcome: an invalid series logs its errors,
        a valid one logs its warnings, each prefixed "WARNING:". */
    method RecordValidation(validation: ValidationResult)
      modifies this
      ensures totalCollected == old(totalCollected) && totalStored == old(totalStored)
      ensures !validation.isValid ==>
        && totalInvalid == 1 && totalValid == old(totalValid)
        && errors == old(errors) + IssueEntries(validation.errors)
      ensures validation.isValid ==>
        && totalValid == 1 && totalInvalid == old(totalInvalid)
        && errors == old(errors) + WarningEntries(validation.warnings)
    {
      if !validation.isValid {
        totalInvalid := 1;
        errors := errors + IssueEntries(validation.errors);
        return;
      }
      totalValid := 1;
      if validation.warnings != [] {
        errors := errors + WarningEntries(validation.warnings);
      } else {
        assert errors + WarningEntries(validation.warnings) == errors;
      }
    }

    /** `success_rate`: the share of collected series that were valid, and 0.0 when nothing was collected. */
    function SuccessRate(): (r: real)
      reads this
      ensures totalCollected == 0 ==> r == 0.0
      ensures totalCollected != 0 ==> r * totalCollected as real == totalValid as real
      ensures 0 <= totalValid <= totalCollected ==> 0.0 <= r <= 1.0
    {
      if totalCollected == 0 then 0.0
      else
        var rate := totalValid as real / totalCollected as real;
        assert rate * totalCollected as real == totalValid as real;
        RateWithin(rate, totalValid as real, totalCollected as real);
        rate
    }
  }

  /** A ratio `v / c` with `0 <= v <= c` lies in [0, 1]. */
  lemma RateWithin(rate: real, v: real, c: real)
    requires c != 0.0 && rate * c == v
    ensures 0.0 <= v <= c ==> 0.0 <= rate <= 1.0
  {
    if 0.0 <= v <= c {
      if rate < 0.0 {
        ProductSign(-rate, c);
      }
    }
  }

  /** The table after `store_metric` of each series in turn. */
  function PutAll(tbl: Table<MetricSeries>, ss: seq<MetricSeries>): Table<MetricSeries>
    decreases |ss|
  {
    if ss == [] then tbl
    else
      var last := ss[|ss| - 1];
      Put(PutAll(tbl, ss[..|ss| - 1]), SeriesKey(last), last)
  }

  /** Storing one more series extends the stored prefix by one. */
  lemma PutAllSnoc(tbl: Table<MetricSeries>, ss: seq<MetricSeries>, i: nat)
    requires i < |ss|
    ensures PutAll(tbl, ss[..i + 1]) == Put(PutAll(tbl, ss[..i]), SeriesKey(ss[i]), ss[i])
  {
    assert ss[..i + 1][..i] == ss[..i];
  }

  /** Storing a list leaves every key it does not mention alone. */
  lemma {:induction false} PutAllOther(tbl: Table<MetricSeries>, ss: seq<MetricSeries>, k: TableKey)
    requires forall i :: 0 <= i < |ss| ==> SeriesKey(ss[i]) != k
    ensures Get(PutAll(tbl, ss), k) == Get(tbl, k)
    decreases |ss|
  {
    if ss != [] {
      var init := ss[..|ss| - 1];
      assert forall i :: 0 <= i < |init| ==> init[i] == ss[i];
      PutAllOther(tbl, init, k);
      assert SeriesKey(ss[|ss| - 1]) != k;
    }
  }

  /** Storing a list files each series that no later series of the list replaces. */
  lemma {:induction false} PutAllLast(tbl: Table<MetricSeries>, ss: seq<MetricSeries>, i: nat)
    requires i < |ss| && forall j :: i < j < |ss| ==> SeriesKey(ss[j]) != SeriesKey(ss[i])
    ensures Get(PutAll(tbl, ss), SeriesKey(ss[i])) == Some(ss[i])
    decreases |ss|
  {
    var init := ss[..|ss| - 1];
    if i < |ss| - 1 {
      assert forall j :: 0 <= j < |init| ==> init[j] == ss[j];
      PutAllLast(tbl, init, i);
      assert SeriesKey(ss[|ss| - 1]) != SeriesKey(ss[i]);
    }
  }

  /** Whether one of the store calls for `valid` raises. */
  predicate StoreRaises(valid: seq<MetricSeries>, failAt: Option<nat>)
  {
    failAt.Some? && failAt.value < |valid|
  }

  /** The prefix of `valid` that is stored before the failing call, if any. */
  function StoredPrefix(valid: seq<MetricSeries>, failAt: Option<nat>): (r: seq<MetricSeries>)
    ensures r <= valid
    ensures |r| < |valid| <==> StoreRaises(valid, failAt)
  {
    if failAt.Some? && failAt.value < |valid| then valid[..failAt.value] else valid
  }

  /** The lines of `get_stats_summary`; the numbers' text formatting is left out. */
  datatype SummaryLine =
    | Title
    | CollectedLine(count: int)
    | ValidLine(count: int)
    | InvalidLine(count: int)
    | StoredLine(count: int)
    | SuccessLine(rate: real)
    | ErrorCountLine(entries: nat)
    | EntryLine(entry: LogEntry)
    | MoreLine(remaining: int)

  /** `IngestionPipeline`: a validator configuration and an optional storage backend. */
  class IngestionPipeline {
    const config: ValidatorConfig
    const storage: InMemoryStorage?

    constructor(config: ValidatorConfig, storage: InMemoryStorage?)
      ensures this.config == config && this.storage == storage
    {
      this.config := config;
      this.storage := storage;
    }

    /** `ingest_metric` on the collected series; `storeFails` says whether
        the storage backend raises on the store call. */
    method IngestMetric(collected: MetricSeries, storeFails: bool) returns (r: Option<MetricSeries>, stats: IngestionStats)
      modifies storage
      ensures stats.totalCollected == 1
      ensures !Validation(collected, config).isValid ==>
        && r == None && stats.totalValid == 0 && stats.totalInvalid == 1 && stats.totalStored == 0
        && stats.errors == IssueEntries(Validation(collected, config).errors)
      ensures Validation(collected, config).isValid ==>
        && r == Some(collected) && stats.totalValid == 1 && stats.totalInvalid == 0
        && stats.totalStored == (if storage != null && !storeFails then 1 else 0)
        && stats.errors == WarningEntries(Validation(collected, config).warnings)
                           + (if storage != null && storeFails then [StorageFailure] else [])
      ensures storage != null ==>
        && storage.metrics == (if Validation(collected, config).isValid && !storeFails
                               then Put(old(storage.metrics), SeriesKey(collected), collected)
                               else old(storage.metrics))
        && storage.anomalies == old(storage.anomalies) && storage.aggregatedScores == old(storage.aggregatedScores)
    {
      stats := new IngestionStats();
      stats.totalCollected := 1;
      var validation := Validate(collected, config);
      stats.RecordValidation(validation);
      if !validation.isValid {
        assert stats.errors == IssueEntries(validation.errors);
        return None, stats;
      }
      assert stats.errors == WarningEntries(validation.warnings);
      if storage != null {
        if storeFails {
          stats.errors := stats.errors + [StorageFailure];
          stats.totalStored := 0;
        } else {
          storage.StoreMetric(collected);
          stats.totalStored := 1;
        }
      }
      return Some(collected), stats;
    }

    /** `ingest_cluster` on the collected series of one cluster; `failAt`
        is the position among the valid series of the store call that raises. */
    method IngestCluster(tenantId: string, collected: seq<MetricSeries>, failAt: Option<nat>)
      returns (valid: seq<MetricSeries>, stats: IngestionStats)
      modifies storage
      ensures stats.totalCollected == |collected|
      ensures IsolationErrors(collected, tenantId) != [] ==>
        && valid == [] && stats.totalValid == 0 && stats.totalInvalid == 0 && stats.totalStored == 0
        && stats.errors == IssueEntries(IsolationErrors(collected, tenantId))
      ensures IsolationErrors(collected, tenantId) == [] ==>
        && valid == Passing(collected, config)
        && stats.totalValid == |valid| && stats.totalInvalid == |Failing(collected, config)|
        && stats.totalValid + stats.totalInvalid == stats.totalCollected
        && var fails := storage != null && valid != [] && StoreRaises(valid, failAt);
           && stats.totalStored == (if storage != null && !fails then |valid| else 0)
           && stats.errors == MessageEntries(BatchMessages(collected, config)) + (if fails then [StorageFailure] else [])
      ensures storage != null && IsolationErrors(collected, tenantId) == [] ==>
        storage.metrics == PutAll(old(storage.metrics), StoredPrefix(valid, failAt))
      ensures storage != null && IsolationErrors(collected, tenantId) != [] ==> storage.metrics == old(storage.metrics)
      ensures storage != null ==>
        storage.anomalies == old(storage.anomalies) && storage.aggregatedScores == old(storage.aggregatedScores)
    {
      ghost var before: Table<MetricSeries> := if storage != null then storage.metrics else map[];
      stats := new IngestionStats();
      stats.totalCollected := |collected|;
      var isolation := ValidateTenantIsolation(collected, tenantId);
      if !isolation.isValid {
        stats.errors := stats.errors + IssueEntries(isolation.errors);
        return [], stats;
      }
      valid := RecordBatch(collected, stats);
      ghost var logged := MessageEntries(BatchMessages(collected, config));
      assert stats.errors == logged;
      assert storage != null ==> storage.metrics == before;
      if storage != null && valid != [] {
        StoreValid(valid, failAt, stats);
      } else if storage != null {
        assert StoredPrefix(valid, failAt) == [];
      }
    }

    /** The batch step of `ingest_cluster`: `validate_batch`, whose list sizes
        become the valid and invalid counters and whose messages are logged. */
    method RecordBatch(collected: seq<MetricSeries>, stats: IngestionStats) returns (valid: seq<MetricSeries>)
      requires stats.totalCollected == |collected|
      modifies stats
      ensures valid == Passing(collected, config)
      ensures stats.totalValid == |valid| && stats.totalInvalid == |Failing(collected, config)|
      ensures stats.totalValid + stats.totalInvalid == stats.totalCollected
      ensures stats.errors == old(stats.errors) + MessageEntries(BatchMessages(collected, config))
      ensures stats.totalCollected == old(stats.totalCollected) && stats.totalStored == old(stats.totalStored)
    {
      var invalid, messages;
      valid, invalid, messages := ValidateBatch(collected, config);
      assert |valid| + |invalid| == |collected| by {
        BatchPartition(collected, config);
        assert |multiset(valid)| + |multiset(invalid)| == |multiset(collected)|;
      }
      stats.totalValid := |valid|;
      stats.totalInvalid := |invalid|;
      stats.errors := stats.errors + MessageEntries(messages);
    }

    /** The `try` body of the store step: store each valid series in turn
        until the call at position `failAt` raises. */
    method StoreEach(valid: seq<MetricSeries>, failAt: Option<nat>) returns (raised: bool)
      requires storage != null
      modifies storage
      ensures raised <==> StoreRaises(valid, failAt)
      ensures storage.metrics == PutAll(old(storage.metrics), StoredPrefix(valid, failAt))
      ensures storage.anomalies == old(storage.anomalies) && storage.aggregatedScores == old(storage.aggregatedScores)
    {
      ghost var before, anomalies, scores := storage.metrics, storage.anomalies, storage.aggregatedScores;
      var i := 0;
      while i < |valid| && failAt != Some(i)
        invariant 0 <= i <= |valid|
        invariant failAt.Some? ==> i <= failAt.value
        invariant storage.metrics == PutAll(before, valid[..i])
        invariant storage.anomalies == anomalies && storage.aggregatedScores == scores
      {
        assert failAt.Some? ==> failAt.value != i;
        StoreNext(before, valid, i);
        i := i + 1;
      }
      raised := i < |valid|;
      if !raised {
        assert valid[..i] == valid;
      }
    }

    /** One pass of the store loop: `store_metric` on the next valid series. */
    method StoreNext(ghost before: Table<MetricSeries>, valid: seq<MetricSeries>, i: nat)
      requires storage != null && i < |valid| && storage.metrics == PutAll(before, valid[..i])
      modifies storage
      ensures storage.metrics == PutAll(before, valid[..i + 1])
      ensures storage.anomalies == old(storage.anomalies) && storage.aggregatedScores == old(storage.aggregatedScores)
    {
      PutAllSnoc(before, valid, i);
      storage.StoreMetric(valid[i]);
    }

    /** The store step of `ingest_cluster`: on success every valid series is
        counted as stored; a raising call is logged and nothing is counted. */
    method StoreValid(valid: seq<MetricSeries>, failAt: Option<nat>, stats: IngestionStats)
      requires storage != null
      modifies storage, stats
      ensures storage.metrics == PutAll(old(storage.metrics), StoredPrefix(valid, failAt))
      ensures storage.anomalies == old(storage.anomalies) && storage.aggregatedScores == old(storage.aggregatedScores)
      ensures stats.totalStored == if StoreRaises(valid, failAt) then 0 else |valid|
      ensures stats.errors == old(stats.errors) + if StoreRaises(valid, failAt) then [StorageFailure] else []
      ensures stats.totalCollected == old(stats.totalCollected)
      ensures stats.totalValid == old(stats.totalValid) && stats.totalInvalid == old(stats.totalInvalid)
    {
      var raised := StoreEach(valid, failAt);
      if raised {
        stats.errors := stats.errors + [StorageFailure];
        stats.totalStored := 0;
      } else {
        stats.totalStored := |valid|;
      }
    }

    /** `get_stats_summary`: the counters, then, when the log is not empty,
        its size, its first five entries and one line for the rest. */
    method StatsSummary(stats: IngestionStats) returns (lines: seq<SummaryLine>)
      ensures |lines| >= 6
      ensures lines[..6] == [Title, CollectedLine(stats.totalCollected), ValidLine(stats.totalValid),
                             InvalidLine(stats.totalInvalid), StoredLine(stats.totalStored),
                             SuccessLine(stats.SuccessRate())]
      ensures stats.errors == [] ==> |lines| == 6
      ensures stats.errors != [] ==>
        var shown := Min(5, |stats.errors|);
        && |lines| == 7 + shown + (if |stats.errors| > 5 then 1 else 0)
        && lines[6] == ErrorCountLine(|stats.errors|)
        && (forall i :: 0 <= i < shown ==> lines[7 + i] == EntryLine(stats.errors[i]))
        && (|stats.errors| > 5 ==> lines[|lines| - 1] == MoreLine(|stats.errors| - 5))
    {
      lines := [Title, CollectedLine(stats.totalCollected), ValidLine(stats.totalValid),
                InvalidLine(stats.totalInvalid), StoredLine(stats.totalStored), SuccessLine(stats.SuccessRate())];
      if stats.errors != [] {
        lines := lines + [ErrorCountLine(|stats.errors|)];
        ghost var head := lines;
        var shown := Min(5, |stats.errors|);
        var i := 0;
        while i < shown
          invariant 0 <= i <= shown
          invariant |lines| == 7 + i
          invariant lines[..7] == head
          invariant forall j :: 0 <= j < i ==> lines[7 + j] == EntryLine(stats.errors[j])
        {
          lines := lines + [EntryLine(stats.errors[i])];
          i := i + 1;
        }
        if |stats.errors| > 5 {
          lines := lines + [MoreLine(|stats.errors| - 5)];
        }
      }
    }
  }
}
