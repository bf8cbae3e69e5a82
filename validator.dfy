/** The ingestion validator: rule-by-rule checks of one metric series that
    collect errors (which reject the series) and warnings (which do not), the
    batch partition into valid and invalid series, and the tenant-isolation
    check. Messages are kept as structured issues; their text is left out. */
module Validator {
  import opened Basics
  import opened Types

  /** The identity fields a series must name. */
  datatype IdField = TenantField | ClusterField | NodeField | MetricField
  {
    /** The field's name in the error message. */
    function Name(): string
    {
      match this
      case TenantField => "tenant_id"
      case ClusterField => "cluster_id"
      case NodeField => "node_id"
      case MetricField => "metric_name"
    }
  }

  /** The value of an identity field. */
  function FieldOf(s: MetricSeries, f: IdField): string
  {
    match f
    case TenantField => s.tenantId
    case ClusterField => s.clusterId
    case NodeField => s.nodeId
    case MetricField => s.metricName
  }

  /** One finding of the validator. */
  datatype Issue =
    | MissingField(field: IdField)
    | EmptyData
    | SizeMismatch(timestampCount: nat, valueCount: nat)
    | Unsorted
    | DuplicateTimestamps
    | LargeGap(gap: int, before: int, after: int)
    | NegativeGap
    | PercentOutOfRange
    | NegativeCountOrRate
    | TenantMismatch(index: nat, expected: string, got: string)

  datatype ValidationResult = ValidationResult(isValid: bool, errors: seq<Issue>, warnings: seq<Issue>)
  {
    /** `__bool__`: a result is truthy exactly when it is valid. */
    predicate Truthy()
      ensures Truthy() <==> isValid
    {
      isValid
    }
  }

  /** The validator's settings: `allow_empty`, `max_gap_seconds`, `require_sorted`. */
  datatype ValidatorConfig = ValidatorConfig(allowEmpty: bool, maxGapSeconds: int, requireSorted: bool)

  function DefaultValidatorConfig(): ValidatorConfig
  {
    ValidatorConfig(false, 300, true)
  }

  // ---------------------------------------------------------------------------
  // The rules
  // ---------------------------------------------------------------------------

  /** The check of one identity field. */
  function FieldCheck(s: MetricSeries, g: IdField): seq<Issue>
  {
    if FieldOf(s, g) == "" then [MissingField(g)] else []
  }

  /** One error per empty identity field, in the order tenant, cluster, node, metric. */
  function FieldErrors(s: MetricSeries): seq<Issue>
  {
    (if s.tenantId == "" then [MissingField(TenantField)] else [])
    + (if s.clusterId == "" then [MissingField(ClusterField)] else [])
    + (if s.nodeId == "" then [MissingField(NodeField)] else [])
    + (if s.metricName == "" then [MissingField(MetricField)] else [])
  }

  predicate HasData(s: MetricSeries)
  {
    s.timestamps != [] && s.values != []
  }

  /** The data-presence and length checks, which run before the early return. */
  function PresenceErrors(s: MetricSeries, config: ValidatorConfig): seq<Issue>
  {
    (if !HasData(s) && !config.allowEmpty then [EmptyData] else [])
    + (if |s.timestamps| != |s.values| then [SizeMismatch(|s.timestamps|, |s.values|)] else [])
  }

  /** `len(timestamps) != len(set(timestamps))`: some timestamp repeats an earlier one. */
  predicate HasDuplicates(ts: seq<int>)
    decreases |ts|
  {
    |ts| > 1 && (ts[|ts| - 1] in ts[..|ts| - 1] || HasDuplicates(ts[..|ts| - 1]))
  }

  /** The set of timestamps is smaller than their number exactly when two positions hold the same one. */
  lemma {:induction false} DuplicatesIffRepeated(ts: seq<int>)
    ensures HasDuplicates(ts) <==> exists i, j :: 0 <= i < j < |ts| && ts[i] == ts[j]
    decreases |ts|
  {
    if |ts| > 1 {
      var init := ts[..|ts| - 1];
      DuplicatesIffRepeated(init);
      if exists i, j :: 0 <= i < j < |ts| && ts[i] == ts[j] {
        var i, j :| 0 <= i < j < |ts| && ts[i] == ts[j];
        if j < |ts| - 1 {
          assert init[i] == init[j];
        } else {
          assert init[i] == ts[|ts| - 1];
        }
      }
      if ts[|ts| - 1] in init {
        var i :| 0 <= i < |init| && init[i] == ts[|ts| - 1];
        assert ts[i] == ts[|ts| - 1];
      }
      if exists i, j :: 0 <= i < j < |init| && init[i] == init[j] {
        var i, j :| 0 <= i < j < |init| && init[i] == init[j];
        assert ts[i] == ts[j];
      }
    }
  }

  /** The warnings for the gaps between the first `n` timestamps that exceed `maxGap`. */
  function GapWarnings(ts: seq<int>, maxGap: int, n: nat): seq<Issue>
    requires n <= |ts|
  {
    if n <= 1 then []
    else
      var gap := ts[n - 1] - ts[n - 2];
      GapWarnings(ts, maxGap, n - 1) + (if gap > maxGap then [LargeGap(gap, ts[n - 2], ts[n - 1])] else [])
  }

  /** One error per negative gap between the first `n` timestamps. */
  function GapErrors(ts: seq<int>, n: nat): seq<Issue>
    requires n <= |ts|
  {
    if n <= 1 then []
    else GapErrors(ts, n - 1) + (if ts[n - 1] - ts[n - 2] < 0 then [NegativeGap] else [])
  }

  predicate PercentMetric(name: string)
  {
    Contains(name, "usage") || Contains(name, "percent")
  }

  predicate CountMetric(name: string)
  {
    Contains(name, "count") || Contains(name, "rate")
  }

  predicate OutsidePercent(vs: seq<real>)
  {
    exists i :: 0 <= i < |vs| && (vs[i] < 0.0 || vs[i] > 100.0)
  }

  predicate AnyNegative(vs: seq<real>)
  {
    exists i :: 0 <= i < |vs| && vs[i] < 0.0
  }

  /** The warnings about the values of percentage and count/rate metrics. */
  function ValueWarnings(s: MetricSeries): seq<Issue>
  {
    (if PercentMetric(s.metricName) && OutsidePercent(s.values) then [PercentOutOfRange] else [])
    + (if CountMetric(s.metricName) && AnyNegative(s.values) then [NegativeCountOrRate] else [])
  }

  /** The errors found before the early return for a series without data. */
  function EarlyErrors(s: MetricSeries, config: ValidatorConfig): seq<Issue>
  {
    FieldErrors(s) + PresenceErrors(s, config)
  }

  /** The order check, run only when the validator requires sorted timestamps. */
  function SortErrors(ts: seq<int>, config: ValidatorConfig): seq<Issue>
  {
    if config.requireSorted && !NonDecreasing(ts) then [Unsorted] else []
  }

  function DuplicateWarnings(ts: seq<int>): seq<Issue>
  {
    if HasDuplicates(ts) then [DuplicateTimestamps] else []
  }

  /** What `MetricValidator.validate` returns. Without data it stops after the
      presence and length checks; otherwise the order, gap, duplicate and value
      checks follow. Only errors make the series invalid. */
  function Validation(s: MetricSeries, config: ValidatorConfig): (r: ValidationResult)
    ensures r.Truthy() <==> r.errors == []
    ensures !HasData(s) ==> r.warnings == []
    ensures !HasData(s) ==>
      (r.isValid <==> FieldErrors(s) == [] && config.allowEmpty && |s.timestamps| == |s.values|)
  {
    var early := EarlyErrors(s, config);
    if !HasData(s) then ValidationResult(early == [], early, [])
    else
      var ts := s.timestamps;
      var errors := early + SortErrors(ts, config) + GapErrors(ts, |ts|);
      var warnings := DuplicateWarnings(ts) + GapWarnings(ts, config.maxGapSeconds, |ts|) + ValueWarnings(s);
      ValidationResult(errors == [], errors, warnings)
  }

  /** The identity checks of `validate`, in field order. */
  method CheckIdentity(s: MetricSeries) returns (errors: seq<Issue>)
    ensures errors == FieldErrors(s)
  {
    errors := [];
    if s.tenantId == "" { errors := errors + [MissingField(TenantField)]; }
    if s.clusterId == "" { errors := errors + [MissingField(ClusterField)]; }
    if s.nodeId == "" { errors := errors + [MissingField(NodeField)]; }
    if s.metricName == "" { errors := errors + [MissingField(MetricField)]; }
  }

  /** The gap loop of `validate`: one pass over consecutive timestamps, warning
      about each gap above `maxGap` and reporting each negative one. */
  method ScanGaps(ts: seq<int>, maxGap: int) returns (errors: seq<Issue>, warnings: seq<Issue>)
    ensures errors == GapErrors(ts, |ts|)
    ensures warnings == GapWarnings(ts, maxGap, |ts|)
  {
    errors, warnings := [], [];
    if |ts| > 1 {
      var i := 1;
      while i < |ts|
        invariant 1 <= i <= |ts|
        invariant errors == GapErrors(ts, i)
        invariant warnings == GapWarnings(ts, maxGap, i)
      {
        var gap := ts[i] - ts[i - 1];
        if gap > maxGap {
          warnings := warnings + [LargeGap(gap, ts[i - 1], ts[i])];
        }
        if gap < 0 {
          errors := errors + [NegativeGap];
        }
        i := i + 1;
      }
    }
  }

  /** `MetricValidator.validate`: the rules in order, appending to the error and
      warning lists, with one pass over the consecutive gaps. */
  method Validate(s: MetricSeries, config: ValidatorConfig) returns (r: ValidationResult)
    ensures r == Validation(s, config)
  {
    var errors := CheckIdentity(s);
    var warnings: seq<Issue> := [];
    if s.timestamps == [] || s.values == [] {
      if !config.allowEmpty { errors := errors + [EmptyData]; }
    }
    if |s.timestamps| != |s.values| {
      errors := errors + [SizeMismatch(|s.timestamps|, |s.values|)];
    }
    assert errors == EarlyErrors(s, config);
    if s.timestamps == [] || s.values == [] {
      return ValidationResult(|errors| == 0, errors, warnings);
    }
    var ts := s.timestamps;
    if config.requireSorted {
      if !NonDecreasing(ts) { errors := errors + [Unsorted]; }
    }
    assert errors == EarlyErrors(s, config) + SortErrors(ts, config);
    if HasDuplicates(ts) { warnings := warnings + [DuplicateTimestamps]; }
    assert warnings == DuplicateWarnings(ts);
    var gapErrors, gapWarnings := ScanGaps(ts, config.maxGapSeconds);
    errors, warnings := errors + gapErrors, warnings + gapWarnings;
    assert errors == EarlyErrors(s, config) + SortErrors(ts, config) + GapErrors(ts, |ts|);
    assert warnings == DuplicateWarnings(ts) + GapWarnings(ts, config.maxGapSeconds, |ts|);
    ghost var warnings1 := warnings;
    if PercentMetric(s.metricName) && OutsidePercent(s.values) {
      warnings := warnings + [PercentOutOfRange];
    }
    if CountMetric(s.metricName) && AnyNegative(s.values) {
      warnings := warnings + [NegativeCountOrRate];
    }
    assert warnings == warnings1 + ValueWarnings(s);
    r := ValidationResult(|errors| == 0, errors, warnings);
  }

  // ---------------------------------------------------------------------------
  // What the rules mean
  // ---------------------------------------------------------------------------

  lemma {:induction false} GapErrorsOnly(ts: seq<int>, n: nat)
    requires n <= |ts|
    ensures forall e :: e in GapErrors(ts, n) ==> e == NegativeGap
    ensures GapErrors(ts, n) == [] <==> forall i :: 1 <= i < n ==> ts[i - 1] <= ts[i]
    decreases n
  {
    if n > 1 {
      GapErrorsOnly(ts, n - 1);
    }
  }

  /** Each large gap gives exactly its warning, and nothing else is warned about. */
  lemma {:induction false} GapWarningsExact(ts: seq<int>, maxGap: int, n: nat)
    requires n <= |ts|
    ensures forall w :: w in GapWarnings(ts, maxGap, n) <==>
      exists i :: 1 <= i < n && ts[i] - ts[i - 1] > maxGap && w == LargeGap(ts[i] - ts[i - 1], ts[i - 1], ts[i])
    decreases n
  {
    if n > 1 {
      GapWarningsExact(ts, maxGap, n - 1);
    }
  }

  /** Timestamps are in chronological order exactly when no consecutive gap is negative. */
  lemma {:induction false} SortedIffNoNegativeGap(ts: seq<int>)
    ensures NonDecreasing(ts) <==> forall i :: 1 <= i < |ts| ==> ts[i - 1] <= ts[i]
    decreases |ts|
  {
    if |ts| > 1 && forall i :: 1 <= i < |ts| ==> ts[i - 1] <= ts[i] {
      var init := ts[..|ts| - 1];
      assert forall i :: 1 <= i < |init| ==> init[i - 1] <= init[i];
      SortedIffNoNegativeGap(init);
      forall i, j | 0 <= i <= j < |ts| ensures ts[i] <= ts[j] {
        if j < |ts| - 1 {
          assert init[i] <= init[j];
        } else if i < j {
          assert init[i] <= init[j - 1];
        }
      }
    }
  }

  /** The checks before the early return report neither order nor gap errors. */
  lemma EarlyErrorKinds(s: MetricSeries, config: ValidatorConfig)
    ensures forall e :: e in EarlyErrors(s, config) ==> e.MissingField? || e.EmptyData? || e.SizeMismatch?
  {
  }

  /** With `require_sorted`, an unsorted series gets both the order error and
      at least one negative-gap error; a sorted one gets neither. */
  lemma OrderErrors(s: MetricSeries, config: ValidatorConfig)
    requires HasData(s) && config.requireSorted
    ensures Unsorted in Validation(s, config).errors <==> !NonDecreasing(s.timestamps)
    ensures NegativeGap in Validation(s, config).errors <==> !NonDecreasing(s.timestamps)
  {
    var ts := s.timestamps;
    var early, gaps := EarlyErrors(s, config), GapErrors(ts, |ts|);
    assert Validation(s, config).errors == early + SortErrors(ts, config) + gaps;
    EarlyErrorKinds(s, config);
    assert NegativeGap in gaps <==> !NonDecreasing(ts) by {
      GapErrorsOnly(ts, |ts|);
      SortedIffNoNegativeGap(ts);
      if gaps != [] {
        assert gaps[0] in gaps;
      }
    }
    assert Unsorted !in gaps by {
      GapErrorsOnly(ts, |ts|);
    }
  }

  /** How many entries of `es` report field `f` missing. */
  function MissingCount(es: seq<Issue>, f: IdField): nat
    decreases |es|
  {
    if es == [] then 0
    else MissingCount(es[..|es| - 1], f) + (if es[|es| - 1] == MissingField(f) then 1 else 0)
  }

  lemma {:induction false} MissingCountAppend(a: seq<Issue>, b: seq<Issue>, f: IdField)
    ensures MissingCount(a + b, f) == MissingCount(a, f) + MissingCount(b, f)
    decreases |b|
  {
    if b == [] {
      assert a + b == a;
    } else {
      assert (a + b)[..|a + b| - 1] == a + b[..|b| - 1];
      assert (a + b)[|a + b| - 1] == b[|b| - 1];
      MissingCountAppend(a, b[..|b| - 1], f);
    }
  }

  /** Errors of other kinds never count as a missing field. */
  lemma {:induction false} OtherErrorsKeepCounts(rest: seq<Issue>, f: IdField)
    requires forall e :: e in rest ==> !e.MissingField?
    ensures MissingCount(rest, f) == 0
    decreases |rest|
  {
    if rest != [] {
      assert forall e :: e in rest[..|rest| - 1] ==> e in rest;
      OtherErrorsKeepCounts(rest[..|rest| - 1], f);
      assert rest[|rest| - 1] in rest;
    }
  }

  /** Each empty identity field is reported exactly once, and a filled one never. */
  lemma FieldErrorCounts(s: MetricSeries, f: IdField)
    ensures MissingCount(FieldErrors(s), f) == if FieldOf(s, f) == "" then 1 else 0
  {
    var a := FieldCheck(s, TenantField);
    var b := FieldCheck(s, ClusterField);
    var c := FieldCheck(s, NodeField);
    var d := FieldCheck(s, MetricField);
    assert FieldErrors(s) == a + b + c + d;
    MissingCountAppend(a, b, f);
    MissingCountAppend(a + b, c, f);
    MissingCountAppend(a + b + c, d, f);
    FieldCheckCount(s, TenantField, f);
    FieldCheckCount(s, ClusterField, f);
    FieldCheckCount(s, NodeField, f);
    FieldCheckCount(s, MetricField, f);
  }

  lemma FieldCheckCount(s: MetricSeries, g: IdField, f: IdField)
    ensures MissingCount(FieldCheck(s, g), f) == if FieldOf(s, g) == "" && g == f then 1 else 0
  {
    if FieldOf(s, g) == "" {
      assert FieldCheck(s, g)[..0] == [];
    }
  }

  /** Only the identity checks report missing fields, so the counts of
      `FieldErrorCounts` hold for the whole error list. */
  lemma MissingFieldCounts(s: MetricSeries, config: ValidatorConfig, f: IdField)
    ensures MissingCount(Validation(s, config).errors, f) == MissingCount(FieldErrors(s), f)
  {
    ErrorsSplit(s, config);
    MissingCountAppend(FieldErrors(s), LaterErrors(s, config), f);
    OtherErrorsKeepCounts(LaterErrors(s, config), f);
  }

  /** The errors after the identity checks. */
  function LaterErrors(s: MetricSeries, config: ValidatorConfig): seq<Issue>
  {
    PresenceErrors(s, config)
    + if HasData(s) then SortErrors(s.timestamps, config) + GapErrors(s.timestamps, |s.timestamps|) else []
  }

  /** The error list is the identity errors followed by errors of other kinds. */
  lemma ErrorsSplit(s: MetricSeries, config: ValidatorConfig)
    ensures Validation(s, config).errors == FieldErrors(s) + LaterErrors(s, config)
    ensures forall e :: e in LaterErrors(s, config) ==> !e.MissingField?
  {
    var ts := s.timestamps;
    var early := EarlyErrors(s, config);
    var later := if HasData(s) then SortErrors(ts, config) + GapErrors(ts, |ts|) else [];
    assert Validation(s, config).errors == early + later by {
      if HasData(s) {
        AppendAssoc(early, SortErrors(ts, config), GapErrors(ts, |ts|));
      }
    }
    AppendAssoc(FieldErrors(s), PresenceErrors(s, config), later);
    GapErrorsOnly(ts, |ts|);
  }

  /** The value warnings follow the metric name and the values alone. */
  lemma ValueWarningRules(s: MetricSeries, config: ValidatorConfig)
    requires HasData(s)
    ensures PercentOutOfRange in Validation(s, config).warnings <==>
      PercentMetric(s.metricName) && OutsidePercent(s.values)
    ensures NegativeCountOrRate in Validation(s, config).warnings <==>
      CountMetric(s.metricName) && AnyNegative(s.values)
  {
    var ts := s.timestamps;
    var gaps := GapWarnings(ts, config.maxGapSeconds, |ts|);
    assert Validation(s, config).warnings == DuplicateWarnings(ts) + gaps + ValueWarnings(s);
    GapWarningsExact(ts, config.maxGapSeconds, |ts|);
    assert PercentOutOfRange !in gaps && NegativeCountOrRate !in gaps;
  }

  /** A series without a tenant id is rejected with exactly that error. */
  lemma MissingTenantExample(t: int)
    ensures
      var s := MetricSeries("", "cluster-1", "node-1", "cpu", [t], [50.0], map[]);
      var r := Validation(s, DefaultValidatorConfig());
      !r.isValid && r.errors == [MissingField(TenantField)]
  {
    var s := MetricSeries("", "cluster-1", "node-1", "cpu", [t], [50.0], map[]);
    assert NonDecreasing(s.timestamps);
  }

  /** A CPU usage of 150% is accepted, with the percentage warning. */
  lemma PercentWarningExample(t: int)
    ensures
      var s := MetricSeries("tenant-1", "cluster-1", "node-1", "cpu_usage_percent", [t], [150.0], map[]);
      var r := Validation(s, DefaultValidatorConfig());
      r.isValid && r.errors == [] && PercentOutOfRange in r.warnings
  {
    var name := "cpu_usage_percent";
    assert name[4..][..5] == "usage";
    assert Contains(name[4..], "usage");
    assert Contains(name[3..], "usage");
    assert Contains(name[2..], "usage");
    assert Contains(name[1..], "usage");
    assert Contains(name, "usage");
    var s := MetricSeries("tenant-1", "cluster-1", "node-1", name, [t], [150.0], map[]);
    assert s.values[0] > 100.0;
    assert OutsidePercent(s.values);
    assert NonDecreasing(s.timestamps);
    ValueWarningRules(s, DefaultValidatorConfig());
  }

  // ---------------------------------------------------------------------------
  // Batches
  // ---------------------------------------------------------------------------

  datatype MessageKind = Errors | Warnings

  /** One line of the batch log: the series' position, node and metric, and its
      errors (for a rejected series) or warnings (for an accepted one). */
  datatype BatchMessage = BatchMessage(index: nat, nodeId: string, metricName: string, kind: MessageKind,
                                       issues: seq<Issue>)

  /** The series accepted by the validator, in input order. */
  function Passing(list: seq<MetricSeries>, config: ValidatorConfig): (r: seq<MetricSeries>)
    decreases |list|
  {
    if list == [] then []
    else
      var s := list[|list| - 1];
      Passing(list[..|list| - 1], config) + (if Validation(s, config).isValid then [s] else [])
  }

  /** The series rejected by the validator, in input order. */
  function Failing(list: seq<MetricSeries>, config: ValidatorConfig): (r: seq<MetricSeries>)
    decreases |list|
  {
    if list == [] then []
    else
      var s := list[|list| - 1];
      Failing(list[..|list| - 1], config) + (if Validation(s, config).isValid then [] else [s])
  }

  /** A series is logged when it is rejected or accepted with warnings. */
  predicate Reported(s: MetricSeries, config: ValidatorConfig)
  {
    !Validation(s, config).isValid || Validation(s, config).warnings != []
  }

  /** The log line for series number `i`, if it is reported. */
  function MessageFor(i: nat, s: MetricSeries, config: ValidatorConfig): seq<BatchMessage>
  {
    var r := Validation(s, config);
    if !r.isValid then [BatchMessage(i, s.nodeId, s.metricName, Errors, r.errors)]
    else if r.warnings != [] then [BatchMessage(i, s.nodeId, s.metricName, Warnings, r.warnings)]
    else []
  }

  function BatchMessages(list: seq<MetricSeries>, config: ValidatorConfig): seq<BatchMessage>
    decreases |list|
  {
    if list == [] then []
    else BatchMessages(list[..|list| - 1], config) + MessageFor(|list| - 1, list[|list| - 1], config)
  }

  /** `validate_batch`. */
  method ValidateBatch(list: seq<MetricSeries>, config: ValidatorConfig)
    returns (valid: seq<MetricSeries>, invalid: seq<MetricSeries>, messages: seq<BatchMessage>)
    ensures valid == Passing(list, config)
    ensures invalid == Failing(list, config)
    ensures messages == BatchMessages(list, config)
  {
    valid, invalid, messages := [], [], [];
    var i := 0;
    while i < |list|
      invariant 0 <= i <= |list|
      invariant valid == Passing(list[..i], config)
      invariant invalid == Failing(list[..i], config)
      invariant messages == BatchMessages(list[..i], config)
    {
      assert list[..i + 1][..i] == list[..i];
      var s := list[i];
      var result := Validate(s, config);
      assert Passing(list[..i + 1], config) == Passing(list[..i], config) + (if result.isValid then [s] else []);
      assert Failing(list[..i + 1], config) == Failing(list[..i], config) + (if result.isValid then [] else [s]);
      assert BatchMessages(list[..i + 1], config) == BatchMessages(list[..i], config) + MessageFor(i, s, config);
      if result.isValid {
        valid := valid + [s];
        if result.warnings != [] {
          messages := messages + [BatchMessage(i, s.nodeId, s.metricName, Warnings, result.warnings)];
        }
      } else {
        invalid := invalid + [s];
        messages := messages + [BatchMessage(i, s.nodeId, s.metricName, Errors, result.errors)];
      }
      i := i + 1;
    }
    assert list[..i] == list;
  }

  /** The batch is split without loss: every series lands in one of the two lists. */
  lemma {:induction false} BatchPartition(list: seq<MetricSeries>, config: ValidatorConfig)
    ensures multiset(Passing(list, config)) + multiset(Failing(list, config)) == multiset(list)
    decreases |list|
  {
    if list != [] {
      var init := list[..|list| - 1];
      var last := list[|list| - 1];
      BatchPartition(init, config);
      MultisetSnoc(list);
      if Validation(last, config).isValid {
        assert Failing(list, config) == Failing(init, config);
        MultisetSnoc(Passing(list, config));
      } else {
        assert Passing(list, config) == Passing(init, config);
        MultisetSnoc(Failing(list, config));
      }
    }
  }

  /** Each list holds only series with its own verdict. */
  lemma {:induction false} BatchVerdicts(list: seq<MetricSeries>, config: ValidatorConfig)
    ensures forall s :: s in Passing(list, config) ==> Validation(s, config).isValid
    ensures forall s :: s in Failing(list, config) ==> !Validation(s, config).isValid
    decreases |list|
  {
    if list != [] {
      var init := list[..|list| - 1];
      BatchVerdicts(init, config);
      var last := list[|list| - 1];
      var ok := Validation(last, config).isValid;
      assert Passing(list, config) == Passing(init, config) + (if ok then [last] else []);
      assert Failing(list, config) == Failing(init, config) + (if ok then [] else [last]);
    }
  }

  /** The log line of a reported series carries its own errors or warnings. */
  predicate MessageFits(m: BatchMessage, s: MetricSeries, config: ValidatorConfig)
  {
    var r := Validation(s, config);
    && m.nodeId == s.nodeId && m.metricName == s.metricName
    && (if r.isValid then m.kind == Warnings && m.issues == r.warnings
        else m.kind == Errors && m.issues == r.errors)
  }

  /** A reported series gets one log line, carrying its position; another gets none. */
  lemma MessageForShape(i: nat, s: MetricSeries, config: ValidatorConfig)
    ensures Reported(s, config) <==> MessageFor(i, s, config) != []
    ensures MessageFor(i, s, config) != [] ==>
      |MessageFor(i, s, config)| == 1 && MessageFor(i, s, config)[0].index == i
      && MessageFits(MessageFor(i, s, config)[0], s, config)
  {
  }

  /** The log lines come in input order, at most one per series. */
  lemma {:induction false} BatchMessagesOrdered(list: seq<MetricSeries>, config: ValidatorConfig)
    ensures forall k :: 0 <= k < |BatchMessages(list, config)| ==> BatchMessages(list, config)[k].index < |list|
    ensures forall k, k' :: 0 <= k < k' < |BatchMessages(list, config)| ==>
      BatchMessages(list, config)[k].index < BatchMessages(list, config)[k'].index
    decreases |list|
  {
    if list != [] {
      var init := list[..|list| - 1];
      BatchMessagesOrdered(init, config);
      MessageForShape(|init|, list[|init|], config);
      var ms, m0 := BatchMessages(init, config), MessageFor(|init|, list[|init|], config);
      assert |m0| <= 1 && forall k :: 0 <= k < |m0| ==> m0[k].index == |init|;
      OrderedAppend(ms, m0, |init|);
      assert BatchMessages(list, config) == ms + m0;
    }
  }

  /** Appending at most one line for position `n` after lines for earlier
      positions keeps the positions strictly increasing. */
  lemma OrderedAppend(ms: seq<BatchMessage>, m0: seq<BatchMessage>, n: nat)
    requires forall k :: 0 <= k < |ms| ==> ms[k].index < n
    requires forall k, k' :: 0 <= k < k' < |ms| ==> ms[k].index < ms[k'].index
    requires |m0| <= 1 && forall k :: 0 <= k < |m0| ==> m0[k].index == n
    ensures forall k :: 0 <= k < |ms + m0| ==> (ms + m0)[k].index < n + 1
    ensures forall k, k' :: 0 <= k < k' < |ms + m0| ==> (ms + m0)[k].index < (ms + m0)[k'].index
  {
  }

  /** Each log line carries the errors or warnings of the series it names. */
  lemma {:induction false} BatchMessagesFit(list: seq<MetricSeries>, config: ValidatorConfig)
    ensures forall k :: 0 <= k < |BatchMessages(list, config)| ==>
      var m := BatchMessages(list, config)[k];
      m.index < |list| && MessageFits(m, list[m.index], config)
    decreases |list|
  {
    if list != [] {
      var init := list[..|list| - 1];
      BatchMessagesFit(init, config);
      var last := list[|init|];
      MessageForShape(|init|, last, config);
      var ms, m0 := BatchMessages(init, config), MessageFor(|init|, last, config);
      var all := BatchMessages(list, config);
      assert all == ms + m0;
      forall k | 0 <= k < |all|
        ensures all[k].index < |list| && MessageFits(all[k], list[all[k].index], config)
      {
        if k < |ms| {
          assert all[k] == ms[k];
          assert list[ms[k].index] == init[ms[k].index];
        } else {
          assert all[k] == m0[0];
        }
      }
    }
  }

  /** Appending the lines of series `n` to those of earlier series leaves the
      earlier series' lines where they are. */
  lemma IndexAfterAppend(ms: seq<BatchMessage>, m0: seq<BatchMessage>, n: nat, i: nat)
    requires forall k :: 0 <= k < |ms| ==> ms[k].index < n
    requires forall k :: 0 <= k < |m0| ==> m0[k].index == n
    requires i <= n
    ensures i < n ==>
      ((exists k :: 0 <= k < |ms + m0| && (ms + m0)[k].index == i) <==> (exists k :: 0 <= k < |ms| && ms[k].index == i))
    ensures i == n ==> ((exists k :: 0 <= k < |ms + m0| && (ms + m0)[k].index == i) <==> m0 != [])
  {
    var all := ms + m0;
    if exists k :: 0 <= k < |all| && all[k].index == i {
      var k :| 0 <= k < |all| && all[k].index == i;
      if k < |ms| {
        assert ms[k].index == i;
      } else {
        assert m0[k - |ms|].index == i;
      }
    }
    if exists k :: 0 <= k < |ms| && ms[k].index == i {
      var k :| 0 <= k < |ms| && ms[k].index == i;
      assert all[k].index == i;
    }
    if m0 != [] {
      assert all[|ms|].index == n;
    }
  }

  /** Exactly the reported series have a log line. */
  lemma {:induction false} BatchMessagesCover(list: seq<MetricSeries>, config: ValidatorConfig)
    ensures forall i :: 0 <= i < |list| ==>
      (Reported(list[i], config) <==> exists k :: 0 <= k < |BatchMessages(list, config)| && BatchMessages(list, config)[k].index == i)
    decreases |list|
  {
    if list != [] {
      var init := list[..|list| - 1];
      BatchMessagesCover(init, config);
      BatchMessagesOrdered(init, config);
      var last := list[|init|];
      MessageForShape(|init|, last, config);
      var ms: seq<BatchMessage> := BatchMessages(init, config);
      var m0: seq<BatchMessage> := MessageFor(|init|, last, config);
      assert BatchMessages(list, config) == ms + m0;
      forall i | 0 <= i < |list|
        ensures Reported(list[i], config) <==> exists k :: 0 <= k < |ms + m0| && (ms + m0)[k].index == i
      {
        IndexAfterAppend(ms, m0, |init|, i);
        if i < |init| {
          assert list[i] == init[i];
        }
      }
    }
  }

  // ---------------------------------------------------------------------------
  // Tenant isolation
  // ---------------------------------------------------------------------------

  /** One error per series of another tenant, with its position, in input order. */
  function IsolationErrors(list: seq<MetricSeries>, expected: string): seq<Issue>
    decreases |list|
  {
    if list == [] then []
    else
      var s := list[|list| - 1];
      IsolationErrors(list[..|list| - 1], expected)
        + (if s.tenantId != expected then [TenantMismatch(|list| - 1, expected, s.tenantId)] else [])
  }

  /** `TenantIsolationValidator.validate_tenant_isolation`. */
  method ValidateTenantIsolation(list: seq<MetricSeries>, expected: string) returns (r: ValidationResult)
    ensures r == ValidationResult(IsolationErrors(list, expected) == [], IsolationErrors(list, expected), [])
  {
    var errors: seq<Issue> := [];
    var i := 0;
    while i < |list|
      invariant 0 <= i <= |list|
      invariant errors == IsolationErrors(list[..i], expected)
    {
      assert list[..i + 1][..i] == list[..i];
      if list[i].tenantId != expected {
        errors := errors + [TenantMismatch(i, expected, list[i].tenantId)];
      }
      i := i + 1;
    }
    assert list[..i] == list;
    r := ValidationResult(|errors| == 0, errors, []);
  }

  /** The isolation errors name exactly the series of other tenants, so the check
      passes exactly when every series belongs to the expected tenant. */
  lemma {:induction false} IsolationExact(list: seq<MetricSeries>, expected: string)
    ensures forall e :: e in IsolationErrors(list, expected) <==>
      exists i :: 0 <= i < |list| && list[i].tenantId != expected && e == TenantMismatch(i, expected, list[i].tenantId)
    ensures IsolationErrors(list, expected) == [] <==> forall i :: 0 <= i < |list| ==> list[i].tenantId == expected
    decreases |list|
  {
    if list != [] {
      var init := list[..|list| - 1];
      IsolationExact(init, expected);
      forall i | 0 <= i < |init| ensures list[i] == init[i] { }
      var errs := IsolationErrors(list, expected);
      if errs != [] {
        assert errs[0] in errs;
      }
    }
  }
}
