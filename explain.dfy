/** The explanation classifier: three statistical detectors (z-score spike,
    half-mean trend, mean-crossing seasonality) behind a score gate, the
    explanation record, the text templates, and the write-back of label and
    description onto the analysed result. */
module Explain {
  import opened Basics
  import opened Types

  // ---------------------------------------------------------------------------
  // Statistics
  // ---------------------------------------------------------------------------

  /** The identity; it keeps the two factors of `Square` apart as terms, which
      the solver's arithmetic handles better than a literal `x * x`. */
  function Twin(x: real): real { x }

  /** x squared. */
  function Square(x: real): (r: real)
    ensures r >= 0.0
    ensures x != 0.0 ==> r > 0.0
  {
    ProductSign(Abs(x), Twin(Abs(x)));
    Abs(x) * Twin(Abs(x))
  }

  /** Squaring is strictly increasing on the non-negative reals. */
  lemma SquareMonotone(a: real, b: real)
    requires a >= 0.0 && b >= 0.0
    ensures a > b <==> Square(a) > Square(b)
  {
    ProductSign(a - b, a + b);
    ProductSign(b - a, a + b);
    assert Square(a) == a * a;
    assert Square(b) == b * b;
  }

  lemma SquareProduct(a: real, b: real)
    requires a >= 0.0 && b >= 0.0
    ensures Square(a * b) == Square(a) * Square(b)
  {
    ProductSign(a, b);
    assert Square(a * b) == (a * b) * (a * b);
    assert Square(a) == a * a;
    assert Square(b) == b * b;
  }

  /** Sum of squared deviations from `m`. */
  function SumSqDev(vs: seq<real>, m: real): (r: real)
    ensures r >= 0.0
    decreases |vs|
  {
    if vs == [] then 0.0
    else SumSqDev(vs[..|vs| - 1], m) + Square(vs[|vs| - 1] - m)
  }

  /** The squared deviations sum to zero exactly when every value equals `m`. */
  lemma {:induction false} SumSqDevZero(vs: seq<real>, m: real)
    ensures SumSqDev(vs, m) == 0.0 <==> forall i :: 0 <= i < |vs| ==> vs[i] == m
    decreases |vs|
  {
    if vs != [] {
      var init := vs[..|vs| - 1];
      SumSqDevZero(init, m);
      var d := vs[|vs| - 1] - m;
      if forall i :: 0 <= i < |init| ==> init[i] == m {
        if d == 0.0 {
          forall i | 0 <= i < |vs| ensures vs[i] == m {
            if i < |init| { assert vs[i] == init[i]; }
          }
        }
      } else {
        var i :| 0 <= i < |init| && init[i] != m;
        assert vs[i] == init[i];
      }
    }
  }

  /** `statistics.variance`: the sample variance (divisor n - 1). */
  function SampleVariance(vs: seq<real>): (v: real)
    requires |vs| >= 2
    ensures v >= 0.0
  {
    SumSqDev(vs, Mean(vs)) / ((|vs| - 1) as real)
  }

  /** The sample variance (and so the standard deviation) is zero exactly for a
      constant series. */
  lemma VarianceZeroIffConstant(vs: seq<real>)
    requires |vs| >= 2
    ensures SampleVariance(vs) == 0.0 <==> forall i :: 0 <= i < |vs| ==> vs[i] == vs[0]
  {
    var m := Mean(vs);
    SumSqDevZero(vs, m);
    if forall i :: 0 <= i < |vs| ==> vs[i] == vs[0] {
      SumConstant(vs, vs[0]);
      assert m == vs[0];
    }
  }

  /** Index of the first value whose distance from `b` is largest: the element
      `max(values, key=lambda x: abs(x - b))` returns. */
  function MaxDevIndex(vs: seq<real>, b: real): (k: nat)
    requires |vs| > 0
    ensures k < |vs|
    ensures forall j :: 0 <= j < |vs| ==> Abs(vs[j] - b) <= Abs(vs[k] - b)
    ensures forall j :: 0 <= j < k ==> Abs(vs[j] - b) < Abs(vs[k] - b)
    decreases |vs|
  {
    if |vs| == 1 then 0
    else
      var k := MaxDevIndex(vs[..|vs| - 1], b);
      if Abs(vs[|vs| - 1] - b) > Abs(vs[k] - b) then |vs| - 1 else k
  }

  // ---------------------------------------------------------------------------
  // Detectors
  // ---------------------------------------------------------------------------

  /** `SpikeDetector.is_spike`. The z-score test `|x - baseline| / stdev > t` is
      stated without the square root: for stdev > 0 it is `d² > t² · variance`
      when t >= 0, and always true when t < 0 (see `SpikeByZScore`). */
  predicate IsSpike(vs: seq<real>, baseline: real, threshold: real)
    ensures IsSpike(vs, baseline, threshold) ==> |vs| >= 3 && SampleVariance(vs) > 0.0
    ensures |vs| >= 3 && threshold < 0.0 ==> (IsSpike(vs, baseline, threshold) <==> SampleVariance(vs) > 0.0)
  {
    if |vs| < 3 then false
    else ZScoreExceeds(PeakDeviation(vs, baseline), SampleVariance(vs), threshold)
  }

  /** The largest distance of a value from `baseline`. */
  function PeakDeviation(vs: seq<real>, baseline: real): (d: real)
    requires |vs| > 0
    ensures d >= 0.0 && forall i :: 0 <= i < |vs| ==> Abs(vs[i] - baseline) <= d
  {
    Abs(vs[MaxDevIndex(vs, baseline)] - baseline)
  }

  /** `d / stdev > t` for the stdev whose square is `variance`; false for a zero variance. */
  predicate ZScoreExceeds(d: real, variance: real, threshold: real)
  {
    variance != 0.0 && (threshold < 0.0 || Square(d) > Square(threshold) * variance)
  }

  /** With `sd` the sample standard deviation, `IsSpike` is exactly the source's
      z-score comparison on the first value of maximal deviation. */
  lemma SpikeByZScore(vs: seq<real>, baseline: real, threshold: real, sd: real)
    requires |vs| >= 3 && sd > 0.0 && Square(sd) == SampleVariance(vs)
    ensures IsSpike(vs, baseline, threshold) <==> PeakDeviation(vs, baseline) / sd > threshold
  {
    ZScoreSquared(PeakDeviation(vs, baseline), threshold, sd, SampleVariance(vs));
  }

  lemma ScaleStrict(c: real, x: real, y: real)
    requires c > 0.0 && x > y
    ensures x * c > y * c
  {
  }

  /** Comparing a quotient is comparing the dividend with the scaled bound. */
  lemma QuotientAbove(d: real, sd: real, t: real)
    requires sd > 0.0
    ensures d / sd > t <==> d > t * sd
  {
    var z := d / sd;
    assert z * sd == d;
    if z > t {
      ScaleStrict(sd, z, t);
    } else if z < t {
      ScaleStrict(sd, t, z);
    }
  }

  /** For d >= 0 and sd > 0 with sd² = v: d / sd > t exactly when t < 0 or d² > t² · v. */
  lemma ZScoreSquared(d: real, t: real, sd: real, v: real)
    requires d >= 0.0 && sd > 0.0 && Square(sd) == v
    ensures (t < 0.0 || Square(d) > Square(t) * v) <==> d / sd > t
  {
    QuotientAbove(d, sd, t);
    if t >= 0.0 {
      ProductSign(t, sd);
      SquareMonotone(d, t * sd);
      SquareProduct(t, sd);
    } else {
      ProductSign(-t, sd);
      assert t * sd == -((-t) * sd);
    }
  }

  /** A spike needs at least three values and some variation. */
  lemma SpikeNeedsVariation(vs: seq<real>, baseline: real, threshold: real)
    requires IsSpike(vs, baseline, threshold)
    ensures |vs| >= 3 && exists i :: 0 <= i < |vs| && vs[i] != vs[0]
  {
    VarianceZeroIffConstant(vs);
  }

  datatype Direction = Up | Down
  {
    /** The string `detect_trend` returns. */
    function Name(): string
    {
      if this == Up then "up" else "down"
    }
  }

  /** `TrendDetector.detect_trend`: compares the means of the halves split at n // 2;
      the change must exceed 5% of the first half's mean (0.05 when that mean is 0). */
  function DetectTrend(vs: seq<real>): (r: Option<Direction>)
    ensures |vs| < 4 ==> r == None
  {
    if |vs| < 4 then None
    else
      var mid := |vs| / 2;
      var first := Mean(vs[..mid]);
      var second := Mean(vs[mid..]);
      var diff := second - first;
      var threshold := if first != 0.0 then 0.05 * Abs(first) else 0.05;
      if Abs(diff) > threshold then Some(if diff > 0.0 then Up else Down) else None
  }

  /** The trend direction is the sign of the change between the half means. */
  lemma TrendDirection(vs: seq<real>)
    requires DetectTrend(vs).Some?
    ensures |vs| >= 4
    ensures DetectTrend(vs).value == Up <==> Mean(vs[|vs| / 2..]) > Mean(vs[..|vs| / 2])
    ensures DetectTrend(vs).value == Down <==> Mean(vs[|vs| / 2..]) < Mean(vs[..|vs| / 2])
  {
  }

  /** Number of consecutive pairs on opposite sides of `m`. */
  function Crossings(vs: seq<real>, m: real): (r: nat)
    ensures |vs| > 0 ==> r < |vs|
    decreases |vs|
  {
    if |vs| < 2 then 0
    else
      var n := |vs|;
      Crossings(vs[..n - 1], m) + (if (vs[n - 2] - m) * (vs[n - 1] - m) < 0.0 then 1 else 0)
  }

  /** A series that never goes below `m` (or never above it) never crosses it. */
  lemma {:induction false} CrossingsOneSided(vs: seq<real>, m: real)
    requires (forall i :: 0 <= i < |vs| ==> vs[i] >= m) || (forall i :: 0 <= i < |vs| ==> vs[i] <= m)
    ensures Crossings(vs, m) == 0
    decreases |vs|
  {
    if |vs| >= 2 {
      var n := |vs|;
      var init := vs[..n - 1];
      assert forall i :: 0 <= i < |init| ==> init[i] == vs[i];
      CrossingsOneSided(init, m);
      var a, b := vs[n - 2] - m, vs[n - 1] - m;
      if a >= 0.0 && b >= 0.0 {
        assert a * b >= 0.0;
      } else {
        assert a <= 0.0 && b <= 0.0;
        assert a * b == (-a) * (-b) >= 0.0;
      }
    }
  }

  /** `SeasonalityDetector.detect_seasonality`: at least six values and at least
      three crossings of the mean. */
  predicate DetectSeasonality(vs: seq<real>)
    ensures DetectSeasonality(vs) ==> |vs| >= 6 && SampleVariance(vs) > 0.0
  {
    if |vs| < 6 then false
    else
      CrossingsTwoSided(vs, Mean(vs));
      VarianceZeroIffConstant(vs);
      Crossings(vs, Mean(vs)) >= 3
  }

  /** A series that crosses `m` has values on both sides of it. */
  lemma CrossingsTwoSided(vs: seq<real>, m: real)
    ensures Crossings(vs, m) > 0 ==>
      (exists i :: 0 <= i < |vs| && vs[i] > m) && (exists j :: 0 <= j < |vs| && vs[j] < m)
  {
    if (forall i :: 0 <= i < |vs| ==> vs[i] <= m) || (forall i :: 0 <= i < |vs| ==> vs[i] >= m) {
      CrossingsOneSided(vs, m);
    }
  }

  // ---------------------------------------------------------------------------
  // Classification
  // ---------------------------------------------------------------------------

  /** The detector chain of `classify`: only a score of at least 0.5 is classified;
      spike, trend and seasonality are tried in that order, and spike is the
      fall-back when none fires. */
  function ClassifyType(vs: seq<real>, score: real): (t: Label)
    requires |vs| > 0
    ensures t == Normal <==> score < 0.5
    ensures t == Trend ==> DetectTrend(vs).Some?
    ensures t == Seasonal ==> DetectSeasonality(vs)
  {
    if score >= 0.5 then
      if IsSpike(vs, Mean(vs), 2.0) then Spike
      else if DetectTrend(vs).Some? then Trend
      else if DetectSeasonality(vs) then Seasonal
      else Spike
    else Normal
  }

  /** The order of the chain: a spike wins over a trend, a trend over seasonality,
      and a flagged series no detector recognises is a spike. */
  lemma ClassifyPrecedence(vs: seq<real>, score: real)
    requires |vs| > 0
    ensures score >= 0.5 && IsSpike(vs, Mean(vs), 2.0) ==> ClassifyType(vs, score) == Spike
    ensures ClassifyType(vs, score) == Trend ==> score >= 0.5 && !IsSpike(vs, Mean(vs), 2.0)
    ensures ClassifyType(vs, score) == Seasonal ==>
      score >= 0.5 && !IsSpike(vs, Mean(vs), 2.0) && DetectTrend(vs).None?
    ensures score >= 0.5 && !IsSpike(vs, Mean(vs), 2.0) && DetectTrend(vs).None? && !DetectSeasonality(vs)
            ==> ClassifyType(vs, score) == Spike
    ensures score >= 0.5 && !IsSpike(vs, Mean(vs), 2.0) && DetectTrend(vs).Some? ==> ClassifyType(vs, score) == Trend
  {
  }

  /** The mean of a constant sequence is that constant. */
  lemma MeanConstant(vs: seq<real>, c: real)
    requires |vs| > 0 && forall i :: 0 <= i < |vs| ==> vs[i] == c
    ensures Mean(vs) == c
  {
    SumConstant(vs, c);
  }

  /** No detector fires on a constant series, so a flagged constant series is a
      spike by the fall-back rule. */
  lemma ConstantFlaggedIsSpike(vs: seq<real>, score: real)
    requires |vs| > 0 && forall i :: 0 <= i < |vs| ==> vs[i] == vs[0]
    requires score >= 0.5
    ensures !IsSpike(vs, Mean(vs), 2.0) && DetectTrend(vs) == None && !DetectSeasonality(vs)
    ensures ClassifyType(vs, score) == Spike
  {
    var c := vs[0];
    MeanConstant(vs, c);
    if |vs| >= 2 {
      VarianceZeroIffConstant(vs);
    }
    if |vs| >= 4 {
      var mid := |vs| / 2;
      MeanConstant(vs[..mid], c);
      MeanConstant(vs[mid..], c);
    }
    CrossingsOneSided(vs, c);
  }

  // ---------------------------------------------------------------------------
  // Mirror symmetry: negating every value keeps the classification
  // ---------------------------------------------------------------------------

  function Negate(vs: seq<real>): (r: seq<real>)
    ensures |r| == |vs| && forall i :: 0 <= i < |vs| ==> r[i] == -vs[i]
  {
    seq(|vs|, i requires 0 <= i < |vs| => -vs[i])
  }

  lemma {:induction false} SumNegate(vs: seq<real>)
    ensures Sum(Negate(vs)) == -Sum(vs)
    decreases |vs|
  {
    if vs != [] {
      assert Negate(vs)[..|vs| - 1] == Negate(vs[..|vs| - 1]);
      SumNegate(vs[..|vs| - 1]);
    }
  }

  lemma MeanNegate(vs: seq<real>)
    requires |vs| > 0
    ensures Mean(Negate(vs)) == -Mean(vs)
  {
    SumNegate(vs);
  }

  lemma {:induction false} SumSqDevNegate(vs: seq<real>, m: real)
    ensures SumSqDev(Negate(vs), -m) == SumSqDev(vs, m)
    decreases |vs|
  {
    if vs != [] {
      var x := vs[|vs| - 1];
      assert Negate(vs)[..|vs| - 1] == Negate(vs[..|vs| - 1]);
      SumSqDevNegate(vs[..|vs| - 1], m);
      assert (-x - -m) * (-x - -m) == (x - m) * (x - m);
    }
  }

  lemma VarianceNegate(vs: seq<real>)
    requires |vs| >= 2
    ensures SampleVariance(Negate(vs)) == SampleVariance(vs)
  {
    MeanNegate(vs);
    SumSqDevNegate(vs, Mean(vs));
  }

  lemma {:induction false} MaxDevIndexNegate(vs: seq<real>, b: real)
    requires |vs| > 0
    ensures MaxDevIndex(Negate(vs), -b) == MaxDevIndex(vs, b)
  {
    // Mirroring keeps every distance; the first farthest index is then the same.
    var k, m := MaxDevIndex(vs, b), MaxDevIndex(Negate(vs), -b);
    assert Abs(Negate(vs)[k] - -b) == Abs(vs[k] - b);
    assert Abs(Negate(vs)[m] - -b) == Abs(vs[m] - b);
  }

  lemma {:induction false} CrossingsNegate(vs: seq<real>, m: real)
    ensures Crossings(Negate(vs), -m) == Crossings(vs, m)
    decreases |vs|
  {
    if |vs| >= 2 {
      var n := |vs|;
      assert Negate(vs)[..n - 1] == Negate(vs[..n - 1]);
      CrossingsNegate(vs[..n - 1], m);
      var a, b := vs[n - 2] - m, vs[n - 1] - m;
      assert Negate(vs)[n - 2] - -m == -a && Negate(vs)[n - 1] - -m == -b;
      NegProduct(a, b);
    }
  }

  lemma NegProduct(a: real, b: real)
    ensures (-a) * (-b) == a * b
  {
  }

  lemma SpikeNegate(vs: seq<real>, baseline: real, threshold: real)
    ensures IsSpike(Negate(vs), -baseline, threshold) == IsSpike(vs, baseline, threshold)
  {
    if |vs| >= 3 {
      VarianceNegate(vs);
      MaxDevIndexNegate(vs, baseline);
      var k := MaxDevIndex(vs, baseline);
      assert Negate(vs)[k] - -baseline == -(vs[k] - baseline);
      assert PeakDeviation(Negate(vs), -baseline) == PeakDeviation(vs, baseline);
    }
  }

  function Flip(d: Option<Direction>): Option<Direction>
  {
    match d
    case None => None
    case Some(Up) => Some(Down)
    case Some(Down) => Some(Up)
  }

  lemma TrendNegate(vs: seq<real>)
    ensures DetectTrend(Negate(vs)) == Flip(DetectTrend(vs))
  {
    if |vs| >= 4 {
      var mid := |vs| / 2;
      assert Negate(vs)[..mid] == Negate(vs[..mid]);
      assert Negate(vs)[mid..] == Negate(vs[mid..]);
      MeanNegate(vs[..mid]);
      MeanNegate(vs[mid..]);
    }
  }

  lemma SeasonalityNegate(vs: seq<real>)
    ensures DetectSeasonality(Negate(vs)) == DetectSeasonality(vs)
  {
    if |vs| >= 6 {
      MeanNegate(vs);
      CrossingsNegate(vs, Mean(vs));
    }
  }

  /** Mirroring a series about zero changes no classification: each detector
      fires on the mirror exactly when it fires on the original (a trend with
      the opposite direction). */
  lemma ClassifyMirror(vs: seq<real>, score: real)
    requires |vs| > 0
    ensures ClassifyType(Negate(vs), score) == ClassifyType(vs, score)
  {
    MeanNegate(vs);
    SpikeNegate(vs, Mean(vs), 2.0);
    assert IsSpike(Negate(vs), Mean(Negate(vs)), 2.0) == IsSpike(vs, Mean(vs), 2.0);
    TrendNegate(vs);
    assert DetectTrend(Negate(vs)).Some? == DetectTrend(vs).Some?;
    SeasonalityNegate(vs);
  }

  lemma {:induction false} SumSqDevConstant(vs: seq<real>, c: real, m: real)
    requires forall i :: 0 <= i < |vs| ==> vs[i] == c
    ensures SumSqDev(vs, m) == (|vs| as real) * Square(c - m)
    decreases |vs|
  {
    if vs != [] {
      SumSqDevConstant(vs[..|vs| - 1], c, m);
    }
  }

  /** Five steady readings and one jump: the jump is more than two standard
      deviations away from the mean, so a flagged result is a spike. */
  lemma SpikeExample()
    ensures IsSpike([50.0, 50.0, 50.0, 50.0, 50.0, 95.0], Mean([50.0, 50.0, 50.0, 50.0, 50.0, 95.0]), 2.0)
    ensures ClassifyType([50.0, 50.0, 50.0, 50.0, 50.0, 95.0], 0.9) == Spike
  {
    var vs := [50.0, 50.0, 50.0, 50.0, 50.0, 95.0];
    var steady := vs[..5];
    assert forall i :: 0 <= i < |steady| ==> steady[i] == 50.0;
    SumConstant(steady, 50.0);
    assert Sum(vs) == Sum(steady) + 95.0;
    assert Mean(vs) == 57.5;
    SumSqDevConstant(steady, 50.0, 57.5);
    assert Square(50.0 - 57.5) == 56.25;
    assert Square(95.0 - 57.5) == 1406.25;
    assert SumSqDev(vs, 57.5) == SumSqDev(steady, 57.5) + Square(95.0 - 57.5);
    assert SampleVariance(vs) == 337.5;
    var k := MaxDevIndex(steady, 57.5);
    assert Abs(steady[k] - 57.5) == 7.5;
    assert MaxDevIndex(vs, 57.5) == 5;
    assert Square(2.0) == 4.0;
  }

  // ---------------------------------------------------------------------------
  // Explanations and templates
  // ---------------------------------------------------------------------------

  /** `AnomalyExplanation` (its always-empty `additional_context` is not modelled). */
  datatype Explanation = Explanation(
    anomalyType: Label,
    baseline: Option<real>,
    observed: Option<real>,
    deviationPercent: Option<real>,
    confidence: real,
    severity: real,
    description: string)
  {
    /** `is_critical`. */
    predicate IsCritical()
      ensures IsCritical() <==> severity >= 0.7 && confidence >= 0.6
    {
      severity >= 0.7 && confidence >= 0.6
    }
  }

  /** An argument handed to `str.format`. */
  datatype FormatArg = NumArg(x: real) | StrArg(s: string) | NoneArg

  /** How a number or string is rendered under a format spec such as ".2f";
      `None` stands for the `ValueError` of a spec the value does not accept. */
  type Formatter = (FormatArg, string) -> Option<string>

  /** A template: literal text and `{key:spec}` replacement fields. */
  datatype Piece = Lit(text: string) | Field(key: string, spec: string)

  datatype Template = Template(anomalyType: Label, pieces: seq<Piece>)

  /** `IndexError` is what `format` raises for a positional field (`{}` or `{0}`),
      since `render` passes keyword arguments only. */
  datatype RenderFailure = KeyError(key: string) | ValueError | TypeError | IndexError

  /** A field name `format` reads as a positional index: empty (automatic
      numbering) or all decimal digits. */
  predicate PositionalKey(k: string)
  {
    k == "" || AllDigits(k)
  }

  predicate AllDigits(k: string)
  {
    k == "" || (IsDigit(k[0]) && AllDigits(k[1..]))
  }

  predicate IsDigit(c: char)
  {
    '0' <= c <= '9'
  }

  /** Every replacement field of the pieces is named by a keyword. */
  predicate KeywordFields(pieces: seq<Piece>)
  {
    forall i :: 0 <= i < |pieces| && pieces[i].Field? ==> !PositionalKey(pieces[i].key)
  }

  /** The template string itself. */
  function SourceText(pieces: seq<Piece>): string
  {
    if pieces == [] then ""
    else
      var head := match pieces[0]
        case Lit(t) => t
        case Field(k, spec) => "{" + k + (if spec == "" then "" else ":" + spec) + "}";
      head + SourceText(pieces[1..])
  }

  /** The keyword arguments `render` passes to `format`. */
  function FieldArg(ex: Explanation, key: string): Option<FormatArg>
  {
    if key == "baseline" then Some(ArgOf(ex.baseline))
    else if key == "observed" then Some(ArgOf(ex.observed))
    else if key == "deviation_percent" then Some(ArgOf(ex.deviationPercent))
    else if key == "type" then Some(StrArg(ex.anomalyType.Name()))
    else None
  }

  function ArgOf(v: Option<real>): FormatArg
  {
    if v.Some? then NumArg(v.value) else NoneArg
  }

  /** Formatting one argument. `None` prints as "None" under an empty spec and
      raises `TypeError` under any other. */
  function FormatOne(arg: FormatArg, spec: string, fmt: Formatter): Result<string, RenderFailure>
  {
    if arg == NoneArg then (if spec == "" then Ok("None") else Err(TypeError))
    else
      match fmt(arg, spec)
      case Some(s) => Ok(s)
      case None => Err(ValueError)
  }

  /** `str.format` over the pieces, left to right, stopping at the first failure. */
  function Fill(pieces: seq<Piece>, ex: Explanation, fmt: Formatter): Result<string, RenderFailure>
  {
    if pieces == [] then Ok("")
    else
      var head := match pieces[0]
        case Lit(t) => Ok(t)
        case Field(k, spec) =>
          if PositionalKey(k) then Err(IndexError)
          else
            match FieldArg(ex, k)
            case None => Err(KeyError(k))
            case Some(a) => FormatOne(a, spec, fmt);
      if head.Err? then head
      else
        match Fill(pieces[1..], ex, fmt)
        case Err(e) => Err(e)
        case Ok(rest) => Ok(head.value + rest)
  }

  /** `ExplanationTemplate.render`: a `KeyError` or `ValueError` gives back the
      template string unchanged; a `TypeError` or `IndexError` propagates. */
  function Render(t: Template, ex: Explanation, fmt: Formatter): (r: Result<string, RenderFailure>)
    ensures r.Err? ==> r.error == TypeError || r.error == IndexError
  {
    match Fill(t.pieces, ex, fmt)
    case Ok(s) => Ok(s)
    case Err(TypeError) => Err(TypeError)
    case Err(IndexError) => Err(IndexError)
    case Err(_) => Ok(SourceText(t.pieces))
  }

  predicate AllLiteral(pieces: seq<Piece>)
  {
    forall i :: 0 <= i < |pieces| ==> pieces[i].Lit?
  }

  /** A template without fields renders to its own text. */
  lemma {:induction false} FillLiteral(pieces: seq<Piece>, ex: Explanation, fmt: Formatter)
    requires AllLiteral(pieces)
    ensures Fill(pieces, ex, fmt) == Ok(SourceText(pieces))
    decreases |pieces|
  {
    if pieces != [] {
      FillLiteral(pieces[1..], ex, fmt);
    }
  }

  /** Whether a field can raise `TypeError`: it names a value that is absent and
      asks for a non-empty spec. */
  predicate TypeErrorFree(pieces: seq<Piece>, ex: Explanation)
  {
    forall i :: 0 <= i < |pieces| && pieces[i].Field? && pieces[i].spec != "" ==>
      FieldArg(ex, pieces[i].key) != Some(NoneArg)
  }

  /** Fields whose values are present never raise `TypeError`, and keyword
      fields never raise `IndexError`. */
  lemma {:induction false} FillNoTypeError(pieces: seq<Piece>, ex: Explanation, fmt: Formatter)
    requires TypeErrorFree(pieces, ex)
    ensures Fill(pieces, ex, fmt) != Err(TypeError)
    ensures KeywordFields(pieces) ==> Fill(pieces, ex, fmt) != Err(IndexError)
    decreases |pieces|
  {
    if pieces != [] {
      forall i | 0 <= i < |pieces[1..]| ensures pieces[1..][i] == pieces[i + 1] { }
      FillNoTypeError(pieces[1..], ex, fmt);
    }
  }

  /** A positional field after literal text only makes `render` raise `IndexError`. */
  lemma {:induction false} RenderPositional(t: Template, ex: Explanation, fmt: Formatter, j: nat)
    requires j < |t.pieces| && t.pieces[j].Field? && PositionalKey(t.pieces[j].key)
    requires forall i :: 0 <= i < j ==> t.pieces[i].Lit?
    ensures Render(t, ex, fmt) == Err(IndexError)
  {
    FillPositional(t.pieces, ex, fmt, j);
  }

  lemma {:induction false} FillPositional(pieces: seq<Piece>, ex: Explanation, fmt: Formatter, j: nat)
    requires j < |pieces| && pieces[j].Field? && PositionalKey(pieces[j].key)
    requires forall i :: 0 <= i < j ==> pieces[i].Lit?
    ensures Fill(pieces, ex, fmt) == Err(IndexError)
    decreases j
  {
    if j > 0 {
      assert pieces[1..][j - 1] == pieces[j];
      FillPositional(pieces[1..], ex, fmt, j - 1);
    }
  }

  /** A field whose key `render` does not supply makes `Fill` fail without `TypeError`. */
  lemma {:induction false} FillUnknownKey(pieces: seq<Piece>, ex: Explanation, fmt: Formatter, j: nat)
    requires TypeErrorFree(pieces, ex)
    requires j < |pieces| && pieces[j].Field? && FieldArg(ex, pieces[j].key).None?
    ensures Fill(pieces, ex, fmt).Err? && Fill(pieces, ex, fmt) != Err(TypeError)
    decreases |pieces|
  {
    FillNoTypeError(pieces, ex, fmt);
    if j > 0 {
      assert TypeErrorFree(pieces[1..], ex) by {
        forall i | 0 <= i < |pieces[1..]| ensures pieces[1..][i] == pieces[i + 1] { }
      }
      FillUnknownKey(pieces[1..], ex, fmt, j - 1);
    }
  }

  /** A keyword template naming a key `render` does not supply comes back unchanged. */
  lemma RenderUnknownKey(t: Template, ex: Explanation, fmt: Formatter, j: nat)
    requires TypeErrorFree(t.pieces, ex) && KeywordFields(t.pieces)
    requires j < |t.pieces| && t.pieces[j].Field? && FieldArg(ex, t.pieces[j].key).None?
    ensures Render(t, ex, fmt) == Ok(SourceText(t.pieces))
  {
    FillUnknownKey(t.pieces, ex, fmt, j);
    FillNoTypeError(t.pieces, ex, fmt);
  }

  /** Explanations with baseline, observed and deviation all present never make
      `render` raise. */
  lemma RenderFullyStated(t: Template, ex: Explanation, fmt: Formatter)
    requires KeywordFields(t.pieces)
    requires ex.baseline.Some? && ex.observed.Some? && ex.deviationPercent.Some?
    ensures Render(t, ex, fmt).Ok?
  {
    FillNoTypeError(t.pieces, ex, fmt);
  }

  /** `ExplanationTemplateRegistry._templates`: the template for each label. Its
      templates name their fields by keyword, as the program's own do. */
  type Registry = r: map<Label, Template> | KeywordRegistry(r) witness map[]

  predicate KeywordRegistry(r: map<Label, Template>)
  {
    forall t :: t in r ==> KeywordFields(r[t].pieces)
  }

  /** The registry's four templates. */
  function DefaultTemplates(): Registry
  {
    map t | t in {Spike, Trend, Seasonal, Normal} :: DefaultTemplate(t)
  }

  /** The template the registry defines for label `t`. */
  function DefaultTemplate(t: Label): (r: Template)
    ensures r.anomalyType == t && KeywordFields(r.pieces)
  {
    match t
    case Spike => SpikeTemplate()
    case Trend => TrendTemplate()
    case Seasonal => SeasonalTemplate()
    case Normal => NormalTemplate()
  }

  function SpikeTemplate(): (t: Template)
    ensures t.anomalyType == Spike && KeywordFields(t.pieces)
  {
    Template(Spike, [
      Lit(SpikeText0), Field("observed", ".2f"), Lit(SpikeText1), Field("deviation_percent", ".1f"),
      Lit(SpikeText2), Field("baseline", ".2f"), Lit(SpikeText3)])
  }

  const SpikeText0 := "Spike detected: value jumped to "
  const SpikeText1 := " ("
  const SpikeText2 := "% deviation from baseline "
  const SpikeText3 := "). This represents a sudden, temporary abnormality."

  function TrendTemplate(): (t: Template)
    ensures t.anomalyType == Trend && KeywordFields(t.pieces)
  {
    Template(Trend, [
      Lit(TrendText0), Field("observed", ".2f"), Lit(TrendText1), Field("deviation_percent", ".1f"),
      Lit(TrendText2), Field("baseline", ".2f"), Lit(".")])
  }

  const TrendText0 := "Trend detected: metric shows sustained directional change. Current peak "
  const TrendText1 := " deviates "
  const TrendText2 := "% from expected "

  function SeasonalTemplate(): (t: Template)
    ensures t.anomalyType == Seasonal && KeywordFields(t.pieces)
  {
    Template(Seasonal, [
      Lit(SeasonalText0), Field("observed", ".2f"), Lit(SeasonalText1), Field("baseline", ".2f"), Lit(", "),
      Field("deviation_percent", ".1f"), Lit("% off).")])
  }

  const SeasonalText0 := "Seasonal anomaly: cycle deviation detected. Value "
  const SeasonalText1 := " breaks expected pattern (baseline "

  function NormalTemplate(): (t: Template)
    ensures t.anomalyType == Normal && KeywordFields(t.pieces)
  {
    Template(Normal, [Lit(NormalText0), Field("observed", ".2f"), Lit(NormalText1)])
  }

  const NormalText0 := "No anomaly detected. Value "
  const NormalText1 := " is within normal range."

  /** `get_template`: the registered template, or "Anomaly detected." for a type
      without one. */
  function GetTemplate(registry: map<Label, Template>, t: Label): (r: Template)
    ensures r.anomalyType == t || (t in registry && r == registry[t])
    ensures KeywordRegistry(registry) ==> KeywordFields(r.pieces)
  {
    if t in registry then registry[t] else Template(t, [Lit("Anomaly detected.")])
  }

  /** A type without a registered template renders "Anomaly detected.". */
  lemma UnregisteredType(registry: map<Label, Template>, t: Label, ex: Explanation, fmt: Formatter)
    requires t !in registry
    ensures Render(GetTemplate(registry, t), ex, fmt) == Ok("Anomaly detected.")
  {
    var pieces := [Lit("Anomaly detected.")];
    FillLiteral(pieces, ex, fmt);
    assert pieces[1..] == [];
    assert SourceText(pieces) == "Anomaly detected." + "" == "Anomaly detected.";
    assert GetTemplate(registry, t).pieces == pieces;
  }

  /** Every label has its own registered template, so the fall-back text is never
      used by the classifier. */
  lemma RegistryComplete(t: Label)
    ensures t in DefaultTemplates()
    ensures GetTemplate(DefaultTemplates(), t) == DefaultTemplates()[t]
    ensures GetTemplate(DefaultTemplates(), t).anomalyType == t
  {
  }

  /** The observed value's departure from the baseline, in percent of the
      baseline; 0 for a zero baseline. */
  function DeviationPercent(observed: real, baseline: real): (r: real)
    ensures baseline == 0.0 ==> r == 0.0
    ensures baseline != 0.0 ==> r * baseline == (observed - baseline) * 100.0
  {
    if baseline != 0.0 then (observed - baseline) / baseline * 100.0 else 0.0
  }

  /** `classify` on the values `vs` of a series and the engine's result. */
  function Explain(vs: seq<real>, result: AnomalyResult, templates: Registry, fmt: Formatter)
    : (ex: Explanation)
    ensures |vs| == 0 ==> ex == Explanation(Normal, None, None, None, 0.5, 0.5, "")
    ensures |vs| > 0 ==>
      && ex.baseline == Some(Mean(vs))
      && ex.observed.Some? && ex.observed.value in vs
      && ex.deviationPercent == Some(DeviationPercent(ex.observed.value, Mean(vs)))
      && (forall i :: 0 <= i < |vs| ==> Abs(vs[i] - Mean(vs)) <= Abs(ex.observed.value - Mean(vs)))
      && (ex.anomalyType == Normal <==> result.score < 0.5)
      && ex.confidence == result.score
      && (result.Valid() ==> 0.0 <= ex.severity <= 1.0)
      && ex.anomalyType == ClassifyType(vs, result.score)
      && ex.observed == Some(vs[MaxDevIndex(vs, Mean(vs))])
      && Render(GetTemplate(templates, ex.anomalyType), ex.(description := ""), fmt) == Ok(ex.description)
  {
    if |vs| == 0 then Explanation(Normal, None, None, None, 0.5, 0.5, "")
    else
      var baseline := Mean(vs);
      var observed := vs[MaxDevIndex(vs, baseline)];
      var deviation := DeviationPercent(observed, baseline);
      var t := ClassifyType(vs, result.score);
      var severity := if result.magnitude.Some? && result.magnitude.value != 0.0
                      then result.magnitude.value else result.score;
      var bare := Explanation(t, Some(baseline), Some(observed), Some(deviation),
                              result.score, severity, "");
      var template := GetTemplate(templates, t);
      RenderFullyStated(template, bare, fmt);
      bare.(description := Render(template, bare, fmt).value)
  }

  /** Severity is the magnitude when it is present and non-zero, the score otherwise. */
  lemma SeverityRule(vs: seq<real>, result: AnomalyResult, templates: Registry, fmt: Formatter)
    requires |vs| > 0
    ensures result.magnitude == Some(0.0) ==> Explain(vs, result, templates, fmt).severity == result.score
    ensures result.magnitude.None? ==> Explain(vs, result, templates, fmt).severity == result.score
    ensures result.magnitude.Some? && result.magnitude.value != 0.0 ==>
            Explain(vs, result, templates, fmt).severity == result.magnitude.value
  {
  }

  /** A critical explanation is never "normal": criticality needs confidence 0.6,
      which passes the 0.5 gate. */
  lemma CriticalIsFlagged(vs: seq<real>, result: AnomalyResult, templates: Registry, fmt: Formatter)
    requires |vs| > 0 && Explain(vs, result, templates, fmt).IsCritical()
    ensures Explain(vs, result, templates, fmt).anomalyType != Normal
  {
  }

  // ---------------------------------------------------------------------------
  // Write-back
  // ---------------------------------------------------------------------------

  /** A caller's `AnomalyResult` object, which `classify` updates in place. */
  class ResultSlot {
    var result: AnomalyResult

    constructor (r: AnomalyResult)
      ensures result == r
    {
      result := r;
    }
  }

  /** The result after `classify`: label and explanation replaced for a non-empty
      series, untouched otherwise. */
  function WrittenBack(vs: seq<real>, r: AnomalyResult, templates: Registry, fmt: Formatter)
    : (w: AnomalyResult)
    ensures |vs| == 0 ==> w == r
    ensures w.(anomalyLabel := r.anomalyLabel, explanation := r.explanation) == r
  {
    if |vs| == 0 then r
    else
      var ex := Explain(vs, r, templates, fmt);
      r.(anomalyLabel := ex.anomalyType, explanation := Some(ex.description))
  }

  /** The write-back keeps the result's invariant, makes `is_anomaly` agree with
      the score gate, and changes nothing `Explain` reads, so classifying again
      gives the same explanation and the same result. */
  lemma WrittenBackFacts(vs: seq<real>, r: AnomalyResult, templates: Registry, fmt: Formatter)
    ensures r.Valid() ==> WrittenBack(vs, r, templates, fmt).Valid()
    ensures |vs| > 0 ==> (WrittenBack(vs, r, templates, fmt).IsAnomaly() <==> r.score >= 0.5)
    ensures Explain(vs, WrittenBack(vs, r, templates, fmt), templates, fmt) == Explain(vs, r, templates, fmt)
    ensures WrittenBack(vs, WrittenBack(vs, r, templates, fmt), templates, fmt) ==
            WrittenBack(vs, r, templates, fmt)
  {
    var w := WrittenBack(vs, r, templates, fmt);
    assert w.score == r.score && w.magnitude == r.magnitude;
  }

  /** `ExplanationClassifier.classify`. */
  method Classify(series: MetricSeries, slot: ResultSlot, templates: Registry, fmt: Formatter)
    returns (ex: Explanation)
    modifies slot
    ensures ex == Explain(series.values, old(slot.result), templates, fmt)
    ensures slot.result == WrittenBack(series.values, old(slot.result), templates, fmt)
  {
    ex := Explain(series.values, slot.result, templates, fmt);
    if |series.values| > 0 {
      slot.result := slot.result.(anomalyLabel := ex.anomalyType, explanation := Some(ex.description));
    }
  }

  /** The results currently held by the slots, in order. */
  ghost function Results(slots: seq<ResultSlot>): (r: seq<AnomalyResult>)
    reads set i | 0 <= i < |slots| :: slots[i]
    ensures |r| == |slots| && forall k :: 0 <= k < |slots| ==> r[k] == slots[k].result
  {
    if slots == [] then [] else Results(slots[..|slots| - 1]) + [slots[|slots| - 1].result]
  }

  /** `classify_batch`: one explanation per result, in order. The same object may
      occur twice; classifying it again changes nothing. */
  method ClassifyBatch(series: MetricSeries, slots: seq<ResultSlot>, templates: Registry, fmt: Formatter)
    returns (exs: seq<Explanation>)
    modifies set i | 0 <= i < |slots| :: slots[i]
    ensures |exs| == |slots|
    ensures forall i :: 0 <= i < |slots| ==>
      exs[i] == Explain(series.values, old(slots[i].result), templates, fmt)
    ensures forall i :: 0 <= i < |slots| ==>
      slots[i].result == WrittenBack(series.values, old(slots[i].result), templates, fmt)
  {
    ghost var orig := Results(slots);
    exs := ClassifyEach(series, slots, templates, fmt, orig);
    forall k | 0 <= k < |slots|
      ensures exs[k] == Explain(series.values, orig[k], templates, fmt)
    {
      ExplainPrefixAt(series.values, orig, |orig|, templates, fmt, k);
    }
  }

  /** The loop of `classify_batch`, from the slots' original results `orig`. */
  method ClassifyEach(series: MetricSeries, slots: seq<ResultSlot>, templates: Registry, fmt: Formatter,
                      ghost orig: seq<AnomalyResult>) returns (exs: seq<Explanation>)
    requires BatchProgress(series.values, slots, templates, fmt, orig, 0)
    modifies set i | 0 <= i < |slots| :: slots[i]
    ensures exs == ExplainPrefix(series.values, orig, |slots|, templates, fmt)
    ensures BatchProgress(series.values, slots, templates, fmt, orig, |slots|)
  {
    exs := [];
    var i := 0;
    while i < |slots|
      invariant 0 <= i <= |slots|
      invariant exs == ExplainPrefix(series.values, orig, i, templates, fmt)
      invariant BatchProgress(series.values, slots, templates, fmt, orig, i)
    {
      var ex := ClassifyNext(series, slots, templates, fmt, orig, i);
      exs := exs + [ex];
      i := i + 1;
    }
  }

  /** The explanations of the first `n` results of `rs`, in order. */
  function ExplainPrefix(vs: seq<real>, rs: seq<AnomalyResult>, n: nat, templates: Registry, fmt: Formatter)
    : (exs: seq<Explanation>)
    requires n <= |rs|
    ensures |exs| == n
  {
    if n == 0 then [] else ExplainPrefix(vs, rs, n - 1, templates, fmt) + [Explain(vs, rs[n - 1], templates, fmt)]
  }

  lemma {:induction false} ExplainPrefixAt(vs: seq<real>, rs: seq<AnomalyResult>, n: nat, templates: Registry,
                                          fmt: Formatter, k: int)
    requires 0 <= k < n <= |rs|
    ensures ExplainPrefix(vs, rs, n, templates, fmt)[k] == Explain(vs, rs[k], templates, fmt)
  {
    if k < n - 1 {
      ExplainPrefixAt(vs, rs, n - 1, templates, fmt, k);
    }
  }

  /** Part way through `classify_batch`: the first `i` slots hold their written-back
      results, and every other slot its original result or, when it shares its
      object with an earlier one, the written-back one. A slot shared with the
      `i`-th one holds the same result, so classifying again settles both. */
  ghost predicate BatchProgress(vs: seq<real>, slots: seq<ResultSlot>, templates: Registry, fmt: Formatter,
                                orig: seq<AnomalyResult>, i: int)
    reads set k | 0 <= k < |slots| :: slots[k]
  {
    && |orig| == |slots|
    && (forall k :: 0 <= k < |slots| && k < i ==> slots[k].result == WrittenBack(vs, orig[k], templates, fmt))
    && (forall k :: 0 <= k < |slots| ==>
          slots[k].result == orig[k] || slots[k].result == WrittenBack(vs, orig[k], templates, fmt))
  }

  /** One step of `classify_batch`: the `i`-th slot is classified. */
  method ClassifyNext(series: MetricSeries, slots: seq<ResultSlot>, templates: Registry, fmt: Formatter,
                      ghost orig: seq<AnomalyResult>, i: int) returns (ex: Explanation)
    requires 0 <= i < |slots| && BatchProgress(series.values, slots, templates, fmt, orig, i)
    modifies slots[i]
    ensures ex == Explain(series.values, orig[i], templates, fmt)
    ensures BatchProgress(series.values, slots, templates, fmt, orig, i + 1)
  {
    WrittenBackFacts(series.values, orig[i], templates, fmt);
    forall k | 0 <= k < |slots| && slots[k] == slots[i]
      ensures WrittenBack(series.values, WrittenBack(series.values, orig[k], templates, fmt), templates, fmt)
              == WrittenBack(series.values, orig[k], templates, fmt)
    {
      WrittenBackFacts(series.values, orig[k], templates, fmt);
    }
    ex := Classify(series, slots[i], templates, fmt);
  }

}
