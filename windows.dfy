/** Window extraction over a metric series: fixed point-count windows that step
    by a stride, and wall-clock windows that step a time cursor. */
module Windows {
  import opened Basics
  import opened Types

  /** An index range [startIdx, endIdx) of a series with the timestamps of its
      first and last point and its 1-based sequence number. */
  datatype TimeWindow = TimeWindow(startIdx: nat, endIdx: nat, startTime: int, endTime: int, windowNumber: nat)
  {
    /** Number of points in the window. */
    function Size(): (s: int)
      ensures s >= 0 <==> startIdx <= endIdx
      ensures s == 0 <==> startIdx == endIdx
    {
      endIdx - startIdx
    }
  }

  datatype ConfigError = NonPositiveWindowSize(windowSize: int) | NonPositiveStride(stride: int)

  datatype ExtractError = SeriesTooShort(length: nat, windowSize: nat)

  // ---------------------------------------------------------------------------
  // Point-count windows

  /** The configuration a `SlidingWindowExtractor` keeps after `__init__`. */
  datatype SlidingExtractor = SlidingExtractor(windowSize: nat, stride: nat, includePartial: bool)
  {
    predicate Valid()
    {
      windowSize > 0 && stride > 0
    }

    /** The `config` view: the settings plus whether consecutive windows overlap. */
    function Config(): (c: ExtractorConfig)
      ensures c.windowSize == windowSize && c.stride == stride && c.includePartial == includePartial
      ensures c.isOverlapping <==> stride < windowSize
    {
      ExtractorConfig(windowSize, stride, includePartial, stride < windowSize)
    }
  }

  datatype ExtractorConfig = ExtractorConfig(windowSize: nat, stride: nat, includePartial: bool, isOverlapping: bool)

  /** `SlidingWindowExtractor(window_size_points, stride_points, include_partial_windows)`.
      A missing or zero stride falls back to the window size (`stride or size`);
      a non-positive size, or a negative stride, is rejected. */
  function NewSlidingExtractor(windowSize: int, stride: Option<int>, includePartial: bool)
    : (r: Result<SlidingExtractor, ConfigError>)
    ensures r.Ok? <==> windowSize > 0 && (stride.None? || stride.value >= 0)
    ensures windowSize <= 0 ==> r == Err(NonPositiveWindowSize(windowSize))
    ensures windowSize > 0 && stride.Some? && stride.value < 0 ==> r == Err(NonPositiveStride(stride.value))
    ensures r.Ok? ==>
      && r.value.Valid()
      && r.value.windowSize == windowSize
      && r.value.includePartial == includePartial
      && r.value.stride == (if stride.None? || stride.value == 0 then windowSize else stride.value)
  {
    if windowSize <= 0 then Err(NonPositiveWindowSize(windowSize))
    else
      var s := if stride.None? || stride.value == 0 then windowSize else stride.value;
      if s <= 0 then Err(NonPositiveStride(s))
      else Ok(SlidingExtractor(windowSize, s, includePartial))
  }

  /** The windows the extraction loop emits from index `start` on, numbering the
      first emitted one `num`. */
  function WindowsFrom(ts: seq<int>, e: SlidingExtractor, start: nat, num: nat): seq<TimeWindow>
    requires e.Valid()
    decreases |ts| - start
  {
    if start >= |ts| then []
    else
      var stop := Min(start + e.windowSize, |ts|);
      if stop - start == e.windowSize || e.includePartial then
        [TimeWindow(start, stop, ts[start], ts[stop - 1], num)] + WindowsFrom(ts, e, start + e.stride, num + 1)
      else
        WindowsFrom(ts, e, start + e.stride, num)
  }

  /** Every window is a non-empty in-bounds range of at most `windowSize` points
      whose times are those of its first and last point; the i-th window starts
      at i * stride and is numbered i + 1. */
  predicate WellFormed(ts: seq<int>, e: SlidingExtractor, ws: seq<TimeWindow>)
    requires e.Valid()
  {
    forall i :: 0 <= i < |ws| ==>
      && ws[i].startIdx < ws[i].endIdx <= |ts|
      && ws[i].Size() <= e.windowSize
      && ws[i].startIdx == i * e.stride
      && ws[i].startTime == ts[ws[i].startIdx]
      && ws[i].endTime == ts[ws[i].endIdx - 1]
      && ws[i].windowNumber == i + 1
  }

  /** Without partial windows, nothing is emitted once a window no longer fits. */
  lemma {:induction false} NoFullWindowLeft(ts: seq<int>, e: SlidingExtractor, start: nat, num: nat)
    requires e.Valid() && !e.includePartial && start + e.windowSize > |ts|
    ensures WindowsFrom(ts, e, start, num) == []
    decreases |ts| - start
  {
    if start < |ts| {
      NoFullWindowLeft(ts, e, start + e.stride, num);
    }
  }

  /** The windows `ws` emitted from index `start` on are in-bounds ranges of at
      most `windowSize` points (exactly that many without partial windows), the
      i-th starting at start + i * stride and numbered num + i. */
  predicate ShapedFrom(ts: seq<int>, e: SlidingExtractor, ws: seq<TimeWindow>, start: nat, num: nat)
    requires e.Valid()
  {
    forall i :: 0 <= i < |ws| ==> ShapedAt(ts, e, ws[i], start + i * e.stride, num + i)
  }

  /** One window starting at `s`, numbered `n`, as the extractor emits it. */
  predicate ShapedAt(ts: seq<int>, e: SlidingExtractor, w: TimeWindow, s: int, n: int)
    requires e.Valid()
  {
    && w.startIdx < w.endIdx <= |ts|
    && w.Size() <= e.windowSize
    && (!e.includePartial ==> w.Size() == e.windowSize)
    && w.startIdx == s
    && w.startTime == ts[w.startIdx]
    && w.endTime == ts[w.endIdx - 1]
    && w.windowNumber == n
  }

  lemma {:induction false} WindowsFromShape(ts: seq<int>, e: SlidingExtractor, start: nat, num: nat)
    requires e.Valid()
    ensures ShapedFrom(ts, e, WindowsFrom(ts, e, start, num), start, num)
    decreases |ts| - start
  {
    if start < |ts| {
      var stop := Min(start + e.windowSize, |ts|);
      var ws := WindowsFrom(ts, e, start, num);
      if stop - start == e.windowSize || e.includePartial {
        WindowsFromShape(ts, e, start + e.stride, num + 1);
        var rest := WindowsFrom(ts, e, start + e.stride, num + 1);
        assert ws == [TimeWindow(start, stop, ts[start], ts[stop - 1], num)] + rest;
        assert ShapedAt(ts, e, ws[0], start, num);
        forall i | 1 <= i < |ws|
          ensures ShapedAt(ts, e, ws[i], start + i * e.stride, num + i)
        {
          assert ws[i] == rest[i - 1];
          assert start + e.stride + (i - 1) * e.stride == start + i * e.stride;
        }
      } else {
        NoFullWindowLeft(ts, e, start + e.stride, num);
      }
    }
  }

  /** Shaped from index 0 with numbering from 1 is well formed. */
  lemma ShapedWellFormed(ts: seq<int>, e: SlidingExtractor, ws: seq<TimeWindow>)
    requires e.Valid() && ShapedFrom(ts, e, ws, 0, 1)
    ensures WellFormed(ts, e, ws)
    ensures !e.includePartial ==> forall i :: 0 <= i < |ws| ==> ws[i].Size() == e.windowSize
  {
    forall i | 0 <= i < |ws|
      ensures ws[i].startIdx == i * e.stride && ws[i].windowNumber == i + 1
    {
    }
  }

  /** Without partial windows: one window per start s with s + windowSize <= length. */
  lemma {:induction false} FullWindowCount(ts: seq<int>, e: SlidingExtractor, start: nat, num: nat)
    requires e.Valid() && !e.includePartial
    ensures |WindowsFrom(ts, e, start, num)| ==
            if start + e.windowSize <= |ts| then (|ts| - e.windowSize - start) / e.stride + 1 else 0
    decreases |ts| - start
  {
    var W, S := e.windowSize, e.stride;
    if start + W > |ts| {
      NoFullWindowLeft(ts, e, start, num);
    } else {
      FullWindowCount(ts, e, start + S, num + 1);
      var x := |ts| - W - start;
      if start + S + W <= |ts| {
        DivAddDivisor(x - S, S);
      } else {
        DivUnique(x, S, 0, x);
      }
    }
  }

  /** With partial windows: one window per start 0, stride, 2 * stride, ... below the length. */
  lemma {:induction false} PartialWindowCount(ts: seq<int>, e: SlidingExtractor, start: nat, num: nat)
    requires e.Valid() && e.includePartial && start <= |ts|
    ensures |WindowsFrom(ts, e, start, num)| == (|ts| - start + e.stride - 1) / e.stride
    decreases |ts| - start
  {
    var S := e.stride;
    var x := |ts| - start;
    if start == |ts| {
      DivUnique(S - 1, S, 0, S - 1);
    } else if start + S <= |ts| {
      PartialWindowCount(ts, e, start + S, num + 1);
      DivAddDivisor(x - 1, S);
    } else {
      assert WindowsFrom(ts, e, start + S, num + 1) == [];
      DivUnique(x + S - 1, S, 1, x - 1);
    }
  }

  /** `SlidingWindowExtractor.extract`. */
  method Extract(e: SlidingExtractor, series: MetricSeries) returns (r: Result<seq<TimeWindow>, ExtractError>)
    requires e.Valid()
    ensures var L := |series.timestamps|;
      r.Err? <==> L < e.windowSize && !(e.includePartial && L > 0)
    ensures r.Err? ==> r.error == SeriesTooShort(|series.timestamps|, e.windowSize)
    ensures r.Ok? && |series.timestamps| < e.windowSize ==>
      r.value == [TimeWindow(0, |series.timestamps|, series.timestamps[0],
                             series.timestamps[|series.timestamps| - 1], 1)]
    ensures r.Ok? && |series.timestamps| >= e.windowSize ==> r.value == WindowsFrom(series.timestamps, e, 0, 1)
    ensures r.Ok? ==> WellFormed(series.timestamps, e, r.value)
    ensures r.Ok? && !e.includePartial ==>
      && |r.value| == (|series.timestamps| - e.windowSize) / e.stride + 1
      && forall i :: 0 <= i < |r.value| ==> r.value[i].Size() == e.windowSize
    ensures r.Ok? && e.includePartial && |series.timestamps| >= e.windowSize ==>
      |r.value| == (|series.timestamps| + e.stride - 1) / e.stride
  {
    var ts := series.timestamps;
    var n := |ts|;
    if n < e.windowSize {
      if e.includePartial && n > 0 {
        r := Ok([TimeWindow(0, n, ts[0], ts[n - 1], 1)]);
      } else {
        r := Err(SeriesTooShort(n, e.windowSize));
      }
      return;
    }
    var windows := SlideFrom(ts, e);
    WindowsFromShape(ts, e, 0, 1);
    ShapedWellFormed(ts, e, windows);
    if e.includePartial {
      PartialWindowCount(ts, e, 0, 1);
    } else {
      FullWindowCount(ts, e, 0, 1);
    }
    r := Ok(windows);
  }

  /** The loop of `extract_windows` over the start positions 0, stride, 2 * stride, ... */
  method SlideFrom(ts: seq<int>, e: SlidingExtractor) returns (windows: seq<TimeWindow>)
    requires e.Valid()
    ensures windows == WindowsFrom(ts, e, 0, 1)
  {
    windows := [];
    var num: nat := 1;
    var start: nat := 0;
    while start < |ts|
      invariant windows + WindowsFrom(ts, e, start, num) == WindowsFrom(ts, e, 0, 1)
      decreases |ts| - start
    {
      var stop := Min(start + e.windowSize, |ts|);
      if stop - start == e.windowSize || e.includePartial {
        var w := TimeWindow(start, stop, ts[start], ts[stop - 1], num);
        AppendAssoc(windows, [w], WindowsFrom(ts, e, start + e.stride, num + 1));
        windows := windows + [w];
        num := num + 1;
      }
      start := start + e.stride;
    }
    assert windows + [] == windows;
  }

  /** `extract_window_data`: the window's slice of timestamps and of values
      (Python slicing, so out-of-range bounds are clamped). */
  function WindowData(series: MetricSeries, w: TimeWindow): (r: (seq<int>, seq<real>))
    ensures w.startIdx <= w.endIdx <= |series.timestamps| && w.endIdx <= |series.values| ==>
      && |r.0| == w.Size() && |r.1| == w.Size()
      && forall k :: 0 <= k < w.Size() ==>
           r.0[k] == series.timestamps[w.startIdx + k] && r.1[k] == series.values[w.startIdx + k]
  {
    (Slice(series.timestamps, w.startIdx, w.endIdx), Slice(series.values, w.startIdx, w.endIdx))
  }

  // ---------------------------------------------------------------------------
  // Wall-clock windows

  /** The configuration a `TimeBasedWindowExtractor` keeps, with durations in seconds. */
  datatype TimeExtractor = TimeExtractor(duration: int, stride: int, includePartial: bool)

  /** The stride `__init__` stores: `stride_duration or window_duration`, unchecked. */
  function TimeStrideAsWritten(duration: int, stride: Option<int>): int
  {
    if stride.None? || stride.value == 0 then duration else stride.value
  }

  /** With the stride `__init__` stores as written, a stride that is not positive
      never moves the cursor past the last timestamp: after any number k of
      iterations the loop condition still holds. */
  lemma {:induction false} TimeLoopNeverEnds(first: int, last: int, duration: int, stride: Option<int>, k: nat)
    requires first < last && TimeStrideAsWritten(duration, stride) <= 0
    ensures first + k * TimeStrideAsWritten(duration, stride) < last
  {
    var s := TimeStrideAsWritten(duration, stride);
    if k > 0 {
      TimeLoopNeverEnds(first, last, duration, stride, k - 1);
      assert first + k * s == first + (k - 1) * s + s;
    }
  }

  /** Construction with the check the extraction loop needs to terminate: the
      effective stride must be positive. */
  function NewTimeExtractor(duration: int, stride: Option<int>, includePartial: bool)
    : (r: Result<TimeExtractor, ConfigError>)
    ensures r.Ok? <==> TimeStrideAsWritten(duration, stride) > 0
    ensures r.Err? ==> r.error == NonPositiveStride(TimeStrideAsWritten(duration, stride))
    ensures r.Ok? ==>
      && r.value.stride == TimeStrideAsWritten(duration, stride) > 0
      && r.value.duration == duration && r.value.includePartial == includePartial
  {
    var s := TimeStrideAsWritten(duration, stride);
    if s > 0 then Ok(TimeExtractor(duration, s, includePartial)) else Err(NonPositiveStride(s))
  }

  /** First index whose timestamp is at least `target`, if any. */
  function FirstAtLeast(ts: seq<int>, target: int): (r: Option<nat>)
    ensures r.Some? ==> r.value < |ts| && ts[r.value] >= target
    decreases |ts|
  {
    if ts == [] then None
    else if ts[0] >= target then Some(0)
    else
      match FirstAtLeast(ts[1..], target)
      case None => None
      case Some(i) => Some(i + 1)
  }

  /** Exclusive end of the range below `target`: the first index whose timestamp
      is at least `target`, or the length. */
  function EndBefore(ts: seq<int>, target: int): (r: nat)
    ensures r <= |ts|
    ensures r < |ts| ==> ts[r] >= target
  {
    match FirstAtLeast(ts, target)
    case None => |ts|
    case Some(i) => i
  }

  /** Every timestamp before the first one at least `target` is below it. */
  lemma {:induction false} ScanBelow(ts: seq<int>, target: int)
    ensures FirstAtLeast(ts, target).Some? ==>
      forall j :: 0 <= j < FirstAtLeast(ts, target).value ==> ts[j] < target
    ensures FirstAtLeast(ts, target).None? ==> forall j :: 0 <= j < |ts| ==> ts[j] < target
    ensures forall j :: 0 <= j < EndBefore(ts, target) ==> ts[j] < target
  {
    if ts != [] && ts[0] < target {
      ScanBelow(ts[1..], target);
      forall j | 1 <= j < |ts|
        ensures ts[j] == ts[1..][j - 1]
      {
      }
    }
  }

  /** `_find_idx_ge`: a linear scan with early return. */
  method FindIdxGe(ts: seq<int>, target: int) returns (r: Option<nat>)
    ensures r == FirstAtLeast(ts, target)
  {
    var i := 0;
    while i < |ts|
      invariant 0 <= i <= |ts|
      invariant forall j :: 0 <= j < i ==> ts[j] < target
    {
      if ts[i] >= target {
        r := Some(i);
        FirstIsUnique(ts, target, i);
        return;
      }
      i := i + 1;
    }
    r := None;
    FirstIsUnique(ts, target, |ts|);
  }

  /** `_find_idx_lt`: the same scan, falling back to the length. */
  method FindIdxLt(ts: seq<int>, target: int) returns (r: nat)
    ensures r == EndBefore(ts, target)
  {
    var i := 0;
    while i < |ts|
      invariant 0 <= i <= |ts|
      invariant forall j :: 0 <= j < i ==> ts[j] < target
    {
      if ts[i] >= target {
        FirstIsUnique(ts, target, i);
        return i;
      }
      i := i + 1;
    }
    FirstIsUnique(ts, target, |ts|);
    return |ts|;
  }

  /** The scan result is determined: an index k with everything before it below
      `target` and itself at least `target` (or k the length) is `FirstAtLeast`. */
  lemma {:induction false} FirstIsUnique(ts: seq<int>, target: int, k: nat)
    requires k <= |ts| && forall j :: 0 <= j < k ==> ts[j] < target
    requires k < |ts| ==> ts[k] >= target
    ensures k < |ts| ==> FirstAtLeast(ts, target) == Some(k)
    ensures k == |ts| ==> FirstAtLeast(ts, target) == None
  {
    if k > 0 {
      forall j | 0 <= j < k - 1
        ensures ts[1..][j] < target
      {
        assert ts[1..][j] == ts[j + 1];
      }
      FirstIsUnique(ts[1..], target, k - 1);
    }
  }

  /** The window the cursor position `cursor` yields, if its range holds any point. */
  function CursorWindow(ts: seq<int>, e: TimeExtractor, cursor: int, num: nat): Option<TimeWindow>
  {
    var first := FirstAtLeast(ts, cursor);
    var stop := EndBefore(ts, cursor + e.duration);
    if first.Some? && first.value < stop then
      Some(TimeWindow(first.value, stop, ts[first.value], ts[stop - 1], num))
    else None
  }

  /** The windows the time cursor loop emits from cursor position `cursor` on. */
  function TimeWindowsFrom(ts: seq<int>, e: TimeExtractor, cursor: int, num: nat): seq<TimeWindow>
    requires |ts| > 0 && e.stride > 0
    decreases if cursor < ts[|ts| - 1] then ts[|ts| - 1] - cursor else 0
  {
    if cursor >= ts[|ts| - 1] then []
    else
      match CursorWindow(ts, e, cursor, num)
      case Some(w) => [w] + TimeWindowsFrom(ts, e, cursor + e.stride, num + 1)
      case None => TimeWindowsFrom(ts, e, cursor + e.stride, num)
  }

  /** Window `w` holds exactly the points whose timestamps lie in [c, c + d). */
  predicate Covers(ts: seq<int>, d: int, c: int, w: TimeWindow)
  {
    forall j :: 0 <= j < |ts| ==> (w.startIdx <= j < w.endIdx <==> c <= ts[j] < c + d)
  }

  /** For sorted timestamps a cursor yields a window exactly when its range
      [cursor, cursor + duration) holds a point, and then the window holds
      exactly those points. */
  lemma CursorWindowExact(ts: seq<int>, e: TimeExtractor, cursor: int, num: nat)
    requires NonDecreasing(ts)
    ensures CursorWindow(ts, e, cursor, num).Some? <==>
            exists j :: 0 <= j < |ts| && cursor <= ts[j] < cursor + e.duration
    ensures CursorWindow(ts, e, cursor, num).Some? ==>
      Covers(ts, e.duration, cursor, CursorWindow(ts, e, cursor, num).value)
  {
    var first := FirstAtLeast(ts, cursor);
    var stop := EndBefore(ts, cursor + e.duration);
    ScanBelow(ts, cursor);
    ScanBelow(ts, cursor + e.duration);
    if first.Some? && first.value < stop {
      var w := CursorWindow(ts, e, cursor, num).value;
      forall j | 0 <= j < |ts|
        ensures w.startIdx <= j < w.endIdx <==> cursor <= ts[j] < cursor + e.duration
      {
        if j >= first.value { assert ts[first.value] <= ts[j]; }
        if j >= stop { assert ts[stop] <= ts[j]; }
      }
      assert cursor <= ts[first.value] < cursor + e.duration;
    }
  }

  /** Shape of time-based output `ws`: numbered consecutively from `num`, each a
      non-empty in-bounds range whose times are those of its first and last point. */
  predicate TimeShaped(ts: seq<int>, ws: seq<TimeWindow>, num: nat)
  {
    forall i :: 0 <= i < |ws| ==>
      && ws[i].startIdx < ws[i].endIdx <= |ts|
      && ws[i].startTime == ts[ws[i].startIdx]
      && ws[i].endTime == ts[ws[i].endIdx - 1]
      && ws[i].windowNumber == num + i
  }

  /** One step of the cursor loop, and the shape of the window a cursor yields. */
  lemma TimeStep(ts: seq<int>, e: TimeExtractor, cursor: int, num: nat)
    requires |ts| > 0 && e.stride > 0 && cursor < ts[|ts| - 1]
    ensures CursorWindow(ts, e, cursor, num).None? ==>
      TimeWindowsFrom(ts, e, cursor, num) == TimeWindowsFrom(ts, e, cursor + e.stride, num)
    ensures CursorWindow(ts, e, cursor, num).Some? ==>
      TimeWindowsFrom(ts, e, cursor, num) ==
      [CursorWindow(ts, e, cursor, num).value] + TimeWindowsFrom(ts, e, cursor + e.stride, num + 1)
    ensures CursorWindow(ts, e, cursor, num).Some? ==>
      TimeShaped(ts, [CursorWindow(ts, e, cursor, num).value], num)
  {
  }

  /** Prepending a window numbered `num` to a shaped run numbered from `num + 1`. */
  lemma TimeShapedCons(ts: seq<int>, w: TimeWindow, rest: seq<TimeWindow>, num: nat)
    requires TimeShaped(ts, [w], num) && TimeShaped(ts, rest, num + 1)
    ensures TimeShaped(ts, [w] + rest, num)
  {
    var ws := [w] + rest;
    forall i | 0 <= i < |ws|
      ensures && ws[i].startIdx < ws[i].endIdx <= |ts|
              && ws[i].startTime == ts[ws[i].startIdx]
              && ws[i].endTime == ts[ws[i].endIdx - 1]
              && ws[i].windowNumber == num + i
    {
      if i == 0 {
        assert ws[i] == [w][0];
      } else {
        assert ws[i] == rest[i - 1];
      }
    }
  }

  lemma {:induction false} TimeWindowsShape(ts: seq<int>, e: TimeExtractor, cursor: int, num: nat)
    requires |ts| > 0 && e.stride > 0
    ensures TimeShaped(ts, TimeWindowsFrom(ts, e, cursor, num), num)
    decreases if cursor < ts[|ts| - 1] then ts[|ts| - 1] - cursor else 0
  {
    if cursor < ts[|ts| - 1] {
      TimeStep(ts, e, cursor, num);
      match CursorWindow(ts, e, cursor, num)
      case Some(w) =>
        TimeWindowsShape(ts, e, cursor + e.stride, num + 1);
        TimeShapedCons(ts, w, TimeWindowsFrom(ts, e, cursor + e.stride, num + 1), num);
      case None =>
        TimeWindowsShape(ts, e, cursor + e.stride, num);
    }
  }

  /** The cursor position at which the loop emits its `i`-th window from `cursor` on. */
  function WindowCursor(ts: seq<int>, e: TimeExtractor, cursor: int, num: nat, i: nat): int
    requires |ts| > 0 && e.stride > 0
    decreases if cursor < ts[|ts| - 1] then ts[|ts| - 1] - cursor else 0
  {
    if cursor >= ts[|ts| - 1] then cursor
    else
      match CursorWindow(ts, e, cursor, num)
      case Some(_) => if i == 0 then cursor else WindowCursor(ts, e, cursor + e.stride, num + 1, i - 1)
      case None => WindowCursor(ts, e, cursor + e.stride, num, i)
  }

  /** Every cursor position lies on the stride grid: it is `cursor + k * stride`
      for the number `k` of strides taken. */
  lemma {:induction false} WindowCursorOnGrid(ts: seq<int>, e: TimeExtractor, cursor: int, num: nat, i: nat)
    returns (k: nat)
    requires |ts| > 0 && e.stride > 0
    ensures WindowCursor(ts, e, cursor, num, i) == cursor + k * e.stride
    decreases if cursor < ts[|ts| - 1] then ts[|ts| - 1] - cursor else 0
  {
    k := 0;
    if cursor < ts[|ts| - 1] {
      var next := cursor + e.stride;
      match CursorWindow(ts, e, cursor, num)
      case Some(_) =>
        if i > 0 {
          var k' := WindowCursorOnGrid(ts, e, next, num + 1, i - 1);
          k := k' + 1;
          assert k * e.stride == k' * e.stride + e.stride;
        }
      case None =>
        var k' := WindowCursorOnGrid(ts, e, next, num, i);
        k := k' + 1;
        assert k * e.stride == k' * e.stride + e.stride;
    }
  }

  /** The cursor position of an emitted window lies in [start, last). */
  lemma {:induction false} WindowCursorBounds(ts: seq<int>, e: TimeExtractor, cursor: int, num: nat, i: nat)
    requires |ts| > 0 && e.stride > 0
    requires i < |TimeWindowsFrom(ts, e, cursor, num)|
    ensures cursor <= WindowCursor(ts, e, cursor, num, i) < ts[|ts| - 1]
    decreases if cursor < ts[|ts| - 1] then ts[|ts| - 1] - cursor else 0
  {
    assert cursor < ts[|ts| - 1];
    match CursorWindow(ts, e, cursor, num)
    case Some(w) =>
      if i > 0 {
        WindowCursorBounds(ts, e, cursor + e.stride, num + 1, i - 1);
      }
    case None =>
      WindowCursorBounds(ts, e, cursor + e.stride, num, i);
  }

  /** A cursor position that yields a window: it is emitted first, numbered `num`. */
  lemma CursorEmits(ts: seq<int>, e: TimeExtractor, cursor: int, num: nat, i: nat, w: TimeWindow)
    requires |ts| > 0 && e.stride > 0 && cursor < ts[|ts| - 1]
    requires CursorWindow(ts, e, cursor, num) == Some(w)
    ensures TimeWindowsFrom(ts, e, cursor, num) == [w] + TimeWindowsFrom(ts, e, cursor + e.stride, num + 1)
    ensures w.windowNumber == num
    ensures i == 0 ==> WindowCursor(ts, e, cursor, num, i) == cursor
    ensures i > 0 ==> WindowCursor(ts, e, cursor, num, i) == WindowCursor(ts, e, cursor + e.stride, num + 1, i - 1)
  {
  }

  /** A cursor position whose range is empty emits nothing. */
  lemma CursorSkips(ts: seq<int>, e: TimeExtractor, cursor: int, num: nat, i: nat)
    requires |ts| > 0 && e.stride > 0 && cursor < ts[|ts| - 1]
    requires CursorWindow(ts, e, cursor, num).None?
    ensures TimeWindowsFrom(ts, e, cursor, num) == TimeWindowsFrom(ts, e, cursor + e.stride, num)
    ensures WindowCursor(ts, e, cursor, num, i) == WindowCursor(ts, e, cursor + e.stride, num, i)
  {
  }

  /** Every emitted window is the window of its cursor position. */
  lemma {:induction false} TimeWindowOrigin(ts: seq<int>, e: TimeExtractor, cursor: int, num: nat, i: nat)
    requires |ts| > 0 && e.stride > 0
    requires i < |TimeWindowsFrom(ts, e, cursor, num)|
    ensures CursorWindow(ts, e, WindowCursor(ts, e, cursor, num, i), TimeWindowsFrom(ts, e, cursor, num)[i].windowNumber)
            == Some(TimeWindowsFrom(ts, e, cursor, num)[i])
    decreases if cursor < ts[|ts| - 1] then ts[|ts| - 1] - cursor else 0, 1
  {
    assert cursor < ts[|ts| - 1];
    var found := CursorWindow(ts, e, cursor, num);
    if found.Some? {
      EmittedOrigin(ts, e, cursor, num, i, found.value);
    } else {
      CursorSkips(ts, e, cursor, num, i);
      TimeWindowOrigin(ts, e, cursor + e.stride, num, i);
    }
  }

  /** `TimeWindowOrigin` when the first cursor position yields window `w`. */
  lemma {:induction false} EmittedOrigin(ts: seq<int>, e: TimeExtractor, cursor: int, num: nat, i: nat,
                                         w: TimeWindow)
    requires |ts| > 0 && e.stride > 0 && cursor < ts[|ts| - 1]
    requires CursorWindow(ts, e, cursor, num) == Some(w)
    requires i < |TimeWindowsFrom(ts, e, cursor, num)|
    ensures CursorWindow(ts, e, WindowCursor(ts, e, cursor, num, i), TimeWindowsFrom(ts, e, cursor, num)[i].windowNumber)
            == Some(TimeWindowsFrom(ts, e, cursor, num)[i])
    decreases ts[|ts| - 1] - cursor, 0
  {
    CursorEmits(ts, e, cursor, num, i, w);
    if i > 0 {
      var rest := TimeWindowsFrom(ts, e, cursor + e.stride, num + 1);
      TimeWindowOrigin(ts, e, cursor + e.stride, num + 1, i - 1);
      assert TimeWindowsFrom(ts, e, cursor, num)[i] == rest[i - 1];
    }
  }

  /** For sorted timestamps every emitted window holds exactly the points of the
      range [c, c + duration) of some cursor position c with start <= c < last. */
  lemma TimeWindowsExact(ts: seq<int>, e: TimeExtractor, cursor: int, num: nat, i: nat)
    requires |ts| > 0 && e.stride > 0 && NonDecreasing(ts)
    requires i < |TimeWindowsFrom(ts, e, cursor, num)|
    ensures exists c :: cursor <= c < ts[|ts| - 1] &&
                        Covers(ts, e.duration, c, TimeWindowsFrom(ts, e, cursor, num)[i])
  {
    var w := TimeWindowsFrom(ts, e, cursor, num)[i];
    WindowCursorBounds(ts, e, cursor, num, i);
    TimeWindowOrigin(ts, e, cursor, num, i);
    var c := WindowCursor(ts, e, cursor, num, i);
    CursorWindowExact(ts, e, c, w.windowNumber);
    assert Covers(ts, e.duration, c, w);
  }

  /** The body of the cursor loop: the window of points in [cursor, cursor + duration). */
  method WindowAt(ts: seq<int>, e: TimeExtractor, cursor: int, num: nat) returns (r: Option<TimeWindow>)
    ensures r == CursorWindow(ts, e, cursor, num)
  {
    var stopTime := cursor + e.duration;
    var startIdx := FindIdxGe(ts, cursor);
    var endIdx := FindIdxLt(ts, stopTime);
    if startIdx.Some? && startIdx.value < endIdx {
      r := Some(TimeWindow(startIdx.value, endIdx, ts[startIdx.value], ts[endIdx - 1], num));
    } else {
      r := None;
    }
  }

  /** One iteration of the cursor loop keeps "ws followed by what the loop still
      emits is the whole output". */
  lemma TimeLoopAdvance(ts: seq<int>, e: TimeExtractor, cursor: int, num: nat, ws: seq<TimeWindow>,
                        full: seq<TimeWindow>, found: Option<TimeWindow>)
    requires |ts| > 0 && e.stride > 0 && cursor < ts[|ts| - 1]
    requires found == CursorWindow(ts, e, cursor, num)
    requires ws + TimeWindowsFrom(ts, e, cursor, num) == full
    ensures found.Some? ==> (ws + [found.value]) + TimeWindowsFrom(ts, e, cursor + e.stride, num + 1) == full
    ensures found.None? ==> ws + TimeWindowsFrom(ts, e, cursor + e.stride, num) == full
  {
    TimeStep(ts, e, cursor, num);
    if found.Some? {
      AppendAssoc(ws, [found.value], TimeWindowsFrom(ts, e, cursor + e.stride, num + 1));
    }
  }

  /** The same step, stated over the loop variables before (cursor, num, ws) and
      after (cursor', num', ws') the iteration. */
  lemma TimeLoopStep(ts: seq<int>, e: TimeExtractor, full: seq<TimeWindow>, found: Option<TimeWindow>,
                     cursor: int, num: nat, ws: seq<TimeWindow>,
                     cursor': int, num': nat, ws': seq<TimeWindow>)
    requires |ts| > 0 && e.stride > 0 && cursor < ts[|ts| - 1]
    requires found == CursorWindow(ts, e, cursor, num)
    requires ws + TimeWindowsFrom(ts, e, cursor, num) == full
    requires cursor' == cursor + e.stride
    requires found.Some? ==> num' == num + 1 && ws' == ws + [found.value]
    requires found.None? ==> num' == num && ws' == ws
    ensures ws' + TimeWindowsFrom(ts, e, cursor', num') == full
  {
    TimeLoopAdvance(ts, e, cursor, num, ws, full, found);
  }

  /** `TimeBasedWindowExtractor.extract`. */
  method TimeExtract(e: TimeExtractor, series: MetricSeries) returns (ws: seq<TimeWindow>)
    requires e.stride > 0
    ensures |series.timestamps| == 0 ==> ws == []
    ensures |series.timestamps| > 0 ==>
      ws == TimeWindowsFrom(series.timestamps, e, series.timestamps[0], 1)
    ensures |series.timestamps| == 1 ==> ws == []
    ensures TimeShaped(series.timestamps, ws, 1)
  {
    var ts := series.timestamps;
    if |ts| == 0 {
      return [];
    }
    ws := [];
    var num: nat := 1;
    var cursor := ts[0];
    var last := ts[|ts| - 1];
    ghost var full := TimeWindowsFrom(ts, e, ts[0], 1);
    while cursor < last
      invariant ws + TimeWindowsFrom(ts, e, cursor, num) == full
      decreases last - cursor
    {
      var found := WindowAt(ts, e, cursor, num);
      ghost var cursor0, num0, ws0 := cursor, num, ws;
      if found.Some? {
        ws := ws + [found.value];
        num := num + 1;
      }
      cursor := cursor + e.stride;
      TimeLoopStep(ts, e, full, found, cursor0, num0, ws0, cursor, num, ws);
    }
    assert TimeWindowsFrom(ts, e, cursor, num) == [];
    assert ws == TimeWindowsFrom(ts, e, ts[0], 1);
    TimeWindowsShape(ts, e, ts[0], 1);
  }
}
