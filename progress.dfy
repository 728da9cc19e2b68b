/** Reading progress: the percentage a page change stands for, and its high-water mark. */
module Progress {
  import opened Prelude

  /** `currentPageIndex + 1` on a Kotlin `Int`, which wraps from the largest value to the smallest. */
  function PageNumber(index: int32): (n: int)
    ensures Int32Min as int <= n <= Int32Max as int
    ensures index < Int32Max ==> n == index as int + 1
    ensures index == Int32Max ==> n == Int32Min as int
  {
    if index == Int32Max then Int32Min as int else index as int + 1
  }

  /** `min(100.0, max(0.0, x))`. */
  function Clamp(x: real): (r: real)
    ensures 0.0 <= r <= 100.0
    ensures 0.0 <= x <= 100.0 ==> r == x
    ensures x > 100.0 ==> r == 100.0
    ensures x < 0.0 ==> r == 0.0
  {
    if x > 100.0 then 100.0 else if x < 0.0 then 0.0 else x
  }

  /**
   * For a positive page count, the ratio is within [0, 100] for a page that
   * exists, at least 100 past the last page, and at most 0 before the first.
   */
  lemma PageRatioBounds(n: int, total: int)
    requires total > 0
    ensures 0 <= n <= total ==> 0.0 <= n as real / total as real * 100.0 <= 100.0
    ensures n >= total ==> n as real / total as real * 100.0 >= 100.0
    ensures n <= 0 ==> n as real / total as real * 100.0 <= 0.0
  {
    var q := n as real / total as real;
    assert q * total as real == n as real;
    if n <= total {
      assert q <= 1.0;
    }
    if n >= total {
      assert q >= 1.0;
    }
    if n >= 0 {
      assert q >= 0.0;
    } else {
      assert q <= 0.0;
    }
  }

  /**
   * The percent for a page change: `(index + 1) / totalPages * 100` in double
   * arithmetic, clamped to [0, 100]. With `totalPages == 0` the division gives
   * +infinity or -infinity, which clamp to 100 or 0, or NaN (for `index + 1 == 0`),
   * which survives the clamp and fails every comparison; NaN is `None` here.
   */
  function PagePercent(index: int32, totalPages: int32): (p: Option<real>)
    ensures p.Some? ==> 0.0 <= p.value <= 100.0
    ensures p.None? <==> totalPages == 0 && PageNumber(index) == 0
    ensures 0 <= index < totalPages ==> p == Some((index as real + 1.0) / totalPages as real * 100.0)
    ensures totalPages == 0 && PageNumber(index) > 0 ==> p == Some(100.0)
    ensures totalPages == 0 && PageNumber(index) < 0 ==> p == Some(0.0)
    ensures 0 < totalPages as int <= PageNumber(index) ==> p == Some(100.0)
    ensures totalPages > 0 && PageNumber(index) <= 0 ==> p == Some(0.0)
    ensures totalPages < 0 ==> p == Some(Clamp(PageNumber(index) as real / totalPages as real * 100.0))
  {
    var pages := PageNumber(index);
    if totalPages == 0 then
      if pages > 0 then Some(100.0) else if pages < 0 then Some(0.0) else None
    else
      var raw := pages as real / totalPages as real * 100.0;
      assert totalPages > 0 ==>
        (0 <= pages <= totalPages as int ==> 0.0 <= raw <= 100.0) &&
        (pages >= totalPages as int ==> raw >= 100.0) &&
        (pages <= 0 ==> raw <= 0.0) by {
        if totalPages > 0 { PageRatioBounds(pages, totalPages as int); }
      }
      Some(Clamp(raw))
  }

  /** The stored progress after a page change, and the percent reported, if any. */
  datatype Step = Step(progress: real, emitted: Option<real>)

  /**
   * One page change: the stored progress is replaced, and the new percent reported,
   * only when the percent is above it; otherwise nothing changes.
   */
  function ProgressStep(current: real, index: int32, totalPages: int32): (s: Step)
    ensures s.progress >= current
    ensures s.emitted.Some? <==> s.progress > current
    ensures s.emitted.Some? <==> PagePercent(index, totalPages).Some? && PagePercent(index, totalPages).value > current
    ensures s.emitted.Some? ==> s.emitted == PagePercent(index, totalPages) && s.emitted.value == s.progress
    ensures s.emitted.None? ==> s.progress == current
    ensures 0.0 <= current <= 100.0 ==> 0.0 <= s.progress <= 100.0
  {
    var percent := PagePercent(index, totalPages);
    if percent.Some? && percent.value > current then Step(percent.value, percent) else Step(current, None)
  }

  datatype PageEvent = PageEvent(index: int32, totalPages: int32)

  /** The stored progress after a series of page changes, and the percents reported on the way. */
  datatype Run = Run(progress: real, emitted: seq<real>)

  function ProgressRun(current: real, events: seq<PageEvent>): Run
    decreases |events|
  {
    if events == [] then Run(current, [])
    else
      var s := ProgressStep(current, events[0].index, events[0].totalPages);
      var rest := ProgressRun(s.progress, events[1..]);
      Run(rest.progress, (if s.emitted.Some? then [s.emitted.value] else []) + rest.emitted)
  }

  /** Over any series of page changes the progress never goes down. */
  lemma {:induction false} ProgressRunNeverDecreases(current: real, events: seq<PageEvent>)
    ensures ProgressRun(current, events).progress >= current
    ensures ProgressRun(current, events).emitted == [] ==> ProgressRun(current, events).progress == current
    decreases |events|
  {
    if events != [] {
      var s := ProgressStep(current, events[0].index, events[0].totalPages);
      ProgressRunNeverDecreases(s.progress, events[1..]);
    }
  }

  /**
   * Over any series of page changes every reported percent lies above the
   * starting progress and at most the final one, and the last one reported is
   * the final progress.
   */
  lemma {:induction false} ProgressRunReportsWithinBounds(current: real, events: seq<PageEvent>)
    ensures var run := ProgressRun(current, events);
      (forall k :: 0 <= k < |run.emitted| ==> current < run.emitted[k] <= run.progress) &&
      (run.emitted != [] ==> run.emitted[|run.emitted| - 1] == run.progress)
    decreases |events|
  {
    if events != [] {
      var s := ProgressStep(current, events[0].index, events[0].totalPages);
      ProgressRunReportsWithinBounds(s.progress, events[1..]);
      ProgressRunNeverDecreases(s.progress, events[1..]);
    }
  }

  /** Over any series of page changes each reported percent is above the one before. */
  lemma {:induction false} ProgressRunReportsIncreasing(current: real, events: seq<PageEvent>)
    ensures var run := ProgressRun(current, events);
      forall k :: 0 < k < |run.emitted| ==> run.emitted[k - 1] < run.emitted[k]
    decreases |events|
  {
    if events != [] {
      var s := ProgressStep(current, events[0].index, events[0].totalPages);
      ProgressRunReportsIncreasing(s.progress, events[1..]);
      ProgressRunReportsWithinBounds(s.progress, events[1..]);
    }
  }

  /** Starting at 0: page 4 of 10 reports 50, page 2 of 10 reports nothing, page 9 of 10 reports 100. */
  lemma ProgressExample()
    ensures ProgressStep(0.0, 4, 10) == Step(50.0, Some(50.0))
    ensures ProgressStep(50.0, 2, 10) == Step(50.0, None)
    ensures ProgressStep(50.0, 9, 10) == Step(100.0, Some(100.0))
    ensures ProgressRun(0.0, [PageEvent(4, 10), PageEvent(2, 10), PageEvent(9, 10)]) == Run(100.0, [50.0, 100.0])
  {
    var events := [PageEvent(4, 10), PageEvent(2, 10), PageEvent(9, 10)];
    assert events[1..] == [PageEvent(2, 10), PageEvent(9, 10)];
    assert events[1..][1..] == [PageEvent(9, 10)];
  }
}
