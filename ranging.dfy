// The auto-ranging engine as a specification: what drawing one value does to
// the sparkline's render state (watermarks, latest level, canvas sizing and the
// ordinal of the next point), and what drawing a whole sequence of values does.
// The class in controls.dfy changes its fields step by step and is proved to
// follow these functions.
module Ranging {
  import opened Geometry

  /**
   * The part of a Sparkline's state that drawing a point changes, field by
   * field: _nextXValue, the LowWaterMark, HighWaterMark and LatestLevel
   * properties, the sizing fields _lowMargin, _height, _lower, _higher, _both,
   * and the canvas's Height and Margin.
   */
  datatype Render = Render(
    nextXValue: nat,
    lowWaterMark: Option<real>,
    highWaterMark: Option<real>,
    latestLevel: Option<real>,
    lowMargin: real,
    height: real,
    lower: bool,
    higher: bool,
    both: bool,
    canvasHeight: Height,
    canvasMargin: Thickness)

  /** The state of a freshly constructed control: nothing drawn, canvas as the template gives it. */
  const Initial: Render :=
    Render(0, None, None, None, 0.0, 0.0, false, false, false, Auto, BottomMargin(0.0))

  /** The invariant drawing keeps: both watermarks or neither, low <= high, and _both == _lower && _higher. */
  predicate WellFormed(r: Render) {
    && r.lowWaterMark.Some? == r.highWaterMark.Some?
    && (r.lowWaterMark.Some? ==> r.lowWaterMark.value <= r.highWaterMark.value)
    && r.both == (r.lower && r.higher)
  }

  /** The smallest element of a non-empty sequence. */
  function MinOf(s: seq<real>): (m: real)
    requires |s| > 0
    ensures m in s
    ensures forall i :: 0 <= i < |s| ==> m <= s[i]
  {
    if |s| == 1 then s[0] else Min(MinOf(s[..|s| - 1]), s[|s| - 1])
  }

  /** The largest element of a non-empty sequence. */
  function MaxOf(s: seq<real>): (m: real)
    requires |s| > 0
    ensures m in s
    ensures forall i :: 0 <= i < |s| ==> s[i] <= m
  {
    if |s| == 1 then s[0] else Max(MaxOf(s[..|s| - 1]), s[|s| - 1])
  }

  /** An optional value as a sequence of zero or one elements. */
  function Seen(v: Option<real>): (s: seq<real>) {
    match v
    case Some(x) => [x]
    case None => []
  }

  /**
   * The watermarks and the latest level summarise the values drawn so far:
   * none before the first, then their minimum, maximum and last.
   */
  predicate Summarises(ys: seq<real>, r: Render) {
    if ys == [] then r.lowWaterMark.None? && r.highWaterMark.None? && r.latestLevel.None?
    else
      && r.lowWaterMark == Some(MinOf(ys))
      && r.highWaterMark == Some(MaxOf(ys))
      && r.latestLevel == Some(ys[|ys| - 1])
  }

  /**
   * SetWatermarks: an absent watermark is first set to y; then y raises the
   * high watermark if it is above it, or else lowers the low watermark if it
   * is below it.
   */
  function AfterWatermarks(r: Render, y: real): (r': Render) {
    var low := ValueOr(r.lowWaterMark, y);
    var high := ValueOr(r.highWaterMark, y);
    if y > high then r.(lowWaterMark := Some(low), highWaterMark := Some(y))
    else if y < low then r.(lowWaterMark := Some(y), highWaterMark := Some(high))
    else r.(lowWaterMark := Some(low), highWaterMark := Some(high))
  }

  /**
   * Setting the watermarks changes nothing else and leaves both present;
   * under the invariant they become the running minimum and maximum, and a
   * value equal to a watermark or between them changes neither.
   */
  lemma WatermarksTrack(r: Render, y: real)
    ensures var r' := AfterWatermarks(r, y);
      && r'.lowWaterMark.Some? && r'.highWaterMark.Some?
      && r' == r.(lowWaterMark := r'.lowWaterMark, highWaterMark := r'.highWaterMark)
      && (WellFormed(r) ==> WellFormed(r'))
      && (WellFormed(r) ==>
            && r'.lowWaterMark.value == Min(ValueOr(r.lowWaterMark, y), y)
            && r'.highWaterMark.value == Max(ValueOr(r.highWaterMark, y), y))
      && ((&& r.lowWaterMark.Some? && r.highWaterMark.Some?
           && r.lowWaterMark.value <= y <= r.highWaterMark.value) ==> r' == r)
  {
  }

  /** Past seeding and not yet stable, the low watermark is below the bottom of the canvas. */
  predicate ExpandsDown(r: Render, count: int) {
    count >= 2 && !r.both && r.lowWaterMark.Some? && r.lowWaterMark.value < -r.lowMargin
  }

  /**
   * After the downward check, still not stable and the high watermark above
   * the seeded height (the downward expansion completes _both when the
   * upward one has already happened).
   */
  predicate ExpandsUp(r: Render, count: int) {
    && count >= 2 && !r.both && !(ExpandsDown(r, count) && r.higher)
    && r.highWaterMark.Some? && r.highWaterMark.value > r.height
  }

  /**
   * SetCanvasHeight, where `count` is the number of records in the time
   * series when the point is drawn. While it is below 2 the canvas is seeded
   * around y. Otherwise the bottom margin and then the height expand once
   * each, and once both have expanded the height is auto and the margin
   * follows the low watermark.
   */
  function AfterCanvasHeight(r: Render, y: real, count: int, minYRange: real): (r': Render) {
    if count < 2 then
      r.(height := y + minYRange, canvasHeight := Fixed(y + minYRange),
         lowMargin := -y + minYRange, canvasMargin := BottomMargin(-y + minYRange))
    else
      var r1 :=
        if !r.both && r.lowWaterMark.Some? && r.lowWaterMark.value < r.lowMargin * -1.0 then
          var d := r.(lower := true, lowMargin := -r.lowWaterMark.value,
                      canvasMargin := BottomMargin(-r.lowWaterMark.value));
          d.(both := d.lower && d.higher)
        else r;
      var r2 :=
        if !r1.both && r1.highWaterMark.Some? && r1.highWaterMark.value > r1.height then
          var u := r1.(higher := true, canvasHeight := Fixed(r1.highWaterMark.value));
          u.(both := u.lower && u.higher)
        else r1;
      if !r2.both then r2
      else r2.(canvasHeight := Auto, canvasMargin := BottomMargin(-ValueOr(r2.lowWaterMark, 0.0)))
  }

  /**
   * Sizing the canvas touches only the sizing fields. While seeding it sets
   * the height and the bottom margin around y and leaves the flags; after
   * that _height is never written, and the flags only move from false to
   * true with _both kept as their conjunction.
   */
  lemma CanvasHeightFrame(r: Render, y: real, count: int, minYRange: real)
    ensures var r' := AfterCanvasHeight(r, y, count, minYRange);
      && r'.nextXValue == r.nextXValue && r'.latestLevel == r.latestLevel
      && r'.lowWaterMark == r.lowWaterMark && r'.highWaterMark == r.highWaterMark
      && (count < 2 ==>
            && r'.canvasHeight == Fixed(y + minYRange) && r'.height == y + minYRange
            && r'.lowMargin == minYRange - y && r'.canvasMargin == BottomMargin(minYRange - y)
            && r'.lower == r.lower && r'.higher == r.higher && r'.both == r.both)
      && (count >= 2 ==> r'.height == r.height)
      && (r.lower ==> r'.lower) && (r.higher ==> r'.higher) && (r.both ==> r'.both)
      && (r.both == (r.lower && r.higher) ==> r'.both == (r'.lower && r'.higher))
  {
  }

  /**
   * The expansions: the bottom margin moves down to the low watermark when
   * it falls below it, the height moves up to the high watermark when it
   * rises above the seeded height, each flag is set exactly when its
   * expansion first happens, and otherwise the canvas is left as it was.
   */
  lemma CanvasHeightExpands(r: Render, y: real, count: int, minYRange: real)
    ensures var r' := AfterCanvasHeight(r, y, count, minYRange);
      && (ExpandsDown(r, count) ==> r'.lower && r'.lowMargin == -r.lowWaterMark.value)
      && (ExpandsDown(r, count) && !r'.both ==> r'.canvasMargin == BottomMargin(-r.lowWaterMark.value))
      && (count >= 2 && !ExpandsDown(r, count) ==> r'.lowMargin == r.lowMargin)
      && (r'.lower != r.lower <==> ExpandsDown(r, count) && !r.lower)
      && (ExpandsUp(r, count) ==> r'.higher)
      && (ExpandsUp(r, count) && !r'.both ==> r'.canvasHeight == Fixed(r.highWaterMark.value))
      && (r'.higher != r.higher <==> ExpandsUp(r, count) && !r.higher)
      && (count >= 2 && !r'.both && !ExpandsDown(r, count) ==> r'.canvasMargin == r.canvasMargin)
      && (count >= 2 && !r'.both && !ExpandsUp(r, count) ==> r'.canvasHeight == r.canvasHeight)
  {
  }

  /** Once both have expanded, the height is auto and the bottom margin follows the low watermark. */
  lemma CanvasHeightStable(r: Render, y: real, count: int, minYRange: real)
    ensures var r' := AfterCanvasHeight(r, y, count, minYRange);
      count >= 2 && r'.both ==>
        r'.canvasHeight == Auto && r'.canvasMargin == BottomMargin(-ValueOr(r.lowWaterMark, 0.0))
  {
  }

  /**
   * The canvas heights WPF accepts: auto, or a fixed size that is not
   * negative (the Height setter throws for a negative one).
   */
  predicate HeightAccepted(h: Height) {
    h.Fixed? ==> h.size >= 0.0
  }

  /** Every height written so far was accepted, and _height is not negative. */
  predicate Sized(r: Render) {
    r.height >= 0.0 && HeightAccepted(r.canvasHeight)
  }

  /**
   * Where sizing writes a height WPF rejects: seeding writes a negative
   * height exactly for a value below -MinYRange; past seeding, from a state
   * whose _height is not negative, the upward expansion writes a positive
   * height and every height stays accepted.
   */
  lemma CanvasHeightAccepted(r: Render, y: real, count: int, minYRange: real)
    ensures var r' := AfterCanvasHeight(r, y, count, minYRange);
      && (count < 2 ==> (HeightAccepted(r'.canvasHeight) <==> y + minYRange >= 0.0))
      && (count < 2 && y + minYRange >= 0.0 ==> Sized(r'))
      && (ExpandsUp(r, count) && r.height >= 0.0 ==> r.highWaterMark.value > 0.0)
      && (count >= 2 && Sized(r) ==> Sized(r'))
  {
  }

  /**
   * AddPoint's effect on the render state: watermarks, latest level, canvas
   * sizing, then the ordinal moves on by one.
   */
  function AfterPoint(r: Render, y: real, count: int, minYRange: real): (r': Render) {
    var marked := AfterWatermarks(r, y).(latestLevel := Some(y));
    AfterCanvasHeight(marked, y, count, minYRange).(nextXValue := r.nextXValue + 1)
  }

  /**
   * Drawing a point advances the ordinal, makes y the latest level, keeps
   * the invariant with the watermarks at the running minimum and maximum,
   * never clears a flag, seeds the canvas around y while the series is
   * short, and keeps a stable canvas stable.
   */
  lemma PointTracks(r: Render, y: real, count: int, minYRange: real)
    ensures var r' := AfterPoint(r, y, count, minYRange);
      && r'.nextXValue == r.nextXValue + 1 && r'.latestLevel == Some(y)
      && r'.lowWaterMark.Some? && r'.highWaterMark.Some?
      && (WellFormed(r) ==> WellFormed(r'))
      && (WellFormed(r) ==>
            && r'.lowWaterMark == Some(Min(ValueOr(r.lowWaterMark, y), y))
            && r'.highWaterMark == Some(Max(ValueOr(r.highWaterMark, y), y)))
      && (r.lower ==> r'.lower) && (r.higher ==> r'.higher) && (r.both ==> r'.both)
      && (count < 2 ==>
            && r'.canvasHeight == Fixed(y + minYRange)
            && r'.canvasMargin == BottomMargin(minYRange - y))
      && (count >= 2 && r.both ==>
            && r'.canvasHeight == Auto
            && r'.canvasMargin == BottomMargin(-r'.lowWaterMark.value))
  {
    var marked := AfterWatermarks(r, y).(latestLevel := Some(y));
    WatermarksTrack(r, y);
    CanvasHeightFrame(marked, y, count, minYRange);
    CanvasHeightStable(marked, y, count, minYRange);
  }

  /**
   * Drawing a point keeps the watermarks at the minimum and maximum of every
   * value drawn, and the latest level at the last one.
   */
  lemma SummarisesAfterPoint(ys: seq<real>, r: Render, y: real, count: int, minYRange: real)
    requires WellFormed(r) && Summarises(ys, r)
    ensures Summarises(ys + [y], AfterPoint(r, y, count, minYRange))
  {
    var zs := ys + [y];
    assert zs[..|zs| - 1] == ys;
    PointTracks(r, y, count, minYRange);
  }

  /**
   * Drawing every value of `ys` in order while the series holds `count`
   * records, as ResetTimeSeries does with the whole series and the Add
   * handler does with the new items.
   */
  function Replay(r: Render, ys: seq<real>, count: int, minYRange: real): (r': Render)
  {
    if ys == [] then r
    else AfterPoint(Replay(r, ys[..|ys| - 1], count, minYRange), ys[|ys| - 1], count, minYRange)
  }

  /** Replaying draws one point per value. */
  lemma {:induction false} ReplayAdvances(r: Render, ys: seq<real>, count: int, minYRange: real)
    ensures Replay(r, ys, count, minYRange).nextXValue == r.nextXValue + |ys|
  {
    if ys != [] {
      ReplayAdvances(r, ys[..|ys| - 1], count, minYRange);
    }
  }

  /**
   * Appending the values of `ys` one at a time to a series that holds `count`
   * records: the k-th value is drawn when the series holds count + k + 1.
   */
  function Feed(r: Render, ys: seq<real>, count: int, minYRange: real): (r': Render)
  {
    if ys == [] then r
    else AfterPoint(Feed(r, ys[..|ys| - 1], count, minYRange), ys[|ys| - 1], count + |ys|, minYRange)
  }

  /**
   * Drawing values none of which is below -MinYRange from a sized state
   * never writes a height WPF rejects.
   */
  lemma {:induction false} ReplaySized(r: Render, ys: seq<real>, count: int, minYRange: real)
    requires Sized(r)
    requires forall i :: 0 <= i < |ys| ==> ys[i] + minYRange >= 0.0
    ensures Sized(Replay(r, ys, count, minYRange))
  {
    if ys != [] {
      var init, y := ys[..|ys| - 1], ys[|ys| - 1];
      ReplaySized(r, init, count, minYRange);
      var before := Replay(r, init, count, minYRange);
      CanvasHeightAccepted(AfterWatermarks(before, y).(latestLevel := Some(y)), y, count, minYRange);
    }
  }

  /** The same for values appended one at a time, from a new control. */
  lemma {:induction false} FeedSized(ys: seq<real>, count: int, minYRange: real)
    requires forall i :: 0 <= i < |ys| ==> ys[i] + minYRange >= 0.0
    ensures Sized(Feed(Initial, ys, count, minYRange))
  {
    if ys != [] {
      var init, y := ys[..|ys| - 1], ys[|ys| - 1];
      FeedSized(init, count, minYRange);
      var before := Feed(Initial, init, count, minYRange);
      CanvasHeightAccepted(AfterWatermarks(before, y).(latestLevel := Some(y)), y, count + |ys|, minYRange);
    }
  }

  /** What ResetTimeSeries clears before replaying: the flags, the canvas height, the ordinal. */
  function Cleared(r: Render): (r': Render) {
    r.(lower := false, higher := false, both := false, canvasHeight := Auto, nextXValue := 0)
  }

  /**
   * Replaying keeps the invariant, advances the ordinal by one per value,
   * leaves the last value as the latest level, and leaves the watermarks at
   * the minimum and maximum of the old watermarks and the values drawn.
   */
  lemma {:induction false} ReplayTracks(r: Render, ys: seq<real>, count: int, minYRange: real)
    requires WellFormed(r)
    ensures var r' := Replay(r, ys, count, minYRange);
      && WellFormed(r')
      && r'.nextXValue == r.nextXValue + |ys|
      && (|ys| > 0 ==> r'.latestLevel == Some(ys[|ys| - 1]))
      && (|Seen(r.lowWaterMark) + ys| > 0 ==>
            && r'.lowWaterMark == Some(MinOf(Seen(r.lowWaterMark) + ys))
            && r'.highWaterMark == Some(MaxOf(Seen(r.highWaterMark) + ys)))
  {
    if ys != [] {
      var init, y := ys[..|ys| - 1], ys[|ys| - 1];
      ReplayTracks(r, init, count, minYRange);
      var before := Replay(r, init, count, minYRange);
      var lows, highs := Seen(r.lowWaterMark) + ys, Seen(r.highWaterMark) + ys;
      assert lows[..|lows| - 1] == Seen(r.lowWaterMark) + init;
      assert highs[..|highs| - 1] == Seen(r.highWaterMark) + init;
      PointTracks(before, y, count, minYRange);
    }
  }

  /**
   * Every value drawn lies between the watermarks afterwards; the low
   * watermark never rises and the high watermark never falls.
   */
  lemma ReplayWithinWatermarks(r: Render, ys: seq<real>, count: int, minYRange: real)
    requires WellFormed(r) && |ys| > 0
    ensures var r' := Replay(r, ys, count, minYRange);
      && r'.lowWaterMark.Some? && r'.highWaterMark.Some?
      && (forall i :: 0 <= i < |ys| ==> r'.lowWaterMark.value <= ys[i] <= r'.highWaterMark.value)
      && (r.lowWaterMark.Some? ==> r'.lowWaterMark.value <= r.lowWaterMark.value)
      && (r.highWaterMark.Some? ==> r'.highWaterMark.value >= r.highWaterMark.value)
  {
    ReplayTracks(r, ys, count, minYRange);
    var lows, highs := Seen(r.lowWaterMark) + ys, Seen(r.highWaterMark) + ys;
    forall i | 0 <= i < |ys|
      ensures MinOf(lows) <= ys[i] <= MaxOf(highs)
    {
      assert lows[|Seen(r.lowWaterMark)| + i] == ys[i];
      assert highs[|Seen(r.highWaterMark)| + i] == ys[i];
    }
    if r.lowWaterMark.Some? {
      assert lows[0] == r.lowWaterMark.value && highs[0] == r.highWaterMark.value;
    }
  }

  /** Between resets the expansion flags only move from false to true. */
  lemma {:induction false} ReplayFlagsOneWay(r: Render, ys: seq<real>, count: int, minYRange: real)
    ensures var r' := Replay(r, ys, count, minYRange);
      (r.lower ==> r'.lower) && (r.higher ==> r'.higher) && (r.both ==> r'.both)
  {
    if ys != [] {
      ReplayFlagsOneWay(r, ys[..|ys| - 1], count, minYRange);
      PointTracks(Replay(r, ys[..|ys| - 1], count, minYRange), ys[|ys| - 1], count, minYRange);
    }
  }

  /**
   * Once both expansions have happened (and the series is past seeding),
   * every later point leaves the height auto and the bottom margin at the
   * current low watermark.
   */
  lemma {:induction false} ReplayStable(r: Render, ys: seq<real>, count: int, minYRange: real)
    requires WellFormed(r) && r.both && count >= 2 && |ys| > 0
    ensures var r' := Replay(r, ys, count, minYRange);
      && r'.both && r'.lowWaterMark.Some?
      && r'.canvasHeight == Auto
      && r'.canvasMargin == BottomMargin(-r'.lowWaterMark.value)
  {
    var init := ys[..|ys| - 1];
    ReplayFlagsOneWay(r, init, count, minYRange);
    ReplayTracks(r, init, count, minYRange);
    PointTracks(Replay(r, init, count, minYRange), ys[|ys| - 1], count, minYRange);
  }

  /** Appending 5 to an empty series with MinYRange 25 seeds height 30 and bottom margin 20. */
  lemma SeedingExample()
    ensures var r := Feed(Initial, [5.0], 0, 25.0);
      r.canvasHeight == Fixed(30.0) && r.canvasMargin == BottomMargin(20.0) && !r.lower && !r.higher
  {
    assert [5.0][..0] == [];
  }

  /**
   * Appending 5, 40, -30 with MinYRange 25: 40 expands upward, -30 expands
   * downward, so the canvas ends with auto height and bottom margin 30; with
   * -10 instead of -30 the bottom margin is not reached and nothing expands
   * downward.
   */
  lemma StableExample()
    ensures var r := Feed(Initial, [5.0, 40.0, -30.0], 0, 25.0);
      && r.both && r.canvasHeight == Auto && r.canvasMargin == BottomMargin(30.0)
      && r.lowWaterMark == Some(-30.0) && r.highWaterMark == Some(40.0)
    ensures var r := Feed(Initial, [5.0, 40.0, -10.0], 0, 25.0);
      && !r.lower && r.higher && r.lowWaterMark == Some(-10.0)
      && r.canvasHeight == Fixed(40.0) && r.canvasMargin == BottomMargin(20.0)
  {
    assert [5.0, 40.0, -30.0][..2] == [5.0, 40.0];
    assert [5.0, 40.0, -10.0][..2] == [5.0, 40.0];
    assert [5.0, 40.0][..1] == [5.0];
    assert [5.0][..0] == [];
  }

  /**
   * Appending -30 to a new control with MinYRange 25 seeds height -5, a
   * height WPF rejects: the source throws here, while the model records it.
   */
  lemma RejectedSeedExample()
    ensures var r := Feed(Initial, [-30.0], 0, 25.0);
      r.canvasHeight == Fixed(-5.0) && !HeightAccepted(r.canvasHeight)
  {
    assert [-30.0][..0] == [];
  }

  /**
   * Replaying a series skips seeding when it holds two or more records: a
   * new control whose series is reset to [5, 40] keeps bottom margin 0,
   * whereas appending 5 and then 40 leaves bottom margin 20.
   */
  lemma ReplaySkipsSeeding()
    ensures Replay(Cleared(Initial), [5.0, 40.0], 2, 25.0).canvasMargin == BottomMargin(0.0)
    ensures Feed(Initial, [5.0, 40.0], 0, 25.0).canvasMargin == BottomMargin(20.0)
  {
    assert [5.0, 40.0][..1] == [5.0];
    assert [5.0][..0] == [];
  }
}
