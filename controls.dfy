// The Sparkline control: it draws each value appended to its time series as
// the next point of a polyline, keeps the low and high watermarks and the
// latest level, sizes its canvas, and shows or hides overlay markers.
module Controls {
  import opened Geometry
  import opened Visuals
  import Ranging

  /**
   * The action of a collection-changed notification from the time series;
   * an Add carries the values of the new records.
   */
  datatype CollectionChange = Add(newItems: seq<real>) | Remove | Replace | Move | Reset

  class Sparkline {
    // Configuration (dependency properties the host sets).
    var pointRadius: real
    var minYRange: real
    var showWatermarks: bool
    var showLatestLevel: bool
    /** The values of the TimeSeries records, in order. */
    var timeSeries: seq<real>

    // Derived properties the overlay markers are bound to.
    var highWaterMark: Option<real>
    var lowWaterMark: Option<real>
    var latestLevel: Option<real>

    var nextXValue: nat
    const canvas: Grid
    const polyline: Polyline
    var highMarker: Rectangle?
    var lowMarker: Rectangle?
    var latestMarker: Rectangle?

    // Canvas sizing state.
    var lowMargin: real
    var height: real
    var lower: bool
    var higher: bool
    var both: bool

    /** Index in the polyline of the first point drawn since the last reset. */
    ghost var resetAt: nat
    /** The points announced through TimeValueAdded, in order. */
    ghost var announced: seq<Point>

    /** The render state, as the ranging specification sees it. */
    ghost function State(): Ranging.Render
      reads this, canvas
    {
      Ranging.Render(nextXValue, lowWaterMark, highWaterMark, latestLevel,
                     lowMargin, height, lower, higher, both, canvas.height, canvas.margin)
    }

    /** What drawing changes: the render state, the polyline's points, the children and the announced points. */
    ghost function Snapshot(): Drawing
      reads this, canvas, polyline
    {
      Drawing(State(), polyline.points, canvas.children, announced)
    }

    /**
     * The control's invariant: the drawing is consistent with the markers
     * held (see Consistent), and each overlay is enabled exactly when its
     * marker is held.
     */
    ghost predicate Valid()
      reads this, canvas, polyline
    {
      && resetAt <= |polyline.points|
      && nextXValue == |polyline.points| - resetAt
      && ChildrenValid(canvas.children, lowMarker, highMarker, latestMarker)
      && (lowMarker != null <==> showWatermarks)
      && (highMarker != null <==> showWatermarks)
      && (latestMarker != null <==> showLatestLevel)
    }

    /** The margin a marker's binding gives it: the converter applied to the property it follows. */
    function BoundMargin(rect: Rectangle): (m: Thickness)
      reads this
      ensures m.left == 0.0 && m.right == 0.0 && m.bottom == 0.0
      ensures rect.source == LowWaterMark ==> m.top == ValueOr(lowWaterMark, 0.0)
      ensures rect.source == HighWaterMark ==> m.top == ValueOr(highWaterMark, 0.0)
      ensures rect.source == LatestLevel ==> m.top == ValueOr(latestLevel, 0.0)
    {
      YCoordinateToThickness(
        match rect.source
        case LowWaterMark => lowWaterMark
        case HighWaterMark => highWaterMark
        case LatestLevel => latestLevel)
    }

    /**
     * A control with its template applied: default settings, an empty time
     * series, a canvas that holds the polyline and nothing drawn.
     */
    constructor ()
      ensures Valid() && fresh(canvas) && fresh(polyline)
      ensures State() == Ranging.Initial
      ensures timeSeries == [] && polyline.points == [] && canvas.children == [Line]
      ensures pointRadius == 0.0 && minYRange == 25.0 && !showWatermarks && !showLatestLevel
      ensures announced == []
    {
      pointRadius := 0.0;
      minYRange := 25.0;
      showWatermarks := false;
      showLatestLevel := false;
      timeSeries := [];
      highWaterMark, lowWaterMark, latestLevel := None, None, None;
      nextXValue := 0;
      canvas := new Grid();
      polyline := new Polyline();
      highMarker, lowMarker, latestMarker := null, null, null;
      lowMargin, height := 0.0, 0.0;
      lower, higher, both := false, false, false;
      resetAt := 0;
      announced := [];
      ResetChildren(null, null, null);
      assert Layout(null, null, null) == [Line];
    }

    /** Appends a record with this value to the time series, which notifies an Add of it. */
    method AddTimeValue(value: real)
      requires Valid()
      modifies this`timeSeries, this`announced, this`resetAt, this`nextXValue, this`lowWaterMark, this`highWaterMark, this`latestLevel
      modifies this`lowMargin, this`height, this`lower, this`higher, this`both
      modifies canvas`height, canvas`margin, canvas`children, polyline`points
      ensures Valid() && resetAt == old(resetAt)
      ensures timeSeries == old(timeSeries) + [value]
      ensures Snapshot() == DrawPoint(old(Snapshot()), value, |timeSeries|, minYRange, pointRadius > 0.0)
    {
      timeSeries := timeSeries + [value];
      TimeSeriesCollectionChanged(Add([value]));
      assert [value][..0] == [];
    }

    /**
     * Replaces the records of the time series with records of these values,
     * which the series notifies as a change other than Add.
     */
    method ReplaceTimeSeries(values: seq<real>)
      requires Valid()
      modifies this`timeSeries, this`announced, this`resetAt, this`nextXValue, this`lowWaterMark, this`highWaterMark, this`latestLevel
      modifies this`lowMargin, this`height, this`lower, this`higher, this`both
      modifies canvas`height, canvas`margin, canvas`children, polyline`points
      ensures Valid() && timeSeries == values && resetAt == |old(polyline.points)|
      ensures Snapshot() == DrawAll(ClearedDrawing(old(Snapshot()), lowMarker, highMarker, latestMarker),
                                    values, |values|, minYRange, pointRadius > 0.0)
    {
      timeSeries := values;
      TimeSeriesCollectionChanged(Reset);
    }

    /**
     * The series' change handler: an Add draws each new item in order; any
     * other change resets the drawing and replays the whole series.
     */
    method TimeSeriesCollectionChanged(e: CollectionChange)
      requires Valid()
      modifies this`announced, this`resetAt, this`nextXValue, this`lowWaterMark, this`highWaterMark, this`latestLevel
      modifies this`lowMargin, this`height, this`lower, this`higher, this`both
      modifies canvas`height, canvas`margin, canvas`children, polyline`points
      ensures Valid()
      ensures e.Add? ==>
                && Snapshot() == DrawAll(old(Snapshot()), e.newItems, |timeSeries|, minYRange, pointRadius > 0.0)
                && resetAt == old(resetAt)
      ensures !e.Add? ==>
                && Snapshot() == DrawAll(ClearedDrawing(old(Snapshot()), lowMarker, highMarker, latestMarker),
                                         timeSeries, |timeSeries|, minYRange, pointRadius > 0.0)
                && resetAt == |old(polyline.points)|
    {
      match e
      case Add(items) =>
        DrawTimeValues(items);
        DrawAllConsistent(old(Snapshot()), items, |timeSeries|, minYRange, pointRadius > 0.0,
                          resetAt, lowMarker, highMarker, latestMarker);
      case _ =>
        ResetTimeSeries();
    }

    /**
     * Clears the expansion flags, rebuilds the children as the polyline and
     * the enabled markers, sets the canvas height to auto and the ordinal to
     * zero, then draws every record again. The watermarks, the latest level,
     * _lowMargin, _height and the polyline's points are left as they were.
     */
    method ResetTimeSeries()
      requires Valid()
      modifies this`announced, this`resetAt, this`nextXValue, this`lowWaterMark, this`highWaterMark, this`latestLevel
      modifies this`lowMargin, this`height, this`lower, this`higher, this`both
      modifies canvas`height, canvas`margin, canvas`children, polyline`points
      ensures Valid()
      ensures Snapshot() == DrawAll(ClearedDrawing(old(Snapshot()), lowMarker, highMarker, latestMarker),
                                    timeSeries, |timeSeries|, minYRange, pointRadius > 0.0)
      ensures resetAt == |old(polyline.points)|
    {
      ClearDrawing();
      assert Snapshot() == ClearedDrawing(old(Snapshot()), lowMarker, highMarker, latestMarker);
      ghost var cleared := Snapshot();
      DrawTimeValues(timeSeries);
      DrawAllConsistent(cleared, timeSeries, |timeSeries|, minYRange, pointRadius > 0.0,
                        resetAt, lowMarker, highMarker, latestMarker);
    }

    /**
     * The part of ResetTimeSeries before the replay: clears the expansion
     * flags, rebuilds the children, sets the canvas height to auto and the
     * ordinal to zero.
     */
    method ClearDrawing()
      requires Valid()
      modifies this`resetAt, this`nextXValue, this`lower, this`higher, this`both, canvas`height, canvas`children
      ensures Valid()
      ensures State() == Ranging.Cleared(old(State()))
      ensures canvas.children == Layout(lowMarker, highMarker, latestMarker)
      ensures resetAt == |polyline.points|
    {
      ResetChildren(lowMarker, highMarker, latestMarker);
      both, lower, higher := false, false, false;
      canvas.children := [Line] + (if showWatermarks then [Marker(lowMarker), Marker(highMarker)] else [])
                         + (if showLatestLevel then [Marker(latestMarker)] else []);
      canvas.height := Auto;
      nextXValue := 0;
      resetAt := |polyline.points|;
    }

    /**
     * Draws each of the values in order, as the foreach loops of the Add
     * case and of ResetTimeSeries do.
     */
    method DrawTimeValues(values: seq<real>)
      modifies this`announced, this`nextXValue, this`lowWaterMark, this`highWaterMark, this`latestLevel
      modifies this`lowMargin, this`height, this`lower, this`higher, this`both
      modifies canvas`height, canvas`margin, canvas`children, polyline`points
      ensures Snapshot() == DrawAll(old(Snapshot()), values, |timeSeries|, minYRange, pointRadius > 0.0)
    {
      ghost var before := Snapshot();
      for i := 0 to |values|
        invariant Snapshot() == DrawAll(before, values[..i], |timeSeries|, minYRange, pointRadius > 0.0)
      {
        DrawTimeValue(values[i]);
        DrawAllStep(before, values, i, |timeSeries|, minYRange, pointRadius > 0.0);
      }
      assert values[..|values|] == values;
    }

    /** Maps the value to the next point, adds it and announces it through TimeValueAdded. */
    method DrawTimeValue(value: real)
      modifies this`announced, this`nextXValue, this`lowWaterMark, this`highWaterMark, this`latestLevel
      modifies this`lowMargin, this`height, this`lower, this`higher, this`both
      modifies canvas`height, canvas`margin, canvas`children, polyline`points
      ensures Snapshot() == DrawPoint(old(Snapshot()), value, |timeSeries|, minYRange, pointRadius > 0.0)
    {
      var point := GetPoint(nextXValue, value);
      AddPoint(point);
      announced := announced + [point];
    }

    /**
     * Commits a point: it joins the polyline, updates the watermarks, the
     * latest level and the canvas size, gets a dot when PointRadius > 0, and
     * the ordinal moves on.
     */
    method AddPoint(point: Point)
      modifies this`nextXValue, this`lowWaterMark, this`highWaterMark, this`latestLevel
      modifies this`lowMargin, this`height, this`lower, this`higher, this`both
      modifies canvas`height, canvas`margin, canvas`children, polyline`points
      ensures State() == Ranging.AfterPoint(old(State()), point.y, |timeSeries|, minYRange)
      ensures polyline.points == old(polyline.points) + [point]
      ensures canvas.children == old(canvas.children) + (if pointRadius > 0.0 then [Dot(point)] else [])
    {
      polyline.points := polyline.points + [point];
      SetWatermarks(point.y);
      SetLatestLevel(point.y);
      SetCanvasHeight(point.y);
      if pointRadius > 0.0 {
        canvas.children := canvas.children + [Dot(point)];
      }
      nextXValue := nextXValue + 1;
    }

    /** Sets each absent watermark to y, then raises the high one to y or else lowers the low one. */
    method SetWatermarks(y: real)
      modifies this`lowWaterMark, this`highWaterMark
      ensures State() == Ranging.AfterWatermarks(old(State()), y)
    {
      if lowWaterMark == None {
        lowWaterMark := Some(y);
      }
      if highWaterMark == None {
        highWaterMark := Some(y);
      }
      if highWaterMark.Some? && y > highWaterMark.value {
        highWaterMark := Some(y);
      } else if lowWaterMark.Some? && y < lowWaterMark.value {
        lowWaterMark := Some(y);
      }
    }

    method SetLatestLevel(y: real)
      modifies this`latestLevel
      ensures State() == old(State()).(latestLevel := Some(y))
    {
      latestLevel := Some(y);
    }

    /** The canvas-sizing state machine: seeding, downward and upward expansion, stable. */
    method SetCanvasHeight(y: real)
      modifies this`lowMargin, this`height, this`lower, this`higher, this`both, canvas`height, canvas`margin
      ensures State() == Ranging.AfterCanvasHeight(old(State()), y, |timeSeries|, minYRange)
    {
      if |timeSeries| < 2 {
        height := y + minYRange;
        canvas.height := Fixed(height);
        lowMargin := -y + minYRange;
        canvas.margin := BottomMargin(lowMargin);
        return;
      }
      if !both && lowWaterMark.Some? && lowWaterMark.value < lowMargin * -1.0 {
        lower := true;
        lowMargin := -lowWaterMark.value;
        canvas.margin := BottomMargin(lowMargin);
        both := lower && higher;
      }
      if !both && highWaterMark.Some? && highWaterMark.value > height {
        higher := true;
        canvas.height := Fixed(highWaterMark.value);
        both := lower && higher;
      }
      if !both {
        return;
      }
      canvas.height := Auto;
      canvas.margin := BottomMargin(-ValueOr(lowWaterMark, 0.0));
    }

    /**
     * Sets ShowWatermarks; when the value changes, enabling puts a new low
     * marker and then a new high marker at the front of the children, and
     * disabling removes both markers and forgets them.
     */
    method SetShowWatermarks(show: bool)
      requires Valid()
      modifies this`showWatermarks, this`lowMarker, this`highMarker, canvas`children
      ensures Valid() && showWatermarks == show
      ensures show == old(showWatermarks) ==>
                && canvas.children == old(canvas.children)
                && lowMarker == old(lowMarker) && highMarker == old(highMarker)
      ensures show && !old(showWatermarks) ==>
                && lowMarker != null && highMarker != null && fresh(lowMarker) && fresh(highMarker)
                && canvas.children == [Marker(highMarker), Marker(lowMarker)] + old(canvas.children)
      ensures !show && old(showWatermarks) ==>
                && lowMarker == null && highMarker == null
                && canvas.children ==
                     Without(Without(old(canvas.children), Marker(old(lowMarker))), Marker(old(highMarker)))
    {
      if show == showWatermarks {
        return;
      }
      showWatermarks := show;
      if showWatermarks {
        lowMarker := new Rectangle(LowWaterMark);
        ChildrenPrepend(canvas.children, lowMarker, null, null, latestMarker, lowMarker, null, latestMarker);
        canvas.children := [Marker(lowMarker)] + canvas.children;
        highMarker := new Rectangle(HighWaterMark);
        ChildrenPrepend(canvas.children, highMarker, lowMarker, null, latestMarker, lowMarker, highMarker, latestMarker);
        canvas.children := [Marker(highMarker)] + canvas.children;
      } else {
        if lowMarker != null {
          ChildrenRemove(canvas.children, lowMarker, lowMarker, highMarker, latestMarker);
          RemoveOnly(canvas.children, Marker(lowMarker));
          canvas.children := RemoveFirst(canvas.children, Marker(lowMarker));
          lowMarker := null;
        }
        if highMarker != null {
          ChildrenRemove(canvas.children, highMarker, lowMarker, highMarker, latestMarker);
          RemoveOnly(canvas.children, Marker(highMarker));
          canvas.children := RemoveFirst(canvas.children, Marker(highMarker));
          highMarker := null;
        }
      }
    }

    /**
     * Sets ShowLatestLevel; when the value changes, enabling puts a new
     * latest-level marker at the front of the children, and disabling removes
     * it and forgets it.
     */
    method SetShowLatestLevel(show: bool)
      requires Valid()
      modifies this`showLatestLevel, this`latestMarker, canvas`children
      ensures Valid() && showLatestLevel == show
      ensures show == old(showLatestLevel) ==>
                canvas.children == old(canvas.children) && latestMarker == old(latestMarker)
      ensures show && !old(showLatestLevel) ==>
                && latestMarker != null && fresh(latestMarker)
                && canvas.children == [Marker(latestMarker)] + old(canvas.children)
      ensures !show && old(showLatestLevel) ==>
                && latestMarker == null
                && canvas.children == Without(old(canvas.children), Marker(old(latestMarker)))
    {
      if show == showLatestLevel {
        return;
      }
      showLatestLevel := show;
      if showLatestLevel {
        latestMarker := new Rectangle(LatestLevel);
        ChildrenPrepend(canvas.children, latestMarker, lowMarker, highMarker, null, lowMarker, highMarker, latestMarker);
        canvas.children := [Marker(latestMarker)] + canvas.children;
      } else {
        if latestMarker != null {
          ChildrenRemove(canvas.children, latestMarker, lowMarker, highMarker, latestMarker);
          RemoveOnly(canvas.children, Marker(latestMarker));
          canvas.children := RemoveFirst(canvas.children, Marker(latestMarker));
          latestMarker := null;
        }
      }
    }
  }

  /**
   * The part of the control that drawing changes: the render state, the
   * polyline's points, the canvas children and the points announced
   * through TimeValueAdded.
   */
  datatype Drawing = Drawing(render: Ranging.Render, points: seq<Point>, children: seq<Child>, announced: seq<Point>)

  /**
   * Drawing one value: its point at the next ordinal joins the polyline,
   * the render state takes it in, a dot is added when dots are drawn, and
   * the point is announced.
   */
  ghost function DrawPoint(d: Drawing, y: real, count: int, minYRange: real, dotted: bool): (d': Drawing) {
    var p := GetPoint(d.render.nextXValue, y);
    Drawing(Ranging.AfterPoint(d.render, y, count, minYRange), d.points + [p],
            d.children + (if dotted then [Dot(p)] else []), d.announced + [p])
  }

  /** Drawing the values in order. */
  ghost function DrawAll(d: Drawing, ys: seq<real>, count: int, minYRange: real, dotted: bool): (d': Drawing) {
    if ys == [] then d
    else DrawPoint(DrawAll(d, ys[..|ys| - 1], count, minYRange, dotted), ys[|ys| - 1], count, minYRange, dotted)
  }

  /**
   * What ResetTimeSeries does before replaying: the render state is cleared,
   * the children become the polyline and the markers held, and the points
   * drawn so far stay.
   */
  ghost function ClearedDrawing(d: Drawing, low: Rectangle?, high: Rectangle?, latest: Rectangle?): (d': Drawing) {
    d.(render := Ranging.Cleared(d.render), children := Layout(low, high, latest))
  }

  /** Drawing one more value of a prefix. */
  lemma DrawAllStep(d: Drawing, ys: seq<real>, i: nat, count: int, minYRange: real, dotted: bool)
    requires i < |ys|
    ensures DrawAll(d, ys[..i + 1], count, minYRange, dotted)
            == DrawPoint(DrawAll(d, ys[..i], count, minYRange, dotted), ys[i], count, minYRange, dotted)
  {
    assert ys[..i + 1][..i] == ys[..i];
  }

  /** Drawing values replays them on the render state. */
  lemma {:induction false} DrawAllRender(d: Drawing, ys: seq<real>, count: int, minYRange: real, dotted: bool)
    ensures DrawAll(d, ys, count, minYRange, dotted).render == Ranging.Replay(d.render, ys, count, minYRange)
  {
    if ys != [] {
      DrawAllRender(d, ys[..|ys| - 1], count, minYRange, dotted);
    }
  }

  /** Each value drawn advances the ordinal by one. */
  lemma DrawAllAdvances(d: Drawing, ys: seq<real>, count: int, minYRange: real, dotted: bool)
    ensures DrawAll(d, ys, count, minYRange, dotted).render.nextXValue == d.render.nextXValue + |ys|
  {
    DrawAllRender(d, ys, count, minYRange, dotted);
    Ranging.ReplayAdvances(d.render, ys, count, minYRange);
  }

  /** Drawing values appends their plot to the polyline's points. */
  lemma {:induction false} DrawAllPoints(d: Drawing, ys: seq<real>, count: int, minYRange: real, dotted: bool)
    ensures DrawAll(d, ys, count, minYRange, dotted).points == d.points + Plot(ys, d.render.nextXValue)
  {
    if ys != [] {
      var init := ys[..|ys| - 1];
      DrawAllPoints(d, init, count, minYRange, dotted);
      DrawAllAdvances(d, init, count, minYRange, dotted);
      AppendLast(d.points, Plot(init, d.render.nextXValue), GetPoint(d.render.nextXValue + |init|, ys[|ys| - 1]));
    }
  }

  /** Drawing values announces their plot. */
  lemma {:induction false} DrawAllAnnounced(d: Drawing, ys: seq<real>, count: int, minYRange: real, dotted: bool)
    ensures DrawAll(d, ys, count, minYRange, dotted).announced == d.announced + Plot(ys, d.render.nextXValue)
  {
    if ys != [] {
      var init := ys[..|ys| - 1];
      DrawAllAnnounced(d, init, count, minYRange, dotted);
      DrawAllAdvances(d, init, count, minYRange, dotted);
      AppendLast(d.announced, Plot(init, d.render.nextXValue), GetPoint(d.render.nextXValue + |init|, ys[|ys| - 1]));
    }
  }

  /** Drawing values appends one dot per point to the children when dots are drawn, and nothing otherwise. */
  lemma {:induction false} DrawAllChildren(d: Drawing, ys: seq<real>, count: int, minYRange: real, dotted: bool)
    ensures DrawAll(d, ys, count, minYRange, dotted).children
            == d.children + (if dotted then Dots(Plot(ys, d.render.nextXValue)) else [])
  {
    if ys != [] {
      var init := ys[..|ys| - 1];
      DrawAllChildren(d, init, count, minYRange, dotted);
      DrawAllAdvances(d, init, count, minYRange, dotted);
      var ps, p := Plot(init, d.render.nextXValue), GetPoint(d.render.nextXValue + |init|, ys[|ys| - 1]);
      if dotted {
        DotsSnoc(ps, p);
        AppendLast(d.children, Dots(ps), Dot(p));
      }
    }
  }

  /**
   * The structural part of the control's invariant, over a drawing: the
   * ordinal counts the points drawn since the last reset, at `resetAt`, and
   * the children hold the polyline and the markers as ChildrenValid says.
   */
  ghost predicate Consistent(d: Drawing, resetAt: nat, low: Rectangle?, high: Rectangle?, latest: Rectangle?) {
    && resetAt <= |d.points|
    && d.render.nextXValue == |d.points| - resetAt
    && ChildrenValid(d.children, low, high, latest)
  }

  /** Drawing values keeps a drawing consistent. */
  lemma DrawAllConsistent(d: Drawing, ys: seq<real>, count: int, minYRange: real, dotted: bool,
                          resetAt: nat, low: Rectangle?, high: Rectangle?, latest: Rectangle?)
    requires Consistent(d, resetAt, low, high, latest)
    ensures Consistent(DrawAll(d, ys, count, minYRange, dotted), resetAt, low, high, latest)
  {
    DrawAllChildren(d, ys, count, minYRange, dotted);
    DrawAllAdvances(d, ys, count, minYRange, dotted);
    DotsAreDots(Plot(ys, d.render.nextXValue));
    ChildrenAppend(d.children, if dotted then Dots(Plot(ys, d.render.nextXValue)) else [], low, high, latest);
  }

  /**
   * A reset followed by a replay leaves a consistent drawing whose points
   * since the reset start where the old points ended, whatever the drawing
   * was before.
   */
  lemma ResetConsistent(d: Drawing, ys: seq<real>, count: int, minYRange: real, dotted: bool,
                        low: Rectangle?, high: Rectangle?, latest: Rectangle?)
    requires (low == null) == (high == null)
    requires low != null ==> low.source == LowWaterMark
    requires high != null ==> high.source == HighWaterMark
    requires latest != null ==> latest.source == LatestLevel
    ensures Consistent(DrawAll(ClearedDrawing(d, low, high, latest), ys, count, minYRange, dotted),
                       |d.points|, low, high, latest)
  {
    ResetChildren(low, high, latest);
    DrawAllConsistent(ClearedDrawing(d, low, high, latest), ys, count, minYRange, dotted,
                      |d.points|, low, high, latest);
  }

  /**
   * What a reset and replay leave: the render state is the replay of the
   * series on the cleared state, and the polyline keeps the points drawn
   * before the reset, followed by the series plotted from ordinal zero.
   */
  lemma ResetKeepsPoints(d: Drawing, ys: seq<real>, count: int, minYRange: real, dotted: bool,
                         low: Rectangle?, high: Rectangle?, latest: Rectangle?)
    ensures DrawAll(ClearedDrawing(d, low, high, latest), ys, count, minYRange, dotted).render
            == Ranging.Replay(Ranging.Cleared(d.render), ys, count, minYRange)
    ensures DrawAll(ClearedDrawing(d, low, high, latest), ys, count, minYRange, dotted).points == d.points + Plot(ys, 0)
  {
    DrawAllRender(ClearedDrawing(d, low, high, latest), ys, count, minYRange, dotted);
    DrawAllPoints(ClearedDrawing(d, low, high, latest), ys, count, minYRange, dotted);
  }

  /**
   * Resetting twice over the same non-empty series does not leave the
   * drawing the first reset left: the second replay adds the series' points
   * to the polyline again.
   */
  lemma ResetTwiceGrows(d: Drawing, ys: seq<real>, count: int, minYRange: real, dotted: bool,
                        low: Rectangle?, high: Rectangle?, latest: Rectangle?)
    requires ys != []
    ensures var once := DrawAll(ClearedDrawing(d, low, high, latest), ys, count, minYRange, dotted);
            var twice := DrawAll(ClearedDrawing(once, low, high, latest), ys, count, minYRange, dotted);
            |twice.points| == |once.points| + |ys| && twice != once
  {
    var once := DrawAll(ClearedDrawing(d, low, high, latest), ys, count, minYRange, dotted);
    ResetKeepsPoints(d, ys, count, minYRange, dotted, low, high, latest);
    ResetKeepsPoints(once, ys, count, minYRange, dotted, low, high, latest);
  }

  /**
   * The drawing part of the control's invariant: the render state is well
   * formed, the k-th point since the last reset, at `resetAt`, has x = 2k,
   * and the watermarks and the latest level summarise every point of the
   * polyline.
   */
  ghost predicate Drawn(d: Drawing, resetAt: nat) {
    && Ranging.WellFormed(d.render)
    && resetAt <= |d.points|
    && d.render.nextXValue == |d.points| - resetAt
    && (forall k :: resetAt <= k < |d.points| ==> d.points[k].x == XWidth * (k - resetAt))
    && Ranging.Summarises(Ys(d.points), d.render)
  }

  /** A new control's drawing, with nothing drawn and only the polyline as child, meets the invariant. */
  lemma DrawnInitially()
    ensures Drawn(Drawing(Ranging.Initial, [], [Line], []), 0)
  {
  }

  /** Drawing one value keeps the invariant. */
  lemma DrawnAfterPoint(d: Drawing, resetAt: nat, y: real, count: int, minYRange: real, dotted: bool)
    requires Drawn(d, resetAt)
    ensures Drawn(DrawPoint(d, y, count, minYRange, dotted), resetAt)
  {
    var p := GetPoint(d.render.nextXValue, y);
    YsSnoc(d.points, p);
    Ranging.PointTracks(d.render, y, count, minYRange);
    Ranging.SummarisesAfterPoint(Ys(d.points), d.render, y, count, minYRange);
  }

  /** Drawing values keeps the invariant. */
  lemma {:induction false} DrawnAfterAll(d: Drawing, resetAt: nat, ys: seq<real>, count: int, minYRange: real,
                                         dotted: bool)
    requires Drawn(d, resetAt)
    ensures Drawn(DrawAll(d, ys, count, minYRange, dotted), resetAt)
  {
    if ys != [] {
      DrawnAfterAll(d, resetAt, ys[..|ys| - 1], count, minYRange, dotted);
      DrawnAfterPoint(DrawAll(d, ys[..|ys| - 1], count, minYRange, dotted), resetAt, ys[|ys| - 1],
                      count, minYRange, dotted);
    }
  }

  /**
   * A reset keeps the invariant with the points since the reset starting
   * after the old points: the watermarks, which a reset leaves, still
   * summarise them.
   */
  lemma DrawnAfterClear(d: Drawing, resetAt: nat, low: Rectangle?, high: Rectangle?, latest: Rectangle?)
    requires Drawn(d, resetAt)
    ensures Drawn(ClearedDrawing(d, low, high, latest), |d.points|)
  {
  }

  /** Appending to the end of a concatenation appends to its second part. */
  lemma AppendLast<T>(a: seq<T>, b: seq<T>, x: T)
    ensures a + (b + [x]) == (a + b) + [x]
  {
  }

  /** One more point: one more dot. */
  lemma DotsSnoc(ps: seq<Point>, p: Point)
    ensures Dots(ps + [p]) == Dots(ps) + [Dot(p)]
  {
    assert (ps + [p])[..|ps|] == ps;
  }
}
