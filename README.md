# Sparkline layout engine in Dafny

This project models the incremental layout engine of the WPF `Sparkline`
control (`Schementi.Controls.Sparkline/Sparkline.cs`). Each value appended to
the control's time series goes through the same pipeline:

1. It is mapped to a point. The point's x is `_nextXValue * XWidth`, with `XWidth = 2`, and its y is the value.
2. The low and high watermarks and the latest level are updated.
3. A small state machine over `_lower`, `_higher` and `_both` sizes the canvas: seeding, downward and upward expansion, then stable.
4. The point is committed to the polyline, with a dot when `PointRadius > 0`, and the ordinal moves on.

Any collection change other than Add resets the drawing and replays the whole series. Two toggles insert or remove overlay markers that follow the watermarks and the latest level.

The modules:

- `Geometry`: points, thicknesses, the `Fixed(size) | Auto` height (the source writes NaN for auto), `GetPoint` and the `YCoordinateToThicknessConverter`.
- `Ranging`: pure functions that say what one point does to the render state (`AfterPoint`), and what a sequence of points does (`Replay` and `Feed`). It also holds the lemmas about the watermarks, the expansion flags and the stable phase.
- `Visuals`: the canvas (`Grid`), the `Polyline`, the overlay `Rectangle`s, and canvas children as `Line | Marker(rect) | Dot(point)`. It defines what makes the children valid (`ChildrenValid`) and the lemmas that keep them valid when markers are inserted or removed.
- `Controls`: the class `Sparkline`, with the source's fields as mutable fields. Each method is proved against the pure specification:
  - `AddPoint` and `SetCanvasHeight` against `Ranging`;
  - `DrawTimeValue` against `DrawPoint`;
  - the Add and reset paths against `DrawAll` and `ClearedDrawing`.

  The class invariant `Valid` is kept by every public operation. The `Drawn` lemmas show that drawing keeps the x = 2k layout and the watermark summary.
- `Scenarios`: a host appending 5, 40, -30, showing the watermarks, then replacing the series.

The model follows the code as written, including these behaviours:

- Seeding tests the number of records in the series (`TimeSeries.Count < 2`, line 408), not the number of points drawn. A reset that replays two or more records therefore never seeds. `Ranging.ReplaySkipsSeeding` shows this: replaying [5, 40] leaves bottom margin 0, where appending them one at a time leaves 20.
- `_height` is written only while seeding. The upward expansion sets the canvas height but not `_height` (lines 420-422).
- A reset clears only `_lower`, `_higher`, `_both`, the canvas height, the children and `_nextXValue` (lines 339-351). It leaves these unchanged:
  - the watermarks and `LatestLevel`;
  - `_lowMargin` and `_height`;
  - the polyline's points.

  The replayed points are appended after the old ones and start again at x = 0 (`Controls.ResetKeepsPoints`). A second reset over the same series therefore does not give the same drawing (`Controls.ResetTwiceGrows`). So a reset does not restore the initial render state, and resetting twice over the same series does not give the same drawing.

## Model

| member | source | states |
|---|---|---|
| Geometry.GetPoint | Schementi.Controls.Sparkline/Sparkline.cs:383-385 | the point drawn at ordinal n has x = 2n (its ordinal is recoverable from x, which is even) and y = the raw value; non-negative ordinals give non-negative x |
| Geometry.YCoordinateToThickness | Schementi.Controls.Sparkline/Sparkline.cs:477-480 | the converter's thickness has zero left, right and bottom; its top is 0 for an absent value and the value itself otherwise |
| Ranging.MinOf | Schementi.Controls.Sparkline/Sparkline.cs:387-395 | the running minimum the low watermark tracks is an element of the values and below every one of them |
| Ranging.MaxOf | Schementi.Controls.Sparkline/Sparkline.cs:387-395 | the running maximum the high watermark tracks is an element of the values and above every one of them |
| Ranging.WatermarksTrack | Schementi.Controls.Sparkline/Sparkline.cs:387-395 | SetWatermarks leaves both watermarks present and changes nothing else, keeps low <= high, makes them min(low, y) and max(high, y), and changes neither for a value between or equal to them |
| Ranging.CanvasHeightFrame | Schementi.Controls.Sparkline/Sparkline.cs:407-428 | sizing touches only the sizing fields; while the series has fewer than 2 records the height is y + MinYRange and the bottom margin MinYRange - y with flags unchanged; afterwards _height is never written; flags only go from false to true and _both stays their conjunction |
| Ranging.CanvasHeightExpands | Schementi.Controls.Sparkline/Sparkline.cs:414-424 | a low watermark below the bottom sets _lower and moves _lowMargin to -LowWaterMark; a high watermark above _height sets _higher and the canvas height to HighWaterMark; each flag changes exactly when its expansion first fires; the canvas margin follows a downward expansion to -LowWaterMark; otherwise margin and height stay |
| Ranging.CanvasHeightStable | Schementi.Controls.Sparkline/Sparkline.cs:425-427 | once _both holds past seeding, the height is auto and the bottom margin -(LowWaterMark ?? 0) |
| Ranging.CanvasHeightAccepted | Schementi.Controls.Sparkline/Sparkline.cs:407-424 | the height seeding writes is one WPF rejects (negative) exactly when y < -MinYRange; past seeding, from a non-negative _height, the upward expansion writes a positive height and every height stays accepted |
| Ranging.ReplaySized | Schementi.Controls.Sparkline/Sparkline.cs:352-354 | replaying values none of which is below -MinYRange never writes a rejected height |
| Ranging.FeedSized | Schementi.Controls.Sparkline/Sparkline.cs:407-428 | appending such values one at a time to a new control never writes a rejected height |
| Ranging.RejectedSeedExample | Schementi.Controls.Sparkline/Sparkline.cs:408-409 | appending -30 with MinYRange 25 to a new control seeds height -5, which WPF rejects |
| Ranging.PointTracks | Schementi.Controls.Sparkline/Sparkline.cs:364-373 | one point advances the ordinal by one, makes y the latest level, keeps the invariant with watermarks at the running min and max, never clears a flag, seeds around y while the series is short, and keeps a stable canvas stable |
| Ranging.SummarisesAfterPoint | Schementi.Controls.Sparkline/Sparkline.cs:366-367 | after a point, the watermarks are the min and max of every value drawn and the latest level is the last value |
| Ranging.ReplayAdvances | Schementi.Controls.Sparkline/Sparkline.cs:352-354 | replaying n values advances the ordinal by n |
| Ranging.ReplayTracks | Schementi.Controls.Sparkline/Sparkline.cs:352-354 | a replay keeps the invariant, advances the ordinal by the number of values, leaves the last value as latest level and the watermarks at the min and max of the old watermarks and the values |
| Ranging.ReplayWithinWatermarks | Schementi.Controls.Sparkline/Sparkline.cs:387-395 | every value drawn lies between the watermarks afterwards; the low watermark never rises and the high watermark never falls |
| Ranging.ReplayFlagsOneWay | Schementi.Controls.Sparkline/Sparkline.cs:414-424 | between resets the expansion flags only move from false to true |
| Ranging.ReplayStable | Schementi.Controls.Sparkline/Sparkline.cs:425-427 | once both expansions have fired, every later point leaves the height auto and the margin at the current low watermark |
| Ranging.SeedingExample | Schementi.Controls.Sparkline/Sparkline.cs:408-412 | appending 5 with MinYRange 25 to an empty series gives height 30 and bottom margin 20 with no flag set |
| Ranging.StableExample | Schementi.Controls.Sparkline/Sparkline.cs:414-427 | appending 5, 40, -30 ends with _both, auto height and bottom margin 30; with -10 instead the low side never expands and the height stays 40 |
| Ranging.ReplaySkipsSeeding | Schementi.Controls.Sparkline/Sparkline.cs:408 | a reset replaying [5, 40] skips seeding (bottom margin 0) where appending the same values seeds (bottom margin 20) |
| Visuals.RemoveFirst | Schementi.Controls.Sparkline/Sparkline.cs:181 | Remove takes out one occurrence of the child when there is one and leaves the multiset of the other children as it was |
| Visuals.Without | Schementi.Controls.Sparkline/Sparkline.cs:181 | leaving a child out removes every occurrence and adds nothing, changes nothing when it is absent, and shortens the children by its count |
| Visuals.FirstIndex | Schementi.Controls.Sparkline/Sparkline.cs:181 | the position Remove acts on holds the child and no earlier position does |
| Visuals.RemoveFirstKeepsOrder | Schementi.Controls.Sparkline/Sparkline.cs:181 | Remove keeps the other children in their order: nothing changes when the child is absent, and otherwise exactly its first occurrence is cut out |
| Visuals.RemoveFirstCuts | Schementi.Controls.Sparkline/Sparkline.cs:181 | when position i holds the child's first occurrence, Remove leaves the children before i and after i, in order |
| Visuals.RemoveOnly | Schementi.Controls.Sparkline/Sparkline.cs:181 | when a child occurs at most once, Remove is the same as leaving it out |
| Visuals.CountWithout | Schementi.Controls.Sparkline/Sparkline.cs:180-188 | leaving one child out changes no other child's count |
| Visuals.ChildrenAppend | Schementi.Controls.Sparkline/Sparkline.cs:370-371 | appending dots keeps the children valid |
| Visuals.ChildrenPrepend | Schementi.Controls.Sparkline/Sparkline.cs:167-178 | inserting a new marker at the front, into a free slot, keeps the children valid |
| Visuals.ChildrenRemove | Schementi.Controls.Sparkline/Sparkline.cs:180-188 | removing a held marker and freeing its slot keeps the children valid |
| Visuals.ResetChildren | Schementi.Controls.Sparkline/Sparkline.cs:341-349 | the children a reset builds (polyline, then low and high, then latest) are valid for the markers held |
| Visuals.PlotPlacesValues | Schementi.Controls.Sparkline/Sparkline.cs:383-385 | the plotted points carry the values in order, the i-th at x = 2(start + i), that is at ordinal start + i |
| Controls.Sparkline.BoundMargin | Schementi.Controls.Sparkline/Sparkline.cs:165-166 | a marker's binding gives it the converter's margin for the property it follows: top offset the low watermark, the high watermark or the latest level (0 when absent), other sides 0 |
| Controls.Sparkline.constructor | Schementi.Controls.Sparkline/Sparkline.cs:284-287 | a new control has an empty series, nothing drawn, the initial render state, the default PointRadius 0 and MinYRange 25, no overlays, and the polyline as only child |
| Controls.Sparkline.AddTimeValue | Schementi.Controls.Sparkline/Sparkline.cs:289-291 | appending a value to the series draws exactly that value as the next point and keeps the invariant |
| Controls.Sparkline.ReplaceTimeSeries | Schementi.Controls.Sparkline/Sparkline.cs:328-355 | replacing the series triggers a reset: the drawing is the cleared drawing with the new series replayed |
| Controls.Sparkline.TimeSeriesCollectionChanged | Schementi.Controls.Sparkline/Sparkline.cs:328-337 | an Add draws each new item in order, once; any other action clears the drawing and replays the whole series; the invariant is kept |
| Controls.Sparkline.ResetTimeSeries | Schementi.Controls.Sparkline/Sparkline.cs:339-355 | the drawing after a reset is the cleared drawing (flags, height, ordinal, children) with every record replayed in order; the invariant is kept |
| Controls.Sparkline.ClearDrawing | Schementi.Controls.Sparkline/Sparkline.cs:340-351 | the part before the replay clears flags, auto height and ordinal 0, rebuilds the children as the polyline and enabled markers, leaves everything else |
| Controls.Sparkline.DrawTimeValues | Schementi.Controls.Sparkline/Sparkline.cs:352-354 | the foreach loop draws the values in order: its result is DrawAll of them |
| Controls.Sparkline.DrawTimeValue | Schementi.Controls.Sparkline/Sparkline.cs:357-362 | drawing a record maps it to the next point, commits it and announces it once |
| Controls.Sparkline.AddPoint | Schementi.Controls.Sparkline/Sparkline.cs:364-373 | committing a point appends it to the polyline, adds a dot iff PointRadius > 0, and changes the render state as AfterPoint says |
| Controls.Sparkline.SetWatermarks | Schementi.Controls.Sparkline/Sparkline.cs:387-395 | the watermarks change as AfterWatermarks says and nothing else changes |
| Controls.Sparkline.SetLatestLevel | Schementi.Controls.Sparkline/Sparkline.cs:397-399 | the latest level becomes y and nothing else changes |
| Controls.Sparkline.SetCanvasHeight | Schementi.Controls.Sparkline/Sparkline.cs:407-428 | the sizing fields and the canvas change as AfterCanvasHeight says |
| Controls.Sparkline.SetShowWatermarks | Schementi.Controls.Sparkline/Sparkline.cs:156-190 | on a change, enabling puts new high then low markers at the front of the children; disabling removes exactly those two markers and nulls them; no change leaves everything as it was; the invariant is kept |
| Controls.Sparkline.SetShowLatestLevel | Schementi.Controls.Sparkline/Sparkline.cs:209-227 | on a change, enabling puts a new latest marker at the front; disabling removes exactly it and nulls it; the invariant is kept |
| Controls.DrawAllRender | Schementi.Controls.Sparkline/Sparkline.cs:352-354 | drawing values changes the render state as replaying them |
| Controls.DrawAllAdvances | Schementi.Controls.Sparkline/Sparkline.cs:372 | drawing n values advances the ordinal by n |
| Controls.DrawAllPoints | Schementi.Controls.Sparkline/Sparkline.cs:365 | drawing values appends exactly their plot to the polyline |
| Controls.DrawAllAnnounced | Schementi.Controls.Sparkline/Sparkline.cs:360 | each value drawn is announced once, in order |
| Controls.DrawAllChildren | Schementi.Controls.Sparkline/Sparkline.cs:370-371 | drawing values appends one dot per point when PointRadius > 0 and nothing otherwise |
| Controls.DrawAllConsistent | Schementi.Controls.Sparkline/Sparkline.cs:331 | drawing keeps the ordinal equal to the points since the reset and the children valid |
| Controls.ResetConsistent | Schementi.Controls.Sparkline/Sparkline.cs:339-355 | a reset and replay leave a consistent drawing whose points since the reset start where the old points ended |
| Controls.ResetKeepsPoints | Schementi.Controls.Sparkline/Sparkline.cs:339-355 | after a reset the render state is the replay on the cleared state, and the polyline is the old points followed by the series plotted from x = 0 |
| Controls.ResetTwiceGrows | Schementi.Controls.Sparkline/Sparkline.cs:339-355 | a second reset over the same non-empty series adds its points again, so the drawing differs |
| Controls.DrawnAfterPoint | Schementi.Controls.Sparkline/Sparkline.cs:364-373 | drawing a point keeps the invariant: the k-th point since the reset at x = 2k, the watermarks and latest level summarising every point |
| Controls.DrawnInitially | Schementi.Controls.Sparkline/Sparkline.cs:284-287 | a new control's drawing meets the invariant |
| Controls.DrawnAfterAll | Schementi.Controls.Sparkline/Sparkline.cs:352-354 | drawing any sequence of values keeps that invariant |
| Controls.DrawnAfterClear | Schementi.Controls.Sparkline/Sparkline.cs:339-351 | a reset keeps it, with the points since the reset starting after the old points |
| Scenarios.AppendAndMark | Schementi.Controls.Sparkline/Sparkline.cs:156-178 | appending 5, 40, -30 draws them at x = 0, 2, 4 with watermarks -30 and 40, and the low marker enabled afterwards sits at -30 |

## Left out

- Dependency-property registration, the default style and the template lookup are left out. `InitializePolyline` and its missing-element exceptions are modelled by the constructor, which builds the canvas and the polyline. The canvas starts with auto height, zero margin and the polyline as its only child.
- Data bindings are left out. A marker's margin is modelled as `BoundMargin`, the converter applied to the property the marker follows. `ConvertBack`, which only throws, is not modelled.
- Brushes, colours, opacity and stroke thickness of the markers, dots and polyline are visual styling and are left out. A dot is modelled by its centre; its radius and fill are not.
- `OnTimeSeriesPropertyChanged` is left out: it only subscribes and unsubscribes the change handler. The series is a `seq<real>` that `AddTimeValue` and `ReplaceTimeSeries` change, and then the handler is called.
- The `TimeSeries` and `TimeValue` classes are not part of this model. Ids and timestamps are left out, and a record is its value.
- The `TimeValueAdded` event is modelled only as the ghost sequence `announced` of points raised, in order. Its handlers and `ScrollToRightEnd` are left out because they call code outside the control.
- `SetContainerHeight` is left out: it assigns a local and discards it, so it changes nothing. The commented-out animation code is left out too.
- The `PointRadius` and `MinYRange` setters are plain dependency properties with no change callback. Changing them redraws nothing, so they are fields that the operations read.
- Controls.Sparkline.SetCanvasHeight: a negative height, which WPF's Height setter rejects by throwing, is not modelled as a failure. The model stores `Fixed(h)` with h < 0 and finishes the point, where the source throws after `_height` is set. That skips the margin, the dot, `_nextXValue++` and the TimeValueAdded event, and the exception leaves `AddTimeValue`. `Ranging.CanvasHeightAccepted` states exactly when this happens: while seeding, for a value below -MinYRange. `Ranging.ReplaySized` and `Ranging.FeedSized` show that series with no value below -MinYRange never reach it, and on those series the model is the source.
- Ranging.CanvasHeightFrame: its seeding clause holds for every y, but for y < -MinYRange the source throws instead (see the line above).
- Ranging.PointTracks: its seeding clause holds for every y, but for y < -MinYRange the source throws instead (see the line above).
- Controls.Sparkline.AddPoint: its seeding clause holds for every y, but for y < -MinYRange the source throws instead (see the line above).
- IEEE doubles are modelled as `real`. NaN and infinity in comparisons, rounding and `int` overflow of `_nextXValue * XWidth` are not captured. The NaN canvas height is the explicit `Auto`.
- Controls.Sparkline.AddTimeValue: the value returned by the source (the new record's id) is not modelled.
- Controls.Sparkline.DrawTimeValues and Controls.Sparkline.ClearDrawing are not separate methods in the source. They are the two halves of `ResetTimeSeries` (the reset of the state, then the `foreach` replay), and the Add branch of the handler also uses the second.
- Dispatch is single-threaded, as in the source: operations run one after the other, never interleaved.
