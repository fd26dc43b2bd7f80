// Uses of the Sparkline control as a host would make them: appending
// values, showing the watermark markers and replacing the series.
module Scenarios {
  import opened Geometry
  import opened Visuals
  import Ranging
  import opened Controls

  /**
   * Appending 5, 40 and -30 to a fresh control draws them at x = 0, 2, 4,
   * leaves -30 and 40 as the watermarks, and the markers enabled afterwards
   * sit at the watermarks' heights.
   */
  method AppendAndMark() returns (s: Sparkline)
    ensures s.Valid() && fresh(s) && fresh(s.canvas) && fresh(s.polyline)
    ensures s.polyline.points == [Point(0, 5.0), Point(2, 40.0), Point(4, -30.0)]
    ensures s.lowWaterMark == Some(-30.0) && s.highWaterMark == Some(40.0)
    ensures s.lowMarker != null && s.BoundMargin(s.lowMarker) == Thickness(0.0, -30.0, 0.0, 0.0)
  {
    s := new Sparkline();
    s.AddTimeValue(5.0);
    s.AddTimeValue(40.0);
    s.AddTimeValue(-30.0);
    s.SetShowWatermarks(true);
  }

  /**
   * Replacing the series of that control with [1] keeps the three points
   * already drawn and draws 1 again at x = 0; the watermarks stay.
   */
  method ReplaceKeepsOldPoints()
  {
    var s := AppendAndMark();
    s.ReplaceTimeSeries([1.0]);
    assert [1.0][..0] == [];
    assert s.polyline.points == [Point(0, 5.0), Point(2, 40.0), Point(4, -30.0), Point(0, 1.0)];
    assert s.nextXValue == 1;
    assert s.lowWaterMark == Some(-30.0) && s.highWaterMark == Some(40.0);
  }
}
