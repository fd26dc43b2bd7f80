// Values that the sparkline's layout works with: points on the polyline,
// WPF thicknesses, and the canvas height, which WPF writes as a double that
// is NaN when the layout should size the element ("auto").
module Geometry {

  datatype Option<T> = None | Some(value: T)

  /** The value of an optional number, or `default` when it is absent (`v ?? default`). */
  function ValueOr(v: Option<real>, default: real): (x: real) {
    match v
    case Some(x) => x
    case None => default
  }

  function Min(a: real, b: real): (m: real) { if b < a then b else a }

  function Max(a: real, b: real): (m: real) { if b > a then b else a }

  /** Horizontal distance between two consecutive points (the source's XWidth). */
  const XWidth: int := 2

  datatype Point = Point(x: int, y: real)

  datatype Thickness = Thickness(left: real, top: real, right: real, bottom: real)

  /** A layout height: a fixed size, or NaN, which lets the layout size the element. */
  datatype Height = Fixed(size: real) | Auto

  /** The canvas margin as the ranging engine writes it: only the bottom side is non-zero. */
  function BottomMargin(m: real): (t: Thickness) {
    Thickness(0.0, 0.0, 0.0, m)
  }

  /** The ordinal a point was drawn at, recovered from its x-coordinate. */
  function Ordinal(p: Point): (n: int) {
    p.x / XWidth
  }

  /** Maps the value of a record drawn at ordinal `nextXValue` to its point. */
  function GetPoint(nextXValue: int, value: real): (p: Point)
    ensures Ordinal(p) == nextXValue && p.x % XWidth == 0
    ensures p.y == value
    ensures nextXValue >= 0 ==> p.x >= 0
  {
    Point(nextXValue * XWidth, value)
  }

  /**
   * YCoordinateToThicknessConverter.Convert: the margin that places an overlay
   * marker at the height of the value it is bound to; an absent value puts
   * the marker at the top.
   */
  function YCoordinateToThickness(value: Option<real>): (t: Thickness)
    ensures t.left == 0.0 && t.right == 0.0 && t.bottom == 0.0
    ensures value.None? ==> t.top == 0.0
    ensures value.Some? ==> t.top == value.value
  {
    Thickness(0.0, ValueOr(value, 0.0), 0.0, 0.0)
  }
}
