// Plane geometry shared by both revisions of the platformer: CoreGraphics
// points, sizes and rectangles over `real`, the point arithmetic the Swift
// code takes from its CGPoint/CGFloat extensions, Swift's Int(CGFloat)
// truncation, and an axis-aligned overlap test standing in for
// CGRect.intersects/intersection.

module Geometry {

  datatype Option<+T> = None | Some(value: T)

  /** A CGPoint. */
  datatype Point = Point(x: real, y: real)

  /** A CGSize. */
  datatype Size = Size(width: real, height: real)

  /** A CGRect given by its origin (lower-left corner) and its size. */
  datatype Rect = Rect(x: real, y: real, width: real, height: real)

  const Origin: Point := Point(0.0, 0.0)

  /** CGPoint.add: component-wise sum. */
  function Add(p: Point, q: Point): Point {
    Point(p.x + q.x, p.y + q.y)
  }

  /** CGPoint.subtract: component-wise difference. */
  function Subtract(p: Point, q: Point): Point {
    Point(p.x - q.x, p.y - q.y)
  }

  /** CGPoint.multiplyScalar: both components scaled by `s`. */
  function MultiplyScalar(p: Point, s: real): Point {
    Point(p.x * s, p.y * s)
  }

  /** CGFloat.clamp(min:max:), taken to be max(lo, min(hi, v)). */
  function Clamp(v: real, lo: real, hi: real): (r: real)
    requires lo <= hi
    ensures lo <= r <= hi
    ensures lo <= v <= hi ==> r == v
    ensures v < lo ==> r == lo
    ensures hi < v ==> r == hi
  {
    if v < lo then lo else if hi < v then hi else v
  }

  /**
   * Swift's Int(_: CGFloat): drops the fractional part, rounding toward
   * zero (not toward minus infinity) for negative values.
   */
  function Trunc(r: real): (n: int)
    ensures 0.0 <= r ==> n as real <= r < n as real + 1.0
    ensures r < 0.0 ==> n as real - 1.0 < r <= n as real
  {
    if 0.0 <= r then r.Floor else -((-r).Floor)
  }

  /** CGRect.insetBy(dx:dy:): shrinks each side by `dx` (left, right) and `dy` (bottom, top). */
  function InsetBy(r: Rect, dx: real, dy: real): Rect {
    Rect(r.x + dx, r.y + dy, r.width - 2.0 * dx, r.height - 2.0 * dy)
  }

  /** CGRect.offsetBy(dx:dy:): the same rectangle moved by (dx, dy). */
  function OffsetBy(r: Rect, dx: real, dy: real): Rect {
    Rect(r.x + dx, r.y + dy, r.width, r.height)
  }

  /**
   * The overlap test used for CGRect.intersects: the two rectangles share
   * a region of positive area. Rectangles that only touch along an edge or
   * at a corner, and rectangles with a non-positive width or height, do
   * not intersect.
   */
  predicate Intersects(a: Rect, b: Rect)
    ensures Intersects(a, b) <==>
              && 0.0 < a.width && 0.0 < a.height && 0.0 < b.width && 0.0 < b.height
              && a.x < b.x + b.width && b.x < a.x + a.width
              && a.y < b.y + b.height && b.y < a.y + a.height
  {
    && (if a.x < b.x then b.x else a.x) < (if a.x + a.width < b.x + b.width then a.x + a.width else b.x + b.width)
    && (if a.y < b.y then b.y else a.y) < (if a.y + a.height < b.y + b.height then a.y + a.height else b.y + b.height)
  }

  /** CGRect.intersection for two rectangles that intersect: the common region. */
  function Intersection(a: Rect, b: Rect): (r: Rect)
    requires Intersects(a, b)
    ensures 0.0 < r.width && 0.0 < r.height
    ensures a.x <= r.x && b.x <= r.x && r.x + r.width <= a.x + a.width && r.x + r.width <= b.x + b.width
    ensures a.y <= r.y && b.y <= r.y && r.y + r.height <= a.y + a.height && r.y + r.height <= b.y + b.height
    ensures r.x == a.x || r.x == b.x
    ensures r.y == a.y || r.y == b.y
    ensures r.x + r.width == a.x + a.width || r.x + r.width == b.x + b.width
    ensures r.y + r.height == a.y + a.height || r.y + r.height == b.y + b.height
  {
    var left := if a.x < b.x then b.x else a.x;
    var right := if a.x + a.width < b.x + b.width then a.x + a.width else b.x + b.width;
    var bottom := if a.y < b.y then b.y else a.y;
    var top := if a.y + a.height < b.y + b.height then a.y + a.height else b.y + b.height;
    Rect(left, bottom, right - left, top - bottom)
  }
}
