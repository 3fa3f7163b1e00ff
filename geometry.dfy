/**
 * The geometry helpers of the editor (source/helpers.js): axis-aligned
 * containment, the edge-sign triangle test and Euclidean distance, over exact
 * reals. `Math.sqrt` has no exact counterpart on `real`, so a distance is
 * compared through its square, and `IsDist` names a value that plays the
 * role of the source's `dist(a, b)`.
 */
module Geometry {

  datatype Point = Point(x: real, y: real)

  /** A rectangle given by its top-left corner, its width and its height. */
  datatype Rect = Rect(x: real, y: real, w: real, h: real)

  /** Pointer movement is multiplied by this before it moves an object or the view. */
  const DragRatio: real := 1.0

  /** What one frame of a held key adds to a coordinate or a radius. */
  const MoveVelocity: real := 1.0

  /** The world-to-screen map of one axis: shift by the pan offset, then scale by the zoom. */
  function ToScreen(world: real, offset: real, zoom: real): real
  {
    (world + offset) * zoom
  }

  /** The inverse of `ToScreen`, defined when the zoom is not zero. */
  function ToWorld(screen: real, offset: real, zoom: real): real
    requires zoom != 0.0
  {
    screen / zoom - offset
  }

  lemma ToWorldToScreen(world: real, offset: real, zoom: real)
    requires zoom != 0.0
    ensures ToWorld(ToScreen(world, offset, zoom), offset, zoom) == world
  {
    assert (world + offset) * zoom / zoom == world + offset;
  }

  lemma ToScreenToWorld(screen: real, offset: real, zoom: real)
    requires zoom != 0.0
    ensures ToScreen(ToWorld(screen, offset, zoom), offset, zoom) == screen
  {
    assert (screen / zoom - offset + offset) * zoom == screen / zoom * zoom;
  }

  /** Distinct world coordinates have distinct screen coordinates whenever the zoom is not zero. */
  lemma ToScreenInjective(a: real, b: real, offset: real, zoom: real)
    requires zoom != 0.0
    ensures ToScreen(a, offset, zoom) == ToScreen(b, offset, zoom) <==> a == b
  {
    if ToScreen(a, offset, zoom) == ToScreen(b, offset, zoom) {
      ToWorldToScreen(a, offset, zoom);
      ToWorldToScreen(b, offset, zoom);
    }
  }

  /** `inBounds`: the closed rectangle test; a point on an edge or a corner is inside. */
  function InBounds(p: Point, r: Rect): (inside: bool)
    ensures inside <==> r.x <= p.x <= r.x + r.w && r.y <= p.y <= r.y + r.h
  {
    !(p.x < r.x || p.x > r.x + r.w || p.y < r.y || p.y > r.y + r.h)
  }

  /** All four corners of a rectangle with non-negative extent test inside it. */
  lemma InBoundsCorners(r: Rect)
    requires r.w >= 0.0 && r.h >= 0.0
    ensures InBounds(Point(r.x, r.y), r) && InBounds(Point(r.x + r.w, r.y), r)
    ensures InBounds(Point(r.x, r.y + r.h), r) && InBounds(Point(r.x + r.w, r.y + r.h), r)
  {
  }

  /** `sign`: the cross product that tells on which side of the line p2-p3 the point p1 lies. */
  function Sign(p1: Point, p2: Point, p3: Point): real
  {
    (p1.x - p3.x) * (p2.y - p3.y) - (p2.x - p3.x) * (p1.y - p3.y)
  }

  /** The sign vanishes as soon as two of its three points coincide. */
  lemma SignZero(p1: Point, p2: Point, p3: Point)
    requires p1 == p3 || p2 == p3 || p1 == p2
    ensures Sign(p1, p2, p3) == 0.0
  {
  }

  /**
   * `inBoundsTriangle`: the point is inside (or on an edge) exactly when the
   * three edge signs all agree in sign, zeros agreeing with either: the point
   * is on the same side of all three lines.
   */
  function InBoundsTriangle(pt: Point, v1: Point, v2: Point, v3: Point): (inside: bool)
    ensures var d1, d2, d3 := Sign(pt, v1, v2), Sign(pt, v2, v3), Sign(pt, v3, v1);
      inside <==> (d1 >= 0.0 && d2 >= 0.0 && d3 >= 0.0) || (d1 <= 0.0 && d2 <= 0.0 && d3 <= 0.0)
  {
    var d1 := Sign(pt, v1, v2);
    var d2 := Sign(pt, v2, v3);
    var d3 := Sign(pt, v3, v1);
    var hasNeg := d1 < 0.0 || d2 < 0.0 || d3 < 0.0;
    var hasPos := d1 > 0.0 || d2 > 0.0 || d3 > 0.0;
    !(hasNeg && hasPos)
  }

  /** Each vertex tests inside its own triangle: two of its three signs are zero. */
  lemma VerticesInside(v1: Point, v2: Point, v3: Point)
    ensures InBoundsTriangle(v1, v1, v2, v3)
    ensures InBoundsTriangle(v2, v1, v2, v3)
    ensures InBoundsTriangle(v3, v1, v2, v3)
  {
    SignZero(v1, v1, v2);
    SignZero(v1, v3, v1);
    SignZero(v2, v1, v2);
    SignZero(v2, v2, v3);
    SignZero(v3, v2, v3);
    SignZero(v3, v3, v1);
  }

  /** When all three signs vanish (a degenerate triangle or a point on all three lines) the test says inside. */
  lemma DegenerateInside(pt: Point, v1: Point, v2: Point, v3: Point)
    requires Sign(pt, v1, v2) == 0.0 && Sign(pt, v2, v3) == 0.0 && Sign(pt, v3, v1) == 0.0
    ensures InBoundsTriangle(pt, v1, v2, v3)
  {
  }

  /** Every point tests inside a triangle whose three vertices coincide: all three signs are zero. */
  lemma CollapsedTriangleInside(pt: Point, v: Point)
    ensures InBoundsTriangle(pt, v, v, v)
  {
    SignZero(pt, v, v);
  }

  /** Rotating the vertices cyclically permutes the three signs, so the verdict is unchanged. */
  lemma TriangleRotation(pt: Point, v1: Point, v2: Point, v3: Point)
    ensures InBoundsTriangle(pt, v1, v2, v3) == InBoundsTriangle(pt, v2, v3, v1)
  {
  }

  /** The squared Euclidean distance, `dx * dx + dy * dy` of `dist`. */
  function DistSq(a: Point, b: Point): (q: real)
    ensures q >= 0.0
  {
    var dx := a.x - b.x;
    var dy := a.y - b.y;
    assert dx * dx >= 0.0 && dy * dy >= 0.0;
    dx * dx + dy * dy
  }

  /** `d` is the value `dist(a, b)` returns: the non-negative square root of the squared distance. */
  predicate IsDist(d: real, a: Point, b: Point)
  {
    d >= 0.0 && d * d == DistSq(a, b)
  }

  /** The source's comparison `dist(a, b) < s`, decided without a square root. */
  predicate DistLess(a: Point, b: Point, s: real)
  {
    s > 0.0 && DistSq(a, b) < s * s
  }

  /** `DistLess` agrees with comparing the true distance; a threshold that is not positive is never met. */
  lemma DistLessIff(d: real, a: Point, b: Point, s: real)
    requires IsDist(d, a, b)
    ensures DistLess(a, b, s) <==> d < s
  {
    if d < s {
      assert (s - d) * (s + d) > 0.0 by { MulPositive(s - d, s + d); }
      assert s * s - d * d == (s - d) * (s + d);
    } else if s > 0.0 {
      assert (d - s) * (d + s) >= 0.0 by { MulNonNegative(d - s, d + s); }
      assert d * d - s * s == (d - s) * (d + s);
    }
  }

  lemma MulPositive(a: real, b: real)
    requires a > 0.0 && b > 0.0
    ensures a * b > 0.0
  {
  }

  lemma MulNonNegative(a: real, b: real)
    requires a >= 0.0 && b >= 0.0
    ensures a * b >= 0.0
  {
  }

  lemma DistSqSymmetric(a: Point, b: Point)
    ensures DistSq(a, b) == DistSq(b, a)
  {
    assert (a.x - b.x) * (a.x - b.x) == (b.x - a.x) * (b.x - a.x);
    assert (a.y - b.y) * (a.y - b.y) == (b.y - a.y) * (b.y - a.y);
  }

  /** `dist` is symmetric. */
  lemma DistSymmetric(d: real, a: Point, b: Point)
    requires IsDist(d, a, b)
    ensures IsDist(d, b, a)
  {
    DistSqSymmetric(a, b);
  }

  /** `dist(a, a)` is zero: zero is a candidate, and the candidate is unique. */
  lemma DistSelf(d: real, a: Point)
    requires IsDist(d, a, a)
    ensures d == 0.0
  {
    assert IsDist(0.0, a, a);
    DistUnique(d, 0.0, a, a);
  }

  /** There is only one candidate for `dist(a, b)`, so `IsDist` pins the source's value down. */
  lemma DistUnique(d1: real, d2: real, a: Point, b: Point)
    requires IsDist(d1, a, b) && IsDist(d2, a, b)
    ensures d1 == d2
  {
    if d1 < d2 {
      DistLessIff(d1, a, b, d2);
      DistLessIff(d2, a, b, d2);
    } else if d2 < d1 {
      DistLessIff(d2, a, b, d1);
      DistLessIff(d1, a, b, d1);
    }
  }
}
