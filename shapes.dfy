/**
 * The scene objects of the editor (the classes `CanvasObject`, `Square`,
 * `Triangle` and `Circle` of source/main.js) as one tagged variant. Every
 * object has a world position; the screen position is `(world + offset) * zoom`
 * on each axis. A `Circle` also carries its derived colour and its selection
 * flag; `serial` is the number its name is built from ("circle3", "triangle0").
 */
module Shapes {
  import opened Geometry

  /** Black is a circle's normal colour, pink the colour of a circle that overlaps another. */
  datatype Color = Black | Pink

  datatype Shape =
    | Square(x: real, y: real, size: real)
    | Triangle(x: real, y: real, theta: real, length1: real, length2: real, serial: nat)
    | Circle(x: real, y: real, radius: real, color: Color, selected: bool, serial: nat)
  {
    /** The world position (`coords`). */
    function Coords(): Point
    {
      Point(x, y)
    }

    /** `xRel`: the screen abscissa; it determines the world abscissa whenever the zoom is not zero. */
    function XRel(offset: Point, zoom: real): (sx: real)
      ensures zoom != 0.0 ==> ToWorld(sx, offset.x, zoom) == x
    {
      var r := ToScreen(x, offset.x, zoom);
      if zoom != 0.0 then ToWorldToScreen(x, offset.x, zoom); r else r
    }

    /** `yRel`: the screen ordinate; it determines the world ordinate whenever the zoom is not zero. */
    function YRel(offset: Point, zoom: real): (sy: real)
      ensures zoom != 0.0 ==> ToWorld(sy, offset.y, zoom) == y
    {
      var r := ToScreen(y, offset.y, zoom);
      if zoom != 0.0 then ToWorldToScreen(y, offset.y, zoom); r else r
    }

    /** The screen position of the object. */
    function ScreenPos(offset: Point, zoom: real): Point
    {
      Point(XRel(offset, zoom), YRel(offset, zoom))
    }

    /**
     * `Square.rectBounds`: the square's rectangle on screen. Whenever the zoom
     * is not zero its corners map back to the corners of the world square
     * `[x, x + size] × [y, y + size]`.
     */
    function RectBounds(offset: Point, zoom: real): (r: Rect)
      requires Square?
      ensures zoom != 0.0 ==>
        ToWorld(r.x, offset.x, zoom) == x && ToWorld(r.x + r.w, offset.x, zoom) == x + size &&
        ToWorld(r.y, offset.y, zoom) == y && ToWorld(r.y + r.h, offset.y, zoom) == y + size
    {
      var r := Rect(XRel(offset, zoom), YRel(offset, zoom), size * zoom, size * zoom);
      if zoom != 0.0 then
        ToWorldToScreen(x + size, offset.x, zoom);
        ToWorldToScreen(y + size, offset.y, zoom);
        assert r.x + r.w == ToScreen(x + size, offset.x, zoom);
        assert r.y + r.h == ToScreen(y + size, offset.y, zoom);
        r
      else r
    }

    /**
     * `isPointInside`: the hit-test of a screen point. The square tests its
     * closed rectangle, a circle the open disk around its screen centre, and a
     * triangle has no hit-test (the source's method is empty and returns
     * `undefined`, which the callers read as false).
     */
    function IsPointInside(p: Point, offset: Point, zoom: real): bool
    {
      match this
      case Square(_, _, _) => InBounds(p, RectBounds(offset, zoom))
      case Triangle(_, _, _, _, _, _) => false
      case Circle(_, _, radius, _, _, _) => DistLess(p, ScreenPos(offset, zoom), radius * zoom)
    }
  }

  /** Two objects at different world positions are at different screen positions when the zoom is not zero. */
  lemma ScreenPosInjective(a: Shape, b: Shape, offset: Point, zoom: real)
    requires zoom != 0.0
    ensures a.ScreenPos(offset, zoom) == b.ScreenPos(offset, zoom) <==> a.Coords() == b.Coords()
  {
    ToScreenInjective(a.x, b.x, offset.x, zoom);
    ToScreenInjective(a.y, b.y, offset.y, zoom);
  }

  /** The square is hit exactly on the closed rectangle `[xRel, xRel + size*zoom] × [yRel, yRel + size*zoom]`. */
  lemma SquareHit(s: Shape, p: Point, offset: Point, zoom: real)
    requires s.Square?
    ensures s.IsPointInside(p, offset, zoom) <==>
      s.XRel(offset, zoom) <= p.x <= s.XRel(offset, zoom) + s.size * zoom &&
      s.YRel(offset, zoom) <= p.y <= s.YRel(offset, zoom) + s.size * zoom
  {
  }

  /** A circle is hit exactly where the distance to its screen centre is strictly below `radius * zoom`. */
  lemma CircleHit(s: Shape, p: Point, offset: Point, zoom: real, d: real)
    requires s.Circle?
    requires IsDist(d, p, s.ScreenPos(offset, zoom))
    ensures s.IsPointInside(p, offset, zoom) <==> d < s.radius * zoom
  {
    DistLessIff(d, p, s.ScreenPos(offset, zoom), s.radius * zoom);
  }

  /** A circle of positive radius, seen at a positive zoom, is hit at its own screen centre. */
  lemma CircleHitAtCentre(s: Shape, offset: Point, zoom: real)
    requires s.Circle? && s.radius > 0.0 && zoom > 0.0
    ensures s.IsPointInside(s.ScreenPos(offset, zoom), offset, zoom)
  {
    var c := s.ScreenPos(offset, zoom);
    assert IsDist(0.0, c, c);
    CircleHit(s, c, offset, zoom, 0.0);
    MulPositive(s.radius, zoom);
  }

  /** A triangle is never hit. */
  lemma TriangleNeverHit(s: Shape, p: Point, offset: Point, zoom: real)
    requires s.Triangle?
    ensures !s.IsPointInside(p, offset, zoom)
  {
  }

  /**
   * The circle at world (100, 100) with radius 20, with no pan offset and zoom
   * 1, is hit at (100, 100) and (119, 100), at distances 0 and 19, and not at
   * (121, 100), at distance 21.
   */
  lemma CircleHitExample(color: Color, selected: bool, serial: nat)
    ensures var c := Circle(100.0, 100.0, 20.0, color, selected, serial);
      var o := Point(0.0, 0.0);
      c.IsPointInside(Point(100.0, 100.0), o, 1.0) &&
      c.IsPointInside(Point(119.0, 100.0), o, 1.0) &&
      !c.IsPointInside(Point(121.0, 100.0), o, 1.0)
  {
    var c := Circle(100.0, 100.0, 20.0, color, selected, serial);
    var o := Point(0.0, 0.0);
    assert c.ScreenPos(o, 1.0) == Point(100.0, 100.0);
    CircleHit(c, Point(119.0, 100.0), o, 1.0, 19.0);
    CircleHit(c, Point(121.0, 100.0), o, 1.0, 21.0);
  }
}
