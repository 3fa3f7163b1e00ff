/**
 * What the `Canvas` controller of source/main.js computes over its list of
 * objects, stated over `seq<Shape>`: the overlap colouring of
 * `Circle.update`/`updateObjects`, the connector pairs of
 * `drawCircleConnections`, the back-to-front scan of `getObjectUnderneath`,
 * the flags written by `selectObject`, the `splice` of a deletion and the
 * effect of one frame of `handleKeys`. Objects are identified by their index
 * in the list, where the source compares object references.
 */
module Scene {
  import opened Wrappers
  import opened Geometry
  import opened Shapes

  // ---------------------------------------------------------------------------
  // Overlap colouring

  /** The disks of two circles intersect: their centres are closer than the sum of their radii. */
  predicate CirclesOverlap(a: Shape, b: Shape)
  {
    a.Circle? && b.Circle? && DistLess(a.Coords(), b.Coords(), a.radius + b.radius)
  }

  lemma CirclesOverlapSymmetric(a: Shape, b: Shape)
    ensures CirclesOverlap(a, b) == CirclesOverlap(b, a)
  {
    DistSqSymmetric(a.Coords(), b.Coords());
  }

  /** Object `i` is a circle that overlaps some other circle of the list. */
  predicate Overlaps(objects: seq<Shape>, i: nat)
    requires i < |objects|
  {
    exists k :: 0 <= k < |objects| && k != i && CirclesOverlap(objects[i], objects[k])
  }

  /**
   * `Circle.update`: scan the list for another circle that overlaps circle `i`
   * and stop at the first one found.
   */
  method OverlapColor(objects: seq<Shape>, i: nat) returns (c: Color)
    requires i < |objects| && objects[i].Circle?
    ensures c == Pink <==> Overlaps(objects, i)
  {
    var me := objects[i];
    var k := 0;
    while k < |objects|
      invariant 0 <= k <= |objects|
      invariant forall j :: 0 <= j < k && j != i ==> !CirclesOverlap(me, objects[j])
    {
      var other := objects[k];
      if other.Circle? && k != i {
        if DistLess(me.Coords(), other.Coords(), me.radius + other.radius) {
          return Pink;
        }
      }
      k := k + 1;
    }
    return Black;
  }

  /** The object with its colour forgotten: everything that a recolouring must keep. */
  function Uncolored(s: Shape): Shape
  {
    if s.Circle? then s.(color := Black) else s
  }

  /** Two lists that differ at most in the colours of their circles. */
  predicate SameExceptColor(a: seq<Shape>, b: seq<Shape>)
  {
    |a| == |b| && forall j :: 0 <= j < |a| ==> Uncolored(a[j]) == Uncolored(b[j])
  }

  /** A circle repainted pink or black; other objects have no colour. */
  function Paint(s: Shape, pink: bool): Shape
  {
    if s.Circle? then s.(color := if pink then Pink else Black) else s
  }

  /**
   * `updateObjects`: every circle is pink exactly when it overlaps another
   * circle and black otherwise; nothing but colours changes.
   */
  function Recolor(objects: seq<Shape>): (r: seq<Shape>)
    ensures SameExceptColor(r, objects)
    ensures forall j :: 0 <= j < |r| && r[j].Circle? ==> (r[j].color == Pink <==> Overlaps(objects, j))
  {
    seq(|objects|, j requires 0 <= j < |objects| => Paint(objects[j], Overlaps(objects, j)))
  }

  /** Whether a circle overlaps another depends on positions and radii only, not on colours. */
  lemma OverlapsIgnoresColor(a: seq<Shape>, b: seq<Shape>, i: nat)
    requires SameExceptColor(a, b) && i < |a|
    ensures Overlaps(a, i) == Overlaps(b, i)
  {
    forall k | 0 <= k < |a|
      ensures CirclesOverlap(a[i], a[k]) == CirclesOverlap(b[i], b[k])
    {
      assert Uncolored(a[i]) == Uncolored(b[i]) && Uncolored(a[k]) == Uncolored(b[k]);
    }
    if Overlaps(a, i) {
      var k :| 0 <= k < |a| && k != i && CirclesOverlap(a[i], a[k]);
      assert CirclesOverlap(b[i], b[k]);
    }
    if Overlaps(b, i) {
      var k :| 0 <= k < |b| && k != i && CirclesOverlap(b[i], b[k]);
      assert CirclesOverlap(a[i], a[k]);
    }
  }

  /** Lists that differ only in colours are recoloured identically. */
  lemma RecolorIgnoresColor(a: seq<Shape>, b: seq<Shape>)
    requires SameExceptColor(a, b)
    ensures Recolor(a) == Recolor(b)
  {
    forall j | 0 <= j < |a|
      ensures Recolor(a)[j] == Recolor(b)[j]
    {
      OverlapsIgnoresColor(a, b, j);
      assert Uncolored(a[j]) == Uncolored(b[j]);
    }
  }

  /** Running `updateObjects` twice gives the same colours as running it once. */
  lemma RecolorIdempotent(objects: seq<Shape>)
    ensures Recolor(Recolor(objects)) == Recolor(objects)
  {
    RecolorIgnoresColor(Recolor(objects), objects);
  }

  /** Two overlapping circles both turn pink. */
  lemma OverlappingBothPink(objects: seq<Shape>, i: nat, k: nat)
    requires i < |objects| && k < |objects| && i != k
    requires CirclesOverlap(objects[i], objects[k])
    ensures Recolor(objects)[i].Circle? && Recolor(objects)[i].color == Pink
    ensures Recolor(objects)[k].Circle? && Recolor(objects)[k].color == Pink
  {
    CirclesOverlapSymmetric(objects[i], objects[k]);
    assert Overlaps(objects, i);
    assert Overlaps(objects, k);
  }

  // ---------------------------------------------------------------------------
  // Connectors between touching circles

  /** The gap below which two circles get a connector line. */
  const ConnectorThreshold: real := 3.0

  /** Two circles whose gap `dist - (r1 + r2)` lies in `[0, ConnectorThreshold)`. */
  predicate Touching(a: Shape, b: Shape)
  {
    a.Circle? && b.Circle? &&
    !DistLess(a.Coords(), b.Coords(), a.radius + b.radius) &&
    DistLess(a.Coords(), b.Coords(), a.radius + b.radius + ConnectorThreshold)
  }

  /** `Touching` is the source's gap test on the true distance. */
  lemma TouchingGap(a: Shape, b: Shape, d: real)
    requires a.Circle? && b.Circle? && IsDist(d, a.Coords(), b.Coords())
    ensures Touching(a, b) <==> 0.0 <= d - (a.radius + b.radius) < ConnectorThreshold
  {
    DistLessIff(d, a.Coords(), b.Coords(), a.radius + b.radius);
    DistLessIff(d, a.Coords(), b.Coords(), a.radius + b.radius + ConnectorThreshold);
  }

  /** Touching circles do not overlap: a connector and a pink colour never come from the same pair. */
  lemma TouchingExcludesOverlap(a: Shape, b: Shape)
    ensures !(Touching(a, b) && CirclesOverlap(a, b))
  {
  }

  /**
   * Circles of radii 3 and 4 whose centres are 10 apart have a gap of exactly
   * 3 and get no connector; at 9.5 apart the gap is 2.5 and they do.
   */
  lemma ConnectorThresholdExample(c1: Color, c2: Color, s1: bool, s2: bool, n1: nat, n2: nat)
    ensures !Touching(Circle(0.0, 0.0, 3.0, c1, s1, n1), Circle(10.0, 0.0, 4.0, c2, s2, n2))
    ensures Touching(Circle(0.0, 0.0, 3.0, c1, s1, n1), Circle(9.5, 0.0, 4.0, c2, s2, n2))
  {
    TouchingGap(Circle(0.0, 0.0, 3.0, c1, s1, n1), Circle(10.0, 0.0, 4.0, c2, s2, n2), 10.0);
    TouchingGap(Circle(0.0, 0.0, 3.0, c1, s1, n1), Circle(9.5, 0.0, 4.0, c2, s2, n2), 9.5);
  }

  /** Lexicographic order on index pairs: the order in which the nested loop visits them. */
  predicate PairBefore(p: (nat, nat), q: (nat, nat))
  {
    p.0 < q.0 || (p.0 == q.0 && p.1 < q.1)
  }

  /**
   * `pairs` are exactly the index pairs `(i, k)` with `i < k` whose circles
   * touch, in the order the nested loop of `drawCircleConnections` draws them.
   */
  predicate IsConnectorList(pairs: seq<(nat, nat)>, objects: seq<Shape>)
  {
    (forall n :: 0 <= n < |pairs| ==>
      pairs[n].0 < pairs[n].1 < |objects| && Touching(objects[pairs[n].0], objects[pairs[n].1])) &&
    (forall i, k :: 0 <= i < k < |objects| && Touching(objects[i], objects[k]) ==> (i, k) in pairs) &&
    (forall m, n :: 0 <= m < n < |pairs| ==> PairBefore(pairs[m], pairs[n]))
  }

  /** `drawCircleConnections` without the drawing: the pairs that get a connector line. */
  method CircleConnections(objects: seq<Shape>) returns (pairs: seq<(nat, nat)>)
    ensures IsConnectorList(pairs, objects)
  {
    pairs := [];
    var i := 0;
    while i < |objects|
      invariant 0 <= i <= |objects|
      invariant forall n :: 0 <= n < |pairs| ==>
        pairs[n].0 < i && pairs[n].0 < pairs[n].1 < |objects| &&
        Touching(objects[pairs[n].0], objects[pairs[n].1])
      invariant forall a, b :: 0 <= a < i && a < b < |objects| && Touching(objects[a], objects[b]) ==> (a, b) in pairs
      invariant forall m, n :: 0 <= m < n < |pairs| ==> PairBefore(pairs[m], pairs[n])
    {
      if objects[i].Circle? {
        var row := ConnectionsOf(objects, i);
        ghost var before := pairs;
        pairs := pairs + row;
        assert forall n :: |before| <= n < |pairs| ==> pairs[n] == row[n - |before|];
        assert forall b :: i < b < |objects| && Touching(objects[i], objects[b]) ==> (i, b) in row;
      }
      i := i + 1;
    }
  }

  /** The inner loop of `drawCircleConnections` for the circle at `i`: the later circles it touches, in list order. */
  method ConnectionsOf(objects: seq<Shape>, i: nat) returns (row: seq<(nat, nat)>)
    requires i < |objects| && objects[i].Circle?
    ensures forall n :: 0 <= n < |row| ==>
      row[n].0 == i && i < row[n].1 < |objects| && Touching(objects[i], objects[row[n].1])
    ensures forall b :: i < b < |objects| && Touching(objects[i], objects[b]) ==> (i, b) in row
    ensures forall m, n :: 0 <= m < n < |row| ==> row[m].1 < row[n].1
  {
    row := [];
    var k := i + 1;
    while k < |objects|
      invariant i + 1 <= k <= |objects|
      invariant forall n :: 0 <= n < |row| ==>
        row[n].0 == i && i < row[n].1 < k && Touching(objects[i], objects[row[n].1])
      invariant forall b :: i < b < k && Touching(objects[i], objects[b]) ==> (i, b) in row
      invariant forall m, n :: 0 <= m < n < |row| ==> row[m].1 < row[n].1
    {
      var other := objects[k];
      if other.Circle? && Touching(objects[i], other) {
        row := row + [(i, k)];
      }
      k := k + 1;
    }
  }

  // ---------------------------------------------------------------------------
  // Hit-testing

  /**
   * The top-most of the first `n` objects that the screen point hits: the
   * highest such index, or `None` when none of them is hit.
   */
  function TopHit(objects: seq<Shape>, p: Point, offset: Point, zoom: real, n: nat): (r: Option<nat>)
    requires n <= |objects|
    ensures r.Some? ==> r.value < n && objects[r.value].IsPointInside(p, offset, zoom)
    ensures r.Some? ==> forall j :: r.value < j < n ==> !objects[j].IsPointInside(p, offset, zoom)
    ensures r.None? <==> forall j :: 0 <= j < n ==> !objects[j].IsPointInside(p, offset, zoom)
    decreases n
  {
    if n == 0 then None
    else if objects[n - 1].IsPointInside(p, offset, zoom) then Some(n - 1)
    else TopHit(objects, p, offset, zoom, n - 1)
  }

  /** The object under the screen point; later objects are drawn on top and win. */
  function Underneath(objects: seq<Shape>, p: Point, offset: Point, zoom: real): (r: Option<nat>)
    ensures r.Some? ==> r.value < |objects| && objects[r.value].IsPointInside(p, offset, zoom)
    ensures r.Some? ==> forall j :: r.value < j < |objects| ==> !objects[j].IsPointInside(p, offset, zoom)
    ensures r.None? <==> forall j :: 0 <= j < |objects| ==> !objects[j].IsPointInside(p, offset, zoom)
  {
    TopHit(objects, p, offset, zoom, |objects|)
  }

  /** `getObjectUnderneath`: scan the list back to front and return the first object hit. */
  method ObjectUnderneath(objects: seq<Shape>, p: Point, offset: Point, zoom: real) returns (r: Option<nat>)
    ensures r == Underneath(objects, p, offset, zoom)
  {
    var i := |objects| - 1;
    while i >= 0
      invariant -1 <= i < |objects|
      invariant TopHit(objects, p, offset, zoom, i + 1) == Underneath(objects, p, offset, zoom)
    {
      if objects[i].IsPointInside(p, offset, zoom) {
        return Some(i);
      }
      i := i - 1;
    }
    return None;
  }

  /**
   * At the screen centre of circle `k` (of positive radius, at a positive
   * zoom) some object is found, and it is `k` or one added after it: in
   * particular, of two circles at the same centre, the earlier one `i` is
   * never the one found there.
   */
  lemma SameCentreLaterWins(objects: seq<Shape>, i: nat, k: nat, offset: Point, zoom: real)
    requires i < k < |objects| && objects[i].Circle? && objects[k].Circle?
    requires objects[i].Coords() == objects[k].Coords() && objects[k].radius > 0.0 && zoom > 0.0
    ensures var r := Underneath(objects, objects[i].ScreenPos(offset, zoom), offset, zoom);
      r.Some? && k <= r.value && r.value != i
  {
    CircleHitAtCentre(objects[k], offset, zoom);
  }

  // ---------------------------------------------------------------------------
  // Selection

  /** A circle with its selection flag set to `on`; other objects carry no flag. */
  function Flagged(s: Shape, on: bool): Shape
  {
    if s.Circle? then s.(selected := on) else s
  }

  /**
   * `selectObject`: clear the flag of every object, then set it on the chosen
   * one when that is a circle. Nothing else about any object changes.
   */
  function WithSelection(objects: seq<Shape>, sel: Option<nat>): (r: seq<Shape>)
    ensures |r| == |objects|
    ensures forall j :: 0 <= j < |r| ==> Flagged(r[j], false) == Flagged(objects[j], false)
    ensures forall j :: 0 <= j < |r| ==> (r[j].Circle? <==> objects[j].Circle?)
    ensures forall j :: 0 <= j < |r| && r[j].Circle? ==> (r[j].selected <==> sel == Some(j))
  {
    seq(|objects|, j requires 0 <= j < |objects| => Flagged(objects[j], sel == Some(j)))
  }

  /** The selection flags agree with the selection: only the selected object, a circle, is flagged. */
  predicate SelectionConsistent(objects: seq<Shape>, sel: Option<nat>)
  {
    (sel.Some? ==> sel.value < |objects| && objects[sel.value].Circle? && objects[sel.value].selected) &&
    (forall j :: 0 <= j < |objects| && objects[j].Circle? && objects[j].selected ==> sel == Some(j))
  }

  /** Selecting a circle, or nothing, leaves the flags consistent with the selection. */
  lemma WithSelectionConsistent(objects: seq<Shape>, sel: Option<nat>)
    requires sel.Some? ==> sel.value < |objects| && objects[sel.value].Circle?
    ensures SelectionConsistent(WithSelection(objects, sel), sel)
  {
  }

  /** Selecting X and then Y is the same as selecting Y: only the last selection counts. */
  lemma SelectTwice(objects: seq<Shape>, first: Option<nat>, second: Option<nat>)
    ensures WithSelection(WithSelection(objects, first), second) == WithSelection(objects, second)
  {
    var r1 := WithSelection(WithSelection(objects, first), second);
    var r2 := WithSelection(objects, second);
    forall j | 0 <= j < |objects|
      ensures r1[j] == r2[j]
    {
      assert Flagged(WithSelection(objects, first)[j], false) == Flagged(objects[j], false);
    }
  }

  /** When no flag is set, clearing the selection changes nothing. */
  lemma DeselectUnflagged(objects: seq<Shape>)
    requires SelectionConsistent(objects, None)
    ensures WithSelection(objects, None) == objects
  {
    forall j | 0 <= j < |objects|
      ensures WithSelection(objects, None)[j] == objects[j]
    {
      if objects[j].Circle? {
        assert !objects[j].selected;
      }
    }
  }

  // ---------------------------------------------------------------------------
  // The object list: its fixed square and the deletion of an object

  /**
   * The list starts with the background square and holds no other square. Only
   * index 0 is a square, so a hit at any other index is never the square.
   */
  predicate WellFormed(objects: seq<Shape>, square: Shape)
  {
    square.Square? && |objects| > 0 && objects[0] == square &&
    forall j :: 0 < j < |objects| ==> !objects[j].Square?
  }

  /** `splice(i, 1)`: drop object `i` and keep the others in order. */
  function Remove(objects: seq<Shape>, i: nat): (r: seq<Shape>)
    requires i < |objects|
    ensures |r| == |objects| - 1
    ensures forall j :: 0 <= j < |r| ==> r[j] == if j < i then objects[j] else objects[j + 1]
  {
    objects[..i] + objects[i + 1..]
  }

  /** The selection pass leaves the square where it is and turns no object into another kind. */
  lemma WithSelectionKeepsStructure(objects: seq<Shape>, square: Shape, sel: Option<nat>)
    requires WellFormed(objects, square)
    ensures WellFormed(WithSelection(objects, sel), square)
  {
    var r := WithSelection(objects, sel);
    assert Flagged(r[0], false) == Flagged(objects[0], false);
    forall j | 0 < j < |r|
      ensures !r[j].Square?
    {
      assert Flagged(r[j], false) == Flagged(objects[j], false);
    }
  }

  /** Replacing an object by one of the same kind and flag keeps the list well formed and consistent. */
  lemma ReplaceKeepsStructure(objects: seq<Shape>, square: Shape, sel: Option<nat>, i: nat, t: Shape)
    requires WellFormed(objects, square) && SelectionConsistent(objects, sel)
    requires 0 < i < |objects| && !t.Square? && t.Circle? == objects[i].Circle?
    requires t.Circle? ==> t.selected == objects[i].selected
    ensures WellFormed(objects[i := t], square) && SelectionConsistent(objects[i := t], sel)
  {
  }

  lemma RecolorKeepsStructure(objects: seq<Shape>, square: Shape, sel: Option<nat>)
    requires WellFormed(objects, square) && SelectionConsistent(objects, sel)
    ensures WellFormed(Recolor(objects), square) && SelectionConsistent(Recolor(objects), sel)
  {
    var r := Recolor(objects);
    assert Uncolored(r[0]) == Uncolored(objects[0]);
    forall j | 0 <= j < |r|
      ensures r[j].Square? == objects[j].Square? && r[j].Circle? == objects[j].Circle?
      ensures r[j].Circle? ==> r[j].selected == objects[j].selected
    {
      assert Uncolored(r[j]) == Uncolored(objects[j]);
    }
  }

  // ---------------------------------------------------------------------------
  // One frame of held keys (`handleKeys`)

  /** The keys `handleKeys` looks at, as held during this frame. */
  datatype Keys = Keys(w: bool, a: bool, s: bool, d: bool, q: bool, e: bool, delete: bool)

  /** What a held key contributes: one `MoveVelocity`. */
  function Step(held: bool): real
  {
    if held then MoveVelocity else 0.0
  }

  /** The object moved by `(dx, dy)`; a circle's radius also grows by `dr`. */
  function Shifted(s: Shape, dx: real, dy: real, dr: real): Shape
  {
    var t := s.(x := s.x + dx, y := s.y + dy);
    if t.Circle? then t.(radius := s.radius + dr) else t
  }

  /**
   * The selection after the movement keys: `w`/`s` move it up/down, `a`/`d`
   * left/right, and for a circle `e`/`q` grow/shrink the radius.
   */
  function Nudged(s: Shape, keys: Keys): Shape
  {
    Shifted(s, Step(keys.d) - Step(keys.a), Step(keys.s) - Step(keys.w),
            if s.Circle? then Step(keys.e) - Step(keys.q) else 0.0)
  }

  /** Some movement key acts on this object, so `updateObjects` runs. */
  predicate KeysChange(s: Shape, keys: Keys)
  {
    keys.w || keys.s || keys.d || keys.a || (s.Circle? && (keys.e || keys.q))
  }

  /** One movement key of a frame: whether it is held, and how it shifts the selection. */
  datatype KeyNudge = KeyNudge(held: bool, dx: real, dy: real, dr: real)

  /** The list after one movement key: the object at `i` shifted and the list recoloured, when the key is held. */
  function AfterNudge(objects: seq<Shape>, i: nat, n: KeyNudge): (r: seq<Shape>)
    requires i < |objects|
    ensures |r| == |objects| && r[i].Circle? == objects[i].Circle?
  {
    if n.held then Recolor(objects[i := Shifted(objects[i], n.dx, n.dy, n.dr)]) else objects
  }

  /** The shift a key contributes: its own when held, none otherwise. */
  function Contribution(n: KeyNudge): (real, real, real)
  {
    if n.held then (n.dx, n.dy, n.dr) else (0.0, 0.0, 0.0)
  }

  /** Two keys of a frame taken as one: held if either is, shifting by the sum of what they contribute. */
  function Combine(a: KeyNudge, b: KeyNudge): KeyNudge
  {
    var ca, cb := Contribution(a), Contribution(b);
    KeyNudge(a.held || b.held, ca.0 + cb.0, ca.1 + cb.1, ca.2 + cb.2)
  }

  /**
   * Two movement keys applied one after the other, each followed by its own
   * recolouring, leave the list as one combined move does: the intermediate
   * colours are forgotten.
   */
  lemma AfterNudgeCombine(objects: seq<Shape>, i: nat, a: KeyNudge, b: KeyNudge)
    requires i < |objects|
    ensures AfterNudge(AfterNudge(objects, i, a), i, b) == AfterNudge(objects, i, Combine(a, b))
  {
    var c := Combine(a, b);
    if a.held && b.held {
      var first := objects[i := Shifted(objects[i], a.dx, a.dy, a.dr)];
      var mid := Recolor(first);
      var two := mid[i := Shifted(mid[i], b.dx, b.dy, b.dr)];
      var one := objects[i := Shifted(objects[i], c.dx, c.dy, c.dr)];
      assert Uncolored(mid[i]) == Uncolored(first[i]);
      assert Uncolored(two[i]) == Uncolored(one[i]);
      assert SameExceptColor(two, one);
      RecolorIgnoresColor(two, one);
    } else if a.held {
      assert Shifted(objects[i], c.dx, c.dy, c.dr) == Shifted(objects[i], a.dx, a.dy, a.dr);
    } else if b.held {
      assert Shifted(objects[i], c.dx, c.dy, c.dr) == Shifted(objects[i], b.dx, b.dy, b.dr);
    }
  }

  /** The keys `w`, `s`, `d`, `a` of a frame taken as one nudge. */
  function MoveNudge(keys: Keys): KeyNudge
  {
    Combine(Combine(Combine(KeyNudge(keys.w, 0.0, -MoveVelocity, 0.0), KeyNudge(keys.s, 0.0, MoveVelocity, 0.0)),
                    KeyNudge(keys.d, MoveVelocity, 0.0, 0.0)),
            KeyNudge(keys.a, -MoveVelocity, 0.0, 0.0))
  }

  /** All movement keys of a frame taken as one nudge: `e` and `q` count for a circle only. */
  function FrameNudge(s: Shape, keys: Keys): KeyNudge
  {
    if s.Circle?
    then Combine(Combine(MoveNudge(keys), KeyNudge(keys.e, 0.0, 0.0, MoveVelocity)),
                 KeyNudge(keys.q, 0.0, 0.0, -MoveVelocity))
    else MoveNudge(keys)
  }

  /**
   * The keys of a frame taken as one nudge act exactly when `KeysChange`
   * says, and then move the object as `Nudged` does.
   */
  lemma FrameNudgeIsNudged(s: Shape, keys: Keys)
    ensures var c := FrameNudge(s, keys);
      c.held == KeysChange(s, keys) && (c.held ==> Shifted(s, c.dx, c.dy, c.dr) == Nudged(s, keys))
  {
    var m := MoveNudge(keys);
    assert m.held == (keys.w || keys.s || keys.d || keys.a);
    assert Contribution(m) == (Step(keys.d) - Step(keys.a), Step(keys.s) - Step(keys.w), 0.0);
    var c := FrameNudge(s, keys);
    if s.Circle? {
      assert Contribution(c) == (Step(keys.d) - Step(keys.a), Step(keys.s) - Step(keys.w), Step(keys.e) - Step(keys.q));
    }
  }

  /**
   * The objects and the selection after one frame of `handleKeys`: nothing
   * without a selection; otherwise the selection is nudged (and the colours
   * recomputed when a movement key acted), and on `Delete` it is removed from
   * the list and the selection is cleared. The deletion does not recompute
   * colours.
   */
  function KeysEffect(objects: seq<Shape>, sel: Option<nat>, keys: Keys): (seq<Shape>, Option<nat>)
    requires sel.Some? ==> sel.value < |objects|
  {
    match sel
    case None => (objects, None)
    case Some(i) =>
      var moved := if KeysChange(objects[i], keys) then Recolor(objects[i := Nudged(objects[i], keys)]) else objects;
      if keys.delete then (WithSelection(Remove(moved, i), None), None) else (moved, sel)
  }

  /** The geometry of a nudged object: each held key moves it by one `MoveVelocity`. */
  lemma NudgedGeometry(s: Shape, keys: Keys)
    ensures Nudged(s, keys).x == s.x + Step(keys.d) - Step(keys.a)
    ensures Nudged(s, keys).y == s.y + Step(keys.s) - Step(keys.w)
    ensures Nudged(s, keys).Circle? ==> Nudged(s, keys).radius == s.radius + Step(keys.e) - Step(keys.q)
    ensures Uncolored(Nudged(s, keys)).(x := s.x, y := s.y) == Uncolored(if s.Circle? then s.(radius := Nudged(s, keys).radius) else s)
  {
  }

  /** Without a selection, the keys change nothing. */
  lemma KeysWithoutSelection(objects: seq<Shape>, keys: Keys)
    ensures KeysEffect(objects, None, keys) == (objects, None)
  {
  }

  /** `e` and `q` alone do nothing to a selection that is not a circle. */
  lemma ResizeOnlyCircles(objects: seq<Shape>, i: nat, keys: Keys)
    requires i < |objects| && !objects[i].Circle?
    requires !keys.w && !keys.s && !keys.a && !keys.d && !keys.delete
    ensures KeysEffect(objects, Some(i), keys) == (objects, Some(i))
  {
  }

  /**
   * Movement keys change the selected object only, and only its position and
   * radius; every other object keeps its position, radius and flags.
   */
  lemma KeysMoveOnlySelection(objects: seq<Shape>, i: nat, keys: Keys)
    requires i < |objects| && !keys.delete
    ensures KeysEffect(objects, Some(i), keys).1 == Some(i)
    ensures KeysChange(objects[i], keys) ==>
      SameExceptColor(KeysEffect(objects, Some(i), keys).0, objects[i := Nudged(objects[i], keys)])
    ensures !KeysChange(objects[i], keys) ==> KeysEffect(objects, Some(i), keys).0 == objects
  {
  }

  /**
   * `Delete` with no other key removes exactly the selected object: the rest
   * keep their order and their state, and nothing is selected afterwards.
   */
  lemma DeleteRemovesSelection(objects: seq<Shape>, i: nat)
    requires SelectionConsistent(objects, Some(i))
    ensures KeysEffect(objects, Some(i), Keys(false, false, false, false, false, false, true)) == (Remove(objects, i), None)
  {
    var rest := Remove(objects, i);
    forall j | 0 <= j < |rest| && rest[j].Circle?
      ensures !rest[j].selected
    {
      var src := if j < i then j else j + 1;
      assert rest[j] == objects[src] && src != i;
    }
    DeselectUnflagged(rest);
  }

  /**
   * One frame of keys keeps the list well formed and the flags consistent:
   * in particular the square, which is never selected, stays at index 0.
   */
  lemma KeysKeepStructure(objects: seq<Shape>, square: Shape, sel: Option<nat>, keys: Keys)
    requires WellFormed(objects, square) && SelectionConsistent(objects, sel)
    ensures sel.Some? ==> sel.value < |objects|
    ensures WellFormed(KeysEffect(objects, sel, keys).0, square)
    ensures SelectionConsistent(KeysEffect(objects, sel, keys).0, KeysEffect(objects, sel, keys).1)
  {
    if sel.Some? {
      var i := sel.value;
      assert i != 0;
      var moved := if KeysChange(objects[i], keys) then Recolor(objects[i := Nudged(objects[i], keys)]) else objects;
      if KeysChange(objects[i], keys) {
        var nudged := objects[i := Nudged(objects[i], keys)];
        ReplaceKeepsStructure(objects, square, sel, i, Nudged(objects[i], keys));
        RecolorKeepsStructure(nudged, square, sel);
      }
      assert WellFormed(moved, square) && SelectionConsistent(moved, sel);
      if keys.delete {
        var rest := Remove(moved, i);
        assert rest[0] == square;
        WithSelectionConsistent(rest, None);
      }
    }
  }
}
