/**
 * The `Canvas` controller of source/main.js: the object list with its fixed
 * background square, the pan offset and zoom, the selection, the two drag
 * records, and the handlers that change them (pointer down/move/up, the keys of
 * a frame, object creation, the inspector's fields). Pointer positions, held
 * keys and random numbers are parameters; drawing calls are recorded, not drawn.
 */
module Editor {
  import opened Wrappers
  import opened Geometry
  import opened Shapes
  import opened Scene

  /** The side of the background square (`new Square(500, 0, 0)`), which is also the inspector's unit. */
  const UnitSize: real := 500.0

  /** The pan in progress: where the pointer went down and what the offset was then. */
  datatype GlobalDrag = GlobalDrag(x0: real, y0: real, offsetX0: real, offsetY0: real, dragging: bool)

  /** The object drag in progress: where the pointer went down and where the object was then. */
  datatype ObjectDrag = ObjectDrag(x0: real, y0: real, objX0: real, objY0: real, dragging: bool)

  /** The drawing calls of one frame, in the order they are issued. */
  datatype DrawCall = ClearSurface | DrawObject(index: nat) | DrawConnector(from: nat, to: nat) | DrawGrid | DrawDiagonals

  /** What the inspector shows of a selected circle: its name's number and three unit-relative values. */
  datatype InspectorFields = InspectorFields(serial: nat, x: real, y: real, radius: real)

  /** The world quantity an inspector entry stands for: `value * unit * k`. */
  function InspectorWrite(value: real, unit: real, k: real): real
  {
    value * unit * k
  }

  /**
   * The inspector's display of a world quantity: `(world / unit) / k`, with
   * `k` the square root of the field's multiplier. Writing the displayed
   * value back gives the world quantity again.
   */
  function InspectorDisplay(world: real, unit: real, k: real): (d: real)
    requires unit != 0.0 && k > 0.0
    ensures InspectorWrite(d, unit, k) == world
  {
    var d := (world / unit) / k;
    assert d * k == world / unit;
    assert (world / unit) * unit == world;
    d
  }

  /** A value written through the inspector is displayed back as the value written. */
  lemma InspectorWriteShown(value: real, unit: real, k: real)
    requires unit != 0.0 && k > 0.0
    ensures InspectorDisplay(InspectorWrite(value, unit, k), unit, k) == value
  {
    var w := InspectorWrite(value, unit, k);
    var a := w / unit;
    assert a * unit == w;
    assert a == value * k;
    var b := a / k;
    assert b * k == a;
  }

  /** `(Math.random() - 0.5) * hw`, for a random number `u`. */
  function Jitter(u: real, hw: real): real
  {
    (u - 0.5) * hw
  }

  /** The circle `createCircle` adds: a quarter of the square's side as radius, near the square's centre. */
  function NewCircle(square: Shape, u1: real, u2: real, serial: nat): Shape
    requires square.Square?
  {
    var hw := square.size / 2.0;
    Circle(square.x + hw + Jitter(u1, hw), square.y + hw + Jitter(u2, hw), square.size / 4.0, Black, false, serial)
  }

  /** The triangle `createTile` adds: both legs `√2/2` of the square's side, near the square's centre. */
  function NewTile(square: Shape, u1: real, u2: real, theta: real, root2: real, serial: nat): Shape
    requires square.Square?
  {
    var hw := square.size / 2.0;
    var l := root2 * 0.5 * square.size;
    Triangle(square.x + hw + Jitter(u1, hw), square.y + hw + Jitter(u2, hw), theta, l, l, serial)
  }

  /**
   * With `root2` a square root of 2, the new tile has equal legs `l` with
   * `2 · l² == size²`; for `theta = 90` this is a right isosceles triangle
   * whose hypotenuse is the square's side.
   */
  lemma NewTileLegs(square: Shape, u1: real, u2: real, theta: real, root2: real, serial: nat)
    requires square.Square? && root2 * root2 == 2.0
    ensures var t := NewTile(square, u1, u2, theta, root2, serial);
      t.Triangle? && t.length1 == t.length2 && 2.0 * t.length1 * t.length1 == square.size * square.size
  {
    var l := root2 * 0.5 * square.size;
    assert 2.0 * l * l == 2.0 * (root2 * root2) * 0.25 * (square.size * square.size);
  }

  /**
   * For random numbers in `[0, 1)` the new circle's centre lies within a
   * quarter side of the square's centre, so the whole disk lies inside the square.
   */
  lemma NewCircleInsideSquare(square: Shape, u1: real, u2: real, serial: nat)
    requires square.Square? && square.size > 0.0
    requires 0.0 <= u1 < 1.0 && 0.0 <= u2 < 1.0
    ensures var c := NewCircle(square, u1, u2, serial);
      square.x <= c.x - c.radius && c.x + c.radius < square.x + square.size &&
      square.y <= c.y - c.radius && c.y + c.radius < square.y + square.size
  {
    var hw := square.size / 2.0;
    JitterBounds(u1, hw);
    JitterBounds(u2, hw);
  }

  lemma JitterBounds(u: real, hw: real)
    requires 0.0 <= u < 1.0 && hw > 0.0
    ensures -hw / 2.0 <= Jitter(u, hw) < hw / 2.0
  {
    MulNonNegative(u, hw);
    MulPositive(1.0 - u, hw);
  }

  /** The inspector's writes: one coordinate, or a circle's radius, replaced. */
  function WithX(s: Shape, v: real): Shape
  {
    s.(x := v)
  }

  function WithY(s: Shape, v: real): Shape
  {
    s.(y := v)
  }

  function WithRadius(s: Shape, v: real): Shape
  {
    if s.Circle? then s.(radius := v) else s
  }

  /** Where an object drag puts the object: its start position minus the pointer's travel. */
  function Dragged(s: Shape, drag: ObjectDrag, m: Point): Shape
  {
    s.(x := drag.objX0 - DragRatio * (drag.x0 - m.x), y := drag.objY0 - DragRatio * (drag.y0 - m.y))
  }

  /** Where a pan puts the offset: its start value minus the pointer's travel. */
  function Panned(drag: GlobalDrag, m: Point): Point
  {
    Point(drag.offsetX0 - DragRatio * (drag.x0 - m.x), drag.offsetY0 - DragRatio * (drag.y0 - m.y))
  }

  /** A drag follows the pointer: the object and the offset move by exactly the pointer's travel. */
  lemma DragFollowsPointer(s: Shape, od: ObjectDrag, gd: GlobalDrag, m: Point)
    ensures Dragged(s, od, m).x - od.objX0 == m.x - od.x0 && Dragged(s, od, m).y - od.objY0 == m.y - od.y0
    ensures Panned(gd, m).x - gd.offsetX0 == m.x - gd.x0 && Panned(gd, m).y - gd.offsetY0 == m.y - gd.y0
    ensures Uncolored(Dragged(s, od, m)).(x := s.x, y := s.y) == Uncolored(s)
  {
  }

  /** The calls of one frame: clear, every object in list order, the connectors, then the overlays. */
  function FrameTrace(count: nat, pairs: seq<(nat, nat)>, grid: bool, diagonals: bool): seq<DrawCall>
  {
    [ClearSurface] + ObjectCalls(count) + ConnectorCalls(pairs) +
    (if grid then [DrawGrid] else []) + (if diagonals then [DrawDiagonals] else [])
  }

  function ObjectCalls(count: nat): seq<DrawCall>
  {
    seq(count, j requires 0 <= j < count => DrawObject(j))
  }

  function ConnectorCalls(pairs: seq<(nat, nat)>): seq<DrawCall>
  {
    seq(|pairs|, m requires 0 <= m < |pairs| => DrawConnector(pairs[m].0, pairs[m].1))
  }

  class Canvas {
    /** The background square, which is also `objects[0]`. */
    const square: Shape
    var objects: seq<Shape>
    /** The last pointer position, in screen coordinates. */
    var mouse: Point
    var offset: Point
    var zoom: real
    var globalDrag: GlobalDrag
    var objectDrag: ObjectDrag
    /** The index of `selectedObject` in `objects`, or `None` for `null`. */
    var selected: Option<nat>
    var gridEnabled: bool
    var diagonals: bool
    /** The counters behind the names `circleN` and `triangleN`. */
    var circleCount: nat
    var triangleCount: nat

    /**
     * The invariant every handler keeps: the square of side 500 at the origin
     * is first and alone of its kind, and the selection is a flagged circle
     * that no other object shares. The two drag flags are not part of it:
     * nothing in the handlers keeps them exclusive.
     */
    ghost predicate Valid()
      reads this`objects, this`selected
    {
      square == Square(0.0, 0.0, UnitSize) && WellFormed(objects, square) &&
      SelectionConsistent(objects, selected)
    }

    /** `unit`: the side of the square. */
    function Unit(): real
      requires square.Square?
    {
      square.size
    }

    constructor ()
      ensures Valid()
      ensures objects == [square] && mouse == Point(0.0, 0.0) && offset == Point(50.0, 50.0) && zoom == 1.0
      ensures globalDrag == GlobalDrag(0.0, 0.0, 0.0, 0.0, false)
      ensures objectDrag == ObjectDrag(0.0, 0.0, 0.0, 0.0, false)
      ensures selected.None? && !gridEnabled && diagonals
      ensures circleCount == 0 && triangleCount == 0
    {
      var sq := Square(0.0, 0.0, UnitSize);
      square := sq;
      objects := [sq];
      mouse := Point(0.0, 0.0);
      offset := Point(50.0, 50.0);
      zoom := 1.0;
      globalDrag := GlobalDrag(0.0, 0.0, 0.0, 0.0, false);
      objectDrag := ObjectDrag(0.0, 0.0, 0.0, 0.0, false);
      selected := None;
      gridEnabled := false;
      diagonals := true;
      circleCount := 0;
      triangleCount := 0;
    }

    /** `selectObject`: clear every flag, record the selection, and flag it when it is a circle. */
    method SelectObject(sel: Option<nat>)
      requires sel.Some? ==> sel.value < |objects|
      modifies this`objects, this`selected
      ensures objects == WithSelection(old(objects), sel) && selected == sel
    {
      var i := 0;
      while i < |objects|
        invariant 0 <= i <= |objects| == |old(objects)|
        invariant forall j :: 0 <= j < i ==> objects[j] == Flagged(old(objects)[j], false)
        invariant forall j :: i <= j < |objects| ==> objects[j] == old(objects)[j]
      {
        objects := objects[i := Flagged(objects[i], false)];
        i := i + 1;
      }
      selected := sel;
      if sel.Some? && objects[sel.value].Circle? {
        objects := objects[sel.value := objects[sel.value].(selected := true)];
      }
      assert forall j :: 0 <= j < |objects| ==> objects[j] == WithSelection(old(objects), sel)[j];
    }

    /** `updateObjects`: run every object's `update`; only circles change, and only their colour. */
    method UpdateObjects()
      modifies this`objects
      ensures objects == Recolor(old(objects))
    {
      var i := 0;
      while i < |objects|
        invariant 0 <= i <= |objects| == |old(objects)|
        invariant SameExceptColor(objects, old(objects))
        invariant forall j :: 0 <= j < i ==> objects[j] == Recolor(old(objects))[j]
        invariant forall j :: i <= j < |objects| ==> objects[j] == old(objects)[j]
      {
        var obj := objects[i];
        if obj.Circle? {
          var c := OverlapColor(objects, i);
          OverlapsIgnoresColor(objects, old(objects), i);
          objects := objects[i := obj.(color := c)];
        }
        i := i + 1;
      }
    }

    /**
     * The pointer-move handler. An object drag moves the selection to its start
     * position minus the pointer's travel and recolours; a pan, independently,
     * sets the offset the same way. An object drag without a selection stops
     * the handler with a null dereference (`fault`), after only the pointer
     * position has been recorded.
     */
    method HandleMove(m: Point) returns (fault: bool)
      requires Valid()
      modifies this`mouse, this`objects, this`offset
      ensures Valid() && mouse == m
      ensures fault <==> objectDrag.dragging && selected.None?
      ensures fault ==> objects == old(objects) && offset == old(offset)
      ensures !fault && objectDrag.dragging ==>
        objects == Recolor(old(objects)[selected.value := Dragged(old(objects)[selected.value], objectDrag, m)])
      ensures !objectDrag.dragging ==> objects == old(objects)
      ensures !fault ==> offset == if globalDrag.dragging then Panned(globalDrag, m) else old(offset)
    {
      mouse := m;
      fault := false;
      if objectDrag.dragging {
        if selected.None? {
          fault := true;
          return;
        }
        var i := selected.value;
        ReplaceKeepsStructure(objects, square, selected, i, Dragged(objects[i], objectDrag, mouse));
        objects := objects[i := Dragged(objects[i], objectDrag, mouse)];
        RecolorKeepsStructure(objects, square, selected);
        UpdateObjects();
      }
      if globalDrag.dragging {
        offset := Panned(globalDrag, mouse);
      }
    }

    /**
     * The pointer-down handler, at the last recorded pointer position. On an
     * object other than the square it selects that object and starts an object
     * drag (whether or not a pan is active); on the square it clears the
     * selection; on empty space it starts a pan unless one is active.
     */
    method HandleDown()
      requires Valid()
      modifies this`objects, this`selected, this`objectDrag, this`globalDrag
      ensures Valid()
      ensures var hit := Underneath(old(objects), mouse, offset, zoom);
        (hit.Some? && !old(objects)[hit.value].Square? ==>
          objects == WithSelection(old(objects), hit) && selected == hit &&
          objectDrag == ObjectDrag(mouse.x, mouse.y, old(objects)[hit.value].x, old(objects)[hit.value].y, true) &&
          globalDrag == old(globalDrag)) &&
        (hit.Some? && old(objects)[hit.value].Square? ==>
          objects == WithSelection(old(objects), None) && selected.None? &&
          objectDrag == old(objectDrag) && globalDrag == old(globalDrag)) &&
        (hit.None? ==>
          objects == old(objects) && selected == old(selected) && objectDrag == old(objectDrag) &&
          globalDrag == if old(globalDrag).dragging then old(globalDrag)
                        else GlobalDrag(mouse.x, mouse.y, offset.x, offset.y, true))
      ensures selected.Some? ==> objectDrag.dragging || selected == old(selected)
      ensures !old(globalDrag).dragging && !old(objectDrag).dragging ==> !(globalDrag.dragging && objectDrag.dragging)
    {
      var hit := ObjectUnderneath(objects, mouse, offset, zoom);
      if hit.Some? {
        var obj := objects[hit.value];
        if !obj.Square? {
          assert obj.Circle?;
          WithSelectionKeepsStructure(objects, square, hit);
          WithSelectionConsistent(objects, hit);
          SelectObject(hit);
          objectDrag := ObjectDrag(mouse.x, mouse.y, obj.x, obj.y, true);
        } else {
          WithSelectionKeepsStructure(objects, square, None);
          WithSelectionConsistent(objects, None);
          SelectObject(None);
        }
      } else if !globalDrag.dragging {
        globalDrag := GlobalDrag(mouse.x, mouse.y, offset.x, offset.y, true);
      }
    }

    /**
     * `globalDragStop`, for pointer-up and pointer-leave: end the pan if one is
     * active, and otherwise end the object drag. One call clears one flag.
     */
    method GlobalDragStop()
      modifies this`globalDrag, this`objectDrag
      ensures old(globalDrag).dragging ==>
        globalDrag == old(globalDrag).(dragging := false) && objectDrag == old(objectDrag)
      ensures !old(globalDrag).dragging ==>
        globalDrag == old(globalDrag) && objectDrag == old(objectDrag).(dragging := false)
    {
      if globalDrag.dragging {
        globalDrag := globalDrag.(dragging := false);
      } else if objectDrag.dragging {
        objectDrag := objectDrag.(dragging := false);
      }
    }

    /**
     * `handleKeys`: with a selection, apply `w`, `s`, `d`, `a`, then (for a
     * circle) `e`, `q`, each followed by `updateObjects`, then `Delete`, which
     * removes the selection from the list and clears it.
     */
    method HandleKeys(keys: Keys)
      requires Valid()
      modifies this`objects, this`selected
      ensures Valid()
      ensures (objects, selected) == KeysEffect(old(objects), old(selected), keys)
    {
      KeysKeepStructure(objects, square, selected, keys);
      if selected.None? {
        return;
      }
      var i := selected.value;
      FrameNudgeIsNudged(objects[i], keys);
      MoveKeys(i, keys);
      if keys.delete {
        // `indexOf(selectedObject)` is `i`: the selection is a member of the list.
        objects := Remove(objects, i);
        SelectObject(None);
      }
    }

    /** The move keys of `handleKeys` for the object at `i`: `w`, `s`, `d`, `a`, then `e`, `q` for a circle. */
    method MoveKeys(i: nat, keys: Keys)
      requires i < |objects|
      modifies this`objects
      ensures objects == AfterNudge(old(objects), i, FrameNudge(old(objects)[i], keys))
    {
      ghost var o := objects;
      // Between the keys: objects == AfterNudge(o, i, done), for the keys so far taken as one.
      var n := KeyNudge(keys.w, 0.0, -MoveVelocity, 0.0);
      KeyMove(i, n);
      ghost var done := n;
      n := KeyNudge(keys.s, 0.0, MoveVelocity, 0.0);
      AfterNudgeCombine(o, i, done, n);
      KeyMove(i, n);
      done := Combine(done, n);
      n := KeyNudge(keys.d, MoveVelocity, 0.0, 0.0);
      AfterNudgeCombine(o, i, done, n);
      KeyMove(i, n);
      done := Combine(done, n);
      n := KeyNudge(keys.a, -MoveVelocity, 0.0, 0.0);
      AfterNudgeCombine(o, i, done, n);
      KeyMove(i, n);
      done := Combine(done, n);
      if objects[i].Circle? {
        n := KeyNudge(keys.e, 0.0, 0.0, MoveVelocity);
        AfterNudgeCombine(o, i, done, n);
        KeyMove(i, n);
        done := Combine(done, n);
        n := KeyNudge(keys.q, 0.0, 0.0, -MoveVelocity);
        AfterNudgeCombine(o, i, done, n);
        KeyMove(i, n);
        done := Combine(done, n);
      }
    }

    /** One key of `handleKeys`: when held, shift the object at `i` (a circle's radius too) and run `updateObjects`. */
    method KeyMove(i: nat, n: KeyNudge)
      requires i < |objects|
      modifies this`objects
      ensures objects == AfterNudge(old(objects), i, n)
    {
      if n.held {
        objects := objects[i := Shifted(objects[i], n.dx, n.dy, n.dr)];
        UpdateObjects();
      }
    }

    /**
     * `createCircle`: append a circle of radius `size / 4` near the square's
     * centre, jittered by the random numbers `u1` and `u2`, and recolour.
     */
    method CreateCircle(u1: real, u2: real)
      requires Valid()
      modifies this`objects, this`circleCount
      ensures Valid()
      ensures objects == Recolor(old(objects) + [NewCircle(square, u1, u2, old(circleCount))])
      ensures |objects| == |old(objects)| + 1 && objects[|old(objects)|].Circle?
      ensures objects[|old(objects)|].radius == square.size / 4.0
      ensures forall j :: 0 <= j < |old(objects)| ==> Uncolored(objects[j]) == Uncolored(old(objects)[j])
      ensures circleCount == old(circleCount) + 1
    {
      var c := NewCircle(square, u1, u2, circleCount);
      circleCount := circleCount + 1;
      objects := objects + [c];
      RecolorKeepsStructure(objects, square, selected);
      UpdateObjects();
    }

    /**
     * `createTile`: append a triangle with angle `theta` and both legs
     * `√2/2 · size` near the square's centre, and recolour. `root2` stands for
     * `Math.sqrt(2)`; `NewTileLegs` states what the legs are when it is one.
     */
    method CreateTile(u1: real, u2: real, theta: real, root2: real)
      requires Valid()
      requires root2 > 0.0
      modifies this`objects, this`triangleCount
      ensures Valid()
      ensures objects == Recolor(old(objects) + [NewTile(square, u1, u2, theta, root2, old(triangleCount))])
      ensures |objects| == |old(objects)| + 1 && objects[|old(objects)|].Triangle?
      ensures objects[|old(objects)|].length1 == objects[|old(objects)|].length2 == root2 * 0.5 * square.size
      ensures forall j :: 0 <= j < |old(objects)| ==> Uncolored(objects[j]) == Uncolored(old(objects)[j])
      ensures triangleCount == old(triangleCount) + 1
    {
      var t := NewTile(square, u1, u2, theta, root2, triangleCount);
      triangleCount := triangleCount + 1;
      objects := objects + [t];
      RecolorKeepsStructure(objects, square, selected);
      UpdateObjects();
    }

    /**
     * The values `syncInspector` writes into the inspector: shown only for a
     * selected circle, each one the world value in units of the square,
     * divided by the square root `k` of its multiplier.
     */
    function Inspector(kx: real, ky: real, kr: real): (view: Option<InspectorFields>)
      reads this`objects, this`selected
      requires Valid() && kx > 0.0 && ky > 0.0 && kr > 0.0
      ensures view.Some? <==> selected.Some?
      ensures view.Some? ==>
        var c := objects[selected.value];
        view.value.serial == c.serial &&
        InspectorWrite(view.value.x, Unit(), kx) == c.x &&
        InspectorWrite(view.value.y, Unit(), ky) == c.y &&
        InspectorWrite(view.value.radius, Unit(), kr) == c.radius
    {
      match selected
      case None => None
      case Some(i) =>
        var c := objects[i];
        Some(InspectorFields(c.serial, InspectorDisplay(c.x, Unit(), kx),
                             InspectorDisplay(c.y, Unit(), ky), InspectorDisplay(c.radius, Unit(), kr)))
    }

    /** The inspector's x field: the selection's x becomes `value * unit * k`; with no selection the handler throws and nothing changes. */
    method InspectorSetX(value: real, k: real)
      requires Valid()
      modifies this`objects
      ensures Valid()
      ensures objects == match selected
        case None => old(objects)
        case Some(i) => old(objects)[i := WithX(old(objects)[i], InspectorWrite(value, Unit(), k))]
    {
      if selected.Some? {
        var i := selected.value;
        ReplaceKeepsStructure(objects, square, selected, i, WithX(objects[i], InspectorWrite(value, Unit(), k)));
        objects := objects[i := WithX(objects[i], InspectorWrite(value, Unit(), k))];
      }
    }

    /** The inspector's y field, as `InspectorSetX`. */
    method InspectorSetY(value: real, k: real)
      requires Valid()
      modifies this`objects
      ensures Valid()
      ensures objects == match selected
        case None => old(objects)
        case Some(i) => old(objects)[i := WithY(old(objects)[i], InspectorWrite(value, Unit(), k))]
    {
      if selected.Some? {
        var i := selected.value;
        ReplaceKeepsStructure(objects, square, selected, i, WithY(objects[i], InspectorWrite(value, Unit(), k)));
        objects := objects[i := WithY(objects[i], InspectorWrite(value, Unit(), k))];
      }
    }

    /** The inspector's radius field: the selected circle's radius becomes `value * unit * k`. */
    method InspectorSetRadius(value: real, k: real)
      requires Valid()
      modifies this`objects
      ensures Valid()
      ensures objects == match selected
        case None => old(objects)
        case Some(i) => old(objects)[i := WithRadius(old(objects)[i], InspectorWrite(value, Unit(), k))]
    {
      if selected.Some? {
        var i := selected.value;
        ReplaceKeepsStructure(objects, square, selected, i, WithRadius(objects[i], InspectorWrite(value, Unit(), k)));
        objects := objects[i := WithRadius(objects[i], InspectorWrite(value, Unit(), k))];
      }
    }

    /** The zoom slider: a percentage becomes a scale factor. */
    method SetZoom(percent: real)
      modifies this`zoom
      ensures zoom == percent / 100.0
    {
      zoom := percent / 100.0;
    }

    /** The grid checkbox. */
    method SetGrid(enabled: bool)
      modifies this`gridEnabled
      ensures gridEnabled == enabled
    {
      gridEnabled := enabled;
    }

    /** The diagonals checkbox. */
    method SetDiagonals(on: bool)
      modifies this`diagonals
      ensures diagonals == on
    {
      diagonals := on;
    }

    /** The recenter button: no pan, zoom 1. */
    method Recenter()
      modifies this`offset, this`zoom
      ensures offset == Point(0.0, 0.0) && zoom == 1.0
    {
      offset := Point(0.0, 0.0);
      zoom := 1.0;
    }

    /**
     * `update`, one animation frame: clear, draw every object in list order,
     * draw the connectors of touching circles, the grid and the diagonals when
     * enabled, and only then apply the held keys, so that their effect shows in
     * the next frame.
     */
    method Tick(keys: Keys) returns (pairs: seq<(nat, nat)>, trace: seq<DrawCall>)
      requires Valid()
      modifies this`objects, this`selected
      ensures Valid()
      ensures IsConnectorList(pairs, old(objects))
      ensures trace == FrameTrace(|old(objects)|, pairs, gridEnabled, diagonals)
      ensures (objects, selected) == KeysEffect(old(objects), old(selected), keys)
    {
      trace := [ClearSurface];
      var i := 0;
      while i < |objects|
        invariant 0 <= i <= |objects|
        invariant trace == [ClearSurface] + ObjectCalls(i)
      {
        assert ObjectCalls(i + 1) == ObjectCalls(i) + [DrawObject(i)];
        trace := trace + [DrawObject(i)];
        i := i + 1;
      }
      pairs := CircleConnections(objects);
      trace := trace + ConnectorCalls(pairs);
      if gridEnabled {
        trace := trace + [DrawGrid];
      }
      if diagonals {
        trace := trace + [DrawDiagonals];
      }
      HandleKeys(keys);
    }
  }
}
