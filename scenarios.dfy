/**
 * Two pointer and key sequences on a fresh canvas. Each one reaches a state
 * that the handlers allow although the editor's design does not intend it.
 */
module Scenarios {
  import opened Wrappers
  import opened Geometry
  import opened Shapes
  import opened Scene
  import opened Editor

  /**
   * Press on a circle, then hold `Delete` for a frame (the key pass of
   * `Tick`): the circle is removed and the selection cleared, but the object
   * drag stays active, so the next pointer move dereferences the missing
   * selection.
   */
  method DeleteWhileDraggingFaults() returns (fault: bool)
    ensures fault
  {
    var canvas := PressOnCircle();
    canvas.HandleKeys(Keys(false, false, false, false, false, false, true));
    assert canvas.selected.None?;
    fault := canvas.HandleMove(Point(310.0, 310.0));
  }

  /** A fresh canvas with one circle, pressed at the circle's centre: the circle is selected and dragged. */
  method PressOnCircle() returns (canvas: Canvas)
    ensures fresh(canvas) && canvas.Valid()
    ensures canvas.objectDrag.dragging && canvas.selected == Some(1)
  {
    canvas := new Canvas();
    canvas.CreateCircle(0.5, 0.5);
    ghost var circle := canvas.objects[1];
    assert Uncolored(circle) == Uncolored(NewCircle(canvas.square, 0.5, 0.5, 0));
    assert circle.Circle? && circle.x == 250.0 && circle.y == 250.0 && circle.radius == 125.0;
    assert |canvas.objects| == 2 && !canvas.objectDrag.dragging;
    var _ := canvas.HandleMove(Point(300.0, 300.0));
    assert canvas.objects[1] == circle;
    CircleHitAtCentre(circle, canvas.offset, canvas.zoom);
    assert circle.ScreenPos(canvas.offset, canvas.zoom) == canvas.mouse;
    assert Underneath(canvas.objects, canvas.mouse, canvas.offset, canvas.zoom) == Some(1);
    canvas.HandleDown();
  }

  /**
   * With the zoom at 50%, press on empty space to start a pan, pan until the
   * circle lies under the pointer, and press again: the circle is picked up
   * while the pan is still active, so both drags are on at once.
   */
  method BothDragsActive() returns (both: bool)
    ensures both
  {
    var canvas := PanStarted();
    ghost var circle := canvas.objects[1];
    var _ := canvas.HandleMove(Point(20.0, 20.0));
    assert canvas.offset == Point(-210.0, -210.0) && canvas.objects[1] == circle;
    CircleHitAtCentre(circle, canvas.offset, canvas.zoom);
    assert circle.ScreenPos(canvas.offset, canvas.zoom) == canvas.mouse;
    assert Underneath(canvas.objects, canvas.mouse, canvas.offset, canvas.zoom) == Some(1);
    canvas.HandleDown();
    both := canvas.globalDrag.dragging && canvas.objectDrag.dragging;
  }

  /** A fresh canvas at 50% zoom with one circle, pressed outside both objects: a pan is under way. */
  method PanStarted() returns (canvas: Canvas)
    ensures fresh(canvas) && canvas.Valid() && canvas.zoom == 0.5 && |canvas.objects| == 2
    ensures var c := canvas.objects[1]; c.Circle? && c.x == 250.0 && c.y == 250.0 && c.radius == 125.0
    ensures canvas.globalDrag == GlobalDrag(280.0, 280.0, 50.0, 50.0, true) && !canvas.objectDrag.dragging
  {
    canvas := new Canvas();
    canvas.SetZoom(50.0);
    canvas.CreateCircle(0.5, 0.5);
    ghost var square := canvas.objects[0];
    ghost var circle := canvas.objects[1];
    assert Uncolored(circle) == Uncolored(NewCircle(canvas.square, 0.5, 0.5, 0));
    assert circle.Circle? && circle.x == 250.0 && circle.y == 250.0 && circle.radius == 125.0;
    var _ := canvas.HandleMove(Point(280.0, 280.0));
    // The square covers the screen from 25 to 275, the circle a radius of 62.5 around 150.
    assert !square.IsPointInside(canvas.mouse, canvas.offset, canvas.zoom);
    assert !circle.IsPointInside(canvas.mouse, canvas.offset, canvas.zoom);
    assert Underneath(canvas.objects, canvas.mouse, canvas.offset, canvas.zoom).None?;
    canvas.HandleDown();
  }
}
