# Crease-pattern editor: scene model

A model, in Dafny, of the interactive scene of a browser-based crease-pattern
editor. The editor shows a fixed background square of side 500. Circles and
triangular tiles are placed on it; the user pans and zooms the view, picks
objects up with the pointer, nudges and resizes them with the keyboard,
deletes them, and edits their values in an inspector. Circles that overlap
another circle are painted pink. Pairs of circles that nearly touch (gap in
`[0, 3)`) are joined by a connector line.

The project has six modules:

- `Wrappers` (`wrappers.dfy`): `Option`, standing for the editor's nullable
  results.
- `Geometry` (`geometry.dfy`): the helpers of `source/helpers.js`. These are
  the rectangle and triangle containment tests, the orientation sign `sign`,
  and distance.
  - `dist` takes a square root. The model keeps the squared distance
    `DistSq` and the comparison `DistLess(a, b, s)`, which is
    `s > 0 && DistSq(a, b) < s * s`.
  - `DistLessIff` proves that this is exactly `dist(a, b) < s` for any
    `d >= 0` with `d * d == DistSq(a, b)`. The `s > 0` guard matters because
    a radius can become negative.
  - It also holds the world-to-screen transform `(w + offset) * zoom` and its
    inverse.
- `Shapes` (`shapes.dfy`): the `Square`, `Triangle` and `Circle` classes of
  `source/main.js` as one datatype. It has their screen coordinates and their
  hit tests.
- `Scene` (`scene.dfy`): what the controller computes over the object list.
  - The functions are the specifications: overlap colouring (`Recolor`), the
    top-most hit (`Underneath`), the selection pass (`WithSelection`),
    removal, and the effect of one frame's keys (`KeysEffect`).
  - The methods are the source's loops over the list, each proved against
    its function. The connector scan and `getObjectUnderneath` only read.
    `Circle.update` also assigns the circle's colour. The model splits it:
    `OverlapColor` is a read-only version that returns the colour, and
    `Canvas.UpdateObjects` writes it.
- `Editor` (`editor.dfy`): the `Canvas` controller as a class.
  - Its fields are the object list, pointer, offset, zoom, the two drag
    records, the selection (an index into the list), the overlay switches
    and the naming counters.
  - Every handler is a method that states the new state in terms of the old
    one and keeps `Valid()`. `Valid()` says the square is `objects[0]` and
    unique, and the selection is a flagged circle that no other object shares.
  - `Tick` is one animation frame. It records its drawing calls as a trace
    and then applies the held keys.
- `Scenarios` (`scenarios.dfy`): two event sequences on a fresh canvas. Each
  reaches a state the handlers allow, as described under Behaviour.

Pointer positions, held keys, random numbers, `√2`, the tile angle and the
square roots of the inspector multipliers are all parameters.

## Behaviour the model keeps

- **The two drags are not mutually exclusive.** `handleDown` starts an object
  drag without looking at the pan. `handleMove` runs both branches when both
  flags are set. `globalDragStop` clears one flag per call.
  - `Valid()` therefore says nothing about the drag flags.
  - `HandleDown` only promises that it does not make both active when neither
    was.
  - `Scenarios.BothDragsActive` reaches the state where both are on.
- **Deleting during a drag faults.** `Delete` removes the selection but leaves
  the object drag active. The next pointer move then assigns to a field of
  the `null` selection, which throws.
  - `HandleMove` returns `fault` exactly in that case; only the pointer
    position has been recorded by then.
  - `Scenarios.DeleteWhileDraggingFaults` reaches it.
- **Colours can be stale.** Only four operations run `updateObjects`:
  - each step of an object drag in `handleMove`;
  - each held movement key in `handleKeys`;
  - `createCircle`;
  - `createTile`.

  A pan, a plain pointer move, a press, a zoom or a recentre does not
  recolour. None of these changes world positions or radii either, so their
  colours stay right. `Delete` and the inspector's writes do change the list.
  They do not recolour, so the colours can be out of date until the next of
  the four operations. The model leaves them untouched as well.
- **Triangles cannot be hit.** `Triangle.isPointInside` has an empty body, so
  a tile can never be selected or dragged. Only circles and the square hit.
- **Drags move in screen units.** A drag moves the object, or the offset, by
  the pointer's screen travel in world units. At a zoom other than 1 the
  object does not stay under the pointer.

## Model

| member | source | states |
|---|---|---|
| `Geometry.DragRatio` | source/helpers.js:1 | `dragRatio = 1`, the factor on pointer travel in both drags |
| `Geometry.MoveVelocity` | source/helpers.js:2 | `moveVelocity = 1`, what one frame of a held key adds |
| `Shapes.Shape.Coords` | source/main.js:20-22 | `get coords()`: the object's world position `(x, y)` |
| `Geometry.ToScreen` | source/main.js:12-18 | the world-to-screen map `(w + offset) · zoom` of `xRel`/`yRel`; the round trips below are its contracts |
| `Geometry.ToWorld` | source/main.js:12-18 | the inverse of that map for a non-zero zoom, `s / zoom − offset`; it has no counterpart in the source and serves only to state the round trips |
| `Geometry.ToScreenInjective` | source/main.js:12-18 | for a non-zero zoom, two world coordinates have the same screen coordinate iff they are equal |
| `Geometry.ToWorldToScreen` | source/main.js:12-18 | mapping a world coordinate to the screen and back gives it back (zoom non-zero) |
| `Geometry.ToScreenToWorld` | source/main.js:12-18 | mapping a screen coordinate to the world and back gives it back (zoom non-zero) |
| `Shapes.Shape.XRel` | source/main.js:12-14 | the screen x maps back to the object's world x under the inverse transform |
| `Shapes.Shape.YRel` | source/main.js:16-18 | the screen y maps back to the object's world y under the inverse transform |
| `Shapes.ScreenPosInjective` | source/main.js:12-18 | two objects with the same screen position at a non-zero zoom have the same world centre |
| `Geometry.InBounds` | source/helpers.js:46-51 | true iff the point lies in the closed rectangle `[x, x+w] × [y, y+h]` |
| `Geometry.InBoundsCorners` | source/helpers.js:46-51 | all four corners of a rectangle with non-negative sides count as inside |
| `Geometry.Sign` | source/helpers.js:53-56 | the orientation value `(p1.x − p3.x)(p2.y − p3.y) − (p2.x − p3.x)(p1.y − p3.y)`; its properties are the contracts of `SignZero` and the triangle lemmas |
| `Geometry.SignZero` | source/helpers.js:53-56 | `sign` is 0 when any two of its three points coincide |
| `Geometry.InBoundsTriangle` | source/helpers.js:58-73 | inside iff the three sign values are all `≥ 0` or all `≤ 0`: the point lies on the same side of all three lines, as the source's comment reads the `has_neg`/`has_pos` test |
| `Geometry.VerticesInside` | source/helpers.js:53-73 | every vertex of a triangle tests inside it |
| `Geometry.DegenerateInside` | source/helpers.js:58-73 | a point at which all three sign values are 0 tests inside |
| `Geometry.CollapsedTriangleInside` | source/helpers.js:58-73 | every point tests inside a triangle collapsed to one point |
| `Geometry.TriangleRotation` | source/helpers.js:63-65 | the test is invariant under cyclic rotation of the vertices |
| `Geometry.DistSq` | source/helpers.js:76-81 | the squared distance is non-negative |
| `Geometry.IsDist` | source/helpers.js:76-81 | `d` is the value `dist` returns: `d ≥ 0` and `d² = DistSq`; `DistUnique` states that it is unique |
| `Geometry.DistLess` | source/helpers.js:76-81 | the comparison `dist(a, b) < s` written without the square root; `DistLessIff` states the equivalence |
| `Geometry.DistLessIff` | source/helpers.js:76-81 | `dist(a, b) < s` iff `s > 0` and the squared distance is below `s²`, for the distance value `d` |
| `Geometry.DistSymmetric` | source/helpers.js:76-81 | a distance from `a` to `b` is one from `b` to `a` |
| `Geometry.DistSelf` | source/helpers.js:76-81 | the distance from a point to itself is 0 |
| `Geometry.DistUnique` | source/helpers.js:76-81 | the non-negative square root that `dist` returns is unique |
| `Shapes.Shape.RectBounds` | source/main.js:39-46 | for a non-zero zoom the four screen corners map back to the world square `[x, x + size] × [y, y + size]` |
| `Shapes.Shape.IsPointInside` | source/main.js:48-161 | the three `isPointInside` methods as one case split (square at lines 48-50, triangle at 118-120, circle at 156-161); what each case means is the contract of `SquareHit`, `TriangleNeverHit` and `CircleHit` |
| `Shapes.SquareHit` | source/main.js:39-50 | a square is hit iff the point lies in the closed screen rectangle of side `size * zoom` at its screen position |
| `Shapes.CircleHit` | source/main.js:156-161 | a circle is hit iff the distance to its screen centre is strictly less than `radius * zoom` |
| `Shapes.CircleHitAtCentre` | source/main.js:156-161 | a circle of positive radius is hit at its own screen centre for a positive zoom |
| `Shapes.TriangleNeverHit` | source/main.js:118-120 | no point hits a triangle |
| `Shapes.CircleHitExample` | source/main.js:156-161 | a circle at (100,100) of radius 20, offset 0, zoom 1, is hit at (119,100) and not at (121,100) |
| `Scene.CirclesOverlap` | source/main.js:146-147 | both are circles and the distance between their centres is below the sum of the radii; `CirclesOverlapSymmetric` states its symmetry |
| `Scene.Overlaps` | source/main.js:143-154 | some other circle of the list overlaps circle `i`; `OverlapColor` computes it by the source's loop |
| `Scene.CirclesOverlapSymmetric` | source/main.js:146-147 | overlap of two circles does not depend on which one asks |
| `Scene.OverlapColor` | source/main.js:143-154 | the loop of `Circle.update` with its early return yields pink iff some other circle overlaps circle `i` |
| `Scene.Recolor` | source/main.js:486-491 | after `updateObjects` every circle is pink iff it overlaps another circle, and nothing but colours changes |
| `Scene.OverlapsIgnoresColor` | source/main.js:143-154 | whether a circle overlaps another does not depend on any colour |
| `Scene.RecolorIgnoresColor` | source/main.js:486-491 | lists that differ only in colours are recoloured to the same list |
| `Scene.RecolorIdempotent` | source/main.js:486-491 | running `updateObjects` twice gives the same list as once |
| `Scene.OverlappingBothPink` | source/main.js:143-154 | two overlapping circles are both pink after recolouring |
| `Scene.ConnectorThreshold` | source/main.js:543 | `threshold = 3`, the largest gap (exclusive) that gets a connector |
| `Scene.Touching` | source/main.js:552-553 | two circles that do not overlap but would if the radii grew by 3 in sum; `TouchingGap` states the gap test it stands for |
| `Scene.TouchingGap` | source/main.js:552-553 | two circles get a connector iff the gap `dist − (r1 + r2)` is in `[0, 3)` |
| `Scene.TouchingExcludesOverlap` | source/main.js:147 | no pair of circles both gets a connector and overlaps |
| `Scene.ConnectorThresholdExample` | source/main.js:543-553 | radii 3 and 4 at distance 10 (gap exactly 3) get no connector; at distance 9.5 they do |
| `Scene.CircleConnections` | source/main.js:542-563 | the pairs are exactly the `(i, k)` with `i < k` whose circles touch, in strictly increasing visiting order |
| `Scene.ConnectionsOf` | source/main.js:549-560 | the inner loop yields exactly the later circles that circle `i` touches, in list order |
| `Scene.TopHit` | source/main.js:644-652 | `Some(j)`: object `j` below `n` is hit and no higher one below `n` is; `None` iff none below `n` is hit |
| `Scene.Underneath` | source/main.js:644-652 | `Some(j)`: object `j` is hit and no later object is; `None` iff no object is hit |
| `Scene.ObjectUnderneath` | source/main.js:644-652 | the reverse scan returns the highest-index hit object, or none iff no object is hit |
| `Scene.SameCentreLaterWins` | source/main.js:644-652 | in any list, at the centre shared by circles `i < k` (`k` of positive radius, positive zoom) some object is found, at an index `≥ k`, so never `i` |
| `Scene.WithSelection` | source/main.js:629-641 | same length; nothing but flags changes; the chosen object is flagged iff it is a circle, and no other object is |
| `Scene.WithSelectionConsistent` | source/main.js:629-641 | selecting a circle (or nothing) leaves a consistent selection |
| `Scene.SelectTwice` | source/main.js:629-641 | a second selection fully replaces the first |
| `Scene.DeselectUnflagged` | source/main.js:629-641 | clearing the selection of a list with no flag set leaves it unchanged |
| `Scene.Remove` | source/main.js:528-530 | `splice(i, 1)`: one element fewer, earlier elements in place, later ones shifted down by one |
| `Scene.WithSelectionKeepsStructure` | source/main.js:629-641 | the selection pass keeps the square first and alone of its kind |
| `Scene.RecolorKeepsStructure` | source/main.js:486-491 | recolouring keeps the square first and keeps the selection consistent |
| `Scene.AfterNudge` | source/main.js:495-499 | one movement key keeps the list length and the kind of the moved object |
| `Scene.AfterNudgeCombine` | source/main.js:495-525 | two keys, each followed by its own `updateObjects`, leave the list as one combined move does |
| `Scene.FrameNudgeIsNudged` | source/main.js:493-526 | all movement keys of a frame combined act iff some key applies, and then move the selection as `Nudged` |
| `Scene.Nudged` | source/main.js:495-526 | the selection after the movement keys; `NudgedGeometry` states the movement and `FrameNudgeIsNudged` ties it to the per-key updates |
| `Scene.NudgedGeometry` | source/main.js:495-526 | `w`/`s` move y by ∓1, `d`/`a` move x by ±1, `e`/`q` change only a circle's radius by ±1, nothing else changes |
| `Scene.KeysEffect` | source/main.js:493-536 | the list and selection after one frame of keys; `KeysWithoutSelection`, `ResizeOnlyCircles`, `KeysMoveOnlySelection`, `DeleteRemovesSelection` and `KeysKeepStructure` state what it does |
| `Scene.KeysWithoutSelection` | source/main.js:494 | with no selection the keys change nothing |
| `Scene.ResizeOnlyCircles` | source/main.js:515-526 | `e` and `q` alone do nothing to an object that is not a circle |
| `Scene.KeysMoveOnlySelection` | source/main.js:493-526 | without `Delete`, the keys keep the selection, change nothing without a movement key, and otherwise change only the selection up to colours |
| `Scene.DeleteRemovesSelection` | source/main.js:527-534 | `Delete` alone removes exactly the selected element, keeps the rest in order, and clears the selection |
| `Scene.KeysKeepStructure` | source/main.js:493-536 | the square stays at index 0 and the selection stays consistent after any frame of keys |
| `Editor.InspectorWrite` | source/main.js:389-398 | the world quantity an entry stands for, `value · unit · k`; its inverse property is the contract of `InspectorWriteShown` |
| `Editor.InspectorWriteShown` | source/main.js:389-398 | a value written through the inspector is displayed back, by the display of lines 623-625, as the value written |
| `Editor.InspectorDisplay` | source/main.js:623-625 | the displayed value, written back through lines 389-398, gives the world quantity again |
| `Editor.Jitter` | source/main.js:587-588 | `(u − 0.5) · hw` for the random number `u`; its bound is the contract of `JitterBounds` |
| `Editor.NewCircle` | source/main.js:585-589 | the circle `createCircle` builds: jittered centre, radius `size/4`, black, unselected; where it lies is the contract of `NewCircleInsideSquare` |
| `Editor.NewTileLegs` | source/main.js:594-600 | with `root2² = 2` the tile has equal legs `l` with `2 · l² = size²`; for `theta = 90` this is a right isosceles triangle whose hypotenuse is the square's side |
| `Editor.NewTile` | source/main.js:594-600 | the triangle `createTile` builds: jittered position, both legs `root2 · 0.5 · size`; `CreateTile` states what it appends |
| `Editor.JitterBounds` | source/main.js:587-588 | a random number in `[0, 1)` jitters by `[-hw/2, hw/2)` |
| `Editor.NewCircleInsideSquare` | source/main.js:585-589 | for random numbers in `[0, 1)` the whole new circle lies inside the square |
| `Editor.Dragged` | source/main.js:294-299 | the object at its start position minus the pointer's scaled travel; `DragFollowsPointer` states what this means |
| `Editor.Panned` | source/main.js:303-309 | the offset at its start value minus the pointer's scaled travel; `DragFollowsPointer` states what this means |
| `Editor.DragFollowsPointer` | source/main.js:294-309 | a drag moves the object or the offset by exactly the pointer's travel and changes nothing else |
| `Editor.UnitSize` | source/main.js:194 | the side 500 of the background square `new Square(500, 0, 0)` |
| `Editor.Canvas.Unit` | source/main.js:538-540 | `get unit()`: the side of the square, 500 under `Valid()` |
| `Editor.Canvas.constructor` | source/main.js:194-231 | the initial state: only the square, offset (50,50), zoom 1, no drag, no selection, grid off, diagonals on |
| `Editor.Canvas.SelectObject` | source/main.js:629-641 | the list becomes `WithSelection` of the old one and the selection is the given index |
| `Editor.Canvas.UpdateObjects` | source/main.js:486-491 | the list becomes `Recolor` of the old one |
| `Editor.Canvas.HandleMove` | source/main.js:287-318 | records the pointer; faults iff an object drag has no selection; otherwise drags the selection and recolours, and pans independently |
| `Editor.Canvas.HandleDown` | source/main.js:324-348 | on a non-square hit selects it and starts an object drag; on the square deselects; on nothing starts a pan unless one is active |
| `Editor.Canvas.GlobalDragStop` | source/main.js:605-612 | ends the pan if active, else ends the object drag: one flag per call |
| `Editor.Canvas.HandleKeys` | source/main.js:493-536 | the list and selection become `KeysEffect` of the old ones, and `Valid()` is kept |
| `Editor.Canvas.MoveKeys` | source/main.js:495-526 | the movement keys leave the list as the frame's combined nudge does |
| `Editor.Canvas.KeyMove` | source/main.js:495-499 | one held key shifts the object and recolours; a key not held changes nothing |
| `Editor.Canvas.CreateCircle` | source/main.js:585-592 | appends one circle of radius `size/4`, earlier objects unchanged up to colour, and recolours |
| `Editor.Canvas.CreateTile` | source/main.js:594-603 | appends one triangle with both legs `√2/2 · size`, earlier objects unchanged up to colour, and recolours |
| `Editor.Canvas.Inspector` | source/main.js:615-627 | shown iff something is selected; each value writes back to the circle's world value |
| `Editor.Canvas.InspectorSetX` | source/main.js:388-390 | the selection's x becomes `value * unit * k`; nothing changes without a selection |
| `Editor.Canvas.InspectorSetY` | source/main.js:392-394 | the selection's y becomes `value * unit * k`; nothing changes without a selection |
| `Editor.Canvas.InspectorSetRadius` | source/main.js:396-398 | the selected circle's radius becomes `value * unit * k`; nothing changes without a selection |
| `Editor.Canvas.SetZoom` | source/main.js:383-386 | the zoom becomes the slider percentage divided by 100 |
| `Editor.Canvas.SetGrid` | source/main.js:413-421 | the grid overlay follows the checkbox |
| `Editor.Canvas.SetDiagonals` | source/main.js:423-429 | the diagonals overlay follows the checkbox |
| `Editor.Canvas.Recenter` | source/main.js:367-373 | the offset becomes (0,0) and the zoom 1 |
| `Editor.Canvas.Tick` | source/main.js:565-583 | draws clear, every object in order, the connectors of the old list, then the enabled overlays, and then applies the keys |
| `Scenarios.DeleteWhileDraggingFaults` | source/main.js:294-301 | press on a circle, `Delete`, move: the move dereferences the missing selection |
| `Scenarios.BothDragsActive` | source/main.js:324-348 | start a pan, pan a circle under the pointer, press: both drags are active |

## Left out

- DOM and jQuery wiring are not modelled: element lookups, cursor styles,
  showing and hiding the inspector, and the text written into labels. The
  inspector's values are modelled as the function `Canvas.Inspector`.
- Rendering is not modelled. `Tick` records which drawing calls are made, in
  order, but not what they draw; `drawGrid` and `drawDiagonals` are single
  trace entries.
- Trigonometry is left out: `rotate`, `degToRad` and the vertex placement in
  `Triangle.draw`. They need `sin`, `cos` and π, which have no exact
  counterpart on Dafny's reals.
- `Math.random` is replaced by parameters `u1` and `u2`. `Math.sqrt(2)` is a
  positive parameter `root2`. A caller could not establish
  `root2 * root2 == 2`, since the verifier cannot exhibit a real square root
  of 2. So `CreateTile` asks only `root2 > 0`, and `NewTileLegs` states the
  legs under `root2 * root2 == 2`. The square roots of the
  inspector multipliers are parameters `k`. `parseFloat` of the tile
  selection is the parameter `theta`.
- `dist`'s square root is never computed. It appears only through `IsDist`
  and `DistLess`.
- IEEE floating point is not modelled; all arithmetic is on exact reals.
  - A negative multiplier, or text that is not a number, gives NaN.
  - An empty field reads as 0. An empty value field writes 0. An empty or
    zero multiplier makes the inspector's display divide by zero.
  - `Canvas.Inspector` requires every `k > 0`, so it leaves that display
    out.
- Input capture is left out: `keyRegister`, the key handlers, the listener
  registration and the `requestAnimationFrame` loop. Keys and pointer
  positions are parameters; handlers run one at a time.
- The pointer position is taken as given. The subtraction of the canvas's
  bounding rectangle in `handleMove` is not modelled.
- The grid's line count and its input field are not part of this model;
  they only affect `drawGrid`.
- The `locked` field of every object is never read, and the `isSelected`
  property that `selectObject` adds to squares and triangles is never read
  either. Neither is modelled.
- Names are `"circle"`/`"triangle"` plus a serial number. The model keeps
  the number.
  - The source's counters are static, shared by all canvases. In the model
    they are fields of the one `Canvas`.
- The selection is an index, not an object reference. `indexOf` of the
  selection is therefore its index, and the `ind > -1` test is always true:
  the selection is always in the list.
- `Editor.Canvas.HandleMove`: the null dereference is modelled as a `fault`
  result that stops the handler. The exception itself is not modelled.
- `Editor.Canvas.InspectorSetX`, `InspectorSetY` and `InspectorSetRadius`:
  with no selection the source throws the same way. The model states that
  nothing changes.
