/** The ruler window's interaction state and the effect of each input event on it,
    as pure transitions. The class RulerForm.MainForm holds the same state in fields
    and its event handlers are proved to perform exactly these transitions. */
module Interaction {
  import opened Geometry
  import Render

  /** Width of the resize hit band along each edge, in pixels. */
  const RESIZE_BORDER_WIDTH: int := 5

  /** A nudge step without Ctrl, and with it. */
  const COARSE_STEP: int := 5
  const FINE_STEP: int := 1

  /** The keys the key-down handler tells apart; Prior, Next, End, Home and every
      other key only reach the base handler. */
  datatype Keys = Left | Up | Right | Down | Space | OtherKey {
    predicate IsArrow() { Left? || Up? || Right? || Down? }
  }

  /** The window's bounds (Left, Top, Width, Height), its orientation, the anchor
      captured by the last press, the latched resize region and the cursor shown. */
  datatype FormState = FormState(
    bounds: Rect,
    isVertical: bool,
    offset: Point,
    mouseDownPoint: Point,
    mouseDownRect: Rect,
    resizeRegion: ResizeRegion,
    cursor: CursorShape)

  /** With no border, the client area starts at the window's location and has its size. */
  function ClientRectangle(s: FormState): Rect {
    Rect(0, 0, s.bounds.width, s.bounds.height)
  }

  function PointToClient(s: FormState, screen: Point): Point {
    Point(screen.x - s.bounds.x, screen.y - s.bounds.y)
  }

  /** The move branch of the mouse-move handler: outside the client area, or inside
      it deflated by the hit band. */
  predicate InMoveZone(s: FormState, client: Point) {
    !ClientRectangle(s).Contains(client)
    || ClientRectangle(s).Inflate(-RESIZE_BORDER_WIDTH, -RESIZE_BORDER_WIDTH).Contains(client)
  }

  /** HandleResize: the size the latched region gives for the screen cursor `mouse`,
      measured from the anchor. Only E, S and SE resize; the window never moves. */
  function Resized(s: FormState, mouse: Point): (r: FormState)
    ensures r == s.(bounds := r.bounds)
    ensures r.bounds.x == s.bounds.x && r.bounds.y == s.bounds.y
    ensures r.bounds.width ==
      if s.resizeRegion == E || s.resizeRegion == SE
      then s.mouseDownRect.width + (mouse.x - s.mouseDownPoint.x) else s.bounds.width
    ensures r.bounds.height ==
      if s.resizeRegion == S || s.resizeRegion == SE
      then s.mouseDownRect.height + (mouse.y - s.mouseDownPoint.y) else s.bounds.height
  {
    match s.resizeRegion
    case E =>
      s.(bounds := s.bounds.(width := s.mouseDownRect.width + (mouse.x - s.mouseDownPoint.x)))
    case SE =>
      s.(bounds := s.bounds.(width := s.mouseDownRect.width + mouse.x - s.mouseDownPoint.x,
                             height := s.mouseDownRect.height + mouse.y - s.mouseDownPoint.y))
    case S =>
      s.(bounds := s.bounds.(height := s.mouseDownRect.height + (mouse.y - s.mouseDownPoint.y)))
    case _ => s
  }

  /** OnMouseDown: capture the anchor; nothing on screen changes. */
  function Pressed(s: FormState, mouse: Point): (r: FormState)
    ensures r.bounds == s.bounds && r.isVertical == s.isVertical
    ensures r.resizeRegion == s.resizeRegion && r.cursor == s.cursor
    ensures r.mouseDownPoint == mouse && r.mouseDownRect == ClientRectangle(s)
    ensures r.bounds.x + r.offset.x == mouse.x && r.bounds.y + r.offset.y == mouse.y
  {
    s.(offset := Point(mouse.x - s.bounds.x, mouse.y - s.bounds.y),
       mouseDownPoint := mouse,
       mouseDownRect := ClientRectangle(s))
  }

  /** OnMouseUp: forget the latched region, whatever came before. */
  function Released(s: FormState): (r: FormState)
    ensures r.resizeRegion == None
    ensures r.bounds == s.bounds && r.isVertical == s.isVertical && r.cursor == s.cursor
    ensures r.offset == s.offset && r.mouseDownPoint == s.mouseDownPoint && r.mouseDownRect == s.mouseDownRect
  {
    s.(resizeRegion := None)
  }

  /** OnMouseMove at screen cursor `mouse`; `leftButton` says that the event's button
      state is exactly the left button. */
  function Moved(s: FormState, mouse: Point, leftButton: bool): (r: FormState)
    // a latched region keeps resizing, whatever the buttons
    ensures s.resizeRegion != None ==> r == Resized(s, mouse)
    // the anchor and the orientation are never touched
    ensures r.offset == s.offset && r.mouseDownPoint == s.mouseDownPoint
    ensures r.mouseDownRect == s.mouseDownRect && r.isVertical == s.isVertical
    // move branch: default cursor; a left drag puts the window at cursor - offset
    ensures s.resizeRegion == None && InMoveZone(s, PointToClient(s, mouse)) ==>
      && r.cursor == Default && r.resizeRegion == None
      && r.bounds.width == s.bounds.width && r.bounds.height == s.bounds.height
      && (leftButton ==> r.bounds.x == mouse.x - s.offset.x && r.bounds.y == mouse.y - s.offset.y)
      && (!leftButton ==> r.bounds == s.bounds)
    // border branch: the region's cursor; a left press latches the region and resizes
    ensures s.resizeRegion == None && !InMoveZone(s, PointToClient(s, mouse)) ==>
      var region := GetResizeRegion(PointToClient(s, mouse), s.bounds.width, s.bounds.height, RESIZE_BORDER_WIDTH);
      && r.cursor == CursorFor(region)
      && (leftButton ==> r.resizeRegion == region && r.bounds == Resized(s.(resizeRegion := region), mouse).bounds)
      && (!leftButton ==> r.resizeRegion == None && r.bounds == s.bounds)
  {
    if s.resizeRegion != None then
      Resized(s, mouse)
    else
      var client := PointToClient(s, mouse);
      if InMoveZone(s, client) then
        var s' := s.(cursor := Default);
        if leftButton then s'.(bounds := s'.bounds.(x := mouse.x - s.offset.x, y := mouse.y - s.offset.y))
        else s'
      else
        var region := GetResizeRegion(client, s.bounds.width, s.bounds.height, RESIZE_BORDER_WIDTH);
        var s' := s.(cursor := CursorFor(region));
        if leftButton then Resized(s'.(resizeRegion := region), mouse) else s'
  }

  /** Moving with no region latched never resizes, and never changes anything
      unless the left button is held. */
  lemma HoverKeepsBounds(s: FormState, mouse: Point)
    requires s.resizeRegion == None
    ensures Moved(s, mouse, false).bounds == s.bounds
    ensures Moved(s, mouse, false).resizeRegion == None
  {
  }

  /** Resizing is measured from the anchor, not from the previous size: a second
      resize replaces the first, so repeating one is idempotent and no error builds up. */
  lemma ResizeHasNoDrift(s: FormState, m1: Point, m2: Point)
    ensures Resized(Resized(s, m1), m2) == Resized(s, m2)
    ensures Resized(Resized(s, m1), m1) == Resized(s, m1)
  {
  }

  /** A drag: mouse moves with the left button held, along a path of screen points. */
  function Drag(s: FormState, path: seq<Point>): FormState
    decreases |path|
  {
    if path == [] then s else Drag(Moved(s, path[0], true), path[1..])
  }

  /** Once a region is latched, a drag along any path ends in the size that the
      last point alone gives: the intermediate moves leave no trace. */
  lemma {:induction false} DragEndsAtLastPoint(s: FormState, path: seq<Point>)
    requires s.resizeRegion != None && path != []
    ensures Drag(s, path) == Resized(s, path[|path| - 1])
    decreases |path|
  {
    var t := Moved(s, path[0], true);
    assert t == Resized(s, path[0]);
    if |path| > 1 {
      DragEndsAtLastPoint(t, path[1..]);
      ResizeHasNoDrift(s, path[0], path[|path| - 1]);
    }
  }

  /** Pressing and then moving by nothing leaves the window where it was, in every
      branch: the anchor is the current geometry. */
  lemma PressDoesNotJump(s: FormState, p: Point)
    ensures Moved(Pressed(s, p), p, true).bounds == s.bounds
  {
  }

  /** A full resize gesture on the east edge: press at p on an idle window, a first
      move that latches E, then any drag; the width follows the cursor's horizontal
      travel since the press, the height and the position stay. */
  lemma EastEdgeGesture(s: FormState, p: Point, first: Point, path: seq<Point>)
    requires s.resizeRegion == None
    requires Moved(Pressed(s, p), first, true).resizeRegion == E
    ensures var last := if path == [] then first else path[|path| - 1];
            var r := Drag(Moved(Pressed(s, p), first, true), path);
            r.bounds == s.bounds.(width := s.bounds.width + (last.x - p.x))
  {
    var t := Moved(Pressed(s, p), first, true);
    if path != [] {
      DragEndsAtLastPoint(t, path);
    }
  }

  /** The change of bounds made by one keystroke. */
  datatype Delta = Delta(dLeft: int, dTop: int, dWidth: int, dHeight: int) {
    function Negate(): Delta { Delta(-dLeft, -dTop, -dWidth, -dHeight) }
    /** The signed amount of the one component a keystroke changes. */
    function Sum(): int { dLeft + dTop + dWidth + dHeight }
    function Size(): nat { if Sum() < 0 then -Sum() else Sum() }
  }

  /** HandleMoveResizeKeystroke, as the change it makes: an arrow moves the window 5
      pixels, 1 pixel with Ctrl, or grows or shrinks it by 1 pixel with Ctrl+Shift;
      exactly one of the four bounds changes, and only for arrows. */
  function NudgeDelta(key: Keys, control: bool, shift: bool): Delta
  {
    match key
    case Right =>
      if !control then Delta(COARSE_STEP, 0, 0, 0)
      else if shift then Delta(0, 0, FINE_STEP, 0)
      else Delta(FINE_STEP, 0, 0, 0)
    case Left =>
      if !control then Delta(-COARSE_STEP, 0, 0, 0)
      else if shift then Delta(0, 0, -FINE_STEP, 0)
      else Delta(-FINE_STEP, 0, 0, 0)
    case Up =>
      if !control then Delta(0, -COARSE_STEP, 0, 0)
      else if shift then Delta(0, 0, 0, -FINE_STEP)
      else Delta(0, -FINE_STEP, 0, 0)
    case Down =>
      if control then
        if shift then Delta(0, 0, 0, FINE_STEP)
        else Delta(0, FINE_STEP, 0, 0)
      else Delta(0, COARSE_STEP, 0, 0)
    case _ => Delta(0, 0, 0, 0)
  }

  /** The nudge table read by rows: exactly one of the four bounds changes, and only
      for arrow keys; the key picks the axis and the direction, the modifiers pick a
      move of 5, a move of 1, or a resize of 1. */
  lemma NudgeChangesOneBound(key: Keys, control: bool, shift: bool)
    ensures var d := NudgeDelta(key, control, shift);
            // exactly one component changes, by 5 or 1, and only for arrow keys
            (key.IsArrow() <==> d != Delta(0, 0, 0, 0))
            && (d.dLeft != 0 ==> d.dTop == d.dWidth == d.dHeight == 0)
            && (d.dTop != 0 ==> d.dLeft == d.dWidth == d.dHeight == 0)
            && (d.dWidth != 0 ==> d.dLeft == d.dTop == d.dHeight == 0)
            && (d.dHeight != 0 ==> d.dLeft == d.dTop == d.dWidth == 0)
            // the key picks the axis and the direction
            && ((d.dLeft != 0 || d.dWidth != 0) <==> (key == Left || key == Right))
            && ((key == Right || key == Down) ==> d.Sum() > 0)
            && ((key == Left || key == Up) ==> d.Sum() < 0)
            // the modifiers pick move or resize, and the step
            && ((d.dWidth != 0 || d.dHeight != 0) <==> (key.IsArrow() && control && shift))
            && (key.IsArrow() && !control ==> d.Size() == COARSE_STEP)
            && (key.IsArrow() && control ==> d.Size() == FINE_STEP)
  {
  }

  /** Opposite arrows with the same modifiers undo each other. */
  lemma OppositeArrowsCancel(control: bool, shift: bool)
    ensures NudgeDelta(Left, control, shift) == NudgeDelta(Right, control, shift).Negate()
    ensures NudgeDelta(Up, control, shift) == NudgeDelta(Down, control, shift).Negate()
  {
  }

  /** The keystroke applied to the window's bounds. */
  function Nudged(s: FormState, key: Keys, control: bool, shift: bool): (r: FormState)
    ensures r == s.(bounds := r.bounds)
    ensures var d := NudgeDelta(key, control, shift);
            r.bounds == Rect(s.bounds.x + d.dLeft, s.bounds.y + d.dTop,
                             s.bounds.width + d.dWidth, s.bounds.height + d.dHeight)
  {
    var d := NudgeDelta(key, control, shift);
    s.(bounds := Rect(s.bounds.x + d.dLeft, s.bounds.y + d.dTop,
                      s.bounds.width + d.dWidth, s.bounds.height + d.dHeight))
  }

  /** A nudge followed by the opposite arrow with the same modifiers restores the state. */
  lemma NudgeRoundTrip(s: FormState, control: bool, shift: bool)
    ensures Nudged(Nudged(s, Right, control, shift), Left, control, shift) == s
    ensures Nudged(Nudged(s, Down, control, shift), Up, control, shift) == s
  {
  }

  /** ChangeOrientation: flip the vertical flag and swap Width and Height. */
  function Reoriented(s: FormState): (r: FormState)
    ensures r.isVertical == !s.isVertical
    ensures r.bounds == Rect(s.bounds.x, s.bounds.y, s.bounds.height, s.bounds.width)
    ensures r.offset == s.offset && r.mouseDownPoint == s.mouseDownPoint && r.mouseDownRect == s.mouseDownRect
    ensures r.resizeRegion == s.resizeRegion && r.cursor == s.cursor
  {
    s.(isVertical := !s.isVertical, bounds := s.bounds.(width := s.bounds.height, height := s.bounds.width))
  }

  lemma ReorientTwice(s: FormState)
    ensures Reoriented(Reoriented(s)) == s
  {
  }

  /** OnKeyDown: Space toggles the orientation, the arrows nudge, other keys do nothing. */
  function KeyDown(s: FormState, key: Keys, control: bool, shift: bool): (r: FormState)
    ensures key == Space ==> r == Reoriented(s)
    ensures key.IsArrow() ==> r == Nudged(s, key, control, shift)
    ensures key == OtherKey ==> r == s
  {
    match key
    case Space => Reoriented(s)
    case Left | Up | Right | Down => Nudged(s, key, control, shift)
    case OtherKey => s
  }

  /** OnPaint's choice of logical size: in vertical mode the renderer is handed the
      window's height as the ruler's length and its width as the ruler's depth. */
  function PaintSize(s: FormState): (size: (int, int))
    ensures s.isVertical ==> size == (s.bounds.height, s.bounds.width)
    ensures !s.isVertical ==> size == (s.bounds.width, s.bounds.height)
  {
    if s.isVertical then (s.bounds.height, s.bounds.width) else (s.bounds.width, s.bounds.height)
  }

  /** What OnPaint draws, before the rotation that vertical mode applies. */
  function Painted(s: FormState, fontHeight: int): seq<Render.DrawCommand> {
    Render.Ruler(PaintSize(s).0, PaintSize(s).1, fontHeight)
  }

  /** Toggling the orientation rotates the window and the drawing together: the
      ruler the renderer is asked for is the same before and after. */
  lemma ReorientKeepsPicture(s: FormState, fontHeight: int)
    ensures PaintSize(Reoriented(s)) == PaintSize(s)
    ensures Painted(Reoriented(s), fontHeight) == Painted(s, fontHeight)
  {
  }
}
