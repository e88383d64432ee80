/** The ruler window: a borderless form whose Left, Top, Width and Height, orientation
    flag and drag state are fields that its event handlers update in place. Each
    handler is proved to perform the transition of the same name in Interaction. */
module RulerForm {
  import opened Geometry
  import opened Interaction
  import Render

  class MainForm {
    var left: int
    var top: int
    var width: int
    var height: int
    var isVertical: bool
    var offset: Point
    var mouseDownPoint: Point
    var mouseDownRect: Rect
    var resizeRegion: ResizeRegion
    var cursor: CursorShape
    var onAppearProcessed: bool

    /** The form's state as a value. */
    function Model(): FormState
      reads this
    {
      FormState(Rect(left, top, width, height), isVertical, offset, mouseDownPoint,
                mouseDownRect, resizeRegion, cursor)
    }

    /** A new ruler: a 400 by 75 client area at the location the system chooses,
        horizontal, with no drag in progress. */
    constructor (initialLeft: int, initialTop: int)
      ensures Model() == FormState(Rect(initialLeft, initialTop, 400, 75), false, Point(0, 0),
                                   Point(0, 0), Rect(0, 0, 0, 0), None, Default)
      ensures !onAppearProcessed
    {
      left, top := initialLeft, initialTop;
      width, height := 400, 75;
      isVertical := false;
      offset, mouseDownPoint := Point(0, 0), Point(0, 0);
      mouseDownRect := Rect(0, 0, 0, 0);
      resizeRegion := None;
      cursor := Default;
      onAppearProcessed := false;
    }

    /** First activation applies the stored orientation once; later ones do nothing. */
    method OnActivated(storedVertical: bool)
      modifies this
      ensures onAppearProcessed
      ensures old(onAppearProcessed) ==> Model() == old(Model())
      ensures !old(onAppearProcessed) ==>
        Model() == if storedVertical then Reoriented(old(Model())) else old(Model())
    {
      if onAppearProcessed {
        return;
      }
      if storedVertical {
        ChangeOrientation();
      }
      onAppearProcessed := true;
    }

    method ChangeOrientation()
      modifies this
      ensures Model() == Reoriented(old(Model()))
      ensures onAppearProcessed == old(onAppearProcessed)
    {
      isVertical := !isVertical;
      var w := width;
      width := height;
      height := w;
    }

    method HandleMoveResizeKeystroke(key: Keys, control: bool, shift: bool)
      modifies this
      ensures Model() == Nudged(old(Model()), key, control, shift)
      ensures onAppearProcessed == old(onAppearProcessed)
    {
      if key == Right {
        if !control {
          left := left + COARSE_STEP;
          return;
        }
        if shift {
          width := width + FINE_STEP;
          return;
        }
        left := left + FINE_STEP;
        return;
      }
      if key == Left {
        if !control {
          left := left - COARSE_STEP;
          return;
        }
        if shift {
          width := width - FINE_STEP;
          return;
        }
        left := left - FINE_STEP;
        return;
      }
      if key == Up {
        if !control {
          top := top - COARSE_STEP;
          return;
        }
        if shift {
          height := height - FINE_STEP;
          return;
        }
        top := top - FINE_STEP;
        return;
      }
      if key == Down {
        if control {
          if shift {
            height := height + FINE_STEP;
            return;
          }
          top := top + FINE_STEP;
          return;
        }
        top := top + COARSE_STEP;
      }
    }

    method OnKeyDown(key: Keys, control: bool, shift: bool)
      modifies this
      ensures Model() == KeyDown(old(Model()), key, control, shift)
      ensures onAppearProcessed == old(onAppearProcessed)
    {
      match key
      case Space => ChangeOrientation();
      case Left | Up | Right | Down => HandleMoveResizeKeystroke(key, control, shift);
      case OtherKey =>
    }

    /** `mouse` is the screen cursor position at the time of the call. */
    method HandleResize(mouse: Point)
      modifies this
      ensures Model() == Resized(old(Model()), mouse)
      ensures onAppearProcessed == old(onAppearProcessed)
    {
      match resizeRegion
      case E =>
        var x := mouse.x - mouseDownPoint.x;
        width := mouseDownRect.width + x;
      case SE =>
        width := mouseDownRect.width + mouse.x - mouseDownPoint.x;
        height := mouseDownRect.height + mouse.y - mouseDownPoint.y;
      case S =>
        var y := mouse.y - mouseDownPoint.y;
        height := mouseDownRect.height + y;
      case _ =>
    }

    method OnMouseDown(mouse: Point)
      modifies this
      ensures Model() == Pressed(old(Model()), mouse)
      ensures onAppearProcessed == old(onAppearProcessed)
    {
      offset := Point(mouse.x - left, mouse.y - top);
      mouseDownPoint := mouse;
      mouseDownRect := Rect(0, 0, width, height);
    }

    /** `leftButton` holds when the event's button state is exactly the left button. */
    method OnMouseMove(mouse: Point, leftButton: bool)
      modifies this
      ensures Model() == Moved(old(Model()), mouse, leftButton)
      ensures onAppearProcessed == old(onAppearProcessed)
    {
      if resizeRegion != None {
        HandleResize(mouse);
        return;
      }
      var client := Point(mouse.x - left, mouse.y - top);
      var clientRectangle := Rect(0, 0, width, height);
      var inner := clientRectangle.Inflate(-RESIZE_BORDER_WIDTH, -RESIZE_BORDER_WIDTH);
      if !clientRectangle.Contains(client) || inner.Contains(client) {
        cursor := Default;
        if leftButton {
          left, top := mouse.x - offset.x, mouse.y - offset.y;
        }
      } else {
        var region := GetResizeRegion(client, width, height, RESIZE_BORDER_WIDTH);
        cursor := CursorFor(region);
        if leftButton {
          resizeRegion := region;
          HandleResize(mouse);
        }
      }
    }

    method OnMouseUp()
      modifies this
      ensures Model() == Released(old(Model()))
      ensures onAppearProcessed == old(onAppearProcessed)
    {
      resizeRegion := None;
    }

    /** The draw calls of one paint, before vertical mode's rotation of the surface. */
    method OnPaint(fontHeight: int) returns (cmds: seq<Render.DrawCommand>)
      ensures cmds == Painted(Model(), fontHeight)
    {
      var h := height;
      var w := width;
      if isVertical {
        h := width;
        w := height;
      }
      cmds := Render.DrawRuler(w, h, fontHeight);
    }
  }
}
