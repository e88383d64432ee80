/** Integer window geometry of the ruler: points, rectangles, the nine resize
    regions of a borderless window, the classifier that maps a window-local
    point to one of them, and the cursor shown for each. */
module Geometry {

  datatype Point = Point(x: int, y: int)

  /** A `System.Drawing.Rectangle`: origin, width and height. */
  datatype Rect = Rect(x: int, y: int, width: int, height: int) {

    /** `Rectangle.Contains`: inclusive on the left and top, exclusive on the right and bottom. */
    predicate Contains(p: Point) {
      x <= p.x < x + width && y <= p.y < y + height
    }

    /** `Rectangle.Inflate(dx, dy)`: grows by dx on the left and on the right, by dy
        at the top and at the bottom; negative amounts shrink it about its centre. */
    function Inflate(dx: int, dy: int): (r: Rect)
      ensures r.width == width + 2 * dx && r.height == height + 2 * dy
      ensures 2 * r.x + r.width == 2 * x + width && 2 * r.y + r.height == 2 * y + height
    {
      Rect(x - dx, y - dy, width + 2 * dx, height + 2 * dy)
    }
  }

  datatype ResizeRegion = None | N | NE | E | SE | S | SW | W | NW

  /** The system cursors the ruler switches between. */
  datatype CursorShape = Default | SizeNS | SizeWE | SizeNESW | SizeNWSE

  /** GetResizeRegion: the region of a window of the given size that the window-local
      point p falls in, with a hit band `border` pixels wide. Corners win over edges;
      every point off the top and bottom bands and off the left column is E. */
  function GetResizeRegion(p: Point, width: int, height: int, border: int): (r: ResizeRegion)
    ensures r != None
    // the row: top band, bottom band, or the middle band in between
    ensures (r == NW || r == N || r == NE) <==> p.y <= border
    ensures (r == SW || r == S || r == SE) <==> border < p.y && height - border <= p.y
    ensures (r == W || r == E) <==> border < p.y < height - border
    // the column: the left column takes precedence over the right one
    ensures (r == NW || r == W || r == SW) <==> p.x <= border
    ensures (r == NE || r == SE) <==> !(border < p.y < height - border) && border < p.x && width - border <= p.x
    ensures r == E <==> border < p.y < height - border && border < p.x
  {
    if p.y <= border then
      if p.x <= border then NW
      else if p.x >= width - border then NE
      else N
    else if p.y < height - border then
      if p.x <= border then W
      else E
    else
      if p.x <= border then SW
      else if p.x >= width - border then SE
      else S
  }

  /** Points strictly inside the border bands, how deep soever, classify as E. */
  lemma InteriorIsE(p: Point, width: int, height: int, border: int)
    requires border < p.x < width - border && border < p.y < height - border
    ensures GetResizeRegion(p, width, height, border) == E
  {
  }

  /** The four corner pixels of a window wider and taller than two bands. */
  lemma CornerRegions(width: int, height: int, border: int)
    requires 0 < border && 2 * border < width && 2 * border < height
    ensures GetResizeRegion(Point(0, 0), width, height, border) == NW
    ensures GetResizeRegion(Point(width - 1, 0), width, height, border) == NE
    ensures GetResizeRegion(Point(width - 1, height - 1), width, height, border) == SE
    ensures GetResizeRegion(Point(0, height - 1), width, height, border) == SW
  {
  }

  /** The points for which the mouse-move handler consults the classifier: inside the
      client rectangle but outside the rectangle deflated by the band width. */
  predicate InBorderRing(p: Point, width: int, height: int, border: int) {
    var client := Rect(0, 0, width, height);
    client.Contains(p) && !client.Inflate(-border, -border).Contains(p)
  }

  /** On the ring the handler classifies, each edge region lies along its own edge:
      the interior never reaches E, whatever GetResizeRegion does with it. */
  lemma RingRegionsHugTheirEdges(p: Point, width: int, height: int, border: int)
    requires 0 <= border && 2 * border < width && 2 * border < height
    requires InBorderRing(p, width, height, border)
    ensures GetResizeRegion(p, width, height, border) == N ==> p.y < border
    ensures GetResizeRegion(p, width, height, border) == S ==> height - border <= p.y
    ensures GetResizeRegion(p, width, height, border) == W ==> p.x < border
    ensures GetResizeRegion(p, width, height, border) == E ==> width - border <= p.x
  {
  }

  /** SetResizeCursor, as the cursor it selects for a region. */
  function CursorFor(region: ResizeRegion): (c: CursorShape)
    ensures c != Default
    ensures c == SizeNS <==> (region == N || region == S)
    ensures c == SizeWE <==> (region == E || region == W)
    ensures c == SizeNWSE <==> (region == SE || region == NW)
    // the default case of the switch: None shares the diagonal of NE and SW
    ensures c == SizeNESW <==> (region == NE || region == SW || region == None)
  {
    match region
    case N | S => SizeNS
    case NE | SW => SizeNESW
    case E | W => SizeWE
    case SE | NW => SizeNWSE
    case None => SizeNESW
  }

  /** The region diametrically across the window. */
  function Opposite(region: ResizeRegion): ResizeRegion {
    match region
    case None => None
    case N => S
    case S => N
    case NE => SW
    case SW => NE
    case E => W
    case W => E
    case SE => NW
    case NW => SE
  }

  /** A resize cursor names an axis, not a direction: opposite regions share it,
      and regions on different axes never do. */
  lemma CursorIsPerAxis(r: ResizeRegion, q: ResizeRegion)
    requires r != None && q != None
    ensures Opposite(Opposite(r)) == r
    ensures CursorFor(Opposite(r)) == CursorFor(r)
    ensures CursorFor(r) == CursorFor(q) <==> (q == r || q == Opposite(r))
  {
  }
}
