/** The tick renderer: DrawRuler and its helpers, with the `Graphics` surface replaced
    by the sequence of draw calls they make, in order. Coordinates are integers; the
    font is reduced to its height. */
module Render {
  import opened Numerics

  datatype DrawCommand =
    | DrawRectangle(x: int, y: int, width: int, height: int)
    | DrawLine(x1: int, y1: int, x2: int, y2: int)
    | DrawString(text: string, x: int, y: int)

  /** Length of the tick drawn at pixel i: 15 on hundreds, 10 on other tens, 5 elsewhere. */
  function TickHeight(i: int): (h: int)
    ensures h == 5 || h == 10 || h == 15
    ensures h >= 10 <==> i % 10 == 0
    ensures h == 15 <==> i % 100 == 0
  {
    HundredsAreTens(i);
    if i % 100 != 0 then (if i % 10 != 0 then 5 else 10) else 15
  }

  lemma HundredsAreTens(i: int)
    ensures i % 100 == 0 ==> i % 10 == 0
  {
    if i % 100 == 0 {
      var q := i / 100;
      assert i == 10 * (10 * q);
    }
  }

  /** DrawTick: one stroke down from the top edge, one up from the bottom edge. */
  function DrawTick(xPos: int, formHeight: int, tickHeight: int): (r: seq<DrawCommand>)
    ensures |r| == 2 && r[0].DrawLine? && r[1].DrawLine?
    ensures r[0].x1 == r[0].x2 == r[1].x1 == r[1].x2 == xPos
    ensures r[0].y1 == 0 && r[0].y2 - r[0].y1 == tickHeight
    ensures r[1].y1 == formHeight && r[1].y1 - r[1].y2 == tickHeight
  {
    [DrawLine(xPos, 0, xPos, tickHeight), DrawLine(xPos, formHeight, xPos, formHeight - tickHeight)]
  }

  /** DrawTickLabel: the text below the top tick, and mirrored above the bottom one so
      that the text box ends as far above the bottom edge as the first starts below the top. */
  function DrawTickLabel(text: string, xPos: int, formHeight: int, height: int, fontHeight: int): (r: seq<DrawCommand>)
    ensures |r| == 2 && r[0].DrawString? && r[1].DrawString?
    ensures r[0].text == r[1].text == text && r[0].x == r[1].x == xPos
    ensures r[0].y == height
    ensures formHeight - (r[1].y + fontHeight) == r[0].y
  {
    [DrawString(text, xPos, height), DrawString(text, xPos, formHeight - height - fontHeight)]
  }

  /** What one pass of DrawRuler's loop draws for pixel i. */
  function PixelCommands(i: int, formHeight: int, fontHeight: int): seq<DrawCommand> {
    if i % 2 != 0 then []
    else if i % 100 == 0 then
      DrawTickLabel(IntToDecimal(i), i, formHeight, 15, fontHeight) + DrawTick(i, formHeight, 15)
    else DrawTick(i, formHeight, TickHeight(i))
  }

  /** Everything the loop draws for pixels 0 .. n-1, in order. */
  function Ticks(n: int, formHeight: int, fontHeight: int): seq<DrawCommand>
    decreases n
  {
    if n <= 0 then [] else Ticks(n - 1, formHeight, fontHeight) + PixelCommands(n - 1, formHeight, fontHeight)
  }

  /** The border rectangle and the length label DrawRuler starts with. */
  function Header(formWidth: int, formHeight: int, fontHeight: int): seq<DrawCommand> {
    [ DrawRectangle(0, 0, formWidth - 1, formHeight - 1),
      DrawString(IntToDecimal(formWidth) + " pixels", 10, HalfTowardZero(formHeight) - HalfTowardZero(fontHeight)) ]
  }

  /** The whole picture of a horizontal ruler of the given logical size. */
  function Ruler(formWidth: int, formHeight: int, fontHeight: int): seq<DrawCommand> {
    Header(formWidth, formHeight, fontHeight) + Ticks(formWidth, formHeight, fontHeight)
  }

  /** DrawRuler: the border, the length label, then a pass over every pixel column. */
  method DrawRuler(formWidth: int, formHeight: int, fontHeight: int) returns (cmds: seq<DrawCommand>)
    ensures cmds == Ruler(formWidth, formHeight, fontHeight)
  {
    cmds := [DrawRectangle(0, 0, formWidth - 1, formHeight - 1)];
    cmds := cmds + [DrawString(IntToDecimal(formWidth) + " pixels", 10, HalfTowardZero(formHeight) - HalfTowardZero(fontHeight))];
    var i := 0;
    while i < formWidth
      invariant 0 <= i <= (if formWidth < 0 then 0 else formWidth)
      invariant cmds == Header(formWidth, formHeight, fontHeight) + Ticks(i, formHeight, fontHeight)
    {
      assert Ticks(i + 1, formHeight, fontHeight) == Ticks(i, formHeight, fontHeight) + PixelCommands(i, formHeight, fontHeight);
      ghost var before := cmds;
      if i % 2 == 0 {
        var num: int;
        if i % 100 != 0 {
          num := if i % 10 != 0 then 5 else 10;
        } else {
          num := 15;
          cmds := cmds + DrawTickLabel(IntToDecimal(i), i, formHeight, num, fontHeight);
        }
        cmds := cmds + DrawTick(i, formHeight, num);
        assert num == TickHeight(i);
      }
      assert cmds == before + PixelCommands(i, formHeight, fontHeight);
      i := i + 1;
    }
    assert Ticks(i, formHeight, fontHeight) == Ticks(formWidth, formHeight, fontHeight);
  }

  /** Where a command produced by the pixel loop for pixels below n may stand. */
  predicate PlacedTick(c: DrawCommand, n: int, formHeight: int, fontHeight: int) {
    match c
    case DrawLine(x1, y1, x2, y2) =>
      x1 == x2 && 0 <= x1 < n && x1 % 2 == 0
      && ((y1 == 0 && y2 == TickHeight(x1)) || (y1 == formHeight && y2 == formHeight - TickHeight(x1)))
    case DrawString(text, x, y) =>
      0 <= x < n && x % 100 == 0 && text == IntToDecimal(x)
      && (y == 15 || y == formHeight - 15 - fontHeight)
    case DrawRectangle(_, _, _, _) => false
  }

  lemma PixelCommandsPlaced(i: int, n: int, formHeight: int, fontHeight: int)
    requires 0 <= i < n
    ensures forall c :: c in PixelCommands(i, formHeight, fontHeight) ==> PlacedTick(c, n, formHeight, fontHeight)
  {
  }

  /** Soundness of the loop: every line is a tick at an even pixel, of the length
      TickHeight gives, on the top or bottom edge; every text is the number of a
      multiple of 100, at one of the two label heights; nothing else is drawn. */
  lemma {:induction false} TicksPlaced(n: int, formHeight: int, fontHeight: int)
    ensures forall c :: c in Ticks(n, formHeight, fontHeight) ==> PlacedTick(c, n, formHeight, fontHeight)
    decreases n
  {
    if n > 0 {
      TicksPlaced(n - 1, formHeight, fontHeight);
      PixelCommandsPlaced(n - 1, n, formHeight, fontHeight);
      forall c | c in Ticks(n, formHeight, fontHeight)
        ensures PlacedTick(c, n, formHeight, fontHeight)
      {
        if c in Ticks(n - 1, formHeight, fontHeight) {
          assert PlacedTick(c, n - 1, formHeight, fontHeight);
        }
      }
    }
  }

  /** Ticks(m) is a prefix of Ticks(n) when m <= n: the loop only appends. */
  lemma {:induction false} TicksPrefix(m: int, n: int, formHeight: int, fontHeight: int)
    requires 0 <= m <= n
    ensures |Ticks(m, formHeight, fontHeight)| <= |Ticks(n, formHeight, fontHeight)|
    ensures Ticks(m, formHeight, fontHeight) == Ticks(n, formHeight, fontHeight)[..|Ticks(m, formHeight, fontHeight)|]
    decreases n
  {
    if m < n {
      TicksPrefix(m, n - 1, formHeight, fontHeight);
      var a := Ticks(n - 1, formHeight, fontHeight);
      assert Ticks(n, formHeight, fontHeight) == a + PixelCommands(n - 1, formHeight, fontHeight);
      assert (a + PixelCommands(n - 1, formHeight, fontHeight))[..|a|] == a;
    }
  }

  lemma PixelInTicks(i: int, n: int, formHeight: int, fontHeight: int)
    requires 0 <= i < n
    ensures forall c :: c in PixelCommands(i, formHeight, fontHeight) ==> c in Ticks(n, formHeight, fontHeight)
  {
    TicksPrefix(i + 1, n, formHeight, fontHeight);
    var t := Ticks(i + 1, formHeight, fontHeight);
    assert t == Ticks(i, formHeight, fontHeight) + PixelCommands(i, formHeight, fontHeight);
    forall c | c in PixelCommands(i, formHeight, fontHeight)
      ensures c in Ticks(n, formHeight, fontHeight)
    {
      assert c in t;
    }
  }

  /** Completeness of the loop: every even pixel below n gets both strokes of its
      tick, and every multiple of 100 below n gets both copies of its label. */
  lemma TicksComplete(x: int, n: int, formHeight: int, fontHeight: int)
    requires 0 <= x < n && x % 2 == 0
    ensures DrawLine(x, 0, x, TickHeight(x)) in Ticks(n, formHeight, fontHeight)
    ensures DrawLine(x, formHeight, x, formHeight - TickHeight(x)) in Ticks(n, formHeight, fontHeight)
    ensures x % 100 == 0 ==> DrawString(IntToDecimal(x), x, 15) in Ticks(n, formHeight, fontHeight)
    ensures x % 100 == 0 ==> DrawString(IntToDecimal(x), x, formHeight - 15 - fontHeight) in Ticks(n, formHeight, fontHeight)
  {
    PixelInTicks(x, n, formHeight, fontHeight);
    var p := PixelCommands(x, formHeight, fontHeight);
    if x % 100 == 0 {
      assert p[0] == DrawString(IntToDecimal(x), x, 15) && p[2] == DrawLine(x, 0, x, 15);
      assert p[1] == DrawString(IntToDecimal(x), x, formHeight - 15 - fontHeight);
      assert p[3] == DrawLine(x, formHeight, x, formHeight - 15);
    } else {
      assert p[0] == DrawLine(x, 0, x, TickHeight(x));
      assert p[1] == DrawLine(x, formHeight, x, formHeight - TickHeight(x));
    }
  }

  function LineCount(cmds: seq<DrawCommand>): nat
    decreases |cmds|
  {
    if cmds == [] then 0 else LineCount(cmds[..|cmds| - 1]) + (if cmds[|cmds| - 1].DrawLine? then 1 else 0)
  }

  function StringCount(cmds: seq<DrawCommand>): nat
    decreases |cmds|
  {
    if cmds == [] then 0 else StringCount(cmds[..|cmds| - 1]) + (if cmds[|cmds| - 1].DrawString? then 1 else 0)
  }

  lemma {:induction false} CountsAppend(a: seq<DrawCommand>, b: seq<DrawCommand>)
    ensures LineCount(a + b) == LineCount(a) + LineCount(b)
    ensures StringCount(a + b) == StringCount(a) + StringCount(b)
    decreases |b|
  {
    if b == [] {
      assert a + b == a;
    } else {
      var b' := b[..|b| - 1];
      assert (a + b)[..|a + b| - 1] == a + b';
      assert (a + b)[|a + b| - 1] == b[|b| - 1];
      CountsAppend(a, b');
    }
  }

  lemma CountsOfPair(c: DrawCommand, d: DrawCommand)
    ensures LineCount([c, d]) == (if c.DrawLine? then 1 else 0) + (if d.DrawLine? then 1 else 0)
    ensures StringCount([c, d]) == (if c.DrawString? then 1 else 0) + (if d.DrawString? then 1 else 0)
  {
    assert [c, d][..1] == [c];
    assert [c][..0] == [];
    assert LineCount([c]) == (if c.DrawLine? then 1 else 0);
    assert StringCount([c]) == (if c.DrawString? then 1 else 0);
  }

  /** One pass of the loop draws two strokes on every even pixel and two texts on
      every multiple of 100. */
  lemma PixelCounts(i: int, formHeight: int, fontHeight: int)
    ensures LineCount(PixelCommands(i, formHeight, fontHeight)) == (if i % 2 == 0 then 2 else 0)
    ensures StringCount(PixelCommands(i, formHeight, fontHeight)) == (if i % 2 == 0 && i % 100 == 0 then 2 else 0)
  {
    if i % 2 == 0 {
      var tick := DrawTick(i, formHeight, TickHeight(i));
      CountsOfPair(tick[0], tick[1]);
      assert tick == [tick[0], tick[1]];
      if i % 100 == 0 {
        var labels := DrawTickLabel(IntToDecimal(i), i, formHeight, 15, fontHeight);
        CountsOfPair(labels[0], labels[1]);
        assert labels == [labels[0], labels[1]];
        CountsAppend(labels, tick);
      }
    } else {
      assert PixelCommands(i, formHeight, fontHeight) == [];
    }
  }

  lemma HalfStep(i: int)
    requires 0 <= i
    ensures (i + 2) / 2 == (i + 1) / 2 + (if i % 2 == 0 then 1 else 0)
  {
  }

  lemma HundredStep(i: int)
    requires 0 <= i
    ensures (i + 100) / 100 == (i + 99) / 100 + (if i % 100 == 0 then 1 else 0)
  {
  }

  /** How many strokes and texts the loop draws for pixels 0 .. n-1: two strokes
      for each of the (n+1)/2 even pixels, two texts for each of the (n+99)/100
      multiples of 100. */
  lemma {:induction false} TickCounts(n: int, formHeight: int, fontHeight: int)
    requires 0 <= n
    ensures LineCount(Ticks(n, formHeight, fontHeight)) == 2 * ((n + 1) / 2)
    ensures StringCount(Ticks(n, formHeight, fontHeight)) == 2 * ((n + 99) / 100)
    decreases n
  {
    if n > 0 {
      TickCounts(n - 1, formHeight, fontHeight);
      var i := n - 1;
      var before, p := Ticks(i, formHeight, fontHeight), PixelCommands(i, formHeight, fontHeight);
      assert Ticks(n, formHeight, fontHeight) == before + p;
      CountsAppend(before, p);
      PixelCounts(i, formHeight, fontHeight);
      HalfStep(i);
      HundredStep(i);
      var lines, texts := LineCount(p), StringCount(p);
      if i % 2 != 0 {
        assert lines == 0 && (i + 2) / 2 == (i + 1) / 2;
        assert texts == 0 && (i + 100) / 100 == (i + 99) / 100;
      } else if i % 100 == 0 {
        assert lines == 2 && (i + 2) / 2 == (i + 1) / 2 + 1;
        assert texts == 2 && (i + 100) / 100 == (i + 99) / 100 + 1;
      } else {
        assert lines == 2 && (i + 2) / 2 == (i + 1) / 2 + 1;
        assert texts == 0 && (i + 100) / 100 == (i + 99) / 100;
      }
    }
  }

  /** Pixel 0 is always a labelled major tick: right after the header come the two
      "0" labels and the two 15-pixel strokes at x = 0. */
  lemma FirstTickIsLabelled(formWidth: int, formHeight: int, fontHeight: int)
    requires 0 < formWidth
    ensures var r := Ruler(formWidth, formHeight, fontHeight);
            |r| >= 6 && r[2..6] == [ DrawString("0", 0, 15), DrawString("0", 0, formHeight - 15 - fontHeight),
                                     DrawLine(0, 0, 0, 15), DrawLine(0, formHeight, 0, formHeight - 15) ]
  {
    TicksPrefix(1, formWidth, formHeight, fontHeight);
    var t := Ticks(1, formHeight, fontHeight);
    assert t == PixelCommands(0, formHeight, fontHeight);
    assert IntToDecimal(0) == "0";
    assert |t| == 4;
  }

  /** The header: a one-pixel border whose far edges are the last pixel row and
      column, and a length label whose text reads back as the width, followed by
      " pixels", and whose box is centred vertically to within a pixel. */
  lemma RulerHeader(formWidth: int, formHeight: int, fontHeight: int)
    ensures var r := Ruler(formWidth, formHeight, fontHeight);
            && |r| >= 2
            && r[0] == DrawRectangle(0, 0, formWidth - 1, formHeight - 1)
            && r[1].DrawString? && r[1].x == 10
            && -2 <= 2 * r[1].y + fontHeight - formHeight <= 2
            && |r[1].text| >= 7 && r[1].text[|r[1].text| - 7..] == " pixels"
            && (var digits := r[1].text[..|r[1].text| - 7];
                (AllDigits(digits) || (|digits| > 0 && digits[0] == '-' && AllDigits(digits[1..])))
                && ParseInt(digits) == formWidth)
  {
    var text := IntToDecimal(formWidth) + " pixels";
    assert text[..|text| - 7] == IntToDecimal(formWidth);
    ParseIntToDecimal(formWidth);
  }
}
