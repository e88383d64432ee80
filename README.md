# Ruler: a verified model of the on-screen pixel ruler's geometry

The ruler is a borderless, always-resizable window (`MainForm`). It draws tick marks
and a "<width> pixels" label along its long axis. The user can drag it, resize it
from its east, south and south-east edges, nudge it with the arrow keys and
toggle it between horizontal and vertical. This project models the integer core
of that window in Dafny:

- `numerics.dfy` (module `Numerics`) holds the two pieces of C# integer
  behaviour the drawing code needs. One is `int.ToString()`, proved to read back
  exactly. The other is `/ 2`, which truncates toward zero.
- `geometry.dfy` (module `Geometry`) holds points and rectangles with
  `Rectangle.Contains` and `Inflate`. It also has the nine-valued `ResizeRegion`,
  the classifier `GetResizeRegion` and the region-to-cursor map of
  `SetResizeCursor`.
- `render.dfy` (module `Render`) holds the tick renderer. The `Graphics` surface
  is replaced by the sequence of draw calls made on it. `DrawRuler` is a loop
  proved equal to the specification function `Ruler`. There are lemmas for
  soundness, completeness, counts, the first tick and the header.
- `interaction.dfy` (module `Interaction`) holds the window's state as a value
  (`FormState`). Each event handler is a pure transition over it: press, move,
  release, resize, keystroke, orientation toggle and paint size. Lemmas relate
  these transitions to each other.
- `main_form.dfy` (module `RulerForm`) holds the class `MainForm`. Its fields are
  `left`, `top`, `width`, `height`, the orientation flag and the drag state. The
  handlers update these fields in place, and each is proved to perform its
  transition: `ensures Model() == Transition(old(Model()), …)`.

The screen cursor position (`Control.MousePosition`) is an explicit parameter
of each mouse handler. Whether the event's button state is exactly
`MouseButtons.Left` is a boolean parameter. The font is reduced to its height,
which is a parameter of painting. The window has no border
(`FormBorderStyle.None`, MainForm.cs:70). So the client rectangle is
`(0, 0, Width, Height)`, and a screen point maps to client coordinates by
subtracting the window's location.

Three behaviours of MainForm.cs are easy to misread:

- A point deep in the interior classifies as `E`, not as a "none" or move
  region. The interior is kept out of resizing only because the mouse-move
  handler tests the deflated client rectangle first. `RingRegionsHugTheirEdges`
  proves that this guard is enough.
- The classifier does not reject a negative band width or any other input. It
  is total.
- A window of width 0 or less gets the border rectangle and the length label,
  with no ticks. The loop simply does not run, and nothing is clamped.

## Model

| member | source | states |
|---|---|---|
| Geometry.GetResizeRegion | MainForm.cs:134-165 | Never `None`. The row is the top band (y ≤ b), the bottom band (b < y, y ≥ H−b) or the middle band between them. The column is left (x ≤ b, taking precedence) or right (x ≥ W−b, only outside the middle band). Every other middle-band point is `E`. Each iff is stated in both directions |
| Geometry.InteriorIsE | MainForm.cs:148-155 | Any point strictly inside all four bands classifies as `E` |
| Geometry.CornerRegions | MainForm.cs:136-164 | The four corner pixels of a window wider and taller than two bands classify as NW, NE, SE and SW |
| Geometry.RingRegionsHugTheirEdges | MainForm.cs:420-435 | On the border ring the move handler actually classifies (inside the client rectangle, outside its deflation by the band), `N`, `S`, `W` and `E` lie within the band of their own edge. So no interior point is ever treated as `E` |
| Geometry.Rect.Inflate | MainForm.cs:421-422 | Inflating changes the width by 2·dx and the height by 2·dy, and keeps the centre |
| Geometry.CursorFor | MainForm.cs:483-517 | `SetResizeCursor` never selects the default arrow. N and S get SizeNS, E and W get SizeWE, SE and NW get SizeNWSE, and NE, SW and the default case (`None`) get SizeNESW, each stated in both directions |
| Geometry.CursorIsPerAxis | MainForm.cs:483-517 | Opposite regions get the same cursor. Two regions share a cursor exactly when they are equal or opposite |
| Render.TickHeight | MainForm.cs:106-116 | The tick height is 5, 10 or 15. It is at least 10 exactly on multiples of 10, and 15 exactly on multiples of 100 |
| Render.DrawTick | MainForm.cs:122-126 | Two vertical strokes at xPos of length tickHeight: one hangs from the top edge, one rises from the bottom edge (y = formHeight) |
| Render.DrawTickLabel | MainForm.cs:128-132 | Two copies of the text at xPos. The first is at y = height. The second is placed so that its box ends as far above the bottom edge as the first starts below the top |
| Render.DrawRuler | MainForm.cs:99-120 | The loop over `0 .. formWidth−1` emits exactly `Ruler(formWidth, formHeight, fontHeight)`: the border, the length label, then each pixel's label and tick draws in order |
| Render.TicksPlaced | MainForm.cs:104-119 | Soundness. Every line the loop draws is a stroke at an even pixel below formWidth, of length TickHeight, on the top or bottom edge. Every text is the decimal of a multiple of 100 below formWidth, at y = 15 or y = formHeight−15−fontHeight. Nothing else is drawn |
| Render.TicksComplete | MainForm.cs:104-119 | Completeness. Every even pixel below formWidth gets both strokes. Every multiple of 100 below formWidth gets both labels |
| Render.TicksPrefix | MainForm.cs:104-119 | The loop only appends: what it has drawn after m pixels is a prefix of what it draws after n ≥ m |
| Render.TickCounts | MainForm.cs:104-119 | For formWidth ≥ 0 the loop draws 2·((formWidth+1)/2) lines, which is (formWidth+1)/2 ticks. It draws 2·((formWidth+99)/100) labels |
| Render.PixelCounts | MainForm.cs:106-118 | One pass draws two strokes on every even pixel and none on odd ones. It draws two texts exactly on even multiples of 100 |
| Render.FirstTickIsLabelled | MainForm.cs:104-117 | When formWidth > 0, pixel 0 is a labelled major tick. Right after the header come "0" at (0,15), "0" at (0, formHeight−15−fontHeight), then strokes of length 15 from both edges |
| Render.RulerHeader | MainForm.cs:102-103 | The border is `(0, 0, formWidth−1, formHeight−1)`. The length label sits at x = 10 and reads "<decimal> pixels", where the decimal parses back to formWidth. Its box is vertically centred to within a pixel |
| Numerics.HalfTowardZero | MainForm.cs:103 | C# `a / 2` rounds toward zero: the remainder is −1, 0 or 1 and has the sign of a |
| Numerics.ParseIntToDecimal | MainForm.cs:103 | `int.ToString()` is inverted by parsing, for negative numbers too |
| Numerics.ParseNatToDecimal | MainForm.cs:115 | The digit string of a natural number parses back to it |
| Numerics.NatToDecimalIsCanonical | MainForm.cs:115 | The digit string is non-empty, all digits, and has no leading zero except for "0" |
| Numerics.IntToDecimalInjective | MainForm.cs:115 | Different tick positions get different label texts |
| Interaction.Resized | MainForm.cs:242-273 | `HandleResize`. E sets the width to anchorRect.Width + (cursor.X − anchor.X). S sets the height likewise from Y. SE does both. Anything else changes nothing. The position and every non-bounds field stay |
| Interaction.ResizeHasNoDrift | MainForm.cs:242-273 | A resize only depends on the anchor and the current cursor. A second resize replaces the first, and repeating one with the same cursor is idempotent |
| Interaction.DragEndsAtLastPoint | MainForm.cs:413-419 | Once a region is latched, a drag along any non-empty path ends in the state the last cursor point alone gives |
| Interaction.Pressed | MainForm.cs:402-411 | The anchor is the cursor, the anchor rectangle is the client rectangle, and location + offset = cursor. Bounds, region, cursor and orientation are unchanged |
| Interaction.PressDoesNotJump | MainForm.cs:402-442 | Pressing and then moving by nothing leaves the bounds unchanged in every branch of the move handler |
| Interaction.Released | MainForm.cs:446-450 | The region becomes `None` from any state, with or without a prior press. Nothing else changes |
| Interaction.Moved | MainForm.cs:413-444 | With a region latched, every move resizes, whatever the buttons. In the move zone the cursor becomes the default, and a left drag puts the window at cursor − offset with its size kept. On the border ring the classified region's cursor is shown, and a left drag latches the region and resizes from the anchor. Without the left button nothing but the cursor changes. The anchor and orientation are never touched |
| Interaction.HoverKeepsBounds | MainForm.cs:420-442 | With no region latched, a move without the left button changes neither the bounds nor the latched region |
| Interaction.EastEdgeGesture | MainForm.cs:402-442 | On an idle window, a press, then a move that latches E, then any drag give the window width + (last cursor X − press X). The height and position stay |
| Interaction.NudgeChangesOneBound | MainForm.cs:167-240 | Exactly one of Left, Top, Width, Height changes, and only for arrow keys. Left/Right change Left or Width, Up/Down change Top or Height. Right/Down increase and Left/Up decrease. Ctrl+Shift resizes by 1, Ctrl alone moves by 1, no Ctrl moves by 5 |
| Interaction.OppositeArrowsCancel | MainForm.cs:167-240 | With the same modifiers, Left's change is the negation of Right's and Up's is the negation of Down's |
| Interaction.Nudged | MainForm.cs:167-240 | A keystroke changes only the bounds, by the table's delta |
| Interaction.NudgeRoundTrip | MainForm.cs:167-240 | Right then Left, and Down then Up, with the same modifiers restore the state |
| Interaction.Reoriented | MainForm.cs:91-97 | The vertical flag flips, Width and Height swap, and everything else stays |
| Interaction.ReorientTwice | MainForm.cs:91-97 | Toggling twice restores the original flag and dimensions |
| Interaction.KeyDown | MainForm.cs:367-400 | Space toggles the orientation, arrows nudge, and every other key changes nothing |
| Interaction.PaintSize | MainForm.cs:452-464 | In vertical mode the renderer gets width = Height and height = Width. In horizontal mode they pass unchanged |
| Interaction.ReorientKeepsPicture | MainForm.cs:91-97 | After a toggle the renderer is asked for the same ruler as before: window and drawing rotate together |
| RulerForm.MainForm.constructor | MainForm.cs:60-75 | A new form has a 400×75 client area, is horizontal, and has no region latched |
| RulerForm.MainForm.OnActivated | MainForm.cs:320-336 | The first activation toggles the orientation once if the stored flag is set. Later activations change nothing |
| RulerForm.MainForm.ChangeOrientation | MainForm.cs:91-97 | The fields change exactly as `Reoriented` says |
| RulerForm.MainForm.HandleMoveResizeKeystroke | MainForm.cs:167-240 | The fields change exactly as `Nudged` says |
| RulerForm.MainForm.OnKeyDown | MainForm.cs:367-400 | The fields change exactly as `KeyDown` says |
| RulerForm.MainForm.HandleResize | MainForm.cs:242-273 | The fields change exactly as `Resized` says |
| RulerForm.MainForm.OnMouseDown | MainForm.cs:402-411 | The fields change exactly as `Pressed` says |
| RulerForm.MainForm.OnMouseMove | MainForm.cs:413-444 | The fields change exactly as `Moved` says |
| RulerForm.MainForm.OnMouseUp | MainForm.cs:446-450 | The fields change exactly as `Released` says |
| RulerForm.MainForm.OnPaint | MainForm.cs:452-466 | The draw calls are those of `Ruler` at the oriented size `PaintSize` |

## Left out

- Menu construction and dispatch on menu text (`SetUpMenu`, `AddMenuItem`, `MenuHandler`, `GetMenuCheckedStatus`, `SetMenuCheckedStatus`) are user-interface glue. The vertical flag is a plain field rather than a menu item's checked state.
- `MessageBox`, `Close`, `TopMost` / "Stay On Top", `Main` and `Application.Run` are window-system plumbing. `OnActivated` keeps only the stored vertical flag, passed in as a parameter.
- Settings persistence (`OnFormClosing`, `Settings.Default.Save`) is external storage.
- Opacity (`OpacityMenuHandler`) is floating point and parses menu text.
- Painting's `RotateTransform(90)` and `TranslateTransform` are floating point and defined by the graphics library. `OnPaint` keeps only the integer dimension swap. Draw commands carry the integer coordinates that the source converts to `float`.
- Fonts, pens, brushes and the tool tip (`ShowToolTip`, `SetToolTip`, `OnResize`) are left out. The font is reduced to its height, taken as an integer parameter.
- Base-class calls (`base.OnMouseDown` and the like) and repaint requests belong to the window system.
- Any minimum-size clamping done by the `Form` setters is hidden in the window system. Width and Height are unbounded integers.
- Interaction.Resized: does not model 32-bit wrap-around of C# `int` arithmetic. No on-screen geometry comes near it, so all coordinates are unbounded integers. The same holds for every other sum in the model.
- Every read of `Control.MousePosition` within one handler (MainForm.cs:404-408 in `OnMouseDown`, 420-429 in `OnMouseMove`, 255-258 in `HandleResize`) is modelled as one sample `mouse`: the cursor is assumed not to move while a handler runs. `Interaction.Pressed`'s `bounds + offset == mouse == mouseDownPoint` and `Interaction.PressDoesNotJump` rely on that assumption.
- Numerics.IntToDecimal: writes the invariant-culture form with an ASCII `-`. The source's `i.ToString()` (MainForm.cs:115) and `string.Concat(formWidth, " pixels")` (MainForm.cs:103) use the current culture, whose negative sign may differ. Only a negative `formWidth` is affected, since tick labels are never negative.
- Keys other than Space and the four arrows (`Prior`, `Next`, `End`, `Home` and the rest) only reach the base handler. They are one `OtherKey` value.
