/**
 * The pixel editor's drawing surface (`SpriteCanvas`). The sprite is a
 * `width` x `height` grid of cells; the HTML canvas shows each cell as a
 * `zoom` x `zoom` square. The editor keeps the current tool, colour, zoom,
 * whether the mouse button is held, and whether the grid overlay is on.
 * Every pixel the pencil or eraser paints hands a snapshot of the whole canvas
 * to the parent (`onFrameUpdate(canvas.toDataURL())`).
 *
 * The raster is an `array<Rgb>` in row-major order: cell (x, y) is at index
 * `y * width + x`. The pure functions below (`Painted`, `Pressed`, ...) give the
 * meaning of each event handler on an `Editor` value; the methods of `Canvas`
 * perform the same updates in place and are proved against them.
 */
module SpriteCanvas {
  import opened Wrappers
  import opened Text

  type Byte = x: int | 0 <= x < 256

  /** A cell as the canvas reports it through `getImageData`: red, green, blue. */
  datatype Rgb = Rgb(r: Byte, g: Byte, b: Byte)

  const Black: Rgb := Rgb(0, 0, 0)

  datatype Tool = Pencil | Eraser | Fill | Picker

  // ---------------------------------------------------------------------------
  // CSS colours `#rrggbb`
  // ---------------------------------------------------------------------------

  /** A `#rrggbb` colour, hexadecimal digits in either case. */
  predicate IsHexColor(s: string) {
    |s| == 7 && s[0] == '#' && forall i | 1 <= i < 7 :: IsHexDigit(s[i])
  }

  /** The form the colour input produces: `#rrggbb` in lower case. */
  predicate IsLowerHexColor(s: string) {
    IsHexColor(s) && forall i | 1 <= i < 7 :: !('A' <= s[i] <= 'F')
  }

  function ByteAt(s: string, i: nat): Byte
    requires i + 1 < |s| && IsHexDigit(s[i]) && IsHexDigit(s[i + 1])
  {
    16 * HexValue(s[i]) + HexValue(s[i + 1])
  }

  /** What the canvas paints when `fillStyle` is set to `s`. */
  function ParseColor(s: string): Option<Rgb> {
    if IsHexColor(s) then Some(Rgb(ByteAt(s, 1), ByteAt(s, 3), ByteAt(s, 5))) else None
  }

  const EraserColor: string := "#000000"
  const InitialColor: string := "#10b981"

  // ---------------------------------------------------------------------------
  // The eyedropper's `((1 << 24) + (r << 16) + (g << 8) + b).toString(16).slice(1)`
  // ---------------------------------------------------------------------------

  function Pow16(k: nat): (p: nat)
    ensures p >= 1
  {
    if k == 0 then 1 else 16 * Pow16(k - 1)
  }

  /** `Number.prototype.toString(16)` on a non-negative integer: no leading zeros. */
  function ToHexString(n: nat): (s: string)
    ensures |s| >= 1
  {
    if n < 16 then [HexDigit(n)] else ToHexString(n / 16) + [HexDigit(n % 16)]
  }

  /** The last `k` hexadecimal digits of `v`, zero-padded to width `k`. */
  function HexFixed(v: nat, k: nat): (s: string)
    ensures |s| == k
  {
    if k == 0 then [] else HexFixed(v / 16, k - 1) + [HexDigit(v % 16)]
  }

  /**
   * The colour the eyedropper stores for a cell. The shifts of the source act
   * on bytes, so they never leave JavaScript's 32-bit range and are products here.
   */
  function PickedColor(c: Rgb): string {
    "#" + ToHexString(0x100_0000 + c.r * 0x1_0000 + c.g * 0x100 + c.b)[1..]
  }

  lemma DivMod16(v: nat, q: nat, r: nat)
    requires v == 16 * q + r && r < 16
    ensures v / 16 == q && v % 16 == r
  {
  }

  /** A one followed by `k` digits prints as "1" and then those digits, zero-padded. */
  lemma {:induction false} ToHexLeadingOne(k: nat, m: nat)
    requires m < Pow16(k)
    ensures ToHexString(Pow16(k) + m) == "1" + HexFixed(m, k)
  {
    if k > 0 {
      var n := Pow16(k) + m;
      DivMod16(m, m / 16, m % 16);
      DivMod16(n, Pow16(k - 1) + m / 16, m % 16);
      ToHexLeadingOne(k - 1, m / 16);
    }
  }

  /** Fixed-width digits of `a * 16^j + b` are the digits of `a` followed by those of `b`. */
  lemma {:induction false} HexFixedSplit(a: nat, b: nat, k: nat, j: nat)
    requires b < Pow16(j)
    ensures HexFixed(a * Pow16(j) + b, k + j) == HexFixed(a, k) + HexFixed(b, j)
  {
    if j > 0 {
      var v := a * Pow16(j) + b;
      assert a * Pow16(j) == 16 * (a * Pow16(j - 1));
      DivMod16(b, b / 16, b % 16);
      DivMod16(v, a * Pow16(j - 1) + b / 16, b % 16);
      HexFixedSplit(a, b / 16, k, j - 1);
    }
  }

  lemma HexFixedByte(v: nat)
    requires v < 256
    ensures HexFixed(v, 2) == [HexDigit(v / 16), HexDigit(v % 16)]
  {
    var q := v / 16;
    DivMod16(q, 0, q);
    assert HexFixed(q, 1) == HexFixed(0, 0) + [HexDigit(q)];
    assert HexFixed(v, 2) == HexFixed(q, 1) + [HexDigit(v % 16)];
  }

  function ChannelsValue(c: Rgb): (m: nat)
    ensures m < Pow16(6)
  {
    assert Pow16(6) == 0x100_0000;
    c.r * 0x1_0000 + c.g * 0x100 + c.b
  }

  lemma PickedColorFixed(c: Rgb)
    ensures PickedColor(c) == "#" + HexFixed(ChannelsValue(c), 6)
  {
    ToHexLeadingOne(6, ChannelsValue(c));
    assert Pow16(6) == 0x100_0000;
  }

  /** Fixed-width digits of `a * 256 + b` are the digits of `a` followed by the two of byte `b`. */
  lemma HexFixedByteSplit(a: nat, b: nat, v: nat, k: nat)
    requires b < 0x100 && v == a * 0x100 + b
    ensures HexFixed(v, k + 2) == HexFixed(a, k) + HexFixed(b, 2)
  {
    assert Pow16(2) == 0x100 by {
      assert Pow16(1) == 16;
    }
    HexFixedSplit(a, b, k, 2);
  }

  /** Six digits of `(r * 256 + g) * 256 + b` are two digits each of `r`, `g` and `b`. */
  lemma HexFixedThree(r: nat, g: nat, b: nat, x: nat, v: nat)
    requires g < 0x100 && b < 0x100
    requires x == r * 0x100 + g && v == x * 0x100 + b
    ensures HexFixed(v, 6) == HexFixed(r, 2) + HexFixed(g, 2) + HexFixed(b, 2)
  {
    HexFixedByteSplit(r, g, x, 2);
    HexFixedByteSplit(x, b, v, 4);
  }

  lemma HexFixedChannels(c: Rgb)
    ensures HexFixed(ChannelsValue(c), 6) == HexFixed(c.r, 2) + HexFixed(c.g, 2) + HexFixed(c.b, 2)
  {
    HexFixedThree(c.r, c.g, c.b, c.r * 0x100 + c.g, ChannelsValue(c));
  }

  /** The eyedropper writes each channel as two lower-case digits. */
  lemma PickedColorDigits(c: Rgb)
    ensures PickedColor(c) == "#" + HexFixed(c.r, 2) + HexFixed(c.g, 2) + HexFixed(c.b, 2)
    ensures IsLowerHexColor(PickedColor(c))
  {
    PickedColorFixed(c);
    HexFixedChannels(c);
    HexFixedByte(c.r);
    HexFixedByte(c.g);
    HexFixedByte(c.b);
  }

  /** Painting the picked colour paints the cell it was picked from. */
  lemma PickedColorParses(c: Rgb)
    ensures ParseColor(PickedColor(c)) == Some(c)
  {
    PickedColorDigits(c);
    HexFixedByte(c.r);
    HexFixedByte(c.g);
    HexFixedByte(c.b);
  }

  /** Two lower-case digits print back as themselves once read as a byte. */
  lemma ByteDigits(s: string, i: nat)
    requires i + 1 < |s| && IsHexDigit(s[i]) && IsHexDigit(s[i + 1])
    requires !('A' <= s[i] <= 'F') && !('A' <= s[i + 1] <= 'F')
    ensures HexFixed(ByteAt(s, i), 2) == s[i..i + 2]
  {
    var v := ByteAt(s, i);
    HexDigitOfValue(s[i]);
    HexDigitOfValue(s[i + 1]);
    DivMod16(v, HexValue(s[i]), HexValue(s[i + 1]));
    HexFixedByte(v);
  }

  /** Picking a cell painted with a lower-case colour gives back that colour's text. */
  lemma PickedColorOfParsed(s: string)
    requires IsLowerHexColor(s)
    ensures PickedColor(ParseColor(s).value) == s
  {
    var c := ParseColor(s).value;
    PickedColorDigits(c);
    ByteDigits(s, 1);
    ByteDigits(s, 3);
    ByteDigits(s, 5);
    assert s == s[..1] + s[1..3] + s[3..5] + s[5..7];
  }

  // ---------------------------------------------------------------------------
  // Cells and pointer positions
  // ---------------------------------------------------------------------------

  /**
   * `Math.floor(offset / zoom)`: the cell under a pointer `offset` canvas pixels
   * from the canvas's left (or top) edge, on either side of it.
   */
  function CellAt(offset: int, zoom: nat): (x: int)
    requires zoom >= 1
    ensures x * zoom <= offset < x * zoom + zoom
  {
    offset / zoom
  }

  predicate InBounds(x: int, y: int, w: nat, h: nat) {
    0 <= x < w && 0 <= y < h
  }

  lemma CellIndexBound(x: nat, y: nat, w: nat, h: nat)
    requires x < w && y < h
    ensures y * w + x < w * h
  {
    assert y * w + x < (y + 1) * w;
    assert (y + 1) * w <= h * w;
  }

  /** The array index of cell (x, y). */
  function CellIndex(x: int, y: int, w: nat, h: nat): (k: nat)
    requires InBounds(x, y, w, h)
    ensures k < w * h
  {
    CellIndexBound(x, y, w, h);
    y * w + x
  }

  function Blank(n: nat): (cells: seq<Rgb>)
    ensures |cells| == n && forall k | 0 <= k < n :: cells[k] == Black
  {
    seq(n, _ => Black)
  }

  // ---------------------------------------------------------------------------
  // The editor's state and its event handlers, as values
  // ---------------------------------------------------------------------------

  /**
   * `cells` is the raster (row-major); `hasContext` records whether the 2D
   * context has been obtained yet; `reports` lists every snapshot handed to
   * `onFrameUpdate`, oldest first.
   */
  datatype Editor = Editor(
    cells: seq<Rgb>,
    hasContext: bool,
    tool: Tool,
    color: string,
    zoom: nat,
    isDrawing: bool,
    showGrid: bool,
    reports: seq<seq<Rgb>>)

  /** What every reachable editor satisfies. */
  predicate Wf(ed: Editor, w: nat, h: nat) {
    && |ed.cells| == w * h
    && 1 <= ed.zoom
    && IsHexColor(ed.color)
    && forall k | 0 <= k < |ed.reports| :: |ed.reports[k]| == w * h
  }

  /** The state after the first render: no context yet, the pencil, zoom 8, grid on. */
  function Initial(w: nat, h: nat): (ed: Editor)
    ensures Wf(ed, w, h)
  {
    Editor(Blank(w * h), false, Pencil, InitialColor, 8, false, true, [])
  }

  /** Whether the mount effect's `fillRect(0, 0, width, height)` covers cell `k`. */
  predicate Covered(k: nat, w: nat, h: nat, zoom: nat)
    requires w > 0
  {
    (k % w) * zoom < w && (k / w) * zoom < h
  }

  /**
   * The mount effect: the context is obtained and a `width` x `height` rectangle
   * of canvas pixels (not cells) is painted black from the corner.
   */
  function Mounted(ed: Editor, w: nat, h: nat): Editor
    requires |ed.cells| == w * h
  {
    var cells := seq(|ed.cells|, k requires 0 <= k < |ed.cells| =>
      if Covered(k, w, h, ed.zoom) then Black else ed.cells[k]);
    ed.(hasContext := true, cells := cells)
  }

  /** `drawPixel(x, y, c)`: one cell painted and a snapshot reported, when in range. */
  function Painted(ed: Editor, w: nat, h: nat, x: int, y: int, c: string): Editor
    requires |ed.cells| == w * h && IsHexColor(c)
  {
    if ed.hasContext && InBounds(x, y, w, h) then
      var cells := ed.cells[CellIndex(x, y, w, h) := ParseColor(c).value];
      ed.(cells := cells, reports := ed.reports + [cells])
    else ed
  }

  /** `getImageData(x * zoom, y * zoom, 1, 1)`: outside the bitmap it is transparent black. */
  function ReadPixel(ed: Editor, w: nat, h: nat, x: int, y: int): Rgb
    requires |ed.cells| == w * h
  {
    if InBounds(x, y, w, h) then ed.cells[CellIndex(x, y, w, h)] else Black
  }

  /**
   * `handleMouseDown`: the button is held from now on, and the tool acts on the
   * cell under the pointer. The eyedropper needs the context: without it the
   * handler throws after marking the button held, and the colour stays.
   */
  function Pressed(ed: Editor, w: nat, h: nat, dx: int, dy: int): Editor
    requires Wf(ed, w, h)
  {
    var x, y := CellAt(dx, ed.zoom), CellAt(dy, ed.zoom);
    var down := ed.(isDrawing := true);
    match ed.tool
    case Pencil => Painted(down, w, h, x, y, ed.color)
    case Eraser => Painted(down, w, h, x, y, EraserColor)
    case Picker => if ed.hasContext then down.(color := PickedColor(ReadPixel(ed, w, h, x, y))) else down
    case Fill => down
  }

  /** `handleMouseMove`: only while the button is held, and only the pencil and eraser. */
  function Moved(ed: Editor, w: nat, h: nat, dx: int, dy: int): Editor
    requires Wf(ed, w, h)
  {
    if !ed.isDrawing then ed
    else
      var x, y := CellAt(dx, ed.zoom), CellAt(dy, ed.zoom);
      match ed.tool
      case Pencil => Painted(ed, w, h, x, y, ed.color)
      case Eraser => Painted(ed, w, h, x, y, EraserColor)
      case _ => ed
  }

  /** `handleMouseUp`, also bound to the mouse leaving the canvas. */
  function Released(ed: Editor): Editor {
    ed.(isDrawing := false)
  }

  /** `clearCanvas`: the whole raster black, nothing reported to the parent. */
  function Cleared(ed: Editor): Editor {
    if ed.hasContext then ed.(cells := Blank(|ed.cells|)) else ed
  }

  /**
   * The zoom slider. A new zoom changes the canvas's `width` and `height`
   * attributes, and resizing a canvas resets its bitmap to transparent black.
   */
  function Zoomed(ed: Editor, z: nat): Editor {
    if z == ed.zoom then ed else ed.(zoom := z, cells := Blank(|ed.cells|))
  }

  // ---------------------------------------------------------------------------
  // Sessions: any sequence of user inputs
  // ---------------------------------------------------------------------------

  datatype Input =
    | MouseDown(dx: int, dy: int)
    | MouseMove(dx: int, dy: int)
    | MouseUp
    | MouseLeave
    | ClearClick
    | ZoomSlider(z: int)
    | ToolButton(t: Tool)
    | ColorChoice(c: string)
    | GridButton

  /** The controls' ranges: the slider gives 1..16, the input and palette `#rrggbb`. */
  predicate Allowed(i: Input) {
    match i
    case ZoomSlider(z) => 1 <= z <= 16
    case ColorChoice(c) => IsHexColor(c)
    case _ => true
  }

  function Step(ed: Editor, w: nat, h: nat, i: Input): Editor
    requires Wf(ed, w, h) && Allowed(i)
  {
    match i
    case MouseDown(dx, dy) => Pressed(ed, w, h, dx, dy)
    case MouseMove(dx, dy) => Moved(ed, w, h, dx, dy)
    case MouseUp => Released(ed)
    case MouseLeave => Released(ed)
    case ClearClick => Cleared(ed)
    case ZoomSlider(z) => Zoomed(ed, z)
    case ToolButton(t) => ed.(tool := t)
    case ColorChoice(c) => ed.(color := c)
    case GridButton => ed.(showGrid := !ed.showGrid)
  }

  /** Every handler keeps the editor well formed. */
  lemma StepKeepsWf(ed: Editor, w: nat, h: nat, i: Input)
    requires Wf(ed, w, h) && Allowed(i)
    ensures Wf(Step(ed, w, h, i), w, h)
  {
    if i.MouseDown? && ed.tool == Picker && ed.hasContext {
      PickedColorDigits(ReadPixel(ed, w, h, CellAt(i.dx, ed.zoom), CellAt(i.dy, ed.zoom)));
    }
  }

  function Run(ed: Editor, w: nat, h: nat, inputs: seq<Input>): Editor
    requires Wf(ed, w, h) && forall k | 0 <= k < |inputs| :: Allowed(inputs[k])
    decreases |inputs|
  {
    if inputs == [] then ed
    else
      StepKeepsWf(ed, w, h, inputs[0]);
      Run(Step(ed, w, h, inputs[0]), w, h, inputs[1..])
  }

  /**
   * Over a whole session the raster keeps its size, the colour stays a valid
   * `#rrggbb`, and every snapshot handed to the parent is a full raster.
   */
  lemma {:induction false} RunKeepsWf(ed: Editor, w: nat, h: nat, inputs: seq<Input>)
    requires Wf(ed, w, h) && forall k | 0 <= k < |inputs| :: Allowed(inputs[k])
    ensures Wf(Run(ed, w, h, inputs), w, h)
    decreases |inputs|
  {
    if inputs != [] {
      StepKeepsWf(ed, w, h, inputs[0]);
      RunKeepsWf(Step(ed, w, h, inputs[0]), w, h, inputs[1..]);
    }
  }

  // ---------------------------------------------------------------------------
  // Properties of the handlers
  // ---------------------------------------------------------------------------

  /** The mount effect leaves the freshly rendered raster black, with the context in hand. */
  lemma MountedInitialIsBlack(w: nat, h: nat)
    ensures var ed := Mounted(Initial(w, h), w, h);
      ed.hasContext && ed.cells == Blank(w * h) && ed.reports == []
  {
  }

  /**
   * A paint in range changes exactly the cell under it, to the colour given, and
   * reports the new raster; out of range or before the context exists it changes nothing.
   */
  lemma PaintedChangesOneCell(ed: Editor, w: nat, h: nat, x: int, y: int, c: string)
    requires |ed.cells| == w * h && IsHexColor(c)
    ensures var r := Painted(ed, w, h, x, y, c);
      if ed.hasContext && InBounds(x, y, w, h) then
        && |r.cells| == w * h
        && r.cells[y * w + x] == ParseColor(c).value
        && (forall k | 0 <= k < w * h && k != y * w + x :: r.cells[k] == ed.cells[k])
        && r.reports == ed.reports + [r.cells]
        && r.(cells := ed.cells, reports := ed.reports) == ed
      else r == ed
  {
  }

  /**
   * Every tool marks the button held. The pencil paints the current colour, the
   * eraser paints black, the fill tool does nothing else, and the eyedropper leaves
   * the raster alone and takes a lower-case `#rrggbb` that paints the cell it read.
   */
  lemma PressedByTool(ed: Editor, w: nat, h: nat, dx: int, dy: int)
    requires Wf(ed, w, h)
    ensures var r := Pressed(ed, w, h, dx, dy);
      var x, y := CellAt(dx, ed.zoom), CellAt(dy, ed.zoom);
      var down := ed.(isDrawing := true);
      && r.isDrawing
      && (ed.tool == Pencil ==> r == Painted(down, w, h, x, y, ed.color))
      && (ed.tool == Eraser ==> r == Painted(down, w, h, x, y, EraserColor)
                                && ParseColor(EraserColor) == Some(Black))
      && (ed.tool == Fill ==> r == down)
      && (ed.tool == Picker ==> r.cells == ed.cells && r.reports == ed.reports)
      && (ed.tool == Picker && ed.hasContext ==>
            IsLowerHexColor(r.color) && ParseColor(r.color) == Some(ReadPixel(ed, w, h, x, y)))
      && (ed.tool == Picker && !ed.hasContext ==> r.color == ed.color)
  {
    EraserPaintsBlack();
    if ed.tool == Picker && ed.hasContext {
      var p := ReadPixel(ed, w, h, CellAt(dx, ed.zoom), CellAt(dy, ed.zoom));
      PickedColorDigits(p);
      PickedColorParses(p);
    }
  }

  /** A pencil press followed by an eyedropper press on the same spot gives the pencil's colour back. */
  lemma PencilThenPicker(ed: Editor, w: nat, h: nat, dx: int, dy: int)
    requires Wf(ed, w, h) && ed.tool == Pencil && ed.hasContext
    requires InBounds(CellAt(dx, ed.zoom), CellAt(dy, ed.zoom), w, h)
    requires IsLowerHexColor(ed.color)
    ensures var drawn := Released(Pressed(ed, w, h, dx, dy));
      Pressed(drawn.(tool := Picker), w, h, dx, dy).color == ed.color
  {
    PickedColorOfParsed(ed.color);
  }

  lemma EraserPaintsBlack()
    ensures ParseColor(EraserColor) == Some(Black)
  {
  }

  lemma PickedBlack()
    ensures PickedColor(Black) == EraserColor
  {
    PickedColorOfParsed(EraserColor);
    EraserPaintsBlack();
  }

  /** After the eraser, the eyedropper reads black there. */
  lemma EraserThenPicker(ed: Editor, w: nat, h: nat, dx: int, dy: int)
    requires Wf(ed, w, h) && ed.tool == Eraser && ed.hasContext
    ensures var erased := Released(Pressed(ed, w, h, dx, dy));
      Pressed(erased.(tool := Picker), w, h, dx, dy).color == EraserColor
  {
    var x, y := CellAt(dx, ed.zoom), CellAt(dy, ed.zoom);
    var erased := Released(Pressed(ed, w, h, dx, dy));
    EraserPaintsBlack();
    assert ReadPixel(erased, w, h, x, y) == Black;
    PickedBlack();
  }

  /** With the button up, any number of mouse moves changes nothing. */
  lemma {:induction false} MovesWithoutPress(ed: Editor, w: nat, h: nat, moves: seq<Input>)
    requires Wf(ed, w, h) && !ed.isDrawing
    requires forall k | 0 <= k < |moves| :: moves[k].MouseMove?
    ensures Run(ed, w, h, moves) == ed
  {
    if moves != [] {
      MovesWithoutPress(ed, w, h, moves[1..]);
    }
  }

  /**
   * Clearing blackens the raster but reports nothing, so a parent that stored
   * the last snapshot keeps showing the drawing that was cleared.
   */
  lemma ClearedIsBlackAndUnreported(ed: Editor, w: nat, h: nat, x: int, y: int)
    requires Wf(ed, w, h) && ed.hasContext
    ensures var r := Cleared(ed);
      r.reports == ed.reports && ReadPixel(r, w, h, x, y) == Black
      && r.(cells := ed.cells) == ed
  {
  }

  /** Changing the zoom wipes the drawing, and reports nothing either. */
  lemma ZoomChangeErases(ed: Editor, z: nat)
    requires z != ed.zoom
    ensures var r := Zoomed(ed, z);
      r.zoom == z && (forall k | 0 <= k < |r.cells| :: r.cells[k] == Black)
      && |r.cells| == |ed.cells| && r.reports == ed.reports
  {
  }

  // ---------------------------------------------------------------------------
  // The component, updating its raster in place
  // ---------------------------------------------------------------------------

  class Canvas {
    const width: nat
    const height: nat
    const cells: array<Rgb>
    var hasContext: bool
    var tool: Tool
    var color: string
    var zoom: nat
    var isDrawing: bool
    var showGrid: bool
    var reports: seq<seq<Rgb>>

    function Model(): Editor
      reads this, cells
    {
      Editor(cells[..], hasContext, tool, color, zoom, isDrawing, showGrid, reports)
    }

    predicate Valid()
      reads this, cells
    {
      Wf(Model(), width, height)
    }

    /** The first render, with the `width` and `height` props. */
    constructor(w: nat, h: nat)
      ensures Valid() && width == w && height == h
      ensures Model() == Initial(w, h)
    {
      width, height := w, h;
      cells := new Rgb[w * h](_ => Black);
      hasContext, tool, color, zoom := false, Pencil, InitialColor, 8;
      isDrawing, showGrid, reports := false, true, [];
    }

    /** The mount effect (lines after the first render). */
    method AttachContext()
      requires Valid()
      modifies this, cells
      ensures Valid() && Model() == Mounted(old(Model()), width, height)
    {
      forall k | 0 <= k < cells.Length && Covered(k, width, height, zoom) {
        cells[k] := Black;
      }
      hasContext := true;
    }

    method DrawPixel(x: int, y: int, c: string)
      requires Valid() && IsHexColor(c)
      modifies this, cells
      ensures Valid() && Model() == Painted(old(Model()), width, height, x, y, c)
    {
      if !hasContext || !InBounds(x, y, width, height) {
        return;
      }
      cells[CellIndex(x, y, width, height)] := ParseColor(c).value;
      reports := reports + [cells[..]];
    }

    method HandleMouseDown(dx: int, dy: int)
      requires Valid()
      modifies this, cells
      ensures Valid() && Model() == Pressed(old(Model()), width, height, dx, dy)
    {
      isDrawing := true;
      var x, y := CellAt(dx, zoom), CellAt(dy, zoom);
      match tool
      case Pencil =>
        DrawPixel(x, y, color);
      case Eraser =>
        DrawPixel(x, y, EraserColor);
      case Picker =>
        if hasContext {
          var pixel := if InBounds(x, y, width, height) then cells[CellIndex(x, y, width, height)] else Black;
          PickedColorDigits(pixel);
          color := PickedColor(pixel);
        }
      case Fill =>
    }

    method HandleMouseMove(dx: int, dy: int)
      requires Valid()
      modifies this, cells
      ensures Valid() && Model() == Moved(old(Model()), width, height, dx, dy)
    {
      if !isDrawing {
        return;
      }
      var x, y := CellAt(dx, zoom), CellAt(dy, zoom);
      match tool
      case Pencil =>
        DrawPixel(x, y, color);
      case Eraser =>
        DrawPixel(x, y, EraserColor);
      case _ =>
    }

    method HandleMouseUp()
      requires Valid()
      modifies this
      ensures Valid() && Model() == Released(old(Model()))
    {
      isDrawing := false;
    }

    method ClearCanvas()
      requires Valid()
      modifies this, cells
      ensures Valid() && Model() == Cleared(old(Model()))
    {
      if !hasContext {
        return;
      }
      forall k | 0 <= k < cells.Length {
        cells[k] := Black;
      }
    }

    method SetZoom(z: nat)
      requires Valid() && 1 <= z <= 16
      modifies this, cells
      ensures Valid() && Model() == Zoomed(old(Model()), z)
    {
      if z == zoom {
        return;
      }
      zoom := z;
      forall k | 0 <= k < cells.Length {
        cells[k] := Black;
      }
    }

    method SetTool(t: Tool)
      requires Valid()
      modifies this
      ensures Valid() && Model() == old(Model()).(tool := t)
    {
      tool := t;
    }

    method SetColor(c: string)
      requires Valid() && IsHexColor(c)
      modifies this
      ensures Valid() && Model() == old(Model()).(color := c)
    {
      color := c;
    }

    method ToggleGrid()
      requires Valid()
      modifies this
      ensures Valid() && Model() == old(Model()).(showGrid := !old(showGrid))
    {
      showGrid := !showGrid;
    }
  }
}
