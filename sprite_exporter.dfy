/**
 * The export panel (`SpriteExporter`): the format table, the sprite-sheet
 * preview's columns and rows for each layout, and when the export button is
 * enabled. The panel's state holds only the user's selections.
 */
module SpriteExporter {
  import opened Wrappers

  datatype Format = Spritesheet | Frames | Gif | Video
  datatype Layout = Horizontal | Vertical | Grid

  datatype FormatEntry = FormatEntry(id: Format, name: string, ext: string)

  /** The `formats` table, in the order the buttons show it. */
  const Formats: seq<FormatEntry> := [
    FormatEntry(Spritesheet, "Sprite Sheet (PNG)", ".png"),
    FormatEntry(Frames, "Individual Frames (ZIP)", ".zip"),
    FormatEntry(Gif, "Animated GIF", ".gif"),
    FormatEntry(Video, "MP4 Video", ".mp4")
  ]

  /** `table.find(f => f.id === format)?.ext`. */
  function FindExt(table: seq<FormatEntry>, format: Format): (r: Option<string>)
    ensures r.Some? <==> exists k | 0 <= k < |table| :: table[k].id == format
    ensures r.Some? ==> exists k | 0 <= k < |table| :: table[k].id == format && table[k].ext == r.value
  {
    if table == [] then None
    else if table[0].id == format then Some(table[0].ext)
    else
      var r := FindExt(table[1..], format);
      assert forall k | 1 <= k < |table| :: table[k] == table[1..][k - 1];
      r
  }

  /** The label of the export button: the first entry of the table for the format. */
  function ExportExtension(format: Format): Option<string> {
    FindExt(Formats, format)
  }

  /** Every format is in the table, each with its own extension. */
  lemma ExtensionTable()
    ensures ExportExtension(Spritesheet) == Some(".png")
    ensures ExportExtension(Frames) == Some(".zip")
    ensures ExportExtension(Gif) == Some(".gif")
    ensures ExportExtension(Video) == Some(".mp4")
  {
    var t := Formats;
    assert t[1..][1..] == t[2..] && t[2..][1..] == t[3..];
    assert FindExt(t[3..], Video) == Some(".mp4");
    assert FindExt(t[2..], Video) == Some(".mp4") && FindExt(t[2..], Gif) == Some(".gif");
  }

  // ---------------------------------------------------------------------------
  // Preview layout
  // ---------------------------------------------------------------------------

  function CeilSqrtFrom(n: nat, c: nat): (r: nat)
    requires (c == 0 || (c - 1) * (c - 1) < n)
    ensures r * r >= n && (r == 0 || (r - 1) * (r - 1) < n) && r >= c
    decreases n - c
  {
    if c * c >= n then c
    else
      assert c < n;
      CeilSqrtFrom(n, c + 1)
  }

  /** `Math.ceil(Math.sqrt(n))`: the least `c` with `c * c >= n`. */
  function CeilSqrt(n: nat): (c: nat)
    ensures c * c >= n && (c == 0 || (c - 1) * (c - 1) < n)
  {
    CeilSqrtFrom(n, 0)
  }

  /** `Math.ceil(n / cols)`: the least `r` with `r * cols >= n`. */
  function CeilDiv(n: nat, cols: nat): (r: nat)
    requires cols >= 1
    ensures r * cols >= n && (r == 0 || (r - 1) * cols < n)
  {
    var r := (n + cols - 1) / cols;
    assert r * cols <= n + cols - 1 < r * cols + cols;
    r
  }

  /** The preview grid's `(cols, rows)` for `n` frames. */
  function Dimensions(layout: Layout, n: nat): (nat, nat)
    requires n >= 1
  {
    match layout
    case Horizontal => (n, 1)
    case Vertical => (1, n)
    case Grid =>
      var cols := CeilSqrt(n);
      (cols, CeilDiv(n, cols))
  }

  /** `generatePreview`, shown only for a sprite sheet with at least one frame. */
  function Preview(format: Format, layout: Layout, n: nat): Option<(nat, nat)> {
    if format == Spritesheet && n > 0 then Some(Dimensions(layout, n)) else None
  }

  /**
   * The preview appears exactly for sprite sheets with frames. Its grid holds
   * every frame and has no row left empty; the horizontal layout is one row,
   * the vertical one column, and the grid is square or one row short of it.
   */
  lemma PreviewLayout(format: Format, layout: Layout, n: nat)
    ensures Preview(format, layout, n).Some? <==> format == Spritesheet && n > 0
    ensures Preview(format, layout, n).Some? ==>
      var (cols, rows) := Preview(format, layout, n).value;
      && cols >= 1 && rows >= 1
      && cols * rows >= n
      && (rows - 1) * cols < n
      && (layout == Horizontal ==> cols == n && rows == 1)
      && (layout == Vertical ==> cols == 1 && rows == n)
      && (layout == Grid ==> cols * cols >= n && (cols - 1) * (cols - 1) < n && cols - 1 <= rows <= cols)
  {
    if format == Spritesheet && n > 0 && layout == Grid {
      var cols := CeilSqrt(n);
      var rows := CeilDiv(n, cols);
      GridNearSquare(n, cols, rows);
    }
  }

  lemma MulMono(a: int, b: int, k: nat)
    requires a <= b
    ensures a * k <= b * k
  {
    assert b * k - a * k == (b - a) * k;
  }

  lemma GridNearSquare(n: nat, cols: nat, rows: nat)
    requires n >= 1 && cols >= 1
    requires cols * cols >= n && (cols - 1) * (cols - 1) < n
    requires rows * cols >= n && (rows == 0 || (rows - 1) * cols < n)
    ensures rows >= 1 && cols - 1 <= rows <= cols
  {
    if rows > cols {
      MulMono(cols, rows - 1, cols);
      assert false;
    }
    if rows + 2 <= cols {
      MulMono(rows, cols - 2, cols);
      assert false;
    }
  }

  /** The export button: disabled while an export runs or when there is nothing to export. */
  function ExportEnabled(exporting: bool, n: nat): (enabled: bool)
    ensures enabled <==> !exporting && n > 0
  {
    !(exporting || n == 0)
  }

  /**
   * For a sprite sheet the export button and the preview agree: the button is
   * enabled exactly when no export is running and a preview is shown, and that
   * preview's grid then has room for every frame that would be exported.
   */
  lemma ExportMatchesPreview(exporting: bool, layout: Layout, n: nat)
    ensures ExportEnabled(exporting, n) <==> !exporting && Preview(Spritesheet, layout, n).Some?
    ensures ExportEnabled(exporting, n) ==>
      var (cols, rows) := Preview(Spritesheet, layout, n).value;
      cols * rows >= n >= 1
  {
    PreviewLayout(Spritesheet, layout, n);
  }
}
