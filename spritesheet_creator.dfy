/**
 * The back end's sprite-sheet builder (`SpritesheetCreator`). `create_spritesheet`
 * lays frames out row by row, `cols` to a row, with `padding` pixels between
 * neighbours, into a zero-filled `height x width x channels` buffer; frame `idx`
 * goes to row `idx // cols`, column `idx % cols`. `generate_animation_frames`
 * draws a fixed number of frames for each known action.
 *
 * Images are numpy arrays indexed `[y][x][channel]`; the sheet is an `array3`.
 */
module SpritesheetCreator {

  type Byte = x: int | 0 <= x < 256

  /** A frame: `px[y][x][c]`, a `height x width x channels` array of bytes. */
  datatype Image = Image(height: nat, width: nat, channels: nat, px: seq<seq<seq<Byte>>>)

  /** What every numpy array satisfies: each axis has the length its shape says. */
  predicate WellShaped(im: Image) {
    && |im.px| == im.height
    && (forall y | 0 <= y < im.height :: |im.px[y]| == im.width)
    && (forall y, x | 0 <= y < im.height && 0 <= x < im.width :: |im.px[y][x]| == im.channels)
  }

  // ---------------------------------------------------------------------------
  // Layout arithmetic
  // ---------------------------------------------------------------------------

  /** `(n + cols - 1) // cols`: the least number of rows of `cols` that holds `n` frames. */
  function Rows(n: nat, cols: nat): (rows: nat)
    requires cols >= 1
    ensures rows * cols >= n && (rows == 0 || (rows - 1) * cols < n)
  {
    var r := (n + cols - 1) / cols;
    assert r * cols <= n + cols - 1 < r * cols + cols;
    r
  }

  /** `cols * frame_w + (cols - 1) * padding`, and the same for rows. */
  function Extent(count: nat, size: nat, padding: nat): nat
    requires count >= 1
  {
    count * size + (count - 1) * padding
  }

  /** `4 if the first frame has four channels else 3`. */
  function SheetChannels(first: Image): (c: nat)
    ensures c == 3 || c == 4
    ensures c == 4 <==> first.channels == 4
  {
    if first.channels == 4 then 4 else 3
  }

  /** The top edge of frame `idx`: `(idx // cols) * (frame_h + padding)`. */
  function Top(idx: nat, cols: nat, fh: nat, padding: nat): nat
    requires cols >= 1
  {
    (idx / cols) * (fh + padding)
  }

  /** The left edge of frame `idx`: `(idx % cols) * (frame_w + padding)`. */
  function Left(idx: nat, cols: nat, fw: nat, padding: nat): nat
    requires cols >= 1
  {
    (idx % cols) * (fw + padding)
  }

  /** Whether pixel (y, x) of the sheet lies in frame `idx`'s rectangle. */
  predicate InRegion(idx: nat, cols: nat, fh: nat, fw: nat, padding: nat, y: int, x: int)
    requires cols >= 1
  {
    && Top(idx, cols, fh, padding) <= y < Top(idx, cols, fh, padding) + fh
    && Left(idx, cols, fw, padding) <= x < Left(idx, cols, fw, padding) + fw
  }

  lemma MulMono(a: int, b: int, k: nat)
    requires a <= b
    ensures a * k <= b * k
  {
    assert b * k - a * k == (b - a) * k;
  }

  /** `count` cells of `size` with `padding` between them end at the extent. */
  lemma LastCellEnds(i: nat, count: nat, size: nat, padding: nat)
    requires i < count
    ensures i * (size + padding) + size <= Extent(count, size, padding)
  {
    MulMono(i, count - 1, size + padding);
    assert (count - 1) * (size + padding) + size == Extent(count, size, padding);
  }

  /** Every one of the `n` frames lies entirely inside the sheet. */
  lemma FrameInsideSheet(idx: nat, n: nat, cols: nat, fh: nat, fw: nat, padding: nat)
    requires cols >= 1 && idx < n
    ensures Rows(n, cols) >= 1
    ensures Top(idx, cols, fh, padding) + fh <= Extent(Rows(n, cols), fh, padding)
    ensures Left(idx, cols, fw, padding) + fw <= Extent(cols, fw, padding)
  {
    var rows := Rows(n, cols);
    var row := idx / cols;
    assert idx == row * cols + idx % cols;
    if row >= rows {
      MulMono(rows, row, cols);
      assert false;
    }
    LastCellEnds(row, rows, fh, padding);
    LastCellEnds(idx % cols, cols, fw, padding);
  }

  /** Cells `i < j` of a padded strip do not overlap: `i`'s ends before `j`'s starts. */
  lemma CellsApart(i: nat, j: nat, size: nat, padding: nat)
    requires i < j
    ensures i * (size + padding) + size <= j * (size + padding)
  {
    MulMono(i + 1, j, size + padding);
  }

  /** Two different frame indices differ in their row or in their column. */
  lemma CellIndexDiffers(a: nat, b: nat, cols: nat)
    requires cols >= 1 && a != b
    ensures a / cols != b / cols || a % cols != b % cols
  {
    assert a == (a / cols) * cols + a % cols;
    assert b == (b / cols) * cols + b % cols;
  }

  /** With non-negative padding, two different frames share no pixel. */
  lemma FramesDisjoint(a: nat, b: nat, cols: nat, fh: nat, fw: nat, padding: nat, y: int, x: int)
    requires cols >= 1 && a != b
    ensures !(InRegion(a, cols, fh, fw, padding, y, x) && InRegion(b, cols, fh, fw, padding, y, x))
  {
    CellIndexDiffers(a, b, cols);
    if a / cols < b / cols {
      CellsApart(a / cols, b / cols, fh, padding);
    } else if b / cols < a / cols {
      CellsApart(b / cols, a / cols, fh, padding);
    } else if a % cols < b % cols {
      CellsApart(a % cols, b % cols, fw, padding);
    } else {
      CellsApart(b % cols, a % cols, fw, padding);
    }
  }

  /** Whether pixel (y, x) lies in one of the first `count` frames. */
  predicate Covered(count: nat, cols: nat, fh: nat, fw: nat, padding: nat, y: int, x: int)
    requires cols >= 1
  {
    exists k | 0 <= k < count :: InRegion(k, cols, fh, fw, padding, y, x)
  }

  // ---------------------------------------------------------------------------
  // create_spritesheet
  // ---------------------------------------------------------------------------

  datatype Error =
    | ZeroDivision          // `cols == 0` in the row count
    | ShapeMismatch(idx: nat) // frame `idx` cannot be broadcast to the first frame's cell

  datatype Outcome = NoFrames | Raised(error: Error) | Built(sheet: array3<Byte>)

  /**
   * Whether `frame` can be assigned to a `fh x fw x channels` slice under numpy's
   * broadcasting: along each axis the frame has the slice's size or size 1.
   */
  predicate Fits(frame: Image, fh: nat, fw: nat, channels: nat) {
    && (frame.height == fh || frame.height == 1)
    && (frame.width == fw || frame.width == 1)
    && (frame.channels == channels || frame.channels == 1)
  }

  /** The index read along an axis of size `n` for slice index `i`: a size-1 axis is repeated. */
  function Along(i: nat, n: nat): nat {
    if n == 1 then 0 else i
  }

  /**
   * The `fh x fw` slice of `sheet` at (top, left) holds `frame`, broadcast along its
   * size-1 axes, in every channel of the sheet.
   */
  predicate Placed(sheet: array3<Byte>, frame: Image, top: int, left: int, fh: nat, fw: nat)
    reads sheet
  {
    && WellShaped(frame) && Fits(frame, fh, fw, sheet.Length2)
    && 0 <= top && top + fh <= sheet.Length0
    && 0 <= left && left + fw <= sheet.Length1
    && forall dy, dx, c | 0 <= dy < fh && 0 <= dx < fw && 0 <= c < sheet.Length2 ::
         sheet[top + dy, left + dx, c] ==
           frame.px[Along(dy, frame.height)][Along(dx, frame.width)][Along(c, frame.channels)]
  }

  /**
   * The sheet takes its channel count from the first frame, so the first frame is
   * itself assignable exactly when it has 1, 3 or 4 channels: a grayscale first
   * frame is repeated into three channels, a 2- or 5-channel one raises.
   */
  lemma FirstFrameFits(first: Image)
    ensures Fits(first, first.height, first.width, SheetChannels(first)) <==>
      first.channels == 1 || first.channels == 3 || first.channels == 4
    ensures first.channels == 1 ==> SheetChannels(first) == 3
  {
  }

  /** Every pixel outside the first `count` frames' rectangles is still zero. */
  predicate ZeroOutside(sheet: array3<Byte>, count: nat, cols: nat, fh: nat, fw: nat, padding: nat)
    requires cols >= 1
    reads sheet
  {
    forall y, x, c | 0 <= y < sheet.Length0 && 0 <= x < sheet.Length1 && 0 <= c < sheet.Length2
      && !Covered(count, cols, fh, fw, padding, y, x) :: sheet[y, x, c] == 0
  }

  /**
   * `create_spritesheet(frames, cols, padding)`. The sheet is as tall as `Rows`
   * rows and as wide as `cols` columns of the first frame's size, with the first
   * frame's channel count (4, or else 3); frame `k` is broadcast into its cell, the
   * padding and the unused cells stay zero. Assigning a frame that cannot be
   * broadcast to the cell raises; so does `cols == 0`.
   */
  method CreateSpritesheet(frames: seq<Image>, cols: nat, padding: nat) returns (r: Outcome)
    requires forall k | 0 <= k < |frames| :: WellShaped(frames[k])
    ensures r.NoFrames? <==> frames == []
    ensures r == Raised(ZeroDivision) <==> frames != [] && cols == 0
    ensures r.Raised? && r.error.ShapeMismatch? ==>
      var fh, fw, ch := frames[0].height, frames[0].width, SheetChannels(frames[0]);
      && r.error.idx < |frames| && !Fits(frames[r.error.idx], fh, fw, ch)
      && forall k | 0 <= k < r.error.idx :: Fits(frames[k], fh, fw, ch)
    ensures r.Built? ==>
      var fh, fw, ch := frames[0].height, frames[0].width, SheetChannels(frames[0]);
      && frames != [] && cols >= 1 && fresh(r.sheet)
      && r.sheet.Length0 == Extent(Rows(|frames|, cols), fh, padding)
      && r.sheet.Length1 == Extent(cols, fw, padding)
      && r.sheet.Length2 == ch
      && (forall k | 0 <= k < |frames| :: Fits(frames[k], fh, fw, ch))
      && (forall k | 0 <= k < |frames| ::
            Placed(r.sheet, frames[k], Top(k, cols, fh, padding), Left(k, cols, fw, padding), fh, fw))
      && ZeroOutside(r.sheet, |frames|, cols, fh, fw, padding)
  {
    if frames == [] {
      return NoFrames;
    }
    if cols == 0 {
      return Raised(ZeroDivision);
    }
    var fh, fw := frames[0].height, frames[0].width;
    var rows := Rows(|frames|, cols);
    FrameInsideSheet(0, |frames|, cols, fh, fw, padding);
    var sheetH, sheetW := Extent(rows, fh, padding), Extent(cols, fw, padding);
    var ch := SheetChannels(frames[0]);
    var sheet := new Byte[sheetH, sheetW, ch]((y, x, c) => 0);
    for idx := 0 to |frames|
      invariant forall k | 0 <= k < idx :: Fits(frames[k], fh, fw, ch)
      invariant forall k | 0 <= k < idx ::
        Placed(sheet, frames[k], Top(k, cols, fh, padding), Left(k, cols, fw, padding), fh, fw)
      invariant ZeroOutside(sheet, idx, cols, fh, fw, padding)
    {
      var frame := frames[idx];
      if !Fits(frame, fh, fw, ch) {
        return Raised(ShapeMismatch(idx));
      }
      PlaceNext(sheet, frames, idx, cols, padding, fh, fw);
    }
    return Built(sheet);
  }

  /**
   * One turn of the loop: frame `idx` goes to its cell, the frames before it stay
   * where they are, and what no frame up to `idx` covers stays zero.
   */
  method PlaceNext(sheet: array3<Byte>, frames: seq<Image>, idx: nat, cols: nat, padding: nat, fh: nat, fw: nat)
    requires cols >= 1 && idx < |frames|
    requires WellShaped(frames[idx]) && Fits(frames[idx], fh, fw, sheet.Length2)
    requires sheet.Length0 == Extent(Rows(|frames|, cols), fh, padding)
    requires sheet.Length1 == Extent(cols, fw, padding)
    requires forall k | 0 <= k < idx :: Placed(sheet, frames[k], Top(k, cols, fh, padding), Left(k, cols, fw, padding), fh, fw)
    requires ZeroOutside(sheet, idx, cols, fh, fw, padding)
    modifies sheet
    ensures forall k | 0 <= k <= idx :: Placed(sheet, frames[k], Top(k, cols, fh, padding), Left(k, cols, fw, padding), fh, fw)
    ensures ZeroOutside(sheet, idx + 1, cols, fh, fw, padding)
  {
    FrameInsideSheet(idx, |frames|, cols, fh, fw, padding);
    PlaceFrame(sheet, frames[idx], Top(idx, cols, fh, padding), Left(idx, cols, fw, padding), fh, fw);
    forall k | 0 <= k < idx
      ensures Placed(sheet, frames[k], Top(k, cols, fh, padding), Left(k, cols, fw, padding), fh, fw)
    {
      var kt, kl := Top(k, cols, fh, padding), Left(k, cols, fw, padding);
      assert old(Placed(sheet, frames[k], kt, kl, fh, fw));
      forall y, x, c | kt <= y < kt + fh && kl <= x < kl + fw && 0 <= c < sheet.Length2
        ensures sheet[y, x, c] == old(sheet[y, x, c])
      {
        FramesDisjoint(k, idx, cols, fh, fw, padding, y, x);
      }
    }
    forall y, x, c | 0 <= y < sheet.Length0 && 0 <= x < sheet.Length1 && 0 <= c < sheet.Length2
      && !Covered(idx + 1, cols, fh, fw, padding, y, x)
      ensures sheet[y, x, c] == 0
    {
      assert !InRegion(idx, cols, fh, fw, padding, y, x);
      assert !Covered(idx, cols, fh, fw, padding, y, x);
    }
  }

  /**
   * `spritesheet[top:top+h, left:left+w] = frame`: that `h x w` rectangle receives
   * the frame broadcast to its shape, and nothing else changes.
   */
  method PlaceFrame(sheet: array3<Byte>, frame: Image, top: nat, left: nat, h: nat, w: nat)
    requires WellShaped(frame) && Fits(frame, h, w, sheet.Length2)
    requires top + h <= sheet.Length0 && left + w <= sheet.Length1
    modifies sheet
    ensures Placed(sheet, frame, top, left, h, w)
    ensures forall y, x, c | 0 <= y < sheet.Length0 && 0 <= x < sheet.Length1 && 0 <= c < sheet.Length2
      && !(top <= y < top + h && left <= x < left + w) :: sheet[y, x, c] == old(sheet[y, x, c])
  {
    forall y, x, c | top <= y < top + h && left <= x < left + w && 0 <= c < sheet.Length2 {
      sheet[y, x, c] := frame.px[Along(y - top, frame.height)][Along(x - left, frame.width)][Along(c, frame.channels)];
    }
    assert forall dy, dx, c | 0 <= dy < h && 0 <= dx < w && 0 <= c < sheet.Length2 ::
      sheet[top + dy, left + dx, c] ==
        frame.px[Along(dy, frame.height)][Along(dx, frame.width)][Along(c, frame.channels)];
  }

  // ---------------------------------------------------------------------------
  // generate_animation_frames
  // ---------------------------------------------------------------------------

  /** Frames drawn for each action; any other action, `"run"` included, gets none. */
  function FrameCount(action: string): nat {
    if action == "walk" then 8
    else if action == "idle" then 4
    else if action == "jump" then 6
    else if action == "attack" then 5
    else 0
  }

  lemma FrameCounts()
    ensures FrameCount("walk") == 8 && FrameCount("idle") == 4
    ensures FrameCount("jump") == 6 && FrameCount("attack") == 5
    ensures FrameCount("run") == 0
  {
  }

  /** A transparent `h x w x 4` frame: `np.zeros((h, w, 4))`. */
  function Blank(w: nat, h: nat): (im: Image)
    ensures WellShaped(im) && im.height == h && im.width == w && im.channels == 4
  {
    Image(h, w, 4, seq(h, _ => seq(w, _ => [0, 0, 0, 0])))
  }

  /**
   * `generate_animation_frames(action, (w, h))`: step `i` of the action drawn on a
   * blank frame, for each step. The stick-figure drawing is `draw`.
   */
  method GenerateAnimationFrames(action: string, w: nat, h: nat, draw: (Image, nat, string) -> Image)
    returns (frames: seq<Image>)
    ensures |frames| == FrameCount(action)
    ensures forall i | 0 <= i < |frames| :: frames[i] == draw(Blank(w, h), i, action)
  {
    frames := [];
    var steps := FrameCount(action);
    for i := 0 to steps
      invariant |frames| == i
      invariant forall k | 0 <= k < i :: frames[k] == draw(Blank(w, h), k, action)
    {
      frames := frames + [draw(Blank(w, h), i, action)];
    }
  }
}
