/**
 * The animation timeline (`SpriteTimeline`): a strip of frames, each with an
 * id, a duration in milliseconds and optional image data, plus playback
 * controls. The list operations (add, duplicate, delete, set duration) compute
 * a new list, store it as the component's own `localFrames` and hand it to the
 * parent; the cursor (`currentFrame`) belongs to the parent and is moved
 * through a callback, so the operations below return the cursor they request.
 */
module SpriteTimeline {
  import opened Wrappers

  /** A frame; `data` is the image as a data URL, `None` for a frame never drawn on. */
  datatype Frame = Frame(id: int, duration: int, data: Option<string>)

  const DefaultDuration: int := 100

  /** The frame both the timeline and its parent start from. */
  const FirstFrame: Frame := Frame(1, DefaultDuration, None)

  // ---------------------------------------------------------------------------
  // Total duration
  // ---------------------------------------------------------------------------

  /** `frames.reduce((sum, f) => sum + f.duration, 0)`, folding from the left. */
  function TotalDuration(frames: seq<Frame>): int {
    if frames == [] then 0
    else TotalDuration(frames[..|frames| - 1]) + frames[|frames| - 1].duration
  }

  lemma {:induction false} TotalDurationAppend(a: seq<Frame>, b: seq<Frame>)
    ensures TotalDuration(a + b) == TotalDuration(a) + TotalDuration(b)
    decreases |b|
  {
    if b != [] {
      var last := |b| - 1;
      var ab := a + b;
      assert ab[..|ab| - 1] == a + b[..last];
      assert ab[|ab| - 1] == b[last];
      assert TotalDuration(ab) == TotalDuration(a + b[..last]) + b[last].duration;
      TotalDurationAppend(a, b[..last]);
    } else {
      assert a + b == a;
    }
  }

  lemma TotalDurationSingle(f: Frame)
    ensures TotalDuration([f]) == f.duration
  {
    assert [f][..0] == [];
  }

  /** The total over a list split around index `i`. */
  lemma TotalDurationAround(s: seq<Frame>, i: nat)
    requires i < |s|
    ensures TotalDuration(s) == TotalDuration(s[..i]) + s[i].duration + TotalDuration(s[i + 1..])
  {
    assert s == s[..i] + [s[i]] + s[i + 1..];
    TotalDurationAppend(s[..i] + [s[i]], s[i + 1..]);
    TotalDurationAppend(s[..i], [s[i]]);
    TotalDurationSingle(s[i]);
  }

  // ---------------------------------------------------------------------------
  // The list operations
  // ---------------------------------------------------------------------------

  /** `addFrame`: a new blank frame with id `now` (the clock) at the end. */
  function Added(frames: seq<Frame>, now: int): seq<Frame> {
    frames + [Frame(now, DefaultDuration, None)]
  }

  /** `duplicateFrame(index)`: a copy of frame `index`, with id `now`, right after it. */
  function Duplicated(frames: seq<Frame>, index: nat, now: int): seq<Frame>
    requires index < |frames|
  {
    frames[..index + 1] + [frames[index].(id := now)] + frames[index + 1..]
  }

  /** `localFrames.filter((_, i) => i !== index)`. */
  function Deleted(frames: seq<Frame>, index: int): seq<Frame> {
    if 0 <= index < |frames| then frames[..index] + frames[index + 1..] else frames
  }

  /** `updateFrameDuration(index, duration)`: the frame at `index`, if any, takes the new duration. */
  function WithDuration(frames: seq<Frame>, index: int, duration: int): seq<Frame> {
    seq(|frames|, i requires 0 <= i < |frames| =>
      if i == index then frames[i].(duration := duration) else frames[i])
  }

  /**
   * `deleteFrame(index)` with the cursor at `cursor`: nothing happens when only one
   * frame is left; otherwise the new list, and a new cursor when the old one
   * would fall off the end.
   */
  function AfterDelete(frames: seq<Frame>, index: nat, cursor: int): (Option<seq<Frame>>, Option<int>)
    requires index < |frames|
  {
    if |frames| <= 1 then (None, None)
    else
      var updated := Deleted(frames, index);
      (Some(updated), if cursor >= |updated| then Some(|updated| - 1) else None)
  }

  // ---------------------------------------------------------------------------
  // Properties of the list operations
  // ---------------------------------------------------------------------------

  /** Adding keeps every frame and appends one blank frame of 100 ms. */
  lemma AddedFrames(frames: seq<Frame>, now: int)
    ensures var r := Added(frames, now);
      |r| == |frames| + 1 && r[..|frames|] == frames
      && r[|frames|] == Frame(now, DefaultDuration, None)
      && TotalDuration(r) == TotalDuration(frames) + DefaultDuration
  {
    TotalDurationAppend(frames, [Frame(now, DefaultDuration, None)]);
    TotalDurationSingle(Frame(now, DefaultDuration, None));
  }

  /**
   * Duplicating inserts, right after frame `index`, a frame with its duration and
   * data under the new id; the frames before and after keep their order.
   */
  lemma DuplicatedFrames(frames: seq<Frame>, index: nat, now: int)
    requires index < |frames|
    ensures var r := Duplicated(frames, index, now);
      && |r| == |frames| + 1
      && r[..index + 1] == frames[..index + 1]
      && r[index + 1].id == now
      && r[index + 1].duration == frames[index].duration
      && r[index + 1].data == frames[index].data
      && r[index + 2..] == frames[index + 1..]
      && TotalDuration(r) == TotalDuration(frames) + frames[index].duration
  {
    var r := Duplicated(frames, index, now);
    var copy := frames[index].(id := now);
    assert r[index + 2..] == frames[index + 1..];
    TotalDurationAppend(frames[..index + 1] + [copy], frames[index + 1..]);
    TotalDurationAppend(frames[..index + 1], [copy]);
    TotalDurationSingle(copy);
    assert frames == frames[..index + 1] + frames[index + 1..];
    TotalDurationAppend(frames[..index + 1], frames[index + 1..]);
  }

  /** Deleting removes exactly the frame at `index`; the others keep their order. */
  lemma DeletedFrames(frames: seq<Frame>, index: nat)
    requires index < |frames|
    ensures var r := Deleted(frames, index);
      && |r| == |frames| - 1
      && (forall k | 0 <= k < index :: r[k] == frames[k])
      && (forall k | index <= k < |r| :: r[k] == frames[k + 1])
      && TotalDuration(r) == TotalDuration(frames) - frames[index].duration
  {
    TotalDurationAround(frames, index);
    TotalDurationAppend(frames[..index], frames[index + 1..]);
  }

  /** Setting a duration changes that frame's duration only; any integer is taken. */
  lemma WithDurationFrames(frames: seq<Frame>, index: nat, duration: int)
    requires index < |frames|
    ensures var r := WithDuration(frames, index, duration);
      && |r| == |frames|
      && r[index] == frames[index].(duration := duration)
      && (forall k | 0 <= k < |frames| && k != index :: r[k] == frames[k])
      && TotalDuration(r) == TotalDuration(frames) - frames[index].duration + duration
  {
    var r := WithDuration(frames, index, duration);
    TotalDurationAround(frames, index);
    TotalDurationAround(r, index);
    assert r[..index] == frames[..index];
    assert r[index + 1..] == frames[index + 1..];
  }

  /** An index no frame has leaves the list as it is. */
  lemma WithDurationOutOfRange(frames: seq<Frame>, index: int, duration: int)
    requires !(0 <= index < |frames|)
    ensures WithDuration(frames, index, duration) == frames
  {
  }

  /**
   * Deleting with two or more frames always succeeds; the cursor is moved only
   * when it would fall off the end, and then to the new last frame.
   */
  lemma DeleteFrameCursor(frames: seq<Frame>, index: nat, cursor: int)
    requires index < |frames|
    ensures var (updated, moved) := AfterDelete(frames, index, cursor);
      && (|frames| <= 1 <==> updated.None?)
      && (updated.Some? ==> |updated.value| == |frames| - 1 >= 1)
      && (updated.Some? && 0 <= cursor < |frames| ==>
            0 <= moved.GetOr(cursor) < |updated.value|)
      && (moved.Some? ==> cursor >= |frames| - 1 && moved.value == |frames| - 2)
  {
  }

  /**
   * Deleting a frame before the cursor leaves the cursor where it is, so it now
   * names the frame that followed the one it named.
   */
  lemma DeleteBeforeCursorShifts(frames: seq<Frame>, index: nat, cursor: nat)
    requires index < cursor < |frames| - 1
    ensures var (updated, moved) := AfterDelete(frames, index, cursor);
      updated.Some? && moved.None? && updated.value[cursor] == frames[cursor + 1]
  {
    DeletedFrames(frames, index);
  }

  // ---------------------------------------------------------------------------
  // The cursor
  // ---------------------------------------------------------------------------

  /** One playback tick: `(currentFrame + 1) % localFrames.length`. */
  function Tick(cursor: nat, count: nat): nat
    requires count >= 1
  {
    (cursor + 1) % count
  }

  /** The ◀ button: `Math.max(0, currentFrame - 1)`. */
  function Prev(cursor: int): int {
    if cursor - 1 > 0 then cursor - 1 else 0
  }

  /** The ▶ button: `Math.min(localFrames.length - 1, currentFrame + 1)`. */
  function Next(cursor: int, count: nat): int {
    if count - 1 < cursor + 1 then count - 1 else cursor + 1
  }

  /** Playing for `k` ticks. */
  function Ticks(cursor: nat, count: nat, k: nat): nat
    requires count >= 1
  {
    if k == 0 then cursor else Tick(Ticks(cursor, count, k - 1), count)
  }

  /** The remainder is the one `x == q * n + r` with `0 <= r < n` gives. */
  lemma ModUnique(x: int, q: int, r: int, n: int)
    requires n > 0 && x == q * n + r && 0 <= r < n
    ensures x % n == r
  {
    var d := q - x / n;
    assert d * n == x % n - r;
  }

  /** Stepping from a remainder is stepping from the number it is the remainder of. */
  lemma TickOfRemainder(x: nat, n: nat)
    requires n >= 1
    ensures Tick(x % n, n) == (x + 1) % n
  {
    var p, q := x % n, x / n;
    assert x == q * n + p;
    if p + 1 < n {
      ModUnique(x + 1, q, p + 1, n);
      ModUnique(p + 1, 0, p + 1, n);
    } else {
      ModUnique(x + 1, q + 1, 0, n);
      ModUnique(p + 1, 1, 0, n);
    }
  }

  /** After `k` ticks the cursor is `k` frames on, wrapping around at the end. */
  lemma {:induction false} TicksAdvance(cursor: nat, count: nat, k: nat)
    requires count >= 1 && cursor < count
    ensures Ticks(cursor, count, k) == (cursor + k) % count
  {
    if k == 0 {
      ModUnique(cursor, 0, cursor, count);
    } else {
      TicksAdvance(cursor, count, k - 1);
      TickOfRemainder(cursor + k - 1, count);
    }
  }

  /** A full cycle of ticks brings the animation back to the frame it started from. */
  lemma TicksCycle(cursor: nat, count: nat)
    requires count >= 1 && cursor < count
    ensures Ticks(cursor, count, count) == cursor
  {
    TicksAdvance(cursor, count, count);
    ModUnique(cursor + count, 1, cursor, count);
  }

  /**
   * A tick, ◀ and ▶ keep a cursor that names a frame naming a frame; ◀ stops at
   * the first frame, ▶ at the last, and away from the ends they undo each other.
   */
  lemma CursorStaysInRange(cursor: int, count: nat)
    requires count >= 1 && 0 <= cursor < count
    ensures 0 <= Tick(cursor, count) < count
    ensures 0 <= Prev(cursor) < count && 0 <= Next(cursor, count) < count
    ensures Prev(cursor) == cursor <==> cursor == 0
    ensures Next(cursor, count) == cursor <==> cursor == count - 1
    ensures cursor > 0 ==> Next(Prev(cursor), count) == cursor
    ensures cursor < count - 1 ==> Prev(Next(cursor, count)) == cursor
  {
  }

  // ---------------------------------------------------------------------------
  // The component's own state
  // ---------------------------------------------------------------------------

  /** `useState(frames.length > 0 ? frames : [default])`. */
  function InitialFrames(frames: seq<Frame>): (r: seq<Frame>)
    ensures |r| >= 1
    ensures frames != [] ==> r == frames
    ensures frames == [] ==> r == [FirstFrame]
  {
    if |frames| > 0 then frames else [FirstFrame]
  }

  class Timeline {
    var localFrames: seq<Frame>
    var playing: bool
    var fps: int
    var onionSkin: bool

    /** The strip never runs empty, and the slider keeps 1..30 frames per second. */
    predicate Valid()
      reads this
    {
      |localFrames| >= 1 && 1 <= fps <= 30
    }

    constructor(frames: seq<Frame>)
      ensures Valid()
      ensures localFrames == InitialFrames(frames)
      ensures !playing && fps == 10 && !onionSkin
    {
      localFrames := InitialFrames(frames);
      playing, fps, onionSkin := false, 10, false;
    }

    /** The effect on the `frames` prop: an empty list is ignored. */
    method SyncFromProps(frames: seq<Frame>)
      requires Valid()
      modifies this
      ensures Valid()
      ensures localFrames == (if |frames| > 0 then frames else old(localFrames))
      ensures playing == old(playing) && fps == old(fps) && onionSkin == old(onionSkin)
    {
      if |frames| > 0 {
        localFrames := frames;
      }
    }

    /** Returns the list handed to `onFramesUpdate`. */
    method AddFrame(now: int) returns (updated: seq<Frame>)
      requires Valid()
      modifies this
      ensures Valid()
      ensures updated == Added(old(localFrames), now) && localFrames == updated
      ensures playing == old(playing) && fps == old(fps) && onionSkin == old(onionSkin)
    {
      updated := localFrames + [Frame(now, DefaultDuration, None)];
      localFrames := updated;
    }

    method DuplicateFrame(index: nat, now: int) returns (updated: seq<Frame>)
      requires Valid() && index < |localFrames|
      modifies this
      ensures Valid()
      ensures updated == Duplicated(old(localFrames), index, now) && localFrames == updated
      ensures playing == old(playing) && fps == old(fps) && onionSkin == old(onionSkin)
    {
      var copy := localFrames[index].(id := now);
      updated := localFrames[..index + 1] + [copy] + localFrames[index + 1..];
      localFrames := updated;
    }

    /** Returns what is handed to `onFramesUpdate` and to `onFrameChange`, if anything. */
    method DeleteFrame(index: nat, cursor: int) returns (updated: Option<seq<Frame>>, moved: Option<int>)
      requires Valid() && index < |localFrames|
      modifies this
      ensures Valid()
      ensures (updated, moved) == AfterDelete(old(localFrames), index, cursor)
      ensures localFrames == updated.GetOr(old(localFrames))
      ensures playing == old(playing) && fps == old(fps) && onionSkin == old(onionSkin)
    {
      if |localFrames| <= 1 {
        return None, None;
      }
      var rest := localFrames[..index] + localFrames[index + 1..];
      localFrames := rest;
      updated := Some(rest);
      moved := if cursor >= |rest| then Some(|rest| - 1) else None;
    }

    method UpdateFrameDuration(index: int, duration: int) returns (updated: seq<Frame>)
      requires Valid()
      modifies this
      ensures Valid()
      ensures updated == WithDuration(old(localFrames), index, duration) && localFrames == updated
      ensures playing == old(playing) && fps == old(fps) && onionSkin == old(onionSkin)
    {
      updated := WithDuration(localFrames, index, duration);
      localFrames := updated;
    }

    method TogglePlaying()
      requires Valid()
      modifies this
      ensures Valid()
      ensures playing == !old(playing)
      ensures localFrames == old(localFrames) && fps == old(fps) && onionSkin == old(onionSkin)
    {
      playing := !playing;
    }

    /** The FPS slider, whose range is 1..30. */
    method SetFps(f: int)
      requires Valid() && 1 <= f <= 30
      modifies this
      ensures Valid()
      ensures fps == f
      ensures localFrames == old(localFrames) && playing == old(playing) && onionSkin == old(onionSkin)
    {
      fps := f;
    }

    method ToggleOnionSkin()
      requires Valid()
      modifies this
      ensures Valid()
      ensures onionSkin == !old(onionSkin)
      ensures localFrames == old(localFrames) && playing == old(playing) && fps == old(fps)
    {
      onionSkin := !onionSkin;
    }

    /** The interval's callback, which only runs while playing. */
    method PlaybackTick(cursor: nat) returns (next: nat)
      requires Valid() && playing
      ensures next == Tick(cursor, |localFrames|)
    {
      next := (cursor + 1) % |localFrames|;
    }
  }
}
