/**
 * The sprite studio (`AetherSprite`), parent of the canvas and the timeline.
 * It owns the frame list, the cursor (`currentFrame`) and the active tab. The
 * canvas writes each snapshot into the frame under the cursor; the timeline
 * replaces the list and moves the cursor through callbacks.
 *
 * The timeline keeps its own copy of the list, which its effect re-syncs from
 * the parent whenever the parent's list is non-empty; the parent's list is never
 * empty, so here the timeline's handlers act on the parent's list directly.
 */
module AetherSprite {
  import opened Wrappers
  import opened SpriteTimeline

  datatype Tab = Generator | EditorTab | Animate | ExportTab

  /** `handleFrameUpdate`: the frame under the cursor takes the new image data. */
  function WithData(frames: seq<Frame>, cursor: nat, data: string): seq<Frame>
    requires cursor < |frames|
  {
    frames[cursor := frames[cursor].(data := Some(data))]
  }

  /** A write-back keeps the count, the other frames, and the frame's id and duration. */
  lemma WithDataWritesOneSlot(frames: seq<Frame>, cursor: nat, data: string)
    requires cursor < |frames|
    ensures var r := WithData(frames, cursor, data);
      && |r| == |frames|
      && r[cursor].id == frames[cursor].id
      && r[cursor].duration == frames[cursor].duration
      && r[cursor].data == Some(data)
      && (forall k | 0 <= k < |frames| && k != cursor :: r[k] == frames[k])
      && TotalDuration(r) == TotalDuration(frames)
  {
    var r := WithData(frames, cursor, data);
    TotalDurationAround(frames, cursor);
    TotalDurationAround(r, cursor);
    assert r[..cursor] == frames[..cursor];
    assert r[cursor + 1..] == frames[cursor + 1..];
  }

  // ---------------------------------------------------------------------------
  // What the timeline does to the parent's list and cursor
  // ---------------------------------------------------------------------------

  /** A control of the timeline; frame indices come from the strip's own buttons. */
  datatype TimelineAction =
    | AddClick(now: int)
    | DuplicateClick(index: nat, now: int)
    | DeleteClick(index: nat)
    // `updateFrameDuration` (SpriteTimeline.jsx:59) is defined, but no control of the
    // rendered strip calls it; this action models that callback as if it were wired.
    | DurationChange(index: nat, duration: int)
    | ThumbnailClick(index: nat)
    | PrevClick
    | NextClick
    | PlaybackTick

  predicate Targets(frames: seq<Frame>, a: TimelineAction) {
    match a
    case DuplicateClick(i, _) => i < |frames|
    case DeleteClick(i) => i < |frames|
    case DurationChange(i, _) => i < |frames|
    case ThumbnailClick(i) => i < |frames|
    case _ => true
  }

  /** The parent's list and cursor after one timeline control. */
  function ApplyAction(frames: seq<Frame>, cursor: int, a: TimelineAction): (seq<Frame>, int)
    requires |frames| >= 1 && 0 <= cursor && Targets(frames, a)
  {
    match a
    case AddClick(now) => (Added(frames, now), cursor)
    case DuplicateClick(i, now) => (Duplicated(frames, i, now), cursor)
    case DeleteClick(i) =>
      var (updated, moved) := AfterDelete(frames, i, cursor);
      (updated.GetOr(frames), moved.GetOr(cursor))
    case DurationChange(i, d) => (WithDuration(frames, i, d), cursor)
    case ThumbnailClick(i) => (frames, i)
    case PrevClick => (frames, Prev(cursor))
    case NextClick => (frames, Next(cursor, |frames|))
    case PlaybackTick => (frames, Tick(cursor, |frames|))
  }

  /**
   * No timeline control empties the list or leaves the cursor off it, so the
   * canvas's write-back always lands on an existing frame.
   */
  lemma ApplyActionKeepsCursor(frames: seq<Frame>, cursor: int, a: TimelineAction)
    requires |frames| >= 1 && 0 <= cursor < |frames| && Targets(frames, a)
    ensures var (fs, c) := ApplyAction(frames, cursor, a);
      |fs| >= 1 && 0 <= c < |fs|
  {
    match a
    case DeleteClick(i) => DeleteFrameCursor(frames, i, cursor);
    case PrevClick => CursorStaysInRange(cursor, |frames|);
    case NextClick => CursorStaysInRange(cursor, |frames|);
    case PlaybackTick => CursorStaysInRange(cursor, |frames|);
    case _ =>
  }

  // ---------------------------------------------------------------------------
  // The component
  // ---------------------------------------------------------------------------

  class Studio {
    var frames: seq<Frame>
    var currentFrame: int
    var activeTab: Tab

    predicate Valid()
      reads this
    {
      |frames| >= 1 && 0 <= currentFrame < |frames|
    }

    /** One blank 100 ms frame with id 1, the cursor on it, the generator tab open. */
    constructor()
      ensures Valid()
      ensures frames == [FirstFrame] && currentFrame == 0 && activeTab == Generator
    {
      frames, currentFrame, activeTab := [FirstFrame], 0, Generator;
    }

    /** The header's tab buttons. */
    method SelectTab(t: Tab)
      requires Valid()
      modifies this
      ensures Valid() && activeTab == t
      ensures frames == old(frames) && currentFrame == old(currentFrame)
    {
      activeTab := t;
    }

    /** `handleSpriteGenerated`: the settings are only logged; the editor tab opens. */
    method HandleSpriteGenerated()
      requires Valid()
      modifies this
      ensures Valid() && activeTab == EditorTab
      ensures frames == old(frames) && currentFrame == old(currentFrame)
    {
      activeTab := EditorTab;
    }

    /** `handleFrameUpdate`: copy the list, write one slot of the copy, store the copy. */
    method HandleFrameUpdate(frameData: string)
      requires Valid()
      modifies this
      ensures Valid() && currentFrame == old(currentFrame) && activeTab == old(activeTab)
      ensures frames == WithData(old(frames), currentFrame, frameData)
    {
      var updated := new Frame[|frames|];
      forall i | 0 <= i < |frames| {
        updated[i] := frames[i];
      }
      updated[currentFrame] := updated[currentFrame].(data := Some(frameData));
      frames := updated[..];
    }

    /** One timeline control, through `onFramesUpdate` and `onFrameChange`. */
    method OnTimeline(a: TimelineAction)
      requires Valid() && Targets(frames, a)
      modifies this
      ensures Valid()
      ensures (frames, currentFrame) == ApplyAction(old(frames), old(currentFrame), a)
      ensures activeTab == old(activeTab)
    {
      ApplyActionKeepsCursor(frames, currentFrame, a);
      var (fs, c) := ApplyAction(frames, currentFrame, a);
      frames, currentFrame := fs, c;
    }
  }
}
