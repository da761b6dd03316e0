/**
 * The generation back end (backend/server.py): the newline-delimited JSON event
 * streams of `POST /api/generate` and `POST /api/batch-generate`, and the path rule
 * of `GET /api/download/{filename}`.
 *
 * A streaming endpoint is a generator whose body alternates between yielding an
 * event and awaiting an opaque pipeline stage. It is modelled as a straight-line
 * program of `Emit` and `Call` actions, run against an `Outcome` that says which
 * stage (if any) raises. The `except` clause turns the first raised exception into
 * one final error event.
 */
module GenerationServer {
  import opened Wrappers
  import opened Text

  // ---------------------------------------------------------------------------
  // Wire values
  // ---------------------------------------------------------------------------

  /**
   * A JSON object as the server writes it. Only the keys the server ever uses are
   * represented; `json.dumps` writes present keys in this order, which is also the
   * insertion order of every dict literal in the server.
   */
  datatype Event = Event(
    stage: Option<string>,
    progress: Option<int>,
    message: Option<string>,
    file: Option<string>,
    files: Option<seq<string>>,
    error: Option<string>)

  function StageEvent(stage: string, progress: int, message: string): Event {
    Event(Some(stage), Some(progress), Some(message), None, None, None)
  }

  /** The success terminal event: `{"stage": "complete", "progress": 100, "file": ...}`. */
  function CompleteEvent(file: string): Event {
    Event(Some("complete"), Some(100), None, Some(file), None, None)
  }

  /** The failure event of `/api/generate`: `{"stage": "error", "message": str(e)}`. */
  function StageErrorEvent(message: string): Event {
    Event(Some("error"), None, Some(message), None, None, None)
  }

  /** The failure event of `/api/batch-generate`: `{"error": str(e)}`, with no `stage` key. */
  function BatchErrorEvent(message: string): Event {
    Event(None, None, None, None, None, Some(message))
  }

  function ProgressEvent(progress: int, message: string): Event {
    Event(None, Some(progress), Some(message), None, None, None)
  }

  // ---------------------------------------------------------------------------
  // json.dumps (default separators, ensure_ascii=True)
  // ---------------------------------------------------------------------------

  /** `'{0:04x}'.format(n)`: four lower-case hexadecimal digits. */
  function Hex4(n: nat): (s: string)
    requires n < 0x1_0000
    ensures |s| == 4 && '\n' !in s
  {
    [HexDigit(n / 0x1000), HexDigit(n / 0x100 % 16), HexDigit(n / 16 % 16), HexDigit(n % 16)]
  }

  /**
   * How `json.dumps` writes one character of a string: the two-character escapes for
   * quote, backslash and five control characters, the character itself when it is
   * printable ASCII, and `\uXXXX` (a surrogate pair above U+FFFF) otherwise.
   */
  function EscapeChar(c: char): (s: string)
    ensures |s| >= 1 && '\n' !in s
  {
    if c == '"' then "\\\""
    else if c == '\\' then "\\\\"
    else if c == '\n' then "\\n"
    else if c == '\r' then "\\r"
    else if c == '\t' then "\\t"
    else if c == '\U{0008}' then "\\b"
    else if c == '\U{000C}' then "\\f"
    else if ' ' <= c <= '~' then [c]
    else if (c as int) < 0x1_0000 then "\\u" + Hex4(c as int)
    else
      var v := c as int - 0x1_0000;
      "\\u" + Hex4(0xD800 + v / 0x400) + "\\u" + Hex4(0xDC00 + v % 0x400)
  }

  function EscapeChars(s: string): (r: string)
    ensures '\n' !in r
    ensures |r| >= |s|
  {
    if s == [] then [] else EscapeChar(s[0]) + EscapeChars(s[1..])
  }

  function JsonString(s: string): (r: string)
    ensures '\n' !in r
  {
    "\"" + EscapeChars(s) + "\""
  }

  function JsonStringList(items: seq<string>): (r: string)
    ensures '\n' !in r
  {
    "[" + JsonListItems(items) + "]"
  }

  function JsonListItems(items: seq<string>): (r: string)
    ensures '\n' !in r
  {
    if items == [] then []
    else if |items| == 1 then JsonString(items[0])
    else JsonString(items[0]) + ", " + JsonListItems(items[1..])
  }

  /**
   * `json.dumps` writes the members of a dict in insertion order, separated by `", "`.
   * `Add(body, key, v)` appends the member `"key": v` to the members written so far,
   * or leaves them as they are when the key is absent (`v` is the encoded value).
   */
  function Add(body: string, key: string, v: Option<string>): (r: string)
    requires '\n' !in body
    requires v.Some? ==> '\n' !in v.value
    ensures '\n' !in r
    ensures v.None? ==> r == body
    ensures v.Some? ==> |r| > |body|
  {
    if v.None? then body
    else (if body == [] then [] else body + ", ") + JsonString(key) + ": " + v.value
  }

  function EncodedString(v: Option<string>): (r: Option<string>)
    ensures r.Some? <==> v.Some?
    ensures r.Some? ==> '\n' !in r.value
  {
    if v.Some? then Some(JsonString(v.value)) else None
  }

  function EncodedInt(v: Option<int>): (r: Option<string>)
    ensures r.Some? <==> v.Some?
    ensures r.Some? ==> '\n' !in r.value
  {
    if v.Some? then Some(IntToString(v.value)) else None
  }

  function EncodedList(v: Option<seq<string>>): (r: Option<string>)
    ensures r.Some? <==> v.Some?
    ensures r.Some? ==> '\n' !in r.value
  {
    if v.Some? then Some(JsonStringList(v.value)) else None
  }

  /** The `i`-th key of an event's dict, in insertion order. */
  function MemberKey(i: nat): string
    requires i < 6
  {
    if i == 0 then "stage" else if i == 1 then "progress" else if i == 2 then "message"
    else if i == 3 then "file" else if i == 4 then "files" else "error"
  }

  /** The encoded value of the `i`-th key (`None`: the key is absent). */
  function MemberValue(e: Event, i: nat): (r: Option<string>)
    requires i < 6
    ensures r.Some? ==> '\n' !in r.value
  {
    if i == 0 then EncodedString(e.stage) else if i == 1 then EncodedInt(e.progress)
    else if i == 2 then EncodedString(e.message) else if i == 3 then EncodedString(e.file)
    else if i == 4 then EncodedList(e.files) else EncodedString(e.error)
  }

  /** Writes the members from the `i`-th key on after the members already in `body`. */
  function AddFrom(body: string, e: Event, i: nat): (r: string)
    requires i <= 6 && '\n' !in body
    ensures '\n' !in r
    decreases 6 - i
  {
    if i == 6 then body else AddFrom(Add(body, MemberKey(i), MemberValue(e, i)), e, i + 1)
  }

  /** The members of an event's object, without the braces. */
  function Body(e: Event): (r: string)
    ensures '\n' !in r
  {
    AddFrom([], e, 0)
  }

  /**
   * `json.dumps(e)`: a single-line JSON object. Every string is escaped, so the
   * encoding never holds a raw newline, and it starts with `{`.
   */
  function Encode(e: Event): (r: string)
    ensures |r| >= 2 && r[0] == '{' && r[|r| - 1] == '}'
    ensures '\n' !in r
  {
    "{" + Body(e) + "}"
  }

  /** One yielded chunk of the response body: `json.dumps(...) + "\n"`. */
  function Line(e: Event): string {
    Encode(e) + "\n"
  }

  /** The whole response body of a stream that yields `events`. */
  function Wire(events: seq<Event>): (body: string)
    ensures events == [] <==> body == []
  {
    if events == [] then [] else Line(events[0]) + Wire(events[1..])
  }

  // ---------------------------------------------------------------------------
  // Generator bodies as programs
  // ---------------------------------------------------------------------------

  /** The opaque pipeline calls a stream awaits, each of which may raise. */
  datatype Step =
    | Multiview | Reconstruction | Cleanup | Textures | Rigging | ExportGlb
    | BatchMultiview | BatchReconstruction | BatchCleanup | Variations
    | ExportVariation(index: nat)

  datatype Action = Emit(event: Event) | Call(step: Step)

  /** A straight-line generator body: its statements in order. */
  datatype Prog = Done | Do(action: Action, rest: Prog)

  /** Whether every awaited call returns, or which one raises and with what `str(e)`. */
  datatype Outcome = Completes | Raises(at: Step, message: string)

  /** Which of the two failure-event shapes an endpoint's `except` clause yields. */
  datatype ErrorShape = StageError | BareError

  function ErrorEvent(shape: ErrorShape, message: string): Event {
    match shape
    case StageError => StageErrorEvent(message)
    case BareError => BatchErrorEvent(message)
  }

  /** `p` followed by `q`. */
  function Then(p: Prog, q: Prog): Prog {
    match p
    case Done => q
    case Do(a, rest) => Do(a, Then(rest, q))
  }

  /** The events yielded by running `p`: up to the first raising call, then one error event. */
  function Run(p: Prog, o: Outcome, shape: ErrorShape): seq<Event> {
    match p
    case Done => []
    case Do(Emit(e), rest) => [e] + Run(rest, o, shape)
    case Do(Call(s), rest) =>
      if o.Raises? && o.at == s then [ErrorEvent(shape, o.message)] else Run(rest, o, shape)
  }

  /** The events a program yields when nothing raises: its `Emit` statements in order. */
  function Emitted(p: Prog): seq<Event> {
    match p
    case Done => []
    case Do(a, rest) => (if a.Emit? then [a.event] else []) + Emitted(rest)
  }

  /** The steps `p` awaits. */
  function Awaits(p: Prog): set<Step> {
    match p
    case Done => {}
    case Do(a, rest) => (if a.Call? then {a.step} else {}) + Awaits(rest)
  }

  /** Whether `p` awaits step `s`. */
  predicate Calls(p: Prog, s: Step) {
    s in Awaits(p)
  }

  /** The statements of `p` before its first call of `s`. */
  function Before(p: Prog, s: Step): Prog
    requires Calls(p, s)
  {
    if p.action == Call(s) then Done else Do(p.action, Before(p.rest, s))
  }

  /** The statements of `p` after its first call of `s`. */
  function After(p: Prog, s: Step): Prog
    requires Calls(p, s)
  {
    if p.action == Call(s) then p.rest else After(p.rest, s)
  }

  lemma {:induction false} EmittedThen(p: Prog, q: Prog)
    ensures Emitted(Then(p, q)) == Emitted(p) + Emitted(q)
  {
    if p.Do? {
      EmittedThen(p.rest, q);
      var h := if p.action.Emit? then [p.action.event] else [];
      assert h + (Emitted(p.rest) + Emitted(q)) == (h + Emitted(p.rest)) + Emitted(q);
    }
  }

  lemma {:induction false} AwaitsThen(p: Prog, q: Prog)
    ensures Awaits(Then(p, q)) == Awaits(p) + Awaits(q)
  {
    if p.Do? {
      AwaitsThen(p.rest, q);
    }
  }

  /** A program is the statements before a call, the call, and the statements after it. */
  lemma {:induction false} SplitAtCall(p: Prog, s: Step)
    requires Calls(p, s)
    ensures Then(Before(p, s), Do(Call(s), After(p, s))) == p
    ensures !Calls(Before(p, s), s)
    ensures Emitted(p) == Emitted(Before(p, s)) + Emitted(After(p, s))
  {
    if p.action != Call(s) {
      SplitAtCall(p.rest, s);
    }
    EmittedThen(Before(p, s), Do(Call(s), After(p, s)));
  }

  /** What follows the first call of `s` in `p` then `q`. */
  lemma {:induction false} AfterThen(p: Prog, q: Prog, s: Step)
    requires Calls(p, s) || Calls(q, s)
    ensures Calls(Then(p, q), s)
    ensures Emitted(After(Then(p, q), s))
      == if Calls(p, s) then Emitted(After(p, s)) + Emitted(q) else Emitted(After(q, s))
  {
    AwaitsThen(p, q);
    if p.Do? && p.action != Call(s) {
      AfterThen(p.rest, q, s);
    } else if p.Do? {
      EmittedThen(p.rest, q);
    }
  }

  /** A run that raises nowhere yields exactly the program's events. */
  lemma {:induction false} RunCompletes(p: Prog, shape: ErrorShape)
    ensures Run(p, Completes, shape) == Emitted(p)
  {
    if p.Do? {
      RunCompletes(p.rest, shape);
    }
  }

  /**
   * A run in which step `s` raises: when the program awaits `s`, every event yielded
   * before that call stays, followed by exactly one error event and nothing else;
   * when it never awaits `s`, the run is the run that completes.
   */
  lemma {:induction false} RunRaises(p: Prog, s: Step, m: string, shape: ErrorShape)
    ensures Run(p, Raises(s, m), shape)
      == if Calls(p, s) then Emitted(Before(p, s)) + [ErrorEvent(shape, m)] else Emitted(p)
  {
    if p.Do? {
      RunRaises(p.rest, s, m, shape);
      var err := [ErrorEvent(shape, m)];
      match p.action
      case Emit(e) =>
        assert Calls(p, s) == Calls(p.rest, s);
        if Calls(p, s) {
          assert Emitted(Before(p, s)) == [e] + Emitted(Before(p.rest, s));
          assert [e] + (Emitted(Before(p.rest, s)) + err) == [e] + Emitted(Before(p.rest, s)) + err;
        }
      case Call(t) =>
        if t == s {
          assert Emitted(Before(p, s)) == [];
        } else {
          assert Calls(p, s) == Calls(p.rest, s);
        }
    }
  }

  /**
   * A failing run is a prefix of the successful one, cut short before the events
   * that follow the raising call, plus one error event.
   */
  lemma FailurePrefix(p: Prog, s: Step, m: string, shape: ErrorShape)
    requires Calls(p, s)
    ensures var ev := Run(p, Raises(s, m), shape);
      var ok := Emitted(p);
      |ev| >= 1 && |ev| - 1 + |Emitted(After(p, s))| == |ok|
      && ev == ok[..|ev| - 1] + [ErrorEvent(shape, m)]
  {
    RunRaises(p, s, m, shape);
    SplitAtCall(p, s);
  }

  // ---------------------------------------------------------------------------
  // POST /api/generate
  // ---------------------------------------------------------------------------

  /** The progress events of `stream_progress`, in the order it yields them. */
  const MultiviewStart: Event := StageEvent("multiview", 0, "HIGH-QUALITY multi-view generation...")
  const MultiviewDone: Event := StageEvent("multiview", 40, "8 high-quality views generated")
  const ReconstructionStart: Event := StageEvent("reconstruction", 40, "Reconstructing with 512 resolution...")
  const ReconstructionDone: Event := StageEvent("reconstruction", 70, "High-detail mesh reconstructed")
  const CleanupStart: Event := StageEvent("cleanup", 70, "Professional cleanup (8K faces, Taubin smooth)...")
  const CleanupDone: Event := StageEvent("cleanup", 85, "Professional mesh ready")
  const TexturesStart: Event := StageEvent("textures", 85, "Generating 4K PBR textures...")
  const TexturesDone: Event := StageEvent("textures", 95, "ORM-packed textures ready")
  const RiggingStart: Event := StageEvent("rigging", 95, "Auto-rigging character...")
  const ExportStart: Event := StageEvent("export", 98, "Exporting GLB...")

  /** `request.features.get(key, True)` over boolean flags. */
  function FeatureOn(features: map<string, bool>, key: string): bool {
    if key in features then features[key] else true
  }

  /** `str(Path("outputs") / filename)`: where `export_glb` writes and what it returns. */
  function OutputPath(filename: string): string {
    "outputs/" + filename
  }

  /** `f"output_{request.type}.glb"`. */
  function OutputFilename(kind: string): string {
    "output_" + kind + ".glb"
  }

  /** Whether the request runs the texture stage. */
  predicate TexturesOn(features: map<string, bool>) {
    FeatureOn(features, "pbr_textures")
  }

  /** Whether the request runs the rigging stage. */
  predicate RiggingOn(kind: string, features: map<string, bool>) {
    kind == "character" && FeatureOn(features, "auto_rigging")
  }

  function PrefixPart(): Prog {
    Do(Emit(MultiviewStart), Do(Call(Multiview), Do(Emit(MultiviewDone),
    Do(Emit(ReconstructionStart), Do(Call(Reconstruction), Do(Emit(ReconstructionDone),
    Do(Emit(CleanupStart), Do(Call(Cleanup), Do(Emit(CleanupDone), Done)))))))))
  }

  function TexturesPart(features: map<string, bool>): Prog {
    if TexturesOn(features) then
      Do(Emit(TexturesStart), Do(Call(Textures), Do(Emit(TexturesDone), Done)))
    else Done
  }

  function RiggingPart(kind: string, features: map<string, bool>): Prog {
    if RiggingOn(kind, features) then Do(Emit(RiggingStart), Do(Call(Rigging), Done)) else Done
  }

  function ExportPart(kind: string): Prog {
    Do(Emit(ExportStart), Do(Call(ExportGlb), Do(Emit(CompleteEvent(OutputPath(OutputFilename(kind)))), Done)))
  }

  lemma ExportPartEmits(kind: string)
    ensures Emitted(ExportPart(kind)) == [ExportStart, CompleteEvent(OutputPath(OutputFilename(kind)))]
    ensures Awaits(ExportPart(kind)) == {ExportGlb}
  {
    var p := ExportPart(kind);
    assert Emitted(p.rest.rest) == [CompleteEvent(OutputPath(OutputFilename(kind)))];
    assert Awaits(p.rest.rest) == {};
  }

  /** The body of `stream_progress` for a request of this type and these features. */
  function GenerateProgram(kind: string, features: map<string, bool>): Prog {
    Then(PrefixPart(), Then(TexturesPart(features), Then(RiggingPart(kind, features), ExportPart(kind))))
  }

  /** Everything `POST /api/generate` streams back. */
  function StreamProgress(kind: string, features: map<string, bool>, o: Outcome): seq<Event> {
    Run(GenerateProgram(kind, features), o, StageError)
  }

  function SuccessEvents(kind: string, features: map<string, bool>): seq<Event> {
    StreamProgress(kind, features, Completes)
  }

  function Stages(events: seq<Event>): (r: seq<Option<string>>)
    ensures |r| == |events|
    ensures forall i :: 0 <= i < |events| ==> r[i] == events[i].stage
  {
    seq(|events|, i requires 0 <= i < |events| => events[i].stage)
  }

  function Progresses(events: seq<Event>): (r: seq<Option<int>>)
    ensures |r| == |events|
    ensures forall i :: 0 <= i < |events| ==> r[i] == events[i].progress
  {
    seq(|events|, i requires 0 <= i < |events| => events[i].progress)
  }

  /** What each part of `stream_progress` yields and awaits. */
  lemma PartsEmit(kind: string, features: map<string, bool>)
    ensures Emitted(PrefixPart())
      == [MultiviewStart, MultiviewDone, ReconstructionStart, ReconstructionDone, CleanupStart, CleanupDone]
    ensures Awaits(PrefixPart()) == {Multiview, Reconstruction, Cleanup}
    ensures Emitted(TexturesPart(features)) == if TexturesOn(features) then [TexturesStart, TexturesDone] else []
    ensures Awaits(TexturesPart(features)) == if TexturesOn(features) then {Textures} else {}
    ensures Emitted(RiggingPart(kind, features)) == if RiggingOn(kind, features) then [RiggingStart] else []
    ensures Awaits(RiggingPart(kind, features)) == if RiggingOn(kind, features) then {Rigging} else {}
    ensures Emitted(ExportPart(kind)) == [ExportStart, CompleteEvent("outputs/output_" + kind + ".glb")]
    ensures Awaits(ExportPart(kind)) == {ExportGlb}
  {
    ExportPartEmits(kind);
    assert OutputPath(OutputFilename(kind)) == "outputs/output_" + kind + ".glb";
  }

  /** The success stream, written out event by event. */
  lemma SuccessEventsAre(kind: string, features: map<string, bool>)
    ensures SuccessEvents(kind, features) ==
      [ MultiviewStart, MultiviewDone, ReconstructionStart, ReconstructionDone, CleanupStart, CleanupDone ]
      + (if TexturesOn(features) then [TexturesStart, TexturesDone] else [])
      + (if RiggingOn(kind, features) then [RiggingStart] else [])
      + [ ExportStart, CompleteEvent("outputs/output_" + kind + ".glb") ]
  {
    RunCompletes(GenerateProgram(kind, features), StageError);
    GenerateEmitted(kind, features);
    PartsEmit(kind, features);
  }

  /** The success stream is the events of the four parts, one after the other. */
  lemma GenerateEmitted(kind: string, features: map<string, bool>)
    ensures Emitted(GenerateProgram(kind, features))
      == Emitted(PrefixPart()) + Emitted(TexturesPart(features)) + Emitted(RiggingPart(kind, features))
         + Emitted(ExportPart(kind))
  {
    var pre, tex, rig, exp := PrefixPart(), TexturesPart(features), RiggingPart(kind, features), ExportPart(kind);
    EmittedThen(rig, exp);
    EmittedThen(tex, Then(rig, exp));
    EmittedThen(pre, Then(tex, Then(rig, exp)));
    var a, b, c, d := Emitted(pre), Emitted(tex), Emitted(rig), Emitted(exp);
    assert a + (b + (c + d)) == a + b + c + d;
  }

  /**
   * On success the stages come in the order multiview, multiview, reconstruction,
   * reconstruction, cleanup, cleanup, [textures, textures], [rigging], export, complete;
   * the textures pair appears iff `pbr_textures` is on (default on), the rigging
   * event iff the type is `character` and `auto_rigging` is on (default on).
   */
  lemma SuccessStageOrder(kind: string, features: map<string, bool>)
    ensures Stages(SuccessEvents(kind, features)) ==
      [Some("multiview"), Some("multiview"), Some("reconstruction"), Some("reconstruction"),
       Some("cleanup"), Some("cleanup")]
      + (if TexturesOn(features) then [Some("textures"), Some("textures")] else [])
      + (if RiggingOn(kind, features) then [Some("rigging")] else [])
      + [Some("export"), Some("complete")]
  {
    SuccessEventsAre(kind, features);
  }

  /** A sequence of present values that never decreases from one element to the next never decreases at all. */
  lemma {:induction false} StepwiseOrder(ps: seq<Option<int>>)
    requires forall i :: 0 <= i < |ps| ==> ps[i].Some?
    requires forall i :: 0 < i < |ps| ==> ps[i - 1].value <= ps[i].value
    ensures forall i, j :: 0 <= i <= j < |ps| ==> ps[i].value <= ps[j].value
  {
    if |ps| > 1 {
      var init := ps[..|ps| - 1];
      StepwiseOrder(init);
      assert forall i :: 0 <= i < |init| ==> init[i] == ps[i];
      assert forall i :: 0 <= i < |ps| - 1 ==> ps[i].value <= ps[|ps| - 2].value <= ps[|ps| - 1].value;
    }
  }

  /** The progress values of the success stream, with the optional stages on or off. */
  function SuccessProgresses(textures: bool, rigging: bool): seq<Option<int>> {
    [Some(0), Some(40), Some(40), Some(70), Some(70), Some(85)]
    + (if textures then [Some(85), Some(95)] else [])
    + (if rigging then [Some(95)] else [])
    + [Some(98), Some(100)]
  }

  lemma SuccessProgressesOrdered(textures: bool, rigging: bool)
    ensures var ps := SuccessProgresses(textures, rigging);
      |ps| >= 8
      && (forall i :: 0 <= i < |ps| ==> ps[i].Some?)
      && ps[0] == Some(0) && ps[|ps| - 1] == Some(100)
      && forall i, j :: 0 <= i <= j < |ps| ==> ps[i].value <= ps[j].value
  {
    var ps := SuccessProgresses(textures, rigging);
    assert forall i :: 0 <= i < |ps| ==> ps[i].Some?;
    assert forall i :: 0 < i < |ps| ==> ps[i - 1].value <= ps[i].value;
    StepwiseOrder(ps);
  }

  /** Every success event carries a progress value; they never decrease, from 0 up to 100. */
  lemma SuccessProgressMonotone(kind: string, features: map<string, bool>)
    ensures var ev := SuccessEvents(kind, features);
      |ev| >= 8
      && (forall i :: 0 <= i < |ev| ==> ev[i].progress.Some?)
      && ev[0].progress == Some(0) && ev[|ev| - 1].progress == Some(100)
      && forall i, j :: 0 <= i <= j < |ev| ==> ev[i].progress.value <= ev[j].progress.value
  {
    SuccessEventsAre(kind, features);
    var ev := SuccessEvents(kind, features);
    var ps := Progresses(ev);
    assert ps == SuccessProgresses(TexturesOn(features), RiggingOn(kind, features));
    SuccessProgressesOrdered(TexturesOn(features), RiggingOn(kind, features));
  }

  /** The last success event names the exported file `outputs/output_<type>.glb`; no earlier event is terminal. */
  lemma SuccessEndsWithFile(kind: string, features: map<string, bool>)
    ensures var ev := SuccessEvents(kind, features);
      |ev| >= 1 && ev[|ev| - 1] == CompleteEvent("outputs/output_" + kind + ".glb")
      && forall i :: 0 <= i < |ev| - 1 ==> ev[i].stage != Some("complete") && ev[i].stage != Some("error")
  {
    SuccessEventsAre(kind, features);
    SuccessStageOrder(kind, features);
    var ss := Stages(SuccessEvents(kind, features));
    assert forall i :: 0 <= i < |ss| - 1 ==> ss[i] != Some("complete") && ss[i] != Some("error");
  }

  /** The stages `stream_progress` awaits: the three fixed ones, export, and the optional two. */
  lemma GenerateAwaits(kind: string, features: map<string, bool>)
    ensures Awaits(GenerateProgram(kind, features)) ==
      {Multiview, Reconstruction, Cleanup, ExportGlb}
      + (if TexturesOn(features) then {Textures} else {})
      + (if RiggingOn(kind, features) then {Rigging} else {})
  {
    PartsEmit(kind, features);
    AwaitsThen(RiggingPart(kind, features), ExportPart(kind));
    AwaitsThen(TexturesPart(features), Then(RiggingPart(kind, features), ExportPart(kind)));
    AwaitsThen(PrefixPart(), Then(TexturesPart(features), Then(RiggingPart(kind, features), ExportPart(kind))));
  }

  /** Whichever stage raises, at least the terminal `complete` event follows its call. */
  lemma GenerateEmitsAfterEveryCall(kind: string, features: map<string, bool>, s: Step)
    requires Calls(GenerateProgram(kind, features), s)
    ensures |Emitted(After(GenerateProgram(kind, features), s))| >= 1
  {
    var tex, rig, exp := TexturesPart(features), RiggingPart(kind, features), ExportPart(kind);
    AwaitsThen(rig, exp);
    AwaitsThen(tex, Then(rig, exp));
    AwaitsThen(PrefixPart(), Then(tex, Then(rig, exp)));
    ExportPartEmits(kind);
    AfterThen(PrefixPart(), Then(tex, Then(rig, exp)), s);
    EmittedThen(rig, exp);
    EmittedThen(tex, Then(rig, exp));
    if !Calls(PrefixPart(), s) {
      AfterThen(tex, Then(rig, exp), s);
      if !Calls(tex, s) {
        AfterThen(rig, exp, s);
      }
    }
  }

  /**
   * A stage that raises: the events already yielded stay, then exactly one
   * `{"stage": "error", "message": str(e)}` ends the stream, and the `complete`
   * event is never yielded. A failure in a stage the request does not run (textures
   * off, no rigging) cannot happen, so the stream is the success stream.
   */
  lemma FailureEndsWithOneError(kind: string, features: map<string, bool>, s: Step, m: string)
    ensures var ev := StreamProgress(kind, features, Raises(s, m));
      var ok := SuccessEvents(kind, features);
      if Calls(GenerateProgram(kind, features), s) then
        |ev| >= 1 && |ev| < |ok| + 1 && |ev| - 1 < |ok|
        && ev == ok[..|ev| - 1] + [StageErrorEvent(m)]
        && forall i :: 0 <= i < |ev| - 1 ==> ev[i].stage != Some("complete") && ev[i].stage != Some("error")
      else ev == ok
  {
    var p := GenerateProgram(kind, features);
    RunCompletes(p, StageError);
    if Calls(p, s) {
      var ev, ok := Run(p, Raises(s, m), StageError), Emitted(p);
      FailurePrefix(p, s, m, StageError);
      GenerateEmitsAfterEveryCall(kind, features, s);
      SuccessEndsWithFile(kind, features);
      forall i | 0 <= i < |ev| - 1
        ensures ev[i].stage != Some("complete") && ev[i].stage != Some("error")
      {
        assert ev[i] == ok[i];
      }
    } else {
      RunRaises(p, s, m, StageError);
    }
  }

  // ---------------------------------------------------------------------------
  // POST /api/batch-generate
  // ---------------------------------------------------------------------------

  /** `f"variation_{i:02d}.glb"`. */
  function VariationFilename(i: nat): string {
    "variation_" + Pad2(i) + ".glb"
  }

  /** The `files` list of the final batch event: one exported path per variation. */
  function VariationFiles(n: nat): (files: seq<string>)
    ensures |files| == n
    ensures forall i :: 0 <= i < n ==> files[i] == OutputPath(VariationFilename(i))
  {
    seq(n, i requires 0 <= i < n => OutputPath(VariationFilename(i)))
  }

  /**
   * The number of variations `generate_batch_variations` returns for `count`:
   * `range(count)` is empty for a negative count.
   */
  function VariationCount(count: int): nat {
    if count < 0 then 0 else count
  }

  /** The export loop of `stream_batch`: it appends one exported path per variation. */
  method BatchFiles(count: int) returns (files: seq<string>)
    ensures files == VariationFiles(VariationCount(count))
  {
    var n := VariationCount(count);
    files := [];
    var i := 0;
    while i < n
      invariant 0 <= i <= n
      invariant files == VariationFiles(i)
    {
      files := files + [OutputPath(VariationFilename(i))];
      i := i + 1;
    }
  }

  lemma {:induction false} AffixCancel(pre: string, a: string, b: string, post: string)
    requires pre + a + post == pre + b + post
    ensures a == b
  {
    var x := pre + a + post;
    assert |a| == |b|;
    assert x[|pre|..|pre| + |a|] == a;
    assert (pre + b + post)[|pre|..|pre| + |b|] == b;
  }

  /** The variation files are pairwise distinct, so no export overwrites another. */
  lemma VariationFilesDistinct(n: nat)
    ensures forall i, j :: 0 <= i < j < n ==> VariationFiles(n)[i] != VariationFiles(n)[j]
  {
    forall i, j | 0 <= i < j < n
      ensures OutputPath(VariationFilename(i)) != OutputPath(VariationFilename(j))
    {
      VariationPathsDistinct(i, j);
    }
  }

  lemma VariationPathsDistinct(i: nat, j: nat)
    requires i != j
    ensures OutputPath(VariationFilename(i)) != OutputPath(VariationFilename(j))
  {
    var a, b := VariationFilename(i), VariationFilename(j);
    if a == b {
      AffixCancel("variation_", Pad2(i), Pad2(j), ".glb");
      Pad2Injective(i, j);
    }
    assert OutputPath(a)[|"outputs/"|..] == a;
    assert OutputPath(b)[|"outputs/"|..] == b;
  }

  /** `export_glb` awaited once per variation, from index `i` up to `n`. */
  function ExportsFrom(i: nat, n: nat): Prog
    decreases n - i
  {
    if i < n then Do(Call(ExportVariation(i)), ExportsFrom(i + 1, n)) else Done
  }

  const BatchHalfway: Event := ProgressEvent(50, "Base mesh created, generating variations...")

  function BatchStart(count: int): Event {
    ProgressEvent(0, "Generating " + IntToString(count) + " variations...")
  }

  function BatchDone(count: int): Event {
    Event(None, Some(100), Some(IntToString(count) + " variations complete"), None,
          Some(VariationFiles(VariationCount(count))), None)
  }

  function BatchHead(count: int): Prog {
    Do(Emit(BatchStart(count)), Do(Call(BatchMultiview), Do(Call(BatchReconstruction),
    Do(Call(BatchCleanup), Do(Emit(BatchHalfway), Do(Call(Variations), Done))))))
  }

  /** The body of `stream_batch` for `request.count == count`. */
  function BatchProgram(count: int): Prog {
    Then(BatchHead(count), Then(ExportsFrom(0, VariationCount(count)), Do(Emit(BatchDone(count)), Done)))
  }

  /** Everything `POST /api/batch-generate` streams back. */
  function StreamBatch(count: int, o: Outcome): seq<Event> {
    Run(BatchProgram(count), o, BareError)
  }

  lemma {:induction false} ExportsFromSilent(i: nat, n: nat, s: Step)
    ensures Emitted(ExportsFrom(i, n)) == []
    ensures Calls(ExportsFrom(i, n), s) <==> s.ExportVariation? && i <= s.index < n
    ensures Calls(ExportsFrom(i, n), s) ==> Emitted(After(ExportsFrom(i, n), s)) == []
    decreases n - i
  {
    if i < n {
      ExportsFromSilent(i + 1, n, s);
    }
  }

  lemma BatchHeadEmits(count: int)
    ensures Emitted(BatchHead(count)) == [BatchStart(count), BatchHalfway]
    ensures Awaits(BatchHead(count)) == {BatchMultiview, BatchReconstruction, BatchCleanup, Variations}
    ensures Calls(BatchHead(count), Variations)
    ensures Emitted(After(BatchHead(count), Variations)) == []
  {
    var p := BatchHead(count);
    assert Emitted(p.rest) == [BatchHalfway];
    assert Awaits(p.rest) == {BatchMultiview, BatchReconstruction, BatchCleanup, Variations};
  }

  /** The events and awaited steps of the whole batch program. */
  lemma BatchProgramEmits(count: int)
    ensures Emitted(BatchProgram(count)) == [BatchStart(count), BatchHalfway, BatchDone(count)]
    ensures forall s :: Calls(BatchProgram(count), s) <==>
      s in {BatchMultiview, BatchReconstruction, BatchCleanup, Variations}
      || (s.ExportVariation? && s.index < VariationCount(count))
  {
    var n := VariationCount(count);
    var head, tail := BatchHead(count), Do(Emit(BatchDone(count)), Done);
    BatchHeadEmits(count);
    ExportsFromSilent(0, n, Multiview);
    EmittedThen(ExportsFrom(0, n), tail);
    EmittedThen(head, Then(ExportsFrom(0, n), tail));
    AwaitsThen(ExportsFrom(0, n), tail);
    AwaitsThen(head, Then(ExportsFrom(0, n), tail));
    forall s ensures Calls(ExportsFrom(0, n), s) <==> s.ExportVariation? && s.index < n {
      ExportsFromSilent(0, n, s);
    }
  }

  /**
   * A batch that completes yields progress 0, 50 and 100, the last with one
   * `outputs/variation_NN.glb` per variation.
   */
  lemma BatchCompletes(count: int)
    ensures var ev := StreamBatch(count, Completes);
      ev == [BatchStart(count), BatchHalfway, BatchDone(count)]
      && ev[0].progress == Some(0) && ev[1].progress == Some(50)
      && ev[2].progress == Some(100) && ev[2].files == Some(VariationFiles(VariationCount(count)))
  {
    RunCompletes(BatchProgram(count), BareError);
    BatchProgramEmits(count);
  }

  /** Whichever step raises, the final `files` event follows its call. */
  lemma BatchEmitsAfterEveryCall(count: int, s: Step)
    requires Calls(BatchProgram(count), s)
    ensures |Emitted(After(BatchProgram(count), s))| >= 1
  {
    var n := VariationCount(count);
    var head, tail := BatchHead(count), Do(Emit(BatchDone(count)), Done);
    ExportsFromSilent(0, n, s);
    AwaitsThen(ExportsFrom(0, n), tail);
    AwaitsThen(head, Then(ExportsFrom(0, n), tail));
    AfterThen(head, Then(ExportsFrom(0, n), tail), s);
    EmittedThen(ExportsFrom(0, n), tail);
    if !Calls(head, s) {
      AfterThen(ExportsFrom(0, n), tail, s);
    }
  }

  /**
   * A failure in any awaited stage of a batch yields at most the two progress events
   * before it and then one `{"error": ...}` event, which has no `stage` key; a step the
   * batch never awaits cannot fail it.
   */
  lemma BatchFails(count: int, s: Step, m: string)
    ensures var ev := StreamBatch(count, Raises(s, m));
      if Calls(BatchProgram(count), s) then
        1 <= |ev| <= 3 && ev[|ev| - 1] == BatchErrorEvent(m) && ev[|ev| - 1].stage.None?
        && ev[..|ev| - 1] == [BatchStart(count), BatchHalfway][..|ev| - 1]
      else ev == StreamBatch(count, Completes)
  {
    var p := BatchProgram(count);
    RunCompletes(p, BareError);
    RunRaises(p, s, m, BareError);
    BatchProgramEmits(count);
    if Calls(p, s) {
      FailurePrefix(p, s, m, BareError);
      BatchEmitsAfterEveryCall(count, s);
    }
  }

  // ---------------------------------------------------------------------------
  // GET /api/download/{filename}
  // ---------------------------------------------------------------------------

  datatype DownloadReply =
    | Served(path: string, mediaType: string, filename: string)
    | NotFound(status: nat, detail: string)

  /**
   * `download_model`: serves `outputs/<filename>` as a GLB attachment when that file
   * exists (`existing` is the set of paths present on disk), and 404 otherwise.
   */
  function DownloadModel(filename: string, existing: set<string>): (r: DownloadReply)
    ensures r.Served? <==> OutputPath(filename) in existing
    ensures r.Served? ==>
      r.path == OutputPath(filename) && r.filename == filename && r.mediaType == "model/gltf-binary"
    ensures r.NotFound? ==> r.status == 404 && r.detail == "File not found"
  {
    if OutputPath(filename) in existing then Served(OutputPath(filename), "model/gltf-binary", filename)
    else NotFound(404, "File not found")
  }
}
