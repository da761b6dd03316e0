/**
 * The 3D generation front end (src/App.jsx): the request `handleGenerate` sends,
 * the reducer that folds the streamed response into UI state, the `finally`
 * reset, and the file name `handleExport` downloads under.
 *
 * `JSON.parse`, the download `fetch` and the clock are parameters (`Env`). A parsed
 * line is a server `Event` or a parse failure; `fetchOk(url)` says whether the
 * download of `url` (fetch, `blob()` and `createObjectURL`) resolves.
 */
module GenerationClient {
  import opened Wrappers
  import opened Text
  import opened GenerationServer

  // ---------------------------------------------------------------------------
  // The request
  // ---------------------------------------------------------------------------

  /** The JSON body `handleGenerate` posts to `/api/generate`. */
  datatype GenerationRequest = GenerationRequest(prompt: string, kind: string, features: map<string, bool>)

  /** `prompt || \`A high-quality ${activeTab}\``, the tab as `type`, and the four feature flags. */
  function RequestBody(prompt: string, tab: string): (r: GenerationRequest)
    ensures r.prompt == if prompt == "" then "A high-quality " + tab else prompt
    ensures r.kind == tab
    ensures r.features.Keys == {"pbr_textures", "auto_rigging", "retopology", "watertight"}
    ensures r.features["auto_rigging"] <==> tab == "character"
    ensures r.features["pbr_textures"] && r.features["retopology"] && r.features["watertight"]
  {
    GenerationRequest(
      if prompt == "" then "A high-quality " + tab else prompt,
      tab,
      map["pbr_textures" := true, "auto_rigging" := tab == "character", "retopology" := true, "watertight" := true])
  }

  // ---------------------------------------------------------------------------
  // UI state and the per-line reducer
  // ---------------------------------------------------------------------------

  /** A handle returned by `URL.createObjectURL` for the blob downloaded from `source`. */
  datatype ObjectUrl = ObjectUrl(source: string, serial: nat)

  /** The `generated3D` record. */
  datatype Asset = Asset(kind: string, prompt: string, modelUrl: ObjectUrl, timestamp: string)

  /** The parts of the component's state `handleGenerate` touches, and its side effects so far. */
  datatype Ui = Ui(
    generating: bool,
    progress: int,
    message: string,
    asset: Option<Asset>,
    downloads: seq<string>,   // URLs fetched from the download endpoint, in order
    alerts: seq<string>,      // texts passed to `alert`, in order
    warnings: nat)            // `console.warn` calls from the per-line handler

  /** The inputs `handleGenerate` reads besides the response. */
  datatype Env = Env(
    tab: string,
    prompt: string,
    parse: string -> Option<Event>,
    fetchOk: string -> bool,
    now: nat -> string)

  const DownloadBase: string := "http://localhost:8000/api/download/"

  /** The URL a `complete` event's file is fetched from: its last `/`-segment under the download route. */
  function DownloadUrl(file: string): (url: string)
    ensures url == DownloadBase + LastSegment(file)
    ensures '/' !in url[|DownloadBase|..]
  {
    DownloadBase + LastSegment(file)
  }

  /** A line that throws inside the per-line `try`: the `catch` only warns. */
  function Warn(st: Ui): Ui {
    st.(warnings := st.warnings + 1)
  }

  /** Whether a parsed line takes the download branch: stage `complete` and a truthy `file`. */
  predicate IsComplete(data: Event) {
    data.stage == Some("complete") && data.file.Some? && data.file.value != ""
  }

  /** The body of the per-line `try` for an already parsed line (`None`: `JSON.parse` threw). */
  function StepEvent(st: Ui, parsed: Option<Event>, env: Env): Ui {
    if parsed.None? then Warn(st)
    else
      var data := parsed.value;
      if data.stage == Some("error") then Warn(st)
      else
        var st1 := if data.progress.Some? then st.(progress := data.progress.value, message := data.message.GetOr("")) else st;
        if IsComplete(data) then
          var url := DownloadUrl(data.file.value);
          var st2 := st1.(downloads := st1.downloads + [url]);
          if env.fetchOk(url) then
            var serial := |st1.downloads|;
            st2.(asset := Some(Asset(env.tab, if env.prompt == "" then "Generated " + env.tab else env.prompt,
                                     ObjectUrl(url, serial), env.now(serial))))
          else Warn(st2)
        else st1
  }

  function StepLine(st: Ui, line: string, env: Env): Ui {
    StepEvent(st, env.parse(line), env)
  }

  /** Keeps the pieces whose `trim()` is non-empty, in order. */
  function NonBlank(pieces: seq<string>): (r: seq<string>)
    ensures forall k :: 0 <= k < |r| ==> !IsBlank(r[k])
    ensures forall k :: 0 <= k < |r| ==> r[k] in pieces
  {
    if pieces == [] then []
    else (if IsBlank(pieces[0]) then [] else [pieces[0]]) + NonBlank(pieces[1..])
  }

  /** `text.split('\n').filter(l => l.trim())`. */
  function Lines(chunk: string): (r: seq<string>)
    ensures forall k :: 0 <= k < |r| ==> '\n' !in r[k] && !IsBlank(r[k])
  {
    NonBlank(Split(chunk, '\n'))
  }

  /** The inner `for` loop over the lines of one chunk, as a fold from the left. */
  function ConsumeLines(st: Ui, lines: seq<string>, env: Env): Ui
    decreases |lines|
  {
    if lines == [] then st else StepLine(ConsumeLines(st, lines[..|lines| - 1], env), lines[|lines| - 1], env)
  }

  /** The outer `while` loop over the chunks the reader returns. */
  function ConsumeChunks(st: Ui, chunks: seq<string>, env: Env): Ui
    decreases |chunks|
  {
    if chunks == [] then st
    else ConsumeLines(ConsumeChunks(st, chunks[..|chunks| - 1], env), Lines(chunks[|chunks| - 1]), env)
  }

  // ---------------------------------------------------------------------------
  // The whole handler
  // ---------------------------------------------------------------------------

  /** How the body stream ends: `done`, or a `read()` that rejects. */
  datatype StreamEnd = Finished | Broken(reason: string)

  /** What the request `fetch` gives: a network error, or a response and its body chunks. */
  datatype Response = Rejected(reason: string) | Replied(ok: bool, chunks: seq<string>, end: StreamEnd)

  const NotResponding: string := "Backend not responding. Make sure server is running on port 8000"

  /** The text the outer `catch` alerts. */
  function AlertText(reason: string): string {
    "Generation failed: " + reason + "\n\nMake sure the backend server is running:\ncd backend\npython server.py"
  }

  function Alert(st: Ui, reason: string): Ui {
    st.(alerts := st.alerts + [AlertText(reason)])
  }

  /** The state at the start of the `try`. */
  function Started(st: Ui): Ui {
    st.(generating := true, progress := 0, message := "Initializing...")
  }

  /** The `try`/`catch` of `handleGenerate`, before the `finally`. */
  function Attempt(st: Ui, resp: Response, env: Env): Ui {
    match resp
    case Rejected(reason) => Alert(st, reason)
    case Replied(ok, chunks, end) =>
      if !ok then Alert(st, NotResponding)
      else
        var consumed := ConsumeChunks(st, chunks, env);
        if end.Broken? then Alert(consumed, end.reason) else consumed
  }

  /** The `finally` block. */
  function Reset(st: Ui): Ui {
    st.(generating := false, progress := 0, message := "")
  }

  /** Everything one click of Generate does to the state. */
  function Generate(st: Ui, resp: Response, env: Env): Ui {
    Reset(Attempt(Started(st), resp, env))
  }

  /** `handleExport`: nothing without a model, else `aetherforge_<activeTab>_<ms>.glb`. */
  function ExportFilename(asset: Option<Asset>, tab: string, ms: nat): Option<string> {
    if asset.None? then None else Some("aetherforge_" + tab + "_" + NatToString(ms) + ".glb")
  }

  // ---------------------------------------------------------------------------
  // Properties of the reducer
  // ---------------------------------------------------------------------------

  /** Lines are handled one after the other: a run over `a + b` is a run over `a`, then over `b`. */
  lemma {:induction false} ConsumeLinesAppend(st: Ui, a: seq<string>, b: seq<string>, env: Env)
    ensures ConsumeLines(st, a + b, env) == ConsumeLines(ConsumeLines(st, a, env), b, env)
    decreases |b|
  {
    if b != [] {
      assert (a + b)[..|a + b| - 1] == a + b[..|b| - 1];
      assert (a + b)[|a + b| - 1] == b[|b| - 1];
      ConsumeLinesAppend(st, a, b[..|b| - 1], env);
    } else {
      assert a + b == a;
    }
  }

  /** Whether a parsed line updates the progress bar: it parses, is not an error, and has `progress`. */
  predicate SetsProgress(parsed: Option<Event>) {
    parsed.Some? && parsed.value.stage != Some("error") && parsed.value.progress.Some?
  }

  /** The index of the last line that updates the progress bar, searched from the end. */
  function LastProgressLine(lines: seq<string>, env: Env): (k: Option<nat>)
    ensures k.Some? ==>
      (k.value < |lines| && SetsProgress(env.parse(lines[k.value]))
       && forall j :: k.value < j < |lines| ==> !SetsProgress(env.parse(lines[j])))
    ensures k.None? ==> forall j :: 0 <= j < |lines| ==> !SetsProgress(env.parse(lines[j]))
  {
    if lines == [] then None
    else if SetsProgress(env.parse(lines[|lines| - 1])) then Some(|lines| - 1)
    else LastProgressLine(lines[..|lines| - 1], env)
  }

  /**
   * The progress bar shows the last progress line's value and message (or `''`),
   * whatever came before it: there is no monotonicity check. Without any progress
   * line it keeps what it showed.
   */
  lemma {:induction false} LastProgressWins(st: Ui, lines: seq<string>, env: Env)
    ensures var r := ConsumeLines(st, lines, env);
      match LastProgressLine(lines, env)
      case Some(k) =>
        r.progress == env.parse(lines[k]).value.progress.value
        && r.message == env.parse(lines[k]).value.message.GetOr("")
      case None => r.progress == st.progress && r.message == st.message
    decreases |lines|
  {
    if lines != [] {
      LastProgressWins(st, lines[..|lines| - 1], env);
    }
  }

  /**
   * An `error` line throws inside the per-line `try`; the `catch` only warns, so it
   * changes nothing else and the lines after it are still handled.
   */
  lemma ErrorLineContinues(st: Ui, before: seq<string>, line: string, after: seq<string>, env: Env)
    requires env.parse(line).Some? && env.parse(line).value.stage == Some("error")
    ensures ConsumeLines(st, before + [line] + after, env)
      == ConsumeLines(Warn(ConsumeLines(st, before, env)), after, env)
  {
    ConsumeLinesAppend(st, before + [line], after, env);
    ConsumeLinesAppend(st, before, [line], env);
  }

  /**
   * A `complete` line with a non-empty `file` fetches the file's last `/`-segment
   * from the download route, once, and publishes the asset when the download
   * resolves; the asset's prompt falls back to `Generated <tab>`.
   */
  lemma CompleteLineDownloads(st: Ui, data: Event, env: Env)
    requires IsComplete(data)
    ensures var r := StepEvent(st, Some(data), env);
      var url := DownloadBase + LastSegment(data.file.value);
      r.downloads == st.downloads + [url]
      && (env.fetchOk(url) ==>
        r.asset == Some(Asset(env.tab, if env.prompt == "" then "Generated " + env.tab else env.prompt,
                              ObjectUrl(url, |st.downloads|), env.now(|st.downloads|))))
      && (!env.fetchOk(url) ==> r.asset == st.asset && r.warnings == st.warnings + 1)
  {
  }

  /** Only a `complete` line with a file downloads or publishes anything. */
  lemma OtherLinesPublishNothing(st: Ui, parsed: Option<Event>, env: Env)
    requires !(parsed.Some? && parsed.value.stage != Some("error") && IsComplete(parsed.value))
    ensures StepEvent(st, parsed, env).asset == st.asset
    ensures StepEvent(st, parsed, env).downloads == st.downloads
  {
  }

  /** The per-line handler never alerts; only the outer `catch` does. */
  lemma {:induction false} ConsumeKeepsAlerts(st: Ui, lines: seq<string>, env: Env)
    ensures ConsumeLines(st, lines, env).alerts == st.alerts
    decreases |lines|
  {
    if lines != [] {
      ConsumeKeepsAlerts(st, lines[..|lines| - 1], env);
    }
  }

  lemma {:induction false} ConsumeChunksKeepsAlerts(st: Ui, chunks: seq<string>, env: Env)
    ensures ConsumeChunks(st, chunks, env).alerts == st.alerts
    decreases |chunks|
  {
    if chunks != [] {
      ConsumeChunksKeepsAlerts(st, chunks[..|chunks| - 1], env);
      ConsumeKeepsAlerts(ConsumeChunks(st, chunks[..|chunks| - 1], env), Lines(chunks[|chunks| - 1]), env);
    }
  }

  /**
   * On every path the `finally` leaves `generating` false, progress 0 and an empty
   * message. A rejected request or a non-ok status alerts once and reads nothing;
   * a stream alerts exactly when a read rejects.
   */
  lemma GenerateOutcome(st: Ui, resp: Response, env: Env)
    ensures var r := Generate(st, resp, env);
      !r.generating && r.progress == 0 && r.message == ""
      && (resp.Rejected? ==>
        r.alerts == st.alerts + [AlertText(resp.reason)] && r.asset == st.asset && r.downloads == st.downloads)
      && (resp.Replied? && !resp.ok ==>
        r.alerts == st.alerts + [AlertText(NotResponding)] && r.asset == st.asset && r.downloads == st.downloads)
      && (resp.Replied? && resp.ok ==>
        r.alerts == st.alerts + (if resp.end.Broken? then [AlertText(resp.end.reason)] else []))
  {
    if resp.Replied? && resp.ok {
      ConsumeChunksKeepsAlerts(Started(st), resp.chunks, env);
    }
  }

  /**
   * A line split across two reads: the chunks are not re-buffered, so each fragment
   * is handled as a line of its own, and when neither parses the line is lost with
   * two warnings; the lines around it are handled as usual.
   */
  lemma SplitLineIsLost(st: Ui, pre: string, a: string, b: string, post: string, env: Env)
    requires '\n' !in a && '\n' !in b && !IsBlank(a) && !IsBlank(b)
    requires env.parse(a).None? && env.parse(b).None?
    ensures ConsumeChunks(st, [pre + "\n" + a, b + "\n" + post], env)
      == ConsumeLines(Warn(Warn(ConsumeLines(st, Lines(pre), env))), Lines(post), env)
  {
    ChunkEndingWith(pre, a);
    ChunkStartingWith(b, post);
    var c := [pre + "\n" + a, b + "\n" + post];
    assert c[..1] == [pre + "\n" + a] && c[..1][..0] == [];
    var y := ConsumeChunks(st, c[..1], env);
    assert ConsumeChunks(st, c[..1][..0], env) == st;
    assert y == ConsumeLines(st, Lines(pre) + [a], env);
    ConsumeLinesAppend(st, Lines(pre), [a], env);
    ConsumeOne(ConsumeLines(st, Lines(pre), env), a, env);
    ConsumeLinesAppend(y, [b], Lines(post), env);
    ConsumeOne(y, b, env);
  }

  lemma ConsumeOne(st: Ui, line: string, env: Env)
    ensures ConsumeLines(st, [line], env) == StepLine(st, line, env)
  {
    assert [line][..0] == [];
  }

  /** The lines of a chunk whose last line is `a`. */
  lemma ChunkEndingWith(pre: string, a: string)
    requires '\n' !in a && !IsBlank(a)
    ensures Lines(pre + "\n" + a) == Lines(pre) + [a]
  {
    SplitAppend(pre, '\n', a);
    SplitNoSeparator(a, '\n');
    NonBlankAppend(Split(pre, '\n'), [a]);
    assert NonBlank([a]) == [a];
  }

  /** The lines of a chunk whose first line is `b`. */
  lemma ChunkStartingWith(b: string, post: string)
    requires '\n' !in b && !IsBlank(b)
    ensures Lines(b + "\n" + post) == [b] + Lines(post)
  {
    SplitAppend(b, '\n', post);
    SplitNoSeparator(b, '\n');
    NonBlankAppend([b], Split(post, '\n'));
    assert NonBlank([b]) == [b];
  }

  lemma {:induction false} NonBlankAppend(a: seq<string>, b: seq<string>)
    ensures NonBlank(a + b) == NonBlank(a) + NonBlank(b)
  {
    if a != [] {
      assert (a + b)[1..] == a[1..] + b;
      NonBlankAppend(a[1..], b);
    } else {
      assert a + b == b;
    }
  }

  /**
   * The export name `aetherforge_<tab>_<ms>.glb` names the current tab (not the
   * asset's type) and the time, and different tabs or times never give the same name.
   */
  lemma ExportFilenameInjective(asset: Option<Asset>, tab1: string, ms1: nat, tab2: string, ms2: nat)
    requires asset.Some?
    requires ExportFilename(asset, tab1, ms1) == ExportFilename(asset, tab2, ms2)
    ensures tab1 == tab2 && ms1 == ms2
  {
    var n1, n2 := NatToString(ms1), NatToString(ms2);
    var x1, x2 := tab1 + "_" + n1, tab2 + "_" + n2;
    assert "aetherforge_" + tab1 + "_" + n1 + ".glb" == "aetherforge_" + x1 + ".glb";
    assert "aetherforge_" + tab2 + "_" + n2 + ".glb" == "aetherforge_" + x2 + ".glb";
    AffixCancel("aetherforge_", x1, x2, ".glb");
    LastUnderscore(tab1, n1, tab2, n2);
    NatToStringValue(ms1);
    NatToStringValue(ms2);
  }

  /** A name and a suffix free of `_`, joined by `_`, can be told apart again. */
  lemma LastUnderscore(a1: string, b1: string, a2: string, b2: string)
    requires '_' !in b1 && '_' !in b2
    requires a1 + "_" + b1 == a2 + "_" + b2
    ensures a1 == a2 && b1 == b2
  {
    SplitAppend(a1, '_', b1);
    SplitAppend(a2, '_', b2);
    SplitNoSeparator(b1, '_');
    SplitNoSeparator(b2, '_');
    assert a1 + "_" + b1 == a1 + ['_'] + b1;
    assert a2 + "_" + b2 == a2 + ['_'] + b2;
    var p1, p2 := Split(a1 + "_" + b1, '_'), Split(a2 + "_" + b2, '_');
    assert b1 == p1[|p1| - 1] == p2[|p2| - 1] == b2;
    assert a1 == (a1 + "_" + b1)[..|a1|];
    assert a2 == (a2 + "_" + b2)[..|a2|];
  }

  // ---------------------------------------------------------------------------
  // The component
  // ---------------------------------------------------------------------------

  class App {
    var activeTab: string
    var prompt: string
    var generated3D: Option<Asset>
    var generating: bool
    var progress: int
    var progressMessage: string
    var downloads: seq<string>
    var alerts: seq<string>
    var warnings: nat

    /** The initial `useState` values. */
    constructor ()
      ensures activeTab == "character" && prompt == "" && generated3D == None
      ensures Snapshot() == Ui(false, 0, "", None, [], [], 0)
    {
      activeTab := "character";
      prompt := "";
      generated3D := None;
      generating := false;
      progress := 0;
      progressMessage := "";
      downloads := [];
      alerts := [];
      warnings := 0;
    }

    function Snapshot(): Ui
      reads this
    {
      Ui(generating, progress, progressMessage, generated3D, downloads, alerts, warnings)
    }

    /** One iteration of the inner `for`: the per-line `try`/`catch`. */
    method HandleLine(line: string, env: Env)
      requires env.tab == activeTab && env.prompt == prompt
      modifies this
      ensures Snapshot() == StepLine(old(Snapshot()), line, env)
      ensures activeTab == old(activeTab) && prompt == old(prompt)
    {
      var parsed := env.parse(line);
      if parsed.None? || parsed.value.stage == Some("error") {
        warnings := warnings + 1;
        return;
      }
      var data := parsed.value;
      if data.progress.Some? {
        progress := data.progress.value;
        progressMessage := data.message.GetOr("");
      }
      if IsComplete(data) {
        var url := DownloadUrl(data.file.value);
        var serial := |downloads|;
        downloads := downloads + [url];
        if env.fetchOk(url) {
          var p := if prompt == "" then "Generated " + activeTab else prompt;
          generated3D := Some(Asset(activeTab, p, ObjectUrl(url, serial), env.now(serial)));
        } else {
          warnings := warnings + 1;
        }
      }
    }

    /** The inner `for` over the lines of one chunk. */
    method HandleLines(lines: seq<string>, env: Env)
      requires env.tab == activeTab && env.prompt == prompt
      modifies this
      ensures Snapshot() == ConsumeLines(old(Snapshot()), lines, env)
      ensures activeTab == old(activeTab) && prompt == old(prompt)
    {
      var j := 0;
      while j < |lines|
        invariant 0 <= j <= |lines|
        invariant activeTab == env.tab && prompt == env.prompt
        invariant Snapshot() == ConsumeLines(old(Snapshot()), lines[..j], env)
      {
        HandleLine(lines[j], env);
        assert lines[..j + 1][..j] == lines[..j];
        j := j + 1;
      }
      assert lines[..j] == lines;
    }

    /** The `while (true)` over `reader.read()` until `done`. */
    method HandleChunks(chunks: seq<string>, env: Env)
      requires env.tab == activeTab && env.prompt == prompt
      modifies this
      ensures Snapshot() == ConsumeChunks(old(Snapshot()), chunks, env)
      ensures activeTab == old(activeTab) && prompt == old(prompt)
    {
      var i := 0;
      while i < |chunks|
        invariant 0 <= i <= |chunks|
        invariant activeTab == env.tab && prompt == env.prompt
        invariant Snapshot() == ConsumeChunks(old(Snapshot()), chunks[..i], env)
      {
        HandleLines(Lines(chunks[i]), env);
        assert chunks[..i + 1][..i] == chunks[..i];
        i := i + 1;
      }
      assert chunks[..i] == chunks;
    }

    /** `handleGenerate` against one response of the back end. */
    method HandleGenerate(resp: Response, parse: string -> Option<Event>, fetchOk: string -> bool, now: nat -> string)
      modifies this
      ensures Snapshot() == Generate(old(Snapshot()), resp, Env(activeTab, prompt, parse, fetchOk, now))
      ensures activeTab == old(activeTab) && prompt == old(prompt)
      ensures !generating && progress == 0 && progressMessage == ""
    {
      var env := Env(activeTab, prompt, parse, fetchOk, now);
      generating := true;
      progress := 0;
      progressMessage := "Initializing...";
      if resp.Rejected? {
        alerts := alerts + [AlertText(resp.reason)];
      } else if !resp.ok {
        alerts := alerts + [AlertText(NotResponding)];
      } else {
        HandleChunks(resp.chunks, env);
        if resp.end.Broken? {
          alerts := alerts + [AlertText(resp.end.reason)];
        }
      }
      generating := false;
      progress := 0;
      progressMessage := "";
    }

    /** `handleExport`: the download name, or `None` when there is no model to export. */
    method HandleExport(ms: nat) returns (filename: Option<string>)
      ensures filename == ExportFilename(generated3D, activeTab, ms)
      ensures filename.Some? <==> generated3D.Some?
    {
      if generated3D.None? {
        return None;
      }
      filename := Some("aetherforge_" + activeTab + "_" + NatToString(ms) + ".glb");
    }
  }
}
