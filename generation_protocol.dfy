/**
 * Both ends of `POST /api/generate` together: the lines the server writes are the
 * lines the client reads, what the client asks for decides which stages run, and
 * the `complete` event's file comes back through `GET /api/download/{filename}`.
 *
 * The client's `JSON.parse` is assumed to invert the server's `json.dumps`
 * (`ParsesDumps`); nothing else is assumed about either end. The assumption can
 * be met: `EventDecoding.Decode` is such a parser (`DecodeParsesDumps`).
 */
module GenerationProtocol {
  import opened Wrappers
  import opened Text
  import opened GenerationServer
  import opened GenerationClient
  import EventDecoding

  /** `JSON.parse` reads back every event `json.dumps` wrote. */
  ghost predicate ParsesDumps(env: Env) {
    forall e :: env.parse(Encode(e)) == Some(e)
  }

  /**
   * An environment whose parser is `EventDecoding.Decode` reads back every event,
   * so the lemmas below that assume `ParsesDumps` hold of at least one client.
   */
  lemma DecodeParsesDumps(tab: string, prompt: string, fetchOk: string -> bool, now: nat -> string)
    ensures ParsesDumps(Env(tab, prompt, EventDecoding.Decode, fetchOk, now))
  {
    forall e: Event
      ensures EventDecoding.Decode(Encode(e)) == Some(e)
    {
      EventDecoding.DecodeEncode(e);
    }
  }

  /** The encodings of a list of events, one per event. */
  function Encodings(events: seq<Event>): (r: seq<string>)
    ensures |r| == |events|
    ensures forall i :: 0 <= i < |events| ==> r[i] == Encode(events[i])
  {
    seq(|events|, i requires 0 <= i < |events| => Encode(events[i]))
  }

  /** The client's reducer applied to already parsed events, one after the other. */
  function ConsumeEvents(st: Ui, events: seq<Event>, env: Env): Ui
    decreases |events|
  {
    if events == [] then st
    else StepEvent(ConsumeEvents(st, events[..|events| - 1], env), Some(events[|events| - 1]), env)
  }

  lemma {:induction false} ConsumeEventsAppend(st: Ui, a: seq<Event>, b: seq<Event>, env: Env)
    ensures ConsumeEvents(st, a + b, env) == ConsumeEvents(ConsumeEvents(st, a, env), b, env)
    decreases |b|
  {
    if b != [] {
      assert (a + b)[..|a + b| - 1] == a + b[..|b| - 1];
      assert (a + b)[|a + b| - 1] == b[|b| - 1];
      ConsumeEventsAppend(st, a, b[..|b| - 1], env);
    } else {
      assert a + b == a;
    }
  }

  /** Lines written one after the other, each followed by `\n`. */
  function Joined(lines: seq<string>): string
    decreases |lines|
  {
    if lines == [] then [] else lines[0] + "\n" + Joined(lines[1..])
  }

  /** Splitting lines written one after the other gives them back, when none is blank. */
  lemma {:induction false} LinesOfJoined(lines: seq<string>)
    requires forall k :: 0 <= k < |lines| ==> '\n' !in lines[k] && !IsBlank(lines[k])
    ensures Lines(Joined(lines)) == lines
    decreases |lines|
  {
    if lines == [] {
      assert Split([], '\n') == [""];
      assert IsBlank("");
    } else {
      var rest := lines[1..];
      assert forall k :: 0 <= k < |rest| ==> rest[k] == lines[k + 1];
      ChunkStartingWith(lines[0], Joined(rest));
      LinesOfJoined(rest);
    }
  }

  lemma {:induction false} WireIsJoined(events: seq<Event>)
    ensures Wire(events) == Joined(Encodings(events))
    decreases |events|
  {
    if events != [] {
      WireIsJoined(events[1..]);
      assert Encodings(events)[1..] == Encodings(events[1..]);
    }
  }

  /**
   * Every server event is one line of the body: splitting the body on `\n` and
   * dropping blank pieces gives back exactly the encodings, in order.
   */
  lemma WireLines(events: seq<Event>)
    ensures Lines(Wire(events)) == Encodings(events)
  {
    var lines := Encodings(events);
    forall k | 0 <= k < |lines|
      ensures '\n' !in lines[k] && !IsBlank(lines[k])
    {
      assert !IsJsWhitespace(lines[k][0]);
    }
    WireIsJoined(events);
    LinesOfJoined(lines);
  }

  lemma {:induction false} ConsumeEncodings(st: Ui, events: seq<Event>, env: Env)
    requires ParsesDumps(env)
    ensures ConsumeLines(st, Encodings(events), env) == ConsumeEvents(st, events, env)
    decreases |events|
  {
    if events != [] {
      var init := events[..|events| - 1];
      assert Encodings(events)[..|events| - 1] == Encodings(init);
      ConsumeEncodings(st, init, env);
    }
  }

  /** The events of several reads, each holding whole lines, in order. */
  function Flatten(groups: seq<seq<Event>>): seq<Event>
    decreases |groups|
  {
    if groups == [] then [] else Flatten(groups[..|groups| - 1]) + groups[|groups| - 1]
  }

  /** The body chunks when each read returns the lines of one group of events. */
  function Reads(groups: seq<seq<Event>>): (chunks: seq<string>)
    ensures |chunks| == |groups|
    ensures forall i :: 0 <= i < |groups| ==> chunks[i] == Wire(groups[i])
  {
    seq(|groups|, i requires 0 <= i < |groups| => Wire(groups[i]))
  }

  /**
   * When every read ends on a line boundary, the client handles exactly the events
   * the server sent, in order, however the body is cut into reads.
   */
  lemma {:induction false} ReadsOnLineBoundaries(st: Ui, groups: seq<seq<Event>>, env: Env)
    requires ParsesDumps(env)
    ensures ConsumeChunks(st, Reads(groups), env) == ConsumeEvents(st, Flatten(groups), env)
    decreases |groups|
  {
    if groups != [] {
      var init, last := groups[..|groups| - 1], groups[|groups| - 1];
      assert Reads(groups)[..|groups| - 1] == Reads(init);
      ReadsOnLineBoundaries(st, init, env);
      WireLines(last);
      ConsumeEncodings(ConsumeEvents(st, Flatten(init), env), last, env);
      ConsumeEventsAppend(st, Flatten(init), last, env);
    }
  }

  /** The whole body in a single read. */
  lemma OneRead(st: Ui, events: seq<Event>, env: Env)
    requires ParsesDumps(env)
    ensures ConsumeChunks(st, [Wire(events)], env) == ConsumeEvents(st, events, env)
  {
    var chunks := [Wire(events)];
    assert chunks[..0] == [];
    assert ConsumeChunks(st, chunks, env) == ConsumeLines(st, Lines(Wire(events)), env);
    WireLines(events);
    ConsumeEncodings(st, events, env);
  }

  /** The request the client sends always runs the texture stage, and rigging exactly for characters. */
  lemma RequestSelectsStages(prompt: string, tab: string)
    ensures var body := RequestBody(prompt, tab);
      TexturesOn(body.features) && (RiggingOn(body.kind, body.features) <==> tab == "character")
  {
  }

  /** Events that neither fail nor complete only move the progress bar. */
  lemma {:induction false} ConsumeQuietEvents(st: Ui, events: seq<Event>, env: Env)
    requires forall i :: 0 <= i < |events| ==>
      events[i].stage != Some("error") && events[i].stage != Some("complete")
    ensures var r := ConsumeEvents(st, events, env);
      r.asset == st.asset && r.downloads == st.downloads && r.alerts == st.alerts
      && r.warnings == st.warnings && r.generating == st.generating
    decreases |events|
  {
    if events != [] {
      ConsumeQuietEvents(st, events[..|events| - 1], env);
    }
  }

  /** The name the client asks the download route for: the exported file's own name. */
  lemma DownloadNameOfComplete(tab: string)
    requires '/' !in tab
    ensures LastSegment("outputs/output_" + tab + ".glb") == OutputFilename(tab)
    ensures OutputPath(OutputFilename(tab)) == "outputs/output_" + tab + ".glb"
  {
    assert "outputs/output_" + tab + ".glb" == "outputs" + "/" + ("output_" + tab + ".glb");
    LastSegmentOfJoin("outputs", "output_" + tab + ".glb");
  }

  /**
   * The client reading a whole stream in one read, when only its last event may
   * fail or complete: the events before it only move the progress bar.
   */
  lemma ClientReadsStream(st: Ui, events: seq<Event>, env: Env)
    requires ParsesDumps(env)
    requires |events| >= 1
    requires forall i :: 0 <= i < |events| - 1 ==>
      events[i].stage != Some("error") && events[i].stage != Some("complete")
    ensures var mid := ConsumeEvents(Started(st), events[..|events| - 1], env);
      Generate(st, Replied(true, [Wire(events)], Finished), env)
        == Reset(StepEvent(mid, Some(events[|events| - 1]), env))
      && mid.asset == st.asset && mid.downloads == st.downloads && mid.alerts == st.alerts
      && mid.warnings == st.warnings
  {
    var s0 := Started(st);
    GenerateReadsAll(st, [Wire(events)], env);
    OneRead(s0, events, env);
    LastEvent(s0, events, env);
    QuietPrefix(s0, events, env);
  }

  /** A response that is read to its end: the reducer over all its chunks, then the `finally`. */
  lemma GenerateReadsAll(st: Ui, chunks: seq<string>, env: Env)
    ensures Generate(st, Replied(true, chunks, Finished), env) == Reset(ConsumeChunks(Started(st), chunks, env))
  {
  }

  lemma QuietPrefix(st: Ui, events: seq<Event>, env: Env)
    requires |events| >= 1
    requires forall i :: 0 <= i < |events| - 1 ==>
      events[i].stage != Some("error") && events[i].stage != Some("complete")
    ensures var mid := ConsumeEvents(st, events[..|events| - 1], env);
      mid.asset == st.asset && mid.downloads == st.downloads && mid.alerts == st.alerts
      && mid.warnings == st.warnings
  {
    var init := events[..|events| - 1];
    assert forall i :: 0 <= i < |init| ==> init[i] == events[i];
    ConsumeQuietEvents(st, init, env);
  }

  lemma LastEvent(st: Ui, events: seq<Event>, env: Env)
    requires |events| >= 1
    ensures ConsumeEvents(st, events, env)
      == StepEvent(ConsumeEvents(st, events[..|events| - 1], env), Some(events[|events| - 1]), env)
  {
  }

  /** The last event is `complete` with a file: the client downloads it and publishes the asset. */
  lemma CompleteEventFinishes(st: Ui, mid: Ui, file: string, env: Env)
    requires file != ""
    requires mid.downloads == st.downloads && mid.alerts == st.alerts && mid.asset == st.asset
    ensures var r := Reset(StepEvent(mid, Some(CompleteEvent(file)), env));
      var url := DownloadBase + LastSegment(file);
      r.downloads == st.downloads + [url]
      && r.alerts == st.alerts
      && (env.fetchOk(url) ==>
        r.asset == Some(Asset(env.tab, if env.prompt == "" then "Generated " + env.tab else env.prompt,
                              ObjectUrl(url, |st.downloads|), env.now(|st.downloads|))))
      && (!env.fetchOk(url) ==> r.asset == st.asset)
      && !r.generating && r.progress == 0 && r.message == ""
  {
    CompleteLineDownloads(mid, CompleteEvent(file), env);
  }

  /** A stream that ends in `complete` with a file: the client downloads it and publishes the asset. */
  lemma ClientCompletes(st: Ui, events: seq<Event>, file: string, env: Env)
    requires ParsesDumps(env)
    requires |events| >= 1 && events[|events| - 1] == CompleteEvent(file) && file != ""
    requires forall i :: 0 <= i < |events| - 1 ==>
      events[i].stage != Some("error") && events[i].stage != Some("complete")
    ensures var r := Generate(st, Replied(true, [Wire(events)], Finished), env);
      var url := DownloadBase + LastSegment(file);
      r.downloads == st.downloads + [url]
      && r.alerts == st.alerts
      && (env.fetchOk(url) ==>
        r.asset == Some(Asset(env.tab, if env.prompt == "" then "Generated " + env.tab else env.prompt,
                              ObjectUrl(url, |st.downloads|), env.now(|st.downloads|))))
      && (!env.fetchOk(url) ==> r.asset == st.asset)
      && !r.generating && r.progress == 0 && r.message == ""
  {
    ClientReadsStream(st, events, env);
    var mid := ConsumeEvents(Started(st), events[..|events| - 1], env);
    CompleteEventFinishes(st, mid, file, env);
  }

  /**
   * A successful generation end to end: the client fetches `output_<tab>.glb` from the
   * download route exactly once, publishes the asset from it when the download
   * resolves, never alerts, and the `finally` resets the progress bar.
   */
  lemma GenerateSucceeds(st: Ui, prompt: string, tab: string, env: Env)
    requires '/' !in tab && env.tab == tab && env.prompt == prompt
    requires ParsesDumps(env)
    ensures var body := RequestBody(prompt, tab);
      var events := StreamProgress(body.kind, body.features, Completes);
      var r := Generate(st, Replied(true, [Wire(events)], Finished), env);
      var url := DownloadBase + OutputFilename(tab);
      r.downloads == st.downloads + [url]
      && r.alerts == st.alerts
      && (env.fetchOk(url) ==>
        r.asset == Some(Asset(tab, if prompt == "" then "Generated " + tab else prompt,
                              ObjectUrl(url, |st.downloads|), env.now(|st.downloads|))))
      && (!env.fetchOk(url) ==> r.asset == st.asset)
      && !r.generating && r.progress == 0 && r.message == ""
  {
    var body := RequestBody(prompt, tab);
    var events := StreamProgress(body.kind, body.features, Completes);
    SuccessEndsWithFile(body.kind, body.features);
    DownloadNameOfComplete(tab);
    ClientCompletes(st, events, "outputs/output_" + tab + ".glb", env);
  }

  /**
   * The file a successful stream reports is the one the download route serves
   * under the name the client asks for (its last `/`-segment).
   */
  lemma ReportedFileIsServed(kind: string, features: map<string, bool>)
    requires '/' !in kind
    ensures var events := StreamProgress(kind, features, Completes);
      |events| >= 1 && events[|events| - 1].file.Some?
      && var file := events[|events| - 1].file.value;
      LastSegment(file) == OutputFilename(kind)
      && DownloadModel(LastSegment(file), {file}) == Served(file, "model/gltf-binary", OutputFilename(kind))
  {
    SuccessEndsWithFile(kind, features);
    DownloadNameOfComplete(kind);
  }

  /** The last event is the server's `error` event: the client only logs a warning. */
  lemma ErrorEventIsSwallowed(st: Ui, mid: Ui, m: string, env: Env)
    requires mid.downloads == st.downloads && mid.alerts == st.alerts && mid.asset == st.asset
    requires mid.warnings == st.warnings
    ensures var r := Reset(StepEvent(mid, Some(StageErrorEvent(m)), env));
      r.alerts == st.alerts && r.downloads == st.downloads && r.asset == st.asset
      && r.warnings == st.warnings + 1 && !r.generating
  {
  }

  /** A stream whose last event is `error`: the client neither alerts nor downloads. */
  lemma ClientFails(st: Ui, events: seq<Event>, m: string, env: Env)
    requires ParsesDumps(env)
    requires |events| >= 1 && events[|events| - 1] == StageErrorEvent(m)
    requires forall i :: 0 <= i < |events| - 1 ==>
      events[i].stage != Some("error") && events[i].stage != Some("complete")
    ensures var r := Generate(st, Replied(true, [Wire(events)], Finished), env);
      r.alerts == st.alerts && r.downloads == st.downloads && r.asset == st.asset
      && r.warnings == st.warnings + 1 && !r.generating
  {
    ClientReadsStream(st, events, env);
    var mid := ConsumeEvents(Started(st), events[..|events| - 1], env);
    ErrorEventIsSwallowed(st, mid, m, env);
  }

  /**
   * A failed generation end to end: the server's one `error` event is swallowed by
   * the client's per-line `catch`, so the user gets no alert, no download happens
   * and the previous asset stays; only a warning is logged.
   */
  lemma GenerateFailsSilently(st: Ui, prompt: string, tab: string, s: Step, m: string, env: Env)
    requires env.tab == tab && env.prompt == prompt
    requires ParsesDumps(env)
    ensures var body := RequestBody(prompt, tab);
      var events := StreamProgress(body.kind, body.features, Raises(s, m));
      var r := Generate(st, Replied(true, [Wire(events)], Finished), env);
      Calls(GenerateProgram(body.kind, body.features), s) ==>
        r.alerts == st.alerts && r.downloads == st.downloads && r.asset == st.asset
        && r.warnings == st.warnings + 1 && !r.generating
  {
    var body := RequestBody(prompt, tab);
    var events := StreamProgress(body.kind, body.features, Raises(s, m));
    FailureEndsWithOneError(body.kind, body.features, s, m);
    if Calls(GenerateProgram(body.kind, body.features), s) {
      assert events[|events| - 1] == StageErrorEvent(m);
      ClientFails(st, events, m, env);
    }
  }
}
