# AetherForge core, modelled in Dafny

AetherForge is a game-asset studio. It has a React front end and a FastAPI
back end. This project models the parts of it that carry deterministic
logic:

- **The generation stream, at both ends.**
  - The back end's `/api/generate` endpoint streams newline-delimited JSON
    progress events while it runs an opaque pipeline: multiview,
    reconstruction, cleanup, optional textures, optional rigging, export.
  - The batch endpoint streams three events and a list of variation files.
  - The download endpoint serves `outputs/<filename>`.
  - The front end's `handleGenerate` reads the stream chunk by chunk. It
    splits each chunk into lines, parses each line, tracks progress,
    downloads the finished model and publishes it. Its `finally` block
    resets the progress state on every path.
  - `GenerationProtocol` joins the two ends. It proves what the client ends
    up with for every event sequence the server can emit.
  - `EventDecoding` reads the server's JSON lines back into events. It shows
    that the encoding is injective, so a parser like the one the client
    assumes exists.
- **The pixel sprite editor.**
  - The canvas: a `width × height` raster of RGB cells, with pencil, eraser,
    picker and fill tools, and the `#rrggbb` picker colour.
  - The frame timeline: add, duplicate, delete, duration, playback tick,
    prev and next.
  - The studio that writes canvas updates back into the current frame.
  - The exporter's preview layout and format table.
  - The back end's sprite-sheet placement and animation frame counts.
- **Deterministic back-end builders.**
  - NPC dialog selection and conversation trees.
  - The humanoid skeleton's bone names and parent hierarchy.
  - Batch variations, LOD chains, collision meshes, asset packs and the
    platform budget table.
- **The NPC profile form.** Its trait toggles and single-field edits.

State that the source updates in place is modelled as a Dafny `class` with
`modifies` clauses. Each of its methods is specified by a pure function of
the old state, and the lemmas are stated about those functions:

- `GenerationClient.App` (the React state of `App`);
- `SpriteCanvas.Canvas` (over an `array<Rgb>` raster);
- `SpriteTimeline.Timeline` and `AetherSprite.Studio`;
- the `array3` sheet of `SpritesheetCreator.CreateSpritesheet`.

Pure code is modelled as datatypes, functions and lemmas. Loops in the
source are methods with loops:

- the chunk and line loops of `handleGenerate`;
- the frame loop of `create_spritesheet`;
- the bone appends of `generate_humanoid_skeleton`;
- the loops of the batch, LOD and asset-pack builders;
- the branch loop of `generate_conversation_tree`.

Each of these loop methods is proved against a function or a specification
predicate.

Outside effects are parameters of the model:

- `JSON.parse`, `fetch`, `Date.now`/`toISOString` (in `GenerationClient.Env`);
- mesh decimation and shape builders (`GamedevFeatures.Decimator`, `Shapes`);
- `random.choice` (a `pick` index);
- the stick-figure drawing (`draw`).

An ML pipeline stage that raises is modelled as an `Outcome` saying which
stage raised, with what message.

The model follows the code wherever the code and its comments or UI text
disagree:

- An `error` event does not stop the client: the per-line `catch` swallows
  it.
- A JSON line split across two reads is lost.
- The comment at `SpriteCanvas.jsx:31` says white, but the canvas starts
  black.
- `updateFrameDuration` is not wired to any control.
- `generate_animation_frames('run')` yields no frames.

## Model

| member | source | states |
|---|---|---|
| GenerationServer.Encode | backend/server.py:85-149 | every event is one JSON object, `{` … `}`, with no newline inside it |
| EventDecoding.ReadJsonString | backend/server.py:85 | a string written as `json.dumps` writes it (short escapes, printable ASCII, `\uXXXX`, surrogate pairs) reads back as the same string, leaving the text after it |
| EventDecoding.ReadIntOf | backend/server.py:85 | a decimal integer, negative ones included, reads back as its value when a delimiter follows |
| EventDecoding.ReadListOf | backend/server.py:186-190 | a `json.dumps` list of strings reads back as the same list |
| EventDecoding.DecodeEncode | backend/server.py:85-149 | decoding an event's encoding gives back that event |
| EventDecoding.EncodeInjective | backend/server.py:85-149 | two events with the same encoding are equal |
| GenerationServer.Wire | backend/server.py:85-149 | the stream body is each event's encoding followed by `"\n"`; it is empty iff no event was emitted |
| GenerationServer.RunCompletes | backend/server.py:84-146 | when no stage raises, the generator emits exactly the events of its program, in order |
| GenerationServer.RunRaises | backend/server.py:84-149 | when stage `s` raises, the events emitted before the call to `s` stay in the output and are followed by exactly one error event; a stage the program never calls changes nothing |
| GenerationServer.FailurePrefix | backend/server.py:84-149 | a failed run is a prefix of the successful run followed by the error event, and it is shorter by exactly the events that follow the failing call |
| GenerationServer.PartsEmit | backend/server.py:85-146 | the fixed prefix emits multiview, reconstruction and cleanup (start and done each) and awaits those three stages; textures emit two events iff `pbr_textures` is on (default true); rigging emits one iff the type is `character` and `auto_rigging` is on; export emits the export event, then `complete` with `outputs/output_<type>.glb` |
| GenerationServer.ExportPartEmits | backend/server.py:136-146 | the export part awaits only the GLB export and emits `export`, then `complete` carrying the exported path |
| GenerationServer.SuccessEventsAre | backend/server.py:85-146 | the whole successful event list, with the textures pair and the rigging event present exactly under their conditions |
| GenerationServer.SuccessStageOrder | backend/server.py:85-146 | the stage names on success: multiview ×2, reconstruction ×2, cleanup ×2, [textures ×2], [rigging], export, complete |
| GenerationServer.SuccessProgressMonotone | backend/server.py:85-146 | on success every event has a progress; it starts at 0, ends at 100 and never decreases |
| GenerationServer.SuccessEndsWithFile | backend/server.py:136-146 | the last success event is `complete` with file `outputs/output_<type>.glb`, and no earlier event is `complete` or `error` |
| GenerationServer.GenerateAwaits | backend/server.py:87-144 | the awaited stages are multiview, reconstruction, cleanup and export, plus textures and rigging exactly when their conditions hold |
| GenerationServer.GenerateEmitsAfterEveryCall | backend/server.py:87-146 | every awaited stage is followed by at least one emitted event, so a raising stage always loses at least the `complete` event |
| GenerationServer.FailureEndsWithOneError | backend/server.py:84-149 | a stage that raises yields a strict prefix of the success events followed by one `{stage: error, message}` event, and the prefix holds no `complete` or `error`; a stage that is never called leaves the success list |
| GenerationServer.VariationFiles | backend/server.py:177-184 | the batch's file list has one entry per variation, the `i`-th being `outputs/variation_<i:02d>.glb` |
| GenerationServer.BatchFiles | backend/server.py:177-184 | the export loop appends the path of each variation in order, one per variation generated (none for a count ≤ 0) |
| GenerationServer.VariationFilesDistinct | backend/server.py:182 | no two variations are exported to the same file |
| GenerationServer.BatchProgramEmits | backend/server.py:158-190 | the batch program emits progress 0, 50 and 100, and calls the three base stages, the variation generator and one export per variation |
| GenerationServer.BatchCompletes | backend/server.py:158-190 | a successful batch emits exactly three events with progress 0, 50 and 100, and the last carries the variation file list |
| GenerationServer.BatchFails | backend/server.py:158-193 | a failing batch stream ends with one event keyed `error` and no `stage`, after the events already sent, so it holds at most three events |
| GenerationServer.DownloadModel | backend/server.py:276-281 | the file is served iff `outputs/<filename>` exists, as `model/gltf-binary` under its own name; otherwise the reply is 404 `File not found` |
| GenerationClient.RequestBody | src/App.jsx:39-48 | the prompt, or `A high-quality <tab>` when it is empty; the type is the tab; `auto_rigging` is true iff the tab is `character`; the three other features are true |
| GenerationClient.DownloadUrl | src/App.jsx:80 | the download URL is the endpoint followed by the last `/`-segment of the file, so it holds no further `/` |
| GenerationClient.Lines | src/App.jsx:62-63 | the lines of a chunk hold no newline and are not blank |
| GenerationClient.ConsumeLinesAppend | src/App.jsx:65-94 | processing lines in order: two runs in a row equal one run over the concatenation |
| GenerationClient.LastProgressWins | src/App.jsx:73-76 | the progress and message shown are those of the last line that sets progress, with no monotonicity check; if no line sets it, they are unchanged |
| GenerationClient.ErrorLineContinues | src/App.jsx:69-70 | an `error` line only adds a console warning, and processing continues with the next line (see also src/App.jsx:91-93) |
| GenerationClient.CompleteLineDownloads | src/App.jsx:78-89 | a `complete` line with a file requests one download of its last segment; when the fetch succeeds, it publishes the tab, the prompt (or `Generated <tab>`), a fresh object URL and the timestamp; when the fetch fails, it only warns |
| GenerationClient.OtherLinesPublishNothing | src/App.jsx:65-94 | any line that is not a successful `complete` neither downloads nor publishes |
| GenerationClient.ConsumeKeepsAlerts | src/App.jsx:65-94 | nothing in the line loop raises an alert |
| GenerationClient.ConsumeChunksKeepsAlerts | src/App.jsx:58-95 | nothing in the chunk loop raises an alert |
| GenerationClient.GenerateOutcome | src/App.jsx:30-104 | on every path the end state has `generating` false, progress 0 and message empty; a rejected request or a non-ok status alerts once and publishes nothing; an ok reply alerts only when the stream itself breaks |
| GenerationClient.SplitLineIsLost | src/App.jsx:62-67 | a line split across two reads becomes two unparsable fragments: two warnings, and the rest is processed as if the line were absent (see also src/App.jsx:91-93) |
| GenerationClient.ExportFilenameInjective | src/App.jsx:112 | `aetherforge_<tab>_<ms>.glb` determines both the tab and the time |
| GenerationClient.App.HandleLines | src/App.jsx:65-94 | the per-line loop leaves the state the fold over the lines computes |
| GenerationClient.App.HandleChunks | src/App.jsx:58-95 | the read loop leaves the state the fold over the chunks computes |
| GenerationClient.App.HandleGenerate | src/App.jsx:30-104 | the handler leaves the state `Generate` computes for the response, and it ends with `generating` false, progress 0 and message empty |
| GenerationClient.App.HandleExport | src/App.jsx:106-113 | no file without a generated model; otherwise `aetherforge_<active tab>_<ms>.glb` |
| GenerationProtocol.DecodeParsesDumps | src/App.jsx:67 | a parser exists that inverts the server's encoding, so the `ParsesDumps` assumption of the end-to-end lemmas can be met |
| GenerationProtocol.WireLines | backend/server.py:85-149 | splitting the server's stream body into non-blank lines gives back each event's encoding, in order (see also src/App.jsx:62-63) |
| GenerationProtocol.ConsumeEncodings | src/App.jsx:65-94 | when `JSON.parse` inverts `json.dumps`, the client's line loop over the encodings handles exactly the emitted events (see also backend/server.py:85-149) |
| GenerationProtocol.OneRead | src/App.jsx:58-95 | a stream delivered in one read is handled event by event (see also backend/server.py:85-149) |
| GenerationProtocol.ClientReadsStream | src/App.jsx:30-104 | for a stream whose earlier events are neither `complete` nor `error`, only the last event can publish, download, alert or warn (see also backend/server.py:85-149) |
| GenerationProtocol.ClientCompletes | src/App.jsx:78-89 | a stream ending in `complete` downloads the file's last segment once, publishes the model when the fetch succeeds, raises no alert and resets the progress (see also backend/server.py:146) |
| GenerationProtocol.GenerateSucceeds | src/App.jsx:30-104 | for the request the client sends, a successful server run makes the client download `output_<tab>.glb` and publish it under the tab and prompt (see also backend/server.py:83-146) |
| GenerationProtocol.ReportedFileIsServed | backend/server.py:146 | the `complete` event's file, stripped to its last segment, is served by the download endpoint as that same file (see also backend/server.py:276-281, backend/pipeline/export.py:24-26) |
| GenerationProtocol.DownloadNameOfComplete | src/App.jsx:80 | stripping and re-joining under `outputs/` round-trip the exported path (see also backend/server.py:278) |
| GenerationProtocol.RequestSelectsStages | src/App.jsx:42-47 | the client's request always turns textures on, and turns rigging on exactly for the `character` tab (see also backend/server.py:114, backend/server.py:128) |
| GenerationProtocol.ClientFails | src/App.jsx:69-70 | a stream ending in an error event is swallowed: one warning, no alert, no download, no published model (see also backend/server.py:148-149) |
| GenerationProtocol.GenerateFailsSilently | src/App.jsx:65-93 | whichever called stage raises, the user gets no alert, only a console warning, and nothing is published (see also backend/server.py:84-149) |
| Text.SplitJoin | src/App.jsx:62 | `split` of a join of separator-free pieces returns those pieces |
| Text.JoinSplit | src/App.jsx:62 | joining the pieces of `split` gives back the text |
| Text.LastSegmentOfJoin | src/App.jsx:80 | `split('/').pop()` of `dir/name` is `name` |
| Text.Pad2Injective | backend/server.py:182 | `{i:02d}` names distinct numbers distinctly |
| SpriteCanvas.CellAt | src/components/modules/AetherSprite/SpriteCanvas.jsx:67-68 | the cell of a pointer offset is `floor(offset / zoom)`: the offset lies inside that cell's span |
| SpriteCanvas.PickedColorParses | src/components/modules/AetherSprite/SpriteCanvas.jsx:94 | the picker's `#` + `((1<<24)+(r<<16)+(g<<8)+b).toString(16).slice(1)` decodes back to the same r, g, b |
| SpriteCanvas.PickedColorDigits | src/components/modules/AetherSprite/SpriteCanvas.jsx:94 | the picked colour is `#` followed by two lowercase hex digits each for r, g and b |
| SpriteCanvas.PickedColorOfParsed | src/components/modules/AetherSprite/SpriteCanvas.jsx:94 | every lowercase `#rrggbb` is the picked colour of the channels it denotes |
| SpriteCanvas.ToHexLeadingOne | src/components/modules/AetherSprite/SpriteCanvas.jsx:94 | adding `1 << 24` makes `toString(16)` a `1` followed by exactly six digits, which `slice(1)` drops |
| SpriteCanvas.StepKeepsWf | src/components/modules/AetherSprite/SpriteCanvas.jsx:72-117 | every input keeps the raster at `width × height` cells and the colour a valid hex colour |
| SpriteCanvas.RunKeepsWf | src/components/modules/AetherSprite/SpriteCanvas.jsx:72-117 | any sequence of inputs keeps the editor well formed |
| SpriteCanvas.MountedInitialIsBlack | src/components/modules/AetherSprite/SpriteCanvas.jsx:25-35 | once mounted, the raster is all `#000000` and nothing has been reported |
| SpriteCanvas.PaintedChangesOneCell | src/components/modules/AetherSprite/SpriteCanvas.jsx:72-81 | `drawPixel` does nothing without a context or out of bounds; otherwise it changes exactly cell `(x, y)` to the colour and reports the new raster once |
| SpriteCanvas.PressedByTool | src/components/modules/AetherSprite/SpriteCanvas.jsx:83-96 | mouse-down always starts drawing; pencil paints the colour, eraser paints `#000000`, fill does nothing, and picker leaves the raster alone and takes the colour of the cell (unchanged without a context) |
| SpriteCanvas.PencilThenPicker | src/components/modules/AetherSprite/SpriteCanvas.jsx:83-96 | picking a cell just painted with a lowercase colour gives back that colour |
| SpriteCanvas.EraserThenPicker | src/components/modules/AetherSprite/SpriteCanvas.jsx:89-94 | picking an erased cell gives `#000000` |
| SpriteCanvas.MovesWithoutPress | src/components/modules/AetherSprite/SpriteCanvas.jsx:98-99 | mouse moves without a press change nothing |
| SpriteCanvas.ClearedIsBlackAndUnreported | src/components/modules/AetherSprite/SpriteCanvas.jsx:113-117 | clearing blacks out every cell and, unlike `drawPixel`, reports nothing |
| SpriteCanvas.ZoomChangeErases | src/components/modules/AetherSprite/SpriteCanvas.jsx:177 | a new zoom resizes the canvas element, which clears the bitmap to transparent black, without a report (see also src/components/modules/AetherSprite/SpriteCanvas.jsx:206-207) |
| SpriteCanvas.Canvas.constructor | src/components/modules/AetherSprite/SpriteCanvas.jsx:4-11 | pencil, `#10b981`, zoom 8, not drawing, grid shown, no context yet |
| SpriteCanvas.Canvas.AttachContext | src/components/modules/AetherSprite/SpriteCanvas.jsx:25-35 | the context is attached and the raster filled black |
| SpriteCanvas.Canvas.DrawPixel | src/components/modules/AetherSprite/SpriteCanvas.jsx:72-81 | the new state is `Painted` of the old one |
| SpriteCanvas.Canvas.HandleMouseDown | src/components/modules/AetherSprite/SpriteCanvas.jsx:83-96 | the new state is `Pressed` of the old one |
| SpriteCanvas.Canvas.HandleMouseMove | src/components/modules/AetherSprite/SpriteCanvas.jsx:98-107 | the new state is `Moved` of the old one |
| SpriteCanvas.Canvas.HandleMouseUp | src/components/modules/AetherSprite/SpriteCanvas.jsx:109-111 | mouse-up and mouse-leave stop drawing and change nothing else (see also src/components/modules/AetherSprite/SpriteCanvas.jsx:208-211) |
| SpriteCanvas.Canvas.ClearCanvas | src/components/modules/AetherSprite/SpriteCanvas.jsx:113-117 | the new state is `Cleared` of the old one |
| SpriteCanvas.Canvas.SetZoom | src/components/modules/AetherSprite/SpriteCanvas.jsx:177 | the new state is `Zoomed` of the old one |
| SpriteCanvas.Canvas.SetTool | src/components/modules/AetherSprite/SpriteCanvas.jsx:130 | only the tool changes |
| SpriteCanvas.Canvas.SetColor | src/components/modules/AetherSprite/SpriteCanvas.jsx:150 | only the colour changes (see also src/components/modules/AetherSprite/SpriteCanvas.jsx:160) |
| SpriteCanvas.Canvas.ToggleGrid | src/components/modules/AetherSprite/SpriteCanvas.jsx:184 | only the grid flag flips |
| SpriteTimeline.AddedFrames | src/components/modules/AetherSprite/SpriteTimeline.jsx:27-36 | one frame `{id now, duration 100, data null}` is appended; the others are unchanged; the total duration grows by 100 |
| SpriteTimeline.DuplicatedFrames | src/components/modules/AetherSprite/SpriteTimeline.jsx:38-47 | a copy of frame `i` with a fresh id is inserted at `i+1`; the frames before and after keep their order; the total grows by that frame's duration |
| SpriteTimeline.DeletedFrames | src/components/modules/AetherSprite/SpriteTimeline.jsx:51 | exactly index `i` is removed, and the frames after it shift down by one |
| SpriteTimeline.DeleteFrameCursor | src/components/modules/AetherSprite/SpriteTimeline.jsx:49-57 | deleting is a no-op iff one frame is left; otherwise the list shrinks by one, and the cursor moves to the new last index iff it was past it, so it stays in range |
| SpriteTimeline.DeleteBeforeCursorShifts | src/components/modules/AetherSprite/SpriteTimeline.jsx:49-57 | deleting before the cursor does not move it, so it now shows the frame that followed |
| SpriteTimeline.WithDurationFrames | src/components/modules/AetherSprite/SpriteTimeline.jsx:59-65 | only frame `i`'s duration changes, with no positivity check |
| SpriteTimeline.WithDurationOutOfRange | src/components/modules/AetherSprite/SpriteTimeline.jsx:59-65 | an index outside the list changes nothing |
| SpriteTimeline.TicksAdvance | src/components/modules/AetherSprite/SpriteTimeline.jsx:20-22 | `k` playback ticks move the cursor to `(cursor + k) mod length` |
| SpriteTimeline.TicksCycle | src/components/modules/AetherSprite/SpriteTimeline.jsx:20-22 | `length` ticks bring the cursor back |
| SpriteTimeline.CursorStaysInRange | src/components/modules/AetherSprite/SpriteTimeline.jsx:21 | tick, prev and next keep the cursor in `[0, len-1]`; prev stays put only at 0 and next only at the end; each undoes the other away from the ends (see also src/components/modules/AetherSprite/SpriteTimeline.jsx:95, src/components/modules/AetherSprite/SpriteTimeline.jsx:107) |
| SpriteTimeline.InitialFrames | src/components/modules/AetherSprite/SpriteTimeline.jsx:6 | the local list is never empty: the given frames, or one default frame |
| SpriteTimeline.TotalDurationAround | src/components/modules/AetherSprite/SpriteTimeline.jsx:195 | the total duration is the sum of the durations before, at and after any index |
| SpriteTimeline.Timeline.constructor | src/components/modules/AetherSprite/SpriteTimeline.jsx:6-9 | the initial frames, not playing, 10 fps, onion skin off |
| SpriteTimeline.Timeline.SyncFromProps | src/components/modules/AetherSprite/SpriteTimeline.jsx:11-15 | the local list takes the props only when they are non-empty |
| SpriteTimeline.Timeline.AddFrame | src/components/modules/AetherSprite/SpriteTimeline.jsx:27-36 | the local list becomes `Added` and is the list reported |
| SpriteTimeline.Timeline.DuplicateFrame | src/components/modules/AetherSprite/SpriteTimeline.jsx:38-47 | the local list becomes `Duplicated` and is the list reported |
| SpriteTimeline.Timeline.DeleteFrame | src/components/modules/AetherSprite/SpriteTimeline.jsx:49-57 | the list and cursor change as `AfterDelete` says, and the list is kept when the delete is refused |
| SpriteTimeline.Timeline.UpdateFrameDuration | src/components/modules/AetherSprite/SpriteTimeline.jsx:59-65 | the local list becomes `WithDuration` and is the list reported |
| SpriteTimeline.Timeline.TogglePlaying | src/components/modules/AetherSprite/SpriteTimeline.jsx:88 | only `playing` flips |
| SpriteTimeline.Timeline.SetFps | src/components/modules/AetherSprite/SpriteTimeline.jsx:123 | only the fps changes |
| SpriteTimeline.Timeline.ToggleOnionSkin | src/components/modules/AetherSprite/SpriteTimeline.jsx:75 | only the onion-skin flag flips |
| SpriteTimeline.Timeline.PlaybackTick | src/components/modules/AetherSprite/SpriteTimeline.jsx:20-22 | while playing, a tick reports `(cursor + 1) mod length` |
| AetherSprite.WithDataWritesOneSlot | src/components/modules/AetherSprite/AetherSprite.jsx:26-33 | only the current frame's data changes; its id and duration, every other frame, the count and the total duration stay |
| AetherSprite.ApplyActionKeepsCursor | src/components/modules/AetherSprite/AetherSprite.jsx:103-104 | after any timeline callback the list is non-empty and the current frame is inside it (see also src/components/modules/AetherSprite/AetherSprite.jsx:115-116) |
| AetherSprite.Studio.constructor | src/components/modules/AetherSprite/AetherSprite.jsx:9-11 | one frame `{id 1, duration 100, data null}`, cursor 0, tab `generator` |
| AetherSprite.Studio.SelectTab | src/components/modules/AetherSprite/AetherSprite.jsx:55 | only the tab changes |
| AetherSprite.Studio.HandleSpriteGenerated | src/components/modules/AetherSprite/AetherSprite.jsx:20-24 | the tab becomes `editor` and the frames stay |
| AetherSprite.Studio.HandleFrameUpdate | src/components/modules/AetherSprite/AetherSprite.jsx:26-33 | the frames become `WithData` at the cursor; the cursor and tab stay |
| AetherSprite.Studio.OnTimeline | src/components/modules/AetherSprite/AetherSprite.jsx:103-104 | a timeline callback replaces the frames or the cursor as `ApplyAction` says |
| SpriteExporter.ExtensionTable | src/components/modules/AetherSprite/SpriteExporter.jsx:11-16 | spritesheet → `.png`, frames → `.zip`, gif → `.gif`, video → `.mp4` (see also src/components/modules/AetherSprite/SpriteExporter.jsx:197) |
| SpriteExporter.FindExt | src/components/modules/AetherSprite/SpriteExporter.jsx:197 | `find` yields an extension iff some entry has the format, and then that entry's extension |
| SpriteExporter.CeilSqrt | src/components/modules/AetherSprite/SpriteExporter.jsx:41 | `ceil(sqrt n)` as the least `c` with `c·c ≥ n` |
| SpriteExporter.CeilDiv | src/components/modules/AetherSprite/SpriteExporter.jsx:42 | `ceil(n / cols)` as the least `r` with `r·cols ≥ n` |
| SpriteExporter.PreviewLayout | src/components/modules/AetherSprite/SpriteExporter.jsx:39-68 | a preview is shown iff the format is spritesheet and there are frames; horizontal is `n × 1`, vertical `1 × n`, grid `ceil(√n)` columns; every layout holds all frames without an empty row (see also src/components/modules/AetherSprite/SpriteExporter.jsx:133) |
| SpriteExporter.GridNearSquare | src/components/modules/AetherSprite/SpriteExporter.jsx:41-42 | the grid layout has `cols − 1 ≤ rows ≤ cols` |
| SpriteExporter.ExportMatchesPreview | src/components/modules/AetherSprite/SpriteExporter.jsx:184 | the export button is enabled exactly when no export is running and the spritesheet preview exists, and then the preview's grid holds every frame |
| SpritesheetCreator.Rows | backend/pipeline/spritesheet_creator.py:33 | `(n + cols − 1) // cols` is `ceil(n / cols)` |
| SpritesheetCreator.FirstFrameFits | backend/pipeline/spritesheet_creator.py:39 | the first frame broadcasts into the sheet's channel axis exactly when it has 1, 3 or 4 channels; a one-channel frame gets a 3-channel sheet |
| SpritesheetCreator.FrameInsideSheet | backend/pipeline/spritesheet_creator.py:33-36 | frame `idx` at row `idx // cols`, column `idx % cols` lies entirely inside the sheet (see also backend/pipeline/spritesheet_creator.py:43-50) |
| SpritesheetCreator.FramesDisjoint | backend/pipeline/spritesheet_creator.py:43-50 | two distinct frames never cover the same sheet pixel |
| SpritesheetCreator.CreateSpritesheet | backend/pipeline/spritesheet_creator.py:16-52 | no frames gives `None`; `cols = 0` raises ZeroDivisionError; a frame that cannot be broadcast to the first frame's cell raises at the first such index; otherwise the sheet is `sheet_h × sheet_w × channels`, every frame sits at its offset, broadcast along its size-1 axes, and every other pixel is 0 |
| SpritesheetCreator.PlaceFrame | backend/pipeline/spritesheet_creator.py:50 | the slice assignment writes the frame, broadcast along its size-1 axes, to the `h × w` rectangle at its offset and leaves every other pixel |
| SpritesheetCreator.FrameCounts | backend/pipeline/spritesheet_creator.py:68-98 | walk 8, idle 4, jump 6, attack 5, and `run` (like any other name) 0 |
| SpritesheetCreator.GenerateAnimationFrames | backend/pipeline/spritesheet_creator.py:54-98 | one frame per step of the action, each the drawing of step `i` on a blank `h × w × 4` image |
| NpcDialog.PersonalityTable | backend/pipeline/npc_dialog_generator.py:48-58 | guard and enemy are aggressive, wizard mysterious, elder and quest_giver wise, everyone else friendly |
| NpcDialog.Templates | backend/pipeline/npc_dialog_generator.py:11-32 | every personality has greetings and farewells; only friendly has trades, mysterious quests, aggressive threats and wise advice |
| NpcDialog.Choice | backend/pipeline/npc_dialog_generator.py:73 | a random choice is one of the options |
| NpcDialog.EveryOptionReachable | backend/pipeline/npc_dialog_generator.py:73 | every option can be chosen |
| NpcDialog.OptionsExactlyWhenHandled | backend/pipeline/npc_dialog_generator.py:72-106 | a text is drawn exactly for the contexts the generator handles |
| NpcDialog.GenerateDialog | backend/pipeline/npc_dialog_generator.py:34-108 | the dialog is the one the specification draws, with its text the chosen template |
| NpcDialog.GreetingDialog | backend/pipeline/npc_dialog_generator.py:72-79 | a greeting comes from the personality's greetings, is happy iff friendly and otherwise neutral, and offers 3 choices |
| NpcDialog.FarewellDialog | backend/pipeline/npc_dialog_generator.py:81-83 | a farewell comes from the farewells, is neutral and offers no choice |
| NpcDialog.TradeDialog | backend/pipeline/npc_dialog_generator.py:62-70 | only a merchant trades (a trade line, happy, 4 choices); anyone else keeps the empty, neutral, choiceless dialog (see also backend/pipeline/npc_dialog_generator.py:85-93) |
| NpcDialog.QuestDialog | backend/pipeline/npc_dialog_generator.py:95-102 | only the mysterious personality has a quest line; others say `I need your help.`; serious with 3 choices |
| NpcDialog.CombatDialog | backend/pipeline/npc_dialog_generator.py:104-106 | only aggressive has threats; others say `Prepare yourself!`; angry with no choices |
| NpcDialog.UnhandledDialog | backend/pipeline/npc_dialog_generator.py:62-70 | an unhandled context echoes name, type, personality and context with an empty, neutral, choiceless dialog |
| NpcDialog.GenerateConversationTree | backend/pipeline/npc_dialog_generator.py:110-130 | the start is a greeting by `Stranger`; there are `num_branches` branches (none when negative), and branch `i` has index `i` and context `quest`, `trade`, `farewell` by `i mod 3` |
| NpcDialog.DefaultTreeContexts | backend/pipeline/npc_dialog_generator.py:122-128 | with three branches the contexts are quest, trade, farewell, and the farewell offers no choice |
| Rigging.NameInjective | backend/pipeline/stage5_rigging.py:57-134 | bone names are pairwise distinct |
| Rigging.JointAt | backend/pipeline/stage5_rigging.py:56-134 | the `k`-th bone appended has the parent of the intended hierarchy; only the first is parentless, and each other parent was appended earlier |
| Rigging.HumanoidShape | backend/pipeline/stage5_rigging.py:56-134 | the skeleton has 19 bones with distinct names, the root first and each parent before its child |
| Rigging.HumanoidParents | backend/pipeline/stage5_rigging.py:63-134 | a part is in the skeleton iff it is the root, one of three spine bones, the head or a limb bone; its parent is spine chain → root, head and shoulders → spine_2, arm chain from the shoulder, leg chain from the root |
| Rigging.HumanoidParentNames | backend/pipeline/stage5_rigging.py:63-134 | looked up by name, each bone's `parent` entry is the name of its parent in that hierarchy |
| Rigging.NamedLookup | backend/pipeline/stage5_rigging.py:57-134 | looking a bone up by name finds the parent's name of the part with that name |
| Rigging.SlicePrefix | backend/pipeline/stage5_rigging.py:137 | `bones[:limit]` is a prefix, with Python's length rule for negative limits |
| Rigging.PrefixKeepsShape | backend/pipeline/stage5_rigging.py:137 | truncating keeps the names distinct, the root first and parents before children |
| Rigging.GenerateHumanoidSkeleton | backend/pipeline/stage5_rigging.py:40-139 | an empty mesh raises; otherwise the bones are the first `bone_limit` of the 19-bone skeleton and the root is `root` |
| Rigging.AutoRigCharacter | backend/pipeline/stage5_rigging.py:8-38 | the rig's skeleton is that of `generate_humanoid_skeleton`, with a default limit of 30 |
| Rigging.DefaultLimitKeepsAll | backend/pipeline/stage5_rigging.py:8 | the default limit keeps all 19 bones |
| Rigging.RigIsWellFormed | backend/pipeline/stage5_rigging.py:136-139 | for every limit the returned bones have distinct names, the root first and parents earlier |
| GamedevFeatures.GenerateBatchVariations | backend/pipeline/gamedev_features.py:10-66 | `count` entries (none when negative), entry `i` with id `i`, the requested type and the change its type prescribes |
| GamedevFeatures.SizeScales | backend/pipeline/gamedev_features.py:29-33 | size variations scale by strictly increasing factors in `[0.8, 1.2)` |
| GamedevFeatures.DetailDecimatesFirstHalf | backend/pipeline/gamedev_features.py:35-42 | a detail variation is decimated iff the mesh has faces and `2i < count`, to a target in `[F/2, F)`; otherwise it is subdivided |
| GamedevFeatures.RotationsStepThroughATurn | backend/pipeline/gamedev_features.py:44-49 | rotation variations turn by strictly increasing fractions of a turn in `[0, 1)` |
| GamedevFeatures.LodNameInjective | backend/pipeline/gamedev_features.py:84 | `LOD<i>` names distinct levels distinctly |
| GamedevFeatures.GenerateLodChain | backend/pipeline/gamedev_features.py:68-103 | a face-less mesh with any level raises ZeroDivisionError; otherwise there is one entry `LOD<i>` per level, each the level's entry |
| GamedevFeatures.LodLevel | backend/pipeline/gamedev_features.py:86-99 | a target at or above the face count keeps the mesh with 0% reduction; a decimator that meets its target gives at most that many faces and a reduction in `[0, 100]` |
| GamedevFeatures.CollisionWithinBudget | backend/pipeline/gamedev_features.py:105-148 | a box or hull already within budget is returned as built; with a decimator that meets its target, the collision mesh never exceeds `max_triangles` |
| GamedevFeatures.GenerateAssetPack | backend/pipeline/gamedev_features.py:150-198 | the theme is echoed; there is one list per distinct type, and a repeated type's list is rebuilt, not extended |
| GamedevFeatures.AssetNames | backend/pipeline/gamedev_features.py:187-191 | names within a type are distinct, and each is `<theme>_<type>_` followed by digits whose value is the id |
| GamedevFeatures.PlatformTable | backend/pipeline/gamedev_features.py:216-238 | mobile (2000, 1024, 1), vr (5000, 2048, 2), web (3000, 1024, 1), anything else pc (10000, 4096, 4) |
| GamedevFeatures.Optimization | backend/pipeline/gamedev_features.py:200-254 | the platform and its budget are echoed; the mesh is decimated only above the face budget; with a decimator that meets its target, the result fits; the estimate reads `<fps> FPS` |
| CharacterProfiler.Without | src/components/modules/AetherDialog/CharacterProfiler.jsx:38 | the filter removes every copy of the trait and keeps every other trait's count |
| CharacterProfiler.WithoutAppend | src/components/modules/AetherDialog/CharacterProfiler.jsx:38 | filtering keeps the surviving traits in order |
| CharacterProfiler.ToggleFlips | src/components/modules/AetherDialog/CharacterProfiler.jsx:34-41 | a toggle flips membership, appends an absent trait at the end, keeps the other traits in order and count, and leaves name, role, background and tone alone |
| CharacterProfiler.ToggleKeepsDistinct | src/components/modules/AetherDialog/CharacterProfiler.jsx:37-39 | a duplicate-free trait list stays duplicate-free |
| CharacterProfiler.ToggleTwiceRestores | src/components/modules/AetherDialog/CharacterProfiler.jsx:37-39 | toggling an absent trait twice restores the profile |
| CharacterProfiler.TogglesFromStartStayDistinct | src/components/modules/AetherDialog/CharacterProfiler.jsx:5-11 | every trait list reached from the initial profile has no repeats (see also src/components/modules/AetherDialog/CharacterProfiler.jsx:34-41) |
| CharacterProfiler.SetName | src/components/modules/AetherDialog/CharacterProfiler.jsx:55 | the name input replaces only the name |
| CharacterProfiler.SetRole | src/components/modules/AetherDialog/CharacterProfiler.jsx:70 | a role button replaces only the role |
| CharacterProfiler.SetBackground | src/components/modules/AetherDialog/CharacterProfiler.jsx:112 | the background input replaces only the background |
| CharacterProfiler.SetTone | src/components/modules/AetherDialog/CharacterProfiler.jsx:127 | a tone button replaces only the tone |
| CharacterProfiler.LabelOf | src/components/modules/AetherDialog/CharacterProfiler.jsx:147 | `find(...)?.name` yields a label iff some entry has the id, and then that entry's label (see also src/components/modules/AetherDialog/CharacterProfiler.jsx:149) |
| CharacterProfiler.SummaryLabels | src/components/modules/AetherDialog/CharacterProfiler.jsx:13-32 | the summary is shown iff a name is typed, and the role and tone lines show the label beside the selected id (see also src/components/modules/AetherDialog/CharacterProfiler.jsx:140-152) |

## Left out

- The ML and geometry stages are opaque. This covers multiview diffusion,
  reconstruction, cleanup, PBR textures, skinning weights,
  `save_skeleton` and the GLB writer. A stage is modelled only as a call
  that either returns or raises with a message.
- Bone positions are floating-point values computed from the mesh's
  bounds. They are not modelled; only names, parents, order and
  truncation are.
- Mesh geometry is abstract. A mesh is a vertex list plus a face list.
  The following are recorded as a `Change` value, not computed:
  - `simplify_quadric_decimation`, passed in as a `Decimator` parameter,
    which the lemmas assume meets its target only where they say so;
  - `subdivide`, `apply_scale`, `apply_transform` and the Gaussian vertex
    noise;
  - convex hull, bounding box and bounding sphere, passed in as `Shapes`.
- GamedevFeatures.DetailDecimatesFirstHalf: the detail target and the
  size, rotation and LOD-reduction figures are computed with exact
  rationals and integer division. Python's binary floating point can
  differ from them by rounding. The `np.pi * 2` angle is a fraction of a
  turn.
- GamedevFeatures.GenerateLodChain: the LOD dictionary is a Dafny `map`.
  It does not keep Python's insertion order of keys.
- GamedevFeatures.GenerateAssetPack: the same applies to the asset-pack
  dictionary.
- Random choices are a `pick` argument (`random.choice`) or a recorded
  change (`np.random.normal`).
- Console output is not modelled. This covers `print`,
  `console.log`/`warn`/`error` and the export `alert` in
  `SpriteExporter.handleExport`. The client's warnings are counted, not
  their text.
- Transport and time are not modelled:
  - `fetch` of the generate request is a `Response` value: rejected, non-ok,
    or ok with its chunks and how the stream ended;
  - `TextDecoder` is modelled as whole-character chunks;
  - `URL.createObjectURL` gives a serial handle;
  - `new Date().toISOString()` and `Date.now()` are parameters;
  - the `setInterval`/`setTimeout` timing is a tick step, with no clock.
- `JSON.parse` is a parameter. The end-to-end lemmas assume it inverts the
  server's `json.dumps` encoding (`ParsesDumps`). `EventDecoding.Decode` is
  one such parser, so the assumption can be met; it reads only the JSON the
  server writes, not all of JSON.
- Canvas pixels are RGB only, with no alpha channel. The picker reads the
  channel bytes directly. These are not modelled: `drawGrid`'s strokes,
  antialiasing, `toDataURL` (a report holds the raster itself), and the
  pixel scaling by `zoom` inside the bitmap.
- The other back-end endpoints of `backend/server.py` are not part of this
  model: LOD, collision, asset pack, engine exports and the root listing.
  Their bodies only call the builders modelled here or write files.
- The profile form's `handleUpdate` callback and the summary's
  personality line (`join(', ')`) are not modelled. Both only pass the
  record on or format it.
- `motion_transfer.py`, `engine_export.py`, `download_models.py`,
  `_draw_stick_figure` (a `draw` parameter), `export_spritesheet`,
  `export_gif` and the rendering and mock components are not part of
  this model.
- SpritesheetCreator.CreateSpritesheet: frames are always `h × w × c`
  arrays. A 2-D grey frame (which `len(shape) == 3` sends to 3 channels
  and `shape[:2]` sizes) is not modelled.
- SpritesheetCreator.CreateSpritesheet: pixel values are bytes. The
  `dtype=np.uint8` sheet's cast of frames of another dtype is not modelled.
- SpritesheetCreator.CreateSpritesheet: `cols` and `padding` are natural
  numbers. Python accepts negative ones; the only caller passes `cols=8`
  and the default padding 2.
- GenerationServer.OutputPath: paths use the POSIX `/` separator. On
  Windows `str(output_path)` holds `\`, and the client's `split('/').pop()`
  keeps the directory part.
- GenerationServer.DownloadModel: `existing` holds regular files only. A
  directory such as `outputs/rigging`, made by the rigging stage, passes
  `exists()` and then fails inside `FileResponse`; that failure is not
  modelled.
- GenerationServer.FeatureOn: feature flags are booleans, as the client
  sends them. Python's truthiness of other JSON values in `features` is not
  modelled.
- Integer widths: the model's integers are unbounded. The picker's bit
  operations are exact for channels 0..255, which is the only range
  `getImageData` yields.
