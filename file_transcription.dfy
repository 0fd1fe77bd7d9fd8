/** Transcribing a batch of audio files (`transcribe_files` in
    src-tauri/src/commands/file_transcription.rs): one result per path, in
    order, with the progress events the front end hears and the history and
    statistics updates of each success. Format detection, decoding and the
    engine are parameters. */
module FileTranscription {
  import opened Wrappers
  import opened Text
  import opened Types
  import opened Seqs

  /** `FileTranscriptionResult`. */
  datatype FileResult = FileResult(filePath: string, fileName: string,
                                   transcription: Option<TranscriptionResult>, error: Option<string>)

  /** The `status` of a progress event. */
  datatype Phase = Decoding | Transcribing | Completed {
    function Name(): string {
      match this
      case Decoding => "decoding"
      case Transcribing => "transcribing"
      case Completed => "completed"
    }
  }

  /** What the command emits or hands to storage, in order: a progress
      event, a history entry, a statistics update. */
  datatype Event =
    | Progress(current: nat, total: nat, fileName: string, phase: Phase)
    | SaveHistory(result: TranscriptionResult)
    | RecordStats(wordCount: nat, durationSecs: real, language: Option<string>)

  /** Decoded audio: the samples and their rate. */
  type Audio = (seq<real>, nat)

  /** `engine.transcribe(&audio, sample_rate)` of the loaded engine. */
  type Transcriber = Audio -> Result<TranscriptionResult>

  /** What the loop depends on besides the paths: whether the decoder knows
      the format, what decoding gives, the engine (if one is loaded) and the
      `stats_tracking_enabled` setting. */
  datatype Context = Context(supported: string -> bool, decode: string -> Result<Audio>,
                             engine: Option<Transcriber>, statsEnabled: bool)

  // ---------------------------------------------------------------------
  // File names

  /** The components `Path::components` yields for the name: empty pieces
      and "." are dropped. */
  function Components(path: string): seq<string> {
    Filter(Split(path, '/'), IsComponent)
  }

  predicate IsComponent(c: string) {
    c != "" && c != "."
  }

  /** `path.file_name()` or "unknown": the last component, unless there is
      none or it is "..". */
  function FileName(path: string): string {
    var comps := Components(path);
    if comps == [] || comps[|comps| - 1] == ".." then "unknown" else comps[|comps| - 1]
  }

  // ---------------------------------------------------------------------
  // The loop

  const UnsupportedMessage: string := "Unsupported audio format"
  const NoEngineMessage: string := "No engine initialized"

  /** What the engine gives for the decoded audio: its transcription, or an
      error when no engine is loaded. */
  function EngineResult(ctx: Context, audio: Audio): Result<TranscriptionResult> {
    if ctx.engine.Some? then ctx.engine.value(audio) else Err(NoEngineMessage)
  }

  /** What a success hands to storage: the history entry, then, when
      tracking is on, the statistics update counting the words of the text. */
  function SuccessEvents(t: TranscriptionResult, statsEnabled: bool): seq<Event> {
    [SaveHistory(t)] +
    (if statsEnabled then [RecordStats(|Words(t.text)|, t.durationSeconds, t.detectedLanguage)] else [])
  }

  /** The file once decoded: the "transcribing" event, then the engine. */
  function DecodedStep(index: nat, total: nat, path: string, audio: Audio, ctx: Context): (FileResult, seq<Event>) {
    var name := FileName(path);
    var started := [Progress(index + 1, total, name, Decoding), Progress(index + 1, total, name, Transcribing)];
    match EngineResult(ctx, audio)
    case Err(e) => (FileResult(path, name, None, Some(e)), started)
    case Ok(t) => (FileResult(path, name, Some(t), None), started + SuccessEvents(t, ctx.statsEnabled))
  }

  /** The result and events for the file at `index` (of `total`): the
      format check, then decoding, then the engine; a success is saved to
      history and, when tracking is on, counted in the statistics. */
  function FileStep(index: nat, total: nat, path: string, ctx: Context): (FileResult, seq<Event>) {
    var name := FileName(path);
    if !ctx.supported(path) then
      (FileResult(path, name, None, Some(UnsupportedMessage)), [Progress(index + 1, total, name, Decoding)])
    else match ctx.decode(path)
      case Err(e) => (FileResult(path, name, None, Some("Failed to decode: " + e)), [Progress(index + 1, total, name, Decoding)])
      case Ok(audio) => DecodedStep(index, total, path, audio, ctx)
  }

  /** The first `n` files processed, with `|paths|` as the total. */
  function RunUpTo(paths: seq<string>, n: nat, ctx: Context): (seq<FileResult>, seq<Event>)
    requires n <= |paths|
    decreases n
  {
    if n == 0 then ([], [])
    else
      var before := RunUpTo(paths, n - 1, ctx);
      var step := FileStep(n - 1, |paths|, paths[n - 1], ctx);
      (before.0 + [step.0], before.1 + step.1)
  }

  /** The final progress event. */
  function CompletedEvent(total: nat): Event {
    Progress(total, total, "", Completed)
  }

  /** `transcribe_files`: every file, then the completion event. */
  function TranscribeFilesSpec(paths: seq<string>, ctx: Context): (seq<FileResult>, seq<Event>) {
    var run := RunUpTo(paths, |paths|, ctx);
    (run.0, run.1 + [CompletedEvent(|paths|)])
  }

  /** The body of the loop for one file. */
  method TranscribeOne(index: nat, total: nat, path: string, ctx: Context)
    returns (r: FileResult, events: seq<Event>)
    ensures (r, events) == FileStep(index, total, path, ctx)
  {
    var name := FileName(path);
    events := [Progress(index + 1, total, name, Decoding)];
    if !ctx.supported(path) {
      r := FileResult(path, name, None, Some(UnsupportedMessage));
      return;
    }
    var decoded := ctx.decode(path);
    if decoded.Err? {
      r := FileResult(path, name, None, Some("Failed to decode: " + decoded.error));
      return;
    }
    assert FileStep(index, total, path, ctx) == DecodedStep(index, total, path, decoded.value, ctx);
    events := events + [Progress(index + 1, total, name, Transcribing)];
    var transcription: Result<TranscriptionResult>;
    if ctx.engine.Some? {
      transcription := ctx.engine.value(decoded.value);
    } else {
      transcription := Err(NoEngineMessage);
    }
    assert transcription == EngineResult(ctx, decoded.value);
    assert events == [Progress(index + 1, total, name, Decoding), Progress(index + 1, total, name, Transcribing)];
    if transcription.Err? {
      r := FileResult(path, name, None, Some(transcription.error));
      return;
    }
    var t := transcription.value;
    var stored := [SaveHistory(t)];
    if ctx.statsEnabled {
      stored := stored + [RecordStats(|Words(t.text)|, t.durationSeconds, t.detectedLanguage)];
    }
    assert stored == SuccessEvents(t, ctx.statsEnabled);
    events := events + stored;
    r := FileResult(path, name, Some(t), None);
  }

  method TranscribeFiles(paths: seq<string>, ctx: Context) returns (results: seq<FileResult>, events: seq<Event>)
    ensures (results, events) == TranscribeFilesSpec(paths, ctx)
  {
    results := [];
    events := [];
    var i := 0;
    while i < |paths|
      invariant 0 <= i <= |paths|
      invariant (results, events) == RunUpTo(paths, i, ctx)
      decreases |paths| - i
    {
      var r, es := TranscribeOne(i, |paths|, paths[i], ctx);
      results := results + [r];
      events := events + es;
      i := i + 1;
    }
    events := events + [CompletedEvent(|paths|)];
  }

  // ---------------------------------------------------------------------
  // Properties

  /** The processed prefix holds one result per file, in input order, each
      the file's own step. */
  lemma {:induction false} RunResults(paths: seq<string>, n: nat, ctx: Context)
    requires n <= |paths|
    ensures |RunUpTo(paths, n, ctx).0| == n
    ensures forall k :: 0 <= k < n ==> RunUpTo(paths, n, ctx).0[k] == FileStep(k, |paths|, paths[k], ctx).0
    decreases n
  {
    if n > 0 {
      RunResults(paths, n - 1, ctx);
      RunResultsStep(paths, n, ctx);
    }
  }

  lemma RunResultsStep(paths: seq<string>, n: nat, ctx: Context)
    requires 0 < n <= |paths|
    requires |RunUpTo(paths, n - 1, ctx).0| == n - 1
    requires forall k :: 0 <= k < n - 1 ==> RunUpTo(paths, n - 1, ctx).0[k] == FileStep(k, |paths|, paths[k], ctx).0
    ensures |RunUpTo(paths, n, ctx).0| == n
    ensures forall k :: 0 <= k < n ==> RunUpTo(paths, n, ctx).0[k] == FileStep(k, |paths|, paths[k], ctx).0
  {
    RunAppends(paths, n, ctx);
    forall k | 0 <= k < n
      ensures RunUpTo(paths, n, ctx).0[k] == FileStep(k, |paths|, paths[k], ctx).0
    {
      if k < n - 1 {
        RunKeeps(paths, n, ctx, k);
      } else {
        assert k == |RunUpTo(paths, n - 1, ctx).0|;
      }
    }
  }

  /** One more file adds its own result at the end. */
  lemma RunAppends(paths: seq<string>, n: nat, ctx: Context)
    requires 0 < n <= |paths|
    ensures |RunUpTo(paths, n, ctx).0| == |RunUpTo(paths, n - 1, ctx).0| + 1
    ensures RunUpTo(paths, n, ctx).0[|RunUpTo(paths, n - 1, ctx).0|] == FileStep(n - 1, |paths|, paths[n - 1], ctx).0
  {
  }

  /** One more file appends its own events. */
  lemma RunEventsAppend(paths: seq<string>, n: nat, ctx: Context)
    requires 0 < n <= |paths|
    ensures RunUpTo(paths, n, ctx).1 == RunUpTo(paths, n - 1, ctx).1 + FileStep(n - 1, |paths|, paths[n - 1], ctx).1
  {
  }

  /** One more file leaves the earlier results in place. */
  lemma RunKeeps(paths: seq<string>, n: nat, ctx: Context, k: nat)
    requires 0 < n <= |paths| && k < |RunUpTo(paths, n - 1, ctx).0|
    ensures k < |RunUpTo(paths, n, ctx).0| && RunUpTo(paths, n, ctx).0[k] == RunUpTo(paths, n - 1, ctx).0[k]
  {
    SnocKeeps(RunUpTo(paths, n - 1, ctx).0, FileStep(n - 1, |paths|, paths[n - 1], ctx).0);
  }

  /** Each file gets either a transcription or an error, never both and
      never neither; the result names the file and its path. */
  lemma ExactlyOneOutcome(index: nat, total: nat, path: string, ctx: Context)
    ensures var r := FileStep(index, total, path, ctx).0;
            && r.filePath == path && r.fileName == FileName(path)
            && (r.transcription.Some? <==> r.error.None?)
  {
  }

  /** `transcribe_files` returns exactly one result per path, in input
      order, with exactly one of a transcription or an error. */
  lemma OneResultPerPath(paths: seq<string>, ctx: Context, k: nat)
    requires k < |paths|
    ensures |TranscribeFilesSpec(paths, ctx).0| == |paths|
    ensures var r := TranscribeFilesSpec(paths, ctx).0[k];
            && r == FileStep(k, |paths|, paths[k], ctx).0
            && r.filePath == paths[k] && r.fileName == FileName(paths[k])
            && (r.transcription.Some? <==> r.error.None?)
  {
    RunResults(paths, |paths|, ctx);
    ExactlyOneOutcome(k, |paths|, paths[k], ctx);
  }

  /** An unsupported file is reported as such without being decoded: its
      result and events do not depend on the decoder, and no "transcribing"
      event is sent for it. A decoding error is reported with its message. */
  lemma UnsupportedNotDecoded(index: nat, total: nat, path: string, ctx: Context,
                              decode2: string -> Result<Audio>)
    ensures !ctx.supported(path) ==>
              FileStep(index, total, path, ctx) == FileStep(index, total, path, ctx.(decode := decode2)) &&
              FileStep(index, total, path, ctx).0.error == Some(UnsupportedMessage) &&
              FileStep(index, total, path, ctx).1 == [Progress(index + 1, total, FileName(path), Decoding)]
    ensures ctx.supported(path) && ctx.decode(path).Err? ==>
              FileStep(index, total, path, ctx).0.error == Some("Failed to decode: " + ctx.decode(path).error) &&
              FileStep(index, total, path, ctx).1 == [Progress(index + 1, total, FileName(path), Decoding)]
  {
  }

  /** A file is transcribed exactly when its format is supported, it
      decodes, an engine is loaded and the engine succeeds; the result is
      then the engine's, and a missing engine is reported. */
  lemma TranscribedIff(index: nat, total: nat, path: string, ctx: Context)
    ensures FileStep(index, total, path, ctx).0.transcription.Some? <==>
              ctx.supported(path) && ctx.decode(path).Ok? && ctx.engine.Some? &&
              ctx.engine.value(ctx.decode(path).value).Ok?
    ensures FileStep(index, total, path, ctx).0.transcription.Some? ==>
              FileStep(index, total, path, ctx).0.transcription.value == ctx.engine.value(ctx.decode(path).value).value
    ensures ctx.supported(path) && ctx.decode(path).Ok? && ctx.engine.None? ==>
              FileStep(index, total, path, ctx).0.error == Some(NoEngineMessage)
  {
  }

  /** The events of one file: "decoding" first, "transcribing" second
      exactly when it decoded, and after a success the history entry, then
      the statistics update only when tracking is on, counting the words of
      the text. A failure saves and counts nothing. */
  lemma StepEvents(index: nat, total: nat, path: string, ctx: Context)
    ensures var (r, es) := FileStep(index, total, path, ctx);
            && es != [] && es[0] == Progress(index + 1, total, FileName(path), Decoding)
            && (Progress(index + 1, total, FileName(path), Transcribing) in es <==>
                  ctx.supported(path) && ctx.decode(path).Ok?)
            && (r.transcription.None? ==> forall e :: e in es ==> e.Progress?)
            && (r.transcription.Some? ==>
                  var t := r.transcription.value;
                  es == [Progress(index + 1, total, FileName(path), Decoding),
                         Progress(index + 1, total, FileName(path), Transcribing), SaveHistory(t)] +
                        (if ctx.statsEnabled then [RecordStats(|Words(t.text)|, t.durationSeconds, t.detectedLanguage)]
                         else []))
  {
  }

  /** A file always sends its "decoding" event, and its "transcribing"
      event exactly when it is supported and decoded. */
  lemma StepProgress(index: nat, total: nat, path: string, ctx: Context)
    ensures Progress(index + 1, total, FileName(path), Decoding) in FileStep(index, total, path, ctx).1
    ensures Progress(index + 1, total, FileName(path), Transcribing) in FileStep(index, total, path, ctx).1 <==>
              ctx.supported(path) && ctx.decode(path).Ok?
  {
    StepEvents(index, total, path, ctx);
  }

  /** Every progress event of a file carries its position, counted from 1,
      and the total; no file sends "completed". */
  lemma StepProgressPositions(index: nat, total: nat, path: string, ctx: Context, e: Event)
    requires e in FileStep(index, total, path, ctx).1 && e.Progress?
    ensures e.current == index + 1 && e.total == total && e.phase != Completed
  {
  }

  /** Over the whole batch, file `k` has had its "decoding" event, and a
      "transcribing" event with its position was sent exactly when it
      decoded. */
  lemma {:induction false} RunProgress(paths: seq<string>, n: nat, ctx: Context, k: nat)
    requires k < n <= |paths|
    ensures Progress(k + 1, |paths|, FileName(paths[k]), Decoding) in RunUpTo(paths, n, ctx).1
    ensures Progress(k + 1, |paths|, FileName(paths[k]), Transcribing) in RunUpTo(paths, n, ctx).1 <==>
              ctx.supported(paths[k]) && ctx.decode(paths[k]).Ok?
    decreases n
  {
    if k == n - 1 {
      RunProgressLast(paths, k, ctx);
    } else {
      RunProgress(paths, n - 1, ctx, k);
      RunProgressEarlier(paths, n, ctx, k);
    }
  }

  /** The file just processed has sent its own progress events, and no
      earlier file sent one with its position. */
  lemma RunProgressLast(paths: seq<string>, m: nat, ctx: Context)
    requires m < |paths|
    ensures Progress(m + 1, |paths|, FileName(paths[m]), Decoding) in RunUpTo(paths, m + 1, ctx).1
    ensures Progress(m + 1, |paths|, FileName(paths[m]), Transcribing) in RunUpTo(paths, m + 1, ctx).1 <==>
              ctx.supported(paths[m]) && ctx.decode(paths[m]).Ok?
  {
    var transcribing := Progress(m + 1, |paths|, FileName(paths[m]), Transcribing);
    RunEventsAppend(paths, m + 1, ctx);
    StepProgress(m, |paths|, paths[m], ctx);
    if transcribing in RunUpTo(paths, m, ctx).1 {
      RunNoLaterProgress(paths, m, ctx, transcribing);
    }
  }

  /** A later file sends no progress event with an earlier position. */
  lemma RunProgressEarlier(paths: seq<string>, n: nat, ctx: Context, k: nat)
    requires k < n - 1 && n <= |paths|
    requires Progress(k + 1, |paths|, FileName(paths[k]), Decoding) in RunUpTo(paths, n - 1, ctx).1
    requires Progress(k + 1, |paths|, FileName(paths[k]), Transcribing) in RunUpTo(paths, n - 1, ctx).1 <==>
               ctx.supported(paths[k]) && ctx.decode(paths[k]).Ok?
    ensures Progress(k + 1, |paths|, FileName(paths[k]), Decoding) in RunUpTo(paths, n, ctx).1
    ensures Progress(k + 1, |paths|, FileName(paths[k]), Transcribing) in RunUpTo(paths, n, ctx).1 <==>
              ctx.supported(paths[k]) && ctx.decode(paths[k]).Ok?
  {
    var transcribing := Progress(k + 1, |paths|, FileName(paths[k]), Transcribing);
    RunEventsAppend(paths, n, ctx);
    if transcribing in FileStep(n - 1, |paths|, paths[n - 1], ctx).1 {
      StepProgressPositions(n - 1, |paths|, paths[n - 1], ctx, transcribing);
    }
  }

  /** The first `n` files only send progress events with positions up to
      `n`. */
  lemma {:induction false} RunNoLaterProgress(paths: seq<string>, n: nat, ctx: Context, e: Event)
    requires n <= |paths|
    requires e in RunUpTo(paths, n, ctx).1 && e.Progress?
    ensures 1 <= e.current <= n && e.phase != Completed
    decreases n
  {
    var before := RunUpTo(paths, n - 1, ctx).1;
    RunEventsAppend(paths, n, ctx);
    if e in before {
      RunNoLaterProgress(paths, n - 1, ctx, e);
    } else {
      StepProgressPositions(n - 1, |paths|, paths[n - 1], ctx, e);
    }
  }

  /** The batch ends with exactly one "completed" event, carrying the total
      as its position and an empty file name. */
  lemma CompletedLast(paths: seq<string>, ctx: Context)
    ensures var events := TranscribeFilesSpec(paths, ctx).1;
            && events != [] && events[|events| - 1] == Progress(|paths|, |paths|, "", Completed)
            && forall k :: 0 <= k < |events| - 1 && events[k].Progress? ==> events[k].phase != Completed
  {
    var events := TranscribeFilesSpec(paths, ctx).1;
    var before := RunUpTo(paths, |paths|, ctx).1;
    assert events == before + [CompletedEvent(|paths|)];
    forall k | 0 <= k < |events| - 1 && events[k].Progress?
      ensures events[k].phase != Completed
    {
      assert events[k] == before[k];
      RunNoLaterProgress(paths, |paths|, ctx, before[k]);
    }
  }

  /** The file name of `dir/…/name` is `name`, read off the last
      component; a path ending in ".." has none. */
  lemma FileNameOfComponents(parts: seq<string>)
    requires |parts| >= 1
    requires forall k :: 0 <= k < |parts| ==> '/' !in parts[k]
    requires parts[|parts| - 1] != "" && parts[|parts| - 1] != "."
    ensures FileName(Join(parts, "/")) == if parts[|parts| - 1] == ".." then "unknown" else parts[|parts| - 1]
  {
    SplitJoin(parts, '/');
    assert Components(Join(parts, "/")) == Filter(parts, IsComponent);
    FilterKeepsLast(parts, IsComponent);
  }

  /** A path with no component, such as "" or "/", has no file name. */
  lemma NoComponentsUnknown(path: string)
    requires forall k :: 0 <= k < |path| ==> path[k] == '/'
    ensures FileName(path) == "unknown"
  {
    SlashesSplitEmpty(path);
    var parts := Split(path, '/');
    if Components(path) != [] {
      FilterMembers(parts, IsComponent, Components(path)[0]);
    }
  }

  /** Splitting a run of slashes gives empty pieces only. */
  lemma {:induction false} SlashesSplitEmpty(path: string)
    requires forall k :: 0 <= k < |path| ==> path[k] == '/'
    ensures forall k :: 0 <= k < |Split(path, '/')| ==> Split(path, '/')[k] == ""
    decreases |path|
  {
    if path != [] {
      assert path[0] == '/';
      assert IndexOf(path, '/') == 0;
      assert Split(path, '/') == [path[..0]] + Split(path[1..], '/');
      SlashesSplitEmpty(path[1..]);
    }
  }
}
