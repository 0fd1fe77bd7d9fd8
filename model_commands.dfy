/** The model commands of the interface (src-tauri/src/commands/models.rs):
    the model list, switching the Whisper model, whether an engine is ready,
    and the events around a download. */
module ModelCommands {
  import opened Wrappers
  import opened Types
  import MM = ModelManager
  import opened EngineState

  /** `ModelInfo`. */
  datatype ModelInfo = ModelInfo(size: ModelSize, displayName: string, available: bool, sizeBytes: nat)

  function InfoOf(m: MM.Manager, disk: MM.Disk, size: ModelSize): ModelInfo {
    ModelInfo(size, size.DisplayName(), MM.IsModelAvailable(m, size, disk), size.SizeBytes())
  }

  /** `get_available_models`. */
  function AvailableModelInfos(m: MM.Manager, disk: MM.Disk): seq<ModelInfo> {
    [InfoOf(m, disk, Tiny), InfoOf(m, disk, Small), InfoOf(m, disk, Medium)]
  }

  /** `is_engine_ready`, with whether the engine lock could be taken. */
  predicate IsEngineReady(engine: Option<LoadedEngine>, lockHealthy: bool) {
    lockHealthy && engine.Some?
  }

  function NotAvailableMessage(size: ModelSize): string {
    "Model " + SizeDebug(size) + " is not available. Please download it first."
  }

  /** `switch_model` on the settings and engine it finds: the result, the
      settings and the engine afterwards. The new model is recorded only
      once the engine is rebuilt, and it stays recorded when saving fails. */
  function SwitchModelSpec(s: AppSettings, engine: Option<LoadedEngine>, m: MM.Manager, disk: MM.Disk,
                           size: ModelSize, loaders: Loaders, save: AppSettings -> Outcome)
    : (Outcome, AppSettings, Option<LoadedEngine>)
  {
    if !MM.IsModelAvailable(m, size, disk) then (Fail(NotAvailableMessage(size)), s, engine)
    else
      var built := BuildWhisper(m, disk, size, WhisperLanguage(s), loaders);
      if built.Err? then (Fail(built.error), s, engine)
      else (save(s.(whisperModel := size)), s.(whisperModel := size), Some(built.value))
  }

  method SwitchModel(state: AppState, size: ModelSize, disk: MM.Disk, loaders: Loaders,
                     save: AppSettings -> Outcome) returns (r: Outcome)
    modifies state
    ensures (r, state.settings, state.engine) ==
            SwitchModelSpec(old(state.settings), old(state.engine), state.manager, disk, size, loaders, save)
    ensures state.isRecording == old(state.isRecording) && state.audioBuffer == old(state.audioBuffer)
  {
    if !MM.IsModelAvailable(state.manager, size, disk) {
      return Fail(NotAvailableMessage(size));
    }
    var language := WhisperLanguage(state.settings);
    var reloaded := state.ReloadEngine(size, language, disk, loaders);
    if reloaded.Fail? {
      return reloaded;
    }
    state.settings := state.settings.(whisperModel := size);
    r := save(state.settings);
  }

  /** What the front end hears during `download_model`. */
  datatype DownloadEvent = DownloadProgress(downloaded: nat, total: nat) | DownloadComplete(size: ModelSize)

  /** `download_model` given the progress reports the download made and how
      it ended. */
  function DownloadCommand(size: ModelSize, reports: seq<(nat, nat)>, ended: Result<MM.Path>)
    : (Outcome, seq<DownloadEvent>)
  {
    var progress := seq(|reports|, k requires 0 <= k < |reports| => DownloadProgress(reports[k].0, reports[k].1));
    if ended.Err? then (Fail(ended.error), progress)
    else (Pass, progress + [DownloadComplete(size)])
  }

  // ---------------------------------------------------------------------
  // Properties

  /** The list is always Tiny, Small, Medium, each with its display name,
      its size and whether the manager finds it. */
  lemma ModelInfosExact(m: MM.Manager, disk: MM.Disk, k: nat)
    requires k < 3
    ensures |AvailableModelInfos(m, disk)| == 3
    ensures AvailableModelInfos(m, disk)[k].size == AllModelSizes[k]
    ensures AvailableModelInfos(m, disk)[k].displayName == AllModelSizes[k].DisplayName()
    ensures AvailableModelInfos(m, disk)[k].sizeBytes == AllModelSizes[k].SizeBytes()
    ensures AvailableModelInfos(m, disk)[k].available <==> MM.ModelPath(m, AllModelSizes[k], disk).Some?
  {
  }

  /** An unavailable model is refused and nothing changes. */
  lemma UnavailableRefused(s: AppSettings, engine: Option<LoadedEngine>, m: MM.Manager, disk: MM.Disk,
                           size: ModelSize, loaders: Loaders, save: AppSettings -> Outcome)
    requires !MM.IsModelAvailable(m, size, disk)
    ensures SwitchModelSpec(s, engine, m, disk, size, loaders, save) == (Fail(NotAvailableMessage(size)), s, engine)
  {
  }

  /** The recorded model changes only together with the engine, which is
      then a Whisper engine of that size, told no language exactly when
      detection is on; only `whisper_model` changes in the settings. */
  lemma SettingsFollowEngine(s: AppSettings, engine: Option<LoadedEngine>, m: MM.Manager, disk: MM.Disk,
                             size: ModelSize, loaders: Loaders, save: AppSettings -> Outcome)
    ensures var (r, s2, e2) := SwitchModelSpec(s, engine, m, disk, size, loaders, save);
            && (s2 == s || s2 == s.(whisperModel := size))
            && (s2 != s ==> e2.Some? && e2.value.WhisperLoaded? && e2.value.whisper.modelSize == size)
            && (s2 != s ==> (e2.value.whisper.language.None? <==> s.autoDetectLanguage))
            && (e2 != engine ==> s2 == s.(whisperModel := size))
            && (r.Pass? ==> s2.whisperModel == size && IsEngineReady(e2, true))
  {
    if MM.IsModelAvailable(m, size, disk) {
      WhisperBuilt(m, disk, size, WhisperLanguage(s), loaders);
    }
  }

  /** A failed save after a successful reload is reported, yet the new
      model stays in memory along with its engine. */
  lemma SaveFailureKeepsSwitch(s: AppSettings, engine: Option<LoadedEngine>, m: MM.Manager, disk: MM.Disk,
                               size: ModelSize, loaders: Loaders, save: AppSettings -> Outcome)
    requires MM.IsModelAvailable(m, size, disk)
    requires BuildWhisper(m, disk, size, WhisperLanguage(s), loaders).Ok?
    requires save(s.(whisperModel := size)).Fail?
    ensures var (r, s2, e2) := SwitchModelSpec(s, engine, m, disk, size, loaders, save);
            r.Fail? && s2.whisperModel == size && e2.Some?
  {
  }

  /** "model-download-complete" is sent once, last, and only when the
      download succeeded; every progress report is forwarded in order. */
  lemma CompletionAfterSuccess(size: ModelSize, reports: seq<(nat, nat)>, ended: Result<MM.Path>)
    ensures var (r, events) := DownloadCommand(size, reports, ended);
            && (r.Pass? <==> ended.Ok?)
            && (DownloadComplete(size) in events <==> ended.Ok?)
            && (ended.Ok? ==> |events| == |reports| + 1 && events[|reports|] == DownloadComplete(size))
            && (forall k :: 0 <= k < |reports| ==> events[k] == DownloadProgress(reports[k].0, reports[k].1))
  {
    var (r, events) := DownloadCommand(size, reports, ended);
    if ended.Err? {
      assert forall k :: 0 <= k < |events| ==> events[k].DownloadProgress?;
    } else {
      var progress := events[..|reports|];
      assert forall k :: 0 <= k < |progress| ==> progress[k].DownloadProgress?;
    }
  }
}
