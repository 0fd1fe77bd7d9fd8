/** The application state behind every command (`AppState` in
    src-tauri/src/state.rs): which speech engine is loaded at start-up, the
    fall-backs when it cannot be, and the `reload_*` operations that replace
    the engine only once the new one is built. The engines' constructors are
    parameters: what each gives for the path it is handed. */
module EngineState {
  import opened Wrappers
  import opened Types
  import MM = ModelManager
  import W = Whisper

  /** The engine held in `engine`. */
  datatype LoadedEngine =
    | WhisperLoaded(whisper: W.WhisperEngine)
    | ParakeetOnnx(model: ParakeetModelSize)
    | ParakeetCoreMl(sidecar: MM.Path)
    | VoskLoaded(language: VoskLanguage)

  /** The platform the application was built for; on macOS, where
      `find_parakeet_sidecar` found the CoreML helper, if anywhere. */
  datatype Platform = MacOs(sidecar: Option<MM.Path>) | OtherOs

  /** What loading a Whisper model file and the constructors of the other
      engines give for a path. */
  datatype Loaders = Loaders(
    whisperModel: MM.Path -> Outcome,
    parakeet: MM.Path -> Outcome,
    coreMl: MM.Path -> Outcome,
    vosk: MM.Path -> Outcome)

  /** The Debug form of a model size. */
  function SizeDebug(size: ModelSize): string {
    match size
    case Tiny => "Tiny"
    case Small => "Small"
    case Medium => "Medium"
  }

  /** The Debug form of a Vosk language. */
  function LanguageDebug(l: VoskLanguage): string {
    match l
    case En => "En" case Fr => "Fr" case De => "De" case Es => "Es" case It => "It"
    case Ru => "Ru" case Zh => "Zh" case Ja => "Ja" case Ko => "Ko" case Pt => "Pt"
    case Nl => "Nl" case Pl => "Pl" case Uk => "Uk" case Tr => "Tr" case Vi => "Vi"
    case Ar => "Ar" case Hi => "Hi" case Fa => "Fa" case Ca => "Ca" case Cs => "Cs"
  }

  /** The language Whisper is configured with: none when the language is to
      be detected. */
  function WhisperLanguage(s: AppSettings): Option<string> {
    if s.autoDetectLanguage then None else Some(s.transcriptionLanguage)
  }

  /** The Vosk language: the configured one, else the transcription
      language if Vosk knows it. */
  function VoskLanguageOf(s: AppSettings): Option<VoskLanguage> {
    if s.voskLanguage.Some? then s.voskLanguage else FromLanguageCode(s.transcriptionLanguage)
  }

  /** Building a Whisper engine for a model size (the fallible part of
      `reload_engine`). */
  function BuildWhisper(m: MM.Manager, disk: MM.Disk, size: ModelSize, language: Option<string>,
                        loaders: Loaders): Result<LoadedEngine>
  {
    match MM.ModelPath(m, size, disk)
    case None => Err("Model " + SizeDebug(size) + " not available")
    case Some(path) =>
      match W.New(path, disk, language, size, loaders.whisperModel(path))
      case Err(e) => Err(e)
      case Ok(w) => Ok(WhisperLoaded(w))
  }

  /** Building a Parakeet engine: the CoreML helper on macOS, the ONNX model
      elsewhere (the fallible part of `reload_parakeet_engine`). */
  function BuildParakeet(m: MM.Manager, disk: MM.Disk, platform: Platform, size: ParakeetModelSize,
                         loaders: Loaders): Result<LoadedEngine>
  {
    match platform
    case MacOs(sidecar) =>
      (match sidecar
       case None => Err("Parakeet CoreML sidecar not found")
       case Some(path) =>
         match loaders.coreMl(path)
         case Fail(e) => Err(e)
         case Pass => Ok(ParakeetCoreMl(path)))
    case OtherOs =>
      match MM.ParakeetModelPath(m, size, disk)
      case None => Err("Parakeet model Tdt06bV3 not available")
      case Some(path) =>
        match loaders.parakeet(path)
        case Fail(e) => Err(e)
        case Pass => Ok(ParakeetOnnx(size))
  }

  /** Building a Vosk engine for a language (the fallible part of
      `reload_vosk_engine`). */
  function BuildVosk(m: MM.Manager, disk: MM.Disk, language: VoskLanguage, loaders: Loaders): Result<LoadedEngine> {
    match MM.VoskModelPath(m, language, disk)
    case None => Err("Vosk model for " + LanguageDebug(language) + " not available")
    case Some(path) =>
      match loaders.vosk(path)
      case Fail(e) => Err(e)
      case Pass => Ok(VoskLoaded(language))
  }

  /** `load_whisper` in `AppState::new`: a failure leaves no engine. */
  function LoadWhisper(s: AppSettings, m: MM.Manager, disk: MM.Disk, loaders: Loaders): Option<LoadedEngine> {
    BuildWhisper(m, disk, s.whisperModel, WhisperLanguage(s), loaders).ToOption()
  }

  /** The engine `AppState::new` starts with. A Parakeet engine that cannot
      be built falls back to Whisper; Whisper and Vosk have no fall-back. */
  function InitialEngine(s: AppSettings, m: MM.Manager, disk: MM.Disk, platform: Platform,
                         loaders: Loaders): Option<LoadedEngine>
  {
    match s.engineType
    case Whisper => LoadWhisper(s, m, disk, loaders)
    case Parakeet =>
      (match BuildParakeet(m, disk, platform, s.parakeetModel, loaders)
       case Ok(e) => Some(e)
       case Err(_) => LoadWhisper(s, m, disk, loaders))
    case Vosk =>
      match VoskLanguageOf(s)
      case None => None
      case Some(l) => BuildVosk(m, disk, l, loaders).ToOption()
  }

  /** Where the bundled models are looked for: `resources/models` and then
      `models` under the resource directory, then `resources/models` three
      levels above the executable (`devRoot`). */
  function BundledModelsPath(resourcePath: MM.Path, devRoot: Option<MM.Path>, disk: MM.Disk): Option<MM.Path> {
    if resourcePath + ["resources", "models"] in disk then Some(resourcePath + ["resources", "models"])
    else if resourcePath + ["models"] in disk then Some(resourcePath + ["models"])
    else if devRoot.Some? && devRoot.value + ["resources", "models"] in disk then
      Some(devRoot.value + ["resources", "models"])
    else None
  }

  /** What `switch_engine_type` builds, reading the settings as they are. */
  function SwitchBuild(s: AppSettings, target: EngineType, m: MM.Manager, disk: MM.Disk, platform: Platform,
                       loaders: Loaders): Result<LoadedEngine>
  {
    match target
    case Whisper => BuildWhisper(m, disk, s.whisperModel, WhisperLanguage(s), loaders)
    case Parakeet => BuildParakeet(m, disk, platform, s.parakeetModel, loaders)
    case Vosk =>
      match VoskLanguageOf(s)
      case None => Err("No Vosk language configured and current language not supported by Vosk")
      case Some(l) => BuildVosk(m, disk, l, loaders)
  }

  /** The engine after a reload: replaced by what was built, or kept. */
  function Replaced(current: Option<LoadedEngine>, built: Result<LoadedEngine>): Option<LoadedEngine> {
    if built.Ok? then Some(built.value) else current
  }

  function OutcomeOf(built: Result<LoadedEngine>): Outcome {
    if built.Ok? then Pass else Fail(built.error)
  }

  class AppState {
    var isRecording: bool
    var settings: AppSettings
    var sampleRate: nat
    var engine: Option<LoadedEngine>
    var audioBuffer: Option<(seq<real>, nat)>
    const manager: MM.Manager
    const resourcePath: MM.Path
    const platform: Platform

    /** The state `AppState::new` assembles once both directories are known. */
    constructor (s: AppSettings, resourcePath: MM.Path, appDataDir: MM.Path, devRoot: Option<MM.Path>,
                 disk: MM.Disk, platform: Platform, loaders: Loaders)
      ensures !isRecording && sampleRate == 16000 && audioBuffer.None? && settings == s
      ensures manager == MM.NewManager(appDataDir, BundledModelsPath(resourcePath, devRoot, disk))
      ensures engine == InitialEngine(s, manager, disk, platform, loaders)
      ensures this.resourcePath == resourcePath && this.platform == platform
    {
      var m := MM.NewManager(appDataDir, BundledModelsPath(resourcePath, devRoot, disk));
      isRecording := false;
      settings := s;
      sampleRate := 16000;
      engine := InitialEngine(s, m, disk, platform, loaders);
      audioBuffer := None;
      manager := m;
      this.resourcePath := resourcePath;
      this.platform := platform;
    }

    /** `AppState::new`, which fails when either directory cannot be found. */
    static method New(s: AppSettings, resourceDir: Result<MM.Path>, appDataDir: Result<MM.Path>,
                      devRoot: Option<MM.Path>, disk: MM.Disk, platform: Platform, loaders: Loaders)
      returns (r: Result<AppState>)
      ensures resourceDir.Err? ==> r == Err("Failed to get resource dir: " + resourceDir.error)
      ensures resourceDir.Ok? && appDataDir.Err? ==> r == Err("Failed to get app data dir: " + appDataDir.error)
      ensures r.Ok? <==> resourceDir.Ok? && appDataDir.Ok?
      ensures r.Ok? ==> fresh(r.value) && !r.value.isRecording && r.value.sampleRate == 16000 &&
                        r.value.audioBuffer.None? && r.value.settings == s &&
                        r.value.engine == InitialEngine(s, r.value.manager, disk, platform, loaders)
    {
      if resourceDir.Err? {
        return Err("Failed to get resource dir: " + resourceDir.error);
      }
      if appDataDir.Err? {
        return Err("Failed to get app data dir: " + appDataDir.error);
      }
      var state := new AppState(s, resourceDir.value, appDataDir.value, devRoot, disk, platform, loaders);
      r := Ok(state);
    }

    /** `reload_engine`. */
    method ReloadEngine(size: ModelSize, language: Option<string>, disk: MM.Disk, loaders: Loaders)
      returns (r: Outcome)
      modifies this
      ensures r == OutcomeOf(BuildWhisper(manager, disk, size, language, loaders))
      ensures engine == Replaced(old(engine), BuildWhisper(manager, disk, size, language, loaders))
      ensures isRecording == old(isRecording) && settings == old(settings)
      ensures sampleRate == old(sampleRate) && audioBuffer == old(audioBuffer)
    {
      var path := MM.ModelPath(manager, size, disk);
      if path.None? {
        return Fail("Model " + SizeDebug(size) + " not available");
      }
      var built := W.New(path.value, disk, language, size, loaders.whisperModel(path.value));
      if built.Err? {
        return Fail(built.error);
      }
      engine := Some(WhisperLoaded(built.value));
      r := Pass;
    }

    /** `reload_parakeet_engine`. */
    method ReloadParakeetEngine(size: ParakeetModelSize, disk: MM.Disk, loaders: Loaders) returns (r: Outcome)
      modifies this
      ensures r == OutcomeOf(BuildParakeet(manager, disk, platform, size, loaders))
      ensures engine == Replaced(old(engine), BuildParakeet(manager, disk, platform, size, loaders))
      ensures isRecording == old(isRecording) && settings == old(settings)
      ensures sampleRate == old(sampleRate) && audioBuffer == old(audioBuffer)
    {
      var built := BuildParakeet(manager, disk, platform, size, loaders);
      if built.Err? {
        return Fail(built.error);
      }
      engine := Some(built.value);
      r := Pass;
    }

    /** `reload_vosk_engine`. */
    method ReloadVoskEngine(language: VoskLanguage, disk: MM.Disk, loaders: Loaders) returns (r: Outcome)
      modifies this
      ensures r == OutcomeOf(BuildVosk(manager, disk, language, loaders))
      ensures engine == Replaced(old(engine), BuildVosk(manager, disk, language, loaders))
      ensures isRecording == old(isRecording) && settings == old(settings)
      ensures sampleRate == old(sampleRate) && audioBuffer == old(audioBuffer)
    {
      var path := MM.VoskModelPath(manager, language, disk);
      if path.None? {
        return Fail("Vosk model for " + LanguageDebug(language) + " not available");
      }
      var built := loaders.vosk(path.value);
      if built.Fail? {
        return Fail(built.error);
      }
      engine := Some(VoskLoaded(language));
      r := Pass;
    }

    /** `switch_engine_type`. */
    method SwitchEngineType(target: EngineType, disk: MM.Disk, loaders: Loaders) returns (r: Outcome)
      modifies this
      ensures r == OutcomeOf(SwitchBuild(old(settings), target, manager, disk, platform, loaders))
      ensures engine == Replaced(old(engine), SwitchBuild(old(settings), target, manager, disk, platform, loaders))
      ensures isRecording == old(isRecording) && settings == old(settings)
      ensures sampleRate == old(sampleRate) && audioBuffer == old(audioBuffer)
    {
      match target {
        case Whisper =>
          r := ReloadEngine(settings.whisperModel, WhisperLanguage(settings), disk, loaders);
        case Parakeet =>
          r := ReloadParakeetEngine(settings.parakeetModel, disk, loaders);
        case Vosk =>
          var language := VoskLanguageOf(settings);
          if language.Some? {
            r := ReloadVoskEngine(language.value, disk, loaders);
          } else {
            r := Fail("No Vosk language configured and current language not supported by Vosk");
          }
      }
    }
  }

  // ---------------------------------------------------------------------
  // Properties

  /** Whisper is told no language exactly when detection is on. */
  lemma WhisperLanguageIff(s: AppSettings)
    ensures WhisperLanguage(s).None? <==> s.autoDetectLanguage
    ensures WhisperLanguage(s).Some? ==> WhisperLanguage(s).value == s.transcriptionLanguage
  {
  }

  /** The configured Vosk language wins; otherwise the transcription
      language is mapped, and start-up and `switch_engine_type` agree. */
  lemma VoskLanguageResolution(s: AppSettings)
    ensures s.voskLanguage.Some? ==> VoskLanguageOf(s) == s.voskLanguage
    ensures s.voskLanguage.None? ==> VoskLanguageOf(s) == FromLanguageCode(s.transcriptionLanguage)
  {
  }

  /** A Whisper engine is built from an existing model, with the settings'
      language choice; it fails exactly when the model is missing or does not
      load. */
  lemma WhisperBuilt(m: MM.Manager, disk: MM.Disk, size: ModelSize, language: Option<string>, loaders: Loaders)
    ensures BuildWhisper(m, disk, size, language, loaders).Ok? <==>
            MM.IsModelAvailable(m, size, disk) && loaders.whisperModel(MM.ModelPath(m, size, disk).value).Pass?
    ensures BuildWhisper(m, disk, size, language, loaders).Ok? ==>
            BuildWhisper(m, disk, size, language, loaders).value == WhisperLoaded(W.WhisperEngine(language, size))
    ensures !MM.IsModelAvailable(m, size, disk) ==>
            BuildWhisper(m, disk, size, language, loaders) == Err("Model " + SizeDebug(size) + " not available")
  {
    MM.ModelPathChoice(m, size, disk);
  }

  /** At start-up a Parakeet engine that cannot be built falls back to
      Whisper, while a configured Whisper or Vosk engine that cannot be built
      leaves no engine. */
  lemma StartupFallback(s: AppSettings, m: MM.Manager, disk: MM.Disk, platform: Platform, loaders: Loaders)
    ensures s.engineType == Parakeet && BuildParakeet(m, disk, platform, s.parakeetModel, loaders).Err? ==>
              InitialEngine(s, m, disk, platform, loaders) == LoadWhisper(s, m, disk, loaders)
    ensures s.engineType == Whisper ==>
              (InitialEngine(s, m, disk, platform, loaders).None? <==>
               BuildWhisper(m, disk, s.whisperModel, WhisperLanguage(s), loaders).Err?)
    ensures s.engineType == Vosk ==>
              (InitialEngine(s, m, disk, platform, loaders).None? <==>
               VoskLanguageOf(s).None? || BuildVosk(m, disk, VoskLanguageOf(s).value, loaders).Err?)
    ensures InitialEngine(s, m, disk, platform, loaders).Some? && s.engineType != Parakeet ==>
              InitialEngine(s, m, disk, platform, loaders) ==
              SwitchBuild(s, s.engineType, m, disk, platform, loaders).ToOption()
  {
  }

  /** Start-up and `switch_engine_type` build the same engine when it can be
      built, the Parakeet fall-back aside. */
  lemma StartupMatchesSwitch(s: AppSettings, m: MM.Manager, disk: MM.Disk, platform: Platform, loaders: Loaders)
    requires SwitchBuild(s, s.engineType, m, disk, platform, loaders).Ok?
    ensures InitialEngine(s, m, disk, platform, loaders) == Some(SwitchBuild(s, s.engineType, m, disk, platform, loaders).value)
  {
  }

  /** Switching to Vosk with no usable language is refused and the engine
      stays as it was. */
  lemma VoskWithoutLanguageRefused(s: AppSettings, m: MM.Manager, disk: MM.Disk, platform: Platform,
                                   loaders: Loaders, current: Option<LoadedEngine>)
    requires VoskLanguageOf(s).None?
    ensures SwitchBuild(s, Vosk, m, disk, platform, loaders) ==
            Err("No Vosk language configured and current language not supported by Vosk")
    ensures Replaced(current, SwitchBuild(s, Vosk, m, disk, platform, loaders)) == current
  {
  }

  /** The bundled models directory, when found, exists, and the resource
      directory's copies take precedence over the development one. */
  lemma BundledPathChoice(resourcePath: MM.Path, devRoot: Option<MM.Path>, disk: MM.Disk)
    ensures BundledModelsPath(resourcePath, devRoot, disk).Some? ==> BundledModelsPath(resourcePath, devRoot, disk).value in disk
    ensures resourcePath + ["resources", "models"] in disk ==>
              BundledModelsPath(resourcePath, devRoot, disk) == Some(resourcePath + ["resources", "models"])
    ensures BundledModelsPath(resourcePath, devRoot, disk).None? <==>
              resourcePath + ["resources", "models"] !in disk && resourcePath + ["models"] !in disk &&
              (devRoot.None? || devRoot.value + ["resources", "models"] !in disk)
  {
  }
}
