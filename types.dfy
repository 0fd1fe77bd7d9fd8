/** The configuration vocabulary shared by the back end: model sizes, engine
    kinds, Vosk languages, the settings record and the transcription result. */
module Types {
  import opened Wrappers
  import opened Text

  datatype LlmMode = Off | Basic | Smart | Contextual

  datatype DictationMode = General | Email | Code | Notes

  const DefaultLlmMode: LlmMode := Off
  const DefaultDictationMode: DictationMode := General

  /** The three Whisper model files the application knows about. */
  datatype ModelSize = Tiny | Small | Medium {
    function FileName(): string {
      match this
      case Tiny => "ggml-tiny.bin"
      case Small => "ggml-small.bin"
      case Medium => "ggml-medium.bin"
    }

    /** Written out per size, as in the source; `DownloadUrlEndsWithFileName`
        relates it to `FileName`. */
    function DownloadUrl(): string {
      match this
      case Tiny => "https://huggingface.co/ggerganov/whisper.cpp/resolve/main/ggml-tiny.bin"
      case Small => "https://huggingface.co/ggerganov/whisper.cpp/resolve/main/ggml-small.bin"
      case Medium => "https://huggingface.co/ggerganov/whisper.cpp/resolve/main/ggml-medium.bin"
    }

    function SizeBytes(): nat {
      match this
      case Tiny => 75_000_000
      case Small => 466_000_000
      case Medium => 1_500_000_000
    }

    function DisplayName(): string {
      match this
      case Tiny => "Tiny (75 MB)"
      case Small => "Small (466 MB)"
      case Medium => "Medium (1.5 GB)"
    }
  }

  const DefaultModelSize: ModelSize := Tiny

  /** The order in which the sizes are listed everywhere. */
  const AllModelSizes: seq<ModelSize> := [Tiny, Small, Medium]

  const HuggingFaceBase: string := "https://huggingface.co/ggerganov/whisper.cpp/resolve/main"

  lemma DownloadUrlEndsWithFileName(m: ModelSize)
    ensures m.DownloadUrl() == HuggingFaceBase + "/" + m.FileName()
  {
    match m
    case Tiny => TinyUrl();
    case Small => SmallUrl();
    case Medium => MediumUrl();
  }

  lemma TinyUrl()
    ensures Tiny.DownloadUrl() == HuggingFaceBase + "/" + Tiny.FileName()
  {
  }

  lemma SmallUrl()
    ensures Small.DownloadUrl() == HuggingFaceBase + "/" + Small.FileName()
  {
  }

  lemma MediumUrl()
    ensures Medium.DownloadUrl() == HuggingFaceBase + "/" + Medium.FileName()
  {
  }

  /** Sizes grow strictly from Tiny to Medium. */
  lemma SizeBytesIncreasing()
    ensures Tiny.SizeBytes() < Small.SizeBytes() < Medium.SizeBytes()
  {
  }

  datatype EngineType = Whisper | Parakeet | Vosk {
    function DisplayName(): string {
      match this
      case Whisper => "Whisper"
      case Parakeet => "Parakeet"
      case Vosk => "Vosk"
    }
  }

  const DefaultEngineType: EngineType := Whisper

  /** The only Parakeet model. */
  datatype ParakeetModelSize = Tdt06bV3 {
    function ModelName(): string { "parakeet-tdt-0.6b-v3" }
    function DisplayName(): string { "Parakeet TDT 0.6B v3 (Multilingual)" }
  }

  const DefaultParakeetModelSize: ParakeetModelSize := Tdt06bV3

  datatype VoskLanguage =
    En | Fr | De | Es | It | Ru | Zh | Ja | Ko | Pt | Nl | Pl | Uk | Tr | Vi | Ar | Hi | Fa | Ca | Cs
  {
    function ModelName(): string {
      match this
      case En => "vosk-model-small-en-us-0.15"
      case Fr => "vosk-model-small-fr-0.22"
      case De => "vosk-model-small-de-0.15"
      case Es => "vosk-model-small-es-0.42"
      case It => "vosk-model-small-it-0.22"
      case Ru => "vosk-model-small-ru-0.22"
      case Zh => "vosk-model-small-cn-0.22"
      case Ja => "vosk-model-small-ja-0.22"
      case Ko => "vosk-model-small-ko-0.22"
      case Pt => "vosk-model-small-pt-0.3"
      case Nl => "vosk-model-small-nl-0.22"
      case Pl => "vosk-model-small-pl-0.22"
      case Uk => "vosk-model-small-uk-v3-small"
      case Tr => "vosk-model-small-tr-0.3"
      case Vi => "vosk-model-small-vn-0.4"
      case Ar => "vosk-model-ar-mgb2-0.4"
      case Hi => "vosk-model-small-hi-0.22"
      case Fa => "vosk-model-small-fa-0.5"
      case Ca => "vosk-model-small-ca-0.4"
      case Cs => "vosk-model-small-cs-0.4-rhasspy"
    }

    function DownloadUrl(): string {
      "https://alphacephei.com/vosk/models/" + ModelName() + ".zip"
    }

    /** The two-letter code `from_language_code` accepts for this language. */
    function Code(): string {
      match this
      case En => "en" case Fr => "fr" case De => "de" case Es => "es" case It => "it"
      case Ru => "ru" case Zh => "zh" case Ja => "ja" case Ko => "ko" case Pt => "pt"
      case Nl => "nl" case Pl => "pl" case Uk => "uk" case Tr => "tr" case Vi => "vi"
      case Ar => "ar" case Hi => "hi" case Fa => "fa" case Ca => "ca" case Cs => "cs"
    }

    /** The lower-case English name `from_language_code` accepts for this language. */
    function EnglishName(): string {
      match this
      case En => "english" case Fr => "french" case De => "german" case Es => "spanish"
      case It => "italian" case Ru => "russian" case Zh => "chinese" case Ja => "japanese"
      case Ko => "korean" case Pt => "portuguese" case Nl => "dutch" case Pl => "polish"
      case Uk => "ukrainian" case Tr => "turkish" case Vi => "vietnamese" case Ar => "arabic"
      case Hi => "hindi" case Fa => "persian" case Ca => "catalan" case Cs => "czech"
    }
  }

  const VoskBase: string := "https://alphacephei.com/vosk/models/"

  /** A Vosk download address is the models base followed by the archive
      name: the model name is read back from between the two. */
  lemma VoskUrlNamesModel(l: VoskLanguage)
    ensures |l.DownloadUrl()| == |VoskBase| + |l.ModelName()| + 4
    ensures l.DownloadUrl()[..|VoskBase|] == VoskBase
    ensures l.DownloadUrl()[|VoskBase| + |l.ModelName()|..] == ".zip"
    ensures l.DownloadUrl()[|VoskBase|..|VoskBase| + |l.ModelName()|] == l.ModelName()
  {
    ArchiveParts(VoskBase, l.ModelName(), ".zip");
  }

  lemma ArchiveParts(base: string, name: string, ext: string)
    ensures (base + name + ext)[..|base|] == base
    ensures (base + name + ext)[|base| + |name|..] == ext
    ensures (base + name + ext)[|base|..|base| + |name|] == name
  {
  }

  /** `VoskLanguage::from_language_code`: the code or English name, in any case. */
  function FromLanguageCode(code: string): Option<VoskLanguage> {
    LanguageOfName(Lower(code))
  }

  /** The match of `from_language_code` on the lower-cased input. */
  function LanguageOfName(name: string): Option<VoskLanguage> {
    match name
    case "en" | "english" => Some(En)
    case "fr" | "french" => Some(Fr)
    case "de" | "german" => Some(De)
    case "es" | "spanish" => Some(Es)
    case "it" | "italian" => Some(It)
    case "ru" | "russian" => Some(Ru)
    case "zh" | "chinese" => Some(Zh)
    case "ja" | "japanese" => Some(Ja)
    case "ko" | "korean" => Some(Ko)
    case "pt" | "portuguese" => Some(Pt)
    case "nl" | "dutch" => Some(Nl)
    case "pl" | "polish" => Some(Pl)
    case "uk" | "ukrainian" => Some(Uk)
    case "tr" | "turkish" => Some(Tr)
    case "vi" | "vietnamese" => Some(Vi)
    case "ar" | "arabic" => Some(Ar)
    case "hi" | "hindi" => Some(Hi)
    case "fa" | "persian" => Some(Fa)
    case "ca" | "catalan" => Some(Ca)
    case "cs" | "czech" => Some(Cs)
    case _ => None
  }

  lemma LanguageOfNameSound(name: string, l: VoskLanguage)
    requires LanguageOfName(name) == Some(l)
    ensures name == l.Code() || name == l.EnglishName()
  {
  }

  lemma LanguageOfNameComplete(l: VoskLanguage)
    ensures LanguageOfName(l.Code()) == Some(l) && LanguageOfName(l.EnglishName()) == Some(l)
  {
  }

  /** A language is recognised exactly when the lower-cased input is its code
      or its English name. */
  lemma FromLanguageCodeIff(code: string, l: VoskLanguage)
    ensures FromLanguageCode(code) == Some(l) <==> (Lower(code) == l.Code() || Lower(code) == l.EnglishName())
  {
    if LanguageOfName(Lower(code)) == Some(l) {
      LanguageOfNameSound(Lower(code), l);
    }
    LanguageOfNameComplete(l);
  }

  /** Recovers the language from characters 17 and 18 of a Vosk model
      directory name, where the names differ. */
  function LanguageOfModelTag(c1: char, c2: char): Option<VoskLanguage> {
    match (c1, c2)
    case ('e', 'n') => Some(En) case ('f', 'r') => Some(Fr) case ('d', 'e') => Some(De)
    case ('e', 's') => Some(Es) case ('i', 't') => Some(It) case ('r', 'u') => Some(Ru)
    case ('c', 'n') => Some(Zh) case ('j', 'a') => Some(Ja) case ('k', 'o') => Some(Ko)
    case ('p', 't') => Some(Pt) case ('n', 'l') => Some(Nl) case ('p', 'l') => Some(Pl)
    case ('u', 'k') => Some(Uk) case ('t', 'r') => Some(Tr) case ('v', 'n') => Some(Vi)
    case ('2', '-') => Some(Ar) case ('h', 'i') => Some(Hi) case ('f', 'a') => Some(Fa)
    case ('c', 'a') => Some(Ca) case ('c', 's') => Some(Cs)
    case _ => None
  }

  lemma ModelTagIdentifiesLanguage(l: VoskLanguage)
    ensures |l.ModelName()| > 18
    ensures LanguageOfModelTag(l.ModelName()[17], l.ModelName()[18]) == Some(l)
  {
  }

  /** No two Vosk languages share a model directory. */
  lemma ModelNamesDistinct(a: VoskLanguage, b: VoskLanguage)
    ensures a != b ==> a.ModelName() != b.ModelName()
  {
    ModelTagIdentifiesLanguage(a);
    ModelTagIdentifiesLanguage(b);
  }

  /** `TranscriptionResult`, with the `model_used` field its producers fill in. */
  datatype TranscriptionResult = TranscriptionResult(
    text: string,
    confidence: real,
    durationSeconds: real,
    processingTimeMs: nat,
    detectedLanguage: Option<string>,
    timestamp: int,
    modelUsed: Option<string>)

  /** `AppSettings`, with the fields its readers use that the record lacks
      (`hotkeyVoiceAction`, `parakeetModel`, `statsTrackingEnabled`). */
  datatype AppSettings = AppSettings(
    microphoneId: Option<string>,
    hotkeyPushToTalk: string,
    hotkeyToggleRecord: string,
    transcriptionLanguage: string,
    autoDetectLanguage: bool,
    theme: string,
    minimizeToTray: bool,
    autoCopyToClipboard: bool,
    notificationOnComplete: bool,
    whisperModel: ModelSize,
    llmEnabled: bool,
    llmMode: LlmMode,
    voiceCommandsEnabled: bool,
    dictationMode: DictationMode,
    streamingEnabled: bool,
    autoPasteEnabled: bool,
    floatingWindowEnabled: bool,
    floatingWindowPosition: Option<(int, int)>,
    translationEnabled: bool,
    translationTargetLanguage: string,
    hotkeyTranslate: string,
    engineType: EngineType,
    voskLanguage: Option<VoskLanguage>,
    hotkeyVoiceAction: string,
    parakeetModel: ParakeetModelSize,
    statsTrackingEnabled: bool)

  /** `AppSettings::default()`. The last three fields are not part of the
      record's `Default` impl; they take the empty string (no shortcut), the
      only Parakeet model, and `true`. */
  function DefaultSettings(): AppSettings {
    AppSettings(
      None, "CommandOrControl+Shift+Space", "CommandOrControl+Shift+R", "fr", false,
      "system", true, true, true, DefaultModelSize, false, DefaultLlmMode, true,
      DefaultDictationMode, true, true, false, None, true, "en", "CommandOrControl+Shift+T",
      DefaultEngineType, None, "", DefaultParakeetModelSize, true)
  }
}
