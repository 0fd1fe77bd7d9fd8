/** The Whisper engine (`WhisperEngine` in src-tauri/src/engines/whisper.rs):
    the checks made before a model is loaded or a recording is decoded, and
    how the decoder's segments become a `TranscriptionResult`. The decoder
    itself is a parameter. */
module Whisper {
  import opened Wrappers
  import opened Text
  import opened Types
  import MM = ModelManager

  /** The only sample rate the model accepts. */
  const ExpectedRate: nat := 16000

  const Confidence: real := 0.95

  datatype WhisperEngine = WhisperEngine(language: Option<string>, modelSize: ModelSize) {
    /** `name`. */
    function Name(): string { "Whisper" }

    /** `model_display_name`. */
    function ModelDisplayName(): string { "Whisper " + modelSize.DisplayName() }
  }

  /** A path in its Debug form. */
  function Shown(p: MM.Path): string {
    "\"" + Join(p, "/") + "\""
  }

  /** `WhisperEngine::new`, given what loading the model file gives: the file
      must exist before it is loaded. */
  function New(path: MM.Path, disk: MM.Disk, language: Option<string>, size: ModelSize,
               load: Outcome): Result<WhisperEngine>
  {
    if path !in disk then Err("Model file not found: " + Shown(path))
    else match load
      case Fail(e) => Err("Failed to load Whisper model: " + e)
      case Pass => Ok(WhisperEngine(language, size))
  }

  /** What the decoder gives: the segment texts (`None` for one it could not
      read) and the detected language. */
  datatype Decoding = Decoding(segments: seq<Option<string>>, detectedLanguage: Option<string>)

  /** Running the model on the audio with the language it is told to use; an
      error carries its message. */
  type Decoder = (seq<real>, Option<string>) -> Result<Decoding>

  /** The language handed to the decoder: none for "auto". */
  function ForwardedLanguage(language: Option<string>): Option<string> {
    match language
    case Some(l) => if l != "auto" then Some(l) else None
    case None => None
  }

  /** The segments that could be read, in order, one after the other. */
  function Joined(segments: seq<Option<string>>): string
    decreases |segments|
  {
    if segments == [] then []
    else
      var last := segments[|segments| - 1];
      Joined(segments[..|segments| - 1]) + (if last.Some? then last.value else [])
  }

  function Decimal(n: nat): string
    decreases n
  {
    var digit := "0123456789"[n % 10];
    if n < 10 then [digit] else Decimal(n / 10) + [digit]
  }

  function InvalidRateMessage(rate: nat): string {
    "Invalid sample rate: " + Decimal(rate) + "Hz (expected 16000Hz)"
  }

  const TooShortMessage: string := "Audio too short (minimum 0.5 seconds)"

  /** `transcribe`, with the elapsed time and the clock as parameters. */
  function TranscribeSpec(e: WhisperEngine, audio: seq<real>, rate: nat, decode: Decoder,
                          elapsedMs: nat, now: int): Result<TranscriptionResult>
  {
    if rate != ExpectedRate then Err(InvalidRateMessage(rate))
    else if 2 * |audio| < rate then Err(TooShortMessage)
    else match decode(audio, ForwardedLanguage(e.language))
      case Err(m) => Err(m)
      case Ok(d) =>
        Ok(TranscriptionResult(Trim(Joined(d.segments)), Confidence, |audio| as real / rate as real,
                               elapsedMs, d.detectedLanguage, now, Some(e.ModelDisplayName())))
  }

  method Transcribe(e: WhisperEngine, audio: seq<real>, rate: nat, decode: Decoder,
                    elapsedMs: nat, now: int) returns (r: Result<TranscriptionResult>)
    ensures r == TranscribeSpec(e, audio, rate, decode, elapsedMs, now)
  {
    if rate != ExpectedRate {
      return Err(InvalidRateMessage(rate));
    }
    var duration := |audio| as real / rate as real;
    if duration < 0.5 {
      return Err(TooShortMessage);
    }
    var language: Option<string> := None;
    if e.language.Some? {
      if e.language.value != "auto" {
        language := e.language;
      }
    }
    var decoded := decode(audio, language);
    if decoded.Err? {
      return Err(decoded.error);
    }
    var segments := decoded.value.segments;
    var text: string := [];
    var i := 0;
    while i < |segments|
      invariant 0 <= i <= |segments|
      invariant text == Joined(segments[..i])
      decreases |segments| - i
    {
      assert segments[..i + 1][..i] == segments[..i];
      if segments[i].Some? {
        text := text + segments[i].value;
      }
      i := i + 1;
    }
    assert segments[..|segments|] == segments;
    r := Ok(TranscriptionResult(Trim(text), Confidence, duration, elapsedMs,
                                decoded.value.detectedLanguage, now, Some(e.ModelDisplayName())));
  }

  // ---------------------------------------------------------------------
  // Properties

  /** A model is loaded only from a file that exists. */
  lemma NewNeedsModelFile(path: MM.Path, disk: MM.Disk, language: Option<string>, size: ModelSize, load: Outcome)
    ensures New(path, disk, language, size, load).Ok? <==> path in disk && load.Pass?
    ensures path !in disk ==> New(path, disk, language, size, load) == Err("Model file not found: " + Shown(path))
    ensures New(path, disk, language, size, load).Ok? ==>
              New(path, disk, language, size, load).value == WhisperEngine(language, size)
  {
  }

  /** A wrong sample rate is refused before anything else: neither the audio
      nor the decoder matter. */
  lemma RateCheckedFirst(e: WhisperEngine, a1: seq<real>, a2: seq<real>, rate: nat, d1: Decoder, d2: Decoder,
                         elapsedMs: nat, now: int)
    requires rate != ExpectedRate
    ensures TranscribeSpec(e, a1, rate, d1, elapsedMs, now) == TranscribeSpec(e, a2, rate, d2, elapsedMs, now)
    ensures TranscribeSpec(e, a1, rate, d1, elapsedMs, now).Err?
  {
  }

  /** At the right rate, fewer than 8000 samples (half a second) are refused
      without decoding; from 8000 on the decoder runs. */
  lemma HalfSecondFloor(e: WhisperEngine, audio: seq<real>, decode: Decoder, elapsedMs: nat, now: int)
    ensures |audio| < 8000 ==> TranscribeSpec(e, audio, 16000, decode, elapsedMs, now) == Err(TooShortMessage)
    ensures |audio| >= 8000 ==>
              TranscribeSpec(e, audio, 16000, decode, elapsedMs, now).Ok? ==
              decode(audio, ForwardedLanguage(e.language)).Ok?
  {
  }

  /** The language reaches the decoder only when one is set and it is not
      "auto"; then it is passed unchanged. */
  lemma LanguageForwarding(language: Option<string>)
    ensures ForwardedLanguage(language).Some? <==> language.Some? && language.value != "auto"
    ensures ForwardedLanguage(language).Some? ==> ForwardedLanguage(language) == language
  {
  }

  /** Segments are joined in order: the text of two runs of segments is the
      text of the first followed by that of the second. */
  lemma {:induction false} JoinedAppend(a: seq<Option<string>>, b: seq<Option<string>>)
    ensures Joined(a + b) == Joined(a) + Joined(b)
    decreases |b|
  {
    if b == [] {
      assert a + b == a;
    } else {
      var c := a + b;
      assert c[..|c| - 1] == a + b[..|b| - 1];
      JoinedAppend(a, b[..|b| - 1]);
    }
  }

  /** An unreadable segment contributes nothing. */
  lemma JoinedSkipsUnreadable(a: seq<Option<string>>, b: seq<Option<string>>)
    ensures Joined(a + [None] + b) == Joined(a + b)
  {
    JoinedAppend(a + [None], b);
    JoinedAppend(a, b);
    assert (a + [None])[..|a|] == a;
  }

  /** A result carries the trimmed text, confidence 0.95, a duration of at
      least half a second measured at 16000 Hz, and the model's display name,
      which starts with the engine's name. */
  lemma ResultShape(e: WhisperEngine, audio: seq<real>, rate: nat, decode: Decoder, elapsedMs: nat, now: int)
    requires TranscribeSpec(e, audio, rate, decode, elapsedMs, now).Ok?
    ensures var r := TranscribeSpec(e, audio, rate, decode, elapsedMs, now).value;
            && rate == 16000 && |audio| >= 8000
            && Trimmed(r.text) && r.confidence == 0.95
            && r.durationSeconds == |audio| as real / 16000.0 && r.durationSeconds >= 0.5
            && r.modelUsed == Some(e.Name() + " " + e.modelSize.DisplayName())
  {
    var r := TranscribeSpec(e, audio, rate, decode, elapsedMs, now).value;
    TrimIsTrimmed(Joined(decode(audio, ForwardedLanguage(e.language)).value.segments));
    assert "Whisper " == "Whisper" + " ";
  }

  /** The display name tells the model sizes apart. */
  lemma DisplayNamesDistinct(a: WhisperEngine, b: WhisperEngine)
    requires a.modelSize != b.modelSize
    ensures a.ModelDisplayName() != b.ModelDisplayName()
  {
    assert a.ModelDisplayName()[8] != b.ModelDisplayName()[8];
  }
}
