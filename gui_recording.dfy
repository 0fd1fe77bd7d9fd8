/** The GUI recording commands (`start_recording`, `stop_recording` and
    `reset_recording_state` in src-tauri/src/commands/transcription.rs):
    the `is_recording` flag of the application state and the
    `STREAMING_ACTIVE` flag, and the pipeline from the recording to the
    final text: duration floor, transcription, voice commands, then the
    language model. */
module GuiRecording {
  import opened Wrappers
  import opened Text
  import opened Types
  import VoiceParser
  import GuiActor
  import P = PttStreaming
  import opened GuiStreaming

  /** The audio thread's command sender as a command finds it: never set,
      set but with the thread gone, or working. */
  datatype Sender = Uninitialized | Hungup | Connected

  /** What waiting five seconds on the result channel gives. */
  datatype Receipt =
    | Delivered(audio: seq<real>, sampleRate: nat)
    | TimedOut
    | Disconnected
    | NoReceiver

  /** The language-model post-processing call
      `process(text, llm_mode, dictation_mode, api_key)`. */
  type Process = (string, LlmMode, DictationMode, string) -> Result<string>

  /** `is_recording` and `STREAMING_ACTIVE`. */
  datatype Flags = Flags(isRecording: bool, streamingActive: bool)

  /** The ways a GUI recording command fails, with the message it returns. */
  datatype CommandError =
    | AlreadyRecording
    | NotRecording
    | ThreadNotInitialized
    | SendFailed
    | ReceiveTimedOut
    | ReceiveDisconnected
    | ReceiverNotInitialized
    | NoAudioCaptured
    | RecordingTooShort
    | EngineNotInitialized
    | EngineError(engineMessage: string)
    | HistoryError(historyMessage: string)
  {
    function Message(): string {
      match this
      case AlreadyRecording => "Already recording"
      case NotRecording => "Not recording"
      case ThreadNotInitialized => "Audio thread not initialized"
      case SendFailed => "sending on a closed channel"
      case ReceiveTimedOut => "Failed to receive audio data: timed out waiting on channel"
      case ReceiveDisconnected => "Failed to receive audio data: channel is empty and sending half is closed"
      case ReceiverNotInitialized => "Audio result receiver not initialized"
      case NoAudioCaptured => "No audio captured"
      case RecordingTooShort => "Recording too short (minimum 0.5 seconds)"
      case EngineNotInitialized => "Whisper engine not initialized. Please download a model first."
      case EngineError(m) => m
      case HistoryError(m) => m
    }
  }

  datatype StartResult = Started | Refused(error: CommandError)

  datatype StopResult = Finished(result: TranscriptionResult) | StopFailed(error: CommandError)

  /** `start_recording`: the outcome, the flags afterwards and the effects. */
  function StartSpec(f: Flags, settings: AppSettings, sender: Sender): (StartResult, Flags, seq<GuiEffect>) {
    if f.isRecording then (Refused(AlreadyRecording), f, [])
    else
      match sender
      case Uninitialized => (Refused(ThreadNotInitialized), f, [])
      case Hungup => (Refused(SendFailed), f, [])
      case Connected =>
        (Started, Flags(true, settings.streamingEnabled),
         [SendCommand(GuiActor.Start(settings.microphoneId)), RecordingStatus(Recording)]
           + (if settings.streamingEnabled then [SpawnStreamingTask] else []))
  }

  /** The text after post-processing: the voice commands are applied only
      when enabled, and the language model's answer replaces the text only
      when it is enabled, a key exists and the call succeeds. */
  function PostProcess(text: string, settings: AppSettings, apiKey: Option<string>, process: Process): string {
    var parsed := if settings.voiceCommandsEnabled
                  then VoiceParser.ParseSpec(text, settings.dictationMode).text else text;
    if settings.llmEnabled && apiKey.Some? then
      match process(parsed, settings.llmMode, settings.dictationMode, apiKey.value)
      case Ok(processed) => processed
      case Err(_) => parsed
    else parsed
  }

  /** What happens to a delivered recording: the result and the effects. */
  function FromAudio(audio: seq<real>, rate: nat, settings: AppSettings,
                     resample: (seq<real>, nat) -> seq<real>, engine: Engine,
                     apiKey: Option<string>, process: Process, saved: Outcome)
    : (StopResult, seq<GuiEffect>)
  {
    if audio == [] then (StopFailed(NoAudioCaptured), [RecordingStatus(Idle)])
    else if P.UnderHalfSecond(|audio|, rate) then
      (StopFailed(RecordingTooShort), [RecordingStatus(Idle)])
    else
      match engine
      case None => (StopFailed(EngineNotInitialized), [])
      case Some(transcribe) =>
        match transcribe(P.Resampled(audio, rate, resample))
        case Err(e) => (StopFailed(EngineError(e)), [])
        case Ok(result) =>
          var finalResult := result.(text := PostProcess(result.text, settings, apiKey, process));
          var effects := [TranscriptionChunk(finalResult.text, true, AudioLength(|audio|, rate)),
                          RecordingStatus(Idle), AddToHistory(finalResult)];
          if saved.Fail? then (StopFailed(HistoryError(saved.error)), effects) else (Finished(finalResult), effects)
  }

  /** What happens once Stop was sent, by what the result channel gives:
      the result and the effects. */
  function FromReceipt(receipt: Receipt, settings: AppSettings,
                       resample: (seq<real>, nat) -> seq<real>, engine: Engine,
                       apiKey: Option<string>, process: Process, saved: Outcome)
    : (StopResult, seq<GuiEffect>)
  {
    match receipt
    case TimedOut =>
      (StopFailed(ReceiveTimedOut), [RecordingStatus(Idle)])
    case Disconnected =>
      (StopFailed(ReceiveDisconnected), [RecordingStatus(Idle)])
    case NoReceiver => (StopFailed(ReceiverNotInitialized), [RecordingStatus(Idle)])
    case Delivered(audio, rate) => FromAudio(audio, rate, settings, resample, engine, apiKey, process, saved)
  }

  /** `stop_recording` up to the wait on the result channel, on a recorder
      whose `is_recording` was `wasRecording`; `received` is what the rest
      would give. */
  function Stopped(wasRecording: bool, sender: Sender, received: (StopResult, seq<GuiEffect>))
    : (StopResult, seq<GuiEffect>)
  {
    var processing := [RecordingStatus(Processing)];
    if !wasRecording then (StopFailed(NotRecording), processing + [RecordingStatus(Idle)])
    else
      match sender
      case Uninitialized => (StopFailed(ThreadNotInitialized), processing + [RecordingStatus(Idle)])
      case Hungup => (StopFailed(SendFailed), processing)
      case Connected => (received.0, processing + [SendCommand(GuiActor.Stop)] + received.1)
  }

  /** `stop_recording`: the result and the effects. Both flags end cleared. */
  function StopSpec(wasRecording: bool, sender: Sender, receipt: Receipt, settings: AppSettings,
                    resample: (seq<real>, nat) -> seq<real>, engine: Engine,
                    apiKey: Option<string>, process: Process, saved: Outcome)
    : (StopResult, seq<GuiEffect>)
  {
    Stopped(wasRecording, sender, FromReceipt(receipt, settings, resample, engine, apiKey, process, saved))
  }

  /** The recording flags, with one method per command. */
  class Recorder {
    var isRecording: bool
    var streamingActive: bool

    /** `AppState::new` and the static's initial value. */
    constructor ()
      ensures !isRecording && !streamingActive
    {
      isRecording := false;
      streamingActive := false;
    }

    function State(): Flags
      reads this
    {
      Flags(isRecording, streamingActive)
    }

    /** `start_recording`. The check and the update happen under one write
        lock, so they are one step here. */
    method StartRecording(settings: AppSettings, sender: Sender) returns (r: StartResult, effects: seq<GuiEffect>)
      modifies this
      ensures (r, State(), effects) == StartSpec(old(State()), settings, sender)
    {
      effects := [];
      if isRecording {
        return Refused(AlreadyRecording), [];
      }
      var deviceId := settings.microphoneId;
      var streamingEnabled := settings.streamingEnabled;
      match sender {
        case Uninitialized =>
          return Refused(ThreadNotInitialized), [];
        case Hungup =>
          return Refused(SendFailed), [];
        case Connected =>
          effects := [SendCommand(GuiActor.Start(deviceId))];
      }
      isRecording := true;
      streamingActive := streamingEnabled;
      effects := effects + [RecordingStatus(Recording)];
      if streamingEnabled {
        effects := effects + [SpawnStreamingTask];
      }
      assert effects == [SendCommand(GuiActor.Start(settings.microphoneId)), RecordingStatus(Recording)]
                        + (if settings.streamingEnabled then [SpawnStreamingTask] else []);
      r := Started;
    }

    /** The post-processing steps of `stop_recording`. */
    static method ApplyPostProcessing(text: string, settings: AppSettings, apiKey: Option<string>, process: Process)
      returns (finalText: string)
      ensures finalText == PostProcess(text, settings, apiKey, process)
    {
      finalText := text;
      if settings.voiceCommandsEnabled {
        var parsed := VoiceParser.Parse(finalText, settings.dictationMode);
        finalText := parsed.text;
      }
      if settings.llmEnabled {
        if apiKey.Some? {
          var answer := process(finalText, settings.llmMode, settings.dictationMode, apiKey.value);
          if answer.Ok? {
            finalText := answer.value;
          }
        }
      }
    }

    /** `stop_recording`: the streaming task is told to stop first, then the
        flag is checked and cleared before the audio is waited for. */
    method StopRecording(sender: Sender, receipt: Receipt, settings: AppSettings,
                         resample: (seq<real>, nat) -> seq<real>, engine: Engine,
                         apiKey: Option<string>, process: Process, saved: Outcome)
      returns (r: StopResult, effects: seq<GuiEffect>)
      modifies this
      ensures !isRecording && !streamingActive
      ensures (r, effects) ==
              Stopped(old(isRecording), sender, FromReceipt(receipt, settings, resample, engine, apiKey, process, saved))
    {
      streamingActive := false;
      effects := [RecordingStatus(Processing)];
      if !isRecording {
        return StopFailed(NotRecording), effects + [RecordingStatus(Idle)];
      }
      isRecording := false;
      match sender {
        case Uninitialized =>
          return StopFailed(ThreadNotInitialized), effects + [RecordingStatus(Idle)];
        case Hungup =>
          return StopFailed(SendFailed), effects;
        case Connected =>
          effects := effects + [SendCommand(GuiActor.Stop)];
      }
      var after;
      r, after := AwaitAudio(receipt, settings, resample, engine, apiKey, process, saved);
      effects := effects + after;
    }

    /** The wait on the result channel, and what follows it. */
    static method AwaitAudio(receipt: Receipt, settings: AppSettings,
                             resample: (seq<real>, nat) -> seq<real>, engine: Engine,
                             apiKey: Option<string>, process: Process, saved: Outcome)
      returns (r: StopResult, effects: seq<GuiEffect>)
      ensures (r, effects) == FromReceipt(receipt, settings, resample, engine, apiKey, process, saved)
    {
      match receipt {
        case TimedOut =>
          return StopFailed(ReceiveTimedOut), [RecordingStatus(Idle)];
        case Disconnected =>
          return StopFailed(ReceiveDisconnected),
                 [RecordingStatus(Idle)];
        case NoReceiver =>
          return StopFailed(ReceiverNotInitialized), [RecordingStatus(Idle)];
        case Delivered(audio, rate) =>
          r, effects := Finish(audio, rate, settings, resample, engine, apiKey, process, saved);
      }
    }

    /** `stop_recording` once the audio arrived: the checks, the
        transcription, the post-processing and the history entry. */
    static method Finish(audio: seq<real>, rate: nat, settings: AppSettings,
                         resample: (seq<real>, nat) -> seq<real>, engine: Engine,
                         apiKey: Option<string>, process: Process, saved: Outcome)
      returns (r: StopResult, effects: seq<GuiEffect>)
      ensures (r, effects) == FromAudio(audio, rate, settings, resample, engine, apiKey, process, saved)
    {
      if audio == [] {
        return StopFailed(NoAudioCaptured), [RecordingStatus(Idle)];
      }
      if P.UnderHalfSecond(|audio|, rate) {
        return StopFailed(RecordingTooShort), [RecordingStatus(Idle)];
      }
      var input := if rate != P.TargetSampleRate then resample(audio, rate) else audio;
      if engine.None? {
        return StopFailed(EngineNotInitialized), [];
      }
      var outcome := engine.value(input);
      if outcome.Err? {
        return StopFailed(EngineError(outcome.error)), [];
      }
      var result := outcome.value;
      var finalText := ApplyPostProcessing(result.text, settings, apiKey, process);
      var finalResult := result.(text := finalText);
      effects := [TranscriptionChunk(finalText, true, AudioLength(|audio|, rate)),
                  RecordingStatus(Idle), AddToHistory(finalResult)];
      if saved.Fail? {
        return StopFailed(HistoryError(saved.error)), effects;
      }
      r := Finished(finalResult);
    }

    /** `reset_recording_state`: both flags cleared, then idle reported. */
    method ResetRecordingState() returns (effects: seq<GuiEffect>)
      modifies this
      ensures !isRecording && !streamingActive
      ensures effects == [RecordingStatus(Idle)]
    {
      streamingActive := false;
      isRecording := false;
      effects := [RecordingStatus(Idle)];
    }
  }

  // ---------------------------------------------------------------------
  // Starting

  /** A second start is refused and changes nothing. */
  lemma AlreadyRecordingRefused(f: Flags, settings: AppSettings, sender: Sender)
    requires f.isRecording
    ensures StartSpec(f, settings, sender) == (Refused(AlreadyRecording), f, [])
  {
  }

  /** A start succeeds exactly when nothing is being recorded and the audio
      thread takes the command. It then sets `is_recording`, makes
      `STREAMING_ACTIVE` equal to the streaming setting, sends Start with the
      configured microphone, and spawns the streaming task only when
      streaming is enabled. A failed start changes no flag and does nothing. */
  lemma StartOutcome(f: Flags, settings: AppSettings, sender: Sender)
    ensures var (r, g, effects) := StartSpec(f, settings, sender);
            && (r.Started? <==> !f.isRecording && sender == Connected)
            && (r.Started? ==>
                  && g == Flags(true, settings.streamingEnabled)
                  && effects[0] == SendCommand(GuiActor.Start(settings.microphoneId))
                  && (SpawnStreamingTask in effects <==> settings.streamingEnabled))
            && (r.Refused? ==> g == f && effects == [])
  {
  }

  // ---------------------------------------------------------------------
  // Stopping

  /** Stopping when nothing is recorded reports processing then idle and
      fails with "Not recording". */
  lemma StopWhenIdle(sender: Sender, receipt: Receipt, settings: AppSettings,
                     resample: (seq<real>, nat) -> seq<real>, engine: Engine,
                     apiKey: Option<string>, process: Process, saved: Outcome)
    ensures StopSpec(false, sender, receipt, settings, resample, engine, apiKey, process, saved) ==
            (StopFailed(NotRecording), [RecordingStatus(Processing), RecordingStatus(Idle)])
  {
    assert [RecordingStatus(Processing)] + [RecordingStatus(Idle)] ==
           [RecordingStatus(Processing), RecordingStatus(Idle)];
  }

  /** An empty recording and one under half a second are refused before
      anything is transcribed: the outcome does not depend on the engine,
      the language model or the history. */
  lemma UnusableAudioRefused(audio: seq<real>, rate: nat, settings: AppSettings,
                             resample: (seq<real>, nat) -> seq<real>, engine: Engine,
                             apiKey: Option<string>, process: Process, saved: Outcome)
    requires audio == [] || P.UnderHalfSecond(|audio|, rate)
    ensures StopSpec(true, Connected, Delivered(audio, rate), settings, resample, engine, apiKey, process, saved) ==
            (StopFailed(if audio == [] then NoAudioCaptured else RecordingTooShort),
             [RecordingStatus(Processing), SendCommand(GuiActor.Stop), RecordingStatus(Idle)])
  {
    assert [RecordingStatus(Processing)] + [SendCommand(GuiActor.Stop)] + [RecordingStatus(Idle)] ==
           [RecordingStatus(Processing), SendCommand(GuiActor.Stop), RecordingStatus(Idle)];
  }

  /** Disabled post-processing leaves the transcript as it is; voice
      commands alone give the parser's text. */
  lemma PostProcessWhenDisabled(text: string, settings: AppSettings, apiKey: Option<string>, process: Process)
    ensures !settings.voiceCommandsEnabled && !settings.llmEnabled ==>
              PostProcess(text, settings, apiKey, process) == text
    ensures settings.voiceCommandsEnabled && !settings.llmEnabled ==>
              PostProcess(text, settings, apiKey, process) == VoiceParser.ParseSpec(text, settings.dictationMode).text
  {
  }

  /** A missing key or a failed call to the language model keeps the text
      as it was before it: the same as with the model disabled. */
  lemma LlmFailureKeepsText(text: string, settings: AppSettings, apiKey: Option<string>, process: Process)
    requires apiKey.None? ||
             process(if settings.voiceCommandsEnabled then VoiceParser.ParseSpec(text, settings.dictationMode).text else text,
                     settings.llmMode, settings.dictationMode, apiKey.value).Err?
    ensures PostProcess(text, settings, apiKey, process) == PostProcess(text, settings.(llmEnabled := false), apiKey, process)
  {
  }

  /** The effects after a delivered recording: the final chunk, idle and the
      history entry on a transcription, idle alone on a refused recording,
      nothing on a missing engine or a transcription error. */
  lemma FromAudioShape(audio: seq<real>, rate: nat, settings: AppSettings,
                       resample: (seq<real>, nat) -> seq<real>, engine: Engine,
                       apiKey: Option<string>, process: Process, saved: Outcome)
    ensures var (r, effects) := FromAudio(audio, rate, settings, resample, engine, apiKey, process, saved);
            var usable := audio != [] && !P.UnderHalfSecond(|audio|, rate);
            && (!usable ==> r.StopFailed? && effects == [RecordingStatus(Idle)])
            && (usable && (engine.None? || engine.value(P.Resampled(audio, rate, resample)).Err?) ==>
                  r.StopFailed? && effects == [])
            && (usable && engine.Some? && engine.value(P.Resampled(audio, rate, resample)).Ok? ==>
                  var t := engine.value(P.Resampled(audio, rate, resample)).value;
                  var final := t.(text := PostProcess(t.text, settings, apiKey, process));
                  && effects == [TranscriptionChunk(final.text, true, AudioLength(|audio|, rate)),
                                 RecordingStatus(Idle), AddToHistory(final)]
                  && r == (if saved.Fail? then StopFailed(HistoryError(saved.error)) else Finished(final)))
  {
  }

  /** A successful stop transcribed the delivered recording: its text is the
      post-processed transcript, and the effects end with the one final
      chunk (timed by the recording's own length), idle, and the history
      entry. */
  lemma SuccessfulStop(wasRecording: bool, sender: Sender, receipt: Receipt, settings: AppSettings,
                       resample: (seq<real>, nat) -> seq<real>, engine: Engine,
                       apiKey: Option<string>, process: Process, saved: Outcome)
    ensures var (r, effects) := StopSpec(wasRecording, sender, receipt, settings, resample, engine, apiKey, process, saved);
            r.Finished? ==>
              && wasRecording && sender == Connected && receipt.Delivered? && engine.Some? && saved.Pass?
              && var t := engine.value(P.Resampled(receipt.audio, receipt.sampleRate, resample));
                 && t.Ok?
                 && r.result == t.value.(text := PostProcess(t.value.text, settings, apiKey, process))
                 && effects == [RecordingStatus(Processing), SendCommand(GuiActor.Stop),
                                TranscriptionChunk(r.result.text, true, AudioLength(|receipt.audio|, receipt.sampleRate)),
                                RecordingStatus(Idle), AddToHistory(r.result)]
  {
    if wasRecording && sender == Connected && receipt.Delivered? {
      FromAudioShape(receipt.audio, receipt.sampleRate, settings, resample, engine, apiKey, process, saved);
    }
  }

  /** The failures after which idle is never reported: a send on a closed
      channel, a missing engine, and a transcription error. */
  predicate SilentFailure(wasRecording: bool, sender: Sender, receipt: Receipt,
                          resample: (seq<real>, nat) -> seq<real>, engine: Engine)
  {
    && wasRecording
    && (|| sender == Hungup
        || (&& sender == Connected && receipt.Delivered?
            && receipt.audio != [] && !P.UnderHalfSecond(|receipt.audio|, receipt.sampleRate)
            && (|| engine.None?
                || engine.value(P.Resampled(receipt.audio, receipt.sampleRate, resample)).Err?)))
  }

  /** Processing is always reported first, and idle is reported on every way
      out except the silent failures, which end with processing. */
  lemma IdleUnlessSilent(wasRecording: bool, sender: Sender, receipt: Receipt, settings: AppSettings,
                         resample: (seq<real>, nat) -> seq<real>, engine: Engine,
                         apiKey: Option<string>, process: Process, saved: Outcome)
    ensures var (r, effects) := StopSpec(wasRecording, sender, receipt, settings, resample, engine, apiKey, process, saved);
            && effects != [] && effects[0] == RecordingStatus(Processing)
            && (RecordingStatus(Idle) in effects <==> !SilentFailure(wasRecording, sender, receipt, resample, engine))
            && (SilentFailure(wasRecording, sender, receipt, resample, engine) ==> r.StopFailed?)
  {
    if wasRecording && sender == Connected && receipt.Delivered? {
      FromAudioShape(receipt.audio, receipt.sampleRate, settings, resample, engine, apiKey, process, saved);
    }
  }

  // ---------------------------------------------------------------------
  // Commands in sequence

  /** A started recording is stopped at the audio thread: the next stop
      sends Stop instead of failing with "Not recording". */
  lemma StartThenStop(f: Flags, settings: AppSettings, receipt: Receipt,
                      resample: (seq<real>, nat) -> seq<real>, engine: Engine,
                      apiKey: Option<string>, process: Process, saved: Outcome)
    requires StartSpec(f, settings, Connected).0.Started?
    ensures var g := StartSpec(f, settings, Connected).1;
            StopSpec(g.isRecording, Connected, receipt, settings, resample, engine, apiKey, process, saved).1[..2] ==
            [RecordingStatus(Processing), SendCommand(GuiActor.Stop)]
  {
  }

  /** After a reset a start is accepted again, whatever was stuck before. */
  lemma ResetThenStart(settings: AppSettings)
    ensures StartSpec(Flags(false, false), settings, Connected).0 == Started
  {
  }
}
