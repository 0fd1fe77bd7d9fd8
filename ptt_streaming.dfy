/** Real-time typing while the push-to-talk key is held
    (`start_streaming_transcription` in src-tauri/src/ptt.rs): once a second
    the whole recording so far is transcribed again, and only the part of
    the trimmed transcript beyond what was already typed is typed. */
module PttStreaming {
  import opened Wrappers
  import opened Text
  import opened Types

  /** The rate the speech engines are given audio at. */
  const TargetSampleRate: nat := 16000

  /** What the push-to-talk threads do to the outside world, in order. */
  datatype Effect =
    | SendStart
    | SendStop
    | RequestSnapshot
    | StreamChunk(text: string, samples: nat, rate: nat)
    | FinalChunk(text: string, durationSeconds: real)
    | AddToHistory(result: TranscriptionResult)
    | TypeText(typed: string)
    | PasteText(pasted: string)
    | CopySelection
    | TrayVoiceAction
    | TrayIdle
    | VoiceStatus(status: string)
    | VoiceError(message: string)
    | VoiceComplete(response: string)

  /** The `STREAMING_TEXT` and `SELECTED_TEXT_FOR_ACTION` mutexes. */
  class PttShared {
    var streamingText: string
    var selectedText: string

    constructor ()
      ensures streamingText == [] && selectedText == []
    {
      streamingText := [];
      selectedText := [];
    }
  }

  /** The audio handed to the engine: resampled to 16 kHz unless already there. */
  function Resampled(audio: seq<real>, rate: nat, resample: (seq<real>, nat) -> seq<real>): (r: seq<real>)
    ensures rate == TargetSampleRate ==> r == audio
  {
    if rate != TargetSampleRate then resample(audio, rate) else audio
  }

  /** `len as f32 / rate as f32 < 1.0`. With a zero rate the quotient is
      infinite or NaN and the comparison is false. */
  predicate UnderOneSecond(samples: nat, rate: nat) {
    rate > 0 && samples < rate
  }

  /** `len as f32 / rate as f32 < 0.5`, likewise. */
  predicate UnderHalfSecond(samples: nat, rate: nat) {
    rate > 0 && 2 * samples < rate
  }

  /** Everything typed, in order. */
  function Screen(effects: seq<Effect>): string {
    if effects == [] then []
    else (if effects[0].TypeText? then effects[0].typed else []) + Screen(effects[1..])
  }

  lemma {:induction false} ScreenAppend(a: seq<Effect>, b: seq<Effect>)
    ensures Screen(a + b) == Screen(a) + Screen(b)
    decreases |a|
  {
    if a != [] {
      assert (a + b)[0] == a[0] && (a + b)[1..] == a[1..] + b;
      ScreenAppend(a[1..], b);
    } else {
      assert a + b == b;
    }
  }

  /** A non-empty tail of a trimmed string ends with its last character,
      which is not whitespace: the loop's `!new_text.trim().is_empty()`
      test is always true. */
  lemma SuffixOfTrimmedNotWhite(t: string, k: nat)
    requires Trimmed(t) && k < |t|
    ensures !AllWhite(t[k..])
  {
    assert t[k..][|t| - 1 - k] == t[|t| - 1];
  }

  /** `last_text_len`, the last transcript stored in `STREAMING_TEXT`, and
      what was done so far. */
  datatype StreamState = StreamState(lastLen: nat, text: string, sent: seq<Effect>)

  /** One pass of the loop after the flag was still set: a snapshot is
      asked for; a missing one, one under a second, a failed or empty
      transcription skip the rest. Otherwise the chunk is reported, and if
      the trimmed transcript grew, its part beyond `lastLen` is typed and it
      becomes the streaming text. */
  function StreamTick(st: StreamState, snapshot: Option<(seq<real>, nat)>,
                      resample: (seq<real>, nat) -> seq<real>,
                      transcribe: seq<real> -> Result<TranscriptionResult>): StreamState
  {
    var asked := st.sent + [RequestSnapshot];
    match snapshot
    case None => st.(sent := asked)
    case Some((audio, rate)) =>
      if UnderOneSecond(|audio|, rate) then st.(sent := asked)
      else
        match transcribe(Resampled(audio, rate, resample))
        case Err(_) => st.(sent := asked)
        case Ok(result) =>
          if result.text == [] then st.(sent := asked)
          else
            var reported := asked + [StreamChunk(result.text, |audio|, rate)];
            var current := Trim(result.text);
            if |current| > st.lastLen then
              var newText := current[st.lastLen..];
              StreamState(|current|, current,
                          reported + (if AllWhite(newText) then [] else [TypeText(newText)]))
            else st.(sent := reported)
  }

  /** One iteration as the loop sees it: whether `IS_PTT_ACTIVE` was still
      set after the one-second sleep, and the snapshot that came back
      within 500 ms (`None` for a timeout or any other message). */
  datatype Tick = Tick(active: bool, snapshot: Option<(seq<real>, nat)>)

  /** The loop, up to the first tick that finds the key released. */
  function StreamRun(st: StreamState, ticks: seq<Tick>,
                     resample: (seq<real>, nat) -> seq<real>,
                     transcribe: seq<real> -> Result<TranscriptionResult>): StreamState
    decreases |ticks|
  {
    if ticks == [] || !ticks[0].active then st
    else StreamRun(StreamTick(st, ticks[0].snapshot, resample, transcribe), ticks[1..], resample, transcribe)
  }

  /** `start_streaming_transcription`: nothing at all unless streaming is
      enabled; otherwise the loop, writing `STREAMING_TEXT` when the
      transcript grew. */
  method StreamLoop(shared: PttShared, streamingEnabled: bool, ticks: seq<Tick>,
                    resample: (seq<real>, nat) -> seq<real>,
                    transcribe: seq<real> -> Result<TranscriptionResult>)
    returns (sent: seq<Effect>)
    modifies shared
    ensures shared.selectedText == old(shared.selectedText)
    ensures !streamingEnabled ==> sent == [] && shared.streamingText == old(shared.streamingText)
    ensures streamingEnabled ==>
              var last := StreamRun(StreamState(0, old(shared.streamingText), []), ticks, resample, transcribe);
              sent == last.sent && shared.streamingText == last.text
  {
    sent := [];
    if !streamingEnabled {
      return;
    }
    var lastTextLen: nat := 0;
    var i := 0;
    while i < |ticks|
      invariant 0 <= i <= |ticks|
      invariant shared.selectedText == old(shared.selectedText)
      invariant StreamRun(StreamState(lastTextLen, shared.streamingText, sent), ticks[i..], resample, transcribe) ==
                StreamRun(StreamState(0, old(shared.streamingText), []), ticks, resample, transcribe)
      decreases |ticks| - i
    {
      var tick := ticks[i];
      if !tick.active {
        break;
      }
      assert ticks[i..][1..] == ticks[i + 1..];
      ghost var before := StreamState(lastTextLen, shared.streamingText, sent);
      sent := sent + [RequestSnapshot];
      i := i + 1;
      if tick.snapshot.None? {
        continue;
      }
      var (audio, rate) := tick.snapshot.value;
      if UnderOneSecond(|audio|, rate) {
        continue;
      }
      var input := if rate != TargetSampleRate then resample(audio, rate) else audio;
      var outcome := transcribe(input);
      if outcome.Err? {
        continue;
      }
      var text := outcome.value.text;
      if text == [] {
        continue;
      }
      sent := sent + [StreamChunk(text, |audio|, rate)];
      var current := Trim(text);
      if |current| > lastTextLen {
        var newText := current[lastTextLen..];
        if !AllWhite(newText) {
          sent := sent + [TypeText(newText)];
        }
        lastTextLen := |current|;
        shared.streamingText := current;
      }
      assert StreamState(lastTextLen, shared.streamingText, sent) ==
             StreamTick(before, tick.snapshot, resample, transcribe);
    }
  }

  // ---------------------------------------------------------------------
  // The delta rule

  /** A tick under one second of audio types nothing and keeps the state. */
  lemma ShortSnapshotSkipped(st: StreamState, audio: seq<real>, rate: nat,
                             resample: (seq<real>, nat) -> seq<real>,
                             transcribe: seq<real> -> Result<TranscriptionResult>)
    requires UnderOneSecond(|audio|, rate)
    ensures StreamTick(st, Some((audio, rate)), resample, transcribe) == st.(sent := st.sent + [RequestSnapshot])
  {
  }

  /** What one tick may do: `lastLen` never decreases; the streaming text
      changes only when the trimmed transcript grew, and then becomes it;
      and the one text typed, if any, is exactly that transcript beyond the
      old `lastLen`. */
  lemma TickDelta(st: StreamState, snapshot: Option<(seq<real>, nat)>,
                  resample: (seq<real>, nat) -> seq<real>,
                  transcribe: seq<real> -> Result<TranscriptionResult>)
    ensures var next := StreamTick(st, snapshot, resample, transcribe);
            && next.lastLen >= st.lastLen
            && st.sent <= next.sent
            && (next.lastLen != st.lastLen || next.text != st.text ==>
                  && snapshot.Some?
                  && var grown := Trim(transcribe(Resampled(snapshot.value.0, snapshot.value.1, resample)).value.text);
                     && next.text == grown && next.lastLen == |grown| > st.lastLen
                     && Screen(next.sent) == Screen(st.sent) + grown[st.lastLen..])
            && (next.lastLen == st.lastLen ==> next.text == st.text && Screen(next.sent) == Screen(st.sent))
  {
    var asked := st.sent + [RequestSnapshot];
    ScreenAppend(st.sent, [RequestSnapshot]);
    assert Screen([RequestSnapshot]) == [];
    if snapshot.Some? && !UnderOneSecond(|snapshot.value.0|, snapshot.value.1) {
      var outcome := transcribe(Resampled(snapshot.value.0, snapshot.value.1, resample));
      if outcome.Ok? && outcome.value.text != [] {
        var text := outcome.value.text;
        var reported := asked + [StreamChunk(text, |snapshot.value.0|, snapshot.value.1)];
        ScreenAppend(asked, [StreamChunk(text, |snapshot.value.0|, snapshot.value.1)]);
        assert Screen([StreamChunk(text, |snapshot.value.0|, snapshot.value.1)]) == [];
        if |Trim(text)| > st.lastLen {
          GrownTyped(reported, text, st.lastLen);
        }
      }
    }
  }

  /** A grown transcript types exactly its part beyond `lastLen`: that part
      of a trimmed text is never all whitespace. */
  lemma GrownTyped(sent: seq<Effect>, text: string, lastLen: nat)
    requires lastLen < |Trim(text)|
    ensures !AllWhite(Trim(text)[lastLen..])
    ensures Screen(sent + [TypeText(Trim(text)[lastLen..])]) == Screen(sent) + Trim(text)[lastLen..]
  {
    TrimIsTrimmed(text);
    SuffixOfTrimmedNotWhite(Trim(text), lastLen);
    var typed := [TypeText(Trim(text)[lastLen..])];
    ScreenAppend(sent, typed);
    assert Screen(typed) == Trim(text)[lastLen..] + Screen(typed[1..]);
  }

  /** Over the whole loop `lastLen` never decreases, nothing done is
      undone, and everything typed adds up to `lastLen` characters more:
      started from nothing typed, the typed length is `last_text_len`. */
  lemma {:induction false} TypedLengthIsLastLen(st: StreamState, ticks: seq<Tick>,
                                                resample: (seq<real>, nat) -> seq<real>,
                                                transcribe: seq<real> -> Result<TranscriptionResult>)
    ensures var last := StreamRun(st, ticks, resample, transcribe);
            && last.lastLen >= st.lastLen
            && st.sent <= last.sent
            && |Screen(last.sent)| - last.lastLen == |Screen(st.sent)| - st.lastLen
    decreases |ticks|
  {
    if ticks != [] && ticks[0].active {
      var next := StreamTick(st, ticks[0].snapshot, resample, transcribe);
      TickDelta(st, ticks[0].snapshot, resample, transcribe);
      TypedLengthIsLastLen(next, ticks[1..], resample, transcribe);
    }
  }

  /** When every longer transcript extends the text already typed, what is
      typed stays exactly the streaming text. */
  lemma StableTickKeepsScreen(st: StreamState, snapshot: Option<(seq<real>, nat)>,
                              resample: (seq<real>, nat) -> seq<real>,
                              transcribe: seq<real> -> Result<TranscriptionResult>)
    requires Screen(st.sent) == st.text && |st.text| == st.lastLen
    requires snapshot.Some? ==>
               var out := transcribe(Resampled(snapshot.value.0, snapshot.value.1, resample));
               out.Ok? && |Trim(out.value.text)| > st.lastLen ==> st.text <= Trim(out.value.text)
    ensures var next := StreamTick(st, snapshot, resample, transcribe);
            Screen(next.sent) == next.text && |next.text| == next.lastLen
  {
    TickDelta(st, snapshot, resample, transcribe);
    var next := StreamTick(st, snapshot, resample, transcribe);
    if next.lastLen != st.lastLen || next.text != st.text {
      var grown := next.text;
      assert grown == st.text + grown[st.lastLen..];
    }
  }
}
