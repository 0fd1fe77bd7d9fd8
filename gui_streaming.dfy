/** The GUI's live transcription (`run_streaming_task` in
    src-tauri/src/commands/transcription.rs): every half second a snapshot of
    the recording is asked for, and once 40000 new samples have arrived the
    last 40000 are transcribed and the text is emitted as a chunk. The
    events of the GUI recording commands are declared here too. */
module GuiStreaming {
  import opened Wrappers
  import opened Text
  import opened Types
  import GuiActor
  import P = PttStreaming

  /** `(STREAMING_CHUNK_DURATION_SECS * TARGET_SAMPLE_RATE as f32) as usize`,
      that is 2.5 × 16000. It is compared with raw sample counts, whatever
      the capture's rate. */
  const ChunkSamples: nat := 40000

  /** A chunk's `duration_seconds`: the task's clock, or the length of a
      recording (`len as f32 / rate as f32`). */
  datatype ChunkTime = Elapsed(seconds: real) | AudioLength(samples: nat, rate: nat)

  /** The payload of a "recording-status" event. */
  datatype Status = Recording | Processing | Idle {
    function Name(): string {
      match this
      case Recording => "recording"
      case Processing => "processing"
      case Idle => "idle"
    }
  }

  /** What the GUI recording commands and their streaming task do to the
      outside world, in order. */
  datatype GuiEffect =
    | SendCommand(cmd: GuiActor.GuiCommand)
    | RecordingStatus(status: Status)
    | SpawnStreamingTask
    | TranscriptionChunk(text: string, isFinal: bool, time: ChunkTime)
    | AddToHistory(result: TranscriptionResult)

  /** The engine as one read of its lock finds it: its `transcribe` at
      16000 Hz, or `None` when no engine is loaded or the lock is poisoned. */
  type Engine = Option<seq<real> -> Result<TranscriptionResult>>

  /** The test of a tick: enough new samples since the last transcription,
      and enough samples in all, `saturating_sub` included. */
  predicate ChunkReady(last: nat, current: nat) {
    && (if current >= last then current - last else 0) >= ChunkSamples
    && current >= ChunkSamples
  }

  /** The chunk emitted for a transcribed window: only a text that is not
      blank once trimmed. An engine error emits nothing. */
  function Transcribed(window: seq<real>, rate: nat, elapsed: real, engine: Engine,
                       resample: (seq<real>, nat) -> seq<real>): seq<GuiEffect>
  {
    match engine
    case None => []
    case Some(transcribe) =>
      match transcribe(P.Resampled(window, rate, resample))
      case Err(_) => []
      case Ok(result) =>
        if AllWhite(result.text) then [] else [TranscriptionChunk(result.text, false, Elapsed(elapsed))]
  }

  /** One iteration as the task sees it: whether `STREAMING_ACTIVE` was still
      set after the sleep, the snapshot that came back within 500 ms (`None`
      for a timeout or a missing channel), the task's clock, and the engine
      that this iteration's read of the lock finds, should a window be
      transcribed. The lock is read afresh at every iteration, so an engine
      that a model switch or a settings update replaces is used from the
      next iteration on. */
  datatype Tick = Tick(active: bool, snapshot: Option<(seq<real>, nat)>, elapsed: real, engine: Engine)

  /** One tick after the flag was found set: the new `last_processed_samples`
      and the chunks emitted. A missing snapshot emits nothing; one without
      enough new samples emits an empty progress chunk. */
  function TickStep(last: nat, tick: Tick, resample: (seq<real>, nat) -> seq<real>): (nat, seq<GuiEffect>)
  {
    match tick.snapshot
    case None => (last, [])
    case Some((audio, rate)) =>
      if ChunkReady(last, |audio|) then
        (|audio|, Transcribed(audio[|audio| - ChunkSamples..], rate, tick.elapsed, tick.engine, resample))
      else (last, [TranscriptionChunk([], false, Elapsed(tick.elapsed))])
  }

  /** The loop from `last` with `emitted` so far, up to the first tick that
      finds the flag cleared. */
  function TaskRun(last: nat, emitted: seq<GuiEffect>, ticks: seq<Tick>,
                   resample: (seq<real>, nat) -> seq<real>): (nat, seq<GuiEffect>)
    decreases |ticks|
  {
    if ticks == [] || !ticks[0].active then (last, emitted)
    else
      var (next, out) := TickStep(last, ticks[0], resample);
      TaskRun(next, emitted + out, ticks[1..], resample)
  }

  /** `run_streaming_task`. */
  method StreamingTask(ticks: seq<Tick>, resample: (seq<real>, nat) -> seq<real>)
    returns (emitted: seq<GuiEffect>)
    ensures emitted == TaskRun(0, [], ticks, resample).1
  {
    emitted := [];
    var lastProcessed: nat := 0;
    var i := 0;
    while i < |ticks|
      invariant 0 <= i <= |ticks|
      invariant TaskRun(lastProcessed, emitted, ticks[i..], resample) ==
                TaskRun(0, [], ticks, resample)
      decreases |ticks| - i
    {
      var tick := ticks[i];
      if !tick.active {
        break;
      }
      assert ticks[i..][0] == tick && ticks[i..][1..] == ticks[i + 1..];
      ghost var step := TickStep(lastProcessed, tick, resample);
      ghost var before := emitted;
      i := i + 1;
      if tick.snapshot.None? {
        assert emitted + step.1 == emitted;
        continue;
      }
      var (audio, rate) := tick.snapshot.value;
      var current := |audio|;
      var newSamples := if current >= lastProcessed then current - lastProcessed else 0;
      if newSamples >= ChunkSamples && current >= ChunkSamples {
        var chunkStart := current - ChunkSamples;
        var window := audio[chunkStart..];
        var input := if rate != P.TargetSampleRate then resample(window, rate) else window;
        var engine := tick.engine;
        if engine.Some? {
          var outcome := engine.value(input);
          if outcome.Ok? {
            var text := outcome.value.text;
            TrimEmptyIffAllWhite(text);
            if Trim(text) != [] {
              emitted := emitted + [TranscriptionChunk(text, false, Elapsed(tick.elapsed))];
            }
          }
        }
        lastProcessed := current;
      } else {
        emitted := emitted + [TranscriptionChunk([], false, Elapsed(tick.elapsed))];
      }
      assert lastProcessed == step.0 && emitted == before + step.1;
    }
  }

  // ---------------------------------------------------------------------
  // Properties of the tick

  /** The two tests amount to one: at least `ChunkSamples` more samples than
      at the last transcription. */
  lemma ChunkReadyIff(last: nat, current: nat)
    ensures ChunkReady(last, current) <==> current >= last + ChunkSamples
  {
  }

  /** A missing snapshot emits nothing and changes nothing. */
  lemma MissingSnapshotEmitsNothing(last: nat, active: bool, elapsed: real, engine: Engine,
                                    resample: (seq<real>, nat) -> seq<real>)
    ensures TickStep(last, Tick(active, None, elapsed, engine), resample) == (last, [])
  {
  }

  /** Without enough new samples nothing is transcribed: one empty, non-final
      progress chunk at the task's clock is emitted. */
  lemma ProgressChunkWhenNotReady(last: nat, audio: seq<real>, rate: nat, elapsed: real, engine: Engine,
                                  resample: (seq<real>, nat) -> seq<real>)
    requires |audio| < last + ChunkSamples
    ensures TickStep(last, Tick(true, Some((audio, rate)), elapsed, engine), resample) ==
            (last, [TranscriptionChunk([], false, Elapsed(elapsed))])
  {
  }

  /** Only the last `ChunkSamples` samples are transcribed: two recordings
      ending in the same samples emit the same chunks, and `last_processed_samples`
      becomes the recording's length. */
  lemma OnlyTheTailIsTranscribed(last: nat, older: seq<real>, newer: seq<real>, tail: seq<real>,
                                 rate: nat, elapsed: real, engine: Engine,
                                 resample: (seq<real>, nat) -> seq<real>)
    requires |tail| == ChunkSamples
    requires |older| >= last && |newer| >= last
    ensures TickStep(last, Tick(true, Some((older + tail, rate)), elapsed, engine), resample).1 ==
            TickStep(last, Tick(true, Some((newer + tail, rate)), elapsed, engine), resample).1
    ensures TickStep(last, Tick(true, Some((older + tail, rate)), elapsed, engine), resample).0 ==
            |older| + ChunkSamples
  {
    assert (older + tail)[|older + tail| - ChunkSamples..] == tail;
    assert (newer + tail)[|newer + tail| - ChunkSamples..] == tail;
  }

  /** The chunks that carry a transcription. */
  function Transcripts(emitted: seq<GuiEffect>): nat {
    if emitted == [] then 0
    else (if emitted[0].TranscriptionChunk? && emitted[0].text != [] then 1 else 0) + Transcripts(emitted[1..])
  }

  lemma {:induction false} TranscriptsAppend(a: seq<GuiEffect>, b: seq<GuiEffect>)
    ensures Transcripts(a + b) == Transcripts(a) + Transcripts(b)
    decreases |a|
  {
    if a != [] {
      assert (a + b)[0] == a[0] && (a + b)[1..] == a[1..] + b;
      TranscriptsAppend(a[1..], b);
    } else {
      assert a + b == b;
    }
  }

  /** A chunk of the streaming task: never final, timed by the task's clock,
      and either an empty progress chunk or a text that is not blank. */
  predicate Live(e: GuiEffect) {
    && e.TranscriptionChunk? && !e.isFinal && e.time.Elapsed?
    && (e.text == [] || !AllWhite(e.text))
  }

  /** A tick emits live chunks only, at most one transcription, and a
      transcription moves `last_processed_samples` on by `ChunkSamples` at
      least. */
  lemma TickProperties(last: nat, tick: Tick, resample: (seq<real>, nat) -> seq<real>)
    ensures var (next, out) := TickStep(last, tick, resample);
            && (forall k :: 0 <= k < |out| ==> Live(out[k]))
            && Transcripts(out) <= 1
            && (Transcripts(out) == 1 ==> next >= last + ChunkSamples)
            && next >= last
  {
    var (next, out) := TickStep(last, tick, resample);
    if out != [] {
      assert out[1..] == [];
    }
  }

  /** Over the whole task `last_processed_samples` never decreases, every
      chunk is live, and there is at most one transcription per
      `ChunkSamples` new samples. */
  lemma {:induction false} TaskRunProperties(last: nat, emitted: seq<GuiEffect>, ticks: seq<Tick>,
                                             resample: (seq<real>, nat) -> seq<real>)
    requires Transcripts(emitted) * ChunkSamples <= last
    ensures var (final, all) := TaskRun(last, emitted, ticks, resample);
            && last <= final && emitted <= all
            && (forall k :: |emitted| <= k < |all| ==> Live(all[k]))
            && Transcripts(all) * ChunkSamples <= final
    decreases |ticks|
  {
    if ticks != [] && ticks[0].active {
      var (next, out) := TickStep(last, ticks[0], resample);
      TickProperties(last, ticks[0], resample);
      TranscriptsAppend(emitted, out);
      TaskRunProperties(next, emitted + out, ticks[1..], resample);
      var all := TaskRun(next, emitted + out, ticks[1..], resample).1;
      forall k | |emitted| <= k < |all|
        ensures Live(all[k])
      {
        if k < |emitted + out| {
          assert all[k] == (emitted + out)[k] == out[k - |emitted|];
        }
      }
    }
  }

  /** Running the task over `a` and then `b` is running it over `a + b`,
      as long as the flag stays set through `a`. */
  lemma {:induction false} TaskRunSplit(last: nat, emitted: seq<GuiEffect>, a: seq<Tick>, b: seq<Tick>,
                                        resample: (seq<real>, nat) -> seq<real>)
    requires forall k :: 0 <= k < |a| ==> a[k].active
    ensures var (mid, sofar) := TaskRun(last, emitted, a, resample);
            TaskRun(last, emitted, a + b, resample) == TaskRun(mid, sofar, b, resample)
    decreases |a|
  {
    if a == [] {
      assert a + b == b;
    } else {
      assert (a + b)[0] == a[0] && (a + b)[1..] == a[1..] + b;
      var (next, out) := TickStep(last, a[0], resample);
      TaskRunSplit(next, emitted + out, a[1..], b, resample);
    }
  }

  /** The engine is read afresh at every tick: the chunks of the ticks
      before a model switch are the same whatever engine the later ticks
      find, and the later ticks transcribe with their own. */
  lemma EngineSwitchAffectsLaterTicksOnly(a: seq<Tick>, b: seq<Tick>, b': seq<Tick>,
                                          resample: (seq<real>, nat) -> seq<real>)
    requires forall k :: 0 <= k < |a| ==> a[k].active
    ensures var (mid, sofar) := TaskRun(0, [], a, resample);
            && sofar <= TaskRun(0, [], a + b, resample).1
            && sofar <= TaskRun(0, [], a + b', resample).1
            && TaskRun(0, [], a + b, resample) == TaskRun(mid, sofar, b, resample)
  {
    var (mid, sofar) := TaskRun(0, [], a, resample);
    TaskRunSplit(0, [], a, b, resample);
    TaskRunSplit(0, [], a, b', resample);
    StreamingTaskBounds(a, resample);
    TaskRunProperties(mid, sofar, b, resample);
    TaskRunProperties(mid, sofar, b', resample);
  }

  /** The task from its start: live chunks only, and no more transcriptions
      than 40000-sample stretches of new audio. */
  lemma StreamingTaskBounds(ticks: seq<Tick>, resample: (seq<real>, nat) -> seq<real>)
    ensures var (final, all) := TaskRun(0, [], ticks, resample);
            && (forall k :: 0 <= k < |all| ==> Live(all[k]))
            && Transcripts(all) * ChunkSamples <= final
  {
    TaskRunProperties(0, [], ticks, resample);
  }
}
