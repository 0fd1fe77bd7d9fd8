/** The push-to-talk audio thread (`init_ptt_audio_thread` in
    src-tauri/src/ptt.rs): a loop that owns at most one `AudioCapture` and
    answers the commands that arrive on its channel. What its stream's
    callback does between two commands arrives as events too. */
module PttActor {
  import opened Wrappers
  import opened Capture

  datatype PttCommand = Start | Stop | GetSnapshot

  datatype PttResult =
    | AudioComplete(audio: seq<real>, sampleRate: nat)
    | AudioSnapshot(audio: seq<real>, sampleRate: nat)

  /** What the thread sees next: a command, with the audio host as it is
      when the command arrives; a chunk delivered to the held stream's
      callback; a panic inside that callback while it holds the buffer lock;
      or the closed channel. */
  datatype ActorEvent =
    | Received(cmd: PttCommand, host: Host)
    | Input(data: seq<real>)
    | CallbackPanic
    | Closed

  /** The capture the thread holds. A held capture is always streaming. */
  datatype Held = NoCapture | Holding(buffer: seq<real>, rate: nat, channels: nat, poisoned: bool)

  /** The configuration a capture runs with when both `AudioCapture::new(id)`
      and `start(id)` succeed on `host`, and `None` when either fails. */
  function StartedConfig(host: Host, id: Option<string>): (r: Option<InputConfig>)
    ensures r.Some? <==>
              && GetDevice(host, id).Ok? && GetDevice(host, id).value.config.Ok?
              && GetDevice(host, id).value.build.Pass? && GetDevice(host, id).value.play.Pass?
    ensures r.Some? ==> r.value == GetDevice(host, id).value.config.value
  {
    var d := GetDevice(host, id);
    if d.Ok? && d.value.config.Ok? && d.value.build.Pass? && d.value.play.Pass?
    then Some(d.value.config.value) else None
  }

  /** A Start on `host` and device `id`: the capture held afterwards. It
      replaces the held one only when creating and starting it succeed. */
  function StartStep(held: Held, host: Host, id: Option<string>): Held {
    match StartedConfig(host, id)
    case Some(c) => Holding([], c.sampleRate, c.channels, false)
    case None => held
  }

  /** A chunk delivered to the held stream's callback. */
  function InputStep(held: Held, data: seq<real>): Held {
    match held
    case NoCapture => held
    case Holding(b, _, ch, poisoned) =>
      if poisoned || |b| >= MaxBufferSamples then held
      else held.(buffer := b + Converted(data, ch))
  }

  /** A panic in the callback while it holds the buffer lock. */
  function PanicStep(held: Held): Held {
    match held
    case NoCapture => held
    case Holding(_, _, _, _) => held.(poisoned := true)
  }

  /** One iteration of the loop on an event other than `Closed`: the capture
      held afterwards and the messages sent. */
  function Step(held: Held, e: ActorEvent): (Held, seq<PttResult>)
    requires !e.Closed?
  {
    match e
    case Received(Start, host) => (StartStep(held, host, None), [])
    case Received(GetSnapshot, _) =>
      (match held
       case NoCapture => (held, [])
       case Holding(b, rate, _, poisoned) => (held, [AudioSnapshot(if poisoned then [] else b, rate)]))
    case Received(Stop, _) =>
      (match held
       case NoCapture => (NoCapture, [])
       case Holding(b, rate, _, poisoned) => (NoCapture, if poisoned then [] else [AudioComplete(b, rate)]))
    case Input(data) => (InputStep(held, data), [])
    case CallbackPanic => (PanicStep(held), [])
  }

  /** Everything the thread sends, from `held` on, until the channel closes. */
  function RunSpec(held: Held, events: seq<ActorEvent>): seq<PttResult>
    decreases |events|
  {
    if events == [] || events[0].Closed? then []
    else
      var (next, sent) := Step(held, events[0]);
      sent + RunSpec(next, events[1..])
  }

  /** The loop's capture and the abstract one agree. */
  predicate Models(capture: Option<AudioCapture>, held: Held)
    reads if capture.Some? then {capture.value} else {}
  {
    match capture
    case None => held.NoCapture?
    case Some(c) =>
      && held.Holding?
      && c.streaming
      && c.buffer == held.buffer
      && c.sampleRate == held.rate
      && c.streamChannels == held.channels
      && c.lockPoisoned == held.poisoned
  }

  /** The `Start` arm shared by both audio threads: a new capture replaces
      the held one once it is created and started. */
  method TryStart(capture: Option<AudioCapture>, ghost held: Held, host: Host, id: Option<string>)
    returns (next: Option<AudioCapture>)
    requires Models(capture, held)
    ensures Models(next, StartStep(held, host, id))
    ensures next.Some? ==> next == capture || fresh(next.value)
  {
    next := capture;
    var created := AudioCapture.New(host, id);
    if created.Ok? {
      var cap := created.value;
      var started := cap.Start(host, id);
      if started.Pass? {
        next := Some(cap);
      }
    }
  }

  /** The held stream's callback receiving `data`. */
  method Feed(capture: Option<AudioCapture>, ghost held: Held, data: seq<real>)
    requires Models(capture, held)
    modifies if capture.Some? then {capture.value} else {}
    ensures Models(capture, InputStep(held, data))
  {
    if capture.Some? {
      capture.value.OnInput(data);
    }
  }

  /** A panic in the held stream's callback while it holds the lock. */
  method Panic(capture: Option<AudioCapture>, ghost held: Held)
    requires Models(capture, held)
    modifies if capture.Some? then {capture.value} else {}
    ensures Models(capture, PanicStep(held))
  {
    if capture.Some? {
      capture.value.PoisonLock();
    }
  }

  /** One iteration of the loop's `match` on an event other than `Closed`. */
  method HandleEvent(capture: Option<AudioCapture>, ghost held: Held, e: ActorEvent)
    returns (next: Option<AudioCapture>, sent: seq<PttResult>)
    requires !e.Closed? && Models(capture, held)
    modifies if capture.Some? then {capture.value} else {}
    ensures Models(next, Step(held, e).0) && sent == Step(held, e).1
    ensures next.Some? ==> next == capture || fresh(next.value)
  {
    next := capture;
    sent := [];
    match e {
      case Received(Start, host) =>
        next := TryStart(capture, held, host, None);
      case Received(GetSnapshot, _) =>
        if capture.Some? {
          var audio, rate := capture.value.Snapshot();
          sent := [AudioSnapshot(audio, rate)];
        }
      case Received(Stop, _) =>
        if capture.Some? {
          var cap := capture.value;
          next := None;
          var stopped := cap.Stop();
          if stopped.Ok? {
            sent := [AudioComplete(stopped.value.0, stopped.value.1)];
          }
        }
      case Input(data) =>
        Feed(capture, held, data);
      case CallbackPanic =>
        Panic(capture, held);
    }
  }

  /** The thread's loop, started with no capture. */
  method RunActor(events: seq<ActorEvent>) returns (sent: seq<PttResult>)
    ensures sent == RunSpec(NoCapture, events)
  {
    var capture: Option<AudioCapture> := None;
    ghost var held := NoCapture;
    sent := [];
    var i := 0;
    while i < |events|
      invariant 0 <= i <= |events|
      invariant capture.Some? ==> fresh(capture.value)
      invariant Models(capture, held)
      invariant sent + RunSpec(held, events[i..]) == RunSpec(NoCapture, events)
      decreases |events| - i
    {
      var e := events[i];
      if e.Closed? {
        break;
      }
      ghost var step := Step(held, e);
      assert RunSpec(held, events[i..]) == step.1 + RunSpec(step.0, events[i + 1..]) by {
        assert events[i..][0] == e && events[i..][1..] == events[i + 1..];
      }
      var out;
      capture, out := HandleEvent(capture, held, e);
      sent := sent + out;
      held := step.0;
      i := i + 1;
    }
    if i < |events| {
      assert events[i..][0].Closed?;
    }
  }

  // ---------------------------------------------------------------------
  // Properties of the loop

  /** A Stop or a GetSnapshot with no capture sends nothing. */
  lemma NoCaptureNoReply(host: Host)
    ensures Step(NoCapture, Received(Stop, host)) == (NoCapture, [])
    ensures Step(NoCapture, Received(GetSnapshot, host)) == (NoCapture, [])
  {
  }

  /** A Start replaces the held capture only when creating and starting the
      new one both succeed; otherwise the capture already held, if any,
      goes on recording untouched. A new capture starts empty. */
  lemma StartReplacesOnlyOnSuccess(held: Held, host: Host)
    ensures Step(held, Received(Start, host)).1 == []
    ensures StartedConfig(host, None).None? ==> Step(held, Received(Start, host)).0 == held
    ensures StartedConfig(host, None).Some? ==>
              Step(held, Received(Start, host)).0 ==
              Holding([], StartedConfig(host, None).value.sampleRate, StartedConfig(host, None).value.channels, false)
  {
  }

  /** A Stop always gives the capture up, and sends one AudioComplete with
      the whole buffer exactly when a capture was held and its lock is not
      poisoned; a failed stop sends nothing. */
  lemma StopTakesCapture(held: Held, host: Host)
    ensures Step(held, Received(Stop, host)).0 == NoCapture
    ensures |Step(held, Received(Stop, host)).1| <= 1
    ensures Step(held, Received(Stop, host)).1 != [] <==> held.Holding? && !held.poisoned
    ensures held.Holding? && !held.poisoned ==>
              Step(held, Received(Stop, host)).1 == [AudioComplete(held.buffer, held.rate)]
  {
  }

  /** A snapshot never changes what is held, and never carries samples a
      poisoned lock hides. */
  lemma SnapshotChangesNothing(held: Held, host: Host)
    ensures Step(held, Received(GetSnapshot, host)).0 == held
    ensures held.Holding? ==>
              Step(held, Received(GetSnapshot, host)).1 ==
              [AudioSnapshot(if held.poisoned then [] else held.buffer, held.rate)]
  {
  }

  /** The callback only ever appends to the held buffer. */
  lemma InputOnlyAppends(held: Held, data: seq<real>)
    requires held.Holding?
    ensures var next := Step(held, Input(data)).0;
            next.Holding? && held.buffer <= next.buffer && next.rate == held.rate
  {
  }

  /** Nothing is sent once the channel is closed. */
  lemma ClosedEndsLoop(held: Held, before: seq<ActorEvent>, after: seq<ActorEvent>)
    requires forall k :: 0 <= k < |before| ==> !before[k].Closed?
    ensures RunSpec(held, before + [Closed] + after) == RunSpec(held, before)
    decreases |before|
  {
    if before != [] {
      var (next, _) := Step(held, before[0]);
      assert (before + [Closed] + after)[1..] == before[1..] + [Closed] + after;
      ClosedEndsLoop(next, before[1..], after);
    } else {
      assert (before + [Closed] + after)[0] == Closed;
    }
  }

  function Completes(sent: seq<PttResult>): nat {
    if sent == [] then 0 else (if sent[0].AudioComplete? then 1 else 0) + Completes(sent[1..])
  }

  lemma {:induction false} CompletesAppend(a: seq<PttResult>, b: seq<PttResult>)
    ensures Completes(a + b) == Completes(a) + Completes(b)
    decreases |a|
  {
    if a != [] {
      assert (a + b)[0] == a[0] && (a + b)[1..] == a[1..] + b;
      CompletesAppend(a[1..], b);
    } else {
      assert a + b == b;
    }
  }

  /** The Starts that succeed, before the channel closes. */
  function SuccessfulStarts(events: seq<ActorEvent>): nat {
    if events == [] || events[0].Closed? then 0
    else
      (if events[0].Received? && events[0].cmd == Start && StartedConfig(events[0].host, None).Some? then 1 else 0)
      + SuccessfulStarts(events[1..])
  }

  /** Each recording is delivered at most once: there are never more
      AudioComplete messages than successful Starts, counting the capture
      held at the outset. */
  lemma {:induction false} OneCompletePerStart(held: Held, events: seq<ActorEvent>)
    ensures Completes(RunSpec(held, events)) <= SuccessfulStarts(events) + (if held.Holding? then 1 else 0)
    decreases |events|
  {
    if events != [] && !events[0].Closed? {
      var (next, sent) := Step(held, events[0]);
      OneCompletePerStart(next, events[1..]);
      CompletesAppend(sent, RunSpec(next, events[1..]));
      assert Completes(sent) <= 1;
      assert Completes(sent) == 1 ==> held.Holding? && next.NoCapture?;
      assert next.Holding? ==>
        (held.Holding? || (events[0].Received? && events[0].cmd == Start && StartedConfig(events[0].host, None).Some?));
    }
  }

  /** A whole recording: a successful Start, one callback chunk, a Stop. The
      Stop delivers exactly the converted chunk at the device's rate. */
  lemma RecordOneChunk(host: Host, data: seq<real>, later: Host)
    requires StartedConfig(host, None).Some?
    ensures var c := StartedConfig(host, None).value;
            RunSpec(NoCapture, [Received(Start, host), Input(data), Received(Stop, later)]) ==
            [AudioComplete(Converted(data, c.channels), c.sampleRate)]
  {
    var events := [Received(Start, host), Input(data), Received(Stop, later)];
    var c := StartedConfig(host, None).value;
    var h1 := Holding([], c.sampleRate, c.channels, false);
    var h2 := h1.(buffer := [] + Converted(data, c.channels));
    assert Step(NoCapture, events[0]) == (h1, []);
    assert Step(h1, events[1..][0]) == (h2, []);
    assert Step(h2, events[1..][1..][0]) == (NoCapture, [AudioComplete(h2.buffer, c.sampleRate)]);
    assert events[1..][1..][1..] == [];
    assert RunSpec(h2, events[1..][1..]) == [AudioComplete(h2.buffer, c.sampleRate)];
    assert RunSpec(h1, events[1..]) == RunSpec(h2, events[1..][1..]);
    assert RunSpec(NoCapture, events) == RunSpec(h1, events[1..]);
    assert h2.buffer == Converted(data, c.channels);
  }
}
