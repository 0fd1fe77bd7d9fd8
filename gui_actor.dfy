/** The audio thread behind the GUI recording commands
    (`init_gui_audio_thread` in src-tauri/src/commands/transcription.rs).
    Each turn of its loop first answers a pending snapshot request, then
    waits 50 ms for a command. Unlike the push-to-talk thread it always
    answers: every Stop gets one result and every snapshot request one
    snapshot, empty at 16000 Hz when there is nothing to give. */
module GuiActor {
  import opened Wrappers
  import opened Capture
  import A = PttActor

  /** The rate of the empty replies. */
  const FallbackRate: nat := 16000

  datatype GuiCommand = Start(deviceId: Option<string>) | Stop | GetSnapshot

  /** What `recv_timeout` gives: a command, with the audio host as it is when
      the command arrives; nothing within 50 ms; or the closed channel. */
  datatype Receipt = Command(cmd: GuiCommand, host: Host) | Timeout | Disconnected

  /** A message on the result channel or on the snapshot channel. */
  datatype GuiReply =
    | AudioResult(audio: seq<real>, sampleRate: nat)
    | SnapshotReply(audio: seq<real>, sampleRate: nat)

  /** One turn of the loop (whether a snapshot request was pending, then what
      the command channel gave), or what the held stream's callback does
      between two turns. */
  datatype GuiEvent =
    | Turn(snapshotRequested: bool, receipt: Receipt)
    | Input(data: seq<real>)
    | CallbackPanic

  /** The answer to a snapshot request. */
  function SnapshotOf(held: A.Held): (r: GuiReply)
    ensures r.SnapshotReply?
    ensures held.NoCapture? ==> r == SnapshotReply([], FallbackRate)
  {
    match held
    case NoCapture => SnapshotReply([], FallbackRate)
    case Holding(b, rate, _, poisoned) => SnapshotReply(if poisoned then [] else b, rate)
  }

  /** The answer to a Stop: the recording, or an empty one when there is no
      capture or its stop fails. */
  function StopReply(held: A.Held): (r: GuiReply)
    ensures r.AudioResult?
  {
    match held
    case NoCapture => AudioResult([], FallbackRate)
    case Holding(b, rate, _, poisoned) =>
      if poisoned then AudioResult([], FallbackRate) else AudioResult(b, rate)
  }

  /** A command: the capture held afterwards and the replies sent. */
  function CommandStep(held: A.Held, cmd: GuiCommand, host: Host): (A.Held, seq<GuiReply>) {
    match cmd
    case Start(id) => (A.StartStep(held, host, id), [])
    case Stop => (A.NoCapture, [StopReply(held)])
    case GetSnapshot => (held, [SnapshotOf(held)])
  }

  /** The non-blocking check for a snapshot request. */
  function Polled(held: A.Held, requested: bool): seq<GuiReply> {
    if requested then [SnapshotOf(held)] else []
  }

  /** One event: the capture held afterwards, the replies sent, and whether
      the loop ends. The turn that finds the command channel closed still
      answers its snapshot request. */
  function EventStep(held: A.Held, e: GuiEvent): (A.Held, seq<GuiReply>, bool) {
    match e
    case Input(data) => (A.InputStep(held, data), [], false)
    case CallbackPanic => (A.PanicStep(held), [], false)
    case Turn(requested, receipt) =>
      (match receipt
       case Disconnected => (held, Polled(held, requested), true)
       case Timeout => (held, Polled(held, requested), false)
       case Command(cmd, host) =>
         (CommandStep(held, cmd, host).0, Polled(held, requested) + CommandStep(held, cmd, host).1, false))
  }

  /** Everything the thread sends, from `held` on, until the command channel
      is closed. */
  function RunSpec(held: A.Held, events: seq<GuiEvent>): seq<GuiReply>
    decreases |events|
  {
    if events == [] then []
    else
      var (next, sent, closed) := EventStep(held, events[0]);
      if closed then sent else sent + RunSpec(next, events[1..])
  }

  /** The snapshot request check. */
  method Poll(capture: Option<AudioCapture>, ghost held: A.Held, requested: bool)
    returns (sent: seq<GuiReply>)
    requires A.Models(capture, held)
    ensures sent == Polled(held, requested)
  {
    sent := [];
    if requested {
      if capture.Some? {
        var audio, rate := capture.value.Snapshot();
        sent := [SnapshotReply(audio, rate)];
      } else {
        sent := [SnapshotReply([], FallbackRate)];
      }
    }
  }

  /** The `match` on a received command. */
  method HandleCommand(capture: Option<AudioCapture>, ghost held: A.Held, cmd: GuiCommand, host: Host)
    returns (next: Option<AudioCapture>, sent: seq<GuiReply>)
    requires A.Models(capture, held)
    modifies if capture.Some? then {capture.value} else {}
    ensures A.Models(next, CommandStep(held, cmd, host).0) && sent == CommandStep(held, cmd, host).1
    ensures next.Some? ==> next == capture || fresh(next.value)
  {
    next := capture;
    match cmd {
      case Start(id) =>
        sent := [];
        next := A.TryStart(capture, held, host, id);
      case Stop =>
        if capture.Some? {
          var cap := capture.value;
          next := None;
          var stopped := cap.Stop();
          if stopped.Ok? {
            sent := [AudioResult(stopped.value.0, stopped.value.1)];
          } else {
            sent := [AudioResult([], FallbackRate)];
          }
        } else {
          sent := [AudioResult([], FallbackRate)];
        }
      case GetSnapshot =>
        sent := Poll(capture, held, true);
    }
  }

  /** One event of the loop. */
  method HandleEvent(capture: Option<AudioCapture>, ghost held: A.Held, e: GuiEvent)
    returns (next: Option<AudioCapture>, sent: seq<GuiReply>, closed: bool)
    requires A.Models(capture, held)
    modifies if capture.Some? then {capture.value} else {}
    ensures A.Models(next, EventStep(held, e).0)
    ensures sent == EventStep(held, e).1 && closed == EventStep(held, e).2
    ensures next.Some? ==> next == capture || fresh(next.value)
  {
    next := capture;
    sent := [];
    closed := false;
    match e {
      case Input(data) =>
        A.Feed(capture, held, data);
      case CallbackPanic =>
        A.Panic(capture, held);
      case Turn(requested, receipt) =>
        sent := Poll(capture, held, requested);
        match receipt {
          case Disconnected =>
            closed := true;
          case Timeout =>
          case Command(cmd, host) =>
            var out;
            next, out := HandleCommand(capture, held, cmd, host);
            sent := sent + out;
        }
    }
  }

  /** The thread's loop, started with no capture. */
  method RunGuiActor(events: seq<GuiEvent>) returns (sent: seq<GuiReply>)
    ensures sent == RunSpec(A.NoCapture, events)
  {
    var capture: Option<AudioCapture> := None;
    ghost var held := A.NoCapture;
    sent := [];
    var i := 0;
    while i < |events|
      invariant 0 <= i <= |events|
      invariant capture.Some? ==> fresh(capture.value)
      invariant A.Models(capture, held)
      invariant sent + RunSpec(held, events[i..]) == RunSpec(A.NoCapture, events)
      decreases |events| - i
    {
      ghost var step := EventStep(held, events[i]);
      RunSpecAt(held, events, i);
      var out, closed;
      capture, out, closed := HandleEvent(capture, held, events[i]);
      ghost var rest := if closed then [] else RunSpec(step.0, events[i + 1..]);
      assert sent + out + rest == sent + (out + rest);
      sent := sent + out;
      if closed {
        return;
      }
      held := step.0;
      i := i + 1;
    }
  }

  /** What the thread sends from the `i`th event on: that event's replies,
      then, unless it closed the channel, the rest. */
  lemma RunSpecAt(held: A.Held, events: seq<GuiEvent>, i: nat)
    requires i < |events|
    ensures RunSpec(held, events[i..]) == EventStep(held, events[i]).1 +
              (if EventStep(held, events[i]).2 then [] else RunSpec(EventStep(held, events[i]).0, events[i + 1..]))
  {
    assert events[i..][0] == events[i] && events[i..][1..] == events[i + 1..];
  }

  // ---------------------------------------------------------------------
  // Properties of the loop

  /** A Stop always gives the capture up and is answered exactly once: with
      the whole buffer and its rate, or with an empty buffer at 16000 Hz
      when there is no capture or its lock is poisoned. The push-to-talk
      thread answers nothing in that case. */
  lemma StopAlwaysAnswered(held: A.Held, host: Host)
    ensures CommandStep(held, Stop, host).0 == A.NoCapture
    ensures held.Holding? && !held.poisoned ==>
              CommandStep(held, Stop, host).1 == [AudioResult(held.buffer, held.rate)]
    ensures held.NoCapture? || held.poisoned ==>
              CommandStep(held, Stop, host).1 == [AudioResult([], FallbackRate)]
    ensures held.NoCapture? ==> A.Step(held, A.Received(A.Stop, host)).1 == []
  {
  }

  /** A snapshot request with no capture is answered with an empty buffer at
      16000 Hz; a snapshot never changes what is held. */
  lemma SnapshotAlwaysAnswered(held: A.Held, host: Host)
    ensures CommandStep(held, GetSnapshot, host).0 == held
    ensures held.NoCapture? ==> CommandStep(held, GetSnapshot, host).1 == [SnapshotReply([], FallbackRate)]
    ensures held.NoCapture? ==> A.Step(held, A.Received(A.GetSnapshot, host)).1 == []
  {
  }

  /** A Start uses the device it names: the held capture is replaced exactly
      when creating and starting one on that device succeed, and a new
      capture starts empty. Nothing is sent. */
  lemma StartOnDevice(held: A.Held, host: Host, id: Option<string>)
    ensures CommandStep(held, Start(id), host).1 == []
    ensures A.StartedConfig(host, id).None? ==> CommandStep(held, Start(id), host).0 == held
    ensures A.StartedConfig(host, id).Some? ==>
              CommandStep(held, Start(id), host).0 ==
              A.Holding([], A.StartedConfig(host, id).value.sampleRate, A.StartedConfig(host, id).value.channels, false)
  {
  }

  function Stops(events: seq<GuiEvent>): nat
    decreases |events|
  {
    if events == [] then 0
    else match events[0]
      case Turn(_, Disconnected) => 0
      case Turn(_, Command(Stop, _)) => 1 + Stops(events[1..])
      case _ => Stops(events[1..])
  }

  /** Snapshot requests, by either channel, the closing turn's included. */
  function SnapshotRequests(events: seq<GuiEvent>): nat
    decreases |events|
  {
    if events == [] then 0
    else match events[0]
      case Turn(requested, receipt) =>
        (if requested then 1 else 0) +
        (match receipt
         case Disconnected => 0
         case Timeout => SnapshotRequests(events[1..])
         case Command(cmd, _) => (if cmd == GetSnapshot then 1 else 0) + SnapshotRequests(events[1..]))
      case _ => SnapshotRequests(events[1..])
  }

  function Results(sent: seq<GuiReply>): nat {
    if sent == [] then 0 else (if sent[0].AudioResult? then 1 else 0) + Results(sent[1..])
  }

  function Snapshots(sent: seq<GuiReply>): nat {
    if sent == [] then 0 else (if sent[0].SnapshotReply? then 1 else 0) + Snapshots(sent[1..])
  }

  lemma {:induction false} CountsAppend(a: seq<GuiReply>, b: seq<GuiReply>)
    ensures Results(a + b) == Results(a) + Results(b)
    ensures Snapshots(a + b) == Snapshots(a) + Snapshots(b)
    decreases |a|
  {
    if a != [] {
      assert (a + b)[0] == a[0] && (a + b)[1..] == a[1..] + b;
      CountsAppend(a[1..], b);
    } else {
      assert a + b == b;
    }
  }

  /** Nobody waits in vain: the thread sends exactly one result per Stop and
      exactly one snapshot per request, whatever it holds. */
  lemma {:induction false} EveryRequestAnswered(held: A.Held, events: seq<GuiEvent>)
    ensures Results(RunSpec(held, events)) == Stops(events)
    ensures Snapshots(RunSpec(held, events)) == SnapshotRequests(events)
    decreases |events|
  {
    if events != [] {
      var (next, out, closed) := EventStep(held, events[0]);
      match events[0] {
        case Input(_) =>
        case CallbackPanic =>
        case Turn(requested, receipt) =>
          var polled := Polled(held, requested);
          assert Results(polled) == 0 && Snapshots(polled) == (if requested then 1 else 0);
          if receipt.Command? {
            var cmd := receipt.cmd;
            var reply := CommandStep(held, cmd, receipt.host).1;
            CountsAppend(polled, reply);
            assert Results(reply) == (if cmd == Stop then 1 else 0);
            assert Snapshots(reply) == (if cmd == GetSnapshot then 1 else 0);
          }
      }
      if !closed {
        EveryRequestAnswered(next, events[1..]);
        CountsAppend(out, RunSpec(next, events[1..]));
      }
    }
  }
}
