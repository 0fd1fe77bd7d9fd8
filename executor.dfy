/** Running the actions the parser found (src-tauri/src/voice_commands/executor.rs):
    only opening an application reaches the platform; every other action is
    left to the front end. The platform calls are recorded as a trace. */
module Executor {
  import opened VoiceParser

  /** A call into the platform layer. */
  datatype PlatformCall = OpenAppCall(name: string)

  /** `execute_action`: the calls one action makes. */
  function Effect(a: Action): seq<PlatformCall> {
    match a
    case OpenApp(name) => [OpenAppCall(name)]
    case _ => []
  }

  /** The calls of a list of actions, one after the other. */
  function Trace(actions: seq<Action>): seq<PlatformCall>
    decreases |actions|
  {
    if actions == [] then []
    else Trace(actions[..|actions| - 1]) + Effect(actions[|actions| - 1])
  }

  /** `execute_actions`: each action once, in list order. */
  method ExecuteActions(actions: seq<Action>) returns (trace: seq<PlatformCall>)
    ensures trace == Trace(actions)
  {
    trace := [];
    for i := 0 to |actions|
      invariant trace == Trace(actions[..i])
    {
      assert actions[..i + 1][..i] == actions[..i];
      match actions[i]
      case OpenApp(name) =>
        trace := trace + [OpenAppCall(name)];
      case _ =>
    }
    assert actions[..|actions|] == actions;
  }

  /** The number of OpenApp actions. */
  function OpenAppCount(actions: seq<Action>): nat
    decreases |actions|
  {
    if actions == [] then 0
    else OpenAppCount(actions[..|actions| - 1]) + (if actions[|actions| - 1].OpenApp? then 1 else 0)
  }

  // ---------------------------------------------------------------------
  // Properties

  /** Running two lists one after the other is running their
      concatenation. */
  lemma {:induction false} TraceAppend(a: seq<Action>, b: seq<Action>)
    ensures Trace(a + b) == Trace(a) + Trace(b)
    decreases |b|
  {
    if b == [] {
      assert a + b == a;
    } else {
      var c := a + b;
      assert c[..|c| - 1] == a + b[..|b| - 1];
      TraceAppend(a, b[..|b| - 1]);
    }
  }

  /** One platform call per OpenApp action and none for the others; an
      empty list makes no call. */
  lemma {:induction false} CallCount(actions: seq<Action>)
    ensures |Trace(actions)| == OpenAppCount(actions)
    ensures actions == [] ==> Trace(actions) == []
    decreases |actions|
  {
    if actions != [] {
      CallCount(actions[..|actions| - 1]);
    }
  }

  /** The application opened is the one named, and only named applications
      are opened. */
  lemma {:induction false} CallsMatchActions(actions: seq<Action>, name: string)
    ensures OpenAppCall(name) in Trace(actions) <==> OpenApp(name) in actions
    decreases |actions|
  {
    if actions != [] {
      var init := actions[..|actions| - 1];
      var last := actions[|actions| - 1];
      CallsMatchActions(init, name);
      assert actions == init + [last];
      assert OpenApp(name) in actions <==> OpenApp(name) in init || last == OpenApp(name);
    }
  }

  /** The calls come in the order of the actions: the k-th call is for the
      k-th OpenApp. */
  lemma OpenAppsInOrder(a: seq<Action>, name: string, b: seq<Action>)
    ensures Trace(a + [OpenApp(name)] + b) == Trace(a) + [OpenAppCall(name)] + Trace(b)
  {
    TraceAppend(a + [OpenApp(name)], b);
    TraceAppend(a, [OpenApp(name)]);
    assert Trace([OpenApp(name)]) == Trace([]) + Effect(OpenApp(name));
  }
}
