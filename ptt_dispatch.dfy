/** The global-shortcut side of push-to-talk (src-tauri/src/ptt.rs): which
    shortcuts are registered at start-up, and how a key event is dispatched
    through the `IS_PTT_ACTIVE` and `IS_VOICE_ACTION_ACTIVE` flags. The
    threads a dispatch spawns are recorded as effects. */
module PttDispatch {
  import opened Wrappers
  import opened Types
  import opened Hotkeys

  datatype KeyState = Pressed | Released

  /** What one shortcut event does, in order. `SpawnStopAndPaste` stands for
      the thread that runs the dictation finisher and then reports "idle". */
  datatype Effect =
    | ClearStreamingText
    | TrayRecording(on: bool)
    | SendStart
    | RecordingStatus(status: string)
    | SpawnStreaming
    | SpawnStopAndPaste
    | SpawnTranslate
    | SpawnStartVoiceAction
    | SpawnStopVoiceAction

  /** Which of the three registered shortcuts an event matched. */
  datatype Route = PttRoute | TranslateRoute | VoiceActionRoute | NoRoute

  /** The two atomic flags. */
  datatype Flags = Flags(ptt: bool, voiceAction: bool)

  /** The push-to-talk shortcut used when the configured one does not parse. */
  const FallbackPtt: Shortcut := Shortcut(Some({Control, Shift}), Space)

  datatype Registered = Registered(ptt: Shortcut, translate: Option<Shortcut>, voiceAction: Option<Shortcut>)

  /** `setup_shortcuts`: the three slots it fills. Registration errors are
      only logged, so they do not change the slots. */
  function Setup(settings: AppSettings, macos: bool): (r: Registered)
    ensures ParseSpec(settings.hotkeyPushToTalk, macos).Some? ==>
              r.ptt == ParseSpec(settings.hotkeyPushToTalk, macos).value
    ensures ParseSpec(settings.hotkeyPushToTalk, macos).None? ==> r.ptt == FallbackPtt
    ensures r.translate.Some? <==>
              settings.translationEnabled && ParseSpec(settings.hotkeyTranslate, macos).Some?
    ensures r.translate.Some? ==> r.translate == ParseSpec(settings.hotkeyTranslate, macos)
    ensures r.voiceAction == ParseSpec(settings.hotkeyVoiceAction, macos)
  {
    Registered(
      ParseSpec(settings.hotkeyPushToTalk, macos).GetOr(FallbackPtt),
      if settings.translationEnabled then ParseSpec(settings.hotkeyTranslate, macos) else None,
      ParseSpec(settings.hotkeyVoiceAction, macos))
  }

  /** With the default settings push-to-talk is Cmd/Ctrl+Shift+Space and,
      the voice-action hotkey being empty, no voice-action shortcut is
      registered. */
  lemma DefaultRegistration(macos: bool)
    ensures Setup(DefaultSettings(), macos).ptt ==
            Shortcut(Some({if macos then Meta else Control, Shift}), Space)
    ensures Setup(DefaultSettings(), macos).voiceAction == None
  {
    DefaultPushToTalk(macos);
    EmptyHotkey(macos);
  }

  /** The three comparisons of `handle_shortcut`, tried in order: a
      shortcut equal to the push-to-talk one is always push-to-talk. An
      empty translate or voice-action slot, like one whose mutex is
      poisoned, matches nothing; the push-to-talk slot is always set. */
  function RouteOf(reg: Registered, s: Shortcut): (r: Route)
    ensures r == PttRoute <==> s == reg.ptt
    ensures r == TranslateRoute <==> s != reg.ptt && reg.translate == Some(s)
    ensures r == VoiceActionRoute <==>
              s != reg.ptt && reg.translate != Some(s) && reg.voiceAction == Some(s)
    ensures r == NoRoute <==>
              s != reg.ptt && reg.translate != Some(s) && reg.voiceAction != Some(s)
  {
    if s == reg.ptt then PttRoute
    else if reg.translate == Some(s) then TranslateRoute
    else if reg.voiceAction == Some(s) then VoiceActionRoute
    else NoRoute
  }

  const PressEffects: seq<Effect> :=
    [ClearStreamingText, TrayRecording(true), SendStart, RecordingStatus("recording"), SpawnStreaming]
  const ReleaseEffects: seq<Effect> :=
    [TrayRecording(false), RecordingStatus("processing"), SpawnStopAndPaste]

  /** One event: the flags after it and what it does. Each flag acts like
      `swap`: only a false-to-true press and a true-to-false release do
      anything. */
  function Dispatch(route: Route, state: KeyState, f: Flags): (Flags, seq<Effect>) {
    match route
    case PttRoute =>
      if state == Pressed then
        if f.ptt then (f, []) else (f.(ptt := true), PressEffects)
      else
        if f.ptt then (f.(ptt := false), ReleaseEffects) else (f, [])
    case TranslateRoute =>
      if state == Released then (f, [SpawnTranslate]) else (f, [])
    case VoiceActionRoute =>
      if state == Pressed then
        if f.voiceAction then (f, []) else (f.(voiceAction := true), [SpawnStartVoiceAction])
      else
        if f.voiceAction then (f.(voiceAction := false), [SpawnStopVoiceAction]) else (f, [])
    case NoRoute => (f, [])
  }

  /** The handler and the state it reads and swaps. */
  class ShortcutHandler {
    var pttShortcut: Option<Shortcut>
    var translateShortcut: Option<Shortcut>
    var voiceActionShortcut: Option<Shortcut>
    var pttActive: bool
    var voiceActionActive: bool

    /** The state after `setup_shortcuts`: every slot filled, both flags down. */
    constructor (reg: Registered)
      ensures pttShortcut == Some(reg.ptt) && translateShortcut == reg.translate
      ensures voiceActionShortcut == reg.voiceAction
      ensures !pttActive && !voiceActionActive
    {
      pttShortcut := Some(reg.ptt);
      translateShortcut := reg.translate;
      voiceActionShortcut := reg.voiceAction;
      pttActive := false;
      voiceActionActive := false;
    }

    function Current(): Registered
      reads this
      requires pttShortcut.Some?
    {
      Registered(pttShortcut.value, translateShortcut, voiceActionShortcut)
    }

    /** `handle_shortcut`. */
    method Handle(s: Shortcut, state: KeyState) returns (effects: seq<Effect>)
      requires pttShortcut.Some?
      modifies this
      ensures pttShortcut == old(pttShortcut) && translateShortcut == old(translateShortcut)
      ensures voiceActionShortcut == old(voiceActionShortcut)
      ensures (Flags(pttActive, voiceActionActive), effects) ==
              Dispatch(RouteOf(old(Current()), s), state, old(Flags(pttActive, voiceActionActive)))
    {
      var isPtt := pttShortcut == Some(s);
      var isTranslate := translateShortcut == Some(s);
      var isVoiceAction := voiceActionShortcut == Some(s);
      effects := [];
      if isPtt {
        if state == Pressed {
          var was := pttActive;
          pttActive := true;
          if !was {
            effects := PressEffects;
          }
        } else {
          var was := pttActive;
          pttActive := false;
          if was {
            effects := ReleaseEffects;
          }
        }
      } else if isTranslate {
        if state == Released {
          effects := [SpawnTranslate];
        }
      } else if isVoiceAction {
        if state == Pressed {
          var was := voiceActionActive;
          voiceActionActive := true;
          if !was {
            effects := [SpawnStartVoiceAction];
          }
        } else {
          var was := voiceActionActive;
          voiceActionActive := false;
          if was {
            effects := [SpawnStopVoiceAction];
          }
        }
      }
    }
  }

  // ---------------------------------------------------------------------
  // Properties of one event

  /** A key-down while push-to-talk is already active does nothing, so
      key repeat starts one recording. */
  lemma RepeatedPressIsNoOp(f: Flags)
    requires f.ptt
    ensures Dispatch(PttRoute, Pressed, f) == (f, [])
  {
  }

  /** A key-up with no recording in progress does nothing. */
  lemma ReleaseWithoutPressIsNoOp(f: Flags)
    requires !f.ptt
    ensures Dispatch(PttRoute, Released, f) == (f, [])
  {
  }

  /** A press then a release, from rest, clears the streamed text, starts
      one recording with streaming, and stops it once, back at rest. */
  lemma PressThenRelease(f: Flags)
    requires !f.ptt
    ensures var (g, e1) := Dispatch(PttRoute, Pressed, f);
            var (h, e2) := Dispatch(PttRoute, Released, g);
            h == f && e1 == PressEffects && e2 == ReleaseEffects
  {
  }

  /** Translation runs on the key-up only and never touches the flags. */
  lemma TranslateOnReleaseOnly(f: Flags)
    ensures Dispatch(TranslateRoute, Pressed, f) == (f, [])
    ensures Dispatch(TranslateRoute, Released, f) == (f, [SpawnTranslate])
  {
  }

  /** The voice action pairs on its own flag, as push-to-talk does. */
  lemma VoiceActionPairs(f: Flags)
    ensures f.voiceAction ==> Dispatch(VoiceActionRoute, Pressed, f) == (f, [])
    ensures !f.voiceAction ==> Dispatch(VoiceActionRoute, Released, f) == (f, [])
    ensures !f.voiceAction ==>
              Dispatch(VoiceActionRoute, Pressed, f) == (f.(voiceAction := true), [SpawnStartVoiceAction])
    ensures f.voiceAction ==>
              Dispatch(VoiceActionRoute, Released, f) == (f.(voiceAction := false), [SpawnStopVoiceAction])
  {
  }

  /** Each route owns its flag: push-to-talk never moves the voice-action
      flag and the other routes never move the push-to-talk one. */
  lemma FlagsAreIndependent(route: Route, state: KeyState, f: Flags)
    ensures route == PttRoute ==> Dispatch(route, state, f).0.voiceAction == f.voiceAction
    ensures route != PttRoute ==> Dispatch(route, state, f).0.ptt == f.ptt
  {
  }

  // ---------------------------------------------------------------------
  // Properties of a run of events

  datatype Event = Event(route: Route, state: KeyState)

  /** The flags and effects after a sequence of events. */
  function Run(f: Flags, events: seq<Event>): (Flags, seq<Effect>)
    decreases |events|
  {
    if events == [] then (f, [])
    else
      var (g, before) := Run(f, events[..|events| - 1]);
      var last := events[|events| - 1];
      var (h, after) := Dispatch(last.route, last.state, g);
      (h, before + after)
  }

  function Count(effects: seq<Effect>, e: Effect): nat {
    if effects == [] then 0
    else (if effects[0] == e then 1 else 0) + Count(effects[1..], e)
  }

  lemma {:induction false} CountAppend(a: seq<Effect>, b: seq<Effect>, e: Effect)
    ensures Count(a + b, e) == Count(a, e) + Count(b, e)
    decreases |a|
  {
    if a != [] {
      assert (a + b)[0] == a[0] && (a + b)[1..] == a[1..] + b;
      CountAppend(a[1..], b, e);
    } else {
      assert a + b == b;
    }
  }

  lemma PressCounts()
    ensures Count(PressEffects, SendStart) == 1 && Count(PressEffects, SpawnStopAndPaste) == 0
    ensures Count(PressEffects, SpawnStartVoiceAction) == 0 && Count(PressEffects, SpawnStopVoiceAction) == 0
  {
    var p := PressEffects;
    assert p[1..][1..][1..][1..][1..] == [];
  }

  lemma ReleaseCounts()
    ensures Count(ReleaseEffects, SendStart) == 0 && Count(ReleaseEffects, SpawnStopAndPaste) == 1
    ensures Count(ReleaseEffects, SpawnStartVoiceAction) == 0 && Count(ReleaseEffects, SpawnStopVoiceAction) == 0
  {
    var r := ReleaseEffects;
    assert r[1..][1..][1..] == [];
  }

  /** What one event adds to the counts. */
  lemma DispatchCounts(route: Route, state: KeyState, f: Flags)
    ensures var (g, e) := Dispatch(route, state, f);
            && Count(e, SendStart) + (if f.ptt then 1 else 0) ==
               Count(e, SpawnStopAndPaste) + (if g.ptt then 1 else 0)
            && Count(e, SpawnStartVoiceAction) + (if f.voiceAction then 1 else 0) ==
               Count(e, SpawnStopVoiceAction) + (if g.voiceAction then 1 else 0)
  {
    PressCounts();
    ReleaseCounts();
    assert Count([SpawnTranslate], SendStart) == 0;
  }

  /** Whatever the events, push-to-talk starts and stops alternate: every
      stop follows its own start, and the flag tells whether one start is
      still waiting for its stop. */
  lemma {:induction false} StartsAndStopsAlternate(f: Flags, events: seq<Event>)
    ensures Count(Run(f, events).1, SendStart) + (if f.ptt then 1 else 0) ==
            Count(Run(f, events).1, SpawnStopAndPaste) + (if Run(f, events).0.ptt then 1 else 0)
    decreases |events|
  {
    if events != [] {
      var init := events[..|events| - 1];
      var (g, before) := Run(f, init);
      var last := events[|events| - 1];
      var (h, after) := Dispatch(last.route, last.state, g);
      assert Run(f, events) == (h, before + after);
      StartsAndStopsAlternate(f, init);
      CountAppend(before, after, SendStart);
      CountAppend(before, after, SpawnStopAndPaste);
      DispatchCounts(last.route, last.state, g);
    }
  }

  /** The same alternation for the voice action. */
  lemma {:induction false} VoiceActionsAlternate(f: Flags, events: seq<Event>)
    ensures Count(Run(f, events).1, SpawnStartVoiceAction) + (if f.voiceAction then 1 else 0) ==
            Count(Run(f, events).1, SpawnStopVoiceAction) + (if Run(f, events).0.voiceAction then 1 else 0)
    decreases |events|
  {
    if events != [] {
      var init := events[..|events| - 1];
      var (g, before) := Run(f, init);
      var last := events[|events| - 1];
      var (h, after) := Dispatch(last.route, last.state, g);
      assert Run(f, events) == (h, before + after);
      VoiceActionsAlternate(f, init);
      CountAppend(before, after, SpawnStartVoiceAction);
      CountAppend(before, after, SpawnStopVoiceAction);
      DispatchCounts(last.route, last.state, g);
    }
  }
}
