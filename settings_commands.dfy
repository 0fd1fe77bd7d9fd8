/** The settings commands (src-tauri/src/commands/settings.rs): reading the
    settings, and replacing them — save first, then the in-memory copy, then
    the engine and the global shortcuts that depend on what changed. */
module SettingsCommands {
  import opened Wrappers
  import opened Types
  import MM = ModelManager
  import opened EngineState
  import H = Hotkeys

  /** A call to the global-shortcut plugin. */
  datatype ShortcutCall = Unregister(shortcut: H.Shortcut) | Register(shortcut: H.Shortcut)

  /** `parse_hotkey` on the platform the app was built for. The functions
      below take the parser as a parameter, so that what they state holds
      whatever the hotkey strings parse to; `UpdateSettings` passes this
      one. */
  function HotkeyParser(macos: bool): string -> Option<H.Shortcut> {
    hotkey => H.ParseSpec(hotkey, macos)
  }

  /** `update_shortcut`, with what registering gives: the old shortcut is
      released first when it parses, then the new one is registered or
      refused as malformed. */
  function UpdateShortcut(oldHotkey: string, newHotkey: string, parse: string -> Option<H.Shortcut>,
                          register: H.Shortcut -> Outcome): (Outcome, seq<ShortcutCall>)
  {
    var released := match parse(oldHotkey)
      case Some(previous) => [Unregister(previous)]
      case None => [];
    match parse(newHotkey)
    case None => (Fail("Invalid hotkey format: " + newHotkey), released)
    case Some(shortcut) =>
      (match register(shortcut)
       case Pass => Pass
       case Fail(e) => Fail("Failed to register new shortcut: " + e),
       released + [Register(shortcut)])
  }

  /** The push-to-talk part of `update_settings`: only a changed hotkey
      string is re-registered; the outcome is only logged. */
  function PttCalls(before: AppSettings, after: AppSettings, parse: string -> Option<H.Shortcut>,
                    register: H.Shortcut -> Outcome): seq<ShortcutCall>
  {
    if before.hotkeyPushToTalk != after.hotkeyPushToTalk then
      UpdateShortcut(before.hotkeyPushToTalk, after.hotkeyPushToTalk, parse, register).1
    else []
  }

  /** The translation part: when the flag or the hotkey changed, the old
      shortcut is released if translation was on, and the new one registered
      if it is on now. */
  function TranslateCalls(before: AppSettings, after: AppSettings, parse: string -> Option<H.Shortcut>): seq<ShortcutCall> {
    if before.translationEnabled != after.translationEnabled || before.hotkeyTranslate != after.hotkeyTranslate then
      (if before.translationEnabled && parse(before.hotkeyTranslate).Some? then
         [Unregister(parse(before.hotkeyTranslate).value)] else []) +
      (if after.translationEnabled && parse(after.hotkeyTranslate).Some? then
         [Register(parse(after.hotkeyTranslate).value)] else [])
    else []
  }

  /** The engine after `update_settings` has stored `after`. */
  function EngineAfter(before: AppSettings, after: AppSettings, engine: Option<LoadedEngine>, m: MM.Manager,
                       disk: MM.Disk, platform: Platform, loaders: Loaders): Option<LoadedEngine>
  {
    if before.engineType != after.engineType then
      Replaced(engine, SwitchBuild(after, after.engineType, m, disk, platform, loaders))
    else engine
  }

  /** `get_settings`: a copy of the settings held. */
  method GetSettings(state: AppState) returns (s: AppSettings)
    ensures s == state.settings
  {
    s := state.settings;
  }

  /** The shortcut calls of `update_settings`, decided by comparing the
      settings before and after. */
  method ShortcutUpdates(before: AppSettings, after: AppSettings, parse: string -> Option<H.Shortcut>,
                         register: H.Shortcut -> Outcome)
    returns (calls: seq<ShortcutCall>)
    ensures calls == PttCalls(before, after, parse, register) + TranslateCalls(before, after, parse)
  {
    calls := [];
    if before.hotkeyPushToTalk != after.hotkeyPushToTalk {
      var (_, made) := UpdateShortcut(before.hotkeyPushToTalk, after.hotkeyPushToTalk, parse, register);
      calls := calls + made;
    }
    ghost var ptt := calls;
    if before.translationEnabled != after.translationEnabled || before.hotkeyTranslate != after.hotkeyTranslate {
      if before.translationEnabled {
        var previous := parse(before.hotkeyTranslate);
        if previous.Some? {
          calls := calls + [Unregister(previous.value)];
        }
      }
      if after.translationEnabled {
        var shortcut := parse(after.hotkeyTranslate);
        if shortcut.Some? {
          calls := calls + [Register(shortcut.value)];
        }
      }
    }
    assert calls == ptt + TranslateCalls(before, after, parse);
  }

  /** `update_settings`, with the outcome of saving and of each registration.
      Returns the result and the shortcut calls made, in order. */
  method UpdateSettings(state: AppState, newSettings: AppSettings, saved: Outcome, macos: bool,
                        register: H.Shortcut -> Outcome, disk: MM.Disk, loaders: Loaders)
    returns (r: Outcome, calls: seq<ShortcutCall>)
    modifies state
    ensures saved.Fail? ==> r == saved && calls == [] && state.settings == old(state.settings) &&
                            state.engine == old(state.engine)
    ensures saved.Pass? ==> r == Pass && state.settings == newSettings
    ensures saved.Pass? ==> state.engine == EngineAfter(old(state.settings), newSettings, old(state.engine),
                                                        state.manager, disk, state.platform, loaders)
    ensures saved.Pass? ==> calls == PttCalls(old(state.settings), newSettings, HotkeyParser(macos), register) +
                                     TranslateCalls(old(state.settings), newSettings, HotkeyParser(macos))
    ensures state.isRecording == old(state.isRecording) && state.audioBuffer == old(state.audioBuffer)
  {
    var before := state.settings;
    var engineChanged := before.engineType != newSettings.engineType;
    if saved.Fail? {
      return saved, [];
    }
    state.settings := newSettings;
    if engineChanged {
      var _ := state.SwitchEngineType(newSettings.engineType, disk, loaders);
    }
    calls := ShortcutUpdates(before, newSettings, HotkeyParser(macos), register);
    r := Pass;
  }

  // ---------------------------------------------------------------------
  // Properties

  /** `update_shortcut` releases the old shortcut before anything else when
      it parses, and a new hotkey that does not parse is refused without
      registering anything. */
  lemma ShortcutReleasedFirst(oldHotkey: string, newHotkey: string, parse: string -> Option<H.Shortcut>, register: H.Shortcut -> Outcome)
    ensures var (r, calls) := UpdateShortcut(oldHotkey, newHotkey, parse, register);
            && (parse(oldHotkey).Some? ==> calls != [] && calls[0] == Unregister(parse(oldHotkey).value))
            && (parse(newHotkey).None? ==>
                  r == Fail("Invalid hotkey format: " + newHotkey) && forall k :: 0 <= k < |calls| ==> calls[k].Unregister?)
            && (r.Pass? <==> parse(newHotkey).Some? && register(parse(newHotkey).value).Pass?)
  {
  }

  /** The push-to-talk shortcut is touched only when its hotkey string
      changed. */
  lemma PttOnlyOnChange(before: AppSettings, after: AppSettings, parse: string -> Option<H.Shortcut>, register: H.Shortcut -> Outcome)
    ensures before.hotkeyPushToTalk == after.hotkeyPushToTalk ==> PttCalls(before, after, parse, register) == []
    ensures before.hotkeyPushToTalk != after.hotkeyPushToTalk && parse(after.hotkeyPushToTalk).Some? ==>
              Register(parse(after.hotkeyPushToTalk).value) in PttCalls(before, after, parse, register)
  {
  }

  /** The translate shortcut: with neither the flag nor the hotkey changed
      nothing happens; otherwise the old one is released exactly when
      translation was on and it parses, and the new one registered exactly
      when translation is on now and it parses. */
  lemma TranslateRules(before: AppSettings, after: AppSettings, parse: string -> Option<H.Shortcut>, x: H.Shortcut)
    ensures before.translationEnabled == after.translationEnabled && before.hotkeyTranslate == after.hotkeyTranslate ==>
              TranslateCalls(before, after, parse) == []
    ensures Unregister(x) in TranslateCalls(before, after, parse) <==>
              (before.translationEnabled != after.translationEnabled || before.hotkeyTranslate != after.hotkeyTranslate) &&
              before.translationEnabled && parse(before.hotkeyTranslate) == Some(x)
    ensures Register(x) in TranslateCalls(before, after, parse) <==>
              (before.translationEnabled != after.translationEnabled || before.hotkeyTranslate != after.hotkeyTranslate) &&
              after.translationEnabled && parse(after.hotkeyTranslate) == Some(x)
  {
  }

  /** The engine is switched only when the engine type changed, and the
      switch reads the settings just stored; a failed switch keeps the
      engine. */
  lemma EngineOnlyOnTypeChange(before: AppSettings, after: AppSettings, engine: Option<LoadedEngine>, m: MM.Manager,
                               disk: MM.Disk, platform: Platform, loaders: Loaders)
    ensures before.engineType == after.engineType ==> EngineAfter(before, after, engine, m, disk, platform, loaders) == engine
    ensures SwitchBuild(after, after.engineType, m, disk, platform, loaders).Err? ==>
              EngineAfter(before, after, engine, m, disk, platform, loaders) == engine
    ensures before.engineType != after.engineType && SwitchBuild(after, after.engineType, m, disk, platform, loaders).Ok? ==>
              EngineAfter(before, after, engine, m, disk, platform, loaders) ==
              Some(SwitchBuild(after, after.engineType, m, disk, platform, loaders).value)
  {
  }
}
