/** The front end's settings store (src/stores/settingsStore.ts): the
    settings as the interface holds them (a record of named fields), the
    audio devices and the custom dictionary. Each action is given what the
    back-end command it invokes answered. */
module SettingsStore {
  import opened Wrappers
  import opened Seqs
  import Types

  /** A field value of the settings record. */
  datatype Value = Str(s: string) | Flag(b: bool) | Null

  /** The settings record: field name to value. */
  type Record = map<string, Value>

  /** `defaultSettings`, the record used when none could be read. */
  const DefaultSettings: Record := map[
    "microphone_id" := Null,
    "hotkey_push_to_talk" := Str("CommandOrControl+Shift+Space"),
    "hotkey_toggle_record" := Str("CommandOrControl+Shift+R"),
    "transcription_language" := Str("fr"),
    "auto_detect_language" := Flag(false),
    "theme" := Str("system"),
    "minimize_to_tray" := Flag(true),
    "auto_copy_to_clipboard" := Flag(true),
    "notification_on_complete" := Flag(true),
    "whisper_model" := Str("tiny"),
    "llm_enabled" := Flag(false),
    "llm_mode" := Str("basic"),
    "voice_commands_enabled" := Flag(false),
    "dictation_mode" := Str("general")]

  /** `{ ...current, ...partial }`: the fields given override, the others
      are kept. */
  function Merge(current: Record, partial: Record): Record {
    current + partial
  }

  /** `AudioDevice`. */
  datatype AudioDevice = AudioDevice(id: string, name: string, isDefault: bool)

  /** Whether `filter((w) => w !== word)` keeps an entry. */
  function OtherWord(word: string): string -> bool {
    (w: string) => w != word
  }

  /** The dictionary without `word`. */
  function WithoutWord(dictionary: seq<string>, word: string): seq<string> {
    Filter(dictionary, OtherWord(word))
  }

  class Store {
    var settings: Option<Record>
    var devices: seq<AudioDevice>
    var dictionary: seq<string>
    var isLoading: bool

    /** The store as created. */
    constructor()
      ensures settings == None && devices == [] && dictionary == [] && !isLoading
    {
      settings := None;
      devices := [];
      dictionary := [];
      isLoading := false;
    }

    /** `loadSettings`: what `get_settings` returned, or the defaults when it
        failed; loading is over either way. */
    method LoadSettings(reply: Result<Record>)
      modifies this
      ensures settings == Some(if reply.Ok? then reply.value else DefaultSettings)
      ensures !isLoading
      ensures devices == old(devices) && dictionary == old(dictionary)
    {
      isLoading := true;
      if reply.Ok? {
        settings, isLoading := Some(reply.value), false;
      } else {
        settings, isLoading := Some(DefaultSettings), false;
      }
    }

    /** `updateSettings`: the merged record is sent, and kept only when the
        back end accepted it; a refusal is thrown. */
    method UpdateSettings(partial: Record, accepted: Outcome) returns (sent: Record, thrown: Option<string>)
      modifies this
      ensures sent == Merge(old(settings).GetOr(DefaultSettings), partial)
      ensures accepted.Pass? ==> thrown == None && settings == Some(sent)
      ensures accepted.Fail? ==> thrown == Some(accepted.error) && settings == old(settings)
      ensures devices == old(devices) && dictionary == old(dictionary) && isLoading == old(isLoading)
    {
      var current := if settings.Some? then settings.value else DefaultSettings;
      sent := current + partial;
      if accepted.Fail? {
        return sent, Some(accepted.error);
      }
      settings := Some(sent);
      thrown := None;
    }

    /** `loadDevices`: replaced only by what the back end listed. */
    method LoadDevices(reply: Result<seq<AudioDevice>>)
      modifies this
      ensures devices == (if reply.Ok? then reply.value else old(devices))
      ensures settings == old(settings) && dictionary == old(dictionary) && isLoading == old(isLoading)
    {
      if reply.Ok? {
        devices := reply.value;
      }
    }

    /** `loadDictionary`: replaced only by what the back end returned. */
    method LoadDictionary(reply: Result<seq<string>>)
      modifies this
      ensures dictionary == (if reply.Ok? then reply.value else old(dictionary))
      ensures settings == old(settings) && devices == old(devices) && isLoading == old(isLoading)
    {
      if reply.Ok? {
        dictionary := reply.value;
      }
    }

    /** `addWord`: appended once the back end has added it. */
    method AddWord(word: string, accepted: Outcome) returns (thrown: Option<string>)
      modifies this
      ensures accepted.Pass? ==> thrown == None && dictionary == old(dictionary) + [word]
      ensures accepted.Fail? ==> thrown == Some(accepted.error) && dictionary == old(dictionary)
      ensures settings == old(settings) && devices == old(devices) && isLoading == old(isLoading)
    {
      if accepted.Fail? {
        return Some(accepted.error);
      }
      dictionary := dictionary + [word];
      thrown := None;
    }

    /** `removeWord`: every equal entry goes once the back end has removed
        it. */
    method RemoveWord(word: string, accepted: Outcome) returns (thrown: Option<string>)
      modifies this
      ensures accepted.Pass? ==> thrown == None && dictionary == WithoutWord(old(dictionary), word)
      ensures accepted.Fail? ==> thrown == Some(accepted.error) && dictionary == old(dictionary)
      ensures settings == old(settings) && devices == old(devices) && isLoading == old(isLoading)
    {
      if accepted.Fail? {
        return Some(accepted.error);
      }
      dictionary := WithoutWord(dictionary, word);
      thrown := None;
    }
  }

  // ---------------------------------------------------------------------
  // Properties

  /** A merged record has the fields of both; a field given in the partial
      record takes its value, any other keeps the current one. */
  lemma MergeOverrides(current: Record, partial: Record, field: string)
    ensures field in Merge(current, partial) <==> field in current || field in partial
    ensures field in partial ==> Merge(current, partial)[field] == partial[field]
    ensures field !in partial && field in current ==> Merge(current, partial)[field] == current[field]
  {
  }

  /** Merging nothing changes nothing, and merging the same fields twice is
      merging them once. */
  lemma MergeIdempotent(current: Record, partial: Record)
    ensures Merge(current, map[]) == current
    ensures Merge(Merge(current, partial), partial) == Merge(current, partial)
  {
    assert Merge(current, map[]).Keys == current.Keys;
  }

  /** Removing a word leaves no copy of it, keeps every other entry and
      their order, and leaves a dictionary without it as it was; a word
      just added is removed again with every earlier copy. */
  lemma RemoveWordEffect(dictionary: seq<string>, word: string, w: string)
    ensures w in WithoutWord(dictionary, word) <==> w in dictionary && w != word
    ensures IsSubsequence(WithoutWord(dictionary, word), dictionary)
    ensures word !in dictionary ==> WithoutWord(dictionary, word) == dictionary
    ensures WithoutWord(dictionary + [word], word) == WithoutWord(dictionary, word)
  {
    FilterMembers(dictionary, OtherWord(word), w);
    FilterIsSubsequence(dictionary, OtherWord(word));
    if word !in dictionary {
      FilterAllPass(dictionary, OtherWord(word));
    }
    FilterAppend(dictionary, [word], OtherWord(word));
    assert Filter([word], OtherWord(word)) == Filter([], OtherWord(word));
  }

  /** The interface's fallback defaults differ from the back end's: voice
      commands are off in one and on in the other, and the language-model
      mode is "basic" where the back end says it is off. */
  lemma DefaultsDisagreeWithBackend()
    ensures DefaultSettings["voice_commands_enabled"] == Flag(false)
    ensures Types.DefaultSettings().voiceCommandsEnabled
    ensures DefaultSettings["llm_mode"] == Str("basic") && Types.DefaultSettings().llmMode == Types.LlmMode.Off
  {
  }
}
