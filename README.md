# A verified model of a push-to-talk dictation app

The application is a desktop dictation tool. A Rust back end (Tauri) records the microphone while a global hotkey is held, transcribes the recording with a local speech engine (Whisper, Vosk or Parakeet), optionally rewrites French voice commands ("point", "à la ligne", "commande efface", "ouvre Safari") into punctuation and actions, optionally post-processes the text with a language model, and types or pastes the result into the focused application. A TypeScript front end holds the settings and the transcription history in stores, records hotkeys, and runs an onboarding wizard.

This project models the core of both halves in Dafny and proves properties of the model.

- **Voice commands**: `parser.dfy`, `parser_properties.dfy`, `punctuation.dfy`, `parser_examples.dfy` and `punctuation_examples.dfy` cover `voice_commands/parser.rs`. Each stage is a method with the original loop, proved against a specification function. The lemmas cover:
  - tidy output, the order and count of actions, and mode gating;
  - the spacing each punctuation rule gives around its symbol;
  - the longest-first order of the punctuation table, which leaves no punctuation word behind;
  - unchanged text without commands;
  - nine of the expected results written next to the parser.

  `executor.dfy` models running the actions as a trace of platform calls.
- **Push-to-talk** (`ptt.rs`):
  - `ptt_dispatch.dfy` models shortcut registration and the edge-triggered flags of `handle_shortcut`;
  - `ptt_actor.dfy` models the audio thread's command loop;
  - `ptt_streaming.dfy` models the type-only-the-new-suffix streaming loop;
  - `ptt_finish.dfy` models the stop waiter, the duration floors, the reconciliation of streamed and final text, and the voice action.
- **GUI recording** (`commands/transcription.rs`):
  - `gui_actor.dfy` models the always-answering audio thread;
  - `gui_streaming.dfy` models the tail-window streaming task;
  - `gui_recording.dfy` models `start_recording`, `stop_recording` and `reset_recording_state`.
- **Capture** (`audio/capture.rs`): `capture.dfy` holds `AudioCapture` as a class with the soft buffer cap, the downmix of multichannel frames, snapshot and stop.
- **Hotkeys** (`hotkeys.rs`, `HotkeyInput.tsx`, `ShortcutsStep.tsx`): `hotkeys.dfy`, `hotkey_input.dfy` and `shortcuts_step.dfy`.
- **Configuration and engines**:
  - `types.dfy` covers `types.rs`;
  - `model_manager.dfy`, `whisper.dfy`, `engine_state.dfy`, `model_commands.dfy` and `settings_commands.dfy` cover model paths, engine selection and replacement, model switching, and the settings commands.
- **Storage and batch work**: `stats.dfy`, `snippets.dfy` and `file_transcription.dfy`.
- **Front-end stores and onboarding test**: `transcription_store.dfy`, `settings_store.dfy` and `test_step.dfy`.
- **Shared helpers**: `wrappers.dfy`, `text.dfy` and `seqs.dfy`. `text.dfy` holds the pieces of Rust's and JavaScript's string API that the code relies on.

Threads, channels, atomics and locks become sequential events and explicit outcomes. A `recv_timeout` that gets nothing is a message stream that runs out, or an explicit timeout. Everything outside the modelled code is a parameter or a recorded effect:

- the speech engines, the resampler and the language-model call;
- the clipboard, the file system and the clock;
- the audio host;
- pasting, typing and emitted events.

Stored JSON files are their decoded contents.

## Model

| member | source | states |
|---|---|---|
| Types.DownloadUrlEndsWithFileName | src-tauri/src/types.rs:42-56 | each Whisper model's download address is the whisper.cpp repository's base followed by "/" and that model's file name |
| Types.SizeBytesIncreasing | src-tauri/src/types.rs:58-64 | the advertised sizes grow strictly from tiny to small to medium |
| Types.VoskUrlNamesModel | src-tauri/src/types.rs:132-134 | the Vosk download address is the models base, then the model name, then ".zip"; the model name is read back from between them |
| Types.LanguageOfNameSound | src-tauri/src/types.rs:161-184 | a name is recognised as a language only when it is that language's code or English name |
| Types.LanguageOfNameComplete | src-tauri/src/types.rs:161-184 | every language's code and English name are recognised as that language |
| Types.FromLanguageCodeIff | src-tauri/src/types.rs:161-184 | a language is found exactly when the lower-cased input is its code or its English name |
| Types.ModelNamesDistinct | src-tauri/src/types.rs:107-130 | no two Vosk languages share a model directory name |
| Whisper.Transcribe | src-tauri/src/engines/whisper.rs:47-126 | the result is `TranscribeSpec`: the rate check, the half-second floor, the language handed to the decoder, the segments joined in order, and the result record |
| Whisper.NewNeedsModelFile | src-tauri/src/engines/whisper.rs:15-35 | an engine is built exactly when the model file exists and loading succeeds, with the given language and size; a missing file gives "Model file not found: " and the path |
| Whisper.RateCheckedFirst | src-tauri/src/engines/whisper.rs:50-55 | a rate other than 16000 is refused whatever the audio and the decoder |
| Whisper.HalfSecondFloor | src-tauri/src/engines/whisper.rs:57-60 | at 16000 Hz fewer than 8000 samples give "Audio too short (minimum 0.5 seconds)"; from 8000 samples on, the outcome is the decoder's |
| Whisper.LanguageForwarding | src-tauri/src/engines/whisper.rs:66-71 | a language reaches the decoder exactly when one is set and it is not "auto", and it is then passed unchanged |
| Whisper.JoinedAppend | src-tauri/src/engines/whisper.rs:96-102 | the text of two runs of segments is the text of the first followed by that of the second |
| Whisper.JoinedSkipsUnreadable | src-tauri/src/engines/whisper.rs:99-101 | a segment whose text cannot be read contributes nothing |
| Whisper.ResultShape | src-tauri/src/engines/whisper.rs:117-125 | a result has trimmed text, confidence 0.95, a duration of samples over 16000 that is at least half a second, and the model "Whisper " followed by the size's display name |
| Whisper.DisplayNamesDistinct | src-tauri/src/engines/whisper.rs:132-134 | engines of different sizes have different model names |
| ModelManager.NewManager | src-tauri/src/engines/model_manager.rs:13-19 | the models directory is `models` under the application data directory, and the bundled path is kept |
| ModelManager.ModelPathChoice | src-tauri/src/engines/model_manager.rs:22-45 | a path is returned only when it exists; for Tiny an existing bundled copy wins; other sizes are looked up only in the user's directory; a model is available exactly when its downloaded file exists or, for Tiny, its bundled copy does |
| ModelManager.AvailableModelsExact | src-tauri/src/engines/model_manager.rs:48-53 | the list holds exactly the available sizes, in the order tiny, small, medium |
| ModelManager.DeleteOnlyUserFile | src-tauri/src/engines/model_manager.rs:112-120 | deleting removes at most the downloaded file; an absent file is success with nothing changed; a success leaves no downloaded file; a failed removal leaves everything |
| ModelManager.DeleteKeepsBundledTiny | src-tauri/src/engines/model_manager.rs:22-31 | the bundled Tiny model is still found after Tiny is deleted, as long as the bundled directory is not the user's model directory |
| ModelManager.DeleteRemovesDownload | src-tauri/src/engines/model_manager.rs:112-120 | a successfully deleted small or medium model is no longer available |
| ModelManager.VoskAndParakeetPaths | src-tauri/src/engines/model_manager.rs:125-137 | a Vosk model is the existing directory `vosk/<model name>` under the model directory, a Parakeet model the directory `parakeet/<model name>`; two languages never share a directory |
| ModelManager.AvailableVoskExact | src-tauri/src/engines/model_manager.rs:140-146 | the Vosk list holds exactly the installed languages in the fixed order; the Parakeet list holds its one model exactly when it is installed |
| EngineState.AppState.constructor | src-tauri/src/state.rs:20-182 | the new state is not recording, at 16000 Hz, with no audio buffer and the loaded settings; its manager uses the bundled models directory found; its engine is the one start-up builds for the configured type |
| EngineState.AppState.New | src-tauri/src/state.rs:20-67 | a missing resource or application data directory fails with its message; otherwise the state is fresh, not recording, at 16000 Hz, with no audio buffer, the given settings and the engine start-up builds |
| EngineState.AppState.ReloadEngine | src-tauri/src/state.rs:233-245 | the outcome is that of building a Whisper engine of that size and language; the engine is replaced only when the build succeeds; nothing else changes |
| EngineState.AppState.ReloadParakeetEngine | src-tauri/src/state.rs:248-278 | the outcome is that of building the Parakeet engine for the platform; the engine is replaced only on success; nothing else changes |
| EngineState.AppState.ReloadVoskEngine | src-tauri/src/state.rs:281-293 | the outcome is that of building a Vosk engine for the language; the engine is replaced only on success; nothing else changes |
| EngineState.AppState.SwitchEngineType | src-tauri/src/state.rs:296-327 | the outcome and the new engine are those of the reload the target type calls for, with the language and model read from the settings held; nothing else changes |
| EngineState.WhisperLanguageIff | src-tauri/src/state.rs:78-82 | Whisper gets no language exactly when detection is on, and the transcription language otherwise |
| EngineState.VoskLanguageResolution | src-tauri/src/state.rs:147-148 | the configured Vosk language wins; without one the transcription language is mapped by `from_language_code` |
| EngineState.WhisperBuilt | src-tauri/src/state.rs:233-245 | a Whisper engine is built exactly when the model is available and loads; it then has the requested language and size; an unavailable model gives "Model … not available" |
| EngineState.StartupFallback | src-tauri/src/state.rs:100-171 | at start-up a Parakeet engine that cannot be built falls back to Whisper; a configured Whisper or Vosk engine that cannot be built leaves no engine; otherwise start-up builds what `switch_engine_type` would |
| EngineState.StartupMatchesSwitch | src-tauri/src/state.rs:100-171 | whenever `switch_engine_type` could build the configured engine, start-up holds that same engine |
| EngineState.VoskWithoutLanguageRefused | src-tauri/src/state.rs:315-324 | switching to Vosk with no usable language is refused with its message, and the engine stays as it was |
| EngineState.BundledPathChoice | src-tauri/src/state.rs:34-59 | a bundled models directory is returned only when it exists; `resources/models` under the resource directory wins; none is found exactly when none of the three places exists |
| ModelCommands.SwitchModel | src-tauri/src/commands/models.rs:84-107 | the outcome, the new settings and the new engine are those of `SwitchModelSpec`; recording state and audio buffer are untouched |
| ModelCommands.ModelInfosExact | src-tauri/src/commands/models.rs:24-34 | the list is tiny, small, medium, each with its display name, its size in bytes, and whether the manager finds it |
| ModelCommands.UnavailableRefused | src-tauri/src/commands/models.rs:85-87 | an unavailable model is refused with "Model … is not available. Please download it first." and nothing changes |
| ModelCommands.SettingsFollowEngine | src-tauri/src/commands/models.rs:89-101 | the recorded model changes only together with the engine, which is then a Whisper engine of that size, told no language exactly when detection is on; no other setting changes |
| ModelCommands.SaveFailureKeepsSwitch | src-tauri/src/commands/models.rs:97-104 | a failed save after a successful reload is reported, yet the new model stays in memory along with its engine |
| ModelCommands.CompletionAfterSuccess | src-tauri/src/commands/models.rs:43-76 | every progress report is forwarded in order; "model-download-complete" is sent once, last, and only when the download succeeded |
| SettingsCommands.GetSettings | src-tauri/src/commands/settings.rs:9-12 | a copy of the settings held |
| SettingsCommands.ShortcutUpdates | src-tauri/src/commands/settings.rs:39-60 | the shortcut calls are the push-to-talk ones followed by the translate ones, each decided by comparing the settings before and after |
| SettingsCommands.UpdateSettings | src-tauri/src/commands/settings.rs:15-63 | a failed save is returned with nothing changed and no call made; otherwise the new settings are held, the engine is switched as `EngineAfter` says and the shortcut calls are made, and the command succeeds whatever those calls answered |
| SettingsCommands.ShortcutReleasedFirst | src-tauri/src/commands/settings.rs:66-81 | `update_shortcut` releases the old shortcut before anything else when it parses; a new hotkey that does not parse is refused without registering anything |
| SettingsCommands.PttOnlyOnChange | src-tauri/src/commands/settings.rs:21-43 | the push-to-talk shortcut is touched only when its hotkey string changed |
| SettingsCommands.TranslateRules | src-tauri/src/commands/settings.rs:45-60 | with neither the flag nor the hotkey changed nothing happens; otherwise the old shortcut is released exactly when translation was on and it parses, and the new one is registered exactly when translation is on now and it parses |
| SettingsCommands.EngineOnlyOnTypeChange | src-tauri/src/commands/settings.rs:24-37 | the engine is switched only when the engine type changed, and the switch reads the settings just stored; a failed switch keeps the engine |
| VoiceParser.ExtractCommand | src-tauri/src/voice_commands/parser.rs:210-228 | a command is found exactly when the lower-cased text contains the lower-cased phrase; when it is not found, the text is returned as it was |
| VoiceParser.ExtractCommandFound | src-tauri/src/voice_commands/parser.rs:214-224 | when the phrase first occurs at a position, ignoring case, it is found and cut out there, and the trimmed text on both sides is rejoined with one space when both are non-empty |
| VoiceParser.TriggerAt | src-tauri/src/voice_commands/parser.rs:185-190 | the position found holds the trigger and has a word after it, and no earlier position from the start does; with none found, no position qualifies |
| VoiceParser.FirstTrigger | src-tauri/src/voice_commands/parser.rs:183-204 | a trigger position found always has an app name after it |
| VoiceParser.DropTriggerAndName | src-tauri/src/voice_commands/parser.rs:195-200 | the loop rebuilds the word list without exactly the trigger and the word after it |
| VoiceParser.ExtractAppCommands | src-tauri/src/voice_commands/parser.rs:179-207 | the text and the actions appended are those of `AppCommandSpec` |
| VoiceParser.ReplaceFromStep | src-tauri/src/voice_commands/parser.rs:238-272 | at a match, the match lies in the unconsumed text, and the replacement goes on after the command (and one following space) with that match's output appended |
| VoiceParser.PushMatch | src-tauri/src/voice_commands/parser.rs:243-270 | the spacing block appends what `Emit` gives for the mapping's spacing rule |
| VoiceParser.ReplaceNext | src-tauri/src/voice_commands/parser.rs:238-276 | one iteration moves the search past the command and the unconsumed text past one following space, and leaves what the rest of the replacement produces unchanged |
| VoiceParser.ReplacePunctuationCommand | src-tauri/src/voice_commands/parser.rs:231-278 | the loop over the matches gives `ReplacePunctuation`, whose spacing rules and case handling the `VoicePunctuation` lemmas below state |
| VoiceParser.Pop | src-tauri/src/voice_commands/parser.rs:297-299 | popping removes one character, and nothing from an empty string |
| VoiceParser.CleanWhitespace | src-tauri/src/voice_commands/parser.rs:281-312 | the character loop and the final trim give `CleanSpec` |
| VoiceParser.ExtractCommands | src-tauri/src/voice_commands/parser.rs:150-157 | one loop over a command table gives the text and the actions of `ExtractTable` |
| VoiceParser.ReplaceAllCommands | src-tauri/src/voice_commands/parser.rs:163-165 | the punctuation loop applies every mapping in table order |
| VoiceParser.Parse | src-tauri/src/voice_commands/parser.rs:137-174 | the result is `ParseSpec`: the mode's contextual phrases, the edit phrases, one app command, punctuation, whitespace clean-up, in this order |
| VoiceParser.TablesWellFormed | src-tauri/src/voice_commands/parser.rs:69-82 | every punctuation command is non-empty and does not start with a space |
| VoiceParserProperties.CleanStepPreserves | src-tauri/src/voice_commands/parser.rs:287-308 | one character of the clean-up loop keeps its invariant: the two flags say what the output ends with, and the output has no double space and no space next to a newline |
| VoiceParserProperties.CleanRunInvariant | src-tauri/src/voice_commands/parser.rs:287-308 | the invariant holds after the whole loop |
| VoiceParserProperties.CleanSpecTidy | src-tauri/src/voice_commands/parser.rs:281-312 | the cleaned text is trimmed and has no double space and no space next to a newline |
| VoiceParserProperties.CleanSpecOfTidy | src-tauri/src/voice_commands/parser.rs:281-312 | text that is already tidy and trimmed is left as it is |
| VoiceParserProperties.CleanIdempotent | src-tauri/src/voice_commands/parser.rs:281-312 | cleaning twice gives what cleaning once gives |
| VoiceParserProperties.ExtractTableActions | src-tauri/src/voice_commands/parser.rs:150-157 | each phrase of a table raises its action at most once, and the actions follow the table's order |
| VoiceParserProperties.ExtractTableUnchanged | src-tauri/src/voice_commands/parser.rs:214-227 | text holding none of a table's phrases is returned unchanged, with no action |
| VoiceParserProperties.ExtractTableConcat | src-tauri/src/voice_commands/parser.rs:150-157 | extracting the phrases of two tables one after the other is extracting those of their concatenation |
| VoiceParserProperties.FirstTriggerFound | src-tauri/src/voice_commands/parser.rs:183-204 | the position found holds one of the lower-cased triggers |
| VoiceParserProperties.FirstTriggerNone | src-tauri/src/voice_commands/parser.rs:183-206 | with no trigger followed by a word, nothing is found |
| VoiceParserProperties.AppCommandShape | src-tauri/src/voice_commands/parser.rs:179-207 | an app command names the word right after a whole-word trigger, leaves both out of the text and rejoins the other words with single spaces; at most one is produced |
| VoiceParserProperties.AppCommandNone | src-tauri/src/voice_commands/parser.rs:183-206 | text with no trigger word followed by another word has no app command and is returned unchanged |
| VoiceParserProperties.LoneTrigger | src-tauri/src/voice_commands/parser.rs:188-190 | a trigger with nothing after it is not a command |
| VoiceParserProperties.ReplaceNoMatch | src-tauri/src/voice_commands/parser.rs:238-277 | text without the command is returned unchanged |
| VoiceParserProperties.ReplaceAllUnchanged | src-tauri/src/voice_commands/parser.rs:163-165 | text holding no punctuation command is returned unchanged |
| VoiceParserProperties.ParseOutputTidy | src-tauri/src/voice_commands/parser.rs:167-168 | the parsed text is trimmed and has no double space and no space next to a newline |
| VoiceParserProperties.ParseActionsShape | src-tauri/src/voice_commands/parser.rs:137-174 | contextual actions come first, in the order of the mode's table, then edit actions in the order of the edit table, then at most one OpenApp; at most nine in all |
| Text.WordsAreWords | src-tauri/src/voice_commands/parser.rs:180 | every piece `split_whitespace` gives is a non-empty run without white space |
| Text.WordsEmptyIffAllWhite | src-tauri/src/voice_commands/parser.rs:180 | `split_whitespace` gives nothing exactly when the text is all white space |
| Text.WordsJoin | src-tauri/src/voice_commands/parser.rs:180-203 | words joined by single spaces split back into the same words |
| VoiceParserProperties.EditActionsNotContextual | src-tauri/src/voice_commands/parser.rs:142-147 | no action of the edit-command table is contextual, so those allowed in General mode never are |
| VoiceParserProperties.GeneralModeHasNoContextualActions | src-tauri/src/voice_commands/parser.rs:142-147 | in General mode no contextual action is ever produced |
| VoiceParserProperties.ParseUnchanged | src-tauri/src/voice_commands/parser.rs:520-525 | text with no command phrase, no trigger followed by a word and no punctuation word, already tidy and trimmed, comes back unchanged with no actions |
| VoiceParserProperties.ParseEmpty | src-tauri/src/voice_commands/parser.rs:513-518 | the empty string parses to the empty string with no actions |
| VoicePunctuation.PunctuationLongestFirst | src-tauri/src/voice_commands/parser.rs:68-82 | the table runs from the longest command to the shortest, and by the time the bare "point" mapping runs, none of the earlier commands ("point d'interrogation", "point virgule", "deux points" and the others) is left in the text in any case, so none is split into "." and a leftover word |
| VoicePunctuation.ReplaceOnly | src-tauri/src/voice_commands/parser.rs:243-272 | for a command occurring once: a closing symbol is glued to the trimmed text before it, followed by one space exactly when text follows (close-with-space) or by nothing (close-no-space, newline); an opening symbol keeps the text before it, adds one space unless that text is empty or ends with one, and none after; the text after the command, one space skipped, is kept as written |
| VoicePunctuation.ReplaceFirst | src-tauri/src/voice_commands/parser.rs:238-276 | for closing and newline rules, the output is the trimmed text before the first match, the symbol, a space when the rule asks for one and text follows, then the mapping applied to the rest after one skipped space |
| VoicePunctuation.ReplaceConsumesCommand | src-tauri/src/voice_commands/parser.rs:231-278 | after a mapping runs its command no longer occurs, in any case |
| VoicePunctuation.ReplaceKeepsAbsent | src-tauri/src/voice_commands/parser.rs:231-278 | a mapping never creates a phrase that was absent when its symbol shares no character with that phrase |
| VoicePunctuation.AllPunctuationConsumed | src-tauri/src/voice_commands/parser.rs:163-165 | after the punctuation stage no punctuation word is left, in any case |
| VoiceParserExamples.PointEndsSentence | src-tauri/src/voice_commands/parser.rs:318-323 | "Bonjour point" parses to "Bonjour." with no actions |
| VoiceParserExamples.DeleteKeepsPrecedingText | src-tauri/src/voice_commands/parser.rs:396-401 | "texte commande efface" parses to "texte" with Delete |
| VoiceParserExamples.ClearAllLeavesNothing | src-tauri/src/voice_commands/parser.rs:410-415 | "commande tout effacer" parses to the empty text with ClearAll |
| VoiceParserExamples.OpenSafari | src-tauri/src/voice_commands/parser.rs:529-534 | "ouvre Safari" parses to the empty text with OpenApp("Safari") |
| VoicePunctuationExamples.CommasSeparateWords | src-tauri/src/voice_commands/parser.rs:325-330 | "un virgule deux virgule trois" parses to "un, deux, trois" with no actions |
| VoicePunctuationExamples.QuestionBeforePoint | src-tauri/src/voice_commands/parser.rs:332-337 | "Comment allez-vous point d'interrogation" parses to "Comment allez-vous?" with no actions: the longer phrase is consumed before "point" |
| VoicePunctuationExamples.ParenthesesEnclose | src-tauri/src/voice_commands/parser.rs:360-365 | "texte ouvrir parenthèse note fermer parenthèse suite" parses to "texte (note) suite" with no actions |
| VoicePunctuationExamples.NewlineBreaksLine | src-tauri/src/voice_commands/parser.rs:374-379 | "première ligne à la ligne deuxième ligne" parses to "première ligne\ndeuxième ligne" with no actions |
| VoiceParserExamples.SignatureIsTextInGeneralMode | src-tauri/src/voice_commands/parser.rs:452-457 | "commande signature" is plain text in General mode |
| FileTranscription.TranscribeOne | src-tauri/src/commands/file_transcription.rs:35-134 | the result and events for one file are `FileStep`: name, "decoding" event, format check, decoding, "transcribing" event, engine, then history and statistics on success |
| FileTranscription.TranscribeFiles | src-tauri/src/commands/file_transcription.rs:31-148 | the results and events are `TranscribeFilesSpec`: every path in order, then the completion event |
| FileTranscription.RunResults | src-tauri/src/commands/file_transcription.rs:34-135 | after n files there are n results, the k-th being the k-th file's own |
| FileTranscription.ExactlyOneOutcome | src-tauri/src/commands/file_transcription.rs:55-133 | each result carries the file's path and name, and holds a transcription exactly when it holds no error |
| FileTranscription.OneResultPerPath | src-tauri/src/commands/file_transcription.rs:31-148 | the batch returns exactly one result per path, in input order, each with exactly one of a transcription or an error |
| FileTranscription.UnsupportedNotDecoded | src-tauri/src/commands/file_transcription.rs:53-76 | an unsupported file gets "Unsupported audio format", only its "decoding" event, and does not depend on the decoder; a decoding failure gets "Failed to decode: " and the decoder's message |
| FileTranscription.TranscribedIff | src-tauri/src/commands/file_transcription.rs:89-133 | a file is transcribed exactly when it is supported, it decodes, an engine is loaded and the engine succeeds; the transcription is then the engine's; without an engine the error is "No engine initialized" |
| FileTranscription.StepEvents | src-tauri/src/commands/file_transcription.rs:42-117 | a file's events open with "decoding"; "transcribing" is sent exactly when it decoded; a failure sends only progress; a success then saves to history and, only when tracking is on, records the word count, duration and language |
| FileTranscription.StepProgress | src-tauri/src/commands/file_transcription.rs:42-87 | a file always sends its "decoding" event, and its "transcribing" event exactly when it is supported and decoded |
| FileTranscription.StepProgressPositions | src-tauri/src/commands/file_transcription.rs:43-51 | every progress event of file `index` carries position index+1 and the total, and none is "completed" |
| FileTranscription.RunProgress | src-tauri/src/commands/file_transcription.rs:34-87 | over the batch, every processed file sent its "decoding" event, and its "transcribing" event exactly when it decoded |
| FileTranscription.RunNoLaterProgress | src-tauri/src/commands/file_transcription.rs:34-135 | the first n files only send positions from 1 to n, and never "completed" |
| FileTranscription.CompletedLast | src-tauri/src/commands/file_transcription.rs:137-146 | the batch ends with exactly one "completed" event, with the total as its position and an empty file name |
| FileTranscription.FileNameOfComponents | src-tauri/src/commands/file_transcription.rs:35-40 | the name of `dir/…/name` is its last piece, and "unknown" when that piece is ".." |
| FileTranscription.NoComponentsUnknown | src-tauri/src/commands/file_transcription.rs:36-39 | an empty path, or one of slashes only, is named "unknown" |
| Stats.LoadStats | src-tauri/src/storage/stats.rs:9-17 | the stored statistics, and all zeros when the file is missing or does not parse |
| Stats.StatsStorage.constructor | src-tauri/src/storage/stats.rs:5-7 | the storage holds the given file |
| Stats.StatsStorage.Load | src-tauri/src/storage/stats.rs:9-17 | what `load_stats` reads from the file |
| Stats.StatsStorage.RecordTranscription | src-tauri/src/storage/stats.rs:26-48 | a successful write stores `Recorded` of the loaded statistics, and a failed one leaves the file as it was; any file is accepted, and when its totals equalled the sums over the days they still do |
| Stats.FallbackIsZero | src-tauri/src/storage/stats.rs:11-16 | a missing or unparseable file gives zero totals, no days and no languages |
| Stats.RecordedEffect | src-tauri/src/storage/stats.rs:29-45 | recording adds the words, one transcription and the duration to the totals and to today's entry, created as zeros if new; every other day is unchanged; a given language is counted once more, and no other language changes |
| Stats.DailySumRemove | src-tauri/src/storage/stats.rs:34-39 | the sum of a counter over the days equals one day's value plus the sum over the others |
| Stats.DailySumUpdate | src-tauri/src/storage/stats.rs:36-39 | setting one day's entry changes the sum over the days by the change of that day |
| Stats.RecordedConsistent | src-tauri/src/storage/stats.rs:29-39 | because the totals and today's entry rise together, recording keeps the word and transcription totals equal to the sums over the days |
| Stats.LoadedConsistent | src-tauri/src/storage/stats.rs:9-17 | loading gives consistent statistics whenever the file held consistent ones or nothing usable |
| SettingsStore.Store.constructor | src/stores/settingsStore.ts:36-40 | no settings, no devices, an empty dictionary, not loading |
| SettingsStore.Store.LoadSettings | src/stores/settingsStore.ts:42-51 | the settings become what `get_settings` returned, or the defaults when it failed; loading is over either way; devices and dictionary are untouched |
| SettingsStore.Store.UpdateSettings | src/stores/settingsStore.ts:53-63 | the record sent is the current settings (the defaults when none) overridden by the partial record; it is kept only when the back end accepts it, and a refusal is thrown with the settings unchanged |
| SettingsStore.Store.LoadDevices | src/stores/settingsStore.ts:65-72 | the devices become the listed ones, and stay as they were when listing failed |
| SettingsStore.Store.LoadDictionary | src/stores/settingsStore.ts:74-81 | the dictionary becomes the returned one, and stays as it was on failure |
| SettingsStore.Store.AddWord | src/stores/settingsStore.ts:83-91 | once the back end has added the word it is appended; a refusal is thrown and leaves the dictionary as it was |
| SettingsStore.Store.RemoveWord | src/stores/settingsStore.ts:93-101 | once the back end has removed the word every equal entry is dropped; a refusal is thrown and leaves the dictionary as it was |
| SettingsStore.MergeOverrides | src/stores/settingsStore.ts:54-55 | the merged record has the fields of both; a field of the partial record takes its value, any other keeps the current one |
| SettingsStore.MergeIdempotent | src/stores/settingsStore.ts:55 | merging nothing changes nothing; merging the same partial record twice equals merging it once |
| SettingsStore.RemoveWordEffect | src/stores/settingsStore.ts:96 | after removal a word is present exactly when it was present and differs from the removed one; the order of the rest is kept; removing an absent word changes nothing; removing a word just added equals removing it from the dictionary before the add |
| SettingsStore.DefaultsDisagreeWithBackend | src/stores/settingsStore.ts:30-32 | the front end's fallback has voice commands off and the mode "basic", where the back end's default (src-tauri/src/types.rs) has them on and the mode off |
| TranscriptionStore.Store.constructor | src/stores/transcriptionStore.ts:21-25 | idle, with no result, an empty history and no error |
| TranscriptionStore.Store.SetStatus | src/stores/transcriptionStore.ts:27 | only the status changes |
| TranscriptionStore.Store.StartRecording | src/stores/transcriptionStore.ts:29-46 | the error thrown, the new status and error, and the commands invoked are those of `StartSpec` for the three answers; result and history are untouched |
| TranscriptionStore.Store.StopRecording | src/stores/transcriptionStore.ts:48-62 | a result becomes the current one and is put first in the history, cut to 50, with status completed; a failure sets the error status and message and is thrown, and the result and history stay |
| TranscriptionStore.Store.LoadHistory | src/stores/transcriptionStore.ts:64-71 | the history becomes the returned one, and stays as it was on failure |
| TranscriptionStore.Store.ClearHistory | src/stores/transcriptionStore.ts:73-80 | the history is emptied only when the back end has cleared it |
| TranscriptionStore.Store.ClearError | src/stores/transcriptionStore.ts:82 | no error and status idle; result and history are untouched |
| TranscriptionStore.Store.ResetRecordingState | src/stores/transcriptionStore.ts:84-91 | idle and without error once the back end has reset; otherwise status and error are unchanged |
| TranscriptionStore.Store.Initialize | src/stores/transcriptionStore.ts:93-101 | the same reset as `resetRecordingState`, made at start-up |
| TranscriptionStore.NewestFirst | src/stores/transcriptionStore.ts:55 | the new history starts with the new result, holds the older ones after it in order, has at most 50 entries, and has one entry more unless 50 were already there |
| TranscriptionStore.WithNewestKeepsShort | src/stores/transcriptionStore.ts:55 | a history of fewer than 50 entries loses nothing |
| TranscriptionStore.StartRetriesOnce | src/stores/transcriptionStore.ts:29-46 | `start_recording` is invoked once or twice, the second time exactly when the first failure contained "Already recording" and the reset worked; the reset is invoked exactly on that failure; any other failure sets the error status and message and is thrown; nothing is thrown exactly when the first call, or the reset and the retry, succeeded |
| TranscriptionStore.RecoversFromBackendRefusal | src/stores/transcriptionStore.ts:36-40 | the back end's own "Already recording" refusal (src-tauri/src/commands/transcription.rs) is the message the store recovers from: it resets |
| TestStep.WordLength | src/components/onboarding/TestStep.tsx:242 | the result is the length of the run of non-space characters that opens the string, stopped by a space or the end |
| TestStep.Tokens | src/components/onboarding/TestStep.tsx:242 | every token is non-empty and holds no JavaScript white space |
| TestStep.CountMatches | src/components/onboarding/TestStep.tsx:245-248 | the loop counts exactly the phrase's distinct words that occur in the transcription |
| TestStep.ComputeSimilarity | src/components/onboarding/TestStep.tsx:241-250 | the score returned is `Similarity`: 0 for a phrase without words, otherwise the share of the phrase's distinct words found in the transcription |
| TestStep.SimilarityRange | src/components/onboarding/TestStep.tsx:240-250 | the score lies between 0 and 1; it is 0 for a phrase without words; for a phrase with words it is 1 exactly when every word of the phrase occurs in the transcription |
| TestStep.ScoreRange | src/components/onboarding/TestStep.tsx:244-249 | the same bounds and the same characterisation of 1, stated on word sets |
| TestStep.SimilarityAsymmetric | src/components/onboarding/TestStep.tsx:249 | the score is normalised by the phrase: a phrase whose words are a proper part of a transcription's scores 1 against it, but the transcription scores less than 1 against the phrase |
| TestStep.GoodMatchIff | src/components/onboarding/TestStep.tsx:119-120 | a match is good exactly when there is a non-empty result and at least half of the lower-cased phrase's distinct words occur in the lower-cased result |
| TestStep.PhraseFallback | src/components/onboarding/TestStep.tsx:10-23 | a missing, empty or unknown language gets the French phrase; a known one gets its own phrase |
| Executor.ExecuteActions | src-tauri/src/voice_commands/executor.rs:7-22 | the platform calls made are `Trace` of the actions: each action once, in list order, and only OpenApp reaches the platform |
| Executor.TraceAppend | src-tauri/src/voice_commands/executor.rs:7-11 | running two lists one after the other makes the calls of their concatenation |
| Executor.CallCount | src-tauri/src/voice_commands/executor.rs:13-22 | exactly one platform call per OpenApp action and none for any other; an empty list makes no call |
| Executor.CallsMatchActions | src-tauri/src/voice_commands/executor.rs:15-17 | an application is opened exactly when an OpenApp action names it |
| Executor.OpenAppsInOrder | src-tauri/src/voice_commands/executor.rs:8-10 | the calls follow the order of the actions: an OpenApp between two lists makes its call between their calls |
| Snippets.LoadSnippets | src-tauri/src/storage/snippets.rs:9-17 | the stored list, and an empty one when the file is missing or does not parse |
| Snippets.FirstWithId | src-tauri/src/storage/snippets.rs:34 | the position found holds the id and no earlier one does; with none found, no entry holds it |
| Snippets.SnippetStorage.constructor | src-tauri/src/storage/snippets.rs:5-7 | the storage holds the given file |
| Snippets.SnippetStorage.Load | src-tauri/src/storage/snippets.rs:9-17 | what `load_snippets` reads from the file |
| Snippets.SnippetStorage.Save | src-tauri/src/storage/snippets.rs:19-24 | the list is stored when the write succeeds; a failed write leaves the file as it was and is returned |
| Snippets.SnippetStorage.AddSnippet | src-tauri/src/storage/snippets.rs:26-30 | the stored list gains the snippet at its end, whatever its id |
| Snippets.SnippetStorage.UpdateSnippet | src-tauri/src/storage/snippets.rs:32-40 | with no snippet of that id, "Snippet not found" and nothing written; otherwise the first one with the id is replaced by the given snippet and the list written |
| Snippets.SnippetStorage.RemoveSnippet | src-tauri/src/storage/snippets.rs:42-46 | the list written is the loaded one without any snippet of that id, the others in order |
| Snippets.FirstWithIdAt | src-tauri/src/storage/snippets.rs:34 | the search loop's stopping point is the first match, or the end when there is none |
| Snippets.UpdateReplacesFirst | src-tauri/src/storage/snippets.rs:34-35 | replacing keeps the length and every other entry, puts the given snippet at the first match, and no entry before it holds the id |
| Snippets.RemoveKeepsOthers | src-tauri/src/storage/snippets.rs:44 | a snippet is kept exactly when it was there and has another id; the order is kept; an id nobody has leaves the list as it was |
| Snippets.RemoveIdempotent | src-tauri/src/storage/snippets.rs:44 | removing twice equals removing once |
| Snippets.AddThenRemove | src-tauri/src/storage/snippets.rs:26-46 | adding a snippet and then removing its id equals removing that id before the add |
| Hotkeys.ModifierTokens | src-tauri/src/hotkeys.rs:15-25 | "commandorcontrol" is Meta on macOS and Control elsewhere; each modifier is named only by its own tokens |
| Hotkeys.KeyCode | src-tauri/src/hotkeys.rs:27-83 | a token names only one of the keys the table lists |
| Hotkeys.KeyCodeOfName | src-tauri/src/hotkeys.rs:27-83 | every key of the table is recognised from its canonical token |
| Hotkeys.KeyCodeIgnoresCase | src-tauri/src/hotkeys.rs:27 | tokens equal up to case name the same key, or none |
| Hotkeys.KeyCodeOfUpper | src-tauri/src/hotkeys.rs:27 | upper-casing a token does not change the key it names |
| Hotkeys.KeyTokenIsNotModifier | src-tauri/src/hotkeys.rs:14-27 | no key token is also a modifier token, so a key is never taken for a modifier |
| Hotkeys.SpacedKeyRejected | src-tauri/src/hotkeys.rs:27 | key tokens are not trimmed: a key written with a leading space is not recognised |
| Hotkeys.Build | src-tauri/src/hotkeys.rs:88-94 | there is a shortcut exactly when a key was seen, with that key; it has no modifier set exactly when no modifier was seen, and otherwise the modifiers seen |
| Hotkeys.ParseHotkey | src-tauri/src/hotkeys.rs:4-95 | the loop over the tokens gives `ParseSpec` |
| Hotkeys.FoldMods | src-tauri/src/hotkeys.rs:13-26 | the modifiers collected are exactly those some token names |
| Hotkeys.LastKeyPart | src-tauri/src/hotkeys.rs:26-27 | the index found is the last token that is not a modifier; there is none exactly when every token is a modifier |
| Hotkeys.FoldKey | src-tauri/src/hotkeys.rs:26-83 | the key is decided by the last non-modifier token alone; with no such token there is none |
| Hotkeys.SameModifiersSameFold | src-tauri/src/hotkeys.rs:13-86 | token lists naming the same modifiers and the same last key parse alike, whatever the order or repetition of their modifier tokens |
| Hotkeys.SwapModifiers | src-tauri/src/hotkeys.rs:13-86 | swapping two adjacent modifier tokens does not change the shortcut |
| Hotkeys.RepeatModifier | src-tauri/src/hotkeys.rs:13-86 | repeating a modifier token does not change the shortcut |
| Hotkeys.NoKeyNoShortcut | src-tauri/src/hotkeys.rs:88 | tokens that are all modifiers give no shortcut |
| Hotkeys.UnknownLastKeyNone | src-tauri/src/hotkeys.rs:27-82 | an unknown last key token makes the hotkey invalid, whatever key an earlier token named |
| Hotkeys.ParsePartsMeaning | src-tauri/src/hotkeys.rs:4-95 | there is a shortcut exactly when the last non-modifier token names a key; it carries that key and, when it has modifiers, exactly the modifiers some token named |
| Hotkeys.EmptyHotkey | src-tauri/src/hotkeys.rs:5-8 | the empty string gives no shortcut |
| Hotkeys.ParseJoined | src-tauri/src/hotkeys.rs:5 | a hotkey made of tokens joined by "+" parses like those tokens |
| Hotkeys.EmptyToken | src-tauri/src/hotkeys.rs:14-82 | the empty token is neither a modifier nor a key |
| Hotkeys.CtrlShiftR | src-tauri/src/hotkeys.rs:3 | "Ctrl+Shift+R" is Control and Shift with the R key |
| Hotkeys.DefaultPushToTalk | src-tauri/src/hotkeys.rs:18-23 | the default push-to-talk hotkey is Meta+Shift+Space on macOS and Control+Shift+Space elsewhere |
| Hotkeys.ModifiersOnly | src-tauri/src/hotkeys.rs:88 | "Ctrl+Shift" has no key and gives no shortcut |
| HotkeyInput.ModifierLabel | src/components/HotkeyInput.tsx:18-21 | exactly the four browser modifier keys have a label |
| HotkeyInput.Ordered | src/components/HotkeyInput.tsx:26 | the labels kept are exactly the modifier labels given |
| HotkeyInput.FormatHotkey | src/components/HotkeyInput.tsx:13-28 | the one pass over the held keys gives `Format`: the modifiers in the order Ctrl, Alt, Shift, Cmd, then the regular keys upper-cased, joined by "+" |
| HotkeyInput.LabelsOf | src/components/HotkeyInput.tsx:17-23 | a modifier label appears exactly when its modifier key is held |
| HotkeyInput.RegularKeysOf | src/components/HotkeyInput.tsx:17-23 | the regular keys are the non-modifier keys upper-cased: never more than the keys held, and none when only modifiers are held |
| HotkeyInput.SingleRegularKey | src/components/HotkeyInput.tsx:22 | with one regular key held, it is the only regular key written |
| HotkeyInput.Add | src/components/HotkeyInput.tsx:39-48 | adding to the set keeps it free of repeats and adds exactly that key |
| HotkeyInput.KeyDownKeys | src/components/HotkeyInput.tsx:36-50 | after a key-down the set holds the earlier keys, the modifiers flagged and the key itself unless it is a modifier, with no repeats |
| HotkeyInput.HotkeyRecorder.constructor | src/components/HotkeyInput.tsx:10-11 | not recording, no key held |
| HotkeyInput.HotkeyRecorder.Click | src/components/HotkeyInput.tsx:86-90 | a click starts recording with no key held, unless the input is disabled |
| HotkeyInput.HotkeyRecorder.Cancel | src/components/HotkeyInput.tsx:92-96 | cancelling stops recording and forgets the keys held |
| HotkeyInput.HotkeyRecorder.KeyDown | src/components/HotkeyInput.tsx:30-52 | while recording the held keys become `KeyDownKeys`; otherwise the key is ignored |
| HotkeyInput.HotkeyRecorder.KeyUp | src/components/HotkeyInput.tsx:54-73 | a hotkey is committed exactly when recording with a modifier and a regular key held; it is the formatted keys, and recording stops with no key held; otherwise nothing changes |
| HotkeyInput.OrderedNames | src/components/HotkeyInput.tsx:26 | the label tokens name, for the back-end parser, exactly the modifiers held |
| HotkeyInput.FormatParts | src/components/HotkeyInput.tsx:27 | a committed hotkey with one regular key is the label tokens and that key joined by "+", none of them holding a "+" |
| HotkeyInput.FormatThenParse | src/components/HotkeyInput.tsx:13-28 | a committed hotkey with one regular key that the back end knows parses back (src-tauri/src/hotkeys.rs) to the modifiers held and that key |
| HotkeyInput.PlusKeyFormat | src/components/HotkeyInput.tsx:22-27 | the "+" key recorded with Shift is formatted as "Shift++" |
| HotkeyInput.PlusKeyNotParsed | src-tauri/src/hotkeys.rs:5-14 | the back end rejects "Shift++", since its last token is empty |
| ShortcutsStep.ReplaceFirstSpec | src/components/onboarding/ShortcutsStep.tsx:11-16 | without an occurrence nothing changes; otherwise exactly the first occurrence is rewritten and everything after it is kept |
| ShortcutsStep.ReplaceAtStart | src/components/onboarding/ShortcutsStep.tsx:11 | a pattern at the very start is the occurrence rewritten |
| ShortcutsStep.SpacePlusWithoutPlus | src/components/onboarding/ShortcutsStep.tsx:17 | text without "+" is left as it is |
| ShortcutsStep.SpacePlusAppend | src/components/onboarding/ShortcutsStep.tsx:17 | spacing a concatenation is concatenating the spaced halves |
| ShortcutsStep.SpacePlusJoin | src/components/onboarding/ShortcutsStep.tsx:17 | spacing pieces joined by "+" joins them with " + " |
| ShortcutsStep.DefaultSteps2And3 | src/components/onboarding/ShortcutsStep.tsx:12-13 | once the first rule has run, neither "Command" nor "Control" is left in the default hotkey |
| ShortcutsStep.CommandOrControlOneSymbol | src/components/onboarding/ShortcutsStep.tsx:11-13 | for every hotkey whose only capital C is that of one "CommandOrControl" token, the first three rules turn the token into the one symbol ⌘ and leave the rest as it was |
| ShortcutsStep.DefaultPushToTalkDisplay | src/components/onboarding/ShortcutsStep.tsx:9-18 | "CommandOrControl+Shift+Space" is shown as "⌘ + ⇧ + Espace" |
| Capture.FirstNamed | src-tauri/src/audio/capture.rs:57 | the device found is the first one with that name; with none found, no device has it |
| Capture.GetDevice | src-tauri/src/audio/capture.rs:52-63 | with a name, the first input device of that name, "Device '…' not found" when there is none, or the listing's own error; without a name, the default input device or "No default input device" |
| Capture.Frames | src-tauri/src/audio/capture.rs:92 | there are never more chunks than samples, and no chunk only for no samples, so folding to mono never lengthens the data |
| Capture.FramesRoundUp | src-tauri/src/audio/capture.rs:92 | the number of chunks is the sample count over the channel count, rounded up |
| Capture.Downmix | src-tauri/src/audio/capture.rs:91-95 | one mono sample per chunk |
| Capture.FrameIsSlice | src-tauri/src/audio/capture.rs:92 | chunk k is the slice of `channels` samples starting at k times `channels`, shorter at the end |
| Capture.DownmixAt | src-tauri/src/audio/capture.rs:93 | every mono sample is the sum of its chunk divided by the channel count |
| Capture.Converted | src-tauri/src/audio/capture.rs:90-98 | mono data is appended as it is; data is never lengthened |
| Capture.FoldFrames | src-tauri/src/audio/capture.rs:92-95 | the chunk loop pushes exactly `Downmix` of the data |
| Capture.AudioCapture.constructor | src-tauri/src/audio/capture.rs:44-49 | no stream, an empty buffer, and the configuration's rate and channel count |
| Capture.AudioCapture.New | src-tauri/src/audio/capture.rs:39-50 | creation fails with the device lookup's error or the configuration's error, and otherwise gives a capture with no stream, an empty buffer, and the configuration's rate and channel count |
| Capture.AudioCapture.Start | src-tauri/src/audio/capture.rs:65-112 | a failed lookup or configuration changes nothing; otherwise rate and channels are taken from the configuration and the buffer is cleared, before the stream is built; the stream is kept only once it plays, and a build or play failure is returned |
| Capture.AudioCapture.OnInput | src-tauri/src/audio/capture.rs:85-100 | once the buffer holds the cap or more, or the lock is poisoned, nothing is appended; otherwise the whole converted chunk is appended at the end, so the buffer exceeds the cap by less than one chunk |
| Capture.AudioCapture.PoisonLock | src-tauri/src/audio/capture.rs:86 | a panic while holding the buffer lock poisons it and changes nothing else |
| Capture.AudioCapture.Stop | src-tauri/src/audio/capture.rs:114-124 | the stream is dropped; with a poisoned lock an error is returned and the buffer stays; otherwise the buffer and the rate are returned and the buffer is cleared |
| Capture.AudioCapture.Snapshot | src-tauri/src/audio/capture.rs:135-140 | a copy of the buffer, empty when the lock is poisoned, and the rate; nothing changes |
| PttDispatch.Setup | src-tauri/src/ptt.rs:620-663 | push-to-talk takes the parsed hotkey or falls back to Ctrl+Shift+Space on every platform; translation is registered only when enabled and parsable; voice action only when parsable |
| PttDispatch.DefaultRegistration | src-tauri/src/ptt.rs:620-660 | with the default settings push-to-talk is Cmd/Ctrl+Shift+Space and no voice-action shortcut is registered |
| PttDispatch.RouteOf | src-tauri/src/ptt.rs:667-677 | the three slot comparisons in order: push-to-talk wins, translation next, then voice action, else nothing; each route characterised both ways |
| PttDispatch.ShortcutHandler.constructor | src-tauri/src/ptt.rs:18-24 | after setup every slot holds what was registered and both active flags are down |
| PttDispatch.ShortcutHandler.Handle | src-tauri/src/ptt.rs:666-733 | the slots never change; the new flags and the effects are those of the dispatch rule for the route of the shortcut |
| PttDispatch.RepeatedPressIsNoOp | src-tauri/src/ptt.rs:679-680 | a key-down while push-to-talk is active does nothing |
| PttDispatch.ReleaseWithoutPressIsNoOp | src-tauri/src/ptt.rs:694-695 | a key-up while push-to-talk is inactive does nothing |
| PttDispatch.PressThenRelease | src-tauri/src/ptt.rs:677-705 | from rest a press clears the streamed text, starts recording and streaming, and the release stops and pastes, back at rest |
| PttDispatch.TranslateOnReleaseOnly | src-tauri/src/ptt.rs:706-712 | translation is spawned on the key-up only and no flag moves |
| PttDispatch.VoiceActionPairs | src-tauri/src/ptt.rs:713-731 | the voice action starts only on a false-to-true swap of its flag and stops only on a true-to-false swap |
| PttDispatch.FlagsAreIndependent | src-tauri/src/ptt.rs:677-731 | push-to-talk never moves the voice-action flag and no other route moves the push-to-talk flag |
| PttDispatch.DispatchCounts | src-tauri/src/ptt.rs:677-731 | for one event, starts plus the old flag equal stops plus the new flag, for push-to-talk and for the voice action |
| PttDispatch.StartsAndStopsAlternate | src-tauri/src/ptt.rs:677-705 | over any sequence of events, starts equal stops up to the flag: a stop is never sent without its start |
| PttDispatch.VoiceActionsAlternate | src-tauri/src/ptt.rs:713-731 | the same alternation for voice-action starts and stops |
| PttActor.StartedConfig | src-tauri/src/ptt.rs:65-79 | a capture is obtained exactly when both creation and start succeed on the host, with the default device's configuration |
| PttActor.TryStart | src-tauri/src/ptt.rs:65-79 | the capture held afterwards is the Start step of the abstract loop state: replaced by a fresh started capture, or kept |
| PttActor.Feed | src-tauri/src/audio/capture.rs:85-100 | the held capture's buffer receives the callback's converted samples, as the input step says |
| PttActor.Panic | src-tauri/src/audio/capture.rs:86 | a panic in the callback poisons the held capture's lock, as the panic step says |
| PttActor.HandleEvent | src-tauri/src/ptt.rs:64-98 | one iteration of the loop's match matches the step function: new capture and messages sent |
| PttActor.RunActor | src-tauri/src/ptt.rs:59-105 | the messages sent by the whole loop, started with no capture, are those of the run specification |
| PttActor.NoCaptureNoReply | src-tauri/src/ptt.rs:80-98 | a Stop or a GetSnapshot with no capture sends nothing |
| PttActor.StartReplacesOnlyOnSuccess | src-tauri/src/ptt.rs:65-79 | a Start sends nothing and replaces the held capture only when creation and start both succeed, with an empty buffer |
| PttActor.StopTakesCapture | src-tauri/src/ptt.rs:86-98 | a Stop always gives the capture up and sends one AudioComplete with the whole buffer exactly when a capture was held and its lock is sound |
| PttActor.SnapshotChangesNothing | src-tauri/src/ptt.rs:80-85 | a snapshot leaves the held capture as it was and carries its buffer (empty behind a poisoned lock) and rate |
| PttActor.InputOnlyAppends | src-tauri/src/audio/capture.rs:85-100 | the callback only appends to the held buffer |
| PttActor.ClosedEndsLoop | src-tauri/src/ptt.rs:99-102 | nothing is sent after the channel closes |
| PttActor.OneCompletePerStart | src-tauri/src/ptt.rs:63-104 | never more AudioComplete messages than successful Starts, counting a capture held at the outset |
| PttActor.RecordOneChunk | src-tauri/src/ptt.rs:63-104 | Start, one callback chunk, Stop deliver exactly the converted chunk at the device's rate |
| PttStreaming.PttShared.constructor | src-tauri/src/ptt.rs:25-32 | the streamed text and the selected text start empty |
| PttStreaming.Resampled | src-tauri/src/ptt.rs:169-173 | audio already at 16 kHz is passed on untouched, other audio is resampled to 16 kHz |
| PttStreaming.SuffixOfTrimmedNotWhite | src-tauri/src/ptt.rs:211-216 | a non-empty tail of a trimmed transcript is never all whitespace, so the delta guard always passes |
| PttStreaming.StreamLoop | src-tauri/src/ptt.rs:121-226 | nothing at all when streaming is disabled; otherwise the effects and the final streamed text are those of the tick-by-tick run; the selection is untouched |
| PttStreaming.ShortSnapshotSkipped | src-tauri/src/ptt.rs:164-167 | a snapshot under one second asks for the snapshot and changes nothing else |
| PttStreaming.TickDelta | src-tauri/src/ptt.rs:211-222 | the typed length never decreases; the streamed text changes only when the trimmed transcript grew and then becomes it; what is typed is exactly the transcript beyond the old length |
| PttStreaming.GrownTyped | src-tauri/src/ptt.rs:211-222 | the part of a grown trimmed transcript beyond the old length is never all whitespace, and typing it adds exactly that text |
| PttStreaming.TypedLengthIsLastLen | src-tauri/src/ptt.rs:131-223 | over the whole loop the count of typed characters grows exactly as `last_text_len` does |
| PttStreaming.StableTickKeepsScreen | src-tauri/src/ptt.rs:211-222 | when each longer transcript extends the typed text, what is on screen stays the streamed text |
| PttFinish.FirstComplete | src-tauri/src/ptt.rs:241-252 | the first AudioComplete, snapshots skipped; none exactly when only snapshots arrive before the timeout |
| PttFinish.WaitForComplete | src-tauri/src/ptt.rs:243-252 | the waiter loop returns the first AudioComplete |
| PttFinish.ReconcileCases | src-tauri/src/ptt.rs:326-334 | no streamed text pastes the whole result; a longer trimmed result types only its trimmed rest; otherwise nothing is delivered |
| PttFinish.StopAndPaste | src-tauri/src/ptt.rs:229-339 | sends Stop then the finisher's effects; the streamed text is cleared only after a delivered transcript and the selection is untouched |
| PttFinish.Deliver | src-tauri/src/ptt.rs:326-334 | the delivery block sends exactly the reconciliation of streamed and final text |
| PttFinish.ShortDictationDiscarded | src-tauri/src/ptt.rs:262-273 | a timeout, an empty buffer or audio under 0.3 s ends the finisher with nothing sent and nothing cleared |
| PttFinish.DictationDeliversOnce | src-tauri/src/ptt.rs:304-338 | the streamed text is cleared exactly when a transcript is delivered, after the final chunk and the history entry, and with no streamed text the whole result is pasted |
| PttFinish.ReconcileDropsSpace | src-tauri/src/ptt.rs:327-331 | when the result is the streamed text, a space and a rest, only the rest is typed |
| PttFinish.ReconcileLosesSeparator | src-tauri/src/ptt.rs:327-331 | streamed "Bonjour" and final "Bonjour tout le monde" type "tout le monde", which does not complete the sentence |
| PttFinish.KeepingSeparatorCompletesText | src-tauri/src/ptt.rs:327-331 | with the separator kept, the streamed text followed by what is typed equals the trimmed final transcript |
| PttFinish.SelectionOf | src-tauri/src/ptt.rs:439-453 | the clipboard text, or the empty selection when the read failed |
| PttFinish.StartVoiceAction | src-tauri/src/ptt.rs:434-462 | keeps the selection read, leaves the streamed text, and copies, sets the tray, sends Start and reports recording in that order |
| PttFinish.UserPromptShape | src-tauri/src/ptt.rs:579-583 | the bare instruction without a selection; otherwise "Texte:\n", the selection, "\n\nInstruction: " and the instruction |
| PttFinish.StopVoiceAction | src-tauri/src/ptt.rs:465-617 | reports processing, sends Stop, then the voice-action finisher's effects for the selection kept |
| PttFinish.ShortVoiceActionDiscarded | src-tauri/src/ptt.rs:512-517 | voice-action audio under 0.5 s goes back to idle before transcription |
| PttFinish.VoiceActionEndsIdle | src-tauri/src/ptt.rs:506-616 | every path ends with the tray and the status back at idle, and only the model's trimmed answer is ever pasted, first |
| GuiActor.SnapshotOf | src-tauri/src/commands/transcription.rs:93-100 | a snapshot request is always answered; with no capture the answer is an empty buffer at 16000 Hz |
| GuiActor.StopReply | src-tauri/src/commands/transcription.rs:120-139 | a Stop is always answered with a result |
| GuiActor.Poll | src-tauri/src/commands/transcription.rs:92-100 | the non-blocking snapshot check sends exactly the reply of the poll specification |
| GuiActor.HandleCommand | src-tauri/src/commands/transcription.rs:103-147 | the capture held afterwards and the replies sent are those of the command step |
| GuiActor.HandleEvent | src-tauri/src/commands/transcription.rs:91-156 | one turn of the loop, or one callback between turns, matches the event step, including when the loop ends |
| GuiActor.RunGuiActor | src-tauri/src/commands/transcription.rs:87-157 | the replies sent by the whole loop, started with no capture, are those of the run specification |
| GuiActor.StopAlwaysAnswered | src-tauri/src/commands/transcription.rs:120-139 | a Stop gives the capture up and is answered once, with the buffer or with an empty one at 16000 Hz when there is no capture or its stop fails, where the push-to-talk thread answers nothing |
| GuiActor.SnapshotAlwaysAnswered | src-tauri/src/commands/transcription.rs:140-147 | a snapshot request with no capture is answered with an empty buffer at 16000 Hz and never changes what is held |
| GuiActor.StartOnDevice | src-tauri/src/commands/transcription.rs:104-119 | a Start uses the device it names and replaces the held capture exactly when creation and start succeed; nothing is sent |
| GuiActor.EveryRequestAnswered | src-tauri/src/commands/transcription.rs:91-156 | over any run, exactly one result per Stop and one snapshot per request |
| GuiStreaming.StreamingTask | src-tauri/src/commands/transcription.rs:202-286 | the chunks emitted by the loop are those of the tick-by-tick run from no processed samples, each tick transcribing with the engine that its own read of the lock finds |
| GuiStreaming.ChunkReadyIff | src-tauri/src/commands/transcription.rs:237-240 | the saturating difference test and the length test together mean at least 40000 samples more than at the last transcription |
| GuiStreaming.MissingSnapshotEmitsNothing | src-tauri/src/commands/transcription.rs:217-232 | a missing snapshot emits nothing and changes nothing |
| GuiStreaming.ProgressChunkWhenNotReady | src-tauri/src/commands/transcription.rs:274-281 | without enough new samples one empty non-final progress chunk is emitted at the task's clock |
| GuiStreaming.OnlyTheTailIsTranscribed | src-tauri/src/commands/transcription.rs:240-273 | only the last 40000 samples are transcribed, and the processed count becomes the recording's length |
| GuiStreaming.TickProperties | src-tauri/src/commands/transcription.rs:232-282 | a tick emits only live chunks, at most one transcription, which moves the processed count on by 40000 at least, and never decreases it |
| GuiStreaming.TaskRunProperties | src-tauri/src/commands/transcription.rs:209-283 | over the loop the processed count never decreases, every chunk is live, and transcriptions times 40000 stay within the processed count |
| GuiStreaming.StreamingTaskBounds | src-tauri/src/commands/transcription.rs:202-286 | from the start of the task, live chunks only and no more transcriptions than 40000-sample stretches of new audio |
| GuiStreaming.TaskRunSplit | src-tauri/src/commands/transcription.rs:209-283 | while the flag stays set, running the loop over two stretches of ticks in turn is running it over both |
| GuiStreaming.EngineSwitchAffectsLaterTicksOnly | src-tauri/src/commands/transcription.rs:252-270 | the engine lock is read at every tick, so the chunks emitted before a model switch are kept whatever engines later ticks find, and later ticks continue from them with their own engines |
| GuiRecording.Recorder.constructor | src-tauri/src/commands/transcription.rs:20 | neither recording nor streaming at the outset |
| GuiRecording.Recorder.StartRecording | src-tauri/src/commands/transcription.rs:161-199 | the outcome, the new flags and the effects are those of the start specification |
| GuiRecording.Recorder.ApplyPostProcessing | src-tauri/src/commands/transcription.rs:379-406 | the final text is the post-processing of the transcript |
| GuiRecording.Recorder.StopRecording | src-tauri/src/commands/transcription.rs:289-433 | both flags end cleared; the outcome and the effects are those of the stop specification for the old recording flag |
| GuiRecording.Recorder.AwaitAudio | src-tauri/src/commands/transcription.rs:318-332 | the outcome and effects of what the result channel gives |
| GuiRecording.Recorder.Finish | src-tauri/src/commands/transcription.rs:334-432 | the outcome and effects once the audio arrived: checks, transcription, post-processing and history |
| GuiRecording.Recorder.ResetRecordingState | src-tauri/src/commands/transcription.rs:453-468 | both flags cleared and idle reported |
| GuiRecording.AlreadyRecordingRefused | src-tauri/src/commands/transcription.rs:162-165 | a second start fails with "Already recording" and changes nothing |
| GuiRecording.StartOutcome | src-tauri/src/commands/transcription.rs:161-199 | a start succeeds exactly when idle and the thread takes the command; it then sets the recording flag, copies the streaming setting, sends Start with the configured microphone and spawns streaming exactly when enabled; a failed start changes nothing |
| GuiRecording.StopWhenIdle | src-tauri/src/commands/transcription.rs:293-302 | stopping when idle reports processing then idle and fails with "Not recording" |
| GuiRecording.UnusableAudioRefused | src-tauri/src/commands/transcription.rs:337-347 | empty or under-half-second audio fails with "No audio captured" or "Recording too short" before transcription, whatever the engine, model or history |
| GuiRecording.PostProcessWhenDisabled | src-tauri/src/commands/transcription.rs:380-389 | with both steps disabled the transcript is kept; with voice commands alone it becomes the parser's text |
| GuiRecording.LlmFailureKeepsText | src-tauri/src/commands/transcription.rs:392-406 | a missing key or a failed model call gives the same text as the model disabled |
| GuiRecording.FromAudioShape | src-tauri/src/commands/transcription.rs:337-432 | idle alone on refused audio, nothing on a missing engine or engine error, otherwise the final chunk, idle and the history entry, and a history failure makes the command fail |
| GuiRecording.SuccessfulStop | src-tauri/src/commands/transcription.rs:289-433 | a successful stop was recording, sent Stop, got audio and saved history; its text is the post-processed transcript and the effects are processing, Stop, final chunk, idle, history entry |
| GuiRecording.IdleUnlessSilent | src-tauri/src/commands/transcription.rs:289-433 | processing is reported first; idle is reported exactly when the stop is not one of the silent failures, which all fail |
| GuiRecording.StartThenStop | src-tauri/src/commands/transcription.rs:161-310 | after a successful start the next stop sends Stop to the audio thread |
| GuiRecording.ResetThenStart | src-tauri/src/commands/transcription.rs:453-468 | after a reset a start is accepted again |

## Notes

- **Streaming:** the push-to-talk stream compares only lengths. It types `current_text[last_text_len..]` whenever the trimmed transcript grew (src-tauri/src/ptt.rs:211-222), so an earlier word that the engine later revises is not corrected on screen. The model does the same.
- **Settings fields:** `AppSettings` in src-tauri/src/types.rs lacks `hotkey_voice_action`, `parakeet_model` and `stats_tracking_enabled`, which other files read. The model adds them, with the empty string, the only Parakeet model and `true` as their defaults.

## Left out

- **Concurrency.** The model does not capture real threads, channels, atomics or lock contention. Each thread is a sequence of events, and interleavings are chosen by the event list.
- **Lock poisoning.** It is modelled only where the code treats it differently: the capture buffer's mutex, and the translate and voice-action shortcut slots, which read as not matching. Elsewhere the `?` on a lock, which returns the lock error, is not modelled:
  - the `reload_*` functions;
  - `switch_model`;
  - `transcribe_files`;
  - the settings reads in `start_recording` and `stop_recording`;
  - the engine read in `stop_recording` (src-tauri/src/commands/transcription.rs:361).
- GuiRecording.FromAudio: a poisoned engine lock is read as a missing engine and answered with `EngineNotInitialized`, where `stop_recording` returns the lock's own error text (src-tauri/src/commands/transcription.rs:361).
- PttDispatch.RouteOf: the push-to-talk shortcut slot is always set. The source reads a poisoned push-to-talk slot as not matching (src-tauri/src/ptt.rs:668-670), and that case is not modelled.
- **Parser examples.** Of the expectations written next to the parser, those for "point d'exclamation", "deux points", "point virgule", guillemets, "nouveau paragraphe", case-insensitivity, the edit commands other than "efface" and "tout effacer", the other modes, the combined sentences, the white-space clean-up example and the app triggers other than "ouvre" are not proved as examples. The general lemmas about each stage cover the same rules.
- **Push-to-talk receiver.** When the receiver mutex is poisoned or the receiver is missing, the push-to-talk finishers return just as on a timeout, so the model treats these cases as an exhausted message stream.
- **Floating point.** Samples are reals. Durations `len as f32 / rate as f32` are compared as exact rational inequalities on integers, and f32 rounding is not modelled.
- **Statistics counters.** u64 overflow of the counters is not modelled; the counters are unbounded naturals.
- Stats.RecordedConsistent: the daily sums agree with the word and transcription totals only. The duration total is a real and is not proved equal to the sum of the daily durations.
- **Case mapping.** Lower- and upper-casing act on ASCII and Latin-1 letters, one character at a time. Rust's and JavaScript's full Unicode case mapping is not modelled, and neither are byte offsets that change length under `to_lowercase` or the panics of misaligned UTF-8 slicing.
- **Debug formatting.** `{:?}` of a model size or a Vosk language is written out per constructor. The Debug escaping of paths in error messages is not modelled, and neither is "Invalid model path" for paths that are not UTF-8.
- **translate_clipboard_and_paste** (src-tauri/src/ptt.rs:342-431) is only the `SpawnTranslate` effect of the dispatcher. Its clipboard read, language-name table and language-model call are not modelled, because it is outside the push-to-talk flows whose state the model tracks.
- PttStreaming.StreamLoop: the engine is fixed for the whole loop. The source takes the engine's read lock again on every tick, so an engine replaced in between is not captured.
- PttStreaming.TickDelta: `last_text_len` and the slice beyond it count characters. The source counts UTF-8 bytes, which agree with characters only for ASCII transcripts; a slice that would split a multi-byte character (a panic in the source) is not modelled.
- **Platform effects.** The platform layer (paste, incremental typing, copying the selection, opening an application) and the tray are recorded effects with no modelled behaviour.
- **Language-model calls.** Both the Groq client and the keyring lookup of the key are parameters.
- **Audio.** The resampler is a parameter; only its identity at 16 kHz is used. The audio host and its devices are values, and `AudioCapture::list_devices` is not modelled.
- Capture.AudioCapture.IsRecording has no contract of its own. It reads the `streaming` field, and the contracts of the constructor, `New`, `Start` and `Stop` state that field.
- **Downloads.** The network loop and the unzipping of model downloads are not modelled. `download_model` is modelled only as its progress reports and its outcome, in `ModelCommands.CompletionAfterSuccess`.
- **Sidecar.** The macOS search for the Parakeet sidecar is a parameter of the engine constructor.
- ModelCommands.IsEngineReady is a predicate without a contract of its own. Its use is stated in `ModelCommands.SettingsFollowEngine`. `get_current_model` is not modelled.
- **Storage.** Stored JSON is its decoded content: missing, unparseable or stored. A write that fails leaves the file as it was. The thin `commands/*.rs` wrappers are not modelled, and neither are `reset_stats` and `get_usage_stats`.
- **Simple commands.** `get_history`, `clear_history` and `get_recording_status` are one-line reads or writes of storage and state, and are not modelled separately.
- **Batch transcription.** Format detection and decoding are parameters. The history save and the stats update of each file are recorded as effects.
- **GuiActor:** replies left on a channel by an earlier, abandoned wait are not modelled. Such a stale reply can reach a later `stop_recording` or snapshot request.
- **TypeScript settings.** The front end's `AppSettings` is a map of field names to values. A partial record holding `undefined` values is not modelled.

## Findings

| source | as written | input that shows it | evidently intended | confidence | as-written member | corrected member |
|---|---|---|---|---|---|---|
| src-tauri/src/ptt.rs:327-331 | after streaming, the finisher types `trim(final[len(streamed)..])`, which drops the space that separates the streamed words from the rest | streamed "Bonjour", final transcript "Bonjour tout le monde": "tout le monde" is typed and the screen reads "Bonjourtout le monde" | the streamed text followed by what is typed equals the trimmed final transcript | not executed | PttFinish.ReconcileLosesSeparator | PttFinish.ReconcileKeepingSeparator |
