/** What happens when the push-to-talk or voice-action key is released
    (src-tauri/src/ptt.rs): waiting for the recording, the duration floors,
    transcription, and delivering the text, with the streamed text
    reconciled against the final transcript. */
module PttFinish {
  import opened Wrappers
  import opened Text
  import opened Types
  import opened PttActor
  import opened PttStreaming

  // ---------------------------------------------------------------------
  // The stop waiter

  /** The recording the waiter returns: the first AudioComplete, skipping
      snapshots; `None` when the messages run out first, i.e. a two-second
      timeout. */
  function FirstComplete(incoming: seq<PttResult>): (r: Option<(seq<real>, nat)>)
    ensures r.None? <==> forall i :: 0 <= i < |incoming| ==> incoming[i].AudioSnapshot?
    ensures r.Some? ==>
              exists i :: 0 <= i < |incoming| && incoming[i] == AudioComplete(r.value.0, r.value.1) &&
                (forall j :: 0 <= j < i ==> incoming[j].AudioSnapshot?)
    decreases |incoming|
  {
    if incoming == [] then None
    else match incoming[0]
      case AudioComplete(audio, rate) => Some((audio, rate))
      case AudioSnapshot(_, _) =>
        var r := FirstComplete(incoming[1..]);
        assert forall i :: 1 <= i < |incoming| ==> incoming[i] == incoming[1..][i - 1];
        if r.Some? then
          var i :| 0 <= i < |incoming[1..]| && incoming[1..][i] == AudioComplete(r.value.0, r.value.1) &&
                     (forall j :: 0 <= j < i ==> incoming[1..][j].AudioSnapshot?);
          assert incoming[i + 1] == AudioComplete(r.value.0, r.value.1);
          r
        else r
  }

  /** The waiter loop of both finishers. */
  method WaitForComplete(incoming: seq<PttResult>) returns (r: Option<(seq<real>, nat)>)
    ensures r == FirstComplete(incoming)
  {
    var i := 0;
    while i < |incoming|
      invariant 0 <= i <= |incoming|
      invariant FirstComplete(incoming[i..]) == FirstComplete(incoming)
      decreases |incoming| - i
    {
      match incoming[i] {
        case AudioComplete(audio, rate) =>
          return Some((audio, rate));
        case AudioSnapshot(_, _) =>
          assert incoming[i..][1..] == incoming[i + 1..];
      }
      i := i + 1;
    }
    return None;
  }

  // ---------------------------------------------------------------------
  // Dictation

  /** `duration < 0.3` with `duration = len as f32 / rate as f32`. */
  predicate UnderDictationFloor(samples: nat, rate: nat) {
    rate > 0 && 10 * samples < 3 * rate
  }

  /** The reconciliation as written: with streamed text `streamed` and the
      trimmed final text `F`, the trimmed rest of `F` is typed when something
      was streamed and `F` is longer; the whole untrimmed result is pasted
      when nothing was streamed; otherwise nothing is delivered. */
  function Reconcile(streamed: string, result: string): seq<Effect> {
    var final := Trim(result);
    if streamed != [] && |final| > |streamed| then
      var remaining := final[|streamed|..];
      if AllWhite(remaining) then [] else [TypeText(Trim(remaining))]
    else if streamed == [] then [PasteText(result)]
    else []
  }

  /** The three cases of the reconciliation, the whitespace test being
      always passed. */
  lemma ReconcileCases(streamed: string, result: string)
    ensures streamed == [] ==> Reconcile(streamed, result) == [PasteText(result)]
    ensures streamed != [] && |Trim(result)| > |streamed| ==>
              Reconcile(streamed, result) == [TypeText(Trim(Trim(result)[|streamed|..]))]
    ensures streamed != [] && |Trim(result)| <= |streamed| ==> Reconcile(streamed, result) == []
  {
    if streamed != [] && |Trim(result)| > |streamed| {
      TrimIsTrimmed(result);
      SuffixOfTrimmedNotWhite(Trim(result), |streamed|);
    }
  }

  /** `stop_ptt_and_paste`, from the point where the streamed text was read
      and Stop was sent: the effects after the Stop, and whether
      `STREAMING_TEXT` is cleared. Every early return leaves it as it was. */
  function FinishDictation(streamed: string, incoming: seq<PttResult>,
                           resample: (seq<real>, nat) -> seq<real>,
                           transcribe: seq<real> -> Result<TranscriptionResult>): (seq<Effect>, bool)
  {
    match FirstComplete(incoming)
    case None => ([], false)
    case Some((audio, rate)) =>
      if audio == [] || UnderDictationFloor(|audio|, rate) then ([], false)
      else
        match transcribe(Resampled(audio, rate, resample))
        case Err(_) => ([], false)
        case Ok(result) =>
          if result.text == [] then ([], false)
          else
            ([FinalChunk(result.text, result.durationSeconds), AddToHistory(result)]
               + Reconcile(streamed, result.text), true)
  }

  /** `stop_ptt_and_paste`. */
  method StopAndPaste(shared: PttShared, incoming: seq<PttResult>,
                      resample: (seq<real>, nat) -> seq<real>,
                      transcribe: seq<real> -> Result<TranscriptionResult>)
    returns (sent: seq<Effect>)
    modifies shared
    ensures shared.selectedText == old(shared.selectedText)
    ensures var (after, clear) := FinishDictation(old(shared.streamingText), incoming, resample, transcribe);
            sent == [SendStop] + after &&
            shared.streamingText == (if clear then [] else old(shared.streamingText))
  {
    var streamingText := shared.streamingText;
    sent := [SendStop];
    var received := WaitForComplete(incoming);
    if received.None? {
      return;
    }
    var (audio, rate) := received.value;
    if audio == [] {
      return;
    }
    if UnderDictationFloor(|audio|, rate) {
      return;
    }
    var input := if rate != TargetSampleRate then resample(audio, rate) else audio;
    var outcome := transcribe(input);
    if outcome.Err? {
      return;
    }
    var result := outcome.value;
    if result.text == [] {
      return;
    }
    sent := sent + [FinalChunk(result.text, result.durationSeconds), AddToHistory(result)];
    var delivered := Deliver(streamingText, result.text);
    sent := sent + delivered;
    shared.streamingText := [];
  }

  /** The delivery block of `stop_ptt_and_paste`. */
  method Deliver(streamingText: string, resultText: string) returns (sent: seq<Effect>)
    ensures sent == Reconcile(streamingText, resultText)
  {
    sent := [];
    var hadStreaming := streamingText != [];
    var finalText := Trim(resultText);
    if hadStreaming && |finalText| > |streamingText| {
      var remaining := finalText[|streamingText|..];
      if !AllWhite(remaining) {
        sent := [TypeText(Trim(remaining))];
      }
    } else if !hadStreaming {
      sent := [PasteText(resultText)];
    }
  }

  /** Audio under 0.3 s, an empty buffer and a timeout all end the finisher
      before transcription: nothing is reported, delivered or cleared. */
  lemma ShortDictationDiscarded(streamed: string, incoming: seq<PttResult>,
                                resample: (seq<real>, nat) -> seq<real>,
                                transcribe: seq<real> -> Result<TranscriptionResult>)
    requires FirstComplete(incoming).None? ||
             FirstComplete(incoming).value.0 == [] ||
             UnderDictationFloor(|FirstComplete(incoming).value.0|, FirstComplete(incoming).value.1)
    ensures FinishDictation(streamed, incoming, resample, transcribe) == ([], false)
  {
  }

  /** Whenever a transcript is delivered the streaming text is cleared, and
      text is typed or pasted at most once, after the final chunk and the
      history entry. */
  lemma DictationDeliversOnce(streamed: string, incoming: seq<PttResult>,
                              resample: (seq<real>, nat) -> seq<real>,
                              transcribe: seq<real> -> Result<TranscriptionResult>)
    ensures var (after, clear) := FinishDictation(streamed, incoming, resample, transcribe);
            && (clear <==> after != [])
            && (clear ==> |after| <= 3 && after[0].FinalChunk? && after[1].AddToHistory?)
            && (clear ==> streamed == [] ==> |after| == 3 && after[2] == PasteText(after[0].text))
  {
  }

  /** When the final transcript is the streamed text, one space and a
      trimmed rest, only the rest is typed: the space is dropped. */
  lemma ReconcileDropsSpace(streamed: string, rest: string)
    requires streamed != [] && rest != []
    requires Trimmed(streamed + " " + rest) && Trimmed(rest)
    ensures Reconcile(streamed, streamed + " " + rest) == [TypeText(rest)]
  {
    var f := streamed + " " + rest;
    TrimOfTrimmed(f);
    assert f[|streamed|..] == " " + rest;
    var remaining := " " + rest;
    assert LeadingWhite(remaining) == 1 by {
      assert IsWhite(remaining[0]) && remaining[1..] == rest && !IsWhite(rest[0]);
    }
    TrimOfTrimmed(rest);
    ReconcileCases(streamed, f);
  }

  lemma BonjourParts()
    ensures "Bonjour tout le monde" == "Bonjour" + " " + "tout le monde"
    ensures Trimmed("Bonjour tout le monde") && Trimmed("tout le monde")
  {
  }

  lemma BonjourJoined()
    ensures "Bonjour" + "tout le monde" != "Bonjour tout le monde"
  {
    assert ("Bonjour" + "tout le monde")[7] == 't';
  }

  /** The reconciliation drops the space between the streamed words and the
      rest: "Bonjour" was typed while speaking, the final transcript is
      "Bonjour tout le monde", so "tout le monde" is typed and the screen
      reads "Bonjourtout le monde". */
  lemma ReconcileLosesSeparator()
    ensures Reconcile("Bonjour", "Bonjour tout le monde") == [TypeText("tout le monde")]
    ensures "Bonjour" + "tout le monde" != "Bonjour tout le monde"
  {
    BonjourParts();
    ReconcileDropsSpace("Bonjour", "tout le monde");
    BonjourJoined();
  }

  /** The reconciliation the streaming loop's own rule suggests: type the
      rest of the final text as it stands. */
  function ReconcileKeepingSeparator(streamed: string, result: string): seq<Effect> {
    var final := Trim(result);
    if streamed != [] && |final| > |streamed| then [TypeText(final[|streamed|..])]
    else if streamed == [] then [PasteText(result)]
    else []
  }

  /** When the final transcript extends what was streamed, the streamed text
      followed by what is typed is exactly the final transcript. */
  lemma KeepingSeparatorCompletesText(streamed: string, result: string)
    requires streamed != [] && streamed <= Trim(result)
    ensures streamed + Screen(ReconcileKeepingSeparator(streamed, result)) == Trim(result)
  {
    var final := Trim(result);
    var sent := ReconcileKeepingSeparator(streamed, result);
    if |final| > |streamed| {
      assert Screen(sent) == final[|streamed|..] + Screen(sent[1..]);
      assert streamed + final[|streamed|..] == final;
    } else {
      assert streamed == final;
    }
  }

  // ---------------------------------------------------------------------
  // Voice action

  /** `start_voice_action`: what the selection read from the clipboard
      becomes; a failed read gives the empty selection. */
  function SelectionOf(clipboard: Result<string>): (r: string)
    ensures clipboard.Ok? ==> r == clipboard.value
    ensures clipboard.Err? ==> r == []
  {
    match clipboard
    case Ok(text) => text
    case Err(_) => []
  }

  /** `start_voice_action`: copy the selection, keep it, start recording. */
  method StartVoiceAction(shared: PttShared, clipboard: Result<string>) returns (sent: seq<Effect>)
    modifies shared
    ensures shared.selectedText == SelectionOf(clipboard)
    ensures shared.streamingText == old(shared.streamingText)
    ensures sent == [CopySelection, TrayVoiceAction, SendStart, VoiceStatus("recording")]
  {
    var selected: string := [];
    if clipboard.Ok? {
      selected := clipboard.value;
    }
    shared.selectedText := selected;
    sent := [CopySelection, TrayVoiceAction, SendStart, VoiceStatus("recording")];
  }

  const VoiceActionSystemPrompt: string :=
    "Tu es un assistant qui exécute des instructions sur du texte.\n" +
    "L'utilisateur te donne un texte et une instruction vocale.\n" +
    "Exécute l'instruction demandée sur le texte fourni.\n" +
    "Retourne UNIQUEMENT le résultat, sans explication ni commentaire."

  const MissingKeyMessage: string := "Clé API Groq non configurée"

  /** The user prompt sent to the model. */
  function UserPrompt(selected: string, instruction: string): string {
    if selected == [] then instruction
    else "Texte:\n" + selected + "\n\nInstruction: " + instruction
  }

  /** With no selection the prompt is the bare instruction; with one, it
      opens with the selection after "Texte:\n" and ends with the
      instruction after "\n\nInstruction: ". */
  lemma UserPromptShape(selected: string, instruction: string)
    ensures selected == [] ==> UserPrompt(selected, instruction) == instruction
    ensures selected != [] ==>
              var p := UserPrompt(selected, instruction);
              && |p| == 7 + |selected| + 15 + |instruction|
              && p[..7] == "Texte:\n"
              && p[7..7 + |selected|] == selected
              && p[7 + |selected|..7 + |selected| + 15] == "\n\nInstruction: "
              && p[7 + |selected| + 15..] == instruction
  {
  }

  /** Every way out of the voice-action finisher. */
  const BackToIdle: seq<Effect> := [TrayIdle, VoiceStatus("idle")]

  /** `stop_voice_action_and_execute` after "processing" was reported, the
      selection read and Stop sent. The engine's and the model's failures
      are `Err`; `runtimeBuilt` is whether the async runtime could be made. */
  function FinishVoiceAction(selected: string, incoming: seq<PttResult>,
                             resample: (seq<real>, nat) -> seq<real>,
                             transcribe: seq<real> -> Result<TranscriptionResult>,
                             apiKey: Option<string>, runtimeBuilt: bool,
                             complete: (string, string, string) -> Result<string>): seq<Effect>
  {
    match FirstComplete(incoming)
    case None => BackToIdle
    case Some((audio, rate)) =>
      if audio == [] || UnderHalfSecond(|audio|, rate) then BackToIdle
      else
        match transcribe(Resampled(audio, rate, resample))
        case Err(_) => BackToIdle
        case Ok(result) =>
          if result.text == [] then BackToIdle
          else if apiKey.None? then [VoiceError(MissingKeyMessage)] + BackToIdle
          else if !runtimeBuilt then BackToIdle
          else
            match complete(apiKey.value, VoiceActionSystemPrompt, UserPrompt(selected, result.text))
            case Ok(response) => [PasteText(Trim(response)), VoiceComplete(Trim(response))] + BackToIdle
            case Err(e) => [VoiceError("Erreur: " + e)] + BackToIdle
  }

  /** `stop_voice_action_and_execute`. */
  method StopVoiceAction(shared: PttShared, incoming: seq<PttResult>,
                         resample: (seq<real>, nat) -> seq<real>,
                         transcribe: seq<real> -> Result<TranscriptionResult>,
                         apiKey: Option<string>, runtimeBuilt: bool,
                         complete: (string, string, string) -> Result<string>)
    returns (sent: seq<Effect>)
    ensures sent == [VoiceStatus("processing"), SendStop] +
                    FinishVoiceAction(shared.selectedText, incoming, resample, transcribe,
                                      apiKey, runtimeBuilt, complete)
  {
    sent := [VoiceStatus("processing")];
    var selectedText := shared.selectedText;
    sent := sent + [SendStop];
    var received := WaitForComplete(incoming);
    var tail := BackToIdle;
    if received.Some? {
      var (audio, rate) := received.value;
      if audio != [] && !UnderHalfSecond(|audio|, rate) {
        var input := if rate != TargetSampleRate then resample(audio, rate) else audio;
        var outcome := transcribe(input);
        if outcome.Ok? && outcome.value.text != [] {
          var transcription := outcome.value.text;
          if apiKey.None? {
            tail := [VoiceError(MissingKeyMessage)] + BackToIdle;
          } else {
            var userPrompt := UserPrompt(selectedText, transcription);
            if runtimeBuilt {
              match complete(apiKey.value, VoiceActionSystemPrompt, userPrompt) {
                case Ok(response) =>
                  var trimmed := Trim(response);
                  tail := [PasteText(trimmed), VoiceComplete(trimmed)] + BackToIdle;
                case Err(e) =>
                  tail := [VoiceError("Erreur: " + e)] + BackToIdle;
              }
            }
          }
        }
      }
    }
    sent := sent + tail;
  }

  /** Voice-action audio under 0.5 s, like an empty buffer or a timeout, is
      discarded before transcription. */
  lemma ShortVoiceActionDiscarded(selected: string, incoming: seq<PttResult>,
                                  resample: (seq<real>, nat) -> seq<real>,
                                  transcribe: seq<real> -> Result<TranscriptionResult>,
                                  apiKey: Option<string>, runtimeBuilt: bool,
                                  complete: (string, string, string) -> Result<string>)
    requires FirstComplete(incoming).Some?
    requires UnderHalfSecond(|FirstComplete(incoming).value.0|, FirstComplete(incoming).value.1)
    ensures FinishVoiceAction(selected, incoming, resample, transcribe, apiKey, runtimeBuilt, complete) == BackToIdle
  {
  }

  /** Whatever happens, the voice action ends back at idle, and at most one
      text is pasted: the model's trimmed answer. */
  lemma VoiceActionEndsIdle(selected: string, incoming: seq<PttResult>,
                            resample: (seq<real>, nat) -> seq<real>,
                            transcribe: seq<real> -> Result<TranscriptionResult>,
                            apiKey: Option<string>, runtimeBuilt: bool,
                            complete: (string, string, string) -> Result<string>)
    ensures var sent := FinishVoiceAction(selected, incoming, resample, transcribe, apiKey, runtimeBuilt, complete);
            && |sent| >= 2 && sent[|sent| - 2..] == BackToIdle
            && (forall k :: 0 <= k < |sent| && sent[k].PasteText? ==> k == 0 && Trimmed(sent[k].pasted))
  {
    var sent := FinishVoiceAction(selected, incoming, resample, transcribe, apiKey, runtimeBuilt, complete);
    if sent[0].PasteText? {
      TrimIsTrimmed(sent[0].pasted);
    }
  }
}
