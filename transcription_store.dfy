/** The front end's transcription store (src/stores/transcriptionStore.ts):
    the recording status, the last result, the history shown (newest first,
    at most 50 kept by a stop) and the last error. Each action is given what
    the back-end command it invokes answered. */
module TranscriptionStore {
  import opened Wrappers
  import opened Text
  import opened Types
  import GuiRecording

  /** `TranscriptionStatus`. */
  datatype Status = Idle | Recording | Processing | Completed | Error

  /** The back-end commands the store invokes. */
  datatype BackendCall = StartRecordingCall | ResetRecordingStateCall

  /** The history keeps this many results after a stop. */
  const HistoryLimit: nat := 50

  /** `[result, ...history].slice(0, 50)`. */
  function WithNewest(result: TranscriptionResult, history: seq<TranscriptionResult>): seq<TranscriptionResult> {
    var all := [result] + history;
    if |all| <= HistoryLimit then all else all[..HistoryLimit]
  }

  /** The message `startRecording` recognises as a stuck recording state. */
  const StuckMessage: string := "Already recording"

  /** `startRecording` given what the first `start_recording`, the reset and
      the retry answer: what it throws, the status and error afterwards, and
      the commands invoked. A stuck state is reset and retried once; a
      failed reset or retry is thrown with the status left at recording. */
  function StartSpec(first: Outcome, reset: Outcome, retry: Outcome)
    : (Option<string>, Status, Option<string>, seq<BackendCall>)
  {
    match first
    case Pass => (None, Recording, None, [StartRecordingCall])
    case Fail(e) =>
      if !Contains(e, StuckMessage) then (Some(e), Error, Some(e), [StartRecordingCall])
      else match reset
        case Fail(r) => (Some(r), Recording, None, [StartRecordingCall, ResetRecordingStateCall])
        case Pass =>
          (if retry.Fail? then Some(retry.error) else None, Recording, None,
           [StartRecordingCall, ResetRecordingStateCall, StartRecordingCall])
  }

  class Store {
    var status: Status
    var result: Option<TranscriptionResult>
    var history: seq<TranscriptionResult>
    var error: Option<string>

    /** The store as created. */
    constructor()
      ensures status == Idle && result == None && history == [] && error == None
    {
      status := Idle;
      result := None;
      history := [];
      error := None;
    }

    /** `setStatus`. */
    method SetStatus(s: Status)
      modifies this
      ensures status == s && result == old(result) && history == old(history) && error == old(error)
    {
      status := s;
    }

    /** `startRecording`. */
    method StartRecording(first: Outcome, reset: Outcome, retry: Outcome)
      returns (thrown: Option<string>, calls: seq<BackendCall>)
      modifies this
      ensures (thrown, status, error, calls) == StartSpec(first, reset, retry)
      ensures result == old(result) && history == old(history)
    {
      status, error := Recording, None;
      calls := [StartRecordingCall];
      if first.Pass? {
        return None, calls;
      }
      var errorStr := first.error;
      var stuck := Contains(errorStr, StuckMessage);
      if stuck {
        calls := calls + [ResetRecordingStateCall];
        assert calls == [StartRecordingCall, ResetRecordingStateCall];
        if reset.Fail? {
          return Some(reset.error), calls;
        }
        status, error := Recording, None;
        calls := calls + [StartRecordingCall];
        thrown := if retry.Fail? then Some(retry.error) else None;
        assert calls == [StartRecordingCall, ResetRecordingStateCall, StartRecordingCall];
      } else {
        status, error := Error, Some(errorStr);
        thrown := Some(errorStr);
      }
    }

    /** `stopRecording`: a result becomes the current one and the newest of
        the history; a failure is recorded and thrown, and the result and
        history stay. */
    method StopRecording(reply: Result<TranscriptionResult>)
      returns (thrown: Option<string>, returned: Option<TranscriptionResult>)
      modifies this
      ensures reply.Ok? ==> thrown == None && returned == Some(reply.value) && status == Completed &&
                            result == Some(reply.value) && history == WithNewest(reply.value, old(history)) &&
                            error == old(error)
      ensures reply.Err? ==> thrown == Some(reply.error) && returned == None && status == Error &&
                             error == Some(reply.error) && result == old(result) && history == old(history)
    {
      status := Processing;
      if reply.Err? {
        status, error := Error, Some(reply.error);
        return Some(reply.error), None;
      }
      var r := reply.value;
      var all := [r] + history;
      status, result := Completed, Some(r);
      history := if |all| <= HistoryLimit then all else all[..HistoryLimit];
      thrown, returned := None, Some(r);
    }

    /** `loadHistory`: replaced only by what the back end returned. */
    method LoadHistory(reply: Result<seq<TranscriptionResult>>)
      modifies this
      ensures history == (if reply.Ok? then reply.value else old(history))
      ensures status == old(status) && result == old(result) && error == old(error)
    {
      if reply.Ok? {
        history := reply.value;
      }
    }

    /** `clearHistory`: emptied only once the back end has cleared it. */
    method ClearHistory(cleared: Outcome)
      modifies this
      ensures history == (if cleared.Pass? then [] else old(history))
      ensures status == old(status) && result == old(result) && error == old(error)
    {
      if cleared.Pass? {
        history := [];
      }
    }

    /** `clearError`. */
    method ClearError()
      modifies this
      ensures error == None && status == Idle && result == old(result) && history == old(history)
    {
      error, status := None, Idle;
    }

    /** `resetRecordingState`: idle and without error once the back end has
        reset; unchanged otherwise. */
    method ResetRecordingState(reset: Outcome)
      modifies this
      ensures reset.Pass? ==> status == Idle && error == None
      ensures reset.Fail? ==> status == old(status) && error == old(error)
      ensures result == old(result) && history == old(history)
    {
      if reset.Pass? {
        status, error := Idle, None;
      }
    }

    /** `initialize`: the same reset, made at start-up. */
    method Initialize(reset: Outcome)
      modifies this
      ensures reset.Pass? ==> status == Idle && error == None
      ensures reset.Fail? ==> status == old(status) && error == old(error)
      ensures result == old(result) && history == old(history)
    {
      ResetRecordingState(reset);
    }
  }

  // ---------------------------------------------------------------------
  // Properties

  /** The history after a stop starts with the new result, keeps the older
      ones in order after it, and holds at most 50. */
  lemma NewestFirst(result: TranscriptionResult, history: seq<TranscriptionResult>, k: nat)
    ensures var h := WithNewest(result, history);
            && |h| <= HistoryLimit && h[0] == result
            && |h| == (if |history| < HistoryLimit then |history| + 1 else HistoryLimit)
            && (k + 1 < |h| ==> k < |history| && h[k + 1] == history[k])
  {
  }

  /** A history of at most 50 keeps everything and grows by one. */
  lemma WithNewestKeepsShort(result: TranscriptionResult, history: seq<TranscriptionResult>)
    requires |history| < HistoryLimit
    ensures WithNewest(result, history) == [result] + history
  {
  }

  /** `startRecording` invokes `start_recording` at most twice: a second time
      exactly when the first answer says the state was stuck and the reset
      worked; the error is cleared unless the failure was another one,
      which sets the error status and is thrown. */
  lemma StartRetriesOnce(first: Outcome, reset: Outcome, retry: Outcome)
    ensures var (thrown, status, error, calls) := StartSpec(first, reset, retry);
            && 1 <= |calls| <= 3 && calls[0] == StartRecordingCall
            && (|calls| == 3 <==> first.Fail? && Contains(first.error, StuckMessage) && reset.Pass?)
            && (ResetRecordingStateCall in calls <==> first.Fail? && Contains(first.error, StuckMessage))
            && (first.Fail? && !Contains(first.error, StuckMessage) ==>
                  status == Error && error == Some(first.error) && thrown == Some(first.error))
            && (status != Error ==> status == Recording && error == None)
            && (thrown.None? <==> first.Pass? ||
                                  (Contains(first.error, StuckMessage) && reset.Pass? && retry.Pass?))
  {
  }

  /** A string contains itself. */
  lemma ContainsItself(s: string)
    ensures Contains(s, s)
  {
    assert s[0..|s|] == s;
    assert OccursAt(s, s, 0);
  }

  /** The back end's refusal of a second recording is the stuck state the
      store recovers from: it resets and retries. */
  lemma RecoversFromBackendRefusal(reset: Outcome, retry: Outcome)
    ensures ResetRecordingStateCall in StartSpec(Fail(GuiRecording.CommandError.AlreadyRecording.Message()), reset, retry).3
  {
    ContainsItself(StuckMessage);
  }
}
