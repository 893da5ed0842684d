/** The voice console's session state and the handlers that change it: the recognition
    callbacks `onstart`, `onresult`, `onerror` and `onend`, the buttons (start, stop,
    Analyze, check mic access), and the two halves of reply generation, split at its
    700 ms timer. Browser services appear as parameters: whether the page is a secure
    context, whether a recognizer exists, how the microphone probe ends, whether
    `start()` throws, and whether speech synthesis exists with which voices. */
module Console {
  import opened Wrappers
  import opened Classifier
  import opened Recognition
  import opened Speech

  datatype Permission = Unknown | Granted | Denied

  /** How `requestMic` ends: no `navigator.mediaDevices.getUserMedia`, the stream was
      granted, or the request was refused. */
  datatype Probe = NoMediaDevices | Allowed | Refused

  /** Where `handleStart` returned. `RetryScheduled` is the path where `start()` threw:
      the recognizer was stopped and a second `start()` set on a 200 ms timer, whose
      outcome (started, or a swallowed exception) changes none of the console's state. */
  datatype StartOutcome = InsecureContext | NoRecognizer | MicNotAllowed | StartIssued | RetryScheduled

  const InsecureContextMessage := "Microphone requires a secure context (HTTPS). Please open this site via HTTPS."
  const MicRequiredMessage := "Microphone permission is required. Please allow access and try again."

  /** Permission never goes back to unknown once known. */
  predicate PermissionStep(before: Permission, after: Permission)
  {
    after == before || after != Unknown
  }

  class VoiceConsole {
    var supported: bool
    var secure: bool
    var permission: Permission
    var listening: bool
    var transcript: string
    var response: string
    var thinking: bool
    var error: string
    /** A recognizer was created (`recognitionRef.current` is set). */
    var hasRecognizer: bool
    /** Replies whose 700 ms timer has not fired yet, in firing order. */
    var scheduledReplies: seq<string>

    /** `supported` reflects whether a recognizer exists; the thinking indicator is on only
        while a reply is still scheduled; every scheduled reply is non-empty. */
    ghost predicate Valid()
      reads this
    {
      && supported == hasRecognizer
      && (thinking ==> scheduledReplies != [])
      && forall k :: 0 <= k < |scheduledReplies| ==> scheduledReplies[k] != ""
    }

    /** The console's initial state after its setup effect ran: the secure-context check
        is stored and a missing recognizer marks the console unsupported. */
    constructor (secureContext: bool, recognizerAvailable: bool)
      ensures Valid()
      ensures secure == secureContext && hasRecognizer == recognizerAvailable
      ensures supported == recognizerAvailable
      ensures permission == Unknown && !listening && !thinking
      ensures transcript == "" && response == "" && error == "" && scheduledReplies == []
    {
      secure := secureContext;
      hasRecognizer := recognizerAvailable;
      supported := recognizerAvailable;
      permission := Unknown;
      listening := false;
      transcript := "";
      response := "";
      thinking := false;
      error := "";
      scheduledReplies := [];
    }

    /** `rec.onstart`: the session is live and any earlier error is cleared. */
    method OnStart()
      requires Valid()
      modifies this`listening, this`error
      ensures Valid()
      ensures listening && error == ""
    {
      listening := true;
      error := "";
    }

    /** `rec.onresult`: the transcript is replaced by this event's text from `resultIndex`
        on; it does not carry over text from earlier events. */
    method OnResult(results: seq<SpeechResult>, resultIndex: nat)
      requires Valid()
      requires forall i :: resultIndex <= i < |results| ==> HasCandidate(results[i])
      modifies this`transcript
      ensures Valid()
      ensures resultIndex >= |results| ==> transcript == ""
      ensures resultIndex < |results| ==> transcript == Text.Trim(Joined(results[resultIndex..]))
    {
      transcript := ReduceTranscript(results, resultIndex);
    }

    /** `rec.onerror`: shows the message for the code, ends listening, and marks the
        permission denied for the two refusal codes only. */
    method OnError(code: Option<string>)
      requires Valid()
      modifies this`error, this`listening, this`permission
      ensures Valid()
      ensures error == ErrorMessage(code) && error != ""
      ensures !listening
      ensures permission == if RevokesPermission(code) then Denied else old(permission)
      ensures PermissionStep(old(permission), permission)
    {
      var msg := ErrorMessage(code);
      if RevokesPermission(code) {
        permission := Denied;
      }
      error := msg;
      listening := false;
    }

    /** First half of `handleGenerateResponse`: the thinking indicator goes on and the
        reply for `text` is scheduled behind any reply already waiting. */
    method GenerateResponse(text: string, clockTime: string, clockDate: string)
      requires Valid()
      modifies this`thinking, this`scheduledReplies
      ensures Valid()
      ensures thinking
      ensures scheduledReplies == old(scheduledReplies) + [Respond(text, clockTime, clockDate)]
    {
      thinking := true;
      var reply := Respond(text, clockTime, clockDate);
      scheduledReplies := scheduledReplies + [reply];
    }

    /** Second half of `handleGenerateResponse`, when the earliest 700 ms timer fires: the
        indicator goes off, the reply is shown and handed to `speak`, which sends an
        utterance only when speech synthesis exists. */
    method DeliverReply(synthAvailable: bool, voices: seq<Voice>) returns (spoken: Option<Utterance>)
      requires Valid()
      requires scheduledReplies != []
      modifies this`thinking, this`response, this`scheduledReplies
      ensures Valid()
      ensures !thinking
      ensures response == old(scheduledReplies)[0] && response != ""
      ensures scheduledReplies == old(scheduledReplies)[1..]
      ensures spoken == if synthAvailable then Some(Utterance(response, PickVoice(voices))) else None
    {
      var reply := scheduledReplies[0];
      scheduledReplies := scheduledReplies[1..];
      thinking := false;
      response := reply;
      if synthAvailable {
        spoken := Some(Utterance(reply, PickVoice(voices)));
      } else {
        spoken := None;
      }
    }

    /** `rec.onend`: listening stops; a non-empty transcript starts reply generation, an
        empty one leaves the reply state alone. */
    method OnEnd(clockTime: string, clockDate: string)
      requires Valid()
      modifies this`listening, this`thinking, this`scheduledReplies
      ensures Valid()
      ensures !listening
      ensures old(transcript) != "" ==>
        thinking && scheduledReplies == old(scheduledReplies) + [Respond(transcript, clockTime, clockDate)]
      ensures old(transcript) == "" ==>
        thinking == old(thinking) && scheduledReplies == old(scheduledReplies)
    {
      listening := false;
      if transcript != "" {
        GenerateResponse(transcript, clockTime, clockDate);
      }
    }

    /** The Analyze button is enabled only with a transcript and while not listening. */
    predicate AnalyzeEnabled()
      reads this
    {
      transcript != "" && !listening
    }

    /** A click on Analyze: generates a reply for the transcript when the button is
        enabled, and does nothing otherwise. */
    method Analyze(clockTime: string, clockDate: string)
      requires Valid()
      modifies this`thinking, this`scheduledReplies
      ensures Valid()
      ensures old(AnalyzeEnabled()) ==>
        thinking && scheduledReplies == old(scheduledReplies) + [Respond(transcript, clockTime, clockDate)]
      ensures !old(AnalyzeEnabled()) ==>
        thinking == old(thinking) && scheduledReplies == old(scheduledReplies)
    {
      if AnalyzeEnabled() {
        GenerateResponse(transcript, clockTime, clockDate);
      }
    }

    /** `requestMic` (also the "Check mic access" button): succeeds only when the probe is
        granted. A refusal marks permission denied with a message; missing media devices
        change nothing. */
    method RequestMic(probe: Probe) returns (ok: bool)
      requires Valid()
      modifies this`permission, this`error
      ensures Valid()
      ensures ok <==> probe == Allowed
      ensures probe == NoMediaDevices ==> permission == old(permission) && error == old(error)
      ensures probe == Allowed ==> permission == Granted && error == old(error)
      ensures probe == Refused ==> permission == Denied && error == MicRequiredMessage
      ensures PermissionStep(old(permission), permission)
    {
      match probe
      case NoMediaDevices =>
        ok := false;
      case Allowed =>
        permission := Granted;
        ok := true;
      case Refused =>
        permission := Denied;
        error := MicRequiredMessage;
        ok := false;
    }

    /** `handleStart`: clears reply, transcript and error first; then stops at the first
        failed check (secure context, recognizer, microphone permission, probing the
        microphone whenever permission is not granted); otherwise calls `start()`, and when
        that throws, schedules the retry. The recognizer is started only with permission
        granted. */
    method HandleStart(probe: Probe, startThrows: bool) returns (outcome: StartOutcome)
      requires Valid()
      modifies this`response, this`transcript, this`error, this`supported, this`permission
      ensures Valid()
      ensures transcript == "" && response == ""
      ensures !secure ==>
        outcome == InsecureContext && error == InsecureContextMessage && permission == old(permission)
      ensures secure && !hasRecognizer ==>
        outcome == NoRecognizer && !supported && error == "" && permission == old(permission)
      ensures secure && hasRecognizer && old(permission) != Granted && probe == NoMediaDevices ==>
        outcome == MicNotAllowed && error == "" && permission == old(permission)
      ensures secure && hasRecognizer && old(permission) != Granted && probe == Refused ==>
        outcome == MicNotAllowed && error == MicRequiredMessage && permission == Denied
      ensures secure && hasRecognizer && (old(permission) == Granted || probe == Allowed) ==>
        outcome == (if startThrows then RetryScheduled else StartIssued) && error == "" && permission == Granted
      ensures outcome in {StartIssued, RetryScheduled} ==> secure && hasRecognizer && permission == Granted
      ensures PermissionStep(old(permission), permission)
    {
      response := "";
      transcript := "";
      error := "";
      if !secure {
        error := InsecureContextMessage;
        return InsecureContext;
      }
      if !hasRecognizer {
        supported := false;
        return NoRecognizer;
      }
      if permission != Granted {
        var ok := RequestMic(probe);
        if !ok {
          return MicNotAllowed;
        }
      }
      if startThrows {
        outcome := RetryScheduled;
      } else {
        outcome := StartIssued;
      }
    }

    /** `handleStop`: asks the recognizer to stop when there is one; the console's state
        changes only when the engine later reports the end. */
    method HandleStop() returns (stopRequested: bool)
      ensures stopRequested == hasRecognizer
    {
      stopRequested := hasRecognizer;
    }
  }
}
