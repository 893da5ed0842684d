/** Runs of the console through several handlers, as a page visit would drive them. */
module Scenarios {
  import opened Wrappers
  import opened Text
  import opened Recognition
  import opened Console
  import opened Classifier

  /** A refused microphone probe blocks the start and leaves permission denied without
      listening; a later start whose probe is granted gets through. */
  method DeniedThenGranted() returns (c: VoiceConsole, first: StartOutcome, second: StartOutcome)
    ensures first == MicNotAllowed && second == StartIssued
    ensures c.permission == Granted && !c.listening && c.error == ""
  {
    c := new VoiceConsole(true, true);
    first := c.HandleStart(Refused, false);
    assert c.permission == Denied && !c.listening && c.error == MicRequiredMessage;
    second := c.HandleStart(Allowed, false);
  }

  /** Listening and thinking can both be on: a session ends with a transcript, Analyze is
      pressed, and Start is pressed again before the reply's timer fires. The reply comes
      from Analyze, so the run does not depend on whether the end event replies too. */
  method ListeningWhileThinking(word: string, clockTime: string, clockDate: string)
    returns (c: VoiceConsole)
    requires word != "" && !IsSpace(word[0])
    ensures c.listening && c.thinking
  {
    c := new VoiceConsole(true, true);
    var outcome := c.HandleStart(Allowed, false);
    c.OnStart();
    var results := [SpeechResult([Alternative(word)], true)];
    c.OnResult(results, 0);
    assert results[0..] == results;
    assert Joined(results) == word + " ";
    assert Joined(results)[0] == word[0];
    TrimEmptyIff(Joined(results));
    c.OnEnd(clockTime, clockDate);
    assert c.AnalyzeEnabled();
    c.Analyze(clockTime, clockDate);
    outcome := c.HandleStart(Allowed, false);
    c.OnStart();
  }

  /** A fresh console starts a session whose one final result is `word`. */
  method HearWord(word: string) returns (c: VoiceConsole)
    requires word != "" && !IsSpace(word[0]) && !IsSpace(word[|word| - 1])
    ensures fresh(c) && c.Valid() && c.hasRecognizer
    ensures c.listening && !c.thinking && c.transcript == word && c.scheduledReplies == []
  {
    c := new VoiceConsole(true, true);
    var outcome := c.HandleStart(Allowed, false);
    c.OnStart();
    var results := [SpeechResult([Alternative(word)], true)];
    c.OnResult(results, 0);
    assert results[0..] == results;
    JoinedOne(results[0]);
    TrimFinalPiece(word);
  }

  /** The user-stop path: Stop during a session with a transcript requests the engine's
      stop, the engine's end event then schedules the reply to that transcript, and when
      the reply's timer fires the reply is shown and thinking ends. */
  method StopAfterSpeech(word: string, clockTime: string, clockDate: string)
    returns (c: VoiceConsole, stopRequested: bool)
    requires word != "" && !IsSpace(word[0]) && !IsSpace(word[|word| - 1])
    ensures stopRequested
    ensures c.transcript == word && !c.listening && !c.thinking
    ensures c.response == Respond(word, clockTime, clockDate) && c.scheduledReplies == []
  {
    c := HearWord(word);
    stopRequested := c.HandleStop();
    c.OnEnd(clockTime, clockDate);
    var spoken := c.DeliverReply(false, []);
  }
}
