# Voice console session model

This project models the voice console, the speech-to-reply widget of the landing page
(`src/components/VoiceConsole.jsx`), and proves properties of that model:

- **Session controller.** The controller owns eight pieces of state: `supported`, `secure`,
  `permission`, `listening`, `transcript`, `response`, `thinking` and `error`. These
  handlers change that state:
  - the four recognition-engine callbacks (`onstart`, `onresult`, `onerror`, `onend`);
  - the Start, Stop, Analyze and "Check mic access" buttons (`handleStart`, `handleStop`,
    `requestMic`);
  - `handleGenerateResponse`, which turns the thinking indicator on and shows the reply
    700 ms later.

  It is the class `Console.VoiceConsole`. Replies whose 700 ms timer has not fired yet are
  kept in the field `scheduledReplies` in firing order. The timer firing is the separate
  method `DeliverReply`.
- **Reply chooser.** The `handleGenerateResponse` chain tests the lower-cased transcript
  for keywords in a fixed order, and the first test that passes picks a canned reply. It is
  the function `Classifier.Classify` with `Classifier.Respond`. It is proved equal to a
  reference reading: first-match dispatch over a keyword table, `Classifier.Rules`.
- **Transcript reduction.** `onresult` builds the transcript from one result event. It is
  the loop `Recognition.ReduceTranscript`, proved against the specification
  `Trim(Joined(results[resultIndex..]))`.
- **Error messages.** `onerror` maps error codes to messages. This is
  `Recognition.ErrorMessage`.
- **Voice choice.** `speak` picks a voice. This is `Speech.PickVoice`.
- **JavaScript string operations.** The chooser relies on `includes`, `toLowerCase` and
  `trim`. Module `Text` defines them, with `includes` characterised positionally.

Browser services are parameters of the methods that use them:

- whether the page is a secure context;
- whether a recognizer could be created;
- how the microphone probe ends;
- whether `start()` throws;
- whether speech synthesis exists, and which voices it lists;
- the locale-formatted time and date strings.

Recognition events are inputs: any handler may be called in any order, as the engine may
call them.

## Behaviour of the code worth knowing

- `onresult` replaces the transcript with the text of the current event, from
  `resultIndex` on. It does not append to the earlier transcript
  (`VoiceConsole.OnResult`).
- `listening` and `thinking` can both be true. A session ends with a transcript, Analyze
  schedules a reply, and Start can be pressed again before the reply's timer fires
  (`Scenarios.ListeningWhileThinking`).
- When no recognizer exists, `handleStart` sets `supported` to false and sets no `error`
  text. The message the user sees is the not-supported panel that replaces the console
  whenever `supported` is false (`src/components/VoiceConsole.jsx:184-187`); that panel is
  rendering and is not modelled.
- `handleStart` clears the response, transcript and error before any of its checks, so a
  refused start also loses the previous reply.
- Whenever permission is not `granted`, the microphone probe runs again, including after
  an earlier denial (`Scenarios.DeniedThenGranted`).
- Permission can go from `granted` back to `denied`. This happens when `onerror` reports
  "not-allowed" or "service-not-allowed", and when a "Check mic access" probe is refused
  (`VoiceConsole.OnError`, `VoiceConsole.RequestMic`). It never returns to `unknown`.
- The voice pattern is `/en-US|en_GB/i`, with an underscore in the British tag. A voice
  tagged `en-GB` is therefore not preferred, and loses to a later `en-US` voice
  (`Speech.HyphenatedBritishTagNotPreferred`, `Speech.BritishLosesToAmerican`).
- The greeting test `includes('hi')` also matches words such as "this"
  (`Classifier.ExampleGreetingInsideWord`).

## Model

| member | source | states |
|---|---|---|
| Text.ContainsIff | src/components/VoiceConsole.jsx:149-163 | `includes` holds exactly when some position of the text starts an occurrence of the keyword |
| Text.Lower | src/components/VoiceConsole.jsx:146 | `toLowerCase` keeps the length, leaves no capital A-Z, turns each capital into the same letter in small form and keeps every other character |
| Text.LowerIdempotent | src/components/VoiceConsole.jsx:146 | lower-casing twice is lower-casing once |
| Text.KeepFrom | src/components/VoiceConsole.jsx:51 | `trim` starts at the first non-space character and cuts only spaces before it |
| Text.KeepTo | src/components/VoiceConsole.jsx:51 | `trim` ends after the last non-space character and cuts only spaces after it |
| Text.TrimSpec | src/components/VoiceConsole.jsx:51 | the trimmed transcript is a slice of the text with only spaces cut at both ends, and it neither starts nor ends with a space |
| Text.TrimEmptyIff | src/components/VoiceConsole.jsx:51 | the trimmed transcript is empty exactly when the text is all spaces |
| Text.TrimIdempotent | src/components/VoiceConsole.jsx:51 | trimming an already trimmed transcript changes nothing |
| Text.TrimFinalPiece | src/components/VoiceConsole.jsx:48-51 | the space added after a final result is trimmed away, so a single final word with no space at its ends becomes the transcript unchanged |
| Seqs.FirstIndex | src/components/VoiceConsole.jsx:138 | `find` returns the first element that passes the test, or nothing when none passes |
| Seqs.FirstIndexUnique | src/components/VoiceConsole.jsx:138 | the index `find` stops at is the one index that passes with no earlier index passing |
| Classifier.Respond | src/components/VoiceConsole.jsx:144-165 | every transcript, the empty one included, gets a non-empty reply |
| Classifier.FiresOnRules | src/components/VoiceConsole.jsx:149-162 | each row of the keyword table fires exactly on the keywords its branch tests, including "open" and "settings" both being needed |
| Classifier.ClassifyIsDispatch | src/components/VoiceConsole.jsx:149-165 | the if-chain chooses the same branch as first-match search of the keyword table, falling back to echo for a non-empty text and to the acknowledgement for an empty one |
| Classifier.ClassifyPriority | src/components/VoiceConsole.jsx:149-162 | a branch answers if and only if its test passes and every earlier test fails |
| Classifier.TimeAlwaysWins | src/components/VoiceConsole.jsx:149-150 | any transcript mentioning "time", in any casing, gets the time reply |
| Classifier.SettingsNeedsBoth | src/components/VoiceConsole.jsx:161-162 | the settings reply is given only when both "open" and "settings" occur |
| Classifier.EchoKeepsOriginalText | src/components/VoiceConsole.jsx:163-164 | a non-empty transcript that matches no keyword is echoed with its original casing |
| Classifier.FallbackOnlyForEmpty | src/components/VoiceConsole.jsx:147-165 | the reply is "I heard you." if and only if the transcript is empty |
| Classifier.ExampleTimeQuestion | src/components/VoiceConsole.jsx:149-150 | "What time is it?" gets "The current time is …" ending in a full stop |
| Classifier.ExampleJoke | src/components/VoiceConsole.jsx:153-154 | "Tell me a joke" gets the joke |
| Classifier.ExampleGreeting | src/components/VoiceConsole.jsx:157-158 | "hello there" gets the greeting |
| Classifier.ExampleEcho | src/components/VoiceConsole.jsx:163-164 | "asdf qwer" matches no keyword and is echoed as "You said: asdf qwer" |
| Classifier.ExampleGreetingInsideWord | src/components/VoiceConsole.jsx:157-158 | "what is this" gets the greeting, because "this" contains "hi" |
| Recognition.JoinedAppend | src/components/VoiceConsole.jsx:45-50 | the text of two runs of results is the text of the first run followed by that of the second |
| Recognition.JoinedSplit | src/components/VoiceConsole.jsx:45-50 | the joined text is the text before result k, then the piece of result k, then the text after it |
| Recognition.JoinedPlacesEachPiece | src/components/VoiceConsole.jsx:45-50 | each result's piece appears in the joined text right after the earlier pieces, so its best candidate occurs in the text |
| Recognition.ReduceTranscript | src/components/VoiceConsole.jsx:43-51 | the transcript is the trimmed concatenation of the best candidates from `resultIndex` on, with a space after each final one; an index at or past the end gives the empty transcript |
| Recognition.ErrorMessage | src/components/VoiceConsole.jsx:54-63 | the two refusal codes, no-speech and audio-capture get their own messages; a missing or empty code gives "Unknown error"; any other code is shown verbatim; the message is never empty |
| Speech.PickVoice | src/components/VoiceConsole.jsx:137-139 | the voice is the first one whose language matches en-US or en_GB in any case, else the first voice, and there is none only when the list is empty |
| Speech.HyphenatedBritishTagNotPreferred | src/components/VoiceConsole.jsx:138 | a voice tagged "en-GB" with a hyphen does not match the pattern |
| Speech.AmericanTagPreferred | src/components/VoiceConsole.jsx:138 | a voice tagged "en-US" matches the pattern |
| Speech.BritishLosesToAmerican | src/components/VoiceConsole.jsx:137-139 | with an "en-GB" voice listed before an "en-US" voice, the "en-US" voice is picked |
| Console.VoiceConsole.constructor | src/components/VoiceConsole.jsx:13-36 | the initial state: permission unknown, nothing listening, thinking or shown, the secure-context check stored, and `supported` false exactly when no recognizer was created |
| Console.VoiceConsole.OnStart | src/components/VoiceConsole.jsx:38-41 | listening starts and the error is cleared |
| Console.VoiceConsole.OnResult | src/components/VoiceConsole.jsx:43-52 | the transcript is replaced by the reduced text of this event |
| Console.VoiceConsole.OnError | src/components/VoiceConsole.jsx:54-66 | the error is the mapped message, listening stops, and permission becomes denied only for the two refusal codes |
| Console.VoiceConsole.GenerateResponse | src/components/VoiceConsole.jsx:144-167 | thinking turns on, and the reply for the text is scheduled after any reply already waiting |
| Console.VoiceConsole.DeliverReply | src/components/VoiceConsole.jsx:167-171 | when the earliest timer fires, thinking turns off and its reply is shown, then spoken with the chosen voice if speech synthesis exists |
| Console.VoiceConsole.OnEnd | src/components/VoiceConsole.jsx:68-71 | listening stops, and a reply is scheduled exactly when the transcript is non-empty |
| Console.VoiceConsole.Analyze | src/components/VoiceConsole.jsx:241 | Analyze schedules a reply only with a transcript while not listening, and otherwise changes nothing |
| Console.VoiceConsole.RequestMic | src/components/VoiceConsole.jsx:76-89 | succeeds exactly when access is granted; a refusal marks permission denied with its message; missing media devices change nothing |
| Console.VoiceConsole.HandleStart | src/components/VoiceConsole.jsx:91-124 | clears the reply, transcript and error, then stops at the first failed check (secure context, recognizer, microphone); starts, or schedules the retry, only with permission granted |
| Scenarios.DeniedThenGranted | src/components/VoiceConsole.jsx:91-109 | a refused probe blocks the start, and a later start whose probe is granted gets through |
| Scenarios.StopAfterSpeech | src/components/VoiceConsole.jsx:126-129 | on the user-stop path, Stop during a session that heard a word requests the engine's stop; the end event then schedules the reply to that word, and when the timer fires the reply is shown and thinking ends |
| Scenarios.ListeningWhileThinking | src/components/VoiceConsole.jsx:241 | after a session ends with a transcript, Analyze is pressed and Start is pressed again, the console is listening and thinking at once |

## Left out

- React's rendering, effects and re-subscription are not modelled. The model has one
  recognizer that lives as long as the console, and `onend` reads the current transcript.
  In the code, the setup effect runs again on every transcript change. Each run builds a
  new recognizer and points `recognitionRef` at it
  (`src/components/VoiceConsole.jsx:28`, `73-74`). As a result:
  - `handleStop`'s `stop()` (line 128) and `handleStart`'s `abort()` (line 112) reach the
    newest recognizer, which is idle, rather than the one that is running;
  - the running recognizer's `onend` replies to the transcript captured when it was
    built: empty in a first session, and the previous session's text later.

  `Scenarios.StopAfterSpeech` and the contract of `Console.VoiceConsole.OnEnd` describe the single-recognizer reading the handlers are
  written for, not this behaviour.
- Concurrency between the `await` in `handleStart` and engine events is not modelled.
  Each handler runs to completion before the next one.
- Timer delays are not modelled. The 700 ms reply timer is the separate step
  `DeliverReply`. The 200 ms retry of `start()` changes no console state, so its firing is
  not a step of its own.
- The recognition engine's own state machine is not modelled. Events are arbitrary
  inputs, and `abort()`, `stop()` and `start()` are calls with no modelled effect.
- Console.VoiceConsole.HandleStop: its contract covers only the decision to call `stop()`.
  The engine reacts later through `onend`, which is its own method, and
  `Scenarios.StopAfterSpeech` follows the two together. Under the re-created recognizer
  described above, the `stop()` call may reach an idle recognizer.
- Text.Lower: maps only the ASCII capitals A-Z, which `toLowerCase` maps the same way.
  Full Unicode case mapping is out of scope, for example 'İ' (U+0130) and the Kelvin
  sign. The case-insensitive voice pattern is modelled the same way.
- `Date`'s `toLocaleTimeString` and `toLocaleDateString` depend on the clock and the locale.
  They are string parameters.
- The synthesis settings (rate 1.02, pitch 1.05, volume 1) are not modelled; they carry no
  logic. Neither is `synth.cancel()`, which only interrupts audio.
- The JSX layout, the animations and the other page sections are presentation only. The
  disabled state of the Start button (`!secure`) and the button swap on `listening` are
  not modelled; `HandleStart` checks `secure` itself.
- Recognizer settings (`continuous`, `interimResults`, `lang`) configure the engine and
  change no console state.
