/** The reply chooser of the voice console (`handleGenerateResponse`): an ordered chain of
    substring tests on the lower-cased transcript, the first test that passes choosing a
    canned reply. The localized clock strings are parameters. */
module Classifier {
  import opened Wrappers
  import opened Text
  import Seqs

  /** Which branch of the chain answers. */
  datatype Intent =
    | TellTime | TellDate | TellJoke | WarnWeather | Greet | Introduce | OpenSettings
    | Echo | Acknowledge

  /** The chain as the console writes it: `t` is the lower-cased transcript; the echo
      branch is taken for any non-empty transcript no test matched. */
  function Classify(text: string): Intent
  {
    var t := Lower(text);
    if Contains(t, "time") then TellTime
    else if Contains(t, "date") || Contains(t, "day") then TellDate
    else if Contains(t, "joke") then TellJoke
    else if Contains(t, "weather") then WarnWeather
    else if Contains(t, "hello") || Contains(t, "hey") || Contains(t, "hi") then Greet
    else if Contains(t, "who are you") then Introduce
    else if Contains(t, "open") && Contains(t, "settings") then OpenSettings
    else if t != "" then Echo
    else Acknowledge
  }

  const JokeReply := "Here's one: Why do programmers prefer dark mode? Because light attracts bugs."
  const WeatherReply := "I can't access live weather in this demo, but I can tell you it's a great day to build."
  const GreetingReply := "Hello! How can I assist you today?"
  const IntroductionReply := "I am your futuristic voice agent \U{2014} think Jarvis, with a calm aura."
  const SettingsReply := "Opening settings... just imagine a sleek panel sliding in."
  const FallbackReply := "I heard you."

  /** The reply text `handleGenerateResponse` schedules for `text`; `clockTime` and
      `clockDate` stand for the locale-formatted current time and date. Every reply is
      non-empty, so the reply panel always has something to show. */
  function Respond(text: string, clockTime: string, clockDate: string): (reply: string)
    ensures reply != ""
  {
    match Classify(text)
    case TellTime => "The current time is " + clockTime + "."
    case TellDate => "Today is " + clockDate + "."
    case TellJoke => JokeReply
    case WarnWeather => WeatherReply
    case Greet => GreetingReply
    case Introduce => IntroductionReply
    case OpenSettings => SettingsReply
    case Echo => "You said: " + text
    case Acknowledge => FallbackReply
  }

  // ---------------------------------------------------------------------------
  // Reference reading: a table of triggers searched for the first one that fires.

  /** A trigger fires when the text contains any of its words, or all of them. */
  datatype Trigger = AnyOf(words: seq<string>) | AllOf(words: seq<string>)

  predicate Fires(tr: Trigger, t: string)
  {
    match tr
    case AnyOf(ws) => exists k :: 0 <= k < |ws| && Contains(t, ws[k])
    case AllOf(ws) => forall k :: 0 <= k < |ws| ==> Contains(t, ws[k])
  }

  /** The test of a table row, applied to the lower-cased text `t`. */
  function FiresOn(t: string): ((Trigger, Intent)) -> bool
  {
    (rule: (Trigger, Intent)) => Fires(rule.0, t)
  }

  /** The keyword table in priority order. */
  const Rules: seq<(Trigger, Intent)> := [
    (AnyOf(["time"]), TellTime),
    (AnyOf(["date", "day"]), TellDate),
    (AnyOf(["joke"]), TellJoke),
    (AnyOf(["weather"]), WarnWeather),
    (AnyOf(["hello", "hey", "hi"]), Greet),
    (AnyOf(["who are you"]), Introduce),
    (AllOf(["open", "settings"]), OpenSettings)
  ]

  /** First-match dispatch over `Rules`; when no trigger fires, echo a non-empty text and
      acknowledge an empty one. */
  function Dispatch(text: string): Intent
  {
    var t := Lower(text);
    match Seqs.FirstIndex(Rules, FiresOn(t))
    case Some(k) => Rules[k].1
    case None => if text != "" then Echo else Acknowledge
  }

  lemma FiresAnyOfOne(t: string, w: string)
    ensures Fires(AnyOf([w]), t) <==> Contains(t, w)
  {
    assert Contains(t, w) ==> Contains(t, [w][0]);
  }

  lemma FiresAnyOfTwo(t: string, w0: string, w1: string)
    ensures Fires(AnyOf([w0, w1]), t) <==> Contains(t, w0) || Contains(t, w1)
  {
    var ws := [w0, w1];
    assert Contains(t, w0) ==> Contains(t, ws[0]);
    assert Contains(t, w1) ==> Contains(t, ws[1]);
  }

  lemma FiresAnyOfThree(t: string, w0: string, w1: string, w2: string)
    ensures Fires(AnyOf([w0, w1, w2]), t) <==> Contains(t, w0) || Contains(t, w1) || Contains(t, w2)
  {
    var ws := [w0, w1, w2];
    assert Contains(t, w0) ==> Contains(t, ws[0]);
    assert Contains(t, w1) ==> Contains(t, ws[1]);
    assert Contains(t, w2) ==> Contains(t, ws[2]);
  }

  lemma FiresAllOfTwo(t: string, w0: string, w1: string)
    ensures Fires(AllOf([w0, w1]), t) <==> Contains(t, w0) && Contains(t, w1)
  {
    var ws := [w0, w1];
    if Contains(t, w0) && Contains(t, w1) {
      forall k | 0 <= k < |ws| ensures Contains(t, ws[k]) {
        if k == 0 {} else {}
      }
    }
    assert Fires(AllOf(ws), t) ==> Contains(t, ws[0]) && Contains(t, ws[1]);
  }

  /** Which rows of the table fire on `t`, one by one. */
  lemma FiresOnRules(t: string)
    ensures Fires(Rules[0].0, t) <==> Contains(t, "time")
    ensures Fires(Rules[1].0, t) <==> Contains(t, "date") || Contains(t, "day")
    ensures Fires(Rules[2].0, t) <==> Contains(t, "joke")
    ensures Fires(Rules[3].0, t) <==> Contains(t, "weather")
    ensures Fires(Rules[4].0, t) <==> Contains(t, "hello") || Contains(t, "hey") || Contains(t, "hi")
    ensures Fires(Rules[5].0, t) <==> Contains(t, "who are you")
    ensures Fires(Rules[6].0, t) <==> Contains(t, "open") && Contains(t, "settings")
  {
    FiresAnyOfOne(t, "time");
    FiresAnyOfTwo(t, "date", "day");
    FiresAnyOfOne(t, "joke");
    FiresAnyOfOne(t, "weather");
    FiresAnyOfThree(t, "hello", "hey", "hi");
    FiresAnyOfOne(t, "who are you");
    FiresAllOfTwo(t, "open", "settings");
  }

  /** The if-chain and first-match dispatch over the keyword table agree on every text. */
  lemma ClassifyIsDispatch(text: string)
    ensures Classify(text) == Dispatch(text)
  {
    var t := Lower(text);
    var p := FiresOn(t);
    FiresOnRules(t);
    var r := Seqs.FirstIndex(Rules, p);
    if r.Some? {
      var k := r.value;
      assert p(Rules[k]);
      assert forall j :: 0 <= j < k ==> !p(Rules[j]);
    } else {
      assert forall j :: 0 <= j < |Rules| ==> !p(Rules[j]);
    }
  }

  /** The position of an intent's row in `Rules`; the two fallbacks come after the table. */
  function Rank(i: Intent): nat
  {
    match i
    case TellTime => 0
    case TellDate => 1
    case TellJoke => 2
    case WarnWeather => 3
    case Greet => 4
    case Introduce => 5
    case OpenSettings => 6
    case Echo => 7
    case Acknowledge => 8
  }

  /** Each row of the table names a different intent: row `k` holds the intent of rank `k`. */
  lemma RankOfRow(k: nat)
    requires k < |Rules|
    ensures Rank(Rules[k].1) == k
  {
    if k == 0 {} else if k == 1 {} else if k == 2 {} else if k == 3 {}
    else if k == 4 {} else if k == 5 {} else {}
  }

  /** Priority: the branch of rule `k` answers exactly when its test passes and every
      earlier test failed. */
  lemma ClassifyPriority(text: string, k: nat)
    requires k < |Rules|
    ensures Classify(text) == Rules[k].1 <==>
      Fires(Rules[k].0, Lower(text)) && forall j :: 0 <= j < k ==> !Fires(Rules[j].0, Lower(text))
  {
    var t := Lower(text);
    var p := FiresOn(t);
    ClassifyIsDispatch(text);
    var r := Seqs.FirstIndex(Rules, p);
    if Fires(Rules[k].0, t) && forall j :: 0 <= j < k ==> !Fires(Rules[j].0, t) {
      Seqs.FirstIndexUnique(Rules, p, k);
    }
    if Classify(text) == Rules[k].1 {
      RankOfRow(k);
      assert r.Some?;
      RankOfRow(r.value);
    }
  }

  /** A transcript mentioning "time" gets the time reply, whatever else it says. */
  lemma TimeAlwaysWins(text: string, clockTime: string, clockDate: string)
    requires Contains(Lower(text), "time")
    ensures Respond(text, clockTime, clockDate) == "The current time is " + clockTime + "."
  {
  }

  /** The settings reply needs both "open" and "settings", and no earlier keyword. */
  lemma SettingsNeedsBoth(text: string)
    ensures Classify(text) == OpenSettings ==>
      Contains(Lower(text), "open") && Contains(Lower(text), "settings")
  {
  }

  /** A non-empty transcript that no keyword matches is echoed with its own casing. */
  lemma EchoKeepsOriginalText(text: string, clockTime: string, clockDate: string)
    requires text != ""
    requires forall k :: 0 <= k < |Rules| ==> !Fires(Rules[k].0, Lower(text))
    ensures Respond(text, clockTime, clockDate) == "You said: " + text
  {
    FiresOnRules(Lower(text));
  }

  /** An empty transcript is acknowledged, and only an empty transcript is. */
  lemma FallbackOnlyForEmpty(text: string, clockTime: string, clockDate: string)
    ensures Respond(text, clockTime, clockDate) == FallbackReply <==> text == ""
  {
    if text == "" {
      assert Lower(text) == [];
    } else {
      var r := Respond(text, clockTime, clockDate);
      match Classify(text)
      case TellTime => assert r[0] == 'T';
      case TellDate => assert r[0] == 'T';
      case TellJoke => assert |r| != |FallbackReply|;
      case WarnWeather => assert |r| != |FallbackReply|;
      case Greet => assert |r| != |FallbackReply|;
      case Introduce => assert |r| != |FallbackReply|;
      case OpenSettings => assert |r| != |FallbackReply|;
      case Echo => assert r[0] == 'Y';
      case Acknowledge => assert Lower(text) != [];
    }
  }

  // ---------------------------------------------------------------------------
  // Worked examples. For each literal, a small lemma lists which characters the
  // lower-cased text lacks and where a keyword occurs; the example then rules keywords
  // out with `MissingChar` and concludes from the definitions or the lemmas above.

  /** A text containing none of the keywords fires no row of the table. */
  lemma NoRowFires(t: string)
    requires !Contains(t, "time") && !Contains(t, "date") && !Contains(t, "day")
    requires !Contains(t, "joke") && !Contains(t, "weather")
    requires !Contains(t, "hello") && !Contains(t, "hey") && !Contains(t, "hi")
    requires !Contains(t, "who are you") && !Contains(t, "open")
    ensures forall k :: 0 <= k < |Rules| ==> !Fires(Rules[k].0, t)
  {
    FiresOnRules(t);
  }

  /** Every keyword has a 't', 'y', 'j', 'h' or 'o', so a text with none of these
      characters fires no row. */
  lemma NoRowFiresWithout(t: string)
    requires 't' !in t && 'y' !in t && 'j' !in t && 'h' !in t && 'o' !in t
    ensures forall k :: 0 <= k < |Rules| ==> !Fires(Rules[k].0, t)
  {
    MissingChar(t, "time", 't');
    MissingChar(t, "date", 't');
    MissingChar(t, "day", 'y');
    MissingChar(t, "joke", 'j');
    MissingChar(t, "weather", 't');
    MissingChar(t, "hello", 'h');
    MissingChar(t, "hey", 'h');
    MissingChar(t, "hi", 'h');
    MissingChar(t, "who are you", 'h');
    MissingChar(t, "open", 'o');
    NoRowFires(t);
  }

  /** `Lower(text)` has `kw` at position `i`. */
  lemma KeywordAt(text: string, lowered: string, kw: string, i: nat)
    requires Lower(text) == lowered && OccursAt(lowered, kw, i)
    ensures Contains(Lower(text), kw)
  {
    ContainsIff(lowered, kw);
  }

  /** "What time is it?" gets the time reply, which starts with "The current time is"
      and ends with a period. */
  lemma ExampleTimeQuestion(text: string, clockTime: string, clockDate: string)
    requires text == "What time is it?"
    ensures var reply := Respond(text, clockTime, clockDate);
      reply == "The current time is " + clockTime + "."
      && reply[..19] == "The current time is" && reply[|reply| - 1] == '.'
  {
    KeywordAt(text, "what time is it?", "time", 5);
    TimeAlwaysWins(text, clockTime, clockDate);
  }

  lemma JokeRequestLowered(text: string)
    requires text == "Tell me a joke"
    ensures 'i' !in Lower(text) && 'd' !in Lower(text)
    ensures Contains(Lower(text), "joke")
  {
    assert Lower(text) == "tell me a joke";
    KeywordAt(text, "tell me a joke", "joke", 10);
  }

  /** "Tell me a joke" gets the joke verbatim. */
  lemma ExampleJoke(text: string, clockTime: string, clockDate: string)
    requires text == "Tell me a joke"
    ensures Respond(text, clockTime, clockDate) == JokeReply
  {
    var l := Lower(text);
    JokeRequestLowered(text);
    MissingChar(l, "time", 'i');
    MissingChar(l, "date", 'd');
    MissingChar(l, "day", 'd');
  }

  lemma GreetingLowered(text: string)
    requires text == "hello there"
    ensures 'i' !in Lower(text) && 'd' !in Lower(text) && 'j' !in Lower(text) && 'w' !in Lower(text)
  {
    LowerWithoutCapitals(text);
  }

  lemma GreetingHasHello(text: string)
    requires text == "hello there"
    ensures Contains(Lower(text), "hello")
  {
    LowerWithoutCapitals(text);
    KeywordAt(text, "hello there", "hello", 0);
  }

  /** "hello there" gets the greeting verbatim. */
  lemma ExampleGreeting(text: string, clockTime: string, clockDate: string)
    requires text == "hello there"
    ensures Respond(text, clockTime, clockDate) == GreetingReply
  {
    var l := Lower(text);
    GreetingLowered(text);
    GreetingHasHello(text);
    MissingChar(l, "time", 'i');
    MissingChar(l, "date", 'd');
    MissingChar(l, "day", 'd');
    MissingChar(l, "joke", 'j');
    MissingChar(l, "weather", 'w');
  }

  lemma UnmatchedLowered(text: string)
    requires text == "asdf qwer"
    ensures 't' !in Lower(text) && 'y' !in Lower(text) && 'j' !in Lower(text)
    ensures 'h' !in Lower(text) && 'o' !in Lower(text)
  {
    LowerWithoutCapitals(text);
  }

  /** "asdf qwer" matches no keyword and is echoed as spoken. */
  lemma ExampleEcho(text: string, clockTime: string, clockDate: string)
    requires text == "asdf qwer"
    ensures Respond(text, clockTime, clockDate) == "You said: asdf qwer"
  {
    UnmatchedLowered(text);
    NoRowFiresWithout(Lower(text));
    EchoKeepsOriginalText(text, clockTime, clockDate);
  }

  lemma QuestionLowered(text: string)
    requires text == "what is this"
    ensures 'm' !in Lower(text) && 'd' !in Lower(text) && 'j' !in Lower(text) && 'e' !in Lower(text)
    ensures Contains(Lower(text), "hi")
  {
    LowerWithoutCapitals(text);
    KeywordAt(text, "what is this", "hi", 9);
  }

  /** The tests are substring tests, not word tests: "what is this" is greeted, because
      "this" contains "hi". */
  lemma ExampleGreetingInsideWord(text: string, clockTime: string, clockDate: string)
    requires text == "what is this"
    ensures Respond(text, clockTime, clockDate) == GreetingReply
  {
    var l := Lower(text);
    QuestionLowered(text);
    MissingChar(l, "time", 'm');
    MissingChar(l, "date", 'd');
    MissingChar(l, "day", 'd');
    MissingChar(l, "joke", 'j');
    MissingChar(l, "weather", 'e');
  }
}
