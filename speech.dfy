/** Voice choice in `speak`: the first voice whose language tag matches `/en-US|en_GB/i`,
    else the first voice, else none. */
module Speech {
  import opened Wrappers
  import opened Text
  import Seqs

  /** A synthesis voice as `getVoices()` lists it. */
  datatype Voice = Voice(name: string, lang: string)

  /** `/en-US|en_GB/i.test(lang)`: either tag occurs anywhere in the language string,
      ignoring ASCII case. A hyphenated "en-GB" does not match. */
  predicate IsPreferred(v: Voice)
  {
    Contains(Lower(v.lang), "en-us") || Contains(Lower(v.lang), "en_gb")
  }

  function Preferred(): Voice -> bool
  {
    (v: Voice) => IsPreferred(v)
  }

  /** `voices.find(IsPreferred) || voices[0]`. */
  function PickVoice(voices: seq<Voice>): (v: Option<Voice>)
    ensures v.None? <==> voices == []
    ensures v.Some? ==> v.value in voices
    ensures (exists j :: 0 <= j < |voices| && IsPreferred(voices[j])) ==>
      exists k :: 0 <= k < |voices| && v == Some(voices[k]) && IsPreferred(voices[k])
        && forall j :: 0 <= j < k ==> !IsPreferred(voices[j])
    ensures voices != [] && (forall j :: 0 <= j < |voices| ==> !IsPreferred(voices[j])) ==>
      v == Some(voices[0])
  {
    match Seqs.FirstIndex(voices, Preferred())
    case Some(k) => Some(voices[k])
    case None => if voices == [] then None else Some(voices[0])
  }

  /** What `speak` hands to the synthesis engine: the text and the chosen voice (the
      engine's default voice when none). */
  datatype Utterance = Utterance(text: string, voice: Option<Voice>)

  /** A hyphenated British tag is not preferred. */
  lemma HyphenatedBritishTagNotPreferred(name: string)
    ensures !IsPreferred(Voice(name, "en-GB"))
  {
    var l := Lower("en-GB");
    assert l == "en-gb";
    if Contains(l, "en-us") {
      ContainsChars(l, "en-us", 'u');
    }
    if Contains(l, "en_gb") {
      ContainsChars(l, "en_gb", '_');
    }
  }

  /** An "en-US" voice is preferred. */
  lemma AmericanTagPreferred(name: string)
    ensures IsPreferred(Voice(name, "en-US"))
  {
    var l := Lower("en-US");
    assert l == "en-us";
    assert OccursAt(l, "en-us", 0);
    ContainsIff(l, "en-us");
  }

  /** An "en-GB" voice listed first loses to a later "en-US" voice. */
  lemma BritishLosesToAmerican(a: string, b: string)
    ensures PickVoice([Voice(a, "en-GB"), Voice(b, "en-US")]) == Some(Voice(b, "en-US"))
  {
    var voices := [Voice(a, "en-GB"), Voice(b, "en-US")];
    HyphenatedBritishTagNotPreferred(a);
    AmericanTagPreferred(b);
    Seqs.FirstIndexUnique(voices, Preferred(), 1);
  }
}
