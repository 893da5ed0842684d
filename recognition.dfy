/** The two recognition-engine callbacks that compute something: `onresult`, which rebuilds
    the transcript from one result event, and the message chosen by `onerror`. */
module Recognition {
  import opened Wrappers
  import opened Text

  /** One ranked candidate of a recognition result. */
  datatype Alternative = Alternative(transcript: string)

  /** One entry of `event.results`: its candidates, best first, and whether it is final. */
  datatype SpeechResult = SpeechResult(alternatives: seq<Alternative>, isFinal: bool)

  /** The engine gives every result at least one candidate; `onresult` reads `res[0]`. */
  predicate HasCandidate(r: SpeechResult)
  {
    |r.alternatives| > 0
  }

  predicate AllHaveCandidates(rs: seq<SpeechResult>)
  {
    forall i :: 0 <= i < |rs| ==> HasCandidate(rs[i])
  }

  /** What one result adds to the text: its best candidate, and one space after it when the
      result is final. */
  function Piece(r: SpeechResult): string
    requires HasCandidate(r)
  {
    r.alternatives[0].transcript + (if r.isFinal then " " else "")
  }

  /** The pieces of `rs`, in order. */
  function Joined(rs: seq<SpeechResult>): string
    requires AllHaveCandidates(rs)
  {
    if rs == [] then "" else Piece(rs[0]) + Joined(rs[1..])
  }

  /** Joining distributes over concatenation of result lists. */
  lemma {:induction false} JoinedAppend(a: seq<SpeechResult>, b: seq<SpeechResult>)
    requires AllHaveCandidates(a) && AllHaveCandidates(b)
    ensures AllHaveCandidates(a + b)
    ensures Joined(a + b) == Joined(a) + Joined(b)
  {
    if a == [] {
      assert a + b == b;
    } else {
      assert (a + b)[1..] == a[1..] + b;
      JoinedAppend(a[1..], b);
    }
  }

  /** A single result contributes its piece and nothing else. */
  lemma JoinedOne(r: SpeechResult)
    requires HasCandidate(r)
    ensures Joined([r]) == Piece(r)
  {
    assert [r][1..] == [];
  }

  /** The joined text of `rs` is that of the results before `k`, then the piece of
      result `k`, then that of the results after it. */
  lemma JoinedSplit(rs: seq<SpeechResult>, k: nat)
    requires AllHaveCandidates(rs) && k < |rs|
    ensures Joined(rs) == Joined(rs[..k]) + Piece(rs[k]) + Joined(rs[k + 1..])
  {
    var before, rest := rs[..k], rs[k..];
    assert rs == before + rest;
    assert AllHaveCandidates(before) && AllHaveCandidates(rest);
    assert rest[0] == rs[k] && rest[1..] == rs[k + 1..];
    JoinedAppend(before, rest);
  }

  /** Each result's piece sits in the joined text right after the pieces of the results
      before it, so its best candidate occurs in the text: nothing is dropped or
      reordered. */
  lemma JoinedPlacesEachPiece(rs: seq<SpeechResult>, k: nat)
    requires AllHaveCandidates(rs) && k < |rs|
    ensures OccursAt(Joined(rs), Piece(rs[k]), |Joined(rs[..k])|)
    ensures Contains(Joined(rs), rs[k].alternatives[0].transcript)
  {
    JoinedSplit(rs, k);
    var w := rs[k].alternatives[0].transcript;
    OccursInMiddle(Joined(rs[..k]), Piece(rs[k]), Joined(rs[k + 1..]), Piece(rs[k]));
    OccursInMiddle(Joined(rs[..k]), Piece(rs[k]), Joined(rs[k + 1..]), w);
  }

  /** `onresult`: the new transcript is the trimmed text of the results from
      `resultIndex` on; earlier results do not contribute, and an index at or past the end
      gives the empty transcript. */
  method ReduceTranscript(results: seq<SpeechResult>, resultIndex: nat) returns (transcript: string)
    requires forall i :: resultIndex <= i < |results| ==> HasCandidate(results[i])
    ensures resultIndex >= |results| ==> transcript == ""
    ensures resultIndex < |results| ==> transcript == Trim(Joined(results[resultIndex..]))
  {
    if resultIndex >= |results| {
      return "";
    }
    var text := "";
    var i := resultIndex;
    while i < |results|
      invariant resultIndex <= i <= |results|
      invariant text == Joined(results[resultIndex..i])
    {
      var res := results[i];
      var candidate := res.alternatives[0].transcript;
      if res.isFinal {
        text := text + candidate + " ";
      } else {
        text := text + candidate;
      }
      JoinedAppend(results[resultIndex..i], [res]);
      assert results[resultIndex..i + 1] == results[resultIndex..i] + [res];
      i := i + 1;
    }
    assert results[resultIndex..i] == results[resultIndex..];
    transcript := Trim(text);
  }

  // ---------------------------------------------------------------------------
  // onerror

  const PermissionDeniedMessage := "Microphone permission was denied. Please allow mic access in your browser settings and reload."
  const NoSpeechMessage := "No speech detected. Try speaking closer to the mic."
  const NoMicrophoneMessage := "No microphone found. Plug in a mic or check device settings."
  const UnknownErrorMessage := "Unknown error"

  /** The codes `onerror` reads as a refused microphone. */
  predicate RevokesPermission(code: Option<string>)
  {
    code == Some("not-allowed") || code == Some("service-not-allowed")
  }

  /** The codes `onerror` translates into a message of its own. */
  predicate IsKnownCode(code: string)
  {
    code in {"not-allowed", "service-not-allowed", "no-speech", "audio-capture"}
  }

  /** The message `onerror` shows for the event's `error` field; a missing or empty code
      reads as "Unknown error" and any other unknown code is shown as it is. */
  function ErrorMessage(code: Option<string>): (msg: string)
    ensures msg != ""
    ensures RevokesPermission(code) ==> msg == PermissionDeniedMessage
    ensures code == Some("no-speech") ==> msg == NoSpeechMessage
    ensures code == Some("audio-capture") ==> msg == NoMicrophoneMessage
    ensures code == None || code == Some("") ==> msg == UnknownErrorMessage
    ensures code.Some? && code.value != "" && !IsKnownCode(code.value) ==> msg == code.value
  {
    var raw := if code.None? || code.value == "" then UnknownErrorMessage else code.value;
    if raw == "not-allowed" || raw == "service-not-allowed" then PermissionDeniedMessage
    else if raw == "no-speech" then NoSpeechMessage
    else if raw == "audio-capture" then NoMicrophoneMessage
    else raw
  }
}
