/** The three string operations of JavaScript the console relies on:
    `String.prototype.includes`, `toLowerCase` and `trim`. */
module Text {

  /** `sub` occurs in `s` starting at position `i`. */
  predicate OccursAt(s: string, sub: string, i: nat)
  {
    i + |sub| <= |s| && s[i..i + |sub|] == sub
  }

  /** `s.includes(sub)`: `sub` is a prefix of `s` or occurs in its tail. */
  predicate Contains(s: string, sub: string)
  {
    (|sub| <= |s| && s[..|sub|] == sub) || (|s| > 0 && Contains(s[1..], sub))
  }

  /** `Contains` agrees with the positional reading of `includes`: some position
      of `s` starts an occurrence of `sub`. */
  lemma {:induction false} ContainsIff(s: string, sub: string)
    ensures Contains(s, sub) <==> exists i: nat :: OccursAt(s, sub, i)
  {
    if |sub| <= |s| && s[..|sub|] == sub {
      assert OccursAt(s, sub, 0);
    } else if |s| == 0 {
      assert forall i: nat :: !OccursAt(s, sub, i);
    } else {
      ContainsIff(s[1..], sub);
      if Contains(s[1..], sub) {
        var i: nat :| OccursAt(s[1..], sub, i);
        assert s[1..][i..i + |sub|] == s[i + 1..i + 1 + |sub|];
        assert OccursAt(s, sub, i + 1);
      }
      if i: nat :| OccursAt(s, sub, i) {
        if i != 0 {
          assert s[1..][i - 1..i - 1 + |sub|] == s[i..i + |sub|];
          assert OccursAt(s[1..], sub, i - 1);
        }
      }
    }
  }

  /** A prefix of the middle part of `a + m + c` occurs right after `a`. */
  lemma OccursInMiddle(a: string, m: string, c: string, w: string)
    requires w <= m
    ensures OccursAt(a + m + c, w, |a|)
    ensures Contains(a + m + c, w)
  {
    var s := a + m + c;
    assert s[|a|..|a| + |w|] == m[..|w|];
    assert OccursAt(s, w, |a|);
    ContainsIff(s, w);
  }

  /** Every character of an occurring substring occurs in the string. */
  lemma ContainsChars(s: string, sub: string, c: char)
    requires Contains(s, sub) && c in sub
    ensures c in s
  {
    ContainsIff(s, sub);
    var i: nat :| OccursAt(s, sub, i);
    var k :| 0 <= k < |sub| && sub[k] == c;
    assert s[i + k] == s[i..i + |sub|][k];
  }

  /** A substring with a character the string lacks does not occur in it. */
  lemma MissingChar(s: string, sub: string, c: char)
    requires c in sub && c !in s
    ensures !Contains(s, sub)
  {
    if Contains(s, sub) {
      ContainsChars(s, sub, c);
    }
  }

  /** `toLowerCase` on one character; only the ASCII letters A-Z are mapped. */
  function LowerChar(c: char): char
  {
    if 'A' <= c <= 'Z' then (c as int + 32) as char else c
  }

  /** `s.toLowerCase()`, character by character: each capital becomes its small letter,
      every other character is kept, and no capital is left. */
  function Lower(s: string): (r: string)
    ensures |r| == |s|
    ensures forall i :: 0 <= i < |s| ==> !('A' <= r[i] <= 'Z')
    ensures forall i :: 0 <= i < |s| && !('A' <= s[i] <= 'Z') ==> r[i] == s[i]
    ensures forall i :: 0 <= i < |s| && 'A' <= s[i] <= 'Z' ==>
      'a' <= r[i] <= 'z' && r[i] as int - 'a' as int == s[i] as int - 'A' as int
  {
    seq(|s|, i requires 0 <= i < |s| => LowerChar(s[i]))
  }

  /** A string without capitals is its own lower-case form. */
  lemma LowerWithoutCapitals(s: string)
    requires forall i :: 0 <= i < |s| ==> !('A' <= s[i] <= 'Z')
    ensures Lower(s) == s
  {
  }

  /** Lower-casing is idempotent. */
  lemma LowerIdempotent(s: string)
    ensures Lower(Lower(s)) == Lower(s)
  {
  }

  /** The characters `trim` removes: ECMAScript WhiteSpace and LineTerminator. */
  predicate IsSpace(c: char)
  {
    c == '\t' || c == '\n' || c == '\U{000B}' || c == '\U{000C}' || c == '\r' || c == ' '
    || c == '\U{00A0}' || c == '\U{1680}' || '\U{2000}' <= c <= '\U{200A}'
    || c == '\U{2028}' || c == '\U{2029}' || c == '\U{202F}' || c == '\U{205F}'
    || c == '\U{3000}' || c == '\U{FEFF}'
  }

  /** Every character of `s` in positions `lo` to `hi - 1` is a space. */
  predicate SpacesIn(s: string, lo: nat, hi: nat)
    requires hi <= |s|
  {
    forall i :: lo <= i < hi ==> IsSpace(s[i])
  }

  predicate AllSpace(s: string)
  {
    SpacesIn(s, 0, |s|)
  }

  /** Where `trim` starts keeping text: the first non-space position at or after `i`,
      or the end of `s`. */
  function KeepFrom(s: string, i: nat): (b: nat)
    requires i <= |s|
    ensures i <= b <= |s| && SpacesIn(s, i, b)
    ensures b == |s| || !IsSpace(s[b])
    decreases |s| - i
  {
    if i < |s| && IsSpace(s[i]) then KeepFrom(s, i + 1) else i
  }

  /** Where `trim` stops keeping text: scanning back from `j`, the position after the last
      non-space character at or after `lo`, or `lo` itself. */
  function KeepTo(s: string, lo: nat, j: nat): (e: nat)
    requires lo <= j <= |s|
    ensures lo <= e <= j && SpacesIn(s, e, j)
    ensures e == lo || !IsSpace(s[e - 1])
    decreases j
  {
    if j > lo && IsSpace(s[j - 1]) then KeepTo(s, lo, j - 1) else j
  }

  /** `s.trim()`: the text between the leading and the trailing run of spaces. */
  function Trim(s: string): string
  {
    var b := KeepFrom(s, 0);
    s[b..KeepTo(s, b, |s|)]
  }

  /** `trim` cuts only spaces, and what it keeps has no space at either end. */
  lemma TrimSpec(s: string)
    ensures var b := KeepFrom(s, 0); var e := KeepTo(s, b, |s|);
      Trim(s) == s[b..e] && SpacesIn(s, 0, b) && SpacesIn(s, e, |s|)
    ensures Trim(s) == [] || (!IsSpace(Trim(s)[0]) && !IsSpace(Trim(s)[|Trim(s)| - 1]))
  {
    var b := KeepFrom(s, 0);
    var e := KeepTo(s, b, |s|);
    if b < e {
      assert Trim(s)[0] == s[b];
      assert Trim(s)[|Trim(s)| - 1] == s[e - 1];
    }
  }

  /** Trimming leaves the empty string exactly when `s` is nothing but spaces. */
  lemma TrimEmptyIff(s: string)
    ensures Trim(s) == [] <==> AllSpace(s)
  {
    var b := KeepFrom(s, 0);
    var e := KeepTo(s, b, |s|);
    if Trim(s) == [] {
      assert e == b;
    }
  }

  /** Trimming is idempotent. */
  lemma TrimIdempotent(s: string)
    ensures Trim(Trim(s)) == Trim(s)
  {
    TrimSpec(s);
    var r := Trim(s);
    if r != [] {
      assert KeepFrom(r, 0) == 0;
      assert KeepTo(r, 0, |r|) == |r|;
    }
  }

  /** A final result's trailing space is trimmed away: a text with no space at either end
      comes back unchanged. */
  lemma TrimFinalPiece(w: string)
    requires w != [] && !IsSpace(w[0]) && !IsSpace(w[|w| - 1])
    ensures Trim(w + " ") == w
  {
    var s := w + " ";
    assert KeepFrom(s, 0) == 0;
    assert KeepTo(s, 0, |s| - 1) == |w|;
    assert KeepTo(s, 0, |s|) == |w|;
    assert s[..|w|] == w;
  }
}
