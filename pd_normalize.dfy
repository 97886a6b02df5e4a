/** The stroke and syllable normalisation of process-dictionary.ts:
    `denumeralizeStroke` (number-bar digits to keys), `capitalize`, and the
    letter case mapping that `capitalize` and `reverseLookup` rely on. */
module ProcessDictionaryNormalize {
  import opened StenoUtil

  /* ---------------- denumeralizeStroke ---------------- */

  /** `/\d/` without the `u` flag matches the ASCII digits only. */
  predicate IsDigit(c: char) {
    '0' <= c <= '9'
  }

  predicate HasDigit(s: string) {
    exists i :: 0 <= i < |s| && IsDigit(s[i])
  }

  /** `digitToKey`: the key a number-bar digit stands for. Every value is a
      single key letter, so the model maps characters to characters. */
  function DigitKey(c: char): (k: char)
    requires IsDigit(c)
    ensures !IsDigit(k)
  {
    match c
    case '1' => 'S'
    case '2' => 'T'
    case '3' => 'P'
    case '4' => 'H'
    case '5' => 'A'
    case '0' => 'O'
    case '6' => 'F'
    case '7' => 'P'
    case '8' => 'L'
    case _ => 'T'
  }

  /** `digitToKey[char] ?? char`. */
  function KeyChar(c: char): (k: char)
    ensures !IsDigit(k)
    ensures !IsDigit(c) ==> k == c
  {
    if IsDigit(c) then DigitKey(c) else c
  }

  /** Every character passed through `KeyChar`, in order. */
  function KeyChars(s: string): (r: string)
    ensures |r| == |s|
    ensures forall i :: 0 <= i < |s| ==> r[i] == KeyChar(s[i])
  {
    if s == [] then [] else KeyChars(s[..|s| - 1]) + [KeyChar(s[|s| - 1])]
  }

  /** What `denumeralizeStroke` returns: a stroke that starts with "#" or has
      no digit is kept; any other gets a leading "#" and its digits turned
      into keys. */
  function Denumeralized(stroke: string): string {
    if StartsWith(stroke, '#') || !HasDigit(stroke) then stroke
    else "#" + KeyChars(stroke)
  }

  /** `denumeralizeStroke`: a first loop looks for a digit, a second builds
      the "#" stroke character by character. */
  method DenumeralizeStroke(stroke: string) returns (r: string)
    ensures r == Denumeralized(stroke)
  {
    if StartsWith(stroke, '#') {
      return stroke;
    }
    var hasDigit := false;
    var i := 0;
    while i < |stroke|
      invariant 0 <= i <= |stroke|
      invariant !hasDigit ==> forall j :: 0 <= j < i ==> !IsDigit(stroke[j])
      invariant hasDigit ==> HasDigit(stroke)
    {
      if IsDigit(stroke[i]) {
        hasDigit := true;
        break;
      }
      i := i + 1;
    }
    if !hasDigit {
      return stroke;
    }
    var plover := "#";
    i := 0;
    while i < |stroke|
      invariant 0 <= i <= |stroke|
      invariant plover == "#" + KeyChars(stroke[..i])
    {
      assert stroke[..i + 1][..i] == stroke[..i];
      plover := plover + [KeyChar(stroke[i])];
      i := i + 1;
    }
    assert stroke[..|stroke|] == stroke;
    r := plover;
  }

  /** A stroke that does not start with "#" comes out of `denumeralizeStroke`
      with no digit left. */
  lemma DenumeralizedHasNoDigit(stroke: string)
    requires !StartsWith(stroke, '#')
    ensures !HasDigit(Denumeralized(stroke))
  {
    if HasDigit(stroke) {
      var r := Denumeralized(stroke);
      forall i | 0 <= i < |r|
        ensures !IsDigit(r[i])
      {
        if i > 0 {
          assert r[i] == KeyChars(stroke)[i - 1];
        }
      }
    }
  }

  /** The result either is the stroke itself or has a "#" put in front of
      it; in the second case every non-digit character is kept in place and
      every digit is replaced by its key. */
  lemma DenumeralizedShape(stroke: string)
    ensures var r := Denumeralized(stroke);
      || (r == stroke && (StartsWith(stroke, '#') || !HasDigit(stroke)))
      || (&& !StartsWith(stroke, '#') && HasDigit(stroke)
          && |r| == |stroke| + 1 && r[0] == '#'
          && forall i :: 0 <= i < |stroke| ==>
               r[i + 1] == (if IsDigit(stroke[i]) then DigitKey(stroke[i]) else stroke[i]))
  {
    if !StartsWith(stroke, '#') && HasDigit(stroke) {
      var r := Denumeralized(stroke);
      forall i | 0 <= i < |stroke|
        ensures r[i + 1] == KeyChar(stroke[i])
      {
        assert r[i + 1] == KeyChars(stroke)[i];
      }
    }
  }

  /** Denumeralising twice is denumeralising once. */
  lemma DenumeralizeIdempotent(stroke: string)
    ensures Denumeralized(Denumeralized(stroke)) == Denumeralized(stroke)
  {
    if !StartsWith(stroke, '#') && HasDigit(stroke) {
      assert ("#" + KeyChars(stroke))[0] == '#';
    }
  }

  /* ---------------- letter case ---------------- */

  /** The lower-case letters whose case mapping is modelled: ASCII, Latin-1
      (à to þ, without ÷), the paired letters of Latin Extended-A from ā to į
      and from ŋ to ŷ (ă, đ, ĩ, ũ among them), ơ and ư, and the Vietnamese
      letters of Latin Extended Additional (ạ to ỹ). */
  predicate IsLowerLetter(c: char) {
    || ('a' <= c <= 'z')
    || ('à' <= c <= 'þ' && c != '÷')
    || ('Ā' <= c <= 'į' && c as int % 2 == 1)
    || ('Ŋ' <= c <= 'ŷ' && c as int % 2 == 1)
    || c == 'ơ' || c == 'ư'
    || ('Ạ' <= c <= 'ỹ' && c as int % 2 == 1)
  }

  /** Their upper-case partners. */
  predicate IsUpperLetter(c: char) {
    || ('A' <= c <= 'Z')
    || ('À' <= c <= 'Þ' && c != '×')
    || ('Ā' <= c <= 'į' && c as int % 2 == 0)
    || ('Ŋ' <= c <= 'ŷ' && c as int % 2 == 0)
    || c == 'Ơ' || c == 'Ư'
    || ('Ạ' <= c <= 'ỹ' && c as int % 2 == 0)
  }

  /** `toUpperCase` on one modelled letter; other characters are kept. */
  function UpperChar(c: char): (u: char)
    ensures IsLowerLetter(c) ==> IsUpperLetter(u)
    ensures !IsLowerLetter(c) ==> u == c
  {
    if 'a' <= c <= 'z' || ('à' <= c <= 'þ' && c != '÷') then (c as int - 32) as char
    else if c == 'ư' then 'Ư'
    else if IsLowerLetter(c) then (c as int - 1) as char
    else c
  }

  /** `toLowerCase` on one modelled letter; other characters are kept. */
  function LowerChar(c: char): (l: char)
    ensures IsUpperLetter(c) ==> IsLowerLetter(l)
    ensures !IsUpperLetter(c) ==> l == c
  {
    if 'A' <= c <= 'Z' || ('À' <= c <= 'Þ' && c != '×') then (c as int + 32) as char
    else if c == 'Ư' then 'ư'
    else if IsUpperLetter(c) then (c as int + 1) as char
    else c
  }

  /** The two mappings are inverse bijections between the modelled lower-
      and upper-case letters. */
  lemma CaseRoundTrip(c: char)
    ensures IsLowerLetter(c) ==> LowerChar(UpperChar(c)) == c
    ensures IsUpperLetter(c) ==> UpperChar(LowerChar(c)) == c
    ensures !(IsLowerLetter(c) && IsUpperLetter(c))
  {
  }

  /** `String.prototype.toLowerCase`, character by character. */
  function ToLower(s: string): (r: string)
    ensures |r| == |s|
    ensures forall i :: 0 <= i < |s| ==> r[i] == LowerChar(s[i])
  {
    seq(|s|, i requires 0 <= i < |s| => LowerChar(s[i]))
  }

  predicate HasNoUpper(s: string) {
    forall i :: 0 <= i < |s| ==> !IsUpperLetter(s[i])
  }

  /** `capitalize`: the first character upper-cased, the rest kept. */
  function Capitalize(s: string): (r: string)
    ensures |r| == |s|
    ensures |s| > 0 ==> r[0] == UpperChar(s[0]) && r[1..] == s[1..]
  {
    if s == "" then "" else [UpperChar(s[0])] + s[1..]
  }

  /** Lower-casing is idempotent, and lower-casing a capitalised string that
      had no upper-case letter gives the string back. */
  lemma LowerOfCapitalized(s: string)
    requires HasNoUpper(s)
    ensures ToLower(Capitalize(s)) == s
    ensures ToLower(ToLower(s)) == ToLower(s)
  {
    var c := Capitalize(s);
    forall i | 0 <= i < |s|
      ensures ToLower(c)[i] == s[i]
    {
      CaseRoundTrip(s[i]);
      if i > 0 {
        assert c[i] == c[1..][i - 1] == s[i];
      }
    }
  }
}
