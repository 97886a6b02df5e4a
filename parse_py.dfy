/** The codec of parse.py: a tokenizer that tries fixed prefix lengths,
    counting down, and never fails; an assembler with no post-processing
    that raises KeyError where the tone-mark table has no row; and the
    dictionary `lookup` built on them. */
module ParsePy {
  import opened StenoUtil
  import opened StenoTables

  /* ---------------- parse ---------------- */

  /** What one group of `parse` took: its key ("" when none matched), the
      key's value ("" when none) and the rest of the stroke. */
  datatype Cut = Cut(key: string, value: string, rest: string)

  /** One `for length in range(n, 0, -1)` loop: the first prefix length,
      counting down from `n`, whose prefix is a key. */
  function CutByLength(t: Table<string>, s: string, n: nat): (c: Cut)
    requires |t.keys| == |t.values| && "" !in t.keys
    ensures c.key + c.rest == s
    ensures c.key == "" || (c.key in t.keys && |c.key| <= n)
    ensures c.value == if c.key == "" then "" else GetOr(t, c.key, "")
    ensures c.key == "" <==> forall m :: 1 <= m <= n ==> Take(s, m) !in t.keys
  {
    var len := MatchLength(t.keys, s, n);
    if len == 0 then Cut("", "", s)
    else Cut(Take(s, len), GetOr(t, Take(s, len), ""), Drop(s, len))
  }

  /** The initial loop: prefixes of length 3, 2, 1. */
  function InitialCut(stroke: string): Cut {
    TableFields();
    NoEmptyEntries();
    CutByLength(Initials, AfterGlide(stroke), 3)
  }

  /** The vowel loop: prefixes of length 4, 3, 2, 1. */
  function VowelCut(stroke: string): Cut {
    TableFields();
    NoEmptyEntries();
    CutByLength(Vowels, InitialCut(stroke).rest, 4)
  }

  /** The final loop: prefixes of length 2, 1. */
  function FinalCut(stroke: string): Cut {
    TableFields();
    NoEmptyEntries();
    CutByLength(Finals, VowelCut(stroke).rest, 2)
  }

  /** What follows the final: a tone key, or characters that parse drops. */
  function Leftover(stroke: string): string {
    FinalCut(stroke).rest
  }

  /** `parse`. It always returns a record. */
  function Parse(stroke: string): Parsed {
    TableFields();
    var rest := Leftover(stroke);
    Parsed(StartsWith(stroke, 'S'), InitialCut(stroke).value, VowelCut(stroke).value,
           FinalCut(stroke).value, if rest in Tones.keys then GetOr(Tones, rest, "") else "")
  }

  /** The three loops and the tone test of the Python and TypeScript
      tokenizers, over any tables: the initial loop tries lengths 3 to 1, the
      vowel loop `vowelLen` to 1, the final loop 2 to 1. */
  function ParseWith(initials: Table<string>, vowels: Table<string>, vowelLen: nat,
                     finals: Table<string>, tones: Table<string>, stroke: string): Parsed
    requires |initials.keys| == |initials.values| && "" !in initials.keys
    requires |vowels.keys| == |vowels.values| && "" !in vowels.keys
    requires |finals.keys| == |finals.values| && "" !in finals.keys
    requires |tones.keys| == |tones.values|
  {
    var i := CutByLength(initials, AfterGlide(stroke), 3);
    var v := CutByLength(vowels, i.rest, vowelLen);
    var f := CutByLength(finals, v.rest, 2);
    Parsed(StartsWith(stroke, 'S'), i.value, v.value, f.value,
           if f.rest in tones.keys then GetOr(tones, f.rest, "") else "")
  }

  /** `parse` as the source writes it: three counting-down loops that rebind
      the stroke, then the tone test on what is left, which also empties it. */
  method ParseStrokeWith(initials: Table<string>, vowels: Table<string>, vowelLen: nat,
                         finals: Table<string>, tones: Table<string>, stroke: string) returns (r: Parsed)
    requires |initials.keys| == |initials.values| && "" !in initials.keys
    requires |vowels.keys| == |vowels.values| && "" !in vowels.keys
    requires |finals.keys| == |finals.values| && "" !in finals.keys
    requires |tones.keys| == |tones.values|
    ensures r == ParseWith(initials, vowels, vowelLen, finals, tones, stroke)
  {
    var s := stroke;
    var onGlide := StartsWith(s, 'S');
    if onGlide {
      s := s[1..];
    }
    var initialConsonant, vowel, finalConsonant;
    initialConsonant, s := MatchByLength(initials, s, 3);
    vowel, s := MatchByLength(vowels, s, vowelLen);
    finalConsonant, s := MatchByLength(finals, s, 2);
    var tone := "";
    if s in tones.keys {
      tone := GetOr(tones, s, "");
      s := "";
    }
    r := Parsed(onGlide, initialConsonant, vowel, finalConsonant, tone);
  }

  /** This file's `parse` is the loops over its own tables. */
  lemma ParseIsParseWith(stroke: string)
    ensures TablesValid()
    ensures Parse(stroke) == ParseWith(Initials, Vowels, 4, Finals, Tones, stroke)
  {
    TableFields();
    NoEmptyEntries();
  }

  method ParseStroke(stroke: string) returns (r: Parsed)
    ensures r == Parse(stroke)
  {
    ParseIsParseWith(stroke);
    r := ParseStrokeWith(Initials, Vowels, 4, Finals, Tones, stroke);
  }

  /** Four cuts in a row, put back together. */
  lemma Rejoin(s: string, g: string, r0: string, a: string, r1: string, b: string, r2: string, c: string, r3: string)
    requires g + r0 == s && a + r1 == r0 && b + r2 == r1 && c + r3 == r2
    ensures g + a + b + c + r3 == s
  {
  }

  /** The glide flag is the leading "S", and the glide, the three keys read
      and the leftover spell the stroke: nothing is skipped, and whatever is
      left over is not part of the record. */
  lemma ParseSpellsStroke(stroke: string)
    ensures Parse(stroke).onGlide == StartsWith(stroke, 'S')
    ensures (if StartsWith(stroke, 'S') then "S" else "")
      + InitialCut(stroke).key + VowelCut(stroke).key + FinalCut(stroke).key + Leftover(stroke) == stroke
  {
    var i, v, f := InitialCut(stroke), VowelCut(stroke), FinalCut(stroke);
    var g := if StartsWith(stroke, 'S') then "S" else "";
    Rejoin(stroke, g, AfterGlide(stroke), i.key, i.rest, v.key, v.rest, f.key, f.rest);
  }

  /** The tone is set exactly when the leftover is a whole tone key, and is
      then that key's tone. */
  lemma ParseTone(stroke: string)
    ensures Parse(stroke).tone != "" <==> Leftover(stroke) in ToneKeys
    ensures Parse(stroke).tone != "" ==> Parse(stroke).tone in ToneValues
    ensures Leftover(stroke) in ToneKeys ==> Parse(stroke).tone == GetOr(Tones, Leftover(stroke), "")
  {
    TableFields();
    var rest := Leftover(stroke);
    if rest in ToneKeys {
      assert GetOr(Tones, rest, "") in ToneValues;
      ToneValuesNamed();
      NoEmptyToneValue();
    }
  }

  /** The vowel is "" exactly when no prefix of length 4 to 1 of what follows
      the initial is a vowel key; otherwise it is a value of the vowel table. */
  lemma ParseVowel(stroke: string)
    ensures Parse(stroke).vowel == "" <==>
      forall m :: 1 <= m <= 4 ==> Take(InitialCut(stroke).rest, m) !in VowelKeys
    ensures Parse(stroke).vowel == "" || Parse(stroke).vowel in VowelValues
  {
    TableFields();
    NoEmptyEntries();
    var v := VowelCut(stroke);
    if v.key != "" {
      assert v.value in VowelValues;
    }
  }

  /** Only the four-key entry "TKPW" has the value "g", and no key the other
      groups read is that long. */
  lemma GAtTKPW()
    ensures forall i :: 0 <= i < |InitialKeys| && InitialValues[i] == "g" ==> InitialKeys[i] == "TKPW"
    ensures |InitialKeys| == |InitialValues| && |"TKPW"| == 4
  {
  }

  /** The initial loop tries no prefix longer than three keys, so the entry
      "TKPW" is never read and an initial "g" is never produced. */
  lemma NeverTKPW(stroke: string)
    ensures InitialCut(stroke).key != "TKPW"
    ensures Parse(stroke).initialConsonant != "g"
  {
    TableFields();
    GAtTKPW();
    var i := InitialCut(stroke);
    if i.key != "" {
      var j := IndexOf(InitialKeys, i.key);
      assert i.value == InitialValues[j];
    }
  }

  /* ---- every table stroke but those with "TKPW" is read back into its keys ---- */

  /** The keys come from the tables, the final key from `finals`; only the
      vowel is mandatory. */
  predicate KeysFrom(t: Tokens, finals: seq<string>) {
    && (t.initialKey == "" || t.initialKey in InitialKeys)
    && t.vowelKey in VowelKeys
    && (t.finalKey == "" || t.finalKey in finals)
    && (t.toneKey == "" || t.toneKey in ToneKeys)
  }

  /** Keys of this file's tables. */
  predicate TableKeys(t: Tokens) {
    KeysFrom(t, FinalKeys)
  }

  /** The final keys of this file are among those with "RG". */
  lemma WidenedKeys(t: Tokens)
    requires TableKeys(t)
    ensures KeysFrom(t, FinalKeysWithRG)
  {
  }

  /** The record whose fields are the keys' values. */
  function FromKeys(t: Tokens): Parsed {
    TableFields();
    Parsed(t.glide, GetOr(Initials, t.initialKey, ""), GetOr(Vowels, t.vowelKey, ""),
           GetOr(Finals, t.finalKey, ""), GetOr(Tones, t.toneKey, ""))
  }

  lemma InitialKeyLengths()
    ensures forall i :: 0 <= i < |InitialKeys| && i != 6 ==> |InitialKeys[i]| <= 3
    ensures InitialKeys[6] == "TKPW"
  {
  }

  lemma VowelKeyLengths()
    ensures forall i :: 0 <= i < |VowelKeys| ==> |VowelKeys[i]| <= 4
  {
  }

  lemma FinalKeyLengths()
    ensures forall i :: 0 <= i < |FinalKeys| ==> |FinalKeys[i]| <= 2
  {
  }

  /** A key followed by a letter no key uses is cut off whole. */
  lemma CutOfJoin(t: Table<string>, letters: set<char>, k: string, rest: string, n: nat)
    requires |t.keys| == |t.values| && KeysOver(t.keys, letters)
    requires k == "" || (k in t.keys && |k| <= n)
    requires rest == "" || rest[0] !in letters
    ensures CutByLength(t, k + rest, n) == Cut(k, if k == "" then "" else GetOr(t, k, ""), rest)
  {
    MatchOfJoin(t.keys, letters, k, rest, n);
  }

  /** Each loop of `parse` reads back the key that spelled its group: the
      letters of the groups do not overlap, and every key but "TKPW" fits
      the lengths the loops try. */
  lemma ParseOfKeys(t: Tokens)
    requires TableKeys(t) && t.initialKey != "TKPW"
    ensures Parse(Untokenize(t)) == FromKeys(t)
  {
    WidenedKeys(t);
    InitialOfKeys(t);
    VowelOfKeys(t);
    FinalOfKeys(t);
  }

  /** The tables' shapes and letters, stated on the tables themselves. */
  lemma TablesOver()
    ensures |Initials.keys| == |Initials.values| && KeysOver(Initials.keys, InitialLetters)
    ensures |Vowels.keys| == |Vowels.values| && KeysOver(Vowels.keys, VowelLetters)
    ensures |Finals.keys| == |Finals.values| && KeysOver(Finals.keys, FinalLetters)
    ensures KeysOver(ToneKeys, ToneLetters)
  {
    TableFields();
    TableLetters();
  }

  lemma InitialOfKeys(t: Tokens)
    requires KeysFrom(t, FinalKeysWithRG) && t.initialKey != "TKPW"
    ensures InitialCut(Untokenize(t))
      == Cut(t.initialKey, GetOr(Initials, t.initialKey, ""), t.vowelKey + (t.finalKey + t.toneKey))
  {
    TablesOver();
    var rest1 := t.vowelKey + (t.finalKey + t.toneKey);
    var stroke := Untokenize(t);
    AfterGlideOfKeys(t);
    InitialFits(t.initialKey);
    VowelKeyOver(t.vowelKey);
    assert rest1[0] == t.vowelKey[0];
    assert t.initialKey == "" || t.initialKey in Initials.keys by { TableFields(); }
    CutOfJoin(Initials, InitialLetters, t.initialKey, rest1, 3);
  }

  lemma VowelOfKeys(t: Tokens)
    requires KeysFrom(t, FinalKeysWithRG) && t.initialKey != "TKPW"
    ensures VowelCut(Untokenize(t)) == Cut(t.vowelKey, GetOr(Vowels, t.vowelKey, ""), t.finalKey + t.toneKey)
  {
    InitialOfKeys(t);
    TablesOver();
    var rest2 := t.finalKey + t.toneKey;
    VowelFits(t.vowelKey);
    FinalKeyOver(t.finalKey);
    ToneKeyOver(t.toneKey);
    assert rest2 == "" || rest2[0] in FinalLetters + ToneLetters by {
      if t.finalKey != "" { assert rest2[0] == t.finalKey[0]; }
      else if t.toneKey != "" { assert rest2[0] == t.toneKey[0]; }
    }
    assert t.vowelKey in Vowels.keys by { TableFields(); }
    CutOfJoin(Vowels, VowelLetters, t.vowelKey, rest2, 4);
  }

  lemma FinalOfKeys(t: Tokens)
    requires TableKeys(t) && t.initialKey != "TKPW"
    ensures FinalCut(Untokenize(t)) == Cut(t.finalKey, GetOr(Finals, t.finalKey, ""), t.toneKey)
  {
    WidenedKeys(t);
    VowelOfKeys(t);
    TablesOver();
    FinalFits(t.finalKey);
    ToneKeyOver(t.toneKey);
    assert t.finalKey == "" || t.finalKey in Finals.keys by { TableFields(); }
    CutOfJoin(Finals, FinalLetters, t.finalKey, t.toneKey, 2);
  }

  /** Without its glide, a table stroke starts with its initial key. */
  lemma AfterGlideOfKeys(t: Tokens)
    requires KeysFrom(t, FinalKeysWithRG)
    ensures AfterGlide(Untokenize(t)) == t.initialKey + (t.vowelKey + (t.finalKey + t.toneKey))
  {
    var s0 := t.initialKey + (t.vowelKey + (t.finalKey + t.toneKey));
    var stroke := Untokenize(t);
    if t.glide {
      assert stroke == "S" + s0;
      assert stroke[1..] == s0;
    } else {
      VowelKeyOver(t.vowelKey);
      InitialKeyOver(t.initialKey);
      assert s0[0] != 'S' by {
        if t.initialKey != "" { assert s0[0] == t.initialKey[0]; }
        else { assert s0[0] == t.vowelKey[0]; }
      }
      assert stroke == s0;
    }
  }

  lemma InitialKeyOver(k: string)
    requires k == "" || k in InitialKeys
    ensures k != "" ==> k[0] != 'S'
  {
    TableLetters();
  }

  lemma VowelKeyOver(k: string)
    requires k in VowelKeys
    ensures k != "" && k[0] in VowelLetters && k[0] !in InitialLetters && k[0] != 'S'
  {
    TableLetters();
  }

  lemma FinalKeyOver(k: string)
    requires k == "" || k in FinalKeysWithRG
    ensures k != "" ==> k[0] in FinalLetters && k[0] !in VowelLetters
  {
    TableLetters();
  }

  lemma ToneKeyOver(k: string)
    requires k == "" || k in ToneKeys
    ensures k != "" ==> k[0] in ToneLetters && k[0] !in VowelLetters && k[0] !in FinalLetters
  {
    TableLetters();
  }

  lemma InitialFits(k: string)
    requires (k == "" || k in InitialKeys) && k != "TKPW"
    ensures |k| <= 3
  {
    InitialKeyLengths();
    if k != "" {
      var i := IndexOf(InitialKeys, k);
    }
  }

  lemma VowelFits(k: string)
    requires k in VowelKeys
    ensures |k| <= 4
  {
    VowelKeyLengths();
    var i := IndexOf(VowelKeys, k);
  }

  lemma FinalFits(k: string)
    requires k == "" || k in FinalKeys
    ensures |k| <= 2
  {
    FinalKeyLengths();
    if k != "" {
      var i := IndexOf(FinalKeys, k);
    }
  }

  /* ---------------- assemble ---------------- */

  /** The vowels of `initial()` before which "c", "g" and "ng/ngh" keep their
      plain spelling: the diphthongs are not among them. */
  predicate BackVowel(v: string) {
    v in ["a", "ă", "â", "o", "ô", "ơ", "u", "ư"]
  }

  /** `initial()`. */
  function Initial(p: Parsed): (r: string)
    ensures r == "" <==> p.initialConsonant == ""
  {
    var f := BackVowel(p.vowel);
    if p.initialConsonant == "ng/ngh" then (if p.onGlide || f then "ng" else "ngh")
    else if p.initialConsonant == "g" then (if p.onGlide || f then "g" else "gh")
    else if p.initialConsonant == "gi" then (if !p.onGlide && p.vowel == "i" then "g" else "gi")
    else if p.initialConsonant == "c" then (if p.onGlide then "q" else if f then "c" else "k")
    else p.initialConsonant
  }

  /** `prefix + tone_accents[…][…]`, failing where the lookup fails. */
  function Before(prefix: string, accented: Option<string>): Option<string> {
    if accented.Some? then Some(prefix + accented.value) else None
  }

  /** `tone_accents[…][…] + suffix`, failing where the lookup fails. */
  function After(accented: Option<string>, suffix: string): Option<string> {
    if accented.Some? then Some(accented.value + suffix) else None
  }

  /** `middle()`; None where `tone_accents` raises KeyError. */
  function Middle(p: Parsed): Option<string> {
    var t := p.tone;
    var noFinal := p.finalConsonant == "";
    if p.vowel == "iê/ia" then
      if p.initialConsonant == "" then Before(if p.onGlide then "uy" else "y", Accent("ê", t))
      else if p.onGlide then
        if noFinal then Before("uy", Accent("a", t)) else Before("uy", Accent("ê", t))
      else if noFinal then After(Accent("i", t), "a")
      else Before("i", Accent("ê", t))
    else if p.vowel == "ua/uô" then
      if noFinal then After(Accent("u", t), "a") else Before("u", Accent("ô", t))
    else if p.vowel == "ưa/ươ" then
      if noFinal then After(Accent("ư", t), "a") else Before("ư", Accent("ơ", t))
    else if p.vowel == "i" then
      if p.onGlide then
        if noFinal then After(Accent("u", t), "y") else Before("u", Accent("y", t))
      else Accent("i", t)
    else if p.vowel == "ă" && p.finalConsonant in ["w", "j"] then
      Before(if p.onGlide then (if p.initialConsonant == "c" then "u" else "o") else "", Accent("a", t))
    else if p.initialConsonant == "c" && p.onGlide then Before("u", Accent(p.vowel, t))
    else if p.onGlide then
      if noFinal then After(Accent("o", t), p.vowel) else Before("o", Accent(p.vowel, t))
    else Accent(p.vowel, t)
  }

  /** The vowels of `final()` after which a "w" final is written "u". */
  predicate FrontForW(v: string) {
    v in ["iê/ia", "ư", "ê", "u", "ă", "â", "i"]
  }

  /** `final()`. */
  function Final(p: Parsed): (r: string)
    ensures r == "" <==> p.finalConsonant == ""
  {
    if p.finalConsonant == "w" then (if FrontForW(p.vowel) then "u" else "o")
    else if p.finalConsonant == "j" then (if p.vowel == "ă" || p.vowel == "â" then "y" else "i")
    else p.finalConsonant
  }

  /** `assemble`: `initial() + middle() + final()`, no post-processing; None
      where `middle()` raises KeyError. */
  function Assemble(p: Parsed): Option<string> {
    match Middle(p)
    case None => None
    case Some(m) => Some(Initial(p) + m + Final(p))
  }

  /** `lookup`: the first stroke only (an empty tuple raises IndexError,
      here None). */
  function Lookup(strokes: seq<string>): Option<string> {
    if |strokes| == 0 then None else Assemble(Parse(strokes[0]))
  }

  /** The spelling rules of `initial()`, each in both directions, for the
      initials a parse produces. Unlike process-dictionary.ts, "ua/uô" and
      "ưa/ươ" count as front vowels here. */
  lemma InitialRules(p: Parsed)
    requires p.initialConsonant == "" || p.initialConsonant in InitialValues
    ensures Initial(p) == "q" <==> p.initialConsonant == "c" && p.onGlide
    ensures Initial(p) == "k" <==> p.initialConsonant == "c" && !p.onGlide && !BackVowel(p.vowel)
    ensures Initial(p) == "ngh" <==> p.initialConsonant == "ng/ngh" && !p.onGlide && !BackVowel(p.vowel)
    ensures Initial(p) == "gh" <==> p.initialConsonant == "g" && !p.onGlide && !BackVowel(p.vowel)
    ensures Initial(p) == "g" <==>
      (p.initialConsonant == "g" && (p.onGlide || BackVowel(p.vowel)))
      || (p.initialConsonant == "gi" && !p.onGlide && p.vowel == "i")
    ensures Initial(p) == "c" <==> p.initialConsonant == "c" && !p.onGlide && BackVowel(p.vowel)
    ensures Initial(p) == "ng" <==> p.initialConsonant == "ng/ngh" && (p.onGlide || BackVowel(p.vowel))
    ensures Initial(p) == "gi" <==> p.initialConsonant == "gi" && (p.onGlide || p.vowel != "i")
    ensures p.initialConsonant !in ["c", "g", "gi", "ng/ngh"] ==> Initial(p) == p.initialConsonant
    ensures !BackVowel("ua/uô") && !BackVowel("ưa/ươ")
  {
  }

  /** The spelling rules of `final()`, each in both directions. */
  lemma FinalRules(p: Parsed)
    requires p.finalConsonant == "" || p.finalConsonant in FinalValues
    ensures Final(p) == "u" <==> p.finalConsonant == "w" && FrontForW(p.vowel)
    ensures Final(p) == "o" <==> p.finalConsonant == "w" && !FrontForW(p.vowel)
    ensures Final(p) == "y" <==> p.finalConsonant == "j" && (p.vowel == "ă" || p.vowel == "â")
    ensures Final(p) == "i" <==> p.finalConsonant == "j" && p.vowel != "ă" && p.vowel != "â"
    ensures p.finalConsonant !in ["w", "j"] ==> Final(p) == p.finalConsonant
  {
  }

  /** On a glide, the single vowels take the glide letter: "u" + the toned
      vowel after a "c"; otherwise the tone goes on "o" before the bare vowel
      when there is no final, and on the vowel after "o" when there is one. */
  lemma MiddleOnGlide(p: Parsed)
    requires p.onGlide && p.vowel in AccentBases && p.tone in ToneNames
    requires p.vowel != "i" && !(p.vowel == "ă" && p.finalConsonant in ["w", "j"])
    ensures Middle(p).Some?
    ensures p.initialConsonant == "c" ==> Middle(p).value == "u" + Accent(p.vowel, p.tone).value
    ensures p.initialConsonant != "c" && p.finalConsonant == "" ==>
      Middle(p).value == Accent("o", p.tone).value + p.vowel
    ensures p.initialConsonant != "c" && p.finalConsonant != "" ==>
      Middle(p).value == "o" + Accent(p.vowel, p.tone).value
  {
    BasesAreNotDiphthongs();
    LiteralBases();
    var m := SingleVowelMiddle(p);
    if p.initialConsonant == "c" {
      assert m == Before("u", Accent(p.vowel, p.tone));
    } else if p.finalConsonant == "" {
      assert m == After(Accent("o", p.tone), p.vowel);
    } else {
      assert m == Before("o", Accent(p.vowel, p.tone));
    }
  }

  /** Past the special vowels, `middle()` on a glide is one of its last
      three branches. */
  lemma SingleVowelMiddle(p: Parsed) returns (m: Option<string>)
    requires p.onGlide && p.vowel !in ["iê/ia", "ua/uô", "ưa/ươ", "i"]
    requires !(p.vowel == "ă" && p.finalConsonant in ["w", "j"])
    ensures m == Middle(p)
    ensures m == if p.initialConsonant == "c" then Before("u", Accent(p.vowel, p.tone))
                 else if p.finalConsonant == "" then After(Accent("o", p.tone), p.vowel)
                 else Before("o", Accent(p.vowel, p.tone))
  {
    m := Middle(p);
  }

  /** A glide before "i" gives the toned "u" and "y" with no final, and "u"
      and the toned "y" before one. */
  lemma MiddleGlideI(p: Parsed)
    requires p.onGlide && p.vowel == "i" && p.tone in ToneNames
    ensures Middle(p).Some?
    ensures p.finalConsonant == "" ==> Middle(p).value == Accent("u", p.tone).value + "y"
    ensures p.finalConsonant != "" ==> Middle(p).value == "u" + Accent("y", p.tone).value
  {
    LiteralBases();
  }

  lemma LiteralBases()
    ensures "a" in AccentBases && "ê" in AccentBases && "i" in AccentBases && "o" in AccentBases
    ensures "ô" in AccentBases && "u" in AccentBases && "ư" in AccentBases && "ơ" in AccentBases
    ensures "y" in AccentBases && "" !in AccentBases
  {
  }

  /** A vowel of the table is a diphthong or has a row in the tone-mark table. */
  lemma VowelsHaveRows()
    ensures forall i :: 0 <= i < |VowelValues| ==>
      VowelValues[i] in AccentBases || VowelValues[i] in ["iê/ia", "ua/uô", "ưa/ươ"]
  {
  }

  /** The middle of a vowel with a row in the tone-mark table. */
  lemma MiddleOfBase(p: Parsed)
    requires p.vowel in AccentBases && p.tone in ToneNames
    ensures Middle(p).Some?
  {
    BasesAreNotDiphthongs();
    LiteralBases();
  }

  /** The middle of a diphthong. */
  lemma MiddleOfDiphthong(p: Parsed)
    requires p.vowel in ["iê/ia", "ua/uô", "ưa/ươ"] && p.tone in ToneNames
    ensures Middle(p).Some?
  {
    LiteralBases();
  }

  /** The middle of a record with no vowel: KeyError except on a glide with
      no "c" initial and no final. */
  lemma MiddleOfNoVowel(p: Parsed)
    requires p.vowel == "" && p.tone in ToneNames
    ensures Middle(p).Some? <==> p.onGlide && p.initialConsonant != "c" && p.finalConsonant == ""
  {
    LiteralBases();
  }

  /** Which records the assembler accepts: with a vowel of the table and a
      known tone it always succeeds; with no vowel it raises KeyError except
      on a glide with no "c" initial and no final, where the tone falls on
      the glide "o". */
  lemma AssembleDefined(p: Parsed)
    requires p.vowel == "" || p.vowel in VowelValues
    requires p.tone in ToneNames
    ensures p.vowel != "" ==> Assemble(p).Some?
    ensures p.vowel == "" ==>
      (Assemble(p).Some? <==> p.onGlide && p.initialConsonant != "c" && p.finalConsonant == "")
  {
    if p.vowel == "" {
      MiddleOfNoVowel(p);
    } else {
      VowelsHaveRows();
      var i :| 0 <= i < |VowelValues| && VowelValues[i] == p.vowel;
      if p.vowel in AccentBases {
        MiddleOfBase(p);
      } else {
        MiddleOfDiphthong(p);
      }
    }
  }

  /** The same for what `parse` returns: `assemble` fails exactly on a parse
      with no vowel, outside the glide case above. */
  lemma AssembleOfParse(stroke: string)
    ensures var p := Parse(stroke);
      Assemble(p).None? <==> p.vowel == "" && !(p.onGlide && p.initialConsonant != "c" && p.finalConsonant == "")
  {
    ParseVowel(stroke);
    ParseTone(stroke);
    ToneValuesNamed();
    AssembleDefined(Parse(stroke));
  }

  /** The values of table keys always assemble. */
  lemma AssembleOfKeys(t: Tokens)
    requires TableKeys(t)
    ensures Assemble(FromKeys(t)).Some?
  {
    var p := FromKeys(t);
    assert p.vowel != "" && p.vowel in VowelValues by {
      TableFields();
      NoEmptyEntries();
    }
    assert p.tone in ToneNames by {
      TableFields();
      ToneValuesNamed();
    }
    AssembleDefined(p);
  }

  /** `lookup` of a stroke spelled by table keys, "TKPW" aside, assembles
      those keys' values, whatever strokes follow it. */
  lemma LookupOfKeys(t: Tokens, rest: seq<string>)
    requires TableKeys(t) && t.initialKey != "TKPW"
    ensures Lookup([Untokenize(t)] + rest) == Assemble(FromKeys(t))
    ensures Assemble(FromKeys(t)).Some?
  {
    ParseOfKeys(t);
    AssembleOfKeys(t);
    assert ([Untokenize(t)] + rest)[0] == Untokenize(t);
  }

  /* ---------------- worked examples ----------------
     Each example is stated for a variable equal to the literal, which keeps
     the verifier from evaluating the whole tokenizer on it. */

  lemma ChiaKeys()
    ensures TableKeys(Tokens(false, "KH", "OEU", "", ""))
    ensures Untokenize(Tokens(false, "KH", "OEU", "", "")) == "KHOEU"
  {
    InitialAt2(); VowelAt0();
  }

  lemma QuaKeys()
    ensures TableKeys(Tokens(true, "K", "A", "", ""))
    ensures Untokenize(Tokens(true, "K", "A", "", "")) == "SKA"
  {
    InitialAt1(); VowelAt10();
  }

  lemma ChiaValues()
    ensures FromKeys(Tokens(false, "KH", "OEU", "", "")) == Parsed(false, "ch", "iê/ia", "", "")
  {
    TableFields();
    NoEmptyEntries();
    InitialKH(); VowelOEU();
  }

  lemma QuaValues()
    ensures FromKeys(Tokens(true, "K", "A", "", "")) == Parsed(true, "c", "a", "", "")
  {
    TableFields();
    NoEmptyEntries();
    InitialK(); VowelA();
  }

  /** "KHOEU" reads as "ch" and "iê/ia"; "SKA" as the glide, "c" and "a". */
  lemma ExampleParses(chia: string, qua: string)
    requires chia == "KHOEU" && qua == "SKA"
    ensures Parse(chia) == Parsed(false, "ch", "iê/ia", "", "")
    ensures Parse(qua) == Parsed(true, "c", "a", "", "")
  {
    ChiaKeys(); ChiaValues();
    ParseOfKeys(Tokens(false, "KH", "OEU", "", ""));
    QuaKeys(); QuaValues();
    ParseOfKeys(Tokens(true, "K", "A", "", ""));
  }

  /** `assemble` once `middle()` is known. */
  lemma AssembleOfMiddle(p: Parsed, m: string)
    requires Middle(p) == Some(m)
    ensures Assemble(p) == Some(Initial(p) + m + Final(p))
  {
  }

  lemma ExampleSpellings()
    ensures "i" + "a" == "ia" && "u" + "a" == "ua"
    ensures "ch" + "ia" + "" == "chia" && "q" + "ua" + "" == "qua"
  {
  }

  lemma EndsChia(p: Parsed)
    requires p == Parsed(false, "ch", "iê/ia", "", "")
    ensures Initial(p) == "ch" && Final(p) == ""
  {
  }

  lemma MiddleChia(p: Parsed)
    requires p == Parsed(false, "ch", "iê/ia", "", "")
    ensures Middle(p) == Some("ia")
  {
    AccentUnmarked("i");
    ExampleSpellings();
    assert Middle(p) == After(Accent("i", ""), "a");
  }

  lemma AssembleChia(p: Parsed)
    requires p == Parsed(false, "ch", "iê/ia", "", "")
    ensures Assemble(p) == Some("chia")
  {
    MiddleChia(p);
    EndsChia(p);
    AssembleOfMiddle(p, "ia");
    ExampleSpellings();
  }

  lemma MiddleQua(p: Parsed)
    requires p == Parsed(true, "c", "a", "", "")
    ensures Middle(p) == Some("ua") && Initial(p) == "q" && Final(p) == ""
  {
    AccentUnmarked("a");
    ExampleSpellings();
    var m := SingleVowelMiddle(p);
    assert m == Before("u", Accent("a", ""));
  }

  lemma AssembleQua(p: Parsed)
    requires p == Parsed(true, "c", "a", "", "")
    ensures Assemble(p) == Some("qua")
  {
    MiddleQua(p);
    AssembleOfMiddle(p, "ua");
    ExampleSpellings();
  }

  /** "KHOEU" is written "chia"; "SKA" is written "qua", since this assembler
      has no post-processing to drop the glide "u". */
  lemma Examples()
    ensures Lookup(["KHOEU"]) == Some("chia")
    ensures Lookup(["SKA"]) == Some("qua")
  {
    LookupFirst(["KHOEU"]);
    LookupFirst(["SKA"]);
    ExampleParses("KHOEU", "SKA");
    AssembleChia(Parse("KHOEU"));
    AssembleQua(Parse("SKA"));
  }

  lemma LookupFirst(strokes: seq<string>)
    requires |strokes| > 0
    ensures Lookup(strokes) == Assemble(Parse(strokes[0]))
  {
  }

  /** The match length is the length whose prefix is the first key found,
      counting down. */
  lemma MatchLengthIs(keys: seq<string>, s: string, n: nat, len: nat)
    requires len <= n && (len > 0 ==> Take(s, len) in keys)
    requires forall m :: len < m <= n ==> Take(s, m) !in keys
    ensures MatchLength(keys, s, n) == len
  {
  }

  lemma TKPNotInitial() ensures "TKP" !in InitialKeys {}
  lemma PWANotVowel() ensures "PWA" !in VowelKeys && "PW" !in VowelKeys && "P" !in VowelKeys {}
  lemma PWNotFinal() ensures "PW" !in FinalKeys {}
  lemma WANotTone() ensures "WA" !in ToneKeys {}

  lemma TKPWAPrefixes(s: string)
    requires s == "TKPWA"
    ensures AfterGlide(s) == s && Take(s, 3) == "TKP" && Take(s, 2) == "TK" && Drop(s, 2) == "PWA"
  {
  }

  lemma PWAPrefixes(r: string)
    requires r == "PWA"
    ensures Take(r, 4) == r && Take(r, 3) == r && Take(r, 2) == "PW" && Take(r, 1) == "P"
    ensures Drop(r, 1) == "WA"
  {
  }

  /** A cut whose key is known: the key, its value and what follows it. */
  lemma CutIs(t: Table<string>, s: string, n: nat, k: string, rest: string)
    requires |t.keys| == |t.values| && "" !in t.keys
    requires s == k + rest && 0 < |k| <= n && k in t.keys
    requires forall m :: |k| < m <= n ==> Take(s, m) !in t.keys
    ensures CutByLength(t, s, n) == Cut(k, GetOr(t, k, ""), rest)
  {
    assert Take(s, |k|) == k;
    MatchLengthIs(t.keys, s, n, |k|);
  }

  /** A cut that finds no key. */
  lemma CutIsEmpty(t: Table<string>, s: string, n: nat)
    requires |t.keys| == |t.values| && "" !in t.keys
    requires forall m :: 1 <= m <= n ==> Take(s, m) !in t.keys
    ensures CutByLength(t, s, n) == Cut("", "", s)
  {
    MatchLengthIs(t.keys, s, n, 0);
  }

  lemma TKPWAInitial(s: string)
    requires s == "TKPWA"
    ensures InitialCut(s) == Cut("TK", "đ", "PWA")
  {
    TableFields();
    NoEmptyEntries();
    InitialTK();
    TKPWAPrefixes(s);
    TKPNotInitial();
    InitialAt4();
    assert s == "TK" + "PWA";
    assert "TK" in InitialKeys;
    forall m | 2 < m <= 3 ensures Take(s, m) !in InitialKeys {
      assert m == 3;
    }
    CutIs(Initials, s, 3, "TK", "PWA");
  }

  lemma TKPWAVowel(s: string)
    requires s == "TKPWA"
    ensures VowelCut(s) == Cut("", "", "PWA")
  {
    TKPWAInitial(s);
    TableFields();
    NoEmptyEntries();
    PWAPrefixes("PWA");
    PWANotVowel();
    forall m | 1 <= m <= 4 ensures Take("PWA", m) !in VowelKeys {
      assert m == 1 || m == 2 || m == 3 || m == 4;
    }
    CutIsEmpty(Vowels, "PWA", 4);
  }

  lemma TKPWAFinal(s: string)
    requires s == "TKPWA"
    ensures FinalCut(s) == Cut("P", "p", "WA")
  {
    TKPWAVowel(s);
    TableFields();
    NoEmptyEntries();
    FinalP();
    PWAPrefixes("PWA");
    PWNotFinal();
    FinalAt2();
    forall m | 1 < m <= 2 ensures Take("PWA", m) !in FinalKeys {
      assert m == 2;
    }
    assert "PWA" == "P" + "WA";
    CutIs(Finals, "PWA", 2, "P", "WA");
  }

  lemma TKPWAExample()
    ensures Parse("TKPWA") == Parsed(false, "đ", "", "p", "")
    ensures Assemble(Parse("TKPWA")).None?
  {
    TKPWAParse("TKPWA");
    ToneValuesNamed();
    MiddleOfNoVowel(Parsed(false, "đ", "", "p", ""));
  }

  lemma TKPWAParse(s: string)
    requires s == "TKPWA"
    ensures Parse(s) == Parsed(false, "đ", "", "p", "")
  {
    TKPWAInitial(s);
    TKPWAVowel(s);
    TKPWAFinal(s);
    WANotTone();
    assert !StartsWith(s, 'S');
    assert Leftover(s) == "WA";
  }
}
