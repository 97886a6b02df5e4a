/** The Plover dictionary plugin plover-dictionary.py: the tokenizer of
    parse.py with one more final key ("RG", written "y"), a simplified
    assembler that writes no glide letter and leaves the three diphthongs
    unmarked, and the one-stroke `lookup` Plover calls. */
module PloverDictionary {
  import opened StenoUtil
  import opened StenoTables
  import ParsePy

  /* ---------------- parse ----------------
     The initial and vowel loops are those of parse.py (same tables, same
     lengths); only the final loop reads a different table. */

  /** The final loop: prefixes of length 2, 1 of the table with "RG". */
  function FinalCut(stroke: string): ParsePy.Cut {
    TableFields();
    NoEmptyEntries();
    ParsePy.CutByLength(FinalsWithRG, ParsePy.VowelCut(stroke).rest, 2)
  }

  /** What follows the final: a tone key, or characters that parse drops. */
  function Leftover(stroke: string): string {
    FinalCut(stroke).rest
  }

  /** `parse`: the 5-tuple, as a record. It always returns one. */
  function Parse(stroke: string): Parsed {
    TableFields();
    var rest := Leftover(stroke);
    Parsed(StartsWith(stroke, 'S'), ParsePy.InitialCut(stroke).value, ParsePy.VowelCut(stroke).value,
           FinalCut(stroke).value, if rest in Tones.keys then GetOr(Tones, rest, "") else "")
  }

  /** This file's `parse` is the loops of parse.py over its own tables. */
  lemma ParseIsParseWith(stroke: string)
    ensures TablesValid()
    ensures Parse(stroke) == ParsePy.ParseWith(Initials, Vowels, 4, FinalsWithRG, Tones, stroke)
  {
    TableFields();
    NoEmptyEntries();
  }

  /** `parse` as the source writes it: three loops over fixed lengths that
      rebind the stroke, then the tone test on what is left. */
  method ParseStroke(stroke: string) returns (r: Parsed)
    ensures r == Parse(stroke)
  {
    ParseIsParseWith(stroke);
    r := ParsePy.ParseStrokeWith(Initials, Vowels, 4, FinalsWithRG, Tones, stroke);
  }

  /** The glide flag is the leading "S", and the glide, the three keys read
      and the leftover spell the stroke. */
  lemma ParseSpellsStroke(stroke: string)
    ensures Parse(stroke).onGlide == StartsWith(stroke, 'S')
    ensures (if StartsWith(stroke, 'S') then "S" else "") + ParsePy.InitialCut(stroke).key
      + ParsePy.VowelCut(stroke).key + FinalCut(stroke).key + Leftover(stroke) == stroke
  {
    var i, v, f := ParsePy.InitialCut(stroke), ParsePy.VowelCut(stroke), FinalCut(stroke);
    var g := if StartsWith(stroke, 'S') then "S" else "";
    ParsePy.Rejoin(stroke, g, AfterGlide(stroke), i.key, i.rest, v.key, v.rest, f.key, f.rest);
  }

  /** The tone is set exactly when the leftover is a whole tone key, and is
      then that key's tone. */
  lemma ParseTone(stroke: string)
    ensures Parse(stroke).tone != "" <==> Leftover(stroke) in ToneKeys
    ensures Parse(stroke).tone == "" || Parse(stroke).tone in ToneValues
    ensures Leftover(stroke) in ToneKeys ==> Parse(stroke).tone == GetOr(Tones, Leftover(stroke), "")
  {
    TableFields();
    var rest := Leftover(stroke);
    if rest in ToneKeys {
      assert GetOr(Tones, rest, "") in ToneValues;
      NoEmptyToneValue();
    }
  }

  /* ---- the same records as parse.py, "RG" aside ---- */

  /** "RG" is the last entry and the only one parse.py's table lacks. */
  lemma FinalAtRG()
    ensures FinalKeysWithRG == FinalKeys + ["RG"] && FinalValuesWithRG == FinalValues + ["y"]
    ensures |FinalKeys| == |FinalValues| == 10 && "RG" !in FinalKeys
  {
  }

  /** An extra key that no prefix tried equals does not change the match. */
  lemma {:induction false} MatchLengthWithout(keys: seq<string>, extra: string, s: string, n: nat)
    requires forall m :: 1 <= m <= n ==> Take(s, m) != extra
    ensures MatchLength(keys + [extra], s, n) == MatchLength(keys, s, n)
  {
    if n > 0 {
      assert Take(s, n) in keys + [extra] <==> Take(s, n) in keys;
      MatchLengthWithout(keys, extra, s, n - 1);
    }
  }

  /** Entries appended to a table do not change the value of a key it
      already has. */
  lemma GetOfExtended(keys: seq<string>, values: seq<string>, moreKeys: seq<string>, moreValues: seq<string>, k: string)
    requires |keys| == |values| && |moreKeys| == |moreValues| && k in keys
    ensures Get(Table(keys + moreKeys, values + moreValues), k) == Get(Table(keys, values), k)
  {
    var i := IndexOf(keys + moreKeys, k);
    var j := IndexOf(keys, k);
    assert (keys + moreKeys)[j] == k;
    assert i == j;
  }

  /** The final cut on what follows the vowel: parse.py's unless that starts
      with "RG", which is read as the final "y". */
  lemma FinalCutVersusParsePy(stroke: string)
    ensures var r := ParsePy.VowelCut(stroke).rest;
      if Take(r, 2) == "RG" then FinalCut(stroke) == ParsePy.Cut("RG", "y", Drop(r, 2))
      else FinalCut(stroke) == ParsePy.FinalCut(stroke)
  {
    if Take(ParsePy.VowelCut(stroke).rest, 2) == "RG" {
      FinalCutOfRG(stroke);
    } else {
      FinalCutWithoutRG(stroke);
    }
  }

  lemma FinalCutOfRG(stroke: string)
    requires Take(ParsePy.VowelCut(stroke).rest, 2) == "RG"
    ensures FinalCut(stroke) == ParsePy.Cut("RG", "y", Drop(ParsePy.VowelCut(stroke).rest, 2))
  {
    TableFields();
    NoEmptyEntries();
    FinalAtRG();
    var r := ParsePy.VowelCut(stroke).rest;
    GetAt(FinalsWithRG, 10);
    assert MatchLength(FinalKeysWithRG, r, 2) == 2;
  }

  lemma FinalCutWithoutRG(stroke: string)
    requires Take(ParsePy.VowelCut(stroke).rest, 2) != "RG"
    ensures FinalCut(stroke) == ParsePy.FinalCut(stroke)
  {
    TableFields();
    NoEmptyEntries();
    var r := ParsePy.VowelCut(stroke).rest;
    forall m | 1 <= m <= 2 ensures Take(r, m) != "RG" {
      if m == 1 { assert |Take(r, m)| <= 1; }
    }
    MatchLengthWithout(FinalKeys, "RG", r, 2);
    var len := MatchLength(FinalKeys, r, 2);
    if len > 0 {
      GetOfExtended(FinalKeys, FinalValues, ["RG"], ["y"], Take(r, len));
    }
  }

  /** On every stroke whose keys after the vowel do not start with "RG",
      this `parse` returns what parse.py's returns; otherwise its final is
      "y". */
  lemma ParseVersusParsePy(stroke: string)
    ensures Take(ParsePy.VowelCut(stroke).rest, 2) != "RG" ==> Parse(stroke) == ParsePy.Parse(stroke)
    ensures Take(ParsePy.VowelCut(stroke).rest, 2) == "RG" ==> Parse(stroke).finalConsonant == "y"
  {
    FinalCutVersusParsePy(stroke);
  }

  /* ---- every table stroke but those with "TKPW" is read back into its keys ---- */

  /** The record whose fields are the keys' values. */
  function FromKeys(t: Tokens): Parsed {
    TableFields();
    Parsed(t.glide, GetOr(Initials, t.initialKey, ""), GetOr(Vowels, t.vowelKey, ""),
           GetOr(FinalsWithRG, t.finalKey, ""), GetOr(Tones, t.toneKey, ""))
  }

  lemma FinalOfKeys(t: Tokens)
    requires ParsePy.KeysFrom(t, FinalKeysWithRG) && t.initialKey != "TKPW"
    ensures FinalCut(Untokenize(t)) == ParsePy.Cut(t.finalKey, GetOr(FinalsWithRG, t.finalKey, ""), t.toneKey)
  {
    ParsePy.VowelOfKeys(t);
    TableFields();
    TableLetters();
    FinalFitsWithRG(t.finalKey);
    ParsePy.ToneKeyOver(t.toneKey);
    ParsePy.CutOfJoin(FinalsWithRG, FinalLetters, t.finalKey, t.toneKey, 2);
  }

  /** `parse` reads back the keys of every stroke spelled from table keys,
      "TKPW" aside, the final "RG" included. */
  lemma ParseOfKeys(t: Tokens)
    requires ParsePy.KeysFrom(t, FinalKeysWithRG) && t.initialKey != "TKPW"
    ensures Parse(Untokenize(t)) == FromKeys(t)
  {
    ParsePy.InitialOfKeys(t);
    ParsePy.VowelOfKeys(t);
    FinalOfKeys(t);
  }

  /* ---------------- assemble ---------------- */

  /** The four initial rewrites, applied one after another as the source
      does: each `if` sees what the previous ones left. */
  function InitialSteps(p: Parsed): string {
    var f := ParsePy.BackVowel(p.vowel);
    var i1 := if p.initialConsonant == "ng/ngh" then (if p.onGlide || f then "ng" else "ngh") else p.initialConsonant;
    var i2 := if i1 == "g" then (if p.onGlide || f then "g" else "gh") else i1;
    var i3 := if i2 == "gi" then (if !p.onGlide && p.vowel == "i" then "g" else "gi") else i2;
    if i3 == "c" then (if p.onGlide then "q" else if f then "c" else "k") else i3
  }

  /** No rewritten initial triggers a later rewrite: applied in sequence they
      give the case split of parse.py's `initial()`. */
  lemma InitialIsCaseSplit(p: Parsed)
    ensures InitialSteps(p) == ParsePy.Initial(p)
  {
  }

  /** `_tone_accents[vowel][tone]` for a vowel of the tone-mark table (None
      where the tone misses), the vowel itself for any other. */
  function Accented(p: Parsed): Option<string> {
    if p.vowel in AccentBases then Accent(p.vowel, p.tone) else Some(p.vowel)
  }

  /** The two final rewrites, in the source's order. */
  function Final(p: Parsed): (r: string)
    ensures r == "" <==> p.finalConsonant == ""
  {
    var f1 := if p.finalConsonant == "w" then (if ParsePy.FrontForW(p.vowel) then "u" else "o") else p.finalConsonant;
    if f1 == "j" then "i" else f1
  }

  /** `assemble`: initial, accented vowel and final; None where the tone-mark
      lookup raises KeyError. */
  function Assemble(p: Parsed): Option<string> {
    match Accented(p)
    case None => None
    case Some(v) => Some(InitialSteps(p) + v + Final(p))
  }

  /** `lookup`: the key must be a 1-tuple (the source asserts it; None here
      otherwise). */
  function Lookup(key: seq<string>): Option<string> {
    if |key| != 1 then None else Assemble(Parse(key[0]))
  }

  /** The final rules: "w" after a front vowel is "u", any other "w" is "o",
      "j" is always "i", every other final is written as it is ("y" of "RG"
      among them). Unlike parse.py's `final()`, "j" after "ă" or "â" is not
      "y". */
  lemma FinalRules(p: Parsed)
    ensures p.finalConsonant == "w" ==> Final(p) == (if ParsePy.FrontForW(p.vowel) then "u" else "o")
    ensures p.finalConsonant == "j" ==> Final(p) == "i"
    ensures p.finalConsonant != "w" && p.finalConsonant != "j" ==> Final(p) == p.finalConsonant
    ensures Final(p) != ParsePy.Final(p) <==> p.finalConsonant == "j" && (p.vowel == "ă" || p.vowel == "â")
  {
  }

  /** Assembly fails exactly on a vowel of the tone-mark table with a tone
      the table does not name; a vowel outside the table is written as it
      is, unmarked whatever the tone. */
  lemma AssembleDefined(p: Parsed)
    ensures Assemble(p).None? <==> p.vowel in AccentBases && p.tone !in ToneNames
    ensures p.vowel !in AccentBases ==> Assemble(p) == Some(ParsePy.Initial(p) + p.vowel + Final(p))
  {
    InitialIsCaseSplit(p);
  }

  /** The vowels of the table left unmarked are exactly the three
      diphthongs. */
  lemma UnmarkedVowels()
    ensures forall v :: v in VowelValues ==> (v !in AccentBases <==> v in ["iê/ia", "ua/uô", "ưa/ươ"])
  {
  }

  /** The glide changes only the initial, and only the "ng/ngh", "g", "gi"
      and "c" initials: no glide letter is ever written. */
  lemma GlideOnlyInitial(p: Parsed, onGlide: bool)
    ensures Accented(p.(onGlide := onGlide)) == Accented(p)
    ensures Final(p.(onGlide := onGlide)) == Final(p)
    ensures p.initialConsonant !in ["ng/ngh", "g", "gi", "c"] ==> Assemble(p.(onGlide := onGlide)) == Assemble(p)
  {
  }

  /** Every record `parse` returns is assembled. */
  lemma AssembleOfParse(stroke: string)
    ensures Assemble(Parse(stroke)).Some?
  {
    ParseTone(stroke);
    ToneValuesNamed();
    AssembleDefined(Parse(stroke));
  }

  /** `lookup` answers exactly the 1-tuples, with the assembly of that
      stroke's parse. */
  lemma LookupOneTuple(key: seq<string>)
    ensures Lookup(key).Some? <==> |key| == 1
    ensures |key| == 1 ==> Lookup(key) == Assemble(Parse(key[0]))
  {
    if |key| == 1 {
      AssembleOfParse(key[0]);
    }
  }

  /** `lookup` of a stroke spelled by table keys, "TKPW" aside, assembles
      those keys' values. */
  lemma LookupOfKeys(t: Tokens)
    requires ParsePy.KeysFrom(t, FinalKeysWithRG) && t.initialKey != "TKPW"
    ensures Lookup([Untokenize(t)]) == Assemble(FromKeys(t))
    ensures Assemble(FromKeys(t)).Some?
  {
    ParseOfKeys(t);
    AssembleOfParse(Untokenize(t));
  }

  /* ---------------- worked examples ---------------- */

  lemma ChiaKeys()
    ensures ParsePy.KeysFrom(Tokens(false, "KH", "OEU", "", ""), FinalKeysWithRG)
    ensures Untokenize(Tokens(false, "KH", "OEU", "", "")) == "KHOEU"
  {
    InitialAt2(); VowelAt0();
  }

  lemma QuaKeys()
    ensures ParsePy.KeysFrom(Tokens(true, "K", "A", "", ""), FinalKeysWithRG)
    ensures Untokenize(Tokens(true, "K", "A", "", "")) == "SKA"
  {
    InitialAt1(); VowelAt10();
  }

  lemma DayKeys()
    ensures ParsePy.KeysFrom(Tokens(false, "TK", "AO", "RG", ""), FinalKeysWithRG)
    ensures Untokenize(Tokens(false, "TK", "AO", "RG", "")) == "TKAORG"
  {
    InitialAt4(); VowelAt12(); FinalAtRG();
  }

  lemma FinalRG() ensures Get(FinalsWithRG, "RG") == Some("y") {
    TableFields();
    FinalAtRG();
    GetAt(FinalsWithRG, 10);
  }

  /** A stroke spelled by table keys parses into those keys' values. */
  lemma ExampleOfKeys(t: Tokens, stroke: string, p: Parsed)
    requires ParsePy.KeysFrom(t, FinalKeysWithRG) && t.initialKey != "TKPW"
    requires Untokenize(t) == stroke && FromKeys(t) == p
    ensures Parse(stroke) == p
  {
    ParseOfKeys(t);
  }

  /** "KHOEU" reads as "ch" and "iê/ia". */
  lemma ParsesKHOEU(s: string)
    requires s == "KHOEU"
    ensures Parse(s) == Parsed(false, "ch", "iê/ia", "", "")
  {
    ChiaKeys();
    assert FromKeys(Tokens(false, "KH", "OEU", "", "")) == Parsed(false, "ch", "iê/ia", "", "") by {
      TableFields();
      NoEmptyEntries();
      InitialKH(); VowelOEU();
    }
    ExampleOfKeys(Tokens(false, "KH", "OEU", "", ""), s, Parsed(false, "ch", "iê/ia", "", ""));
  }

  /** "SKA" reads as the glide, "c" and "a". */
  lemma ParsesSKA(s: string)
    requires s == "SKA"
    ensures Parse(s) == Parsed(true, "c", "a", "", "")
  {
    QuaKeys();
    assert FromKeys(Tokens(true, "K", "A", "", "")) == Parsed(true, "c", "a", "", "") by {
      TableFields();
      NoEmptyEntries();
      InitialK(); VowelA();
    }
    ExampleOfKeys(Tokens(true, "K", "A", "", ""), s, Parsed(true, "c", "a", "", ""));
  }

  /** "TKAORG" reads as "đ", "â" and the final "y". */
  lemma ParsesTKAORG(s: string)
    requires s == "TKAORG"
    ensures Parse(s) == Parsed(false, "đ", "â", "y", "")
  {
    DayKeys();
    assert FromKeys(Tokens(false, "TK", "AO", "RG", "")) == Parsed(false, "đ", "â", "y", "") by {
      TableFields();
      InitialTK(); VowelAO(); FinalRG();
    }
    ExampleOfKeys(Tokens(false, "TK", "AO", "RG", ""), s, Parsed(false, "đ", "â", "y", ""));
  }

  lemma EndsChia(p: Parsed)
    requires p == Parsed(false, "ch", "iê/ia", "", "")
    ensures ParsePy.Initial(p) == "ch" && Final(p) == "" && p.vowel !in AccentBases
  {
  }

  lemma ExampleSpellings()
    ensures "ch" + "iê/ia" + "" == "chiê/ia" && "q" + "a" + "" == "qa" && "đ" + "â" + "y" == "đây"
  {
  }

  lemma AssembleChia(p: Parsed)
    requires p == Parsed(false, "ch", "iê/ia", "", "")
    ensures Assemble(p) == Some("chiê/ia")
  {
    EndsChia(p);
    AssembleDefined(p);
    ExampleSpellings();
  }

  lemma AssembleQua(p: Parsed)
    requires p == Parsed(true, "c", "a", "", "")
    ensures Assemble(p) == Some("qa")
  {
    AccentUnmarked("a");
    ExampleSpellings();
  }

  lemma AssembleDay(p: Parsed)
    requires p == Parsed(false, "đ", "â", "y", "")
    ensures Assemble(p) == Some("đây")
  {
    AccentUnmarked("â");
    ExampleSpellings();
  }

  /** "KHOEU" is written "chiê/ia", the diphthong left as the table spells
      it; "SKA" is written "qa", with no glide letter; "TKAORG" is "đây". */
  lemma Examples()
    ensures Lookup(["KHOEU"]) == Some("chiê/ia")
    ensures Lookup(["SKA"]) == Some("qa")
    ensures Lookup(["TKAORG"]) == Some("đây")
  {
    ParsesKHOEU("KHOEU");
    ParsesSKA("SKA");
    ParsesTKAORG("TKAORG");
    AssembleChia(Parse("KHOEU"));
    AssembleQua(Parse("SKA"));
    AssembleDay(Parse("TKAORG"));
  }
}
