/** The tokenizer parse.ts: the initial loop of the Python tokenizers, a
    vowel loop over prefixes of at most three keys of its own vowel table
    (no "AOEU", and the diphthong spelled "ưa/uơ"), the final loop over the
    table with "RG", and the tone test on what is left. */
module ParseTs {
  import opened StenoUtil
  import opened StenoTables
  import ParsePy

  /** `vowelMap`: the shared vowel table without its last entry "AOEU", with
      the third value spelled "ưa/uơ". */
  const TsVowelKeys: seq<string> := [
    "OEU", "AEU", "AOE", "AOU", "OU", "OE", "O", "AU", "E", "EU", "A", "AE", "AO", "U"]
  const TsVowelValues: seq<string> := [
    "iê/ia", "ua/uô", "ưa/uơ", "ư", "ơ", "ô", "o", "ê", "e", "i", "a", "ă", "â", "u"]
  const TsVowels: Table<string> := Table(TsVowelKeys, TsVowelValues)

  /** How `vowelMap` stands to the vowel table of the other files. */
  lemma TsVowelTable()
    ensures TsVowels.keys == TsVowelKeys && TsVowels.values == TsVowelValues
    ensures TsVowelKeys == VowelKeys[..14] && VowelKeys[14] == "AOEU" && |VowelKeys| == 15
    ensures |TsVowelValues| == 14
    ensures forall i :: 0 <= i < 14 && i != 2 ==> TsVowelValues[i] == VowelValues[i]
    ensures TsVowelValues[2] == "ưa/uơ" && VowelValues[2] == "ưa/ươ"
  {
  }

  /** Every key of `vowelMap` is one to three vowel letters, so every entry
      can be reached by the loop over lengths 3, 2, 1. */
  lemma TsVowelKeysFit()
    ensures KeysOver(TsVowelKeys, VowelLetters)
    ensures forall i :: 0 <= i < |TsVowelKeys| ==> |TsVowelKeys[i]| <= 3
    ensures "" !in TsVowelKeys
  {
  }

  /* ---------------- parse ---------------- */

  /** The vowel loop: prefixes of length 3, 2, 1 of what follows the
      initial. */
  function VowelCut(stroke: string): ParsePy.Cut {
    TsVowelTable();
    TsVowelKeysFit();
    ParsePy.CutByLength(TsVowels, ParsePy.InitialCut(stroke).rest, 3)
  }

  /** The final loop: prefixes of length 2, 1 of the table with "RG". */
  function FinalCut(stroke: string): ParsePy.Cut {
    TableFields();
    NoEmptyEntries();
    ParsePy.CutByLength(FinalsWithRG, VowelCut(stroke).rest, 2)
  }

  /** What follows the final: a tone key, or characters that `parse` drops. */
  function Leftover(stroke: string): string {
    FinalCut(stroke).rest
  }

  /** `parse`. It always returns a record. */
  function Parse(stroke: string): Parsed {
    TableFields();
    var rest := Leftover(stroke);
    Parsed(StartsWith(stroke, 'S'), ParsePy.InitialCut(stroke).value, VowelCut(stroke).value,
           FinalCut(stroke).value, if rest in Tones.keys then GetOr(Tones, rest, "") else "")
  }

  /** This file's `parse` is the loops of parse.py over its own tables. */
  lemma ParseIsParseWith(stroke: string)
    ensures TablesValid()
    ensures |TsVowels.keys| == |TsVowels.values| && "" !in TsVowels.keys
    ensures Parse(stroke) == ParsePy.ParseWith(Initials, TsVowels, 3, FinalsWithRG, Tones, stroke)
  {
    TableFields();
    NoEmptyEntries();
    TsVowelTable();
    TsVowelKeysFit();
  }

  /** `parse` as the source writes it: three loops over fixed lengths that
      rebind the stroke, then the tone test on what is left. */
  method ParseStroke(stroke: string) returns (r: Parsed)
    ensures r == Parse(stroke)
  {
    ParseIsParseWith(stroke);
    r := ParsePy.ParseStrokeWith(Initials, TsVowels, 3, FinalsWithRG, Tones, stroke);
  }

  /** The glide flag is the leading "S", and the glide, the three keys read
      and the leftover spell the stroke. */
  lemma ParseSpellsStroke(stroke: string)
    ensures Parse(stroke).onGlide == StartsWith(stroke, 'S')
    ensures (if StartsWith(stroke, 'S') then "S" else "") + ParsePy.InitialCut(stroke).key
      + VowelCut(stroke).key + FinalCut(stroke).key + Leftover(stroke) == stroke
  {
    var i, v, f := ParsePy.InitialCut(stroke), VowelCut(stroke), FinalCut(stroke);
    var g := if StartsWith(stroke, 'S') then "S" else "";
    ParsePy.Rejoin(stroke, g, AfterGlide(stroke), i.key, i.rest, v.key, v.rest, f.key, f.rest);
  }

  /** The tone is set exactly when the leftover is a whole tone key, and is
      then that key's tone. */
  lemma ParseTone(stroke: string)
    ensures Parse(stroke).tone != "" <==> Leftover(stroke) in ToneKeys
    ensures Parse(stroke).tone == "" || Parse(stroke).tone in ToneValues
    ensures Leftover(stroke) in ToneKeys ==> Parse(stroke).tone == GetOr(Tones, Leftover(stroke), "")
  {
    TableFields();
    var rest := Leftover(stroke);
    if rest in ToneKeys {
      assert GetOr(Tones, rest, "") in ToneValues;
      NoEmptyToneValue();
    }
  }

  /** The vowel is "" exactly when no prefix of length 3 to 1 of what follows
      the initial is a key of `vowelMap`; otherwise it is one of its values,
      never the "y" of the other files' "AOEU". */
  lemma ParseVowel(stroke: string)
    ensures Parse(stroke).vowel == "" <==>
      forall m :: 1 <= m <= 3 ==> Take(ParsePy.InitialCut(stroke).rest, m) !in TsVowelKeys
    ensures Parse(stroke).vowel == "" || Parse(stroke).vowel in TsVowelValues
    ensures Parse(stroke).vowel != "y"
  {
    TsVowelTable();
    TsVowelKeysFit();
    TsVowelValuesNamed();
    var v := VowelCut(stroke);
    if v.key != "" {
      assert v.value in TsVowelValues;
    }
  }

  lemma TsVowelValuesNamed()
    ensures "" !in TsVowelValues && "y" !in TsVowelValues
  {
  }

  /** As in parse.py, the initial loop never reaches "TKPW", so the initial
      is never "g". */
  lemma NeverG(stroke: string)
    ensures Parse(stroke).initialConsonant != "g"
  {
    ParsePy.NeverTKPW(stroke);
  }

  /* ---- every stroke spelled from table keys, "TKPW" aside, is read back ---- */

  /** The keys come from this file's tables; only the vowel is mandatory. */
  predicate TsKeys(t: Tokens) {
    ParsePy.KeysFrom(t, FinalKeysWithRG) && t.vowelKey in TsVowelKeys
  }

  /** The record whose fields are the keys' values. */
  function FromKeys(t: Tokens): Parsed {
    TableFields();
    TsVowelTable();
    Parsed(t.glide, GetOr(Initials, t.initialKey, ""), GetOr(TsVowels, t.vowelKey, ""),
           GetOr(FinalsWithRG, t.finalKey, ""), GetOr(Tones, t.toneKey, ""))
  }

  lemma TsVowelFits(k: string)
    requires k in TsVowelKeys
    ensures |k| <= 3 && Over(k, VowelLetters)
  {
    TsVowelKeysFit();
    var i := IndexOf(TsVowelKeys, k);
  }

  lemma VowelOfKeys(t: Tokens)
    requires TsKeys(t) && t.initialKey != "TKPW"
    ensures VowelCut(Untokenize(t)) == ParsePy.Cut(t.vowelKey, GetOr(TsVowels, t.vowelKey, ""), t.finalKey + t.toneKey)
  {
    ParsePy.InitialOfKeys(t);
    TsVowelTable();
    TsVowelKeysFit();
    var rest2 := t.finalKey + t.toneKey;
    TsVowelFits(t.vowelKey);
    ParsePy.FinalKeyOver(t.finalKey);
    ParsePy.ToneKeyOver(t.toneKey);
    assert rest2 == "" || rest2[0] !in VowelLetters by {
      if t.finalKey != "" { assert rest2[0] == t.finalKey[0]; }
      else if t.toneKey != "" { assert rest2[0] == t.toneKey[0]; }
    }
    ParsePy.CutOfJoin(TsVowels, VowelLetters, t.vowelKey, rest2, 3);
  }

  lemma FinalOfKeys(t: Tokens)
    requires TsKeys(t) && t.initialKey != "TKPW"
    ensures FinalCut(Untokenize(t)) == ParsePy.Cut(t.finalKey, GetOr(FinalsWithRG, t.finalKey, ""), t.toneKey)
  {
    VowelOfKeys(t);
    TableFields();
    TableLetters();
    FinalFitsWithRG(t.finalKey);
    ParsePy.ToneKeyOver(t.toneKey);
    ParsePy.CutOfJoin(FinalsWithRG, FinalLetters, t.finalKey, t.toneKey, 2);
  }

  /** `parse` reads back the keys of every stroke spelled from its tables'
      keys, "TKPW" aside. */
  lemma ParseOfKeys(t: Tokens)
    requires TsKeys(t) && t.initialKey != "TKPW"
    ensures Parse(Untokenize(t)) == FromKeys(t)
  {
    ParsePy.InitialOfKeys(t);
    VowelOfKeys(t);
    FinalOfKeys(t);
  }

  /* ---------------- the source's example cases ----------------
     Each is read through ParseOfKeys from the keys that spell it, and
     stated for a variable equal to the stroke. */

  lemma InitialEntries()
    ensures InitialKeys[0] == "PW" && InitialValues[0] == "b"
    ensures InitialKeys[3] == "KWR" && InitialValues[3] == "d" && "KWR" !in InitialKeys[..3]
    ensures InitialKeys[14] == "TPW" && InitialValues[14] == "ng/ngh" && "TPW" !in InitialKeys[..14]
    ensures InitialKeys[19] == "TH" && InitialValues[19] == "th" && "TH" !in InitialKeys[..19]
  {
  }

  lemma VowelEntries()
    ensures TsVowelKeys[0] == "OEU" && TsVowelValues[0] == "iê/ia"
    ensures TsVowelKeys[2] == "AOE" && TsVowelValues[2] == "ưa/uơ" && "AOE" !in TsVowelKeys[..2]
    ensures TsVowelKeys[5] == "OE" && TsVowelValues[5] == "ô" && "OE" !in TsVowelKeys[..5]
    ensures TsVowelKeys[10] == "A" && TsVowelValues[10] == "a" && "A" !in TsVowelKeys[..10]
  {
  }

  lemma FinalEntries()
    ensures FinalKeysWithRG[8] == "PL" && FinalValuesWithRG[8] == "m" && "PL" !in FinalKeysWithRG[..8]
    ensures FinalKeysWithRG[9] == "G" && FinalValuesWithRG[9] == "ng" && "G" !in FinalKeysWithRG[..9]
    ensures |FinalKeysWithRG| == |FinalValuesWithRG| == 11
  {
  }

  lemma ToneEntries()
    ensures ToneKeys[0] == "T" && ToneValues[0] == "sắc"
    ensures ToneKeys[1] == "S" && ToneValues[1] == "huyền" && "S" !in ToneKeys[..1]
  {
  }

  lemma InitialValuesOf()
    ensures Get(Initials, "PW") == Some("b") && Get(Initials, "KWR") == Some("d")
    ensures Get(Initials, "TPW") == Some("ng/ngh") && Get(Initials, "TH") == Some("th")
  {
    InitialEntries();
    var t := Table(InitialKeys, InitialValues);
    GetAt(t, 0); GetAt(t, 3); GetAt(t, 14); GetAt(t, 19);
  }

  lemma VowelValuesOf()
    ensures Get(TsVowels, "OEU") == Some("iê/ia") && Get(TsVowels, "AOE") == Some("ưa/uơ")
    ensures Get(TsVowels, "OE") == Some("ô") && Get(TsVowels, "A") == Some("a")
  {
    VowelEntries();
    var t := Table(TsVowelKeys, TsVowelValues);
    GetAt(t, 0); GetAt(t, 2); GetAt(t, 5); GetAt(t, 10);
  }

  lemma FinalAndToneValuesOf()
    ensures Get(FinalsWithRG, "PL") == Some("m") && Get(FinalsWithRG, "G") == Some("ng")
    ensures Get(Tones, "T") == Some("sắc") && Get(Tones, "S") == Some("huyền")
  {
    FinalEntries();
    ToneEntries();
    var f := Table(FinalKeysWithRG, FinalValuesWithRG);
    GetAt(f, 8); GetAt(f, 9);
    var t := Table(ToneKeys, ToneValues);
    GetAt(t, 0); GetAt(t, 1);
  }

  /** A stroke spelled by table keys parses into those keys' values. */
  lemma ExampleOfKeys(t: Tokens, stroke: string, p: Parsed)
    requires TsKeys(t) && t.initialKey != "TKPW"
    requires Untokenize(t) == stroke && FromKeys(t) == p
    ensures Parse(stroke) == p
  {
    ParseOfKeys(t);
  }

  /** The keys of the example strokes come from this file's tables. */
  lemma ExampleKeys()
    ensures TsKeys(Tokens(true, "PW", "AOE", "PL", "T"))
    ensures TsKeys(Tokens(false, "TPW", "OE", "PL", "S"))
    ensures TsKeys(Tokens(false, "KH", "OEU", "", ""))
    ensures TsKeys(Tokens(false, "KWR", "A", "", "T"))
    ensures TsKeys(Tokens(false, "TH", "AOE", "G", ""))
  {
    InitialEntries(); InitialAt2(); VowelEntries(); TsVowelTable(); FinalEntries(); ToneEntries();
  }

  lemma ParsesSPWAOEPLT(s: string)
    requires s == "SPWAOEPLT"
    ensures Parse(s) == Parsed(true, "b", "ưa/uơ", "m", "sắc")
  {
    assert TsKeys(Tokens(true, "PW", "AOE", "PL", "T")) by { ExampleKeys(); }
    ExampleSpellings();
    assert FromKeys(Tokens(true, "PW", "AOE", "PL", "T")) == Parsed(true, "b", "ưa/uơ", "m", "sắc") by {
      TableFields();
      NoEmptyEntries();
      TsVowelTable();
      TsVowelKeysFit();
      InitialValuesOf(); VowelValuesOf(); FinalAndToneValuesOf();
    }
    ExampleOfKeys(Tokens(true, "PW", "AOE", "PL", "T"), s, Parsed(true, "b", "ưa/uơ", "m", "sắc"));
  }

  lemma ParsesTPWOEPLS(s: string)
    requires s == "TPWOEPLS"
    ensures Parse(s) == Parsed(false, "ng/ngh", "ô", "m", "huyền")
  {
    assert TsKeys(Tokens(false, "TPW", "OE", "PL", "S")) by { ExampleKeys(); }
    ExampleSpellings();
    assert FromKeys(Tokens(false, "TPW", "OE", "PL", "S")) == Parsed(false, "ng/ngh", "ô", "m", "huyền") by {
      TableFields();
      NoEmptyEntries();
      TsVowelTable();
      TsVowelKeysFit();
      InitialValuesOf(); VowelValuesOf(); FinalAndToneValuesOf();
    }
    ExampleOfKeys(Tokens(false, "TPW", "OE", "PL", "S"), s, Parsed(false, "ng/ngh", "ô", "m", "huyền"));
  }

  lemma ParsesKHOEU(s: string)
    requires s == "KHOEU"
    ensures Parse(s) == Parsed(false, "ch", "iê/ia", "", "")
  {
    assert TsKeys(Tokens(false, "KH", "OEU", "", "")) by { ExampleKeys(); }
    ExampleSpellings();
    assert FromKeys(Tokens(false, "KH", "OEU", "", "")) == Parsed(false, "ch", "iê/ia", "", "") by {
      TableFields();
      NoEmptyEntries();
      TsVowelTable();
      TsVowelKeysFit();
      InitialKH(); VowelValuesOf();
    }
    ExampleOfKeys(Tokens(false, "KH", "OEU", "", ""), s, Parsed(false, "ch", "iê/ia", "", ""));
  }

  lemma ParsesKWRAT(s: string)
    requires s == "KWRAT"
    ensures Parse(s) == Parsed(false, "d", "a", "", "sắc")
  {
    assert TsKeys(Tokens(false, "KWR", "A", "", "T")) by { ExampleKeys(); }
    ExampleSpellings();
    assert FromKeys(Tokens(false, "KWR", "A", "", "T")) == Parsed(false, "d", "a", "", "sắc") by {
      TableFields();
      NoEmptyEntries();
      TsVowelTable();
      TsVowelKeysFit();
      InitialValuesOf(); VowelValuesOf(); FinalAndToneValuesOf();
    }
    ExampleOfKeys(Tokens(false, "KWR", "A", "", "T"), s, Parsed(false, "d", "a", "", "sắc"));
  }

  lemma ParsesTHAOEG(s: string)
    requires s == "THAOEG"
    ensures Parse(s) == Parsed(false, "th", "ưa/uơ", "ng", "")
  {
    assert TsKeys(Tokens(false, "TH", "AOE", "G", "")) by { ExampleKeys(); }
    ExampleSpellings();
    assert FromKeys(Tokens(false, "TH", "AOE", "G", "")) == Parsed(false, "th", "ưa/uơ", "ng", "") by {
      TableFields();
      NoEmptyEntries();
      TsVowelTable();
      TsVowelKeysFit();
      InitialValuesOf(); VowelValuesOf(); FinalAndToneValuesOf();
    }
    ExampleOfKeys(Tokens(false, "TH", "AOE", "G", ""), s, Parsed(false, "th", "ưa/uơ", "ng", ""));
  }

  lemma ExampleSpellings()
    ensures Untokenize(Tokens(true, "PW", "AOE", "PL", "T")) == "SPWAOEPLT"
    ensures Untokenize(Tokens(false, "TPW", "OE", "PL", "S")) == "TPWOEPLS"
    ensures Untokenize(Tokens(false, "KH", "OEU", "", "")) == "KHOEU"
    ensures Untokenize(Tokens(false, "KWR", "A", "", "T")) == "KWRAT"
    ensures Untokenize(Tokens(false, "TH", "AOE", "G", "")) == "THAOEG"
  {
  }

  /** The example cases listed at the end of parse.ts. */
  lemma Examples(s1: string, s2: string, s3: string, s4: string, s5: string)
    requires s1 == "SPWAOEPLT" && s2 == "TPWOEPLS" && s3 == "KHOEU" && s4 == "KWRAT" && s5 == "THAOEG"
    ensures Parse(s1) == Parsed(true, "b", "ưa/uơ", "m", "sắc")
    ensures Parse(s2) == Parsed(false, "ng/ngh", "ô", "m", "huyền")
    ensures Parse(s3) == Parsed(false, "ch", "iê/ia", "", "")
    ensures Parse(s4) == Parsed(false, "d", "a", "", "sắc")
    ensures Parse(s5) == Parsed(false, "th", "ưa/uơ", "ng", "")
  {
    ParsesSPWAOEPLT(s1);
    ParsesTPWOEPLS(s2);
    ParsesKHOEU(s3);
    ParsesKWRAT(s4);
    ParsesTHAOEG(s5);
  }
}
