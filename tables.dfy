/** The literal key tables that several source files spell out identically,
    in their insertion order. A table that differs between files lives in the
    module of the file that defines it (the vowel table of parse.ts). */
module StenoTables {
  import opened StenoUtil

  /** Initial-consonant keys (stenographyMap / stenography_map / _stenography_map). */
  const InitialKeys: seq<string> := [
    "PW", "K", "KH", "KWR", "TK", "TP", "TKPW", "H", "KWH", "KHR", "HR", "PH",
    "TPH", "TPR", "TPW", "P", "R", "KP", "T", "TH", "TR", "W", "WR"]
  const InitialValues: seq<string> := [
    "b", "c", "ch", "d", "đ", "ph", "g", "h", "gi", "kh", "l", "m",
    "n", "nh", "ng/ngh", "p", "r", "s", "t", "th", "tr", "v", "x"]
  const Initials: Table<string> := Table(InitialKeys, InitialValues)

  /** Vowel keys of process-dictionary.ts, parse.py and plover-dictionary.py. */
  const VowelKeys: seq<string> := [
    "OEU", "AEU", "AOE", "AOU", "OU", "OE", "O", "AU", "E", "EU", "A", "AE", "AO", "U", "AOEU"]
  const VowelValues: seq<string> := [
    "iê/ia", "ua/uô", "ưa/ươ", "ư", "ơ", "ô", "o", "ê", "e", "i", "a", "ă", "â", "u", "y"]
  const Vowels: Table<string> := Table(VowelKeys, VowelValues)

  /** Final-consonant keys of process-dictionary.ts and parse.py. */
  const FinalKeys: seq<string> := ["FP", "F", "P", "R", "BG", "RB", "PB", "L", "PL", "G"]
  const FinalValues: seq<string> := ["j", "w", "p", "t", "c", "ch", "nh", "n", "m", "ng"]
  const Finals: Table<string> := Table(FinalKeys, FinalValues)

  /** Final-consonant keys of plover-dictionary.py and parse.ts: one more entry, "RG". */
  const FinalKeysWithRG: seq<string> := FinalKeys + ["RG"]
  const FinalValuesWithRG: seq<string> := FinalValues + ["y"]
  const FinalsWithRG: Table<string> := Table(FinalKeysWithRG, FinalValuesWithRG)

  /** Tone keys (all four files). */
  const ToneKeys: seq<string> := ["T", "S", "D", "TS", "Z"]
  const ToneValues: seq<string> := ["sắc", "huyền", "hỏi", "ngã", "nặng"]
  const Tones: Table<string> := Table(ToneKeys, ToneValues)

  /** The tone-mark table (toneAccents / tone_accents): for each base vowel
      letter, a row giving the letter under each tone name; the name "" is the
      unmarked letter. Every row has the same tone names, in this order. */
  const AccentBases: seq<string> := ["a", "ă", "â", "e", "ê", "i", "o", "ô", "ơ", "u", "ư", "y"]
  const ToneNames: seq<string> := ["", "sắc", "huyền", "hỏi", "ngã", "nặng"]
  const AccentRows: seq<seq<string>> := [
    ["a", "á", "à", "ả", "ã", "ạ"],
    ["ă", "ắ", "ằ", "ẳ", "ẵ", "ặ"],
    ["â", "ấ", "ầ", "ẩ", "ẫ", "ậ"],
    ["e", "é", "è", "ẻ", "ẽ", "ẹ"],
    ["ê", "ế", "ề", "ể", "ễ", "ệ"],
    ["i", "í", "ì", "ỉ", "ĩ", "ị"],
    ["o", "ó", "ò", "ỏ", "õ", "ọ"],
    ["ô", "ố", "ồ", "ổ", "ỗ", "ộ"],
    ["ơ", "ớ", "ờ", "ở", "ỡ", "ợ"],
    ["u", "ú", "ù", "ủ", "ũ", "ụ"],
    ["ư", "ứ", "ừ", "ử", "ữ", "ự"],
    ["y", "ý", "ỳ", "ỷ", "ỹ", "ỵ"]
  ]

  /** `toneAccents[base][tone]`: None where either lookup would miss. */
  function Accent(base: string, tone: string): (r: Option<string>)
    ensures r.Some? <==> base in AccentBases && tone in ToneNames
  {
    if base in AccentBases && tone in ToneNames then
      AccentShape();
      Some(AccentRows[IndexOf(AccentBases, base)][IndexOf(ToneNames, tone)])
    else None
  }

  /** The tables' fields are the literal lists above. */
  lemma TableFields()
    ensures Initials.keys == InitialKeys && Initials.values == InitialValues
    ensures Vowels.keys == VowelKeys && Vowels.values == VowelValues
    ensures Finals.keys == FinalKeys && Finals.values == FinalValues
    ensures FinalsWithRG.keys == FinalKeysWithRG && FinalsWithRG.values == FinalValuesWithRG
    ensures Tones.keys == ToneKeys && Tones.values == ToneValues
  {
  }

  /** Every table has as many values as keys, and no empty key. */
  predicate TablesValid() {
    && |Initials.keys| == |Initials.values| && "" !in Initials.keys
    && |Vowels.keys| == |Vowels.values| && "" !in Vowels.keys
    && |Finals.keys| == |Finals.values| && "" !in Finals.keys
    && |FinalsWithRG.keys| == |FinalsWithRG.values| && "" !in FinalsWithRG.keys
    && |Tones.keys| == |Tones.values| && "" !in Tones.keys
  }

  lemma NoEmptyInitialKey() ensures "" !in InitialKeys {}
  lemma NoEmptyVowelKey() ensures "" !in VowelKeys {}
  lemma NoEmptyFinalKey() ensures "" !in FinalKeysWithRG && "" !in FinalKeys {}
  lemma NoEmptyToneKey() ensures "" !in ToneKeys {}
  lemma NoEmptyVowel() ensures "" !in VowelValues {}
  lemma NoEmptyToneValue() ensures "" !in ToneValues {}

  /** No table has the empty string as a key, and no vowel is empty. */
  lemma NoEmptyEntries()
    ensures "" !in Initials.keys && "" !in Vowels.keys && "" !in Finals.keys
    ensures "" !in FinalsWithRG.keys && "" !in Tones.keys
    ensures "" !in Vowels.values
  {
    TableFields();
    NoEmptyInitialKey();
    NoEmptyVowelKey();
    NoEmptyFinalKey();
    NoEmptyToneKey();
    NoEmptyVowel();
  }

  /** Every tone value, and the unmarked "", names a column of the tone-mark
      table. */
  lemma ToneValuesNamed()
    ensures forall v :: v in ToneValues ==> v in ToneNames
    ensures "" in ToneNames
  {
  }

  lemma AccentShape()
    ensures |AccentRows| == |AccentBases| && |ToneNames| == 6
    ensures forall i :: 0 <= i < |AccentRows| ==> |AccentRows[i]| == |ToneNames|
  {
  }

  lemma AccentRowsOneLetter()
    ensures forall i, j :: 0 <= i < |AccentRows| && 0 <= j < |AccentRows[i]| ==> |AccentRows[i][j]| == 1
  {
  }

  lemma UIndex()
    ensures IndexOf(AccentBases, "u") == 9
  {
    UBaseAt9();
    IndexAt(AccentBases, 9);
  }

  lemma UBaseAt9() ensures AccentBases[9] == "u" && "u" !in AccentBases[..9] {}

  /** Every entry of the tone-mark table is a single letter. */
  lemma AccentIsOneLetter(base: string, tone: string)
    ensures Accent(base, tone).Some? ==> |Accent(base, tone).value| == 1
  {
    if base in AccentBases && tone in ToneNames {
      AccentShape();
      AccentRowsOneLetter();
      var i, j := IndexOf(AccentBases, base), IndexOf(ToneNames, tone);
      assert Accent(base, tone).value == AccentRows[i][j];
    }
  }

  /** "u" and its five toned forms. */
  const UForms: set<char> := {'u', 'ú', 'ù', 'ủ', 'ũ', 'ụ'}

  /** Row 9, the row of "u", is the only row whose entries are forms of "u". */
  lemma UFormsOnlyInURow()
    ensures forall i, j :: 0 <= i < |AccentRows| && 0 <= j < |AccentRows[i]| ==>
      |AccentRows[i][j]| == 1 && (AccentRows[i][j][0] in UForms <==> i == 9)
  {
  }

  /** The diphthongs have no row of their own in the tone-mark table. */
  lemma BasesAreNotDiphthongs()
    ensures "iê/ia" !in AccentBases && "ua/uô" !in AccentBases && "ưa/ươ" !in AccentBases
  {
  }

  /** Every base letter is one letter, a form of "u" only for "u" itself. */
  lemma BasesOneLetter()
    ensures forall b :: b in AccentBases ==> |b| == 1 && (b[0] in UForms <==> b == "u")
  {
  }

  /** A tone mark keeps a base letter one letter long, and yields a form of
      "u" exactly when the base is "u". */
  lemma AccentKeepsU(base: string, tone: string)
    requires base in AccentBases
    ensures var r := Accent(base, tone).GetOr(base);
      |r| == 1 && (r[0] in UForms <==> base == "u")
  {
    if tone in ToneNames {
      TonedKeepsU(base, tone);
    } else {
      BasesOneLetter();
    }
  }

  lemma TonedKeepsU(base: string, tone: string)
    requires base in AccentBases && tone in ToneNames
    ensures var r := Accent(base, tone).value;
      |r| == 1 && (r[0] in UForms <==> base == "u")
  {
    var i, j := IndexOf(AccentBases, base), IndexOf(ToneNames, tone);
    AccentShape();
    UFormsOnlyInURow();
    UBaseAt9();
    assert base == "u" <==> i == 9 by { UIndex(); }
    assert Accent(base, tone).value == AccentRows[i][j];
  }

  /* Single entries read by the worked examples. Each position fact is stated
     on the literal list alone, which keeps its proof small. */

  lemma InitialAt1() ensures InitialKeys[1] == "K" && InitialValues[1] == "c" && "K" !in InitialKeys[..1] {}
  lemma InitialAt2() ensures InitialKeys[2] == "KH" && InitialValues[2] == "ch" && "KH" !in InitialKeys[..2] {}
  lemma InitialAt4() ensures InitialKeys[4] == "TK" && InitialValues[4] == "đ" && "TK" !in InitialKeys[..4] {}
  lemma VowelAt0() ensures VowelKeys[0] == "OEU" && VowelValues[0] == "iê/ia" {}
  lemma VowelAt1() ensures VowelKeys[1] == "AEU" && VowelValues[1] == "ua/uô" && "AEU" !in VowelKeys[..1] {}
  lemma VowelAt2() ensures VowelKeys[2] == "AOE" && VowelValues[2] == "ưa/ươ" && "AOE" !in VowelKeys[..2] {}
  lemma VowelAt9() ensures VowelKeys[9] == "EU" && VowelValues[9] == "i" && "EU" !in VowelKeys[..9] {}
  lemma VowelAt10() ensures VowelKeys[10] == "A" && VowelValues[10] == "a" && "A" !in VowelKeys[..10] {}
  lemma VowelAt11() ensures VowelKeys[11] == "AE" && VowelValues[11] == "ă" && "AE" !in VowelKeys[..11] {}
  lemma VowelAt13() ensures VowelKeys[13] == "U" && VowelValues[13] == "u" && "U" !in VowelKeys[..13] {}
  lemma VowelAt12() ensures VowelKeys[12] == "AO" && VowelValues[12] == "â" && "AO" !in VowelKeys[..12] {}
  lemma FinalAt2() ensures FinalKeys[2] == "P" && FinalValues[2] == "p" && "P" !in FinalKeys[..2] {}
  lemma FinalAt1() ensures FinalKeys[1] == "F" && FinalValues[1] == "w" && "F" !in FinalKeys[..1] {}

  lemma InitialK() ensures Get(Initials, "K") == Some("c") { InitialAt1(); GetAt(Table(InitialKeys, InitialValues), 1); }
  lemma InitialKH() ensures Get(Initials, "KH") == Some("ch") { InitialAt2(); GetAt(Table(InitialKeys, InitialValues), 2); }
  lemma InitialTK() ensures Get(Initials, "TK") == Some("đ") { InitialAt4(); GetAt(Table(InitialKeys, InitialValues), 4); }
  lemma VowelOEU() ensures Get(Vowels, "OEU") == Some("iê/ia") { VowelAt0(); GetAt(Table(VowelKeys, VowelValues), 0); }
  lemma VowelAEU() ensures Get(Vowels, "AEU") == Some("ua/uô") { VowelAt1(); GetAt(Table(VowelKeys, VowelValues), 1); }
  lemma VowelAOE() ensures Get(Vowels, "AOE") == Some("ưa/ươ") { VowelAt2(); GetAt(Table(VowelKeys, VowelValues), 2); }
  lemma VowelU() ensures Get(Vowels, "U") == Some("u") { VowelAt13(); GetAt(Table(VowelKeys, VowelValues), 13); }
  lemma VowelEU() ensures Get(Vowels, "EU") == Some("i") { VowelAt9(); GetAt(Table(VowelKeys, VowelValues), 9); }
  lemma VowelA() ensures Get(Vowels, "A") == Some("a") { VowelAt10(); GetAt(Table(VowelKeys, VowelValues), 10); }
  lemma VowelAE() ensures Get(Vowels, "AE") == Some("ă") { VowelAt11(); GetAt(Table(VowelKeys, VowelValues), 11); }
  lemma VowelAO() ensures Get(Vowels, "AO") == Some("â") { VowelAt12(); GetAt(Table(VowelKeys, VowelValues), 12); }
  lemma FinalP() ensures Get(Finals, "P") == Some("p") { FinalAt2(); GetAt(Table(FinalKeys, FinalValues), 2); }
  lemma FinalF() ensures Get(Finals, "F") == Some("w") { FinalAt1(); GetAt(Table(FinalKeys, FinalValues), 1); }

  /** Every final key, "RG" included, is one or two keys long. */
  lemma FinalFitsWithRG(k: string)
    requires k == "" || k in FinalKeysWithRG
    ensures |k| <= 2
  {
    assert forall i :: 0 <= i < |FinalKeysWithRG| ==> |FinalKeysWithRG[i]| <= 2;
    if k != "" {
      var i := IndexOf(FinalKeysWithRG, k);
    }
  }

  lemma UnmarkedColumn()
    ensures IndexOf(ToneNames, "") == 0
    ensures forall i :: 0 <= i < |AccentRows| ==> |AccentRows[i]| > 0 && AccentRows[i][0] == AccentBases[i]
  {
  }

  /** The tone name "" leaves every base letter unmarked. */
  lemma AccentUnmarked(base: string)
    requires base in AccentBases
    ensures Accent(base, "") == Some(base)
  {
    AccentShape();
    UnmarkedColumn();
    var i := IndexOf(AccentBases, base);
    assert Accent(base, "").value == AccentRows[i][0];
  }

  /* ---- the keyboard letters each group of keys uses ---- */

  predicate Over(k: string, letters: set<char>) {
    forall i :: 0 <= i < |k| ==> k[i] in letters
  }

  /** Every key is non-empty and spelled with `letters` only. */
  predicate KeysOver(keys: seq<string>, letters: set<char>) {
    forall k :: k in keys ==> k != "" && Over(k, letters)
  }

  const InitialLetters: set<char> := {'P', 'W', 'K', 'H', 'R', 'T'}
  const VowelLetters: set<char> := {'A', 'O', 'E', 'U'}
  const FinalLetters: set<char> := {'F', 'P', 'R', 'B', 'G', 'L'}
  const ToneLetters: set<char> := {'T', 'S', 'D', 'Z'}

  /** The steno keyboard's order: initials on the left bank, then the vowel
      keys, then final and tone keys on the right bank. */
  lemma TableLetters()
    ensures KeysOver(InitialKeys, InitialLetters)
    ensures KeysOver(VowelKeys, VowelLetters)
    ensures KeysOver(FinalKeys, FinalLetters) && KeysOver(FinalKeysWithRG, FinalLetters)
    ensures KeysOver(ToneKeys, ToneLetters)
  {
    InitialKeyLetters();
    VowelKeyLetters();
    FinalKeyLetters();
    ToneKeyLetters();
  }

  lemma InitialKeyLetters() ensures KeysOver(InitialKeys, InitialLetters) {}
  lemma VowelKeyLetters() ensures KeysOver(VowelKeys, VowelLetters) {}
  lemma ToneKeyLetters() ensures KeysOver(ToneKeys, ToneLetters) {}

  lemma FinalKeyLetters()
    ensures KeysOver(FinalKeys, FinalLetters) && KeysOver(FinalKeysWithRG, FinalLetters)
  {
    assert KeysOver(FinalKeys, FinalLetters);
    assert forall k :: k in FinalKeysWithRG ==> k in FinalKeys || k == "RG";
  }

  /** A prefix spelled with `letters` ends before the first letter of `s`
      outside them. */
  lemma StopsAtForeignLetter(k: string, letters: set<char>, s: string, j: nat)
    requires Over(k, letters) && k <= s
    requires j < |s| && s[j] !in letters
    ensures |k| <= j
  {
    assert forall i :: 0 <= i < |k| ==> s[i] == k[i];
  }

  /** The fixed-length match of the counting-down loops on a key followed
      by a letter no key uses finds that key (none when it is empty), as long
      as the key is no longer than the first length tried. */
  lemma MatchOfJoin(keys: seq<string>, letters: set<char>, k: string, rest: string, n: nat)
    requires KeysOver(keys, letters)
    requires k == "" || (k in keys && |k| <= n)
    requires rest == "" || rest[0] !in letters
    ensures MatchedKey(keys, k + rest, n) == k
    ensures Drop(k + rest, MatchLength(keys, k + rest, n)) == rest
  {
    var s := k + rest;
    var len := MatchLength(keys, s, n);
    if k == "" {
      forall m | 1 <= m <= n
        ensures Take(s, m) !in keys
      {
        if Take(s, m) != "" {
          assert Take(s, m)[0] == rest[0];
        }
      }
    } else {
      assert Take(s, |k|) == k;
      assert len >= |k|;
      var m := Take(s, len);
      if rest != "" {
        assert s[|k|] == rest[0];
        StopsAtForeignLetter(m, letters, s, |k|);
      }
      assert m == k;
      assert Take(s, len) + Drop(s, len) == s;
    }
  }
}
