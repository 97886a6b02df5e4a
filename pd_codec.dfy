/** The syllable codec of process-dictionary.ts: a greedy longest-key
    tokenizer that fails on a missing vowel or on leftover keys, and the
    orthographic assembler with its post-processing. */
module ProcessDictionaryCodec {
  import opened StenoUtil
  import opened StenoTables

  /* ---------------- tokenizer ---------------- */

  /** The four maps parse reads. The tokenizer is stated over any maps;
      `SourceMaps` holds this file's. */
  datatype Maps = Maps(
    initials: Table<string>,
    vowels: Table<string>,
    finals: Table<string>,
    tones: Table<string>)

  const SourceMaps: Maps := Maps(Initials, Vowels, Finals, Tones)

  /** Every key has a value, and no key of the optional groups is empty. */
  predicate ValidMaps(m: Maps) {
    && |m.initials.keys| == |m.initials.values| && |m.vowels.keys| == |m.vowels.values|
    && |m.finals.keys| == |m.finals.values| && |m.tones.keys| == |m.tones.values|
    && "" !in m.initials.keys && "" !in m.finals.keys && "" !in m.tones.keys
  }

  /** The keys come from the groups' lists; only the vowel is mandatory. */
  predicate TableTokens(m: Maps, t: Tokens) {
    && (t.initialKey == "" || t.initialKey in m.initials.keys)
    && t.vowelKey in m.vowels.keys
    && (t.finalKey == "" || t.finalKey in m.finals.keys)
    && (t.toneKey == "" || t.toneKey in m.tones.keys)
  }

  /** The longest key of `keys` that is a prefix of `s`. Among keys of equal
      length at most one can be a prefix, so this is the key the source's
      length-sorted scan finds, whatever order its sort leaves ties in. */
  function LongestKey(keys: seq<string>, s: string): (r: Option<string>)
    ensures r.Some? ==> r.value in keys && r.value <= s
    ensures r.Some? ==> forall k :: k in keys && k <= s ==> |k| <= |r.value|
    ensures r.None? <==> forall k :: k in keys ==> !(k <= s)
  {
    if keys == [] then None
    else
      var rest := LongestKey(keys[1..], s);
      assert forall k :: k in keys ==> k == keys[0] || k in keys[1..];
      if keys[0] <= s && (rest.None? || |rest.value| < |keys[0]|) then Some(keys[0])
      else rest
  }

  /** Two prefixes of one string with the same length are the same string. */
  lemma PrefixesOfEqualLength(a: string, b: string, s: string)
    requires a <= s && b <= s && |a| == |b|
    ensures a == b
  {
    assert a == s[..|a|];
    assert b == s[..|b|];
  }

  /** A string is its prefix `k` followed by what comes after it. */
  lemma SplitAtPrefix(s: string, k: string)
    requires k <= s
    ensures s == k + s[|k|..]
  {
    assert s[..|k|] == k;
  }

  /** The matched key depends only on the set of keys, not on their order. */
  lemma LongestKeyOrderIndependent(keys1: seq<string>, keys2: seq<string>, s: string)
    requires forall k :: k in keys1 <==> k in keys2
    ensures LongestKey(keys1, s) == LongestKey(keys2, s)
  {
    var r1, r2 := LongestKey(keys1, s), LongestKey(keys2, s);
    if r1.Some? && r2.Some? {
      PrefixesOfEqualLength(r1.value, r2.value, s);
    }
  }

  function KeyOrEmpty(r: Option<string>): string {
    if r.Some? then r.value else ""
  }

  /** Splits off the longest key of `keys` that starts `s` ("" when none)
      and returns it with what follows it. */
  function Cut(keys: seq<string>, s: string): (r: (string, string))
    ensures r.0 + r.1 == s
    ensures r.0 == KeyOrEmpty(LongestKey(keys, s))
  {
    var k := KeyOrEmpty(LongestKey(keys, s));
    SplitAtPrefix(s, k);
    (k, s[|k|..])
  }

  /** What is left for the vowel group: the stroke without its glide key
      and without the longest initial key. */
  function AfterInitial(m: Maps, stroke: string): string {
    Cut(m.initials.keys, AfterGlide(stroke)).1
  }

  /** `parse` at the level of keys: glide, longest initial, longest vowel
      (mandatory), longest final, then a remainder that must be empty or
      exactly a tone key. */
  function Tokenize(m: Maps, stroke: string): (r: Option<Tokens>)
    ensures r.Some? ==> Untokenize(r.value) == stroke
    ensures r.Some? ==> r.value.glide == StartsWith(stroke, 'S')
    ensures r.Some? ==> TableTokens(m, r.value)
  {
    var glide := StartsWith(stroke, 'S');
    var (ik, s1) := Cut(m.initials.keys, AfterGlide(stroke));
    var vk := LongestKey(m.vowels.keys, s1);
    if vk.None? then None
    else
      var (fk, s3) := Cut(m.finals.keys, s1[|vk.value|..]);
      if s3 == "" || s3 in m.tones.keys then
        SplitAtPrefix(s1, vk.value);
        Some(Tokens(glide, ik, vk.value, fk, s3))
      else None
  }

  /** parse fails exactly when no vowel key starts what follows the initial,
      or when what follows the final is neither empty nor a tone key. */
  lemma TokenizeFailure(m: Maps, stroke: string)
    ensures Tokenize(m, stroke).None? <==>
      || (forall k :: k in m.vowels.keys ==> !(k <= AfterInitial(m, stroke)))
      || (var s1 := AfterInitial(m, stroke);
          var vk := LongestKey(m.vowels.keys, s1).value;
          var rest := Cut(m.finals.keys, s1[|vk|..]).1;
          rest != "" && rest !in m.tones.keys)
  {
  }

  /** Maximal munch: no key longer than the one each group took is a prefix
      of what that group saw. */
  lemma TokenizeIsGreedy(m: Maps, stroke: string)
    requires Tokenize(m, stroke).Some?
    ensures var t := Tokenize(m, stroke).value;
      var s1 := AfterInitial(m, stroke);
      var s2 := s1[|t.vowelKey|..];
      && (forall k :: k in m.initials.keys && k <= AfterGlide(stroke) ==> |k| <= |t.initialKey|)
      && (forall k :: k in m.vowels.keys && k <= s1 ==> |k| <= |t.vowelKey|)
      && (forall k :: k in m.finals.keys && k <= s2 ==> |k| <= |t.finalKey|)
  {
    var t := Tokenize(m, stroke).value;
    var s1 := AfterInitial(m, stroke);
    assert t.initialKey == KeyOrEmpty(LongestKey(m.initials.keys, AfterGlide(stroke)));
    assert LongestKey(m.vowels.keys, s1) == Some(t.vowelKey);
    assert t.finalKey == KeyOrEmpty(LongestKey(m.finals.keys, s1[|t.vowelKey|..]));
  }

  /** A parse: the tokens' map values. */
  function FromTokens(m: Maps, t: Tokens): Parsed
    requires ValidMaps(m)
  {
    Parsed(t.glide, GetOr(m.initials, t.initialKey, ""), GetOr(m.vowels, t.vowelKey, ""),
           GetOr(m.finals, t.finalKey, ""), GetOr(m.tones, t.toneKey, ""))
  }

  /** `parse` over the maps `m`: null becomes None. */
  function ParseWith(m: Maps, stroke: string): Option<Parsed>
    requires ValidMaps(m)
  {
    match Tokenize(m, stroke)
    case None => None
    case Some(t) => Some(FromTokens(m, t))
  }

  /** The maps of this file are valid. */
  lemma SourceMapsValid()
    ensures ValidMaps(SourceMaps)
  {
    TableFields();
    NoEmptyEntries();
  }

  /** `parse`. */
  function Parse(stroke: string): Option<Parsed> {
    SourceMapsValid();
    ParseWith(SourceMaps, stroke)
  }

  /** A successful parse has a vowel of the table, and every other field is
      empty or a value of its table. */
  lemma ParseFields(stroke: string)
    requires Parse(stroke).Some?
    ensures var p := Parse(stroke).value;
      && p.onGlide == StartsWith(stroke, 'S')
      && p.vowel in Vowels.values && p.vowel != ""
      && (p.initialConsonant == "" || p.initialConsonant in Initials.values)
      && (p.finalConsonant == "" || p.finalConsonant in Finals.values)
      && (p.tone == "" || p.tone in Tones.values)
  {
    NoEmptyEntries();
  }

  /* ---- the loops of parse: keys sorted by descending length, first prefix wins ---- */

  predicate SortedByLengthDesc(s: seq<string>) {
    forall i, j :: 0 <= i < j < |s| ==> |s[i]| >= |s[j]|
  }

  /** Stable insertion: `k` goes after every element at least as long. */
  function InsertByLength(k: string, sorted: seq<string>): (r: seq<string>)
    requires SortedByLengthDesc(sorted)
    ensures SortedByLengthDesc(r)
    ensures multiset(r) == multiset(sorted) + multiset{k}
    ensures forall x :: x in r ==> x == k || x in sorted
  {
    if sorted == [] then [k]
    else
      SortedSplit(sorted);
      if |k| > |sorted[0]| then
        SortedCons(k, sorted);
        [k] + sorted
      else
        var tail := InsertByLength(k, sorted[1..]);
        SortedCons(sorted[0], tail);
        assert sorted == [sorted[0]] + sorted[1..];
        assert forall x :: x in [sorted[0]] + tail ==> x == sorted[0] || x in tail;
        [sorted[0]] + tail
  }

  /** The head of a list sorted by descending length is its longest element,
      and the rest is sorted too. */
  lemma SortedSplit(sorted: seq<string>)
    requires SortedByLengthDesc(sorted) && sorted != []
    ensures SortedByLengthDesc(sorted[1..])
    ensures forall x :: x in sorted ==> |x| <= |sorted[0]|
  {
    forall x | x in sorted ensures |x| <= |sorted[0]| {
      var i :| 0 <= i < |sorted| && sorted[i] == x;
    }
  }

  /** A sorted list stays sorted under a head at least as long as each element. */
  lemma SortedCons(h: string, tail: seq<string>)
    requires SortedByLengthDesc(tail) && forall x :: x in tail ==> |x| <= |h|
    ensures SortedByLengthDesc([h] + tail)
  {
    var r := [h] + tail;
    forall i, j | 0 <= i < j < |r| ensures |r[i]| >= |r[j]| {
      if i == 0 {
        assert r[j] in tail;
      } else {
        assert r[i] == tail[i - 1] && r[j] == tail[j - 1];
      }
    }
  }

  /** `keys.sort((a, b) => b.length - a.length)`, a stable sort. */
  function SortByLengthDesc(keys: seq<string>): (r: seq<string>)
    ensures SortedByLengthDesc(r)
    ensures multiset(r) == multiset(keys)
  {
    if keys == [] then []
    else
      assert keys == keys[..|keys| - 1] + [keys[|keys| - 1]];
      InsertByLength(keys[|keys| - 1], SortByLengthDesc(keys[..|keys| - 1]))
  }

  /** In a list sorted by descending length, the first key that is a prefix
      is the longest key that is one. */
  lemma FirstPrefixIsLongest(sorted: seq<string>, keys: seq<string>, s: string, i: nat)
    requires SortedByLengthDesc(sorted) && multiset(sorted) == multiset(keys)
    requires i < |sorted| && sorted[i] <= s
    requires forall j :: 0 <= j < i ==> !(sorted[j] <= s)
    ensures LongestKey(keys, s) == Some(sorted[i])
  {
    assert sorted[i] in multiset(keys);
    assert sorted[i] in keys;
    var r := LongestKey(keys, s);
    var m := r.value;
    assert m in multiset(sorted);
    var j :| 0 <= j < |sorted| && sorted[j] == m;
    assert i <= j;
    PrefixesOfEqualLength(m, sorted[i], s);
  }

  /** The loop `for (const key of keys) if (startsWith(key)) … break` of
      parse: the index of the first key of `sorted` that is a prefix of `s`. */
  method FirstPrefix(sorted: seq<string>, s: string) returns (index: nat, found: bool)
    ensures found ==> index < |sorted| && sorted[index] <= s
    ensures forall j :: 0 <= j < |sorted| && (found ==> j < index) ==> !(sorted[j] <= s)
  {
    index, found := 0, false;
    for i := 0 to |sorted|
      invariant forall j :: 0 <= j < i ==> !(sorted[j] <= s)
      invariant !found && index == 0
    {
      if sorted[i] <= s {
        index, found := i, true;
        break;
      }
    }
  }

  /** One of the three matching loops of parse, over the table's keys sorted
      as the source sorts them. */
  method MatchLongestKey(t: Table<string>, s: string) returns (key: string, value: string, found: bool)
    requires |t.keys| == |t.values|
    ensures (if found then Some(key) else None) == LongestKey(t.keys, s)
    ensures found ==> value == GetOr(t, key, "")
    ensures !found ==> key == "" && value == ""
  {
    var sortedKeys := SortByLengthDesc(t.keys);
    var i;
    i, found := FirstPrefix(sortedKeys, s);
    if found {
      FirstPrefixIsLongest(sortedKeys, t.keys, s, i);
      key, value := sortedKeys[i], GetOr(t, sortedKeys[i], "");
    } else {
      NoPrefixFound(sortedKeys, t.keys, s);
      key, value := "", "";
    }
  }

  /** When no key of the sorted copy is a prefix, no key is. */
  lemma NoPrefixFound(sorted: seq<string>, keys: seq<string>, s: string)
    requires multiset(sorted) == multiset(keys)
    requires forall j :: 0 <= j < |sorted| ==> !(sorted[j] <= s)
    ensures LongestKey(keys, s).None?
  {
    forall k | k in keys ensures !(k <= s) {
      assert k in multiset(sorted);
    }
  }

  /** One group of parse: the matching loop, then, when a key matched,
      `currentStroke = currentStroke.substring(key.length)`. Returns the
      matched key ("" when none), its table value ("" when none) and the
      rest of the stroke. */
  method MatchGroup(t: Table<string>, s: string) returns (key: string, value: string, rest: string)
    requires |t.keys| == |t.values| && "" !in t.keys
    ensures (key, rest) == Cut(t.keys, s)
    ensures value == GetOr(t, key, "")
  {
    var found;
    key, value, found := MatchLongestKey(t, s);
    rest := s;
    if found {
      rest := s[|key|..];
    }
    assert (key, rest) == Cut(t.keys, s) by {
      var c := Cut(t.keys, s);
      assert c.0 == key;
      assert (c.0 + c.1)[|key|..] == c.1;
    }
  }

  /** `parse`, imperatively, over the maps `m`: it consumes `currentStroke`
      group by group. The second check for leftover characters (source lines
      138-141) can never fire and is not repeated here. */
  method ParseStrokeWith(m: Maps, stroke: string) returns (r: Option<Parsed>)
    requires ValidMaps(m)
    ensures r == ParseWith(m, stroke)
  {
    var currentStroke := stroke;
    var onGlide := StartsWith(currentStroke, 'S');
    if onGlide {
      currentStroke := currentStroke[1..];
    }
    var initialKey, initialConsonant;
    initialKey, initialConsonant, currentStroke := MatchGroup(m.initials, currentStroke);

    var vowelKey, vowel, foundVowel := MatchLongestKey(m.vowels, currentStroke);
    if !foundVowel {
      return None;
    }
    currentStroke := currentStroke[|vowelKey|..];

    var finalKey, finalConsonant;
    finalKey, finalConsonant, currentStroke := MatchGroup(m.finals, currentStroke);

    var tone := "";
    if |currentStroke| > 0 {
      if currentStroke in m.tones.keys {
        tone := GetOr(m.tones, currentStroke, "");
      } else {
        return None;
      }
    }
    r := Some(Parsed(onGlide, initialConsonant, vowel, finalConsonant, tone));
    assert Tokenize(m, stroke) == Some(Tokens(onGlide, initialKey, vowelKey, finalKey, currentStroke));
  }

  /** `parse` over this file's maps. */
  method ParseStroke(stroke: string) returns (r: Option<Parsed>)
    ensures r == Parse(stroke)
  {
    SourceMapsValid();
    r := ParseStrokeWith(SourceMaps, stroke);
  }

  /* ---- greedy soundness: every table stroke is cut back into its own keys ---- */

  /** If the key `k` is followed by a letter no key uses, the longest match
      on `k + rest` is `k` itself (none at all when `k` is empty). */
  lemma LongestKeyOfJoin(keys: seq<string>, letters: set<char>, k: string, rest: string)
    requires KeysOver(keys, letters)
    requires k == "" || k in keys
    requires rest == "" || rest[0] !in letters
    ensures LongestKey(keys, k + rest) == if k == "" then None else Some(k)
  {
    var s := k + rest;
    forall k' | k' in keys && k' <= s ensures |k'| <= |k| {
      if rest != "" {
        assert s[|k|] == rest[0];
        StopsAtForeignLetter(k', letters, s, |k|);
      }
    }
    if k != "" {
      PrefixesOfEqualLength(LongestKey(keys, s).value, k, s);
    }
  }

  /** The same for the cut: it splits `k + rest` into `k` and `rest`. */
  lemma CutOfJoin(keys: seq<string>, letters: set<char>, k: string, rest: string)
    requires KeysOver(keys, letters)
    requires k == "" || k in keys
    requires rest == "" || rest[0] !in letters
    ensures Cut(keys, k + rest) == (k, rest)
  {
    LongestKeyOfJoin(keys, letters, k, rest);
    var c := Cut(keys, k + rest);
    assert c.0 == k;
    assert c.1 == (k + rest)[|k|..];
  }

  /** Keys that tokenize unambiguously: the vowel keys share no letter with
      the initials and the finals or tones, and the finals none with the tones'
      first letters. */
  predicate Separated(m: Maps, il: set<char>, vl: set<char>, fl: set<char>, tl: set<char>) {
    && KeysOver(m.initials.keys, il) && KeysOver(m.vowels.keys, vl)
    && KeysOver(m.finals.keys, fl) && KeysOver(m.tones.keys, tl)
    && 'S' !in il && 'S' !in vl
    && vl !! il && vl !! fl && vl !! tl && fl !! tl
  }

  /** Every combination of separated keys tokenizes back into exactly those
      keys, so the greedy tokenizer never needs to backtrack on them. */
  lemma {:induction false} GreedyRoundTripWith(m: Maps, il: set<char>, vl: set<char>, fl: set<char>, tl: set<char>, t: Tokens)
    requires Separated(m, il, vl, fl, tl) && TableTokens(m, t)
    ensures Tokenize(m, Untokenize(t)) == Some(t)
  {
    var rest2 := t.finalKey + t.toneKey;
    var rest1 := t.vowelKey + rest2;
    var s0 := t.initialKey + rest1;
    var stroke := Untokenize(t);
    assert rest1[0] == t.vowelKey[0];
    assert s0[0] in il + vl by {
      if t.initialKey != "" { assert s0[0] == t.initialKey[0]; }
    }
    assert AfterGlide(stroke) == s0 by {
      if t.glide { assert stroke == "S" + s0; assert stroke[1..] == s0; }
    }
    CutOfJoin(m.initials.keys, il, t.initialKey, rest1);
    assert rest2 == "" || rest2[0] in fl + tl by {
      if t.finalKey != "" { assert rest2[0] == t.finalKey[0]; }
      else if t.toneKey != "" { assert rest2[0] == t.toneKey[0]; }
    }
    LongestKeyOfJoin(m.vowels.keys, vl, t.vowelKey, rest2);
    assert rest1[|t.vowelKey|..] == rest2;
    assert t.toneKey == "" || t.toneKey[0] in tl;
    CutOfJoin(m.finals.keys, fl, t.finalKey, t.toneKey);
  }

  /** The tables of this file are separated, so every table stroke is cut
      back into its own keys. */
  lemma GreedyRoundTrip(t: Tokens)
    requires TableTokens(SourceMaps, t)
    ensures Tokenize(SourceMaps, Untokenize(t)) == Some(t)
  {
    TableLetters();
    GreedyRoundTripWith(SourceMaps, InitialLetters, VowelLetters, FinalLetters, ToneLetters, t);
  }

  /* ---------------- assembler ---------------- */

  /** The vowels before which "c", "g" and "ng/ngh" keep their plain spelling. */
  predicate BackVowel(v: string) {
    v in ["a", "ă", "â", "o", "ô", "ơ", "u", "ư", "ua/uô", "ưa/ươ"]
  }

  /** `getInitial`. */
  function GetInitial(p: Parsed): (r: string)
    ensures r == "" <==> p.initialConsonant == ""
  {
    var f := BackVowel(p.vowel);
    if p.initialConsonant == "ng/ngh" then (if p.onGlide || f then "ng" else "ngh")
    else if p.initialConsonant == "g" then (if p.onGlide || f then "g" else "gh")
    else if p.initialConsonant == "gi" then (if !p.onGlide && p.vowel == "i" then "g" else "gi")
    else if p.initialConsonant == "c" then (if p.onGlide then "q" else if f then "c" else "k")
    else p.initialConsonant
  }

  /** `applyTone`: the toned letter when the table has one, otherwise the base. */
  function ApplyTone(base: string, tone: string): (r: string)
    ensures base != "" ==> r != ""
  {
    AccentIsOneLetter(base, tone);
    Accent(base, tone).GetOr(base)
  }

  /** The glide letter written before a vowel: "u" after a "q", else "o". */
  function GlideLetter(p: Parsed): string {
    if GetInitial(p) == "q" then "u" else "o"
  }

  /** `getMiddle`. In the "i" case the source's special branch for a "g"
      initial (lines 193-195) returns the same value as the fall-through. */
  function GetMiddle(p: Parsed): string {
    var t := p.tone;
    var noFinal := p.finalConsonant == "";
    if p.vowel == "iê/ia" then
      if p.initialConsonant == "" then (if p.onGlide then "uy" else "y") + ApplyTone("ê", t)
      else if p.onGlide then "uy" + (if noFinal then ApplyTone("a", t) else ApplyTone("ê", t))
      else if noFinal then ApplyTone("i", t) + "a"
      else "i" + ApplyTone("ê", t)
    else if p.vowel == "ua/uô" then
      if noFinal then ApplyTone("u", t) + "a" else "u" + ApplyTone("ô", t)
    else if p.vowel == "ưa/ươ" then
      if noFinal then ApplyTone("ư", t) + "a" else "ư" + ApplyTone("ơ", t)
    else if p.vowel == "i" then
      if p.onGlide then
        if noFinal then (if GetInitial(p) == "q" then "u" + ApplyTone("y", t) else ApplyTone("u", t) + "y")
        else "u" + ApplyTone("y", t)
      else ApplyTone("i", t)
    else if p.vowel == "ă" then
      if p.finalConsonant in ["w", "j"] then (if p.onGlide then GlideLetter(p) else "") + ApplyTone("a", t)
      else if p.onGlide then GlideLetter(p) + ApplyTone("ă", t)
      else ApplyTone("ă", t)
    else if p.vowel == "â" || p.vowel == "ê" then
      if p.onGlide then GlideLetter(p) + ApplyTone(p.vowel, t) else ApplyTone(p.vowel, t)
    else if p.onGlide then
      var glide := GlideLetter(p);
      if ((glide == "o" && p.vowel in ["a", "e"]) || (glide == "u" && p.vowel == "y")) && noFinal then
        ApplyTone(glide, t) + p.vowel
      else glide + ApplyTone(p.vowel, t)
    else ApplyTone(p.vowel, t)
  }

  /** The vowels after which a "w" final is written "u". */
  predicate FrontForW(v: string) {
    v in ["i", "y", "iê/ia", "u", "ư", "ưa/ươ", "ê"] || v == "ă" || v == "â"
  }

  /** `getFinal`. */
  function GetFinal(p: Parsed): (r: string)
    ensures r == "" <==> p.finalConsonant == ""
  {
    if p.finalConsonant == "w" then (if FrontForW(p.vowel) then "u" else "o")
    else if p.finalConsonant == "j" then (if p.vowel == "ă" || p.vowel == "â" then "y" else "i")
    else p.finalConsonant
  }

  /** The post-processing of `assemble` (source lines 272-283) on the three
      rendered parts. */
  function PostProcess(initialPart: string, middlePart: string, finalPart: string, tone: string): string {
    if initialPart == "g" && Accent("i", tone) == Some(middlePart) && finalPart == "" then
      "g" + middlePart
    else if initialPart == "q" && StartsWith(middlePart, 'u') then
      initialPart + middlePart[1..] + finalPart
    else
      initialPart + middlePart + finalPart
  }

  /** `assemble` as the source writes it, post-processing included. The
      dictionary cache is built with this assembler, as the program's is. */
  function Assemble(p: Parsed): string {
    PostProcess(GetInitial(p), GetMiddle(p), GetFinal(p), p.tone)
  }

  /** The middle starts with a doubled "u": the glide "u" it writes after a
      "q", followed by the vowel "u" or a toned form of it. */
  predicate DoubledU(m: string) {
    |m| >= 2 && m[0] == 'u' && m[1] in UForms
  }

  /** `assemble` with the "q" rule narrowed to the case its comment names:
      after "q" the middle loses its first letter only when that letter
      starts a doubled "u", so "quu" becomes "qu" while "qua" and "quy" keep
      their "u". The "g" rule is not repeated: PostProcessEffect shows that it
      only joins the parts. */
  function AssembleCorrected(p: Parsed): string {
    var i, m, f := GetInitial(p), GetMiddle(p), GetFinal(p);
    if i == "q" && DoubledU(m) then i + m[1..] + f else i + m + f
  }

  /** The "g" + toned "i" rule of the post-processing returns what plain
      concatenation returns; only the "q" rule changes the output, by
      dropping the first letter of the middle. */
  lemma PostProcessEffect(initialPart: string, middlePart: string, finalPart: string, tone: string)
    ensures PostProcess(initialPart, middlePart, finalPart, tone) ==
      if initialPart == "q" && StartsWith(middlePart, 'u') then initialPart + middlePart[1..] + finalPart
      else initialPart + middlePart + finalPart
  {
    if initialPart == "g" && finalPart == "" {
      assert initialPart + middlePart + finalPart == "g" + middlePart;
    }
  }

  /** The as-written assembler differs from the corrected one exactly after a
      "q" whose middle starts with a "u" that is not doubled, and there by
      dropping that one letter. */
  lemma AsWrittenVersusCorrected(p: Parsed)
    ensures var a := AssembleCorrected(p);
      if GetInitial(p) == "q" && StartsWith(GetMiddle(p), 'u') && !DoubledU(GetMiddle(p)) then
        |a| >= 2 && a[..2] == "qu" && Assemble(p) == a[..1] + a[2..] && Assemble(p) != a
      else Assemble(p) == a
  {
    var i, m, f := GetInitial(p), GetMiddle(p), GetFinal(p);
    PostProcessEffect(i, m, f, p.tone);
    if i == "q" && StartsWith(m, 'u') && !DoubledU(m) {
      DropSecondLetter(i, m, f);
      var a := i + m + f;
      assert |a[..1] + a[2..]| == |a| - 1;
    }
  }

  /** "q" + m + f with m starting with "u" begins "qu", and "q" + m[1..] + f
      is it without its second letter. */
  lemma DropSecondLetter(i: string, m: string, f: string)
    requires i == "q" && StartsWith(m, 'u')
    ensures var a := i + m + f;
      |a| >= 2 && a[..2] == "qu" && i + m[1..] + f == a[..1] + a[2..]
  {
    var a := i + m + f;
    assert a[..2] == "qu";
    assert a[2..] == m[1..] + f;
    assert a[..1] == "q";
  }

  /** The intended property, proved of the corrected assembler: a glide
      syllable on "c" is spelled "q" and then one "u", the glide's. A form of
      "u" follows the "q" and no second one follows it, except that the vowel
      "u" is then written once, in place of the glide; "ưa/ươ", which the
      middle writes without a glide letter, follows the "q" directly. */
  lemma CorrectedQIsFollowedByU(p: Parsed)
    requires p.initialConsonant == "c" && p.onGlide && p.vowel in VowelValues
    ensures var a := AssembleCorrected(p);
      |a| >= 2 && a[0] == 'q'
      && (p.vowel != "ưa/ươ" ==> a[1] in UForms)
      && (p.vowel != "ưa/ươ" && p.vowel != "u" ==> |a| >= 3 && a[2] !in UForms)
      && (p.vowel == "u" ==> a == "q" + ApplyTone("u", p.tone) + GetFinal(p))
      && (p.vowel == "ưa/ươ" ==> a == "q" + GetMiddle(p) + GetFinal(p) && a[1] !in UForms)
  {
    var m, f, u := GetMiddle(p), GetFinal(p), ApplyTone("u", p.tone);
    assert GetInitial(p) == "q";
    GlideMiddleAfterQ(p);
    ToneKeepsU("u", p.tone);
    QSpelling(p.vowel, u, m, f);
  }

  /** What "q" followed by a middle of that shape and a final spells under
      the corrected rule; `u` is the toned vowel "u". */
  lemma QSpelling(v: string, u: string, m: string, f: string)
    requires AfterQ(v, u, m) && |u| == 1 && u[0] in UForms
    ensures var a := if DoubledU(m) then "q" + m[1..] + f else "q" + m + f;
      |a| >= 2 && a[0] == 'q'
      && (v != "ưa/ươ" ==> a[1] in UForms)
      && (v != "ưa/ươ" && v != "u" ==> |a| >= 3 && a[2] !in UForms)
      && (v == "u" ==> a == "q" + u + f)
      && (v == "ưa/ươ" ==> a == "q" + m + f && a[1] !in UForms)
  {
    var a := if DoubledU(m) then "q" + m[1..] + f else "q" + m + f;
    if v == "u" {
      assert m[1..] == u;
    } else {
      assert !DoubledU(m);
      assert a[1] == m[0] && a[2] == m[1];
    }
  }

  /** The shape of the middle written after "q": two letters or more, the
      first a form of "u" and the second not, save for the vowel "u" (the
      glide "u" and then `u`, the toned vowel) and "ưa/ươ" (no "u" in
      front). */
  predicate AfterQ(v: string, u: string, m: string) {
    && |m| >= 2
    && (v != "ưa/ươ" ==> m[0] in UForms)
    && (v != "ưa/ươ" && v != "u" ==> m[1] !in UForms)
    && (v == "u" ==> m == "u" + u)
    && (v == "ưa/ươ" ==> m[0] !in UForms)
  }

  lemma GlideMiddleAfterQ(p: Parsed)
    requires p.initialConsonant == "c" && p.onGlide && p.vowel in VowelValues
    ensures AfterQ(p.vowel, ApplyTone("u", p.tone), GetMiddle(p))
  {
    if p.vowel in ["iê/ia", "ua/uô", "ưa/ươ"] {
      QDiphthongMiddle(p);
    } else {
      assert p.vowel in AccentBases;
      QSingleMiddle(p);
    }
  }

  lemma QDiphthongMiddle(p: Parsed)
    requires p.initialConsonant == "c" && p.onGlide && p.vowel in ["iê/ia", "ua/uô", "ưa/ươ"]
    ensures AfterQ(p.vowel, ApplyTone("u", p.tone), GetMiddle(p))
  {
    var v, t, nf := p.vowel, p.tone, p.finalConsonant == "";
    MiddleOfDiphthong(p);
    DiphthongsDiffer();
    if v == "iê/ia" {
      AfterQOfIa(if nf then ApplyTone("a", t) else ApplyTone("ê", t), GetMiddle(p));
    } else if v == "ua/uô" {
      ToneKeepsU("u", t);
      ToneKeepsU("ô", t);
      AfterQOfUa(ApplyTone("u", t), ApplyTone("ô", t), GetMiddle(p), nf);
    } else {
      ToneKeepsU("ư", t);
      ToneKeepsU("ơ", t);
      AfterQOfUHornA(ApplyTone("ư", t), GetMiddle(p), nf, ApplyTone("ơ", t));
    }
  }

  lemma QSingleMiddle(p: Parsed)
    requires p.initialConsonant == "c" && p.onGlide && p.vowel in AccentBases
    ensures AfterQ(p.vowel, ApplyTone("u", p.tone), GetMiddle(p))
  {
    var v, t, nf := p.vowel, p.tone, p.finalConsonant == "";
    BasesAreNotDiphthongs();
    assert GetInitial(p) == "q";
    if v == "i" {
      MiddleGlideI(p);
      ToneKeepsU("y", t);
      JoinUThenOther("u", ApplyTone("y", t));
    } else if v == "ă" && p.finalConsonant in ["w", "j"] {
      MiddleBeforeWJ(p);
      ToneKeepsU("a", t);
      JoinUThenOther("u", ApplyTone("a", t));
    } else {
      MiddleOnGlide(p);
      ToneKeepsU("u", t);
      ToneKeepsU(v, t);
      AfterQOfBase(v, ApplyTone("u", t), ApplyTone(v, t), GetMiddle(p), nf);
    }
  }

  /** `ApplyTone` keeps a base letter one letter long, a form of "u" exactly
      when the base is "u". */
  lemma ToneKeepsU(base: string, tone: string)
    requires base in AccentBases
    ensures |ApplyTone(base, tone)| == 1 && (ApplyTone(base, tone)[0] in UForms <==> base == "u")
  {
    AccentKeepsU(base, tone);
  }

  lemma DiphthongsDiffer()
    ensures "iê/ia" != "ưa/ươ" && "ua/uô" != "ưa/ươ" && "iê/ia" != "u" && "ua/uô" != "u"
  {
    assert "iê/ia"[0] != "ưa/ươ"[0] && "ua/uô"[0] != "ưa/ươ"[0];
  }

  /** A form of "u" and then a letter that is not one. */
  predicate UThenOther(m: string) {
    |m| >= 2 && m[0] in UForms && m[1] !in UForms
  }

  lemma JoinUThenOther(x: string, y: string)
    requires |x| == 1 && x[0] in UForms && |y| >= 1 && y[0] !in UForms
    ensures UThenOther(x + y)
  {
    var m := x + y;
    assert m[0] == x[0] && m[1] == y[0];
  }

  lemma AfterQOfIa(e: string, m: string)
    requires m == "uy" + e
    ensures UThenOther(m)
  {
    assert m == "u" + ("y" + e);
    JoinUThenOther("u", "y" + e);
  }

  lemma AfterQOfUa(u: string, o: string, m: string, nf: bool)
    requires |u| == 1 && u[0] in UForms && |o| == 1 && o[0] !in UForms
    requires m == if nf then u + "a" else "u" + o
    ensures UThenOther(m)
  {
    if nf {
      JoinUThenOther(u, "a");
    } else {
      JoinUThenOther("u", o);
    }
  }

  lemma AfterQOfUHornA(w: string, m: string, nf: bool, o: string)
    requires |w| == 1 && w[0] !in UForms && |o| == 1
    requires m == if nf then w + "a" else "ư" + o
    ensures |m| >= 2 && m[0] !in UForms
  {
    var x := if nf then w else "ư";
    assert m[0] == x[0];
  }

  lemma AfterQOfBase(v: string, u: string, x: string, m: string, nf: bool)
    requires |u| == 1 && u[0] in UForms && |x| == 1 && (x[0] in UForms <==> v == "u")
    requires m == if v == "y" && nf then u + "y" else "u" + x
    ensures v == "u" ==> m == "u" + x
    ensures v != "u" ==> UThenOther(m)
  {
    if v == "y" && nf {
      JoinUThenOther(u, "y");
    } else if v != "u" {
      JoinUThenOther("u", x);
    }
  }

  /** The middle of a syllable with a vowel is never empty. */
  lemma MiddleNonEmpty(p: Parsed)
    requires p.vowel != ""
    ensures GetMiddle(p) != ""
  {
    var t := p.tone;
    if p.vowel == "iê/ia" {
      assert ApplyTone("ê", t) != "";
    } else if p.vowel == "ua/uô" || p.vowel == "ưa/ươ" {
    } else if p.vowel == "i" {
      assert ApplyTone("y", t) != "";
    } else if p.vowel == "ă" {
      assert ApplyTone("a", t) != "";
    } else {
      assert ApplyTone(p.vowel, t) != "";
    }
  }

  /** Every successful parse assembles to a non-empty syllable, as written
      and corrected, which is why the cache's emptiness test (source line
      356) never rejects one. */
  lemma AssembleNonEmpty(stroke: string)
    requires Parse(stroke).Some?
    ensures |Assemble(Parse(stroke).value)| > 0
    ensures |AssembleCorrected(Parse(stroke).value)| > 0
  {
    var p := Parse(stroke).value;
    ParseFields(stroke);
    MiddleNonEmpty(p);
    PostProcessEffect(GetInitial(p), GetMiddle(p), GetFinal(p), p.tone);
  }

  /** The diphthongs are spelled by the final: "ia", "ua", "ưa" with the tone
      on the first letter in an open syllable, "iê", "uô", "ươ" with the tone
      on the second letter before a final. Without an initial "iê/ia" is
      "yê" ("uyê" after a glide); after an initial and a glide it is "uya"
      open and "uyê" closed. */
  lemma MiddleOfDiphthong(p: Parsed)
    ensures p.vowel == "ua/uô" ==>
      GetMiddle(p) == (if p.finalConsonant == "" then ApplyTone("u", p.tone) + "a" else "u" + ApplyTone("ô", p.tone))
    ensures p.vowel == "ưa/ươ" ==>
      GetMiddle(p) == (if p.finalConsonant == "" then ApplyTone("ư", p.tone) + "a" else "ư" + ApplyTone("ơ", p.tone))
    ensures p.vowel == "iê/ia" && p.initialConsonant == "" ==>
      GetMiddle(p) == (if p.onGlide then "uy" else "y") + ApplyTone("ê", p.tone)
    ensures p.vowel == "iê/ia" && p.initialConsonant != "" && p.onGlide ==>
      GetMiddle(p) == "uy" + (if p.finalConsonant == "" then ApplyTone("a", p.tone) else ApplyTone("ê", p.tone))
    ensures p.vowel == "iê/ia" && p.initialConsonant != "" && !p.onGlide ==>
      GetMiddle(p) == if p.finalConsonant == "" then ApplyTone("i", p.tone) + "a" else "i" + ApplyTone("ê", p.tone)
  {
  }

  /** After a glide the vowel "i" is written "y" behind the glide "u": the
      tone goes on the "y" after "q" or before a final, on the "u" otherwise. */
  lemma MiddleGlideI(p: Parsed)
    requires p.onGlide && p.vowel == "i"
    ensures p.finalConsonant == "" && GetInitial(p) != "q" ==> GetMiddle(p) == ApplyTone("u", p.tone) + "y"
    ensures p.finalConsonant != "" || GetInitial(p) == "q" ==> GetMiddle(p) == "u" + ApplyTone("y", p.tone)
  {
  }

  /** After a glide a single vowel other than "i" follows the glide letter,
      "u" after "q" and "o" otherwise; the tone goes on the glide letter in an
      open "oa", "oe" and "uy", and on the vowel everywhere else. */
  lemma MiddleOnGlide(p: Parsed)
    requires p.onGlide && p.vowel in AccentBases && p.vowel != "i"
    requires !(p.vowel == "ă" && p.finalConsonant in ["w", "j"])
    ensures GetInitial(p) == "q" ==>
      GetMiddle(p) == (if p.vowel == "y" && p.finalConsonant == "" then ApplyTone("u", p.tone) + "y"
                       else "u" + ApplyTone(p.vowel, p.tone))
    ensures GetInitial(p) != "q" ==>
      GetMiddle(p) == (if (p.vowel == "a" || p.vowel == "e") && p.finalConsonant == "" then ApplyTone("o", p.tone) + p.vowel
                       else "o" + ApplyTone(p.vowel, p.tone))
  {
    BasesAreNotDiphthongs();
  }

  /** Without a glide a single vowel is the vowel with its tone. */
  lemma MiddleWithoutGlide(p: Parsed)
    requires !p.onGlide && p.vowel in AccentBases
    requires !(p.vowel == "ă" && p.finalConsonant in ["w", "j"])
    ensures GetMiddle(p) == ApplyTone(p.vowel, p.tone)
  {
    BasesAreNotDiphthongs();
  }

  /** Before the finals "w" and "j" the vowel "ă" is written "a", behind the
      glide letter when there is a glide. */
  lemma MiddleBeforeWJ(p: Parsed)
    requires p.vowel == "ă" && p.finalConsonant in ["w", "j"]
    ensures GetMiddle(p) ==
      (if !p.onGlide then "" else if GetInitial(p) == "q" then "u" else "o") + ApplyTone("a", p.tone)
  {
  }

  /** The spelling rules of `getInitial`, each in both directions, for the
      initials a parse produces: "c" is written "q" before a glide and "k"
      before a front vowel; "g" and "ng/ngh" take an "h" before a front vowel;
      "gi" loses its "i" before the vowel "i"; the rest are written as parsed. */
  lemma InitialRules(p: Parsed)
    requires p.initialConsonant == "" || p.initialConsonant in InitialValues
    ensures GetInitial(p) == "q" <==> p.initialConsonant == "c" && p.onGlide
    ensures GetInitial(p) == "k" <==> p.initialConsonant == "c" && !p.onGlide && !BackVowel(p.vowel)
    ensures GetInitial(p) == "ngh" <==> p.initialConsonant == "ng/ngh" && !p.onGlide && !BackVowel(p.vowel)
    ensures GetInitial(p) == "gh" <==> p.initialConsonant == "g" && !p.onGlide && !BackVowel(p.vowel)
    ensures GetInitial(p) == "g" <==>
      (p.initialConsonant == "g" && (p.onGlide || BackVowel(p.vowel)))
      || (p.initialConsonant == "gi" && !p.onGlide && p.vowel == "i")
    ensures GetInitial(p) == "c" <==> p.initialConsonant == "c" && !p.onGlide && BackVowel(p.vowel)
    ensures GetInitial(p) == "ng" <==> p.initialConsonant == "ng/ngh" && (p.onGlide || BackVowel(p.vowel))
    ensures GetInitial(p) == "gi" <==> p.initialConsonant == "gi" && (p.onGlide || p.vowel != "i")
    ensures p.initialConsonant !in ["c", "g", "gi", "ng/ngh"] ==> GetInitial(p) == p.initialConsonant
  {
  }

  /** The spelling rules of `getFinal`, each in both directions, for the
      finals a parse produces: "w" is written "u" after a front vowel and "o"
      otherwise; "j" is written "y" after "ă" and "â" and "i" otherwise. */
  lemma FinalRules(p: Parsed)
    requires p.finalConsonant == "" || p.finalConsonant in FinalValues
    ensures GetFinal(p) == "u" <==> p.finalConsonant == "w" && FrontForW(p.vowel)
    ensures GetFinal(p) == "o" <==> p.finalConsonant == "w" && !FrontForW(p.vowel)
    ensures GetFinal(p) == "y" <==> p.finalConsonant == "j" && (p.vowel == "ă" || p.vowel == "â")
    ensures GetFinal(p) == "i" <==> p.finalConsonant == "j" && p.vowel != "ă" && p.vowel != "â"
    ensures p.finalConsonant !in ["w", "j"] ==> GetFinal(p) == p.finalConsonant
  {
  }

  /** Parsing the stroke that table keys spell gives those keys' values. */
  lemma ParseOfTokens(t: Tokens, p: Parsed)
    requires TableTokens(SourceMaps, t)
    requires ValidMaps(SourceMaps) && FromTokens(SourceMaps, t) == p
    ensures Parse(Untokenize(t)) == Some(p)
  {
    GreedyRoundTrip(t);
  }

  lemma ExampleKeys()
    ensures "K" in Initials.keys && "KH" in Initials.keys && "TK" in Initials.keys
    ensures "OEU" in Vowels.keys && "EU" in Vowels.keys && "A" in Vowels.keys && "AE" in Vowels.keys
    ensures "F" in Finals.keys
  {
    InitialK(); InitialKH(); InitialTK();
    VowelOEU(); VowelEU(); VowelA(); VowelAE();
    FinalF();
  }

  lemma ExampleSpellings()
    ensures Untokenize(Tokens(false, "KH", "OEU", "", "")) == "KHOEU"
    ensures Untokenize(Tokens(false, "TK", "AE", "F", "")) == "TKAEF"
    ensures Untokenize(Tokens(true, "K", "A", "", "")) == "SKA"
    ensures Untokenize(Tokens(true, "K", "EU", "", "")) == "SKEU"
  {
  }

  /** Parsing "KHOEU" gives "ch" and "iê/ia"; parsing "TKAEF" gives "đ", "ă"
      and "w". */
  lemma ExampleParses()
    ensures Parse("KHOEU") == Some(Parsed(false, "ch", "iê/ia", "", ""))
    ensures Parse("TKAEF") == Some(Parsed(false, "đ", "ă", "w", ""))
  {
    ExampleKeys();
    SourceMapsValid();
    InitialKH(); InitialTK(); VowelOEU(); VowelAE(); FinalF();
    ExampleSpellings();
    ParseOfTokens(Tokens(false, "KH", "OEU", "", ""), Parsed(false, "ch", "iê/ia", "", ""));
    ParseOfTokens(Tokens(false, "TK", "AE", "F", ""), Parsed(false, "đ", "ă", "w", ""));
  }

  /** The worked examples: "KHOEU" is written "chia", and "TKAEF" is written
      "đau" (an "ă" before the "w" final is written "a"). */
  lemma Examples()
    ensures Parse("KHOEU").Some? && Assemble(Parse("KHOEU").value) == "chia"
    ensures Parse("TKAEF").Some? && Assemble(Parse("TKAEF").value) == "đau"
  {
    ExampleParses();
    ExampleAssemblies();
  }

  lemma ExampleAssemblies()
    ensures Assemble(Parsed(false, "ch", "iê/ia", "", "")) == "chia"
    ensures Assemble(Parsed(false, "đ", "ă", "w", "")) == "đau"
  {
    AssembleChia(Parsed(false, "ch", "iê/ia", "", ""));
    AssembleDau(Parsed(false, "đ", "ă", "w", ""));
  }

  lemma EndsChia(p: Parsed)
    requires p == Parsed(false, "ch", "iê/ia", "", "")
    ensures GetInitial(p) == "ch" && GetFinal(p) == ""
  {
  }

  lemma MiddleChia(p: Parsed)
    requires p == Parsed(false, "ch", "iê/ia", "", "")
    ensures GetMiddle(p) == "ia"
  {
    MiddleOfDiphthong(p);
    UnmarkedI();
    ExampleWords();
  }

  lemma UnmarkedI() ensures ApplyTone("i", "") == "i" { AccentUnmarked("i"); }
  lemma UnmarkedA() ensures ApplyTone("a", "") == "a" { AccentUnmarked("a"); }
  lemma UnmarkedY() ensures ApplyTone("y", "") == "y" { AccentUnmarked("y"); }
  lemma UnmarkedU() ensures ApplyTone("u", "") == "u" { AccentUnmarked("u"); }
  lemma UnmarkedUHorn() ensures ApplyTone("ư", "") == "ư" { AccentUnmarked("ư"); }

  lemma AssembleChia(p: Parsed)
    requires p == Parsed(false, "ch", "iê/ia", "", "")
    ensures Assemble(p) == "chia"
  {
    MiddleChia(p);
    EndsChia(p);
    PostProcessEffect("ch", "ia", "", "");
    ExampleWords();
  }

  lemma EndsDau(p: Parsed)
    requires p == Parsed(false, "đ", "ă", "w", "")
    ensures GetInitial(p) == "đ" && GetFinal(p) == "u"
  {
  }

  lemma MiddleDau(p: Parsed)
    requires p == Parsed(false, "đ", "ă", "w", "")
    ensures GetMiddle(p) == "a"
  {
    MiddleBeforeWJ(p);
    UnmarkedA();
  }

  lemma AssembleDau(p: Parsed)
    requires p == Parsed(false, "đ", "ă", "w", "")
    ensures Assemble(p) == "đau"
  {
    MiddleDau(p);
    EndsDau(p);
    PostProcessEffect("đ", "a", "u", "");
    ExampleWords();
  }

  lemma ExampleWords()
    ensures "ch" + "ia" + "" == "chia" && "đ" + "a" + "u" == "đau" && "i" + "a" == "ia"
  {
  }

  /* ---- the "q" post-processing (see README, Findings) ---- */

  /** Parsing "SKA" gives the glide, "c" and "a"; parsing "SKEU" gives the
      glide, "c" and "i". */
  lemma GlideParses()
    ensures Parse("SKA") == Some(Parsed(true, "c", "a", "", ""))
    ensures Parse("SKEU") == Some(Parsed(true, "c", "i", "", ""))
  {
    ExampleKeys();
    SourceMapsValid();
    InitialK(); VowelA(); VowelEU();
    ExampleSpellings();
    ParseOfTokens(Tokens(true, "K", "A", "", ""), Parsed(true, "c", "a", "", ""));
    ParseOfTokens(Tokens(true, "K", "EU", "", ""), Parsed(true, "c", "i", "", ""));
  }

  /** Parsing "SKU", "SKAEU" and "SKAOE" gives the glide syllables on "c"
      with the vowels "u", "ua/uô" and "ưa/ươ". */
  lemma MoreGlideParses()
    ensures Parse("SKU") == Some(Parsed(true, "c", "u", "", ""))
    ensures Parse("SKAEU") == Some(Parsed(true, "c", "ua/uô", "", ""))
    ensures Parse("SKAOE") == Some(Parsed(true, "c", "ưa/ươ", "", ""))
  {
    ParseSKU();
    ParseSKAEU();
    ParseSKAOE();
  }

  lemma MoreSpellings()
    ensures Untokenize(Tokens(true, "K", "U", "", "")) == "SKU"
    ensures Untokenize(Tokens(true, "K", "AEU", "", "")) == "SKAEU"
    ensures Untokenize(Tokens(true, "K", "AOE", "", "")) == "SKAOE"
  {
  }

  lemma ParseSKU() ensures Parse("SKU") == Some(Parsed(true, "c", "u", "", ""))
  {
    SourceMapsValid();
    InitialK(); VowelU();
    MoreSpellings();
    ParseOfTokens(Tokens(true, "K", "U", "", ""), Parsed(true, "c", "u", "", ""));
  }

  lemma ParseSKAEU() ensures Parse("SKAEU") == Some(Parsed(true, "c", "ua/uô", "", ""))
  {
    SourceMapsValid();
    InitialK(); VowelAEU();
    MoreSpellings();
    ParseOfTokens(Tokens(true, "K", "AEU", "", ""), Parsed(true, "c", "ua/uô", "", ""));
  }

  lemma ParseSKAOE() ensures Parse("SKAOE") == Some(Parsed(true, "c", "ưa/ươ", "", ""))
  {
    SourceMapsValid();
    InitialK(); VowelAOE();
    MoreSpellings();
    ParseOfTokens(Tokens(true, "K", "AOE", "", ""), Parsed(true, "c", "ưa/ươ", "", ""));
  }

  /** A glide "c" is written "q", and no final is written as none. */
  lemma EndsQ(p: Parsed)
    requires p.onGlide && p.initialConsonant == "c" && p.finalConsonant == ""
    ensures GetInitial(p) == "q" && GetFinal(p) == ""
  {
  }

  lemma MiddleQua(p: Parsed)
    requires p == Parsed(true, "c", "a", "", "")
    ensures GetMiddle(p) == "ua"
  {
    EndsQ(p);
    MiddleOnGlide(p);
    UnmarkedA();
  }

  lemma MiddleQuy(p: Parsed)
    requires p == Parsed(true, "c", "i", "", "")
    ensures GetMiddle(p) == "uy"
  {
    EndsQ(p);
    MiddleGlideI(p);
    UnmarkedY();
  }

  lemma MiddleQuu(p: Parsed)
    requires p == Parsed(true, "c", "u", "", "")
    ensures GetMiddle(p) == "uu"
  {
    EndsQ(p);
    MiddleOnGlide(p);
    UnmarkedU();
  }

  lemma MiddleQuaDiphthong(p: Parsed)
    requires p == Parsed(true, "c", "ua/uô", "", "")
    ensures GetMiddle(p) == "ua"
  {
    MiddleOfDiphthong(p);
    UnmarkedU();
  }

  lemma MiddleQua2(p: Parsed)
    requires p == Parsed(true, "c", "ưa/ươ", "", "")
    ensures GetMiddle(p) == "ưa"
  {
    MiddleOfDiphthong(p);
    UnmarkedUHorn();
  }

  lemma QSpellings()
    ensures "q" + "ua" + "" == "qua" && "q" + "uy" + "" == "quy" && "q" + "ưa" + "" == "qưa"
    ensures "q" + "ua"[1..] + "" == "qa" && "q" + "uy"[1..] + "" == "qy" && "q" + "uu"[1..] + "" == "qu"
    ensures StartsWith("ua", 'u') && StartsWith("uy", 'u') && StartsWith("uu", 'u') && !StartsWith("ưa", 'u')
    ensures DoubledU("uu") && !DoubledU("ua") && !DoubledU("uy") && !DoubledU("ưa")
  {
  }

  lemma AssembleQua(p: Parsed)
    requires p == Parsed(true, "c", "a", "", "")
    ensures Assemble(p) == "qa"
    ensures AssembleCorrected(p) == "qua"
  {
    MiddleQua(p);
    EndsQ(p);
    PostProcessEffect("q", "ua", "", "");
    QSpellings();
  }

  lemma AssembleQuy(p: Parsed)
    requires p == Parsed(true, "c", "i", "", "")
    ensures Assemble(p) == "qy"
    ensures AssembleCorrected(p) == "quy"
  {
    MiddleQuy(p);
    EndsQ(p);
    PostProcessEffect("q", "uy", "", "");
    QSpellings();
  }

  lemma AssembleQuu(p: Parsed)
    requires p == Parsed(true, "c", "u", "", "")
    ensures Assemble(p) == "qu"
    ensures AssembleCorrected(p) == "qu"
  {
    MiddleQuu(p);
    EndsQ(p);
    PostProcessEffect("q", "uu", "", "");
    QSpellings();
  }

  lemma AssembleQuaDiphthong(p: Parsed)
    requires p == Parsed(true, "c", "ua/uô", "", "")
    ensures Assemble(p) == "qa"
    ensures AssembleCorrected(p) == "qua"
  {
    MiddleQuaDiphthong(p);
    EndsQ(p);
    PostProcessEffect("q", "ua", "", "");
    QSpellings();
  }

  lemma AssembleQua2(p: Parsed)
    requires p == Parsed(true, "c", "ưa/ươ", "", "")
    ensures Assemble(p) == "qưa"
    ensures AssembleCorrected(p) == "qưa"
  {
    MiddleQua2(p);
    EndsQ(p);
    PostProcessEffect("q", "ưa", "", "");
    QSpellings();
  }

  /** As written, the post-processing turns "SKA" into "qa" and "SKEU" into
      "qy": the "u" of the glide, which the middle supplies, is dropped. The
      corrected assembler writes "qua" and "quy". */
  lemma AsWrittenDropsGlideU()
    ensures Parse("SKA").Some? && Assemble(Parse("SKA").value) == "qa"
    ensures AssembleCorrected(Parse("SKA").value) == "qua"
    ensures Parse("SKEU").Some? && Assemble(Parse("SKEU").value) == "qy"
    ensures AssembleCorrected(Parse("SKEU").value) == "quy"
  {
    GlideParses();
    AssembleQua(Parse("SKA").value);
    AssembleQuy(Parse("SKEU").value);
  }

  /** The doubled "u" the rule's comment names: "SKU" is "qu" both as written
      and corrected. As written "SKAEU" loses the first letter of the
      diphthong "ua" and is "qa", corrected "qua"; "SKAOE" is "qưa" either
      way, since the middle writes no glide letter before "ưa". */
  lemma QAfterDoubledUAndDiphthongs()
    ensures Parse("SKU").Some? && Assemble(Parse("SKU").value) == "qu"
    ensures AssembleCorrected(Parse("SKU").value) == "qu"
    ensures Parse("SKAEU").Some? && Assemble(Parse("SKAEU").value) == "qa"
    ensures AssembleCorrected(Parse("SKAEU").value) == "qua"
    ensures Parse("SKAOE").Some? && Assemble(Parse("SKAOE").value) == "qưa"
    ensures AssembleCorrected(Parse("SKAOE").value) == "qưa"
  {
    MoreGlideParses();
    AssembleQuu(Parse("SKU").value);
    AssembleQuaDiphthong(Parse("SKAEU").value);
    AssembleQua2(Parse("SKAOE").value);
  }
}
