/** What a constructed `SyllableParseinator` holds and answers: the forward
    map has every key combination the loops visit, the reverse map the first
    shortest stroke of each syllable, and `lookup` and `reverseLookup` agree
    with them. */
module ProcessDictionaryCacheFacts {
  import opened StenoUtil
  import opened StenoTables
  import opened ProcessDictionaryCodec
  import opened ProcessDictionaryNormalize
  import opened ProcessDictionaryCache

  /** The forward map holds exactly the generated strokes, other than "" and
      "S", that parse and assemble to a non-empty syllable, each with that
      syllable; its order lists each of those strokes once. */
  lemma ForwardCacheExact(c: SyllableParseinator)
    requires c.Valid()
    ensures forall k :: k in c.forwardCache <==> k in Candidates && Accepted(k).Some?
    ensures forall k :: k in c.forwardCache ==> c.forwardCache[k] == Accepted(k).value
    ensures forall k :: k in c.forwardCache ==> k != "" && k != "S" && Parse(k).Some?
    ensures forall k :: k in c.forwardCache <==> k in c.forwardOrder
    ensures Distinct(c.forwardOrder)
  {
    FoldContents(Accepted, Candidates);
  }

  /** `reverseCache`: every syllable of the forward map has an entry; the
      entry is a stroke of that syllable (so the forward map sends it back),
      no stroke of the syllable is shorter, and every stroke of it that comes
      earlier in insertion order is longer. */
  lemma ReverseCacheShortest(c: SyllableParseinator)
    requires c.Valid()
    ensures forall x :: x in c.reverseCache ==>
      c.reverseCache[x] in c.forwardCache && c.forwardCache[c.reverseCache[x]] == x
    ensures forall k :: k in c.forwardCache ==>
      c.forwardCache[k] in c.reverseCache && |c.reverseCache[c.forwardCache[k]]| <= |k|
    ensures forall i, j ::
      (0 <= j < i < |c.forwardOrder| && c.forwardCache[c.forwardOrder[i]] in c.reverseCache
       && c.reverseCache[c.forwardCache[c.forwardOrder[i]]] == c.forwardOrder[i]
       && c.forwardCache[c.forwardOrder[j]] == c.forwardCache[c.forwardOrder[i]])
      ==> |c.forwardOrder[j]| > |c.forwardOrder[i]|
  {
    ForwardCacheExact(c);
    ReverseContents(c.forwardCache, c.forwardOrder);
  }

  /** The stroke of one option per loop is generated. */
  lemma CandidateAt(a: nat, b: nat, v: nat, d: nat, e: nat)
    requires a < |GlideOptions| && b < |InitialOptions| && v < |VowelKeys|
    requires d < |FinalOptions| && e < |ToneOptions|
    ensures GlidePrefix(GlideOptions[a]) + InitialOptions[b] + VowelKeys[v] + FinalOptions[d] + ToneOptions[e]
      in Candidates
  {
    Generated(GlideOptions, InitialOptions, VowelKeys, FinalOptions, ToneOptions, a, b, v, d, e);
  }

  /** The same, stated with the options themselves. */
  lemma CandidateOf(glide: bool, initialKey: string, vowelKey: string, finalKey: string, toneKey: string)
    requires initialKey in InitialOptions && vowelKey in VowelKeys
    requires finalKey in FinalOptions && toneKey in ToneOptions
    ensures GlidePrefix(glide) + initialKey + vowelKey + finalKey + toneKey in Candidates
  {
    var a := if glide then 1 else 0;
    var b :| 0 <= b < |InitialOptions| && InitialOptions[b] == initialKey;
    var v :| 0 <= v < |VowelKeys| && VowelKeys[v] == vowelKey;
    var d :| 0 <= d < |FinalOptions| && FinalOptions[d] == finalKey;
    var e :| 0 <= e < |ToneOptions| && ToneOptions[e] == toneKey;
    CandidateAt(a, b, v, d, e);
  }

  /** The keys of a table stroke are options of their loops. */
  lemma TokensAreOptions(t: Tokens)
    requires TableTokens(SourceMaps, t)
    ensures t.initialKey in InitialOptions && t.vowelKey in VowelKeys
    ensures t.finalKey in FinalOptions && t.toneKey in ToneOptions
  {
    TableFields();
  }

  /** A stroke spelled by table keys is among the generated strokes. */
  lemma StrokeGenerated(t: Tokens)
    requires TableTokens(SourceMaps, t)
    ensures Untokenize(t) in Candidates
  {
    TokensAreOptions(t);
    CandidateOf(t.glide, t.initialKey, t.vowelKey, t.finalKey, t.toneKey);
    SpelledInLoopOrder(t);
  }

  /** The loops build a stroke left to right from the same keys. */
  lemma SpelledInLoopOrder(t: Tokens)
    ensures GlidePrefix(t.glide) + t.initialKey + t.vowelKey + t.finalKey + t.toneKey == Untokenize(t)
  {
  }

  /** A stroke spelled by table keys is neither "" nor the lone glide "S":
      its vowel key is not empty and has no "S". */
  lemma StrokeNotSkipped(t: Tokens)
    requires TableTokens(SourceMaps, t)
    ensures Untokenize(t) != "" && Untokenize(t) != "S"
  {
    TableFields();
    TableLetters();
    var s := Untokenize(t);
    var at := (if t.glide then 1 else 0) + |t.initialKey|;
    assert s[at] == t.vowelKey[0];
  }

  /** Every combination of table keys the loops visit is in the forward map,
      with the syllable its keys' values assemble to. */
  lemma EveryKeyCombination(c: SyllableParseinator, t: Tokens)
    requires c.Valid() && TableTokens(SourceMaps, t)
    ensures ValidMaps(SourceMaps)
    ensures Untokenize(t) in c.forwardCache
    ensures c.forwardCache[Untokenize(t)] == Assemble(FromTokens(SourceMaps, t))
  {
    SourceMapsValid();
    var stroke := Untokenize(t);
    StrokeGenerated(t);
    StrokeNotSkipped(t);
    ParseOfTokens(t, FromTokens(SourceMaps, t));
    AssembleNonEmpty(stroke);
    assert Accepted(stroke) == Some(Assemble(FromTokens(SourceMaps, t)));
    ForwardCacheExact(c);
  }

  /* ---------------- lookup and reverseLookup ---------------- */

  /** A stroke of the forward map is a generated one, not "", with a
      non-empty syllable. */
  lemma CachedStroke(c: SyllableParseinator, k: string)
    requires c.Valid() && k in c.forwardCache
    ensures k in Candidates && k != "" && c.forwardCache[k] != ""
  {
    FoldContents(Accepted, Candidates);
  }

  /** A generated stroke starts with neither "#" nor "-" and has no digit,
      so `lookup` takes it to the forward map unchanged. */
  lemma CandidateIsPlain(k: string)
    requires k in Candidates && k != ""
    ensures k[0] != '#' && k[0] != '-' && !HasDigit(k)
  {
    CandidatesOverKeys();
    assert Over(k, StrokeLetters);
  }

  /** `lookup` of a first stroke that is not one of the four literal
      entries, has no "#" and no digit reads the forward map directly. */
  lemma LookupOfPlain(c: SyllableParseinator, k: string, rest: seq<string>)
    requires k != "-S" && k != "-Z" && k != "-D" && k != "AO"
    requires !StartsWith(k, '#') && !HasDigit(k)
    ensures c.Lookup([k] + rest) == if k in c.forwardCache then Some(c.forwardCache[k]) else None
  {
    assert ([k] + rest)[0] == k;
  }

  /** `lookup` of a number-bar stroke "#" + k capitalises the forward entry
      of k, when there is a non-empty one. */
  lemma LookupOfNumberBar(c: SyllableParseinator, k: string, rest: seq<string>)
    ensures c.Lookup(["#" + k] + rest) ==
      if k in c.forwardCache && c.forwardCache[k] != "" then Some(Capitalize(c.forwardCache[k])) else None
  {
    var raw := "#" + k;
    assert ([raw] + rest)[0] == raw;
    assert raw[0] == '#' && raw[1..] == k;
    assert raw != "-S" && raw != "-Z" && raw != "-D" && raw != "AO";
  }

  /** `lookup` of a stroke of the forward map other than "AO" is its syllable,
      whatever strokes follow it. */
  lemma LookupCached(c: SyllableParseinator, k: string, rest: seq<string>)
    requires c.Valid() && k in c.forwardCache && k != "AO"
    ensures c.Lookup([k] + rest) == Some(c.forwardCache[k])
  {
    CachedStroke(c, k);
    CandidateIsPlain(k);
    assert k != "-S" && k != "-Z" && k != "-D";
    LookupOfPlain(c, k, rest);
  }

  /** The number-bar form "#" + k of a stroke of the forward map looks up its
      syllable, capitalised. */
  lemma LookupCapitalized(c: SyllableParseinator, k: string, rest: seq<string>)
    requires c.Valid() && k in c.forwardCache
    ensures c.Lookup(["#" + k] + rest) == Some(Capitalize(c.forwardCache[k]))
  {
    CachedStroke(c, k);
    LookupOfNumberBar(c, k, rest);
  }

  /** A stroke with digits and no leading "#" is looked up as the number-bar
      stroke that spells its digits as keys. */
  lemma LookupDigits(c: SyllableParseinator, raw: string, rest: seq<string>)
    requires !StartsWith(raw, '#') && HasDigit(raw)
    ensures c.Lookup([raw] + rest) == c.Lookup(["#" + KeyChars(raw)])
  {
    var i :| 0 <= i < |raw| && IsDigit(raw[i]);
    assert raw != "-S" && raw != "-Z" && raw != "-D" && raw != "AO";
    var n := "#" + KeyChars(raw);
    assert n[0] == '#';
  }

  lemma MiddleAO(p: Parsed)
    requires p == Parsed(false, "", "â", "", "")
    ensures GetMiddle(p) == "â"
  {
    MiddleWithoutGlide(p);
    AccentUnmarked("â");
  }

  lemma AssembleAO(p: Parsed)
    requires p == Parsed(false, "", "â", "", "")
    ensures Assemble(p) == "â"
  {
    MiddleAO(p);
    assert GetInitial(p) == "";
    assert GetFinal(p) == "";
  }

  /** "AO" is a syllable stroke of the forward map ("â"), but `lookup` answers
      it with the hyphen-joining entry before it reaches the map. */
  lemma AOShadowed(c: SyllableParseinator)
    requires c.Valid()
    ensures "AO" in c.forwardCache && c.forwardCache["AO"] == "â"
    ensures c.Lookup(["AO"]) == Some("{^}-{^}")
  {
    AOInForward(c);
    LookupJoiner(c, ["AO"]);
  }

  /** `lookup` answers a first stroke "AO" with the hyphen-joining entry. */
  lemma LookupJoiner(c: SyllableParseinator, strokes: seq<string>)
    requires |strokes| > 0 && strokes[0] == "AO"
    ensures c.Lookup(strokes) == Some("{^}-{^}")
  {
  }

  lemma AOInForward(c: SyllableParseinator)
    requires c.Valid()
    ensures "AO" in c.forwardCache && c.forwardCache["AO"] == "â"
  {
    var t := AOTokens();
    EveryKeyCombination(c, t);
    AssembleAO(FromTokens(SourceMaps, t));
  }

  /** The keys of "AO": the vowel key alone, whose value is "â". */
  lemma AOTokens() returns (t: Tokens)
    ensures TableTokens(SourceMaps, t) && Untokenize(t) == "AO"
    ensures ValidMaps(SourceMaps) && FromTokens(SourceMaps, t) == Parsed(false, "", "â", "", "")
  {
    t := Tokens(false, "", "AO", "", "");
    AOTokenFacts(t);
  }

  lemma AOTokenFacts(t: Tokens)
    requires t == Tokens(false, "", "AO", "", "")
    ensures TableTokens(SourceMaps, t) && Untokenize(t) == "AO"
    ensures ValidMaps(SourceMaps) && FromTokens(SourceMaps, t) == Parsed(false, "", "â", "", "")
  {
    SourceMapsValid();
    VowelAO();
    assert t.vowelKey in Vowels.keys;
    assert GetOr(Vowels, t.vowelKey, "") == "â";
    assert GetOr(Initials, t.initialKey, "") == "" && GetOr(Finals, t.finalKey, "") == "";
    assert GetOr(Tones, t.toneKey, "") == "";
    assert Untokenize(t) == "" + ("" + ("AO" + ("" + "")));
  }

  /** The cache answers "SKA" with "qa", as the program's assembler writes
      it (see README, Findings). */
  lemma LookupSKA(c: SyllableParseinator)
    requires c.Valid()
    ensures "SKA" in c.forwardCache && c.forwardCache["SKA"] == "qa"
    ensures c.Lookup(["SKA"]) == Some("qa")
  {
    var t := Tokens(true, "K", "A", "", "");
    SKATokenFacts(t);
    EveryKeyCombination(c, t);
    AssembleQua(FromTokens(SourceMaps, t));
    LookupCached(c, "SKA", []);
    assert ["SKA"] + [] == ["SKA"];
  }

  lemma SKATokenFacts(t: Tokens)
    requires t == Tokens(true, "K", "A", "", "")
    ensures TableTokens(SourceMaps, t) && Untokenize(t) == "SKA"
    ensures ValidMaps(SourceMaps) && FromTokens(SourceMaps, t) == Parsed(true, "c", "a", "", "")
  {
    SourceMapsValid();
    InitialK();
    VowelA();
    ExampleSpellings();
  }

  /** `reverseLookup` of "" finds nothing; for any other syllable it finds a
      stroke exactly when some stroke of the forward map has the lower-cased
      syllable, and then one of least length. */
  lemma ReverseLookupShortest(c: SyllableParseinator, y: string)
    requires c.Valid()
    ensures y == "" ==> c.ReverseLookup(y).None?
    ensures y != "" ==>
      (c.ReverseLookup(y).Some? <==> exists k :: k in c.forwardCache && c.forwardCache[k] == ToLower(y))
    ensures c.ReverseLookup(y).Some? ==>
      var s := c.ReverseLookup(y).value;
      && s in c.forwardCache && c.forwardCache[s] == ToLower(y)
      && forall k :: k in c.forwardCache && c.forwardCache[k] == ToLower(y) ==> |s| <= |k|
  {
    ReverseCacheShortest(c);
    if y != "" && ToLower(y) in c.reverseCache {
      var s := c.reverseCache[ToLower(y)];
      assert s in c.forwardCache && c.forwardCache[s] == ToLower(y);
    }
  }

  /** `reverseLookup` does not see the capital that `lookup` puts on a
      number-bar syllable. */
  lemma ReverseLookupIgnoresCapital(c: SyllableParseinator, y: string)
    requires HasNoUpper(y)
    ensures c.ReverseLookup(Capitalize(y)) == c.ReverseLookup(y)
  {
    LowerOfCapitalized(y);
    assert ToLower(y) == y;
  }

  /** Looking up the stroke `reverseLookup` finds for a lower-case syllable
      gives the syllable back (unless that stroke is "AO"), and its
      number-bar form gives it capitalised. */
  lemma ReverseRoundTrip(c: SyllableParseinator, y: string, rest: seq<string>)
    requires c.Valid() && HasNoUpper(y) && c.ReverseLookup(y).Some?
    ensures var s := c.ReverseLookup(y).value;
      && (s != "AO" ==> c.Lookup([s] + rest) == Some(y))
      && c.Lookup(["#" + s] + rest) == Some(Capitalize(y))
  {
    ReverseCacheShortest(c);
    LowerOfCapitalized(y);
    assert ToLower(y) == y;
    var s := c.ReverseLookup(y).value;
    assert s in c.forwardCache && c.forwardCache[s] == y;
    if s != "AO" {
      LookupCached(c, s, rest);
    }
    LookupCapitalized(c, s, rest);
  }
}
