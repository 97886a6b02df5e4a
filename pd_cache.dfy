/** The lookup layer of process-dictionary.ts: `SyllableParseinator`, which
    enumerates every combination of keys, fills a forward map (stroke to
    syllable) and from it a reverse map (syllable to its first shortest
    stroke), and answers `lookup` and `reverseLookup` from them. */
module ProcessDictionaryCache {
  import opened StenoUtil
  import opened StenoTables
  import opened ProcessDictionaryCodec
  import opened ProcessDictionaryNormalize

  /* ---------------- the enumerated strokes ---------------- */

  function GlidePrefix(useGlide: bool): string {
    if useGlide then "S" else ""
  }

  /** The strokes of the innermost loop: `p` and each tone key, in order. */
  function TonesFrom(p: string, tones: seq<string>): seq<string> {
    if tones == [] then []
    else TonesFrom(p, tones[..|tones| - 1]) + [p + tones[|tones| - 1]]
  }

  function FinalsFrom(p: string, finals: seq<string>, tones: seq<string>): seq<string> {
    if finals == [] then []
    else FinalsFrom(p, finals[..|finals| - 1], tones) + TonesFrom(p + finals[|finals| - 1], tones)
  }

  function VowelsFrom(p: string, vowels: seq<string>, finals: seq<string>, tones: seq<string>): seq<string> {
    if vowels == [] then []
    else VowelsFrom(p, vowels[..|vowels| - 1], finals, tones) + FinalsFrom(p + vowels[|vowels| - 1], finals, tones)
  }

  function InitialsFrom(p: string, initials: seq<string>, vowels: seq<string>, finals: seq<string>,
                        tones: seq<string>): seq<string> {
    if initials == [] then []
    else
      InitialsFrom(p, initials[..|initials| - 1], vowels, finals, tones)
      + VowelsFrom(p + initials[|initials| - 1], vowels, finals, tones)
  }

  /** The strokes of the five nested loops of `initializeCaches`, in the
      order they are generated. */
  function GlidesFrom(glides: seq<bool>, initials: seq<string>, vowels: seq<string>, finals: seq<string>,
                      tones: seq<string>): seq<string> {
    if glides == [] then []
    else
      GlidesFrom(glides[..|glides| - 1], initials, vowels, finals, tones)
      + InitialsFrom(GlidePrefix(glides[|glides| - 1]), initials, vowels, finals, tones)
  }

  const GlideOptions: seq<bool> := [false, true]
  const InitialOptions: seq<string> := [""] + InitialKeys
  const FinalOptions: seq<string> := [""] + FinalKeys
  const ToneOptions: seq<string> := [""] + ToneKeys

  /** Every stroke `initializeCaches` generates. */
  const Candidates: seq<string> := GlidesFrom(GlideOptions, InitialOptions, VowelKeys, FinalOptions, ToneOptions)

  /* Membership: each combination of one option per loop is generated. */

  lemma {:induction false} InTones(p: string, tones: seq<string>, e: nat)
    requires e < |tones|
    ensures p + tones[e] in TonesFrom(p, tones)
  {
    if e < |tones| - 1 {
      InTones(p, tones[..|tones| - 1], e);
    }
  }

  lemma {:induction false} InFinals(p: string, finals: seq<string>, tones: seq<string>, d: nat, x: string)
    requires d < |finals| && x in TonesFrom(p + finals[d], tones)
    ensures x in FinalsFrom(p, finals, tones)
  {
    if d < |finals| - 1 {
      InFinals(p, finals[..|finals| - 1], tones, d, x);
    }
  }

  lemma {:induction false} InVowels(p: string, vowels: seq<string>, finals: seq<string>, tones: seq<string>,
                                    c: nat, x: string)
    requires c < |vowels| && x in FinalsFrom(p + vowels[c], finals, tones)
    ensures x in VowelsFrom(p, vowels, finals, tones)
  {
    if c < |vowels| - 1 {
      InVowels(p, vowels[..|vowels| - 1], finals, tones, c, x);
    }
  }

  lemma {:induction false} InInitials(p: string, initials: seq<string>, vowels: seq<string>, finals: seq<string>,
                                      tones: seq<string>, b: nat, x: string)
    requires b < |initials| && x in VowelsFrom(p + initials[b], vowels, finals, tones)
    ensures x in InitialsFrom(p, initials, vowels, finals, tones)
  {
    if b < |initials| - 1 {
      InInitials(p, initials[..|initials| - 1], vowels, finals, tones, b, x);
    }
  }

  lemma {:induction false} InGlides(glides: seq<bool>, initials: seq<string>, vowels: seq<string>,
                                    finals: seq<string>, tones: seq<string>, a: nat, x: string)
    requires a < |glides| && x in InitialsFrom(GlidePrefix(glides[a]), initials, vowels, finals, tones)
    ensures x in GlidesFrom(glides, initials, vowels, finals, tones)
  {
    if a < |glides| - 1 {
      InGlides(glides[..|glides| - 1], initials, vowels, finals, tones, a, x);
    }
  }

  /* One more pass of a loop extends what it has generated. */

  lemma TonesStep(p: string, tones: seq<string>, e: nat, done: seq<string>)
    requires e < |tones|
    ensures done + TonesFrom(p, tones[..e + 1]) == done + TonesFrom(p, tones[..e]) + [p + tones[e]]
  {
    assert tones[..e + 1][..e] == tones[..e];
  }

  lemma FinalsStep(p: string, finals: seq<string>, tones: seq<string>, d: nat, done: seq<string>)
    requires d < |finals|
    ensures done + FinalsFrom(p, finals[..d + 1], tones)
      == done + FinalsFrom(p, finals[..d], tones) + TonesFrom(p + finals[d], tones)
  {
    assert finals[..d + 1][..d] == finals[..d];
  }

  lemma VowelsStep(p: string, vowels: seq<string>, finals: seq<string>, tones: seq<string>, c: nat,
                   done: seq<string>)
    requires c < |vowels|
    ensures done + VowelsFrom(p, vowels[..c + 1], finals, tones)
      == done + VowelsFrom(p, vowels[..c], finals, tones) + FinalsFrom(p + vowels[c], finals, tones)
  {
    assert vowels[..c + 1][..c] == vowels[..c];
  }

  lemma InitialsStep(p: string, initials: seq<string>, vowels: seq<string>, finals: seq<string>,
                     tones: seq<string>, b: nat, done: seq<string>)
    requires b < |initials|
    ensures done + InitialsFrom(p, initials[..b + 1], vowels, finals, tones)
      == done + InitialsFrom(p, initials[..b], vowels, finals, tones) + VowelsFrom(p + initials[b], vowels, finals, tones)
  {
    assert initials[..b + 1][..b] == initials[..b];
  }

  lemma GlidesStep(glides: seq<bool>, initials: seq<string>, vowels: seq<string>, finals: seq<string>,
                   tones: seq<string>, a: nat)
    requires a < |glides|
    ensures GlidesFrom(glides[..a + 1], initials, vowels, finals, tones)
      == GlidesFrom(glides[..a], initials, vowels, finals, tones)
         + InitialsFrom(GlidePrefix(glides[a]), initials, vowels, finals, tones)
  {
    assert glides[..a + 1][..a] == glides[..a];
  }

  /** The stroke built from one option of each loop is generated. */
  lemma Generated(glides: seq<bool>, initials: seq<string>, vowels: seq<string>, finals: seq<string>,
                  tones: seq<string>, a: nat, b: nat, c: nat, d: nat, e: nat)
    requires a < |glides| && b < |initials| && c < |vowels| && d < |finals| && e < |tones|
    ensures GlidePrefix(glides[a]) + initials[b] + vowels[c] + finals[d] + tones[e]
      in GlidesFrom(glides, initials, vowels, finals, tones)
  {
    var p := GlidePrefix(glides[a]) + initials[b] + vowels[c] + finals[d];
    InTones(p, tones, e);
    InFinals(GlidePrefix(glides[a]) + initials[b] + vowels[c], finals, tones, d, p + tones[e]);
    InVowels(GlidePrefix(glides[a]) + initials[b], vowels, finals, tones, c, p + tones[e]);
    InInitials(GlidePrefix(glides[a]), initials, vowels, finals, tones, b, p + tones[e]);
    InGlides(glides, initials, vowels, finals, tones, a, p + tones[e]);
  }

  /* Letters: a generated stroke is spelled with the letters of its parts. */

  predicate ListOver(xs: seq<string>, letters: set<char>) {
    forall k :: k in xs ==> Over(k, letters)
  }

  lemma OverJoin(a: string, b: string, letters: set<char>)
    requires Over(a, letters) && Over(b, letters)
    ensures Over(a + b, letters)
  {
    assert forall i :: |a| <= i < |a + b| ==> (a + b)[i] == b[i - |a|];
  }

  lemma {:induction false} TonesOver(p: string, tones: seq<string>, letters: set<char>)
    requires Over(p, letters) && ListOver(tones, letters)
    ensures ListOver(TonesFrom(p, tones), letters)
  {
    if tones != [] {
      TonesOver(p, tones[..|tones| - 1], letters);
      OverJoin(p, tones[|tones| - 1], letters);
    }
  }

  lemma {:induction false} FinalsOver(p: string, finals: seq<string>, tones: seq<string>, letters: set<char>)
    requires Over(p, letters) && ListOver(finals, letters) && ListOver(tones, letters)
    ensures ListOver(FinalsFrom(p, finals, tones), letters)
  {
    if finals != [] {
      FinalsOver(p, finals[..|finals| - 1], tones, letters);
      OverJoin(p, finals[|finals| - 1], letters);
      TonesOver(p + finals[|finals| - 1], tones, letters);
    }
  }

  lemma {:induction false} VowelsOver(p: string, vowels: seq<string>, finals: seq<string>, tones: seq<string>,
                                      letters: set<char>)
    requires Over(p, letters) && ListOver(vowels, letters) && ListOver(finals, letters) && ListOver(tones, letters)
    ensures ListOver(VowelsFrom(p, vowels, finals, tones), letters)
  {
    if vowels != [] {
      VowelsOver(p, vowels[..|vowels| - 1], finals, tones, letters);
      OverJoin(p, vowels[|vowels| - 1], letters);
      FinalsOver(p + vowels[|vowels| - 1], finals, tones, letters);
    }
  }

  lemma {:induction false} InitialsOver(p: string, initials: seq<string>, vowels: seq<string>, finals: seq<string>,
                                        tones: seq<string>, letters: set<char>)
    requires Over(p, letters) && ListOver(initials, letters) && ListOver(vowels, letters)
    requires ListOver(finals, letters) && ListOver(tones, letters)
    ensures ListOver(InitialsFrom(p, initials, vowels, finals, tones), letters)
  {
    if initials != [] {
      InitialsOver(p, initials[..|initials| - 1], vowels, finals, tones, letters);
      OverJoin(p, initials[|initials| - 1], letters);
      VowelsOver(p + initials[|initials| - 1], vowels, finals, tones, letters);
    }
  }

  lemma {:induction false} GlidesOver(glides: seq<bool>, initials: seq<string>, vowels: seq<string>,
                                      finals: seq<string>, tones: seq<string>, letters: set<char>)
    requires 'S' in letters && ListOver(initials, letters) && ListOver(vowels, letters)
    requires ListOver(finals, letters) && ListOver(tones, letters)
    ensures ListOver(GlidesFrom(glides, initials, vowels, finals, tones), letters)
  {
    if glides != [] {
      GlidesOver(glides[..|glides| - 1], initials, vowels, finals, tones, letters);
      InitialsOver(GlidePrefix(glides[|glides| - 1]), initials, vowels, finals, tones, letters);
    }
  }

  /** The keys of the steno keyboard that the tables use. */
  const StrokeLetters: set<char> := InitialLetters + VowelLetters + FinalLetters + ToneLetters

  /** A loop's options, "" and the keys of a table, are spelled with any set
      of letters that holds the table's letters. */
  lemma OptionsOver(keys: seq<string>, small: set<char>, big: set<char>)
    requires KeysOver(keys, small) && small <= big
    ensures ListOver([""] + keys, big) && ListOver(keys, big)
  {
    forall k | k in [""] + keys
      ensures Over(k, big)
    {
      if k != "" {
        assert k in keys;
      }
    }
  }

  lemma StrokeLettersPlain()
    ensures forall c :: c in StrokeLetters ==> !IsDigit(c) && c != '#' && c != '-'
  {
  }

  /** Every generated stroke is spelled with steno key letters only: no
      digit, no "#" and no "-". */
  lemma CandidatesOverKeys()
    ensures ListOver(Candidates, StrokeLetters)
    ensures forall c :: c in StrokeLetters ==> !IsDigit(c) && c != '#' && c != '-'
  {
    TableLetters();
    OptionsOver(InitialKeys, InitialLetters, StrokeLetters);
    OptionsOver(VowelKeys, VowelLetters, StrokeLetters);
    OptionsOver(FinalKeys, FinalLetters, StrokeLetters);
    OptionsOver(ToneKeys, ToneLetters, StrokeLetters);
    assert 'S' in StrokeLetters;
    GlidesOver(GlideOptions, InitialOptions, VowelKeys, FinalOptions, ToneOptions, StrokeLetters);
    StrokeLettersPlain();
  }

  /* ---------------- the forward cache ---------------- */

  /** A `Map<string, string>` of the source: its entries and the insertion
      order of its keys, which is the order its `entries()` visits them. */
  datatype Forward = Forward(cache: map<string, string>, order: seq<string>)

  /** `Map.prototype.set`: a new key goes to the end of the order, an
      existing one keeps its place. */
  function Put(st: Forward, k: string, v: string): Forward {
    Forward(st.cache[k := v], if k in st.cache then st.order else st.order + [k])
  }

  /** The syllable `initializeCaches` stores for a generated stroke: None for
      "" and "S", for a stroke `parse` rejects, and for an empty assembly. */
  function Accepted(stroke: string): Option<string> {
    if stroke == "" || stroke == "S" then None
    else match Parse(stroke)
      case None => None
      case Some(p) => if |Assemble(p)| > 0 then Some(Assemble(p)) else None
  }

  /** The guarded `try` block of the innermost loop: skip "" and "S", parse,
      assemble, and keep a non-empty syllable. */
  method ParseAndAssemble(stroke: string) returns (syllable: Option<string>)
    ensures syllable == Accepted(stroke)
  {
    syllable := None;
    if stroke != "" && stroke != "S" {
      var parsed := ParseStroke(stroke);
      if parsed.Some? {
        var assembled := Assemble(parsed.value);
        if |assembled| > 0 {
          syllable := Some(assembled);
        }
      }
    }
  }

  /** One pass of the innermost loop body, for the syllable function
      `accept` (`Accepted` in the source; a parameter, so that the loop
      proofs do not look inside parse and assemble). */
  function Record(accept: string -> Option<string>, st: Forward, stroke: string): Forward {
    match accept(stroke)
    case None => st
    case Some(syllable) => Put(st, stroke, syllable)
  }

  /** The forward map after the loop bodies for `strokes`, in order. */
  function Fold(accept: string -> Option<string>, strokes: seq<string>): Forward {
    if strokes == [] then Forward(map[], [])
    else Record(accept, Fold(accept, strokes[..|strokes| - 1]), strokes[|strokes| - 1])
  }

  predicate Distinct(s: seq<string>) {
    forall i, j :: 0 <= i < j < |s| ==> s[i] != s[j]
  }

  /** The forward map holds exactly the accepted strokes, each with its
      syllable, and its order lists each of its keys once. */
  lemma {:induction false} FoldContents(accept: string -> Option<string>, strokes: seq<string>)
    ensures var st := Fold(accept, strokes);
      && (forall k :: k in st.cache <==> k in strokes && accept(k).Some?)
      && (forall k :: k in st.cache ==> st.cache[k] == accept(k).value)
      && (forall k :: k in st.cache <==> k in st.order)
      && Distinct(st.order)
  {
    if strokes != [] {
      var init, last := strokes[..|strokes| - 1], strokes[|strokes| - 1];
      FoldContents(accept, init);
      assert forall k :: k in strokes <==> k in init || k == last;
    }
  }

  /* ---------------- the reverse cache ---------------- */

  /** The test of the reverse loop, `!existingStroke || stroke.length <
      existingStroke.length`: no stroke yet (or an empty one), or a shorter one. */
  predicate Improves(rev: map<string, string>, syllable: string, stroke: string) {
    syllable !in rev || rev[syllable] == "" || |stroke| < |rev[syllable]|
  }

  /** The reverse map after visiting `order` with the forward map `fwd`. */
  function ReverseFold(fwd: map<string, string>, order: seq<string>): map<string, string>
    requires forall k :: k in order ==> k in fwd
  {
    if order == [] then map[]
    else
      var rev := ReverseFold(fwd, order[..|order| - 1]);
      var stroke := order[|order| - 1];
      if Improves(rev, fwd[stroke], stroke) then rev[fwd[stroke] := stroke] else rev
  }

  /** Every reverse entry is a visited stroke of that syllable. */
  lemma {:induction false} ReverseSources(fwd: map<string, string>, order: seq<string>)
    requires forall k :: k in order ==> k in fwd
    ensures forall x :: x in ReverseFold(fwd, order) ==>
      ReverseFold(fwd, order)[x] in order && fwd[ReverseFold(fwd, order)[x]] == x
  {
    if order != [] {
      var init, s := order[..|order| - 1], order[|order| - 1];
      assert s in order && forall k :: k in init ==> k in order;
      ReverseSources(fwd, init);
    }
  }

  /** Every visited stroke's syllable has a reverse entry no longer than it. */
  lemma {:induction false} ReverseShortest(fwd: map<string, string>, order: seq<string>)
    requires forall k :: k in order ==> k in fwd
    requires "" !in order
    ensures var rev := ReverseFold(fwd, order);
      forall k :: k in order ==> fwd[k] in rev && |rev[fwd[k]]| <= |k|
  {
    if order != [] {
      var init, s := order[..|order| - 1], order[|order| - 1];
      assert forall k :: k in order <==> k in init || k == s;
      ReverseShortest(fwd, init);
      ReverseSources(fwd, init);
    }
  }

  /** A reverse entry is the first stroke of its length: every earlier
      stroke of the same syllable is longer. */
  lemma {:induction false} ReverseFirst(fwd: map<string, string>, order: seq<string>)
    requires forall k :: k in order ==> k in fwd
    requires "" !in order && Distinct(order)
    ensures var rev := ReverseFold(fwd, order);
      forall i, j ::
        (0 <= j < i < |order| && fwd[order[i]] in rev && rev[fwd[order[i]]] == order[i]
         && fwd[order[j]] == fwd[order[i]]) ==> |order[j]| > |order[i]|
  {
    if order != [] {
      var init, s := order[..|order| - 1], order[|order| - 1];
      assert forall i :: 0 <= i < |init| ==> order[i] == init[i];
      ReverseFirst(fwd, init);
      ReverseSources(fwd, init);
      ReverseShortest(fwd, init);
      var r := ReverseFold(fwd, init);
      var rev := ReverseFold(fwd, order);
      forall i, j | 0 <= j < i < |order| && fwd[order[i]] in rev && rev[fwd[order[i]]] == order[i]
          && fwd[order[j]] == fwd[order[i]]
        ensures |order[j]| > |order[i]|
      {
        if i == |order| - 1 {
          assert init[j] in init;
          assert Improves(r, fwd[s], s);
        } else {
          assert order[i] == init[i] && order[j] == init[j] && init[i] != s;
        }
      }
    }
  }

  /** The reverse map sends each syllable of the forward map to a stroke of
      that syllable of least length, and among those to the first in
      insertion order: every earlier stroke of the same syllable is longer. */
  lemma ReverseContents(fwd: map<string, string>, order: seq<string>)
    requires forall k :: k in order ==> k in fwd
    requires "" !in order && Distinct(order)
    ensures var rev := ReverseFold(fwd, order);
      && (forall x :: x in rev ==> rev[x] in order && fwd[rev[x]] == x)
      && (forall k :: k in order ==> fwd[k] in rev && |rev[fwd[k]]| <= |k|)
      && (forall i, j ::
            (0 <= j < i < |order| && fwd[order[i]] in rev && rev[fwd[order[i]]] == order[i]
             && fwd[order[j]] == fwd[order[i]]) ==> |order[j]| > |order[i]|)
  {
    ReverseSources(fwd, order);
    ReverseShortest(fwd, order);
    ReverseFirst(fwd, order);
  }

  /* ---------------- SyllableParseinator ---------------- */

  class SyllableParseinator {
    /** `forwardCache`: stroke to syllable; `forwardOrder` is its keys in
        insertion order. */
    var forwardCache: map<string, string>
    var forwardOrder: seq<string>
    /** `reverseCache`: syllable to shortest stroke. */
    var reverseCache: map<string, string>
    const longestKey: nat := 1

    /** The caches are the ones `initializeCaches` builds. */
    ghost predicate Valid()
      reads this
    {
      && Forward(forwardCache, forwardOrder) == Fold(Accepted, Candidates)
      && (forall k :: k in forwardOrder ==> k in forwardCache)
      && reverseCache == ReverseFold(forwardCache, forwardOrder)
    }

    constructor()
      ensures Valid()
    {
      forwardCache := map[];
      forwardOrder := [];
      reverseCache := map[];
      new;
      InitializeCaches();
    }

    /** `initializeCaches`, called by the constructor on empty maps. */
    method InitializeCaches()
      requires forwardCache == map[] && forwardOrder == [] && reverseCache == map[]
      modifies this
      ensures Valid()
    {
      PopulateForward(Accepted, GlideOptions, InitialOptions, VowelKeys, FinalOptions, ToneOptions);
      FoldContents(Accepted, Candidates);
      PopulateReverse();
    }

    /** Step 1 of `initializeCaches`: the five nested loops over the key
        options, storing each accepted stroke's syllable. */
    method PopulateForward(ghost accept: string -> Option<string>, glides: seq<bool>, initials: seq<string>, vowels: seq<string>,
                           finals: seq<string>, tones: seq<string>)
      requires forwardCache == map[] && forwardOrder == []
      requires forall s {:trigger Accepted(s)} :: accept(s) == Accepted(s)
      modifies this`forwardCache, this`forwardOrder
      ensures Forward(forwardCache, forwardOrder) == Fold(accept, GlidesFrom(glides, initials, vowels, finals, tones))
    {
      ghost var done: seq<string> := [];
      var a := 0;
      while a < |glides|
        invariant 0 <= a <= |glides|
        invariant done == GlidesFrom(glides[..a], initials, vowels, finals, tones)
        invariant Forward(forwardCache, forwardOrder) == Fold(accept, done)
      {
        var glidePrefix := GlidePrefix(glides[a]);
        PopulateInitials(accept, glidePrefix, initials, vowels, finals, tones, done);
        GlidesStep(glides, initials, vowels, finals, tones, a);
        done := done + InitialsFrom(glidePrefix, initials, vowels, finals, tones);
        a := a + 1;
      }
      assert glides[..a] == glides;
    }

    /** The initial loop of step 1 and the loops inside it, for the glide
        prefix `p`; `done` is the strokes visited before. */
    method PopulateInitials(ghost accept: string -> Option<string>, p: string, initials: seq<string>,
                            vowels: seq<string>, finals: seq<string>, tones: seq<string>, ghost done: seq<string>)
      requires forall s {:trigger Accepted(s)} :: accept(s) == Accepted(s)
      requires Forward(forwardCache, forwardOrder) == Fold(accept, done)
      modifies this`forwardCache, this`forwardOrder
      ensures Forward(forwardCache, forwardOrder) == Fold(accept, done + InitialsFrom(p, initials, vowels, finals, tones))
    {
      ghost var visited := done;
      var b := 0;
      while b < |initials|
        invariant 0 <= b <= |initials|
        invariant visited == done + InitialsFrom(p, initials[..b], vowels, finals, tones)
        invariant Forward(forwardCache, forwardOrder) == Fold(accept, visited)
      {
        var initialKey := initials[b];
        PopulateVowels(accept, p + initialKey, vowels, finals, tones, visited);
        InitialsStep(p, initials, vowels, finals, tones, b, done);
        visited := visited + VowelsFrom(p + initialKey, vowels, finals, tones);
        b := b + 1;
      }
      assert initials[..b] == initials;
    }

    /** The vowel loop of step 1 and the loops inside it, for the stroke
        prefix `p`; `done` is the strokes visited before. */
    method PopulateVowels(ghost accept: string -> Option<string>, p: string, vowels: seq<string>,
                          finals: seq<string>, tones: seq<string>, ghost done: seq<string>)
      requires forall s {:trigger Accepted(s)} :: accept(s) == Accepted(s)
      requires Forward(forwardCache, forwardOrder) == Fold(accept, done)
      modifies this`forwardCache, this`forwardOrder
      ensures Forward(forwardCache, forwardOrder) == Fold(accept, done + VowelsFrom(p, vowels, finals, tones))
    {
      ghost var visited := done;
      var c := 0;
      while c < |vowels|
        invariant 0 <= c <= |vowels|
        invariant visited == done + VowelsFrom(p, vowels[..c], finals, tones)
        invariant Forward(forwardCache, forwardOrder) == Fold(accept, visited)
      {
        var vowelKey := vowels[c];
        PopulateFinals(accept, p + vowelKey, finals, tones, visited);
        VowelsStep(p, vowels, finals, tones, c, done);
        visited := visited + FinalsFrom(p + vowelKey, finals, tones);
        c := c + 1;
      }
      assert vowels[..c] == vowels;
    }

    /** The two innermost loops of step 1, over the finals and the tones,
        for the stroke prefix `p`; `done` is the strokes visited before. */
    method PopulateFinals(ghost accept: string -> Option<string>, p: string, finals: seq<string>,
                          tones: seq<string>, ghost done: seq<string>)
      requires forall s {:trigger Accepted(s)} :: accept(s) == Accepted(s)
      requires Forward(forwardCache, forwardOrder) == Fold(accept, done)
      modifies this`forwardCache, this`forwardOrder
      ensures Forward(forwardCache, forwardOrder) == Fold(accept, done + FinalsFrom(p, finals, tones))
    {
      ghost var visited := done;
      var d := 0;
      while d < |finals|
        invariant 0 <= d <= |finals|
        invariant visited == done + FinalsFrom(p, finals[..d], tones)
        invariant Forward(forwardCache, forwardOrder) == Fold(accept, visited)
      {
        var finalKey := finals[d];
        ghost var before := visited;
        var e := 0;
        while e < |tones|
          invariant 0 <= e <= |tones|
          invariant visited == before + TonesFrom(p + finalKey, tones[..e])
          invariant Forward(forwardCache, forwardOrder) == Fold(accept, visited)
        {
          var toneKey := tones[e];
          var stroke := p + finalKey + toneKey;
          RecordStroke(accept, stroke);
          TonesStep(p + finalKey, tones, e, before);
          visited := visited + [stroke];
          e := e + 1;
        }
        assert tones[..e] == tones;
        FinalsStep(p, finals, tones, d, done);
        d := d + 1;
      }
      assert finals[..d] == finals;
    }

    /** The body of the innermost loop: store the stroke's syllable when it
        has one. */
    method RecordStroke(ghost accept: string -> Option<string>, stroke: string)
      requires forall s {:trigger Accepted(s)} :: accept(s) == Accepted(s)
      modifies this`forwardCache, this`forwardOrder
      ensures Forward(forwardCache, forwardOrder) == Record(accept, old(Forward(forwardCache, forwardOrder)), stroke)
    {
      var syllable := ParseAndAssemble(stroke);
      if syllable.Some? {
        var updated := Put(Forward(forwardCache, forwardOrder), stroke, syllable.value);
        forwardCache, forwardOrder := updated.cache, updated.order;
      }
    }

    /** Step 2 of `initializeCaches`: visit the forward entries in insertion
        order, keeping for each syllable the first strictly shortest stroke. */
    method PopulateReverse()
      requires forall k :: k in forwardOrder ==> k in forwardCache
      requires reverseCache == map[]
      modifies this`reverseCache
      ensures reverseCache == ReverseFold(forwardCache, forwardOrder)
    {
      var i := 0;
      while i < |forwardOrder|
        invariant 0 <= i <= |forwardOrder|
        invariant reverseCache == ReverseFold(forwardCache, forwardOrder[..i])
      {
        var stroke := forwardOrder[i];
        var syllable := forwardCache[stroke];
        var existing := if syllable in reverseCache then Some(reverseCache[syllable]) else None;
        if existing.None? || existing.value == "" || |stroke| < |existing.value| {
          reverseCache := reverseCache[syllable := stroke];
        }
        assert forwardOrder[..i + 1][..i] == forwardOrder[..i];
        i := i + 1;
      }
      assert forwardOrder[..i] == forwardOrder;
    }

    /** `lookup`: the first stroke only; four literal strokes first; then the
        denumeralised stroke, whose "#" form looks up the rest and
        capitalises the syllable. */
    function Lookup(strokes: seq<string>): (r: Option<string>)
      reads this
    {
      if |strokes| == 0 then None
      else
        var raw := strokes[0];
        if raw == "-S" then Some("{^};")
        else if raw == "-Z" then Some("{^}'")
        else if raw == "-D" then Some("{^}[")
        else if raw == "AO" then Some("{^}-{^}")
        else
          var stroke := Denumeralized(raw);
          if StartsWith(stroke, '#') then
            var core := stroke[1..];
            if core in forwardCache && forwardCache[core] != "" then Some(Capitalize(forwardCache[core])) else None
          else if stroke in forwardCache then Some(forwardCache[stroke])
          else None
    }

    /** `reverseLookup`: nothing for "", otherwise the reverse entry of the
        lower-cased syllable. */
    function ReverseLookup(syllable: string): (r: Option<string>)
      reads this
    {
      if syllable == "" then None
      else if ToLower(syllable) in reverseCache then Some(reverseCache[ToLower(syllable)])
      else None
    }
  }
}
