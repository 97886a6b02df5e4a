# Vietnamese steno syllable codec

This project models the syllable codec of a Vietnamese stenography system for
Plover. A steno stroke spells one syllable as five parts, in keyboard order:
- an optional glide key `S`;
- an initial-consonant chord;
- a vowel chord;
- a final-consonant chord;
- a tone chord.

`parse` cuts a stroke into those parts by looking each part up in a key table.
`assemble` spells the parsed syllable in Vietnamese orthography, which covers:
- the `c`/`k`/`q`, `g`/`gh`, `ng`/`ngh` and `gi` spellings;
- the two spellings of each diphthong;
- the glide written as `o` or `u`;
- where the tone mark goes;
- the `w`/`j` finals written as `u`/`o`/`i`/`y`.

The repository has four versions of this codec. Each becomes one module:

| module | source | what it has |
|---|---|---|
| `ProcessDictionaryCodec` | process-dictionary.ts | longest-key parse with failure, assemble with post-processing |
| `ProcessDictionaryNormalize` | process-dictionary.ts | `denumeralizeStroke`, `capitalize`, lower-casing |
| `ProcessDictionaryCache` | process-dictionary.ts | class `SyllableParseinator` |
| `ProcessDictionaryCacheFacts` | process-dictionary.ts | what a built `SyllableParseinator` promises |
| `ParsePy` | parse.py | fixed-length parse that never fails, assemble, `lookup` |
| `PloverDictionary` | plover-dictionary.py | the same parse with the extra final `RG`, a simpler assemble, `lookup` |
| `ParseTs` | parse.ts | parse only, with its own vowel table |

`SyllableParseinator` works in two steps:
1. It enumerates every combination of glide, initial, vowel, final and tone keys.
2. It keeps each stroke that parses and assembles, in a forward cache from stroke to syllable. From that it derives a reverse cache, from syllable to shortest stroke.

`StenoUtil` holds the shared datatypes and the table helpers. `StenoTables` holds the key tables and the tone-mark table, which the source files spell out identically.

State and imperative code:
- **The class.** `SyllableParseinator` is a class. `forwardCache` is a `map` plus a `seq` of its keys in insertion order, because a JavaScript `Map` iterates in that order and the reverse pass depends on it. `reverseCache` is a `map`.
- **Nested loops.** One method per loop level runs the five nested loops of `initializeCaches`. Each method is proved equal to a fold over the enumeration.
- **Parse loops.** The `for … break` loops of each `parse` are methods too (`ParseStroke`, `ParseStrokeWith`, `MatchLongestKey`, `MatchByLength`). Each is proved equal to the pure function the lemmas use.

A tone-mark entry that is missing is handled differently by the versions:
- In process-dictionary.ts it is not an error: `applyTone` falls back to the unmarked vowel (process-dictionary.ts:160-164).
- In parse.py it raises `KeyError`, which the model writes as `None`.

One property of the code is stated and proved rather than corrected. parse.py's initial loop tries at most 3 letters, so the 4-letter key `TKPW` for "g" can never match (`ParsePy.NeverTKPW`). The same holds for parse.ts (`ParseTs.NeverG`).

The post-processing of process-dictionary.ts drops the first letter of the middle after "q" whenever it is a "u" (see "## Findings"). `ProcessDictionaryCodec.Assemble` is that code as written, and the cache is built with it, as the program's is: the model's `SyllableParseinator` answers "SKA" with "qa". `ProcessDictionaryCodec.AssembleCorrected` drops the letter only where the middle starts with the doubled "u" that the rule's comment names; only the lemmas of the finding use it.

## Model

| member | source | states |
|---|---|---|
| StenoTables.Accent | process-dictionary.ts:36-49 | a tone-marked letter exists exactly when the base is one of the twelve vowel letters and the tone is one of the six tone names ("" included) |
| StenoTables.AccentUnmarked | process-dictionary.ts:37-48 | the tone name "" gives back the unmarked base letter |
| StenoTables.AccentIsOneLetter | process-dictionary.ts:37-48 | every tone-marked vowel is a single letter |
| StenoTables.AccentKeepsU | process-dictionary.ts:37-48 | with or without a table entry, a toned base letter is one letter, and it is one of the six forms of "u" exactly when the base is "u" |
| StenoTables.NoEmptyEntries | process-dictionary.ts:14-34 | no key table has "" as a key, and no vowel value is empty |
| StenoTables.TableLetters | process-dictionary.ts:14-34 | initial keys use only the left-bank letters, vowel keys only A O E U, and final and tone keys only their right-bank letters, so the five groups of a stroke are separated by the letters themselves |
| StenoTables.ToneValuesNamed | process-dictionary.ts:32-37 | every tone the tone table yields is a column of the tone-mark table |
| StenoUtil.MatchLength | parse.py:101-106 | the length found is 0 or names a key, and no longer length up to the bound names a key |
| StenoUtil.MatchByLength | parse.py:101-106 | the loop from the longest length down yields the entry of the longest matching slice (or "") and removes exactly that slice from the stroke |
| ProcessDictionaryCodec.LongestKey | process-dictionary.ts:77-86 | the key chosen is a prefix of the stroke and no key that is a prefix is longer; no key is chosen exactly when no key is a prefix |
| ProcessDictionaryCodec.LongestKeyOrderIndependent | process-dictionary.ts:77 | the key chosen depends only on the set of keys, not on their order |
| ProcessDictionaryCodec.InsertByLength | process-dictionary.ts:77 | inserting into a list sorted by decreasing length keeps it sorted, and the result is a permutation of the list plus the new key |
| ProcessDictionaryCodec.SortByLengthDesc | process-dictionary.ts:77 | the keys sorted longest first, as a permutation of the table's keys |
| ProcessDictionaryCodec.FirstPrefixIsLongest | process-dictionary.ts:78-86 | the first prefix met in the length-sorted keys is the longest matching key |
| ProcessDictionaryCodec.FirstPrefix | process-dictionary.ts:78-86 | the loop stops at the first sorted key that is a prefix, and no earlier key is one; without a match no key is one |
| ProcessDictionaryCodec.MatchLongestKey | process-dictionary.ts:77-86 | the sort-then-scan loop finds the longest matching key or reports none, with that key's table value |
| ProcessDictionaryCodec.MatchGroup | process-dictionary.ts:94-104 | one matching pass splits the stroke into the longest key and the rest, and returns its value ("" when no key matches) |
| StenoUtil.AfterGlide | process-dictionary.ts:62-65 | the glide prefix "S", when present, followed by the rest gives back the stroke |
| ProcessDictionaryCodec.Cut | process-dictionary.ts:110-123 | the key cut off and the rest join to give back the input, and the key is the longest matching one |
| ProcessDictionaryCodec.Tokenize | process-dictionary.ts:60-143 | a successful tokenization spells the stroke back exactly, its glide is the leading "S", and every part is a table key or "" |
| ProcessDictionaryCodec.TokenizeFailure | process-dictionary.ts:94-133 | parsing fails exactly when no vowel key starts after the initial, or the letters left after the final are not a tone key |
| ProcessDictionaryCodec.TokenizeIsGreedy | process-dictionary.ts:77-120 | each part of a successful parse is the longest key of its table that could have matched there |
| ProcessDictionaryCodec.ParseStrokeWith | process-dictionary.ts:60-144 | the imperative parse, for any tables with no empty key, returns what the functional parse returns |
| ProcessDictionaryCodec.ParseStroke | process-dictionary.ts:60-144 | the imperative parse with the source's tables equals the functional parse |
| ProcessDictionaryCodec.ParseFields | process-dictionary.ts:60-144 | a parsed syllable's glide is the leading "S", its vowel is a non-empty vowel value, and its initial, final and tone are table values or "" |
| ProcessDictionaryCodec.GreedyRoundTripWith | process-dictionary.ts:60-144 | for tables whose groups use disjoint letters, parsing the spelled-out keys gives back exactly those keys |
| ProcessDictionaryCodec.GreedyRoundTrip | process-dictionary.ts:60-144 | every combination of table keys is parsed back into the same keys |
| ProcessDictionaryCodec.ParseOfTokens | process-dictionary.ts:60-144 | parsing a stroke spelled from table keys yields those keys' values |
| ProcessDictionaryCodec.ApplyTone | process-dictionary.ts:159-165 | a non-empty vowel stays non-empty whether or not the tone-mark table has an entry for it |
| ProcessDictionaryCodec.InitialRules | process-dictionary.ts:147-156 | each in both directions: "c" is "q" with a glide, "c" before a back vowel and "k" otherwise; "ng/ngh" and "g" are "ng" and "g" with a glide or a back vowel and take an "h" otherwise; "gi" is "g" before "i" without a glide and "gi" otherwise; every other initial unchanged |
| ProcessDictionaryCodec.GetInitial | process-dictionary.ts:147-156 | the initial is written with letters exactly when there is one; its spelling rules are InitialRules |
| ProcessDictionaryCodec.GetFinal | process-dictionary.ts:241-265 | the final is written with letters exactly when there is one; its spelling rules are FinalRules |
| ProcessDictionaryCodec.GetMiddle | process-dictionary.ts:158-239 | the nucleus; its spelling rules are MiddleOfDiphthong, MiddleGlideI, MiddleOnGlide, MiddleWithoutGlide and MiddleBeforeWJ |
| ProcessDictionaryCodec.MiddleOfDiphthong | process-dictionary.ts:168-181 | the diphthongs are spelled by the final: "ia", "ua", "ưa" with the tone on the first letter in an open syllable, "iê", "uô", "ươ" with the tone on the second before a final; "iê/ia" is "yê" without an initial ("uyê" with a glide), and "uya"/"uyê" after an initial and a glide |
| ProcessDictionaryCodec.MiddleGlideI | process-dictionary.ts:183-190 | after a glide "i" is written "uy": tone on the "y" after "q" or before a final, on the "u" otherwise |
| ProcessDictionaryCodec.MiddleOnGlide | process-dictionary.ts:199-237 | after a glide a single vowel follows the glide letter, "u" after "q" and "o" otherwise; the tone goes on the glide letter in open "oa", "oe" and "uy", on the vowel elsewhere |
| ProcessDictionaryCodec.MiddleWithoutGlide | process-dictionary.ts:183-237 | without a glide a single vowel is the vowel with its tone ("ă" before "w"/"j" excepted) |
| ProcessDictionaryCodec.MiddleBeforeWJ | process-dictionary.ts:199-202 | before the finals "w" and "j", "ă" is written "a", behind the glide letter when there is a glide |
| ProcessDictionaryCodec.FinalRules | process-dictionary.ts:241-265 | final "w" is written "u" after the listed front vowels and "o" otherwise; final "j" is "y" after "ă"/"â" and "i" otherwise; other finals unchanged |
| ProcessDictionaryCodec.MiddleNonEmpty | process-dictionary.ts:158-239 | a non-empty vowel always gives a non-empty nucleus |
| ProcessDictionaryCodec.AssembleNonEmpty | process-dictionary.ts:146-284 | every syllable that parses assembles to a non-empty string, as written and corrected, so the cache's non-empty test never rejects one |
| ProcessDictionaryCodec.PostProcess | process-dictionary.ts:272-283 | the post-processing on the three written parts; what it does is PostProcessEffect |
| ProcessDictionaryCodec.Assemble | process-dictionary.ts:146-284 | `assemble` as written; AsWrittenVersusCorrected relates it to AssembleCorrected |
| ProcessDictionaryCodec.AssembleCorrected | process-dictionary.ts:277-280 | `assemble` with the "q" rule dropping only a doubled "u"; its property is CorrectedQIsFollowedByU |
| ProcessDictionaryCodec.PostProcessEffect | process-dictionary.ts:271-283 | the post-processing drops the nucleus's leading "u" after "q" and otherwise just joins the three parts (the g+i rule yields the same string as the join) |
| ProcessDictionaryCodec.AsWrittenVersusCorrected | process-dictionary.ts:271-283 | the two assemblers differ exactly after a "q" whose middle starts with a "u" that is not doubled, where the as-written one deletes the "u" right after the "q" |
| ProcessDictionaryCodec.CorrectedQIsFollowedByU | process-dictionary.ts:146-284 | corrected, every glide syllable on "c" starts with "q"; for every vowel but "ưa/ươ" a form of "u" follows, and no second one except for the vowel "u", which is then written once; "ưa/ươ" follows the "q" directly, with no "u" |
| ProcessDictionaryCodec.AsWrittenDropsGlideU | process-dictionary.ts:277-280 | as written, "SKA" assembles to "qa" and "SKEU" to "qy"; corrected, to "qua" and "quy" |
| ProcessDictionaryCodec.QAfterDoubledUAndDiphthongs | process-dictionary.ts:277-280 | "SKU" is "qu" both ways; "SKAEU" is "qa" as written and "qua" corrected; "SKAOE" is "qưa" both ways |
| ProcessDictionaryCodec.AssembleQua | process-dictionary.ts:277-280 | the glide "a" on "c" is "qa" as written and "qua" corrected |
| ProcessDictionaryCodec.AssembleQuy | process-dictionary.ts:183-280 | the glide "i" on "c" is "qy" as written and "quy" corrected |
| ProcessDictionaryCodec.AssembleQuu | process-dictionary.ts:218-280 | the glide "u" on "c" is "qu" as written and corrected |
| ProcessDictionaryCodec.AssembleQuaDiphthong | process-dictionary.ts:177-280 | the glide "ua/uô" on "c" without a final is "qa" as written and "qua" corrected |
| ProcessDictionaryCodec.AssembleQua2 | process-dictionary.ts:180-280 | the glide "ưa/ươ" on "c" without a final is "qưa" as written and corrected |
| ProcessDictionaryCodec.GlideParses | process-dictionary.ts:60-144 | "SKA" and "SKEU" parse to the glide syllables on "c" with vowels "a" and "i" |
| ProcessDictionaryCodec.MoreGlideParses | process-dictionary.ts:60-144 | "SKU", "SKAEU" and "SKAOE" parse to the glide syllables on "c" with vowels "u", "ua/uô" and "ưa/ươ" |
| ProcessDictionaryCodec.Parse | process-dictionary.ts:60-144 | `parse` with the source's tables; its properties are Tokenize, TokenizeFailure, ParseFields and GreedyRoundTrip |
| ProcessDictionaryCodec.ParseWith | process-dictionary.ts:60-144 | `parse` over any tables; ParseStrokeWith proves the loop computes it |
| ProcessDictionaryCodec.ExampleParses | process-dictionary.ts:60-144 | "KHOEU" parses to ch + iê/ia and "TKAEF" to đ + ă + w |
| ProcessDictionaryCodec.Examples | process-dictionary.ts:146-284 | "KHOEU" assembles to "chia" and "TKAEF" to "đau" |
| ProcessDictionaryNormalize.Denumeralized | process-dictionary.ts:287-306 | the denumeralized stroke; its properties are DenumeralizedShape, DenumeralizedHasNoDigit and DenumeralizeIdempotent |
| ProcessDictionaryNormalize.ToLower | process-dictionary.ts:428 | same length, each character lower-cased on its own |
| ProcessDictionaryNormalize.DigitKey | process-dictionary.ts:51-54 | every digit maps to a key letter, never to a digit |
| ProcessDictionaryNormalize.KeyChars | process-dictionary.ts:302-304 | each character is mapped on its own: digits to their keys, everything else unchanged |
| ProcessDictionaryNormalize.DenumeralizeStroke | process-dictionary.ts:287-306 | the two loops compute the denumeralized stroke |
| ProcessDictionaryNormalize.DenumeralizedShape | process-dictionary.ts:287-306 | a stroke starting with "#" or without digits is returned unchanged; otherwise the result is "#" followed by the stroke with every digit replaced by its key |
| ProcessDictionaryNormalize.DenumeralizedHasNoDigit | process-dictionary.ts:287-306 | a stroke that did not start with "#" has no digit left after denumeralization |
| ProcessDictionaryNormalize.DenumeralizeIdempotent | process-dictionary.ts:287-306 | denumeralizing twice is the same as once |
| ProcessDictionaryNormalize.Capitalize | process-dictionary.ts:308-311 | same length; the first letter is upper-cased and the rest is unchanged; "" stays "" |
| ProcessDictionaryNormalize.CaseRoundTrip | process-dictionary.ts:308-311 | upper-casing a lower-case letter and lower-casing it again gives it back, and the other way round |
| ProcessDictionaryNormalize.LowerOfCapitalized | process-dictionary.ts:308-311 | lower-casing a capitalized lower-case syllable gives it back, and lower-casing is idempotent |
| ProcessDictionaryCache.Generated | process-dictionary.ts:342-349 | every choice of glide, initial, vowel, final and tone key is among the generated strokes |
| ProcessDictionaryCache.CandidatesOverKeys | process-dictionary.ts:336-349 | every generated stroke uses only steno key letters: no digit, no "#", no "-" |
| ProcessDictionaryCache.ParseAndAssemble | process-dictionary.ts:350-360 | the loop body keeps a stroke exactly when it is not "" or "S", parses, and assembles, with the as-written assembler, to a non-empty syllable |
| ProcessDictionaryCache.FoldContents | process-dictionary.ts:342-368 | after the loops, the forward cache holds exactly the accepted generated strokes, each with its syllable, and its key order lists each key once |
| ProcessDictionaryCache.ReverseSources | process-dictionary.ts:374-381 | every reverse entry names a forward stroke that produces that syllable |
| ProcessDictionaryCache.ReverseShortest | process-dictionary.ts:374-381 | every forward syllable has a reverse entry no longer than any of its strokes |
| ProcessDictionaryCache.ReverseFirst | process-dictionary.ts:377 | ties go to the first stroke in insertion order: a stroke that wins has no earlier stroke of equal or shorter length for its syllable |
| ProcessDictionaryCache.ReverseContents | process-dictionary.ts:372-381 | the three reverse-cache properties together |
| ProcessDictionaryCache.SyllableParseinator.constructor | process-dictionary.ts:323-327 | a new instance holds the caches `initializeCaches` builds |
| ProcessDictionaryCache.SyllableParseinator.InitializeCaches | process-dictionary.ts:329-385 | from empty maps, both caches are built as the fold over the enumeration and the reverse pass define them |
| ProcessDictionaryCache.SyllableParseinator.PopulateForward | process-dictionary.ts:342-368 | the glide loop leaves the forward cache equal to the fold of the loop body over all generated strokes, in order |
| ProcessDictionaryCache.SyllableParseinator.PopulateInitials | process-dictionary.ts:344-367 | the initial loop extends the fold by the strokes of its prefix |
| ProcessDictionaryCache.SyllableParseinator.PopulateVowels | process-dictionary.ts:345-366 | the vowel loop extends the fold by the strokes of its prefix |
| ProcessDictionaryCache.SyllableParseinator.PopulateFinals | process-dictionary.ts:346-365 | the final and tone loops extend the fold by the strokes of their prefix |
| ProcessDictionaryCache.SyllableParseinator.RecordStroke | process-dictionary.ts:349-363 | one loop body stores the stroke's syllable, appending a new key at the end of the order |
| ProcessDictionaryCache.SyllableParseinator.Lookup | process-dictionary.ts:393-416 | `lookup`; its properties are LookupCached, LookupCapitalized, LookupDigits, LookupJoiner and LookupSKA |
| ProcessDictionaryCache.SyllableParseinator.ReverseLookup | process-dictionary.ts:423-430 | `reverseLookup`; its properties are ReverseLookupShortest, ReverseLookupIgnoresCapital and ReverseRoundTrip |
| ProcessDictionaryCache.SyllableParseinator.PopulateReverse | process-dictionary.ts:374-381 | the pass over the forward entries builds the reverse map the fold defines |
| ProcessDictionaryCacheFacts.ForwardCacheExact | process-dictionary.ts:342-368 | the built forward cache holds exactly the generated strokes that parse and assemble, each with the syllable the as-written assembler gives |
| ProcessDictionaryCacheFacts.ReverseCacheShortest | process-dictionary.ts:372-381 | each reverse entry is a forward stroke for that syllable, no forward stroke is shorter, and ties go to the first stroke |
| ProcessDictionaryCacheFacts.EveryKeyCombination | process-dictionary.ts:336-368 | every combination of table keys is in the forward cache, mapped to the as-written assembly of its parse |
| ProcessDictionaryCacheFacts.LookupCached | process-dictionary.ts:393-416 | looking up a cached stroke (other than "AO") returns its syllable, whatever strokes follow |
| ProcessDictionaryCacheFacts.LookupCapitalized | process-dictionary.ts:407-412 | "#" before a cached stroke returns its syllable capitalized |
| ProcessDictionaryCacheFacts.LookupDigits | process-dictionary.ts:407-412 | a stroke with digits is looked up as "#" followed by its key letters |
| ProcessDictionaryCacheFacts.LookupJoiner | process-dictionary.ts:400-405 | a lookup whose first stroke is "AO" returns the joiner "{^}-{^}" |
| ProcessDictionaryCacheFacts.LookupSKA | process-dictionary.ts:277-280 | the built cache maps "SKA" to "qa", and `lookup` returns "qa" for it |
| ProcessDictionaryCacheFacts.AOShadowed | process-dictionary.ts:400-405 | "AO" is in the forward cache as "â", but lookup never returns it because the special case comes first |
| ProcessDictionaryCacheFacts.ReverseLookupShortest | process-dictionary.ts:423-430 | reverse lookup of "" fails; otherwise it succeeds exactly when some cached stroke yields the lower-cased syllable, and returns a shortest such stroke |
| ProcessDictionaryCacheFacts.ReverseLookupIgnoresCapital | process-dictionary.ts:428 | a capitalized syllable has the same reverse lookup as its lower-case form |
| ProcessDictionaryCacheFacts.ReverseRoundTrip | process-dictionary.ts:393-430 | the stroke found by reverse lookup looks up back to the syllable (apart from "AO"), and with "#" to the capitalized syllable |
| ParsePy.CutByLength | parse.py:101-122 | the key cut off and the rest rejoin to the input; the key is "" exactly when no slice of length 1 to n is a key |
| ParsePy.ParseStrokeWith | parse.py:90-129 | the imperative parse with its three fixed-length loops returns the functional parse |
| ParsePy.ParseStroke | parse.py:90-129 | the imperative parse with the source's tables equals the functional parse |
| ParsePy.ParseSpellsStroke | parse.py:90-129 | the glide, the three keys cut off and the leftover spell the stroke back exactly |
| ParsePy.ParseTone | parse.py:124-127 | a tone is found exactly when the leftover is a tone key, and is that key's tone |
| ParsePy.ParseVowel | parse.py:108-114 | the vowel is "" exactly when no slice of 1 to 4 letters after the initial is a vowel key |
| ParsePy.NeverTKPW | parse.py:100-106 | the 3-letter initial loop never matches "TKPW", so parse never yields the initial "g" |
| ParsePy.ParseOfKeys | parse.py:90-129 | a stroke spelled from table keys (other than "TKPW") parses to those keys' values |
| ParsePy.TKPWAExample | parse.py:90-182 | "TKPWA" parses as "đ", no vowel, final "p" and then fails to assemble |
| ParsePy.InitialRules | parse.py:132-142 | the same initial spelling rules as in process-dictionary.ts, the "c", "ng" and "gi" cases included, with a back-vowel list that lacks the diphthongs |
| ParsePy.Initial | parse.py:132-142 | the initial is written with letters exactly when there is one; its spelling rules are InitialRules |
| ParsePy.Final | parse.py:171-180 | the final is written with letters exactly when there is one; its spelling rules are FinalRules |
| ParsePy.Middle | parse.py:144-169 | the nucleus, None on a KeyError; its rules are MiddleOnGlide, MiddleGlideI and MiddleOfNoVowel |
| ParsePy.Parse | parse.py:90-129 | `parse`; its properties are ParseSpellsStroke, ParseTone, ParseVowel, NeverTKPW and ParseOfKeys |
| ParsePy.Assemble | parse.py:131-182 | `assemble`; when it succeeds is AssembleDefined |
| ParsePy.FinalRules | parse.py:171-180 | final "w" is "u" after the listed vowels and "o" otherwise; "j" is "y" after "ă"/"â" and "i" otherwise |
| ParsePy.MiddleOnGlide | parse.py:163-168 | with glide and a plain vowel: "u" + marked vowel after "c"; otherwise marked "o" + vowel without a final and "o" + marked vowel with one |
| ParsePy.MiddleGlideI | parse.py:159-161 | glide "i" is marked "u" + "y" without a final and "u" + marked "y" with one |
| ParsePy.MiddleOfNoVowel | parse.py:144-169 | with no vowel, the nucleus exists exactly when there is a glide, the initial is not "c", and there is no final |
| ParsePy.AssembleDefined | parse.py:131-182 | assemble raises no KeyError for any vowel; with no vowel it succeeds exactly when the glide case above applies |
| ParsePy.AssembleOfParse | parse.py:131-182 | assembling a parse fails exactly when no vowel was found and the glide case does not apply |
| ParsePy.Lookup | parse.py:184-186 | `lookup`; its properties are LookupFirst and LookupOfKeys |
| ParsePy.LookupFirst | parse.py:184-186 | lookup uses the first stroke only |
| ParsePy.LookupOfKeys | parse.py:184-186 | looking up a stroke spelled from table keys gives the assembly of those keys' values, which always exists |
| ParsePy.Examples | parse.py:184-186 | "KHOEU" looks up to "chia" and "SKA" to "qua" |
| PloverDictionary.Parse | plover-dictionary.py:41-76 | `parse`; ParseIsParseWith and ParseVersusParsePy relate it to parse.py's |
| PloverDictionary.InitialSteps | plover-dictionary.py:81-89 | the chain of initial rewrites; InitialIsCaseSplit equates it with parse.py's |
| PloverDictionary.Accented | plover-dictionary.py:91-95 | the toned vowel; when it exists is AssembleDefined |
| PloverDictionary.Final | plover-dictionary.py:97-100 | the final is written with letters exactly when there is one; its rules are FinalRules |
| PloverDictionary.Assemble | plover-dictionary.py:78-102 | `assemble`; its properties are AssembleDefined, GlideOnlyInitial and AssembleOfParse |
| PloverDictionary.Lookup | plover-dictionary.py:104-106 | `lookup`; its properties are LookupOneTuple and LookupOfKeys |
| PloverDictionary.ParseIsParseWith | plover-dictionary.py:41-76 | the parse is the parse.py loop with a final table that also has "RG" |
| PloverDictionary.ParseStroke | plover-dictionary.py:41-76 | the imperative parse equals the functional parse |
| PloverDictionary.ParseSpellsStroke | plover-dictionary.py:41-76 | the glide, the keys cut off and the leftover spell the stroke back exactly |
| PloverDictionary.ParseTone | plover-dictionary.py:72-74 | a tone is found exactly when the leftover is a tone key |
| PloverDictionary.FinalCutVersusParsePy | plover-dictionary.py:64-70 | the final cut differs from parse.py's only where the letters after the vowel start with "RG", which is cut as "y" |
| PloverDictionary.ParseVersusParsePy | plover-dictionary.py:41-76 | the parse equals parse.py's unless "RG" follows the vowel, and then the final is "y" |
| PloverDictionary.ParseOfKeys | plover-dictionary.py:41-76 | a stroke spelled from table keys (other than "TKPW") parses to those keys' values |
| PloverDictionary.InitialIsCaseSplit | plover-dictionary.py:81-89 | the chain of reassignments gives the same initial as parse.py's case split |
| PloverDictionary.FinalRules | plover-dictionary.py:97-100 | "w" is written as in parse.py; "j" is always "i"; they differ exactly on "j" after "ă"/"â" |
| PloverDictionary.AssembleDefined | plover-dictionary.py:91-102 | assemble fails (KeyError) exactly for a vowel letter with an unknown tone; a diphthong or "" is copied unmarked |
| PloverDictionary.UnmarkedVowels | plover-dictionary.py:92-95 | the vowel values without a tone-mark row are exactly the three diphthongs |
| PloverDictionary.GlideOnlyInitial | plover-dictionary.py:78-102 | the glide affects only the initial consonant's spelling |
| PloverDictionary.AssembleOfParse | plover-dictionary.py:41-102 | every parse assembles |
| PloverDictionary.LookupOneTuple | plover-dictionary.py:104-106 | lookup succeeds exactly on a one-stroke key, with the assembly of its parse |
| PloverDictionary.LookupOfKeys | plover-dictionary.py:104-106 | looking up a stroke spelled from table keys gives the assembly of those keys' values |
| PloverDictionary.Examples | plover-dictionary.py:104-106 | "KHOEU" looks up to "chiê/ia", "SKA" to "qa", "TKAORG" to "đây" |
| ParseTs.TsVowelTable | parse.ts:10-15 | the vowel table is the shared one without "AOEU", and spells the diphthong "ưa/uơ" |
| ParseTs.TsVowelKeysFit | parse.ts:44-52 | every vowel key uses only A O E U and has at most 3 letters, so the 3-letter loop can match all of them |
| ParseTs.Parse | parse.ts:28-71 | `parse`; ParseIsParseWith relates it to parse.py's loop |
| ParseTs.ParseIsParseWith | parse.ts:28-71 | the parse is the parse.py loop with the 3-letter vowel bound and the "RG" final table |
| ParseTs.ParseStroke | parse.ts:28-71 | the imperative parse equals the functional parse |
| ParseTs.ParseSpellsStroke | parse.ts:28-71 | the glide, the keys cut off and the leftover spell the stroke back exactly |
| ParseTs.ParseTone | parse.ts:64-68 | a tone is found exactly when the leftover is a tone key |
| ParseTs.ParseVowel | parse.ts:44-52 | the vowel is "" exactly when no slice of 1 to 3 letters is a vowel key, and is never "y" |
| ParseTs.NeverG | parse.ts:34-42 | the initial "g" is never produced |
| ParseTs.ParseOfKeys | parse.ts:28-71 | a stroke spelled from table keys (other than "TKPW") parses to those keys' values |
| ParseTs.Examples | parse.ts:73-78 | the five example strokes parse to the results their comments give |

## Left out

- Logging, timing and the generated and valid counters of `initializeCaches` are left out: they have no effect on the caches.
- The `try`/`catch` around parse and assemble is left out. Nothing in the model throws, so the catch arm is unreachable.
- `getForwardCacheSize`, `getReverseCacheSize` and the static `parseStroke`/`assembleParsed` wrappers are not modelled separately. The first two are map sizes; the wrappers are `parse` and `assemble`.
- The module-level instance and `processWord` (process-dictionary.ts:449-461) are left out. `processWord` ends without using its result and returns nothing.
- The `if/else` after the initial loop (process-dictionary.ts:87-91) assigns nothing the result depends on. Only its effect, none, is modelled.
- The test at process-dictionary.ts:138-141 cannot fire: the remainder is already "" there. It is not modelled as a separate branch.
- `lookup` with a null `strokes` array is left out: no typed caller can pass one. The empty array is modelled.
- JavaScript property lookup on `toneMap`/`stenographyMap` also finds inherited names such as "constructor". Such a leftover would count as a tone in process-dictionary.ts:126 and parse.ts:65. On the tables' own keys the model does not model this.
- ProcessDictionaryNormalize.ToLower: models lower-casing only for the Latin and Vietnamese letters the tables use, not the full Unicode case mapping of `toLowerCase`.
- ProcessDictionaryNormalize.Capitalize: models `toUpperCase` on the first character for the same letters only.
- ProcessDictionaryNormalize.DenumeralizeStroke: `/\d/` is modelled as the ASCII digits 0 to 9, which is what that class matches.
- In parse.py, `lookup` on an empty tuple raises `IndexError`, and assemble raises `KeyError` on a missing tone-mark entry. In plover-dictionary.py, `lookup` fails its assertion unless the key is one string. All of these are modelled as `None`.
- generate_json.py is not part of this model. It depends on an outside stroke library.
- ProcessDictionaryCodec.CorrectedQIsFollowedByU: does not promise a "u" after "q" for "ưa/ươ". The source's `getMiddle` writes that diphthong with no glide letter (process-dictionary.ts:180-181), so "SKAOE" is "qưa" as written and corrected alike.
- ProcessDictionaryCodec.AssembleCorrected: does not repeat the "g" + toned "i" rule (process-dictionary.ts:273-275), because PostProcessEffect proves that rule returns the plain join.
- ProcessDictionaryCache.SyllableParseinator: the source's `forwardCache.get` in `lookup` and `reverseCache.get` in `reverseLookup` become the functions `Lookup` and `ReverseLookup`. Their properties are the lemmas in `ProcessDictionaryCacheFacts`.

## Findings

| source | as written | input that shows it | evidently intended | confidence | as-written member | corrected member |
|---|---|---|---|---|---|---|
| process-dictionary.ts:277-280 | after "q", a middle that starts with "u" loses that letter. The comment at line 278 says the rule is meant to turn a doubled "quuy" into "quy". But `getMiddle` writes only one "u" after "q" except for the vowel "u" itself, so the rule deletes the glide of "qua" and "quy" and the first letter of the diphthong "ua" | "SKA" gives "qa", "SKEU" gives "qy", "SKAEU" gives "qa" | "qua", "quy" and "qua": the letter is dropped only from a doubled "u", so "SKU" stays "qu" | not executed | ProcessDictionaryCodec.AsWrittenDropsGlideU | ProcessDictionaryCodec.CorrectedQIsFollowedByU |
