/** Shared vocabulary of the four syllable codecs: option and result values,
    the parsed-syllable record, association tables kept in insertion order,
    and the fixed-length prefix match used by the Python and the second
    TypeScript tokenizer. */
module StenoUtil {

  datatype Option<T> = None | Some(value: T) {
    function GetOr(default: T): T {
      if Some? then value else default
    }
  }

  /** The five fields every tokenizer produces. */
  datatype Parsed = Parsed(
    onGlide: bool,
    initialConsonant: string,
    vowel: string,
    finalConsonant: string,
    tone: string)

  /** The keys that each group of a stroke matched. */
  datatype Tokens = Tokens(
    glide: bool,
    initialKey: string,
    vowelKey: string,
    finalKey: string,
    toneKey: string)

  /** The stroke the keys spell: the glide "S", then the keys in group order. */
  function Untokenize(t: Tokens): string {
    (if t.glide then "S" else "") + (t.initialKey + (t.vowelKey + (t.finalKey + t.toneKey)))
  }

  /** A literal dictionary of the source: its keys in insertion order and,
      index by index, their values. */
  datatype Table<V> = Table(keys: seq<string>, values: seq<V>)

  /** The position of `k` among the keys (its first one). */
  function IndexOf(keys: seq<string>, k: string): (i: nat)
    requires k in keys
    ensures i < |keys| && keys[i] == k
    ensures forall j :: 0 <= j < i ==> keys[j] != k
  {
    if keys[0] == k then 0 else 1 + IndexOf(keys[1..], k)
  }

  /** Dictionary lookup; None where the source would find no entry. */
  function Get<V>(t: Table<V>, k: string): (r: Option<V>)
    requires |t.keys| == |t.values|
    ensures r.Some? <==> k in t.keys
    ensures r.Some? ==> r.value in t.values
  {
    if k in t.keys then Some(t.values[IndexOf(t.keys, k)]) else None
  }

  function GetOr<V>(t: Table<V>, k: string, default: V): V
    requires |t.keys| == |t.values|
  {
    Get(t, k).GetOr(default)
  }

  /** Reading entry `i` by its key gives its value when no earlier entry has
      the same key. */
  lemma GetAt<V>(t: Table<V>, i: nat)
    requires |t.keys| == |t.values| && i < |t.keys|
    requires t.keys[i] !in t.keys[..i]
    ensures Get(t, t.keys[i]) == Some(t.values[i])
  {
    var j := IndexOf(t.keys, t.keys[i]);
    assert j <= i;
  }

  /** An entry whose key appears at no earlier index is found at its own. */
  lemma IndexAt(keys: seq<string>, i: nat)
    requires i < |keys| && keys[i] !in keys[..i]
    ensures IndexOf(keys, keys[i]) == i
  {
  }

  predicate StartsWith(s: string, c: char) {
    |s| > 0 && s[0] == c
  }

  /** The stroke without its leading glide "S". */
  function AfterGlide(stroke: string): (r: string)
    ensures (if StartsWith(stroke, 'S') then "S" else "") + r == stroke
  {
    if StartsWith(stroke, 'S') then
      assert stroke == [stroke[0]] + stroke[1..];
      stroke[1..]
    else stroke
  }

  /** Python's `s[:n]` and JavaScript's `s.substring(0, n)`: clamped at the end. */
  function Take(s: string, n: nat): (r: string)
    ensures r <= s && |r| == if n <= |s| then n else |s|
  {
    if n <= |s| then s[..n] else s
  }

  /** Python's `s[n:]` and JavaScript's `s.substring(n)`. */
  function Drop(s: string, n: nat): (r: string)
    ensures Take(s, n) + r == s
  {
    if n <= |s| then s[n..] else ""
  }

  /** The loops `for length in range(n, 0, -1)` of the Python tokenizers and
      `for (let len = n; len > 0; len--)` of parse.ts: the first length, counting
      down from `n`, whose prefix is a key of `t`; 0 when there is none. */
  function MatchLength(keys: seq<string>, s: string, n: nat): (len: nat)
    ensures len <= n
    ensures len > 0 ==> Take(s, len) in keys
    ensures forall m :: len < m <= n ==> Take(s, m) !in keys
  {
    if n == 0 then 0
    else if Take(s, n) in keys then n
    else MatchLength(keys, s, n - 1)
  }

  /** The key matched by MatchLength ("" when none). */
  function MatchedKey(keys: seq<string>, s: string, n: nat): (k: string)
    ensures k == "" || k in keys
    ensures k <= s
  {
    var len := MatchLength(keys, s, n);
    if len == 0 then "" else Take(s, len)
  }

  /** One counting-down match loop: returns the table value of the matched
      prefix ("" when none) and the rest of the string after it. */
  method MatchByLength(t: Table<string>, s: string, maxLen: nat)
    returns (value: string, rest: string)
    requires |t.keys| == |t.values|
    ensures var len := MatchLength(t.keys, s, maxLen);
      && value == (if len == 0 then "" else GetOr(t, Take(s, len), ""))
      && rest == Drop(s, len)
  {
    value, rest := "", s;
    var length: nat := maxLen;
    while length > 0
      invariant length <= maxLen
      invariant MatchLength(t.keys, s, maxLen) == MatchLength(t.keys, s, length)
      invariant value == "" && rest == s
    {
      var candidate := Take(s, length);
      if candidate in t.keys {
        value := GetOr(t, candidate, "");
        rest := Drop(s, length);
        break;
      }
      length := length - 1;
    }
  }
}
