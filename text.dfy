/**
 * String helpers shared by the card utilities: an optional value, ASCII
 * lower-casing, substring search (`String.prototype.includes`), whole-word
 * search (a regular expression `\bword\b`) and `Array.prototype.join`.
 * Strings are sequences of characters; only ASCII letters change case.
 */
module Text {

  datatype Option<T> = None | Some(value: T)

  /** `toLowerCase` restricted to ASCII: A-Z map to a-z, everything else is kept. */
  function LowerChar(c: char): char
  {
    if 'A' <= c <= 'Z' then (c as int + 32) as char else c
  }

  function Lower(s: string): (r: string)
    ensures |r| == |s|
    ensures forall i :: 0 <= i < |s| ==> r[i] == LowerChar(s[i])
  {
    seq(|s|, i requires 0 <= i < |s| => LowerChar(s[i]))
  }

  /** `needle` occurs in `hay` starting at index `i`. */
  predicate OccursAt(hay: string, needle: string, i: int)
  {
    0 <= i && i + |needle| <= |hay| && hay[i..i + |needle|] == needle
  }

  /** Left-to-right search for `needle` at an index at or after `i`. */
  function SearchFrom(hay: string, needle: string, i: nat): (r: bool)
    decreases |hay| - i
    ensures r <==> exists k :: i <= k && OccursAt(hay, needle, k)
  {
    if i + |needle| > |hay| then false
    else if hay[i..i + |needle|] == needle then assert OccursAt(hay, needle, i); true
    else SearchFrom(hay, needle, i + 1)
  }

  /** `hay.includes(needle)`: plain substring test. */
  function Contains(hay: string, needle: string): (r: bool)
    ensures r <==> exists i :: OccursAt(hay, needle, i)
  {
    SearchFrom(hay, needle, 0)
  }

  /** A needle holding a character that the haystack lacks is not a substring of it. */
  lemma MissingCharNotContained(hay: string, needle: string, c: char)
    requires c in needle && c !in hay
    ensures !Contains(hay, needle)
  {
  }

  /** Lower-casing cannot produce a letter whose two cases are both absent. */
  lemma LowerMissing(s: string, c: char)
    requires 'a' <= c <= 'z' && c !in s && (c as int - 32) as char !in s
    ensures c !in Lower(s)
  {
    forall i | 0 <= i < |s| ensures Lower(s)[i] != c {
      assert s[i] != c && s[i] != (c as int - 32) as char;
    }
  }

  /** A needle that occurs at a given index is a substring. */
  lemma OccursContained(hay: string, needle: string, i: int)
    requires OccursAt(hay, needle, i)
    ensures Contains(hay, needle)
  {
  }

  /** The characters a regular expression's `\w` class accepts. */
  predicate IsWordChar(c: char)
  {
    ('a' <= c <= 'z') || ('A' <= c <= 'Z') || ('0' <= c <= '9') || c == '_'
  }

  predicate IsAsciiDigit(c: char)
  {
    '0' <= c <= '9'
  }

  /**
   * `word` occurs at `i` with a word boundary on both sides. For a word that
   * starts and ends with a `\w` character this is exactly where `\bword\b`
   * matches.
   */
  predicate WordAt(hay: string, word: string, i: int)
  {
    && OccursAt(hay, word, i)
    && (i == 0 || !IsWordChar(hay[i - 1]))
    && (i + |word| == |hay| || !IsWordChar(hay[i + |word|]))
  }

  function WordSearchFrom(hay: string, word: string, i: nat): (r: bool)
    decreases |hay| - i
    ensures r <==> exists k :: i <= k && WordAt(hay, word, k)
  {
    if i + |word| > |hay| then false
    else if WordAt(hay, word, i) then true
    else WordSearchFrom(hay, word, i + 1)
  }

  /** `/\bword\b/.test(hay)` */
  function ContainsWord(hay: string, word: string): (r: bool)
    ensures r <==> exists i :: WordAt(hay, word, i)
  {
    WordSearchFrom(hay, word, 0)
  }

  /** `/\b(w1|w2|...)\b/.test(hay)`: some alternative occurs as a whole word. */
  function ContainsAnyWord(hay: string, words: seq<string>): (r: bool)
    ensures r <==> exists k :: 0 <= k < |words| && ContainsWord(hay, words[k])
  {
    if words == [] then false
    else ContainsWord(hay, words[0]) || ContainsAnyWord(hay, words[1..])
  }

  /** `/w1|w2|.../.test(hay)`: some alternative occurs as a substring. */
  function ContainsAny(hay: string, needles: seq<string>): (r: bool)
    ensures r <==> exists k :: 0 <= k < |needles| && Contains(hay, needles[k])
  {
    if needles == [] then false
    else Contains(hay, needles[0]) || ContainsAny(hay, needles[1..])
  }

  /** A whole-word occurrence is in particular a substring occurrence. */
  lemma WordIsSubstring(hay: string, word: string)
    requires ContainsWord(hay, word)
    ensures Contains(hay, word)
  {
    var i :| WordAt(hay, word, i);
    assert OccursAt(hay, word, i);
  }

  function HasAsciiDigit(s: string): (r: bool)
    ensures r <==> exists i :: 0 <= i < |s| && IsAsciiDigit(s[i])
  {
    if s == [] then false
    else IsAsciiDigit(s[0]) || (assert forall i :: 1 <= i < |s| ==> s[i] == s[1..][i - 1]; HasAsciiDigit(s[1..]))
  }

  /** `parts.join(sep)` */
  function Join(parts: seq<string>, sep: string): string
  {
    if parts == [] then ""
    else if |parts| == 1 then parts[0]
    else parts[0] + sep + Join(parts[1..], sep)
  }

  /** Every part of a join is a substring of the joined text. */
  lemma {:induction false} JoinContainsParts(parts: seq<string>, sep: string, k: int)
    requires 0 <= k < |parts|
    ensures Contains(Join(parts, sep), parts[k])
  {
    var j := Join(parts, sep);
    var off := JoinOffset(parts, sep, k);
    assert OccursAt(j, parts[k], off);
  }

  /** The index in the joined text where part `k` starts. */
  function JoinOffset(parts: seq<string>, sep: string, k: int): (off: int)
    requires 0 <= k < |parts|
    decreases k
    ensures OccursAt(Join(parts, sep), parts[k], off)
  {
    if k == 0 then
      assert Join(parts, sep)[..|parts[0]|] == parts[0];
      0
    else
      var rest := Join(parts[1..], sep);
      var inner := JoinOffset(parts[1..], sep, k - 1);
      var prefix := parts[0] + sep;
      assert Join(parts, sep) == prefix + rest;
      assert (prefix + rest)[|prefix| + inner..|prefix| + inner + |parts[k]|]
          == rest[inner..inner + |parts[k]|];
      |prefix| + inner
  }

  /** The total length of the parts. */
  function SumLengths(parts: seq<string>): nat
  {
    if parts == [] then 0 else |parts[0]| + SumLengths(parts[1..])
  }

  /** A join is as long as its parts together plus one separator between each two. */
  lemma {:induction false} JoinLength(parts: seq<string>, sep: string)
    requires parts != []
    ensures |Join(parts, sep)| == SumLengths(parts) + (|parts| - 1) * |sep|
  {
    if |parts| > 1 {
      JoinLength(parts[1..], sep);
    }
  }

  /** Part `k + 1` starts right after part `k` and one separator. */
  lemma {:induction false} JoinOffsetStep(parts: seq<string>, sep: string, k: int)
    requires 0 <= k < |parts| - 1
    ensures JoinOffset(parts, sep, k + 1) == JoinOffset(parts, sep, k) + |parts[k]| + |sep|
  {
    if k > 0 {
      JoinOffsetStep(parts[1..], sep, k - 1);
    }
  }

  /** Between part `k` and part `k + 1` the joined text holds exactly the separator. */
  lemma {:induction false} JoinSeparator(parts: seq<string>, sep: string, k: int)
    requires 0 <= k < |parts| - 1
    ensures OccursAt(Join(parts, sep), sep, JoinOffset(parts, sep, k) + |parts[k]|)
  {
    var prefix, rest := parts[0] + sep, Join(parts[1..], sep);
    assert Join(parts, sep) == prefix + rest;
    if k == 0 {
      SliceShift(parts[0], sep + rest, 0, |sep|);
      assert parts[0] + (sep + rest) == prefix + rest;
    } else {
      JoinSeparator(parts[1..], sep, k - 1);
      OccursAfterPrefix(prefix, rest, sep, JoinOffset(parts[1..], sep, k - 1) + |parts[k]|);
    }
  }

  /** A slice of the second half of `p + r` is the same slice of `r`, shifted by `|p|`. */
  lemma SliceShift<T>(p: seq<T>, r: seq<T>, i: int, n: int)
    requires 0 <= i && 0 <= n && i + n <= |r|
    ensures |p| + i + n <= |p + r| && (p + r)[|p| + i..|p| + i + n] == r[i..i + n]
  {
  }

  /** The last part ends the joined text. */
  lemma {:induction false} JoinLastPart(parts: seq<string>, sep: string)
    requires parts != []
    ensures JoinOffset(parts, sep, |parts| - 1) + |parts[|parts| - 1]| == |Join(parts, sep)|
  {
    if |parts| > 1 {
      JoinLastPart(parts[1..], sep);
    }
  }

  /** In `h + Join(parts, sep)` part `k` sits at `|h|` plus its join offset, the first right after `h`. */
  lemma JoinPartAt(h: string, parts: seq<string>, sep: string, k: int)
    requires 0 <= k < |parts|
    ensures OccursAt(h + Join(parts, sep), parts[k], |h| + JoinOffset(parts, sep, k))
    ensures JoinOffset(parts, sep, 0) == 0
  {
    OccursAfterPrefix(h, Join(parts, sep), parts[k], JoinOffset(parts, sep, k));
  }

  /** An occurrence in `body` is one in `h + body`, shifted by `|h|`. */
  lemma OccursAfterPrefix(h: string, body: string, needle: string, i: int)
    requires OccursAt(body, needle, i)
    ensures OccursAt(h + body, needle, |h| + i)
  {
    SliceShift(h, body, i, |needle|);
  }

  /** In `h + Join(parts, sep)` part `k + 1` follows part `k` and a separator. */
  lemma JoinNextPart(h: string, parts: seq<string>, sep: string, k: int)
    requires 0 <= k < |parts| - 1
    ensures JoinOffset(parts, sep, k + 1) == JoinOffset(parts, sep, k) + |parts[k]| + |sep|
    ensures OccursAt(h + Join(parts, sep), sep, |h| + JoinOffset(parts, sep, k) + |parts[k]|)
  {
    JoinOffsetStep(parts, sep, k);
    JoinSeparator(parts, sep, k);
    OccursAfterPrefix(h, Join(parts, sep), sep, JoinOffset(parts, sep, k) + |parts[k]|);
  }

  /** `a` is `b` with some elements dropped and the rest kept in order. */
  predicate IsSubsequence<T(==)>(a: seq<T>, b: seq<T>)
    decreases |b|
  {
    if a == [] then true
    else if b == [] then false
    else if a[0] == b[0] then IsSubsequence(a[1..], b[1..])
    else IsSubsequence(a, b[1..])
  }

  lemma {:induction false} SubsequenceRefl<T>(s: seq<T>)
    ensures IsSubsequence(s, s)
  {
    if s != [] { SubsequenceRefl(s[1..]); }
  }
}
