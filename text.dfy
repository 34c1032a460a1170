/**
 * The few Python `str` operations the pipeline relies on, over `seq<char>`:
 * `isspace`, `isupper`, `lower`, `strip`, `split()` with no separator,
 * `endswith` and the substring test `pattern in text`.
 * Character classes are those of ASCII (see README, "Left out").
 */
module Text {

  /** `c.isspace()`: the ASCII whitespace characters and the separators U+001C..U+001F. */
  predicate IsSpace(c: char) {
    c == ' ' || c == '\t' || c == '\n' || c == '\r' || c == '\U{000B}' || c == '\U{000C}'
    || ('\U{001C}' <= c <= '\U{001F}')
  }

  /** `c.isupper()` for a single character. */
  predicate IsUpper(c: char) {
    'A' <= c <= 'Z'
  }

  /** Regular-expression `\w`: letters, digits and the underscore. */
  predicate IsWordChar(c: char) {
    ('a' <= c <= 'z') || ('A' <= c <= 'Z') || ('0' <= c <= '9') || c == '_'
  }

  function LowerChar(c: char): (d: char)
    ensures !IsUpper(d)
    ensures IsWordChar(c) <==> IsWordChar(d)
    ensures IsSpace(c) <==> IsSpace(d)
    ensures !IsUpper(c) ==> d == c
  {
    if IsUpper(c) then (c as int + 32) as char else c
  }

  /** `s.lower()` */
  function Lower(s: string): (r: string)
    ensures |r| == |s|
    ensures forall i :: 0 <= i < |s| ==> r[i] == LowerChar(s[i])
  {
    seq(|s|, i requires 0 <= i < |s| => LowerChar(s[i]))
  }

  lemma LowerAppend(a: string, b: string)
    ensures Lower(a + b) == Lower(a) + Lower(b)
  {
  }

  /** Lower-casing twice is lower-casing once. */
  lemma LowerIdempotent(s: string)
    ensures Lower(Lower(s)) == Lower(s)
  {
  }

  /** The number of whitespace characters at the start of `s`. */
  function LeadingSpaces(s: string): (n: nat)
    ensures n <= |s|
    ensures forall i :: 0 <= i < n ==> IsSpace(s[i])
    ensures n < |s| ==> !IsSpace(s[n])
  {
    if s != [] && IsSpace(s[0]) then 1 + LeadingSpaces(s[1..]) else 0
  }

  /** The number of whitespace characters at the end of `s`. */
  function TrailingSpaces(s: string): (n: nat)
    ensures n <= |s|
    ensures forall i :: |s| - n <= i < |s| ==> IsSpace(s[i])
    ensures n < |s| ==> !IsSpace(s[|s| - 1 - n])
  {
    if s != [] && IsSpace(s[|s| - 1]) then 1 + TrailingSpaces(s[..|s| - 1]) else 0
  }

  /** `s.lstrip()` */
  function TrimStart(s: string): (r: string)
    ensures |r| <= |s| && r == s[|s| - |r|..]
    ensures r == [] || !IsSpace(r[0])
    ensures forall i :: 0 <= i < |s| - |r| ==> IsSpace(s[i])
  {
    s[LeadingSpaces(s)..]
  }

  /** `s.rstrip()` */
  function TrimEnd(s: string): (r: string)
    ensures |r| <= |s| && r == s[..|r|]
    ensures r == [] || !IsSpace(r[|r| - 1])
    ensures forall i :: |r| <= i < |s| ==> IsSpace(s[i])
  {
    s[..|s| - TrailingSpaces(s)]
  }

  /** No whitespace at either end. */
  predicate IsStripped(s: string) {
    s == [] || (!IsSpace(s[0]) && !IsSpace(s[|s| - 1]))
  }

  /** `s.strip()`: a piece of `s` with no whitespace at either end. */
  function Strip(s: string): (r: string)
    ensures |r| <= |s|
    ensures IsStripped(r)
  {
    TrimEnd(TrimStart(s))
  }

  /**
   * `strip` keeps one contiguous piece of `s`: it starts where `lstrip` stops,
   * and everything cut from either end is whitespace.
   */
  lemma StripIsTrimmedSlice(s: string)
    ensures var a := |s| - |TrimStart(s)|; var b := a + |Strip(s)|;
      && b <= |s| && Strip(s) == s[a..b]
      && (forall i :: 0 <= i < a ==> IsSpace(s[i]))
      && (forall i :: b <= i < |s| ==> IsSpace(s[i]))
  {
    var t := TrimStart(s);
    var r := TrimEnd(t);
    var a := |s| - |t|;
    SuffixThenPrefix(s, t, r);
    forall i | a + |r| <= i < |s|
      ensures IsSpace(s[i])
    {
      assert s[i] == t[i - a];
    }
  }

  /** A prefix of a suffix of `s` is a slice of `s`, and what follows it in `s` is what follows it in the suffix. */
  lemma SuffixThenPrefix<T>(s: seq<T>, t: seq<T>, r: seq<T>)
    requires |t| <= |s| && t == s[|s| - |t|..]
    requires |r| <= |t| && r == t[..|r|]
    ensures r == s[|s| - |t|..|s| - |t| + |r|]
    ensures forall i :: |s| - |t| + |r| <= i < |s| ==> s[i] == t[i - (|s| - |t|)]
  {
  }

  /** Stripping removes characters from the ends and adds none. */
  lemma StripKeepsCharacters(s: string)
    ensures forall c :: c in Strip(s) ==> c in s
  {
    StripIsTrimmedSlice(s);
    var a := |s| - |TrimStart(s)|;
    var r := Strip(s);
    forall c | c in r ensures c in s {
      var i :| 0 <= i < |r| && r[i] == c;
      assert s[a + i] == c;
    }
  }

  /** Every non-whitespace character of `s` survives `strip`. */
  lemma StripKeepsNonSpace(s: string, k: nat)
    requires k < |s| && !IsSpace(s[k])
    ensures s[k] in Strip(s)
  {
    StripIsTrimmedSlice(s);
    var a := |s| - |TrimStart(s)|;
    assert Strip(s)[k - a] == s[k];
  }

  /** A string with no whitespace at either end is its own strip. */
  lemma StripStripped(s: string)
    requires IsStripped(s)
    ensures Strip(s) == s
  {
  }

  /** Length of the longest prefix of `s` free of whitespace. */
  function WordLength(s: string): (n: nat)
    ensures n <= |s|
    ensures forall i :: 0 <= i < n ==> !IsSpace(s[i])
    ensures n < |s| ==> IsSpace(s[n])
  {
    if s == [] || IsSpace(s[0]) then 0 else 1 + WordLength(s[1..])
  }

  /** `s.split()`: the maximal runs of non-whitespace characters, in order. */
  function Words(s: string): (ws: seq<string>)
    ensures forall w :: w in ws ==> w != [] && forall c :: c in w ==> !IsSpace(c) && c in s
    decreases |s|
  {
    if s == [] then []
    else if IsSpace(s[0]) then Words(s[1..])
    else
      var n := WordLength(s);
      [s[..n]] + Words(s[n..])
  }

  /** A word followed by a space splits off as the first word. */
  lemma {:induction false} WordsOfSpacedWord(w: string, rest: string)
    requires w != [] && forall i :: 0 <= i < |w| ==> !IsSpace(w[i])
    ensures Words(w + " " + rest) == [w] + Words(rest)
  {
    var s := w + " " + rest;
    WordLengthOfSpacedWord(w, rest);
    assert s[..|w|] == w;
    assert s[|w|..] == " " + rest;
    assert (" " + rest)[1..] == rest;
  }

  lemma {:induction false} WordLengthOfSpacedWord(w: string, rest: string)
    requires forall i :: 0 <= i < |w| ==> !IsSpace(w[i])
    ensures WordLength(w + " " + rest) == |w|
    decreases |w|
  {
    var s := w + " " + rest;
    if w == [] {
      assert s[0] == ' ';
    } else {
      assert s[0] == w[0];
      WordLengthOfSpacedWord(w[1..], rest);
      assert s[1..] == w[1..] + " " + rest;
    }
  }

  /** Two words, each followed by a space, and a text that starts with a non-space make at least three words. */
  lemma {:induction false} AtLeastThreeWords(w1: string, w2: string, rest: string)
    requires w1 != [] && forall i :: 0 <= i < |w1| ==> !IsSpace(w1[i])
    requires w2 != [] && forall i :: 0 <= i < |w2| ==> !IsSpace(w2[i])
    requires rest != [] && !IsSpace(rest[0])
    ensures |Words(w1 + " " + (w2 + " " + rest))| >= 3
  {
    WordsOfSpacedWord(w1, w2 + " " + rest);
    WordsOfSpacedWord(w2, rest);
    assert |Words(rest)| >= 1;
  }

  /** `"".join(pieces)` */
  function Concat(pieces: seq<string>): string {
    if pieces == [] then "" else pieces[0] + Concat(pieces[1..])
  }

  lemma ConcatCons(p: string, rest: seq<string>)
    ensures Concat([p] + rest) == p + Concat(rest)
  {
    assert ([p] + rest)[0] == p && ([p] + rest)[1..] == rest;
  }

  /** `s` with every whitespace character taken out. */
  function RemoveSpaces(s: string): string {
    if s == [] then "" else (if IsSpace(s[0]) then "" else [s[0]]) + RemoveSpaces(s[1..])
  }

  /**
   * The number of word starts in `s`: non-whitespace characters that come first
   * or follow whitespace; `afterSpace` tells whether the position before `s`
   * counts as the start or as whitespace.
   */
  function WordStarts(s: string, afterSpace: bool): nat {
    if s == [] then 0
    else (if afterSpace && !IsSpace(s[0]) then 1 else 0) + WordStarts(s[1..], IsSpace(s[0]))
  }

  lemma {:induction false} RemoveSpacesOfWord(w: string, t: string)
    requires forall i :: 0 <= i < |w| ==> !IsSpace(w[i])
    ensures RemoveSpaces(w + t) == w + RemoveSpaces(t)
    decreases |w|
  {
    if w != [] {
      assert (w + t)[0] == w[0] && (w + t)[1..] == w[1..] + t;
      assert !IsSpace(w[0]);
      RemoveSpacesOfWord(w[1..], t);
      assert RemoveSpaces(w + t) == [w[0]] + RemoveSpaces(w[1..] + t);
      assert w == [w[0]] + w[1..];
    } else {
      assert w + t == t;
    }
  }

  /** Joined together, the words are the text with its whitespace taken out: nothing else is lost and nothing is reordered. */
  lemma {:induction false} WordsJoinToText(s: string)
    ensures Concat(Words(s)) == RemoveSpaces(s)
    decreases |s|
  {
    if s == [] {
    } else if IsSpace(s[0]) {
      WordsJoinToText(s[1..]);
    } else {
      var n := WordLength(s);
      WordsJoinToText(s[n..]);
      ConcatCons(s[..n], Words(s[n..]));
      RemoveSpacesOfWord(s[..n], s[n..]);
      assert s[..n] + s[n..] == s;
    }
  }

  /** Inside a word no new word starts: the count resumes where the word ends. */
  lemma {:induction false} WordStartsInsideWord(s: string, k: nat)
    requires 1 <= k <= WordLength(s)
    ensures WordStarts(s[k..], false) == WordStarts(s[WordLength(s)..], true)
    decreases WordLength(s) - k
  {
    var n := WordLength(s);
    if k < n {
      assert s[k..][0] == s[k] && s[k..][1..] == s[k + 1..];
      WordStartsInsideWord(s, k + 1);
    } else if s[n..] != [] {
      assert s[n..][0] == s[n];
    }
  }

  /** There are exactly as many words as word starts: each maximal run of non-whitespace is one word. */
  lemma {:induction false} WordsCountStarts(s: string)
    ensures |Words(s)| == WordStarts(s, true)
    decreases |s|
  {
    if s == [] {
    } else if IsSpace(s[0]) {
      WordsCountStarts(s[1..]);
    } else {
      var n := WordLength(s);
      WordsCountStarts(s[n..]);
      WordStartsInsideWord(s, 1);
    }
  }

  /** `s.endswith(suffix)` */
  predicate EndsWith(s: string, suffix: string) {
    |suffix| <= |s| && s[|s| - |suffix|..] == suffix
  }

  predicate StartsWith(s: string, prefix: string) {
    |prefix| <= |s| && s[..|prefix|] == prefix
  }

  /** `pattern in s` for strings: `pattern` occurs at some position of `s`. */
  predicate Contains(s: string, pattern: string)
    decreases |s|
  {
    StartsWith(s, pattern) || (s != [] && Contains(s[1..], pattern))
  }

  /** `pattern` sits at position `i` of `s`. */
  predicate OccursAt(s: string, pattern: string, i: nat) {
    i + |pattern| <= |s| && s[i..i + |pattern|] == pattern
  }

  /** `Contains` finds the pattern exactly when it occurs at some position. */
  lemma {:induction false} ContainsExactly(s: string, pattern: string)
    ensures Contains(s, pattern) <==> exists i: nat :: OccursAt(s, pattern, i)
    decreases |s|
  {
    if s == [] {
      if Contains(s, pattern) {
        assert OccursAt(s, pattern, 0);
      }
    } else {
      ContainsExactly(s[1..], pattern);
      if Contains(s, pattern) && !StartsWith(s, pattern) {
        var i: nat :| OccursAt(s[1..], pattern, i);
        assert s[1..][i..i + |pattern|] == s[i + 1..i + 1 + |pattern|];
        assert OccursAt(s, pattern, i + 1);
      } else if StartsWith(s, pattern) {
        assert OccursAt(s, pattern, 0);
      }
      if exists i: nat :: OccursAt(s, pattern, i) {
        var i: nat :| OccursAt(s, pattern, i);
        if i > 0 {
          assert s[1..][i - 1..i - 1 + |pattern|] == s[i..i + |pattern|];
          assert OccursAt(s[1..], pattern, i - 1);
        }
      }
    }
  }
}
