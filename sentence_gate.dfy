/**
 * The textual side of segment selection: `_split_into_sentences` (the same
 * function as the feature extractor's `_extract_sentences`) and the
 * completeness gate `_is_complete_sentence`.
 */
module SentenceGate {
  import opened Text

  /** The characters the sentence pattern `[.!?]+` matches. */
  predicate IsTerminator(c: char) {
    c == '.' || c == '!' || c == '?'
  }

  predicate NoTerminator(s: string) {
    forall c :: c in s ==> !IsTerminator(c)
  }

  /** The length of the leading run of terminators in `s`. */
  function LeadingTerminators(s: string): (n: nat)
    ensures n <= |s|
    ensures forall i :: 0 <= i < n ==> IsTerminator(s[i])
    ensures n < |s| ==> !IsTerminator(s[n])
  {
    if s != [] && IsTerminator(s[0]) then 1 + LeadingTerminators(s[1..]) else 0
  }

  /** `s` without its leading run of terminators. */
  function DropTerminators(s: string): (r: string)
    ensures |r| <= |s| && r == s[|s| - |r|..]
    ensures r == [] || !IsTerminator(r[0])
    ensures forall i :: 0 <= i < |s| - |r| ==> IsTerminator(s[i])
  {
    s[LeadingTerminators(s)..]
  }

  /** `re.split(r'[.!?]+', s)`: the pieces between maximal runs of terminators, empty ones included. */
  function SplitOnTerminators(s: string): (pieces: seq<string>)
    ensures |pieces| >= 1
    decreases |s|
  {
    if s == [] then [""]
    else if IsTerminator(s[0]) then [""] + SplitOnTerminators(DropTerminators(s))
    else
      var rest := SplitOnTerminators(s[1..]);
      [[s[0]] + rest[0]] + rest[1..]
  }

  /** No piece of the split holds a terminator. */
  lemma {:induction false} SplitPiecesNoTerminator(s: string)
    ensures forall p :: p in SplitOnTerminators(s) ==> NoTerminator(p)
    decreases |s|
  {
    if s == [] {
    } else if IsTerminator(s[0]) {
      SplitPiecesNoTerminator(DropTerminators(s));
    } else {
      var rest := SplitOnTerminators(s[1..]);
      SplitPiecesNoTerminator(s[1..]);
      assert rest[0] in rest;
      assert forall p :: p in rest[1..] ==> p in rest;
      assert NoTerminator([s[0]] + rest[0]);
    }
  }

  /** `[p.strip() for p in pieces if p.strip()]` */
  function StrippedNonEmpty(pieces: seq<string>): (r: seq<string>)
    ensures |r| <= |pieces|
    ensures forall i :: 0 <= i < |r| ==> r[i] != [] && IsStripped(r[i])
  {
    if pieces == [] then []
    else
      var p := Strip(pieces[0]);
      (if p != [] then [p] else []) + StrippedNonEmpty(pieces[1..])
  }

  /** Exactly the non-empty strips of the pieces are kept. */
  lemma {:induction false} StrippedNonEmptyExactly(pieces: seq<string>)
    ensures forall q :: q in StrippedNonEmpty(pieces) ==> exists i :: 0 <= i < |pieces| && q == Strip(pieces[i])
    ensures forall i :: 0 <= i < |pieces| && Strip(pieces[i]) != [] ==> Strip(pieces[i]) in StrippedNonEmpty(pieces)
  {
    if pieces != [] {
      var rest := pieces[1..];
      StrippedNonEmptyExactly(rest);
      var head := Strip(pieces[0]);
      forall q | q in StrippedNonEmpty(pieces)
        ensures exists i :: 0 <= i < |pieces| && q == Strip(pieces[i])
      {
        if q in StrippedNonEmpty(rest) {
          var i :| 0 <= i < |rest| && q == Strip(rest[i]);
          assert pieces[i + 1] == rest[i];
        } else {
          assert q == head;
        }
      }
      forall i | 0 <= i < |pieces| && Strip(pieces[i]) != []
        ensures Strip(pieces[i]) in StrippedNonEmpty(pieces)
      {
        if i > 0 {
          assert pieces[i] == rest[i - 1];
        }
      }
    }
  }

  /** The kept pieces stay in their order: keeping distributes over joining lists of pieces. */
  lemma {:induction false} StrippedNonEmptyAppend(a: seq<string>, b: seq<string>)
    ensures StrippedNonEmpty(a + b) == StrippedNonEmpty(a) + StrippedNonEmpty(b)
    decreases |a|
  {
    if a == [] {
      assert a + b == b;
    } else {
      StrippedNonEmptyAppend(a[1..], b);
      StrippedNonEmptyAppendStep(a, b);
    }
  }

  /** One step of the induction above: the head piece contributes in front of both sides. */
  lemma StrippedNonEmptyAppendStep(a: seq<string>, b: seq<string>)
    requires a != []
    requires StrippedNonEmpty(a[1..] + b) == StrippedNonEmpty(a[1..]) + StrippedNonEmpty(b)
    ensures StrippedNonEmpty(a + b) == StrippedNonEmpty(a) + StrippedNonEmpty(b)
  {
    var x, rest := a[0], a[1..];
    var h: seq<string> := if Strip(x) != [] then [Strip(x)] else [];
    var sr, sb := StrippedNonEmpty(rest), StrippedNonEmpty(b);
    SplitHead(a, b);
    StrippedNonEmptyCons(x, rest + b);
    StrippedNonEmptyCons(x, rest);
    AppendAssociative(h, sr, sb);
  }

  lemma SplitHead<T>(a: seq<T>, b: seq<T>)
    requires a != []
    ensures a == [a[0]] + a[1..] && a + b == [a[0]] + (a[1..] + b)
  {
  }

  lemma AppendAssociative<T>(x: seq<T>, y: seq<T>, z: seq<T>)
    ensures x + (y + z) == (x + y) + z
  {
  }

  lemma StrippedNonEmptyCons(x: string, rest: seq<string>)
    ensures StrippedNonEmpty([x] + rest) == (if Strip(x) != [] then [Strip(x)] else []) + StrippedNonEmpty(rest)
  {
    assert ([x] + rest)[0] == x && ([x] + rest)[1..] == rest;
  }

  lemma {:induction false} StrippedKeepsNoTerminator(pieces: seq<string>)
    requires forall p :: p in pieces ==> NoTerminator(p)
    ensures forall p :: p in StrippedNonEmpty(pieces) ==> NoTerminator(p)
  {
    if pieces != [] {
      assert NoTerminator(pieces[0]);
      StripKeepsCharacters(pieces[0]);
      StrippedKeepsNoTerminator(pieces[1..]);
    }
  }

  /** `_split_into_sentences` / `_extract_sentences` */
  function SplitIntoSentences(text: string): (sentences: seq<string>)
    ensures forall p :: p in sentences ==> p != [] && IsStripped(p) && NoTerminator(p)
  {
    var pieces := SplitOnTerminators(text);
    SplitPiecesNoTerminator(text);
    StrippedKeepsNoTerminator(pieces);
    StrippedNonEmpty(pieces)
  }

  /** `s` with every terminator removed. */
  function RemoveTerminators(s: string): (r: string)
    ensures NoTerminator(r)
  {
    if s == [] then ""
    else (if IsTerminator(s[0]) then "" else [s[0]]) + RemoveTerminators(s[1..])
  }

  lemma {:induction false} RemoveLeadingTerminators(s: string)
    ensures RemoveTerminators(DropTerminators(s)) == RemoveTerminators(s)
    decreases |s|
  {
    if s != [] && IsTerminator(s[0]) {
      RemoveLeadingTerminators(s[1..]);
    }
  }

  /** The splitter loses nothing but terminators: its pieces, joined, are the text with the terminators taken out. */
  lemma {:induction false} SplitLosesOnlyTerminators(s: string)
    ensures Concat(SplitOnTerminators(s)) == RemoveTerminators(s)
    decreases |s|
  {
    if s == [] {
    } else if IsTerminator(s[0]) {
      var d := DropTerminators(s);
      SplitLosesOnlyTerminators(d);
      RemoveLeadingTerminators(s);
      ConcatCons("", SplitOnTerminators(d));
    } else {
      var rest := SplitOnTerminators(s[1..]);
      SplitLosesOnlyTerminators(s[1..]);
      ConcatCons([s[0]] + rest[0], rest[1..]);
      ConcatCons(rest[0], rest[1..]);
      assert [rest[0]] + rest[1..] == rest;
      assert RemoveTerminators(s) == [s[0]] + RemoveTerminators(s[1..]);
    }
  }

  lemma {:induction false} RemoveTerminatorsKeeps(s: string, k: nat)
    requires k < |s| && !IsTerminator(s[k])
    ensures s[k] in RemoveTerminators(s)
    decreases k
  {
    if k > 0 {
      assert s[1..][k - 1] == s[k];
      RemoveTerminatorsKeeps(s[1..], k - 1);
    }
  }

  lemma {:induction false} ConcatMember(pieces: seq<string>, c: char)
    requires c in Concat(pieces)
    ensures exists i, j :: 0 <= i < |pieces| && 0 <= j < |pieces[i]| && pieces[i][j] == c
  {
    if c in pieces[0] {
      var j :| 0 <= j < |pieces[0]| && pieces[0][j] == c;
      assert pieces[0][j] == c;
    } else {
      assert c in Concat(pieces[1..]);
      ConcatMember(pieces[1..], c);
      var i, j :| 0 <= i < |pieces[1..]| && 0 <= j < |pieces[1..][i]| && pieces[1..][i][j] == c;
      assert pieces[i + 1][j] == c;
    }
  }

  /** A text with a character that is neither whitespace nor a terminator yields at least one sentence. */
  lemma ContentGivesSentence(text: string, k: nat)
    requires k < |text| && !IsSpace(text[k]) && !IsTerminator(text[k])
    ensures |SplitIntoSentences(text)| >= 1
  {
    var pieces := SplitOnTerminators(text);
    SplitLosesOnlyTerminators(text);
    RemoveTerminatorsKeeps(text, k);
    ConcatMember(pieces, text[k]);
    var i, j :| 0 <= i < |pieces| && 0 <= j < |pieces[i]| && pieces[i][j] == text[k];
    StripKeepsNonSpace(pieces[i], j);
    StrippedNonEmptyExactly(pieces);
    assert Strip(pieces[i]) in SplitIntoSentences(text);
  }

  /** Text without terminators is one piece. */
  lemma {:induction false} NoTerminatorOnePiece(s: string)
    requires NoTerminator(s)
    ensures SplitOnTerminators(s) == [s]
    decreases |s|
  {
    if s != [] {
      assert s[0] in s;
      assert !IsTerminator(s[0]);
      assert NoTerminator(s[1..]) by {
        forall c | c in s[1..] ensures !IsTerminator(c) {
          assert c in s;
        }
      }
      NoTerminatorOnePiece(s[1..]);
      assert SplitOnTerminators(s) == [[s[0]] + s[1..]] + [s[1..]][1..];
      assert [s[0]] + s[1..] == s;
    }
  }

  /** Text without terminators is split into at most one sentence. */
  lemma NoTerminatorOneSentence(s: string)
    requires NoTerminator(s)
    ensures |SplitIntoSentences(s)| <= 1
  {
    NoTerminatorOnePiece(s);
  }

  /** The filler-phrase list of `_is_complete_sentence`. */
  const IncompletePatterns: seq<string> :=
    ["um", "uh", "er", "ah", "like", "you know", "i mean", "basically", "actually", "literally"]

  predicate ContainsAnyPattern(text: string, patterns: seq<string>) {
    exists k :: 0 <= k < |patterns| && Contains(text, patterns[k])
  }

  /** The filler rule: a filler phrase in a text of at most two words. */
  predicate FillerRuleRejects(t: string) {
    ContainsAnyPattern(Lower(t), IncompletePatterns) && |Words(t)| <= 2
  }

  /** `_is_complete_sentence`, check by check in the source's order. */
  predicate IsCompleteSentence(text: string)
    ensures IsCompleteSentence(text) ==>
      var t := Strip(text);
      |t| >= 10 && IsUpper(t[0]) && IsTerminator(t[|t| - 1]) && |Words(t)| >= 3
  {
    var t := Strip(text);
    if |t| < 10 then false
    else if !IsUpper(t[0]) then false
    else if !IsTerminator(t[|t| - 1]) then false
    else if |Words(t)| < 3 then false
    else if FillerRuleRejects(t) then false
    else true
  }

  /**
   * The gate is exactly four conditions on the stripped text; the filler rule
   * adds nothing, because it can only fire on two words or fewer and three are already required.
   */
  lemma CompleteSentenceExactly(text: string)
    ensures IsCompleteSentence(text) <==>
      var t := Strip(text);
      |t| >= 10 && IsUpper(t[0]) && IsTerminator(t[|t| - 1]) && |Words(t)| >= 3
    ensures var t := Strip(text); |Words(t)| >= 3 ==> !FillerRuleRejects(t)
  {
  }

  /** No sentence produced by the splitter passes the gate: the splitter removed the terminator the gate asks for. */
  lemma SplitSentencesNeverComplete(text: string)
    ensures forall p :: p in SplitIntoSentences(text) ==> !IsCompleteSentence(p)
  {
    forall p | p in SplitIntoSentences(text)
      ensures !IsCompleteSentence(p)
    {
      StripStripped(p);
      assert p[|p| - 1] in p;
    }
  }

  /**
   * A capitalised first word, a second word and a rest that ends in a
   * terminator, at least ten characters in all, pass the gate.
   */
  lemma {:induction false} ThreeWordSentence(w1: string, w2: string, rest: string)
    requires w1 != [] && IsUpper(w1[0]) && forall i :: 0 <= i < |w1| ==> !IsSpace(w1[i])
    requires w2 != [] && forall i :: 0 <= i < |w2| ==> !IsSpace(w2[i])
    requires rest != [] && !IsSpace(rest[0]) && IsTerminator(rest[|rest| - 1]) && !IsSpace(rest[|rest| - 1])
    requires |w1| + |w2| + |rest| >= 8
    ensures IsCompleteSentence(w1 + " " + (w2 + " " + rest))
  {
    var t := w1 + " " + (w2 + " " + rest);
    assert t[0] == w1[0] && t[|t| - 1] == rest[|rest| - 1];
    StripStripped(t);
    AtLeastThreeWords(w1, w2, rest);
    CompleteSentenceExactly(t);
  }

  /** A sentence the repository's tests expect the gate to accept, written word, word, rest. */
  lemma AcceptsTestSentence()
    ensures IsCompleteSentence("The" + " " + ("integration" + " " + ("of robotics " + "and healthcare settings is increasing.")))
  {
    ThreeWordSentence("The", "integration", "of robotics " + "and healthcare settings is increasing.");
  }

  /** Inputs rejected by the gate in the repository's tests: too short, or not capitalised. */
  lemma RejectsTooShort()
    ensures !IsCompleteSentence("um uh")
    ensures !IsCompleteSentence("too short")
  {
    StripStripped("um uh");
    StripStripped("too short");
  }

  lemma RejectsLowerCaseStart()
    ensures !IsCompleteSentence("basically um")
    ensures !IsCompleteSentence("incomplete sentence")
    ensures !IsCompleteSentence("no capital letter")
  {
    StripStripped("basically um");
    StripStripped("incomplete sentence");
    StripStripped("no capital letter");
  }
}
