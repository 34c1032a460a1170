/**
 * The text features of `FeatureExtractor`: word and sentence extraction,
 * filler-word ratio, syllable estimate, words per minute, the speech-rate
 * figures, and the complexity figures with their readability clamp.
 * `calculate_wpm` and `calculate_filler_ratio` round their result, and the
 * endpoints decide on the rounded values, so that rounding is modelled; the
 * rounding of the speech-rate and complexity figures is not.
 */
module Features {
  import opened Text
  import opened SentenceGate

  /** `self.filler_words` */
  const FillerWords: set<string> := {
    "um", "uh", "er", "ah", "like", "you know", "i mean", "basically",
    "actually", "literally", "honestly", "frankly", "obviously",
    "clearly", "simply", "just", "sort of", "kind of", "right",
    "well", "so", "okay", "ok", "yeah", "yep", "nope", "no",
    "anyway", "anyways", "whatever", "you see", "i guess",
    "i think", "i believe", "i suppose", "i say"
  }

  // ---------------------------------------------------------------------------
  // Rounding

  /** `10 ** n` */
  function Pow10(n: nat): (p: nat)
    ensures p >= 1
  {
    if n == 0 then 1 else 10 * Pow10(n - 1)
  }

  /** The integer nearest to `y`; of two equally near, the even one, as Python's `round` chooses. */
  function RoundHalfEven(y: real): (k: int)
    ensures -0.5 <= k as real - y <= 0.5
    ensures k as real - y == 0.5 || y - k as real == 0.5 ==> k % 2 == 0
  {
    var f := y.Floor;
    var frac := y - f as real;
    if frac < 0.5 then f
    else if frac > 0.5 then f + 1
    else if f % 2 == 0 then f
    else f + 1
  }

  /** `x` rounded to the nearest multiple of `1 / scale`, ties to even. */
  function RoundToScale(x: real, scale: nat): real
    requires scale >= 1
  {
    RoundHalfEven(x * scale as real) as real / scale as real
  }

  /** `round(x, n)`: the nearest multiple of `10 ** -n`, ties to even. */
  function RoundTo(x: real, n: nat): real {
    RoundToScale(x, Pow10(n))
  }

  /** The rounded value lies within half a unit of the last place of `x`. */
  lemma {:induction false} RoundToClose(x: real, n: nat)
    ensures -0.5 <= (RoundTo(x, n) - x) * Pow10(n) as real <= 0.5
  {
    var p := Pow10(n);
    assert RoundTo(x, n) == RoundToScale(x, p);
    RoundToScaleClose(x, p);
  }

  lemma RoundToScaleClose(x: real, scale: nat)
    requires scale >= 1
    ensures -0.5 <= (RoundToScale(x, scale) - x) * scale as real <= 0.5
  {
    var p := scale as real;
    var k := RoundHalfEven(x * p);
    assert (k as real / p - x) * p == k as real - x * p;
  }

  /** Rounding keeps a value of [0, 1] in [0, 1], and zero at zero. */
  lemma {:induction false} RoundToUnit(x: real, n: nat)
    requires 0.0 <= x <= 1.0
    ensures 0.0 <= RoundTo(x, n) <= 1.0
    ensures x == 0.0 ==> RoundTo(x, n) == 0.0
  {
    RoundToScaleUnit(x, Pow10(n));
  }

  lemma RoundToScaleUnit(x: real, scale: nat)
    requires scale >= 1 && 0.0 <= x <= 1.0
    ensures 0.0 <= RoundToScale(x, scale) <= 1.0
    ensures x == 0.0 ==> RoundToScale(x, scale) == 0.0
  {
    ScaleWithinUnit(x, scale as real);
    RoundedQuotientWithinUnit(x * scale as real, scale);
    RoundToScaleUnfold(x, scale);
  }

  lemma RoundToScaleUnfold(x: real, scale: nat)
    requires scale >= 1
    ensures RoundToScale(x, scale) == RoundHalfEven(x * scale as real) as real / scale as real
  {
  }

  lemma RoundedQuotientWithinUnit(y: real, scale: nat)
    requires scale >= 1 && 0.0 <= y <= scale as real
    ensures 0.0 <= RoundHalfEven(y) as real / scale as real <= 1.0
    ensures y == 0.0 ==> RoundHalfEven(y) == 0
  {
    var k := RoundHalfEven(y);
    assert k as real > -1.0;
    assert k as real < scale as real + 1.0;
    FractionWithinUnit(k, scale);
  }

  lemma ScaleWithinUnit(x: real, p: real)
    requires 0.0 <= x <= 1.0 && p > 0.0
    ensures 0.0 <= x * p <= p
    ensures x == 0.0 ==> x * p == 0.0
  {
    assert p - x * p == (1.0 - x) * p;
  }

  /** Rounding never makes a non-negative value negative. */
  lemma {:induction false} RoundToNonNegative(x: real, n: nat)
    requires x >= 0.0
    ensures RoundTo(x, n) >= 0.0
  {
    var p := Pow10(n) as real;
    assert x * p >= 0.0;
  }

  // ---------------------------------------------------------------------------
  // Words and sentences

  /** `re.sub(r'[^\w\s]', ' ', s)`: every character that is neither a word character nor whitespace becomes a space. */
  function MaskNonWord(s: string): (r: string)
    ensures |r| == |s|
    ensures forall i :: 0 <= i < |s| ==> r[i] == if IsWordChar(s[i]) || IsSpace(s[i]) then s[i] else ' '
  {
    seq(|s|, i requires 0 <= i < |s| => if IsWordChar(s[i]) || IsSpace(s[i]) then s[i] else ' ')
  }

  /** `_extract_words`: split the masked text on whitespace and lowercase each token. */
  function ExtractWords(text: string): (words: seq<string>)
    ensures |words| == WordStarts(MaskNonWord(text), true)
  {
    var tokens := Words(MaskNonWord(text));
    WordsCountStarts(MaskNonWord(text));
    seq(|tokens|, i requires 0 <= i < |tokens| => Lower(tokens[i]))
  }

  /** Every extracted word is non-empty, made of word characters only, and lowercase. */
  lemma ExtractWordsClean(text: string)
    ensures forall w :: w in ExtractWords(text) ==>
      w != [] && forall i :: 0 <= i < |w| ==> IsWordChar(w[i]) && !IsUpper(w[i])
  {
    var masked := MaskNonWord(text);
    var tokens := Words(masked);
    var words := ExtractWords(text);
    forall w | w in words
      ensures w != [] && forall i :: 0 <= i < |w| ==> IsWordChar(w[i]) && !IsUpper(w[i])
    {
      var k :| 0 <= k < |words| && words[k] == w;
      var t := tokens[k];
      assert t in tokens;
      assert w == Lower(t);
      forall i | 0 <= i < |w| ensures IsWordChar(w[i]) && !IsUpper(w[i]) {
        assert t[i] in t;
        assert t[i] in masked && !IsSpace(t[i]);
        var j :| 0 <= j < |masked| && masked[j] == t[i];
        assert IsWordChar(t[i]);
      }
    }
  }

  /** `_extract_sentences` is the sentence splitter of the segment selector. */
  function ExtractSentences(text: string): (sentences: seq<string>)
    ensures forall p :: p in sentences ==> p != [] && IsStripped(p) && NoTerminator(p)
  {
    SplitIntoSentences(text)
  }

  // ---------------------------------------------------------------------------
  // Filler words

  /**
   * Position `i` counts as a filler when its word is in the set, or else when
   * it and the next word form a two-word entry.
   */
  predicate IsFillerAt(words: seq<string>, i: nat)
    requires i < |words|
  {
    words[i] in FillerWords || (i < |words| - 1 && words[i] + " " + words[i + 1] in FillerWords)
  }

  /** The number of filler positions among the first `n`. */
  function FillerCount(words: seq<string>, n: nat): (count: nat)
    requires n <= |words|
    ensures count <= n
  {
    if n == 0 then 0 else FillerCount(words, n - 1) + (if IsFillerAt(words, n - 1) then 1 else 0)
  }

  /** The share of filler positions among the lower-cased words, before rounding; 0 when there are none. */
  function FillerRatio(transcript: string): (ratio: real)
    ensures transcript == [] || ExtractWords(Lower(transcript)) == [] ==> ratio == 0.0
    ensures 0.0 <= ratio <= 1.0
  {
    var words := ExtractWords(Lower(transcript));
    if transcript == [] || words == [] then 0.0
    else
      FractionWithinUnit(FillerCount(words, |words|), |words|);
      FillerCount(words, |words|) as real / |words| as real
  }

  /** The filler share rounded to four places, as `calculate_filler_ratio` returns it: within 0.00005 of the share. */
  function RoundedFillerRatio(transcript: string): (ratio: real)
    ensures 0.0 <= ratio <= 1.0
    ensures transcript == [] || ExtractWords(Lower(transcript)) == [] ==> ratio == 0.0
    ensures -0.5 <= (ratio - FillerRatio(transcript)) * 10000.0 <= 0.5
  {
    RoundToUnit(FillerRatio(transcript), 4);
    RoundToClose(FillerRatio(transcript), 4);
    RoundTo(FillerRatio(transcript), 4)
  }

  /** `calculate_filler_ratio` */
  method CalculateFillerRatio(transcript: string) returns (ratio: real)
    ensures ratio == RoundedFillerRatio(transcript)
  {
    if transcript == [] {
      return 0.0;
    }
    var words := ExtractWords(Lower(transcript));
    var totalWords := |words|;
    if totalWords == 0 {
      return 0.0;
    }
    var fillerCount := 0;
    for i := 0 to |words|
      invariant fillerCount == FillerCount(words, i)
    {
      var word := words[i];
      if word in FillerWords {
        fillerCount := fillerCount + 1;
      } else if i < |words| - 1 {
        var bigram := word + " " + words[i + 1];
        if bigram in FillerWords {
          fillerCount := fillerCount + 1;
        }
      }
    }
    ratio := RoundTo(fillerCount as real / totalWords as real, 4);
  }

  lemma FractionWithinUnit(a: nat, b: nat)
    requires 0 < b && a <= b
    ensures 0.0 <= a as real / b as real <= 1.0
  {
    assert a as real / b as real * b as real == a as real;
  }

  // ---------------------------------------------------------------------------
  // Syllables

  predicate IsVowel(c: char) {
    c == 'a' || c == 'e' || c == 'i' || c == 'o' || c == 'u' || c == 'y'
  }

  predicate StartsVowelRun(s: string, i: nat)
    requires i < |s|
  {
    IsVowel(s[i]) && (i == 0 || !IsVowel(s[i - 1]))
  }

  /** The number of maximal runs of vowels that start among the first `n` characters. */
  function VowelRuns(s: string, n: nat): nat
    requires n <= |s|
  {
    if n == 0 then 0 else VowelRuns(s, n - 1) + (if StartsVowelRun(s, n - 1) then 1 else 0)
  }

  /** The syllable estimate: vowel runs of the lowercased text, and at least one. */
  function SyllableEstimate(text: string): (n: nat)
    ensures n >= 1
    ensures n == VowelRuns(Lower(text), |text|) || (n == 1 && VowelRuns(Lower(text), |text|) == 0)
  {
    var s := Lower(text);
    var runs := VowelRuns(s, |s|);
    if runs > 1 then runs else 1
  }

  /** `_count_syllables` */
  method CountSyllables(text: string) returns (syllables: nat)
    ensures syllables == SyllableEstimate(text)
  {
    var s := Lower(text);
    var count := 0;
    var onVowel := false;
    for i := 0 to |s|
      invariant count == VowelRuns(s, i)
      invariant onVowel == (i > 0 && IsVowel(s[i - 1]))
    {
      var isVowel := IsVowel(s[i]);
      if isVowel && !onVowel {
        count := count + 1;
      }
      onVowel := isVowel;
    }
    syllables := if count > 1 then count else 1;
  }

  /** There is a vowel run exactly when there is a vowel. */
  lemma {:induction false} VowelRunsPositive(s: string, n: nat)
    requires n <= |s|
    ensures VowelRuns(s, n) > 0 <==> exists i :: 0 <= i < n && IsVowel(s[i])
  {
    if n > 0 {
      VowelRunsPositive(s, n - 1);
      if IsVowel(s[n - 1]) && VowelRuns(s, n - 1) == 0 {
        if n - 1 > 0 && IsVowel(s[n - 2]) {
          assert false;
        }
      }
    }
  }

  /** Runs are separated by non-vowels, so there are at most half as many as characters, rounded up. */
  lemma {:induction false} VowelRunsBound(s: string, n: nat)
    requires n <= |s|
    ensures 2 * VowelRuns(s, n) <= n + (if n > 0 && IsVowel(s[n - 1]) then 1 else 0)
  {
    if n > 0 {
      VowelRunsBound(s, n - 1);
    }
  }

  /** The estimate is one for vowel-free text, and otherwise the number of vowel runs. */
  lemma SyllableEstimateBounds(text: string)
    ensures 1 <= SyllableEstimate(text) <= if |text| > 1 then |text| else 1
    ensures var s := Lower(text); (forall i :: 0 <= i < |s| ==> !IsVowel(s[i])) ==> SyllableEstimate(text) == 1
  {
    var s := Lower(text);
    VowelRunsPositive(s, |s|);
    VowelRunsBound(s, |s|);
  }

  // ---------------------------------------------------------------------------
  // Rates

  /** `count / minutes if minutes > 0 else 0.0` */
  function PerMinute(count: nat, minutes: real): (rate: real)
    ensures rate >= 0.0
    ensures minutes > 0.0 ==> rate * minutes == count as real
    ensures minutes <= 0.0 ==> rate == 0.0
  {
    if minutes > 0.0 then count as real / minutes else 0.0
  }

  /** `calculate_wpm`, before rounding */
  function Wpm(transcript: string, duration: real): (wpm: real)
    ensures wpm >= 0.0
    ensures transcript == [] || duration <= 0.0 ==> wpm == 0.0
    ensures transcript != [] && duration > 0.0 ==> wpm * (duration / 60.0) == |ExtractWords(transcript)| as real
  {
    if transcript == [] || duration <= 0.0 then 0.0
    else PerMinute(|ExtractWords(transcript)|, duration / 60.0)
  }

  /** `calculate_wpm`: the rate rounded to two places, within 0.005 of the exact rate. */
  function RoundedWpm(transcript: string, duration: real): (wpm: real)
    ensures wpm >= 0.0
    ensures transcript == [] || duration <= 0.0 ==> wpm == 0.0
    ensures -0.5 <= (wpm - Wpm(transcript, duration)) * 100.0 <= 0.5
  {
    RoundToNonNegative(Wpm(transcript, duration), 2);
    RoundToClose(Wpm(transcript, duration), 2);
    if transcript == [] || duration <= 0.0 then RoundToUnit(0.0, 2); 0.0
    else RoundTo(Wpm(transcript, duration), 2)
  }

  /** A rate in [199.995, 200) is reported as exactly 200.0. */
  lemma RateJustBelow200Rounds(transcript: string, duration: real)
    requires 199.995 <= Wpm(transcript, duration) < 200.0
    ensures RoundedWpm(transcript, duration) == 200.0
  {
    var y := Wpm(transcript, duration) * 100.0;
    assert 19999.5 <= y < 20000.0;
    assert RoundHalfEven(y) == 20000;
  }

  /** A filler share in [0.09995, 0.1) is reported as exactly 0.1. */
  lemma ShareJustBelowTenthRounds(transcript: string)
    requires 0.09995 <= FillerRatio(transcript) < 0.1
    ensures RoundedFillerRatio(transcript) == 0.1
  {
    var y := FillerRatio(transcript) * 10000.0;
    assert 999.5 <= y < 1000.0;
    assert RoundHalfEven(y) == 1000;
  }

  /** Words per minute is positive exactly when there is text, a positive duration and at least one word. */
  lemma WpmPositive(transcript: string, duration: real)
    ensures Wpm(transcript, duration) > 0.0 <==> transcript != [] && duration > 0.0 && ExtractWords(transcript) != []
  {
  }

  /** `transcript.count('.') + transcript.count('!') + transcript.count('?')` */
  function PauseCount(s: string): (n: nat)
    ensures n <= |s|
  {
    if s == [] then 0 else (if IsTerminator(s[0]) then 1 else 0) + PauseCount(s[1..])
  }

  datatype SpeechRate = SpeechRate(wpm: real, spm: real, pauseRate: real, wordCount: nat,
                                   syllableCount: nat, durationMinutes: real)

  /** `calculate_speech_rate`, before rounding */
  method CalculateSpeechRate(transcript: string, duration: real) returns (rate: SpeechRate)
    ensures rate.wordCount == |ExtractWords(transcript)|
    ensures rate.syllableCount == SyllableEstimate(transcript)
    ensures rate.durationMinutes == duration / 60.0
    ensures rate.wpm == PerMinute(rate.wordCount, rate.durationMinutes)
    ensures rate.spm == PerMinute(rate.syllableCount, rate.durationMinutes)
    ensures rate.pauseRate == PerMinute(PauseCount(transcript), rate.durationMinutes)
  {
    var words := ExtractWords(transcript);
    var wordCount := |words|;
    var minutes := duration / 60.0;
    var wpm := PerMinute(wordCount, minutes);
    var syllableCount := CountSyllables(transcript);
    var spm := PerMinute(syllableCount, minutes);
    var pauseCount := PauseCount(transcript);
    var pauseRate := PerMinute(pauseCount, minutes);
    rate := SpeechRate(wpm, spm, pauseRate, wordCount, syllableCount, minutes);
  }

  lemma {:induction false} DropTerminatorsCount(s: string)
    ensures PauseCount(DropTerminators(s)) + (|s| - |DropTerminators(s)|) == PauseCount(s)
    decreases |s|
  {
    if s != [] && IsTerminator(s[0]) {
      DropTerminatorsCount(s[1..]);
    }
  }

  lemma {:induction false} SplitPiecesBound(s: string)
    ensures |SplitOnTerminators(s)| <= PauseCount(s) + 1
    decreases |s|
  {
    if s != [] {
      if IsTerminator(s[0]) {
        var d := DropTerminators(s);
        SplitPiecesBound(d);
        DropTerminatorsCount(s);
      } else {
        SplitPiecesBound(s[1..]);
      }
    }
  }

  /** Each sentence boundary is a pause: there is at most one sentence more than pauses. */
  lemma SentencesAtMostPausesPlusOne(text: string)
    ensures |ExtractSentences(text)| <= PauseCount(text) + 1
  {
    SplitPiecesBound(text);
  }

  // ---------------------------------------------------------------------------
  // Complexity

  function TotalLength(words: seq<string>): nat {
    if words == [] then 0 else |words[0]| + TotalLength(words[1..])
  }

  function Distinct(words: seq<string>): set<string> {
    set w | w in words
  }

  lemma {:induction false} DistinctBound(words: seq<string>)
    ensures |Distinct(words)| <= |words|
    ensures words != [] ==> |Distinct(words)| >= 1
  {
    if words != [] {
      DistinctBound(words[1..]);
      assert Distinct(words) == {words[0]} + Distinct(words[1..]);
      assert words[0] in Distinct(words);
    }
  }

  /** `len(set(words)) / len(words) if words else 0.0` */
  function UniqueWordRatio(words: seq<string>): (ratio: real)
    ensures words == [] ==> ratio == 0.0
    ensures words != [] ==> 0.0 < ratio <= 1.0
  {
    if words == [] then 0.0
    else
      DistinctBound(words);
      |Distinct(words)| as real / |words| as real
  }

  /** `_calculate_readability`: a Flesch-style score on characters per word, clamped to [0, 100]. */
  function Readability(words: seq<string>, sentences: seq<string>): (score: real)
    ensures words == [] || sentences == [] ==> score == 0.0
    ensures 0.0 <= score <= 100.0
  {
    if words == [] || sentences == [] then 0.0
    else
      var avgSentenceLength := |words| as real / |sentences| as real;
      var avgWordLength := TotalLength(words) as real / |words| as real;
      var readability := 206.835 - 1.015 * avgSentenceLength - 84.6 * avgWordLength;
      if readability < 0.0 then 0.0 else if readability > 100.0 then 100.0 else readability
  }

  /**
   * The character-based formula reaches zero as soon as words average two and a
   * half characters, so ordinary prose always scores zero.
   */
  lemma ReadabilityVanishesForOrdinaryWords(words: seq<string>, sentences: seq<string>)
    requires words != [] && sentences != []
    requires 2 * TotalLength(words) >= 5 * |words|
    ensures Readability(words, sentences) == 0.0
  {
    QuotientAtLeast(TotalLength(words) as real, |words| as real, 2.5);
    QuotientAtLeast(|words| as real, |sentences| as real, 0.0);
  }

  lemma QuotientAtLeast(a: real, b: real, c: real)
    requires b > 0.0 && a >= c * b
    ensures a / b >= c
  {
    assert a / b * b == a;
  }

  datatype Complexity = Complexity(avgWordLength: real, uniqueWordRatio: real, sentenceCount: nat,
                                   avgSentenceLength: real, readabilityScore: real)

  /** `calculate_complexity_metrics`, before rounding */
  function ComplexityMetrics(transcript: string): (m: Complexity)
    ensures transcript == [] ==> m == Complexity(0.0, 0.0, 0, 0.0, 0.0)
    ensures 0.0 <= m.uniqueWordRatio <= 1.0
    ensures transcript != [] ==> (m.uniqueWordRatio > 0.0 <==> ExtractWords(transcript) != [])
    ensures transcript != [] ==> m.sentenceCount == |ExtractSentences(transcript)|
    ensures 0.0 <= m.readabilityScore <= 100.0
  {
    if transcript == [] then Complexity(0.0, 0.0, 0, 0.0, 0.0)
    else
      var words := ExtractWords(transcript);
      var sentences := ExtractSentences(transcript);
      var avgWordLength := if words != [] then TotalLength(words) as real / |words| as real else 0.0;
      var sentenceCount := |sentences|;
      var avgSentenceLength := if sentenceCount > 0 then |words| as real / sentenceCount as real else 0.0;
      Complexity(avgWordLength, UniqueWordRatio(words), sentenceCount, avgSentenceLength, Readability(words, sentences))
  }
}
