# Speech-corpus back end: segment quality and selection, in Dafny

This project models the decision logic of a back end that turns uploaded
speech recordings into audio–text pairs for training speech models. It covers
the following parts:

- **Quality assessment** (`quality.dfy`). Five acoustic descriptors of a
  segment are fused into a quality score: volume, noise, signal-to-noise,
  frequency content and zero crossings. The segment is accepted when the score
  reaches the threshold. A failed assessment yields a fixed worst-case record.
- **Segment location** (`segmentation.dfy`). This covers two things:
  - the energy-based run scan over per-frame speech flags, with the selection
    loop of silence-based segmentation;
  - the timestamp-driven selection of speech-recognition utterances, with its
    sentence-splitting fallback.
- **Sentence splitter and completeness gate** (`sentence_gate.dfy`).
- **Corpus selection** (`corpus_selector.dfy`). The pool is sorted by score,
  filtered at a threshold, re-filtered at the 25th percentile when too few
  segments survive, then truncated.
- **Text features** (`features.dfy`): words, sentences, filler ratio,
  syllables, words per minute, pauses, unique-word ratio and readability.
- **Database tables** (`database.dfy`). A class holds the file, segment and
  metric tables as row sequences. It models id assignment, insert defaults,
  the ordered queries, the update by id and the counts.
- **Endpoint logic** (`api.dfy`). This covers:
  - the upload extension check;
  - the training-priority rule and ML-ready flag of the ML endpoint;
  - the flag and priority mapping of the advanced endpoint;
  - the insert loop;
  - the quality summaries.
- **Shared pieces.** `text.dfy` holds the string operations the code relies
  on. `sorting.dfy` holds the stable descending sort behind
  `list.sort(reverse=True)` and `ORDER BY ... DESC`. `wrappers.dfy` holds
  `Option`.

Signal processing, speech recognition and sentiment analysis are outside the
model. They enter as parameters: the descriptor extractor `extract`, the
utterance list, and the `sentiment` function.

## Model

| member | source | states |
|---|---|---|
| Quality.VolumeScore | backend/src/audio_processor.py:137-138 | the volume part never exceeds 0.3, is non-negative for non-negative RMS, and saturates at 0.3 from RMS 0.1 |
| Quality.NoiseScore | backend/src/audio_processor.py:140-141 | the noise part is non-negative, at most 0.3 for non-negative flatness, and 0 from flatness 1.25 up |
| Quality.SnrScore | backend/src/audio_processor.py:143-144 | the contrast part never exceeds 0.2, is non-negative for non-negative contrast, and saturates at contrast 2 |
| Quality.ZeroCrossingScore | backend/src/audio_processor.py:151-152 | the zero-crossing part lies in [0, 0.1] for non-negative rates and vanishes from rate 0.5 |
| Quality.FrequencyScore | backend/src/audio_processor.py:146-149 | the frequency part lies in [0, 0.1] |
| Quality.FrequencyScoreExact | backend/src/audio_processor.py:146-149 | the frequency part is 0.1 exactly when the centroid lies in [30, 15000], and 0 otherwise |
| Quality.QualityScore | backend/src/audio_processor.py:122-155 | the score never exceeds 1.0 and is non-negative whenever volume and contrast are |
| Quality.CapNeverBinds | backend/src/audio_processor.py:154-155 | for non-negative flatness and zero-crossing rate the raw sum is at most 1, so the clamp changes nothing |
| Quality.CapBindsForNegativeFlatness | backend/src/audio_processor.py:141-155 | with negative flatness the raw sum exceeds 1 and the clamp yields exactly 1.0 |
| Quality.BestScoreReachable | backend/src/audio_processor.py:137-155 | loud, flat-free, high-contrast, in-band input reaches the top score 1.0 |
| Quality.NegativeContrastGivesNegativeScore | backend/src/audio_processor.py:143-144 | a sufficiently negative contrast drives the score below 0 |
| Quality.MonotoneInVolume | backend/src/audio_processor.py:138 | more volume never lowers the score |
| Quality.MonotoneInContrast | backend/src/audio_processor.py:144 | more contrast never lowers the score |
| Quality.AntitoneInNoise | backend/src/audio_processor.py:141 | more flatness never raises the score |
| Quality.AntitoneInZeroCrossings | backend/src/audio_processor.py:152 | more zero crossings never raise the score |
| Quality.NoiseStrictlyLowersScore | backend/src/audio_processor.py:141 | below flatness 1.25, more flatness strictly lowers the score |
| Quality.AssessSegmentQuality | backend/src/audio_processor.py:60-120 | a failed extraction yields the sentinel record; otherwise the descriptors are copied, the score is the fused score, acceptance is score ≥ threshold, and the score is at most 1 |
| Quality.AcceptanceMatchesThreshold | backend/src/audio_processor.py:104-120 | for a positive threshold, acceptance is exactly score ≥ threshold, sentinel included, and a failed extraction is never accepted |
| Quality.SentinelInconsistentAtNonPositiveThreshold | backend/src/audio_processor.py:111-120 | at a threshold ≤ 0 the sentinel's score reaches the threshold yet it is marked unacceptable |
| Quality.FailedAssessmentIsSilentAndRejected | backend/src/audio_processor.py:111-120 | a failed extraction reads as volume 0, −60 dB, noise ratio 1, zero contrast, rate and centroid, score 0, and is rejected at any threshold |
| Text.Lower | backend/src/audio_processor.py:380 | lower-casing keeps the length and maps each character by the ASCII case map |
| Text.IsSpace | backend/src/audio_processor.py:355 | `isspace` holds for the ASCII whitespace characters and the separators U+001C..U+001F |
| Text.LowerIdempotent | backend/src/api.py:109 | lower-casing twice equals lower-casing once |
| Text.Strip | backend/src/audio_processor.py:355 | the stripped text is no longer than the input and has no whitespace at either end |
| Text.StripIsTrimmedSlice | backend/src/audio_processor.py:355 | the stripped text is the one contiguous slice of the input left after cutting whitespace, and only whitespace, from both ends |
| Text.StripKeepsNonSpace | backend/src/audio_processor.py:351 | every non-whitespace character of the input survives stripping |
| Text.StripKeepsCharacters | backend/src/audio_processor.py:351 | stripping adds no character |
| Text.StripStripped | backend/src/audio_processor.py:355 | text already without surrounding whitespace is unchanged by stripping |
| Text.Words | backend/src/audio_processor.py:370 | whitespace splitting yields non-empty words free of whitespace, made of input characters |
| Text.WordsJoinToText | backend/src/audio_processor.py:370 | the words joined together are exactly the text with its whitespace taken out, in order |
| Text.WordsCountStarts | backend/src/api.py:220 | the number of words is the number of word starts (non-whitespace characters that begin the text or follow whitespace) |
| Text.WordsOfSpacedWord | backend/src/audio_processor.py:370 | a word followed by a space splits off as the first word |
| Text.AtLeastThreeWords | backend/src/audio_processor.py:370-372 | two words each followed by a space, then a non-space, give at least three words |
| Text.EndsWith | backend/src/audio_processor.py:366 | `endswith` holds when the suffix is the last characters of the text |
| Text.Contains | backend/src/audio_processor.py:381 | `pattern in text` tests for the pattern at the start, then at each later position |
| Text.ContainsExactly | backend/src/audio_processor.py:381 | the substring test holds exactly when the pattern occurs at some position |
| Sorting.SortDesc | backend/src/audio_processor.py:406 | sorting is a permutation: same length, same multiset |
| Sorting.SortDescSorted | backend/src/audio_processor.py:406 | the sorted sequence is in descending key order |
| Sorting.SortDescStable | backend/src/audio_processor.py:406 | elements with equal keys keep their input order |
| Sorting.SortDescOfSorted | backend/src/database.py:156 | sorting an already ordered sequence returns it unchanged |
| SentenceGate.DropTerminators | backend/src/audio_processor.py:350 | the leading run of `.`, `!`, `?` is removed, and only terminators are removed |
| SentenceGate.SplitOnTerminators | backend/src/audio_processor.py:350 | the regular-expression split yields at least one piece |
| SentenceGate.SplitPiecesNoTerminator | backend/src/audio_processor.py:350 | no piece of the split contains a terminator |
| SentenceGate.StrippedNonEmpty | backend/src/audio_processor.py:351 | every kept piece is non-empty and stripped, and there are no more pieces than before |
| SentenceGate.StrippedNonEmptyExactly | backend/src/audio_processor.py:351 | the result holds exactly the stripped pieces that are non-empty: each is the strip of some piece, and every piece with a non-empty strip contributes it |
| SentenceGate.StrippedNonEmptyAppend | backend/src/audio_processor.py:351 | the filter works piece by piece and keeps the pieces' order |
| SentenceGate.StrippedKeepsNoTerminator | backend/src/audio_processor.py:351 | stripping and dropping empty pieces introduces no terminator |
| SentenceGate.SplitIntoSentences | backend/src/audio_processor.py:346-351 | every sentence is non-empty, stripped and free of `.`, `!`, `?` |
| SentenceGate.SplitLosesOnlyTerminators | backend/src/audio_processor.py:350 | the pieces joined together equal the text with its terminators removed |
| SentenceGate.NoTerminatorOnePiece | backend/src/audio_processor.py:350 | text without terminators splits into itself alone |
| SentenceGate.ContentGivesSentence | backend/src/audio_processor.py:346-351 | text with a character that is neither whitespace nor a terminator yields at least one sentence |
| SentenceGate.NoTerminatorOneSentence | backend/src/audio_processor.py:346-351 | text without terminators yields at most one sentence |
| SentenceGate.IsCompleteSentence | backend/src/audio_processor.py:353-386 | a sentence that passes has ≥ 10 characters after stripping, an upper-case start, a terminator at the end and ≥ 3 words |
| SentenceGate.CompleteSentenceExactly | backend/src/audio_processor.py:353-386 | the gate holds exactly when the stripped text has ≥ 10 characters, an upper-case start, a terminator at the end and ≥ 3 words; the filler rule never fires once 3 words are present |
| SentenceGate.SplitSentencesNeverComplete | backend/src/audio_processor.py:310-311 | no sentence produced by the splitter passes the gate |
| SentenceGate.RejectsTooShort | backend/tests/test_audio_processor.py:155-169 | "um uh" and "too short" are rejected |
| SentenceGate.RejectsLowerCaseStart | backend/tests/test_audio_processor.py:155-169 | "basically um", "incomplete sentence" and "no capital letter" are rejected |
| SentenceGate.ThreeWordSentence | backend/src/audio_processor.py:353-386 | a capitalised first word, a second word and a rest ending in a terminator, at least ten characters in all, pass the gate |
| SentenceGate.AcceptsTestSentence | backend/tests/test_audio_processor.py:146-152 | "The integration of robotics and healthcare settings is increasing." is accepted |
| Segmentation.Trunc | backend/src/audio_processor.py:276-277 | `int()` truncates toward zero: the result is the integer part, for either sign |
| Segmentation.TruncOfInteger | backend/src/audio_processor.py:182-183 | truncation leaves whole numbers unchanged |
| Segmentation.SampleIndex | backend/src/audio_processor.py:182-183 | for a non-negative time the sample index is the whole part of time times rate |
| Segmentation.Collect | backend/src/audio_processor.py:195-202 | appending the kept items yields no more items than were offered |
| Segmentation.CollectNone | backend/src/audio_processor.py:265-297 | a loop that keeps nothing returns no items |
| Segmentation.CollectStep | backend/src/audio_processor.py:195-202 | each loop step appends exactly the item kept at that position |
| Segmentation.CollectSound | backend/src/audio_processor.py:289-297 | every output item was kept at some input position |
| Segmentation.CollectComplete | backend/src/audio_processor.py:289-297 | every kept item is in the output |
| Segmentation.CollectIncreasing | backend/src/audio_processor.py:290 | output items carry in-range, strictly increasing positions |
| Segmentation.AppendIncreasing | backend/src/audio_processor.py:290 | appending the item for the next position keeps positions increasing |
| Segmentation.FrameTimeMonotone | backend/src/audio_processor.py:235 | frame times never decrease with the frame index, and strictly increase for a positive hop |
| Segmentation.RunEnd | backend/src/audio_processor.py:241-243 | a run ends at the first non-speech frame after its start, or at the end of the flags |
| Segmentation.RunEndInside | backend/src/audio_processor.py:234-246 | scanning from any frame inside a run reaches the same run end |
| Segmentation.FindSpeechSegments | backend/src/audio_processor.py:230-254 | the two-state scan emits exactly the speech runs: one per rising edge, ending at the next silent frame or at the clip end, of at least the minimum length |
| Segmentation.RunsFromSound | backend/src/audio_processor.py:237-252 | every emitted run is long enough and starts at a rising edge |
| Segmentation.RunsFromComplete | backend/src/audio_processor.py:237-252 | every long-enough run at a rising edge is emitted |
| Segmentation.PrependSpan | backend/src/audio_processor.py:245 | a span that ends before the next one keeps the list chained and advancing |
| Segmentation.RunsFromOrdered | backend/src/audio_processor.py:230-254 | runs start no earlier than the scan position, do not overlap, and have strictly increasing starts for a positive hop |
| Segmentation.SpeechRuns | backend/src/audio_processor.py:230-254 | consecutive runs are chained: each ends no later than the next begins |
| Segmentation.SpeechRunsProperties | backend/src/audio_processor.py:230-254 | speech runs are long enough, start at rising edges, include every long-enough run, and are in time order without overlap |
| Segmentation.AcousticSegmentAt | backend/src/audio_processor.py:176-202 | a run yields a segment exactly when it lasts 1–30 s and the assessment of its samples is acceptable; the segment carries the run's index |
| Segmentation.SpanMetrics | backend/src/audio_processor.py:182-188 | a span's metrics are the assessment of its 16 kHz sample range: the sentinel when extraction fails, otherwise accepted exactly when the score reaches the threshold |
| Segmentation.SilenceAdmissible | backend/src/audio_processor.py:180-191 | a span is kept when it lasts 1–30 s and the assessment of its samples is acceptable |
| Segmentation.SegmentAudioBySilence | backend/src/audio_processor.py:157-207 | the loop keeps exactly the runs of allowed duration whose assessment is acceptable, at 16000 samples per second and a hop of 160 samples |
| Segmentation.SilenceHopIsTenMilliseconds | backend/src/audio_processor.py:213 | `int(0.010 * sr)` at 16000 Hz is the hop of 160 samples |
| Segmentation.SilenceSelection | backend/src/audio_processor.py:176-202 | no more segments than speech runs |
| Segmentation.SilenceSelectionProperties | backend/src/audio_processor.py:176-202 | every kept segment comes from an admissible run, copies its times, lasts 1–30 s and carries the assessment of that run's samples, which is acceptable; every admissible run is kept; indices strictly increase |
| Segmentation.WhisperCandidateAt | backend/src/audio_processor.py:265-297 | an utterance yields a segment exactly when it is admissible; the segment carries the utterance's index, its default-filled start and end, and the assessment of the samples between them |
| Segmentation.UtteranceStart | backend/src/audio_processor.py:268 | the start is the recogniser's start, or 0.0 when absent |
| Segmentation.UtteranceEnd | backend/src/audio_processor.py:269 | the end is the recogniser's end, or the start plus 10.0 when absent |
| Segmentation.WhisperAdmissible | backend/src/audio_processor.py:266-279 | an entry is kept when it is a dict with `text`, lasts 1–30 s and both sample bounds lie within the clip |
| Segmentation.SelectWhisperSegments | backend/src/audio_processor.py:265-297 | the utterance loop keeps exactly the admissible utterances, in order |
| Segmentation.SentenceFallback | backend/src/audio_processor.py:300-339 | the sentence fallback never produces a segment |
| Segmentation.SegmentWithWhisper | backend/src/audio_processor.py:256-344 | as written: the outcome is the utterance selection when it kept something; otherwise the fallback, which raises exactly when the plain transcription has no `text` entry and else adds nothing |
| Segmentation.WhisperResult | backend/src/audio_processor.py:256-344 | a non-empty utterance selection is returned as is; an empty one ends in failure exactly when the plain transcription has no `text` entry, and otherwise in no segments |
| Segmentation.NoAdmissibleUtteranceRaises | backend/src/audio_processor.py:300-303 | as written: when no utterance is admissible and the recogniser's `transcribe` returns a string, the `['text']` lookup fails and the call raises (lines 343-344) |
| Segmentation.HalfSecondClipRaises | backend/src/audio_processor.py:273 | as written: a clip whose only utterance lasts half a second makes the call raise |
| Segmentation.SegmentWithWhisperCorrected | backend/src/audio_processor.py:299-339 | corrected: with the fallback reading the transcript string, the call returns the utterance selection |
| Segmentation.CorrectedNeverRaises | backend/src/audio_processor.py:299-339 | corrected: the call fails on no input |
| Segmentation.WhisperSelection | backend/src/audio_processor.py:265-297 | at most one segment per recogniser entry |
| Segmentation.WhisperSelectionExactly | backend/src/audio_processor.py:265-297 | each kept segment comes from an admissible utterance, with default-filled times, duration in [1, 30], stripped text and the assessment of the samples between its start and end; every admissible utterance is kept; indices strictly increase, with gaps allowed |
| Segmentation.HalfSecondUtteranceDropped | backend/src/audio_processor.py:273 | an utterance of half a second is dropped |
| Segmentation.UtterancePastEndDropped | backend/src/audio_processor.py:279 | an utterance that runs past the end of the audio is dropped, not clamped |
| Segmentation.DefaultTimingAdmitted | backend/src/audio_processor.py:268-269 | without timestamps an utterance spans 0–10 s and is kept from a 10 s clip |
| CorpusSelector.AtLeast | backend/src/audio_processor.py:409-412 | filtering never lengthens the pool |
| CorpusSelector.AtLeastMembers | backend/src/audio_processor.py:409-412 | the filter keeps exactly the candidates scoring at least the threshold |
| CorpusSelector.PyPrefix | backend/src/audio_processor.py:427 | slicing `[:k]` yields a prefix of Python's length for any integer k, negative included |
| CorpusSelector.VirtualIndex | backend/src/audio_processor.py:420 | the interpolation position for q in [0, 100] lies within the index range |
| CorpusSelector.OrderStatisticMonotone | backend/src/audio_processor.py:420 | order statistics do not decrease with their rank |
| CorpusSelector.OrderStatisticIsValue | backend/src/audio_processor.py:420 | each order statistic is one of the scores |
| CorpusSelector.LerpBetween | backend/src/audio_processor.py:420 | linear interpolation stays between its end points |
| CorpusSelector.Percentile | backend/src/audio_processor.py:420 | the percentile of a single score is that score |
| CorpusSelector.PercentileBetween | backend/src/audio_processor.py:420 | the percentile lies between the smallest and largest score |
| CorpusSelector.Scores | backend/src/audio_processor.py:417 | the score list matches the pool position by position |
| CorpusSelector.CreateMlReadySegments | backend/src/audio_processor.py:388-430 | the output has at most `min_segments` elements and is a sub-multiset of the pool |
| CorpusSelector.AtLeastSubMultiset | backend/src/audio_processor.py:409-412 | the filter only removes candidates |
| CorpusSelector.PrefixSubMultiset | backend/src/audio_processor.py:427 | a slice only removes elements |
| CorpusSelector.AtLeastMonotonePrefix | backend/src/audio_processor.py:409-424 | on a sorted pool, a higher threshold keeps a prefix of what a lower one keeps |
| CorpusSelector.AtLeastNone | backend/src/audio_processor.py:409-412 | a threshold above every score keeps nothing |
| CorpusSelector.PyPrefixMonotone | backend/src/audio_processor.py:427 | slicing preserves the prefix relation |
| CorpusSelector.Threshold | backend/src/audio_processor.py:415-420 | the threshold in force is `min_quality_score` for an empty pool or when the strict filter keeps at least `min_segments` |
| CorpusSelector.SelectionSorted | backend/src/audio_processor.py:405-427 | the output is sorted by score, highest first, and every output score reaches the threshold in force |
| CorpusSelector.AtLeastSubsequenceSorted | backend/src/audio_processor.py:406-412 | filtering a sorted pool keeps it sorted |
| CorpusSelector.WithKeyAtLeast | backend/src/audio_processor.py:409-412 | for each score, the filter keeps all candidates of that score in order, or none |
| CorpusSelector.WithKeyPrefix | backend/src/audio_processor.py:427 | a prefix keeps each score's candidates as a prefix of theirs |
| CorpusSelector.SelectionStable | backend/src/audio_processor.py:405-427 | candidates of equal score appear in the output in pool order |
| CorpusSelector.StrictCase | backend/src/audio_processor.py:409-427 | when the strict filter keeps enough, the output is its first `min_segments` |
| CorpusSelector.FallbackCase | backend/src/audio_processor.py:415-427 | otherwise the output is the first `min_segments` of the sorted pool that reach the 25th percentile of all scores: every output score reaches it, and when no more than `min_segments` reach it, every such candidate is returned |
| CorpusSelector.SortedHeadIsBest | backend/src/audio_processor.py:406 | the head of the sorted pool is a best-scored candidate |
| CorpusSelector.ThresholdReachable | backend/src/audio_processor.py:409-424 | the best score always reaches the threshold in force, strict or percentile |
| CorpusSelector.TopSegmentIncluded | backend/src/audio_processor.py:405-427 | for a non-empty pool and `min_segments` ≥ 1, the output starts with a best-scored candidate |
| CorpusSelector.ExamplePoolSorted | backend/src/audio_processor.py:406 | the example pool (scores 0.9, 0.8, 0.3, 0.2) is already in sorted order |
| CorpusSelector.ExamplePercentile | backend/src/audio_processor.py:420 | the linear 25th percentile of 0.9, 0.8, 0.3, 0.2 is 0.275 |
| CorpusSelector.ExampleThresholdKeepsAll | backend/src/audio_processor.py:409-412 | the default threshold 0.05 keeps the whole example pool |
| CorpusSelector.ExamplePercentileKeepsThree | backend/src/audio_processor.py:421-424 | the percentile 0.275 keeps only the first three |
| CorpusSelector.ExampleThreshold | backend/src/audio_processor.py:415-424 | with 50 segments asked for, the threshold in force is 0.275 |
| CorpusSelector.PercentileFallbackDropsPassingSegment | backend/src/audio_processor.py:415-424 | as written: the strict filter keeps all four, yet the output drops the 0.2 segment |
| CorpusSelector.CreateMlReadySegmentsRelaxed | backend/src/audio_processor.py:415-427 | corrected selection: at most `min_segments` elements |
| CorpusSelector.RelaxedThreshold | backend/src/audio_processor.py:415-420 | corrected threshold: never above `min_quality_score` nor the threshold in force, and equal to one of them |
| CorpusSelector.RelaxedKeepsStrictSelection | backend/src/audio_processor.py:409-427 | corrected selection: the strict selection is always a prefix of the output |
| CorpusSelector.RelaxedKeepsExamplePool | backend/src/audio_processor.py:415-427 | corrected selection: the example pool is kept whole |
| Features.RoundHalfEven | backend/src/feature_extractor.py:50 | the result is within one half of its argument, and even when exactly one half away, as Python's `round` |
| Features.RoundTo | backend/src/feature_extractor.py:50 | `round(x, n)` is the ties-to-even rounding of x at scale `10 ** n` (its properties are the next three rows) |
| Features.RoundToClose | backend/src/feature_extractor.py:50 | `round(x, n)` lies within half a unit of the n-th decimal place of x |
| Features.RoundToUnit | backend/src/feature_extractor.py:90 | rounding keeps a value of [0, 1] in [0, 1], and 0 at 0 |
| Features.RoundToNonNegative | backend/src/feature_extractor.py:50 | rounding keeps a non-negative value non-negative |
| Features.MaskNonWord | backend/src/feature_extractor.py:274 | each non-word, non-space character becomes a space, others stay |
| Features.ExtractWords | backend/src/feature_extractor.py:271-276 | there is one word for each word start of the text with punctuation masked |
| Features.ExtractWordsClean | backend/src/feature_extractor.py:271-276 | every extracted word is non-empty, made of word characters only, and lower case |
| Features.ExtractSentences | backend/src/feature_extractor.py:278-282 | every sentence is non-empty, stripped and free of `.`, `!`, `?` |
| Features.FillerCount | backend/src/feature_extractor.py:78-87 | each position adds at most one filler |
| Features.IsFillerAt | backend/src/feature_extractor.py:78-87 | a position is a filler when its word, or else its two-word phrase with the next word, is in the filler set |
| Features.FillerRatio | backend/src/feature_extractor.py:56-94 | the share before rounding is 0 for empty text or no words, and lies in [0, 1] |
| Features.RoundedFillerRatio | backend/src/feature_extractor.py:56-94 | the reported ratio lies in [0, 1], is 0 for empty text or no words, and is within 0.00005 of the exact share |
| Features.ShareJustBelowTenthRounds | backend/src/feature_extractor.py:90 | an exact share in [0.09995, 0.1) is reported as 0.1 |
| Features.CalculateFillerRatio | backend/src/feature_extractor.py:66-90 | the counting loop computes the filler share: positions whose word, or else whose two-word phrase, is a filler, over the word count, rounded to four places |
| Features.FractionWithinUnit | backend/src/feature_extractor.py:89 | a count over a larger positive count lies in [0, 1] |
| Features.CountSyllables | backend/src/feature_extractor.py:290-303 | the loop counts the maximal vowel runs of the lower-cased text, at least 1 |
| Features.SyllableEstimate | backend/src/feature_extractor.py:290-303 | the estimate is the number of vowel runs of the lower-cased text, and 1 when there are none |
| Features.VowelRunsPositive | backend/src/feature_extractor.py:297-301 | some run is counted exactly when some vowel occurs |
| Features.VowelRunsBound | backend/src/feature_extractor.py:297-301 | runs are separated by non-vowels, so twice the run count is at most the length, plus one when the text ends in a vowel |
| Features.SyllableEstimateBounds | backend/src/feature_extractor.py:303 | the estimate is at least 1 and at most the length, and 1 for text without vowels |
| Features.PerMinute | backend/src/feature_extractor.py:140 | the rate is non-negative, times the minutes gives the count, and 0 when no time elapsed |
| Features.Wpm | backend/src/feature_extractor.py:27-54 | 0 for an empty transcript or non-positive duration; otherwise words per minute, before rounding |
| Features.RoundedWpm | backend/src/feature_extractor.py:27-54 | the reported rate is non-negative, 0 for an empty transcript or non-positive duration, and within 0.005 of the exact rate |
| Features.RateJustBelow200Rounds | backend/src/feature_extractor.py:50 | an exact rate in [199.995, 200) is reported as 200.0 |
| Features.WpmPositive | backend/src/feature_extractor.py:39-48 | the rate is positive exactly when there is text, time and at least one word |
| Features.PauseCount | backend/src/feature_extractor.py:147 | the pause count is at most the text length |
| Features.CalculateSpeechRate | backend/src/feature_extractor.py:123-157 | word, syllable and terminator counts, the minutes, and each per-minute rate of those counts |
| Features.DropTerminatorsCount | backend/src/feature_extractor.py:147 | removing a leading terminator run removes exactly that many pauses |
| Features.SplitPiecesBound | backend/src/feature_extractor.py:281 | the split has at most one piece more than there are terminators |
| Features.SentencesAtMostPausesPlusOne | backend/src/feature_extractor.py:278-282 | there are at most one more sentences than pauses |
| Features.DistinctBound | backend/src/feature_extractor.py:198 | there are no more distinct words than words, and at least one for a non-empty list |
| Features.UniqueWordRatio | backend/src/feature_extractor.py:197-199 | the unique-word ratio is 0 without words, otherwise in (0, 1] |
| Features.Readability | backend/src/feature_extractor.py:305-316 | readability is 0 without words or sentences, otherwise clamped to [0, 100] |
| Features.ReadabilityVanishesForOrdinaryWords | backend/src/feature_extractor.py:311-316 | at an average word length of 2.5 or more the formula goes below 0 and the clamp gives 0 |
| Features.QuotientAtLeast | backend/src/feature_extractor.py:312 | a quotient is at least c when the dividend is at least c times the divisor |
| Features.ComplexityMetrics | backend/src/feature_extractor.py:170-224 | all zero for empty text; the unique ratio lies in [0, 1] and is positive exactly when there are words; the sentence count is the number of extracted sentences |
| Database.MaxOf | backend/src/database.py:84 | the maximum bounds every id and is one of them |
| Database.NextId | backend/src/database.py:84-85 | the next id is larger than every id present, and 1 for an empty table |
| Database.NextIdExtends | backend/src/database.py:84-103 | appending the next id keeps ids positive and strictly increasing |
| Database.SegmentFromInput | backend/src/database.py:128-139 | the stored row has the given id and copies file id and segment index; it is ML-ready exactly when the input says so |
| Database.MissingFieldsTakeDefaults | backend/src/database.py:128-139 | absent fields are stored as wpm 0.0, quality 0.0, volume_db −60.0, noise ratio 1.0, not ML-ready, priority 0.0; a given quality is stored as given |
| Database.AudioDatabase.constructor | backend/src/database.py:7-10 | a new database has empty tables with valid ids |
| Database.AudioDatabase.InitDatabase | backend/src/database.py:16-78 | all three tables are empty afterwards |
| Database.AudioDatabase.InsertAudioFile | backend/src/database.py:80-103 | appends exactly one row with the next id, returns that id, larger than every earlier id, and leaves the other tables alone |
| Database.AudioDatabase.InsertSegmentWithQuality | backend/src/database.py:105-142 | appends exactly one row with defaults filled and the next id, returns that id, and leaves the other tables alone; the file id is not checked |
| Database.AudioDatabase.UpdateSegmentMlStatus | backend/src/database.py:232-240 | only the flag and priority of rows with that id change; an absent id changes nothing |
| Database.AudioDatabase.GetMlReadySegments | backend/src/database.py:144-166 | the query returns at most `limit` rows |
| Database.AudioDatabase.GetSegmentsByFileId | backend/src/database.py:168-188 | the query returns no more rows than are stored |
| Database.AudioDatabase.GetFileById | backend/src/database.py:257-272 | None exactly when no row has the id; otherwise a stored row with that id |
| Database.AudioDatabase.GetQualityStatistics | backend/src/database.py:190-195 | the total is the number of rows, and the ML-ready count is at most the total |
| Database.MlReadyRows | backend/src/database.py:155 | the filter never lengthens the table |
| Database.MlReadyRowsMembers | backend/src/database.py:155 | the filter keeps exactly the ML-ready rows at or above the threshold |
| Database.RowsOfFile | backend/src/database.py:178 | the filter never lengthens the table |
| Database.RowsOfFileMembers | backend/src/database.py:178 | the filter keeps exactly the rows of the file |
| Database.Take | backend/src/database.py:157 | `LIMIT n` yields a prefix of length min(n, size) |
| Database.CountMlReady | backend/src/database.py:195 | the count never exceeds the number of rows |
| Database.FindFile | backend/src/database.py:260-272 | None exactly when no row has the id; otherwise a stored row with that id |
| Database.MlReadySegmentsSpec | backend/src/database.py:144-166 | every returned row is stored, ML-ready and at or above the threshold; rows come by priority then quality, highest first; as many as the limit allows are returned |
| Database.MlReadySegmentsTopRanked | backend/src/database.py:144-166 | the returned rows are matching rows, none more often than stored, and none ranks below a matching row the limit left out |
| Database.MlReadySegmentsComplete | backend/src/database.py:155-157 | with room under the limit, every matching row is returned |
| Database.SegmentsByFileSpec | backend/src/database.py:168-188 | exactly the file's rows, each as often as stored, in ascending segment index |
| Database.FileByIdUnique | backend/src/database.py:257-272 | ids are unique, so the row found is the only one with that id |
| Database.TrainingSelectionExample | backend/test_backend.py:389-402 | with the test's three segments, threshold 0.5 and limit 10 return the two ML-ready ones, priority 0.95 then 0.7, and two count as ML-ready |
| Api.IsAcceptedUpload | backend/src/api.py:109 | an accepted name has at least four characters, the fourth from last a dot |
| Api.UploadCheckIgnoresCase | backend/src/api.py:109 | a name and its lower-cased form are accepted alike |
| Api.ExtensionSuffixAccepted | backend/src/api.py:109 | any name ending in `.wav`, `.mp3` or `.m4a` is accepted |
| Api.OtherExtensionRefused | backend/src/api.py:109 | a name whose lower-cased last four characters are none of the three is refused |
| Api.RawTrainingPriority | backend/src/api.py:215-221 | the raw priority lies between the score and the score plus 0.3 |
| Api.ConditionsMet | backend/src/api.py:216-221 | at most three conditions can hold |
| Api.RawPriorityCountsConditions | backend/src/api.py:215-221 | the raw priority is the score plus 0.1 for each condition met |
| Api.TrainingPriority | backend/src/api.py:243 | the stored priority is at most 1.0, at least the score when the score is ≤ 1, and either 1.0 or the raw priority |
| Api.RateJustBelowLimitEarnsNoBonus | backend/src/api.py:204-217 | an exact rate in [199.995, 200) is a good speech rate before rounding, but its rounded value earns no bonus |
| Api.ShareJustBelowLimitEarnsNoBonus | backend/src/api.py:207-219 | an exact filler share in [0.09995, 0.1) is below 0.1, but its rounded value earns no bonus |
| Api.TrainingPriorityMonotone | backend/src/api.py:215-243 | a better score never gives a lower priority |
| Api.StrongSegmentCapped | backend/src/api.py:215-243 | a score ≥ 0.9 with all three conditions met reaches the cap 1.0 |
| Api.MlSegmentInput | backend/src/api.py:202-244 | the stored row is ML-ready and copies score, file id, index and transcript; it stores the rounded rate and filler share, its priority is the training priority decided on those rounded values, and lies in [score, 1] when the score is ≤ 1 |
| Api.AdvancedSegmentInput | backend/src/api.py:305-326 | the stored row's flag is the acceptance flag, its priority is the score, and it stores the rounded rate and filler share |
| Api.BuildMlSegments | backend/src/api.py:202-248 | the loop builds one row per selected segment, each as the ML rule prescribes |
| Api.BuildAdvancedSegments | backend/src/api.py:305-330 | the loop builds one row per segment, each as the advanced mapping prescribes |
| Api.StoreSegments | backend/src/api.py:246 | inserting the rows one by one appends them in order under strictly increasing fresh ids |
| Api.AppendedIdsIncrease | backend/src/database.py:109-142 | rows appended to a table with increasing ids get increasing ids above all earlier ones |
| Api.Average | backend/src/api.py:256 | 0 for no scores, otherwise the average times the count equals the sum |
| Api.CountAtLeast | backend/src/api.py:257 | the high-quality count is at most the number of segments |
| Api.CountTrue | backend/src/api.py:336 | the ML-ready count is at most the number of segments |
| Api.SumBounds | backend/src/api.py:256 | bounds on every score bound the sum by count times bound |
| Api.AverageWithin | backend/src/api.py:256 | the average lies within any bounds all scores respect |
| Api.StoredScores | backend/src/api.py:256 | the score list matches the segments position by position |
| Api.MlQualitySummary | backend/src/api.py:250-259 | the total is the number of segments, the high-quality count is at most the total, and the average is 0 without segments |
| Api.AdvancedQualitySummary | backend/src/api.py:332-338 | the total is the number of segments, the ML-ready count is at most the total, and the average is 0 without segments |
| Api.SummaryAverageWithin | backend/src/api.py:256-337 | with scores in [floor, 1], both averages lie in [floor, 1] |
| Api.AllHighCounted | backend/src/api.py:257 | when every score is ≥ 0.7, every segment counts as high quality |

## Left out

- **Audio.** Loading, resampling, mono mixing and writing segment files are left out. So are normalisation and format conversion, and the RMS and `log10` volume figures. These are signal-library I/O and floating-point numerics.
  - The descriptors of a sample range are the parameter `extract`.
  - The energy z-score and its threshold are replaced by given per-frame speech flags.
  - The number of frames (`range(0, len - frame_length, hop)`) is not modelled.
  - Segment file paths: the endpoint row builders in `api.dfy` take a segment's path as the parameter `segmentPath`. `Segmentation.Candidate` and `Segmentation.AcousticSegment` carry no path; the `{audio_path}_segment_{i:03d}.wav` name is part of writing the file.
  - The frame length of the energy scan (25 ms) only shapes the energy figures and is not modelled. The hop is fixed at 160 samples, `int(0.010 * 16000)`.
- **Speech recognition and sentiment.** The recogniser is an abstract list of optional utterances. `None` stands for an entry that is not a dict with `text`. The `text` entry of the plain transcription used by the fallback is the parameter `plainText`, `None` when the value returned is not a mapping holding `text`; the repository's recogniser returns a plain string, which is such a value. Sentiment scoring is the parameter `sentiment`. `calculate_sentiment`, `extract_all_features` and `_clean_text` are not part of this model.
- **Exceptions.** The failure of descriptor extraction is modelled as the sentinel record, and the failed `['text']` lookup of the Whisper fallback as the outcome `Raised`. Failures of loading or of the recogniser are I/O. The zero-valued `except` paths of the feature functions arise only from non-string input.
- **Numbers.** Arithmetic is exact over `real`, and IEEE rounding is not modelled.
  - `round(x, n)` in `calculate_wpm` and `calculate_filler_ratio` is modelled as round-half-to-even of the exact value (`Features.RoundTo`). Python rounds the nearest binary double, so a decimal tie such as `round(2.675, 2)` can go the other way there.
  - The rounding of the speech-rate and complexity figures and of sentiment is not modelled: those figures decide nothing in the model.
- **Text.** Whitespace, upper case, lower-casing and `\w` are modelled for ASCII only. Python's Unicode character classes are not.
- Sorting.SortDesc: the in-place `list.sort` is modelled as a stable sort on values, so aliasing of the list is not captured.
- Sorting.SortDesc: for SQL `ORDER BY` with equal keys, the engine's order is unspecified. The model keeps insertion order.
- **Endpoints.** The following are not modelled:
  - the HTTP layer (routes, CORS, upload reading, uuid file names);
  - the endpoints' `insert_audio_file` call for the whole recording.

  `StoreSegments` models only their segment inserts. The ML endpoint has no extension check.
- **Database.** duckdb connections, `created_at` timestamps, `get_all_files`, `get_statistics` and the `AVG`/`STDDEV`/`MIN`/`MAX` parts of `get_quality_statistics` are floating-point aggregates and engine details. The metrics table is held but never written, as in the source.
- Database.AudioDatabase.GetSegmentsByFileId: returns whole rows. The source's column list leaves out `original_file_id`, which the filter fixes anyway.
- Database.AudioDatabase.GetMlReadySegments: `limit` is a natural number. A negative `LIMIT`, which the database engine refuses, is not modelled.
- Segmentation.SentenceFallback: the contract states only that the fallback emits nothing. The timing of its (unreachable) segments is not stated.

## Findings

| source | as written | input that shows it | evidently intended | confidence | as-written member | corrected member |
|---|---|---|---|---|---|---|
| backend/src/audio_processor.py:300-303 | when no utterance is admissible, the fallback reads `whisper_model.transcribe(audio_path)['text']`, but the recogniser passed in (backend/src/api.py:301) returns the transcript as a string (backend/src/asr_model.py:30, 51), so the lookup raises and lines 343-344 turn it into "Whisper segmentation failed" | a recording whose only utterance lasts from 2.0 s to 2.5 s | use the string `transcribe` returns as the text to split | not executed | Segmentation.HalfSecondClipRaises | Segmentation.SegmentWithWhisperCorrected |
| backend/src/audio_processor.py:415-424 | when the strict filter keeps fewer than `min_segments`, the filter is rerun at the 25th percentile of all scores, which replaces `min_quality_score` even when it is higher | pool scores 0.9, 0.8, 0.3, 0.2 with `min_quality_score` 0.05 and `min_segments` 50: the strict filter keeps all four, the percentile is 0.275, and the 0.2 segment is dropped | the comment calls the fallback a lower threshold, so it should never exceed `min_quality_score` (the smaller of the two) and never lose a segment the strict filter kept | not executed | CorpusSelector.PercentileFallbackDropsPassingSegment | CorpusSelector.RelaxedKeepsStrictSelection |
