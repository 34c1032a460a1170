/**
 * The data the HTTP endpoints derive before they store segments: the upload
 * extension check, the training-priority rule and the ML-ready flag of the ML
 * endpoint, the flag and priority mapping of the advanced endpoint, the
 * storing of the rows with their fresh ids, and the quality summaries both
 * endpoints return.
 */
module Api {
  import opened Wrappers
  import opened Text
  import opened Quality
  import opened Segmentation
  import opened Features
  import opened Database

  /** The extensions `process_audio_file` accepts, compared on the lower-cased name. */
  const AcceptedExtensions: seq<string> := [".wav", ".mp3", ".m4a"]

  /** Each condition that holds raises the training priority by this much. */
  const PriorityBonus: real := 0.1

  /** The score from which a stored segment counts as high quality in the summary. */
  const HighQualityScore: real := 0.7

  // ---------------------------------------------------------------------------
  // Upload check

  predicate IsAcceptedUpload(filename: string)
    ensures IsAcceptedUpload(filename) ==> |filename| >= 4 && Lower(filename)[|filename| - 4] == '.'
  {
    exists k :: 0 <= k < |AcceptedExtensions| && EndsWith(Lower(filename), AcceptedExtensions[k])
  }

  /** The check ignores case: a name and its lower-cased form are accepted alike. */
  lemma UploadCheckIgnoresCase(filename: string)
    ensures IsAcceptedUpload(filename) <==> IsAcceptedUpload(Lower(filename))
  {
    LowerIdempotent(filename);
  }

  /** Any name followed by one of the three extensions, in any case, is accepted. */
  lemma ExtensionSuffixAccepted(name: string, k: nat)
    requires k < |AcceptedExtensions|
    ensures IsAcceptedUpload(name + AcceptedExtensions[k])
  {
    var ext := AcceptedExtensions[k];
    LowerAppend(name, ext);
    assert Lower(ext) == ext;
    var l := Lower(name + ext);
    assert l[|l| - |ext|..] == ext;
  }

  /** A name whose last four characters, lower-cased, are none of the three extensions is refused. */
  lemma OtherExtensionRefused(filename: string)
    requires |filename| >= 4
    requires var tail := Lower(filename)[|filename| - 4..];
      tail != ".wav" && tail != ".mp3" && tail != ".m4a"
    ensures !IsAcceptedUpload(filename)
  {
  }

  // ---------------------------------------------------------------------------
  // Training priority

  function Bonus(holds: bool): real {
    if holds then PriorityBonus else 0.0
  }

  /** The priority before clamping: the quality score raised once per condition met. */
  function RawTrainingPriority(qualityScore: real, wpm: real, fillerRatio: real, transcript: string): (p: real)
    ensures qualityScore <= p <= qualityScore + 3.0 * PriorityBonus
  {
    qualityScore + Bonus(0.0 < wpm < 200.0) + Bonus(fillerRatio < 0.1) + Bonus(|Words(transcript)| >= 5)
  }

  /** How many of the three conditions hold: a usual speech rate, few fillers, five words or more. */
  function ConditionsMet(wpm: real, fillerRatio: real, transcript: string): (n: nat)
    ensures n <= 3
  {
    (if 0.0 < wpm < 200.0 then 1 else 0) + (if fillerRatio < 0.1 then 1 else 0)
    + (if |Words(transcript)| >= 5 then 1 else 0)
  }

  lemma RawPriorityCountsConditions(qualityScore: real, wpm: real, fillerRatio: real, transcript: string)
    ensures RawTrainingPriority(qualityScore, wpm, fillerRatio, transcript)
         == qualityScore + PriorityBonus * ConditionsMet(wpm, fillerRatio, transcript) as real
  {
  }

  /** `min(1.0, training_priority)` */
  function TrainingPriority(qualityScore: real, wpm: real, fillerRatio: real, transcript: string): (p: real)
    ensures p <= 1.0
    ensures qualityScore <= 1.0 ==> p >= qualityScore
    ensures p == 1.0 || p == RawTrainingPriority(qualityScore, wpm, fillerRatio, transcript)
  {
    Min(1.0, RawTrainingPriority(qualityScore, wpm, fillerRatio, transcript))
  }

  /** A better quality score never gives a lower priority. */
  lemma TrainingPriorityMonotone(q1: real, q2: real, wpm: real, fillerRatio: real, transcript: string)
    requires q1 <= q2
    ensures TrainingPriority(q1, wpm, fillerRatio, transcript) <= TrainingPriority(q2, wpm, fillerRatio, transcript)
  {
  }

  /** A segment of score 0.9 or more that meets every condition reaches the cap. */
  lemma StrongSegmentCapped(qualityScore: real, wpm: real, fillerRatio: real, transcript: string)
    requires qualityScore >= 0.9 && ConditionsMet(wpm, fillerRatio, transcript) == 3
    ensures TrainingPriority(qualityScore, wpm, fillerRatio, transcript) == 1.0
  {
    RawPriorityCountsConditions(qualityScore, wpm, fillerRatio, transcript);
  }

  /**
   * The rate condition reads the rate `calculate_wpm` returns, rounded to two
   * places: a rate just below 200 is reported as 200.0 and earns no bonus.
   */
  lemma RateJustBelowLimitEarnsNoBonus(transcript: string, duration: real)
    requires 199.995 <= Wpm(transcript, duration) < 200.0
    ensures 0.0 < Wpm(transcript, duration) < 200.0
    ensures !(0.0 < RoundedWpm(transcript, duration) < 200.0)
  {
    RateJustBelow200Rounds(transcript, duration);
  }

  /**
   * The filler condition reads the share `calculate_filler_ratio` returns,
   * rounded to four places: a share just below 0.1 is reported as 0.1 and
   * earns no bonus.
   */
  lemma ShareJustBelowLimitEarnsNoBonus(transcript: string)
    requires 0.09995 <= FillerRatio(transcript) < 0.1
    ensures !(RoundedFillerRatio(transcript) < 0.1)
  {
    ShareJustBelowTenthRounds(transcript);
  }

  // ---------------------------------------------------------------------------
  // Rows the endpoints store

  /** The row the ML endpoint stores for one selected segment. */
  function MlSegmentInput(fileId: int, c: Candidate, segmentPath: nat -> string, sentiment: string -> real): (s: SegmentInput)
    ensures s.isMlReady == Some(true)
    ensures s.qualityScore == Some(c.metrics.qualityScore)
    ensures s.trainingPriority.Some? && s.trainingPriority.value <= 1.0
    ensures c.metrics.qualityScore <= 1.0 ==> s.trainingPriority.value >= c.metrics.qualityScore
    ensures s.originalFileId == fileId && s.segmentIndex == c.index && s.transcript == c.transcript
    ensures s.wpm == Some(RoundedWpm(c.transcript, c.duration)) && s.fillerRatio == Some(RoundedFillerRatio(c.transcript))
    ensures s.trainingPriority == Some(TrainingPriority(c.metrics.qualityScore, s.wpm.value, s.fillerRatio.value, c.transcript))
  {
    var wpm := RoundedWpm(c.transcript, c.duration);
    var filler := RoundedFillerRatio(c.transcript);
    var m := c.metrics;
    SegmentInput(fileId, c.index, c.startTime, c.endTime, c.duration, c.transcript, segmentPath(c.index),
      Some(wpm), Some(filler), Some(sentiment(c.transcript)), Some(m.qualityScore),
      Some(m.volume), Some(m.volumeDb), Some(m.noiseRatio), Some(m.snrEstimate),
      Some(m.zeroCrossingRate), Some(m.spectralCentroid),
      Some(true), Some(TrainingPriority(m.qualityScore, wpm, filler, c.transcript)))
  }

  /** The row the advanced endpoint stores: the acceptance flag as the ML-ready flag, the score as the priority. */
  function AdvancedSegmentInput(fileId: int, c: Candidate, segmentPath: nat -> string, sentiment: string -> real): (s: SegmentInput)
    ensures s.isMlReady == Some(c.metrics.isAcceptable)
    ensures s.trainingPriority == Some(c.metrics.qualityScore) && s.qualityScore == Some(c.metrics.qualityScore)
    ensures s.originalFileId == fileId && s.segmentIndex == c.index && s.transcript == c.transcript
    ensures s.wpm == Some(RoundedWpm(c.transcript, c.duration)) && s.fillerRatio == Some(RoundedFillerRatio(c.transcript))
  {
    var m := c.metrics;
    SegmentInput(fileId, c.index, c.startTime, c.endTime, c.duration, c.transcript, segmentPath(c.index),
      Some(RoundedWpm(c.transcript, c.duration)), Some(RoundedFillerRatio(c.transcript)), Some(sentiment(c.transcript)),
      Some(m.qualityScore),
      Some(m.volume), Some(m.volumeDb), Some(m.noiseRatio), Some(m.snrEstimate),
      Some(m.zeroCrossingRate), Some(m.spectralCentroid),
      Some(m.isAcceptable), Some(m.qualityScore))
  }

  /** The loop of `process_audio_ml` up to the insert: features, priority rule and flag per segment. */
  method BuildMlSegments(fileId: int, segments: seq<Candidate>, segmentPath: nat -> string, sentiment: string -> real)
    returns (rows: seq<SegmentInput>)
    ensures |rows| == |segments|
    ensures forall i :: 0 <= i < |segments| ==> rows[i] == MlSegmentInput(fileId, segments[i], segmentPath, sentiment)
  {
    rows := [];
    for i := 0 to |segments|
      invariant |rows| == i
      invariant forall k :: 0 <= k < i ==> rows[k] == MlSegmentInput(fileId, segments[k], segmentPath, sentiment)
    {
      var c := segments[i];
      var m := c.metrics;
      var wpm := RoundedWpm(c.transcript, c.duration);
      var filler := CalculateFillerRatio(c.transcript);
      var priority := m.qualityScore;
      if 0.0 < wpm < 200.0 {
        priority := priority + PriorityBonus;
      }
      if filler < 0.1 {
        priority := priority + PriorityBonus;
      }
      if |Words(c.transcript)| >= 5 {
        priority := priority + PriorityBonus;
      }
      assert priority == RawTrainingPriority(m.qualityScore, wpm, filler, c.transcript);
      var row := SegmentInput(fileId, c.index, c.startTime, c.endTime, c.duration, c.transcript, segmentPath(c.index),
        Some(wpm), Some(filler), Some(sentiment(c.transcript)), Some(m.qualityScore),
        Some(m.volume), Some(m.volumeDb), Some(m.noiseRatio), Some(m.snrEstimate),
        Some(m.zeroCrossingRate), Some(m.spectralCentroid),
        Some(true), Some(Min(1.0, priority)));
      rows := rows + [row];
    }
  }

  /** The loop of `process_audio_advanced` up to the insert. */
  method BuildAdvancedSegments(fileId: int, segments: seq<Candidate>, segmentPath: nat -> string, sentiment: string -> real)
    returns (rows: seq<SegmentInput>)
    ensures |rows| == |segments|
    ensures forall i :: 0 <= i < |segments| ==> rows[i] == AdvancedSegmentInput(fileId, segments[i], segmentPath, sentiment)
  {
    rows := [];
    for i := 0 to |segments|
      invariant |rows| == i
      invariant forall k :: 0 <= k < i ==> rows[k] == AdvancedSegmentInput(fileId, segments[k], segmentPath, sentiment)
    {
      var c := segments[i];
      var m := c.metrics;
      var filler := CalculateFillerRatio(c.transcript);
      var row := SegmentInput(fileId, c.index, c.startTime, c.endTime, c.duration, c.transcript, segmentPath(c.index),
        Some(RoundedWpm(c.transcript, c.duration)), Some(filler), Some(sentiment(c.transcript)),
        Some(m.qualityScore),
        Some(m.volume), Some(m.volumeDb), Some(m.noiseRatio), Some(m.snrEstimate),
        Some(m.zeroCrossingRate), Some(m.spectralCentroid),
        Some(m.isAcceptable), Some(m.qualityScore));
      rows := rows + [row];
    }
  }

  /** Both endpoints insert their rows one by one; each insert returns the next id. */
  method StoreSegments(db: AudioDatabase, rows: seq<SegmentInput>) returns (ids: seq<int>)
    requires db.Valid()
    modifies db
    ensures db.Valid()
    ensures |ids| == |rows|
    ensures forall i, j :: 0 <= i < j < |ids| ==> ids[i] < ids[j]
    ensures forall i, s :: 0 <= i < |ids| && s in old(db.segments) ==> s.id < ids[i]
    ensures |db.segments| == |old(db.segments)| + |rows|
    ensures db.segments[..|old(db.segments)|] == old(db.segments)
    ensures forall i :: 0 <= i < |rows| ==> db.segments[|old(db.segments)| + i] == SegmentFromInput(ids[i], rows[i])
    ensures db.files == old(db.files) && db.qualityMetrics == old(db.qualityMetrics)
  {
    ids := [];
    ghost var before := db.segments;
    for i := 0 to |rows|
      invariant db.Valid()
      invariant |ids| == i
      invariant |db.segments| == |before| + i
      invariant db.segments[..|before|] == before
      invariant forall k :: 0 <= k < i ==> db.segments[|before| + k] == SegmentFromInput(ids[k], rows[k])
      invariant db.files == old(db.files) && db.qualityMetrics == old(db.qualityMetrics)
    {
      ghost var prior := db.segments;
      var id := db.InsertSegmentWithQuality(rows[i]);
      assert forall k :: 0 <= k < |prior| ==> db.segments[k] == prior[k];
      ids := ids + [id];
    }
    AppendedIdsIncrease(before, db.segments, ids);
  }

  /** Rows appended to a table whose ids increase carry increasing ids above every earlier one. */
  lemma AppendedIdsIncrease(before: seq<SegmentRow>, after: seq<SegmentRow>, ids: seq<int>)
    requires IdsIncreasing(SegmentIds(after))
    requires |after| == |before| + |ids| && after[..|before|] == before
    requires forall k :: 0 <= k < |ids| ==> after[|before| + k].id == ids[k]
    ensures forall i, j :: 0 <= i < j < |ids| ==> ids[i] < ids[j]
    ensures forall i, s :: 0 <= i < |ids| && s in before ==> s.id < ids[i]
  {
    var table := SegmentIds(after);
    assert forall k :: 0 <= k < |ids| ==> ids[k] == table[|before| + k];
    forall i, s | 0 <= i < |ids| && s in before
      ensures s.id < ids[i]
    {
      var m :| 0 <= m < |before| && before[m] == s;
      assert after[m] == s;
    }
  }

  // ---------------------------------------------------------------------------
  // Summaries

  function Sum(xs: seq<real>): real {
    if xs == [] then 0.0 else xs[0] + Sum(xs[1..])
  }

  /** `sum(...) / len(...) if ... else 0` */
  function Average(xs: seq<real>): (avg: real)
    ensures xs == [] ==> avg == 0.0
    ensures xs != [] ==> avg * |xs| as real == Sum(xs)
  {
    if xs == [] then 0.0 else Sum(xs) / |xs| as real
  }

  function CountAtLeast(xs: seq<real>, threshold: real): (n: nat)
    ensures n <= |xs|
  {
    if xs == [] then 0 else (if xs[0] >= threshold then 1 else 0) + CountAtLeast(xs[1..], threshold)
  }

  function CountTrue(flags: seq<bool>): (n: nat)
    ensures n <= |flags|
  {
    if flags == [] then 0 else (if flags[0] then 1 else 0) + CountTrue(flags[1..])
  }

  lemma {:induction false} SumBounds(xs: seq<real>, lo: real, hi: real)
    requires forall i :: 0 <= i < |xs| ==> lo <= xs[i] <= hi
    ensures lo * |xs| as real <= Sum(xs) <= hi * |xs| as real
  {
    if xs != [] {
      SumBounds(xs[1..], lo, hi);
    }
  }

  /** The average lies within any bounds every score respects. */
  lemma AverageWithin(xs: seq<real>, lo: real, hi: real)
    requires xs != []
    requires forall i :: 0 <= i < |xs| ==> lo <= xs[i] <= hi
    ensures lo <= Average(xs) <= hi
  {
    SumBounds(xs, lo, hi);
    var n := |xs| as real;
    var avg := Average(xs);
    assert avg * n >= lo * n;
    assert avg * n <= hi * n;
    ScaleCancel(avg, lo, n);
    ScaleCancel(hi, avg, n);
  }

  lemma ScaleCancel(a: real, b: real, n: real)
    requires n > 0.0 && a * n >= b * n
    ensures a >= b
  {
    assert (a - b) * n >= 0.0;
  }

  datatype QualitySummary = QualitySummary(averageQualityScore: real, highQualitySegments: nat, totalSegments: nat)

  datatype AdvancedSummary = AdvancedSummary(totalSegments: nat, qualitySegments: nat, averageQualityScore: real)

  /** The stored scores of the selected segments. */
  function StoredScores(segments: seq<Candidate>): (r: seq<real>)
    ensures |r| == |segments| && forall i :: 0 <= i < |segments| ==> r[i] == segments[i].metrics.qualityScore
  {
    seq(|segments|, i requires 0 <= i < |segments| => segments[i].metrics.qualityScore)
  }

  /** `quality_summary` of `process_audio_ml` */
  function MlQualitySummary(segments: seq<Candidate>): (s: QualitySummary)
    ensures s.totalSegments == |segments|
    ensures s.highQualitySegments <= s.totalSegments
    ensures segments == [] ==> s.averageQualityScore == 0.0
  {
    var scores := StoredScores(segments);
    QualitySummary(Average(scores), CountAtLeast(scores, HighQualityScore), |segments|)
  }

  /** The summary fields of `process_audio_advanced` */
  function AdvancedQualitySummary(segments: seq<Candidate>): (s: AdvancedSummary)
    ensures s.totalSegments == |segments|
    ensures s.qualitySegments <= s.totalSegments
    ensures segments == [] ==> s.averageQualityScore == 0.0
  {
    var flags := seq(|segments|, i requires 0 <= i < |segments| => segments[i].metrics.isAcceptable);
    AdvancedSummary(|segments|, CountTrue(flags), Average(StoredScores(segments)))
  }

  /** Scores produced by the assessment lie in [s, 1] for a floor s, so the average does too. */
  lemma SummaryAverageWithin(segments: seq<Candidate>, floor: real)
    requires segments != []
    requires forall i :: 0 <= i < |segments| ==> floor <= segments[i].metrics.qualityScore <= 1.0
    ensures floor <= MlQualitySummary(segments).averageQualityScore <= 1.0
    ensures floor <= AdvancedQualitySummary(segments).averageQualityScore <= 1.0
  {
    AverageWithin(StoredScores(segments), floor, 1.0);
  }

  /** When every score is high, every segment counts as high quality. */
  lemma {:induction false} AllHighCounted(xs: seq<real>)
    requires forall i :: 0 <= i < |xs| ==> xs[i] >= HighQualityScore
    ensures CountAtLeast(xs, HighQualityScore) == |xs|
  {
    if xs != [] {
      AllHighCounted(xs[1..]);
    }
  }
}
