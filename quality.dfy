/**
 * The quality assessor of `AudioProcessor`: five acoustic descriptors of one
 * segment are fused into a score, the score is compared with the acceptance
 * threshold, and a failed extraction yields a fixed worst-case record.
 * The descriptors themselves (RMS, spectral flatness, contrast, centroid,
 * zero-crossing rate) are computed by a signal library and are inputs here.
 */
module Quality {

  /** `self.min_quality_score` as set in the constructor. */
  const DefaultMinQualityScore: real := 0.05

  /** What the signal library reports about one segment. */
  datatype Descriptors = Descriptors(
    volume: real,            // RMS amplitude
    volumeDb: real,          // 20 * log10(volume + 1e-10)
    noiseRatio: real,        // mean spectral flatness
    snrEstimate: real,       // mean spectral contrast
    zeroCrossingRate: real,
    spectralCentroid: real)

  /** Descriptor extraction either succeeds or raises. */
  datatype Extraction = Extracted(descriptors: Descriptors) | ExtractionFailed

  datatype QualityMetrics = QualityMetrics(
    volume: real,
    volumeDb: real,
    noiseRatio: real,
    snrEstimate: real,
    zeroCrossingRate: real,
    spectralCentroid: real,
    qualityScore: real,
    isAcceptable: bool)

  /** The record returned when assessment raises. */
  const Sentinel: QualityMetrics := QualityMetrics(0.0, -60.0, 1.0, 0.0, 0.0, 0.0, 0.0, false)

  function Min(a: real, b: real): real { if a <= b then a else b }
  function Max(a: real, b: real): real { if a >= b then a else b }

  /** Volume part: linear up to RMS 0.1, then saturated at 0.3. */
  function VolumeScore(volume: real): (r: real)
    ensures r <= 0.3
    ensures volume >= 0.0 ==> r >= 0.0
    ensures volume >= 0.1 ==> r == 0.3
  {
    Min(1.0, volume / 0.1) * 0.3
  }

  /** Noise part: 0.3 for a tonal spectrum, falling linearly to 0 at flatness 1.25. */
  function NoiseScore(noiseRatio: real): (r: real)
    ensures 0.0 <= r
    ensures noiseRatio >= 0.0 ==> r <= 0.3
    ensures noiseRatio >= 1.25 ==> r == 0.0
    ensures noiseRatio <= 0.0 ==> r >= 0.3
  {
    Max(0.0, 1.0 - noiseRatio * 0.8) * 0.3
  }

  /** Signal-to-noise part: linear up to contrast 2.0, then saturated at 0.2. */
  function SnrScore(snrEstimate: real): (r: real)
    ensures r <= 0.2
    ensures snrEstimate >= 0.0 ==> r >= 0.0
    ensures snrEstimate >= 2.0 ==> r == 0.2
  {
    Min(1.0, snrEstimate / 2.0) * 0.2
  }

  /** Frequency part: a flat bonus for a centroid within [30 Hz, 15 kHz]. */
  function FrequencyScore(spectralCentroid: real): (r: real)
    ensures 0.0 <= r <= 0.1
  {
    if 30.0 <= spectralCentroid <= 15000.0 then 0.1 else 0.0
  }

  /** Zero-crossing part: 0.1 for no crossings, falling linearly to 0 at rate 0.5. */
  function ZeroCrossingScore(zcr: real): (r: real)
    ensures 0.0 <= r
    ensures zcr >= 0.0 ==> r <= 0.1
    ensures zcr >= 0.5 ==> r == 0.0
  {
    Max(0.0, 1.0 - zcr * 2.0) * 0.1
  }

  function RawScore(volume: real, noiseRatio: real, snrEstimate: real, zcr: real, spectralCentroid: real): real {
    VolumeScore(volume) + NoiseScore(noiseRatio) + SnrScore(snrEstimate)
      + FrequencyScore(spectralCentroid) + ZeroCrossingScore(zcr)
  }

  /** `_calculate_quality_score`: the sum of the five parts, capped at 1.0. */
  function QualityScore(volume: real, noiseRatio: real, snrEstimate: real, zcr: real, spectralCentroid: real): (r: real)
    ensures r <= 1.0
    ensures volume >= 0.0 && snrEstimate >= 0.0 ==> 0.0 <= r
  {
    Min(1.0, RawScore(volume, noiseRatio, snrEstimate, zcr, spectralCentroid))
  }

  /**
   * For the non-negative flatness and crossing rates the library produces, the
   * caps of the five parts add up to exactly 1.0, so the final `min(1.0, ...)`
   * never changes the sum.
   */
  lemma CapNeverBinds(volume: real, noiseRatio: real, snrEstimate: real, zcr: real, spectralCentroid: real)
    requires noiseRatio >= 0.0 && zcr >= 0.0
    ensures RawScore(volume, noiseRatio, snrEstimate, zcr, spectralCentroid) <= 1.0
    ensures QualityScore(volume, noiseRatio, snrEstimate, zcr, spectralCentroid)
         == RawScore(volume, noiseRatio, snrEstimate, zcr, spectralCentroid)
  {
  }

  /** A negative flatness lifts the noise part above 0.3, and then the cap does bind. */
  lemma CapBindsForNegativeFlatness()
    ensures RawScore(0.1, -1.0, 2.0, 0.0, 1000.0) > 1.0
    ensures QualityScore(0.1, -1.0, 2.0, 0.0, 1000.0) == 1.0
  {
  }

  /** The best score, 1.0, is reached by a loud, tonal, high-contrast segment without zero crossings. */
  lemma BestScoreReachable()
    ensures QualityScore(0.1, 0.0, 2.0, 0.0, 1000.0) == 1.0
  {
  }

  /** A negative contrast estimate can drive the score below zero: the lower bound needs `snrEstimate >= 0`. */
  lemma NegativeContrastGivesNegativeScore()
    ensures QualityScore(0.0, 2.0, -4.0, 1.0, 0.0) < 0.0
  {
  }

  lemma FrequencyScoreExact(spectralCentroid: real)
    ensures FrequencyScore(spectralCentroid) == 0.1 <==> 30.0 <= spectralCentroid <= 15000.0
    ensures FrequencyScore(spectralCentroid) != 0.1 ==> FrequencyScore(spectralCentroid) == 0.0
  {
  }

  lemma MonotoneInVolume(v1: real, v2: real, n: real, s: real, z: real, c: real)
    requires v1 <= v2
    ensures QualityScore(v1, n, s, z, c) <= QualityScore(v2, n, s, z, c)
  {
  }

  lemma MonotoneInContrast(v: real, n: real, s1: real, s2: real, z: real, c: real)
    requires s1 <= s2
    ensures QualityScore(v, n, s1, z, c) <= QualityScore(v, n, s2, z, c)
  {
  }

  lemma AntitoneInNoise(v: real, n1: real, n2: real, s: real, z: real, c: real)
    requires n1 <= n2
    ensures QualityScore(v, n2, s, z, c) <= QualityScore(v, n1, s, z, c)
  {
  }

  lemma AntitoneInZeroCrossings(v: real, n: real, s: real, z1: real, z2: real, c: real)
    requires z1 <= z2
    ensures QualityScore(v, n, s, z2, c) <= QualityScore(v, n, s, z1, c)
  {
  }

  /**
   * More spectral flatness strictly lowers the score while the noise part is
   * still above zero (flatness below 1.25): the cap never hides the change.
   */
  lemma NoiseStrictlyLowersScore(v: real, n1: real, n2: real, s: real, z: real, c: real)
    requires 0.0 <= n1 < n2 && n1 < 1.25 && z >= 0.0
    ensures QualityScore(v, n2, s, z, c) < QualityScore(v, n1, s, z, c)
  {
    CapNeverBinds(v, n1, s, z, c);
    CapNeverBinds(v, n2, s, z, c);
  }

  /**
   * `assess_segment_quality`: the descriptors and the fused score, accepted
   * when the score reaches `minQualityScore`; the sentinel when extraction raised.
   */
  function AssessSegmentQuality(e: Extraction, minQualityScore: real): (m: QualityMetrics)
    ensures e.ExtractionFailed? ==> m == Sentinel
    ensures e.Extracted? ==>
      var d := e.descriptors;
      && m.volume == d.volume && m.volumeDb == d.volumeDb && m.noiseRatio == d.noiseRatio
      && m.snrEstimate == d.snrEstimate && m.zeroCrossingRate == d.zeroCrossingRate
      && m.spectralCentroid == d.spectralCentroid
      && m.qualityScore == QualityScore(d.volume, d.noiseRatio, d.snrEstimate, d.zeroCrossingRate, d.spectralCentroid)
      && (m.isAcceptable <==> m.qualityScore >= minQualityScore)
    ensures m.qualityScore <= 1.0
  {
    match e
    case ExtractionFailed => Sentinel
    case Extracted(d) =>
      var score := QualityScore(d.volume, d.noiseRatio, d.snrEstimate, d.zeroCrossingRate, d.spectralCentroid);
      QualityMetrics(d.volume, d.volumeDb, d.noiseRatio, d.snrEstimate, d.zeroCrossingRate,
                     d.spectralCentroid, score, score >= minQualityScore)
  }

  /**
   * With a positive threshold (the default is 0.05) every assessed record,
   * the sentinel included, is accepted exactly when its score reaches the threshold,
   * and a failed extraction is always rejected.
   */
  lemma AcceptanceMatchesThreshold(e: Extraction, minQualityScore: real)
    requires minQualityScore > 0.0
    ensures AssessSegmentQuality(e, minQualityScore).isAcceptable
        <==> AssessSegmentQuality(e, minQualityScore).qualityScore >= minQualityScore
    ensures e.ExtractionFailed? ==> !AssessSegmentQuality(e, minQualityScore).isAcceptable
  {
  }

  /**
   * A failed extraction reads as a silent, noisy clip with score zero,
   * and it is rejected whatever the threshold.
   */
  lemma FailedAssessmentIsSilentAndRejected(e: Extraction, minQualityScore: real)
    requires e.ExtractionFailed?
    ensures var m := AssessSegmentQuality(e, minQualityScore);
      && m.volume == 0.0 && m.volumeDb == -60.0 && m.noiseRatio == 1.0 && m.snrEstimate == 0.0
      && m.zeroCrossingRate == 0.0 && m.spectralCentroid == 0.0 && m.qualityScore == 0.0 && !m.isAcceptable
  {
  }

  /** With a threshold of zero or below, the sentinel breaks the score/acceptance correspondence. */
  lemma SentinelInconsistentAtNonPositiveThreshold(minQualityScore: real)
    requires minQualityScore <= 0.0
    ensures Sentinel.qualityScore >= minQualityScore && !Sentinel.isAcceptable
  {
  }

}
