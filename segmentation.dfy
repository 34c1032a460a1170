/**
 * The segment locator of `AudioProcessor`: the energy-based run scan
 * (`_find_speech_segments_energy`) with the selection loop of
 * `segment_audio_by_silence`, and the timestamp-driven selection of
 * `segment_with_whisper` with its sentence-splitting fallback.
 *
 * Audio is never loaded here. The run scan receives the per-frame speech flags
 * (energy above 0.5 standard deviations); descriptor extraction for a slice of
 * samples is the parameter `extract`, whose result is fused by `Quality`.
 */
module Segmentation {
  import opened Wrappers
  import opened Text
  import opened Quality
  import opened SentenceGate

  /** `self.min_segment_length` and `self.max_segment_length`, in seconds. */
  const MinSegmentLength: real := 1.0
  const MaxSegmentLength: real := 30.0

  /** The rate `segment_audio_by_silence` resamples to. */
  const SilenceSampleRate: nat := 16000

  /** Descriptor extraction for the samples `[startSample, endSample)` of the clip. */
  type Extractor = (int, int) -> Extraction

  /** Python's `int(x)` on a float: truncation toward zero. */
  function Trunc(x: real): (k: int)
    ensures x >= 0.0 ==> 0 <= k && k as real <= x < k as real + 1.0
    ensures x < 0.0 ==> k <= 0 && k as real - 1.0 < x <= k as real
  {
    if x >= 0.0 then x.Floor else -((-x).Floor)
  }

  /** `int(t * sr)`: the sample at time `t` seconds. */
  function SampleIndex(t: real, sampleRate: nat): (k: int)
    ensures t >= 0.0 ==> 0 <= k && k as real <= t * sampleRate as real < k as real + 1.0
  {
    Trunc(t * sampleRate as real)
  }

  lemma TruncOfInteger(k: int)
    ensures Trunc(k as real) == k
  {
  }

  // ---------------------------------------------------------------------------
  // Gathering the kept items of an enumeration

  /** The present values of `opts`, in order: the list a loop builds by appending when an item is kept. */
  function Collect<T>(opts: seq<Option<T>>): (r: seq<T>)
    ensures |r| <= |opts|
  {
    if opts == [] then []
    else Collect(opts[..|opts| - 1]) + (if opts[|opts| - 1].Some? then [opts[|opts| - 1].value] else [])
  }

  /** Nothing present, nothing collected. */
  lemma {:induction false} CollectNone<T>(opts: seq<Option<T>>)
    requires forall i :: 0 <= i < |opts| ==> opts[i].None?
    ensures Collect(opts) == []
  {
    if opts != [] {
      CollectNone(opts[..|opts| - 1]);
    }
  }

  lemma CollectStep<T>(opts: seq<Option<T>>, i: nat)
    requires i < |opts|
    ensures Collect(opts[..i + 1]) == Collect(opts[..i]) + (if opts[i].Some? then [opts[i].value] else [])
  {
    assert opts[..i + 1][..i] == opts[..i];
  }

  /** Every collected value is present at some position. */
  lemma {:induction false} CollectSound<T>(opts: seq<Option<T>>)
    ensures forall x :: x in Collect(opts) ==> exists i :: 0 <= i < |opts| && opts[i] == Some(x)
  {
    if opts != [] {
      var init := opts[..|opts| - 1];
      CollectSound(init);
      forall x | x in Collect(opts)
        ensures exists i :: 0 <= i < |opts| && opts[i] == Some(x)
      {
        if x in Collect(init) {
          var i :| 0 <= i < |init| && init[i] == Some(x);
          assert opts[i] == Some(x);
        } else {
          assert opts[|opts| - 1] == Some(x);
        }
      }
    }
  }

  /** Every present value is collected. */
  lemma {:induction false} CollectComplete<T>(opts: seq<Option<T>>)
    ensures forall i :: 0 <= i < |opts| && opts[i].Some? ==> opts[i].value in Collect(opts)
  {
    if opts != [] {
      var init := opts[..|opts| - 1];
      CollectComplete(init);
      forall i | 0 <= i < |opts| && opts[i].Some?
        ensures opts[i].value in Collect(opts)
      {
        if i < |opts| - 1 {
          assert init[i] == opts[i];
        }
      }
    }
  }

  /** Positions recorded by the values of `xs` are within `[0, n)` and strictly increase. */
  ghost predicate PositionsIncreasing<T>(xs: seq<T>, position: T -> int, n: int) {
    && (forall a :: 0 <= a < |xs| ==> 0 <= position(xs[a]) < n)
    && (forall a, b :: 0 <= a < b < |xs| ==> position(xs[a]) < position(xs[b]))
  }

  /** If each present value at position `i` records `i`, the collected values record increasing positions. */
  lemma {:induction false} CollectIncreasing<T>(opts: seq<Option<T>>, position: T -> int)
    requires forall i :: 0 <= i < |opts| && opts[i].Some? ==> position(opts[i].value) == i
    ensures PositionsIncreasing(Collect(opts), position, |opts|)
  {
    if opts != [] {
      var init := opts[..|opts| - 1];
      assert forall i :: 0 <= i < |init| && init[i].Some? ==> position(init[i].value) == i by {
        forall i | 0 <= i < |init| ensures init[i] == opts[i] { }
      }
      CollectIncreasing(init, position);
      var c := Collect(init);
      var last := opts[|opts| - 1];
      if last.Some? {
        AppendIncreasing(c, last.value, position, |opts|);
      }
    }
  }

  lemma AppendIncreasing<T>(c: seq<T>, x: T, position: T -> int, n: int)
    requires n >= 1 && PositionsIncreasing(c, position, n - 1) && position(x) == n - 1
    ensures PositionsIncreasing(c + [x], position, n)
  {
    var r := c + [x];
    forall a | 0 <= a < |r|
      ensures 0 <= position(r[a]) < n
    {
      if a < |c| {
        assert r[a] == c[a];
      }
    }
    forall a, b | 0 <= a < b < |r|
      ensures position(r[a]) < position(r[b])
    {
      assert r[a] == c[a];
      if b < |c| {
        assert r[b] == c[b];
      }
    }
  }

  // ---------------------------------------------------------------------------
  // The run scan of `_find_speech_segments_energy`

  datatype Span = Span(start: real, end: real)

  /** The frame grid: hop length in samples, sample rate, clip length in samples, shortest run kept. */
  datatype ScanParams = ScanParams(hopLength: nat, sampleRate: nat, sampleCount: nat, minSegmentLength: real)

  /** Start time of frame `i`: `i * hop_length / sr`. */
  function FrameTime(i: nat, p: ScanParams): real
    requires p.sampleRate > 0
  {
    (i * p.hopLength) as real / p.sampleRate as real
  }

  /** `len(audio) / sr` */
  function ClipEnd(p: ScanParams): real
    requires p.sampleRate > 0
  {
    p.sampleCount as real / p.sampleRate as real
  }

  lemma FrameTimeMonotone(a: nat, b: nat, p: ScanParams)
    requires p.sampleRate > 0 && a <= b
    ensures FrameTime(a, p) <= FrameTime(b, p)
    ensures p.hopLength > 0 && a < b ==> FrameTime(a, p) < FrameTime(b, p)
  {
    assert a * p.hopLength <= b * p.hopLength by {
      assert b * p.hopLength - a * p.hopLength == (b - a) * p.hopLength;
    }
    if p.hopLength > 0 && a < b {
      assert a * p.hopLength < b * p.hopLength by {
        assert b * p.hopLength - a * p.hopLength == (b - a) * p.hopLength;
      }
    }
  }

  /** The first non-speech frame at or after `i`, or the number of frames. */
  function RunEnd(f: seq<bool>, i: nat): (j: nat)
    requires i <= |f|
    ensures i <= j <= |f|
    ensures forall k :: i <= k < j ==> f[k]
    ensures j < |f| ==> !f[j]
    decreases |f| - i
  {
    if i == |f| || !f[i] then i else RunEnd(f, i + 1)
  }

  lemma {:induction false} RunEndInside(f: seq<bool>, s: nat, i: nat)
    requires s <= i <= |f|
    requires forall k :: s <= k < i ==> f[k]
    ensures RunEnd(f, s) == RunEnd(f, i)
    decreases i - s
  {
    if s < i {
      RunEndInside(f, s + 1, i);
    }
  }

  predicate IsRisingEdge(f: seq<bool>, i: nat) {
    i < |f| && f[i] && (i == 0 || !f[i - 1])
  }

  /** The run starting at frame `i`: it ends at the next non-speech frame, or at the end of the clip. */
  function RunAt(f: seq<bool>, i: nat, p: ScanParams): Span
    requires i < |f| && p.sampleRate > 0
  {
    var j := RunEnd(f, i);
    Span(FrameTime(i, p), if j < |f| then FrameTime(j, p) else ClipEnd(p))
  }

  predicate LongEnough(r: Span, p: ScanParams) {
    r.end - r.start >= p.minSegmentLength
  }

  /** Frame `k` does not lie strictly inside a run of speech frames. */
  predicate NotInsideRun(f: seq<bool>, k: nat) {
    k < |f| && f[k] ==> k == 0 || !f[k - 1]
  }

  /** The runs that start at or after frame `k` and are long enough, in order. */
  function RunsFrom(f: seq<bool>, k: nat, p: ScanParams): seq<Span>
    requires k <= |f| && p.sampleRate > 0
    decreases |f| - k
  {
    if k == |f| then []
    else if !f[k] then RunsFrom(f, k + 1, p)
    else
      var r := RunAt(f, k, p);
      (if LongEnough(r, p) then [r] else []) + RunsFrom(f, RunEnd(f, k), p)
  }

  /** Every maximal run of speech frames that lasts at least the minimum segment length. */
  function SpeechRuns(f: seq<bool>, p: ScanParams): (runs: seq<Span>)
    requires p.sampleRate > 0
    ensures Chained(runs)
  {
    RunsFromOrdered(f, 0, p);
    RunsFrom(f, 0, p)
  }

  /**
   * The scan of `_find_speech_segments_energy`: a two-state machine over the
   * frame flags that opens a run on a rising edge, closes it on the next
   * non-speech frame and closes a run still open at the end of the clip.
   */
  method FindSpeechSegments(speechFrames: seq<bool>, p: ScanParams) returns (segments: seq<Span>)
    requires p.sampleRate > 0
    ensures segments == SpeechRuns(speechFrames, p)
  {
    segments := [];
    var isSpeech := false;
    var speechStart: real := 0.0;
    ghost var startFrame: nat := 0;
    for i := 0 to |speechFrames|
      invariant !isSpeech ==> segments + RunsFrom(speechFrames, i, p) == SpeechRuns(speechFrames, p)
      invariant isSpeech ==>
        && startFrame < i
        && speechFrames[startFrame]
        && (forall k :: startFrame <= k < i ==> speechFrames[k])
        && speechStart == FrameTime(startFrame, p)
        && segments + RunsFrom(speechFrames, startFrame, p) == SpeechRuns(speechFrames, p)
    {
      var time := (i * p.hopLength) as real / p.sampleRate as real;
      if speechFrames[i] && !isSpeech {
        speechStart := time;
        isSpeech := true;
        startFrame := i;
      } else if !speechFrames[i] && isSpeech {
        var speechEnd := time;
        RunEndInside(speechFrames, startFrame, i);
        if speechEnd - speechStart >= p.minSegmentLength {
          segments := segments + [Span(speechStart, speechEnd)];
        }
        isSpeech := false;
      }
    }
    if isSpeech {
      var speechEnd := p.sampleCount as real / p.sampleRate as real;
      RunEndInside(speechFrames, startFrame, |speechFrames|);
      if speechEnd - speechStart >= p.minSegmentLength {
        segments := segments + [Span(speechStart, speechEnd)];
      }
    }
  }

  /** Soundness of the run list: each emitted span is the whole run from a rising edge, and long enough. */
  lemma {:induction false} RunsFromSound(f: seq<bool>, k: nat, p: ScanParams)
    requires k <= |f| && p.sampleRate > 0 && NotInsideRun(f, k)
    ensures forall r :: r in RunsFrom(f, k, p) ==>
      LongEnough(r, p) && exists i :: k <= i < |f| && IsRisingEdge(f, i) && r == RunAt(f, i, p)
    decreases |f| - k
  {
    if k < |f| {
      if !f[k] {
        RunsFromSound(f, k + 1, p);
      } else {
        var j := RunEnd(f, k);
        RunsFromSound(f, j, p);
        assert IsRisingEdge(f, k);
      }
    }
  }

  /** Completeness of the run list: every run from a rising edge that is long enough is emitted. */
  lemma {:induction false} RunsFromComplete(f: seq<bool>, k: nat, i: nat, p: ScanParams)
    requires k <= i < |f| && p.sampleRate > 0 && NotInsideRun(f, k)
    requires IsRisingEdge(f, i) && LongEnough(RunAt(f, i, p), p)
    ensures RunAt(f, i, p) in RunsFrom(f, k, p)
    decreases |f| - k
  {
    if !f[k] {
      RunsFromComplete(f, k + 1, i, p);
    } else if i != k {
      var j := RunEnd(f, k);
      assert j < i;
      RunsFromComplete(f, j, i, p);
    }
  }

  /** Each span ends no later than the next one starts. */
  predicate Chained(rs: seq<Span>) {
    forall a :: 0 <= a < |rs| - 1 ==> rs[a].end <= rs[a + 1].start
  }

  /** The start times strictly increase. */
  predicate StartsAdvance(rs: seq<Span>) {
    forall a :: 0 <= a < |rs| - 1 ==> rs[a].start < rs[a + 1].start
  }

  predicate StartNotBefore(rs: seq<Span>, t: real) {
    forall r :: r in rs ==> t <= r.start
  }

  lemma PrependSpan(r: Span, rest: seq<Span>)
    requires Chained(rest) && (rest != [] ==> r.end <= rest[0].start)
    ensures Chained([r] + rest)
    ensures StartsAdvance(rest) && (rest != [] ==> r.start < rest[0].start) ==> StartsAdvance([r] + rest)
  {
    var rs := [r] + rest;
    assert forall a :: 1 <= a < |rs| ==> rs[a] == rest[a - 1];
  }

  /** The runs follow one another in time: each ends no later than the next one starts, and starts advance. */
  lemma {:induction false} RunsFromOrdered(f: seq<bool>, k: nat, p: ScanParams)
    requires k <= |f| && p.sampleRate > 0
    ensures StartNotBefore(RunsFrom(f, k, p), FrameTime(k, p))
    ensures Chained(RunsFrom(f, k, p))
    ensures p.hopLength > 0 ==> StartsAdvance(RunsFrom(f, k, p))
    decreases |f| - k
  {
    if k < |f| {
      if !f[k] {
        RunsFromOrdered(f, k + 1, p);
        FrameTimeMonotone(k, k + 1, p);
        assert RunsFrom(f, k, p) == RunsFrom(f, k + 1, p);
      } else {
        var j := RunEnd(f, k);
        RunsFromOrdered(f, j, p);
        FrameTimeMonotone(k, j, p);
        var rest := RunsFrom(f, j, p);
        var r := RunAt(f, k, p);
        if rest != [] {
          assert rest[0] in rest;
          assert j < |f|;
        }
        if LongEnough(r, p) {
          assert RunsFrom(f, k, p) == [r] + rest;
          PrependSpan(r, rest);
        } else {
          assert RunsFrom(f, k, p) == rest;
        }
      }
    }
  }

  /** What the scan emits, stated on its own terms. */
  lemma SpeechRunsProperties(f: seq<bool>, p: ScanParams)
    requires p.sampleRate > 0
    ensures forall r :: r in SpeechRuns(f, p) ==> r.end - r.start >= p.minSegmentLength
    ensures forall r :: r in SpeechRuns(f, p) ==> exists i :: IsRisingEdge(f, i) && r == RunAt(f, i, p)
    ensures forall i :: IsRisingEdge(f, i) && LongEnough(RunAt(f, i, p), p) ==> RunAt(f, i, p) in SpeechRuns(f, p)
    ensures Chained(SpeechRuns(f, p))
  {
    RunsFromSound(f, 0, p);
    RunsFromOrdered(f, 0, p);
    forall i | IsRisingEdge(f, i) && LongEnough(RunAt(f, i, p), p)
      ensures RunAt(f, i, p) in SpeechRuns(f, p)
    {
      RunsFromComplete(f, 0, i, p);
    }
  }

  // ---------------------------------------------------------------------------
  // `segment_audio_by_silence`: duration window and acceptance, no transcript

  datatype AcousticSegment = AcousticSegment(index: nat, startTime: real, endTime: real, duration: real, metrics: QualityMetrics)

  /** The assessment of the audio between a span's sample bounds at 16 kHz. */
  function SpanMetrics(s: Span, extract: Extractor, minQualityScore: real): (m: QualityMetrics)
    ensures var e := extract(SampleIndex(s.start, SilenceSampleRate), SampleIndex(s.end, SilenceSampleRate));
      (e.ExtractionFailed? ==> m == Sentinel) && (e.Extracted? ==> (m.isAcceptable <==> m.qualityScore >= minQualityScore))
  {
    AssessSegmentQuality(extract(SampleIndex(s.start, SilenceSampleRate), SampleIndex(s.end, SilenceSampleRate)), minQualityScore)
  }

  /** A span is kept when it lasts between 1 and 30 seconds and its audio is acceptable. */
  predicate SilenceAdmissible(s: Span, extract: Extractor, minQualityScore: real) {
    MinSegmentLength <= s.end - s.start <= MaxSegmentLength && SpanMetrics(s, extract, minQualityScore).isAcceptable
  }

  function AcousticSegmentAt(spans: seq<Span>, i: nat, extract: Extractor, minQualityScore: real): (r: Option<AcousticSegment>)
    requires i < |spans|
    ensures r.Some? <==> SilenceAdmissible(spans[i], extract, minQualityScore)
    ensures r.Some? ==> r.value.index == i
  {
    var s := spans[i];
    var duration := s.end - s.start;
    if MinSegmentLength <= duration <= MaxSegmentLength then
      var startSample := SampleIndex(s.start, SilenceSampleRate);
      var endSample := SampleIndex(s.end, SilenceSampleRate);
      var metrics := AssessSegmentQuality(extract(startSample, endSample), minQualityScore);
      if metrics.isAcceptable then Some(AcousticSegment(i, s.start, s.end, duration, metrics)) else None
    else None
  }

  function SilenceSelection(spans: seq<Span>, extract: Extractor, minQualityScore: real): (segments: seq<AcousticSegment>)
    ensures |segments| <= |spans|
  {
    Collect(seq(|spans|, i requires 0 <= i < |spans| => AcousticSegmentAt(spans, i, extract, minQualityScore)))
  }

  /** `int(0.010 * sr)`: the 10 ms hop between energy frames, 160 samples at 16 kHz. */
  const SilenceHopLength: nat := 160

  lemma SilenceHopIsTenMilliseconds()
    ensures Trunc(0.010 * SilenceSampleRate as real) == SilenceHopLength
  {
    assert 0.010 * SilenceSampleRate as real == 160 as real;
    TruncOfInteger(160);
  }

  /** `segment_audio_by_silence` from the speech flags of the clip resampled to 16 kHz. */
  method SegmentAudioBySilence(speechFrames: seq<bool>, sampleCount: nat, extract: Extractor, minQualityScore: real)
    returns (segments: seq<AcousticSegment>)
    ensures segments == SilenceSelection(SpeechRuns(speechFrames,
              ScanParams(SilenceHopLength, SilenceSampleRate, sampleCount, MinSegmentLength)), extract, minQualityScore)
  {
    var spans := FindSpeechSegments(speechFrames, ScanParams(SilenceHopLength, SilenceSampleRate, sampleCount, MinSegmentLength));
    ghost var opts := seq(|spans|, i requires 0 <= i < |spans| => AcousticSegmentAt(spans, i, extract, minQualityScore));
    segments := [];
    for i := 0 to |spans|
      invariant segments == Collect(opts[..i])
    {
      var start, end := spans[i].start, spans[i].end;
      var duration := end - start;
      CollectStep(opts, i);
      if MinSegmentLength <= duration <= MaxSegmentLength {
        var startSample := SampleIndex(start, 16000);
        var endSample := SampleIndex(end, 16000);
        var metrics := AssessSegmentQuality(extract(startSample, endSample), minQualityScore);
        if metrics.isAcceptable {
          segments := segments + [AcousticSegment(i, start, end, duration, metrics)];
        }
      }
    }
    assert opts[..|spans|] == opts;
  }

  /**
   * A span is kept exactly when it is admissible; a kept segment carries the
   * span's position, its timing, its duration and the assessment of its audio;
   * positions increase.
   */
  lemma SilenceSelectionProperties(spans: seq<Span>, extract: Extractor, minQualityScore: real)
    ensures var out := SilenceSelection(spans, extract, minQualityScore);
      forall c :: c in out ==>
        && c.index < |spans|
        && SilenceAdmissible(spans[c.index], extract, minQualityScore)
        && c.startTime == spans[c.index].start && c.endTime == spans[c.index].end
        && c.duration == c.endTime - c.startTime
        && MinSegmentLength <= c.duration <= MaxSegmentLength
        && c.metrics == SpanMetrics(spans[c.index], extract, minQualityScore)
        && c.metrics.isAcceptable
    ensures var out := SilenceSelection(spans, extract, minQualityScore);
      forall i :: 0 <= i < |spans| && SilenceAdmissible(spans[i], extract, minQualityScore) ==>
        exists c: AcousticSegment :: c in out && c.index == i
    ensures var out := SilenceSelection(spans, extract, minQualityScore);
      forall a, b :: 0 <= a < b < |out| ==> out[a].index < out[b].index
  {
    var opts := seq(|spans|, i requires 0 <= i < |spans| => AcousticSegmentAt(spans, i, extract, minQualityScore));
    CollectSound(opts);
    CollectComplete(opts);
    CollectIncreasing(opts, (c: AcousticSegment) => c.index as int);
    forall i | 0 <= i < |spans| && SilenceAdmissible(spans[i], extract, minQualityScore)
      ensures exists c: AcousticSegment :: c in Collect(opts) && c.index == i
    {
      assert opts[i].Some?;
      assert opts[i].value in Collect(opts);
    }
  }

  // ---------------------------------------------------------------------------
  // `segment_with_whisper`: transcript utterances with timestamps

  /** A transcript utterance; `start` or `end` is `None` when the key is absent. */
  datatype Utterance = Utterance(start: Option<real>, end: Option<real>, text: string)

  /** A candidate segment: position in the utterance list, timing, stripped transcript and quality. */
  datatype Candidate = Candidate(index: nat, startTime: real, endTime: real, duration: real,
                                 transcript: string, metrics: QualityMetrics)

  /** `segment.get('start', 0.0)` */
  function UtteranceStart(u: Utterance): (t: real)
    ensures u.start.Some? ==> t == u.start.value
    ensures u.start.None? ==> t == 0.0
  {
    u.start.GetOr(0.0)
  }

  /** `segment.get('end', start_time + 10.0)` */
  function UtteranceEnd(u: Utterance): (t: real)
    ensures u.end.Some? ==> t == u.end.value
    ensures u.end.None? ==> t == UtteranceStart(u) + 10.0
  {
    u.end.GetOr(UtteranceStart(u) + 10.0)
  }

  /**
   * An entry of the utterance list (`None` when it is not a dictionary with
   * `text`) is kept when it lasts between 1 and 30 seconds and both sample
   * bounds fall within the clip.
   */
  predicate WhisperAdmissible(item: Option<Utterance>, sampleCount: nat, sampleRate: nat) {
    item.Some? &&
    var start := UtteranceStart(item.value);
    var end := UtteranceEnd(item.value);
    1.0 <= end - start <= 30.0
    && SampleIndex(start, sampleRate) < sampleCount
    && SampleIndex(end, sampleRate) <= sampleCount
  }

  function WhisperCandidateAt(items: seq<Option<Utterance>>, i: nat, sampleCount: nat, sampleRate: nat,
                              extract: Extractor, minQualityScore: real): (r: Option<Candidate>)
    requires i < |items|
    ensures r.Some? <==> WhisperAdmissible(items[i], sampleCount, sampleRate)
    ensures r.Some? ==> r.value.index == i
    ensures r.Some? ==>
      && r.value.startTime == UtteranceStart(items[i].value)
      && r.value.endTime == UtteranceEnd(items[i].value)
      && r.value.metrics == AssessSegmentQuality(
           extract(SampleIndex(r.value.startTime, sampleRate), SampleIndex(r.value.endTime, sampleRate)), minQualityScore)
  {
    if WhisperAdmissible(items[i], sampleCount, sampleRate) then
      var u := items[i].value;
      var start := UtteranceStart(u);
      var end := UtteranceEnd(u);
      var metrics := AssessSegmentQuality(
        extract(SampleIndex(start, sampleRate), SampleIndex(end, sampleRate)), minQualityScore);
      Some(Candidate(i, start, end, end - start, Strip(u.text), metrics))
    else None
  }

  function WhisperSelection(items: seq<Option<Utterance>>, sampleCount: nat, sampleRate: nat,
                            extract: Extractor, minQualityScore: real): (candidates: seq<Candidate>)
    ensures |candidates| <= |items|
  {
    Collect(seq(|items|, i requires 0 <= i < |items| =>
      WhisperCandidateAt(items, i, sampleCount, sampleRate, extract, minQualityScore)))
  }

  /** The loop over the utterances in `segment_with_whisper`. */
  method SelectWhisperSegments(items: seq<Option<Utterance>>, sampleCount: nat, sampleRate: nat,
                               extract: Extractor, minQualityScore: real)
    returns (segments: seq<Candidate>)
    ensures segments == WhisperSelection(items, sampleCount, sampleRate, extract, minQualityScore)
  {
    ghost var opts := seq(|items|, i requires 0 <= i < |items| =>
      WhisperCandidateAt(items, i, sampleCount, sampleRate, extract, minQualityScore));
    segments := [];
    for i := 0 to |items|
      invariant segments == Collect(opts[..i])
    {
      CollectStep(opts, i);
      assert opts[i] == WhisperCandidateAt(items, i, sampleCount, sampleRate, extract, minQualityScore);
      if items[i].Some? {
        var u := items[i].value;
        var startTime := u.start.GetOr(0.0);
        var endTime := u.end.GetOr(startTime + 10.0);
        var duration := endTime - startTime;
        if duration >= 1.0 && duration <= 30.0 {
          var startSample := SampleIndex(startTime, sampleRate);
          var endSample := SampleIndex(endTime, sampleRate);
          if startSample < sampleCount && endSample <= sampleCount {
            var metrics := AssessSegmentQuality(extract(startSample, endSample), minQualityScore);
            segments := segments + [Candidate(i, startTime, endTime, duration, Strip(u.text), metrics)];
          } else {
            assert !WhisperAdmissible(items[i], sampleCount, sampleRate);
          }
        } else {
          assert !WhisperAdmissible(items[i], sampleCount, sampleRate);
        }
      }
    }
    assert opts[..|items|] == opts;
  }

  /**
   * The fallback of `segment_with_whisper`: split the plain transcript into
   * sentences, give each an equal share of the clip, and keep the complete
   * ones. The splitter has removed every terminator, so no sentence is complete
   * and nothing is ever kept.
   */
  method SentenceFallback(text: string, sampleCount: nat, sampleRate: nat,
                          extract: Extractor, minQualityScore: real)
    returns (segments: seq<Candidate>)
    requires sampleRate > 0
    ensures segments == []
  {
    var sentences := SplitIntoSentences(text);
    SplitSentencesNeverComplete(text);
    var totalDuration := sampleCount as real / sampleRate as real;
    var timePerSentence := totalDuration / (if |sentences| > 1 then |sentences| else 1) as real;
    segments := [];
    var i: nat := 0;
    while i < |sentences|
      invariant segments == []
    {
      var sentence := sentences[i];
      if IsCompleteSentence(sentence) {
        var startTime := i as real * timePerSentence;
        var endTime := (i + 1) as real * timePerSentence;
        var startSample := SampleIndex(startTime, sampleRate);
        var endSample := SampleIndex(endTime, sampleRate);
        if startSample < sampleCount && endSample <= sampleCount {
          var metrics := AssessSegmentQuality(extract(startSample, endSample), minQualityScore);
          segments := segments + [Candidate(i, startTime, endTime, timePerSentence, Strip(sentence), metrics)];
        }
      }
      i := i + 1;
    }
  }

  /** What `segment_with_whisper` ends in: the segments it returns, or the exception it raises. */
  datatype WhisperOutcome = Segmented(segments: seq<Candidate>) | Raised

  /**
   * `segment_with_whisper` as written. When the utterance loop keeps nothing,
   * the fallback reads `transcribe(...)['text']`; `plainText` is that entry,
   * `None` when the value `transcribe` returns is not a mapping holding `text`,
   * and then the lookup raises and the call fails.
   */
  method SegmentWithWhisper(items: seq<Option<Utterance>>, plainText: Option<string>, sampleCount: nat, sampleRate: nat,
                            extract: Extractor, minQualityScore: real)
    returns (r: WhisperOutcome)
    requires sampleRate > 0
    ensures r == WhisperResult(items, plainText, sampleCount, sampleRate, extract, minQualityScore)
  {
    var segments := SelectWhisperSegments(items, sampleCount, sampleRate, extract, minQualityScore);
    if segments == [] {
      if plainText.None? {
        return Raised;
      }
      segments := SentenceFallback(plainText.value, sampleCount, sampleRate, extract, minQualityScore);
    }
    r := Segmented(segments);
  }

  /**
   * The outcome of `segment_with_whisper`: the utterance selection when it kept
   * something; otherwise the fallback, which keeps nothing, or fails when the
   * plain transcription has no `text` entry.
   */
  function WhisperResult(items: seq<Option<Utterance>>, plainText: Option<string>, sampleCount: nat, sampleRate: nat,
                         extract: Extractor, minQualityScore: real): (r: WhisperOutcome)
    ensures WhisperSelection(items, sampleCount, sampleRate, extract, minQualityScore) != [] ==>
      r == Segmented(WhisperSelection(items, sampleCount, sampleRate, extract, minQualityScore))
    ensures WhisperSelection(items, sampleCount, sampleRate, extract, minQualityScore) == [] ==>
      (r.Raised? <==> plainText.None?) && (r.Segmented? ==> r.segments == [])
  {
    var selection := WhisperSelection(items, sampleCount, sampleRate, extract, minQualityScore);
    if selection != [] then Segmented(selection)
    else if plainText.None? then Raised
    else Segmented([])
  }

  /**
   * The repository's recogniser returns the transcript itself, a string, from
   * `transcribe`, so the fallback's `['text']` lookup fails: whenever no
   * utterance is admissible the whole call raises instead of returning no segments.
   */
  lemma {:induction false} NoAdmissibleUtteranceRaises(items: seq<Option<Utterance>>, sampleCount: nat, sampleRate: nat,
                                                      extract: Extractor, minQualityScore: real)
    requires forall i :: 0 <= i < |items| ==> !WhisperAdmissible(items[i], sampleCount, sampleRate)
    ensures WhisperResult(items, None, sampleCount, sampleRate, extract, minQualityScore) == Raised
  {
    var opts := seq(|items|, i requires 0 <= i < |items| =>
      WhisperCandidateAt(items, i, sampleCount, sampleRate, extract, minQualityScore));
    CollectNone(opts);
  }

  /** A clip whose only utterance lasts half a second makes the call raise. */
  lemma HalfSecondClipRaises(text: string, sampleCount: nat, sampleRate: nat, extract: Extractor, minQualityScore: real)
    ensures WhisperResult([Some(Utterance(Some(2.0), Some(2.5), text))], None, sampleCount, sampleRate,
                          extract, minQualityScore) == Raised
  {
    HalfSecondUtteranceDropped(text, sampleCount, sampleRate);
    NoAdmissibleUtteranceRaises([Some(Utterance(Some(2.0), Some(2.5), text))], sampleCount, sampleRate,
                                extract, minQualityScore);
  }

  /**
   * `segment_with_whisper` with the fallback reading the transcript string that
   * `transcribe` returns: it never fails, and returns the utterance selection.
   */
  method SegmentWithWhisperCorrected(items: seq<Option<Utterance>>, plainText: string, sampleCount: nat, sampleRate: nat,
                                     extract: Extractor, minQualityScore: real)
    returns (segments: seq<Candidate>)
    requires sampleRate > 0
    ensures WhisperResult(items, Some(plainText), sampleCount, sampleRate, extract, minQualityScore) == Segmented(segments)
    ensures segments == WhisperSelection(items, sampleCount, sampleRate, extract, minQualityScore)
  {
    segments := SelectWhisperSegments(items, sampleCount, sampleRate, extract, minQualityScore);
    if segments == [] {
      segments := SentenceFallback(plainText, sampleCount, sampleRate, extract, minQualityScore);
    }
  }

  /** With the transcript read correctly, the call fails on no input. */
  lemma CorrectedNeverRaises(items: seq<Option<Utterance>>, plainText: string, sampleCount: nat, sampleRate: nat,
                             extract: Extractor, minQualityScore: real)
    ensures WhisperResult(items, Some(plainText), sampleCount, sampleRate, extract, minQualityScore).Segmented?
    ensures WhisperResult(items, Some(plainText), sampleCount, sampleRate, extract, minQualityScore).segments
         == WhisperSelection(items, sampleCount, sampleRate, extract, minQualityScore)
  {
  }

  /**
   * An entry is kept exactly when it is admissible; a kept candidate carries its
   * position (so positions may skip), its timing, its stripped text, and the
   * assessment of the samples between its start and end; positions increase.
   */
  lemma WhisperSelectionExactly(items: seq<Option<Utterance>>, sampleCount: nat, sampleRate: nat,
                                extract: Extractor, minQualityScore: real)
    ensures var out := WhisperSelection(items, sampleCount, sampleRate, extract, minQualityScore);
      forall c :: c in out ==>
        && c.index < |items|
        && WhisperAdmissible(items[c.index], sampleCount, sampleRate)
        && c.startTime == UtteranceStart(items[c.index].value)
        && c.endTime == UtteranceEnd(items[c.index].value)
        && c.duration == c.endTime - c.startTime
        && 1.0 <= c.duration <= 30.0
        && c.transcript == Strip(items[c.index].value.text)
        && c.metrics == AssessSegmentQuality(
             extract(SampleIndex(c.startTime, sampleRate), SampleIndex(c.endTime, sampleRate)), minQualityScore)
    ensures var out := WhisperSelection(items, sampleCount, sampleRate, extract, minQualityScore);
      forall i :: 0 <= i < |items| && WhisperAdmissible(items[i], sampleCount, sampleRate) ==>
        exists c: Candidate :: c in out && c.index == i
    ensures var out := WhisperSelection(items, sampleCount, sampleRate, extract, minQualityScore);
      forall a, b :: 0 <= a < b < |out| ==> out[a].index < out[b].index
  {
    var opts := seq(|items|, i requires 0 <= i < |items| =>
      WhisperCandidateAt(items, i, sampleCount, sampleRate, extract, minQualityScore));
    CollectSound(opts);
    CollectComplete(opts);
    CollectIncreasing(opts, (c: Candidate) => c.index as int);
    forall i | 0 <= i < |items| && WhisperAdmissible(items[i], sampleCount, sampleRate)
      ensures exists c: Candidate :: c in Collect(opts) && c.index == i
    {
      assert opts[i].Some?;
      assert opts[i].value in Collect(opts);
    }
  }

  /** A half-second utterance is dropped, however good its text. */
  lemma HalfSecondUtteranceDropped(text: string, sampleCount: nat, sampleRate: nat)
    ensures !WhisperAdmissible(Some(Utterance(Some(2.0), Some(2.5), text)), sampleCount, sampleRate)
  {
  }

  /** An utterance running past the end of the clip is dropped, not clamped. */
  lemma UtterancePastEndDropped(text: string)
    ensures !WhisperAdmissible(Some(Utterance(Some(0.5), Some(2.0), text)), 16000, 16000)
  {
    assert 2.0 * 16000 as real == 32000 as real;
    TruncOfInteger(32000);
  }

  /** Without timestamps an utterance spans ten seconds from time zero. */
  lemma DefaultTimingAdmitted(text: string)
    ensures WhisperAdmissible(Some(Utterance(None, None, text)), 160000, 16000)
  {
    assert 10.0 * 16000 as real == 160000 as real;
    TruncOfInteger(160000);
    TruncOfInteger(0);
  }
}
