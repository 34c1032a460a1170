/**
 * `create_ml_ready_segments`: the candidate pool is sorted by quality score,
 * highest first and ties in pool order, filtered at the quality threshold, and
 * refiltered at the 25th percentile of all scores when the threshold leaves
 * fewer than `min_segments`; the first `min_segments` are returned.
 */
module CorpusSelector {
  import opened Sorting
  import opened Quality
  import opened Segmentation

  function Score(c: Candidate): real {
    c.metrics.qualityScore
  }

  /** The sort key of `sort(key=quality_score, reverse=True)`. */
  function ScoreKey(c: Candidate): Key {
    Key(Score(c), 0.0)
  }

  /** `[seg for seg in cs if quality_score >= t]` */
  function AtLeast(cs: seq<Candidate>, t: real): (r: seq<Candidate>)
    ensures |r| <= |cs|
  {
    if cs == [] then []
    else (if Score(cs[0]) >= t then [cs[0]] else []) + AtLeast(cs[1..], t)
  }

  /** The filter keeps exactly the candidates that reach the threshold. */
  lemma {:induction false} AtLeastMembers(cs: seq<Candidate>, t: real)
    ensures forall c :: c in AtLeast(cs, t) <==> c in cs && Score(c) >= t
  {
    if cs != [] {
      AtLeastMembers(cs[1..], t);
      assert cs == [cs[0]] + cs[1..];
    }
  }

  /** Python's `s[:k]`, where a negative `k` counts from the end. */
  function PyPrefix<T>(s: seq<T>, k: int): (r: seq<T>)
    ensures r <= s
    ensures |r| == if k >= |s| then |s| else if k >= 0 then k else if |s| + k > 0 then |s| + k else 0
  {
    if k >= |s| then s
    else if k >= 0 then s[..k]
    else if |s| + k > 0 then s[..|s| + k]
    else []
  }

  // ---------------------------------------------------------------------------
  // `np.percentile` with the default linear interpolation

  function RealKey(x: real): Key {
    Key(x, 0.0)
  }

  /** The `k`-th smallest value (from 0): the sorted order is descending, so it sits `k` places from the end. */
  function OrderStatistic(xs: seq<real>, k: nat): real
    requires k < |xs|
  {
    SortDesc(xs, RealKey)[|xs| - 1 - k]
  }

  /** Position of the `q`-th percentile among the order statistics, `(n - 1) * q / 100`. */
  function VirtualIndex(n: nat, q: real): (h: real)
    requires n > 0 && 0.0 <= q <= 100.0
    ensures 0.0 <= h <= (n - 1) as real
  {
    assert (n - 1) as real * q <= (n - 1) as real * 100.0;
    (n - 1) as real * q / 100.0
  }

  function Lerp(a: real, b: real, t: real): real {
    a + t * (b - a)
  }

  /** `q`-th percentile, linear method: interpolate between the order statistics around the virtual index. */
  function Percentile(xs: seq<real>, q: real): (p: real)
    requires |xs| > 0 && 0.0 <= q <= 100.0
    ensures |xs| == 1 ==> p == xs[0]
  {
    var n := |xs|;
    var h := VirtualIndex(n, q);
    var lo := h.Floor;
    var hi := if lo + 1 < n then lo + 1 else n - 1;
    Lerp(OrderStatistic(xs, lo), OrderStatistic(xs, hi), h - lo as real)
  }

  lemma OrderStatisticMonotone(xs: seq<real>, a: nat, b: nat)
    requires a <= b < |xs|
    ensures OrderStatistic(xs, a) <= OrderStatistic(xs, b)
  {
    SortDescSorted(xs, RealKey);
    var d := SortDesc(xs, RealKey);
    if a < b {
      assert KeyAtLeast(RealKey(d[|xs| - 1 - b]), RealKey(d[|xs| - 1 - a]));
    }
  }

  lemma OrderStatisticIsValue(xs: seq<real>, k: nat)
    requires k < |xs|
    ensures exists i :: 0 <= i < |xs| && xs[i] == OrderStatistic(xs, k)
  {
    var d := SortDesc(xs, RealKey);
    var v := d[|xs| - 1 - k];
    assert v in d;
    assert v in multiset(xs);
    var i :| 0 <= i < |xs| && xs[i] == v;
  }

  lemma MulNonneg(t: real, x: real)
    requires 0.0 <= t && 0.0 <= x
    ensures 0.0 <= t * x
  {
  }

  lemma LerpBetween(a: real, b: real, t: real)
    requires a <= b && 0.0 <= t <= 1.0
    ensures a <= Lerp(a, b, t) <= b
  {
    MulNonneg(t, b - a);
    MulNonneg(1.0 - t, b - a);
    assert (1.0 - t) * (b - a) == (b - a) - t * (b - a);
  }

  /** The percentile lies between two of the values: never below the least nor above the greatest. */
  lemma PercentileBetween(xs: seq<real>, q: real)
    requires |xs| > 0 && 0.0 <= q <= 100.0
    ensures exists i, j :: 0 <= i < |xs| && 0 <= j < |xs| && xs[i] <= Percentile(xs, q) <= xs[j]
  {
    var n := |xs|;
    var h := VirtualIndex(n, q);
    var lo := h.Floor;
    var hi := if lo + 1 < n then lo + 1 else n - 1;
    OrderStatisticMonotone(xs, lo, hi);
    LerpBetween(OrderStatistic(xs, lo), OrderStatistic(xs, hi), h - lo as real);
    OrderStatisticIsValue(xs, lo);
    OrderStatisticIsValue(xs, hi);
    var i :| 0 <= i < n && xs[i] == OrderStatistic(xs, lo);
    var j :| 0 <= j < n && xs[j] == OrderStatistic(xs, hi);
    assert xs[i] <= Percentile(xs, q) <= xs[j];
  }

  /** The scores of the candidates, in order. */
  function Scores(cs: seq<Candidate>): (r: seq<real>)
    ensures |r| == |cs| && forall i :: 0 <= i < |cs| ==> r[i] == Score(cs[i])
  {
    seq(|cs|, i requires 0 <= i < |cs| => Score(cs[i]))
  }

  // ---------------------------------------------------------------------------
  // The selection

  function SortedPool(pool: seq<Candidate>): seq<Candidate> {
    SortDesc(pool, ScoreKey)
  }

  /** The threshold the final filter uses: the quality threshold, or the 25th percentile when that keeps too few. */
  function Threshold(pool: seq<Candidate>, minQualityScore: real, minSegments: int): (t: real)
    ensures pool == [] || |AtLeast(SortedPool(pool), minQualityScore)| >= minSegments ==> t == minQualityScore
  {
    var sorted := SortedPool(pool);
    if |AtLeast(sorted, minQualityScore)| < minSegments && sorted != [] then
      Percentile(Scores(sorted), 25.0)
    else
      minQualityScore
  }

  /** `create_ml_ready_segments` on the candidate pool returned by `segment_with_whisper`. */
  function CreateMlReadySegments(pool: seq<Candidate>, minQualityScore: real, minSegments: int): (out: seq<Candidate>)
    ensures minSegments >= 0 ==> |out| <= minSegments
    ensures multiset(out) <= multiset(pool)
  {
    var sorted := SortedPool(pool);
    var kept := AtLeast(sorted, Threshold(pool, minQualityScore, minSegments));
    AtLeastSubMultiset(sorted, Threshold(pool, minQualityScore, minSegments));
    PrefixSubMultiset(kept, minSegments);
    PyPrefix(kept, minSegments)
  }

  lemma {:induction false} AtLeastSubMultiset(cs: seq<Candidate>, t: real)
    ensures multiset(AtLeast(cs, t)) <= multiset(cs)
  {
    if cs != [] {
      AtLeastSubMultiset(cs[1..], t);
      assert cs == [cs[0]] + cs[1..];
    }
  }

  lemma PrefixSubMultiset<T>(s: seq<T>, k: int)
    ensures multiset(PyPrefix(s, k)) <= multiset(s)
  {
    var r := PyPrefix(s, k);
    assert s == r + s[|r|..];
  }

  /** A filter over a score-descending sequence keeps a prefix, and a lower threshold keeps a longer one. */
  lemma {:induction false} AtLeastMonotonePrefix(s: seq<Candidate>, t: real, lower: real)
    requires SortedDesc(s, ScoreKey) && lower <= t
    ensures AtLeast(s, t) <= AtLeast(s, lower)
  {
    if s != [] {
      if Score(s[0]) >= t {
        assert SortedDesc(s[1..], ScoreKey) by {
          forall i, j | 0 <= i < j < |s[1..]|
            ensures KeyAtLeast(ScoreKey(s[1..][i]), ScoreKey(s[1..][j]))
          {
            assert s[1..][i] == s[i + 1] && s[1..][j] == s[j + 1];
          }
        }
        AtLeastMonotonePrefix(s[1..], t, lower);
      } else {
        forall c | c in s ensures Score(c) < t {
          var i :| 0 <= i < |s| && s[i] == c;
          if i > 0 {
            assert KeyAtLeast(ScoreKey(s[0]), ScoreKey(s[i]));
          }
        }
        AtLeastNone(s, t);
      }
    }
  }

  lemma {:induction false} AtLeastNone(s: seq<Candidate>, t: real)
    requires forall c :: c in s ==> Score(c) < t
    ensures AtLeast(s, t) == []
  {
    if s != [] {
      assert s[0] in s;
      AtLeastNone(s[1..], t);
    }
  }

  lemma PyPrefixMonotone<T>(a: seq<T>, b: seq<T>, k: int)
    requires a <= b
    ensures PyPrefix(a, k) <= PyPrefix(b, k)
  {
  }

  /** The output is sorted by score, highest first, and every member passed the filter in force. */
  lemma SelectionSorted(pool: seq<Candidate>, minQualityScore: real, minSegments: int)
    ensures var out := CreateMlReadySegments(pool, minQualityScore, minSegments);
      forall i, j :: 0 <= i < j < |out| ==> Score(out[i]) >= Score(out[j])
    ensures var out := CreateMlReadySegments(pool, minQualityScore, minSegments);
      forall c :: c in out ==> Score(c) >= Threshold(pool, minQualityScore, minSegments)
  {
    var sorted := SortedPool(pool);
    var t := Threshold(pool, minQualityScore, minSegments);
    var kept := AtLeast(sorted, t);
    var out := CreateMlReadySegments(pool, minQualityScore, minSegments);
    SortDescSorted(pool, ScoreKey);
    AtLeastSubsequenceSorted(sorted, t);
    assert out <= kept;
    forall i, j | 0 <= i < j < |out|
      ensures Score(out[i]) >= Score(out[j])
    {
      assert out[i] == kept[i] && out[j] == kept[j];
      assert KeyAtLeast(ScoreKey(kept[i]), ScoreKey(kept[j]));
    }
    AtLeastMembers(sorted, t);
    forall c | c in out ensures Score(c) >= t {
      assert c in kept;
    }
  }

  lemma {:induction false} AtLeastSubsequenceSorted(s: seq<Candidate>, t: real)
    requires SortedDesc(s, ScoreKey)
    ensures SortedDesc(AtLeast(s, t), ScoreKey)
  {
    if s != [] {
      var tail := s[1..];
      assert SortedDesc(tail, ScoreKey) by {
        forall i, j | 0 <= i < j < |tail|
          ensures KeyAtLeast(ScoreKey(tail[i]), ScoreKey(tail[j]))
        {
          assert tail[i] == s[i + 1] && tail[j] == s[j + 1];
        }
      }
      AtLeastSubsequenceSorted(tail, t);
      AtLeastMembers(tail, t);
      if Score(s[0]) >= t {
        var r := AtLeast(s, t);
        var rest := AtLeast(tail, t);
        assert r == [s[0]] + rest;
        forall i, j | 0 <= i < j < |r|
          ensures KeyAtLeast(ScoreKey(r[i]), ScoreKey(r[j]))
        {
          if i == 0 {
            assert r[j] in tail;
            var m :| 0 <= m < |tail| && tail[m] == r[j];
            assert s[m + 1] == r[j];
          } else {
            assert r[i] == rest[i - 1] && r[j] == rest[j - 1];
          }
        }
      }
    }
  }

  /** The candidates with score `v` that `AtLeast` keeps: all of them or none. */
  lemma {:induction false} WithKeyAtLeast(s: seq<Candidate>, t: real, k: Key)
    ensures WithKey(AtLeast(s, t), ScoreKey, k) == if k.major >= t then WithKey(s, ScoreKey, k) else []
  {
    if s != [] {
      WithKeyAtLeast(s[1..], t, k);
      var rest := AtLeast(s[1..], t);
      var here := if ScoreKey(s[0]) == k then [s[0]] else [];
      assert WithKey(s, ScoreKey, k) == here + WithKey(s[1..], ScoreKey, k);
      if Score(s[0]) >= t {
        var r := [s[0]] + rest;
        assert AtLeast(s, t) == r;
        assert r[0] == s[0] && r[1..] == rest;
        assert WithKey(r, ScoreKey, k) == here + WithKey(rest, ScoreKey, k);
        if k.major < t {
          assert here == [];
        }
      } else {
        assert AtLeast(s, t) == rest;
        if k.major >= t {
          assert here == [];
        }
      }
    }
  }

  lemma {:induction false} WithKeyPrefix<T>(a: seq<T>, b: seq<T>, key: T -> Key, k: Key)
    requires a <= b
    ensures WithKey(a, key, k) <= WithKey(b, key, k)
  {
    if a != [] {
      assert a[0] == b[0] && a[1..] <= b[1..];
      WithKeyPrefix(a[1..], b[1..], key, k);
    }
  }

  /** Ties keep pool order: the output segments with any given score are an initial part of the pool's. */
  lemma SelectionStable(pool: seq<Candidate>, minQualityScore: real, minSegments: int, k: Key)
    ensures WithKey(CreateMlReadySegments(pool, minQualityScore, minSegments), ScoreKey, k) <= WithKey(pool, ScoreKey, k)
  {
    var sorted := SortedPool(pool);
    var t := Threshold(pool, minQualityScore, minSegments);
    var kept := AtLeast(sorted, t);
    WithKeyPrefix(PyPrefix(kept, minSegments), kept, ScoreKey, k);
    WithKeyAtLeast(sorted, t, k);
    SortDescStable(pool, ScoreKey, k);
  }

  /** When the threshold keeps enough, the output is the first `min_segments` that pass it. */
  lemma StrictCase(pool: seq<Candidate>, minQualityScore: real, minSegments: int)
    requires |AtLeast(SortedPool(pool), minQualityScore)| >= minSegments
    ensures CreateMlReadySegments(pool, minQualityScore, minSegments)
         == PyPrefix(AtLeast(SortedPool(pool), minQualityScore), minSegments)
  {
  }

  /**
   * When it keeps too few, the output is the first `min_segments` of the sorted
   * pool that reach the 25th percentile of all scores, so every output score
   * reaches it; and when no more than `min_segments` reach it, all of them are returned.
   */
  lemma FallbackCase(pool: seq<Candidate>, minQualityScore: real, minSegments: int)
    requires pool != [] && |AtLeast(SortedPool(pool), minQualityScore)| < minSegments
    ensures CreateMlReadySegments(pool, minQualityScore, minSegments)
         == PyPrefix(AtLeast(SortedPool(pool), Percentile(Scores(SortedPool(pool)), 25.0)), minSegments)
    ensures forall c :: c in CreateMlReadySegments(pool, minQualityScore, minSegments) ==>
      Score(c) >= Percentile(Scores(SortedPool(pool)), 25.0)
    ensures |AtLeast(SortedPool(pool), Percentile(Scores(SortedPool(pool)), 25.0))| <= minSegments ==>
      forall c :: c in pool && Score(c) >= Percentile(Scores(SortedPool(pool)), 25.0) ==>
        c in CreateMlReadySegments(pool, minQualityScore, minSegments)
  {
    var sorted := SortedPool(pool);
    assert |sorted| == |pool|;
    var p := Percentile(Scores(sorted), 25.0);
    assert Threshold(pool, minQualityScore, minSegments) == p;
    SelectionSorted(pool, minQualityScore, minSegments);
    AtLeastMembers(sorted, p);
    forall c | c in pool && Score(c) >= p
      ensures c in sorted
    {
      assert c in multiset(pool);
    }
  }

  /** The head of the sorted pool has the greatest score. */
  lemma SortedHeadIsBest(pool: seq<Candidate>)
    requires pool != []
    ensures SortedPool(pool)[0] in pool
    ensures forall c :: c in pool ==> Score(SortedPool(pool)[0]) >= Score(c)
  {
    var sorted := SortedPool(pool);
    SortDescSorted(pool, ScoreKey);
    assert sorted[0] in multiset(pool);
    forall c | c in pool ensures Score(sorted[0]) >= Score(c) {
      assert c in multiset(sorted);
      var i :| 0 <= i < |sorted| && sorted[i] == c;
      if i > 0 {
        assert KeyAtLeast(ScoreKey(sorted[0]), ScoreKey(sorted[i]));
      }
    }
  }

  /** The threshold in force never exceeds the best score. */
  lemma ThresholdReachable(pool: seq<Candidate>, minQualityScore: real, minSegments: int)
    requires pool != [] && minSegments >= 1
    ensures Score(SortedPool(pool)[0]) >= Threshold(pool, minQualityScore, minSegments)
  {
    var sorted := SortedPool(pool);
    SortedHeadIsBest(pool);
    if |AtLeast(sorted, minQualityScore)| < minSegments {
      var xs := Scores(sorted);
      PercentileBetween(xs, 25.0);
      var j :| 0 <= j < |xs| && Percentile(xs, 25.0) <= xs[j];
      assert sorted[j] in multiset(pool);
    } else {
      AtLeastMembers(sorted, minQualityScore);
      var c := AtLeast(sorted, minQualityScore)[0];
      assert c in AtLeast(sorted, minQualityScore);
      assert c in multiset(pool);
    }
  }

  /** With a non-empty pool and room for one segment, the best-scored candidate comes first. */
  lemma TopSegmentIncluded(pool: seq<Candidate>, minQualityScore: real, minSegments: int)
    requires pool != [] && minSegments >= 1
    ensures var out := CreateMlReadySegments(pool, minQualityScore, minSegments);
      out != [] && out[0] in pool && forall c :: c in pool ==> Score(out[0]) >= Score(c)
  {
    var sorted := SortedPool(pool);
    SortedHeadIsBest(pool);
    ThresholdReachable(pool, minQualityScore, minSegments);
    var t := Threshold(pool, minQualityScore, minSegments);
    assert AtLeast(sorted, t)[0] == sorted[0];
  }

  // ---------------------------------------------------------------------------
  // The fallback raises the bar it was meant to lower

  /** A pool of four candidates scored 0.9, 0.8, 0.3 and 0.2, in that order: all pass the default threshold. */
  predicate IsExamplePool(pool: seq<Candidate>) {
    |pool| == 4 && Score(pool[0]) == 0.9 && Score(pool[1]) == 0.8 && Score(pool[2]) == 0.3 && Score(pool[3]) == 0.2
  }

  lemma ExamplePoolSorted(pool: seq<Candidate>)
    requires IsExamplePool(pool)
    ensures SortedPool(pool) == pool
  {
    assert SortedDesc(pool, ScoreKey);
    SortDescOfSorted(pool, ScoreKey);
  }

  lemma ExamplePercentile(xs: seq<real>)
    requires |xs| == 4 && xs[0] == 0.9 && xs[1] == 0.8 && xs[2] == 0.3 && xs[3] == 0.2
    ensures Percentile(xs, 25.0) == 0.275
  {
    assert SortedDesc(xs, RealKey);
    SortDescOfSorted(xs, RealKey);
    assert VirtualIndex(4, 25.0) == 0.75;
    assert (0.75).Floor == 0;
    assert OrderStatistic(xs, 0) == 0.2 && OrderStatistic(xs, 1) == 0.3;
  }

  lemma ExampleThresholdKeepsAll(pool: seq<Candidate>)
    requires IsExamplePool(pool)
    ensures AtLeast(pool, DefaultMinQualityScore) == pool
  {
    assert AtLeast(pool[3..], DefaultMinQualityScore) == pool[3..];
    assert AtLeast(pool[2..], DefaultMinQualityScore) == pool[2..];
    assert AtLeast(pool[1..], DefaultMinQualityScore) == pool[1..];
  }

  lemma ExamplePercentileKeepsThree(pool: seq<Candidate>)
    requires IsExamplePool(pool)
    ensures AtLeast(pool, 0.275) == pool[..3]
  {
    assert AtLeast(pool[3..], 0.275) == [];
    assert AtLeast(pool[2..], 0.275) == [pool[2]];
    assert AtLeast(pool[1..], 0.275) == pool[1..3];
  }

  lemma ExampleThreshold(pool: seq<Candidate>)
    requires IsExamplePool(pool)
    ensures Threshold(pool, DefaultMinQualityScore, 50) == 0.275
  {
    ExamplePoolSorted(pool);
    ExampleThresholdKeepsAll(pool);
    ExamplePercentile(Scores(pool));
  }

  /**
   * Scores 0.9, 0.8, 0.3 and 0.2 all pass the default threshold of 0.05, but
   * four is fewer than fifty, so the selector refilters at the 25th percentile,
   * 0.275, and drops the segment scored 0.2 that the threshold had kept.
   */
  lemma PercentileFallbackDropsPassingSegment(pool: seq<Candidate>)
    requires IsExamplePool(pool)
    ensures |AtLeast(SortedPool(pool), DefaultMinQualityScore)| == 4
    ensures CreateMlReadySegments(pool, DefaultMinQualityScore, 50) == pool[..3]
  {
    ExamplePoolSorted(pool);
    ExampleThresholdKeepsAll(pool);
    ExampleThreshold(pool);
    ExamplePercentileKeepsThree(pool);
  }

  /** The fallback as its comment describes it: lower the threshold to the percentile, never raise it. */
  function RelaxedThreshold(pool: seq<Candidate>, minQualityScore: real, minSegments: int): (t: real)
    ensures t <= minQualityScore && t <= Threshold(pool, minQualityScore, minSegments)
    ensures t == minQualityScore || t == Threshold(pool, minQualityScore, minSegments)
  {
    var t := Threshold(pool, minQualityScore, minSegments);
    if t < minQualityScore then t else minQualityScore
  }

  function CreateMlReadySegmentsRelaxed(pool: seq<Candidate>, minQualityScore: real, minSegments: int): (out: seq<Candidate>)
    ensures minSegments >= 0 ==> |out| <= minSegments
  {
    PyPrefix(AtLeast(SortedPool(pool), RelaxedThreshold(pool, minQualityScore, minSegments)), minSegments)
  }

  /** With the relaxed fallback, whatever the strict threshold would return is still returned, in front. */
  lemma RelaxedKeepsStrictSelection(pool: seq<Candidate>, minQualityScore: real, minSegments: int)
    ensures PyPrefix(AtLeast(SortedPool(pool), minQualityScore), minSegments)
         <= CreateMlReadySegmentsRelaxed(pool, minQualityScore, minSegments)
  {
    var sorted := SortedPool(pool);
    SortDescSorted(pool, ScoreKey);
    AtLeastMonotonePrefix(sorted, minQualityScore, RelaxedThreshold(pool, minQualityScore, minSegments));
    PyPrefixMonotone(AtLeast(sorted, minQualityScore),
                     AtLeast(sorted, RelaxedThreshold(pool, minQualityScore, minSegments)), minSegments);
  }

  lemma RelaxedKeepsExamplePool(pool: seq<Candidate>)
    requires IsExamplePool(pool)
    ensures CreateMlReadySegmentsRelaxed(pool, DefaultMinQualityScore, 50) == pool
  {
    ExamplePoolSorted(pool);
    ExampleThresholdKeepsAll(pool);
    ExampleThreshold(pool);
  }
}
