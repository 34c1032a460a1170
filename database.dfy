/**
 * `AudioDatabase`: the three tables (`audio_files`, `audio_segments`,
 * `quality_metrics`) as sequences of rows in insertion order, with the id
 * assignment `COALESCE(MAX(id), 0) + 1`, the insert defaults, the filtered and
 * ordered queries, and the update by id. Rows compare equal in an `ORDER BY`
 * keep insertion order here; `created_at` timestamps are not modelled.
 */
module Database {
  import opened Wrappers
  import opened Sorting

  /** The values `insert_audio_file` reads from its dictionary. */
  datatype FileInput = FileInput(filename: string, duration: real, transcript: string, wpm: real,
                                 fillerRatio: real, sentimentScore: real, audioPath: string)

  datatype FileRow = FileRow(id: int, file: FileInput)

  /** The values `insert_segment_with_quality` reads; `None` where the key is absent and a default applies. */
  datatype SegmentInput = SegmentInput(
    originalFileId: int, segmentIndex: int, startTime: real, endTime: real, duration: real,
    transcript: string, audioPath: string,
    wpm: Option<real>, fillerRatio: Option<real>, sentimentScore: Option<real>, qualityScore: Option<real>,
    volume: Option<real>, volumeDb: Option<real>, noiseRatio: Option<real>, snrEstimate: Option<real>,
    zeroCrossingRate: Option<real>, spectralCentroid: Option<real>,
    isMlReady: Option<bool>, trainingPriority: Option<real>)

  datatype SegmentRow = SegmentRow(
    id: int, originalFileId: int, segmentIndex: int, startTime: real, endTime: real, duration: real,
    transcript: string, audioPath: string,
    wpm: real, fillerRatio: real, sentimentScore: real, qualityScore: real,
    volume: real, volumeDb: real, noiseRatio: real, snrEstimate: real,
    zeroCrossingRate: real, spectralCentroid: real,
    isMlReady: bool, trainingPriority: real)

  datatype MetricRow = MetricRow(id: int, segmentId: int, metricName: string, metricValue: real, description: string)

  datatype QualityStatistics = QualityStatistics(totalSegments: nat, mlReadySegments: nat)

  // ---------------------------------------------------------------------------
  // Ids

  /** `MAX(id)` over a non-empty column. */
  function MaxOf(ids: seq<int>): (m: int)
    requires ids != []
    ensures forall i :: 0 <= i < |ids| ==> ids[i] <= m
    ensures exists i :: 0 <= i < |ids| && ids[i] == m
  {
    if |ids| == 1 then ids[0]
    else
      var rest := MaxOf(ids[1..]);
      assert forall i :: 1 <= i < |ids| ==> ids[i] == ids[1..][i - 1];
      if ids[0] >= rest then ids[0] else rest
  }

  /** `COALESCE(MAX(id), 0) + 1`: larger than every id present. */
  function NextId(ids: seq<int>): (n: int)
    ensures forall i :: 0 <= i < |ids| ==> ids[i] < n
    ensures ids == [] ==> n == 1
  {
    if ids == [] then 1 else MaxOf(ids) + 1
  }

  /** In insertion order, ids are positive and strictly increasing. */
  predicate IdsIncreasing(ids: seq<int>) {
    (forall i :: 0 <= i < |ids| ==> ids[i] >= 1)
    && (forall i, j :: 0 <= i < j < |ids| ==> ids[i] < ids[j])
  }

  lemma NextIdExtends(ids: seq<int>)
    requires IdsIncreasing(ids)
    ensures NextId(ids) >= 1
    ensures IdsIncreasing(ids + [NextId(ids)])
  {
    if ids != [] {
      assert ids[0] < NextId(ids);
    }
    var r := ids + [NextId(ids)];
    assert forall i :: 0 <= i < |ids| ==> r[i] == ids[i];
  }

  function FileIds(files: seq<FileRow>): (ids: seq<int>)
    ensures |ids| == |files| && forall i :: 0 <= i < |files| ==> ids[i] == files[i].id
  {
    seq(|files|, i requires 0 <= i < |files| => files[i].id)
  }

  function SegmentIds(segments: seq<SegmentRow>): (ids: seq<int>)
    ensures |ids| == |segments| && forall i :: 0 <= i < |segments| ==> ids[i] == segments[i].id
  {
    seq(|segments|, i requires 0 <= i < |segments| => segments[i].id)
  }

  /** The row `insert_segment_with_quality` stores, with the defaults of its `get` calls. */
  function SegmentFromInput(id: int, s: SegmentInput): (r: SegmentRow)
    ensures r.id == id && r.originalFileId == s.originalFileId && r.segmentIndex == s.segmentIndex
    ensures r.isMlReady <==> s.isMlReady == Some(true)
  {
    SegmentRow(id, s.originalFileId, s.segmentIndex, s.startTime, s.endTime, s.duration, s.transcript, s.audioPath,
      s.wpm.GetOr(0.0), s.fillerRatio.GetOr(0.0), s.sentimentScore.GetOr(0.0), s.qualityScore.GetOr(0.0),
      s.volume.GetOr(0.0), s.volumeDb.GetOr(-60.0), s.noiseRatio.GetOr(1.0), s.snrEstimate.GetOr(0.0),
      s.zeroCrossingRate.GetOr(0.0), s.spectralCentroid.GetOr(0.0),
      s.isMlReady.GetOr(false), s.trainingPriority.GetOr(0.0))
  }

  /** A segment inserted without quality fields is stored as silent, noisy, not ML-ready and of no priority. */
  lemma MissingFieldsTakeDefaults(id: int, s: SegmentInput)
    requires s.wpm.None? && s.qualityScore.None? && s.volumeDb.None? && s.noiseRatio.None?
    requires s.isMlReady.None? && s.trainingPriority.None?
    ensures var r := SegmentFromInput(id, s);
      r.wpm == 0.0 && r.qualityScore == 0.0 && r.volumeDb == -60.0 && r.noiseRatio == 1.0
      && !r.isMlReady && r.trainingPriority == 0.0
    ensures s.qualityScore.Some? ==> SegmentFromInput(id, s).qualityScore == s.qualityScore.value
  {
  }

  // ---------------------------------------------------------------------------
  // Query building blocks

  /** `WHERE quality_score >= ? AND is_ml_ready = TRUE` */
  function MlReadyRows(rows: seq<SegmentRow>, minQualityScore: real): (r: seq<SegmentRow>)
    ensures |r| <= |rows|
  {
    if rows == [] then []
    else (if rows[0].qualityScore >= minQualityScore && rows[0].isMlReady then [rows[0]] else [])
         + MlReadyRows(rows[1..], minQualityScore)
  }

  lemma {:induction false} MlReadyRowsMembers(rows: seq<SegmentRow>, minQualityScore: real)
    ensures forall r :: r in MlReadyRows(rows, minQualityScore) <==>
      r in rows && r.qualityScore >= minQualityScore && r.isMlReady
  {
    if rows != [] {
      MlReadyRowsMembers(rows[1..], minQualityScore);
      assert rows == [rows[0]] + rows[1..];
    }
  }

  /** `WHERE original_file_id = ?` */
  function RowsOfFile(rows: seq<SegmentRow>, fileId: int): (r: seq<SegmentRow>)
    ensures |r| <= |rows|
  {
    if rows == [] then []
    else (if rows[0].originalFileId == fileId then [rows[0]] else []) + RowsOfFile(rows[1..], fileId)
  }

  lemma {:induction false} RowsOfFileMembers(rows: seq<SegmentRow>, fileId: int)
    ensures forall r :: r in RowsOfFile(rows, fileId) <==> r in rows && r.originalFileId == fileId
  {
    if rows != [] {
      RowsOfFileMembers(rows[1..], fileId);
      assert rows == [rows[0]] + rows[1..];
    }
  }

  /** `ORDER BY training_priority DESC, quality_score DESC` */
  function PriorityKey(r: SegmentRow): Key {
    Key(r.trainingPriority, r.qualityScore)
  }

  /** `ORDER BY segment_index` (ascending): descending on the negated index. */
  function IndexKey(r: SegmentRow): Key {
    Key(-r.segmentIndex as real, 0.0)
  }

  /** `LIMIT n` */
  function Take<T>(s: seq<T>, n: nat): (r: seq<T>)
    ensures r <= s && |r| == if n < |s| then n else |s|
  {
    if n < |s| then s[..n] else s
  }

  function CountMlReady(rows: seq<SegmentRow>): (n: nat)
    ensures n <= |rows|
  {
    if rows == [] then 0 else (if rows[0].isMlReady then 1 else 0) + CountMlReady(rows[1..])
  }

  /** The first file row with the given id. */
  function FindFile(files: seq<FileRow>, id: int): (r: Option<FileRow>)
    ensures r.None? <==> forall i :: 0 <= i < |files| ==> files[i].id != id
    ensures r.Some? ==> r.value.id == id && exists i :: 0 <= i < |files| && files[i] == r.value
  {
    if files == [] then None
    else if files[0].id == id then Some(files[0])
    else
      var r := FindFile(files[1..], id);
      assert forall i :: 1 <= i < |files| ==> files[i] == files[1..][i - 1];
      r
  }

  // ---------------------------------------------------------------------------
  // The tables

  class AudioDatabase {
    var files: seq<FileRow>
    var segments: seq<SegmentRow>
    var qualityMetrics: seq<MetricRow>

    ghost predicate Valid()
      reads this
    {
      IdsIncreasing(FileIds(files)) && IdsIncreasing(SegmentIds(segments))
    }

    /** A new database starts from freshly created, empty tables. */
    constructor ()
      ensures Valid()
      ensures files == [] && segments == [] && qualityMetrics == []
    {
      files := [];
      segments := [];
      qualityMetrics := [];
    }

    /** `init_database`: drop and recreate the three tables. */
    method InitDatabase()
      modifies this
      ensures Valid()
      ensures files == [] && segments == [] && qualityMetrics == []
    {
      qualityMetrics := [];
      segments := [];
      files := [];
    }

    /** `insert_audio_file` */
    method InsertAudioFile(file: FileInput) returns (id: int)
      requires Valid()
      modifies this
      ensures Valid()
      ensures id >= 1 && forall f :: f in old(files) ==> f.id < id
      ensures id == NextId(FileIds(old(files)))
      ensures files == old(files) + [FileRow(id, file)]
      ensures segments == old(segments) && qualityMetrics == old(qualityMetrics)
    {
      var nextId := NextId(FileIds(files));
      NextIdExtends(FileIds(files));
      assert FileIds(files + [FileRow(nextId, file)]) == FileIds(files) + [nextId];
      files := files + [FileRow(nextId, file)];
      id := nextId;
    }

    /** `insert_segment_with_quality`; no check is made that the file exists. */
    method InsertSegmentWithQuality(segment: SegmentInput) returns (id: int)
      requires Valid()
      modifies this
      ensures Valid()
      ensures id >= 1 && forall s :: s in old(segments) ==> s.id < id
      ensures id == NextId(SegmentIds(old(segments)))
      ensures segments == old(segments) + [SegmentFromInput(id, segment)]
      ensures files == old(files) && qualityMetrics == old(qualityMetrics)
    {
      var nextId := NextId(SegmentIds(segments));
      NextIdExtends(SegmentIds(segments));
      var row := SegmentFromInput(nextId, segment);
      assert SegmentIds(segments + [row]) == SegmentIds(segments) + [nextId];
      segments := segments + [row];
      id := nextId;
    }

    /** `update_segment_ml_status`: set the flag and priority of the row with that id; others stay as they were. */
    method UpdateSegmentMlStatus(segmentId: int, isMlReady: bool, trainingPriority: real)
      requires Valid()
      modifies this
      ensures Valid()
      ensures |segments| == |old(segments)|
      ensures forall i :: 0 <= i < |segments| ==>
        segments[i] == if old(segments)[i].id == segmentId
                       then old(segments)[i].(isMlReady := isMlReady, trainingPriority := trainingPriority)
                       else old(segments)[i]
      ensures (forall s :: s in old(segments) ==> s.id != segmentId) ==> segments == old(segments)
      ensures files == old(files) && qualityMetrics == old(qualityMetrics)
    {
      var rows := segments;
      var updated := seq(|rows|, i requires 0 <= i < |rows| =>
        if rows[i].id == segmentId
        then rows[i].(isMlReady := isMlReady, trainingPriority := trainingPriority)
        else rows[i]);
      assert SegmentIds(updated) == SegmentIds(rows);
      assert (forall s :: s in rows ==> s.id != segmentId) ==> updated == rows;
      segments := updated;
    }

    /** `get_ml_ready_segments` */
    function GetMlReadySegments(minQualityScore: real, limit: nat): (rows: seq<SegmentRow>)
      reads this
      ensures |rows| <= limit
    {
      Take(SortDesc(MlReadyRows(segments, minQualityScore), PriorityKey), limit)
    }

    /** `get_segments_by_file_id` */
    function GetSegmentsByFileId(fileId: int): (rows: seq<SegmentRow>)
      reads this
      ensures |rows| <= |segments|
    {
      SortDesc(RowsOfFile(segments, fileId), IndexKey)
    }

    /** `get_file_by_id` */
    function GetFileById(fileId: int): (r: Option<FileRow>)
      reads this
      ensures r.None? <==> forall f :: f in files ==> f.id != fileId
      ensures r.Some? ==> r.value in files && r.value.id == fileId
    {
      FindFile(files, fileId)
    }

    /** The two counts of `get_quality_statistics`. */
    function GetQualityStatistics(): (stats: QualityStatistics)
      reads this
      ensures stats.totalSegments == |segments|
      ensures stats.mlReadySegments <= stats.totalSegments
    {
      QualityStatistics(|segments|, CountMlReady(segments))
    }
  }

  // ---------------------------------------------------------------------------
  // What the queries return

  /**
   * Every returned row is stored, reaches the threshold and is ML-ready; rows
   * come by priority, then quality, highest first; and the query returns as many
   * matching rows as the limit allows.
   */
  lemma MlReadySegmentsSpec(db: AudioDatabase, minQualityScore: real, limit: nat)
    ensures var rows := db.GetMlReadySegments(minQualityScore, limit);
      forall r :: r in rows ==> r in db.segments && r.qualityScore >= minQualityScore && r.isMlReady
    ensures var rows := db.GetMlReadySegments(minQualityScore, limit);
      forall i, j :: 0 <= i < j < |rows| ==>
        rows[i].trainingPriority > rows[j].trainingPriority
        || (rows[i].trainingPriority == rows[j].trainingPriority && rows[i].qualityScore >= rows[j].qualityScore)
    ensures var rows := db.GetMlReadySegments(minQualityScore, limit);
      var matching := MlReadyRows(db.segments, minQualityScore);
      |rows| == (if limit < |matching| then limit else |matching|)
  {
    var matching := MlReadyRows(db.segments, minQualityScore);
    var sorted := SortDesc(matching, PriorityKey);
    var rows := db.GetMlReadySegments(minQualityScore, limit);
    MlReadyRowsMembers(db.segments, minQualityScore);
    SortDescSorted(matching, PriorityKey);
    forall r | r in rows
      ensures r in db.segments && r.qualityScore >= minQualityScore && r.isMlReady
    {
      assert r in sorted;
      assert r in multiset(matching);
    }
    forall i, j | 0 <= i < j < |rows|
      ensures KeyAtLeast(PriorityKey(rows[i]), PriorityKey(rows[j]))
    {
      assert rows[i] == sorted[i] && rows[j] == sorted[j];
    }
  }

  /**
   * The rows returned are matching rows, each at most as often as it is stored,
   * and none ranks below a matching row the limit left out.
   */
  lemma {:induction false} MlReadySegmentsTopRanked(db: AudioDatabase, minQualityScore: real, limit: nat)
    ensures multiset(db.GetMlReadySegments(minQualityScore, limit)) <= multiset(MlReadyRows(db.segments, minQualityScore))
    ensures var rows := db.GetMlReadySegments(minQualityScore, limit);
      forall r, x :: r in rows && x in MlReadyRows(db.segments, minQualityScore) && x !in rows ==>
        KeyAtLeast(PriorityKey(r), PriorityKey(x))
  {
    var matching := MlReadyRows(db.segments, minQualityScore);
    var sorted := SortDesc(matching, PriorityKey);
    var rows := db.GetMlReadySegments(minQualityScore, limit);
    assert sorted == rows + sorted[|rows|..];
    assert multiset(sorted) == multiset(rows) + multiset(sorted[|rows|..]);
    SortDescSorted(matching, PriorityKey);
    forall r, x | r in rows && x in matching && x !in rows
      ensures KeyAtLeast(PriorityKey(r), PriorityKey(x))
    {
      var i :| 0 <= i < |rows| && rows[i] == r;
      assert x in multiset(sorted);
      var k :| 0 <= k < |sorted| && sorted[k] == x;
      assert k >= |rows|;
      assert sorted[i] == r;
    }
  }

  /** With room to spare, every matching row is returned. */
  lemma MlReadySegmentsComplete(db: AudioDatabase, minQualityScore: real, limit: nat)
    requires |MlReadyRows(db.segments, minQualityScore)| <= limit
    ensures forall r :: r in db.segments && r.qualityScore >= minQualityScore && r.isMlReady ==>
      r in db.GetMlReadySegments(minQualityScore, limit)
  {
    var matching := MlReadyRows(db.segments, minQualityScore);
    MlReadyRowsMembers(db.segments, minQualityScore);
    forall r | r in db.segments && r.qualityScore >= minQualityScore && r.isMlReady
      ensures r in db.GetMlReadySegments(minQualityScore, limit)
    {
      assert r in multiset(SortDesc(matching, PriorityKey));
    }
  }

  /** Exactly the rows of the file, each as often as stored, by ascending segment index (ties in insertion order). */
  lemma SegmentsByFileSpec(db: AudioDatabase, fileId: int)
    ensures multiset(db.GetSegmentsByFileId(fileId)) == multiset(RowsOfFile(db.segments, fileId))
    ensures forall r :: r in db.GetSegmentsByFileId(fileId) <==> r in db.segments && r.originalFileId == fileId
    ensures var rows := db.GetSegmentsByFileId(fileId);
      forall i, j :: 0 <= i < j < |rows| ==> rows[i].segmentIndex <= rows[j].segmentIndex
  {
    var own := RowsOfFile(db.segments, fileId);
    var rows := SortDesc(own, IndexKey);
    RowsOfFileMembers(db.segments, fileId);
    SortDescSorted(own, IndexKey);
    forall r ensures r in rows <==> r in own {
      assert r in rows <==> r in multiset(rows);
      assert r in own <==> r in multiset(own);
    }
    forall i, j | 0 <= i < j < |rows|
      ensures rows[i].segmentIndex <= rows[j].segmentIndex
    {
      assert KeyAtLeast(IndexKey(rows[i]), IndexKey(rows[j]));
    }
  }

  /** Ids are unique, so a lookup finds the one row with that id. */
  lemma FileByIdUnique(db: AudioDatabase, fileId: int)
    requires db.Valid()
    ensures var r := db.GetFileById(fileId);
      r.Some? ==> forall f :: f in db.files && f.id == fileId ==> f == r.value
  {
    var r := db.GetFileById(fileId);
    if r.Some? {
      forall f | f in db.files && f.id == fileId ensures f == r.value {
        var i :| 0 <= i < |db.files| && db.files[i] == f;
        var j :| 0 <= j < |db.files| && db.files[j] == r.value;
        assert FileIds(db.files)[i] == FileIds(db.files)[j];
      }
    }
  }

  /**
   * The training-data check: segments of quality 0.9, 0.6 and 0.3 with
   * priorities 0.95, 0.7 and 0.3, the last not ML-ready. At threshold 0.5 and
   * limit 10 the query returns the first two, priorities descending, and two
   * segments count as ML-ready.
   */
  lemma TrainingSelectionExample(db: AudioDatabase)
    requires |db.segments| == 3
    requires db.segments[0].qualityScore == 0.9 && db.segments[0].isMlReady && db.segments[0].trainingPriority == 0.95
    requires db.segments[1].qualityScore == 0.6 && db.segments[1].isMlReady && db.segments[1].trainingPriority == 0.7
    requires db.segments[2].qualityScore == 0.3 && !db.segments[2].isMlReady && db.segments[2].trainingPriority == 0.3
    ensures var rows := db.GetMlReadySegments(0.5, 10);
      |rows| == 2 && rows[0] == db.segments[0] && rows[1] == db.segments[1]
    ensures db.GetQualityStatistics().mlReadySegments == 2
  {
    var s := db.segments;
    assert MlReadyRows(s[2..], 0.5) == [];
    assert MlReadyRows(s[1..], 0.5) == [s[1]];
    assert MlReadyRows(s, 0.5) == [s[0], s[1]];
    assert SortedDesc([s[0], s[1]], PriorityKey);
    SortDescOfSorted([s[0], s[1]], PriorityKey);
    assert CountMlReady(s[2..]) == 0;
    assert CountMlReady(s[1..]) == 1;
  }
}
