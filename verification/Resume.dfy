/** The capture loop of one file (core.processFile, internal/core/engine.go): finishing what an earlier run
    left undone without paying for what it did. What becomes of a point is given, not computed: decoding and
    the swarm are not part of this model. */
module Resume {
  import opened Sorting
  import opened Sets
  import opened Intervals
  import opened Paths
  import opened Manifest
  import Provenance

  /** What would become of a point if the loop took it. */
  datatype Attempt =
    | Halt                                                         // the run was told to stop before it
    | NotCaptured(code: string)                                    // no frame, and why
    | SeekMissed                                                   // decoded too far from what was asked
    | Shot(actualMs: int, moved: Shift, byteRanges: seq<Span>)     // a frame, written to disk
    | WriteFailed                                                  // a frame that could not be written

  const SEEK_FAILED := "seek_failed"

  /** The file being captured: its planned points, where a point's frame goes, and what is on disk. */
  datatype Job = Job(points: seq<int>, frameAt: int -> Path, present: Path -> bool)

  // ---- reusableFrames ----

  predicate Reusable(job: Job, f: Frame) {
    0 <= f.index < |job.points| && f.shift != Failed && f.actualMs.Some? && f.path.Some? &&
    f.requestedMs == job.points[f.index] && job.present(f.path.value)
  }

  /** A point of the plan with a frame on disk, taken at the very moment the plan has for it now. */
  predicate MayBeReused(job: Job, f: Frame) {
    0 <= f.index < |job.points| && job.points[f.index] == f.requestedMs && f.shift != Failed && f.actualMs.Some? &&
    f.path.Some? && job.present(f.path.value)
  }

  /** What is to be reused, by number; of two records with one number the later one. */
  function ReuseOf(job: Job, prior: seq<Frame>): map<int, Frame> {
    if prior == [] then map[]
    else
      var before, last := ReuseOf(job, prior[..|prior| - 1]), prior[|prior| - 1];
      if Reusable(job, last) then before[last.index := last] else before
  }

  /** Record k may be reused, and no later one of its number may. */
  ghost predicate Stands(job: Job, prior: seq<Frame>, k: nat)
    requires k < |prior|
  {
    Reusable(job, prior[k]) &&
    forall m :: k < m < |prior| && Reusable(job, prior[m]) ==> prior[m].index != prior[k].index
  }

  method ReusableFrames(job: Job, prior: seq<Frame>) returns (out: map<int, Frame>)
    ensures out == ReuseOf(job, prior)
    ensures forall i :: i in out ==> Reusable(job, out[i]) && out[i].index == i && out[i] in prior
    ensures forall i :: i in out <==> exists f :: f in prior && f.index == i && MayBeReused(job, f)
    ensures forall k :: 0 <= k < |prior| && Stands(job, prior, k) ==>
              prior[k].index in out && out[prior[k].index] == prior[k]
  {
    out := map[];
    for k := 0 to |prior|
      invariant out == ReuseOf(job, prior[..k])
    {
      assert prior[..k + 1][..k] == prior[..k];
      var f := prior[k];
      if Reusable(job, f) { out := out[f.index := f]; }
    }
    assert prior[..|prior|] == prior;
    ReuseIsWhatStands(job, prior);
    ReuseIsAllThatMayBe(job, prior);
  }

  lemma {:induction false} ReuseIsAllThatMayBe(job: Job, prior: seq<Frame>)
    ensures forall i :: i in ReuseOf(job, prior) <==> exists f :: f in prior && f.index == i && MayBeReused(job, f)
  {
    if prior != [] {
      var front, last := prior[..|prior| - 1], prior[|prior| - 1];
      ReuseIsAllThatMayBe(job, front);
      assert prior == front + [last];
    }
  }

  /** One more record unseats those of its number, if it may be reused at all. */
  lemma StandsStill(job: Job, prior: seq<Frame>, k: nat)
    requires k < |prior| - 1
    ensures var last := prior[|prior| - 1];
            Stands(job, prior, k) <==>
              Stands(job, prior[..|prior| - 1], k) && !(Reusable(job, last) && last.index == prior[k].index)
  {
    var front := prior[..|prior| - 1];
    assert forall m :: 0 <= m < |front| ==> front[m] == prior[m];
  }

  lemma {:induction false} StandingIsReused(job: Job, prior: seq<Frame>, k: nat)
    requires k < |prior| && Stands(job, prior, k)
    ensures prior[k].index in ReuseOf(job, prior) && ReuseOf(job, prior)[prior[k].index] == prior[k]
    decreases |prior|
  {
    if k < |prior| - 1 {
      StandsStill(job, prior, k);
      StandingIsReused(job, prior[..|prior| - 1], k);
    }
  }

  lemma {:induction false} ReusedIsStanding(job: Job, prior: seq<Frame>, i: int) returns (k: nat)
    requires i in ReuseOf(job, prior)
    ensures k < |prior| && Stands(job, prior, k) && prior[k].index == i && ReuseOf(job, prior)[i] == prior[k]
    decreases |prior|
  {
    var last := prior[|prior| - 1];
    if Reusable(job, last) && last.index == i {
      k := |prior| - 1;
    } else {
      k := ReusedIsStanding(job, prior[..|prior| - 1], i);
      StandsStill(job, prior, k);
    }
  }

  /** Exactly the records that stand are reused, each under its own number. */
  lemma ReuseIsWhatStands(job: Job, prior: seq<Frame>)
    ensures forall k :: 0 <= k < |prior| && Stands(job, prior, k) ==>
              prior[k].index in ReuseOf(job, prior) && ReuseOf(job, prior)[prior[k].index] == prior[k]
    ensures forall i :: i in ReuseOf(job, prior) ==>
              exists k :: 0 <= k < |prior| && Stands(job, prior, k) && prior[k].index == i &&
                          ReuseOf(job, prior)[i] == prior[k]
  {
    forall k | 0 <= k < |prior| && Stands(job, prior, k)
      ensures prior[k].index in ReuseOf(job, prior) && ReuseOf(job, prior)[prior[k].index] == prior[k] {
      StandingIsReused(job, prior, k);
    }
    forall i | i in ReuseOf(job, prior)
      ensures exists k :: 0 <= k < |prior| && Stands(job, prior, k) && prior[k].index == i &&
                          ReuseOf(job, prior)[i] == prior[k] {
      var k := ReusedIsStanding(job, prior, i);
    }
  }

  // ---- the loop ----

  datatype Result =
    | StorageFailed(produced: nat)
    | Finished(records: seq<Frame>, produced: nat, skipped: nat, complete: bool)

  ghost predicate Attemptable(job: Job, attempts: seq<Attempt>) {
    |attempts| == |job.points| && forall a :: a in attempts && a.Shot? ==> a.moved != Failed
  }

  /** The record of point i, reused or newly taken. */
  function RecordOf(job: Job, done: map<int, Frame>, attempts: seq<Attempt>, i: nat): Frame
    requires i < |job.points| == |attempts|
  {
    if i in done then done[i]
    else match attempts[i]
      case NotCaptured(code) => Frame(i, job.points[i], None, None, Failed, code, [])
      case Shot(actual, moved, ranges) => Frame(i, job.points[i], Some(actual), Some(job.frameAt(i)), moved, "", ranges)
      case _ => Frame(i, job.points[i], None, None, Failed, SEEK_FAILED, [])
  }

  predicate StopsAt(done: map<int, Frame>, attempts: seq<Attempt>, i: nat)
    requires i < |attempts|
  {
    i !in done && (attempts[i].Halt? || attempts[i].WriteFailed?)
  }

  /** The first point the loop does not get past, or the end of the plan. */
  ghost predicate IsStop(done: map<int, Frame>, attempts: seq<Attempt>, stop: nat) {
    stop <= |attempts| && (forall i :: 0 <= i < stop ==> !StopsAt(done, attempts, i)) &&
    (stop < |attempts| ==> StopsAt(done, attempts, stop))
  }

  /** What the loop has written once it is past point i - 1. */
  ghost predicate SoFar(job: Job, done: map<int, Frame>, attempts: seq<Attempt>, records: seq<Frame>,
                        produced: nat, skipped: nat)
    requires |attempts| == |job.points|
  {
    |records| <= |job.points| && produced == CountCaptured(records) && produced + skipped == |records| &&
    forall k :: 0 <= k < |records| ==> !StopsAt(done, attempts, k) && records[k] == RecordOf(job, done, attempts, k)
  }

  lemma OneMore(job: Job, done: map<int, Frame>, attempts: seq<Attempt>, records: seq<Frame>, produced: nat,
                skipped: nat, record: Frame)
    requires |attempts| == |job.points| && SoFar(job, done, attempts, records, produced, skipped)
    requires |records| < |job.points| && !StopsAt(done, attempts, |records|)
    requires record == RecordOf(job, done, attempts, |records|)
    ensures Captured(record) ==> SoFar(job, done, attempts, records + [record], produced + 1, skipped)
    ensures !Captured(record) ==> SoFar(job, done, attempts, records + [record], produced, skipped + 1)
  {
    var longer := records + [record];
    assert longer[..|longer| - 1] == records;
  }

  /** Some earlier record of this number stands, and so is reused. */
  ghost predicate Reused(job: Job, prior: seq<Frame>, i: int) {
    exists k :: 0 <= k < |prior| && Stands(job, prior, k) && prior[k].index == i
  }

  /** f is the record of point i as what became of the point says: of a frame written, when it is of, where it
      is, whether and how it was moved, and the very byte ranges it came from; of any other, that there is none
      and why. */
  predicate SaysWhatBecame(job: Job, i: nat, a: Attempt, f: Frame)
    requires i < |job.points|
  {
    f.index == i && f.requestedMs == job.points[i] &&
    match a
    case Shot(actual, moved, ranges) =>
      f.actualMs == Some(actual) && f.shift == moved && f.byteRanges == ranges && f.path == Some(job.frameAt(i)) &&
      f.error == ""
    case NotCaptured(code) =>
      f.shift == Failed && f.path.None? && f.actualMs.None? && f.byteRanges == [] && f.error == code
    case SeekMissed =>
      f.shift == Failed && f.path.None? && f.actualMs.None? && f.byteRanges == [] && f.error == "seek_failed"
    case _ => false
  }

  method CapturePoints(job: Job, prior: seq<Frame>, attempts: seq<Attempt>)
    returns (r: Result)
    requires Attemptable(job, attempts)
    ensures r.StorageFailed? ==> CannotWrite(job, prior, attempts)
    ensures r.Finished? ==>
              Writes(job, prior, attempts, r.records) &&
              (forall k :: 0 <= k < |r.records| && !Reused(job, prior, k) ==>
                 SaysWhatBecame(job, k, attempts[k], r.records[k])) &&
              (|r.records| < |job.points| ==>
                 attempts[|r.records|].Halt? && !Reused(job, prior, |r.records|)) &&
              r.produced == |set k | 0 <= k < |r.records| && Captured(r.records[k])| &&
              r.produced == CountCaptured(r.records) && r.produced + r.skipped == |r.records| &&
              (r.complete <==> |r.records| == |job.points| && forall f :: f in r.records ==> Captured(f))
  {
    var reusable := ReusableFrames(job, prior);
    var records: seq<Frame>, produced: nat, skipped: nat := [], 0, 0;
    var i := 0;
    while i < |job.points|
      invariant 0 <= i <= |job.points| && |records| == i
      invariant SoFar(job, reusable, attempts, records, produced, skipped)
    {
      var point := job.points[i];
      var record: Frame;
      if i in reusable {
        record := reusable[i];
        OneMore(job, reusable, attempts, records, produced, skipped, record);
        produced := produced + 1;
      } else {
        match attempts[i] {
          case Halt => break;
          case WriteFailed =>
            assert IsStop(reusable, attempts, i);
            return StorageFailed(produced);
          case NotCaptured(code) =>
            record := Frame(i, point, None, None, Failed, code, []);
            OneMore(job, reusable, attempts, records, produced, skipped, record);
            skipped := skipped + 1;
          case SeekMissed =>
            record := Frame(i, point, None, None, Failed, SEEK_FAILED, []);
            OneMore(job, reusable, attempts, records, produced, skipped, record);
            skipped := skipped + 1;
          case Shot(actual, moved, ranges) =>
            assert attempts[i] in attempts;
            record := Frame(i, point, Some(actual), Some(job.frameAt(i)), moved, "", ranges);
            OneMore(job, reusable, attempts, records, produced, skipped, record);
            produced := produced + 1;
        }
      }
      records := records + [record];
      i := i + 1;
    }
    assert IsStop(reusable, attempts, |records|);
    AllCaptured(records);
    CountIsSize(records);
    WrittenSaysWhatBecame(job, prior, attempts, records);
    r := Finished(records, produced, skipped, produced == |job.points|);
  }

  lemma {:induction false} AllCaptured(records: seq<Frame>)
    ensures CountCaptured(records) <= |records|
    ensures CountCaptured(records) == |records| <==> forall f :: f in records ==> Captured(f)
  {
    if records != [] {
      var front, last := records[..|records| - 1], records[|records| - 1];
      AllCaptured(front);
      assert records == front + [last];
    }
  }

  // ---- what a run writes, and runs upon runs ----

  /** Records numbered 0, 1, 2, ... in order, each for its own planned point. */
  ghost predicate Numbered(job: Job, records: seq<Frame>) {
    |records| <= |job.points| &&
    forall i :: 0 <= i < |records| ==> records[i].index == i && records[i].requestedMs == job.points[i] &&
                                       (Captured(records[i]) ==> records[i].actualMs.Some?)
  }

  /** records is what a run over prior writes. */
  ghost predicate Writes(job: Job, prior: seq<Frame>, attempts: seq<Attempt>, records: seq<Frame>) {
    Attemptable(job, attempts) && IsStop(ReuseOf(job, prior), attempts, |records|) &&
    forall i :: 0 <= i < |records| ==> records[i] == RecordOf(job, ReuseOf(job, prior), attempts, i)
  }

  /** Every record that is not an earlier one says what became of its point, and the point a run stops at is one
      of which nothing was held. */
  lemma WrittenSaysWhatBecame(job: Job, prior: seq<Frame>, attempts: seq<Attempt>, records: seq<Frame>)
    requires Writes(job, prior, attempts, records)
    ensures forall i :: i in ReuseOf(job, prior) <==> Reused(job, prior, i)
    ensures forall k :: 0 <= k < |records| && !Reused(job, prior, k) ==>
              SaysWhatBecame(job, k, attempts[k], records[k])
    ensures |records| < |job.points| ==> !Reused(job, prior, |records|)
  {
    ReuseIsWhatStands(job, prior);
    forall i ensures i in ReuseOf(job, prior) <==> Reused(job, prior, i) {
    }
    forall k | 0 <= k < |records| && !Reused(job, prior, k) ensures SaysWhatBecame(job, k, attempts[k], records[k]) {
      assert records[k] == RecordOf(job, ReuseOf(job, prior), attempts, k);
      assert !StopsAt(ReuseOf(job, prior), attempts, k);
    }
  }

  /** The first point a run over prior does not get past has a frame that cannot be written. */
  ghost predicate CannotWrite(job: Job, prior: seq<Frame>, attempts: seq<Attempt>) {
    |attempts| == |job.points| &&
    exists stop: nat :: IsStop(ReuseOf(job, prior), attempts, stop) && stop < |attempts| && attempts[stop].WriteFailed?
  }

  /** Whatever it was given, a run writes records 0..h-1 in order. Whatever holes and repeats the numbering of
      the earlier records has, each of them that stands, if its number is below h, is carried over unchanged,
      byte ranges and all, and its point is not taken again. */
  lemma HeldRecordsAreCarried(job: Job, prior: seq<Frame>, attempts: seq<Attempt>, records: seq<Frame>)
    requires Writes(job, prior, attempts, records)
    ensures Numbered(job, records)
    ensures forall k :: 0 <= k < |prior| && Stands(job, prior, k) && prior[k].index < |records| ==>
              records[prior[k].index] == prior[k] && prior[k].index in ReuseOf(job, prior)
  {
    ReuseIsWhatStands(job, prior);
  }

  /** An earlier record that could be reused is among the new ones exactly when its number is below the point the
      run stopped at and it, or one just like it, stands: so a run that is told to stop drops the records an
      earlier run had for later points, and drops nothing else. */
  lemma LostIffHeldPastTheStop(job: Job, prior: seq<Frame>, attempts: seq<Attempt>, records: seq<Frame>, f: Frame)
    requires Writes(job, prior, attempts, records) && f in prior && Reusable(job, f)
    ensures f in records <==>
              f.index < |records| && exists k :: 0 <= k < |prior| && Stands(job, prior, k) && prior[k] == f
  {
    HeldRecordsAreCarried(job, prior, attempts, records);
    ReuseIsWhatStands(job, prior);
    if f in records {
      var i :| 0 <= i < |records| && records[i] == f;
      var m :| 0 <= m < |prior| && prior[m] == f;
      LastOfItsNumber(job, prior, m);
      assert records[i] == RecordOf(job, ReuseOf(job, prior), attempts, i);
    }
  }

  /** A number under which anything could be reused is reused under. */
  lemma {:induction false} LastOfItsNumber(job: Job, prior: seq<Frame>, m: nat)
    requires m < |prior| && Reusable(job, prior[m])
    ensures prior[m].index in ReuseOf(job, prior)
    decreases |prior|
  {
    var front := prior[..|prior| - 1];
    if m < |front| {
      assert front[m] == prior[m];
      LastOfItsNumber(job, front, m);
    }
  }

  /** No two records with one number. */
  ghost predicate OneEach(records: seq<Frame>) {
    forall i, j :: 0 <= i < j < |records| ==> records[i].index != records[j].index
  }

  /** Then every record that could be reused stands, and is lost exactly when its number is past the stop. */
  lemma OneEachStands(job: Job, prior: seq<Frame>, attempts: seq<Attempt>, records: seq<Frame>)
    requires OneEach(prior) && Writes(job, prior, attempts, records)
    ensures forall f :: f in prior && Reusable(job, f) ==>
              (f in records <==> f.index < |records|) && (f.index < |records| ==> records[f.index] == f)
  {
    HeldRecordsAreCarried(job, prior, attempts, records);
    forall f | f in prior && Reusable(job, f)
      ensures (f in records <==> f.index < |records|) && (f.index < |records| ==> records[f.index] == f) {
      var k :| 0 <= k < |prior| && prior[k] == f;
      assert Stands(job, prior, k);
      LostIffHeldPastTheStop(job, prior, attempts, records, f);
    }
  }

  /** Such a run: the last of three points was taken before; this time the run stops at the second. */
  lemma AHaltForgetsLaterFrames(frameAt: int -> Path)
    returns (job: Job, prior: seq<Frame>, attempts: seq<Attempt>, records: seq<Frame>)
    ensures Numbered(job, prior) && Writes(job, prior, attempts, records)
    ensures |prior| == 3 && Stands(job, prior, 2) && prior[2] !in records
  {
    job := Job([0, 10, 20], frameAt, (p: Path) => true);
    var hole0 := Frame(0, 0, None, None, Failed, "unavailable", []);
    var hole1 := Frame(1, 10, None, None, Failed, "unavailable", []);
    var taken := Frame(2, 20, Some(20), Some(frameAt(2)), Taken, "", []);
    prior := [hole0, hole1, taken];
    attempts := [NotCaptured("unavailable"), Halt, Halt];
    records := [hole0];
    ReuseIsWhatStands(job, prior);
    assert prior[2] == taken && Stands(job, prior, 2);
    assert StopsAt(ReuseOf(job, prior), attempts, 1);
    assert records[0] == RecordOf(job, ReuseOf(job, prior), attempts, 0);
  }

  // ---- mergeIndices ----

  /** The union of two lists of file numbers, ascending and without repeats. */
  method MergeIndices(existing: seq<int>, next: seq<int>) returns (out: seq<int>)
    ensures forall i, j :: 0 <= i < j < |out| ==> out[i] < out[j]
    ensures forall x :: x in out <==> x in existing || x in next
  {
    out := Provenance.AscendingIndices((set i | i in existing) + (set i | i in next));
  }
}
