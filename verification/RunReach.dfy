/** The strip of a set that took more than one run: frames an earlier run took are carried beside those a later
    one took, each still knowing which pieces were ordered for it. */
module RunReach {
  import opened Intervals
  import opened Geometry
  import opened Manifest
  import opened Paths
  import opened Reach
  import opened Resume
  import opened Reruns
  import Provenance

  /** The results, the torrent's layout, which of its files they are of, and for each change that is a run what
      that run did to the torrent it opened. */
  datatype Life = Life(stages: seq<Stage>, changes: seq<Change>, layout: Layout, file: int, scripts: seq<seq<Action>>)

  ghost predicate Sound(l: Life) {
    History(l.stages, l.changes) && |l.scripts| == |l.changes| && Laid(l.layout) && 0 <= l.file < |l.layout.files| &&
    forall f :: f in l.stages[0].manifest ==> !Captured(f)
  }

  /** f was settled by run n, at this place of what that run did. */
  ghost predicate TakenBy(l: Life, n: nat, at: nat, f: Frame)
    requires Sound(l)
  {
    n < |l.changes| && l.changes[n].Rerun? && SettledAt(l.layout, l.scripts[n], at, l.file, f)
  }

  /** What a run records and did not carry over is what it captured. */
  ghost predicate RecordsItsOwn(l: Life, n: nat)
    requires Sound(l) && n < |l.changes|
  {
    var a, b := l.stages[n], l.stages[n + 1];
    l.changes[n].Rerun? ==>
      forall f :: f in b.manifest && Captured(f) && f.index !in ReuseOf(a.job, a.manifest) ==>
        exists at :: TakenBy(l, n, at, f)
  }

  ghost predicate RunsRecordTheirOwn(l: Life)
    requires Sound(l)
  {
    forall n :: 0 <= n < |l.changes| ==> RecordsItsOwn(l, n)
  }

  /** The loop was given this settled frame for point i: its moment, its shift and the ranges its log held. */
  predicate Carries(job: Job, a: Attempt, i: nat, f: Frame) {
    i < |job.points| && a.Shot? && f.index == i && f.requestedMs == job.points[i] && f.error == "" &&
    f.path == Some(job.frameAt(i)) &&
    f.actualMs == Some(a.actualMs) && f.shift == a.moved && f.byteRanges == a.byteRanges
  }

  /** It is, when every frame the loop is given for a point is one its capture settled for that point, with the
      ranges the log of that point held. */
  lemma CaptureRecordsItsOwn(l: Life, n: nat, frames: seq<Frame>, places: seq<nat>)
    requires Sound(l) && n < |l.changes| && l.changes[n].Rerun?
    requires AllSettled(l.layout, l.scripts[n], l.file, frames, places)
    requires forall i :: 0 <= i < |l.changes[n].attempts| && l.changes[n].attempts[i].Shot? ==>
               exists k :: 0 <= k < |frames| && Carries(l.stages[n].job, l.changes[n].attempts[i], i, frames[k])
    ensures RecordsItsOwn(l, n)
  {
    var a, b, attempts := l.stages[n], l.stages[n + 1], l.changes[n].attempts;
    assert Follows(a, l.changes[n], b);
    forall f | f in b.manifest && Captured(f) && f.index !in ReuseOf(a.job, a.manifest)
      ensures exists at :: TakenBy(l, n, at, f) {
      var i :| 0 <= i < |b.manifest| && b.manifest[i] == f;
      WrittenSaysWhatBecame(a.job, a.manifest, attempts, b.manifest);
      HeldRecordsAreCarried(a.job, a.manifest, attempts, b.manifest);
      assert SaysWhatBecame(a.job, i, attempts[i], f);
      var k :| 0 <= k < |frames| && Carries(a.job, attempts[i], i, frames[k]);
      assert frames[k] == f;
      assert TakenBy(l, n, places[k], f);
    }
  }

  /** A record that is there after a change was there before it, or a run has just taken it. */
  lemma CarriedOrTaken(l: Life, n: nat, f: Frame)
    requires Sound(l) && RunsRecordTheirOwn(l) && n < |l.changes| && f in l.stages[n + 1].manifest && Captured(f)
    ensures f in l.stages[n].manifest || exists at :: TakenBy(l, n, at, f)
  {
    var a, c, b := l.stages[n], l.changes[n], l.stages[n + 1];
    assert Follows(a, c, b) && RecordsItsOwn(l, n);
    StagesArePlanned(l.stages, l.changes, n);
    match c {
      case Rerun(attempts) =>
        HeldRecordsAreCarried(a.job, a.manifest, attempts, b.manifest);
        ReuseIsWhatStands(a.job, a.manifest);
        var i :| 0 <= i < |b.manifest| && b.manifest[i] == f;
        assert f == RecordOf(a.job, ReuseOf(a.job, a.manifest), attempts, i);
      case Deletion(index) => KeptMembers(a.manifest, index);
      case _ =>
    }
  }

  /** Every captured record was taken by some run, whatever carried or deleted records in between. */
  lemma {:induction false} EveryRecordHasItsRun(l: Life, m: nat, f: Frame) returns (n: nat, at: nat)
    requires Sound(l) && RunsRecordTheirOwn(l) && m < |l.stages| && f in l.stages[m].manifest && Captured(f)
    ensures n < m && TakenBy(l, n, at, f)
  {
    CarriedOrTaken(l, m - 1, f);
    if f in l.stages[m - 1].manifest {
      n, at := EveryRecordHasItsRun(l, m - 1, f);
    } else {
      n := m - 1;
      at :| TakenBy(l, n, at, f);
    }
  }

  /** Piece x was ordered by run n for a captured point whose record is still among these, and meets the file. */
  ghost predicate OrderedBy(l: Life, records: seq<Frame>, n: nat, at: nat, f: Frame, x: int)
    requires Sound(l)
  {
    f in records && Captured(f) && TakenBy(l, n, at, f) && x in OrderedAt(l.layout, l.scripts[n], at, l.file) &&
    x in Provenance.PiecesOfNonEmptyFile(l.layout.files[l.file], l.layout.pieceLength)
  }

  ghost predicate OrderedOnce(l: Life, m: nat, x: int)
    requires Sound(l) && m < |l.stages|
  {
    exists n: nat, at: nat, f: Frame :: n < m && OrderedBy(l, l.stages[m].manifest, n, at, f, x)
  }

  lemma {:induction false} FramePiecesMember(frames: seq<Frame>, file: FileInfo, p: int, x: int)
    requires p > 0
    ensures x in FramePieces(frames, file, p) <==>
              exists f :: f in frames && Captured(f) && x in PiecesOfBytes(file, p, Points(f.byteRanges))
  {
    if frames != [] {
      var front, last := frames[..|frames| - 1], frames[|frames| - 1];
      FramePiecesMember(front, file, p, x);
      assert frames == front + [last];
    }
  }

  /** For one record, settled once: what its ranges lie in is what was ordered for it. */
  lemma OrderedIsRecorded(l: Life, n: nat, at: nat, f: Frame, x: int)
    requires Sound(l) && TakenBy(l, n, at, f)
    ensures x in PiecesOfBytes(l.layout.files[l.file], l.layout.pieceLength, Points(f.byteRanges)) <==>
              x in OrderedAt(l.layout, l.scripts[n], at, l.file) &&
              x in Provenance.PiecesOfNonEmptyFile(l.layout.files[l.file], l.layout.pieceLength)
  {
  }

  lemma InTheStrip(l: Life, m: nat, x: int)
    requires Sound(l) && RunsRecordTheirOwn(l) && m < |l.stages|
    requires x in FramePieces(l.stages[m].manifest, l.layout.files[l.file], l.layout.pieceLength)
    ensures OrderedOnce(l, m, x)
  {
    var records, file, p := l.stages[m].manifest, l.layout.files[l.file], l.layout.pieceLength;
    FramePiecesMember(records, file, p, x);
    var f :| f in records && Captured(f) && x in PiecesOfBytes(file, p, Points(f.byteRanges));
    var n, at := EveryRecordHasItsRun(l, m, f);
    OrderedIsRecorded(l, n, at, f, x);
    assert OrderedBy(l, records, n, at, f, x);
  }

  lemma FromTheStrip(l: Life, m: nat, x: int)
    requires Sound(l) && m < |l.stages| && OrderedOnce(l, m, x)
    ensures x in FramePieces(l.stages[m].manifest, l.layout.files[l.file], l.layout.pieceLength)
  {
    var records := l.stages[m].manifest;
    var n: nat, at: nat, f: Frame :| n < m && OrderedBy(l, records, n, at, f, x);
    OrderedIsRecorded(l, n, at, f, x);
    FramePiecesMember(records, l.layout.files[l.file], l.layout.pieceLength, x);
  }

  /** The strip is the union over runs: a piece is in it exactly when some run ordered it for a point of the file
      that it captured and whose record has been kept since. */
  lemma StripIsTheUnionOverRuns(l: Life, m: nat, x: int)
    requires Sound(l) && RunsRecordTheirOwn(l) && m < |l.stages|
    ensures x in FramePieces(l.stages[m].manifest, l.layout.files[l.file], l.layout.pieceLength) <==>
              OrderedOnce(l, m, x)
  {
    if x in FramePieces(l.stages[m].manifest, l.layout.files[l.file], l.layout.pieceLength) {
      InTheStrip(l, m, x);
    } else if OrderedOnce(l, m, x) {
      FromTheStrip(l, m, x);
    }
  }

  /** As the page draws it. */
  method ReachOverRuns(l: Life, m: nat) returns (r: Option<Reach>)
    requires Sound(l) && RunsRecordTheirOwn(l) && m < |l.stages|
    ensures r.None? <==> forall x :: !OrderedOnce(l, m, x)
    ensures r.Some? ==>
              Canonical(r.value.claimed) &&
              r.value.firstPiece == FirstPiece(l.layout.files[l.file], l.layout.pieceLength) &&
              (forall x :: x in Lifted(r.value.claimed, r.value.firstPiece) <==> OrderedOnce(l, m, x)) &&
              r.value.claimedPieces == |Lifted(r.value.claimed, r.value.firstPiece)|
  {
    var records, file, p := l.stages[m].manifest, l.layout.files[l.file], l.layout.pieceLength;
    forall x ensures x in FramePieces(records, file, p) <==> OrderedOnce(l, m, x) { StripIsTheUnionOverRuns(l, m, x); }
    forall k | 0 <= k < |records| && Captured(records[k])
      ensures Canonical(records[k].byteRanges)
      ensures forall x :: x in Points(records[k].byteRanges) ==> 0 <= x < file.length {
      var n, at := EveryRecordHasItsRun(l, m, records[k]);
    }
    LocatedIffSomewhere(l.layout, l.file, records);
    r := ReachOf(records, file, p);
  }
}
