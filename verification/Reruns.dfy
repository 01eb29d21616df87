/** One file of a result set over its whole life: runs that finish it, runs that are stopped or fail, frames that
    are deleted between them (core.processFile and core.DeleteFrame). What was captured once is never paid for
    again unless somebody threw it away. */
module Reruns {
  import opened Paths
  import opened Manifest
  import opened Resume
  import FrameDeletion
  import ResultsTree

  /** What can happen to the file's manifest. */
  datatype Change =
    | Rerun(attempts: seq<Attempt>)     // a run gets as far as writing it, to the end of the plan or not
    | Failure(attempts: seq<Attempt>)   // a run meets a frame it cannot write, and leaves the manifest alone
    | Deletion(index: int)              // one frame is deleted, or its record is and its file then stays
    | Clearing                          // the file is cleared

  /** The manifest, and in job the plan, where each point's frame goes, and what is on disk. */
  datatype Stage = Stage(job: Job, manifest: seq<Frame>)

  ghost predicate NothingGoes(a: Job, b: Job) {
    forall p :: a.present(p) ==> b.present(p)
  }

  /** One frame at most goes from the disk: the one the deleted record names. */
  ghost predicate OnlyThatGoes(a: Job, b: Job, gone: Option<Frame>) {
    forall p :: a.present(p) && (gone.None? || gone.value.path != Some(p)) ==> b.present(p)
  }

  ghost predicate AllOnDisk(job: Job, records: seq<Frame>) {
    forall f :: f in records && Captured(f) ==> job.present(f.path.value)
  }

  /** The plan and the places of its frames belong to the result set; the rest is the change. */
  ghost predicate Follows(a: Stage, c: Change, b: Stage) {
    b.job.points == a.job.points && b.job.frameAt == a.job.frameAt &&
    match c
    case Rerun(attempts) =>
      Writes(a.job, a.manifest, attempts, b.manifest) && NothingGoes(a.job, b.job) && AllOnDisk(b.job, b.manifest)
    case Failure(attempts) =>
      CannotWrite(a.job, a.manifest, attempts) && b.manifest == a.manifest && NothingGoes(a.job, b.job)
    case Deletion(index) =>
      b.manifest == FrameDeletion.Kept(a.manifest, index) &&
      OnlyThatGoes(a.job, b.job, FrameDeletion.Gone(a.manifest, index))
    case Clearing => b.manifest == []
  }

  /** A record as a run over this plan makes it. */
  predicate InPlan(job: Job, f: Frame) {
    0 <= f.index < |job.points| && f.requestedMs == job.points[f.index] && (Captured(f) ==> f.actualMs.Some?) &&
    (f.path.Some? ==> f.path == Some(job.frameAt(f.index)))
  }

  ghost predicate Planned(s: Stage) {
    OneEach(s.manifest) && forall f :: f in s.manifest ==> InPlan(s.job, f)
  }

  /** Each point's frame has a file of its own. */
  ghost predicate Apart(job: Job) {
    forall i, j :: job.frameAt(i) == job.frameAt(j) ==> i == j
  }

  // ---- one change ----

  /** A deletion takes the records of one number and leaves the others, never renumbered. */
  lemma KeptMembers(frames: seq<Frame>, index: int)
    requires OneEach(frames)
    ensures OneEach(FrameDeletion.Kept(frames, index))
    ensures forall f :: f in FrameDeletion.Kept(frames, index) <==> f in frames && f.index != index
  {
    var k := FrameDeletion.KeptIsTheRest(frames, index);
    var kept := FrameDeletion.Kept(frames, index);
    if FrameDeletion.Gone(frames, index).Some? {
      forall f | f in frames && f.index != index ensures f in kept {
        var i :| 0 <= i < |frames| && frames[i] == f;
        assert kept[if i < k then i else i - 1] == f;
      }
    }
  }

  lemma WrittenIsPlanned(a: Stage, attempts: seq<Attempt>, records: seq<Frame>)
    requires Planned(a) && Writes(a.job, a.manifest, attempts, records)
    ensures OneEach(records) && forall f :: f in records ==> InPlan(a.job, f)
  {
    HeldRecordsAreCarried(a.job, a.manifest, attempts, records);
    ReuseIsWhatStands(a.job, a.manifest);
    forall f | f in records ensures InPlan(a.job, f) {
      var i :| 0 <= i < |records| && records[i] == f;
      assert f == RecordOf(a.job, ReuseOf(a.job, a.manifest), attempts, i);
    }
  }

  lemma PlannedStays(a: Stage, c: Change, b: Stage)
    requires Planned(a) && Follows(a, c, b)
    ensures Planned(b)
  {
    match c {
      case Rerun(attempts) => WrittenIsPlanned(a, attempts, b.manifest);
      case Deletion(index) => KeptMembers(a.manifest, index);
      case _ =>
    }
  }

  /** The change is neither a deletion of this number nor a run that stops short of it. */
  predicate Spares(c: Change, b: Stage, index: int) {
    match c
    case Rerun(_) => index < |b.manifest|
    case Failure(_) => true
    case Deletion(gone) => gone != index
    case Clearing => false
  }

  /** A record with its frame on disk survives a change exactly when the change spares it; it is then the very
      record, its frame is still on disk, and a run has not taken its point again. */
  lemma OneChangeKeepsIff(a: Stage, c: Change, b: Stage, f: Frame)
    requires Planned(a) && Apart(a.job) && Follows(a, c, b) && f in a.manifest && Reusable(a.job, f)
    ensures f in b.manifest <==> Spares(c, b, f.index)
    ensures f in b.manifest ==> Reusable(b.job, f)
    ensures c.Rerun? && f in b.manifest ==> f.index in ReuseOf(a.job, a.manifest)
  {
    match c {
      case Rerun(attempts) =>
        OneEachStands(a.job, a.manifest, attempts, b.manifest);
        var k :| 0 <= k < |a.manifest| && a.manifest[k] == f;
        LastOfItsNumber(a.job, a.manifest, k);
      case Deletion(index) =>
        KeptMembers(a.manifest, index);
        var k := FrameDeletion.KeptIsTheRest(a.manifest, index);
        var gone := FrameDeletion.Gone(a.manifest, index);
        assert InPlan(a.job, f);
        if gone.Some? { assert gone.value in a.manifest && InPlan(a.job, gone.value); }
        assert f.index != index ==> gone.None? || gone.value.path != f.path;
      case _ =>
    }
  }

  // ---- any number of them ----

  ghost predicate History(stages: seq<Stage>, changes: seq<Change>) {
    |stages| == |changes| + 1 && Planned(stages[0]) && Apart(stages[0].job) &&
    forall n :: 0 <= n < |changes| ==> Follows(stages[n], changes[n], stages[n + 1])
  }

  lemma {:induction false} StagesArePlanned(stages: seq<Stage>, changes: seq<Change>, n: nat)
    requires History(stages, changes) && n < |stages|
    ensures Planned(stages[n]) && Apart(stages[n].job)
    ensures stages[n].job.points == stages[0].job.points && stages[n].job.frameAt == stages[0].job.frameAt
  {
    if n > 0 {
      StagesArePlanned(stages, changes, n - 1);
      var m := n - 1;
      assert Follows(stages[m], changes[m], stages[m + 1]);
      PlannedStays(stages[m], changes[m], stages[n]);
    }
  }

  /** Over any number of runs, whole, stopped or failed, and deletions in any order among them: a point once
      captured, its frame on disk, keeps its very record, byte ranges and all, until its own frame is deleted or
      a run is stopped short of it. */
  lemma {:induction false} CapturedStaysCaptured(stages: seq<Stage>, changes: seq<Change>, n: nat, m: nat, f: Frame)
    requires History(stages, changes) && n <= m < |stages|
    requires f in stages[n].manifest && Reusable(stages[n].job, f)
    requires forall k :: n <= k < m ==> Spares(changes[k], stages[k + 1], f.index)
    ensures f in stages[m].manifest && Reusable(stages[m].job, f)
  {
    if n < m {
      var k := m - 1;
      CapturedStaysCaptured(stages, changes, n, k, f);
      StagesArePlanned(stages, changes, k);
      assert Follows(stages[k], changes[k], stages[k + 1]) && Spares(changes[k], stages[k + 1], f.index);
      OneChangeKeepsIff(stages[k], changes[k], stages[m], f);
    }
  }

  /** Which is said of every captured record a run writes: its frame is on disk. */
  lemma WrittenCanBeReused(stages: seq<Stage>, changes: seq<Change>, n: nat, f: Frame)
    requires History(stages, changes) && n < |changes| && changes[n].Rerun?
    requires f in stages[n + 1].manifest && Captured(f)
    ensures Reusable(stages[n + 1].job, f)
  {
    StagesArePlanned(stages, changes, n + 1);
    assert Follows(stages[n], changes[n], stages[n + 1]) && InPlan(stages[n + 1].job, f);
  }

  // ---- a deletion as the disk sees it ----

  function StageOf(t: ResultsTree.Tree, file: int, points: seq<int>, frameAt: int -> Path): Stage
    requires file in t.manifests
  {
    Stage(Job(points, frameAt, FrameDeletion.OnDisk(t)), t.manifests[file])
  }

  /** Wherever a DeleteFrame has got to, its file is at a stage that follows by that deletion, or at one with the
      same manifest and the same frames. */
  lemma DeletingIsAChange(t: ResultsTree.Tree, d: FrameDeletion.Deletion, t': ResultsTree.Tree, points: seq<int>,
                          frameAt: int -> Path)
    requires FrameDeletion.Names(t, d) && FrameDeletion.OnTheWay(t, d, t')
    ensures d.file in t'.manifests
    ensures var a, b := StageOf(t, d.file, points, frameAt), StageOf(t', d.file, points, frameAt);
            Follows(a, Deletion(d.index), b) ||
            (b.manifest == a.manifest && forall p :: b.job.present(p) == a.job.present(p))
  {
    FrameDeletion.SurvivorsAreUntouched(t, d, t');
  }
}
