/** core.DeleteFrame (internal/core/delete.go): one frame leaves a finished run, the rest stays servable. */
module FrameDeletion {
  import opened Sorting
  import opened Paths
  import opened Manifest
  import opened ResultsTree
  import Resume

  datatype Outcome =
    | Deleted | SheetStale                                   // the frame is gone
    | NoSuchFrame | OutsideRun | NoWriter                    // nothing was done
    | RecordNotSaved | ManifestNotWritten | FrameNotRemoved  // stopped on the way

  // ---- which frame goes, which stay ----

  function Gone(frames: seq<Frame>, index: int): Option<Frame> {
    if frames == [] then None
    else if frames[0].index == index then Some(frames[0])
    else Gone(frames[1..], index)
  }

  function Kept(frames: seq<Frame>, index: int): seq<Frame> {
    if frames == [] then []
    else if frames[0].index == index then frames[1..]
    else [frames[0]] + Kept(frames[1..], index)
  }

  lemma OneFurther(frames: seq<Frame>, m: nat)
    requires m + 1 < |frames|
    ensures frames[..m + 1] + frames[m + 2..] == [frames[0]] + (frames[1..][..m] + frames[1..][m + 1..])
  {
  }

  /** What goes is the first record of that number; the kept ones are the others, unchanged and in their order. */
  lemma {:induction false} KeptIsTheRest(frames: seq<Frame>, index: int) returns (k: nat)
    ensures Gone(frames, index).None? ==> Kept(frames, index) == frames && forall f :: f in frames ==> f.index != index
    ensures Gone(frames, index).Some? ==>
              k < |frames| && frames[k] == Gone(frames, index).value && frames[k].index == index &&
              (forall j :: 0 <= j < k ==> frames[j].index != index) &&
              Kept(frames, index) == frames[..k] + frames[k + 1..]
  {
    k := 0;
    if frames != [] && frames[0].index != index {
      var m := KeptIsTheRest(frames[1..], index);
      assert frames == [frames[0]] + frames[1..];
      k := m + 1;
      if Gone(frames, index).Some? { OneFurther(frames, m); }
    }
  }

  method Split(frames: seq<Frame>, index: int) returns (kept: seq<Frame>, gone: Option<Frame>)
    ensures kept == Kept(frames, index) && gone == Gone(frames, index)
  {
    kept, gone := [], None;
    for k := 0 to |frames|
      invariant Kept(frames, index) == kept + if gone.Some? then frames[k..] else Kept(frames[k..], index)
      invariant Gone(frames, index) == if gone.Some? then gone else Gone(frames[k..], index)
    {
      assert frames[k..][1..] == frames[k + 1..];
      if gone.None? && frames[k].index == index {
        gone := Some(frames[k]);
      } else {
        assert frames[k..] == [frames[k]] + frames[k + 1..];
        kept := kept + [frames[k]];
      }
    }
  }

  // ---- the states a deletion passes through ----

  /** What is being deleted from where. */
  datatype Deletion = Deletion(file: int, index: int)

  predicate Names(t: Tree, d: Deletion) {
    t.record.Some? && d.file in t.record.value.videos && d.file in t.manifests &&
    Gone(t.manifests[d.file], d.index).Some?
  }

  function KeptOf(t: Tree, d: Deletion): seq<Frame> requires Names(t, d) {
    Kept(t.manifests[d.file], d.index)
  }

  function GonePath(t: Tree, d: Deletion): Option<Path> requires Names(t, d) {
    Gone(t.manifests[d.file], d.index).value.path
  }

  /** First the record stops promising a file that is about to hold nothing, */
  function RecordStep(t: Tree, d: Deletion): Tree requires Names(t, d) {
    if KeptOf(t, d) == [] then t.(record := Some(Unlisted(t.record.value, d.file))) else t
  }

  /** then the manifest stops promising the frame, */
  function ManifestStep(t: Tree, d: Deletion): Tree requires Names(t, d) {
    RecordStep(t, d).(manifests := t.manifests[d.file := KeptOf(t, d)])
  }

  /** and only then does the frame go. */
  function FrameStep(t: Tree, d: Deletion): Tree requires Names(t, d) {
    if GonePath(t, d).None? then ManifestStep(t, d)
    else ManifestStep(t, d).(blobs := t.blobs - {GonePath(t, d).value})
  }

  /** What the last of those leaves, in full: the one frame is gone from the disk and its record from the manifest,
      the other files' manifests and every other frame are as they were, and the record lists what it did but for
      the file, and that only if nothing of it is kept. */
  lemma FrameStepIs(t: Tree, d: Deletion)
    requires Names(t, d)
    ensures var t', kept := FrameStep(t, d), Kept(t.manifests[d.file], d.index);
            t'.manifests == t.manifests[d.file := kept] &&
            (forall p :: p in t'.blobs <==> p in t.blobs && GonePath(t, d) != Some(p)) &&
            (forall p :: p in t'.blobs ==> t'.blobs[p] == t.blobs[p]) &&
            t'.record.Some? && t'.record.value.videos == t.record.value.videos &&
            t'.record.value.selected == t.record.value.selected &&
            (kept != [] ==> t'.record == t.record) &&
            (forall i :: i in t'.record.value.complete <==>
               i in t.record.value.complete && (kept == [] ==> i != d.file)) &&
            t'.sheets == t.sheets && t'.frameDirs == t.frameDirs && t'.dirs == t.dirs && t'.strays == t.strays
  {
    UnlistedMembers(t.record.value, d.file);
  }

  /** A tree but for its contact sheets, its directories and the temporary files in them. */
  function Bare(t: Tree): Tree { Core(t).(sheets := {}) }

  ghost predicate OnTheWay(t: Tree, d: Deletion, t': Tree)
    requires Names(t, d)
  {
    t'.sheets - {d.file} == t.sheets - {d.file} &&
    (Bare(t') == Bare(t) || Bare(t') == Bare(RecordStep(t, d)) ||
     Bare(t') == Bare(ManifestStep(t, d)) || Bare(t') == Bare(FrameStep(t, d)))
  }

  method DeleteFrame(disk: Disk, d: Deletion) returns (r: Outcome)
    requires disk.Valid()
    modifies disk
    ensures disk.Valid() && old(disk.trail) <= disk.trail
    ensures r == NoSuchFrame <==> !Names(old(disk.now), d)
    ensures r == NoSuchFrame <==>
              old(disk.now.record).None? || d.file !in old(disk.now.record).value.videos ||
              d.file !in old(disk.now.manifests) ||
              forall f :: f in old(disk.now.manifests)[d.file] ==> f.index != d.index
    ensures r == NoSuchFrame || r == OutsideRun || r == NoWriter ==>
              disk.now == old(disk.now) && disk.trail == old(disk.trail)
    ensures r == OutsideRun <==> Names(old(disk.now), d) && GonePath(old(disk.now), d).Some? &&
                                 !Within(disk.layout.runDir, GonePath(old(disk.now), d).value)
    ensures r == RecordNotSaved ==> Names(old(disk.now), d) && KeptOf(old(disk.now), d) == []
    ensures r == FrameNotRemoved ==> Names(old(disk.now), d) && GonePath(old(disk.now), d).Some?
    ensures r == RecordNotSaved ==> Names(old(disk.now), d) && Bare(disk.now) == Bare(old(disk.now))
    ensures r == ManifestNotWritten ==> Names(old(disk.now), d) && Bare(disk.now) == Bare(RecordStep(old(disk.now), d))
    ensures r == FrameNotRemoved ==> Names(old(disk.now), d) && Bare(disk.now) == Bare(ManifestStep(old(disk.now), d))
    ensures r == SheetStale || r == Deleted ==>
              Names(old(disk.now), d) && Bare(disk.now) == Bare(FrameStep(old(disk.now), d)) &&
              (GonePath(old(disk.now), d).Some? ==> Within(disk.layout.runDir, GonePath(old(disk.now), d).value))
    ensures r == Deleted ==> disk.now.sheets == if KeptOf(old(disk.now), d) == [] then old(disk.now.sheets) - {d.file}
                                                else old(disk.now.sheets) + {d.file}
    ensures Names(old(disk.now), d) ==>
              forall k :: |old(disk.trail)| <= k < |disk.trail| ==> OnTheWay(old(disk.now), d, disk.trail[k])
  {
    if disk.now.record.None? { return NoSuchFrame; }
    var record := disk.now.record.value;
    if d.file !in record.videos || d.file !in disk.now.manifests { return NoSuchFrame; }
    var kept, gone := Split(disk.now.manifests[d.file], d.index);
    ghost var at := KeptIsTheRest(disk.now.manifests[d.file], d.index);
    if gone.None? { return NoSuchFrame; }
    if gone.value.path.Some? && !Within(disk.layout.runDir, gone.value.path.value) { return OutsideRun; }

    var ok := *; // output.NewWriter makes the run directory, which exists
    if !ok { return NoWriter; }

    r := EditThenRemove(disk, d, kept, gone.value.path);
  }

  /** The deletion proper, once nothing stands in its way. */
  method EditThenRemove(disk: Disk, d: Deletion, kept: seq<Frame>, path: Option<Path>) returns (r: Outcome)
    requires disk.Valid() && Names(disk.now, d) && kept == KeptOf(disk.now, d) && path == GonePath(disk.now, d)
    modifies disk
    ensures disk.Valid() && old(disk.trail) <= disk.trail
    ensures r in {Deleted, SheetStale, RecordNotSaved, ManifestNotWritten, FrameNotRemoved}
    ensures r == RecordNotSaved ==> kept == [] && Bare(disk.now) == Bare(old(disk.now))
    ensures r == FrameNotRemoved ==> path.Some?
    ensures r == ManifestNotWritten ==> Bare(disk.now) == Bare(RecordStep(old(disk.now), d))
    ensures r == FrameNotRemoved ==> Bare(disk.now) == Bare(ManifestStep(old(disk.now), d))
    ensures r == SheetStale || r == Deleted ==> Bare(disk.now) == Bare(FrameStep(old(disk.now), d))
    ensures r == Deleted ==> disk.now.sheets == if kept == [] then old(disk.now.sheets) - {d.file}
                                                else old(disk.now.sheets) + {d.file}
    ensures forall k :: |old(disk.trail)| <= k < |disk.trail| ==> OnTheWay(old(disk.now), d, disk.trail[k])
  {
    ghost var t := disk.now;
    r := EditRecords(disk, d, kept);
    if r != Deleted { return; }
    assert Core(disk.now) == Core(ManifestStep(t, d));
    if path.Some? {
      var ok := disk.RemoveFrame(path.value);
      if !ok { return FrameNotRemoved; }
    }
    assert Core(disk.now) == Core(FrameStep(t, d));
    var ok := RebuildSheet(disk, d.file, kept);
    r := if ok then Deleted else SheetStale;
  }

  /** The record and the manifest, in that order; Deleted here means both are written. */
  method EditRecords(disk: Disk, d: Deletion, kept: seq<Frame>) returns (r: Outcome)
    requires disk.Valid() && Names(disk.now, d) && kept == KeptOf(disk.now, d)
    modifies disk
    ensures disk.Valid() && old(disk.trail) <= disk.trail && disk.now.sheets == old(disk.now.sheets)
    ensures r in {Deleted, RecordNotSaved, ManifestNotWritten}
    ensures r == Deleted ==> Core(disk.now) == Core(ManifestStep(old(disk.now), d))
    ensures r == RecordNotSaved ==> kept == [] && disk.now == old(disk.now)
    ensures r == ManifestNotWritten ==> Core(disk.now) == Core(RecordStep(old(disk.now), d))
    ensures forall k :: |old(disk.trail)| <= k < |disk.trail| ==> OnTheWay(old(disk.now), d, disk.trail[k])
  {
    ghost var t := disk.now;
    var ok;
    if kept == [] {
      var complete := WithoutIndex(disk.now.record.value.complete, d.file);
      ok := disk.SaveRun(disk.now.record.value.(complete := complete));
      if !ok { return RecordNotSaved; }
    }
    assert disk.now == RecordStep(t, d);
    ok := disk.WriteAtomic(d.file, ManifestOf(kept));
    r := if ok then Deleted else ManifestNotWritten;
  }

  /** The sheet follows the frames it depicts, or goes with the last of them. */
  method RebuildSheet(disk: Disk, file: int, kept: seq<Frame>) returns (ok: bool)
    requires disk.Valid()
    modifies disk
    ensures disk.Valid() && old(disk.trail) <= disk.trail
    ensures Bare(disk.now) == Bare(old(disk.now)) && disk.now.sheets - {file} == old(disk.now.sheets) - {file}
    ensures ok ==> disk.now.sheets == if kept == [] then old(disk.now.sheets) - {file}
                                      else old(disk.now.sheets) + {file}
    ensures forall k :: |old(disk.trail)| <= k < |disk.trail| ==>
              Bare(disk.trail[k]) == Bare(old(disk.now)) &&
              disk.trail[k].sheets - {file} == old(disk.now.sheets) - {file}
  {
    if kept == [] {
      ok := disk.RemoveSheet(file);
    } else {
      ok := *; // sheet.Build reads the frames back and draws them
      if ok { ok := disk.WriteAtomic(file, ContactSheet); }
    }
  }

  // ---- what a crash leaves, and what success does ----

  /** No other record of a listed file names the frame that goes. */
  ghost predicate NotShared(t: Tree, d: Deletion)
    requires Names(t, d)
  {
    GonePath(t, d).Some? ==>
      (forall f :: f in KeptOf(t, d) && Captured(f) ==> f.path.value != GonePath(t, d).value) &&
      forall i, f :: Listed(t, i) && i != d.file && i in t.manifests && f in t.manifests[i] && Captured(f) ==>
                       f.path.value != GonePath(t, d).value
  }

  /** What remains of the file can be shown, or is nothing at all, or was never called complete. */
  predicate LeavesSomething(t: Tree, d: Deletion)
    requires Names(t, d)
  {
    !Listed(t, d.file) || KeptOf(t, d) == [] || HasCaptured(KeptOf(t, d))
  }

  lemma KeptWasThere(t: Tree, d: Deletion)
    requires Names(t, d)
    ensures forall f :: f in KeptOf(t, d) ==> f in t.manifests[d.file]
  {
    var k := KeptIsTheRest(t.manifests[d.file], d.index);
  }

  lemma StepLists(t: Tree, d: Deletion, i: int)
    requires Names(t, d)
    ensures Listed(RecordStep(t, d), i) <==> Listed(t, i) && (KeptOf(t, d) == [] ==> i != d.file)
  {
    UnlistedMembers(t.record.value, d.file);
  }

  lemma IntactIsBare(a: Tree, b: Tree)
    requires Bare(a) == Bare(b)
    ensures Intact(a) <==> Intact(b)
  {
    assert forall i :: Listed(a, i) <==> Listed(b, i);
    assert a.manifests == Bare(a).manifests && b.manifests == Bare(b).manifests;
    assert a.blobs == Bare(a).blobs && b.blobs == Bare(b).blobs;
    assert forall i :: i in a.manifests ==> (Usable(a, a.manifests[i]) <==> Usable(b, b.manifests[i]));
  }

  lemma StepsKeepIntact(t: Tree, d: Deletion)
    requires Names(t, d) && Intact(t) && NotShared(t, d) && LeavesSomething(t, d)
    ensures Intact(RecordStep(t, d)) && Intact(ManifestStep(t, d)) && Intact(FrameStep(t, d))
  {
    KeptWasThere(t, d);
    forall i | Listed(RecordStep(t, d), i)
      ensures i in t.manifests && Usable(t, t.manifests[i]) &&
              Usable(t, ManifestStep(t, d).manifests[i]) && Usable(FrameStep(t, d), ManifestStep(t, d).manifests[i])
    {
      StepLists(t, d, i);
      assert Usable(t, t.manifests[i]);
    }
    assert forall i :: Listed(ManifestStep(t, d), i) <==> Listed(RecordStep(t, d), i);
    assert forall i :: Listed(FrameStep(t, d), i) <==> Listed(RecordStep(t, d), i);
  }

  /** A crash after any step leaves every listed file loadable and usable. */
  lemma CrashLeavesRunIntact(t: Tree, d: Deletion, t': Tree)
    requires Names(t, d) && Intact(t) && NotShared(t, d) && LeavesSomething(t, d) && OnTheWay(t, d, t')
    ensures Intact(t')
  {
    StepsKeepIntact(t, d);
    if Bare(t') == Bare(t) { IntactIsBare(t, t'); }
    if Bare(t') == Bare(RecordStep(t, d)) { IntactIsBare(RecordStep(t, d), t'); }
    if Bare(t') == Bare(ManifestStep(t, d)) { IntactIsBare(ManifestStep(t, d), t'); }
    if Bare(t') == Bare(FrameStep(t, d)) { IntactIsBare(FrameStep(t, d), t'); }
  }

  /** The finished delete keeps the run intact exactly when it leaves something of the file or nothing:
      the code asks only whether any record is kept, so a listed file whose last captured frame goes while
      a failed point's record stays is left promising what cannot be served. */
  lemma IntactIffSomethingIsLeft(t: Tree, d: Deletion)
    requires Names(t, d) && Intact(t) && NotShared(t, d)
    ensures Intact(FrameStep(t, d)) <==> LeavesSomething(t, d)
  {
    if LeavesSomething(t, d) {
      CrashLeavesRunIntact(t, d, FrameStep(t, d));
    } else {
      StepLists(t, d, d.file);
      assert Listed(FrameStep(t, d), d.file);
    }
  }

  /** Such a file: one frame taken, one point failed, the frame deleted. */
  lemma AGapIsLeftListed(shot: Path) returns (t: Tree, d: Deletion)
    ensures Names(t, d) && Intact(t) && NotShared(t, d) && !Intact(FrameStep(t, d))
  {
    var taken := Frame(0, 0, Some(0), Some(shot), Shift.Taken, "", []);
    var failed := Frame(1, 1000, None, None, Failed, "unavailable", []);
    d := Deletion(0, 0);
    t := Tree(Some(Run([0], [0], [0])), map[0 := [taken, failed]], map[shot := 1], {}, {}, {}, multiset{});
    assert taken in t.manifests[0];
    assert Kept([taken, failed], 0) == [failed];
    assert !LeavesSomething(t, d);
    IntactIffSomethingIsLeft(t, d);
  }

  /** The second of two frames has been deleted, and its point has failed since. */
  ghost predicate HasAGap(t: Tree, frameAt: int -> Path) {
    t.record == Some(Run([0], [0], [0])) && t.manifests.Keys == {0} && |t.manifests[0]| == 2 &&
    t.manifests[0][0] == Frame(0, 0, Some(0), Some(frameAt(0)), Shift.Taken, "", []) &&
    !Captured(t.manifests[0][1]) && t.blobs == map[frameAt(0) := 1]
  }

  lemma TheGapStaysListed(t: Tree, frameAt: int -> Path)
    requires HasAGap(t, frameAt)
    ensures var d := Deletion(0, 0);
            Names(t, d) && Intact(t) && NotShared(t, d) && !Intact(FrameStep(t, d))
  {
    var d, frames := Deletion(0, 0), t.manifests[0];
    assert frames == [frames[0], frames[1]] && frames[0] in frames;
    assert Kept(frames, 0) == [frames[1]];
    assert forall i :: i in t.manifests <==> i == 0;
    IntactIffSomethingIsLeft(t, d);
  }

  lemma TwoFramesAreTaken(records: seq<Frame>, job: Resume.Job, attempts: seq<Resume.Attempt>)
    requires job.points == [0, 1000] && Resume.Writes(job, [], attempts, records)
    requires attempts == [Resume.Shot(0, Shift.Taken, []), Resume.Shot(1000, Shift.Taken, [])]
    ensures records == [Frame(0, 0, Some(0), Some(job.frameAt(0)), Shift.Taken, "", []),
                        Frame(1, 1000, Some(1000), Some(job.frameAt(1)), Shift.Taken, "", [])]
  {
    assert Resume.ReuseOf(job, []) == map[];
  }

  lemma OneIsTakenAndOneFails(records: seq<Frame>, taken: Frame, job: Resume.Job, attempts: seq<Resume.Attempt>)
    requires job.points == [0, 1000] && Resume.Writes(job, [taken], attempts, records)
    requires taken == Frame(0, 0, Some(0), Some(job.frameAt(0)), Shift.Taken, "", []) && job.present(job.frameAt(0))
    requires attempts == [Resume.Halt, Resume.NotCaptured("unavailable")]
    ensures records == [taken, Frame(1, 1000, None, None, Failed, "unavailable", [])]
  {
    assert [taken][..0] == [] && Resume.ReuseOf(job, [taken]) == map[0 := taken];
  }

  lemma JustZero(s: seq<int>)
    requires (forall i, j :: 0 <= i < j < |s| ==> s[i] < s[j]) && forall x :: x in s <==> x == 0
    ensures s == [0]
  {
    assert 0 in s;
    assert s[0] in s && s[|s| - 1] in s;
  }

  lemma TheSecondGoes(t: Tree, frameAt: int -> Path, a: Frame, b: Frame)
    requires t.record == Some(Run([0], [0], [0])) && t.manifests == map[0 := [a, b]]
    requires t.blobs == map[frameAt(0) := 1, frameAt(1) := 1] && frameAt(0) != frameAt(1)
    requires a.index == 0 && b.index == 1 && Captured(a) && Captured(b)
    requires a.path == Some(frameAt(0)) && b.path == Some(frameAt(1))
    ensures var d := Deletion(0, 1);
            Intact(t) && Names(t, d) && Intact(FrameStep(t, d)) && FrameStep(t, d).record == t.record &&
            FrameStep(t, d).manifests == map[0 := [a]] && FrameStep(t, d).blobs == map[frameAt(0) := 1]
  {
    var d := Deletion(0, 1);
    assert [a, b][1..] == [b] && Kept([b], 1) == [] && Gone([b], 1) == Some(b);
    assert Gone([a, b], 1) == Some(b) && Kept([a, b], 1) == [a];
    assert t.manifests[d.file := [a]] == map[0 := [a]];
    assert t.blobs - {frameAt(1)} == map[frameAt(0) := 1];
    assert a in t.manifests[0] && a in FrameStep(t, d).manifests[0];
  }

  function Plan(frameAt: int -> Path, present: Path -> bool): Resume.Job { Resume.Job([0, 1000], frameAt, present) }

  predicate NoPath(p: Path) { false }

  function OnDisk(t: Tree): Path -> bool { (p: Path) => p in t.blobs && t.blobs[p] > 0 }

  function BothTaken(): seq<Resume.Attempt> {
    [Resume.Shot(0, Shift.Taken, []), Resume.Shot(1000, Shift.Taken, [])]
  }

  function SecondFails(): seq<Resume.Attempt> { [Resume.Halt, Resume.NotCaptured("unavailable")] }

  /** The first run of the history below: two frames are taken and the file is complete. */
  method TakeTwo(frameAt: int -> Path) returns (first: Tree)
    requires frameAt(0) != frameAt(1)
    ensures 0 in first.manifests && Resume.Writes(Plan(frameAt, NoPath), [], BothTaken(), first.manifests[0])
    ensures var d := Deletion(0, 1);
            Intact(first) && Names(first, d) && Intact(FrameStep(first, d)) &&
            FrameStep(first, d).record == Some(Run([0], [0], [0])) && FrameStep(first, d).manifests.Keys == {0} &&
            FrameStep(first, d).manifests[0] == [Frame(0, 0, Some(0), Some(frameAt(0)), Shift.Taken, "", [])] &&
            FrameStep(first, d).blobs == map[frameAt(0) := 1]
  {
    var r := Resume.CapturePoints(Plan(frameAt, NoPath), [], BothTaken());
    TwoFramesAreTaken(r.records, Plan(frameAt, NoPath), BothTaken());
    var complete := Resume.MergeIndices([], if r.complete then [0] else []);
    JustZero(complete);
    first := Tree(Some(Run([0], [0], complete)), map[0 := r.records], map[frameAt(0) := 1, frameAt(1) := 1],
                  {}, {}, {}, multiset{});
    TheSecondGoes(first, frameAt, r.records[0], r.records[1]);
  }

  /** How a run comes to such a file: two frames are taken and the file is complete; the second is deleted; a
      run over this file and another takes the point again and fails. What is recorded as complete is merged,
      so the file is still listed, and deleting its one frame leaves it so. */
  method AGapIsReached(frameAt: int -> Path) returns (first: Tree, t: Tree)
    requires frameAt(0) != frameAt(1)
    ensures Intact(first) && Names(first, Deletion(0, 1)) && Intact(FrameStep(first, Deletion(0, 1)))
    ensures 0 in first.manifests && Resume.Writes(Plan(frameAt, NoPath), [], BothTaken(), first.manifests[0])
    ensures var second := FrameStep(first, Deletion(0, 1));
            t.manifests.Keys == {0} && t == second.(manifests := t.manifests) && 0 in second.manifests &&
            Resume.Writes(Plan(frameAt, OnDisk(second)), second.manifests[0], SecondFails(), t.manifests[0])
    ensures Names(t, Deletion(0, 0)) && Intact(t) && NotShared(t, Deletion(0, 0))
    ensures !Intact(FrameStep(t, Deletion(0, 0)))
  {
    first := TakeTwo(frameAt);
    var second := FrameStep(first, Deletion(0, 1));
    var again, taken := Plan(frameAt, OnDisk(second)), second.manifests[0][0];
    var r := Resume.CapturePoints(again, [taken], SecondFails());
    OneIsTakenAndOneFails(r.records, taken, again, SecondFails());
    var complete := Resume.MergeIndices(second.record.value.complete, if r.complete then [0] else []);
    JustZero(complete);
    t := second.(record := Some(second.record.value.(complete := complete)), manifests := map[0 := r.records]);
    TheGapStaysListed(t, frameAt);
  }

  /** A live rerun served from disk before is still served after, unless the file's last frame went. */
  lemma RerunStaysAHit(t: Tree, d: Deletion, selected: seq<int>)
    requires Names(t, d) && CacheHit(t, selected) && NotShared(t, d)
    requires forall i :: i in selected ==> i in t.record.value.videos
    ensures CacheHit(FrameStep(t, d), selected) <==> d.file !in selected || HasCaptured(KeptOf(t, d))
  {
    KeptWasThere(t, d);
    UnlistedMembers(t.record.value, d.file);
    var t' := FrameStep(t, d);
    if d.file !in selected || HasCaptured(KeptOf(t, d)) {
      forall i | i in selected
        ensures i in t'.record.value.complete && i in t'.manifests && Usable(t', t'.manifests[i]) {
        assert Usable(t, t.manifests[i]) && Listed(t, i);
      }
    }
  }

  /** At every step the other files are as they were, and every record that is kept keeps its number, its
      path and its frame. */
  lemma SurvivorsAreUntouched(t: Tree, d: Deletion, t': Tree)
    requires Names(t, d) && OnTheWay(t, d, t')
    ensures forall i :: i != d.file ==> (i in t'.manifests <==> i in t.manifests) &&
                                        (i in t.manifests ==> t'.manifests[i] == t.manifests[i])
    ensures d.file in t'.manifests && forall f :: f in KeptOf(t, d) ==> f in t'.manifests[d.file]
    ensures forall p :: p in t.blobs && GonePath(t, d) != Some(p) ==> p in t'.blobs && t'.blobs[p] == t.blobs[p]
    ensures t'.record.Some? && t'.record.value.selected == t.record.value.selected
  {
    KeptWasThere(t, d);
  }

  // ---- sheetTiles ----

  /** The sheet's tiles are the survivors in plan order, renumbered for the sheet alone, each beside the
      timecode it was asked for. */
  method SheetTiles(records: seq<Frame>) returns (points: seq<int>, tiles: seq<Frame>)
    ensures |points| == |records| && |tiles| == |records|
    ensures var sorted := Sort(records, (f: Frame) => f.index);
            |sorted| == |records| && forall i :: 0 <= i < |tiles| ==>
              tiles[i] == sorted[i].(index := i) && points[i] == sorted[i].requestedMs
    ensures multiset(Sort(records, (f: Frame) => f.index)) == multiset(records)
    ensures Ascending(Sort(records, (f: Frame) => f.index), (f: Frame) => f.index)
  {
    ghost var sorted := Sort(records, (f: Frame) => f.index);
    SortSorts(records, (f: Frame) => f.index);
    tiles := Sort(records, (f: Frame) => f.index);
    points := [];
    for i := 0 to |tiles|
      invariant |tiles| == |sorted| && |points| == i
      invariant forall k :: 0 <= k < i ==> tiles[k] == sorted[k].(index := k) && points[k] == sorted[k].requestedMs
      invariant forall k :: i <= k < |tiles| ==> tiles[k] == sorted[k]
    {
      points := points + [tiles[i].requestedMs];
      tiles := tiles[i := tiles[i].(index := i)];
    }
  }
}
