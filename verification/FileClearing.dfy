/** core.ClearFile (internal/core/delete.go): everything one file of a result set has on disk goes, the rest
    of the set stays servable, and a clear that was cut short can always be finished. */
module FileClearing {
  import opened Sorting
  import opened Paths
  import opened Manifest
  import opened ResultsTree

  datatype Outcome =
    | Cleared                                    // nothing of the file is left
    | ClearIncomplete                            // the record no longer lists the file, something survives
    | NoSuchFile | OutsideRun | RecordNotSaved   // nothing was done

  predicate Names(t: Tree, file: int) {
    t.record.Some? && file in t.record.value.videos
  }

  predicate FramesInside(l: Layout, t: Tree, file: int) {
    file in t.manifests ==>
      forall f :: f in t.manifests[file] && f.path.Some? ==> Within(l.runDir, f.path.value)
  }

  /** The disk a finished clear leaves. */
  function AfterClear(l: Layout, t: Tree, file: int): Tree
    requires t.record.Some?
  {
    FramesGone(l, file, t).(
      record := Some(Unlisted(t.record.value, file)), manifests := t.manifests - {file},
      sheets := t.sheets - {file}, dirs := t.dirs - {file})
  }

  /** That disk in full: of the file there is no manifest, sheet or directory left and no frame below its frames
      directory, the record no longer lists it, and everything else is as it was. */
  lemma AfterClearIs(l: Layout, t: Tree, file: int)
    requires t.record.Some?
    ensures var t' := AfterClear(l, t, file);
            (forall p :: p in t'.blobs <==>
               p in t.blobs &&
               !(p.rooted == l.runDir.rooted && l.runDir.parts + [l.slug(file), "frames"] < p.parts)) &&
            (forall p :: p in t'.blobs ==> t'.blobs[p] == t.blobs[p]) &&
            (forall i :: i in t'.manifests <==> i in t.manifests && i != file) &&
            (forall i :: i in t'.manifests ==> t'.manifests[i] == t.manifests[i]) &&
            (forall i :: i in t'.sheets <==> i in t.sheets && i != file) &&
            (forall i :: i in t'.frameDirs <==> i in t.frameDirs && i != file) &&
            (forall i :: i in t'.dirs <==> i in t.dirs && i != file) && t'.strays == t.strays &&
            t'.record.Some? && t'.record.value.videos == t.record.value.videos &&
            t'.record.value.selected == t.record.value.selected &&
            forall i :: i in t'.record.value.complete <==> i in t.record.value.complete && i != file
  {
    UnlistedMembers(t.record.value, file);
  }

  /** Past the commit point: the record no longer lists the file, and some of the file's own things have
      gone, nothing else. */
  ghost predicate Sweeping(l: Layout, file: int, t: Tree, t': Tree)
    requires t.record.Some?
  {
    t'.record == Some(Unlisted(t.record.value, file)) && t'.strays == t.strays &&
    FramesGoing(l, file, t, t.(blobs := t'.blobs, frameDirs := t'.frameDirs)) &&
    (t'.manifests == t.manifests || t'.manifests == t.manifests - {file}) &&
    (t'.sheets == t.sheets || t'.sheets == t.sheets - {file}) &&
    (t'.dirs == t.dirs || t'.dirs == t.dirs - {file})
  }

  /** A state on the way from t to AfterClear(t). */
  ghost predicate OnTheWay(l: Layout, file: int, t: Tree, t': Tree)
    requires t.record.Some?
  {
    t' == t || Sweeping(l, file, t, t')
  }

  lemma FramesGoOn(l: Layout, file: int, t: Tree, a: Tree, b: Tree)
    requires t.record.Some? && Sweeping(l, file, t, a) && FramesGoing(l, file, a, b)
    ensures Sweeping(l, file, t, b)
  {
  }

  lemma OthersGo(l: Layout, file: int, t: Tree, a: Tree)
    requires t.record.Some? && Sweeping(l, file, t, a)
    ensures Sweeping(l, file, t, a.(manifests := a.manifests - {file}))
    ensures Sweeping(l, file, t, a.(sheets := a.sheets - {file}))
    ensures Sweeping(l, file, t, a.(dirs := a.dirs - {file}))
  {
    assert a.manifests - {file} == t.manifests - {file};
    assert a.sheets - {file} == t.sheets - {file};
    assert a.dirs - {file} == t.dirs - {file};
  }

  lemma Shrunk(l: Layout, file: int, t: Tree, t': Tree)
    requires t.record.Some? && OnTheWay(l, file, t, t')
    ensures t'.record.Some? && AfterClear(l, t', file) == AfterClear(l, t, file)
  {
    if t' != t {
      UnlistedTwice(t.record.value, file);
      assert FramesGone(l, file, t').blobs == FramesGone(l, file, t).blobs;
      assert t'.manifests - {file} == t.manifests - {file};
      assert t'.sheets - {file} == t.sheets - {file};
      assert t'.dirs - {file} == t.dirs - {file};
      assert t'.frameDirs - {file} == t.frameDirs - {file};
    }
  }

  /** removeEmptied: success only when the directory is gone. */
  method RemoveEmptied(disk: Disk, file: int) returns (ok: bool)
    requires disk.Valid()
    modifies disk
    ensures disk.Valid()
    ensures ok ==> disk.now == old(disk.now).(dirs := old(disk.now).dirs - {file}) && file !in disk.now.dirs
    ensures ok ==> !Occupied(disk.now, file)
    ensures !ok ==> disk.now == old(disk.now)
    ensures disk.trail == old(disk.trail) || disk.trail == old(disk.trail) + [disk.now]
  {
    if file !in disk.now.dirs { return true; }
    var readable := *;
    if !readable || Occupied(disk.now, file) { return false; }
    ok := *;
    if ok { disk.Become(disk.now.(dirs := disk.now.dirs - {file})); }
  }

  method ClearFile(disk: Disk, file: int) returns (r: Outcome)
    requires disk.Valid()
    modifies disk
    ensures disk.Valid() && old(disk.trail) <= disk.trail
    ensures r == NoSuchFile <==> !Names(old(disk.now), file)
    ensures r == NoSuchFile <==>
              old(disk.now.record).None? || file !in old(disk.now.record).value.videos
    ensures r == OutsideRun <==>
              Names(old(disk.now), file) && file in old(disk.now.manifests) &&
              exists f :: f in old(disk.now.manifests)[file] && f.path.Some? &&
                          !Within(disk.layout.runDir, f.path.value)
    ensures r in {NoSuchFile, OutsideRun, RecordNotSaved} ==>
              disk.now == old(disk.now) && disk.trail == old(disk.trail)
    ensures r in {Cleared, ClearIncomplete} ==>
              Names(old(disk.now), file) && FramesInside(disk.layout, old(disk.now), file) &&
              disk.now.record == Some(Unlisted(old(disk.now).record.value, file))
    ensures r == Cleared ==>
              disk.now == AfterClear(disk.layout, old(disk.now), file) &&
              file !in disk.now.dirs && !Occupied(disk.now, file)
    ensures r == Cleared ==>
              forall p :: p in disk.now.blobs <==>
                            p in old(disk.now.blobs) &&
                            !(p.rooted == disk.layout.runDir.rooted &&
                              disk.layout.runDir.parts + [disk.layout.slug(file), "frames"] < p.parts)
    ensures Names(old(disk.now), file) ==>
              forall k :: |old(disk.trail)| <= k < |disk.trail| ==>
                            OnTheWay(disk.layout, file, old(disk.now), disk.trail[k])
  {
    if disk.now.record.None? { return NoSuchFile; }
    var record := disk.now.record.value;
    if file !in record.videos { return NoSuchFile; }
    if !FramesInside(disk.layout, disk.now, file) { return OutsideRun; }

    ghost var t := disk.now;
    var complete := WithoutIndex(record.complete, file);
    var ok := disk.SaveRun(record.(complete := complete));
    if !ok { return RecordNotSaved; }

    r := Sweep(disk, file, t);
  }

  /** Everything after the commit point: the manifest, the frames and the sheet, where a removal that fails
      does not stop the ones after it, and then the directory. */
  method Sweep(disk: Disk, file: int, ghost t: Tree) returns (r: Outcome)
    requires disk.Valid() && t.record.Some?
    requires disk.now == t.(record := Some(Unlisted(t.record.value, file)))
    modifies disk
    ensures disk.Valid() && old(disk.trail) <= disk.trail && (r == Cleared || r == ClearIncomplete)
    ensures Sweeping(disk.layout, file, t, disk.now)
    ensures r == Cleared ==> disk.now == AfterClear(disk.layout, t, file) && !Occupied(disk.now, file)
    ensures forall k :: |old(disk.trail)| <= k < |disk.trail| ==> Sweeping(disk.layout, file, t, disk.trail[k])
  {
    var ok := SweepContents(disk, file, t);
    if !ok { return ClearIncomplete; }
    OthersGo(disk.layout, file, t, disk.now);
    ok := RemoveEmptied(disk, file);
    r := if ok then Cleared else ClearIncomplete;
  }

  method SweepContents(disk: Disk, file: int, ghost t: Tree) returns (ok: bool)
    requires disk.Valid() && t.record.Some?
    requires disk.now == t.(record := Some(Unlisted(t.record.value, file)))
    modifies disk
    ensures disk.Valid() && old(disk.trail) <= disk.trail && Sweeping(disk.layout, file, t, disk.now)
    ensures ok ==> disk.now == AfterClear(disk.layout, t, file).(dirs := t.dirs)
    ensures forall k :: |old(disk.trail)| <= k < |disk.trail| ==> Sweeping(disk.layout, file, t, disk.trail[k])
  {
    OthersGo(disk.layout, file, t, disk.now);
    var manifestGone := disk.RemoveManifest(file);
    var framesGone := SweepFrames(disk, file, t);
    OthersGo(disk.layout, file, t, disk.now);
    var sheetGone := disk.RemoveSheet(file);
    ok := manifestGone && framesGone && sheetGone;
  }

  method SweepFrames(disk: Disk, file: int, ghost t: Tree) returns (ok: bool)
    requires disk.Valid() && t.record.Some? && Sweeping(disk.layout, file, t, disk.now)
    modifies disk
    ensures disk.Valid() && old(disk.trail) <= disk.trail && Sweeping(disk.layout, file, t, disk.now)
    ensures disk.now == old(disk.now).(blobs := disk.now.blobs, frameDirs := disk.now.frameDirs)
    ensures ok ==> disk.now == FramesGone(disk.layout, file, old(disk.now))
    ensures forall k :: |old(disk.trail)| <= k < |disk.trail| ==> Sweeping(disk.layout, file, t, disk.trail[k])
  {
    ghost var before := disk.now;
    ghost var n := |disk.trail|;
    ok := disk.RemoveFrames(file);
    FramesGoOn(disk.layout, file, t, before, disk.now);
    forall k | n <= k < |disk.trail| ensures Sweeping(disk.layout, file, t, disk.trail[k]) {
      FramesGoOn(disk.layout, file, t, before, disk.trail[k]);
    }
  }

  // ---- what a crash leaves, and what pressing again does ----

  /** No listed file other than this one has a frame among this file's frames. */
  ghost predicate OthersKeepOut(l: Layout, t: Tree, file: int) {
    forall i, f :: Listed(t, i) && i != file && i in t.manifests && f in t.manifests[i] && Captured(f) ==>
                     !Under(FramesDir(l, file), f.path.value)
  }

  /** Every captured frame of a listed file is where a run puts it, below that file's own frames directory. */
  ghost predicate FramesAtHome(l: Layout, t: Tree) {
    forall i, f :: Listed(t, i) && i in t.manifests && f in t.manifests[i] && Captured(f) ==>
                     Under(FramesDir(l, i), f.path.value)
  }

  /** Frames that are where they were put keep out of each other's way: no two files share a slug. */
  lemma HomesAreApart(l: Layout, t: Tree, file: int)
    requires WellLaid(l) && FramesAtHome(l, t)
    ensures OthersKeepOut(l, t, file)
  {
    forall i, f | Listed(t, i) && i != file && i in t.manifests && f in t.manifests[i] && Captured(f)
      ensures !Under(FramesDir(l, file), f.path.value)
    {
      var n := |l.runDir.parts|;
      assert FramesDir(l, i).parts[n] == l.slug(i) && FramesDir(l, file).parts[n] == l.slug(file);
    }
  }

  /** Whatever the clear had got to, every file still listed can be loaded and served, and the other files
      have not been touched. */
  lemma CrashLeavesRunIntact(l: Layout, t: Tree, file: int, t': Tree)
    requires t.record.Some? && Intact(t) && OthersKeepOut(l, t, file) && OnTheWay(l, file, t, t')
    ensures Intact(t')
    ensures forall i :: i != file ==> (i in t'.manifests <==> i in t.manifests) &&
                                      (i in t'.sheets <==> i in t.sheets) &&
                                      (i in t.manifests ==> t'.manifests[i] == t.manifests[i])
    ensures forall p :: p in t.blobs && !Under(FramesDir(l, file), p) ==> p in t'.blobs && t'.blobs[p] == t.blobs[p]
  {
    if t' != t {
      UnlistedMembers(t.record.value, file);
      forall i | i != file
        ensures (i in t'.manifests <==> i in t.manifests) && (i in t.manifests ==> t'.manifests[i] == t.manifests[i])
      {
        assert i in t'.manifests <==> i in t'.manifests - {file};
        assert i in t.manifests <==> i in t.manifests - {file};
        if i in t.manifests { assert (t'.manifests - {file})[i] == (t.manifests - {file})[i]; }
      }
      forall i | Listed(t', i) ensures i in t'.manifests && Usable(t', t'.manifests[i]) {
        assert Listed(t, i) && i != file;
        assert Usable(t, t.manifests[i]);
      }
    }
  }

  /** From anywhere a clear can stop, a clear that succeeds ends on the same disk. */
  lemma RetryConverges(l: Layout, t: Tree, file: int, stopped: Tree, done: Tree)
    requires t.record.Some? && OnTheWay(l, file, t, stopped)
    requires stopped.record.Some? && done == AfterClear(l, stopped, file)
    ensures done == AfterClear(l, t, file)
  {
    Shrunk(l, file, t, stopped);
  }

  /** A stop on the way from a stop on the way is itself on the way: any number of clears cut short can be
      finished by one more. */
  lemma StopsCompose(l: Layout, t: Tree, file: int, once: Tree, twice: Tree)
    requires t.record.Some? && OnTheWay(l, file, t, once) && once.record.Some? && OnTheWay(l, file, once, twice)
    ensures OnTheWay(l, file, t, twice)
  {
    UnlistedTwice(t.record.value, file);
  }

  /** What was asked for is never edited: after a clear the file is still selected, which is what lets a
      later run take it again. */
  lemma ClearCanBeUndone(l: Layout, t: Tree, file: int)
    requires Names(t, file)
    ensures var done := AfterClear(l, t, file);
            done.record.value.selected == t.record.value.selected && !Listed(done, file) && Names(done, file) &&
            forall i :: i != file ==> (Listed(done, i) <==> Listed(t, i))
  {
    UnlistedMembers(t.record.value, file);
  }
}
