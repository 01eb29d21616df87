/** Crash-ordered edits of one result set on disk: core.DeleteFrame and core.ClearFile
    (internal/core/delete.go) over the run record and manifests of internal/cache/cache.go. The disk keeps,
    as a ghost, every state it has been in, so a contract can speak of a crash between any two steps. */
module ResultsTree {
  import opened Sorting
  import opened Paths
  import opened Manifest

  /** run.json: the files of the torrent, what was ever asked for and what came out whole. */
  datatype Run = Run(videos: seq<int>, selected: seq<int>, complete: seq<int>)

  /** Where results live. slug is output.FileSlug of a file's own path. */
  datatype Layout = Layout(runDir: Path, slug: int -> string)

  ghost predicate WellLaid(l: Layout) {
    CleanDir(l.runDir) && (forall i :: Plain([l.slug(i)])) && forall i, j :: l.slug(i) == l.slug(j) ==> i == j
  }

  function FramesDir(l: Layout, file: int): Path {
    Below(l.runDir, [l.slug(file), "frames"])
  }

  predicate Under(dir: Path, p: Path) {
    p.rooted == dir.rooted && dir.parts < p.parts
  }

  /** One result set on disk. strays are entries of a file's directory that belong to nothing: the
      temporary files an interrupted atomic write leaves behind, or anything else put there. */
  datatype Tree = Tree(
    record: Option<Run>, manifests: map<int, seq<Frame>>, blobs: map<Path, nat>,
    sheets: set<int>, frameDirs: set<int>, dirs: set<int>, strays: multiset<int>)

  // ---- what a reader makes of it ----

  /** cache.Usable: some point is captured, and no captured point's frame is missing or empty. */
  predicate Usable(t: Tree, frames: seq<Frame>) {
    (forall f :: f in frames && Captured(f) ==> f.path.value in t.blobs && t.blobs[f.path.value] > 0) &&
    HasCaptured(frames)
  }

  predicate HasCaptured(frames: seq<Frame>) {
    exists f :: f in frames && Captured(f)
  }

  /** cache.Usable as it goes about it: a point that was not captured says nothing, a captured one must have a
      frame with something in it, and one such point there must be. */
  method CheckUsable(t: Tree, frames: seq<Frame>) returns (usable: bool)
    ensures usable <==> Usable(t, frames)
    ensures usable <==>
              (forall k :: 0 <= k < |frames| && frames[k].shift != Failed && frames[k].path.Some? ==>
                 frames[k].path.value in t.blobs && t.blobs[frames[k].path.value] != 0) &&
              exists k :: 0 <= k < |frames| && frames[k].shift != Failed && frames[k].path.Some?
  {
    var served := 0;
    for k := 0 to |frames|
      invariant 0 <= served
      invariant forall j :: 0 <= j < k && Captured(frames[j]) ==>
                  frames[j].path.value in t.blobs && t.blobs[frames[j].path.value] > 0
      invariant served > 0 <==> exists j :: 0 <= j < k && Captured(frames[j])
    {
      var f := frames[k];
      if f.shift == Failed || f.path.None? { continue; }
      if f.path.value !in t.blobs || t.blobs[f.path.value] == 0 { return false; }
      served := served + 1;
    }
    return served > 0;
  }

  predicate Listed(t: Tree, file: int) {
    t.record.Some? && file in t.record.value.videos && file in t.record.value.complete
  }

  /** Every file the record calls complete can be loaded and served. */
  ghost predicate Intact(t: Tree) {
    forall i :: Listed(t, i) ==> i in t.manifests && Usable(t, t.manifests[i])
  }

  /** loadCacheHit for a live request. */
  predicate CacheHit(t: Tree, selected: seq<int>) {
    t.record.Some? &&
    forall i :: i in selected ==> i in t.record.value.complete && i in t.manifests && Usable(t, t.manifests[i])
  }

  /** Everything but the directories and the temporary files in them. */
  function Core(t: Tree): Tree { t.(dirs := {}, strays := multiset{}) }

  /** os.ReadDir of the file's directory lists something. */
  predicate Occupied(t: Tree, file: int) {
    file in t.manifests || file in t.sheets || file in t.frameDirs || file in t.strays
  }

  /** What is in a file's directory is there only while the directory is. */
  ghost predicate Housed(t: Tree) {
    forall file :: Occupied(t, file) ==> file in t.dirs
  }

  // ---- withoutIndex ----

  function Dropped(indices: seq<int>, drop: int): seq<int> {
    if indices == [] then []
    else
      var last := indices[|indices| - 1];
      Dropped(indices[..|indices| - 1], drop) + if last != drop then [last] else []
  }

  method WithoutIndex(indices: seq<int>, drop: int) returns (out: seq<int>)
    ensures out == SortInts(Dropped(indices, drop))
    ensures multiset(out) == multiset(indices)[drop := 0] && forall i, j :: 0 <= i <= j < |out| ==> out[i] <= out[j]
  {
    out := [];
    for k := 0 to |indices|
      invariant out == Dropped(indices[..k], drop)
    {
      assert indices[..k + 1][..k] == indices[..k];
      if indices[k] != drop { out := out + [indices[k]]; }
    }
    assert indices[..|indices|] == indices;
    DroppedCounts(indices, drop);
    SortSorts(out, (x: int) => x);
    out := SortInts(out);
  }

  lemma {:induction false} DroppedMembers(indices: seq<int>, drop: int)
    ensures forall x :: x in Dropped(indices, drop) <==> x in indices && x != drop
  {
    if indices != [] {
      var front := indices[..|indices| - 1];
      DroppedMembers(front, drop);
      assert indices == front + [indices[|indices| - 1]];
    }
  }

  lemma {:induction false} DroppedCounts(indices: seq<int>, drop: int)
    ensures multiset(Dropped(indices, drop)) == multiset(indices)[drop := 0]
  {
    if indices != [] {
      var front := indices[..|indices| - 1];
      DroppedCounts(front, drop);
      assert indices == front + [indices[|indices| - 1]];
    }
  }

  lemma {:induction false} DroppedAbsent(indices: seq<int>, drop: int)
    requires drop !in indices
    ensures Dropped(indices, drop) == indices
  {
    if indices != [] {
      var front := indices[..|indices| - 1];
      assert indices == front + [indices[|indices| - 1]];
      DroppedAbsent(front, drop);
    }
  }

  function Unlisted(run: Run, file: int): Run {
    run.(complete := SortInts(Dropped(run.complete, file)))
  }

  lemma UnlistedMembers(run: Run, file: int)
    ensures forall x :: x in Unlisted(run, file).complete <==> x in run.complete && x != file
  {
    DroppedMembers(run.complete, file);
    SortHasSameElements(Dropped(run.complete, file), (x: int) => x);
  }

  lemma UnlistedTwice(run: Run, file: int)
    ensures Unlisted(Unlisted(run, file), file) == Unlisted(run, file)
  {
    UnlistedMembers(run, file);
    var c := Unlisted(run, file).complete;
    DroppedAbsent(c, file);
    SortSorts(Dropped(run.complete, file), (x: int) => x);
    SortOfSorted(c, (x: int) => x);
  }

  // ---- the disk ----

  datatype Artefact = ManifestOf(frames: seq<Frame>) | ContactSheet

  function Placed(t: Tree, file: int, what: Artefact): Tree {
    match what
    case ManifestOf(frames) => t.(manifests := t.manifests[file := frames])
    case ContactSheet => t.(sheets := t.sheets + {file})
  }

  class Disk {
    const layout: Layout
    var now: Tree
    ghost var trail: seq<Tree>

    ghost predicate Valid() reads this {
      trail != [] && trail[|trail| - 1] == now && Housed(now)
    }

    method Become(t: Tree)
      requires Valid() && Housed(t)
      modifies this
      ensures Valid() && now == t && trail == old(trail) + [t]
    {
      now := t;
      trail := trail + [t];
    }

    /** cache.SaveRun: the record is replaced whole or not at all. */
    method SaveRun(run: Run) returns (ok: bool)
      requires Valid()
      modifies this
      ensures Valid()
      ensures ok ==> now == old(now).(record := Some(run)) && trail == old(trail) + [now]
      ensures !ok ==> now == old(now) && trail == old(trail)
    {
      ok := *;
      if ok { Become(now.(record := Some(run))); }
    }

    /** Writer.WriteFile: a temporary file beside the artefact, renamed into place or removed again. The
        removal of a temporary file that was not placed may itself fail. */
    method WriteAtomic(file: int, what: Artefact) returns (ok: bool)
      requires Valid()
      modifies this
      ensures Valid() && old(trail) <= trail
      ensures Core(now) == Core(if ok then Placed(old(now), file, what) else old(now))
      ensures forall k :: |old(trail)| <= k < |trail| ==>
                Core(trail[k]) == Core(old(now)) || Core(trail[k]) == Core(Placed(old(now), file, what))
    {
      ok := *;
      if !ok { return; }
      Become(now.(dirs := now.dirs + {file}));
      Become(now.(strays := now.strays + multiset{file}));
      ok := *;
      if ok {
        Become(Placed(now, file, what).(strays := now.strays - multiset{file}));
      } else {
        var removed := *;
        if removed { Become(now.(strays := now.strays - multiset{file})); }
      }
    }

    /** os.Remove of a frame; one that is already gone is no error. */
    method RemoveFrame(path: Path) returns (ok: bool)
      requires Valid()
      modifies this
      ensures Valid()
      ensures ok ==> now == old(now).(blobs := old(now).blobs - {path}) && trail == old(trail) + [now]
      ensures !ok ==> now == old(now) && trail == old(trail)
    {
      ok := *;
      if ok { Become(now.(blobs := now.blobs - {path})); }
    }

    method RemoveManifest(file: int) returns (ok: bool)
      requires Valid()
      modifies this
      ensures Valid()
      ensures ok ==> now == old(now).(manifests := old(now).manifests - {file}) && trail == old(trail) + [now]
      ensures !ok ==> now == old(now) && trail == old(trail)
    {
      ok := *;
      if ok { Become(now.(manifests := now.manifests - {file})); }
    }

    method RemoveSheet(file: int) returns (ok: bool)
      requires Valid()
      modifies this
      ensures Valid()
      ensures ok ==> now == old(now).(sheets := old(now).sheets - {file}) && trail == old(trail) + [now]
      ensures !ok ==> now == old(now) && trail == old(trail)
    {
      ok := *;
      if ok { Become(now.(sheets := now.sheets - {file})); }
    }

    /** os.RemoveAll of a file's frames directory: frame by frame in any order, and it may stop anywhere. */
    method RemoveFrames(file: int) returns (ok: bool)
      requires Valid()
      modifies this
      ensures Valid() && old(trail) <= trail
      ensures forall k :: |old(trail)| <= k < |trail| ==> FramesGoing(layout, file, old(now), trail[k])
      ensures FramesGoing(layout, file, old(now), now)
      ensures ok ==> now == FramesGone(layout, file, old(now))
    {
      var todo := set p | p in now.blobs && Under(FramesDir(layout, file), p);
      ghost var start := now;
      while todo != {}
        invariant Valid() && old(trail) <= trail && FramesGoing(layout, file, start, now)
        invariant now.frameDirs == start.frameDirs
        invariant todo == set p | p in now.blobs && Under(FramesDir(layout, file), p)
        invariant forall k :: |old(trail)| <= k < |trail| ==> FramesGoing(layout, file, start, trail[k])
        decreases |todo|
      {
        var p :| p in todo;
        ok := *;
        if !ok { return; }
        Become(now.(blobs := now.blobs - {p}));
        todo := todo - {p};
      }
      ok := *;
      if !ok { return; }
      assert forall p :: p in now.blobs && Under(FramesDir(layout, file), p) ==> p in todo;
      assert now.blobs == FramesGone(layout, file, start).blobs;
      Become(now.(frameDirs := now.frameDirs - {file}));
    }
  }

  /** Some of the file's frames have gone, and nothing else has changed. */
  ghost predicate FramesGoing(l: Layout, file: int, t: Tree, t': Tree) {
    t' == t.(blobs := t'.blobs, frameDirs := t'.frameDirs) &&
    t.frameDirs - {file} <= t'.frameDirs <= t.frameDirs &&
    t'.blobs.Keys <= t.blobs.Keys && (forall p :: p in t'.blobs ==> t'.blobs[p] == t.blobs[p]) &&
    forall p :: p in t.blobs && !Under(FramesDir(l, file), p) ==> p in t'.blobs
  }

  function FramesGone(l: Layout, file: int, t: Tree): Tree {
    t.(blobs := map p | p in t.blobs && !Under(FramesDir(l, file), p) :: t.blobs[p],
       frameDirs := t.frameDirs - {file})
  }
}
