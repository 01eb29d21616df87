/** One file's record of its frames, and what lets a results tree be moved (internal/manifest/manifest.go). */
module Manifest {
  import opened Intervals
  import opened Paths

  datatype Shift = Taken | Shifted | Stepped | Failed

  /** One capture point. A path of None is the empty string: the point produced no frame. */
  datatype Frame = Frame(
    index: int, requestedMs: int, actualMs: Option<int>, path: Option<Path>,
    shift: Shift, error: string, byteRanges: seq<Span>)

  /** A point with a frame to show for it. */
  predicate Captured(f: Frame) {
    f.shift != Failed && f.path.Some?
  }

  function CountCaptured(records: seq<Frame>): nat {
    if records == [] then 0
    else CountCaptured(records[..|records| - 1]) + if Captured(records[|records| - 1]) then 1 else 0
  }

  lemma {:induction false} CountIsSize(records: seq<Frame>)
    ensures CountCaptured(records) == |set k | 0 <= k < |records| && Captured(records[k])|
  {
    var all := set k | 0 <= k < |records| && Captured(records[k]);
    if records == [] {
      assert all == {};
    } else {
      var n := |records| - 1;
      var front := records[..n];
      CountIsSize(front);
      var before := set k | 0 <= k < |front| && Captured(front[k]);
      assert all == before + if Captured(records[n]) then {n} else {};
    }
  }

  // ---- Relative and Resolved ----

  function RelativePath(dir: Path, path: Path): Path {
    var rel := Rel(dir, path);
    if rel.None? || !IsLocal(rel.value) then path else rel.value
  }

  /** The frame's own name one directory down from wherever it was recorded. */
  function Tail(path: Path): Path {
    Join(Base(Dir(path)), Base(path))
  }

  datatype Locations = Locations(fallback: Path, candidates: seq<Path>)

  function FrameLocations(dir: Path, path: Path): Locations {
    var fallback := if IsLocal(path) then Join(dir, path) else path;
    var own := if IsLocal(path) then [fallback] else [];
    var neighbour := Join(dir, Tail(path));
    var near := if IsLocal(Tail(path)) && neighbour !in own then own + [neighbour] else own;
    Locations(fallback, if path.rooted then near + [path] else near)
  }

  function FirstPresent(candidates: seq<Path>, present: Path -> bool, fallback: Path): Path {
    if candidates == [] then fallback
    else if present(candidates[0]) then candidates[0]
    else FirstPresent(candidates[1..], present, fallback)
  }

  function ResolvedPath(dir: Path, path: Path, present: Path -> bool): Path {
    var at := FrameLocations(dir, path);
    FirstPresent(at.candidates, present, at.fallback)
  }

  function Converted(f: Frame, convert: Path -> Path): Frame {
    if f.path.None? then f else f.(path := Some(convert(f.path.value)))
  }

  /** mapFramePaths: the records with every frame path rewritten, the rest as it was. */
  method MapFramePaths(frames: seq<Frame>, convert: Path -> Path) returns (out: seq<Frame>)
    ensures |out| == |frames|
    ensures forall k :: 0 <= k < |frames| ==>
              if frames[k].path.Some? then out[k] == frames[k].(path := Some(convert(frames[k].path.value)))
              else out[k] == frames[k]
  {
    out := frames;
    for i := 0 to |frames|
      invariant |out| == |frames|
      invariant forall k :: 0 <= k < |frames| ==> out[k] == if k < i then Converted(frames[k], convert) else frames[k]
    {
      if frames[i].path.Some? {
        out := out[i := frames[i].(path := Some(convert(frames[i].path.value)))];
      }
    }
  }

  // ---- moving a tree ----

  function Below(dir: Path, tail: seq<string>): Path {
    Path(dir.rooted, dir.parts + tail)
  }

  /** The tail of a plain path is its last two elements, or all of them when there are fewer. */
  lemma PlainTail(p: Path)
    requires Plain(p.parts) && (p.rooted ==> |p.parts| >= 2)
    ensures Tail(p) == Path(false, if |p.parts| >= 2 then p.parts[|p.parts| - 2..] else p.parts)
    ensures Plain(Tail(p).parts)
  {
    if |p.parts| >= 2 {
      var n := |p.parts|;
      PlainIsClean(Path(p.rooted, p.parts[..n - 1]));
      assert Base(Dir(p)) == Path(false, [p.parts[n - 2]]) && Base(p) == Path(false, [p.parts[n - 1]]);
      JoinPlain(Base(Dir(p)), Base(p));
      assert p.parts[n - 2..] == [p.parts[n - 2]] + [p.parts[n - 1]];
    } else if p.parts != [] {
      PlainIsClean(Path(p.rooted, []));
      assert p.parts[..0] == [] && Base(Dir(p)) == Path(false, []);
      JoinPlain(Base(Dir(p)), Base(p));
      assert p.parts == [] + [p.parts[0]];
    } else {
      PlainIsClean(p);
      JoinPlain(p, p);
    }
  }

  lemma FirstOfOne(a: Path, present: Path -> bool, fallback: Path)
    ensures FirstPresent([a], present, fallback) == if present(a) then a else fallback
  {
    assert [a][1..] == [];
  }

  lemma FirstOfTwo(a: Path, b: Path, present: Path -> bool, fallback: Path)
    ensures FirstPresent([a, b], present, fallback) ==
            if present(a) then a else if present(b) then b else fallback
  {
    assert [a, b][1..] == [b];
    FirstOfOne(b, present, fallback);
  }

  lemma FirstPresentIsOneOf(candidates: seq<Path>, present: Path -> bool, fallback: Path)
    ensures var r := FirstPresent(candidates, present, fallback); r == fallback || r in candidates
    decreases |candidates|
  {
    if candidates != [] { FirstPresentIsOneOf(candidates[1..], present, fallback); }
  }

  lemma PlainLocations(dir: Path, tail: seq<string>)
    requires CleanDir(dir) && Plain(tail)
    ensures FrameLocations(dir, Path(false, tail)) ==
            Locations(Below(dir, tail),
                      if |tail| <= 2 then [Below(dir, tail)] else [Below(dir, tail), Below(dir, tail[|tail| - 2..])])
  {
    var local := Path(false, tail);
    PlainTail(local);
    JoinPlain(dir, local);
    JoinPlain(dir, Tail(local));
    if |tail| > 2 { assert |Below(dir, tail).parts| != |Below(dir, tail[|tail| - 2..]).parts|; }
  }

  /** Recording a frame against one directory and resolving it against another yields the frame's image
      under the move, whatever is on disk - as long as the frame lies no more than one directory down,
      where every frame does. Deeper, a file of the same name one directory down can stand in for a
      missing frame. */
  lemma FramesMoveWithTheirTree(origin: Path, copy: Path, tail: seq<string>, present: Path -> bool)
    requires CleanDir(origin) && CleanDir(copy) && Plain(tail)
    ensures ResolvedPath(copy, RelativePath(origin, Below(origin, tail)), present) == Below(copy, tail) <==>
            |tail| <= 2 || present(Below(copy, tail)) || !present(Below(copy, tail[|tail| - 2..]))
  {
    RelOfInside(origin, tail);
    PlainIsClean(Path(false, tail));
    PlainLocations(copy, tail);
    FirstOfOne(Below(copy, tail), present, Below(copy, tail));
    if |tail| > 2 {
      assert |Below(copy, tail).parts| != |Below(copy, tail[|tail| - 2..]).parts|;
      FirstOfTwo(Below(copy, tail), Below(copy, tail[|tail| - 2..]), present, Below(copy, tail));
    }
  }

  /** Recording twice is recording once. */
  lemma RelativeIsIdempotent(dir: Path, path: Path)
    requires CleanDir(dir)
    ensures RelativePath(dir, RelativePath(dir, path)) == RelativePath(dir, path)
  {
    if RelativePath(dir, path) != path { assert Rel(dir, RelativePath(dir, path)).None?; }
  }

  /** A frame is recorded relative exactly when it lies inside the directory. */
  lemma RecordedRelativeIffInside(dir: Path, path: Path)
    requires CleanDir(dir) && path.rooted
    ensures RelativePath(dir, path) != path <==> Within(dir, path)
    ensures Within(dir, path) ==> IsLocal(RelativePath(dir, path))
  {
    PlainIsClean(dir);
    CleanTwice(path);
    var t := Clean(path).parts;
    var c := CommonPrefix(dir.parts, t);
    CommonPrefixFits(dir.parts, t);
    var ups := CleanIsStacked(true, [], path.parts, 0);
    assert t[0..] == t && Plain(t[c..]);
    var n, rest := |dir.parts| - c, t[c..];
    CleanInTwo(false, [], Ups(n), rest);
    CleanUps([], n);
    assert [] + Ups(n) == Ups(n);
    CleanPlain(false, Ups(n), rest);
  }

  /** A record that is local never resolves outside the directory its manifest was read from. */
  lemma LocalResolvesInside(dir: Path, path: Path, present: Path -> bool)
    requires CleanDir(dir) && IsLocal(path)
    ensures Within(dir, ResolvedPath(dir, path, present))
  {
    JoinLocal(dir, path);
    if IsLocal(Tail(path)) { JoinLocal(dir, Tail(path)); }
    var at := FrameLocations(dir, path);
    FirstPresentIsOneOf(at.candidates, present, at.fallback);
    assert forall c :: c in at.candidates ==>
      c == Join(dir, path) || (IsLocal(Tail(path)) && c == Join(dir, Tail(path)));
  }

  /** An old absolute record resolves to the copy's own frame whenever that is on disk, even when the
      original still is too; only when it is not does the record mean what it says. */
  lemma CopyServesItsOwnFrames(dir: Path, pre: seq<string>, a: string, b: string, present: Path -> bool)
    requires CleanDir(dir) && Plain(pre + [a, b])
    ensures var record, own := Path(true, pre + [a, b]), Below(dir, [a, b]);
            ResolvedPath(dir, record, present) == if present(own) then own else record
  {
    var record := Path(true, pre + [a, b]);
    PlainTail(record);
    assert record.parts[|record.parts| - 2..] == [a, b];
    JoinPlain(dir, Tail(record));
    FirstOfTwo(Below(dir, [a, b]), record, present, record);
  }

  /** A frame recorded inside the directory is recorded as what follows the directory's elements in its own, once
      cleaned; one recorded elsewhere as it was. */
  lemma RecordedAsItsTail(dir: Path, path: Path)
    requires CleanDir(dir) && path.rooted
    ensures RelativePath(dir, path) == if dir.parts <= Clean(path).parts
                                       then Path(false, Clean(path).parts[|dir.parts|..]) else path
  {
    WithinMeans(dir, path);
    RecordedRelativeIffInside(dir, path);
  }
}
