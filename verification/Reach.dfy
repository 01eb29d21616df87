/** The strip of pieces a set's frames came from (web.reachOf, internal/web/listing.go), and the whole way
    back from it to the orders that were placed. */
module Reach {
  import opened Intervals
  import opened Geometry
  import opened Manifest
  import opened Paths
  import opened Provenance
  import opened Sets

  datatype Reach = Reach(
    firstPiece: int, pieces: int, pieceBytes: int,
    claimed: seq<Span>, claimedPieces: int, captured: nat, located: nat)

  predicate Located(f: Frame) { Captured(f) && f.byteRanges != [] }

  function LocatedCount(frames: seq<Frame>): nat {
    if frames == [] then 0
    else LocatedCount(frames[..|frames| - 1]) + if Located(frames[|frames| - 1]) then 1 else 0
  }

  /** The pieces of the file the captured frames say they came from. */
  function FramePieces(frames: seq<Frame>, file: FileInfo, p: int): set<int>
    requires p > 0
  {
    if frames == [] then {}
    else
      var last := frames[|frames| - 1];
      FramePieces(frames[..|frames| - 1], file, p) +
      if Captured(last) then PiecesOfBytes(file, p, Points(last.byteRanges)) else {}
  }

  /** One of them, by frame and byte: a captured frame records a byte of the file that lies in the piece. */
  ghost predicate FromAFrame(frames: seq<Frame>, file: FileInfo, p: int, piece: int)
    requires p > 0
  {
    exists n :: 0 <= n < |frames| && frames[n].shift != Failed && frames[n].path.Some? &&
                RecordsOf(frames[n], file, p, piece)
  }

  ghost predicate RecordsOf(f: Frame, file: FileInfo, p: int, piece: int)
    requires p > 0
  {
    exists x :: 0 <= x < file.length && x in Points(f.byteRanges) && piece * p <= file.offset + x < piece * p + p
  }

  lemma RecordsAre(f: Frame, file: FileInfo, p: int, piece: int)
    requires p > 0
    ensures RecordsOf(f, file, p, piece) <==> piece in PiecesOfBytes(file, p, Points(f.byteRanges))
  {
    if x :| 0 <= x < file.length && x in Points(f.byteRanges) && piece * p <= file.offset + x < piece * p + p {
      PieceOfByte(file.offset + x, p, piece);
    }
    if piece in PiecesOfBytes(file, p, Points(f.byteRanges)) {
      var x :| x in Points(f.byteRanges) && 0 <= x < file.length && (file.offset + x) / p == piece;
      PieceOfByte(file.offset + x, p, piece);
    }
  }

  lemma {:induction false} FramePiecesAre(frames: seq<Frame>, file: FileInfo, p: int, piece: int)
    requires p > 0
    ensures piece in FramePieces(frames, file, p) <==> FromAFrame(frames, file, p, piece)
  {
    if frames != [] {
      var front, last := frames[..|frames| - 1], frames[|frames| - 1];
      FramePiecesAre(front, file, p, piece);
      RecordsAre(last, file, p, piece);
      if FromAFrame(front, file, p, piece) {
        var n :| 0 <= n < |front| && front[n].shift != Failed && front[n].path.Some? &&
                 RecordsOf(front[n], file, p, piece);
        assert frames[n] == front[n];
      }
      if FromAFrame(frames, file, p, piece) && !(Captured(last) && RecordsOf(last, file, p, piece)) {
        var n :| 0 <= n < |frames| && frames[n].shift != Failed && frames[n].path.Some? &&
                 RecordsOf(frames[n], file, p, piece);
        assert front[n] == frames[n];
      }
    }
  }

  lemma {:induction false} LocatedIsSize(frames: seq<Frame>)
    ensures LocatedCount(frames) == |set k | 0 <= k < |frames| && Located(frames[k])|
  {
    var all := set k | 0 <= k < |frames| && Located(frames[k]);
    if frames == [] {
      assert all == {};
    } else {
      var n := |frames| - 1;
      var front := frames[..n];
      LocatedIsSize(front);
      var before := set k | 0 <= k < |front| && Located(front[k]);
      assert all == before + if Located(frames[n]) then {n} else {};
    }
  }

  lemma {:induction false} NoneIsLocated(frames: seq<Frame>)
    ensures LocatedCount(frames) == 0 <==> forall f :: f in frames ==> !Located(f)
  {
    if frames != [] {
      var front, last := frames[..|frames| - 1], frames[|frames| - 1];
      NoneIsLocated(front);
      assert frames == front + [last];
    }
  }

  function Raised(s: set<int>, up: int): set<int> {
    set k | k in s :: k + up
  }

  /** The points of out, counted from zero rather than from first. */
  function Lifted(out: seq<Span>, first: int): set<int> {
    Raised(Points(out), first)
  }

  lemma LiftedAppend(out: seq<Span>, s: Span, first: int)
    ensures Lifted(out + [Span(s.begin - first, s.end - first)], first) == Lifted(out, first) + Range(s)
  {
    var low := Span(s.begin - first, s.end - first);
    PointsAppend(out, low);
    forall x | x in Range(s) ensures x in Lifted(out + [low], first) {
      assert x - first in Range(low);
    }
  }

  /** One more byte range of a frame, as pieces counted from the file's first. */
  function WithSpan(ranges: seq<Span>, r: Span, file: FileInfo, p: int): seq<Span>
    requires p > 0
  {
    var pieces := PieceSpanOf(r, file, p);
    if pieces.Err? then ranges
    else ranges + [Span(pieces.value.begin - FirstPiece(file, p), pieces.value.end - FirstPiece(file, p))]
  }

  lemma SpanAdds(ranges: seq<Span>, r: Span, file: FileInfo, p: int)
    requires p > 0 && Proper(ranges)
    ensures Proper(WithSpan(ranges, r, file, p))
    ensures Lifted(WithSpan(ranges, r, file, p), FirstPiece(file, p)) ==
            Lifted(ranges, FirstPiece(file, p)) + PiecesOfBytes(file, p, Range(r))
  {
    SpanExpands(r, file, p);
    var pieces := PieceSpanOf(r, file, p);
    if pieces.Ok? {
      SpanIsProper(r, file, p);
      LiftedAppend(ranges, pieces.value, FirstPiece(file, p));
    }
  }

  /** Adds one frame's ranges. */
  method AppendSpans(ranges: seq<Span>, byteRanges: seq<Span>, file: FileInfo, p: int) returns (out: seq<Span>)
    requires p > 0 && Proper(ranges)
    ensures Proper(out)
    ensures Lifted(out, FirstPiece(file, p)) ==
            Lifted(ranges, FirstPiece(file, p)) + PiecesOfBytes(file, p, Points(byteRanges))
  {
    out := ranges;
    for k := 0 to |byteRanges|
      invariant Proper(out)
      invariant Lifted(out, FirstPiece(file, p)) ==
                Lifted(ranges, FirstPiece(file, p)) + PiecesOfBytes(file, p, Points(byteRanges[..k]))
    {
      var r := byteRanges[k];
      assert byteRanges[..k + 1] == byteRanges[..k] + [r];
      PointsAppend(byteRanges[..k], r);
      PiecesOfUnion(file, p, Points(byteRanges[..k]), Range(r));
      SpanAdds(out, r, file, p);
      out := WithSpan(out, r, file, p);
    }
    assert byteRanges[..|byteRanges|] == byteRanges;
  }

  lemma SpanIsProper(r: Span, file: FileInfo, p: int)
    requires p > 0 && PieceSpanOf(r, file, p).Ok?
    ensures PieceSpanOf(r, file, p).value.begin < PieceSpanOf(r, file, p).value.end
  {
    var b := if r.begin < 0 then 0 else r.begin;
    var e := if r.end > file.length then file.length else r.end;
    DivisionClimbs(file.offset + b, file.offset + e - 1, p);
  }

  method GatherRanges(frames: seq<Frame>, file: FileInfo, p: int)
    returns (ranges: seq<Span>, captured: nat, located: nat)
    requires p > 0
    ensures Proper(ranges) && captured == CountCaptured(frames) && located == LocatedCount(frames)
    ensures located <= captured && Lifted(ranges, FirstPiece(file, p)) == FramePieces(frames, file, p)
  {
    ranges, captured, located := [], 0, 0;
    for k := 0 to |frames|
      invariant Proper(ranges) && captured == CountCaptured(frames[..k]) && located == LocatedCount(frames[..k])
      invariant located <= captured && Lifted(ranges, FirstPiece(file, p)) == FramePieces(frames[..k], file, p)
    {
      assert frames[..k + 1][..k] == frames[..k];
      var f := frames[k];
      if Captured(f) {
        captured := captured + 1;
        if f.byteRanges != [] {
          located := located + 1;
          ranges := AppendSpans(ranges, f.byteRanges, file, p);
        }
      }
    }
    assert frames[..|frames|] == frames;
  }

  method SumLengths(spans: seq<Span>) returns (total: int)
    ensures total == TotalLength(spans)
  {
    total := 0;
    for k := 0 to |spans|
      invariant total == TotalLength(spans[..k])
    {
      assert spans[..k + 1][..k] == spans[..k];
      total := total + spans[k].end - spans[k].begin;
    }
    assert spans[..|spans|] == spans;
  }

  /** r draws the frames: the canonical form of exactly the pieces the captured frames record, counted from
      the file's first piece and inside its stretch, with their number as the total. */
  ghost predicate Draws(r: Reach, frames: seq<Frame>, file: FileInfo, p: int)
    requires p > 0
  {
    r.firstPiece == FirstPiece(file, p) && r.pieceBytes == p &&
    r.firstPiece + r.pieces - 1 == LastPiece(file, p) &&
    r.captured == CountCaptured(frames) && r.located == LocatedCount(frames) &&
    Canonical(r.claimed) && Lifted(r.claimed, r.firstPiece) == FramePieces(frames, file, p) &&
    (forall k :: k in Points(r.claimed) ==> 0 <= k < r.pieces) &&
    r.claimedPieces == |FramePieces(frames, file, p)|
  }

  lemma ClaimedCounts(claimed: seq<Span>, first: int, pieces: set<int>)
    requires Canonical(claimed) && Lifted(claimed, first) == pieces
    ensures TotalLength(claimed) == |pieces|
  {
    LengthsCountPoints(claimed);
    RaisedKeepsSize(Points(claimed), first);
  }

  lemma ClaimedPieceFits(claimed: seq<Span>, frames: seq<Frame>, file: FileInfo, p: int, k: int)
    requires p > 0 && Lifted(claimed, FirstPiece(file, p)) == FramePieces(frames, file, p) && k in Points(claimed)
    ensures 0 <= k < LastPiece(file, p) - FirstPiece(file, p) + 1
  {
    var piece := k + FirstPiece(file, p);
    InRaised(Points(claimed), FirstPiece(file, p), piece);
    FramePiecesInFile(frames, file, p, piece);
  }

  lemma ClaimedFits(claimed: seq<Span>, frames: seq<Frame>, file: FileInfo, p: int)
    requires p > 0 && Canonical(claimed) && Lifted(claimed, FirstPiece(file, p)) == FramePieces(frames, file, p)
    ensures TotalLength(claimed) == |FramePieces(frames, file, p)|
    ensures forall k :: k in Points(claimed) ==> 0 <= k < LastPiece(file, p) - FirstPiece(file, p) + 1
  {
    ClaimedCounts(claimed, FirstPiece(file, p), FramePieces(frames, file, p));
    forall k | k in Points(claimed) ensures 0 <= k < LastPiece(file, p) - FirstPiece(file, p) + 1 {
      ClaimedPieceFits(claimed, frames, file, p, k);
    }
  }

  /** The same frame by frame: a block is drawn exactly where a captured frame records a byte of the file, and the
      frames counted are those captured and, among them, those with ranges. */
  ghost predicate ShowsTheFrames(r: Reach, frames: seq<Frame>, file: FileInfo, p: int)
    requires p > 0
  {
    (forall k :: k in Points(r.claimed) <==> FromAFrame(frames, file, p, r.firstPiece + k)) &&
    r.captured == |set n | 0 <= n < |frames| && Captured(frames[n])| &&
    r.located == |set n | 0 <= n < |frames| && Located(frames[n])|
  }

  lemma DrawnIsShown(r: Reach, frames: seq<Frame>, file: FileInfo, p: int)
    requires p > 0 && Draws(r, frames, file, p)
    ensures ShowsTheFrames(r, frames, file, p)
  {
    CountIsSize(frames);
    LocatedIsSize(frames);
    DrawnWhere(r.claimed, r.firstPiece, frames, file, p);
  }

  lemma DrawnAt(claimed: seq<Span>, first: int, frames: seq<Frame>, file: FileInfo, p: int, k: int)
    requires p > 0 && Lifted(claimed, first) == FramePieces(frames, file, p)
    ensures k in Points(claimed) <==> FromAFrame(frames, file, p, first + k)
  {
    InRaised(Points(claimed), first, first + k);
    FramePiecesAre(frames, file, p, first + k);
  }

  lemma DrawnWhere(claimed: seq<Span>, first: int, frames: seq<Frame>, file: FileInfo, p: int)
    requires p > 0 && Lifted(claimed, first) == FramePieces(frames, file, p)
    ensures forall k :: k in Points(claimed) <==> FromAFrame(frames, file, p, first + k)
  {
    forall k ensures k in Points(claimed) <==> FromAFrame(frames, file, p, first + k) {
      DrawnAt(claimed, first, frames, file, p, k);
    }
  }

  /** There is nothing to say when the geometry is missing or no captured frame knows where it came from;
      otherwise the answer draws the frames. */
  method ReachOf(frames: seq<Frame>, file: FileInfo, pieceBytes: int) returns (r: Option<Reach>)
    ensures r.None? <==> pieceBytes <= 0 || file.length <= 0 || LocatedCount(frames) == 0
    ensures r.None? <==>
              pieceBytes <= 0 || file.length <= 0 ||
              forall f :: f in frames && f.shift != Failed && f.path.Some? ==> f.byteRanges == []
    ensures r.Some? ==> Draws(r.value, frames, file, pieceBytes) && ShowsTheFrames(r.value, frames, file, pieceBytes)
  {
    NoneIsLocated(frames);
    if pieceBytes <= 0 || file.length <= 0 { return None; }
    var first, last := file.offset / pieceBytes, (file.offset + file.length - 1) / pieceBytes;
    var ranges, captured, located := GatherRanges(frames, file, pieceBytes);
    if captured == 0 || located == 0 { return None; }
    var claimed := Coalesce(ranges);
    var total := SumLengths(claimed);
    ClaimedFits(claimed, frames, file, pieceBytes);
    r := Some(Reach(first, last - first + 1, pieceBytes, claimed, total, captured, located));
    DrawnIsShown(r.value, frames, file, pieceBytes);
  }

  lemma InRaised(s: set<int>, up: int, y: int)
    ensures y in Raised(s, up) <==> y - up in s
  {
    if y - up in s { assert y == (y - up) + up; }
  }

  lemma {:induction false} RaisedKeepsSize(s: set<int>, up: int)
    ensures |Raised(s, up)| == |s|
  {
    if s != {} {
      var x := Member(s);
      RaisedKeepsSize(s - {x}, up);
      forall y ensures y in Raised(s, up) <==> y in Raised(s - {x}, up) + {x + up} {
        InRaised(s, up, y);
        InRaised(s - {x}, up, y);
      }
      SameMembers(Raised(s, up), Raised(s - {x}, up) + {x + up});
    }
  }

  lemma {:induction false} FramePiecesInFile(frames: seq<Frame>, file: FileInfo, p: int, k: int)
    requires p > 0 && k in FramePieces(frames, file, p)
    ensures FirstPiece(file, p) <= k <= LastPiece(file, p)
  {
    var front, last := frames[..|frames| - 1], frames[|frames| - 1];
    if k in FramePieces(front, file, p) {
      FramePiecesInFile(front, file, p, k);
    } else {
      var x :| x in Points(last.byteRanges) && 0 <= x < file.length && (file.offset + x) / p == k;
      DivisionClimbs(file.offset, file.offset + x, p);
      DivisionClimbs(file.offset + x, file.offset + file.length - 1, p);
    }
  }

  // ---- end to end ----

  /** What EndClaimLog promises of the ranges it hands to a captured frame. */
  ghost predicate CameFrom(f: Frame, t: Layout, file: int, claims: seq<Span>)
    requires t.pieceLength > 0 && 0 <= file < |t.files|
  {
    PiecesOfBytes(t.files[file], t.pieceLength, Points(f.byteRanges)) ==
    Points(claims) * PiecesOfNonEmptyFile(t.files[file], t.pieceLength)
  }

  /** The pieces ordered while the captured frames were being taken. */
  function OrderedForCaptured(frames: seq<Frame>, claims: seq<seq<Span>>): set<int>
    requires |frames| == |claims|
  {
    if frames == [] then {}
    else
      var n := |frames| - 1;
      OrderedForCaptured(frames[..n], claims[..n]) + if Captured(frames[n]) then Points(claims[n]) else {}
  }

  /** The strip shows exactly the pieces of the file that were ordered for the frames it holds. */
  lemma {:induction false} StripShowsWhatWasOrdered(t: Layout, file: int, frames: seq<Frame>, claims: seq<seq<Span>>)
    requires Laid(t) && 0 <= file < |t.files| && |frames| == |claims|
    requires forall k :: 0 <= k < |frames| && Captured(frames[k]) ==> CameFrom(frames[k], t, file, claims[k])
    ensures FramePieces(frames, t.files[file], t.pieceLength) ==
            OrderedForCaptured(frames, claims) * PiecesOfNonEmptyFile(t.files[file], t.pieceLength)
    decreases |frames|
  {
    if frames != [] {
      var n := |frames| - 1;
      var fs, cs := frames[..n], claims[..n];
      forall k | 0 <= k < |fs| && Captured(fs[k]) ensures CameFrom(fs[k], t, file, cs[k]) {
        assert CameFrom(frames[k], t, file, claims[k]);
      }
      StripShowsWhatWasOrdered(t, file, fs, cs);
    }
  }

  /** What is done to the torrent while several files are captured: a point's log is opened, ranges are read,
      the point is settled. The actions of different files come in any order. */
  datatype Action =
    | Open(file: int)
    | Read(file: int, off: int, length: int, window: int)
    | Settle(file: int, record: Frame)

  function Told(t: Layout, a: Action): seq<Event> {
    match a
    case Open(file) => [Opened(file)]
    case Settle(file, _) => [Closed(file)]
    case Read(file, off, length, window) =>
      var pieces := WindowFor(t, file, off, length, window);
      if pieces.Ok? then [Ordered(file, pieces.value)] else []
  }

  function HistoryOf(t: Layout, script: seq<Action>): seq<Event> {
    if script == [] then [] else HistoryOf(t, script[..|script| - 1]) + Told(t, script[|script| - 1])
  }

  /** What the torrent was asked for, for a file's point, since the point's log was opened. */
  function OrderedNow(h: seq<Event>, file: int): seq<Span> {
    if Recording(h, file) then OrderedSince(h, file) else []
  }

  /** The pieces ordered for a file while the logs of its captured points were open. */
  function OrderedFor(t: Layout, script: seq<Action>, file: int): set<int> {
    if script == [] then {}
    else
      var front, last := script[..|script| - 1], script[|script| - 1];
      OrderedFor(t, front, file) +
      if last.Settle? && last.file == file && Captured(last.record) then Points(OrderedNow(HistoryOf(t, front), file))
      else {}
  }

  lemma OneMoreAction(t: Layout, script: seq<Action>, a: Action, file: int)
    ensures HistoryOf(t, script + [a]) == HistoryOf(t, script) + Told(t, a)
    ensures OrderedFor(t, script + [a], file) ==
            OrderedFor(t, script, file) +
            if a.Settle? && a.file == file && Captured(a.record) then Points(OrderedNow(HistoryOf(t, script), file))
            else {}
  {
    assert (script + [a])[..|script|] == script;
  }

  lemma OneMoreFrame(frames: seq<Frame>, claims: seq<seq<Span>>, f: Frame, claim: seq<Span>)
    requires |frames| == |claims|
    ensures OrderedForCaptured(frames + [f], claims + [claim]) ==
            OrderedForCaptured(frames, claims) + if Captured(f) then Points(claim) else {}
  {
    assert (frames + [f])[..|frames|] == frames && (claims + [claim])[..|claims|] == claims;
  }

  /** Where a capture has got to: the frames of the file so far, each with what was ordered for it. */
  ghost predicate CapturedSoFar(t: Layout, script: seq<Action>, file: int, frames: seq<Frame>, claims: seq<seq<Span>>)
    requires t.pieceLength > 0 && 0 <= file < |t.files|
  {
    |frames| == |claims| && OrderedForCaptured(frames, claims) == OrderedFor(t, script, file) &&
    forall k :: 0 <= k < |frames| && Captured(frames[k]) ==>
      CameFrom(frames[k], t, file, claims[k]) && Canonical(frames[k].byteRanges) &&
      forall x :: x in Points(frames[k].byteRanges) ==> 0 <= x < t.files[file].length
  }

  lemma AnotherFrame(t: Layout, script: seq<Action>, file: int, frames: seq<Frame>, claims: seq<seq<Span>>,
                     record: Frame, f: Frame)
    requires Laid(t) && 0 <= file < |t.files| && CapturedSoFar(t, script, file, frames, claims)
    requires f == record.(byteRanges := f.byteRanges)
    requires Captured(f) ==>
               CameFrom(f, t, file, OrderedNow(HistoryOf(t, script), file)) && Canonical(f.byteRanges) &&
               forall x :: x in Points(f.byteRanges) ==> 0 <= x < t.files[file].length
    ensures CapturedSoFar(t, script + [Settle(file, record)], file, frames + [f],
                          claims + [OrderedNow(HistoryOf(t, script), file)])
  {
    OneMoreAction(t, script, Settle(file, record), file);
    OneMoreFrame(frames, claims, f, OrderedNow(HistoryOf(t, script), file));
  }

  /** One settled point of any file: its log is closed whatever became of it, and what the log held goes on the
      record of a point that has a frame to show. */
  method SettlePoint(torrent: Torrent, file: int, record: Frame) returns (f: Frame)
    requires torrent.Valid()
    modifies torrent`claimLog, torrent`history
    ensures torrent.Valid() && torrent.history == old(torrent.history) + [Closed(file)]
    ensures f == record.(byteRanges := f.byteRanges) && Canonical(f.byteRanges)
    ensures 0 <= file < |torrent.layout.files| && Captured(f) ==>
              CameFrom(f, torrent.layout, file, OrderedNow(old(torrent.history), file)) &&
              forall x :: x in Points(f.byteRanges) ==> 0 <= x < torrent.layout.files[file].length
  {
    var spans := torrent.EndClaimLog(file);
    f := record.(byteRanges := if Captured(record) then spans else []);
  }

  /** One action of a script, other than the settling of a point. */
  method OpenOrRead(torrent: Torrent, a: Action)
    requires torrent.Valid() && !a.Settle?
    modifies torrent
    ensures torrent.Valid() && torrent.history == old(torrent.history) + Told(torrent.layout, a)
  {
    match a {
      case Open(at) => torrent.StartClaimLog(at);
      case Read(at, off, length, window) => var r, whole := torrent.Claim(at, off, length, window);
    }
  }

  lemma AnotherAction(t: Layout, script: seq<Action>, a: Action, file: int, frames: seq<Frame>, claims: seq<seq<Span>>)
    requires t.pieceLength > 0 && 0 <= file < |t.files| && CapturedSoFar(t, script, file, frames, claims)
    requires a.Settle? ==> a.file != file
    ensures CapturedSoFar(t, script + [a], file, frames, claims)
  {
    OneMoreAction(t, script, a, file);
  }

  /** The pieces ordered for the file's point that the action at this place of a script settles. */
  function OrderedAt(t: Layout, script: seq<Action>, at: nat, file: int): set<int>
    requires at <= |script|
  {
    Points(OrderedNow(HistoryOf(t, script[..at]), file))
  }

  /** f is the record settled at this place of a script, with the ranges its log held. */
  ghost predicate SettledAt(t: Layout, script: seq<Action>, at: nat, file: int, f: Frame)
    requires t.pieceLength > 0 && 0 <= file < |t.files|
  {
    at < |script| && script[at].Settle? && script[at].file == file &&
    f == script[at].record.(byteRanges := f.byteRanges) && Canonical(f.byteRanges) &&
    PiecesOfBytes(t.files[file], t.pieceLength, Points(f.byteRanges)) ==
    OrderedAt(t, script, at, file) * PiecesOfNonEmptyFile(t.files[file], t.pieceLength) &&
    forall x :: x in Points(f.byteRanges) ==> 0 <= x < t.files[file].length
  }

  /** Every captured frame was settled somewhere, each at its own place. */
  ghost predicate AllSettled(t: Layout, script: seq<Action>, file: int, frames: seq<Frame>, places: seq<nat>)
    requires t.pieceLength > 0 && 0 <= file < |t.files|
  {
    |places| == |frames| &&
    forall k :: 0 <= k < |frames| && Captured(frames[k]) ==> SettledAt(t, script, places[k], file, frames[k])
  }

  lemma StillSettled(t: Layout, script: seq<Action>, a: Action, file: int, frames: seq<Frame>, places: seq<nat>)
    requires t.pieceLength > 0 && 0 <= file < |t.files| && AllSettled(t, script, file, frames, places)
    ensures AllSettled(t, script + [a], file, frames, places)
  {
    forall k | 0 <= k < |frames| && Captured(frames[k])
      ensures SettledAt(t, script + [a], places[k], file, frames[k]) {
      StillSettledAt(t, script, a, places[k], file, frames[k]);
    }
  }

  lemma StillSettledAt(t: Layout, script: seq<Action>, a: Action, at: nat, file: int, f: Frame)
    requires t.pieceLength > 0 && 0 <= file < |t.files| && SettledAt(t, script, at, file, f)
    ensures SettledAt(t, script + [a], at, file, f)
  {
    assert (script + [a])[..at] == script[..at] && (script + [a])[at] == script[at];
    assert OrderedAt(t, script + [a], at, file) == OrderedAt(t, script, at, file);
  }

  lemma JustSettled(t: Layout, script: seq<Action>, record: Frame, file: int, f: Frame)
    requires t.pieceLength > 0 && 0 <= file < |t.files|
    requires f == record.(byteRanges := f.byteRanges) && Canonical(f.byteRanges)
    requires CameFrom(f, t, file, OrderedNow(HistoryOf(t, script), file))
    requires forall x :: x in Points(f.byteRanges) ==> 0 <= x < t.files[file].length
    ensures SettledAt(t, script + [Settle(file, record)], |script|, file, f)
  {
    assert (script + [Settle(file, record)])[..|script|] == script;
  }

  lemma OneMoreSettled(t: Layout, script: seq<Action>, record: Frame, file: int, frames: seq<Frame>, places: seq<nat>,
                       f: Frame)
    requires t.pieceLength > 0 && 0 <= file < |t.files| && AllSettled(t, script, file, frames, places)
    requires f == record.(byteRanges := f.byteRanges) && Canonical(f.byteRanges)
    requires Captured(f) ==>
               CameFrom(f, t, file, OrderedNow(HistoryOf(t, script), file)) &&
               forall x :: x in Points(f.byteRanges) ==> 0 <= x < t.files[file].length
    ensures AllSettled(t, script + [Settle(file, record)], file, frames + [f], places + [|script|])
  {
    var longer, all, at := script + [Settle(file, record)], frames + [f], places + [|script|];
    StillSettled(t, script, Settle(file, record), file, frames, places);
    forall k | 0 <= k < |all| && Captured(all[k]) ensures SettledAt(t, longer, at[k], file, all[k]) {
      if k < |frames| {
        assert SettledAt(t, longer, places[k], file, frames[k]);
      } else {
        JustSettled(t, script, record, file, f);
      }
    }
  }

  /** The capture of one file among others that are captured over the same torrent at the same time. */
  method Capture(torrent: Torrent, script: seq<Action>, file: int)
    returns (frames: seq<Frame>, ghost claims: seq<seq<Span>>, ghost places: seq<nat>)
    requires torrent.Valid() && torrent.history == [] && 0 <= file < |torrent.layout.files|
    modifies torrent
    ensures torrent.Valid() && torrent.history == HistoryOf(torrent.layout, script)
    ensures CapturedSoFar(torrent.layout, script, file, frames, claims)
    ensures AllSettled(torrent.layout, script, file, frames, places)
  {
    frames, claims, places := [], [], [];
    for n := 0 to |script|
      invariant torrent.Valid() && torrent.history == HistoryOf(torrent.layout, script[..n])
      invariant CapturedSoFar(torrent.layout, script[..n], file, frames, claims)
      invariant AllSettled(torrent.layout, script[..n], file, frames, places)
    {
      ghost var before := script[..n];
      assert script[..n + 1] == before + [script[n]];
      OneMoreAction(torrent.layout, before, script[n], file);
      StillSettled(torrent.layout, before, script[n], file, frames, places);
      if script[n].Settle? {
        var f := SettlePoint(torrent, script[n].file, script[n].record);
        if script[n].file == file {
          AnotherFrame(torrent.layout, before, file, frames, claims, script[n].record, f);
          OneMoreSettled(torrent.layout, before, script[n].record, file, frames, places, f);
          places := places + [n];
          claims := claims + [OrderedNow(HistoryOf(torrent.layout, before), file)];
          frames := frames + [f];
        } else {
          AnotherAction(torrent.layout, before, script[n], file, frames, claims);
        }
      } else {
        OpenOrRead(torrent, script[n]);
        AnotherAction(torrent.layout, before, script[n], file, frames, claims);
      }
    }
    assert script[..|script|] == script;
  }

  /** A captured frame that knows where it came from came from some piece of the file, and one that does not
      came from none. */
  lemma {:induction false} LocatedIffSomewhere(t: Layout, file: int, frames: seq<Frame>)
    requires t.pieceLength > 0 && 0 <= file < |t.files|
    requires forall k :: 0 <= k < |frames| && Captured(frames[k]) ==>
               Canonical(frames[k].byteRanges) &&
               forall x :: x in Points(frames[k].byteRanges) ==> 0 <= x < t.files[file].length
    ensures LocatedCount(frames) == 0 <==> FramePieces(frames, t.files[file], t.pieceLength) == {}
  {
    if frames != [] {
      var front, last := frames[..|frames| - 1], frames[|frames| - 1];
      LocatedIffSomewhere(t, file, front);
      if Located(last) {
        var s := last.byteRanges[|last.byteRanges| - 1];
        LastSpan(last.byteRanges);
        assert s.end - 1 in Points(last.byteRanges);
        assert (t.files[file].offset + (s.end - 1)) / t.pieceLength in
               PiecesOfBytes(t.files[file], t.pieceLength, Points(last.byteRanges));
      }
    }
  }

  /** The pieces of the file that were ordered for its captured points. */
  function Shown(t: Layout, script: seq<Action>, file: int): set<int>
    requires t.pieceLength > 0 && 0 <= file < |t.files|
  {
    OrderedFor(t, script, file) * PiecesOfNonEmptyFile(t.files[file], t.pieceLength)
  }

  /** End to end: files are captured over one torrent, their orders interleaved in any way, and one of them is
      listed. Its strip shows exactly the pieces of the file that were ordered while the logs of its captured
      points were open, with their number; and there is no strip exactly when there are none. */
  method CaptureAndReach(torrent: Torrent, script: seq<Action>, file: int) returns (r: Option<Reach>)
    requires torrent.Valid() && torrent.history == [] && 0 <= file < |torrent.layout.files|
    modifies torrent
    ensures torrent.Valid() && torrent.history == HistoryOf(torrent.layout, script)
    ensures r.None? <==> Shown(torrent.layout, script, file) == {}
    ensures r.Some? ==>
              Canonical(r.value.claimed) &&
              Lifted(r.value.claimed, r.value.firstPiece) == Shown(torrent.layout, script, file) &&
              r.value.claimedPieces == |Shown(torrent.layout, script, file)| &&
              r.value.firstPiece == FirstPiece(torrent.layout.files[file], torrent.layout.pieceLength) &&
              forall k :: k in Points(r.value.claimed) ==> 0 <= k < r.value.pieces
  {
    var t := torrent.layout;
    var frames, claims, places := Capture(torrent, script, file);
    StripShowsWhatWasOrdered(t, file, frames, claims);
    LocatedIffSomewhere(t, file, frames);
    r := ReachOf(frames, t.files[file], t.pieceLength);
  }

  // ---- reads that start inside the file, and one file among several ----

  ghost predicate ReadsInside(t: Layout, script: seq<Action>, file: int)
    requires 0 <= file < |t.files|
  {
    forall k :: 0 <= k < |script| && script[k].Read? && script[k].file == file ==> script[k].off < t.files[file].length
  }

  lemma {:induction false} OrdersStayInside(t: Layout, script: seq<Action>, file: int)
    requires Laid(t) && 0 <= file < |t.files| && t.files[file].length > 0 && ReadsInside(t, script, file)
    ensures Points(OrderedSince(HistoryOf(t, script), file)) <= PiecesOfFile(t.files[file], t.pieceLength)
  {
    if script != [] {
      var front, last := script[..|script| - 1], script[|script| - 1];
      OrdersStayInside(t, front, file);
      var h := HistoryOf(t, front);
      match last {
        case Open(at) => HistoryGrows(h, Opened(at), file);
        case Settle(at, _) => HistoryGrows(h, Closed(at), file);
        case Read(at, off, length, window) =>
          var pieces := WindowFor(t, at, off, length, window);
          if pieces.Ok? {
            HistoryGrows(h, Ordered(at, pieces.value), file);
            if at == file {
              var wide := AlignUp(window, t.pieceLength);
              RequestedPieces(t, file, off, if wide > length then wide else length);
              PointsAppend(OrderedSince(h, file), pieces.value);
            }
          } else {
            assert h + [] == h;
          }
      }
    }
  }

  /** Reads that start inside the file order nothing outside it, so for them the strip is the orders
      themselves: every piece, and no other. */
  lemma {:induction false} ReadsInsideShowWhole(t: Layout, script: seq<Action>, file: int)
    requires Laid(t) && 0 <= file < |t.files| && t.files[file].length > 0 && ReadsInside(t, script, file)
    ensures Shown(t, script, file) == OrderedFor(t, script, file)
  {
    if script != [] {
      var front, last := script[..|script| - 1], script[|script| - 1];
      ReadsInsideShowWhole(t, front, file);
      OrdersStayInside(t, front, file);
    }
  }

  function OnlyOf(script: seq<Action>, file: int): seq<Action> {
    if script == [] then []
    else OnlyOf(script[..|script| - 1], file) + if script[|script| - 1].file == file then [script[|script| - 1]] else []
  }

  lemma OnlyOfOneMore(h: seq<Event>, told: seq<Event>, file: int)
    requires |told| <= 1
    ensures Only(h + told, file) == Only(h, file) + Only(told, file)
  {
    if told == [] {
      assert h + told == h && Only(h, file) + [] == Only(h, file);
    } else {
      assert (h + told)[..|h|] == h && told[..0] == [];
    }
  }

  lemma {:induction false} OnlyOfHistory(t: Layout, script: seq<Action>, file: int)
    ensures Only(HistoryOf(t, script), file) == HistoryOf(t, OnlyOf(script, file))
  {
    if script != [] {
      var front, last := script[..|script| - 1], script[|script| - 1];
      OnlyOfHistory(t, front, file);
      OnlyOfOneMore(HistoryOf(t, front), Told(t, last), file);
      if last.file == file {
        OneMoreAction(t, OnlyOf(front, file), last, file);
        if Told(t, last) != [] { assert Told(t, last)[..0] == []; }
      } else {
        if Told(t, last) != [] { assert Told(t, last)[..0] == []; }
        assert OnlyOf(front, file) + [] == OnlyOf(front, file);
      }
    }
  }

  /** The other files do not show: what was ordered for a file is what would have been, captured alone. */
  lemma {:induction false} OrderedForIsItsOwn(t: Layout, script: seq<Action>, file: int)
    ensures OrderedFor(t, script, file) == OrderedFor(t, OnlyOf(script, file), file)
  {
    if script != [] {
      var front, last := script[..|script| - 1], script[|script| - 1];
      OrderedForIsItsOwn(t, front, file);
      if last.file == file {
        OneMoreAction(t, OnlyOf(front, file), last, file);
        FilesDoNotMix(HistoryOf(t, front), file);
        OnlyOfHistory(t, front, file);
      } else {
        assert OnlyOf(front, file) + [] == OnlyOf(front, file);
      }
    }
  }
}
