/** What a run ordered from the swarm, and which capture point each order belongs to
    (internal/swarm/torrent.go, internal/swarm/fetch.go), up to the strip a set's frames draw
    (internal/web/listing.go). Every method of Torrent is one section under claimMu, but for Claim, which is
    NoteClaimed and then LogClaim. Each of them keeps Valid, so a contract over the whole history of sections
    holds for every interleaving of the files being captured. */
module Provenance {
  import opened Sorting
  import opened Sets
  import opened Intervals
  import opened Geometry
  import opened Manifest
  import opened Paths

  // ---- the history a claim log is judged against ----

  datatype Event = Opened(file: int) | Ordered(file: int, pieces: Span) | Closed(file: int)

  /** Whether a capture point of the file is being recorded. */
  predicate Recording(h: seq<Event>, file: int) {
    if h == [] then false
    else
      var last := h[|h| - 1];
      if last.file == file && !last.Ordered? then last.Opened? else Recording(h[..|h| - 1], file)
  }

  /** The orders placed for the file since its log was last opened. */
  function OrderedSince(h: seq<Event>, file: int): seq<Span> {
    if h == [] then []
    else
      var front, last := h[..|h| - 1], h[|h| - 1];
      if last.file != file then OrderedSince(front, file)
      else if last.Ordered? then OrderedSince(front, file) + [last.pieces]
      else []
  }

  /** The events of one file alone. */
  function Only(h: seq<Event>, file: int): seq<Event> {
    if h == [] then []
    else Only(h[..|h| - 1], file) + if h[|h| - 1].file == file then [h[|h| - 1]] else []
  }

  /** However several files' captures interleave, each file's log is what it would be alone. */
  lemma {:induction false} FilesDoNotMix(h: seq<Event>, file: int)
    ensures Recording(h, file) == Recording(Only(h, file), file)
    ensures OrderedSince(h, file) == OrderedSince(Only(h, file), file)
  {
    if h != [] {
      var front, last := h[..|h| - 1], h[|h| - 1];
      FilesDoNotMix(front, file);
      if last.file == file {
        assert Only(h, file)[..|Only(h, file)| - 1] == Only(front, file);
      } else {
        assert Only(h, file) == Only(front, file);
      }
    }
  }

  // ---- what a log holds ----

  /** The byte stretches of the file that a list of claims leaves in its log. */
  function BytesLogged(t: Layout, file: int, claims: seq<Span>): seq<Span> {
    if claims == [] then []
    else
      var bytes := FileBytesOf(t, file, claims[|claims| - 1]);
      BytesLogged(t, file, claims[..|claims| - 1]) + if bytes.Ok? then [bytes.value] else []
  }

  lemma {:induction false} LoggedBytesAreProper(t: Layout, file: int, claims: seq<Span>)
    ensures Proper(BytesLogged(t, file, claims))
  {
    if claims != [] { LoggedBytesAreProper(t, file, claims[..|claims| - 1]); }
  }

  lemma {:induction false} LoggedBytesLieInside(t: Layout, file: int, claims: seq<Span>)
    requires 0 <= file < |t.files|
    ensures forall x :: x in Points(BytesLogged(t, file, claims)) ==> 0 <= x < t.files[file].length
  {
    if claims != [] {
      var front, bytes := claims[..|claims| - 1], FileBytesOf(t, file, claims[|claims| - 1]);
      LoggedBytesLieInside(t, file, front);
      if bytes.Ok? { PointsAppend(BytesLogged(t, file, front), bytes.value); }
      else { assert BytesLogged(t, file, front) + [] == BytesLogged(t, file, front); }
    }
  }

  lemma ClippedBytes(t: Layout, file: int, claim: Span, x: int)
    requires Laid(t) && 0 <= file < |t.files|
    ensures FileBytesOf(t, file, claim).Ok? && x in Range(FileBytesOf(t, file, claim).value) <==>
              0 <= x < t.files[file].length && (t.files[file].offset + x) / t.pieceLength in Range(claim)
  {
    var f, p := t.files[file], t.pieceLength;
    var k := (f.offset + x) / p;
    PieceOfByte(f.offset + x, p, k);
    Scaled(claim.begin, k, p);
    Scaled(k, claim.begin, p);
    Scaled(k, claim.end, p);
    Scaled(claim.end, k, p);
    assert (k + 1) * p == k * p + p;
    Scaled(k + 1, claim.begin, p);
    Scaled(k + 1, claim.end, p);
  }

  /** The logged bytes are every byte of the file that lies in a claimed piece, and no other. */
  lemma {:induction false} LoggedAreTheBytes(t: Layout, file: int, claims: seq<Span>)
    requires Laid(t) && 0 <= file < |t.files|
    ensures forall x :: x in Points(BytesLogged(t, file, claims)) <==>
              0 <= x < t.files[file].length && (t.files[file].offset + x) / t.pieceLength in Points(claims)
  {
    if claims != [] {
      var front, last := claims[..|claims| - 1], claims[|claims| - 1];
      LoggedAreTheBytes(t, file, front);
      assert claims == front + [last];
      PointsAppend(front, last);
      var bytes := FileBytesOf(t, file, last);
      if bytes.Ok? { PointsAppend(BytesLogged(t, file, front), bytes.value); }
      assert BytesLogged(t, file, front) + [] == BytesLogged(t, file, front);
      forall x ensures x in Points(BytesLogged(t, file, claims)) <==>
        0 <= x < t.files[file].length && (t.files[file].offset + x) / t.pieceLength in Points(claims) {
        ClippedBytes(t, file, last, x);
      }
    }
  }

  /** Which orders those are: while a point is being recorded, the ones placed for the file since its log was last
      opened, and no others. */
  lemma {:induction false} OrderedSinceIs(h: seq<Event>, file: int) returns (at: nat)
    requires Recording(h, file)
    ensures at < |h| && h[at] == Opened(file)
    ensures forall n :: at < n < |h| && h[n].file == file ==> h[n].Ordered?
    ensures forall s :: s in OrderedSince(h, file) <==> exists n :: at < n < |h| && h[n] == Ordered(file, s)
  {
    var front, last := h[..|h| - 1], h[|h| - 1];
    assert h == front + [last];
    if last.file == file && !last.Ordered? {
      at := |h| - 1;
    } else {
      at := OrderedSinceIs(front, file);
      forall s ensures s in OrderedSince(h, file) <==> exists n :: at < n < |h| && h[n] == Ordered(file, s) {
        if n :| at < n < |h| && h[n] == Ordered(file, s) {
          if n < |front| { assert front[n] == Ordered(file, s); }
        }
        if s in OrderedSince(front, file) {
          var n :| at < n < |front| && front[n] == Ordered(file, s);
          assert h[n] == Ordered(file, s);
        }
        if last == Ordered(file, s) { assert h[|front|] == Ordered(file, s); }
      }
    }
  }

  /** A point of the file is being recorded exactly when its log has been opened and nothing since has opened or
      closed it. */
  lemma {:induction false} RecordingIs(h: seq<Event>, file: int)
    ensures Recording(h, file) <==>
              exists at :: 0 <= at < |h| && h[at] == Opened(file) &&
                           forall n :: at < n < |h| && h[n].file == file ==> h[n].Ordered?
  {
    if h != [] {
      var front, last := h[..|h| - 1], h[|h| - 1];
      assert h == front + [last];
      RecordingIs(front, file);
      if Recording(h, file) {
        var at := OrderedSinceIs(h, file);
      }
      if at :| 0 <= at < |h| && h[at] == Opened(file) && forall n :: at < n < |h| && h[n].file == file ==> h[n].Ordered?
      {
        if at < |front| {
          assert front[at] == Opened(file) && forall n :: at < n < |front| && front[n].file == file ==> h[n].Ordered?;
          assert last.file == file ==> h[|front|].Ordered?;
        }
      }
    }
  }

  lemma PiecesOfUnion(file: FileInfo, p: int, a: set<int>, b: set<int>)
    requires p > 0
    ensures PiecesOfBytes(file, p, a + b) == PiecesOfBytes(file, p, a) + PiecesOfBytes(file, p, b)
  {
  }

  function PiecesOfNonEmptyFile(file: FileInfo, p: int): set<int>
    requires p > 0
  {
    if file.length > 0 then PiecesOfFile(file, p) else {}
  }

  /** The logged bytes lie in exactly the claimed pieces that meet the file. */
  lemma {:induction false} LoggedBytesAreTheClaims(t: Layout, file: int, claims: seq<Span>)
    requires Laid(t) && 0 <= file < |t.files|
    ensures PiecesOfBytes(t.files[file], t.pieceLength, Points(BytesLogged(t, file, claims))) ==
            Points(claims) * PiecesOfNonEmptyFile(t.files[file], t.pieceLength)
  {
    if claims != [] {
      var front, last := claims[..|claims| - 1], claims[|claims| - 1];
      LoggedBytesAreTheClaims(t, file, front);
      OneMoreClaim(t, file, BytesLogged(t, file, front), last);
      var of := PiecesOfNonEmptyFile(t.files[file], t.pieceLength);
      assert Points(claims) * of == Points(front) * of + Range(last) * of;
    }
  }

  lemma OneMoreClaim(t: Layout, file: int, logged: seq<Span>, claim: Span)
    requires Laid(t) && 0 <= file < |t.files|
    ensures var bytes := FileBytesOf(t, file, claim);
            PiecesOfBytes(t.files[file], t.pieceLength, Points(logged + if bytes.Ok? then [bytes.value] else [])) ==
            PiecesOfBytes(t.files[file], t.pieceLength, Points(logged)) +
            Range(claim) * PiecesOfNonEmptyFile(t.files[file], t.pieceLength)
  {
    ClaimComesBack(t, file, claim);
    var bytes := FileBytesOf(t, file, claim);
    if bytes.Ok? {
      PointsAppend(logged, bytes.value);
      PiecesOfUnion(t.files[file], t.pieceLength, Points(logged), Range(bytes.value));
    } else {
      assert logged + [] == logged;
    }
  }

  // ---- the claim log itself ----

  /** The log holds, for exactly the files being recorded, the bytes of what was ordered since. */
  ghost predicate LogMatches(t: Layout, log: map<int, seq<Span>>, h: seq<Event>) {
    (forall f :: f in log <==> Recording(h, f)) &&
    forall f :: f in log ==> log[f] == BytesLogged(t, f, OrderedSince(h, f))
  }

  lemma HistoryGrows(h: seq<Event>, e: Event, f: int)
    ensures Recording(h + [e], f) == if e.file == f && !e.Ordered? then e.Opened? else Recording(h, f)
    ensures OrderedSince(h + [e], f) == if e.file != f then OrderedSince(h, f)
                                        else if e.Ordered? then OrderedSince(h, f) + [e.pieces] else []
  {
    assert (h + [e])[..|h|] == h;
  }

  lemma LogFollows(t: Layout, log: map<int, seq<Span>>, h: seq<Event>, e: Event, next: map<int, seq<Span>>)
    requires LogMatches(t, log, h)
    requires next == match e {
      case Opened(f) => log[f := []]
      case Closed(f) => log - {f}
      case Ordered(f, pieces) =>
        if f in log && FileBytesOf(t, f, pieces).Ok? then log[f := log[f] + [FileBytesOf(t, f, pieces).value]] else log
    }
    ensures LogMatches(t, next, h + [e])
  {
    forall f ensures f in next <==> Recording(h + [e], f) { HistoryGrows(h, e, f); }
    forall f | f in next ensures next[f] == BytesLogged(t, f, OrderedSince(h + [e], f)) {
      HistoryGrows(h, e, f);
      if e.Ordered? && e.file == f {
        assert (OrderedSince(h, f) + [e.pieces])[..|OrderedSince(h, f)|] == OrderedSince(h, f);
      }
    }
  }

  class Torrent {
    const layout: Layout
    var claimedSeen: set<int>
    var claimedByte: int
    var claimLog: map<int, seq<Span>>
    ghost var history: seq<Event>

    ghost predicate Valid() reads this {
      Laid(layout) && claimedSeen <= Range(Span(0, layout.numPieces)) &&
      claimedByte == WeightBelow(layout, claimedSeen, layout.numPieces) &&
      LogMatches(layout, claimLog, history)
    }

    constructor (layout: Layout)
      requires Laid(layout)
      ensures Valid() && this.layout == layout && claimedSeen == {} && history == []
    {
      this.layout := layout;
      claimedSeen, claimedByte, claimLog, history := {}, 0, map[], [];
      new;
      assert WeightBelow(layout, {}, layout.numPieces) == 0 by { NothingWeighsNothing(layout, layout.numPieces); }
    }

    /** Records an order once however often it is placed. */
    method NoteClaimed(pieces: Span)
      requires Valid() && 0 <= pieces.begin && pieces.end <= layout.numPieces
      modifies this`claimedSeen, this`claimedByte
      ensures Valid() && claimedSeen == old(claimedSeen) + Range(pieces)
    {
      var i := pieces.begin;
      while i < pieces.end
        invariant pieces.begin <= i && (i <= pieces.end || i == pieces.begin)
        invariant Valid() && claimedSeen == old(claimedSeen) + Range(Span(pieces.begin, i))
      {
        if i !in claimedSeen {
          WeightAdds(layout, claimedSeen, i, layout.numPieces);
          claimedSeen := claimedSeen + {i};
          claimedByte := claimedByte + PieceBytes(layout, i);
        }
        i := i + 1;
      }
    }

    /** Records an order against the capture point open on the file, every time it is placed. */
    method LogClaim(file: int, pieces: Span)
      requires Valid()
      modifies this`claimLog, this`history
      ensures Valid() && history == old(history) + [Ordered(file, pieces)]
    {
      ghost var before := claimLog;
      if file in claimLog {
        var bytes := FileBytesOf(layout, file, pieces);
        if bytes.Ok? {
          claimLog := claimLog[file := claimLog[file] + [bytes.value]];
        }
      }
      LogFollows(layout, before, history, Ordered(file, pieces), claimLog);
      history := history + [Ordered(file, pieces)];
    }

    /** Orders the pieces behind a read, widened to the profile's window: of a read that starts inside the file
        exactly those holding a byte from its start on, up to its length or to the least whole number of pieces,
        whole, that covers the window, whichever is more, and cut at the file's end. */
    method Claim(file: int, off: int, length: int, window: int) returns (r: Result<Span>, ghost whole: int)
      requires Valid()
      modifies this`claimedSeen, this`claimedByte, this`claimLog, this`history
      ensures Valid() && r == WindowFor(layout, file, off, length, window)
      ensures LeastWhole(whole, window, layout.pieceLength) && (r.Ok? <==> 0 <= file < |layout.files|)
      ensures r.Ok? ==> HoldTheRead(layout, layout.files[file], off, length, whole, r.value)
      ensures r.Err? ==> claimedSeen == old(claimedSeen) && history == old(history)
      ensures r.Ok? ==> claimedSeen == old(claimedSeen) + Range(r.value) &&
                        history == old(history) + [Ordered(file, r.value)]
    {
      r := WindowFor(layout, file, off, length, window);
      whole := WindowHoldsTheRead(layout, file, off, length, window);
      if r.Ok? {
        var wide := AlignUp(window, layout.pieceLength);
        RangesStayInTheTorrent(layout, file, off, if wide > length then wide else length);
        NoteClaimed(r.value);
        LogClaim(file, r.value);
      }
    }

    method StartClaimLog(file: int)
      requires Valid()
      modifies this`claimLog, this`history
      ensures Valid() && history == old(history) + [Opened(file)]
    {
      LogFollows(layout, claimLog, history, Opened(file), claimLog[file := []]);
      history := history + [Opened(file)];
      claimLog := claimLog[file := []];
    }

    /** Closes a file's log: what it reports is the canonical form of the bytes ordered since it was
        opened, and those bytes lie in exactly the pieces ordered that meet the file. */
    method EndClaimLog(file: int) returns (spans: seq<Span>)
      requires Valid()
      modifies this`claimLog, this`history
      ensures Valid() && history == old(history) + [Closed(file)] && Canonical(spans)
      ensures !Recording(old(history), file) ==> spans == []
      ensures 0 <= file < |layout.files| ==> forall x :: x in Points(spans) ==> 0 <= x < layout.files[file].length
      ensures Recording(old(history), file) && 0 <= file < |layout.files| ==>
                forall x :: x in Points(spans) <==>
                  0 <= x < layout.files[file].length &&
                  (layout.files[file].offset + x) / layout.pieceLength in Points(OrderedSince(old(history), file))
      ensures Recording(old(history), file) && 0 <= file < |layout.files| ==>
                PiecesOfBytes(layout.files[file], layout.pieceLength, Points(spans)) ==
                Points(OrderedSince(old(history), file)) *
                PiecesOfNonEmptyFile(layout.files[file], layout.pieceLength)
    {
      var open := file in claimLog;
      spans := if open then claimLog[file] else [];
      LoggedBytesAreProper(layout, file, OrderedSince(history, file));
      if open && 0 <= file < |layout.files| {
        LoggedBytesAreTheClaims(layout, file, OrderedSince(history, file));
        LoggedBytesLieInside(layout, file, OrderedSince(history, file));
        LoggedAreTheBytes(layout, file, OrderedSince(history, file));
      }
      LogFollows(layout, claimLog, history, Closed(file), claimLog - {file});
      history := history + [Closed(file)];
      claimLog := claimLog - {file};
      if !open { return []; }
      spans := Coalesce(spans);
    }

    /** How many distinct pieces were ordered and what they weigh: never more than the torrent, and all
        of it exactly when every piece was ordered. */
    method Claimed() returns (pieces: nat, bytes: int)
      requires Valid()
      ensures pieces == |claimedSeen| && bytes == WeightBelow(layout, claimedSeen, layout.numPieces)
      ensures 0 <= bytes <= layout.length
      ensures bytes == layout.length <==> claimedSeen == Range(Span(0, layout.numPieces))
    {
      WeightIsBounded(layout, claimedSeen, layout.numPieces);
      if forall i :: 0 <= i < layout.numPieces ==> i in claimedSeen {
        SameMembers(claimedSeen, Range(Span(0, layout.numPieces)));
      }
      pieces, bytes := |claimedSeen|, claimedByte;
    }

    /** Where the ordered pieces are: canonical ranges over exactly them, whose lengths add up to the
        count Claimed reports. */
    method ClaimedRanges() returns (out: seq<Span>)
      requires Valid()
      ensures Canonical(out) && Points(out) == claimedSeen && TotalLength(out) == |claimedSeen|
    {
      if claimedSeen == {} { return []; }
      var idx := AscendingIndices(claimedSeen);
      out := Runs(idx);
      SameMembers(Points(out), claimedSeen);
      LengthsCountPoints(out);
    }
  }

  /** out is the canonical form of the first k indices. */
  ghost predicate RunsUpTo(out: seq<Span>, idx: seq<int>, k: nat)
    requires 0 < k <= |idx|
  {
    Canonical(out) && out != [] && out[|out| - 1].end == idx[k - 1] + 1 &&
    forall x :: x in Points(out) <==> x in idx[..k]
  }

  lemma RunsStep(out: seq<Span>, idx: seq<int>, k: nat)
    requires 0 < k < |idx| && RunsUpTo(out, idx, k) && idx[k - 1] < idx[k]
    ensures RunsUpTo(Merged(out, Span(idx[k], idx[k] + 1)), idx, k + 1)
  {
    var s := Span(idx[k], idx[k] + 1);
    MergedIsCanonical(out, s);
    forall x ensures x in Points(Merged(out, s)) <==> x in idx[..k + 1] {
      MergedAddsPoints(out, s);
      assert idx[..k + 1] == idx[..k] + [idx[k]];
      assert x in Range(s) <==> x == idx[k];
    }
  }

  lemma RunsStart(idx: seq<int>)
    requires idx != []
    ensures RunsUpTo([Span(idx[0], idx[0] + 1)], idx, 1)
  {
    var out := [Span(idx[0], idx[0] + 1)];
    forall x ensures x in Points(out) <==> x in idx[..1] {
      PointsMember(out, x);
    }
  }

  method Runs(idx: seq<int>) returns (out: seq<Span>)
    requires idx != [] && forall i, j :: 0 <= i < j < |idx| ==> idx[i] < idx[j]
    ensures Canonical(out) && forall x :: x in Points(out) <==> x in idx
  {
    out := [Span(idx[0], idx[0] + 1)];
    RunsStart(idx);
    for k := 1 to |idx|
      invariant RunsUpTo(out, idx, k)
    {
      RunsStep(out, idx, k);
      ghost var next := Merged(out, Span(idx[k], idx[k] + 1));
      var i, last := idx[k], out[|out| - 1];
      if i == last.end {
        out := out[|out| - 1 := Span(last.begin, last.end + 1)];
      } else {
        out := out + [Span(i, i + 1)];
      }
      assert out == next;
    }
    assert idx[..|idx|] == idx;
  }

  lemma {:induction false} NothingWeighsNothing(t: Layout, n: nat)
    ensures WeightBelow(t, {}, n) == 0
  {
    if n > 0 { NothingWeighsNothing(t, n - 1); }
  }

  /** The members of a set in ascending order. */
  method AscendingIndices(s: set<int>) returns (idx: seq<int>)
    ensures forall i, j :: 0 <= i < j < |idx| ==> idx[i] < idx[j]
    ensures forall x :: x in idx <==> x in s
    ensures |idx| == |s|
  {
    var todo: set<int> := s;
    var out: seq<int> := [];
    while todo != {}
      invariant todo <= s && multiset(out) == multiset(s - todo)
      decreases |todo|
    {
      ghost var some := Member(todo);
      var i :| i in todo;
      assert s - (todo - {i}) == (s - todo) + {i};
      todo, out := todo - {i}, out + [i];
    }
    assert s - {} == s;
    idx := SortInts(out);
    SortSorts(out, (x: int) => x);
    StrictlyAscending(idx, s);
  }

  lemma StrictlyAscending(idx: seq<int>, s: set<int>)
    requires Ascending(idx, (x: int) => x) && multiset(idx) == multiset(s)
    ensures forall i, j :: 0 <= i < j < |idx| ==> idx[i] < idx[j]
    ensures (forall x :: x in idx <==> x in s) && |idx| == |s|
  {
    forall i, j | 0 <= i < j < |idx| ensures idx[i] < idx[j] {
      var id := (x: int) => x;
      assert id(idx[i]) <= id(idx[j]);
      assert idx == idx[..j] + idx[j..];
      assert idx[i] in idx[..j] && idx[j] in idx[j..];
      assert multiset(idx)[idx[j]] <= 1;
    }
    forall x ensures x in idx <==> x in s { assert x in idx <==> x in multiset(idx); }
    assert |multiset(idx)| == |multiset(s)|;
  }
}
