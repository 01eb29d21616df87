/** Bytes of a file against pieces of a torrent (internal/swarm/fetch.go, internal/web/listing.go).
    Lengths and offsets are unbounded integers; int64 overflow is not modelled here. */
module Geometry {
  import opened Intervals

  datatype FileInfo = FileInfo(length: int, offset: int)

  /** What newTorrent caches from the metadata. */
  datatype Layout = Layout(pieceLength: int, numPieces: int, length: int, files: seq<FileInfo>)

  /** The metadata's own arithmetic: enough pieces for the content, every file inside it. */
  ghost predicate Laid(t: Layout) {
    t.pieceLength > 0 && t.length >= 0 &&
    t.numPieces == (t.length + t.pieceLength - 1) / t.pieceLength &&
    forall f :: f in t.files ==> 0 <= f.offset && 0 <= f.length && f.offset + f.length <= t.length
  }

  datatype Result<T> = Ok(value: T) | Err

  // ---- integer division ----

  lemma Product(x: int, p: int)
    requires x >= 0 && p > 0
    ensures x * p >= 0
  {
  }

  lemma ScaledUp(a: int, b: int, p: int)
    requires p > 0 && a <= b
    ensures a * p <= b * p
  {
    Product(b - a, p);
    assert b * p == a * p + (b - a) * p;
  }

  lemma Scaled(a: int, b: int, p: int)
    requires p > 0
    ensures a <= b <==> a * p <= b * p
    ensures a < b <==> a * p < b * p
  {
    assert (a + 1) * p == a * p + p && (b + 1) * p == b * p + p;
    if a <= b { ScaledUp(a, b, p); }
    if a < b { ScaledUp(a + 1, b, p); }
    if b <= a { ScaledUp(b, a, p); }
    if b < a { ScaledUp(b + 1, a, p); }
  }

  /** k is the piece of byte x exactly when x lies in the piece's own stretch. */
  lemma PieceOfByte(x: int, p: int, k: int)
    requires p > 0
    ensures x / p == k <==> k * p <= x < k * p + p
  {
    var q := x / p;
    assert q * p <= x < q * p + p;
    Scaled(q, k, p);
    Scaled(k, q, p);
    assert (q + 1) * p == q * p + p && (k + 1) * p == k * p + p;
    Scaled(q + 1, k, p);
    Scaled(k + 1, q, p);
  }

  lemma DivisionClimbs(x: int, y: int, p: int)
    requires p > 0 && x <= y
    ensures x / p <= y / p
  {
    PieceOfByte(x, p, x / p);
    PieceOfByte(y, p, y / p);
    var q, r := x / p, y / p;
    assert (r + 1) * p == r * p + p;
    Scaled(q, r + 1, p);
  }

  // ---- the pieces of a stretch of a file ----

  /** The pieces some byte of the set lies in, the bytes counted from the start of the file. */
  function PiecesOfBytes(file: FileInfo, p: int, bytes: set<int>): set<int>
    requires p > 0
  {
    set x | x in bytes && 0 <= x < file.length :: (file.offset + x) / p
  }

  function FirstPiece(file: FileInfo, p: int): int requires p > 0 { file.offset / p }
  function LastPiece(file: FileInfo, p: int): int requires p > 0 { (file.offset + file.length - 1) / p }

  function PiecesOfFile(file: FileInfo, p: int): set<int>
    requires p > 0
  {
    Range(Span(FirstPiece(file, p), LastPiece(file, p) + 1))
  }

  /** The stretch of bytes [b, e) of a file meets exactly the pieces from its first byte's to its last byte's. */
  lemma PiecesOfStretch(file: FileInfo, p: int, b: int, e: int)
    requires p > 0 && 0 <= b < e <= file.length
    ensures PiecesOfBytes(file, p, Range(Span(b, e))) ==
            Range(Span((file.offset + b) / p, (file.offset + e - 1) / p + 1))
  {
    var first, last := (file.offset + b) / p, (file.offset + e - 1) / p;
    var touched := PiecesOfBytes(file, p, Range(Span(b, e)));
    forall k | k in touched ensures first <= k <= last {
      var x :| x in Range(Span(b, e)) && (file.offset + x) / p == k;
      DivisionClimbs(file.offset + b, file.offset + x, p);
      DivisionClimbs(file.offset + x, file.offset + e - 1, p);
    }
    forall k | first <= k <= last ensures k in touched {
      // The first byte of piece k, or of the stretch when the piece starts before it.
      var x := if k * p - file.offset < b then b else k * p - file.offset;
      PieceOfByte(file.offset + b, p, first);
      PieceOfByte(file.offset + e - 1, p, last);
      PieceOfByte(file.offset + x, p, k);
      Scaled(first, k, p);
      Scaled(k, last, p);
      Scaled(first + 1, k, p);
      assert (first + 1) * p == first * p + p;
      assert x in Range(Span(b, e));
    }
  }

  /** A piece meets a file exactly when it lies between the file's first and last piece. */
  lemma PieceMeetsFile(file: FileInfo, p: int, k: int)
    requires p > 0 && file.length > 0
    ensures k in PiecesOfFile(file, p) <==> k * p < file.offset + file.length && file.offset < k * p + p
  {
    var first, last := FirstPiece(file, p), LastPiece(file, p);
    PieceOfByte(file.offset, p, first);
    PieceOfByte(file.offset + file.length - 1, p, last);
    Scaled(first, k, p);
    Scaled(k, last, p);
    Scaled(k + 1, first, p);
    Scaled(last + 1, k, p);
    assert (k + 1) * p == k * p + p && (last + 1) * p == last * p + p;
  }

  // ---- alignUp, PieceRangeFor, WindowFor ----

  function AlignUp(intent: int, pieceLength: int): int {
    if pieceLength <= 0 then intent
    else if intent <= pieceLength then pieceLength
    else (intent + pieceLength - 1) / pieceLength * pieceLength
  }

  /** A window is rounded up to whole pieces, never down and never by a whole piece too many. */
  lemma WindowIsWholePieces(intent: int, p: int)
    requires p > 0
    ensures AlignUp(intent, p) % p == 0 && AlignUp(intent, p) >= p
    ensures intent <= AlignUp(intent, p) && (intent > 0 ==> AlignUp(intent, p) < intent + p)
  {
    var q := (intent + p - 1) / p;
    PieceOfByte(intent + p - 1, p, q);
    if intent > p {
      Scaled(1, q, p);
      assert q * p % p == 0 by { PieceOfByte(q * p, p, q); }
    } else {
      assert p % p == 0 by { PieceOfByte(p, p, 1); }
    }
  }

  /** The part of the file a read is clamped to. */
  function Clamped(f: FileInfo, off: int, length: int): Span {
    var start := if off < 0 then 0 else off;
    var start' := if start > f.length then f.length else start;
    Span(start', start' + if length <= 0 || start' + length > f.length then f.length - start' else length)
  }

  function PieceRangeFor(t: Layout, file: int, off: int, length: int): Result<Span> {
    if file < 0 || file >= |t.files| then Err
    else if t.pieceLength <= 0 then Err
    else
      var f := t.files[file];
      var off := if off < 0 then 0 else off;
      var off' := if off > f.length then f.length else off;
      var length' := if length <= 0 || off' + length > f.length then f.length - off' else length;
      var begin := (f.offset + off') / t.pieceLength;
      var end := if length' == 0 then begin + 1 else (f.offset + off' + length' - 1) / t.pieceLength + 1;
      Ok(Span(begin, if end > t.numPieces then t.numPieces else end))
  }

  function WindowFor(t: Layout, file: int, off: int, length: int, window: int): Result<Span> {
    var wide := AlignUp(window, t.pieceLength);
    PieceRangeFor(t, file, off, if wide > length then wide else length)
  }

  lemma LastByteHasAPiece(t: Layout, x: int)
    requires Laid(t) && x < t.length
    ensures x / t.pieceLength < t.numPieces
  {
    var p := t.pieceLength;
    PieceOfByte(x, p, x / p);
    PieceOfByte(t.length + p - 1, p, t.numPieces);
    Scaled(x / p, t.numPieces, p);
  }

  /** A read that starts inside the file is given exactly the pieces holding the bytes it reads. */
  lemma RequestedPieces(t: Layout, file: int, off: int, length: int)
    requires Laid(t) && 0 <= file < |t.files| && off < t.files[file].length && t.files[file].length > 0
    ensures PieceRangeFor(t, file, off, length).Ok?
    ensures var f, read := t.files[file], Clamped(t.files[file], off, length);
            Range(PieceRangeFor(t, file, off, length).value) == PiecesOfBytes(f, t.pieceLength, Range(read))
    ensures Range(PieceRangeFor(t, file, off, length).value) <= PiecesOfFile(t.files[file], t.pieceLength)
    ensures 0 <= PieceRangeFor(t, file, off, length).value.begin
    ensures PieceRangeFor(t, file, off, length).value.begin <
            PieceRangeFor(t, file, off, length).value.end <= t.numPieces
  {
    var f, p, read := t.files[file], t.pieceLength, Clamped(t.files[file], off, length);
    assert f in t.files;
    LastByteHasAPiece(t, f.offset + read.end - 1);
    PiecesOfStretch(f, p, read.begin, read.end);
    DivisionClimbs(0, f.offset + read.begin, p);
    DivisionClimbs(f.offset, f.offset + read.begin, p);
    DivisionClimbs(f.offset + read.begin, f.offset + read.end - 1, p);
    DivisionClimbs(f.offset + read.end - 1, f.offset + f.length - 1, p);
  }

  /** Whatever is asked, the range names pieces of the torrent. At or past the end of the file it is at
      most one piece, the one holding the byte just past it. */
  lemma RangesStayInTheTorrent(t: Layout, file: int, off: int, length: int)
    requires Laid(t) && 0 <= file < |t.files|
    ensures PieceRangeFor(t, file, off, length).Ok?
    ensures var r := PieceRangeFor(t, file, off, length).value;
            0 <= r.begin && r.end <= t.numPieces &&
            (off >= t.files[file].length ==>
               Range(r) == {(t.files[file].offset + t.files[file].length) / t.pieceLength} *
                           Range(Span(0, t.numPieces)))
  {
    var f := t.files[file];
    DivisionClimbs(0, f.offset + Clamped(f, off, length).begin, t.pieceLength);
    if off < f.length && f.length > 0 {
      RequestedPieces(t, file, off, length);
    }
  }

  /** m pieces are the least whole number of them, one at least, that cover the window. */
  predicate LeastWhole(m: int, window: int, p: int) {
    1 <= m && window <= m * p && (m == 1 || (m - 1) * p < window)
  }

  lemma AlignUpIsLeast(window: int, p: int) returns (m: int)
    requires p > 0
    ensures LeastWhole(m, window, p) && AlignUp(window, p) == m * p
  {
    if window <= p {
      m := 1;
    } else {
      m := (window + p - 1) / p;
      PieceOfByte(window + p - 1, p, m);
      Scaled(1, m, p);
      assert (m - 1) * p == m * p - p;
    }
  }

  /** The first byte of the file a read from off can want. */
  function StartOf(off: int): int { if off < 0 then 0 else off }

  /** Byte x of the file is one of those from start up to stop, and lies in piece k. */
  predicate ReadsFrom(t: Layout, f: FileInfo, start: int, stop: int, k: int, x: int) {
    start <= x < stop && x < f.length && k * t.pieceLength <= f.offset + x < k * t.pieceLength + t.pieceLength
  }

  ghost predicate HoldsSome(t: Layout, f: FileInfo, start: int, stop: int, k: int) {
    exists x :: ReadsFrom(t, f, start, stop, k, x)
  }

  /** These pieces are what a read is given: if it starts inside the file exactly those holding a byte of it, its
      length or the window's whole pieces long, whichever is more, and cut at the file's end; and if not, the one
      holding the byte just past the file, when there is one. */
  ghost predicate HoldTheRead(t: Layout, f: FileInfo, off: int, length: int, whole: int, pieces: Span) {
    var start, n := StartOf(off), if length > whole * t.pieceLength then length else whole * t.pieceLength;
    if start < f.length then
      forall k :: k in Range(pieces) <==> HoldsSome(t, f, start, start + n, k)
    else
      forall k :: k in Range(pieces) <==>
        k < t.numPieces && k * t.pieceLength <= f.offset + f.length < k * t.pieceLength + t.pieceLength
  }

  /** What an order is for. */
  lemma WindowHoldsTheRead(t: Layout, file: int, off: int, length: int, window: int) returns (whole: int)
    requires Laid(t)
    ensures LeastWhole(whole, window, t.pieceLength)
    ensures WindowFor(t, file, off, length, window).Ok? <==> 0 <= file < |t.files|
    ensures 0 <= file < |t.files| ==>
              HoldTheRead(t, t.files[file], off, length, whole, WindowFor(t, file, off, length, window).value)
  {
    whole := AlignUpIsLeast(window, t.pieceLength);
    if 0 <= file < |t.files| {
      var wide := AlignUp(window, t.pieceLength);
      var n := if wide > length then wide else length;
      Scaled(1, whole, t.pieceLength);
      if StartOf(off) < t.files[file].length {
        RequestedPieces(t, file, off, n);
        HoldsTheBytes(t, t.files[file], off, n, PieceRangeFor(t, file, off, n).value);
      } else {
        PastTheEnd(t, file, off, n);
      }
    }
  }

  lemma HoldsTheBytes(t: Layout, f: FileInfo, off: int, n: int, pieces: Span)
    requires t.pieceLength > 0 && n > 0 && StartOf(off) < f.length
    requires Range(pieces) == PiecesOfBytes(f, t.pieceLength, Range(Clamped(f, off, n)))
    ensures forall k :: k in Range(pieces) <==> HoldsSome(t, f, StartOf(off), StartOf(off) + n, k)
  {
    var start, read := StartOf(off), Clamped(f, off, n);
    forall k ensures k in Range(pieces) <==> HoldsSome(t, f, start, start + n, k) {
      if k in Range(pieces) {
        var x :| x in Range(read) && 0 <= x < f.length && (f.offset + x) / t.pieceLength == k;
        PieceOfByte(f.offset + x, t.pieceLength, k);
        assert ReadsFrom(t, f, start, start + n, k, x);
      }
      if HoldsSome(t, f, start, start + n, k) {
        var x :| ReadsFrom(t, f, start, start + n, k, x);
        PieceOfByte(f.offset + x, t.pieceLength, k);
        assert x in Range(read) && 0 <= x < f.length;
      }
    }
  }

  lemma PastTheEnd(t: Layout, file: int, off: int, n: int)
    requires Laid(t) && 0 <= file < |t.files| && n > 0 && StartOf(off) >= t.files[file].length
    ensures PieceRangeFor(t, file, off, n).Ok?
    ensures var f := t.files[file];
            forall k :: k in Range(PieceRangeFor(t, file, off, n).value) <==>
              k < t.numPieces && k * t.pieceLength <= f.offset + f.length < k * t.pieceLength + t.pieceLength
  {
    var f, pieces := t.files[file], PieceRangeFor(t, file, off, n).value;
    assert f in t.files;
    RangesStayInTheTorrent(t, file, off, n);
    DivisionClimbs(0, f.offset + f.length, t.pieceLength);
    forall k ensures k in Range(pieces) <==>
      k < t.numPieces && k * t.pieceLength <= f.offset + f.length < k * t.pieceLength + t.pieceLength {
      PieceOfByte(f.offset + f.length, t.pieceLength, k);
    }
  }

  // ---- fileBytesOf and pieceSpanOf: out to bytes, and back ----

  function FileBytesOf(t: Layout, file: int, pieces: Span): Result<Span> {
    if file < 0 || file >= |t.files| || t.pieceLength <= 0 then Err
    else
      var f := t.files[file];
      if f.length <= 0 then Err
      else
        var begin := pieces.begin * t.pieceLength - f.offset;
        var end := pieces.end * t.pieceLength - f.offset;
        var begin' := if begin < 0 then 0 else begin;
        var end' := if end > f.length then f.length else end;
        if end' <= begin' then Err else Ok(Span(begin', end'))
  }

  function PieceSpanOf(r: Span, file: FileInfo, pieceBytes: int): Result<Span>
    requires pieceBytes > 0
  {
    var begin := if r.begin < 0 then 0 else r.begin;
    var end := if r.end > file.length then file.length else r.end;
    if end <= begin then Err
    else Ok(Span((file.offset + begin) / pieceBytes, (file.offset + end - 1) / pieceBytes + 1))
  }

  /** A recorded byte range expands to exactly the pieces its bytes inside the file lie in. */
  lemma SpanExpands(r: Span, file: FileInfo, p: int)
    requires p > 0
    ensures PiecesOfBytes(file, p, Range(r)) ==
            if PieceSpanOf(r, file, p).Ok? then Range(PieceSpanOf(r, file, p).value) else {}
  {
    var b := if r.begin < 0 then 0 else r.begin;
    var e := if r.end > file.length then file.length else r.end;
    if b < e {
      PiecesOfStretch(file, p, b, e);
      var clipped := Range(Span(b, e));
      assert forall x :: x in Range(r) && 0 <= x < file.length <==> x in clipped && 0 <= x < file.length;
      assert PiecesOfBytes(file, p, Range(r)) == PiecesOfBytes(file, p, clipped);
    }
  }

  /** A byte of the file lies in a piece of the range exactly when clipping keeps it. */
  lemma ClippedBytes(t: Layout, file: int, pieces: Span, x: int)
    requires Laid(t) && 0 <= file < |t.files| && 0 <= x < t.files[file].length
    ensures (t.files[file].offset + x) / t.pieceLength in Range(pieces) <==>
            FileBytesOf(t, file, pieces).Ok? && x in Range(FileBytesOf(t, file, pieces).value)
  {
    var f, p := t.files[file], t.pieceLength;
    var k := (f.offset + x) / p;
    PieceOfByte(f.offset + x, p, k);
    Scaled(pieces.begin, k, p);
    Scaled(pieces.end, k, p);
    Scaled(k, pieces.begin, p);
    Scaled(k + 1, pieces.begin, p);
    Scaled(pieces.end, k + 1, p);
    assert (k + 1) * p == k * p + p;
  }

  /** The round trip: pieces clipped to a file's bytes and expanded again are the very pieces that meet
      the file, no more and no fewer. */
  lemma ClaimComesBack(t: Layout, file: int, pieces: Span)
    requires Laid(t) && 0 <= file < |t.files|
    ensures var f, p := t.files[file], t.pieceLength;
            (if FileBytesOf(t, file, pieces).Ok?
             then PiecesOfBytes(f, p, Range(FileBytesOf(t, file, pieces).value)) else {})
            == if f.length > 0 then Range(pieces) * PiecesOfFile(f, p) else {}
  {
    var f, p := t.files[file], t.pieceLength;
    if f.length > 0 {
      var bytes := if FileBytesOf(t, file, pieces).Ok? then Range(FileBytesOf(t, file, pieces).value) else {};
      var whole := Range(Span(0, f.length));
      PiecesOfStretch(f, p, 0, f.length);
      forall k ensures k in PiecesOfBytes(f, p, bytes) <==> k in Range(pieces) && k in PiecesOfBytes(f, p, whole) {
        if k in PiecesOfBytes(f, p, bytes) {
          var x :| x in bytes && 0 <= x < f.length && (f.offset + x) / p == k;
          ClippedBytes(t, file, pieces, x);
          assert x in whole;
        }
        if k in Range(pieces) && k in PiecesOfBytes(f, p, whole) {
          var x :| x in whole && 0 <= x < f.length && (f.offset + x) / p == k;
          ClippedBytes(t, file, pieces, x);
        }
      }
    }
  }

  // ---- what a piece weighs ----

  function PieceBytes(t: Layout, i: int): int {
    if t.pieceLength <= 0 || i < 0 || (t.numPieces > 0 && i >= t.numPieces) then 0
    else if t.numPieces > 0 && i == t.numPieces - 1 then
      var tail := t.length - (t.numPieces - 1) * t.pieceLength;
      if 0 < tail < t.pieceLength then tail else t.pieceLength
    else t.pieceLength
  }

  /** The weight of the pieces of a set below n. */
  function WeightBelow(t: Layout, pieces: set<int>, n: nat): int {
    if n == 0 then 0
    else WeightBelow(t, pieces, n - 1) + if n - 1 in pieces then PieceBytes(t, n - 1) else 0
  }

  lemma {:induction false} WeightAdds(t: Layout, pieces: set<int>, i: int, n: nat)
    requires 0 <= i && i !in pieces
    ensures WeightBelow(t, pieces + {i}, n) == WeightBelow(t, pieces, n) + if i < n then PieceBytes(t, i) else 0
  {
    if n > 0 { WeightAdds(t, pieces, i, n - 1); }
  }

  /** A piece weighs the stretch of the torrent it is, the last one up to the torrent's end, and a piece there is
      not weighs nothing. */
  lemma PieceWeighsItsStretch(t: Layout, i: int)
    requires Laid(t)
    ensures i < 0 || 0 < t.numPieces <= i ==> PieceBytes(t, i) == 0
    ensures 0 <= i < t.numPieces ==>
              PieceBytes(t, i) > 0 &&
              PieceBytes(t, i) ==
              (if i == t.numPieces - 1 then t.length else (i + 1) * t.pieceLength) - i * t.pieceLength
  {
    var p, n := t.pieceLength, t.numPieces;
    PieceOfByte(t.length + p - 1, p, n);
    assert (n - 1) * p == n * p - p && (i + 1) * p == i * p + p;
  }

  lemma {:induction false} WeightIsBounded(t: Layout, pieces: set<int>, n: nat)
    requires Laid(t) && n <= t.numPieces
    ensures 0 <= WeightBelow(t, pieces, n) <= (if n == t.numPieces then t.length else n * t.pieceLength)
    ensures (forall i :: 0 <= i < n ==> i in pieces) <==>
            WeightBelow(t, pieces, n) == if n == t.numPieces then t.length else n * t.pieceLength
  {
    if n > 0 {
      WeightIsBounded(t, pieces, n - 1);
      PieceWeighsItsStretch(t, n - 1);
    } else if t.numPieces == 0 {
      PieceOfByte(t.length + t.pieceLength - 1, t.pieceLength, 0);
    }
  }
}
