/** How well the swarm covers a stretch of the torrent (internal/swarm/availability.go). */
module Availability {
  import opened Geometry

  /** One sample: how many peers hold each piece, the piece size and the torrent's length. */
  datatype Sample = Sample(counts: seq<nat>, peers: nat, pieceLength: int, length: int)

  function At(a: Sample, piece: int): nat {
    if 0 <= piece < |a.counts| then a.counts[piece] else 0
  }

  // ---- Known, Unavailable ----

  method Known(a: Sample) returns (known: bool)
    ensures known <==> a.peers > 0 && exists k :: 0 <= k < |a.counts| && a.counts[k] > 0
  {
    if a.peers == 0 { return false; }
    for k := 0 to |a.counts|
      invariant forall j :: 0 <= j < k ==> a.counts[j] == 0
    {
      if a.counts[k] > 0 { return true; }
    }
    return false;
  }

  // ---- OverRange ----

  /** The least held of the pieces first to last. */
  function Scarcest(a: Sample, first: int, last: int): (n: nat)
    requires first <= last
    ensures forall k :: first <= k <= last ==> n <= At(a, k)
    ensures exists k :: first <= k <= last && n == At(a, k)
    decreases last - first
  {
    if first == last then At(a, first)
    else
      var rest := Scarcest(a, first, last - 1);
      if At(a, last) < rest then At(a, last) else rest
  }

  function Start(start: int): int { if start < 0 then 0 else start }

  function End(a: Sample, end: int): int { if a.length > 0 && end > a.length then a.length else end }

  function Over(a: Sample, start: int, end: int): nat {
    if a.pieceLength <= 0 || end <= start || End(a, end) <= Start(start) then 0
    else
      DivisionClimbs(Start(start), End(a, end) - 1, a.pieceLength);
      Scarcest(a, Start(start) / a.pieceLength, (End(a, end) - 1) / a.pieceLength)
  }

  lemma OneMorePiece(a: Sample, first: int, last: int)
    requires first < last
    ensures Scarcest(a, first, last) ==
            if At(a, last) < Scarcest(a, first, last - 1) then At(a, last) else Scarcest(a, first, last - 1)
  {
  }

  method OverRange(a: Sample, start: int, end: int) returns (n: nat)
    ensures n == Over(a, start, end)
  {
    if a.pieceLength <= 0 || end <= start { return 0; }
    var from, upTo := Start(start), End(a, end);
    if upTo <= from { return 0; }
    var first, last := from / a.pieceLength, (upTo - 1) / a.pieceLength;
    DivisionClimbs(from, upTo - 1, a.pieceLength);
    var least: int := -1;
    var piece := first;
    while piece <= last
      invariant first <= piece <= last + 1
      invariant if piece == first then least == -1 else least == Scarcest(a, first, piece - 1)
    {
      var held := At(a, piece);
      if piece > first { OneMorePiece(a, first, piece); }
      if least < 0 || held < least { least := held; }
      piece := piece + 1;
    }
    // The stretch has a byte, so a piece was looked at and the fallback for none is never taken.
    n := least;
  }

  /** A stretch from start up to end touches piece k: some byte of it is in that piece. */
  ghost predicate Touches(p: int, start: int, end: int, k: int)
    requires p > 0
  {
    exists x :: start <= x < end && x / p == k
  }

  lemma TouchedPieces(p: int, start: int, end: int, k: int)
    requires p > 0 && start < end
    ensures Touches(p, start, end, k) <==> start / p <= k <= (end - 1) / p
  {
    if x :| start <= x < end && x / p == k {
      DivisionClimbs(start, x, p);
      DivisionClimbs(x, end - 1, p);
    }
    if start / p <= k <= (end - 1) / p {
      var x := if k * p < start then start else k * p;
      PieceOfByte(start, p, start / p);
      PieceOfByte(end - 1, p, (end - 1) / p);
      Scaled(k, (end - 1) / p, p);
      Scaled(start / p, k, p);
      PieceOfByte(x, p, k);
      assert x / p == k;
    }
  }

  /** A stretch inside the torrent is exactly as reachable as the scarcest piece it touches. */
  lemma OverIsTheScarcestTouched(a: Sample, start: int, end: int)
    requires a.pieceLength > 0 && 0 <= start < end && (a.length > 0 ==> end <= a.length)
    ensures forall k :: Touches(a.pieceLength, start, end, k) ==> Over(a, start, end) <= At(a, k)
    ensures exists k :: Touches(a.pieceLength, start, end, k) && Over(a, start, end) == At(a, k)
  {
    var p := a.pieceLength;
    DivisionClimbs(start, end - 1, p);
    forall k | Touches(p, start, end, k) ensures Over(a, start, end) <= At(a, k) { TouchedPieces(p, start, end, k); }
    var k :| start / p <= k <= (end - 1) / p && Scarcest(a, start / p, (end - 1) / p) == At(a, k);
    TouchedPieces(p, start, end, k);
  }

  function OverFile(a: Sample, f: FileInfo, off: int, length: int): nat {
    var from := if off < 0 then 0 else off;
    if from > f.length then 0
    else
      var n := if from + length > f.length then f.length - from else length;
      Over(a, f.offset + from, f.offset + from + n)
  }

  /** How many peers hold a piece: none holds one the sample has no count for. */
  ghost predicate Holds(a: Sample, k: int, n: nat) {
    if 0 <= k < |a.counts| then a.counts[k] == n else n == 0
  }

  /** n is the least held of the pieces with a byte of this stretch, and none at all when it has no byte. */
  ghost predicate LeastHeld(a: Sample, start: int, end: int, n: nat)
    requires a.pieceLength > 0
  {
    if start >= end then n == 0
    else
      (forall k, m :: Touches(a.pieceLength, start, end, k) && Holds(a, k, m) ==> n <= m) &&
      exists k :: Touches(a.pieceLength, start, end, k) && Holds(a, k, n)
  }

  lemma OverIsTheLeastHeld(a: Sample, start: int, end: int)
    requires a.pieceLength > 0
    ensures LeastHeld(a, if start < 0 then 0 else start, if 0 < a.length < end then a.length else end,
                      Over(a, start, end))
  {
    var from, upTo := if start < 0 then 0 else start, if 0 < a.length < end then a.length else end;
    if from < upTo {
      OverIsTheScarcestTouched(a, from, upTo);
      assert Over(a, from, upTo) == Over(a, start, end);
      forall k, m | Touches(a.pieceLength, from, upTo, k) && Holds(a, k, m) ensures Over(a, start, end) <= m {
        assert At(a, k) == m;
      }
      var k :| Touches(a.pieceLength, from, upTo, k) && Over(a, from, upTo) == At(a, k);
      assert Holds(a, k, Over(a, start, end));
    }
  }

  /** Of any stretch of a file, whatever is asked for: the part of it that is in the file, and in the torrent. */
  lemma OverFileIsTheLeastHeld(a: Sample, f: FileInfo, off: int, length: int)
    requires a.pieceLength > 0 && f.offset >= 0 && f.length >= 0 && (a.length > 0 ==> f.offset + f.length <= a.length)
    ensures var from := if off < 0 then 0 else off;
            var upTo := if from + length > f.length then f.length else from + length;
            LeastHeld(a, f.offset + from, f.offset + upTo, OverFile(a, f, off, length))
  {
    var from := if off < 0 then 0 else off;
    var upTo := if from + length > f.length then f.length else from + length;
    if from <= f.length { OverIsTheLeastHeld(a, f.offset + from, f.offset + upTo); }
  }

  // ---- Coarse ----

  /** How many pieces the file spans. */
  function Spanned(a: Sample, f: FileInfo): int
    requires a.pieceLength > 0
  {
    LastPiece(f, a.pieceLength) - FirstPiece(f, a.pieceLength) + 1
  }

  function BucketCount(a: Sample, f: FileInfo, buckets: int): int
    requires a.pieceLength > 0
  {
    if buckets > Spanned(a, f) then Spanned(a, f) else buckets
  }

  /** Where bucket i of n begins, and the one before it ends. */
  function Bound(f: FileInfo, i: int, n: int): int
    requires n > 0
  {
    f.offset + f.length * i / n
  }

  method Coarse(a: Sample, f: FileInfo, buckets: int) returns (out: seq<nat>)
    requires f.offset >= 0
    ensures buckets > 0 && f.length > 0 && a.pieceLength > 0 ==>
              var spanned := LastPiece(f, a.pieceLength) - FirstPiece(f, a.pieceLength) + 1;
              |out| <= buckets && |out| <= spanned && (|out| == buckets || |out| == spanned)
    ensures buckets <= 0 || f.length <= 0 || a.pieceLength <= 0 ==> out == []
    ensures buckets > 0 && f.length > 0 && a.pieceLength > 0 ==>
              var n := BucketCount(a, f, buckets);
              n > 0 && IsCoarse(a, Bounds(f, n), n, out)
  {
    if buckets <= 0 || f.length <= 0 || a.pieceLength <= 0 { return []; }
    var spanned := (f.offset + f.length - 1) / a.pieceLength - f.offset / a.pieceLength + 1;
    DivisionClimbs(f.offset, f.offset + f.length - 1, a.pieceLength);
    var n := if buckets > spanned then spanned else buckets;
    out := [];
    for i := 0 to n
      invariant |out| == i && forall j :: 0 <= j < i ==> out[j] == Over(a, Bound(f, j, n), Bound(f, j + 1, n))
    {
      var held := OverRange(a, Bound(f, i, n), Bound(f, i + 1, n));
      out := out + [held];
    }
  }

  /** A file inside the torrent, with something in it. */
  ghost predicate Inside(a: Sample, f: FileInfo) {
    a.pieceLength > 0 && f.offset >= 0 && f.length > 0 && (a.length > 0 ==> f.offset + f.length <= a.length)
  }

  /** A file never spans more pieces than it has bytes, so capping the buckets at the pieces is enough. */
  lemma SpansNoMoreThanItsBytes(a: Sample, f: FileInfo)
    requires Inside(a, f)
    ensures 1 <= Spanned(a, f) <= f.length
  {
    var p, q, r := a.pieceLength, FirstPiece(f, a.pieceLength), LastPiece(f, a.pieceLength);
    DivisionClimbs(f.offset, f.offset + f.length - 1, p);
    PieceOfByte(f.offset, p, q);
    PieceOfByte(f.offset + f.length - 1, p, r);
    if r > q {
      assert (q + 1) * p == q * p + p && r * p - (q + 1) * p == (r - q - 1) * p;
      Scaled(q + 1, r, p);
      assert r - q - 1 <= (r - q - 1) * p by { ScaledUp(1, p, r - q); LeastProduct(r - q - 1, p); }
    }
  }

  lemma LeastProduct(x: int, p: int)
    requires x >= 0 && p > 0
    ensures x <= x * p
  {
    Product(x, p);
    assert x * p == x + x * (p - 1);
    if p > 1 { Product(x, p - 1); }
  }

  lemma BoundsClimb(f: FileInfo, i: int, n: int)
    requires 0 <= i < n <= f.length
    ensures Bound(f, i, n) < Bound(f, i + 1, n)
    ensures Bound(f, 0, n) == f.offset && Bound(f, n, n) == f.offset + f.length
  {
    var x := f.length * i;
    assert f.length * (i + 1) == x + f.length;
    PieceOfByte(x, n, x / n);
    PieceOfByte(x + n, n, x / n + 1);
    assert (x / n + 1) * n == x / n * n + n;
    DivisionClimbs(x + n, x + f.length, n);
    PieceOfByte(f.length * n, n, f.length);
  }

  lemma BetweenMultiples(m: int, n: int)
    requires n > 0 && -n < m * n < 2 * n
    ensures 0 <= m <= 1
  {
    if m < 0 { Scaled(m, -1, n); }
    if m > 1 { Scaled(2, m, n); }
  }

  lemma QuotientsAdd(x: int, y: int, n: int)
    requires n > 0
    ensures x / n + y / n <= (x + y) / n <= x / n + y / n + 1
  {
    var q, r, z := x / n, y / n, (x + y) / n;
    assert q * n <= x < q * n + n && r * n <= y < r * n + n && z * n <= x + y < z * n + n;
    assert (z - q - r) * n == z * n - q * n - r * n;
    BetweenMultiples(z - q - r, n);
  }

  /** The buckets are even: none is more than a byte longer than another. */
  lemma BucketsAreEven(f: FileInfo, i: int, n: int)
    requires 0 <= i < n
    ensures f.length / n <= Bound(f, i + 1, n) - Bound(f, i, n) <= f.length / n + 1
  {
    assert f.length * (i + 1) == f.length * i + f.length;
    QuotientsAdd(f.length * i, f.length, n);
  }

  // ---- buckets, whatever their bounds, as long as each ends past where it begins ----

  ghost predicate Climbs(bound: int -> int, n: int) {
    forall i :: 0 <= i < n ==> bound(i) < bound(i + 1)
  }

  ghost predicate InBucket(bound: int -> int, x: int, i: int, n: int) {
    0 <= i < n && bound(i) <= x < bound(i + 1)
  }

  /** Byte x is in one bucket and no other. */
  ghost predicate InOneBucket(bound: int -> int, x: int, n: int) {
    exists i :: InBucket(bound, x, i, n) && forall j :: InBucket(bound, x, j, n) ==> j == i
  }

  lemma {:induction false} BoundsAreApart(bound: int -> int, i: int, j: int, n: int)
    requires 0 <= i <= j <= n && Climbs(bound, n)
    ensures bound(i) <= bound(j)
    decreases j - i
  {
    if i < j {
      BoundsAreApart(bound, i, j - 1, n);
      assert bound(j - 1) < bound(j - 1 + 1);
    }
  }

  lemma BucketsDoNotMeet(bound: int -> int, x: int, i: int, j: int, n: int)
    requires Climbs(bound, n) && InBucket(bound, x, i, n) && InBucket(bound, x, j, n)
    ensures i == j
  {
    if i < j { BoundsAreApart(bound, i + 1, j, n); }
    if j < i { BoundsAreApart(bound, j + 1, i, n); }
  }

  lemma {:induction false} BucketFrom(bound: int -> int, x: int, i: int, n: int) returns (b: int)
    requires Climbs(bound, n) && 0 <= i < n && bound(i) <= x < bound(n)
    ensures InBucket(bound, x, b, n)
    decreases n - i
  {
    if x < bound(i + 1) { b := i; } else { b := BucketFrom(bound, x, i + 1, n); }
  }

  lemma BucketOf(bound: int -> int, x: int, n: int) returns (b: int)
    requires Climbs(bound, n) && 0 < n && bound(0) <= x < bound(n)
    ensures InBucket(bound, x, b, n) && InOneBucket(bound, x, n)
  {
    b := BucketFrom(bound, x, 0, n);
    forall j | InBucket(bound, x, j, n) ensures j == b { BucketsDoNotMeet(bound, x, j, b, n); }
  }

  // ---- what the coarse map says ----

  function Bounds(f: FileInfo, n: int): int -> int
    requires n > 0
  {
    i => Bound(f, i, n)
  }

  lemma FileBounds(f: FileInfo, n: int)
    requires 0 < n <= f.length
    ensures Climbs(Bounds(f, n), n) && Bounds(f, n)(0) == f.offset && Bounds(f, n)(n) == f.offset + f.length
  {
    forall i | 0 <= i < n ensures Bounds(f, n)(i) < Bounds(f, n)(i + 1) { BoundsClimb(f, i, n); }
    BoundsClimb(f, 0, n);
  }

  /** The buckets are never empty and between them hold every byte of the file exactly once. */
  lemma BucketsPartitionTheFile(a: Sample, f: FileInfo, buckets: int, x: int)
    requires Inside(a, f) && buckets > 0
    ensures var n := BucketCount(a, f, buckets);
            1 <= n && Climbs(Bounds(f, n), n) &&
            (f.offset <= x < f.offset + f.length ==> InOneBucket(Bounds(f, n), x, n)) &&
            (!(f.offset <= x < f.offset + f.length) ==> forall i :: !InBucket(Bounds(f, n), x, i, n))
  {
    var n := BucketCount(a, f, buckets);
    SpansNoMoreThanItsBytes(a, f);
    FileBounds(f, n);
    var bound := Bounds(f, n);
    if f.offset <= x < f.offset + f.length { var b := BucketOf(bound, x, n); }
    forall i | InBucket(bound, x, i, n) ensures f.offset <= x < f.offset + f.length {
      BoundsAreApart(bound, 0, i, n);
      BoundsAreApart(bound, i + 1, n, n);
    }
  }

  /** What Coarse computes, as its contract has it. */
  ghost predicate IsCoarse(a: Sample, bound: int -> int, n: int, out: seq<nat>) {
    |out| == n && forall i :: 0 <= i < n ==> out[i] == Over(a, bound(i), bound(i + 1))
  }

  /** Piece k has a byte of bucket i. */
  ghost predicate InPiece(a: Sample, bound: int -> int, i: int, k: int)
    requires a.pieceLength > 0
  {
    Touches(a.pieceLength, bound(i), bound(i + 1), k)
  }

  /** Bounds that cut the stretch from start to end, inside the torrent, into n. */
  ghost predicate Cuts(a: Sample, bound: int -> int, n: int) {
    a.pieceLength > 0 && 0 < n && Climbs(bound, n) && 0 <= bound(0) && (a.length > 0 ==> bound(n) <= a.length)
  }

  lemma BucketTouchesTheWhole(a: Sample, bound: int -> int, i: int, n: int, k: int)
    requires Cuts(a, bound, n) && 0 <= i < n && InPiece(a, bound, i, k)
    ensures Touches(a.pieceLength, bound(0), bound(n), k)
  {
    BoundsAreApart(bound, 0, i, n);
    BoundsAreApart(bound, i + 1, n, n);
    var x :| bound(i) <= x < bound(i + 1) && x / a.pieceLength == k;
  }

  /** A bucket shows the scarcest piece that touches it. */
  lemma BucketIsItsScarcest(a: Sample, bound: int -> int, i: int, n: int)
    requires Cuts(a, bound, n) && 0 <= i < n
    ensures var held := Over(a, bound(i), bound(i + 1));
            Over(a, bound(0), bound(n)) <= held && (forall k :: InPiece(a, bound, i, k) ==> held <= At(a, k)) &&
            exists k :: InPiece(a, bound, i, k) && held == At(a, k)
  {
    BoundsAreApart(bound, 0, i, n);
    BoundsAreApart(bound, i + 1, n, n);
    BoundsAreApart(bound, 0, n, n);
    assert bound(i) < bound(i + 1);
    OverIsTheScarcestTouched(a, bound(0), bound(n));
    OverIsTheScarcestTouched(a, bound(i), bound(i + 1));
    var k :| Touches(a.pieceLength, bound(i), bound(i + 1), k) && Over(a, bound(i), bound(i + 1)) == At(a, k);
    assert InPiece(a, bound, i, k);
    BucketTouchesTheWhole(a, bound, i, n, k);
  }

  /** The bucket that holds a byte of the scarcest piece of all. */
  lemma ScarcestBucket(a: Sample, bound: int -> int, n: int) returns (b: int)
    requires Cuts(a, bound, n)
    ensures 0 <= b < n && Over(a, bound(b), bound(b + 1)) == Over(a, bound(0), bound(n))
  {
    BoundsAreApart(bound, 1, n, n);
    assert bound(0) < bound(0 + 1);
    OverIsTheScarcestTouched(a, bound(0), bound(n));
    var k :| Touches(a.pieceLength, bound(0), bound(n), k) && Over(a, bound(0), bound(n)) == At(a, k);
    var x :| bound(0) <= x < bound(n) && x / a.pieceLength == k;
    b := BucketOf(bound, x, n);
    assert InPiece(a, bound, b, k);
    BucketIsItsScarcest(a, bound, b, n);
  }

  lemma FileIsCut(a: Sample, f: FileInfo, n: int)
    requires Inside(a, f) && 0 < n <= f.length
    ensures Cuts(a, Bounds(f, n), n)
    ensures Over(a, Bounds(f, n)(0), Bounds(f, n)(n)) == OverFile(a, f, 0, f.length)
  {
    FileBounds(f, n);
  }

  /** No bucket hides a piece the whole file is held up by: each shows the scarcest piece that touches it, and
      the least of them is what OverFileRange says of the file. */
  lemma CoarseHidesNothing(a: Sample, f: FileInfo, buckets: int, out: seq<nat>)
    requires Inside(a, f) && buckets > 0
    requires var n := BucketCount(a, f, buckets); n > 0 && IsCoarse(a, Bounds(f, n), n, out)
    ensures forall i :: 0 <= i < |out| ==> OverFile(a, f, 0, f.length) <= out[i]
    ensures exists i :: 0 <= i < |out| && out[i] == OverFile(a, f, 0, f.length)
    ensures forall i, k :: 0 <= i < |out| && InPiece(a, Bounds(f, |out|), i, k) ==> out[i] <= At(a, k)
    ensures forall i :: 0 <= i < |out| ==> exists k :: InPiece(a, Bounds(f, |out|), i, k) && out[i] == At(a, k)
  {
    var n := |out|;
    SpansNoMoreThanItsBytes(a, f);
    FileIsCut(a, f, n);
    var bound := Bounds(f, n);
    forall i | 0 <= i < n
      ensures OverFile(a, f, 0, f.length) <= out[i]
      ensures forall k :: InPiece(a, bound, i, k) ==> out[i] <= At(a, k)
      ensures exists k :: InPiece(a, bound, i, k) && out[i] == At(a, k) {
      BucketIsItsScarcest(a, bound, i, n);
    }
    var b := ScarcestBucket(a, bound, n);
    assert out[b] == OverFile(a, f, 0, f.length);
  }

  /** The file can be had whole exactly when every piece of it is held by somebody. */
  lemma WholeIffHeld(a: Sample, f: FileInfo)
    requires Inside(a, f)
    ensures OverFile(a, f, 0, f.length) == 0 <==>
            exists k :: FirstPiece(f, a.pieceLength) <= k <= LastPiece(f, a.pieceLength) && At(a, k) == 0
  {
    DivisionClimbs(f.offset, f.offset + f.length - 1, a.pieceLength);
    assert OverFile(a, f, 0, f.length) == Scarcest(a, FirstPiece(f, a.pieceLength), LastPiece(f, a.pieceLength));
  }

  /** Some bucket is drawn empty exactly when some piece of the file is held by nobody. */
  lemma EmptyBucketIffMissingPiece(a: Sample, f: FileInfo, buckets: int, out: seq<nat>)
    requires Inside(a, f) && buckets > 0
    requires var n := BucketCount(a, f, buckets); n > 0 && IsCoarse(a, Bounds(f, n), n, out)
    ensures (exists i :: 0 <= i < |out| && out[i] == 0) <==>
            exists k :: FirstPiece(f, a.pieceLength) <= k <= LastPiece(f, a.pieceLength) && At(a, k) == 0
  {
    CoarseHidesNothing(a, f, buckets, out);
    WholeIffHeld(a, f);
  }
}
