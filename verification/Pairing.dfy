/** Mutual nearest pairing of two arms' capture points (internal/web/compare.go).
    A float64 is a real here; rounding is not modelled. */
module Pairing {
  import opened Sorting

  // ---- nearestIndex ----

  ghost predicate Climbing(s: seq<real>) {
    forall i, j :: 0 <= i <= j < |s| ==> s[i] <= s[j]
  }

  function Abs(v: real): real {
    if v < 0.0 then -v else v
  }

  /** sort.SearchFloat64s: the first index whose value is not below v. */
  function LowerBound(s: seq<real>, v: real, lo: nat, hi: nat): (i: nat)
    requires Climbing(s) && lo <= hi <= |s|
    requires forall k :: 0 <= k < lo ==> s[k] < v
    requires forall k :: hi <= k < |s| ==> v <= s[k]
    ensures i <= |s|
    ensures forall k :: 0 <= k < i ==> s[k] < v
    ensures forall k :: i <= k < |s| ==> v <= s[k]
    decreases hi - lo
  {
    if lo == hi then lo
    else
      var mid := (lo + hi) / 2;
      if s[mid] < v then LowerBound(s, v, mid + 1, hi) else LowerBound(s, v, lo, mid)
  }

  /** The answer is at least as near as every other value, and the lower of two equally near ones. */
  function NearestIndex(s: seq<real>, v: real): (n: nat)
    requires Climbing(s) && |s| > 0
    ensures n < |s|
    ensures forall k :: 0 <= k < |s| ==> Abs(s[n] - v) <= Abs(s[k] - v)
    ensures forall k :: 0 <= k < |s| && Abs(s[n] - v) == Abs(s[k] - v) ==> s[n] <= s[k]
  {
    var i := LowerBound(s, v, 0, |s|);
    if i == 0 then 0
    else if i == |s| then |s| - 1
    else if v - s[i - 1] <= s[i] - v then i - 1
    else i
  }

  /** A later moment is never nearest to an earlier point. */
  lemma NearestIsMonotone(s: seq<real>, v: real, w: real)
    requires Climbing(s) && |s| > 0 && v <= w
    ensures NearestIndex(s, v) <= NearestIndex(s, w)
  {
    var i, j := LowerBound(s, v, 0, |s|), LowerBound(s, w, 0, |s|);
    if j < |s| { assert w <= s[j]; }
  }

  // ---- pairNearest ----

  predicate Mutual(a: seq<real>, b: seq<real>, tolerance: real, i: nat, j: nat)
    requires Climbing(a) && Climbing(b)
  {
    i < |a| && j < |b| &&
    NearestIndex(b, a[i]) == j && NearestIndex(a, b[j]) == i && Abs(a[i] - b[j]) <= tolerance
  }

  /** Indices of a point of either arm. */
  datatype Pair = Pair(a: nat, b: nat)

  type Relation = Pair -> bool

  function Partners(a: seq<real>, b: seq<real>, tolerance: real): Relation
    requires Climbing(a) && Climbing(b)
  {
    (p: Pair) => Mutual(a, b, tolerance, p.a, p.b)
  }

  ghost predicate Rising(pairs: seq<Pair>) {
    forall m, n :: 0 <= m < n < |pairs| ==> pairs[m].a < pairs[n].a && pairs[m].b < pairs[n].b
  }

  /** out lists, in ascending order on both sides, exactly the related pairs with a first index below n. */
  ghost predicate ListsUpTo(related: Relation, out: seq<Pair>, n: nat) {
    Rising(out) &&
    (forall k :: 0 <= k < |out| ==> out[k].a < n && related(out[k])) &&
    forall p: Pair :: p.a < n && related(p) ==> p in out
  }

  /** What the flipbook's positions are: every mutual pair within tolerance, in ascending order. */
  ghost predicate IsPairing(a: seq<real>, b: seq<real>, tolerance: real, pairs: seq<Pair>)
    requires Climbing(a) && Climbing(b)
  {
    ListsUpTo(Partners(a, b, tolerance), pairs, |a|)
  }

  /** Pairs cannot cross, and no point serves twice. */
  lemma MutualPairsDoNotCross(a: seq<real>, b: seq<real>, t: real, i: nat, j: nat, i': nat, j': nat)
    requires Climbing(a) && Climbing(b)
    requires Mutual(a, b, t, i, j) && Mutual(a, b, t, i', j')
    ensures i < i' <==> j < j'
  {
    if i < i' { NearestIsMonotone(b, a[i], a[i']); }
    if j < j' { NearestIsMonotone(a, b[j], b[j']); }
    if i' <= i { NearestIsMonotone(b, a[i'], a[i]); }
  }

  lemma ListsNext(related: Relation, out: seq<Pair>, i: nat, j: nat)
    requires ListsUpTo(related, out, i) && related(Pair(i, j))
    requires forall k :: 0 <= k < |out| ==> out[k].b < j
    requires forall p: Pair :: related(p) && p.a == i ==> p.b == j
    ensures ListsUpTo(related, out + [Pair(i, j)], i + 1)
  {
    var r := out + [Pair(i, j)];
    assert r[|out|] == Pair(i, j);
    forall p | p in out ensures p in r {
      var k :| 0 <= k < |out| && out[k] == p;
      assert r[k] == p;
    }
  }

  lemma PairsNext(a: seq<real>, b: seq<real>, t: real, out: seq<Pair>, i: nat, j: nat)
    requires Climbing(a) && Climbing(b) && ListsUpTo(Partners(a, b, t), out, i) && Mutual(a, b, t, i, j)
    ensures ListsUpTo(Partners(a, b, t), out + [Pair(i, j)], i + 1)
  {
    forall k | 0 <= k < |out| ensures out[k].b < j {
      assert Partners(a, b, t)(out[k]);
      MutualPairsDoNotCross(a, b, t, out[k].a, out[k].b, i, j);
    }
    ListsNext(Partners(a, b, t), out, i, j);
  }

  /** One step of the loop: point i of a joins the pairing exactly when its nearest point returns the choice. */
  lemma PairsStep(a: seq<real>, b: seq<real>, t: real, out: seq<Pair>, i: nat, j: nat, next: seq<Pair>)
    requires Climbing(a) && Climbing(b) && ListsUpTo(Partners(a, b, t), out, i)
    requires i < |a| && |b| > 0 && j == NearestIndex(b, a[i])
    requires next == if NearestIndex(a, b[j]) == i && Abs(a[i] - b[j]) <= t then out + [Pair(i, j)] else out
    ensures ListsUpTo(Partners(a, b, t), next, i + 1)
  {
    if Mutual(a, b, t, i, j) { PairsNext(a, b, t, out, i, j); }
  }

  method NearestForEach(points: seq<real>, among: seq<real>) returns (nearest: seq<nat>)
    requires Climbing(among) && |among| > 0
    ensures |nearest| == |points|
    ensures forall k :: 0 <= k < |points| ==> nearest[k] == NearestIndex(among, points[k])
  {
    nearest := [];
    for i := 0 to |points|
      invariant |nearest| == i
      invariant forall k :: 0 <= k < i ==> nearest[k] == NearestIndex(among, points[k])
    {
      nearest := nearest + [NearestIndex(among, points[i])];
    }
  }

  method PairNearest(a: seq<real>, b: seq<real>, tolerance: real) returns (out: seq<Pair>)
    requires Climbing(a) && Climbing(b)
    ensures IsPairing(a, b, tolerance, out)
  {
    out := [];
    if |a| == 0 || |b| == 0 { return; }

    var nearestInB := NearestForEach(a, b);
    var nearestInA := NearestForEach(b, a);
    for i := 0 to |a|
      invariant ListsUpTo(Partners(a, b, tolerance), out, i)
    {
      ghost var before := out;
      var j := nearestInB[i];
      if nearestInA[j] == i && Abs(a[i] - b[j]) <= tolerance {
        out := out + [Pair(i, j)];
      }
      PairsStep(a, b, tolerance, before, i, j, out);
    }
  }

  /** The pairing is one thing, not whatever a loop happened to emit. */
  lemma PairingIsUnique(a: seq<real>, b: seq<real>, t: real, p: seq<Pair>, q: seq<Pair>)
    requires Climbing(a) && Climbing(b)
    requires IsPairing(a, b, t, p) && IsPairing(a, b, t, q)
    ensures p == q
  {
    ListingIsUnique(Partners(a, b, t), p, q, |a|);
  }

  lemma ListingIsUnique(related: Relation, p: seq<Pair>, q: seq<Pair>, n: nat)
    requires ListsUpTo(related, p, n) && ListsUpTo(related, q, n)
    ensures p == q
  {
    SameMembersSameOrder(p, q);
  }

  /** A rising sequence is determined by its members. */
  lemma {:induction false} SameMembersSameOrder(p: seq<Pair>, q: seq<Pair>)
    requires Rising(p) && Rising(q)
    requires (forall x :: x in p ==> x in q) && forall x :: x in q ==> x in p
    ensures p == q
  {
    EmptyTogether(p, q);
    if p != [] {
      SameFirst(p, q);
      forall x | x in p[1..] ensures x in q[1..] { AfterTheFirst(p, q, x); }
      forall x | x in q[1..] ensures x in p[1..] { AfterTheFirst(q, p, x); }
      SameMembersSameOrder(p[1..], q[1..]);
      assert p == [p[0]] + p[1..] && q == [q[0]] + q[1..];
    }
  }

  lemma EmptyTogether(p: seq<Pair>, q: seq<Pair>)
    requires (forall x :: x in p ==> x in q) && forall x :: x in q ==> x in p
    ensures p == [] <==> q == []
  {
    if p != [] { assert p[0] in q; }
    if q != [] { assert q[0] in p; }
  }

  lemma SameFirst(p: seq<Pair>, q: seq<Pair>)
    requires Rising(p) && Rising(q) && p != [] && q != []
    requires p[0] in q && q[0] in p
    ensures p[0] == q[0]
  {
    var m :| 0 <= m < |q| && q[m] == p[0];
    var n :| 0 <= n < |p| && p[n] == q[0];
    if m > 0 { assert q[0].a < q[m].a; }
    if n > 0 { assert p[0].a < p[n].a; }
  }

  lemma AfterTheFirst(p: seq<Pair>, q: seq<Pair>, x: Pair)
    requires Rising(p) && p != [] && q != [] && p[0] == q[0] && x in p[1..] && x in q
    ensures x in q[1..]
  {
    var k :| 0 <= k < |p| - 1 && p[1..][k] == x;
    assert p[0].a < p[k + 1].a;
    var m :| 0 <= m < |q| && q[m] == x;
    assert q[1..][m - 1] == x;
  }

  function Transposed(pairs: seq<Pair>): seq<Pair> {
    seq(|pairs|, k requires 0 <= k < |pairs| => Pair(pairs[k].b, pairs[k].a))
  }

  lemma TransposedLists(related: Relation, converse: Relation, pairs: seq<Pair>, n: nat, m: nat)
    requires ListsUpTo(related, pairs, n)
    requires forall p: Pair :: related(p) ==> p.a < n && p.b < m
    requires forall p: Pair :: converse(p) <==> related(Pair(p.b, p.a))
    ensures ListsUpTo(converse, Transposed(pairs), m)
  {
    var turned := Transposed(pairs);
    forall p: Pair | converse(p) ensures p in turned {
      var k :| 0 <= k < |pairs| && pairs[k] == Pair(p.b, p.a);
      assert turned[k] == p;
    }
  }

  /** Naming the arms the other way round gives the same pairs, in the same order. */
  lemma PairingIsSymmetric(a: seq<real>, b: seq<real>, t: real, pairs: seq<Pair>, swapped: seq<Pair>)
    requires Climbing(a) && Climbing(b)
    requires IsPairing(a, b, t, pairs) && IsPairing(b, a, t, swapped)
    ensures swapped == Transposed(pairs)
  {
    TransposedLists(Partners(a, b, t), Partners(b, a, t), pairs, |a|, |b|);
    PairingIsUnique(b, a, t, Transposed(pairs), swapped);
  }

  // ---- a pair exists whenever any two points are close enough ----

  /** Nearer, or equally near and earlier. */
  predicate Preferred(x: real, y: real, x': real, y': real) {
    Abs(x - y) < Abs(x' - y') || (Abs(x - y) == Abs(x' - y') && x + y <= x' + y')
  }

  lemma ClosestPair(a: seq<real>, b: seq<real>) returns (i: nat, j: nat)
    requires |a| > 0 && |b| > 0
    ensures i < |a| && j < |b|
    ensures forall m, n :: 0 <= m < |a| && 0 <= n < |b| ==> Preferred(a[i], b[j], a[m], b[n])
  {
    i, j := 0, 0;
    for m := 0 to |a|
      invariant i < |a| && j < |b|
      invariant forall m', n' :: 0 <= m' < m && 0 <= n' < |b| ==> Preferred(a[i], b[j], a[m'], b[n'])
    {
      for n := 0 to |b|
        invariant i < |a| && j < |b|
        invariant forall m', n' :: 0 <= m' < m && 0 <= n' < |b| ==> Preferred(a[i], b[j], a[m'], b[n'])
        invariant forall n' :: 0 <= n' < n ==> Preferred(a[i], b[j], a[m], b[n'])
      {
        if !Preferred(a[i], b[j], a[m], b[n]) { i, j := m, n; }
      }
    }
  }

  /** The preferred pair's points are each other's nearest, up to repeated values. */
  lemma PreferredIsMutual(a: seq<real>, b: seq<real>, i: nat, j: nat) returns (i1: nat, j1: nat)
    requires Climbing(a) && Climbing(b) && i < |a| && j < |b|
    requires forall m, n :: 0 <= m < |a| && 0 <= n < |b| ==> Preferred(a[i], b[j], a[m], b[n])
    ensures i1 < |a| && j1 < |b| && a[i1] == a[i] && b[j1] == b[j]
    ensures NearestIndex(b, a[i1]) == j1 && NearestIndex(a, b[j1]) == i1
  {
    j1 := NearestIndex(b, a[i]);
    assert Preferred(a[i], b[j], a[i], b[j1]);
    i1 := NearestIndex(a, b[j1]);
    assert Preferred(a[i], b[j], a[i1], b[j]);
  }

  /** If any two points are within tolerance the pairing is not empty: it holds a pair that no two
      points of the arms are nearer than. */
  lemma SomethingIsPaired(a: seq<real>, b: seq<real>, t: real, pairs: seq<Pair>, m: nat, n: nat)
    requires Climbing(a) && Climbing(b) && m < |a| && n < |b|
    requires Abs(a[m] - b[n]) <= t && IsPairing(a, b, t, pairs)
    ensures exists p :: p in pairs && p.a < |a| && p.b < |b| &&
              forall m', n' :: 0 <= m' < |a| && 0 <= n' < |b| ==> Abs(a[p.a] - b[p.b]) <= Abs(a[m'] - b[n'])
  {
    var i, j := ClosestPair(a, b);
    var i1, j1 := PreferredIsMutual(a, b, i, j);
    forall m', n' | 0 <= m' < |a| && 0 <= n' < |b|
      ensures Abs(a[i1] - b[j1]) <= Abs(a[m'] - b[n'])
    {
      assert Preferred(a[i], b[j], a[m'], b[n']);
    }
    assert Partners(a, b, t)(Pair(i1, j1));
    assert Pair(i1, j1) in pairs;
  }

  // ---- Server.comparison ----

  datatype Point = Point(timeMs: int, id: nat)
  datatype Arm = Arm(frames: seq<Point>, durationMs: int)
  datatype Position = Position(a: Point, b: Point, fraction: real, drift: real)
  datatype Comparison = Comparison(positions: seq<Position>, unpairedA: nat, unpairedB: nat, byTime: bool)

  const FRACTION_FLOOR := 0.01
  const TIME_FLOOR_MS := 1000.0

  function AscendingByTime(frames: seq<Point>): seq<Point> {
    Sort(frames, (p: Point) => p.timeMs)
  }

  function Normalised(timeMs: int, durationMs: int, byTime: bool): real {
    if byTime || durationMs <= 0 then timeMs as real else timeMs as real / durationMs as real
  }

  method Positions(frames: seq<Point>, durationMs: int, byTime: bool) returns (out: seq<real>)
    ensures out == PositionsOf(frames, durationMs, byTime)
  {
    out := [];
    for k := 0 to |frames|
      invariant out == PositionsOf(frames[..k], durationMs, byTime)
    {
      assert frames[..k + 1] == frames[..k] + [frames[k]];
      out := out + [Normalised(frames[k].timeMs, durationMs, byTime)];
    }
    assert frames[..|frames|] == frames;
  }

  function PositionsOf(frames: seq<Point>, durationMs: int, byTime: bool): seq<real> {
    seq(|frames|, k requires 0 <= k < |frames| => Normalised(frames[k].timeMs, durationMs, byTime))
  }

  lemma DivisionIsMonotone(x: real, y: real, d: real)
    requires x <= y && d > 0.0
    ensures x / d <= y / d
  {
    assert (y - x) / d >= 0.0;
    assert x / d + (y - x) / d == y / d;
  }

  lemma PositionsClimb(frames: seq<Point>, durationMs: int, byTime: bool)
    ensures Climbing(PositionsOf(AscendingByTime(frames), durationMs, byTime))
  {
    var key := (p: Point) => p.timeMs;
    var sorted := AscendingByTime(frames);
    SortSorts(frames, key);
    forall i, j | 0 <= i <= j < |sorted|
      ensures Normalised(sorted[i].timeMs, durationMs, byTime) <= Normalised(sorted[j].timeMs, durationMs, byTime)
    {
      assert key(sorted[i]) <= key(sorted[j]);
      if !byTime && durationMs > 0 {
        DivisionIsMonotone(sorted[i].timeMs as real, sorted[j].timeMs as real, durationMs as real);
      }
    }
  }

  function HalfStep(pos: seq<real>): real {
    if |pos| < 2 then 0.0 else (pos[|pos| - 1] - pos[0]) / (2 * (|pos| - 1)) as real
  }

  function Max(x: real, y: real): real { if x < y then y else x }

  function PairingTolerance(a: seq<real>, b: seq<real>, floor: real): real {
    Max(Max(HalfStep(a), HalfStep(b)), floor)
  }

  function ByTime(left: Arm, right: Arm): bool {
    left.durationMs <= 0 || right.durationMs <= 0
  }

  function PosOf(arm: Arm, byTime: bool): seq<real> {
    PositionsOf(AscendingByTime(arm.frames), arm.durationMs, byTime)
  }

  function ToleranceOf(left: Arm, right: Arm): real {
    var byTime := ByTime(left, right);
    PairingTolerance(PosOf(left, byTime), PosOf(right, byTime), if byTime then TIME_FLOOR_MS else FRACTION_FLOOR)
  }

  function PositionAt(left: Arm, right: Arm, p: Pair): Position
    requires p.a < |AscendingByTime(left.frames)| && p.b < |AscendingByTime(right.frames)|
  {
    var byTime := ByTime(left, right);
    var x, y := PosOf(left, byTime)[p.a], PosOf(right, byTime)[p.b];
    var scale := if byTime then 0.0 else 1.0;
    Position(AscendingByTime(left.frames)[p.a], AscendingByTime(right.frames)[p.b],
             scale * (x + y) / 2.0, scale * Abs(x - y))
  }

  /** c shows the pairing of the two arms, and counts what it leaves out. */
  ghost predicate Compares(left: Arm, right: Arm, c: Comparison) {
    PositionsClimb(left.frames, left.durationMs, ByTime(left, right));
    PositionsClimb(right.frames, right.durationMs, ByTime(left, right));
    exists pairs :: ComparesBy(left, right, c, pairs)
  }

  ghost predicate ComparesBy(left: Arm, right: Arm, c: Comparison, pairs: seq<Pair>) {
    var a, b := PosOf(left, ByTime(left, right)), PosOf(right, ByTime(left, right));
    Climbing(a) && Climbing(b) && IsPairing(a, b, ToleranceOf(left, right), pairs) &&
    c.byTime == ByTime(left, right) && |c.positions| == |pairs| &&
    c.unpairedA + |pairs| == |left.frames| && c.unpairedB + |pairs| == |right.frames| &&
    forall k :: 0 <= k < |pairs| ==>
      pairs[k].a < |a| && pairs[k].b < |b| && c.positions[k] == PositionAt(left, right, pairs[k])
  }

  /** A pairing can be no longer than either arm, so the unpaired counts are never negative. */
  lemma {:induction false} RisingFits(pairs: seq<Pair>, n: nat, m: nat)
    requires Rising(pairs) && forall k :: 0 <= k < |pairs| ==> pairs[k].a < n && pairs[k].b < m
    ensures |pairs| <= n && |pairs| <= m
  {
    if pairs != [] {
      var front, last := pairs[..|pairs| - 1], pairs[|pairs| - 1];
      RisingFits(front, last.a, last.b);
    }
  }

  method Render(left: Arm, right: Arm, pairs: seq<Pair>) returns (positions: seq<Position>)
    requires forall k :: 0 <= k < |pairs| ==>
      pairs[k].a < |AscendingByTime(left.frames)| && pairs[k].b < |AscendingByTime(right.frames)|
    ensures |positions| == |pairs|
    ensures forall k :: 0 <= k < |pairs| ==> positions[k] == PositionAt(left, right, pairs[k])
  {
    positions := [];
    for k := 0 to |pairs|
      invariant |positions| == k
      invariant forall m :: 0 <= m < k ==> positions[m] == PositionAt(left, right, pairs[m])
    {
      positions := positions + [PositionAt(left, right, pairs[k])];
    }
  }

  // ---- what the numbers are ----

  /** The gaps between points one after another, added up. */
  function Gaps(pos: seq<real>): real {
    if |pos| < 2 then 0.0 else Gaps(pos[..|pos| - 1]) + (pos[|pos| - 1] - pos[|pos| - 2])
  }

  lemma {:induction false} GapsSpan(pos: seq<real>)
    requires |pos| >= 1
    ensures Gaps(pos) == pos[|pos| - 1] - pos[0]
  {
    if |pos| >= 2 { GapsSpan(pos[..|pos| - 1]); }
  }

  /** Half the mean gap of an arm, and nothing for one with no gap. */
  lemma HalfStepIsHalfTheMean(pos: seq<real>)
    ensures |pos| < 2 ==> HalfStep(pos) == 0.0
    ensures |pos| >= 2 ==> HalfStep(pos) * 2.0 * (|pos| - 1) as real == Gaps(pos)
  {
    if |pos| >= 2 {
      GapsSpan(pos);
      Quarter(pos[|pos| - 1] - pos[0], (|pos| - 1) as real);
      assert (2 * (|pos| - 1)) as real == 2.0 * (|pos| - 1) as real;
    }
  }

  lemma Quarter(x: real, n: real)
    requires n > 0.0
    ensures x / (2.0 * n) * 2.0 * n == x
  {
    assert x / (2.0 * n) * (2.0 * n) == x;
  }

  /** The tolerance is that of the coarser arm, and never below a hundredth of the film, or a second where a film
      does not say how long it is. */
  lemma ToleranceIsTheCoarser(left: Arm, right: Arm)
    ensures var byTime := left.durationMs <= 0 || right.durationMs <= 0;
            var t, a, b := ToleranceOf(left, right), HalfStep(PosOf(left, byTime)), HalfStep(PosOf(right, byTime));
            var floor := if byTime then 1000.0 else 0.01;
            t >= a && t >= b && t >= floor && (t == a || t == b || t == floor)
  {
  }

  /** The place is the moment as a share of the whole, or the moment itself. */
  predicate IsPlaceOf(place: real, timeMs: int, durationMs: int, byTime: bool) {
    if byTime || durationMs <= 0 then place == timeMs as real else place * durationMs as real == timeMs as real
  }

  /** A point's place is its moment as a share of its own film, or the moment itself. */
  lemma PlacesAre(arm: Arm, byTime: bool, i: nat)
    requires i < |arm.frames|
    ensures |PosOf(arm, byTime)| == |AscendingByTime(arm.frames)| == |arm.frames|
    ensures IsPlaceOf(PosOf(arm, byTime)[i], AscendingByTime(arm.frames)[i].timeMs, arm.durationMs, byTime)
  {
    SortSorts(arm.frames, (p: Point) => p.timeMs);
    PlaceIs(AscendingByTime(arm.frames), arm.durationMs, byTime, i);
  }

  lemma PlaceIs(frames: seq<Point>, durationMs: int, byTime: bool, i: nat)
    requires i < |frames|
    ensures |PositionsOf(frames, durationMs, byTime)| == |frames|
    ensures IsPlaceOf(PositionsOf(frames, durationMs, byTime)[i], frames[i].timeMs, durationMs, byTime)
  {
    if !byTime && durationMs > 0 { TimesBack(frames[i].timeMs as real, durationMs as real); }
  }

  lemma TimesBack(x: real, d: real)
    requires d > 0.0
    ensures x / d * d == x
  {
  }

  /** The points of an arm in the order of their moments, those of one moment in the order they were listed. */
  lemma AscendingIsStable(frames: seq<Point>, timeMs: int)
    ensures var sorted := AscendingByTime(frames);
            (forall i, j :: 0 <= i <= j < |sorted| ==> sorted[i].timeMs <= sorted[j].timeMs) &&
            multiset(sorted) == multiset(frames) &&
            OfKey(sorted, (p: Point) => p.timeMs, timeMs) == OfKey(frames, (p: Point) => p.timeMs, timeMs)
  {
    var key := (p: Point) => p.timeMs;
    SortSorts(frames, key);
    SortIsStable(frames, key, timeMs);
    var sorted := AscendingByTime(frames);
    forall i, j | 0 <= i <= j < |sorted| ensures sorted[i].timeMs <= sorted[j].timeMs {
      assert key(sorted[i]) <= key(sorted[j]);
    }
  }

  /** What a position shows of the two points it puts together: the mean of their shares of their films and how far
      apart those are; and neither where a film does not say how long it is. */
  predicate ShowsTheTwo(left: Arm, right: Arm, p: Position) {
    if left.durationMs <= 0 || right.durationMs <= 0 then p.fraction == 0.0 && p.drift == 0.0
    else
      var x, y := p.a.timeMs as real / left.durationMs as real, p.b.timeMs as real / right.durationMs as real;
      p.fraction == (x + y) / 2.0 && p.drift == (if x < y then y - x else x - y)
  }

  lemma PositionShows(left: Arm, right: Arm, p: Pair)
    requires p.a < |AscendingByTime(left.frames)| && p.b < |AscendingByTime(right.frames)|
    ensures ShowsTheTwo(left, right, PositionAt(left, right, p))
    ensures PositionAt(left, right, p).a in left.frames && PositionAt(left, right, p).b in right.frames
  {
    SortHasSameElements(left.frames, (p: Point) => p.timeMs);
    SortHasSameElements(right.frames, (p: Point) => p.timeMs);
    var byTime := ByTime(left, right);
    assert PosOf(left, byTime)[p.a] ==
           Normalised(AscendingByTime(left.frames)[p.a].timeMs, left.durationMs, byTime);
    assert PosOf(right, byTime)[p.b] ==
           Normalised(AscendingByTime(right.frames)[p.b].timeMs, right.durationMs, byTime);
  }

  lemma PositionsShow(left: Arm, right: Arm, c: Comparison)
    requires Compares(left, right, c)
    ensures forall k :: 0 <= k < |c.positions| ==>
              c.positions[k].a in left.frames && c.positions[k].b in right.frames &&
              ShowsTheTwo(left, right, c.positions[k])
  {
    var pairs: seq<Pair> :| ComparesBy(left, right, c, pairs);
    forall k | 0 <= k < |c.positions|
      ensures c.positions[k].a in left.frames && c.positions[k].b in right.frames
      ensures ShowsTheTwo(left, right, c.positions[k]) {
      PositionShows(left, right, pairs[k]);
    }
  }

  method Compare(left: Arm, right: Arm) returns (c: Comparison)
    ensures Compares(left, right, c) && (c.byTime <==> left.durationMs <= 0 || right.durationMs <= 0)
    ensures forall k :: 0 <= k < |c.positions| ==>
              c.positions[k].a in left.frames && c.positions[k].b in right.frames &&
              ShowsTheTwo(left, right, c.positions[k])
    ensures c.unpairedA + |c.positions| == |left.frames| && c.unpairedB + |c.positions| == |right.frames|
  {
    var byTime := left.durationMs <= 0 || right.durationMs <= 0;
    var floor := if byTime then TIME_FLOOR_MS else FRACTION_FLOOR;
    var leftFrames, rightFrames := AscendingByTime(left.frames), AscendingByTime(right.frames);
    var leftPos := Positions(leftFrames, left.durationMs, byTime);
    var rightPos := Positions(rightFrames, right.durationMs, byTime);
    PositionsClimb(left.frames, left.durationMs, byTime);
    PositionsClimb(right.frames, right.durationMs, byTime);
    var pairs := PairNearest(leftPos, rightPos, PairingTolerance(leftPos, rightPos, floor));

    RisingFits(pairs, |leftPos|, |rightPos|);
    SortSorts(left.frames, (p: Point) => p.timeMs);
    SortSorts(right.frames, (p: Point) => p.timeMs);

    var positions := Render(left, right, pairs);
    c := Comparison(positions, |leftFrames| - |pairs|, |rightFrames| - |pairs|, byTime);
    assert ComparesBy(left, right, c, pairs);
    PositionsShow(left, right, c);
  }

  function Mirrored(p: Position): Position {
    Position(p.b, p.a, p.fraction, p.drift)
  }

  lemma PositionsMirror(left: Arm, right: Arm, p: Pair)
    requires p.a < |AscendingByTime(left.frames)| && p.b < |AscendingByTime(right.frames)|
    ensures PositionAt(right, left, Pair(p.b, p.a)) == Mirrored(PositionAt(left, right, p))
  {
  }

  lemma ByTimeMirrors(left: Arm, right: Arm)
    ensures ByTime(left, right) == ByTime(right, left) && ToleranceOf(left, right) == ToleranceOf(right, left)
  {
  }

  lemma OnePairingMirrors(left: Arm, right: Arm, c: Comparison, d: Comparison, p: seq<Pair>, q: seq<Pair>)
    requires ComparesBy(left, right, c, p) && ComparesBy(right, left, d, q)
    ensures q == Transposed(p)
  {
    ByTimeMirrors(left, right);
    PairingIsSymmetric(PosOf(left, c.byTime), PosOf(right, c.byTime), ToleranceOf(left, right), p, q);
  }

  lemma ComparisonsMirror(left: Arm, right: Arm, c: Comparison, d: Comparison, p: seq<Pair>)
    requires ComparesBy(left, right, c, p) && ComparesBy(right, left, d, Transposed(p))
    ensures |d.positions| == |c.positions|
    ensures forall k :: 0 <= k < |c.positions| ==> d.positions[k] == Mirrored(c.positions[k])
    ensures d.unpairedA == c.unpairedB && d.unpairedB == c.unpairedA && d.byTime == c.byTime
  {
    ByTimeMirrors(left, right);
    forall k | 0 <= k < |p| ensures d.positions[k] == Mirrored(c.positions[k]) {
      PositionsMirror(left, right, p[k]);
    }
  }

  /** The flipbook is the same whichever arm is named first: the same moments in the same order, each
      at the same place with the same drift, the sides and the unpaired counts exchanged. */
  lemma ComparisonIsSymmetric(left: Arm, right: Arm, c: Comparison, d: Comparison)
    requires Compares(left, right, c) && Compares(right, left, d)
    ensures |d.positions| == |c.positions|
    ensures forall k :: 0 <= k < |c.positions| ==> d.positions[k] == Mirrored(c.positions[k])
    ensures d.unpairedA == c.unpairedB && d.unpairedB == c.unpairedA && d.byTime == c.byTime
  {
    var p: seq<Pair> :| ComparesBy(left, right, c, p);
    var q: seq<Pair> :| ComparesBy(right, left, d, q);
    OnePairingMirrors(left, right, c, d, p, q);
    ComparisonsMirror(left, right, c, d, p);
  }
}
