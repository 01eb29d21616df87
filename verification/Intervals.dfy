/** Half-open ranges, and the one canonical form every list of them is coalesced into
    (internal/swarm/torrent.go, internal/web/listing.go). */
module Intervals {
  import opened Sorting

  /** [begin, end) */
  datatype Span = Span(begin: int, end: int)

  predicate Holds(s: Span, x: int) { s.begin <= x < s.end }

  function Range(s: Span): set<int> {
    set x | s.begin <= x < s.end && Holds(s, x)
  }

  /** Every point some span of the list holds. */
  function Points(spans: seq<Span>): set<int> {
    if spans == [] then {} else Points(spans[..|spans| - 1]) + Range(spans[|spans| - 1])
  }

  ghost predicate Proper(spans: seq<Span>) {
    forall k :: 0 <= k < |spans| ==> spans[k].begin < spans[k].end
  }

  /** Ascending, none empty, no two touching. */
  ghost predicate Canonical(spans: seq<Span>) {
    Proper(spans) && forall i, j :: 0 <= i < j < |spans| ==> spans[i].end < spans[j].begin
  }

  function TotalLength(spans: seq<Span>): int {
    if spans == [] then 0
    else TotalLength(spans[..|spans| - 1]) + spans[|spans| - 1].end - spans[|spans| - 1].begin
  }

  // ---- what Points means ----

  lemma {:induction false} PointsMember(spans: seq<Span>, x: int)
    ensures x in Points(spans) <==> exists k :: 0 <= k < |spans| && spans[k].begin <= x < spans[k].end
  {
    if spans != [] {
      var front, last := spans[..|spans| - 1], |spans| - 1;
      PointsMember(front, x);
      if x in Points(front) {
        var k :| 0 <= k < |front| && front[k].begin <= x < front[k].end;
        assert spans[k] == front[k];
      }
      if k :| 0 <= k < |spans| && spans[k].begin <= x < spans[k].end {
        if k < last { assert front[k] == spans[k]; }
      }
    }
  }

  lemma SameSpansSamePoints(a: seq<Span>, b: seq<Span>)
    requires forall s :: s in a <==> s in b
    ensures Points(a) == Points(b)
  {
    forall x ensures x in Points(a) <==> x in Points(b) {
      PointsMember(a, x);
      PointsMember(b, x);
      if k :| 0 <= k < |a| && a[k].begin <= x < a[k].end { assert a[k] in b; }
      if k :| 0 <= k < |b| && b[k].begin <= x < b[k].end { assert b[k] in a; }
    }
  }

  lemma PointsAppend(spans: seq<Span>, s: Span)
    ensures Points(spans + [s]) == Points(spans) + Range(s)
  {
    assert (spans + [s])[..|spans|] == spans;
  }

  // ---- the canonical form is unique ----

  /** Points of a canonical list stop at its last end and leave a hole before its last begin. */
  lemma LastSpan(spans: seq<Span>)
    requires Canonical(spans) && spans != []
    ensures var last := spans[|spans| - 1];
            (forall x :: x in Points(spans) ==> x < last.end) && last.end - 1 in Points(spans) &&
            last.begin - 1 !in Points(spans) && Range(last) <= Points(spans) &&
            Points(spans[..|spans| - 1]) == Points(spans) - Range(last)
  {
    var front, last := spans[..|spans| - 1], spans[|spans| - 1];
    forall x | x in Points(front) ensures x < last.begin - 1 {
      PointsMember(front, x);
      var k :| 0 <= k < |front| && front[k].begin <= x < front[k].end;
      assert spans[k].end < last.begin;
    }
  }

  lemma SameLastSpan(a: seq<Span>, b: seq<Span>)
    requires Canonical(a) && Canonical(b) && Points(a) == Points(b) && a != []
    ensures b != [] && b[|b| - 1] == a[|a| - 1]
    ensures Points(a[..|a| - 1]) == Points(b[..|b| - 1])
  {
    LastSpan(a);
    LastSpan(b);
    var x, y := a[|a| - 1], b[|b| - 1];
    assert x.end == y.end;
    assert !Holds(y, x.begin - 1) && !Holds(x, y.begin - 1);
  }

  /** Two canonical lists over the same points are the same list: neither the order in which ranges
      were claimed nor how often each was can show. */
  lemma {:induction false} CanonicalFormIsUnique(a: seq<Span>, b: seq<Span>)
    requires Canonical(a) && Canonical(b) && Points(a) == Points(b)
    ensures a == b
    decreases |a|
  {
    if a != [] {
      SameLastSpan(a, b);
      var front, front' := a[..|a| - 1], b[..|b| - 1];
      CanonicalFormIsUnique(front, front');
      assert a == front + [a[|a| - 1]];
      assert b == front' + [b[|b| - 1]];
    } else if b != [] {
      LastSpan(b);
    }
  }

  lemma {:induction false} RangeSize(s: Span)
    requires s.begin <= s.end
    ensures |Range(s)| == s.end - s.begin
    decreases s.end - s.begin
  {
    if s.begin < s.end {
      var shorter := Span(s.begin, s.end - 1);
      RangeSize(shorter);
      assert Range(s) == Range(shorter) + {s.end - 1};
    } else {
      assert Range(s) == {};
    }
  }

  /** The lengths of a canonical list add up to the number of its points. */
  lemma {:induction false} LengthsCountPoints(spans: seq<Span>)
    requires Canonical(spans)
    ensures TotalLength(spans) == |Points(spans)|
  {
    if spans != [] {
      var front, last := spans[..|spans| - 1], spans[|spans| - 1];
      LengthsCountPoints(front);
      LastSpan(spans);
      RangeSize(last);
      assert Points(spans) == Points(front) + Range(last) && Points(front) !! Range(last);
    }
  }

  // ---- coalesceSpans and coalescePieceRanges ----

  function ByBeginThenEnd(spans: seq<Span>): seq<Span> {
    Sort(Sort(spans, (s: Span) => s.end), (s: Span) => s.begin)
  }

  lemma SortedSpans(spans: seq<Span>)
    ensures var r := ByBeginThenEnd(spans);
            |r| == |spans| && (forall i, j :: 0 <= i <= j < |r| ==> r[i].begin <= r[j].begin) &&
            Points(r) == Points(spans) && (Proper(spans) ==> Proper(r))
  {
    var byEnd := Sort(spans, (s: Span) => s.end);
    var r := ByBeginThenEnd(spans);
    SortSorts(spans, (s: Span) => s.end);
    SortSorts(byEnd, (s: Span) => s.begin);
    SortHasSameElements(spans, (s: Span) => s.end);
    SortHasSameElements(byEnd, (s: Span) => s.begin);
    SameSpansSamePoints(r, spans);
    forall i, j | 0 <= i <= j < |r| ensures r[i].begin <= r[j].begin {
      assert ((s: Span) => s.begin)(r[i]) <= ((s: Span) => s.begin)(r[j]);
    }
    forall k | 0 <= k < |r| && Proper(spans) ensures r[k].begin < r[k].end {
      assert r[k] in spans;
    }
  }

  /** What the loop makes of one more range: stretch the last one, or start another. */
  function Merged(out: seq<Span>, s: Span): seq<Span>
    requires out != []
  {
    var last := out[|out| - 1];
    if s.begin > last.end then out + [s]
    else if s.end > last.end then out[|out| - 1 := Span(last.begin, s.end)]
    else out
  }

  lemma MergedIsCanonical(out: seq<Span>, s: Span)
    requires Canonical(out) && out != [] && s.begin < s.end && out[|out| - 1].begin <= s.begin
    ensures var r := Merged(out, s); Canonical(r) && r != [] && r[|r| - 1].begin <= s.begin
  {
  }

  lemma WidenedLast(front: seq<Span>, last: Span, s: Span)
    requires last.begin <= s.begin <= last.end <= s.end
    ensures Points(front + [Span(last.begin, s.end)]) == Points(front + [last]) + Range(s)
  {
    PointsAppend(front, Span(last.begin, s.end));
    PointsAppend(front, last);
    assert Range(Span(last.begin, s.end)) == Range(last) + Range(s);
  }

  /** Whatever the ranges, empty or backwards ones included, a merge loses no point and adds none. */
  lemma MergedAddsPoints(out: seq<Span>, s: Span)
    requires out != [] && out[|out| - 1].begin <= s.begin
    ensures Points(Merged(out, s)) == Points(out) + Range(s)
  {
    var front, last := out[..|out| - 1], out[|out| - 1];
    assert out == front + [last];
    PointsAppend(front, last);
    if s.begin > last.end {
      PointsAppend(out, s);
    } else if s.end > last.end {
      WidenedLast(front, last, s);
      assert Merged(out, s) == front + [Span(last.begin, s.end)];
    } else {
      assert Range(s) <= Range(last);
    }
  }

  /** out covers the first k ranges in order, and is their canonical form when none of them is empty. */
  ghost predicate MergedUpTo(out: seq<Span>, sorted: seq<Span>, k: nat)
    requires 0 < k <= |sorted|
  {
    out != [] && out[|out| - 1].begin <= sorted[k - 1].begin && Points(out) == Points(sorted[..k]) &&
    (Proper(sorted[..k]) ==> Canonical(out))
  }

  lemma MergedStartsBefore(out: seq<Span>, s: Span)
    requires out != [] && out[|out| - 1].begin <= s.begin
    ensures Merged(out, s) != [] && Merged(out, s)[|Merged(out, s)| - 1].begin <= s.begin
  {
  }

  lemma MergedStep(out: seq<Span>, sorted: seq<Span>, k: nat)
    requires 0 < k < |sorted| && MergedUpTo(out, sorted, k) && sorted[k - 1].begin <= sorted[k].begin
    ensures MergedUpTo(Merged(out, sorted[k]), sorted, k + 1)
  {
    var s := sorted[k];
    assert sorted[..k + 1] == sorted[..k] + [s];
    PointsAppend(sorted[..k], s);
    MergedAddsPoints(out, s);
    MergedStartsBefore(out, s);
    if Proper(sorted[..k + 1]) {
      assert sorted[..k + 1][k] == s;
      assert forall m :: 0 <= m < k ==> sorted[..k][m] == sorted[..k + 1][m];
      MergedIsCanonical(out, s);
    }
  }

  lemma FirstIsMerged(sorted: seq<Span>)
    requires sorted != []
    ensures MergedUpTo([sorted[0]], sorted, 1)
  {
    assert sorted[..1] == [sorted[0]];
  }

  method Coalesce(spans: seq<Span>) returns (out: seq<Span>)
    ensures Points(out) == Points(spans)
    ensures Proper(spans) ==> Canonical(out)
  {
    if |spans| == 0 { return []; }
    var sorted := ByBeginThenEnd(spans);
    SortedSpans(spans);
    out := [sorted[0]];
    FirstIsMerged(sorted);
    for k := 1 to |sorted|
      invariant MergedUpTo(out, sorted, k)
    {
      MergedStep(out, sorted, k);
      var s, last := sorted[k], out[|out| - 1];
      if s.begin <= last.end {
        // Max rather than assignment: a short range inside a longer one must not shorten it.
        if s.end > last.end { out := out[|out| - 1 := Span(last.begin, s.end)]; }
      } else {
        out := out + [s];
      }
    }
    assert sorted[..|sorted|] == sorted;
  }
}
