/** The set of ports an operator allocates, as text and as numbers (internal/swarm/ports.go). */
module PortSets {
  import opened Sorting
  import opened Sets
  import opened Intervals
  import opened Paths
  import opened Text

  datatype Error =
    | NoPorts
    | EmptyEntry
    | NotANumber(text: string)
    | OutOfRange(port: int)
    | Backwards(entry: string)
    | ListedTwice(port: int)

  datatype Result<T> = Ok(value: T) | Err(error: Error)

  const LOWEST_PORT := 1
  const HIGHEST_PORT := 65535

  /** Ascending, free of duplicates, every one a port. */
  ghost predicate IsPortSet(ports: seq<int>) {
    (forall k :: 0 <= k < |ports| ==> LOWEST_PORT <= ports[k] <= HIGHEST_PORT) &&
    forall i, j :: 0 <= i < j < |ports| ==> ports[i] < ports[j]
  }

  // ---- reading ----

  function ParsePort(s: string): Result<int> {
    match Atoi(s)
    case None => Err(NotANumber(s))
    case Some(port) => if LOWEST_PORT <= port <= HIGHEST_PORT then Ok(port) else Err(OutOfRange(port))
  }

  /** What one entry of the list stands for, once trimmed: the ports from begin up to but not including end. */
  function Entry(item: string): Result<Span> {
    if item == "" then Err(EmptyEntry) else EntryAt(item, Index(item, '-'), ParsePort, TrimSpace)
  }

  function EntryAt(item: string, dash: nat, parse: string -> Result<int>, trim: string -> string): Result<Span>
    requires dash <= |item|
  {
    if dash == |item| then
      match parse(item)
      case Err(e) => Err(e)
      case Ok(port) => Ok(Span(port, port + 1))
    else Between(item, parse(trim(item[..dash])), parse(trim(item[dash + 1..])))
  }

  function Between(item: string, low: Result<int>, high: Result<int>): Result<Span> {
    match low
    case Err(e) => Err(e)
    case Ok(first) =>
      match high
      case Err(e) => Err(e)
      case Ok(last) => if first > last then Err(Backwards(item)) else Ok(Span(first, last + 1))
  }

  function Added(ports: seq<int>, first: int, end: int): Result<seq<int>>
    decreases end - first
  {
    if first >= end then Ok(ports)
    else if first in ports then Err(ListedTwice(first))
    else Added(ports + [first], first + 1, end)
  }

  function Collected(items: seq<string>, ports: seq<int>): Result<seq<int>>
    decreases |items|
  {
    if items == [] then Ok(ports)
    else
      match TrimmedEntry(items[0])
      case Err(e) => Err(e)
      case Ok(span) =>
        match Added(ports, span.begin, span.end)
        case Err(e) => Err(e)
        case Ok(longer) => Collected(items[1..], longer)
  }

  function Parsed(spec: string): Result<seq<int>> {
    if TrimSpace(spec) == "" then Err(NoPorts)
    else
      match Collected(Split(spec, ','), [])
      case Err(e) => Err(e)
      case Ok(ports) => Ok(SortInts(ports))
  }

  /** One entry's ports, added one by one. */
  method AddAll(ports: seq<int>, seen: set<int>, first: int, last: int)
    returns (r: Result<seq<int>>, marked: set<int>)
    requires forall p :: p in seen <==> p in ports
    ensures r == Added(ports, first, last + 1)
    ensures r.Ok? ==> forall p :: p in marked <==> p in r.value
  {
    var longer := ports;
    marked := seen;
    var port := first;
    while port <= last
      invariant first <= port && (port <= last + 1 || port == first)
      invariant Added(ports, first, last + 1) == Added(longer, port, last + 1)
      invariant forall p :: p in marked <==> p in longer
    {
      if port in marked { return Err(ListedTwice(port)), marked; }
      marked, longer := marked + {port}, longer + [port];
      port := port + 1;
    }
    r := Ok(longer);
  }

  method ReadEntry(item: string) returns (r: Result<Span>)
    ensures r == Entry(item)
  {
    if item == "" { return Err(EmptyEntry); }
    var dash := Index(item, '-');
    if dash == |item| {
      var port := ParsePort(item);
      if port.Err? { return Err(port.error); }
      return Ok(Span(port.value, port.value + 1));
    }
    var first := ParsePort(TrimSpace(item[..dash]));
    if first.Err? { return Err(first.error); }
    var last := ParsePort(TrimSpace(item[dash + 1..]));
    if last.Err? { return Err(last.error); }
    if first.value > last.value { return Err(Backwards(item)); }
    return Ok(Span(first.value, last.value + 1));
  }

  method ParsePortSet(spec: string) returns (r: Result<seq<int>>)
    ensures r == Parsed(spec)
  {
    if TrimSpace(spec) == "" { return Err(NoPorts); }
    var seen: set<int>, ports: seq<int> := {}, [];
    var items := Split(spec, ',');
    for n := 0 to |items|
      invariant Collected(items, []) == Collected(items[n..], ports)
      invariant forall p :: p in seen <==> p in ports
    {
      assert items[n..][0] == items[n] && items[n..][1..] == items[n + 1..];
      var entry := ReadEntry(TrimSpace(items[n]));
      if entry.Err? { return Err(entry.error); }
      var longer, marked := AddAll(ports, seen, entry.value.begin, entry.value.end - 1);
      if longer.Err? { return Err(longer.error); }
      ports, seen := longer.value, marked;
    }
    return Ok(SortInts(ports));
  }

  // ---- what a reading means ----

  function RangeSeq(s: Span): seq<int> {
    if s.begin >= s.end then [] else seq(s.end - s.begin, k requires 0 <= k => s.begin + k)
  }

  /** The ports a list of entries names, in the order it names them. */
  function Expanded(spans: seq<Span>): seq<int> {
    if spans == [] then [] else RangeSeq(spans[0]) + Expanded(spans[1..])
  }

  ghost predicate Distinct(s: seq<int>) {
    forall i, j :: 0 <= i < j < |s| ==> s[i] != s[j]
  }

  function ReadAll(items: seq<string>, read: string -> Result<Span>): Result<seq<Span>> {
    if items == [] then Ok([])
    else
      match read(items[0])
      case Err(e) => Err(e)
      case Ok(span) =>
        match ReadAll(items[1..], read)
        case Err(e) => Err(e)
        case Ok(spans) => Ok([span] + spans)
  }

  function TrimmedEntry(item: string): Result<Span> { Entry(TrimSpace(item)) }

  /** The entries of a list, or the first one that is not one. */
  function Entries(items: seq<string>): Result<seq<Span>> { ReadAll(items, TrimmedEntry) }

  ghost predicate InRange(span: Span) {
    LOWEST_PORT <= span.begin < span.end <= HIGHEST_PORT + 1
  }

  lemma {:induction false} EntriesAreInRange(items: seq<string>)
    requires Entries(items).Ok?
    ensures forall k :: 0 <= k < |Entries(items).value| ==> InRange(Entries(items).value[k])
  {
    if items != [] { EntriesAreInRange(items[1..]); }
  }

  lemma {:induction false} AddingIsAppending(ports: seq<int>, s: Span)
    requires Distinct(ports)
    ensures Added(ports, s.begin, s.end).Ok? <==> Distinct(ports + RangeSeq(s))
    ensures Added(ports, s.begin, s.end).Ok? ==> Added(ports, s.begin, s.end).value == ports + RangeSeq(s)
    decreases s.end - s.begin
  {
    if s.begin >= s.end {
      assert ports + RangeSeq(s) == ports;
    } else {
      var all := ports + RangeSeq(s);
      assert all[|ports|] == s.begin;
      if s.begin in ports {
        var k :| 0 <= k < |ports| && ports[k] == s.begin;
        assert all[k] == all[|ports|];
      } else {
        var rest := Span(s.begin + 1, s.end);
        AddingIsAppending(ports + [s.begin], rest);
        assert ports + [s.begin] + RangeSeq(rest) == all;
      }
    }
  }

  lemma DistinctPrefix(a: seq<int>, b: seq<int>)
    requires Distinct(a + b)
    ensures Distinct(a)
  {
    assert forall k :: 0 <= k < |a| ==> a[k] == (a + b)[k];
  }

  lemma ExpandedAfter(ports: seq<int>, span: Span, spans: seq<Span>)
    ensures ports + Expanded([span] + spans) == ports + RangeSeq(span) + Expanded(spans)
  {
    assert ([span] + spans)[1..] == spans;
  }

  lemma {:induction false} CollectingIsAppending(items: seq<string>, ports: seq<int>)
    requires Distinct(ports)
    ensures Collected(items, ports).Ok? <==>
            Entries(items).Ok? && Distinct(ports + Expanded(Entries(items).value))
    ensures Collected(items, ports).Ok? ==> Collected(items, ports).value == ports + Expanded(Entries(items).value)
    decreases |items|
  {
    if items == [] {
      assert ports + [] == ports;
    } else if Entry(TrimSpace(items[0])).Ok? {
      var span := Entry(TrimSpace(items[0])).value;
      var longer := ports + RangeSeq(span);
      AddingIsAppending(ports, span);
      if Distinct(longer) {
        CollectingIsAppending(items[1..], longer);
        if Entries(items[1..]).Ok? { ExpandedAfter(ports, span, Entries(items[1..]).value); }
      } else if Entries(items[1..]).Ok? {
        var spans := Entries(items[1..]).value;
        ExpandedAfter(ports, span, spans);
        if Distinct(longer + Expanded(spans)) { DistinctPrefix(longer, Expanded(spans)); }
      }
    }
  }

  /** A list is accepted exactly when every entry is one and no port is named twice. What comes back is then
      those ports, ascending, without repeats and all of them ports. */
  lemma ParsedIsTheSetNamed(spec: string)
    ensures Parsed(spec).Ok? <==>
            TrimSpace(spec) != "" && Entries(Split(spec, ',')).Ok? &&
            Distinct(Expanded(Entries(Split(spec, ',')).value))
    ensures Parsed(spec).Ok? ==>
              IsPortSet(Parsed(spec).value) &&
              forall p :: p in Parsed(spec).value <==> p in Points(Entries(Split(spec, ',')).value)
  {
    var items := Split(spec, ',');
    CollectingIsAppending(items, []);
    if Parsed(spec).Ok? {
      var spans := Entries(items).value;
      var named := Expanded(spans);
      assert [] + named == named;
      EntriesAreInRange(items);
      SortedDistinct(named);
      SortHasSameElements(named, (x: int) => x);
      forall p ensures p in named <==> p in Points(spans) { ExpandedMember(spans, p); }
      forall k | 0 <= k < |SortInts(named)| ensures LOWEST_PORT <= SortInts(named)[k] <= HIGHEST_PORT {
        var p := SortInts(named)[k];
        assert p in SortInts(named);
        PointsMember(spans, p);
      }
    }
  }

  lemma SortedDistinct(s: seq<int>)
    requires Distinct(s)
    ensures forall i, j :: 0 <= i < j < |SortInts(s)| ==> SortInts(s)[i] < SortInts(s)[j]
  {
    var key := (x: int) => x;
    SortSorts(s, key);
    var t := Sort(s, key);
    forall i, j | 0 <= i < j < |t| ensures t[i] < t[j] {
      if t[i] == t[j] {
        assert t == t[..j] + [t[j]] + t[j + 1..];
        assert t[..j][i] == t[i];
        assert multiset(t)[t[i]] >= 2;
        DistinctCountsOnce(s, t[i]);
        assert false;
      }
      assert key(t[i]) <= key(t[j]);
    }
  }

  lemma {:induction false} DistinctCountsOnce(s: seq<int>, x: int)
    requires Distinct(s)
    ensures multiset(s)[x] <= 1
  {
    if s != [] {
      var front := s[..|s| - 1];
      assert s == front + [s[|s| - 1]];
      DistinctCountsOnce(front, x);
      if x == s[|s| - 1] { assert x !in front; }
    }
  }

  lemma {:induction false} ExpandedMember(spans: seq<Span>, p: int)
    ensures p in Expanded(spans) <==> p in Points(spans)
  {
    if spans != [] {
      ExpandedMember(spans[1..], p);
      PointsMember(spans, p);
      PointsMember(spans[1..], p);
      if spans[0].begin <= p < spans[0].end { assert RangeSeq(spans[0])[p - spans[0].begin] == p; }
      if k :| 0 <= k < |spans| && spans[k].begin <= p < spans[k].end {
        if k > 0 { assert spans[1..][k - 1] == spans[k]; }
      }
      if k :| 0 <= k < |spans[1..]| && spans[1..][k].begin <= p < spans[1..][k].end {
        assert spans[k + 1] == spans[1..][k];
      }
    }
  }

  // ---- writing ----

  /** The last port of the unbroken run that port i is in. */
  function RunEnd(ports: seq<int>, i: nat): (j: nat)
    requires i < |ports|
    ensures i <= j < |ports|
    decreases |ports| - i
  {
    if i + 1 < |ports| && ports[i + 1] == ports[i] + 1 then RunEnd(ports, i + 1) else i
  }

  /** Every index is sent to itself or further on. */
  ghost predicate Forward(n: nat, ends: nat -> nat) {
    forall k: nat :: k < n ==> k <= ends(k) < n
  }

  /** The ports from i on, cut where ends says a run ends. */
  function CutBy(ports: seq<int>, ends: nat -> nat, i: nat): seq<Span>
    requires Forward(|ports|, ends) && i <= |ports|
    decreases |ports| - i
  {
    if i == |ports| then [] else [Span(ports[i], ports[ends(i)] + 1)] + CutBy(ports, ends, ends(i) + 1)
  }

  function Ends(ports: seq<int>): (ends: nat -> nat)
    ensures Forward(|ports|, ends) && forall i: nat :: i < |ports| ==> ends(i) == RunEnd(ports, i)
  {
    (i: nat) => if i < |ports| then RunEnd(ports, i) else i
  }

  /** The runs of the ports from i on. */
  function RunsFrom(ports: seq<int>, i: nat): seq<Span>
    requires i <= |ports|
  {
    CutBy(ports, Ends(ports), i)
  }

  function Runs(ports: seq<int>): seq<Span> { RunsFrom(ports, 0) }

  function RunText(s: Span): string {
    if s.end == s.begin + 1 then Itoa(s.begin) else Itoa(s.begin) + "-" + Itoa(s.end - 1)
  }

  function ShowAll(spans: seq<Span>, show: Span -> string): seq<string> {
    if spans == [] then [] else [show(spans[0])] + ShowAll(spans[1..], show)
  }

  function Texts(runs: seq<Span>): seq<string> { ShowAll(runs, RunText) }

  function Printed(ports: seq<int>): string {
    JoinWith(Texts(Runs(ports)), ',')
  }

  lemma {:induction false} LongestRun(ports: seq<int>, i: nat)
    requires i < |ports|
    ensures forall k :: i <= k <= RunEnd(ports, i) ==> ports[k] == ports[i] + (k - i)
    ensures RunEnd(ports, i) + 1 < |ports| ==> ports[RunEnd(ports, i) + 1] != ports[RunEnd(ports, i)] + 1
    decreases |ports| - i
  {
    if i + 1 < |ports| && ports[i + 1] == ports[i] + 1 { LongestRun(ports, i + 1); }
  }

  lemma {:induction false} OneMoreShown(done: seq<Span>, run: Span, show: Span -> string)
    ensures ShowAll(done + [run], show) == ShowAll(done, show) + [show(run)]
  {
    if done != [] {
      assert (done + [run])[1..] == done[1..] + [run];
      OneMoreShown(done[1..], run, show);
    }
  }

  /** The inner loop of String: one run, from its first port. */
  method EndOfRun(ports: seq<int>, i: nat) returns (j: nat)
    requires i < |ports|
    ensures j == RunEnd(ports, i)
  {
    j := i;
    while j + 1 < |ports| && ports[j + 1] == ports[j] + 1
      invariant i <= j < |ports| && RunEnd(ports, j) == RunEnd(ports, i)
    {
      j := j + 1;
    }
  }

  /** String is done with the ports before i. */
  ghost predicate PrintedUpTo(ports: seq<int>, ends: nat -> nat, i: nat, done: seq<Span>, parts: seq<string>) {
    Forward(|ports|, ends) && i <= |ports| &&
    CutBy(ports, ends, 0) == done + CutBy(ports, ends, i) && parts == Texts(done)
  }

  lemma Regroup<T>(all: seq<T>, done: seq<T>, todo: seq<T>, next: T, rest: seq<T>)
    requires all == done + todo && todo == [next] + rest
    ensures all == (done + [next]) + rest
  {
  }

  lemma CutOff(ports: seq<int>, ends: nat -> nat, i: nat, all: seq<Span>, done: seq<Span>)
    requires Forward(|ports|, ends) && i < |ports| && all == done + CutBy(ports, ends, i)
    ensures all == (done + [Span(ports[i], ports[ends(i)] + 1)]) + CutBy(ports, ends, ends(i) + 1)
  {
    Regroup(all, done, CutBy(ports, ends, i), Span(ports[i], ports[ends(i)] + 1), CutBy(ports, ends, ends(i) + 1));
  }

  lemma OneMoreRun(ports: seq<int>, ends: nat -> nat, i: nat, done: seq<Span>, parts: seq<string>)
    requires PrintedUpTo(ports, ends, i, done, parts) && i < |ports|
    ensures var run := Span(ports[i], ports[ends(i)] + 1);
            PrintedUpTo(ports, ends, ends(i) + 1, done + [run], parts + [RunText(run)])
  {
    OneMoreShown(done, Span(ports[i], ports[ends(i)] + 1), RunText);
    CutOff(ports, ends, i, CutBy(ports, ends, 0), done);
  }

  /** The run that starts at port i: where it ends, and how it is written, a port or its two ends. */
  method NextRun(ports: seq<int>, i: nat) returns (j: nat, text: string)
    requires i < |ports|
    ensures i <= j < |ports| && j == Ends(ports)(i) && text == RunText(Span(ports[i], ports[j] + 1))
  {
    j := EndOfRun(ports, i);
    LongestRun(ports, i);
    text := if j == i then Itoa(ports[i]) else Itoa(ports[i]) + "-" + Itoa(ports[j]);
  }

  lemma AllPrinted(ports: seq<int>, done: seq<Span>, parts: seq<string>)
    requires PrintedUpTo(ports, Ends(ports), |ports|, done, parts)
    ensures JoinWith(parts, ',') == Printed(ports)
  {
    assert done + [] == done;
  }

  method String(ports: seq<int>) returns (s: string)
    ensures s == Printed(ports)
  {
    var parts: seq<string> := [];
    ghost var done: seq<Span> := [];
    ghost var ends := Ends(ports);
    var i := 0;
    while i < |ports|
      invariant 0 <= i <= |ports| && PrintedUpTo(ports, ends, i, done, parts)
    {
      var j, text := NextRun(ports, i);
      OneMoreRun(ports, ends, i, done, parts);
      done, parts := done + [Span(ports[i], ports[j] + 1)], parts + [text];
      i := j + 1;
    }
    AllPrinted(ports, done, parts);
    s := JoinWith(parts, ',');
  }

  lemma {:induction false} CutsAreInRange(ports: seq<int>, ends: nat -> nat, i: nat)
    requires IsPortSet(ports) && Forward(|ports|, ends) && i <= |ports|
    ensures forall k :: 0 <= k < |CutBy(ports, ends, i)| ==> InRange(CutBy(ports, ends, i)[k])
    decreases |ports| - i
  {
    if i < |ports| { CutsAreInRange(ports, ends, ends(i) + 1); }
  }

  /** A port set's runs are made of ports. */
  lemma RunsAreInRange(ports: seq<int>)
    requires IsPortSet(ports)
    ensures forall k :: 0 <= k < |Runs(ports)| ==> InRange(Runs(ports)[k])
  {
    CutsAreInRange(ports, Ends(ports), 0);
  }

  ghost predicate Climbing(ports: seq<int>) {
    forall i, j :: 0 <= i < j < |ports| ==> ports[i] < ports[j]
  }

  lemma RunBefore(head: Span, runs: seq<Span>)
    requires head.begin < head.end && Canonical(runs) && (runs != [] ==> head.end < runs[0].begin)
    ensures Canonical([head] + runs)
  {
    var all := [head] + runs;
    forall j | 0 < j < |all| ensures head.end < all[j].begin {
      if j > 1 { assert runs[0].end < runs[j - 1].begin; }
    }
    forall i, j | 0 <= i < j < |all| ensures all[i].end < all[j].begin {
      if i > 0 { assert runs[i - 1].end < runs[j - 1].begin; }
    }
  }

  /** No run could have gone on. */
  ghost predicate Longest(ports: seq<int>, ends: nat -> nat)
    requires Forward(|ports|, ends)
  {
    forall k: nat :: k < |ports| && ends(k) + 1 < |ports| ==> ports[ends(k)] + 1 < ports[ends(k) + 1]
  }

  lemma {:induction false} CutsAreCanonical(ports: seq<int>, ends: nat -> nat, i: nat)
    requires Climbing(ports) && Forward(|ports|, ends) && Longest(ports, ends) && i <= |ports|
    ensures Canonical(CutBy(ports, ends, i))
    ensures i < |ports| ==> CutBy(ports, ends, i) != [] && CutBy(ports, ends, i)[0].begin == ports[i]
    decreases |ports| - i
  {
    if i < |ports| {
      CutsAreCanonical(ports, ends, ends(i) + 1);
      RunBefore(Span(ports[i], ports[ends(i)] + 1), CutBy(ports, ends, ends(i) + 1));
    }
  }

  lemma RunsAreCanonical(ports: seq<int>)
    requires Climbing(ports)
    ensures Canonical(Runs(ports))
  {
    var ends := Ends(ports);
    forall k: nat | k < |ports| && ends(k) + 1 < |ports| ensures ports[ends(k)] + 1 < ports[ends(k) + 1] {
      LongestRun(ports, k);
    }
    CutsAreCanonical(ports, ends, 0);
  }

  lemma Assembled(ports: seq<int>, i: nat, j: nat, spans: seq<Span>, rest: seq<Span>, head: Span)
    requires i <= j <= |ports| && spans == [head] + rest
    requires RangeSeq(head) == ports[i..j] && Expanded(rest) == ports[j..]
    ensures Expanded(spans) == ports[i..]
  {
    ExpandedHead(head, rest);
    assert ports[i..] == ports[i..j] + ports[j..];
  }

  lemma RunIsASlice(ports: seq<int>, i: nat)
    requires i < |ports|
    ensures RangeSeq(Span(ports[i], ports[RunEnd(ports, i)] + 1)) == ports[i..RunEnd(ports, i) + 1]
  {
    LongestRun(ports, i);
    var slice, run := ports[i..RunEnd(ports, i) + 1], RangeSeq(Span(ports[i], ports[RunEnd(ports, i)] + 1));
    assert forall k :: 0 <= k < |slice| ==> slice[k] == run[k];
  }

  /** Each run names the ports it was cut from. */
  ghost predicate Slices(ports: seq<int>, ends: nat -> nat)
    requires Forward(|ports|, ends)
  {
    forall k: nat :: k < |ports| ==> RangeSeq(Span(ports[k], ports[ends(k)] + 1)) == ports[k..ends(k) + 1]
  }

  lemma {:induction false} CutsExpand(ports: seq<int>, ends: nat -> nat, i: nat)
    requires Forward(|ports|, ends) && Slices(ports, ends) && i <= |ports|
    ensures Expanded(CutBy(ports, ends, i)) == ports[i..]
    decreases |ports| - i
  {
    if i < |ports| {
      CutsExpand(ports, ends, ends(i) + 1);
      Assembled(ports, i, ends(i) + 1, CutBy(ports, ends, i), CutBy(ports, ends, ends(i) + 1),
                Span(ports[i], ports[ends(i)] + 1));
    }
  }

  lemma RunsExpandToThePorts(ports: seq<int>)
    ensures Expanded(Runs(ports)) == ports
  {
    var ends := Ends(ports);
    forall k: nat | k < |ports| ensures RangeSeq(Span(ports[k], ports[ends(k)] + 1)) == ports[k..ends(k) + 1] {
      RunIsASlice(ports, k);
    }
    CutsExpand(ports, ends, 0);
  }

  lemma ExpandedHead(span: Span, spans: seq<Span>)
    ensures Expanded([span] + spans) == RangeSeq(span) + Expanded(spans)
  {
    assert ([span] + spans)[1..] == spans;
  }

  /** The printed ranges are the longest there are, and name the ports of the set in order. By the uniqueness
      of the canonical form no other list of longest ranges does. */
  lemma RunsAreMaximal(ports: seq<int>, others: seq<Span>)
    requires Climbing(ports)
    ensures Canonical(Runs(ports)) && Expanded(Runs(ports)) == ports
    ensures Canonical(others) && Expanded(others) == ports ==> others == Runs(ports)
  {
    RunsAreCanonical(ports);
    RunsExpandToThePorts(ports);
    if Canonical(others) && Expanded(others) == ports {
      forall p ensures p in Points(others) <==> p in Points(Runs(ports)) {
        ExpandedMember(others, p);
        ExpandedMember(Runs(ports), p);
      }
      SameMembers(Points(others), Points(Runs(ports)));
      CanonicalFormIsUnique(others, Runs(ports));
    }
  }

  lemma PortReadsItoa(port: nat)
    requires LOWEST_PORT <= port <= HIGHEST_PORT
    ensures TrimSpace(Itoa(port)) == Itoa(port) && ParsePort(Itoa(port)) == Ok(port)
  {
    NothingToTrim(Itoa(port));
    AtoiReadsItoa(port);
  }

  lemma EntryReadsOne(port: nat)
    requires InRange(Span(port, port + 1))
    ensures Entry(Itoa(port)) == Ok(Span(port, port + 1))
  {
    PortReadsItoa(port);
    IndexOfNothing(Itoa(port), '-');
  }

  lemma RangeTextSplits(first: nat, last: nat)
    ensures var text := Itoa(first) + "-" + Itoa(last);
            TrimSpace(text) == text && Index(text, '-') == |Itoa(first)| &&
            text[..|Itoa(first)|] == Itoa(first) && text[|Itoa(first)| + 1..] == Itoa(last)
  {
    var a, b := Itoa(first), Itoa(last);
    var text := a + "-" + b;
    assert text[0] == a[0] && text[|text| - 1] == b[|b| - 1];
    NothingToTrim(text);
    assert text == a + ['-'] + b;
    IndexOfTheJoint(a, '-', b);
  }

  lemma EntryReadsEnds(item: string, a: string, b: string, parse: string -> Result<int>, trim: string -> string,
                       first: int, last: int)
    requires item == a + "-" + b && trim(a) == a && trim(b) == b
    requires parse(a) == Ok(first) && parse(b) == Ok(last) && first <= last
    ensures EntryAt(item, |a|, parse, trim) == Ok(Span(first, last + 1))
  {
    assert item[..|a|] == a && item[|a| + 1..] == b;
  }

  lemma EntryReadsRange(first: nat, last: nat)
    requires InRange(Span(first, last + 1))
    ensures Entry(Itoa(first) + "-" + Itoa(last)) == Ok(Span(first, last + 1))
  {
    RangeTextSplits(first, last);
    PortReadsItoa(first);
    PortReadsItoa(last);
    EntryReadsEnds(Itoa(first) + "-" + Itoa(last), Itoa(first), Itoa(last), ParsePort, TrimSpace, first, last);
  }

  lemma EntryReadsRunText(s: Span)
    requires InRange(s)
    ensures TrimSpace(RunText(s)) == RunText(s) && Entry(RunText(s)) == Ok(s)
  {
    if s.end == s.begin + 1 {
      PortReadsItoa(s.begin);
      EntryReadsOne(s.begin);
    } else {
      RangeTextSplits(s.begin, s.end - 1);
      EntryReadsRange(s.begin, s.end - 1);
    }
  }

  lemma {:induction false} ReadingUndoesShowing(
    spans: seq<Span>, show: Span -> string, read: string -> Result<Span>)
    requires forall k :: 0 <= k < |spans| ==> read(show(spans[k])) == Ok(spans[k])
    ensures ReadAll(ShowAll(spans, show), read) == Ok(spans)
  {
    if spans != [] {
      ReadingUndoesShowing(spans[1..], show, read);
      assert ShowAll(spans, show)[1..] == ShowAll(spans[1..], show);
      assert [spans[0]] + spans[1..] == spans;
    }
  }

  lemma {:induction false} ShownAt(spans: seq<Span>, show: Span -> string, k: nat)
    requires k < |spans|
    ensures |ShowAll(spans, show)| == |spans| && ShowAll(spans, show)[k] == show(spans[k])
  {
    if |spans| > 1 { ShownAt(spans[1..], show, if k == 0 then 0 else k - 1); }
  }

  lemma RunTextIsPlain(s: Span)
    requires InRange(s)
    ensures ',' !in RunText(s) && RunText(s) != "" && IsDigit(RunText(s)[0])
  {
    var first, last := Itoa(s.begin), Itoa(s.end - 1);
    assert forall k :: 0 <= k < |first| ==> IsDigit(first[k]);
    assert forall k :: 0 <= k < |last| ==> IsDigit(last[k]);
  }

  lemma SplitFindsTheTexts(ports: seq<int>)
    requires IsPortSet(ports) && ports != []
    ensures Split(Printed(ports), ',') == Texts(Runs(ports)) && Printed(ports) != "" && IsDigit(Printed(ports)[0])
  {
    var runs, texts := Runs(ports), Texts(Runs(ports));
    RunsAreInRange(ports);
    ShownAt(runs, RunText, 0);
    forall k | 0 <= k < |texts| ensures ',' !in texts[k] && texts[k] != "" && IsDigit(texts[k][0]) {
      ShownAt(runs, RunText, k);
      RunTextIsPlain(runs[k]);
    }
    SplitUndoesJoin(texts, ',');
  }

  lemma EntriesReadTexts(runs: seq<Span>)
    requires forall k :: 0 <= k < |runs| ==> InRange(runs[k])
    ensures Entries(Texts(runs)) == Ok(runs)
  {
    forall k | 0 <= k < |runs| ensures TrimmedEntry(RunText(runs[k])) == Ok(runs[k]) {
      EntryReadsRunText(runs[k]);
    }
    ReadingUndoesShowing(runs, RunText, TrimmedEntry);
  }

  /** Reading what was printed gives back the set. */
  lemma ParseUndoesPrint(ports: seq<int>)
    requires IsPortSet(ports) && ports != []
    ensures Parsed(Printed(ports)) == Ok(ports)
  {
    SplitFindsTheTexts(ports);
    RunsAreInRange(ports);
    EntriesReadTexts(Runs(ports));
    RunsExpandToThePorts(ports);
    assert [] + ports == ports;
    CollectingIsAppending(Texts(Runs(ports)), []);
    SortOfSorted(ports, (x: int) => x);
    DigitsSurviveTrimming(Printed(ports));
  }

  lemma {:induction false} DigitsSurviveTrimming(s: string)
    requires s != "" && IsDigit(s[0])
    ensures TrimSpace(s) != ""
  {
    assert TrimLeft(s) == s;
    if IsSpace(s[|s| - 1]) {
      DigitsSurviveTrimming(s[..|s| - 1]);
      assert TrimLeft(s[..|s| - 1]) == s[..|s| - 1];
    }
  }

  /** No two sets are printed alike. */
  lemma PrintedAlikeIsTheSame(a: seq<int>, b: seq<int>)
    requires IsPortSet(a) && IsPortSet(b) && Printed(a) == Printed(b)
    ensures a == b
  {
    if a != [] { SplitFindsTheTexts(a); ParseUndoesPrint(a); }
    if b != [] { SplitFindsTheTexts(b); ParseUndoesPrint(b); }
  }

  lemma SplitIsNeverEmpty(s: string, c: char)
    ensures Split(s, c) != []
  {
  }

  /** An empty list is no way to say "any port": what is read without an error always names one. */
  lemma ParsedIsNeverEmpty(spec: string)
    requires Parsed(spec).Ok?
    ensures Parsed(spec).value != []
  {
    var items := Split(spec, ',');
    SplitIsNeverEmpty(spec, ',');
    ParsedIsTheSetNamed(spec);
    EntriesAreInRange(items);
    var spans := Entries(items).value;
    PointsMember(spans, spans[0].begin);
  }

  // ---- what an entry is, spaces and all, and what a refusal says ----

  /** An entry with spaces around it means what it would without them. */
  lemma SpacesAroundAPort(p: string, t: string, port: nat)
    requires AllSpaces(p) && AllSpaces(t) && InRange(Span(port, port + 1))
    ensures TrimmedEntry(p + Itoa(port) + t) == Ok(Span(port, port + 1))
  {
    SpacedEnds(p, Itoa(port), t);
    EntryReadsOne(port);
  }

  /** And so does a range with spaces around its dash. */
  lemma SpacesAroundADash(q: string, r: string, first: nat, last: nat)
    requires AllSpaces(q) && AllSpaces(r) && InRange(Span(first, last + 1))
    ensures Entry((Itoa(first) + q) + "-" + (r + Itoa(last))) == Ok(Span(first, last + 1))
  {
    var a, b := Itoa(first) + q, r + Itoa(last);
    SpacedEnds("", Itoa(first), q);
    SpacedEnds(r, Itoa(last), "");
    assert "" + Itoa(first) + q == a && r + Itoa(last) + "" == b;
    PortReadsItoa(first);
    PortReadsItoa(last);
    NoDashInSpaces(Itoa(first), q);
    SpacedEntry(a, b, first, last);
  }

  lemma NoDashInSpaces(digits: string, q: string)
    requires AllDigits(digits) && AllSpaces(q)
    ensures '-' !in digits + q
  {
    assert forall k :: 0 <= k < |digits + q| ==>
      if k < |digits| then IsDigit((digits + q)[k]) else IsSpace((digits + q)[k]);
  }

  lemma SpacedEntry(a: string, b: string, first: int, last: int)
    requires '-' !in a && ParsePort(TrimSpace(a)) == Ok(first) && ParsePort(TrimSpace(b)) == Ok(last) && first <= last
    ensures Entry(a + "-" + b) == Ok(Span(first, last + 1))
  {
    assert a + "-" + b == a + ['-'] + b;
    IndexOfTheJoint(a, '-', b);
    EntryReadsSpacedEnds(a + "-" + b, a, b, ParsePort, TrimSpace, first, last);
  }

  lemma SpacedEnds(p: string, text: string, t: string)
    requires AllSpaces(p) && AllSpaces(t) && text != "" && AllDigits(text)
    ensures TrimSpace(p + text + t) == text
  {
    assert IsDigit(text[0]) && IsDigit(text[|text| - 1]);
    TrimmedOfSpaces(p, text, t);
  }

  lemma EntryReadsSpacedEnds(item: string, a: string, b: string, parse: string -> Result<int>, trim: string -> string,
                             first: int, last: int)
    requires item == a + "-" + b && parse(trim(a)) == Ok(first) && parse(trim(b)) == Ok(last) && first <= last
    ensures EntryAt(item, |a|, parse, trim) == Ok(Span(first, last + 1))
  {
    assert item[..|a|] == a && item[|a| + 1..] == b;
  }

  /** What one port is read as: a number in decimal, that fits, between 1 and 65535. */
  lemma PortMeans(s: string)
    ensures ParsePort(s).Ok? <==> Atoi(s).Some? && 1 <= Atoi(s).value <= 65535
    ensures ParsePort(s).Ok? ==> ParsePort(s) == Ok(Atoi(s).value)
    ensures Atoi(s).None? ==> ParsePort(s) == Err(NotANumber(s))
    ensures Atoi(s).Some? && !(1 <= Atoi(s).value <= 65535) ==> ParsePort(s) == Err(OutOfRange(Atoi(s).value))
  {
  }

  /** An entry that is refused is blank, or its one port is, or the lower of its two is, or else the upper, or they
      are the wrong way round; and the refusal is the first of these. */
  lemma EntryRefusal(item: string)
    requires Entry(item).Err?
    ensures var dash := Index(item, '-');
            if item == "" then Entry(item).error == EmptyEntry
            else if dash == |item| then ParsePort(item) == Err(Entry(item).error)
            else
              var low, high := ParsePort(TrimSpace(item[..dash])), ParsePort(TrimSpace(item[dash + 1..]));
              if low.Err? then Entry(item).error == low.error
              else if high.Err? then Entry(item).error == high.error
              else high.value < low.value && Entry(item).error == Backwards(item)
  {
  }

  /** The first port of this stretch that is already named. */
  ghost predicate FirstNamed(ports: seq<int>, s: Span, p: int) {
    s.begin <= p < s.end && p in ports && forall q :: s.begin <= q < p ==> q !in ports
  }

  lemma {:induction false} AddingFails(ports: seq<int>, s: Span) returns (p: int)
    requires Added(ports, s.begin, s.end).Err?
    ensures FirstNamed(ports, s, p) && Added(ports, s.begin, s.end).error == ListedTwice(p)
    decreases s.end - s.begin
  {
    if s.begin in ports {
      p := s.begin;
    } else {
      p := AddingFails(ports + [s.begin], Span(s.begin + 1, s.end));
      assert forall x :: x in ports + [s.begin] <==> x in ports || x == s.begin;
    }
  }

  /** Item n is the first that is not an entry, or names a port some entry before it names, and this is why. */
  ghost predicate FirstRefusal(items: seq<string>, ports: seq<int>, n: nat, e: Error) {
    n < |items| && Entries(items[..n]).Ok? && Distinct(ports + Expanded(Entries(items[..n]).value)) &&
    match TrimmedEntry(items[n])
    case Err(refusal) => e == refusal
    case Ok(span) => exists p :: FirstNamed(ports + Expanded(Entries(items[..n]).value), span, p) && e == ListedTwice(p)
  }

  lemma {:induction false} CollectingFails(items: seq<string>, ports: seq<int>) returns (n: nat)
    requires Distinct(ports) && Collected(items, ports).Err?
    ensures FirstRefusal(items, ports, n, Collected(items, ports).error)
    decreases |items|
  {
    n := 0;
    assert items[..0] == [] && Entries(items[..0]) == Ok([]) && ports + Expanded([]) == ports;
    if TrimmedEntry(items[0]).Ok? {
      var span := TrimmedEntry(items[0]).value;
      if Added(ports, span.begin, span.end).Err? {
        var p := AddingFails(ports, span);
      } else {
        AddingIsAppending(ports, span);
        var longer := ports + RangeSeq(span);
        var m := CollectingFails(items[1..], longer);
        n := m + 1;
        OneEntryMore(items, m);
        ExpandedAfter(ports, span, Entries(items[1..][..m]).value);
        assert items[1..][m] == items[n];
      }
    }
  }

  lemma OneEntryMore(items: seq<string>, m: nat)
    requires m + 1 <= |items| && TrimmedEntry(items[0]).Ok? && Entries(items[1..][..m]).Ok?
    ensures Entries(items[..m + 1]) == Ok([TrimmedEntry(items[0]).value] + Entries(items[1..][..m]).value)
  {
    assert items[..m + 1][1..] == items[1..][..m] && items[..m + 1][0] == items[0];
  }

  /** A list is refused for being blank, or for its first entry that is not one or repeats a port, and the refusal
      says which and why. */
  lemma RefusalIsTheFirst(spec: string) returns (n: nat)
    requires Parsed(spec).Err?
    ensures TrimSpace(spec) == "" ==> Parsed(spec).error == NoPorts
    ensures TrimSpace(spec) != "" ==> FirstRefusal(Split(spec, ','), [], n, Parsed(spec).error)
  {
    n := 0;
    if TrimSpace(spec) != "" { n := CollectingFails(Split(spec, ','), []); }
  }
}
