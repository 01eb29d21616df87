/** What a strip shows, told from the actions alone: no log, no history, no record. */
module ReachMeans {
  import opened Intervals
  import opened Geometry
  import opened Manifest
  import opened Provenance
  import opened Reach

  /** The file's log was last opened there and is open still. */
  ghost predicate SinceOpened(script: seq<Action>, file: int, o: nat) {
    o < |script| && script[o] == Open(file) &&
    forall m :: o < m < |script| && script[m].file == file ==> script[m].Read?
  }

  /** A read of the file that has this piece among those it is given. */
  ghost predicate Asks(t: Layout, a: Action, file: int, k: int) {
    a.Read? && a.file == file && WindowFor(t, file, a.off, a.length, a.window).Ok? &&
    k in Range(WindowFor(t, file, a.off, a.length, a.window).value)
  }

  ghost predicate AskedAfter(t: Layout, script: seq<Action>, file: int, k: int, o: nat) {
    exists n :: o < n < |script| && Asks(t, script[n], file, k)
  }

  /** The log is open, and a read since it was opened was given the piece. */
  ghost predicate Asked(t: Layout, script: seq<Action>, file: int, k: int) {
    exists o: nat :: SinceOpened(script, file, o) && AskedAfter(t, script, file, k, o)
  }

  lemma SinceGrows(script: seq<Action>, a: Action, file: int, o: nat)
    ensures SinceOpened(script + [a], file, o) <==>
              (o == |script| && a == Open(file)) || (SinceOpened(script, file, o) && (a.file == file ==> a.Read?))
  {
    var longer := script + [a];
    if SinceOpened(longer, file, o) && o < |script| {
      assert script[o] == longer[o];
      forall m | o < m < |script| && script[m].file == file ensures script[m].Read? { assert longer[m] == script[m]; }
      assert longer[|script|] == a;
    }
  }

  lemma AskedGrows(t: Layout, script: seq<Action>, a: Action, file: int, k: int, o: nat)
    ensures AskedAfter(t, script + [a], file, k, o) <==>
              AskedAfter(t, script, file, k, o) || (o < |script| && Asks(t, a, file, k))
  {
    var longer := script + [a];
    if n :| o < n < |longer| && Asks(t, longer[n], file, k) {
      assert n < |script| ==> longer[n] == script[n];
    }
    if n :| o < n < |script| && Asks(t, script[n], file, k) {
      assert longer[n] == script[n];
    }
    if o < |script| && Asks(t, a, file, k) { assert longer[|script|] == a; }
  }

  /** One log at a time: there is one place it was last opened. */
  lemma OpenedOnce(script: seq<Action>, file: int, o: nat, o': nat)
    requires SinceOpened(script, file, o) && SinceOpened(script, file, o')
    ensures o == o'
  {
    assert script[o].file == file && script[o'].file == file;
  }

  lemma AskedOneMore(t: Layout, script: seq<Action>, a: Action, file: int, k: int)
    ensures Asked(t, script + [a], file, k) <==>
              (a.file == file ==> a.Read?) &&
              (Asked(t, script, file, k) || (Asks(t, a, file, k) && exists o: nat :: SinceOpened(script, file, o)))
  {
    if o: nat :| SinceOpened(script + [a], file, o) && AskedAfter(t, script + [a], file, k, o) {
      SinceGrows(script, a, file, o);
      AskedGrows(t, script, a, file, k, o);
    }
    if a.file == file ==> a.Read? {
      if o: nat :| SinceOpened(script, file, o) && (AskedAfter(t, script, file, k, o) || Asks(t, a, file, k)) {
        SinceGrows(script, a, file, o);
        AskedGrows(t, script, a, file, k, o);
      }
    }
  }

  lemma OpenOneMore(script: seq<Action>, a: Action, file: int)
    ensures (exists o: nat :: SinceOpened(script + [a], file, o)) <==>
              a == Open(file) || ((a.file == file ==> a.Read?) && exists o: nat :: SinceOpened(script, file, o))
  {
    if o: nat :| SinceOpened(script + [a], file, o) { SinceGrows(script, a, file, o); }
    if o: nat :| SinceOpened(script, file, o) { SinceGrows(script, a, file, o); }
    if a == Open(file) { SinceGrows(script, a, file, |script|); }
  }

  /** What a log holds, from the actions that led to it. */
  lemma {:induction false} LogIs(t: Layout, script: seq<Action>, file: int, k: int)
    ensures Recording(HistoryOf(t, script), file) <==> exists o: nat :: SinceOpened(script, file, o)
    ensures k in Points(OrderedNow(HistoryOf(t, script), file)) <==> Asked(t, script, file, k)
  {
    if script != [] {
      var front, a := script[..|script| - 1], script[|script| - 1];
      assert script == front + [a];
      LogIs(t, front, file, k);
      OpenOneMore(front, a, file);
      AskedOneMore(t, front, a, file, k);
      OneMoreTold(t, HistoryOf(t, front), a, file, k);
    }
  }

  lemma OneMoreTold(t: Layout, h: seq<Event>, a: Action, file: int, k: int)
    ensures Recording(h + Told(t, a), file) <==>
              a == Open(file) || ((a.file == file ==> a.Read?) && Recording(h, file))
    ensures k in Points(OrderedNow(h + Told(t, a), file)) <==>
              (a.file == file ==> a.Read?) &&
              (k in Points(OrderedNow(h, file)) || (Recording(h, file) && Asks(t, a, file, k)))
  {
    match a {
      case Open(at) => HistoryGrows(h, Opened(at), file);
      case Settle(at, _) => HistoryGrows(h, Closed(at), file);
      case Read(at, off, length, window) =>
        var pieces := WindowFor(t, at, off, length, window);
        if pieces.Ok? {
          HistoryGrows(h, Ordered(at, pieces.value), file);
          PointsAppend(OrderedSince(h, file), pieces.value);
        } else {
          assert h + [] == h;
        }
    }
  }

  /** A point of the file is captured there, with the piece asked for while its log was open. */
  ghost predicate CapturedWith(t: Layout, script: seq<Action>, file: int, k: int, at: nat) {
    at < |script| && script[at].Settle? && script[at].file == file && Captured(script[at].record) &&
    Asked(t, script[..at], file, k)
  }

  lemma CapturedGrows(t: Layout, script: seq<Action>, a: Action, file: int, k: int, at: nat)
    ensures CapturedWith(t, script + [a], file, k, at) <==>
              CapturedWith(t, script, file, k, at) ||
              (at == |script| && a.Settle? && a.file == file && Captured(a.record) && Asked(t, script, file, k))
  {
    if at < |script| {
      assert (script + [a])[..at] == script[..at];
    } else if at == |script| {
      assert (script + [a])[..at] == script;
    }
  }

  lemma CapturedOneMore(t: Layout, script: seq<Action>, a: Action, file: int, k: int)
    ensures (exists at: nat :: CapturedWith(t, script + [a], file, k, at)) <==>
              (exists at: nat :: CapturedWith(t, script, file, k, at)) ||
              (a.Settle? && a.file == file && Captured(a.record) && Asked(t, script, file, k))
  {
    if at: nat :| CapturedWith(t, script + [a], file, k, at) { CapturedGrows(t, script, a, file, k, at); }
    if at: nat :| CapturedWith(t, script, file, k, at) { CapturedGrows(t, script, a, file, k, at); }
    CapturedGrows(t, script, a, file, k, |script|);
  }

  lemma {:induction false} OrderedForIs(t: Layout, script: seq<Action>, file: int, k: int)
    ensures k in OrderedFor(t, script, file) <==> exists at: nat :: CapturedWith(t, script, file, k, at)
  {
    if script != [] {
      var front, a := script[..|script| - 1], script[|script| - 1];
      assert script == front + [a];
      OrderedForIs(t, front, file, k);
      LogIs(t, front, file, k);
      OneMoreAction(t, front, a, file);
      CapturedOneMore(t, front, a, file, k);
    }
  }

  /** The pieces a strip shows: those with a byte of the file that a read was given between the opening of the log
      of some captured point and its settling. */
  lemma ShownIs(t: Layout, script: seq<Action>, file: int, k: int)
    requires t.pieceLength > 0 && 0 <= file < |t.files|
    ensures k in Shown(t, script, file) <==>
              k in PiecesOfBytes(t.files[file], t.pieceLength, Range(Span(0, t.files[file].length))) &&
              exists at: nat :: CapturedWith(t, script, file, k, at)
  {
    OrderedForIs(t, script, file, k);
    if t.files[file].length > 0 { PiecesOfStretch(t.files[file], t.pieceLength, 0, t.files[file].length); }
  }
}
