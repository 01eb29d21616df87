/** What a run's replay is made of: everything published to it, with the heartbeats of each file collapsed
    (internal/web/hub.go). The reference is stated over the whole log; the hub works on its history in place. */
module HubHistory {

  /** One encoded message; progress marks a heartbeat of one file. */
  datatype Record = Record(data: string, progress: bool, file: int)

  predicate Beat(r: Record, f: int) { r.progress && r.file == f }

  /** Where the first heartbeat of file f from i on stands, or the length of the log. */
  function FirstBeat(log: seq<Record>, f: int, i: nat): (k: nat)
    requires i <= |log|
    ensures i <= k <= |log| && (k < |log| ==> Beat(log[k], f))
    ensures forall j :: i <= j < k ==> !Beat(log[j], f)
    decreases |log| - i
  {
    if i == |log| || Beat(log[i], f) then i else FirstBeat(log, f, i + 1)
  }

  predicate HasBeat(log: seq<Record>, f: int) { FirstBeat(log, f, 0) < |log| }

  /** The last heartbeat of file f. */
  function Latest(log: seq<Record>, f: int): Record {
    if log == [] then Record("", true, f)
    else if Beat(log[|log| - 1], f) then log[|log| - 1]
    else Latest(log[..|log| - 1], f)
  }

  /** The log without the heartbeats that are not the first of their file. */
  function Firsts(log: seq<Record>): seq<Record> {
    if log == [] then []
    else
      var front, last := log[..|log| - 1], log[|log| - 1];
      if last.progress && HasBeat(front, last.file) then Firsts(front) else Firsts(front) + [last]
  }

  function Shown(log: seq<Record>, r: Record): Record {
    if r.progress then Latest(log, r.file) else r
  }

  function ShownAll(log: seq<Record>, rs: seq<Record>): seq<Record> {
    if rs == [] then [] else ShownAll(log, rs[..|rs| - 1]) + [Shown(log, rs[|rs| - 1])]
  }

  /** One heartbeat a file, at the place of its first with the content of its latest; all else in order. */
  function Collapse(log: seq<Record>): seq<Record> { ShownAll(log, Firsts(log)) }

  // ---- the reference, point by point ----

  lemma LatestIsABeat(log: seq<Record>, f: int)
    ensures Beat(Latest(log, f), f)
  {
  }

  lemma {:induction false} ShownAt(log: seq<Record>, rs: seq<Record>)
    ensures |ShownAll(log, rs)| == |rs|
    ensures forall k :: 0 <= k < |rs| ==> ShownAll(log, rs)[k] == Shown(log, rs[k])
  {
    if rs != [] { ShownAt(log, rs[..|rs| - 1]); }
  }

  lemma HasBeatIff(log: seq<Record>, f: int)
    ensures HasBeat(log, f) <==> exists k :: 0 <= k < |log| && Beat(log[k], f)
  {
  }

  ghost predicate OnePerFile(log: seq<Record>) {
    forall i, j :: 0 <= i < j < |log| && log[i].progress && log[j].progress ==> log[i].file != log[j].file
  }

  lemma {:induction false} FirstsHaveTheBeats(log: seq<Record>, f: int)
    ensures HasBeat(Firsts(log), f) <==> HasBeat(log, f)
  {
    HasBeatIff(log, f);
    HasBeatIff(Firsts(log), f);
    if log != [] {
      var front, last := log[..|log| - 1], log[|log| - 1];
      FirstsHaveTheBeats(front, f);
      HasBeatIff(front, f);
      HasBeatIff(Firsts(front), f);
      assert log == front + [last];
      if k :| 0 <= k < |log| && Beat(log[k], f) {
        if k < |front| { assert Beat(front[k], f); }
        if HasBeat(Firsts(front), f) {
          var j :| 0 <= j < |Firsts(front)| && Beat(Firsts(front)[j], f);
          assert Beat(Firsts(log)[j], f);
        } else {
          assert Firsts(log) == Firsts(front) + [last];
          assert Beat(Firsts(log)[|Firsts(front)|], f);
        }
      }
      if k :| 0 <= k < |Firsts(log)| && Beat(Firsts(log)[k], f) {
        if k < |Firsts(front)| {
          assert Beat(Firsts(front)[k], f);
          var j :| 0 <= j < |front| && Beat(front[j], f);
          assert Beat(log[j], f);
        } else {
          assert Beat(log[|front|], f);
        }
      }
    }
  }

  lemma {:induction false} FirstsAreOnePerFile(log: seq<Record>)
    ensures OnePerFile(Firsts(log))
  {
    if log != [] {
      var front, last := log[..|log| - 1], log[|log| - 1];
      FirstsAreOnePerFile(front);
      if last.progress && !HasBeat(front, last.file) {
        FirstsHaveTheBeats(front, last.file);
        HasBeatIff(Firsts(front), last.file);
      }
    }
  }

  /** Place by place the collapsed log is what was first put there, and of its kind. */
  lemma CollapsePlaces(log: seq<Record>)
    ensures |Collapse(log)| == |Firsts(log)| && OnePerFile(Collapse(log))
    ensures forall k :: 0 <= k < |Firsts(log)| ==> Collapse(log)[k] == Shown(log, Firsts(log)[k])
    ensures forall k, f :: 0 <= k < |Firsts(log)| ==> (Beat(Collapse(log)[k], f) <==> Beat(Firsts(log)[k], f))
  {
    ShownAt(log, Firsts(log));
    FirstsAreOnePerFile(log);
    forall k | 0 <= k < |Firsts(log)|
      ensures Collapse(log)[k].progress == Firsts(log)[k].progress
      ensures Firsts(log)[k].progress ==> Collapse(log)[k].file == Firsts(log)[k].file {
      LatestIsABeat(log, Firsts(log)[k].file);
    }
  }

  /** The collapsed log shows, for every file that ever had a heartbeat, its latest. */
  lemma CollapseShowsTheLatest(log: seq<Record>, f: int)
    requires HasBeat(log, f)
    ensures HasBeat(Collapse(log), f) && Collapse(log)[FirstBeat(Collapse(log), f, 0)] == Latest(log, f)
  {
    CollapsePlaces(log);
    FirstsHaveTheBeats(log, f);
    HasBeatIff(Firsts(log), f);
    HasBeatIff(Collapse(log), f);
  }

  /** Message k has a place of its own in the replay: it is no heartbeat, or the first of its file. */
  ghost predicate HasAPlace(log: seq<Record>, k: nat)
    requires k < |log|
  {
    log[k].progress ==> forall j :: 0 <= j < k ==> !Beat(log[j], log[k].file)
  }

  ghost predicate LastBeat(log: seq<Record>, f: int, m: nat) {
    m < |log| && Beat(log[m], f) && forall j :: m < j < |log| ==> !Beat(log[j], f)
  }

  /** What stands in the replay at the place of message k: itself, or its file's last heartbeat. */
  ghost predicate ShowsAt(log: seq<Record>, k: nat, r: Record)
    requires k < |log|
  {
    if log[k].progress then exists m: nat :: LastBeat(log, log[k].file, m) && r == log[m] else r == log[k]
  }

  /** places are the messages that have a place, in order, each once. */
  ghost predicate Places(log: seq<Record>, places: seq<nat>) {
    (forall i :: 0 <= i < |places| ==> places[i] < |log| && HasAPlace(log, places[i])) &&
    (forall i, j :: 0 <= i < j < |places| ==> places[i] < places[j]) &&
    forall k :: 0 <= k < |log| && HasAPlace(log, k) ==> k in places
  }

  /** A longer log leaves the earlier messages their places, and gives the new one a place unless its file has a
      heartbeat already. */
  lemma PlacesStay(front: seq<Record>, last: Record)
    ensures forall k: nat :: k < |front| ==> (HasAPlace(front + [last], k) <==> HasAPlace(front, k))
    ensures HasAPlace(front + [last], |front|) <==> !(last.progress && HasBeat(front, last.file))
  {
    var log := front + [last];
    HasBeatIff(front, last.file);
    assert forall j :: 0 <= j < |front| ==> log[j] == front[j];
  }

  lemma OneMorePlace(front: seq<Record>, last: Record, before: seq<nat>)
    requires Places(front, before)
    ensures Places(front + [last], if last.progress && HasBeat(front, last.file) then before else before + [|front|])
  {
    var log := front + [last];
    var places := if last.progress && HasBeat(front, last.file) then before else before + [|front|];
    PlacesStay(front, last);
    forall k | 0 <= k < |log| && HasAPlace(log, k) ensures k in places {
      if k < |front| {
        assert k in before;
      } else {
        assert places[|before|] == k;
      }
    }
  }

  /** records are the messages at these places. */
  ghost predicate StandAt(log: seq<Record>, records: seq<Record>, places: seq<nat>) {
    |places| == |records| && forall i :: 0 <= i < |places| ==> places[i] < |log| && records[i] == log[places[i]]
  }

  lemma OneMoreStands(front: seq<Record>, last: Record, records: seq<Record>, before: seq<nat>)
    requires StandAt(front, records, before)
    ensures StandAt(front + [last], records, before)
    ensures StandAt(front + [last], records + [last], before + [|front|])
  {
  }

  lemma {:induction false} FirstsAreThePlaces(log: seq<Record>) returns (places: seq<nat>)
    ensures Places(log, places) && StandAt(log, Firsts(log), places)
  {
    if log == [] {
      places := [];
    } else {
      var front, last := log[..|log| - 1], log[|log| - 1];
      var before := FirstsAreThePlaces(front);
      assert log == front + [last];
      OneMorePlace(front, last, before);
      OneMoreStands(front, last, Firsts(front), before);
      places := if last.progress && HasBeat(front, last.file) then before else before + [|front|];
    }
  }

  lemma {:induction false} LatestIsTheLast(log: seq<Record>, f: int) returns (m: nat)
    requires HasBeat(log, f)
    ensures LastBeat(log, f, m) && Latest(log, f) == log[m]
  {
    var front, last := log[..|log| - 1], log[|log| - 1];
    if Beat(last, f) {
      m := |log| - 1;
    } else {
      HasBeatIff(log, f);
      HasBeatIff(front, f);
      var k :| 0 <= k < |log| && Beat(log[k], f);
      assert Beat(front[k], f);
      m := LatestIsTheLast(front, f);
    }
  }

  /** The collapse, from the log alone: a place for each message that is no heartbeat and each file's first, in
      the order they came, and at it the message, or the last heartbeat of the file. */
  lemma CollapseIs(log: seq<Record>) returns (places: seq<nat>)
    ensures Places(log, places) && |Collapse(log)| == |places|
    ensures forall i :: 0 <= i < |places| ==> ShowsAt(log, places[i], Collapse(log)[i])
  {
    places := FirstsAreThePlaces(log);
    CollapsePlaces(log);
    forall i | 0 <= i < |places| ensures ShowsAt(log, places[i], Collapse(log)[i]) {
      var r := log[places[i]];
      if r.progress {
        HasBeatIff(log, r.file);
        var m := LatestIsTheLast(log, r.file);
      }
    }
  }

  // ---- the history in place ----

  /** appendLocked: over the file's own last heartbeat if it has one, at the end otherwise. */
  function Appended(history: seq<Record>, rec: Record): seq<Record> {
    if rec.progress && HasBeat(history, rec.file) then history[FirstBeat(history, rec.file, 0) := rec]
    else history + [rec]
  }

  lemma LatestOfOneMore(log: seq<Record>, rec: Record, f: int)
    ensures Latest(log + [rec], f) == if Beat(rec, f) then rec else Latest(log, f)
  {
    assert (log + [rec])[..|log|] == log;
  }

  lemma FirstsOfOneMore(log: seq<Record>, rec: Record)
    ensures Firsts(log + [rec]) == if rec.progress && HasBeat(log, rec.file) then Firsts(log) else Firsts(log) + [rec]
  {
    assert (log + [rec])[..|log|] == log;
  }

  lemma BeatsOfTheCollapsed(log: seq<Record>, f: int)
    ensures HasBeat(Collapse(log), f) <==> HasBeat(log, f)
  {
    CollapsePlaces(log);
    FirstsHaveTheBeats(log, f);
    HasBeatIff(Firsts(log), f);
    HasBeatIff(Collapse(log), f);
  }

  /** Appending in place to the collapsed log is collapsing the longer one. */
  lemma AppendingInPlaceCollapses(log: seq<Record>, rec: Record)
    ensures Appended(Collapse(log), rec) == Collapse(log + [rec])
  {
    var c, longer := Collapse(log), log + [rec];
    CollapsePlaces(log);
    CollapsePlaces(longer);
    FirstsOfOneMore(log, rec);
    BeatsOfTheCollapsed(log, rec.file);
    forall k | 0 <= k < |Firsts(log)|
      ensures Shown(longer, Firsts(log)[k]) == if rec.progress && Beat(c[k], rec.file) then rec else c[k] {
      LatestOfOneMore(log, rec, Firsts(log)[k].file);
    }
    if rec.progress && HasBeat(log, rec.file) {
      assert forall k :: 0 <= k < |c| && k != FirstBeat(c, rec.file, 0) ==> !Beat(c[k], rec.file);
    } else {
      LatestOfOneMore(log, rec, rec.file);
      HasBeatIff(c, rec.file);
    }
    assert Appended(c, rec) == Collapse(longer);
  }

  lemma {:induction false} CollapsedIsItself(h: seq<Record>)
    requires OnePerFile(h)
    ensures Collapse(h) == h
  {
    if h != [] {
      var front, last := h[..|h| - 1], h[|h| - 1];
      CollapsedIsItself(front);
      AppendingInPlaceCollapses(front, last);
      assert front + [last] == h;
      if last.progress { HasBeatIff(front, last.file); }
    }
  }

  lemma LastLast<T>(a: seq<T>, b: seq<T>)
    requires b != []
    ensures a + b == (a + b[..|b| - 1]) + [b[|b| - 1]]
  {
  }

  lemma OneMoreAlike(a: seq<Record>, b: seq<Record>, rec: Record)
    requires Collapse(a) == Collapse(b)
    ensures Collapse(a + [rec]) == Collapse(b + [rec])
  {
    AppendingInPlaceCollapses(a, rec);
    AppendingInPlaceCollapses(b, rec);
  }

  lemma CollapsedTwice(log: seq<Record>)
    ensures Collapse(Collapse(log)) == Collapse(log)
  {
    CollapsePlaces(log);
    CollapsedIsItself(Collapse(log));
  }

  /** A page that connected late, given the collapsed backlog and then every message in order, holds what a
      page that connects later still is given. */
  lemma {:induction false} BacklogAndTheRest(before: seq<Record>, after: seq<Record>)
    ensures Collapse(Collapse(before) + after) == Collapse(before + after)
  {
    if after == [] {
      CollapsedTwice(before);
      assert Collapse(before) + after == Collapse(before) && before + after == before;
    } else {
      var front, last := after[..|after| - 1], after[|after| - 1];
      BacklogAndTheRest(before, front);
      OneMoreAlike(Collapse(before) + front, before + front, last);
      LastLast(Collapse(before), after);
      LastLast(before, after);
    }
  }
}
