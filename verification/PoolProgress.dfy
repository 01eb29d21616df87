/** What becomes of each kind of attach (internal/swarm/pool.go): where its source is sent, and what it comes to when
    its steps work out, whatever every other attach, detach and close does in between. */
module PoolProgress {
  import opened Paths
  import opened PoolModel
  import opened PoolInvariant
  import opened PoolSafety
  import opened PoolTheorems

  // ---- where a source is sent ----

  /** By the source and the configuration alone. */
  lemma WayIsDecided(w: World, src: Source)
    ensures WayFor(w, src) == ToTheDoor <==> src.File? && !w.private(src.hash)
    ensures WayFor(w, src) == Alone(false) <==>
              (src.File? && w.private(src.hash)) || (src.Magnet? && src.trackers && !w.dht)
    ensures WayFor(w, src) == Alone(true) <==> src.Magnet? && !src.trackers && w.dht
    ensures WayFor(w, src) == Probing <==> src.Magnet? && src.trackers && w.dht
    ensures WayFor(w, src) == Refused <==> src.Magnet? && !src.trackers && !w.dht
    ensures RouteFor(w, src).Route? ==> (RouteFor(w, src).blind <==> src.Magnet? && !src.trackers)
  {
  }

  /** Over every run: a source that is probed is so exactly where the configuration has DHT and it is a magnet with
      trackers, whose client is then the probe, DHT off, or the one that went online blind, DHT on. */
  lemma TrackersAreAskedFirst(w: World, events: seq<Event>, i: nat)
    requires ProperWorld(w) && Routed(w) && i < |After(w, events).ops|
    ensures var op := After(w, events).ops[i];
            (op.kind != Direct <==> op.source.Magnet? && op.source.trackers && w.dht) &&
            (op.client.Some? && op.kind != Direct ==> (op.client.value.dht <==> op.kind == Blind))
  {
    EveryRunKeeps(w, events);
    var op := After(w, events).ops[i];
    assert OpOk(w, op) && w.way(op.source) == WayFor(w, op.source);
    WayIsDecided(w, op.source);
  }

  // ---- an attach by itself ----

  /** An attach but for how much its client has received and whether that has been counted. */
  function Sight(op: Op): Op {
    op.(client := if op.client.Some? then Some(op.client.value.(received := 0)) else None, folded := false)
  }

  /** Its next step, were it the only one. */
  function Own(w: World, op: Op, ok: bool): Op {
    Sight(OpStep(w, Init(w).(ops := [op]), 0, ok).ops[0])
  }

  function OwnOf(w: World): (Op, bool) -> Op { (op: Op, ok: bool) => Own(w, op, ok) }

  /** How each of the steps of attach i turned out. */
  function OksOf(events: seq<Event>, i: nat): seq<bool>
    decreases |events|
  {
    if events == [] then []
    else (if events[0].Step? && events[0].i == i then [events[0].ok] else []) + OksOf(events[1..], i)
  }

  /** Neither its turn at the shared client's door nor a detach of it is among the events. */
  ghost predicate LeftToItself(events: seq<Event>, i: nat) {
    forall k :: 0 <= k < |events| ==>
      !(events[k].Door? && events[k].i == i) && !(events[k].Detach? && events[k].i == i)
  }

  lemma LocalStepIsItsOwn(w: World, op: Op, ok: bool)
    requires op.phase != NeedPort && TouchesOnlyItself(op.phase)
    ensures LocalStep(w, op, ok).phase != NeedPort
    ensures Sight(LocalStep(w, op, ok)) == Sight(LocalStep(w, Sight(op), ok))
  {
  }

  lemma OwnStepIsLocal(w: World, s: State, i: nat, ok: bool)
    requires i < |s.ops| && TouchesOnlyItself(s.ops[i].phase)
    ensures OpStep(w, s, i, ok) == Put(s, i, LocalStep(w, s.ops[i], ok))
  {
  }

  lemma AddFailedIsItsOwn(w: World, s: State, i: nat, ok: bool)
    requires i < |s.ops| && s.ops[i].phase == AddFailed
    ensures OpStep(w, s, i, ok).ops[i].phase != NeedPort
    ensures Sight(OpStep(w, s, i, ok).ops[i]) == Own(w, Sight(s.ops[i]), ok)
  {
  }

  lemma BookedStepIsItsOwn(w: World, s: State, i: nat, ok: bool)
    requires i < |s.ops| && (s.ops[i].phase == ProbePublic || s.ops[i].phase == Retiring)
    ensures OpStep(w, s, i, ok).ops[i].phase != NeedPort
    ensures Sight(OpStep(w, s, i, ok).ops[i]) == Own(w, Sight(s.ops[i]), ok)
  {
  }

  lemma RegisteringIsItsOwn(w: World, s: State, i: nat, ok: bool)
    requires i < |s.ops| && s.ops[i].phase == Registering
    ensures OpStep(w, s, i, ok).ops[i].phase != NeedPort
    ensures Sight(OpStep(w, s, i, ok).ops[i]) == Own(w, Sight(s.ops[i]), ok)
  {
  }

  lemma GivingStepIsItsOwn(w: World, s: State, i: nat, ok: bool)
    requires i < |s.ops| && s.ops[i].phase in {ReturningOwn, Returning, Dropping, Releasing}
    ensures OpStep(w, s, i, ok).ops[i].phase != NeedPort
    ensures Sight(OpStep(w, s, i, ok).ops[i]) == Own(w, Sight(s.ops[i]), ok)
  {
  }

  lemma OwnStepIsItsOwn(w: World, s: State, i: nat, ok: bool)
    requires i < |s.ops| && s.ops[i].phase != NeedPort
    ensures |OpStep(w, s, i, ok).ops| == |s.ops| && OpStep(w, s, i, ok).ops[i].phase != NeedPort
    ensures Sight(OpStep(w, s, i, ok).ops[i]) == Own(w, Sight(s.ops[i]), ok)
  {
    StepIsLocal(w, s, i, ok);
    if TouchesOnlyItself(s.ops[i].phase) {
      OwnStepIsLocal(w, s, i, ok);
      OwnStepIsLocal(w, Init(w).(ops := [Sight(s.ops[i])]), 0, ok);
      LocalStepIsItsOwn(w, s.ops[i], ok);
    } else if s.ops[i].phase == AddFailed {
      AddFailedIsItsOwn(w, s, i, ok);
    } else if s.ops[i].phase == Registering {
      RegisteringIsItsOwn(w, s, i, ok);
    } else if s.ops[i].phase == ProbePublic || s.ops[i].phase == Retiring {
      BookedStepIsItsOwn(w, s, i, ok);
    } else {
      GivingStepIsItsOwn(w, s, i, ok);
    }
  }

  lemma OthersLeaveItAlone(w: World, s: State, e: Event, i: nat)
    requires i < |s.ops| && s.ops[i].phase != NeedPort
    requires !(e.Step? && e.i == i) && !(e.Door? && e.i == i) && !(e.Detach? && e.i == i)
    ensures i < |Apply(w, s, e).ops| && Apply(w, s, e).ops[i].phase != NeedPort
    ensures Sight(Apply(w, s, e).ops[i]) == Sight(s.ops[i])
  {
    if e.Step? && e.i < |s.ops| { StepIsLocal(w, s, e.i, e.ok); }
    if e.Door? && e.i < |s.ops| { DoorOutcome(w, s, e.i, e.readable, e.starts, e.adds, e.arrives); }
  }

  /** Past its port, an attach goes by its own steps and by nothing else. */
  lemma {:induction false} GoesByItsOwnSteps(w: World, s: State, later: seq<Event>, i: nat)
    requires i < |s.ops| && s.ops[i].phase != NeedPort && LeftToItself(later, i)
    ensures i < |Then(w, s, later).ops|
    ensures Sight(Then(w, s, later).ops[i]) == Followed(Sight(s.ops[i]), OksOf(later, i), OwnOf(w))
    decreases |later|
  {
    if later != [] {
      var e, rest := later[0], later[1..];
      var t := Apply(w, s, e);
      if e.Step? && e.i == i {
        OwnStepIsItsOwn(w, s, i, e.ok);
        assert OksOf(later, i) == [e.ok] + OksOf(rest, i);
        assert OksOf(later, i)[1..] == OksOf(rest, i);
      } else {
        OthersLeaveItAlone(w, s, e, i);
        assert OksOf(later, i) == OksOf(rest, i);
      }
      GoesByItsOwnSteps(w, t, rest, i);
    }
  }

  // ---- from the call on ----

  /** Attach is called on an open pool that is not at work on the torrent, and has a port to give. */
  ghost predicate Welcome(w: World, done: seq<Event>, src: Source) {
    var s := After(w, done);
    !s.front.closed && src.hash !in s.held && CanTake(w, s.queue)
  }

  /** It is called, and takes its port. */
  function Called(w: World, done: seq<Event>, src: Source): seq<Event> {
    done + [Attach(src)] + [Step(|After(w, done).ops|, true)]
  }

  lemma CalledIsStarting(w: World, done: seq<Event>, src: Source)
    requires Welcome(w, done, src) && (w.way(src).Alone? || w.way(src).Probing?)
    ensures var s, i := After(w, Called(w, done, src)), |After(w, done).ops|;
            i < |s.ops| && s.ops[i].source == src && s.ops[i].phase == Starting && s.ops[i].client.None? &&
            s.ops[i].kind == (if w.way(src).Probing? then Probe else Direct)
  {
    var i := |After(w, done).ops|;
    OneMoreEvent(w, done, Attach(src));
    OneMoreEvent(w, done + [Attach(src)], Step(i, true));
  }

  /** Where the steps of such an attach take it. */
  lemma ComesTo(w: World, done: seq<Event>, src: Source, later: seq<Event>)
    requires Welcome(w, done, src) && (w.way(src).Alone? || w.way(src).Probing?)
    requires LeftToItself(later, |After(w, done).ops|)
    ensures var i := |After(w, done).ops|;
            i < |After(w, Called(w, done, src)).ops| && i < |After(w, Called(w, done, src) + later).ops| &&
            Sight(After(w, Called(w, done, src) + later).ops[i]) ==
            Followed(Sight(After(w, Called(w, done, src)).ops[i]), OksOf(later, i), OwnOf(w))
  {
    CalledIsStarting(w, done, src);
    GoesByItsOwnSteps(w, After(w, Called(w, done, src)), later, |After(w, done).ops|);
    ThenAfter(w, Called(w, done, src), later);
  }

  // ---- what each kind comes to ----

  /** The attach is at this phase, with no client. */
  predicate IsAt(op: Op, phase: Phase) { op.phase == phase && op.client.None? }

  /** The attach is at this phase, on a client with DHT on or off and just its own torrent in it or none. */
  predicate IsOn(op: Op, phase: Phase, dht: bool, torrents: set<Hash>) {
    op.phase == phase && op.client.Some? && op.client.value.dht == dht && op.client.value.torrents == torrents
  }

  lemma {:induction false} StepsInTwo(w: World, op: Op, first: seq<bool>, rest: seq<bool>)
    ensures Followed(op, first + rest, OwnOf(w)) == Followed(Followed(op, first, OwnOf(w)), rest, OwnOf(w))
    decreases |first|
  {
    if first == [] {
      assert first + rest == rest;
    } else {
      assert (first + rest)[1..] == first[1..] + rest;
      StepsInTwo(w, Own(w, op, first[0]), first[1..], rest);
    }
  }

  lemma OneStep(w: World, op: Op, a: bool)
    ensures Followed(op, [a], OwnOf(w)) == Own(w, op, a)
  {
  }

  lemma TwoSteps(w: World, op: Op, a: bool, b: bool)
    ensures Followed(op, [a, b], OwnOf(w)) == Own(w, Own(w, op, a), b)
  {
    assert [a, b] == [a] + [b];
    StepsInTwo(w, op, [a], [b]);
    OneStep(w, op, a);
    OneStep(w, Own(w, op, a), b);
  }

  /** The client comes up and the torrent is added, as on any but a client with DHT and a .torrent that says
      private. */
  lemma StartsAndAdds(w: World, op: Op)
    requires op.phase == Starting && !(Privacy(w, op.source) == Some(true) && DhtOf(w, op))
    ensures var added := Own(w, Own(w, op, true), true);
            IsOn(added, Waiting, DhtOf(w, op), {op.source.hash}) && added.source == op.source && added.kind == op.kind
  {
    var none: set<Hash> := {};
    assert none + {op.source.hash} == {op.source.hash};
    var on := Own(w, op, true);
    assert IsOn(on, Adding, DhtOf(w, op), {});
  }

  /** The metadata arrives. */
  lemma Learns(w: World, op: Op)
    requires op.phase == Waiting && op.client.Some?
    requires !(Privacy(w, op.source).None? && w.private(op.source.hash) && op.client.value.dht)
    ensures var next := Own(w, op, true);
            next.client == Sight(op).client && next.source == op.source && next.kind == op.kind &&
            next.phase == if op.kind == Probe && !w.private(op.source.hash) then ProbePublic else Registering
  {
  }

  /** A probe that gets nothing from the trackers is closed, and its attach goes online blind. */
  lemma ProbeGivesUp(w: World, op: Op, a: bool, b: bool)
    requires op.phase == AddFailed && op.kind == Probe && op.client.Some?
    ensures var next := Own(w, Own(w, op, a), b);
            IsAt(next, Starting) && next.kind == Blind && next.source == op.source
  {
    var closing := Own(w, op, a);
    assert closing.phase == ProbeFailed && closing.kind == Probe && closing.source == op.source;
  }

  /** A probe that learns its torrent is public is closed, and its attach goes to the shared client's door. */
  lemma ProbeLeaves(w: World, op: Op, a: bool, b: bool)
    requires op.phase == ProbePublic && op.client.Some?
    ensures var next := Own(w, Own(w, op, a), b); IsAt(next, AtDoor) && next.kind == op.kind && next.source == op.source
  {
    var closing := Own(w, op, a);
    assert closing.phase == ProbeLeaving && closing.kind == op.kind && closing.source == op.source;
  }

  lemma Registers(w: World, op: Op, ok: bool)
    requires op.phase == Registering
    ensures var next := Own(w, op, ok); next.phase == Attached && next.client == Sight(op).client &&
                                        next.source == op.source && next.kind == op.kind
  {
  }


  /** The shape of an attach that has its port. */
  predicate IsFresh(w: World, op: Op, src: Source) {
    IsAt(op, Starting) && op.source == src && op.kind == if w.way(src).Probing? then Probe else Direct
  }

  /** The probe of a silent magnet: nothing was added, or it was and no metadata came. */
  function Silence(added: bool): seq<bool> { if added then [true, true, false] else [true, false] }

  lemma SilentProbeFails(w: World, op: Op, src: Source, added: bool)
    requires IsFresh(w, op, src) && src.Magnet? && w.way(src).Probing?
    ensures var failed := Followed(op, Silence(added), OwnOf(w));
            failed.phase == AddFailed && failed.kind == Probe && failed.client.Some? && failed.source == src
  {
    if added {
      assert Silence(added) == [true, true] + [false];
      StepsInTwo(w, op, [true, true], [false]);
      TwoSteps(w, op, true, true);
      StartsAndAdds(w, op);
      OneStep(w, Own(w, Own(w, op, true), true), false);
    } else {
      TwoSteps(w, op, true, false);
      var on := Own(w, op, true);
      assert IsOn(on, Adding, false, {}) && on.kind == Probe && on.source == src;
    }
  }

  lemma GoesBlind(w: World, op: Op, src: Source, added: bool, a: bool, b: bool)
    requires IsFresh(w, op, src) && src.Magnet? && w.way(src).Probing?
    ensures var blind := Followed(op, Silence(added) + [a, b], OwnOf(w));
            IsAt(blind, Starting) && blind.kind == Blind && blind.source == src
  {
    StepsInTwo(w, op, Silence(added), [a, b]);
    SilentProbeFails(w, op, src, added);
    var failed := Followed(op, Silence(added), OwnOf(w));
    TwoSteps(w, failed, a, b);
    ProbeGivesUp(w, failed, a, b);
  }

  /** A magnet with trackers, where the configuration has DHT: its trackers stay silent, and its attach comes to a
      client of its own with DHT on. */
  lemma ASilentProbeComesToDht(
    w: World, done: seq<Event>, src: Source, later: seq<Event>, added: bool, a: bool, b: bool)
    requires Routed(w) && w.dht && src.Magnet? && src.trackers && Welcome(w, done, src)
    requires LeftToItself(later, |After(w, done).ops|)
    requires OksOf(later, |After(w, done).ops|) == Silence(added) + [a, b] + [true]
    ensures var s, i := After(w, Called(w, done, src) + later), |After(w, done).ops|;
            i < |s.ops| && s.ops[i].source == src && s.ops[i].kind == Blind && IsOn(s.ops[i], Adding, true, {})
  {
    var i := |After(w, done).ops|;
    WayIsDecided(w, src);
    assert w.way(src) == WayFor(w, src);
    CalledIsStarting(w, done, src);
    ComesTo(w, done, src, later);
    var op := Sight(After(w, Called(w, done, src)).ops[i]);
    StepsInTwo(w, op, Silence(added) + [a, b], [true]);
    GoesBlind(w, op, src, added, a, b);
    OneStep(w, Followed(op, Silence(added) + [a, b], OwnOf(w)), true);
  }

  /** And if it is public its attach succeeds there. */
  lemma APublicSilentMagnetIsAttached(
    w: World, done: seq<Event>, src: Source, later: seq<Event>, added: bool, a: bool, b: bool, c: bool)
    requires Routed(w) && w.dht && src.Magnet? && src.trackers && Welcome(w, done, src) && !w.private(src.hash)
    requires LeftToItself(later, |After(w, done).ops|)
    requires OksOf(later, |After(w, done).ops|) == Silence(added) + [a, b] + [true, true] + [true, c]
    ensures var s, i := After(w, Called(w, done, src) + later), |After(w, done).ops|;
            i < |s.ops| && s.ops[i].source == src && IsOn(s.ops[i], Attached, true, {src.hash})
  {
    var i := |After(w, done).ops|;
    WayIsDecided(w, src);
    assert w.way(src) == WayFor(w, src);
    CalledIsStarting(w, done, src);
    ComesTo(w, done, src, later);
    var op := Sight(After(w, Called(w, done, src)).ops[i]);
    var silence := Silence(added) + [a, b];
    StepsInTwo(w, op, silence + [true, true], [true, c]);
    StepsInTwo(w, op, silence, [true, true]);
    GoesBlind(w, op, src, added, a, b);
    IsAttachedAlone(w, Followed(op, silence, OwnOf(w)), c);
  }

  /** An attach with a client of its own to start, and nothing against it, succeeds. */
  lemma IsAttachedAlone(w: World, op: Op, c: bool)
    requires IsAt(op, Starting) && !(w.private(op.source.hash) && DhtOf(w, op))
    requires op.kind == Probe ==> w.private(op.source.hash)
    ensures var attached := Followed(Followed(op, [true, true], OwnOf(w)), [true, c], OwnOf(w));
            IsOn(attached, Attached, DhtOf(w, op), {op.source.hash}) && attached.source == op.source &&
            attached.kind == op.kind
  {
    TwoSteps(w, op, true, true);
    StartsAndAdds(w, op);
    var added := Own(w, Own(w, op, true), true);
    TwoSteps(w, added, true, c);
    Learns(w, added);
    Registers(w, Own(w, added, true), c);
  }

  /** The same for every way to a client of its own: as routed, DHT is on there for a magnet without trackers and
      off for a private .torrent, for a magnet with trackers where the configuration has no DHT, and for a magnet
      whose probe finds it private, which keeps the probe. */
  lemma AloneIsAttached(w: World, done: seq<Event>, src: Source, later: seq<Event>, c: bool)
    requires Routed(w) && Welcome(w, done, src) && LeftToItself(later, |After(w, done).ops|)
    requires OksOf(later, |After(w, done).ops|) == [true, true] + [true, c]
    requires if src.File? then w.private(src.hash)
             else if src.trackers then w.dht ==> w.private(src.hash) else w.dht && !w.private(src.hash)
    ensures var s, i := After(w, Called(w, done, src) + later), |After(w, done).ops|;
            i < |s.ops| && s.ops[i].source == src &&
            IsOn(s.ops[i], Attached, src.Magnet? && !src.trackers, {src.hash})
  {
    var i := |After(w, done).ops|;
    WayIsDecided(w, src);
    assert w.way(src) == WayFor(w, src);
    CalledIsStarting(w, done, src);
    ComesTo(w, done, src, later);
    var op := Sight(After(w, Called(w, done, src)).ops[i]);
    StepsInTwo(w, op, [true, true], [true, c]);
    IsAttachedAlone(w, op, c);
  }

  /** A magnet with trackers whose probe finds it public comes to the shared client's door. */
  lemma APublicProbeComesToTheDoor(w: World, done: seq<Event>, src: Source, later: seq<Event>, a: bool, b: bool)
    requires Routed(w) && w.dht && src.Magnet? && src.trackers && !w.private(src.hash) && Welcome(w, done, src)
    requires LeftToItself(later, |After(w, done).ops|)
    requires OksOf(later, |After(w, done).ops|) == [true, true] + [true] + [a, b]
    ensures var s, i := After(w, Called(w, done, src) + later), |After(w, done).ops|;
            i < |s.ops| && s.ops[i].source == src && s.ops[i].kind == Probe && IsAt(s.ops[i], AtDoor)
  {
    var i := |After(w, done).ops|;
    WayIsDecided(w, src);
    assert w.way(src) == WayFor(w, src);
    CalledIsStarting(w, done, src);
    ComesTo(w, done, src, later);
    var op := Sight(After(w, Called(w, done, src)).ops[i]);
    StepsInTwo(w, op, [true, true] + [true], [a, b]);
    StepsInTwo(w, op, [true, true], [true]);
    TwoSteps(w, op, true, true);
    StartsAndAdds(w, op);
    var added := Own(w, Own(w, op, true), true);
    OneStep(w, added, true);
    Learns(w, added);
    var told := Own(w, added, true);
    TwoSteps(w, told, a, b);
    ProbeLeaves(w, told, a, b);
  }

  /** The door as it opens: known to be public, the attach is let in, and its torrent is in the shared client. */
  lemma TheDoorLetsIn(w: World, s: State, i: nat, readable: bool)
    requires i < |s.ops| && s.ops[i].phase == AtDoor && !s.front.closed && !w.private(s.ops[i].source.hash)
    requires if s.ops[i].kind == Probe then readable else s.ops[i].source.File?
    requires s.front.shared.Some? || s.ops[i].kind == Probe || CanTake(w, s.queue)
    ensures var t := Apply(w, s, Door(i, readable, true, true, true));
            |t.ops| == |s.ops| && t.ops[i].phase == Attached && t.ops[i].source == s.ops[i].source &&
            t.ops[i].client == s.ops[i].client && t.front.shared.Some? &&
            s.ops[i].source.hash in t.front.shared.value.torrents && t.front.shared.value.torrents ==
            (if s.front.shared.Some? then s.front.shared.value.torrents else {}) + {s.ops[i].source.hash}
  {
    DoorOutcome(w, s, i, readable, true, true, true);
  }

  lemma JoinIsDecided(w: World, s: State, i: nat, readable: bool, adds: bool, arrives: bool)
    requires i < |s.ops| && s.front.shared.Some? && DoorKnown(w, s.ops[i], readable) == Some(false)
    ensures var t := JoinShared(w, s, i, readable, adds, arrives);
            |t.ops| == |s.ops| && t.ops[i].phase == if adds && arrives then Attached else Releasing
  {
  }

  /** A door with a shared client behind it already. */
  lemma TheOpenDoor(w: World, s: State, i: nat, readable: bool, starts: bool, adds: bool, arrives: bool)
    requires i < |s.ops| && DoorKnown(w, s.ops[i], readable) == Some(false) && !s.front.closed
    requires s.front.shared.Some?
    ensures var t := DoorStep(w, s, i, readable, starts, adds, arrives);
            |t.ops| == |s.ops| && t.ops[i].phase == if adds && arrives then Attached else Releasing
  {
    var t := Put(s.(queue := GivePort(s.queue, s.ops[i].lease)), i, s.ops[i].(lease := None));
    JoinIsDecided(w, t, i, readable, adds, arrives);
  }

  /** One behind which a client is to be started. */
  lemma TheFirstDoor(w: World, s: State, i: nat, readable: bool, starts: bool, adds: bool, arrives: bool)
    requires i < |s.ops| && DoorKnown(w, s.ops[i], readable) == Some(false) && !s.front.closed
    requires s.front.shared.None?
    ensures var t := DoorStep(w, s, i, readable, starts, adds, arrives);
            |t.ops| == |s.ops| && t.ops[i].phase in {Attached, Returning, Releasing} &&
            (t.ops[i].phase == Attached <==>
               adds && arrives && starts && (s.ops[i].kind == Probe || CanTake(w, s.queue)))
  {
    var op := s.ops[i];
    if starts && (op.kind == Probe || CanTake(w, s.queue)) {
      var claim := if op.kind == Probe then Claim(s.queue, op.lease) else TakePort(w, s.queue, i);
      JoinIsDecided(w, StartShared(w, s, i, claim), i, readable, adds, arrives);
    }
  }

  /** And exactly when: nothing is let in that is not known to be public, nothing once the pool is closed, and nothing
      whose start, add or wait does not work out. */
  lemma TheDoorIsDecided(w: World, s: State, i: nat, readable: bool, starts: bool, adds: bool, arrives: bool)
    requires i < |s.ops| && s.ops[i].phase == AtDoor
    ensures var t, op := Apply(w, s, Door(i, readable, starts, adds, arrives)), s.ops[i];
            |t.ops| == |s.ops| && t.ops[i].phase in {Attached, Returning, Releasing} &&
            (t.ops[i].phase == Attached <==>
               !w.private(op.source.hash) && (if op.kind == Probe then readable else op.source.File?) &&
               !s.front.closed && adds && arrives &&
               (s.front.shared.Some? || (starts && (op.kind == Probe || CanTake(w, s.queue)))))
  {
    if DoorKnown(w, s.ops[i], readable) == Some(false) && !s.front.closed {
      if s.front.shared.Some? {
        TheOpenDoor(w, s, i, readable, starts, adds, arrives);
      } else {
        TheFirstDoor(w, s, i, readable, starts, adds, arrives);
      }
    }
  }

  /** Then it is attached there, on the shared client that is up already or on one that starts on the probe's port. */
  lemma APublicProbeJoinsTheShared(w: World, done: seq<Event>, src: Source, later: seq<Event>, a: bool, b: bool)
    requires ProperWorld(w) && Routed(w) && w.dht && src.Magnet? && src.trackers && !w.private(src.hash)
    requires Welcome(w, done, src) && LeftToItself(later, |After(w, done).ops|)
    requires OksOf(later, |After(w, done).ops|) == [true, true] + [true] + [a, b]
    requires !After(w, Called(w, done, src) + later).front.closed
    ensures var i := |After(w, done).ops|;
            var s := After(w, Called(w, done, src) + later + [Door(i, true, true, true, true)]);
            i < |s.ops| && s.ops[i].source == src && IsAt(s.ops[i], Attached) &&
            s.front.shared.Some? && src.hash in s.front.shared.value.torrents
  {
    var i := |After(w, done).ops|;
    APublicProbeComesToTheDoor(w, done, src, later, a, b);
    var events := Called(w, done, src) + later;
    OneMoreEvent(w, events, Door(i, true, true, true, true));
    TheDoorLetsIn(w, After(w, events), i, true);
  }

  /** A public .torrent goes straight to the door, and in. */
  lemma APublicTorrentJoinsTheShared(w: World, done: seq<Event>, src: Source, readable: bool)
    requires Routed(w) && src.File? && !w.private(src.hash) && Welcome(w, done, src)
    ensures var i := |After(w, done).ops|;
            var s := After(w, done + [Attach(src)] + [Door(i, readable, true, true, true)]);
            i < |s.ops| && s.ops[i].source == src && IsAt(s.ops[i], Attached) &&
            s.front.shared.Some? && src.hash in s.front.shared.value.torrents
  {
    var i := |After(w, done).ops|;
    WayIsDecided(w, src);
    assert w.way(src) == WayFor(w, src);
    OneMoreEvent(w, done, Attach(src));
    OneMoreEvent(w, done + [Attach(src)], Door(i, readable, true, true, true));
    TheDoorLetsIn(w, After(w, done + [Attach(src)]), i, readable);
  }

  // ---- refusals, and letting go ----

  lemma ThreeSteps(w: World, op: Op, a: bool, b: bool, c: bool)
    ensures Followed(op, [a, b, c], OwnOf(w)) == Own(w, Own(w, Own(w, op, a), b), c)
  {
    assert [a, b, c] == [a, b] + [c];
    StepsInTwo(w, op, [a, b], [c]);
    TwoSteps(w, op, a, b);
    OneStep(w, Own(w, Own(w, op, a), b), c);
  }

  /** Metadata that says private, on a client with DHT: the torrent is dropped, its pieces go, the add has failed. */
  lemma IsThrownOut(w: World, op: Op, a: bool, b: bool)
    requires op.phase == Waiting && op.client.Some? && op.client.value.dht && op.source.Magnet?
    requires w.private(op.source.hash) && op.client.value.torrents == {op.source.hash}
    ensures var out := Own(w, Own(w, Own(w, op, true), a), b);
            IsOn(out, AddFailed, true, {}) && out.kind == op.kind && out.source == op.source
  {
    var refusing := Own(w, op, true);
    assert IsOn(refusing, Refusing, true, {op.source.hash});
    var wiping := Own(w, refusing, a);
    assert IsOn(wiping, Wiping, true, {});
  }

  /** An attach whose add failed closes its client, gives back its port and lets go of the torrent. */
  lemma FailsForGood(w: World, op: Op, a: bool, b: bool, c: bool)
    requires op.phase == AddFailed && op.kind != Probe && op.client.Some?
    ensures IsAt(Own(w, Own(w, Own(w, op, a), b), c), Done)
  {
    Closes(w, op, a);
    Releases(w, Own(w, op, a), b);
    Releases(w, Own(w, Own(w, op, a), b), c);
  }

  lemma Closes(w: World, op: Op, ok: bool)
    requires op.phase == AddFailed && op.kind != Probe && op.client.Some?
    ensures IsAt(Own(w, op, ok), Returning)
  {
  }

  /** The last steps of every attach: its port, its pieces, its hold. */
  lemma Releases(w: World, op: Op, ok: bool)
    requires op.client.None?
    ensures op.phase == Returning || op.phase == Discarding ==> IsAt(Own(w, op, ok), Releasing)
    ensures op.phase == ReturningOwn || op.phase == Dropping ==> IsAt(Own(w, op, ok), Discarding)
    ensures op.phase == Releasing ==> IsAt(Own(w, op, ok), Done)
  {
  }

  /** A magnet without trackers that turns out private is refused, and leaves nothing behind. */
  lemma ABlindPrivateMagnetIsRefused(
    w: World, done: seq<Event>, src: Source, later: seq<Event>, a: bool, b: bool, c: bool, d: bool, e: bool)
    requires Routed(w) && w.dht && src.Magnet? && !src.trackers && w.private(src.hash) && Welcome(w, done, src)
    requires LeftToItself(later, |After(w, done).ops|)
    requires OksOf(later, |After(w, done).ops|) == [true, true] + [true, a, b] + [c, d, e]
    ensures var s, i := After(w, Called(w, done, src) + later), |After(w, done).ops|;
            i < |s.ops| && s.ops[i].source == src && IsAt(s.ops[i], Done)
  {
    var i := |After(w, done).ops|;
    WayIsDecided(w, src);
    assert w.way(src) == WayFor(w, src);
    CalledIsStarting(w, done, src);
    ComesTo(w, done, src, later);
    SourceStays(w, done, src, later);
    var op := Sight(After(w, Called(w, done, src)).ops[i]);
    StepsInTwo(w, op, [true, true] + [true, a, b], [c, d, e]);
    StepsInTwo(w, op, [true, true], [true, a, b]);
    TwoSteps(w, op, true, true);
    StartsAndAdds(w, op);
    var added := Own(w, Own(w, op, true), true);
    ThreeSteps(w, added, true, a, b);
    IsThrownOut(w, added, a, b);
    var out := Own(w, Own(w, Own(w, added, true), a), b);
    ThreeSteps(w, out, c, d, e);
    FailsForGood(w, out, c, d, e);
  }

  /** Own with a client that comes up, and a torrent that is added, as far as the steps given go. */
  lemma FailsAt(w: World, op: Op, src: Source, pre: seq<bool>)
    requires IsFresh(w, op, src) && pre in {[], [true], [true, true]}
    requires w.way(src).Alone? && !(Privacy(w, src) == Some(true) && DhtOf(w, op))
    ensures var failed := Followed(op, pre + [false], OwnOf(w));
            if pre == [] then IsAt(failed, Returning)
            else failed.phase == AddFailed && failed.kind == Direct && failed.client.Some?
  {
    StepsInTwo(w, op, pre, [false]);
    OneStep(w, Followed(op, pre, OwnOf(w)), false);
    if pre == [true] {
      OneStep(w, op, true);
      assert IsOn(Own(w, op, true), Adding, DhtOf(w, op), {}) && Own(w, op, true).kind == Direct;
    } else if pre == [true, true] {
      TwoSteps(w, op, true, true);
      StartsAndAdds(w, op);
    }
  }

  /** An attach to a client of its own whose start, add or wait does not work out comes to its end, with nothing left
      of it. */
  lemma AFailureEndsIt(w: World, done: seq<Event>, src: Source, later: seq<Event>, pre: seq<bool>, rest: seq<bool>)
    requires Routed(w) && w.way(src).Alone? && Welcome(w, done, src) && LeftToItself(later, |After(w, done).ops|)
    requires pre in {[], [true], [true, true]} && |rest| == if pre == [] then 2 else 3
    requires OksOf(later, |After(w, done).ops|) == pre + [false] + rest
    ensures var s, i := After(w, Called(w, done, src) + later), |After(w, done).ops|;
            i < |s.ops| && s.ops[i].source == src && IsAt(s.ops[i], Done)
  {
    var i := |After(w, done).ops|;
    WayIsDecided(w, src);
    assert w.way(src) == WayFor(w, src);
    CalledIsStarting(w, done, src);
    ComesTo(w, done, src, later);
    SourceStays(w, done, src, later);
    var op := Sight(After(w, Called(w, done, src)).ops[i]);
    StepsInTwo(w, op, pre + [false], rest);
    FailsAt(w, op, src, pre);
    ItEnds(w, Followed(op, pre + [false], OwnOf(w)), rest);
  }

  lemma ItEnds(w: World, op: Op, rest: seq<bool>)
    requires if |rest| == 2 then IsAt(op, Returning)
             else |rest| == 3 && op.phase == AddFailed && op.kind == Direct && op.client.Some?
    ensures IsAt(Followed(op, rest, OwnOf(w)), Done)
  {
    if |rest| == 2 {
      assert rest == [rest[0], rest[1]];
      TwoSteps(w, op, rest[0], rest[1]);
      Releases(w, op, rest[0]);
      Releases(w, Own(w, op, rest[0]), rest[1]);
    } else {
      assert rest == [rest[0], rest[1], rest[2]];
      ThreeSteps(w, op, rest[0], rest[1], rest[2]);
      FailsForGood(w, op, rest[0], rest[1], rest[2]);
    }
  }

  lemma OneOrTheOther(w: World, events: seq<Event>)
    requires ProperWorld(w)
    ensures After(w, events).front.shared.Some? ==> !After(w, events).front.closing.ClosingClient?
  {
    EveryRunKeeps(w, events);
  }

  lemma DropIsItsOwn(w: World, s: State, i: nat, ok: bool)
    requires i < |s.ops| && s.ops[i].phase == Dropping
    ensures Apply(w, s, Step(i, ok)).front == DropShared(s.front, s.ops[i].source.hash)
  {
  }

  lemma DroppedFrom(f: Front, h: Hash)
    requires f.shared.Some? ==> !f.closing.ClosingClient?
    ensures var t := DropShared(f, h);
            (f.shared.Some? <==> t.shared.Some?) && (f.closing.ClosingClient? <==> t.closing.ClosingClient?) &&
            (f.shared.Some? ==> t.shared.value.torrents == f.shared.value.torrents - {h}) &&
            (f.closing.ClosingClient? ==> t.closing.client.torrents == f.closing.client.torrents - {h})
  {
  }

  /** Letting go of a torrent in the shared client takes it, and no other, out of the client it is in, which may be
      the one that Close is taking down. */
  lemma ADropTakesItOut(w: World, done: seq<Event>, i: nat, ok: bool)
    requires ProperWorld(w) && i < |After(w, done).ops| && After(w, done).ops[i].phase == Dropping
    ensures var s, t, h := After(w, done), After(w, done + [Step(i, ok)]), After(w, done).ops[i].source.hash;
            (s.front.shared.Some? <==> t.front.shared.Some?) &&
            (s.front.closing.ClosingClient? <==> t.front.closing.ClosingClient?) &&
            (s.front.shared.Some? ==> t.front.shared.value.torrents == s.front.shared.value.torrents - {h}) &&
            (s.front.closing.ClosingClient? ==>
               t.front.closing.client.torrents == s.front.closing.client.torrents - {h})
  {
    OneOrTheOther(w, done);
    OneMoreEvent(w, done, Step(i, ok));
    DropIsItsOwn(w, After(w, done), i, ok);
    DroppedFrom(After(w, done).front, After(w, done).ops[i].source.hash);
  }

  /** What was asked for never changes. */
  lemma SourceStays(w: World, done: seq<Event>, src: Source, later: seq<Event>)
    requires Welcome(w, done, src) && (w.way(src).Alone? || w.way(src).Probing?)
    requires LeftToItself(later, |After(w, done).ops|)
    ensures |After(w, done).ops| < |After(w, Called(w, done, src) + later).ops|
    ensures After(w, Called(w, done, src) + later).ops[|After(w, done).ops|].source == src
  {
    CalledIsStarting(w, done, src);
    ComesTo(w, done, src, later);
    var i := |After(w, done).ops|;
    OwnStepsKeepTheSource(w, Sight(After(w, Called(w, done, src)).ops[i]), OksOf(later, i));
  }

  lemma OwnStepKeepsTheSource(w: World, op: Op, ok: bool)
    ensures Own(w, op, ok).source == op.source
  {
    var s := Init(w).(ops := [op]);
    StepMovesOn(w, s, 0, ok);
  }

  lemma {:induction false} OwnStepsKeepTheSource(w: World, op: Op, oks: seq<bool>)
    ensures Followed(op, oks, OwnOf(w)).source == op.source
    decreases |oks|
  {
    if oks != [] {
      OwnStepKeepsTheSource(w, op, oks[0]);
      OwnStepsKeepTheSource(w, Own(w, op, oks[0]), oks[1..]);
    }
  }

  /** A detach always comes to an end: five steps where the client is the attachment's own, and three where it is
      the shared one, and the attach is over, its client gone. */
  lemma ADetachFinishes(w: World, done: seq<Event>, i: nat, later: seq<Event>, a: bool, b: bool, c: bool, d: seq<bool>)
    requires i < |After(w, done).ops| && After(w, done).ops[i].phase == Attached && LeftToItself(later, i)
    requires |d| == (if After(w, done).ops[i].client.Some? then 2 else 0) && OksOf(later, i) == d + [a, b, c]
    ensures var s := After(w, done + [Detach(i)] + later);
            i < |s.ops| && IsAt(s.ops[i], Done)
  {
    OneMoreEvent(w, done, Detach(i));
    var s := After(w, done + [Detach(i)]);
    GoesByItsOwnSteps(w, s, later, i);
    ThenAfter(w, done + [Detach(i)], later);
    var op := Sight(s.ops[i]);
    StepsInTwo(w, op, d, [a, b, c]);
    if After(w, done).ops[i].client.Some? {
      assert d == [d[0], d[1]];
      TwoSteps(w, op, d[0], d[1]);
      ClosesItsOwn(w, op, d[0], d[1]);
    }
    var last := Followed(op, d, OwnOf(w));
    ThreeSteps(w, last, a, b, c);
    LetsGo(w, last, a, b, c);
  }

  lemma ClosesItsOwn(w: World, op: Op, a: bool, b: bool)
    requires op.phase == Retiring && op.client.Some?
    ensures IsAt(Own(w, Own(w, op, a), b), ReturningOwn)
  {
    var closing := Own(w, op, a);
    assert closing.phase == ClosingOwn;
  }

  lemma LetsGo(w: World, op: Op, a: bool, b: bool, c: bool)
    requires IsAt(op, ReturningOwn) || IsAt(op, Dropping)
    ensures IsAt(Own(w, Own(w, Own(w, op, a), b), c), Done)
  {
    Releases(w, op, a);
    Releases(w, Own(w, op, a), b);
    Releases(w, Own(w, Own(w, op, a), b), c);
  }

  // ---- the port a client is on, where it is not the set's to give ----

  /** The one port every client asks for where there is no set of them: the one pinned, or none in particular. */
  function OnlyPort(w: World): int { if w.ports.Pinned? then w.ports.port else 0 }

  predicate AskedFor(w: World, c: Option<Client>, lease: Option<int>) {
    lease.None? && (c.Some? ==> c.value.port == OnlyPort(w))
  }

  function ClosingOf(c: Closing): Option<Client> { if c.ClosingClient? then Some(c.client) else None }

  ghost predicate AllAskedFor(w: World, s: State) {
    (forall i :: 0 <= i < |s.ops| ==> AskedFor(w, s.ops[i].client, s.ops[i].lease)) &&
    AskedFor(w, s.front.shared, s.front.lease) && AskedFor(w, ClosingOf(s.front.closing), ClosingLease(s.front.closing))
  }

  lemma LocalStepAsks(w: World, op: Op, ok: bool)
    requires !w.ports.Managed? && AskedFor(w, op.client, op.lease)
    ensures AskedFor(w, LocalStep(w, op, ok).client, LocalStep(w, op, ok).lease)
  {
  }

  lemma StepAsks(w: World, s: State, i: nat, ok: bool)
    requires !w.ports.Managed? && AllAskedFor(w, s) && i < |s.ops|
    ensures AllAskedFor(w, OpStep(w, s, i, ok))
  {
    StepIsLocal(w, s, i, ok);
    var t := OpStep(w, s, i, ok);
    assert AskedFor(w, s.ops[i].client, s.ops[i].lease);
    OwnStepAsks(w, s, i, ok);
    FrontAsks(w, s, i, ok);
    forall k | 0 <= k < |t.ops| ensures AskedFor(w, t.ops[k].client, t.ops[k].lease) {
      if k != i { assert t.ops[k] == s.ops[k] && AskedFor(w, s.ops[k].client, s.ops[k].lease); }
    }
  }

  lemma OwnStepAsks(w: World, s: State, i: nat, ok: bool)
    requires !w.ports.Managed? && i < |s.ops| && AskedFor(w, s.ops[i].client, s.ops[i].lease)
    ensures i < |OpStep(w, s, i, ok).ops|
    ensures AskedFor(w, OpStep(w, s, i, ok).ops[i].client, OpStep(w, s, i, ok).ops[i].lease)
  {
    StepIsLocal(w, s, i, ok);
    if TouchesOnlyItself(s.ops[i].phase) {
      OwnStepIsLocal(w, s, i, ok);
      LocalStepAsks(w, s.ops[i], ok);
    }
  }

  lemma FrontAsks(w: World, s: State, i: nat, ok: bool)
    requires i < |s.ops|
    requires AskedFor(w, s.front.shared, s.front.lease)
    requires AskedFor(w, ClosingOf(s.front.closing), ClosingLease(s.front.closing))
    ensures var f := OpStep(w, s, i, ok).front;
            AskedFor(w, f.shared, f.lease) && AskedFor(w, ClosingOf(f.closing), ClosingLease(f.closing))
  {
  }

  lemma JoinAsks(w: World, s: State, i: nat, readable: bool, adds: bool, arrives: bool)
    requires i < |s.ops| && s.front.shared.Some? && AskedFor(w, s.front.shared, s.front.lease)
    ensures var t := JoinShared(w, s, i, readable, adds, arrives);
            AskedFor(w, t.front.shared, t.front.lease) && t.front.closing == s.front.closing &&
            t.ops[i].lease == s.ops[i].lease
  {
  }

  /** What the door leaves of the attach and of the front is as asked for. */
  ghost predicate LeavesAsked(w: World, s: State, t: State, i: nat) {
    i < |t.ops| && t.ops[i].lease.None? && AskedFor(w, t.front.shared, t.front.lease) &&
    t.front.closing == s.front.closing
  }

  lemma OpenDoorAsks(w: World, s: State, i: nat, readable: bool, starts: bool, adds: bool, arrives: bool)
    requires i < |s.ops| && s.ops[i].lease.None? && AskedFor(w, s.front.shared, s.front.lease) && s.front.shared.Some?
    ensures LeavesAsked(w, s, DoorStep(w, s, i, readable, starts, adds, arrives), i)
  {
    JoinAsks(w, Put(s.(queue := GivePort(s.queue, s.ops[i].lease)), i, s.ops[i].(lease := None)), i,
             readable, adds, arrives);
  }

  lemma FirstDoorAsks(w: World, s: State, i: nat, readable: bool, starts: bool, adds: bool, arrives: bool)
    requires !w.ports.Managed? && i < |s.ops| && s.ops[i].lease.None?
    requires AskedFor(w, s.front.shared, s.front.lease) && s.front.shared.None?
    ensures LeavesAsked(w, s, DoorStep(w, s, i, readable, starts, adds, arrives), i)
  {
    var claim := if s.ops[i].kind == Probe then Claim(s.queue, s.ops[i].lease) else TakePort(w, s.queue, i);
    JoinAsks(w, StartShared(w, s, i, claim), i, readable, adds, arrives);
  }

  lemma DoorAsks(w: World, s: State, i: nat, readable: bool, starts: bool, adds: bool, arrives: bool)
    requires !w.ports.Managed? && AllAskedFor(w, s) && i < |s.ops|
    ensures AllAskedFor(w, DoorStep(w, s, i, readable, starts, adds, arrives))
  {
    assert AskedFor(w, s.ops[i].client, s.ops[i].lease);
    var t := DoorStep(w, s, i, readable, starts, adds, arrives);
    assert LeavesAsked(w, s, t, i) by {
      if s.front.shared.Some? {
        OpenDoorAsks(w, s, i, readable, starts, adds, arrives);
      } else {
        FirstDoorAsks(w, s, i, readable, starts, adds, arrives);
      }
    }
    DoorOutcome(w, s, i, readable, starts, adds, arrives);
  }

  lemma EventAsks(w: World, s: State, e: Event)
    requires !w.ports.Managed? && AllAskedFor(w, s)
    ensures AllAskedFor(w, Apply(w, s, e))
  {
    if e.Step? && e.i < |s.ops| {
      StepAsks(w, s, e.i, e.ok);
    } else if e.Door? && e.i < |s.ops| && s.ops[e.i].phase == AtDoor {
      DoorAsks(w, s, e.i, e.readable, e.starts, e.adds, e.arrives);
    } else if e.Arrive? && e.i < |s.ops| && Receives(s.ops[e.i].client) {
      assert AskedFor(w, s.ops[e.i].client, s.ops[e.i].lease);
    }
  }

  /** Over every run without a port set: each client, the shared one and the closing one included, asks for the port
      the configuration pins, or for none in particular, and nobody holds a lease. */
  lemma {:induction false} WithoutASetPortsAreAsConfigured(w: World, events: seq<Event>)
    requires !w.ports.Managed?
    ensures AllAskedFor(w, After(w, events))
  {
    if events != [] {
      var front := events[..|events| - 1];
      assert front + [events[|events| - 1]] == events;
      WithoutASetPortsAreAsConfigured(w, front);
      OneMoreEvent(w, front, events[|events| - 1]);
      EventAsks(w, After(w, front), events[|events| - 1]);
    }
  }
}
