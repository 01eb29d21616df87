/** The traffic ledger of the pool: what Downloaded reports, over every run (internal/swarm/pool.go). */
module PoolLedger {
  import opened Paths
  import opened PoolModel
  import opened PoolInvariant
  import opened PoolSafety
  import opened PoolTheorems

  /** The received bytes of the clients listed in alone, of the first n attaches. */
  function AloneBytes(ops: seq<Op>, alone: map<Hash, nat>, n: nat): nat
    requires n <= |ops|
  {
    if n == 0 then 0
    else
      var op := ops[n - 1];
      var mine := op.source.hash in alone && alone[op.source.hash] == n - 1;
      AloneBytes(ops, alone, n - 1) + if mine then ReceivedBy(op) else 0
  }

  /** Pool.Downloaded. */
  function Downloaded(s: State): nat {
    s.books.retired + SharedBytes(s.front) + AloneBytes(s.ops, s.alone, |s.ops|)
  }

  /** Bytes on a client the pool is watching, and on one it is not watching yet. */
  function Watched(op: Op): nat { if Registered(op) then ReceivedBy(op) else 0 }

  function Unwatched(op: Op): nat { if Registered(op) then 0 else Unfolded(op) }

  lemma {:induction false} AloneIsWatched(ops: seq<Op>, alone: map<Hash, nat>, n: nat)
    requires AloneOk(ops, alone) && n <= |ops|
    ensures AloneBytes(ops, alone, n) == Sum(ops[..n], Watched)
  {
    if n > 0 {
      AloneIsWatched(ops, alone, n - 1);
      assert ops[..n][..n - 1] == ops[..n - 1];
      var op := ops[n - 1];
      assert Registered(op) <==> op.source.hash in alone && alone[op.source.hash] == n - 1;
    }
  }

  lemma FigureOf(s: State)
    requires AloneOk(s.ops, s.alone)
    ensures Downloaded(s) == s.books.retired + SharedBytes(s.front) + Sum(s.ops, Watched)
  {
    AloneIsWatched(s.ops, s.alone, |s.ops|);
    assert s.ops[..|s.ops|] == s.ops;
  }

  lemma {:induction false} WatchedAndNot(w: World, ops: seq<Op>)
    requires OpsOk(w, ops)
    ensures Sum(ops, Unfolded) == Sum(ops, Watched) + Sum(ops, Unwatched)
  {
    if ops != [] {
      WatchedAndNot(w, ops[..|ops| - 1]);
      assert OpOk(w, ops[|ops| - 1]);
    }
  }

  /** Every byte that ever arrived at any client is in Downloaded exactly once, but for three kinds that are in
      it not at all: those on a client whose attach is still to be registered or settled, those on one whose
      attach failed, and those that came after a client's figure was taken, while it was closing. */
  lemma EveryByteIsCountedOnce(w: World, events: seq<Event>)
    requires ProperWorld(w)
    ensures var s := After(w, events);
            s.books.arrived == Downloaded(s) + Sum(s.ops, Unwatched) + s.books.lost + s.books.late
  {
    EveryRunKeeps(w, events);
    var s := After(w, events);
    FigureOf(s);
    WatchedAndNot(w, s.ops);
  }

  /** What an event adds to the figure: bytes arriving where the pool is watching, and all a client has at the
      moment it is registered or, as a probe, handed in. */
  function Gain(s: State, e: Event): nat {
    match e
    case Step(i, _) =>
      if i < |s.ops| && (s.ops[i].phase in {Registering, ProbePublic} ||
                         (s.ops[i].phase == AddFailed && s.ops[i].kind == Probe))
      then ReceivedBy(s.ops[i]) else 0
    case Arrive(i, n) => if i < |s.ops| && Registered(s.ops[i]) && Receives(s.ops[i].client) then n else 0
    case ArriveShared(n) => if Receives(s.front.shared) then n else 0
    case _ => 0
  }

  /** The figure after a step of attach i, once the sums are set aside. */
  ghost predicate Gains(s: State, t: State, i: nat, gain: nat) {
    SharedBytes(t.front) == SharedBytes(s.front) && i < |s.ops| == |t.ops| &&
    t.books.retired + Watched(t.ops[i]) == s.books.retired + Watched(s.ops[i]) + gain
  }

  lemma LocalGains(w: World, s: State, i: nat, ok: bool)
    requires i < |s.ops| && OpOk(w, s.ops[i]) && TouchesOnlyItself(s.ops[i].phase)
    ensures Gains(s, OpStep(w, s, i, ok), i, 0) && Gain(s, Step(i, ok)) == 0
  {
    LocalStepIsAlike(w, s.ops[i], ok);
  }

  lemma StepGains(w: World, s: State, i: nat, ok: bool)
    requires i < |s.ops| && OpOk(w, s.ops[i]) && FrontOk(w, s.front)
    ensures Gains(s, OpStep(w, s, i, ok), i, Gain(s, Step(i, ok)))
  {
    if TouchesOnlyItself(s.ops[i].phase) {
      LocalGains(w, s, i, ok);
    } else {
      DropKeepsFront(w, s.front, s.ops[i].source.hash);
    }
  }

  lemma JoinGains(w: World, s: State, i: nat, readable: bool, adds: bool, arrives: bool)
    requires i < |s.ops| && s.ops[i].client.None? && s.front.shared.Some?
    ensures var t := JoinShared(w, s, i, readable, adds, arrives);
            t.books == s.books && SharedBytes(t.front) == SharedBytes(s.front) && |t.ops| == |s.ops| &&
            Watched(t.ops[i]) == 0
  {
  }

  lemma DoorGains(w: World, s: State, i: nat, readable: bool, starts: bool, adds: bool, arrives: bool)
    requires i < |s.ops| && s.ops[i].phase == AtDoor && s.ops[i].client.None?
    ensures var t := DoorStep(w, s, i, readable, starts, adds, arrives);
            t.books == s.books && SharedBytes(t.front) == SharedBytes(s.front) && |t.ops| == |s.ops| &&
            Watched(t.ops[i]) == 0
  {
    var op := s.ops[i];
    if s.front.shared.Some? {
      JoinGains(w, Put(s.(queue := GivePort(s.queue, op.lease)), i, op.(lease := None)), i, readable, adds, arrives);
    } else if op.kind == Probe || CanTake(w, s.queue) {
      var claim := if op.kind == Probe then Claim(s.queue, op.lease) else TakePort(w, s.queue, i);
      JoinGains(w, StartShared(w, s, i, claim), i, readable, adds, arrives);
    }
  }

  /** What replacing one attach does to the figure. */
  lemma FigureWithOneReplaced(s: State, t: State, i: nat, gain: nat)
    requires AloneOk(s.ops, s.alone) && AloneOk(t.ops, t.alone)
    requires i < |s.ops| == |t.ops| && t.ops == s.ops[i := t.ops[i]]
    requires t.books.retired + SharedBytes(t.front) + Watched(t.ops[i]) ==
             s.books.retired + SharedBytes(s.front) + Watched(s.ops[i]) + gain
    ensures Downloaded(t) == Downloaded(s) + gain
  {
    FigureOf(s);
    FigureOf(t);
    SumOfUpdate(s.ops, i, t.ops[i], Watched);
  }

  lemma FigureWithOneMore(s: State, t: State, op: Op)
    requires AloneOk(s.ops, s.alone) && AloneOk(t.ops, t.alone) && t.ops == s.ops + [op] && Watched(op) == 0
    requires t.books == s.books && t.front == s.front
    ensures Downloaded(t) == Downloaded(s)
  {
    FigureOf(s);
    FigureOf(t);
    SumOfOneMore(s.ops, op, Watched);
  }

  lemma FigureAfterReserve(w: World, s: State, src: Source)
    requires Inv(w, s)
    ensures Downloaded(Reserve(w, s, src)) == Downloaded(s)
  {
    if !s.front.closed && src.hash !in s.held {
      ReserveKeeps(w, s, src);
      NewOpIsQuiet(w, src);
      FigureWithOneMore(s, Reserve(w, s, src), NewOp(w, src));
    }
  }

  lemma FigureWithTheSame(w: World, s: State, t: State, gain: nat)
    requires Inv(w, s) && Inv(w, t) && t.ops == s.ops
    requires t.books.retired + SharedBytes(t.front) == s.books.retired + SharedBytes(s.front) + gain
    ensures Downloaded(t) == Downloaded(s) + gain
  {
    FigureOf(s);
    FigureOf(t);
  }

  lemma FigureAfterStep(w: World, s: State, i: nat, ok: bool)
    requires Inv(w, s) && i < |s.ops|
    ensures Downloaded(OpStep(w, s, i, ok)) == Downloaded(s) + Gain(s, Step(i, ok))
  {
    OpStepKeeps(w, s, i, ok);
    assert OpOk(w, s.ops[i]);
    StepGains(w, s, i, ok);
    StepIsLocal(w, s, i, ok);
    FigureWithOneReplaced(s, OpStep(w, s, i, ok), i, Gain(s, Step(i, ok)));
  }

  lemma DoorKeepsAlone(w: World, s: State, i: nat, readable: bool, starts: bool, adds: bool, arrives: bool)
    requires AloneOk(s.ops, s.alone) && i < |s.ops| && s.ops[i].client.None?
    ensures var t := DoorStep(w, s, i, readable, starts, adds, arrives);
            AloneOk(t.ops, t.alone)
  {
    DoorOutcome(w, s, i, readable, starts, adds, arrives);
    SetOpKeepsAlone(s.ops, s.alone, i, DoorStep(w, s, i, readable, starts, adds, arrives).ops[i]);
  }

  lemma FigureAfterDoor(w: World, s: State, i: nat, readable: bool, starts: bool, adds: bool, arrives: bool)
    requires AloneOk(s.ops, s.alone) && i < |s.ops| && s.ops[i].phase == AtDoor && s.ops[i].client.None?
    requires var t := DoorStep(w, s, i, readable, starts, adds, arrives); AloneOk(t.ops, t.alone)
    ensures Downloaded(DoorStep(w, s, i, readable, starts, adds, arrives)) == Downloaded(s)
  {
    DoorGains(w, s, i, readable, starts, adds, arrives);
    DoorOutcome(w, s, i, readable, starts, adds, arrives);
    FigureWithOneReplaced(s, DoorStep(w, s, i, readable, starts, adds, arrives), i, 0);
  }

  lemma FigureAfterDetach(w: World, s: State, i: nat)
    requires Inv(w, s) && i < |s.ops|
    ensures Downloaded(DetachStep(s, i)) == Downloaded(s)
  {
    DetachKeeps(w, s, i);
    FigureWithOneReplaced(s, DetachStep(s, i), i, 0);
  }

  lemma FigureAfterArrival(w: World, s: State, i: nat, n: nat)
    requires Inv(w, s) && i < |s.ops| && Receives(s.ops[i].client)
    ensures Downloaded(ArriveAt(s, i, n)) == Downloaded(s) + Gain(s, Arrive(i, n))
  {
    ArriveKeeps(w, s, i, n);
    FigureWithOneReplaced(s, ArriveAt(s, i, n), i, Gain(s, Arrive(i, n)));
  }

  lemma FigureAfterTheRest(w: World, s: State, e: Event)
    requires Inv(w, s) && (e.Close? || e.CloseStep? || e.ArriveShared? || e.ArriveClosing?)
    ensures Downloaded(Apply(w, s, e)) == Downloaded(s) + Gain(s, e)
  {
    ApplyKeeps(w, s, e);
    FigureWithTheSame(w, s, Apply(w, s, e), Gain(s, e));
  }

  /** The figure after an event is the figure before it and what the event adds: a detach and a Close only move
      bytes from a live client into the total of the closed ones. */
  lemma FigureMovesByTheGain(w: World, s: State, e: Event)
    requires Inv(w, s)
    ensures Downloaded(Apply(w, s, e)) == Downloaded(s) + Gain(s, e)
  {
    match e {
      case Attach(src) => FigureAfterReserve(w, s, src);
      case Step(i, ok) => if i < |s.ops| { FigureAfterStep(w, s, i, ok); }
      case Door(i, readable, starts, adds, arrives) =>
        if i < |s.ops| && s.ops[i].phase == AtDoor {
          assert OpOk(w, s.ops[i]);
          DoorKeepsAlone(w, s, i, readable, starts, adds, arrives);
          FigureAfterDoor(w, s, i, readable, starts, adds, arrives);
        }
      case Detach(i) => if i < |s.ops| { FigureAfterDetach(w, s, i); }
      case Arrive(i, n) => if i < |s.ops| && Receives(s.ops[i].client) { FigureAfterArrival(w, s, i, n); }
      case _ => FigureAfterTheRest(w, s, e);
    }
  }

  /** A client takes what is sent to it as long as it has a torrent. */
  predicate Taking(c: Option<Client>) { c.Some? && exists h :: h in c.value.torrents }

  lemma DoorArrives(w: World, s: State, i: nat, readable: bool, starts: bool, adds: bool, arrives: bool)
    requires i < |s.ops|
    ensures DoorStep(w, s, i, readable, starts, adds, arrives).books == s.books
  {
  }

  lemma StepArrives(w: World, s: State, i: nat, ok: bool)
    requires i < |s.ops|
    ensures OpStep(w, s, i, ok).books.arrived == s.books.arrived
  {
  }

  /** What has arrived grows by exactly what is sent to a client that is still taking it, the one Close is taking
      down included. */
  lemma ArrivedGrowsBy(w: World, s: State, e: Event)
    ensures Apply(w, s, e).books.arrived == s.books.arrived +
            match e
            case Arrive(i, n) => if i < |s.ops| && Taking(s.ops[i].client) then n else 0
            case ArriveShared(n) => if Taking(s.front.shared) then n else 0
            case ArriveClosing(n) =>
              if s.front.closing.ClosingClient? && Taking(Some(s.front.closing.client)) then n else 0
            case _ => 0
  {
    match e {
      case Step(i, ok) => if i < |s.ops| { StepArrives(w, s, i, ok); }
      case Door(i, readable, starts, adds, arrives) =>
        if i < |s.ops| { DoorArrives(w, s, i, readable, starts, adds, arrives); }
      case _ =>
    }
  }

  lemma {:induction false} NeverFallsFrom(w: World, s: State, events: seq<Event>)
    requires Inv(w, s)
    ensures Downloaded(s) <= Downloaded(Then(w, s, events))
    decreases |events|
  {
    if events != [] {
      FigureMovesByTheGain(w, s, events[0]);
      ApplyKeeps(w, s, events[0]);
      NeverFallsFrom(w, Apply(w, s, events[0]), events[1..]);
    }
  }

  /** So over any run Downloaded never falls. */
  lemma DownloadedNeverFalls(w: World, done: seq<Event>, later: seq<Event>)
    requires ProperWorld(w)
    ensures Downloaded(After(w, done)) <= Downloaded(After(w, done + later))
  {
    EveryRunKeeps(w, done);
    NeverFallsFrom(w, After(w, done), later);
    ThenAfter(w, done, later);
  }

  // ---- what a failed attach is not billed for ----

  lemma StepLosesIff(w: World, s: State, i: nat, ok: bool)
    requires i < |s.ops|
    ensures OpStep(w, s, i, ok).books.lost != s.books.lost <==>
            s.ops[i].phase == AddFailed && s.ops[i].kind != Probe && ReceivedBy(s.ops[i]) > 0
  {
  }

  lemma DoorLosesNothing(w: World, s: State, e: Event)
    requires Inv(w, s) && e.Door?
    ensures Apply(w, s, e).books == s.books
  {
    if e.i < |s.ops| && s.ops[e.i].phase == AtDoor {
      assert OpOk(w, s.ops[e.i]);
      DoorGains(w, s, e.i, e.readable, e.starts, e.adds, e.arrives);
    }
  }

  /** Bytes drop out of every account exactly when an attach whose add failed, on a client that is not the
      probe, closes a client that had received any. */
  lemma BytesAreLostIff(w: World, s: State, e: Event)
    requires Inv(w, s)
    ensures Apply(w, s, e).books.lost != s.books.lost <==>
            e.Step? && e.i < |s.ops| && s.ops[e.i].phase == AddFailed && s.ops[e.i].kind != Probe &&
            ReceivedBy(s.ops[e.i]) > 0
  {
    if e.Door? {
      DoorLosesNothing(w, s, e);
    } else if e.Step? && e.i < |s.ops| {
      StepLosesIff(w, s, e.i, e.ok);
    }
  }

  /** A pool that has seen one attach, of a magnet without trackers. */
  ghost predicate FirstAt(s: State, phase: Phase, client: Option<Client>, books: Books) {
    s.ops == [Op(Magnet(7, false), phase, Direct, None, client, false)] && s.books == books &&
    s.front.shared.None? && s.alone == map[]
  }

  function Empty(): Option<Client> { Some(Client(true, 0, {}, 0)) }

  function Holding(n: nat): Option<Client> { Some(Client(true, 0, {7}, n)) }

  lemma FirstAttach(w: World)
    requires Routed(w) && w.dht && w.ports == Unmanaged
    ensures FirstAt(Apply(w, Init(w), Attach(Magnet(7, false))), NeedPort, None, Books(0, 0, 0, 0))
  {
  }

  lemma FirstStarts(w: World, s: State)
    requires Routed(w) && w.dht && w.ports == Unmanaged
    requires FirstAt(s, NeedPort, None, Books(0, 0, 0, 0))
    ensures FirstAt(Apply(w, Apply(w, s, Step(0, true)), Step(0, true)), Adding, Empty(), Books(0, 0, 0, 0))
  {
    assert FirstAt(Apply(w, s, Step(0, true)), Starting, None, Books(0, 0, 0, 0));
  }

  lemma FirstIsAdded(w: World, s: State)
    requires FirstAt(s, Adding, Empty(), Books(0, 0, 0, 0))
    ensures FirstAt(Apply(w, s, Step(0, true)), Waiting, Holding(0), Books(0, 0, 0, 0))
  {
    var none: set<Hash> := {};
    assert none + {7} == {7};
  }

  lemma FirstReceives(w: World, s: State)
    requires FirstAt(s, Waiting, Holding(0), Books(0, 0, 0, 0))
    ensures FirstAt(Apply(w, s, Arrive(0, 5)), Waiting, Holding(5), Books(0, 5, 0, 0))
  {
    assert 7 in s.ops[0].client.value.torrents;
  }

  lemma FirstFails(w: World, s: State)
    requires FirstAt(s, Waiting, Holding(5), Books(0, 5, 0, 0))
    ensures FirstAt(Apply(w, Apply(w, s, Step(0, false)), Step(0, false)), Returning, None, Books(0, 5, 5, 0))
  {
    assert FirstAt(Apply(w, s, Step(0, false)), AddFailed, Holding(5), Books(0, 5, 0, 0));
  }

  lemma NothingWatched(s: State)
    requires FirstAt(s, Returning, None, Books(0, 5, 5, 0))
    ensures Downloaded(s) == 0
  {
    assert AloneBytes(s.ops, s.alone, 0) == 0;
    assert AloneBytes(s.ops, s.alone, 1) == 0;
  }

  /** The first four events: the magnet is added and waiting. */
  lemma UpToTheWait(w: World) returns (events: seq<Event>)
    requires Routed(w) && w.dht && w.ports == Unmanaged
    ensures FirstAt(After(w, events), Waiting, Holding(0), Books(0, 0, 0, 0))
  {
    var again := Step(0, true);
    events := [] + [Attach(Magnet(7, false))];
    OneMoreEvent(w, [], Attach(Magnet(7, false)));
    FirstAttach(w);
    OneMoreEvent(w, events, again);
    OneMoreEvent(w, events + [again], again);
    FirstStarts(w, After(w, events));
    FirstIsAdded(w, After(w, events + [again] + [again]));
    OneMoreEvent(w, events + [again] + [again], again);
    events := events + [again] + [again] + [again];
  }

  /** Five bytes arrive for the torrent, its attach is cancelled while it waits, its client is closed, and no
      figure of the pool ever knows of them. */
  lemma AFailedAttachIsNeverBilled(w: World) returns (events: seq<Event>)
    requires Routed(w) && w.dht && w.ports == Unmanaged
    ensures var s := After(w, events);
            |s.ops| == 1 && s.ops[0].client.None? && s.books.arrived == 5 && Downloaded(s) == 0
  {
    var start := UpToTheWait(w);
    var fail := Step(0, false);
    OneMoreEvent(w, start, Arrive(0, 5));
    FirstReceives(w, After(w, start));
    var told := start + [Arrive(0, 5)];
    OneMoreEvent(w, told, fail);
    OneMoreEvent(w, told + [fail], fail);
    FirstFails(w, After(w, told));
    events := told + [fail] + [fail];
    NothingWatched(After(w, events));
  }
}
