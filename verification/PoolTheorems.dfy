/** What the pool promises, for every run: privacy, ports, one hold per torrent, and the traffic ledger. */
module PoolTheorems {
  import opened Paths
  import opened PoolModel
  import opened PoolInvariant
  import opened PoolSafety
  import PortPools
  import PortSets

  // ---- privacy (BEP 27): the doors, whatever the routing ----

  /** The add itself is a door: into any client whatever, a torrent whose flag is in hand never comes exposed, and
      one said to be private never comes at all where DHT is on. */
  lemma AddToIsADoor(w: World, c: Client, h: Hash, known: Option<bool>, ok: bool)
    requires known.Some? ==> known.value == w.private(h)
    ensures var into := AddTo(c, h, known, ok);
            (known == Some(true) && c.dht ==> into.None?) &&
            (into.Some? ==> into.value.dht == c.dht && into.value.torrents == c.torrents + {h} &&
                            forall g :: Exposed(w, into.value, g) ==> Exposed(w, c, g) || (g == h && known.None?))
  {
  }

  /** So is the add as the shared client makes it, whatever let the attach get that far. */
  lemma SharedAddIsADoor(w: World, s: State, i: nat, readable: bool, adds: bool, arrives: bool, h: Hash)
    requires i < |s.ops| && s.front.shared.Some? && DoorKnown(w, s.ops[i], readable).Some?
    ensures var t := JoinShared(w, s, i, readable, adds, arrives);
            t.front.shared.Some? && (Exposed(w, t.front.shared.value, h) ==> Exposed(w, s.front.shared.value, h))
  {
    AddToIsADoor(w, s.front.shared.value, s.ops[i].source.hash, DoorKnown(w, s.ops[i], readable), adds);
  }

  /** attachShared is a door: from any state at all, reached or not, it leaves no private torrent in the shared
      client that was not in it before. */
  lemma AttachSharedIsADoor(w: World, s: State, i: nat, readable: bool, starts: bool, adds: bool, arrives: bool)
    requires i < |s.ops| && (s.front.shared.Some? ==> OnlyPublic(w, s.front.shared.value))
    ensures var t := DoorStep(w, s, i, readable, starts, adds, arrives);
            t.front.shared.Some? ==> OnlyPublic(w, t.front.shared.value)
  {
  }

  /** Whatever happens, in whatever order, and wherever each source was routed: the shared client only ever holds
      torrents that are public, on its way down as well; a private torrent is on a client with DHT only while a
      magnet is between its add and the Drop or Close; and an attached private torrent has a client of its own,
      DHT off. */
  lemma PrivateTorrentsStayOffDht(w: World, events: seq<Event>)
    requires ProperWorld(w)
    ensures var s := After(w, events);
            (s.front.shared.Some? ==> OnlyPublic(w, s.front.shared.value)) &&
            (s.front.closing.ClosingClient? ==> OnlyPublic(w, s.front.closing.client)) &&
            (forall i, h :: 0 <= i < |s.ops| && s.ops[i].client.Some? && Exposed(w, s.ops[i].client.value, h) ==>
               h == s.ops[i].source.hash && InWindow(s.ops[i])) &&
            forall i :: 0 <= i < |s.ops| && s.ops[i].phase == Attached && w.private(s.ops[i].source.hash) ==>
              s.ops[i].client.Some? && !s.ops[i].client.value.dht
  {
    EveryRunKeeps(w, events);
  }

  /** A source that states its flag is refused before it is added, wherever it was routed: no .torrent that says
      private is ever on a client with DHT, not even for a moment. */
  lemma StatedPrivateIsNeverExposed(w: World, events: seq<Event>, i: nat)
    requires ProperWorld(w) && i < |After(w, events).ops|
    requires After(w, events).ops[i].source.File? && After(w, events).ops[i].client.Some?
    ensures !Exposed(w, After(w, events).ops[i].client.value, After(w, events).ops[i].source.hash)
  {
    PrivateTorrentsStayOffDht(w, events);
  }

  // ---- the routing ----

  lemma RouteIsSafe(w: World, src: Source)
    ensures var way := WayFor(w, src);
            (way == Alone(true) ==> w.dht && src.Magnet? && !src.trackers) &&
            (way.Probing? ==> w.dht && src.Magnet? && src.trackers) &&
            (way.ToTheDoor? <==> src.File? && !w.private(src.hash))
  {
  }

  /** As routed, DHT runs on a client of an attach's own only for a magnet without trackers or one whose trackers
      stayed silent, and never where the configuration has it off: so those are all that can ever be exposed. */
  lemma OnlyBlindMagnetsHaveDht(w: World, events: seq<Event>, i: nat)
    requires ProperWorld(w) && Routed(w) && i < |After(w, events).ops|
    requires After(w, events).ops[i].client.Some? && After(w, events).ops[i].client.value.dht
    ensures var op := After(w, events).ops[i];
            w.dht && op.source.Magnet? && (op.kind == Blind <==> op.source.trackers) && op.kind != Probe
  {
    EveryRunKeeps(w, events);
    var op := After(w, events).ops[i];
    assert OpOk(w, op);
    RouteIsSafe(w, op.source);
    assert w.way(op.source) == WayFor(w, op.source);
  }

  // ---- the window ----

  predicate IsExposed(w: World, op: Op) {
    op.client.Some? && Exposed(w, op.client.value, op.source.hash)
  }

  /** The add is behind it, and no probe will start over. */
  predicate PastTheAdd(op: Op) {
    op.kind != Probe && op.phase !in {NeedPort, Starting, Adding}
  }

  /** How many steps of its own an exposed attach is from the Drop or the Close. */
  function Left(w: World, op: Op): nat {
    if !IsExposed(w, op) then 0 else if op.phase == Waiting then 2 else 1
  }

  lemma ExposedIsPastTheAdd(w: World, op: Op)
    requires OpOk(w, op) && IsExposed(w, op)
    ensures PastTheAdd(op) && InWindow(op)
  {
  }

  lemma OwnStepShortensTheWindow(w: World, s: State, i: nat, ok: bool)
    requires i < |s.ops| && OpOk(w, s.ops[i]) && PastTheAdd(s.ops[i])
    ensures var next := OpStep(w, s, i, ok).ops[i];
            PastTheAdd(next) && Left(w, next) <= Left(w, s.ops[i]) &&
            (Left(w, s.ops[i]) > 0 ==> Left(w, next) < Left(w, s.ops[i]))
  {
    if TouchesOnlyItself(s.ops[i].phase) { LocalGoesFurther(w, s, i, ok); }
  }

  lemma OthersLeaveTheWindow(w: World, s: State, e: Event, i: nat)
    requires i < |s.ops| && PastTheAdd(s.ops[i]) && !e.Step? && !e.Door?
    ensures i < |Apply(w, s, e).ops| && PastTheAdd(Apply(w, s, e).ops[i])
    ensures Left(w, Apply(w, s, e).ops[i]) == Left(w, s.ops[i])
  {
  }

  lemma DoorLeavesTheWindow(w: World, s: State, e: Event, i: nat)
    requires i < |s.ops| && PastTheAdd(s.ops[i]) && OpOk(w, s.ops[i]) && e.Door?
    ensures i < |Apply(w, s, e).ops| && PastTheAdd(Apply(w, s, e).ops[i])
    ensures Left(w, Apply(w, s, e).ops[i]) == Left(w, s.ops[i])
  {
    if e.i < |s.ops| && s.ops[e.i].phase == AtDoor {
      DoorOutcome(w, s, e.i, e.readable, e.starts, e.adds, e.arrives);
    }
  }

  lemma StepShortensTheWindow(w: World, s: State, e: Event, i: nat)
    requires i < |s.ops| && PastTheAdd(s.ops[i]) && OpOk(w, s.ops[i]) && e.Step?
    ensures i < |Apply(w, s, e).ops| && PastTheAdd(Apply(w, s, e).ops[i])
    ensures Left(w, Apply(w, s, e).ops[i]) <= Left(w, s.ops[i])
    ensures e.i == i && Left(w, s.ops[i]) > 0 ==> Left(w, Apply(w, s, e).ops[i]) < Left(w, s.ops[i])
  {
    if e.i < |s.ops| { StepIsLocal(w, s, e.i, e.ok); }
    if e.i == i { OwnStepShortensTheWindow(w, s, i, e.ok); }
  }

  lemma EventShortensTheWindow(w: World, s: State, e: Event, i: nat)
    requires Inv(w, s) && i < |s.ops| && PastTheAdd(s.ops[i])
    ensures i < |Apply(w, s, e).ops| && PastTheAdd(Apply(w, s, e).ops[i])
    ensures Left(w, Apply(w, s, e).ops[i]) <= Left(w, s.ops[i])
    ensures e.Step? && e.i == i && Left(w, s.ops[i]) > 0 ==> Left(w, Apply(w, s, e).ops[i]) < Left(w, s.ops[i])
  {
    assert OpOk(w, s.ops[i]);
    if e.Door? {
      DoorLeavesTheWindow(w, s, e, i);
    } else if e.Step? {
      StepShortensTheWindow(w, s, e, i);
    } else {
      OthersLeaveTheWindow(w, s, e, i);
    }
  }

  /** How many of the events are steps of attach i. */
  function StepsOf(events: seq<Event>, i: nat): nat
    decreases |events|
  {
    if events == [] then 0
    else (if events[0].Step? && events[0].i == i then 1 else 0) + StepsOf(events[1..], i)
  }

  lemma {:induction false} WindowRunsOut(w: World, s: State, events: seq<Event>, i: nat)
    requires Inv(w, s) && i < |s.ops| && PastTheAdd(s.ops[i])
    ensures i < |Then(w, s, events).ops| && Left(w, Then(w, s, events).ops[i]) <= Left(w, s.ops[i])
    ensures StepsOf(events, i) >= Left(w, s.ops[i]) ==> Left(w, Then(w, s, events).ops[i]) == 0
    decreases |events|
  {
    if events != [] {
      EventShortensTheWindow(w, s, events[0], i);
      ApplyKeeps(w, s, events[0]);
      WindowRunsOut(w, Apply(w, s, events[0]), events[1..], i);
    }
  }

  /** The window closes with the attach's next two steps, however they turn out and whatever else happens before,
      between and after them: from any reachable state, after any events that hold two steps of it, the torrent
      is off the client with DHT. */
  lemma WindowClosesInTwoSteps(w: World, done: seq<Event>, later: seq<Event>, i: nat)
    requires ProperWorld(w) && i < |After(w, done).ops| && IsExposed(w, After(w, done).ops[i])
    requires StepsOf(later, i) >= 2
    ensures i < |After(w, done + later).ops| && !IsExposed(w, After(w, done + later).ops[i])
  {
    EveryRunKeeps(w, done);
    assert OpOk(w, After(w, done).ops[i]);
    ExposedIsPastTheAdd(w, After(w, done).ops[i]);
    WindowRunsOut(w, After(w, done), later, i);
    ThenAfter(w, done, later);
  }

  lemma ThenAfter(w: World, done: seq<Event>, events: seq<Event>)
    ensures Then(w, After(w, done), events) == After(w, done + events)
  {
    FollowedIsFolded(Init(w), done, events, StepOf(w));
  }

  lemma OneMoreEvent(w: World, events: seq<Event>, e: Event)
    ensures After(w, events + [e]) == Apply(w, After(w, events), e)
  {
    FoldedOneMore(Init(w), events, e, StepOf(w));
  }

  /** addTo returns with a private torrent still on a client with DHT exactly when it was waiting with one there
      and its wait was cut short: an add that is refused, fails, or goes on to read the flag leaves none. */
  lemma ExposedPastTheAddIff(w: World, s: State, i: nat, ok: bool)
    requires Inv(w, s) && i < |s.ops| && s.ops[i].phase in {Adding, Waiting, Refusing, Wiping}
    ensures var next := OpStep(w, s, i, ok).ops[i];
            next.phase in {AddFailed, Registering, ProbePublic} && IsExposed(w, next) <==>
            s.ops[i].phase == Waiting && !ok && IsExposed(w, s.ops[i])
  {
    assert OpOk(w, s.ops[i]);
    AddingIsOk(w, s.ops[i], ok);
  }

  /** The window outlasts addTo itself: cancelled while it waits, addTo returns with the torrent still in the
      client, and only the Close that follows takes it off. */
  lemma WindowOutlastsTheAdd(w: World) returns (events: seq<Event>)
    requires Routed(w) && w.dht && w.ports == Unmanaged && w.private(7)
    ensures var s := After(w, events);
            |s.ops| == 1 && s.ops[0].phase == AddFailed && s.ops[0].client.Some? &&
            Exposed(w, s.ops[0].client.value, 7)
  {
    OneMoreEvent(w, [], Attach(Magnet(7, false)));
    events := [] + [Attach(Magnet(7, false))];
    assert After(w, events).ops == [Op(Magnet(7, false), NeedPort, Direct, None, None, false)];
    OneMoreEvent(w, events, Step(0, true));
    events := events + [Step(0, true)];
    assert After(w, events).ops == [Op(Magnet(7, false), Starting, Direct, None, None, false)];
    OneMoreEvent(w, events, Step(0, true));
    events := events + [Step(0, true)];
    assert After(w, events).ops ==
           [Op(Magnet(7, false), Adding, Direct, None, Some(Client(true, 0, {}, 0)), false)];
    OneMoreEvent(w, events, Step(0, true));
    events := events + [Step(0, true)];
    var none: set<Hash> := {};
    assert none + {7} == {7};
    assert After(w, events).ops ==
           [Op(Magnet(7, false), Waiting, Direct, None, Some(Client(true, 0, {7}, 0)), false)];
    OneMoreEvent(w, events, Step(0, false));
    events := events + [Step(0, false)];
  }

  // ---- ports ----

  function LeasesOf(ops: seq<Op>): seq<int> {
    if ops == [] then []
    else LeasesOf(ops[..|ops| - 1]) + OneOrNone(ops[|ops| - 1].lease)
  }

  function OneOrNone(lease: Option<int>): seq<int> { if lease.Some? then [lease.value] else [] }

  /** Every port that is out: leased to an attach or its client, to the shared client, or to the closing one. */
  function Out(s: State): seq<int> {
    LeasesOf(s.ops) + OneOrNone(s.front.lease) + OneOrNone(ClosingLease(s.front.closing))
  }

  lemma LeaseIsWhereItsPlaceSays(place: map<int, Place>, lease: Option<int>, at: Place, p: int)
    requires Placed(place, lease, at)
    ensures multiset(OneOrNone(lease))[p] == if p in place && place[p] == at then 1 else 0
  {
  }

  lemma TwoLists(a: seq<int>, b: seq<int>, p: int)
    ensures multiset(a + b)[p] == multiset(a)[p] + multiset(b)[p]
  {
  }

  lemma {:induction false} LeasesAreWherePlacesSay(place: map<int, Place>, ops: seq<Op>, n: nat, p: int)
    requires LeasesOk(place, ops) && n <= |ops|
    ensures multiset(LeasesOf(ops[..n]))[p] == if p in place && place[p].ByOp? && place[p].i < n then 1 else 0
  {
    if n > 0 {
      LeasesAreWherePlacesSay(place, ops, n - 1, p);
      assert ops[..n][..n - 1] == ops[..n - 1];
      LeaseIsWhereItsPlaceSays(place, ops[n - 1].lease, ByOp(n - 1), p);
      TwoLists(LeasesOf(ops[..n - 1]), OneOrNone(ops[n - 1].lease), p);
    }
  }

  lemma ThreeLists(a: seq<int>, b: seq<int>, c: seq<int>, p: int)
    ensures multiset(a + b + c)[p] == multiset(a)[p] + multiset(b)[p] + multiset(c)[p]
  {
    assert multiset(a + b + c) == multiset(a) + multiset(b) + multiset(c);
  }

  lemma OutIsWherePlacesSay(w: World, s: State, p: int)
    requires PortsOk(w, s.queue, s.ops, s.front.lease, ClosingLease(s.front.closing))
    ensures multiset(Out(s))[p] == if p in s.queue.place && s.queue.place[p] != InQueue then 1 else 0
  {
    var place := s.queue.place;
    LeasesAreWherePlacesSay(place, s.ops, |s.ops|, p);
    assert s.ops[..|s.ops|] == s.ops;
    LeaseIsWhereItsPlaceSays(place, s.front.lease, ByShared, p);
    LeaseIsWhereItsPlaceSays(place, ClosingLease(s.front.closing), ByClosing, p);
    ThreeLists(LeasesOf(s.ops), OneOrNone(s.front.lease), OneOrNone(ClosingLease(s.front.closing)), p);
  }

  /** In every reachable state the free queue and the ports that are out are together a permutation of the
      configured set: no port is ever lost, handed out twice, or handed back twice. */
  lemma PortsAreConserved(w: World, events: seq<Event>)
    requires ProperWorld(w)
    ensures multiset(After(w, events).queue.free) + multiset(Out(After(w, events))) ==
            if w.ports.Managed? then multiset(w.ports.allowed) else multiset{}
  {
    EveryRunKeeps(w, events);
    var s := After(w, events);
    forall p ensures (multiset(s.queue.free) + multiset(Out(s)))[p] == multiset(Allowed(w))[p] {
      OutIsWherePlacesSay(w, s, p);
      PortPools.CountedOnce(s.queue.free, p);
      PortPools.CountedOnce(Allowed(w), p);
    }
  }

  /** An attach that needs a port of a managed set is turned away exactly when every port of the set is out. */
  lemma APortIsRefusedIff(w: World, events: seq<Event>, i: nat, ok: bool)
    requires ProperWorld(w) && w.ports.Managed?
    requires i < |After(w, events).ops| && After(w, events).ops[i].phase == NeedPort
    ensures var s, s' := After(w, events), Apply(w, After(w, events), Step(i, ok));
            s'.ops[i].phase == (if forall p :: p in w.ports.allowed ==> p in Out(s) then Releasing else Starting)
  {
    var s := After(w, events);
    forall p ensures p in Out(s) <==> p in w.ports.allowed && p !in s.queue.free { OutOrFree(w, events, p); }
    FreeAreOfTheSet(w, events);
    if s.queue.free != [] { OutOrFree(w, events, s.queue.free[0]); }
  }

  lemma FreeAreOfTheSet(w: World, events: seq<Event>)
    requires ProperWorld(w) && w.ports.Managed?
    ensures forall p :: p in After(w, events).queue.free ==> p in w.ports.allowed
  {
    EveryRunKeeps(w, events);
  }

  lemma OutOrFree(w: World, events: seq<Event>, p: int)
    requires ProperWorld(w) && w.ports.Managed?
    ensures p in Out(After(w, events)) <==> p in w.ports.allowed && p !in After(w, events).queue.free
  {
    EveryRunKeeps(w, events);
    var s := After(w, events);
    OutIsWherePlacesSay(w, s, p);
    PortPools.CountedOnce(s.queue.free, p);
    assert p in multiset(Out(s)) <==> p in Out(s);
  }

  /** No two live clients are ever bound to the same port of a managed set, and each is bound to one of its ports. */
  lemma NoTwoClientsOnOnePort(w: World, events: seq<Event>)
    requires ProperWorld(w) && w.ports.Managed?
    ensures var s := After(w, events);
            (forall i, j :: 0 <= i < j < |s.ops| && s.ops[i].client.Some? && s.ops[j].client.Some? ==>
               s.ops[i].client.value.port != s.ops[j].client.value.port) &&
            (forall i :: 0 <= i < |s.ops| && s.ops[i].client.Some? ==>
               s.ops[i].client.value.port in w.ports.allowed &&
               (s.front.shared.Some? ==> s.front.shared.value.port != s.ops[i].client.value.port) &&
               (s.front.closing.ClosingClient? ==> s.front.closing.client.port != s.ops[i].client.value.port)) &&
            (s.front.shared.Some? ==> s.front.shared.value.port in w.ports.allowed) &&
            (s.front.closing.ClosingClient? ==> s.front.closing.client.port in w.ports.allowed)
  {
    EveryRunKeeps(w, events);
    var s := After(w, events);
    forall i | 0 <= i < |s.ops| && s.ops[i].client.Some?
      ensures s.ops[i].client.value.port in s.queue.place && s.queue.place[s.ops[i].client.value.port] == ByOp(i) {
      assert OpOk(w, s.ops[i]);
      assert Placed(s.queue.place, s.ops[i].lease, ByOp(i));
    }
  }

  /** An attach that is over, failed or detached, holds no port; and once every attach is over and the shared
      client is down, the free queue is the configured set in some order. */
  lemma AllPortsComeBack(w: World, events: seq<Event>)
    requires ProperWorld(w)
    ensures var s := After(w, events);
            (forall i :: 0 <= i < |s.ops| && s.ops[i].phase == Done ==> s.ops[i].lease.None?) &&
            ((forall i :: 0 <= i < |s.ops| ==> s.ops[i].phase == Done) && s.front.closing == Closed ==>
               multiset(s.queue.free) == if w.ports.Managed? then multiset(w.ports.allowed) else multiset{})
  {
    EveryRunKeeps(w, events);
    PortsAreConserved(w, events);
    AllHome(w, After(w, events));
  }

  lemma AllHome(w: World, s: State)
    requires Inv(w, s) && multiset(s.queue.free) + multiset(Out(s)) == multiset(Allowed(w))
    ensures forall i :: 0 <= i < |s.ops| && s.ops[i].phase == Done ==> s.ops[i].lease.None?
    ensures (forall i :: 0 <= i < |s.ops| ==> s.ops[i].phase == Done) && s.front.closing == Closed ==>
              multiset(s.queue.free) == multiset(Allowed(w))
  {
    forall i | 0 <= i < |s.ops| && s.ops[i].phase == Done ensures s.ops[i].lease.None? { assert OpOk(w, s.ops[i]); }
    if (forall i :: 0 <= i < |s.ops| ==> s.ops[i].phase == Done) && s.front.closing == Closed { NothingOut(w, s); }
  }

  lemma NothingOut(w: World, s: State)
    requires Inv(w, s) && s.front.closing == Closed && forall i :: 0 <= i < |s.ops| ==> s.ops[i].phase == Done
    ensures Out(s) == []
  {
    forall i | 0 <= i < |s.ops| ensures s.ops[i].lease.None? { assert OpOk(w, s.ops[i]); }
    NoLeases(s.ops);
  }

  lemma {:induction false} NoLeases(ops: seq<Op>)
    requires forall i :: 0 <= i < |ops| ==> ops[i].lease.None?
    ensures LeasesOf(ops) == []
  {
    if ops != [] { NoLeases(ops[..|ops| - 1]); }
  }

  /** The pool runs over what an operator typed: a port set that was read without an error names at least one
      port and each once, which is all the theorems ask of it. */
  lemma AParsedSetWillDo(spec: string, dht: bool, private: Hash -> bool, way: Source -> Way)
    requires PortSets.Parsed(spec).Ok?
    ensures ProperWorld(World(dht, Managed(PortSets.Parsed(spec).value), private, way)) &&
            PortSets.Parsed(spec).value != []
  {
    PortSets.ParsedIsTheSetNamed(spec);
    PortSets.ParsedIsNeverEmpty(spec);
  }

  // ---- one hold per torrent ----

  /** At most one attach or attachment is at work on a torrent at any time, and held names exactly those. */
  lemma HoldsAreExclusive(w: World, events: seq<Event>)
    requires ProperWorld(w)
    ensures var s := After(w, events);
            (forall i, j :: 0 <= i < j < |s.ops| && Active(s.ops[i]) && Active(s.ops[j]) ==>
               s.ops[i].source.hash != s.ops[j].source.hash) &&
            forall h :: h in s.held <==> exists i :: 0 <= i < |s.ops| && Active(s.ops[i]) && s.ops[i].source.hash == h
  {
    EveryRunKeeps(w, events);
  }

  /** When pieces are removed, by a detach or by the refusal of a private magnet, the torrent is still held by
      the very attach that removes them, so no later attachment can have pieces there yet; and it is off that
      attach's own client, and off the shared one unless it was left behind there. */
  lemma PiecesGoUnderTheHold(w: World, events: seq<Event>, i: nat)
    requires ProperWorld(w) && i < |After(w, events).ops|
    requires After(w, events).ops[i].phase in {Discarding, Wiping}
    ensures var s := After(w, events);
            var op := s.ops[i];
            op.source.hash in s.held && s.held[op.source.hash] == i &&
            (op.client.Some? ==> op.client.value.torrents == {}) &&
            (NoStrays(s) && s.front.shared.Some? ==> op.source.hash !in s.front.shared.value.torrents) &&
            forall j :: 0 <= j < |s.ops| && j != i && Active(s.ops[j]) ==> s.ops[j].source.hash != op.source.hash
  {
    EveryRunKeeps(w, events);
    assert OpOk(w, After(w, events).ops[i]);
  }

  /** How far along an attach is. A probe that stayed silent starts over once, blind. */
  function Rank(op: Op): nat {
    var again := if op.kind == Blind then 7 else 0;
    match op.phase
    case NeedPort => 0
    case Starting => 1 + again
    case Adding => 2 + again
    case Waiting => 3 + again
    case Refusing => 4 + again
    case Wiping => 5 + again
    case AddFailed => 6 + again
    case ProbePublic => 6
    case ProbeFailed => 7
    case ProbeLeaving => 7
    case AtDoor => 14
    case Registering => 14
    case Attached => 15
    case Retiring => 16
    case ClosingOwn => 17
    case ReturningOwn => 18
    case Dropping => 18
    case Discarding => 19
    case Returning => 19
    case Releasing => 20
    case Done => 21
  }

  /** Every event leaves an attach where it is or moves it on. */
  lemma AttachesOnlyMoveOn(w: World, s: State, e: Event, i: nat)
    requires i < |s.ops|
    ensures |s.ops| <= |Apply(w, s, e).ops| && Apply(w, s, e).ops[i].source == s.ops[i].source
    ensures Rank(s.ops[i]) <= Rank(Apply(w, s, e).ops[i])
    ensures Rank(s.ops[i]) == Rank(Apply(w, s, e).ops[i]) ==> s.ops[i].phase == Apply(w, s, e).ops[i].phase
  {
    match e {
      case Door(k, readable, starts, adds, arrives) =>
        if k < |s.ops| && s.ops[k].phase == AtDoor { DoorMovesOn(w, s, k, readable, starts, adds, arrives); }
      case Step(k, ok) => if k < |s.ops| { StepMovesOn(w, s, k, ok); }
      case _ =>
    }
  }

  /** What a step may make of an attach. */
  predicate FurtherOn(op: Op, next: Op) {
    next.source == op.source && Rank(op) <= Rank(next) && (Rank(op) == Rank(next) ==> op.phase == next.phase)
  }

  /** Attach k moves on, and no other changes. */
  ghost predicate MovesOn(s: State, t: State, k: nat) {
    k < |s.ops| == |t.ops| && FurtherOn(s.ops[k], t.ops[k]) && t.ops == s.ops[k := t.ops[k]]
  }

  lemma JoinOutcome(w: World, s: State, k: nat, readable: bool, adds: bool, arrives: bool)
    requires k < |s.ops| && s.front.shared.Some?
    ensures var t := JoinShared(w, s, k, readable, adds, arrives);
            |t.ops| == |s.ops| && t.ops == s.ops[k := t.ops[k]] && t.ops[k].source == s.ops[k].source &&
            t.ops[k].kind == s.ops[k].kind && t.ops[k].client == s.ops[k].client && t.alone == s.alone &&
            t.held == s.held && t.ops[k].phase in {Releasing, Attached}
  {
  }

  lemma DoorOutcome(w: World, s: State, k: nat, readable: bool, starts: bool, adds: bool, arrives: bool)
    requires k < |s.ops|
    ensures var t := DoorStep(w, s, k, readable, starts, adds, arrives);
            |t.ops| == |s.ops| && t.ops == s.ops[k := t.ops[k]] && t.ops[k].source == s.ops[k].source &&
            t.ops[k].kind == s.ops[k].kind && t.ops[k].client == s.ops[k].client && t.alone == s.alone &&
            t.held == s.held && t.ops[k].phase in {Returning, Releasing, Attached}
  {
    var op := s.ops[k];
    if s.front.shared.Some? {
      JoinOutcome(w, Put(s.(queue := GivePort(s.queue, op.lease)), k, op.(lease := None)), k, readable, adds, arrives);
    } else if op.kind == Probe || CanTake(w, s.queue) {
      var claim := if op.kind == Probe then Claim(s.queue, op.lease) else TakePort(w, s.queue, k);
      JoinOutcome(w, StartShared(w, s, k, claim), k, readable, adds, arrives);
    }
  }

  lemma DoorMovesOn(w: World, s: State, k: nat, readable: bool, starts: bool, adds: bool, arrives: bool)
    requires k < |s.ops| && s.ops[k].phase == AtDoor
    ensures MovesOn(s, DoorStep(w, s, k, readable, starts, adds, arrives), k)
  {
    DoorOutcome(w, s, k, readable, starts, adds, arrives);
  }

  lemma LocalStepMovesOn(w: World, op: Op, ok: bool)
    ensures FurtherOn(op, LocalStep(w, op, ok))
  {
  }

  lemma StepIsLocal(w: World, s: State, k: nat, ok: bool)
    requires k < |s.ops|
    ensures var t := OpStep(w, s, k, ok);
            |t.ops| == |s.ops| && t.ops == s.ops[k := t.ops[k]]
  {
  }

  predicate TouchesOnlyItself(phase: Phase) {
    phase !in {NeedPort, AddFailed, ProbePublic, Registering, Retiring, ReturningOwn, Returning, Dropping, Releasing}
  }

  lemma LocalGoesFurther(w: World, s: State, k: nat, ok: bool)
    requires k < |s.ops| && TouchesOnlyItself(s.ops[k].phase)
    ensures OpStep(w, s, k, ok) == Put(s, k, LocalStep(w, s.ops[k], ok))
    ensures FurtherOn(s.ops[k], OpStep(w, s, k, ok).ops[k])
  {
    LocalStepMovesOn(w, s.ops[k], ok);
  }

  lemma StepGoesFurther(w: World, s: State, k: nat, ok: bool)
    requires k < |s.ops|
    ensures k < |OpStep(w, s, k, ok).ops| && FurtherOn(s.ops[k], OpStep(w, s, k, ok).ops[k])
  {
    if TouchesOnlyItself(s.ops[k].phase) { LocalGoesFurther(w, s, k, ok); }
  }

  lemma StepMovesOn(w: World, s: State, k: nat, ok: bool)
    requires k < |s.ops|
    ensures MovesOn(s, OpStep(w, s, k, ok), k)
  {
    StepIsLocal(w, s, k, ok);
    StepGoesFurther(w, s, k, ok);
  }

  lemma {:induction false} LaterIsFurther(w: World, s: State, events: seq<Event>, i: nat)
    requires i < |s.ops|
    ensures |s.ops| <= |Then(w, s, events).ops| && Then(w, s, events).ops[i].source == s.ops[i].source
    ensures Rank(s.ops[i]) <= Rank(Then(w, s, events).ops[i])
    decreases |events|
  {
    if events != [] {
      AttachesOnlyMoveOn(w, s, events[0], i);
      LaterIsFurther(w, Apply(w, s, events[0]), events[1..], i);
    }
  }

  predicate LetGo(op: Op) {
    op.phase in {Retiring, ClosingOwn, ReturningOwn, Dropping, Discarding, Releasing, Done}
  }

  predicate Over(op: Op) { op.phase in {Releasing, Done} }

  lemma RankTells(op: Op)
    ensures LetGo(op) ==> Rank(op) > 15
    ensures op.phase == Attached ==> Rank(op) == 15
    ensures Over(op) <==> Rank(op) > 19
  {
  }

  /** Detach takes effect once: an attachment that has been let go of is never attached again, and its pieces,
      once removed, are never removed again, whatever follows. */
  lemma DetachedForGood(w: World, done: seq<Event>, later: seq<Event>, i: nat)
    requires i < |After(w, done).ops|
    ensures |After(w, done).ops| <= |After(w, done + later).ops|
    ensures LetGo(After(w, done).ops[i]) ==> After(w, done + later).ops[i].phase != Attached
    ensures Over(After(w, done).ops[i]) ==> Over(After(w, done + later).ops[i])
  {
    ThenAfter(w, done, later);
    LaterIsFurther(w, After(w, done), later, i);
    RankTells(After(w, done).ops[i]);
    RankTells(After(w, done + later).ops[i]);
  }

  // ---- torrents left behind ----

  /** A pooled attachment, from the door to its Drop. */
  predicate Pooled(op: Op) {
    (op.phase == Attached && op.client.None?) || op.phase == Dropping
  }

  /** Every torrent in the shared client is somebody's. */
  ghost predicate NoStrays(s: State) {
    s.front.shared.Some? ==>
      forall h :: h in s.front.shared.value.torrents ==> h in s.held && s.held[h] < |s.ops| && Pooled(s.ops[s.held[h]])
  }

  /** The wait for metadata lost at the shared client's door: its context was cancelled. */
  predicate LosesTheWait(e: Event) {
    e.Door? && e.adds && !e.arrives
  }

  lemma StillSomebodys(s: State, t: State, i: nat)
    requires NoStrays(s) && i < |s.ops| == |t.ops| && t.ops == s.ops[i := t.ops[i]] && t.front == s.front
    requires Pooled(s.ops[i]) ==> Pooled(t.ops[i])
    requires t.held == s.held || (t.held == s.held - {s.ops[i].source.hash} && !Pooled(s.ops[i]))
    requires s.ops[i].source.hash in s.held && s.held[s.ops[i].source.hash] == i
    ensures NoStrays(t)
  {
  }

  lemma DropLeavesNoStray(w: World, s: State, i: nat, ok: bool)
    requires Inv(w, s) && NoStrays(s) && i < |s.ops| && s.ops[i].phase == Dropping
    ensures NoStrays(OpStep(w, s, i, ok))
  {
    var h := s.ops[i].source.hash;
    assert s.held[h] == i;
    assert forall g :: g in s.held && s.held[g] == i ==> g == h;
  }

  lemma StepKeepsThePool(w: World, s: State, i: nat, ok: bool)
    requires i < |s.ops| && OpOk(w, s.ops[i]) && s.ops[i].phase !in {Dropping, Done}
    ensures var t := OpStep(w, s, i, ok);
            t.front == s.front && |t.ops| == |s.ops| && (Pooled(s.ops[i]) ==> t.ops[i] == s.ops[i]) &&
            (t.held == s.held || (t.held == s.held - {s.ops[i].source.hash} && !Pooled(s.ops[i])))
  {
    if TouchesOnlyItself(s.ops[i].phase) { LocalGoesFurther(w, s, i, ok); }
  }

  lemma StepLeavesNoStray(w: World, s: State, i: nat, ok: bool)
    requires Inv(w, s) && NoStrays(s) && i < |s.ops|
    ensures NoStrays(OpStep(w, s, i, ok))
  {
    if s.ops[i].phase == Dropping {
      DropLeavesNoStray(w, s, i, ok);
    } else if s.ops[i].phase != Done {
      StepIsLocal(w, s, i, ok);
      assert OpOk(w, s.ops[i]);
      StepKeepsThePool(w, s, i, ok);
      StillSomebodys(s, OpStep(w, s, i, ok), i);
    }
  }

  /** Attach i gets as far as the add on the shared client. */
  predicate GetsToTheAdd(w: World, s: State, i: nat, readable: bool, starts: bool)
    requires i < |s.ops|
  {
    var op := s.ops[i];
    DoorKnown(w, op, readable) == Some(false) && !s.front.closed &&
    (s.front.shared.Some? || ((op.kind == Probe || CanTake(w, s.queue)) && starts))
  }

  lemma ShortOfTheAdd(w: World, s: State, i: nat, readable: bool, starts: bool, adds: bool, arrives: bool)
    requires i < |s.ops| && !GetsToTheAdd(w, s, i, readable, starts)
    ensures DoorStep(w, s, i, readable, starts, adds, arrives).front == s.front
  {
  }

  lemma JoinLeavesAStrayIff(w: World, s: State, i: nat, readable: bool, adds: bool, arrives: bool)
    requires i < |s.ops| && s.front.shared.Some? && NoStrays(s) && DoorKnown(w, s.ops[i], readable) == Some(false)
    requires s.ops[i].client.None? && s.ops[i].source.hash in s.held && s.held[s.ops[i].source.hash] == i
    requires s.ops[i].phase == AtDoor
    ensures NoStrays(JoinShared(w, s, i, readable, adds, arrives)) <==> !(adds && !arrives)
  {
    var t, h := JoinShared(w, s, i, readable, adds, arrives), s.ops[i].source.hash;
    JoinOutcome(w, s, i, readable, adds, arrives);
    if adds {
      assert h in t.front.shared.value.torrents && t.held[h] == i;
    }
  }

  /** Where every torrent of the shared client is somebody's, the door leaves one that is nobody's exactly when
      the attach gets to the add, the add works and the wait is lost. */
  lemma DoorLeavesAStrayIff(w: World, s: State, i: nat, readable: bool, starts: bool, adds: bool, arrives: bool)
    requires Inv(w, s) && NoStrays(s) && i < |s.ops| && s.ops[i].phase == AtDoor
    ensures NoStrays(DoorStep(w, s, i, readable, starts, adds, arrives)) <==>
            !(GetsToTheAdd(w, s, i, readable, starts) && adds && !arrives)
  {
    var op := s.ops[i];
    assert OpOk(w, op);
    assert s.held[op.source.hash] == i;
    if GetsToTheAdd(w, s, i, readable, starts) {
      if s.front.shared.Some? {
        JoinLeavesAStrayIff(w, Put(s.(queue := GivePort(s.queue, op.lease)), i, op.(lease := None)), i,
                            readable, adds, arrives);
      } else {
        var claim := if op.kind == Probe then Claim(s.queue, op.lease) else TakePort(w, s.queue, i);
        JoinLeavesAStrayIff(w, StartShared(w, s, i, claim), i, readable, adds, arrives);
      }
    } else {
      ShortOfTheAdd(w, s, i, readable, starts, adds, arrives);
      DoorOutcome(w, s, i, readable, starts, adds, arrives);
      StillSomebodys(s, DoorStep(w, s, i, readable, starts, adds, arrives), i);
    }
  }

  lemma CallLeavesNoStray(w: World, s: State, e: Event)
    requires Inv(w, s) && NoStrays(s) && !e.Step? && !e.Door?
    ensures NoStrays(Apply(w, s, e))
  {
  }

  lemma ApplyLeavesNoStray(w: World, s: State, e: Event)
    requires Inv(w, s) && NoStrays(s) && !LosesTheWait(e)
    ensures NoStrays(Apply(w, s, e))
  {
    match e {
      case Step(i, ok) => if i < |s.ops| { StepLeavesNoStray(w, s, i, ok); }
      case Door(i, readable, starts, adds, arrives) =>
        if i < |s.ops| && s.ops[i].phase == AtDoor { DoorLeavesAStrayIff(w, s, i, readable, starts, adds, arrives); }
      case _ => CallLeavesNoStray(w, s, e);
    }
  }

  /** A torrent stays on the shared client with no attachment to drop it only where an attach lost its wait
      at the door; with no such event every torrent there has its one holder. */
  lemma {:induction false} StraysComeFromLostWaits(w: World, events: seq<Event>)
    requires ProperWorld(w) && forall k :: 0 <= k < |events| ==> !LosesTheWait(events[k])
    ensures NoStrays(After(w, events))
  {
    if events != [] {
      var front := events[..|events| - 1];
      StraysComeFromLostWaits(w, front);
      EveryRunKeeps(w, front);
      ApplyLeavesNoStray(w, After(w, front), events[|events| - 1]);
    }
  }

  /** An attach of a public .torrent at the door of a pool that has never had a client. */
  ghost predicate FirstAtTheDoor(s: State) {
    s.ops == [Op(File(7), AtDoor, Direct, None, None, false)] && s.held == map[7 := 0] &&
    s.front == Front(None, None, false, NotClosed)
  }

  ghost predicate LeftBehind(s: State, phase: Phase) {
    s.ops == [Op(File(7), phase, Direct, None, None, false)] &&
    s.held == (if phase == Done then map[] else map[7 := 0]) &&
    s.front.shared.Some? && 7 in s.front.shared.value.torrents
  }

  lemma ReachesTheDoor(w: World)
    requires Routed(w) && w.ports == Unmanaged && !w.private(7)
    ensures FirstAtTheDoor(Apply(w, Init(w), Attach(File(7))))
  {
  }

  lemma LosesAtTheDoor(w: World, s: State)
    requires Routed(w) && w.ports == Unmanaged && !w.private(7) && FirstAtTheDoor(s)
    ensures LeftBehind(Apply(w, s, Door(0, true, true, true, false)), Releasing)
  {
  }

  lemma LetsGo(w: World, s: State)
    requires LeftBehind(s, Releasing)
    ensures LeftBehind(Apply(w, s, Step(0, true)), Done)
  {
  }

  /** And it does happen: the attach fails, its hold ends, and the torrent is still there. */
  lemma ALostWaitLeavesAStray(w: World) returns (events: seq<Event>)
    requires Routed(w) && w.ports == Unmanaged && !w.private(7)
    ensures var s := After(w, events);
            s.held == map[] && s.front.shared.Some? && 7 in s.front.shared.value.torrents
  {
    var reach, lose := Attach(File(7)), Door(0, true, true, true, false);
    OneMoreEvent(w, [], reach);
    ReachesTheDoor(w);
    OneMoreEvent(w, [] + [reach], lose);
    LosesAtTheDoor(w, After(w, [] + [reach]));
    OneMoreEvent(w, [] + [reach] + [lose], Step(0, true));
    LetsGo(w, After(w, [] + [reach] + [lose]));
    events := [] + [reach] + [lose] + [Step(0, true)];
  }
}
