/** The torrent pool as a protocol (internal/swarm/pool.go, session.go, policy.go): every Attach, Detach and
    Close is a sequence of steps, one per lock section or per call that others can see, and the steps of all
    of them interleave freely. What the swarm, the trackers, the disk and the clock do is part of each event.

    Each client is kept where its owner is: with the attach that started it, with the pool when it is the
    shared one, with the pool's Close once that has taken it. A closed client is gone. */
module PoolModel {
  import opened Paths

  type Hash = nat

  /** What is asked for: a .torrent, which states its private flag, or a magnet, which cannot. */
  datatype Source =
    | File(hash: Hash)
    | Magnet(hash: Hash, trackers: bool)

  /** Where a client's port comes from: Config.ListenPort, or Config.Ports over an empty or a filled set. */
  datatype Ports = Pinned(port: int) | Unmanaged | Managed(allowed: seq<int>)

  /** The pool's configuration, the truth about every torrent, and how each source is routed. Nothing says the
      routing is the right one: what rests on that says so, and the rest holds whatever it is. */
  datatype World = World(dht: bool, ports: Ports, private: Hash -> bool, way: Source -> Way)

  /** Where attach sends a source: nowhere, to the shared client's door, to a client of its own with DHT on or
      off, or to a tracker probe. */
  datatype Way = Refused | ToTheDoor | Alone(dht: bool) | Probing

  // ---- routeFor, privacyInHand ----

  datatype Route = Route(dht: bool, probeTrackersFirst: bool, blind: bool) | Unresolvable

  /** The private flag as far as it can be read without asking the swarm. */
  function Privacy(w: World, src: Source): Option<bool> {
    match src
    case File(h) => Some(w.private(h))
    case Magnet(_, _) => None
  }

  function RouteFor(w: World, src: Source): Route {
    match Privacy(w, src)
    case Some(private) => Route(w.dht && !private, false, false)
    case None =>
      if src.trackers then Route(false, w.dht, false)
      else if !w.dht then Unresolvable
      else Route(true, false, true)
  }

  /** attach's routing as it is written. */
  function WayFor(w: World, src: Source): Way {
    var route := RouteFor(w, src);
    if route.Unresolvable? then Refused
    else if Privacy(w, src) == Some(false) then ToTheDoor
    else if route.probeTrackersFirst then Probing
    else Alone(route.dht)
  }

  ghost predicate Routed(w: World) {
    forall src :: w.way(src) == WayFor(w, src)
  }

  // ---- the state ----

  /** A live client: DHT on or off, the port it is bound to, the torrents in it, the useful bytes it has received. */
  datatype Client = Client(dht: bool, port: int, torrents: set<Hash>, received: nat)

  /** Which client an attach is on: Open's, the tracker probe, or the one that goes online blind after it. */
  datatype Kind = Direct | Probe | Blind

  datatype Phase =
    | NeedPort          // about to lease a port
    | Starting          // port settled, client not started
    | Adding            // inside addTo, nothing added
    | Waiting           // inside addTo, added, waiting for metadata
    | Refusing          // inside addTo, metadata says private on a client with DHT: Drop comes next
    | Wiping            // inside addTo, dropped: its pieces go next
    | AddFailed         // addTo returned an error
    | ProbeFailed       // silent probe, already in the ledger: close it, then go blind
    | ProbePublic       // the probe's metadata says public: into the ledger next
    | ProbeLeaving      // in the ledger: close it, then the shared client's door
    | AtDoor            // attachShared
    | Registering       // aloneOn
    | Attached
    | Retiring          // Detach of a client of its own: into the ledger
    | ClosingOwn
    | ReturningOwn      // closed: its port goes back
    | Dropping          // Detach of a pooled torrent
    | Discarding        // its pieces go
    | Returning         // a failing attach gives its port back
    | Releasing         // the hold on the infohash ends
    | Done

  /** One call to Attach, and the attachment it may have become. lease is the port it holds a lease on;
      folded says its client's figure is already in the pool's total. */
  datatype Op = Op(source: Source, phase: Phase, kind: Kind, lease: Option<int>, client: Option<Client>, folded: bool)

  datatype Closing =
    | NotClosed
    | ClosingClient(client: Client, lease: Option<int>)
    | ReturningPort(lease: Option<int>)
    | Closed

  /** Who has a port of the managed set. */
  datatype Place = InQueue | ByOp(i: nat) | ByShared | ByClosing

  /** The ports of a managed set that are free, in the order they came back, and where each port is. */
  datatype Queue = Queue(free: seq<int>, place: map<int, Place>)

  /** The shared public client, and what Close has done with it. */
  datatype Front = Front(shared: Option<Client>, lease: Option<int>, closed: bool, closing: Closing)

  /** The bytes of every client already closed; beside them, all that ever arrived, those on clients whose
      attach failed before the pool knew of them, and those that came after a client's figure was taken. */
  datatype Books = Books(retired: nat, arrived: nat, lost: nat, late: nat)

  /** held and alone are the pool's own, with the number of the attach that made the entry. Where a port is,
      and all of Books but retired, is bookkeeping of the model that no step reads. */
  datatype State = State(
    ops: seq<Op>, held: map<Hash, nat>, alone: map<Hash, nat>, front: Front, queue: Queue, books: Books)

  function Allowed(w: World): seq<int> {
    if w.ports.Managed? then w.ports.allowed else []
  }

  function Init(w: World): State {
    State([], map[], map[], Front(None, None, false, NotClosed),
          Queue(Allowed(w), map p | p in Allowed(w) :: InQueue), Books(0, 0, 0, 0))
  }

  datatype Event =
    | Attach(source: Source)                  // reserve and route
    | Step(i: nat, ok: bool)                  // the next step of attach i, and whether what it tries works out
    | Door(i: nat, readable: bool, starts: bool, adds: bool, arrives: bool)   // attachShared of attach i
    | Detach(i: nat)
    | Close
    | CloseStep
    | Arrive(i: nat, n: nat)                  // bytes arrive at the client of attach i
    | ArriveShared(n: nat)
    | ArriveClosing(n: nat)

  // ---- one attach at a time: the steps that touch nothing else ----

  predicate Active(op: Op) { op.phase != Done }

  /** The routing reads nothing that changes, so it is decided as the hold is taken. */
  function FirstPhase(w: World, src: Source): Phase {
    match w.way(src)
    case Refused => Releasing
    case ToTheDoor => AtDoor
    case _ => NeedPort
  }

  function NewOp(w: World, src: Source): Op {
    Op(src, FirstPhase(w, src), if w.way(src).Probing? then Probe else Direct, None, None, false)
  }

  /** The DHT setting of the client an attach starts. */
  function DhtOf(w: World, op: Op): bool {
    match op.kind
    case Direct => w.way(op.source).Alone? && w.way(op.source).dht
    case Probe => false
    case Blind => true
  }

  function BoundPort(w: World, lease: Option<int>): int {
    if lease.Some? then lease.value else if w.ports.Pinned? then w.ports.port else 0
  }

  function OnClient(op: Op, phase: Phase, client: Client): Op {
    op.(phase := phase, client := Some(client))
  }

  /** The one door into a client: addTo up to the add. known is the private flag as far as it is in hand; said
      to be private, the torrent is refused before it is added where DHT is on. */
  function AddTo(c: Client, h: Hash, known: Option<bool>, ok: bool): Option<Client> {
    if known == Some(true) && c.dht then None
    else if !ok then None
    else Some(c.(torrents := c.torrents + {h}))
  }

  function AddStep(w: World, op: Op, ok: bool): Op
    requires op.client.Some?
  {
    match AddTo(op.client.value, op.source.hash, Privacy(w, op.source), ok)
    case None => op.(phase := AddFailed)
    case Some(c) => OnClient(op, Waiting, c)
  }

  /** addTo's wait: metadata, or a timeout or a cancelled context, which leaves the torrent where it is. */
  function MetadataStep(w: World, op: Op, ok: bool): Op
    requires op.client.Some?
  {
    if !ok then op.(phase := AddFailed)
    else if Privacy(w, op.source).None? && w.private(op.source.hash) && op.client.value.dht then op.(phase := Refusing)
    else if op.kind == Probe && !w.private(op.source.hash) then op.(phase := ProbePublic)
    else op.(phase := Registering)
  }

  function LocalStep(w: World, op: Op, ok: bool): Op {
    match op.phase
    case Starting =>
      if ok then
        op.(phase := Adding, client := Some(Client(DhtOf(w, op), BoundPort(w, op.lease), {}, 0)), folded := false)
      else op.(phase := Returning)
    case Adding => if op.client.Some? then AddStep(w, op, ok) else op
    case Waiting => if op.client.Some? then MetadataStep(w, op, ok) else op
    case Refusing =>
      if op.client.Some? then
        OnClient(op, Wiping, op.client.value.(torrents := op.client.value.torrents - {op.source.hash}))
      else op
    case Wiping => op.(phase := AddFailed)
    case ProbeFailed => op.(phase := Starting, kind := Blind, client := None)
    case ProbeLeaving => op.(phase := AtDoor, client := None)
    case ClosingOwn => op.(phase := ReturningOwn, client := None)
    case Discarding => op.(phase := Releasing)
    case _ => op
  }

  // ---- the port pool ----

  /** Acquire from a managed pool: the port idle longest. Other pools never refuse and hold nothing. */
  predicate CanTake(w: World, q: Queue) { w.ports.Managed? ==> q.free != [] }

  datatype Claim = Claim(queue: Queue, lease: Option<int>)

  function TakePort(w: World, q: Queue, i: nat): Claim
    requires CanTake(w, q)
  {
    if w.ports.Managed? then Claim(Queue(q.free[1..], q.place[q.free[0] := ByOp(i)]), Some(q.free[0]))
    else Claim(q, None)
  }

  /** Release of a lease, if there is one. */
  function GivePort(q: Queue, lease: Option<int>): Queue {
    match lease
    case None => q
    case Some(p) => Queue(q.free + [p], q.place[p := InQueue])
  }

  function Moved(q: Queue, lease: Option<int>, place: Place): Queue {
    match lease
    case None => q
    case Some(p) => q.(place := q.place[p := place])
  }

  // ---- the ledger ----

  function ReceivedBy(op: Op): nat { if op.client.Some? then op.client.value.received else 0 }

  /** retire and retireClient: the figure of a client goes into the pool's total. */
  function Fold(b: Books, op: Op): Books { b.(retired := b.retired + ReceivedBy(op)) }

  /** Close of a client the pool never heard of. */
  function Lose(b: Books, op: Op): Books { b.(lost := b.lost + ReceivedBy(op)) }

  // ---- attachShared ----

  function Put(s: State, i: nat, op: Op): State
    requires i < |s.ops|
  {
    s.(ops := s.ops[i := op])
  }

  /** The private flag as attachShared reads it: out of the metadata a probe brought, unless that cannot be
      read, or else out of the source. */
  function DoorKnown(w: World, op: Op, readable: bool): Option<bool> {
    if op.kind != Probe then Privacy(w, op.source)
    else if readable then Some(w.private(op.source.hash))
    else None
  }

  /** addTo on the shared client, which never waits on the swarm but can still lose to a cancelled context. */
  function JoinShared(w: World, s: State, i: nat, readable: bool, adds: bool, arrives: bool): State
    requires i < |s.ops| && s.front.shared.Some?
  {
    var op := s.ops[i];
    match AddTo(s.front.shared.value, op.source.hash, DoorKnown(w, op, readable), adds)
    case None => Put(s, i, op.(phase := Releasing))
    case Some(c) =>
      Put(s.(front := s.front.(shared := Some(c))), i, op.(phase := if arrives then Attached else Releasing))
  }

  /** The shared client comes up on the port claimed for it. */
  function StartShared(w: World, s: State, i: nat, claim: Claim): State
    requires i < |s.ops|
  {
    var started := s.front.(shared := Some(Client(w.dht, BoundPort(w, claim.lease), {}, 0)), lease := claim.lease);
    Put(s.(front := started, queue := Moved(claim.queue, claim.lease, ByShared)), i, s.ops[i].(lease := None))
  }

  /** The whole of attachShared, which holds the pool's lock from the check of closed on: only what is known to
      be public gets past it. An attach that comes from a probe brings a port, and one that does not brings none. */
  function DoorStep(w: World, s: State, i: nat, readable: bool, starts: bool, adds: bool, arrives: bool): State
    requires i < |s.ops|
  {
    var op := s.ops[i];
    if DoorKnown(w, op, readable) != Some(false) || s.front.closed then Put(s, i, op.(phase := Returning))
    else if s.front.shared.Some? then
      JoinShared(w, Put(s.(queue := GivePort(s.queue, op.lease)), i, op.(lease := None)), i, readable, adds, arrives)
    else if op.kind != Probe && !CanTake(w, s.queue) then Put(s, i, op.(phase := Releasing))
    else
      var claim := if op.kind == Probe then Claim(s.queue, op.lease) else TakePort(w, s.queue, i);
      if !starts then Put(s.(queue := claim.queue), i, op.(phase := Returning, lease := claim.lease))
      else JoinShared(w, StartShared(w, s, i, claim), i, readable, adds, arrives)
  }

  // ---- every step of an attach or a detach ----

  function WithoutTorrent(c: Client, h: Hash): Client { c.(torrents := c.torrents - {h}) }

  /** Drop of a pooled torrent, wherever the client it is in has got to; a closed one has dropped it already. */
  function DropShared(f: Front, h: Hash): Front {
    if f.shared.Some? then f.(shared := Some(WithoutTorrent(f.shared.value, h)))
    else if f.closing.ClosingClient? then f.(closing := f.closing.(client := WithoutTorrent(f.closing.client, h)))
    else f
  }

  function NeedPortStep(w: World, s: State, i: nat): State
    requires i < |s.ops|
  {
    if CanTake(w, s.queue) then
      var claim := TakePort(w, s.queue, i);
      Put(s.(queue := claim.queue), i, s.ops[i].(phase := Starting, lease := claim.lease))
    else Put(s, i, s.ops[i].(phase := Releasing))
  }

  /** A client is told to go: into the ledger first when it is the probe, straight to Close otherwise. */
  function AddFailedStep(s: State, i: nat): State
    requires i < |s.ops|
  {
    var op := s.ops[i];
    if op.kind == Probe then Put(s.(books := Fold(s.books, op)), i, op.(phase := ProbeFailed, folded := true))
    else Put(s.(books := Lose(s.books, op)), i, op.(phase := Returning, client := None))
  }

  function RetiringStep(s: State, i: nat): State
    requires i < |s.ops|
  {
    var op := s.ops[i];
    Put(s.(books := Fold(s.books, op), alone := s.alone - {op.source.hash}), i,
        op.(phase := ClosingOwn, folded := true))
  }

  function ReturningStep(s: State, i: nat, phase: Phase): State
    requires i < |s.ops|
  {
    Put(s.(queue := GivePort(s.queue, s.ops[i].lease)), i, s.ops[i].(phase := phase, lease := None))
  }

  function OpStep(w: World, s: State, i: nat, ok: bool): State
    requires i < |s.ops|
  {
    var op := s.ops[i];
    match op.phase
    case NeedPort => NeedPortStep(w, s, i)
    case AddFailed => AddFailedStep(s, i)
    case ProbePublic => Put(s.(books := Fold(s.books, op)), i, op.(phase := ProbeLeaving, folded := true))
    case Registering => Put(s.(alone := s.alone[op.source.hash := i]), i, op.(phase := Attached))
    case Retiring => RetiringStep(s, i)
    case ReturningOwn => ReturningStep(s, i, Discarding)
    case Returning => ReturningStep(s, i, Releasing)
    case Dropping => Put(s.(front := DropShared(s.front, op.source.hash)), i, op.(phase := Discarding))
    case Releasing => Put(s.(held := s.held - {op.source.hash}), i, op.(phase := Done))
    case _ => Put(s, i, LocalStep(w, op, ok))
  }

  // ---- the pool's own calls ----

  function Reserve(w: World, s: State, src: Source): State {
    if s.front.closed || src.hash in s.held then s
    else s.(held := s.held[src.hash := |s.ops|], ops := s.ops + [NewOp(w, src)])
  }

  /** Only the first call does anything; what it means depends on whose client the torrent is in. */
  function DetachStep(s: State, i: nat): State
    requires i < |s.ops|
  {
    var op := s.ops[i];
    if op.phase != Attached then s
    else Put(s, i, op.(phase := if op.client.Some? then Retiring else Dropping))
  }

  function ClosePool(s: State): State {
    var f := s.front;
    if f.closed then s
    else if f.shared.None? then s.(front := f.(closed := true, closing := Closed))
    else
      s.(front := Front(None, None, true, ClosingClient(f.shared.value, f.lease)),
         queue := Moved(s.queue, f.lease, ByClosing),
         books := s.books.(retired := s.books.retired + f.shared.value.received))
  }

  function CloseStepOf(s: State): State {
    match s.front.closing
    case ClosingClient(_, lease) => s.(front := s.front.(closing := ReturningPort(lease)))
    case ReturningPort(lease) => s.(front := s.front.(closing := Closed), queue := GivePort(s.queue, lease))
    case _ => s
  }

  /** Useful data comes for a torrent, so only to a client that has one. */
  predicate Receives(c: Option<Client>) { c.Some? && c.value.torrents != {} }

  function Fed(c: Client, n: nat): Client { c.(received := c.received + n) }

  function ArriveAt(s: State, i: nat, n: nat): State
    requires i < |s.ops| && s.ops[i].client.Some?
  {
    var op := s.ops[i];
    var late := if op.folded then s.books.late + n else s.books.late;
    Put(s.(books := s.books.(arrived := s.books.arrived + n, late := late)), i,
        op.(client := Some(Fed(op.client.value, n))))
  }

  function ArriveAtShared(s: State, n: nat): State
    requires s.front.shared.Some?
  {
    s.(front := s.front.(shared := Some(Fed(s.front.shared.value, n))),
       books := s.books.(arrived := s.books.arrived + n))
  }

  function ArriveAtClosing(s: State, n: nat): State
    requires s.front.closing.ClosingClient?
  {
    s.(front := s.front.(closing := s.front.closing.(client := Fed(s.front.closing.client, n))),
       books := s.books.(arrived := s.books.arrived + n, late := s.books.late + n))
  }

  function Apply(w: World, s: State, e: Event): State {
    match e
    case Attach(src) => Reserve(w, s, src)
    case Step(i, ok) => if i < |s.ops| then OpStep(w, s, i, ok) else s
    case Door(i, readable, starts, adds, arrives) =>
      if i < |s.ops| && s.ops[i].phase == AtDoor then DoorStep(w, s, i, readable, starts, adds, arrives) else s
    case Detach(i) => if i < |s.ops| then DetachStep(s, i) else s
    case Close => ClosePool(s)
    case CloseStep => CloseStepOf(s)
    case Arrive(i, n) => if i < |s.ops| && Receives(s.ops[i].client) then ArriveAt(s, i, n) else s
    case ArriveShared(n) => if Receives(s.front.shared) then ArriveAtShared(s, n) else s
    case ArriveClosing(n) =>
      if s.front.closing.ClosingClient? && Receives(Some(s.front.closing.client)) then ArriveAtClosing(s, n) else s
  }

  /** One event after another, taken from the end of the list and from its front. */
  function Folded<S, E>(s: S, events: seq<E>, step: (S, E) -> S): S {
    if events == [] then s else step(Folded(s, events[..|events| - 1], step), events[|events| - 1])
  }

  function Followed<S, E>(s: S, events: seq<E>, step: (S, E) -> S): S
    decreases |events|
  {
    if events == [] then s else Followed(step(s, events[0]), events[1..], step)
  }

  lemma FoldedOneMore<S, E>(s: S, events: seq<E>, e: E, step: (S, E) -> S)
    ensures Folded(s, events + [e], step) == step(Folded(s, events, step), e)
  {
    assert (events + [e])[..|events|] == events;
  }

  lemma {:induction false} FollowedIsFolded<S, E>(s: S, done: seq<E>, events: seq<E>, step: (S, E) -> S)
    ensures Followed(Folded(s, done, step), events, step) == Folded(s, done + events, step)
    decreases |events|
  {
    if events == [] {
      assert done + events == done;
    } else {
      var further := done + [events[0]];
      assert further[..|further| - 1] == done;
      FollowedIsFolded(s, further, events[1..], step);
      assert further + events[1..] == done + events;
    }
  }

  function StepOf(w: World): (State, Event) -> State { (s: State, e: Event) => Apply(w, s, e) }

  /** The state after any events at all, an event that cannot happen changing nothing. */
  function After(w: World, events: seq<Event>): State { Folded(Init(w), events, StepOf(w)) }

  function Then(w: World, s: State, events: seq<Event>): State { Followed(s, events, StepOf(w)) }
}
