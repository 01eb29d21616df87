/** What every state of the pool keeps, one predicate a concern, and why each step keeps it. */
module PoolInvariant {
  import opened Paths
  import opened PoolModel

  // ---- one attach ----

  predicate OnItsClient(phase: Phase) {
    phase in {Adding, Waiting, Refusing, Wiping, AddFailed, ProbeFailed, ProbePublic, ProbeLeaving,
              Registering, Retiring, ClosingOwn}
  }

  predicate HoldsClaim(op: Op) {
    OnItsClient(op.phase) || op.phase in {Starting, ReturningOwn} || (op.phase == Attached && op.client.Some?) ||
    (op.phase == AtDoor && op.kind == Probe)
  }

  /** A private torrent on a client with DHT: the one thing the whole arrangement exists to prevent. */
  predicate Exposed(w: World, c: Client, h: Hash) {
    c.dht && h in c.torrents && w.private(h)
  }

  /** The one window: a magnet, whose flag nothing states, between its add and the Drop or the Close. */
  predicate InWindow(op: Op) {
    op.phase in {Waiting, Refusing, AddFailed} && op.source.Magnet?
  }

  predicate ClientOk(w: World, op: Op, c: Client) {
    c.dht == DhtOf(w, op) && (forall h :: h in c.torrents ==> h == op.source.hash) &&
    (w.ports.Managed? ==> op.lease == Some(c.port)) &&
    (op.phase in {Adding, Wiping} ==> c.torrents == {}) && (op.phase == Waiting ==> op.source.hash in c.torrents) &&
    (Exposed(w, c, op.source.hash) ==> InWindow(op)) &&
    (op.folded <==> op.phase in {ProbeFailed, ProbeLeaving, ClosingOwn})
  }

  predicate OpOk(w: World, op: Op) {
    (op.client.Some? ==> ClientOk(w, op, op.client.value) && (OnItsClient(op.phase) || op.phase == Attached)) &&
    (OnItsClient(op.phase) ==> op.client.Some?) &&
    (op.lease.Some? ==> HoldsClaim(op) || op.phase == Returning) &&
    (w.ports.Managed? && HoldsClaim(op) ==> op.lease.Some?) &&
    (op.phase in {ProbeFailed, ProbePublic, ProbeLeaving} ==> op.kind == Probe) &&
    (op.phase == Dropping ==> !w.private(op.source.hash)) &&
    (op.phase == Attached && op.client.None? ==> !w.private(op.source.hash)) &&
    (op.phase in {Attached, Retiring, Registering} && op.client.Some? && w.private(op.source.hash) ==>
       !op.client.value.dht) &&
    (op.kind != Direct <==> w.way(op.source).Probing?)
  }

  lemma NewOpIsOk(w: World, src: Source)
    ensures OpOk(w, NewOp(w, src))
  {
  }

  lemma StartingIsOk(w: World, op: Op, ok: bool)
    requires OpOk(w, op) && op.phase == Starting
    ensures OpOk(w, LocalStep(w, op, ok))
  {
  }

  lemma AddingIsOk(w: World, op: Op, ok: bool)
    requires OpOk(w, op) && op.phase in {Adding, Waiting, Refusing, Wiping}
    ensures OpOk(w, LocalStep(w, op, ok))
  {
  }

  lemma LocalStepIsOk(w: World, op: Op, ok: bool)
    requires OpOk(w, op)
    ensures OpOk(w, LocalStep(w, op, ok))
  {
    if op.phase == Starting { StartingIsOk(w, op, ok); }
    if op.phase in {Adding, Waiting, Refusing, Wiping} { AddingIsOk(w, op, ok); }
  }

  ghost predicate OpsOk(w: World, ops: seq<Op>) {
    forall i :: 0 <= i < |ops| ==> OpOk(w, ops[i])
  }

  // ---- the shared client ----

  ghost predicate OnlyPublic(w: World, c: Client) {
    forall h :: h in c.torrents ==> !w.private(h)
  }

  ghost predicate FrontOk(w: World, f: Front) {
    (f.shared.Some? ==>
       !f.closed && f.shared.value.dht == w.dht && OnlyPublic(w, f.shared.value) &&
       (w.ports.Managed? ==> f.lease == Some(f.shared.value.port))) &&
    (f.shared.None? ==> f.lease.None?) && (f.closed <==> !f.closing.NotClosed?) &&
    (f.closing.ClosingClient? ==>
       OnlyPublic(w, f.closing.client) && (w.ports.Managed? ==> f.closing.lease == Some(f.closing.client.port)))
  }

  // ---- holds ----

  /** held says, for each infohash, which single attach is at work on it. */
  ghost predicate HoldOk(ops: seq<Op>, held: map<Hash, nat>) {
    (forall i :: 0 <= i < |ops| && Active(ops[i]) ==>
       ops[i].source.hash in held && held[ops[i].source.hash] == i) &&
    forall h :: h in held ==> held[h] < |ops| && Active(ops[held[h]]) && ops[held[h]].source.hash == h
  }

  // ---- clients of their own ----

  predicate Registered(op: Op) {
    op.phase in {Attached, Retiring} && op.client.Some?
  }

  ghost predicate AloneOk(ops: seq<Op>, alone: map<Hash, nat>) {
    (forall i :: 0 <= i < |ops| && Registered(ops[i]) ==>
       ops[i].source.hash in alone && alone[ops[i].source.hash] == i) &&
    forall h :: h in alone ==> alone[h] < |ops| && Registered(ops[alone[h]]) && ops[alone[h]].source.hash == h
  }

  // ---- ports ----

  function ClosingLease(c: Closing): Option<int> {
    if c.ClosingClient? || c.ReturningPort? then c.lease else None
  }

  /** A lease and the place of its port say the same thing. */
  ghost predicate Placed(place: map<int, Place>, lease: Option<int>, at: Place) {
    (lease.Some? ==> lease.value in place && place[lease.value] == at) &&
    forall p :: p in place && place[p] == at ==> lease == Some(p)
  }

  /** Every allowed port is in exactly one place: once in the queue, or with the one attach, the shared client
      or the closing one that holds a lease on it. */
  ghost predicate QueueOk(w: World, q: Queue) {
    (forall a, b :: 0 <= a < b < |q.free| ==> q.free[a] != q.free[b]) &&
    (forall p :: p in q.place <==> p in Allowed(w)) &&
    forall p :: p in q.free <==> p in q.place && q.place[p] == InQueue
  }

  ghost predicate LeasesOk(place: map<int, Place>, ops: seq<Op>) {
    (forall i :: 0 <= i < |ops| ==> Placed(place, ops[i].lease, ByOp(i))) &&
    forall p :: p in place && place[p].ByOp? ==> place[p].i < |ops|
  }

  ghost predicate PortsOk(w: World, q: Queue, ops: seq<Op>, shared: Option<int>, closing: Option<int>) {
    QueueOk(w, q) && LeasesOk(q.place, ops) && Placed(q.place, shared, ByShared) && Placed(q.place, closing, ByClosing)
  }

  // ---- traffic ----

  /** Bytes on a client whose figure has not been taken yet. */
  function Unfolded(op: Op): nat {
    if op.client.Some? && !op.folded then op.client.value.received else 0
  }

  function Sum(ops: seq<Op>, f: Op -> nat): nat {
    if ops == [] then 0 else Sum(ops[..|ops| - 1], f) + f(ops[|ops| - 1])
  }

  lemma {:induction false} SumOfUpdate(ops: seq<Op>, i: nat, op: Op, f: Op -> nat)
    requires i < |ops|
    ensures Sum(ops[i := op], f) + f(ops[i]) == Sum(ops, f) + f(op)
  {
    var last := |ops| - 1;
    if i == last {
      assert ops[i := op][..last] == ops[..last];
    } else {
      SumOfUpdate(ops[..last], i, op, f);
      assert ops[i := op][..last] == ops[..last][i := op];
    }
  }

  lemma SumOfOneMore(ops: seq<Op>, op: Op, f: Op -> nat)
    ensures Sum(ops + [op], f) == Sum(ops, f) + f(op)
  {
    assert (ops + [op])[..|ops|] == ops;
  }

  function SharedBytes(f: Front): nat { if f.shared.Some? then f.shared.value.received else 0 }

  /** Every byte that ever arrived is in the pool's total, on a client whose figure is still to be taken, on
      one whose attach failed before the pool knew of it, or came after its client's figure was taken. */
  ghost predicate LedgerOk(ops: seq<Op>, shared: nat, b: Books) {
    b.arrived == b.retired + shared + Sum(ops, Unfolded) + b.lost + b.late
  }

  // ---- what replacing one attach keeps ----

  /** The same hold, the same lease, the same registration, the same bytes to be taken. */
  predicate Alike(a: Op, b: Op) {
    a.source == b.source && Active(a) == Active(b) && a.lease == b.lease && Registered(a) == Registered(b) &&
    Unfolded(a) == Unfolded(b)
  }

  lemma LocalStepIsAlike(w: World, op: Op, ok: bool)
    requires OpOk(w, op) && op.phase !in {NeedPort, AddFailed, ProbePublic, Registering, Retiring, ReturningOwn,
                                          Returning, Dropping, Releasing}
    ensures Alike(LocalStep(w, op, ok), op)
  {
  }

  lemma SetOpKeepsOps(w: World, ops: seq<Op>, i: nat, op: Op)
    requires OpsOk(w, ops) && i < |ops| && OpOk(w, op)
    ensures OpsOk(w, ops[i := op])
  {
  }

  lemma SetOpKeepsHold(ops: seq<Op>, held: map<Hash, nat>, i: nat, op: Op)
    requires HoldOk(ops, held) && i < |ops| && op.source == ops[i].source && Active(op) == Active(ops[i])
    ensures HoldOk(ops[i := op], held)
  {
  }

  lemma SetOpKeepsAlone(ops: seq<Op>, alone: map<Hash, nat>, i: nat, op: Op)
    requires AloneOk(ops, alone) && i < |ops| && op.source == ops[i].source && Registered(op) == Registered(ops[i])
    ensures AloneOk(ops[i := op], alone)
  {
  }

  lemma SetOpKeepsPorts(w: World, q: Queue, ops: seq<Op>, i: nat, op: Op, shared: Option<int>, closing: Option<int>)
    requires PortsOk(w, q, ops, shared, closing) && i < |ops| && op.lease == ops[i].lease
    ensures PortsOk(w, q, ops[i := op], shared, closing)
  {
  }

  // ---- ports: what the pool's queue does ----

  lemma TakeKeepsPorts(w: World, q: Queue, ops: seq<Op>, i: nat, op: Op, shared: Option<int>, closing: Option<int>)
    requires PortsOk(w, q, ops, shared, closing) && i < |ops| && CanTake(w, q) && ops[i].lease.None?
    requires op.lease == TakePort(w, q, i).lease
    ensures PortsOk(w, TakePort(w, q, i).queue, ops[i := op], shared, closing)
  {
    if w.ports.Managed? {
      var p := q.free[0];
      assert p in q.free;
      assert forall x :: x in q.free[1..] <==> x in q.free && x != p;
    }
  }

  lemma GiveKeepsPorts(w: World, q: Queue, ops: seq<Op>, i: nat, op: Op, shared: Option<int>, closing: Option<int>)
    requires PortsOk(w, q, ops, shared, closing) && i < |ops| && op.lease.None?
    ensures PortsOk(w, GivePort(q, ops[i].lease), ops[i := op], shared, closing)
  {
    assert Placed(q.place, ops[i].lease, ByOp(i));
    if ops[i].lease.Some? {
      var p := ops[i].lease.value;
      assert q.place[p] == ByOp(i);
      assert p !in q.free;
    }
  }

  lemma ClosingGivesItsPort(w: World, q: Queue, ops: seq<Op>, shared: Option<int>, closing: Option<int>)
    requires PortsOk(w, q, ops, shared, closing)
    ensures PortsOk(w, GivePort(q, closing), ops, shared, None)
  {
    if closing.Some? {
      var p := closing.value;
      assert q.place[p] == ByClosing;
      assert p !in q.free;
    }
  }

  lemma SharedTakesTheLease(w: World, q: Queue, ops: seq<Op>, i: nat, op: Op, closing: Option<int>)
    requires PortsOk(w, q, ops, None, closing) && i < |ops| && op.lease.None?
    ensures PortsOk(w, Moved(q, ops[i].lease, ByShared), ops[i := op], ops[i].lease, closing)
  {
    assert Placed(q.place, ops[i].lease, ByOp(i));
  }

  lemma ClosingTakesTheLease(w: World, q: Queue, ops: seq<Op>, shared: Option<int>)
    requires PortsOk(w, q, ops, shared, None)
    ensures PortsOk(w, Moved(q, shared, ByClosing), ops, None, shared)
  {
  }
}
