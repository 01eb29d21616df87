/** The two accounts of the pool agree: what an event of PoolModel does to the fields the mutex guards is what the
    lock section of that event, as Pools writes it, does to them; and a port queue moves as a PortPool does. */
module PoolRefinement {
  import opened Paths
  import opened PoolModel
  import opened PoolInvariant
  import opened PoolSafety
  import opened PoolTheorems
  import PoolLedger
  import Pools
  import PortPools

  // ---- the fields the mutex guards ----

  function ReceivedAt(ops: seq<Op>, i: nat): nat { if i < |ops| then ReceivedBy(ops[i]) else 0 }

  function AloneFigures(ops: seq<Op>, alone: map<Hash, nat>): map<Hash, nat> {
    map h | h in alone :: ReceivedAt(ops, alone[h])
  }

  function FieldsOf(s: State): Pools.Fields {
    Pools.Fields(s.held.Keys, AloneFigures(s.ops, s.alone),
                 if s.front.shared.Some? then Some(s.front.shared.value.received) else None,
                 s.books.retired, s.front.closed)
  }

  /** The lock section a step of an attach is; most of them are outside the lock. */
  function StepSection(op: Op, f: Pools.Fields): Pools.Fields {
    var key := op.source.hash;
    match op.phase
    case Releasing => Pools.Released(f, key)
    case Registering => Pools.Listed(f, key, ReceivedBy(op))
    case Retiring => if key in f.alone then Pools.Retired(f, key) else f
    case ProbePublic => Pools.Folded(f, ReceivedBy(op))
    case AddFailed => if op.kind == Probe then Pools.Folded(f, ReceivedBy(op)) else f
    case _ => f
  }

  /** What an event does to those fields: a lock section, the shared client coming up, or bytes arriving. */
  function Section(s: State, e: Event, f: Pools.Fields, t: State): Pools.Fields {
    match e
    case Attach(src) => Pools.Reserved(f, src.hash)
    case Close => Pools.ClosedDown(f)
    case Step(i, _) => if i < |s.ops| then StepSection(s.ops[i], f) else f
    case Door(_, _, _, _, _) => if f.shared.None? && t.front.shared.Some? then f.(shared := Some(0)) else f
    case Arrive(i, n) =>
      if i < |s.ops| && Registered(s.ops[i]) && Receives(s.ops[i].client)
      then Pools.Listed(f, s.ops[i].source.hash, ReceivedBy(s.ops[i]) + n) else f
    case ArriveShared(n) =>
      if Receives(s.front.shared) then f.(shared := Some(Pools.SharedFigure(f) + n)) else f
    case _ => f
  }

  lemma AloneWithOneReplaced(ops: seq<Op>, alone: map<Hash, nat>, i: nat, op: Op)
    requires AloneOk(ops, alone) && i < |ops| && (Registered(ops[i]) ==> ReceivedBy(op) == ReceivedBy(ops[i]))
    ensures AloneFigures(ops[i := op], alone) == AloneFigures(ops, alone)
  {
  }

  lemma AloneWithOneMore(ops: seq<Op>, alone: map<Hash, nat>, op: Op)
    requires AloneOk(ops, alone)
    ensures AloneFigures(ops + [op], alone) == AloneFigures(ops, alone)
  {
  }

  lemma AttachIsReserve(w: World, s: State, src: Source)
    requires AloneOk(s.ops, s.alone)
    ensures FieldsOf(Reserve(w, s, src)) == Pools.Reserved(FieldsOf(s), src.hash)
  {
    AloneWithOneMore(s.ops, s.alone, NewOp(w, src));
    if !s.front.closed && src.hash !in s.held {
      assert s.held[src.hash := |s.ops|].Keys == s.held.Keys + {src.hash};
    }
  }

  /** A step that replaces an attach and leaves what the mutex guards alone. */
  lemma OutsideTheLock(s: State, t: State, i: nat)
    requires AloneOk(s.ops, s.alone) && i < |s.ops| == |t.ops| && t.ops == s.ops[i := t.ops[i]]
    requires Registered(s.ops[i]) ==> ReceivedBy(t.ops[i]) == ReceivedBy(s.ops[i])
    requires t.held == s.held && t.alone == s.alone && t.books.retired == s.books.retired
    requires t.front.closed == s.front.closed && t.front.shared.Some? == s.front.shared.Some?
    requires SharedBytes(t.front) == SharedBytes(s.front)
    ensures FieldsOf(t) == FieldsOf(s)
  {
    AloneWithOneReplaced(s.ops, s.alone, i, t.ops[i]);
  }

  lemma LocalStepIsOutside(w: World, s: State, i: nat, ok: bool)
    requires AloneOk(s.ops, s.alone) && i < |s.ops| && TouchesOnlyItself(s.ops[i].phase) && OpOk(w, s.ops[i])
    ensures FieldsOf(OpStep(w, s, i, ok)) == FieldsOf(s)
  {
    LocalStepIsAlike(w, s.ops[i], ok);
    OutsideTheLock(s, OpStep(w, s, i, ok), i);
  }

  lemma RegisteringIsAloneOn(s: State, i: nat, op: Op)
    requires AloneOk(s.ops, s.alone) && i < |s.ops| && !Registered(s.ops[i]) && ReceivedBy(op) == ReceivedBy(s.ops[i])
    ensures AloneFigures(s.ops[i := op], s.alone[op.source.hash := i]) ==
            AloneFigures(s.ops, s.alone)[op.source.hash := ReceivedBy(op)]
  {
    AloneWithOneReplaced(s.ops, s.alone, i, op);
    assert AloneFigures(s.ops[i := op], s.alone[op.source.hash := i]) ==
           AloneFigures(s.ops[i := op], s.alone)[op.source.hash := ReceivedBy(op)];
  }

  lemma RetiringIsRetire(ops: seq<Op>, alone: map<Hash, nat>, i: nat, op: Op)
    requires AloneOk(ops, alone) && i < |ops| && Registered(ops[i]) && ReceivedBy(op) == ReceivedBy(ops[i])
    ensures ops[i].source.hash in alone && alone[ops[i].source.hash] == i
    ensures AloneFigures(ops[i := op], alone - {ops[i].source.hash}) == AloneFigures(ops, alone) - {ops[i].source.hash}
  {
  }

  lemma StepIsItsSection(w: World, s: State, i: nat, ok: bool)
    requires AloneOk(s.ops, s.alone) && i < |s.ops| && OpOk(w, s.ops[i])
    ensures FieldsOf(OpStep(w, s, i, ok)) == StepSection(s.ops[i], FieldsOf(s))
  {
    var op, t := s.ops[i], OpStep(w, s, i, ok);
    StepIsLocal(w, s, i, ok);
    if TouchesOnlyItself(op.phase) {
      LocalStepIsOutside(w, s, i, ok);
    } else if op.phase == Registering {
      RegisteringIsAloneOn(s, i, t.ops[i]);
    } else if op.phase == Retiring {
      RetiringIsRetire(s.ops, s.alone, i, t.ops[i]);
    } else {
      AloneWithOneReplaced(s.ops, s.alone, i, t.ops[i]);
      if op.phase == Releasing { assert t.held.Keys == s.held.Keys - {op.source.hash}; }
    }
  }

  lemma DoorIsOutside(w: World, s: State, i: nat, readable: bool, starts: bool, adds: bool, arrives: bool)
    requires AloneOk(s.ops, s.alone) && i < |s.ops| && s.ops[i].phase == AtDoor && s.ops[i].client.None?
    ensures var t := DoorStep(w, s, i, readable, starts, adds, arrives);
            FieldsOf(t) == Section(s, Door(i, readable, starts, adds, arrives), FieldsOf(s), t)
  {
    var t := DoorStep(w, s, i, readable, starts, adds, arrives);
    PoolLedger.DoorGains(w, s, i, readable, starts, adds, arrives);
    DoorOutcome(w, s, i, readable, starts, adds, arrives);
    AloneWithOneReplaced(s.ops, s.alone, i, t.ops[i]);
    DoorLeavesClosed(w, s, i, readable, starts, adds, arrives);
  }

  lemma DoorLeavesClosed(w: World, s: State, i: nat, readable: bool, starts: bool, adds: bool, arrives: bool)
    requires i < |s.ops|
    ensures var t := DoorStep(w, s, i, readable, starts, adds, arrives);
            t.front.closed == s.front.closed && (s.front.shared.Some? ==> t.front.shared.Some?)
  {
  }

  lemma FeedingLists(ops: seq<Op>, alone: map<Hash, nat>, i: nat, op: Op)
    requires AloneOk(ops, alone) && i < |ops| && op.source == ops[i].source && Registered(ops[i])
    ensures AloneFigures(ops[i := op], alone) == AloneFigures(ops, alone)[op.source.hash := ReceivedBy(op)]
  {
  }

  lemma ArrivalIsListed(w: World, s: State, i: nat, n: nat)
    requires AloneOk(s.ops, s.alone) && i < |s.ops| && Receives(s.ops[i].client)
    ensures FieldsOf(ArriveAt(s, i, n)) == Section(s, Arrive(i, n), FieldsOf(s), ArriveAt(s, i, n))
  {
    var op := ArriveAt(s, i, n).ops[i];
    if Registered(s.ops[i]) {
      FeedingLists(s.ops, s.alone, i, op);
    } else {
      AloneWithOneReplaced(s.ops, s.alone, i, op);
    }
  }

  lemma DetachIsOutside(s: State, i: nat)
    requires AloneOk(s.ops, s.alone) && i < |s.ops|
    ensures FieldsOf(DetachStep(s, i)) == FieldsOf(s)
  {
    OutsideTheLock(s, DetachStep(s, i), i);
  }

  /** Close, what follows it, and what arrives at the clients that are the pool's own. */
  lemma TheRestAreSections(w: World, s: State, e: Event)
    requires e.Close? || e.CloseStep? || e.ArriveShared? || e.ArriveClosing?
    ensures var t := Apply(w, s, e); FieldsOf(t) == Section(s, e, FieldsOf(s), t)
  {
  }

  ghost predicate IsItsSection(w: World, s: State, e: Event) {
    FieldsOf(Apply(w, s, e)) == Section(s, e, FieldsOf(s), Apply(w, s, e))
  }

  lemma StepsAreSections(w: World, s: State, e: Event)
    requires AloneOk(s.ops, s.alone) && OpsOk(w, s.ops) && e.Step?
    ensures IsItsSection(w, s, e)
  {
    if e.i < |s.ops| { StepIsItsSection(w, s, e.i, e.ok); }
  }

  lemma DoorsAreSections(w: World, s: State, e: Event)
    requires AloneOk(s.ops, s.alone) && OpsOk(w, s.ops) && e.Door?
    ensures IsItsSection(w, s, e)
  {
    if e.i < |s.ops| && s.ops[e.i].phase == AtDoor {
      assert OpOk(w, s.ops[e.i]);
      DoorIsOutside(w, s, e.i, e.readable, e.starts, e.adds, e.arrives);
    }
  }

  lemma CallsAreSections(w: World, s: State, e: Event)
    requires AloneOk(s.ops, s.alone) && (e.Attach? || e.Detach? || e.Arrive?)
    ensures IsItsSection(w, s, e)
  {
    match e {
      case Attach(src) => AttachIsReserve(w, s, src);
      case Detach(i) => if i < |s.ops| { DetachIsOutside(s, i); }
      case Arrive(i, n) => if i < |s.ops| && Receives(s.ops[i].client) { ArrivalIsListed(w, s, i, n); }
    }
  }

  /** Every event that can happen does to the pool's fields exactly what its lock section does. */
  lemma EventsAreSections(w: World, s: State, e: Event)
    requires Inv(w, s)
    ensures FieldsOf(Apply(w, s, e)) == Section(s, e, FieldsOf(s), Apply(w, s, e))
  {
    assert IsItsSection(w, s, e) by {
      if e.Step? {
        StepsAreSections(w, s, e);
      } else if e.Door? {
        DoorsAreSections(w, s, e);
      } else if e.Attach? || e.Detach? || e.Arrive? {
        CallsAreSections(w, s, e);
      } else {
        TheRestAreSections(w, s, e);
      }
    }
  }

  // ---- the total ----

  /** The figures of the first n attaches. */
  function FiguresUpTo(ops: seq<Op>, alone: map<Hash, nat>, n: nat): map<Hash, nat> {
    map h | h in alone && alone[h] < n :: ReceivedAt(ops, alone[h])
  }

  predicate Mine(ops: seq<Op>, alone: map<Hash, nat>, i: nat)
    requires i < |ops|
  {
    ops[i].source.hash in alone && alone[ops[i].source.hash] == i
  }

  lemma OneMoreFigure(ops: seq<Op>, alone: map<Hash, nat>, i: nat)
    requires AloneOk(ops, alone) && i < |ops|
    ensures var key, longer, shorter := ops[i].source.hash, FiguresUpTo(ops, alone, i + 1), FiguresUpTo(ops, alone, i);
            if Mine(ops, alone, i) then key in longer && longer[key] == ReceivedBy(ops[i]) && longer - {key} == shorter
            else longer == shorter
  {
    forall h | h in alone && alone[h] == i ensures h == ops[i].source.hash && Mine(ops, alone, i) {
      assert ops[alone[h]].source.hash == h;
    }
  }

  lemma {:induction false} AloneAddsUp(ops: seq<Op>, alone: map<Hash, nat>, n: nat)
    requires AloneOk(ops, alone) && n <= |ops|
    ensures Pools.SumOf(FiguresUpTo(ops, alone, n)) == PoolLedger.AloneBytes(ops, alone, n)
  {
    if n == 0 {
      assert FiguresUpTo(ops, alone, n) == map[];
    } else {
      AloneAddsUp(ops, alone, n - 1);
      OneMoreFigure(ops, alone, n - 1);
      if Mine(ops, alone, n - 1) { Pools.SumWithout(FiguresUpTo(ops, alone, n), ops[n - 1].source.hash); }
    }
  }

  lemma DownloadedIsTotalOf(s: State)
    requires AloneOk(s.ops, s.alone)
    ensures PoolLedger.Downloaded(s) == Pools.TotalOf(FieldsOf(s))
  {
    AloneAddsUp(s.ops, s.alone, |s.ops|);
    assert FiguresUpTo(s.ops, s.alone, |s.ops|) == AloneFigures(s.ops, s.alone);
  }

  /** What Downloaded reports in the model is the total of the fields, over every run. */
  lemma DownloadedIsTheTotal(w: World, events: seq<Event>)
    requires ProperWorld(w)
    ensures PoolLedger.Downloaded(After(w, events)) == Pools.TotalOf(FieldsOf(After(w, events)))
  {
    EveryRunKeeps(w, events);
    DownloadedIsTotalOf(After(w, events));
  }

  // ---- the port queue ----

  /** A managed pool and the model's queue, in step: the same ports wait in the same order, the same are out. */
  ghost predicate InStep(pool: PortPools.PortPool, q: Queue)
    reads pool
  {
    pool.Valid() && pool.free == q.free &&
    forall p :: p in pool.holder <==> p in q.place && q.place[p] != InQueue
  }

  method AcquireInStep(pool: PortPools.PortPool, ghost w: World, ghost q: Queue, ghost i: nat)
    returns (lease: PortPools.PortLease?)
    requires InStep(pool, q) && w.ports == Managed(pool.ports) && pool.ports != []
    modifies pool
    ensures lease == null <==> !CanTake(w, q)
    ensures lease != null ==>
              lease.Live() && TakePort(w, q, i).lease == Some(lease.port) && InStep(pool, TakePort(w, q, i).queue)
    ensures lease == null ==> InStep(pool, q)
  {
    lease := pool.Acquire();
  }

  method ReleaseInStep(pool: PortPools.PortPool, lease: PortPools.PortLease, ghost q: Queue)
    requires InStep(pool, q) && lease.pool == pool && lease.Live() && pool.ports != []
    modifies pool, lease
    ensures InStep(pool, GivePort(q, Some(lease.port)))
  {
    assert lease.port in pool.holder;
    lease.Release();
  }
}
