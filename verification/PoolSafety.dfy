/** Every step of every attach, detach and close keeps the pool's invariant, so every run does. */
module PoolSafety {
  import opened Paths
  import opened PoolModel
  import opened PoolInvariant

  ghost predicate Inv(w: World, s: State) {
    OpsOk(w, s.ops) && FrontOk(w, s.front) && HoldOk(s.ops, s.held) && AloneOk(s.ops, s.alone) &&
    PortsOk(w, s.queue, s.ops, s.front.lease, ClosingLease(s.front.closing)) &&
    LedgerOk(s.ops, SharedBytes(s.front), s.books)
  }

  // ---- the steps of one attach ----

  /** A step that touches nothing but the attach itself, and in it neither hold, lease, registration nor bytes. */
  lemma QuietStep(w: World, s: State, i: nat, op: Op)
    requires Inv(w, s) && i < |s.ops| && OpOk(w, op) && Alike(op, s.ops[i])
    ensures Inv(w, Put(s, i, op))
  {
    SetOpKeepsOps(w, s.ops, i, op);
    SetOpKeepsHold(s.ops, s.held, i, op);
    SetOpKeepsAlone(s.ops, s.alone, i, op);
    SetOpKeepsPorts(w, s.queue, s.ops, i, op, s.front.lease, ClosingLease(s.front.closing));
    SumOfUpdate(s.ops, i, op, Unfolded);
  }

  lemma StartsWithAPort(w: World, op: Op, next: Op)
    requires OpOk(w, op) && op.phase == NeedPort && next == op.(phase := Starting, lease := next.lease)
    requires w.ports.Managed? <==> next.lease.Some?
    ensures OpOk(w, next) && Active(next) && !Registered(next) && Unfolded(next) == Unfolded(op)
  {
  }

  lemma TakingKeeps(w: World, s: State, i: nat, claim: Claim, next: Op)
    requires Inv(w, s) && i < |s.ops| && s.ops[i].phase == NeedPort
    requires CanTake(w, s.queue) && claim == TakePort(w, s.queue, i)
    requires next == s.ops[i].(phase := Starting, lease := claim.lease)
    ensures Inv(w, Put(s.(queue := claim.queue), i, next))
  {
    assert OpOk(w, s.ops[i]);
    StartsWithAPort(w, s.ops[i], next);
    SetOpKeepsOps(w, s.ops, i, next);
    SetOpKeepsHold(s.ops, s.held, i, next);
    SetOpKeepsAlone(s.ops, s.alone, i, next);
    TakeKeepsPorts(w, s.queue, s.ops, i, next, s.front.lease, ClosingLease(s.front.closing));
    SumOfUpdate(s.ops, i, next, Unfolded);
  }

  lemma NoPortLeft(w: World, s: State, i: nat)
    requires Inv(w, s) && i < |s.ops| && s.ops[i].phase == NeedPort
    ensures Inv(w, Put(s, i, s.ops[i].(phase := Releasing)))
  {
    assert OpOk(w, s.ops[i]);
    QuietStep(w, s, i, s.ops[i].(phase := Releasing));
  }

  lemma NeedPortKeeps(w: World, s: State, i: nat)
    requires Inv(w, s) && i < |s.ops| && s.ops[i].phase == NeedPort
    ensures Inv(w, NeedPortStep(w, s, i))
  {
    var op := s.ops[i];
    if CanTake(w, s.queue) {
      var claim := TakePort(w, s.queue, i);
      TakingKeeps(w, s, i, claim, op.(phase := Starting, lease := claim.lease));
    } else {
      NoPortLeft(w, s, i);
    }
  }

  /** A step that moves bytes: on to a client, or off one as lost or as counted. */
  lemma BooksStep(w: World, s: State, i: nat, op: Op, books: Books)
    requires Inv(w, s) && i < |s.ops| && OpOk(w, op) && op.source == s.ops[i].source && Active(op) == Active(s.ops[i])
    requires op.lease == s.ops[i].lease && Registered(op) == Registered(s.ops[i])
    requires books.retired + books.lost + books.late + Unfolded(op) - books.arrived ==
             s.books.retired + s.books.lost + s.books.late + Unfolded(s.ops[i]) - s.books.arrived
    ensures Inv(w, Put(s.(books := books), i, op))
  {
    SetOpKeepsOps(w, s.ops, i, op);
    SetOpKeepsHold(s.ops, s.held, i, op);
    SetOpKeepsAlone(s.ops, s.alone, i, op);
    SetOpKeepsPorts(w, s.queue, s.ops, i, op, s.front.lease, ClosingLease(s.front.closing));
    SumOfUpdate(s.ops, i, op, Unfolded);
  }

  lemma AddFailedKeeps(w: World, s: State, i: nat)
    requires Inv(w, s) && i < |s.ops| && s.ops[i].phase == AddFailed
    ensures Inv(w, AddFailedStep(s, i))
  {
    var op := s.ops[i];
    assert OpOk(w, op);
    if op.kind == Probe {
      BooksStep(w, s, i, op.(phase := ProbeFailed, folded := true), Fold(s.books, op));
    } else {
      BooksStep(w, s, i, op.(phase := Returning, client := None), Lose(s.books, op));
    }
  }

  lemma ProbePublicKeeps(w: World, s: State, i: nat)
    requires Inv(w, s) && i < |s.ops| && s.ops[i].phase == ProbePublic
    ensures Inv(w, Put(s.(books := Fold(s.books, s.ops[i])), i, s.ops[i].(phase := ProbeLeaving, folded := true)))
  {
    assert OpOk(w, s.ops[i]);
    BooksStep(w, s, i, s.ops[i].(phase := ProbeLeaving, folded := true), Fold(s.books, s.ops[i]));
  }

  lemma RegisteringKeeps(w: World, s: State, i: nat)
    requires Inv(w, s) && i < |s.ops| && s.ops[i].phase == Registering
    ensures Inv(w, Put(s.(alone := s.alone[s.ops[i].source.hash := i]), i, s.ops[i].(phase := Attached)))
  {
    var op := s.ops[i];
    var next := op.(phase := Attached);
    assert OpOk(w, op);
    SetOpKeepsOps(w, s.ops, i, next);
    SetOpKeepsHold(s.ops, s.held, i, next);
    SetOpKeepsPorts(w, s.queue, s.ops, i, next, s.front.lease, ClosingLease(s.front.closing));
    SumOfUpdate(s.ops, i, next, Unfolded);
    RegisteringKeepsAlone(s.ops, s.held, s.alone, i, next);
  }

  lemma RegisteringKeepsAlone(ops: seq<Op>, held: map<Hash, nat>, alone: map<Hash, nat>, i: nat, next: Op)
    requires HoldOk(ops, held) && AloneOk(ops, alone) && i < |ops| && Active(ops[i])
    requires next.source == ops[i].source && Registered(next) && !Registered(ops[i])
    ensures AloneOk(ops[i := next], alone[next.source.hash := i])
  {
    assert forall j :: 0 <= j < |ops| && j != i && Active(ops[j]) ==> ops[j].source.hash != ops[i].source.hash;
  }

  lemma RetiredIsOk(w: World, op: Op)
    requires OpOk(w, op) && op.phase == Retiring
    ensures var next := op.(phase := ClosingOwn, folded := true);
            OpOk(w, next) && Registered(op) && !Registered(next) &&
            Unfolded(op) == ReceivedBy(op) && Unfolded(next) == 0
  {
  }

  lemma RetiringKeeps(w: World, s: State, i: nat)
    requires Inv(w, s) && i < |s.ops| && s.ops[i].phase == Retiring
    ensures Inv(w, RetiringStep(s, i))
  {
    var op := s.ops[i];
    var next := op.(phase := ClosingOwn, folded := true);
    assert OpOk(w, op);
    RetiredIsOk(w, op);
    SetOpKeepsOps(w, s.ops, i, next);
    SetOpKeepsHold(s.ops, s.held, i, next);
    SetOpKeepsPorts(w, s.queue, s.ops, i, next, s.front.lease, ClosingLease(s.front.closing));
    SumOfUpdate(s.ops, i, next, Unfolded);
    RetiringKeepsAlone(s.ops, s.alone, i, next);
  }

  lemma RetiringKeepsAlone(ops: seq<Op>, alone: map<Hash, nat>, i: nat, next: Op)
    requires AloneOk(ops, alone) && i < |ops| && Registered(ops[i])
    requires next.source == ops[i].source && !Registered(next)
    ensures AloneOk(ops[i := next], alone - {next.source.hash})
  {
  }

  lemma ReturningKeeps(w: World, s: State, i: nat, phase: Phase)
    requires Inv(w, s) && i < |s.ops|
    requires (s.ops[i].phase == Returning && phase == Releasing) ||
             (s.ops[i].phase == ReturningOwn && phase == Discarding)
    ensures Inv(w, ReturningStep(s, i, phase))
  {
    var next := s.ops[i].(phase := phase, lease := None);
    assert OpOk(w, s.ops[i]);
    SetOpKeepsOps(w, s.ops, i, next);
    SetOpKeepsHold(s.ops, s.held, i, next);
    SetOpKeepsAlone(s.ops, s.alone, i, next);
    GiveKeepsPorts(w, s.queue, s.ops, i, next, s.front.lease, ClosingLease(s.front.closing));
    SumOfUpdate(s.ops, i, next, Unfolded);
  }

  lemma DropKeepsFront(w: World, f: Front, h: Hash)
    requires FrontOk(w, f)
    ensures FrontOk(w, DropShared(f, h)) && SharedBytes(DropShared(f, h)) == SharedBytes(f)
    ensures DropShared(f, h).lease == f.lease && ClosingLease(DropShared(f, h).closing) == ClosingLease(f.closing)
  {
  }

  lemma DroppingKeeps(w: World, s: State, i: nat)
    requires Inv(w, s) && i < |s.ops| && s.ops[i].phase == Dropping
    ensures Inv(w, Put(s.(front := DropShared(s.front, s.ops[i].source.hash)), i, s.ops[i].(phase := Discarding)))
  {
    assert OpOk(w, s.ops[i]);
    DropKeepsFront(w, s.front, s.ops[i].source.hash);
    QuietStep(w, s.(front := DropShared(s.front, s.ops[i].source.hash)), i, s.ops[i].(phase := Discarding));
  }

  lemma ReleasingKeepsHold(ops: seq<Op>, held: map<Hash, nat>, i: nat, next: Op)
    requires HoldOk(ops, held) && i < |ops| && Active(ops[i]) && next.source == ops[i].source && !Active(next)
    ensures HoldOk(ops[i := next], held - {next.source.hash})
  {
  }

  /** A step that gives up a hold and nothing else. */
  lemma HoldStep(w: World, s: State, i: nat, next: Op, held: map<Hash, nat>)
    requires Inv(w, s) && i < |s.ops| && OpOk(w, next) && next.source == s.ops[i].source
    requires next.lease == s.ops[i].lease && Registered(next) == Registered(s.ops[i])
    requires Unfolded(next) == Unfolded(s.ops[i]) && HoldOk(s.ops[i := next], held)
    ensures Inv(w, Put(s.(held := held), i, next))
  {
    SetOpKeepsOps(w, s.ops, i, next);
    SetOpKeepsAlone(s.ops, s.alone, i, next);
    SetOpKeepsPorts(w, s.queue, s.ops, i, next, s.front.lease, ClosingLease(s.front.closing));
    SumOfUpdate(s.ops, i, next, Unfolded);
  }

  lemma DoneIsOk(w: World, op: Op)
    requires OpOk(w, op) && op.phase == Releasing
    ensures var next := op.(phase := Done);
            OpOk(w, next) && Registered(next) == Registered(op) && Unfolded(next) == Unfolded(op)
  {
  }

  lemma ReleasingKeeps(w: World, s: State, i: nat)
    requires Inv(w, s) && i < |s.ops| && s.ops[i].phase == Releasing
    ensures Inv(w, Put(s.(held := s.held - {s.ops[i].source.hash}), i, s.ops[i].(phase := Done)))
  {
    var next := s.ops[i].(phase := Done);
    assert OpOk(w, s.ops[i]);
    DoneIsOk(w, s.ops[i]);
    ReleasingKeepsHold(s.ops, s.held, i, next);
    HoldStep(w, s, i, next, s.held - {s.ops[i].source.hash});
  }

  lemma LocalStepKeeps(w: World, s: State, i: nat, ok: bool)
    requires Inv(w, s) && i < |s.ops|
    requires s.ops[i].phase !in {NeedPort, AddFailed, ProbePublic, Registering, Retiring, ReturningOwn,
                                 Returning, Dropping, Releasing}
    ensures Inv(w, Put(s, i, LocalStep(w, s.ops[i], ok)))
  {
    assert OpOk(w, s.ops[i]);
    LocalStepIsOk(w, s.ops[i], ok);
    LocalStepIsAlike(w, s.ops[i], ok);
    QuietStep(w, s, i, LocalStep(w, s.ops[i], ok));
  }

  lemma OpStepKeeps(w: World, s: State, i: nat, ok: bool)
    requires Inv(w, s) && i < |s.ops|
    ensures Inv(w, OpStep(w, s, i, ok))
  {
    match s.ops[i].phase {
      case NeedPort => NeedPortKeeps(w, s, i);
      case AddFailed => AddFailedKeeps(w, s, i);
      case ProbePublic => ProbePublicKeeps(w, s, i);
      case Registering => RegisteringKeeps(w, s, i);
      case Retiring => RetiringKeeps(w, s, i);
      case ReturningOwn => ReturningKeeps(w, s, i, Discarding);
      case Returning => ReturningKeeps(w, s, i, Releasing);
      case Dropping => DroppingKeeps(w, s, i);
      case Releasing => ReleasingKeeps(w, s, i);
      case _ => LocalStepKeeps(w, s, i, ok);
    }
  }

  // ---- attachShared ----

  /** An attach inside the door, whatever it holds a lease on. */
  predicate InTheDoor(w: World, op: Op) {
    op.phase == AtDoor && op.client.None? && OpOk(w, op.(phase := Releasing, lease := None))
  }

  /** The invariant but for what it says of attach i itself. */
  ghost predicate InvBut(w: World, s: State, i: nat) {
    i < |s.ops| && InTheDoor(w, s.ops[i]) &&
    (forall j :: 0 <= j < |s.ops| && j != i ==> OpOk(w, s.ops[j])) &&
    FrontOk(w, s.front) && HoldOk(s.ops, s.held) && AloneOk(s.ops, s.alone) &&
    PortsOk(w, s.queue, s.ops, s.front.lease, ClosingLease(s.front.closing)) &&
    LedgerOk(s.ops, SharedBytes(s.front), s.books)
  }

  lemma LeavesOk(w: World, op: Op, phase: Phase)
    requires InTheDoor(w, op)
    requires phase == Returning || (phase in {Releasing, Attached} && op.lease.None?)
    requires phase == Attached ==> !w.private(op.source.hash)
    ensures OpOk(w, op.(phase := phase)) && Alike(op.(phase := phase), op)
  {
  }

  lemma LeaveDoor(w: World, s: State, i: nat, phase: Phase)
    requires InvBut(w, s, i)
    requires phase == Returning || (phase in {Releasing, Attached} && s.ops[i].lease.None?)
    requires phase == Attached ==> !w.private(s.ops[i].source.hash)
    ensures Inv(w, Put(s, i, s.ops[i].(phase := phase)))
  {
    var op := s.ops[i].(phase := phase);
    LeavesOk(w, s.ops[i], phase);
    SetOpKeepsHold(s.ops, s.held, i, op);
    SetOpKeepsAlone(s.ops, s.alone, i, op);
    SetOpKeepsPorts(w, s.queue, s.ops, i, op, s.front.lease, ClosingLease(s.front.closing));
    SumOfUpdate(s.ops, i, op, Unfolded);
  }

  lemma JoinKeeps(w: World, s: State, i: nat, readable: bool, adds: bool, arrives: bool)
    requires InvBut(w, s, i) && s.ops[i].lease.None? && s.front.shared.Some? && !w.private(s.ops[i].source.hash)
    ensures Inv(w, JoinShared(w, s, i, readable, adds, arrives))
  {
    var op := s.ops[i];
    var into := AddTo(s.front.shared.value, op.source.hash, DoorKnown(w, op, readable), adds);
    if into.None? {
      LeaveDoor(w, s, i, Releasing);
    } else {
      LeaveDoor(w, s.(front := s.front.(shared := into)), i, if arrives then Attached else Releasing);
    }
  }

  lemma DoorGives(w: World, s: State, i: nat)
    requires InvBut(w, s, i)
    ensures InvBut(w, Put(s.(queue := GivePort(s.queue, s.ops[i].lease)), i, s.ops[i].(lease := None)), i)
  {
    var op := s.ops[i].(lease := None);
    SetOpKeepsHold(s.ops, s.held, i, op);
    SetOpKeepsAlone(s.ops, s.alone, i, op);
    GiveKeepsPorts(w, s.queue, s.ops, i, op, s.front.lease, ClosingLease(s.front.closing));
    SumOfUpdate(s.ops, i, op, Unfolded);
  }

  /** The port a .torrent takes at the door, were it written down before the client starts on it. */
  lemma DoorTakes(w: World, s: State, i: nat)
    requires InvBut(w, s, i) && s.ops[i].lease.None? && CanTake(w, s.queue)
    ensures var claim := TakePort(w, s.queue, i);
            InvBut(w, Put(s.(queue := claim.queue), i, s.ops[i].(lease := claim.lease)), i) &&
            (w.ports.Managed? ==> claim.lease.Some?)
  {
    var op := s.ops[i].(lease := TakePort(w, s.queue, i).lease);
    SetOpKeepsHold(s.ops, s.held, i, op);
    SetOpKeepsAlone(s.ops, s.alone, i, op);
    TakeKeepsPorts(w, s.queue, s.ops, i, op, s.front.lease, ClosingLease(s.front.closing));
    SumOfUpdate(s.ops, i, op, Unfolded);
  }

  lemma FreshFrontIsOk(w: World, f: Front, lease: Option<int>)
    requires FrontOk(w, f) && f.shared.None? && !f.closed && (w.ports.Managed? ==> lease.Some?)
    ensures var started := f.(shared := Some(Client(w.dht, BoundPort(w, lease), {}, 0)), lease := lease);
            FrontOk(w, started) && SharedBytes(started) == SharedBytes(f) && f.lease.None?
  {
  }

  lemma DoorStarts(w: World, s: State, i: nat)
    requires InvBut(w, s, i) && s.front.shared.None? && !s.front.closed
    requires w.ports.Managed? ==> s.ops[i].lease.Some?
    ensures InvBut(w, StartShared(w, s, i, Claim(s.queue, s.ops[i].lease)), i)
  {
    var op := s.ops[i].(lease := None);
    FreshFrontIsOk(w, s.front, s.ops[i].lease);
    SetOpKeepsHold(s.ops, s.held, i, op);
    SetOpKeepsAlone(s.ops, s.alone, i, op);
    SharedTakesTheLease(w, s.queue, s.ops, i, op, ClosingLease(s.front.closing));
    SumOfUpdate(s.ops, i, op, Unfolded);
  }

  /** The rest of the door, once its port is settled. */
  lemma DoorWithAPort(w: World, s: State, i: nat, readable: bool, starts: bool, adds: bool, arrives: bool)
    requires InvBut(w, s, i) && s.front.shared.None? && !s.front.closed && !w.private(s.ops[i].source.hash)
    requires w.ports.Managed? ==> s.ops[i].lease.Some?
    ensures starts ==>
              Inv(w, JoinShared(w, StartShared(w, s, i, Claim(s.queue, s.ops[i].lease)), i, readable, adds, arrives))
    ensures Inv(w, Put(s, i, s.ops[i].(phase := Returning)))
  {
    LeaveDoor(w, s, i, Returning);
    if starts {
      DoorStarts(w, s, i);
      JoinKeeps(w, StartShared(w, s, i, Claim(s.queue, s.ops[i].lease)), i, readable, adds, arrives);
    }
  }

  /** Writing the taken port down first changes nothing. */
  lemma TakenIsTheSame(w: World, s: State, i: nat, claim: Claim)
    requires i < |s.ops|
    ensures var t := Put(s.(queue := claim.queue), i, s.ops[i].(lease := claim.lease));
            StartShared(w, t, i, Claim(t.queue, t.ops[i].lease)) == StartShared(w, s, i, claim) &&
            Put(t, i, t.ops[i].(phase := Returning)) ==
            Put(s.(queue := claim.queue), i, s.ops[i].(phase := Returning, lease := claim.lease))
  {
  }

  /** The door with no shared client behind it yet. */
  lemma FirstThroughTheDoor(w: World, s: State, i: nat, readable: bool, starts: bool, adds: bool, arrives: bool)
    requires InvBut(w, s, i) && s.front.shared.None? && !s.front.closed && s.ops[i].phase == AtDoor
    requires OpOk(w, s.ops[i]) && DoorKnown(w, s.ops[i], readable) == Some(false)
    ensures Inv(w, DoorStep(w, s, i, readable, starts, adds, arrives))
  {
    var op := s.ops[i];
    if op.kind == Probe {
      DoorWithAPort(w, s, i, readable, starts, adds, arrives);
      TakenIsTheSame(w, s, i, Claim(s.queue, op.lease));
    } else if !CanTake(w, s.queue) {
      LeaveDoor(w, s, i, Releasing);
    } else {
      var claim := TakePort(w, s.queue, i);
      DoorTakes(w, s, i);
      DoorWithAPort(w, Put(s.(queue := claim.queue), i, op.(lease := claim.lease)), i, readable, starts, adds, arrives);
      TakenIsTheSame(w, s, i, claim);
    }
  }

  lemma DoorKeeps(w: World, s: State, i: nat, readable: bool, starts: bool, adds: bool, arrives: bool)
    requires Inv(w, s) && i < |s.ops| && s.ops[i].phase == AtDoor
    ensures Inv(w, DoorStep(w, s, i, readable, starts, adds, arrives))
  {
    var op := s.ops[i];
    assert OpOk(w, op);
    assert InvBut(w, s, i);
    if DoorKnown(w, op, readable) != Some(false) || s.front.closed {
      LeaveDoor(w, s, i, Returning);
    } else if s.front.shared.Some? {
      DoorGives(w, s, i);
      JoinKeeps(w, Put(s.(queue := GivePort(s.queue, op.lease)), i, op.(lease := None)), i, readable, adds, arrives);
    } else {
      FirstThroughTheDoor(w, s, i, readable, starts, adds, arrives);
    }
  }

  // ---- the pool's own calls ----

  lemma OneMoreKeepsPorts(w: World, q: Queue, ops: seq<Op>, op: Op, shared: Option<int>, closing: Option<int>)
    requires PortsOk(w, q, ops, shared, closing) && op.lease.None?
    ensures PortsOk(w, q, ops + [op], shared, closing)
  {
    assert forall p :: p in q.place && q.place[p].ByOp? ==> q.place[p].i < |ops|;
  }

  lemma OneMoreKeepsHold(ops: seq<Op>, held: map<Hash, nat>, op: Op)
    requires HoldOk(ops, held) && op.source.hash !in held && Active(op)
    ensures HoldOk(ops + [op], held[op.source.hash := |ops|])
  {
  }

  lemma OneMoreKeepsOps(w: World, ops: seq<Op>, op: Op)
    requires OpsOk(w, ops) && OpOk(w, op)
    ensures OpsOk(w, ops + [op])
  {
  }

  lemma OneMoreKeepsAlone(ops: seq<Op>, alone: map<Hash, nat>, op: Op)
    requires AloneOk(ops, alone) && !Registered(op)
    ensures AloneOk(ops + [op], alone)
  {
  }

  lemma NewOpIsQuiet(w: World, src: Source)
    ensures var op := NewOp(w, src);
            op.source == src && op.lease.None? && Active(op) && !Registered(op) && Unfolded(op) == 0
  {
  }

  /** A hold taken by an attach that has nothing yet. */
  lemma HoldingKeeps(w: World, s: State, op: Op)
    requires Inv(w, s) && op.source.hash !in s.held && OpOk(w, op)
    requires op.lease.None? && Active(op) && !Registered(op) && Unfolded(op) == 0
    ensures Inv(w, s.(held := s.held[op.source.hash := |s.ops|], ops := s.ops + [op]))
  {
    OneMoreKeepsOps(w, s.ops, op);
    OneMoreKeepsAlone(s.ops, s.alone, op);
    OneMoreKeepsHold(s.ops, s.held, op);
    OneMoreKeepsPorts(w, s.queue, s.ops, op, s.front.lease, ClosingLease(s.front.closing));
    SumOfOneMore(s.ops, op, Unfolded);
  }

  lemma ReserveKeeps(w: World, s: State, src: Source)
    requires Inv(w, s)
    ensures Inv(w, Reserve(w, s, src))
  {
    if !s.front.closed && src.hash !in s.held {
      NewOpIsOk(w, src);
      NewOpIsQuiet(w, src);
      HoldingKeeps(w, s, NewOp(w, src));
    }
  }

  lemma DetachKeeps(w: World, s: State, i: nat)
    requires Inv(w, s) && i < |s.ops|
    ensures Inv(w, DetachStep(s, i))
  {
    assert OpOk(w, s.ops[i]);
    if s.ops[i].phase == Attached { QuietStep(w, s, i, DetachStep(s, i).ops[i]); }
  }

  lemma CloseKeeps(w: World, s: State)
    requires Inv(w, s)
    ensures Inv(w, ClosePool(s))
  {
    if !s.front.closed && s.front.shared.Some? { ClosingTakesTheLease(w, s.queue, s.ops, s.front.lease); }
  }

  lemma CloseStepKeeps(w: World, s: State)
    requires Inv(w, s)
    ensures Inv(w, CloseStepOf(s))
  {
    if s.front.closing.ReturningPort? {
      ClosingGivesItsPort(w, s.queue, s.ops, s.front.lease, s.front.closing.lease);
    }
  }

  lemma FedIsOk(w: World, op: Op, n: nat)
    requires OpOk(w, op) && op.client.Some?
    ensures var fed := op.(client := Some(Fed(op.client.value, n)));
            OpOk(w, fed) && Registered(fed) == Registered(op) &&
            Unfolded(fed) == Unfolded(op) + if op.folded then 0 else n
  {
  }

  lemma ArriveKeeps(w: World, s: State, i: nat, n: nat)
    requires Inv(w, s) && i < |s.ops| && s.ops[i].client.Some?
    ensures Inv(w, ArriveAt(s, i, n))
  {
    assert OpOk(w, s.ops[i]);
    FedIsOk(w, s.ops[i], n);
    BooksStep(w, s, i, ArriveAt(s, i, n).ops[i], ArriveAt(s, i, n).books);
  }

  lemma ApplyKeeps(w: World, s: State, e: Event)
    requires Inv(w, s)
    ensures Inv(w, Apply(w, s, e))
  {
    match e {
      case Attach(src) => ReserveKeeps(w, s, src);
      case Step(i, ok) => if i < |s.ops| { OpStepKeeps(w, s, i, ok); }
      case Door(i, readable, starts, adds, arrives) =>
        if i < |s.ops| && s.ops[i].phase == AtDoor { DoorKeeps(w, s, i, readable, starts, adds, arrives); }
      case Detach(i) => if i < |s.ops| { DetachKeeps(w, s, i); }
      case Close => CloseKeeps(w, s);
      case CloseStep => CloseStepKeeps(w, s);
      case Arrive(i, n) => if i < |s.ops| && Receives(s.ops[i].client) { ArriveKeeps(w, s, i, n); }
      case ArriveShared(n) =>
      case ArriveClosing(n) =>
    }
  }

  /** The configured set names each port once, as a parsed port set does. */
  ghost predicate ProperWorld(w: World) {
    forall a, b :: 0 <= a < b < |Allowed(w)| ==> Allowed(w)[a] != Allowed(w)[b]
  }

  lemma {:induction false} EveryRunKeeps(w: World, events: seq<Event>)
    requires ProperWorld(w)
    ensures Inv(w, After(w, events))
  {
    if events != [] {
      var front := events[..|events| - 1];
      EveryRunKeeps(w, front);
      ApplyKeeps(w, After(w, front), events[|events| - 1]);
    }
  }
}
