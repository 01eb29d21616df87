/** What stops a run, and what it is warned of first (internal/core/budget.go). */
module Budget {
  import opened Paths
  import PoolModel
  import PoolSafety
  import PoolLedger

  // ---- Exhausted ----

  datatype StopReason = Completed | TrafficLimit | TimeLimit | RoofLimit

  /** Zero, or less, is no limit. roof is the client-wide one; there is none without a client. */
  datatype Limits = Limits(roof: int, maxTime: int, maxBytes: int)

  predicate Reached(limit: int, figure: int) { limit > 0 && figure >= limit }

  function Exhausted(limits: Limits, client: Option<nat>, spent: nat, elapsed: nat): StopReason {
    if client.Some? && Reached(limits.roof, client.value) then RoofLimit
    else if Reached(limits.maxTime, elapsed) then TimeLimit
    else if Reached(limits.maxBytes, spent) then TrafficLimit
    else Completed
  }

  function Severity(r: StopReason): nat {
    match r
    case Completed => 0
    case TrafficLimit => 1
    case TimeLimit => 2
    case RoofLimit => 3
  }

  /** The ceiling an answer names is set, and its figure has come up to it. */
  predicate Met(limits: Limits, client: Option<nat>, spent: nat, elapsed: nat, r: StopReason) {
    match r
    case Completed => false
    case TrafficLimit => 0 < limits.maxBytes <= spent
    case TimeLimit => 0 < limits.maxTime <= elapsed
    case RoofLimit => client.Some? && 0 < limits.roof <= client.value
  }

  /** A run goes on exactly while no ceiling that is set has been met. Once any is, the answer names one that has,
      and the client's comes before the clock's, the clock's before the traffic's. */
  lemma ExhaustedNamesTheWorst(limits: Limits, client: Option<nat>, spent: nat, elapsed: nat)
    ensures var r := Exhausted(limits, client, spent, elapsed);
            (r == Completed <==> forall q :: !Met(limits, client, spent, elapsed, q)) &&
            (r != Completed ==> Met(limits, client, spent, elapsed, r)) &&
            (r == RoofLimit <==> Met(limits, client, spent, elapsed, RoofLimit)) &&
            (r == TrafficLimit ==> !Met(limits, client, spent, elapsed, TimeLimit)) &&
            forall q :: Met(limits, client, spent, elapsed, q) ==> Severity(q) <= Severity(r)
  {
    var r := Exhausted(limits, client, spent, elapsed);
    assert Met(limits, client, spent, elapsed, RoofLimit) || Met(limits, client, spent, elapsed, TimeLimit) ||
           Met(limits, client, spent, elapsed, TrafficLimit) || r == Completed;
  }

  /** Over any run of the pool: once what all its clients have received meets the roof, every run of it is stopped
      by the roof, whatever its own ceilings, and from then on; and before that by none. */
  lemma TheRoofStopsEveryRun(
    w: PoolModel.World, done: seq<PoolModel.Event>, later: seq<PoolModel.Event>, limits: Limits, spent: nat,
    elapsed: nat)
    requires PoolSafety.ProperWorld(w)
    ensures Exhausted(limits, Some(PoolLedger.Downloaded(PoolModel.After(w, done))), spent, elapsed) == RoofLimit <==>
              0 < limits.roof <= PoolLedger.Downloaded(PoolModel.After(w, done))
    ensures 0 < limits.roof <= PoolLedger.Downloaded(PoolModel.After(w, done)) ==>
              Exhausted(limits, Some(PoolLedger.Downloaded(PoolModel.After(w, done + later))), spent, elapsed) ==
              RoofLimit
  {
    PoolLedger.DownloadedNeverFalls(w, done, later);
  }

  /** However the pool's clients, the run's own meter and the clock move on, the answer only climbs from
      completed by way of the run's traffic and its time to the roof, and never comes back down. */
  lemma ExhaustedOnlyClimbs(
    w: PoolModel.World, done: seq<PoolModel.Event>, later: seq<PoolModel.Event>, limits: Limits,
    spent: nat, spent': nat, elapsed: nat, elapsed': nat)
    requires PoolSafety.ProperWorld(w) && spent <= spent' && elapsed <= elapsed'
    ensures var before := Exhausted(limits, Some(PoolLedger.Downloaded(PoolModel.After(w, done))), spent, elapsed);
            var received := PoolLedger.Downloaded(PoolModel.After(w, done + later));
            var after := Exhausted(limits, Some(received), spent', elapsed');
            Severity(before) <= Severity(after)
  {
    PoolLedger.DownloadedNeverFalls(w, done, later);
  }

  // ---- the warnings ----

  datatype Warning = NoWarning | RoofWarning(received: nat) | RunWarning(spent: nat)

  /** A fraction of a limit reached. Fractions are reals here. */
  predicate Crossed(limit: int, warnAt: real, figure: nat) {
    limit > 0 && figure as real >= limit as real * warnAt
  }

  class BudgetTracker {
    const limits: Limits
    const roofWarnAt: real
    const warnAt: real
    var warned: bool
    var warnedAbove: bool

    constructor (limits: Limits, roofWarnAt: real, warnAt: real)
      ensures this.limits == limits && this.roofWarnAt == roofWarnAt && this.warnAt == warnAt
      ensures !warned && !warnedAbove
    {
      this.limits, this.roofWarnAt, this.warnAt, warned, warnedAbove := limits, roofWarnAt, warnAt, false, false;
    }

    predicate RoofDue(client: Option<nat>)
      reads this
    {
      client.Some? && limits.roof > 0 && roofWarnAt > 0.0 && Crossed(limits.roof, roofWarnAt, client.value)
    }

    predicate RunDue(spent: nat, elapsed: nat)
      reads this
    {
      warnAt > 0.0 && (Crossed(limits.maxBytes, warnAt, spent) || Crossed(limits.maxTime, warnAt, elapsed))
    }

    /** At most one warning a call and one of each kind ever: the roof's first, the run's own when that is
        not due or has been given. */
    method Warn(client: Option<nat>, spent: nat, elapsed: nat) returns (w: Warning)
      modifies this
      ensures w.RoofWarning? <==>
                client.Some? && limits.roof > 0 && roofWarnAt > 0.0 &&
                client.value as real >= limits.roof as real * roofWarnAt && !old(warnedAbove)
      ensures w.RunWarning? <==>
                warnAt > 0.0 &&
                ((limits.maxBytes > 0 && spent as real >= limits.maxBytes as real * warnAt) ||
                 (limits.maxTime > 0 && elapsed as real >= limits.maxTime as real * warnAt)) &&
                !old(warned) && !w.RoofWarning?
      ensures w.RoofWarning? ==> w.received == client.value
      ensures w.RunWarning? ==> w.spent == spent
      ensures warnedAbove <==> old(warnedAbove) || w.RoofWarning?
      ensures warned <==> old(warned) || w.RunWarning?
    {
      if RoofDue(client) && !warnedAbove {
        warnedAbove := true;
        return RoofWarning(client.value);
      }
      if RunDue(spent, elapsed) && !warned {
        warned := true;
        return RunWarning(spent);
      }
      w := NoWarning;
    }
  }
}
