/** The pool's lock sections as they are written: each method is one of them, over the fields the mutex guards
    (internal/swarm/pool.go). PoolModel interleaves them with everything that happens outside the lock. */
module Pools {
  import opened Paths

  /** The infohash a source names. */
  type Key = nat

  /** A client's counters: gone, and read as zero, once it has been closed. */
  class Session {
    var open: bool
    var useful: nat

    constructor ()
      ensures open && useful == 0
    {
      open, useful := true, 0;
    }

    function Received(): (n: nat)
      reads this
      ensures open ==> n == useful
      ensures !open ==> n == 0
    {
      if open then useful else 0
    }

    method Close()
      modifies this
      ensures !open && Received() == 0
    {
      open := false;
    }
  }

  // ---- sums of figures ----

  ghost function SumOf(figures: map<Key, nat>): nat
    decreases |figures|
  {
    if figures == map[] then 0
    else
      var k :| k in figures;
      figures[k] + SumOf(figures - {k})
  }

  lemma {:induction false} SumWithout(figures: map<Key, nat>, k: Key)
    requires k in figures
    ensures SumOf(figures) == figures[k] + SumOf(figures - {k})
    decreases |figures|
  {
    var c :| c in figures && SumOf(figures) == figures[c] + SumOf(figures - {c});
    if c != k {
      SumWithout(figures - {c}, k);
      SumWithout(figures - {k}, c);
      assert figures - {c} - {k} == figures - {k} - {c};
    }
  }

  // ---- what each section makes of the fields ----

  /** The fields the mutex guards, each client as the figure it would report. */
  datatype Fields = Fields(held: set<Key>, alone: map<Key, nat>, shared: Option<nat>, retired: nat, closed: bool)

  function SharedFigure(f: Fields): nat { if f.shared.Some? then f.shared.value else 0 }

  ghost function TotalOf(f: Fields): nat { f.retired + SharedFigure(f) + SumOf(f.alone) }

  function Reserved(f: Fields, key: Key): Fields {
    if f.closed || key in f.held then f else f.(held := f.held + {key})
  }

  function Released(f: Fields, key: Key): Fields { f.(held := f.held - {key}) }

  function Listed(f: Fields, key: Key, figure: nat): Fields { f.(alone := f.alone[key := figure]) }

  function Retired(f: Fields, key: Key): Fields
    requires key in f.alone
  {
    f.(alone := f.alone - {key}, retired := f.retired + f.alone[key])
  }

  function Folded(f: Fields, figure: nat): Fields { f.(retired := f.retired + figure) }

  function ClosedDown(f: Fields): Fields {
    if f.closed then f else f.(closed := true, shared := None, retired := f.retired + SharedFigure(f))
  }

  /** A client's whole figure shows the moment it is listed, and still does once it is retired. */
  lemma ListingAdds(f: Fields, key: Key, figure: nat)
    requires key !in f.alone
    ensures TotalOf(Listed(f, key, figure)) == TotalOf(f) + figure
    ensures TotalOf(Retired(Listed(f, key, figure), key)) == TotalOf(f) + figure
  {
    var listed := Listed(f, key, figure).alone;
    SumWithout(listed, key);
    assert listed - {key} == f.alone;
  }

  class Pool {
    var sess: Session?
    var held: set<Key>
    var alone: map<Key, Session>
    var retired: nat
    var closed: bool

    constructor ()
      ensures sess == null && held == {} && alone == map[] && retired == 0 && !closed
    {
      sess, held, alone, retired, closed := null, {}, map[], 0, false;
    }

    ghost function Figures(): map<Key, nat>
      reads this, alone.Values
    {
      map k | k in alone :: alone[k].Received()
    }

    ghost function View(): Fields
      reads this, sess, alone.Values
    {
      Fields(held, Figures(), if sess == null then None else Some(sess.Received()), retired, closed)
    }

    /** What every client this pool has run has received, as far as the pool has been told of it. */
    ghost function Total(): nat
      reads this, sess, alone.Values
    {
      TotalOf(View())
    }

    method Reserve(key: Key) returns (ok: bool)
      modifies this`held
      ensures ok <==> View() != old(View())
      ensures View() == Reserved(old(View()), key)
    {
      ok := !closed && key !in held;
      if ok { held := held + {key}; }
    }

    method Release(key: Key)
      modifies this`held
      ensures View() == Released(old(View()), key)
    {
      held := held - {key};
    }

    /** From here on the client's traffic shows in the total, all of it. */
    method AloneOn(key: Key, client: Session)
      requires key !in alone
      modifies this`alone
      ensures alone == old(alone)[key := client] && View() == Listed(old(View()), key, client.Received())
      ensures Total() == old(Total()) + client.Received()
    {
      ListingAdds(View(), key, client.Received());
      ghost var listed := Listed(View(), key, client.Received());
      alone := alone[key := client];
      assert Figures() == listed.alone;
    }

    /** The client leaves the list and its figure stays: the total does not move. */
    method Retire(key: Key, client: Session)
      requires key in alone && alone[key] == client
      modifies this`alone, this`retired
      ensures alone == old(alone) - {key} && View() == Retired(old(View()), key)
      ensures Total() == old(Total())
    {
      ghost var before := Figures();
      retired := retired + client.Received();
      alone := alone - {key};
      SumWithout(before, key);
      assert Figures() == before - {key};
    }

    /** Retire for a client that was never listed. */
    method RetireClient(client: Session)
      modifies this`retired
      ensures View() == Folded(old(View()), client.Received()) && Total() == old(Total()) + client.Received()
    {
      ghost var before := Figures();
      retired := retired + client.Received();
      assert Figures() == before;
    }

    /** Close, up to the unlock. What is handed back is closed outside the lock, its figure already taken. */
    method CloseLocked() returns (client: Session?)
      modifies this`closed, this`sess, this`retired
      ensures closed && client == (if old(closed) then null else old(sess))
      ensures sess == if old(closed) then old(sess) else null
      ensures View() == ClosedDown(old(View())) && Total() == old(Total())
    {
      ghost var before := Figures();
      client := null;
      if closed { return; }
      closed, client, sess := true, sess, null;
      if client != null { retired := retired + client.Received(); }
      assert Figures() == before;
    }

    method Downloaded() returns (total: nat)
      ensures total == Total()
    {
      total := retired;
      if sess != null { total := total + sess.Received(); }
      var todo := alone.Keys;
      ghost var left := Figures();
      while todo != {}
        invariant todo <= alone.Keys && left == map k | k in todo :: alone[k].Received()
        invariant total + SumOf(left) == Total()
        decreases |todo|
      {
        var k: Key :| k in todo;
        total := total + alone[k].Received();
        SumWithout(left, k);
        left := left - {k};
        todo := todo - {k};
      }
      assert left == map[];
    }
  }

  /** The probe of a magnet goes: into the total first, then closed, and none of its bytes are lost with it. */
  method ProbeGoes(pool: Pool, probe: Session)
    requires pool.sess != probe && probe !in pool.alone.Values
    modifies pool`retired, probe
    ensures !probe.open && pool.View() == Folded(old(pool.View()), old(probe.Received()))
    ensures pool.Total() == old(pool.Total()) + old(probe.Received())
  {
    pool.RetireClient(probe);
    CloseRetired(pool, probe);
  }

  /** Closing a client whose figure has been taken leaves the total where it was. */
  method CloseRetired(pool: Pool, client: Session)
    requires pool.sess != client && client !in pool.alone.Values
    modifies client
    ensures !client.open && pool.View() == old(pool.View()) && pool.Total() == old(pool.Total())
  {
    ghost var before := pool.Figures();
    client.Close();
    assert pool.Figures() == before;
  }
}
