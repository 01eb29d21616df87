/** The ports of a set, handed out one at a time (PortPool and PortLease, internal/swarm/ports.go). */
module PortPools {

  /** A pool over an empty list is unmanaged: it hands out port 0, "let the OS choose", and never runs out. */
  class PortPool {
    const ports: seq<int>
    var free: seq<int>
    /** Who holds each port that is out. */
    ghost var holder: map<int, PortLease>

    ghost predicate Valid()
      reads this
    {
      (forall i, j :: 0 <= i < j < |free| ==> free[i] != free[j]) &&
      (forall p :: p in ports <==> p in free || p in holder) &&
      (forall p :: p in free ==> p !in holder) && 0 !in ports
    }

    constructor (set_: seq<int>)
      requires 0 !in set_ && forall i, j :: 0 <= i < j < |set_| ==> set_[i] != set_[j]
      ensures Valid() && ports == set_ && free == set_ && holder == map[]
    {
      ports, free, holder := set_, set_, map[];
    }

    /** A claim on the port that has been idle longest, or nothing when every port is out. */
    method Acquire() returns (lease: PortLease?)
      requires Valid()
      modifies this
      ensures Valid()
      ensures lease == null <==> ports != [] && old(free) == []
      ensures lease == null ==> free == old(free) && holder == old(holder)
      ensures lease != null ==> fresh(lease) && lease.Live() && lease.pool == this
      ensures ports != [] && lease != null ==>
                old(free) == [lease.port] + free && holder == old(holder)[lease.port := lease]
      ensures ports == [] && lease != null ==> lease.port == 0 && free == old(free) && holder == old(holder)
    {
      if ports == [] { return new PortLease(this, 0); }
      if free == [] { return null; }
      var port := free[0];
      assert port in free;
      lease := new PortLease(this, port);
      free, holder := free[1..], holder[port := lease];
      assert old(free) == [port] + free;
    }

    method Put(port: int)
      requires Valid() && (port != 0 ==> port in holder)
      modifies this
      ensures Valid()
      ensures free == if port == 0 then old(free) else old(free) + [port]
      ensures holder == old(holder) - {port}
    {
      if port == 0 { assert 0 !in holder; return; }
      free, holder := free + [port], holder - {port};
    }
  }

  class PortLease {
    var pool: PortPool?
    const port: int

    /** Not yet released: a managed pool knows this very lease to be holding its port. */
    ghost predicate Live()
      reads this, pool
    {
      pool != null && (pool.ports != [] ==> port in pool.holder && pool.holder[port] == this) &&
      (pool.ports == [] ==> port == 0)
    }

    constructor (pool: PortPool, port: int)
      ensures this.pool == pool && this.port == port
    {
      this.pool, this.port := pool, port;
    }

    /** Hands the port back, once: the second call finds no pool to hand it to. */
    method Release()
      requires pool != null ==> pool.Valid() && Live()
      modifies this, pool
      ensures pool == null
      ensures old(pool) != null ==>
                old(pool).Valid() &&
                old(pool).free == (if port == 0 then old(pool.free) else old(pool.free) + [port]) &&
                old(pool).holder == old(pool.holder) - {port}
    {
      if pool == null { return; }
      pool.Put(port);
      pool := null;
    }
  }

  /** No two clients ever hold the same port. */
  lemma LiveLeasesDiffer(pool: PortPool, a: PortLease, b: PortLease)
    requires pool.Valid() && pool.ports != [] && a.pool == b.pool == pool && a.Live() && b.Live() && a != b
    ensures a.port != b.port && a.port in pool.ports && a.port !in pool.free
  {
    assert pool.holder[a.port] == a && pool.holder[b.port] == b;
  }

  lemma {:induction false} CountedOnce(s: seq<int>, x: int)
    requires forall i, j :: 0 <= i < j < |s| ==> s[i] != s[j]
    ensures multiset(s)[x] == if x in s then 1 else 0
  {
    if s != [] {
      var front := s[..|s| - 1];
      assert s == front + [s[|s| - 1]];
      CountedOnce(front, x);
    }
  }

  /** With nothing out, the free queue is the configured set in some order. */
  lemma AllBackIsAPermutation(pool: PortPool)
    requires pool.Valid() && pool.holder == map[]
    requires forall i, j :: 0 <= i < j < |pool.ports| ==> pool.ports[i] != pool.ports[j]
    ensures multiset(pool.free) == multiset(pool.ports)
  {
    forall p ensures multiset(pool.free)[p] == multiset(pool.ports)[p] {
      CountedOnce(pool.free, p);
      CountedOnce(pool.ports, p);
    }
  }
}
