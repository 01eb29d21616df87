/** Keeping the results under a ceiling without touching one that is being written
    (internal/cache/evict.go, internal/core/engine.go). */
module Eviction {
  import opened Sorting

  type Dir = string

  /** One result set on disk. aged is false when its record cannot be read, and then createdAt means nothing. */
  datatype ResultSet = ResultSet(dir: Dir, bytes: nat, createdAt: int, aged: bool)

  // ---- markLive, unmarkLive, liveDirs ----

  class Engine {
    var live: map<Dir, nat>
    /** Every run writing somewhere, by where. */
    ghost var writers: multiset<Dir>

    ghost predicate Valid()
      reads this
    {
      (forall d :: d in live <==> d in writers) && forall d :: d in live ==> live[d] == writers[d]
    }

    constructor ()
      ensures Valid() && writers == multiset{}
    {
      live, writers := map[], multiset{};
    }

    method MarkLive(dir: Dir)
      requires Valid()
      modifies this
      ensures Valid() && writers == old(writers) + multiset{dir}
    {
      live := live[dir := (if dir in live then live[dir] else 0) + 1];
      writers := writers + multiset{dir};
    }

    method UnmarkLive(dir: Dir)
      requires Valid()
      modifies this
      ensures Valid() && writers == old(writers) - multiset{dir}
    {
      var count := if dir in live then live[dir] else 0;
      if count <= 1 { live := live - {dir}; } else { live := live[dir := count - 1]; }
      writers := writers - multiset{dir};
    }

    /** Exactly the directories some run is writing. */
    method LiveDirs() returns (dirs: seq<Dir>)
      requires Valid()
      ensures forall d :: d in dirs <==> d in writers
    {
      dirs := [];
      var todo := live.Keys;
      while todo != {}
        invariant todo <= live.Keys && forall d :: d in live <==> d in todo || d in dirs
        decreases |todo|
      {
        var d: Dir :| d in todo;
        dirs, todo := dirs + [d], todo - {d};
      }
    }
  }

  // ---- the tree ----

  function BytesOf(sets: seq<ResultSet>): nat {
    if sets == [] then 0 else BytesOf(sets[..|sets| - 1]) + sets[|sets| - 1].bytes
  }

  /** What is left of a tree without the sets in some directories. */
  function Without(sets: seq<ResultSet>, dirs: set<Dir>): seq<ResultSet> {
    if sets == [] then []
    else
      var last := sets[|sets| - 1];
      Without(sets[..|sets| - 1], dirs) + if last.dir in dirs then [] else [last]
  }

  ghost predicate Distinct(sets: seq<ResultSet>) {
    forall i, j :: 0 <= i < j < |sets| ==> sets[i].dir != sets[j].dir
  }

  /** The output tree. A removal can fail, and then what it has done to its own set, no one can say. */
  class Tree {
    var sets: seq<ResultSet>

    constructor (sets: seq<ResultSet>)
      ensures this.sets == sets
    {
      this.sets := sets;
    }

    method RemoveAll(dir: Dir, works: bool, leaves: seq<ResultSet>) returns (ok: bool)
      modifies this
      ensures ok == works
      ensures ok ==> sets == Without(old(sets), {dir})
      ensures !ok ==> sets == Without(old(sets), {dir}) + leaves
    {
      var rest := Pruned(sets, dir);
      sets := if works then rest else rest + leaves;
      ok := works;
    }
  }

  method Pruned(sets: seq<ResultSet>, dir: Dir) returns (rest: seq<ResultSet>)
    ensures rest == Without(sets, {dir})
  {
    rest := [];
    for n := 0 to |sets|
      invariant rest == Without(sets[..n], {dir})
    {
      assert sets[..n + 1][..n] == sets[..n];
      if sets[n].dir != dir { rest := rest + [sets[n]]; }
    }
    assert sets[..|sets|] == sets;
  }

  // ---- Evict ----

  predicate Candidate(s: ResultSet, live: seq<Dir>) { s.aged && s.dir !in live }

  function Candidates(sets: seq<ResultSet>, live: seq<Dir>): seq<ResultSet> {
    if sets == [] then []
    else
      var last := sets[|sets| - 1];
      Candidates(sets[..|sets| - 1], live) + if Candidate(last, live) then [last] else []
  }

  function Age(s: ResultSet): int { s.createdAt }

  /** Some oldest-first order of the candidates; which of two of one age comes first is not promised. */
  ghost predicate OldestFirst(sets: seq<ResultSet>, live: seq<Dir>, order: seq<ResultSet>) {
    Ascending(order, Age) && multiset(order) == multiset(Candidates(sets, live))
  }

  method OrderByAge(sets: seq<ResultSet>, live: seq<Dir>) returns (total: nat, order: seq<ResultSet>)
    ensures total == BytesOf(sets) && OldestFirst(sets, live, order)
  {
    total := 0;
    var candidates: seq<ResultSet> := [];
    for n := 0 to |sets|
      invariant total == BytesOf(sets[..n]) && candidates == Candidates(sets[..n], live)
    {
      assert sets[..n + 1][..n] == sets[..n];
      total := total + sets[n].bytes;
      if sets[n].aged && sets[n].dir !in live { candidates := candidates + [sets[n]]; }
    }
    assert sets[..|sets|] == sets;
    SortSorts(candidates, Age);
    order := Sort(candidates, Age);
  }

  /** What Evict leaves of a snapshot whose candidates stand in that order: the first k are gone and nothing else. */
  method Evict(tree: Tree, ceiling: int, live: seq<Dir>, works: Dir -> bool, leaves: Dir -> seq<ResultSet>)
    returns (removed: seq<ResultSet>, freed: nat, failed: bool, ghost order: seq<ResultSet>)
    modifies tree
    ensures OldestFirst(old(tree.sets), live, order)
    ensures |removed| <= |order| && removed == order[..|removed|] && freed == BytesOf(removed)
    ensures ceiling <= 0 ==> removed == [] && !failed && tree.sets == old(tree.sets)
    ensures removed != [] ==> BytesOf(old(tree.sets)) - BytesOf(order[..|removed| - 1]) > ceiling
    ensures !failed ==> tree.sets == WithoutAll(old(tree.sets), removed)
    ensures !failed && ceiling > 0 ==> BytesOf(old(tree.sets)) - freed <= ceiling || removed == order
    ensures failed ==>
              |removed| < |order| && BytesOf(old(tree.sets)) - freed > ceiling && !works(order[|removed|].dir) &&
              tree.sets == Without(WithoutAll(old(tree.sets), removed), {order[|removed|].dir}) +
                           leaves(order[|removed|].dir)
  {
    removed, freed, failed := [], 0, false;
    ghost var before := tree.sets;
    var all, sorted := OrderByAge(tree.sets, live);
    order := sorted;
    if ceiling <= 0 { return; }
    var total: int := all;
    var k := 0;
    while k < |sorted| && total > ceiling
      invariant Evicting(before, tree.sets, sorted, k, removed, freed, total, ceiling)
    {
      var s := sorted[k];
      var ok := tree.RemoveAll(s.dir, works(s.dir), leaves(s.dir));
      if !ok {
        failed := true;
        return;
      }
      OneMoreEvicted(before, sorted, k, removed, freed);
      total := total - s.bytes;
      removed := removed + [s];
      freed := freed + s.bytes;
      k := k + 1;
    }
  }

  /** Where the loop has got to: the first k of the order are gone, and the last of them had to go. */
  ghost predicate Evicting(before: seq<ResultSet>, now: seq<ResultSet>, order: seq<ResultSet>, k: nat,
                           removed: seq<ResultSet>, freed: nat, total: int, ceiling: int)
  {
    k <= |order| && removed == order[..k] && freed == BytesOf(removed) && total == BytesOf(before) - freed &&
    now == WithoutAll(before, removed) && (k > 0 ==> BytesOf(before) - BytesOf(order[..k - 1]) > ceiling)
  }

  lemma OneMoreEvicted(before: seq<ResultSet>, order: seq<ResultSet>, k: nat, removed: seq<ResultSet>, freed: nat)
    requires k < |order| && removed == order[..k] && freed == BytesOf(removed)
    ensures order[..k + 1] == removed + [order[k]]
    ensures WithoutAll(before, removed + [order[k]]) == Without(WithoutAll(before, removed), {order[k].dir})
    ensures BytesOf(removed + [order[k]]) == freed + order[k].bytes
  {
    assert (removed + [order[k]])[..k] == removed;
  }

  /** One removal after another. */
  function WithoutAll(sets: seq<ResultSet>, removed: seq<ResultSet>): seq<ResultSet> {
    if removed == [] then sets
    else Without(WithoutAll(sets, removed[..|removed| - 1]), {removed[|removed| - 1].dir})
  }

  // ---- the policy, read off that ----

  lemma {:induction false} CandidateIff(sets: seq<ResultSet>, live: seq<Dir>, s: ResultSet)
    ensures s in Candidates(sets, live) <==> s in sets && Candidate(s, live)
  {
    if sets != [] {
      var front, last := sets[..|sets| - 1], sets[|sets| - 1];
      CandidateIff(front, live, s);
      assert sets == front + [last];
    }
  }

  lemma {:induction false} WithoutKeeps(sets: seq<ResultSet>, dirs: set<Dir>, s: ResultSet)
    ensures s in Without(sets, dirs) <==> s in sets && s.dir !in dirs
  {
    if sets != [] {
      var front, last := sets[..|sets| - 1], sets[|sets| - 1];
      WithoutKeeps(front, dirs, s);
      assert sets == front + [last];
    }
  }

  lemma {:induction false} WithoutAllKeeps(sets: seq<ResultSet>, removed: seq<ResultSet>, s: ResultSet)
    ensures s in WithoutAll(sets, removed) <==> s in sets && forall r :: r in removed ==> r.dir != s.dir
  {
    if removed != [] {
      var front, last := removed[..|removed| - 1], removed[|removed| - 1];
      WithoutAllKeeps(sets, front, s);
      WithoutKeeps(WithoutAll(sets, front), {last.dir}, s);
      assert removed == front + [last];
    }
  }

  lemma OrderHoldsTheCandidates(sets: seq<ResultSet>, live: seq<Dir>, order: seq<ResultSet>, s: ResultSet)
    requires OldestFirst(sets, live, order)
    ensures s in order <==> s in sets && Candidate(s, live)
  {
    CandidateIff(sets, live, s);
    assert s in order <==> s in multiset(order);
    assert s in Candidates(sets, live) <==> s in multiset(Candidates(sets, live));
  }

  lemma OlderGoFirst(order: seq<ResultSet>, k: nat, s: ResultSet, t: ResultSet)
    requires Ascending(order, Age) && k <= |order| && s in order[..k] && t in order && t !in order[..k]
    ensures s.createdAt <= t.createdAt
  {
    var gone := order[..k];
    var i :| 0 <= i < k && gone[i] == s;
    var j :| 0 <= j < |order| && order[j] == t;
    assert forall m :: 0 <= m < k ==> order[m] == gone[m] && gone[m] in gone;
    assert j >= k;
    assert Age(order[i]) <= Age(order[j]);
  }

  lemma OneSetADirectory(sets: seq<ResultSet>, s: ResultSet, t: ResultSet)
    requires Distinct(sets) && s in sets && t in sets && s.dir == t.dir
    ensures s == t
  {
    var i :| 0 <= i < |sets| && sets[i] == s;
    var j :| 0 <= j < |sets| && sets[j] == t;
  }

  /** Nothing is removed that a run is writing or that cannot be dated, nothing newer than a candidate that is
      kept, and whatever is not removed is still there as it was. */
  lemma EvictionKeepsThePolicy(sets: seq<ResultSet>, live: seq<Dir>, order: seq<ResultSet>, k: nat, s: ResultSet)
    requires Distinct(sets) && OldestFirst(sets, live, order) && k <= |order|
    ensures s in order[..k] ==> s in sets && s.aged && s.dir !in live
    ensures s in order[..k] ==>
              forall t :: t in sets && Candidate(t, live) && t !in order[..k] ==> s.createdAt <= t.createdAt
    ensures s in WithoutAll(sets, order[..k]) <==> s in sets && s !in order[..k]
  {
    var gone := order[..k];
    if s in gone {
      OrderHoldsTheCandidates(sets, live, order, s);
      forall t | t in sets && Candidate(t, live) && t !in gone ensures s.createdAt <= t.createdAt {
        OrderHoldsTheCandidates(sets, live, order, t);
        OlderGoFirst(order, k, s, t);
      }
    }
    WithoutAllKeeps(sets, gone, s);
    if s in sets && s !in gone {
      forall r | r in gone ensures r.dir != s.dir {
        OrderHoldsTheCandidates(sets, live, order, r);
        if r.dir == s.dir { OneSetADirectory(sets, r, s); }
      }
    }
  }

  lemma {:induction false} WithoutNoOne(sets: seq<ResultSet>, dir: Dir)
    requires forall s :: s in sets ==> s.dir != dir
    ensures Without(sets, {dir}) == sets
  {
    if sets != [] {
      var front := sets[..|sets| - 1];
      assert sets == front + [sets[|sets| - 1]];
      WithoutNoOne(front, dir);
    }
  }

  lemma LastIsElsewhere(sets: seq<ResultSet>)
    requires Distinct(sets) && sets != []
    ensures Distinct(sets[..|sets| - 1])
    ensures forall s :: s in sets[..|sets| - 1] ==> s.dir != sets[|sets| - 1].dir
  {
    var front := sets[..|sets| - 1];
    forall s | s in front ensures s.dir != sets[|sets| - 1].dir {
      var i :| 0 <= i < |front| && front[i] == s;
      assert sets[i] == s;
    }
  }

  lemma OneMoreIsDistinct(sets: seq<ResultSet>, s: ResultSet)
    requires Distinct(sets) && forall x :: x in sets ==> x.dir != s.dir
    ensures Distinct(sets + [s]) && BytesOf(sets + [s]) == BytesOf(sets) + s.bytes
  {
    assert (sets + [s])[..|sets|] == sets;
  }

  lemma {:induction false} WithoutOneWeighsLess(sets: seq<ResultSet>, s: ResultSet)
    requires Distinct(sets) && s in sets
    ensures BytesOf(Without(sets, {s.dir})) == BytesOf(sets) - s.bytes && Distinct(Without(sets, {s.dir}))
  {
    var front, last := sets[..|sets| - 1], sets[|sets| - 1];
    assert sets == front + [last];
    LastIsElsewhere(sets);
    if last == s {
      WithoutNoOne(front, s.dir);
      assert Without(sets, {s.dir}) == front;
    } else {
      WithoutOneWeighsLess(front, s);
      var rest := Without(front, {s.dir});
      forall x | x in rest ensures x.dir != last.dir { WithoutKeeps(front, {s.dir}, x); }
      OneMoreIsDistinct(rest, last);
    }
  }

  /** What was freed is exactly what the tree no longer weighs. */
  lemma {:induction false} FreedIsWhatIsGone(sets: seq<ResultSet>, removed: seq<ResultSet>)
    requires Distinct(sets) && Distinct(removed) && forall r :: r in removed ==> r in sets
    ensures BytesOf(WithoutAll(sets, removed)) == BytesOf(sets) - BytesOf(removed)
    ensures Distinct(WithoutAll(sets, removed))
  {
    if removed != [] {
      var front, last := removed[..|removed| - 1], removed[|removed| - 1];
      FreedIsWhatIsGone(sets, front);
      WithoutAllKeeps(sets, front, last);
      assert removed == front + [last];
      assert forall r :: r in front ==> r.dir != last.dir;
      WithoutOneWeighsLess(WithoutAll(sets, front), last);
    }
  }

  /** The order's own directories are distinct, as the tree's are. */
  lemma {:induction false} CandidatesAreDistinct(sets: seq<ResultSet>, live: seq<Dir>)
    requires Distinct(sets)
    ensures Distinct(Candidates(sets, live))
  {
    if sets != [] {
      var front, last := sets[..|sets| - 1], sets[|sets| - 1];
      CandidatesAreDistinct(front, live);
      forall s | s in Candidates(front, live) ensures s.dir != last.dir { CandidateIff(front, live, s); }
    }
  }

  lemma {:induction false} CountedOnce(sets: seq<ResultSet>, s: ResultSet)
    requires Distinct(sets)
    ensures multiset(sets)[s] <= 1
  {
    if sets != [] {
      var front, last := sets[..|sets| - 1], sets[|sets| - 1];
      LastIsElsewhere(sets);
      CountedOnce(front, s);
      assert sets == front + [last];
      if s == last { assert s !in front; }
    }
  }

  lemma TwiceIsTwo(order: seq<ResultSet>, i: nat, j: nat)
    requires i < j < |order| && order[i] == order[j]
    ensures multiset(order)[order[i]] >= 2
  {
    assert order == order[..j] + [order[j]] + order[j + 1..];
    assert order[..j][i] == order[i];
  }

  lemma OrderIsDistinct(sets: seq<ResultSet>, live: seq<Dir>, order: seq<ResultSet>)
    requires Distinct(sets) && OldestFirst(sets, live, order)
    ensures Distinct(order)
  {
    CandidatesAreDistinct(sets, live);
    forall i, j | 0 <= i < j < |order| ensures order[i].dir != order[j].dir {
      OrderHoldsTheCandidates(sets, live, order, order[i]);
      OrderHoldsTheCandidates(sets, live, order, order[j]);
      if order[i].dir == order[j].dir {
        OneSetADirectory(sets, order[i], order[j]);
        TwiceIsTwo(order, i, j);
        CountedOnce(Candidates(sets, live), order[i]);
        assert false;
      }
    }
  }

  /** A call that fails at nothing ends with the tree under the ceiling or with no candidate left in it, and
      the figure it reports is what the tree lost. */
  lemma EndsUnderTheCeiling(sets: seq<ResultSet>, live: seq<Dir>, order: seq<ResultSet>, k: nat, ceiling: int)
    requires Distinct(sets) && OldestFirst(sets, live, order) && k <= |order|
    requires BytesOf(sets) - BytesOf(order[..k]) <= ceiling || k == |order|
    ensures BytesOf(WithoutAll(sets, order[..k])) == BytesOf(sets) - BytesOf(order[..k])
    ensures BytesOf(WithoutAll(sets, order[..k])) <= ceiling ||
            forall s :: s in WithoutAll(sets, order[..k]) ==> !Candidate(s, live)
  {
    var gone := order[..k];
    OrderIsDistinct(sets, live, order);
    forall r | r in gone ensures r in sets { OrderHoldsTheCandidates(sets, live, order, r); }
    FreedIsWhatIsGone(sets, gone);
    if k == |order| {
      assert gone == order;
      forall s | s in WithoutAll(sets, gone) ensures !Candidate(s, live) {
        EvictionKeepsThePolicy(sets, live, order, k, s);
        OrderHoldsTheCandidates(sets, live, order, s);
      }
    }
  }

  // ---- the snapshot and the removals ----

  lemma {:induction false} MoreWeighsMore(order: seq<ResultSet>, i: nat, j: nat)
    requires i <= j <= |order|
    ensures BytesOf(order[..i]) <= BytesOf(order[..j])
  {
    if i < j {
      MoreWeighsMore(order, i, j - 1);
      assert order[..j][..j - 1] == order[..j - 1];
    }
  }

  /** Set j of the order goes exactly when the tree without the ones before it is still over the ceiling. */
  lemma GoesIffStillOver(total: int, order: seq<ResultSet>, k: nat, j: nat, ceiling: int)
    requires k <= |order| && j < |order|
    requires k > 0 ==> total - BytesOf(order[..k - 1]) > ceiling
    requires total - BytesOf(order[..k]) <= ceiling || k == |order|
    ensures j < k <==> total - BytesOf(order[..j]) > ceiling
  {
    if j < k { MoreWeighsMore(order, j, k - 1); } else { MoreWeighsMore(order, k, j); }
  }

  /** The tree is still over the ceiling when it is the turn of s. */
  ghost predicate StillOverAt(total: int, order: seq<ResultSet>, s: ResultSet, ceiling: int) {
    exists j :: 0 <= j < |order| && order[j] == s && total - BytesOf(order[..j]) > ceiling
  }

  lemma RemovedIffStillOver(sets: seq<ResultSet>, live: seq<Dir>, order: seq<ResultSet>, k: nat, ceiling: int,
                            s: ResultSet)
    requires Distinct(sets) && OldestFirst(sets, live, order) && k <= |order| && s in sets
    requires k > 0 ==> BytesOf(sets) - BytesOf(order[..k - 1]) > ceiling
    requires BytesOf(sets) - BytesOf(order[..k]) <= ceiling || k == |order|
    ensures s !in WithoutAll(sets, order[..k]) <==> Candidate(s, live) && StillOverAt(BytesOf(sets), order, s, ceiling)
  {
    EvictionKeepsThePolicy(sets, live, order, k, s);
    OrderHoldsTheCandidates(sets, live, order, s);
    OrderIsDistinct(sets, live, order);
    if s in order {
      var j :| 0 <= j < |order| && order[j] == s;
      GoesIffStillOver(BytesOf(sets), order, k, j, ceiling);
      assert s in order[..k] <==> j < k by {
        if j < k { assert order[..k][j] == s; }
        assert forall m :: 0 <= m < k ==> order[..k][m] == order[m];
      }
      assert forall m :: 0 <= m < |order| && order[m] == s ==> m == j;
    }
  }

  /** A run starting to write somewhere, or stopping. */
  datatype Mark = Starts(dir: Dir) | Stops(dir: Dir)

  function WritersAfter(writers: multiset<Dir>, marks: seq<Mark>): multiset<Dir> {
    if marks == [] then writers
    else
      var before, last := WritersAfter(writers, marks[..|marks| - 1]), marks[|marks| - 1];
      if last.Starts? then before + multiset{last.dir} else before - multiset{last.dir}
  }

  method MarkAll(e: Engine, marks: seq<Mark>)
    requires e.Valid()
    modifies e
    ensures e.Valid() && e.writers == WritersAfter(old(e.writers), marks)
  {
    for n := 0 to |marks|
      invariant e.Valid() && e.writers == WritersAfter(old(e.writers), marks[..n])
    {
      assert marks[..n + 1][..n] == marks[..n];
      if marks[n].Starts? { e.MarkLive(marks[n].dir); } else { e.UnmarkLive(marks[n].dir); }
    }
    assert marks[..|marks|] == marks;
  }

  /** A finishing run's eviction as the others see it: the live directories are read, other runs start and stop,
      and then the sets go by what was read. Nothing failing, a set goes exactly when it can be dated, nobody was
      writing it when the directories were read, and the tree was still over the ceiling when its turn came:
      that somebody is writing it by then does not come into it. */
  method EvictFromSnapshot(e: Engine, tree: Tree, marks: seq<Mark>, ceiling: int) returns (ghost order: seq<ResultSet>)
    requires e.Valid() && Distinct(tree.sets) && ceiling > 0
    modifies e, tree
    ensures e.Valid() && e.writers == WritersAfter(old(e.writers), marks)
    ensures exists live :: (forall d :: d in live <==> d in old(e.writers)) && OldestFirst(old(tree.sets), live, order)
    ensures forall s :: s in old(tree.sets) ==>
              (s !in tree.sets <==>
                 s.aged && s.dir !in old(e.writers) && StillOverAt(BytesOf(old(tree.sets)), order, s, ceiling))
  {
    ghost var sets := tree.sets;
    var live := e.LiveDirs();
    MarkAll(e, marks);
    var removed, freed, failed, sorted := Evict(tree, ceiling, live, d => true, d => []);
    order := sorted;
    forall s | s in sets
      ensures s !in tree.sets <==> Candidate(s, live) && StillOverAt(BytesOf(sets), order, s, ceiling) {
      RemovedIffStillOver(sets, live, order, |removed|, ceiling, s);
    }
  }

  /** So it can be a set somebody is writing: one that is resumed after the directories were read. */
  method ASnapshotCanBeLate(s: ResultSet) returns (e: Engine, tree: Tree)
    requires s.aged && s.bytes > 1
    ensures e.Valid() && s.dir in e.writers && s !in tree.sets
  {
    e := new Engine();
    tree := new Tree([s]);
    assert WritersAfter(multiset{}, [Starts(s.dir)][..0]) == multiset{};
    assert tree.sets[0] == s && BytesOf([s][..0]) == 0;
    ghost var order := EvictFromSnapshot(e, tree, [Starts(s.dir)], 1);
    ghost var live: seq<Dir> :| (forall d :: d in live <==> d in multiset{}) && OldestFirst([s], live, order);
    OrderHoldsTheCandidates([s], live, order, s);
    ghost var j :| 0 <= j < |order| && order[j] == s;
    OnlyOne(order, live, s, j);
    assert StillOverAt(BytesOf([s]), order, s, 1);
  }

  lemma OnlyOne(order: seq<ResultSet>, live: seq<Dir>, s: ResultSet, j: nat)
    requires OldestFirst([s], live, order) && j < |order| && order[j] == s
    ensures BytesOf(order[..j]) == 0 && BytesOf([s]) == s.bytes
  {
    assert [s][..0] == [];
    assert |multiset(order)| <= 1 by { assert |Candidates([s], live)| <= 1; }
    assert order[..j] == [];
  }
}
