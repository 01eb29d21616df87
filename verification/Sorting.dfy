/** Stable sorting by an integer key: what sort.Ints and sort.SliceStable give their callers. */
module Sorting {

  ghost predicate Ascending<T>(s: seq<T>, key: T -> int) {
    forall i, j :: 0 <= i <= j < |s| ==> key(s[i]) <= key(s[j])
  }

  /** Puts x after every element whose key is no greater, so equal keys keep their order. */
  function Insert<T>(s: seq<T>, x: T, key: T -> int): seq<T> {
    if s == [] then [x]
    else if key(s[|s| - 1]) <= key(x) then s + [x]
    else Insert(s[..|s| - 1], x, key) + [s[|s| - 1]]
  }

  function Sort<T>(s: seq<T>, key: T -> int): seq<T> {
    if s == [] then [] else Insert(Sort(s[..|s| - 1], key), s[|s| - 1], key)
  }

  function SortInts(s: seq<int>): seq<int> {
    Sort(s, (x: int) => x)
  }

  lemma {:induction false} InsertKeepsOrder<T>(s: seq<T>, x: T, key: T -> int)
    requires Ascending(s, key)
    ensures Ascending(Insert(s, x, key), key) && |Insert(s, x, key)| == |s| + 1
    ensures key(Insert(s, x, key)[|s|]) == if s != [] && key(x) < key(s[|s| - 1]) then key(s[|s| - 1]) else key(x)
  {
    if s != [] { InsertKeepsOrder(s[..|s| - 1], x, key); }
  }

  lemma {:induction false} InsertAdds<T>(s: seq<T>, x: T, key: T -> int)
    ensures multiset(Insert(s, x, key)) == multiset(s) + multiset{x}
  {
    if s != [] {
      assert s == s[..|s| - 1] + [s[|s| - 1]];
      InsertAdds(s[..|s| - 1], x, key);
    }
  }

  lemma {:induction false} SortOrders<T>(s: seq<T>, key: T -> int)
    ensures Ascending(Sort(s, key), key) && |Sort(s, key)| == |s|
  {
    if s != [] {
      SortOrders(s[..|s| - 1], key);
      InsertKeepsOrder(Sort(s[..|s| - 1], key), s[|s| - 1], key);
    }
  }

  lemma {:induction false} SortPermutes<T>(s: seq<T>, key: T -> int)
    ensures multiset(Sort(s, key)) == multiset(s)
  {
    if s != [] {
      var front := s[..|s| - 1];
      SortPermutes(front, key);
      InsertAdds(Sort(front, key), s[|s| - 1], key);
      assert s == front + [s[|s| - 1]];
    }
  }

  /** The result is ordered and a permutation of the input. */
  lemma SortSorts<T>(s: seq<T>, key: T -> int)
    ensures Ascending(Sort(s, key), key)
    ensures multiset(Sort(s, key)) == multiset(s)
    ensures |Sort(s, key)| == |s|
  {
    SortOrders(s, key);
    SortPermutes(s, key);
  }

  lemma SortHasSameElements<T>(s: seq<T>, key: T -> int)
    ensures forall x :: x in Sort(s, key) <==> x in s
  {
    SortSorts(s, key);
    forall x ensures x in Sort(s, key) <==> x in s {
      assert x in Sort(s, key) <==> x in multiset(Sort(s, key));
      assert x in s <==> x in multiset(s);
    }
  }

  /** Sorting what is already in order changes nothing. */
  lemma {:induction false} SortOfSorted<T>(s: seq<T>, key: T -> int)
    requires Ascending(s, key)
    ensures Sort(s, key) == s
  {
    if s != [] {
      var front := s[..|s| - 1];
      SortOfSorted(front, key);
      assert s == front + [s[|s| - 1]];
      if front != [] { assert key(front[|front| - 1]) <= key(s[|s| - 1]); }
    }
  }

  /** The elements of one key, in the order they come in. */
  function OfKey<T>(s: seq<T>, key: T -> int, v: int): seq<T> {
    if s == [] then []
    else OfKey(s[..|s| - 1], key, v) + if key(s[|s| - 1]) == v then [s[|s| - 1]] else []
  }

  lemma {:induction false} InsertIsStable<T>(s: seq<T>, x: T, key: T -> int, v: int)
    requires Ascending(s, key)
    ensures OfKey(Insert(s, x, key), key, v) == OfKey(s, key, v) + if key(x) == v then [x] else []
  {
    if s == [] {
      assert [x][..0] == [];
    } else if key(s[|s| - 1]) <= key(x) {
      assert (s + [x])[..|s|] == s;
    } else {
      var front, last := s[..|s| - 1], s[|s| - 1];
      InsertIsStable(front, x, key, v);
      assert (Insert(front, x, key) + [last])[..|Insert(front, x, key)|] == Insert(front, x, key);
    }
  }

  /** Elements of one key stay in the order they came in. */
  lemma {:induction false} SortIsStable<T>(s: seq<T>, key: T -> int, v: int)
    ensures OfKey(Sort(s, key), key, v) == OfKey(s, key, v)
  {
    if s != [] {
      var front := s[..|s| - 1];
      SortIsStable(front, key, v);
      SortOrders(front, key);
      InsertIsStable(Sort(front, key), s[|s| - 1], key, v);
    }
  }
}
