/** Extensionality of finite sets, stated where a proof has to ask for it. */
module Sets {

  lemma Member<T>(s: set<T>) returns (x: T)
    requires s != {}
    ensures x in s
  {
    x :| x in s;
  }

  lemma Difference<T>(a: set<T>, b: set<T>) returns (x: T)
    requires a != b
    ensures (x in a) != (x in b)
  {
    x :| (x in a) != (x in b);
  }

  lemma SameMembers(a: set<int>, b: set<int>)
    requires forall x :: x in a <==> x in b
    ensures a == b
  {
    if a != b {
      var x := Difference(a, b);
      assert false;
    }
  }
}
