/** Small facts about finite sets that several loops need. */
module SetFacts {

  lemma EmptyOrInhabited<T>(s: set<T>)
    ensures s == {} || exists x :: x in s
  {
    if forall x :: x !in s {
      assert s == {};
    }
  }

  /** Some member of a non-empty set. */
  lemma Pick<T>(s: set<T>) returns (x: T)
    requires s != {}
    ensures x in s
  {
    EmptyOrInhabited(s);
    x :| x in s;
  }

  lemma SubsetSize<T>(a: set<T>, b: set<T>)
    requires a <= b
    ensures |a| <= |b| && (|a| == |b| ==> a == b)
  {
    var rest := b - a;
    assert b == a + rest;
  }
}
