/** Python's `sorted(..., key=...)`: stable, and unique when the order is total. */
module StableSort {

  /** x came before all of s, so it goes before its equals. */
  function Insert<T>(less: (T, T) -> bool, x: T, s: seq<T>): seq<T> {
    if s == [] || !less(s[0], x) then [x] + s else [s[0]] + Insert(less, x, s[1..])
  }

  function Sort<T>(less: (T, T) -> bool, s: seq<T>): seq<T> {
    if s == [] then [] else Insert(less, s[0], Sort(less, s[1..]))
  }

  lemma {:induction false} InsertKeeps<T>(less: (T, T) -> bool, x: T, s: seq<T>)
    ensures multiset(Insert(less, x, s)) == multiset(s) + multiset{x}
  {
    if s != [] && less(s[0], x) {
      InsertKeeps(less, x, s[1..]);
      assert s == [s[0]] + s[1..];
    }
  }

  lemma {:induction false} SortKeeps<T>(less: (T, T) -> bool, s: seq<T>)
    ensures multiset(Sort(less, s)) == multiset(s)
  {
    if s != [] {
      SortKeeps(less, s[1..]);
      InsertKeeps(less, s[0], Sort(less, s[1..]));
      assert s == [s[0]] + s[1..];
    }
  }

  lemma SortSameElements<T>(less: (T, T) -> bool, s: seq<T>)
    ensures forall x :: x in Sort(less, s) <==> x in s
  {
    SortKeeps(less, s);
    assert forall x :: x in Sort(less, s) <==> x in multiset(Sort(less, s));
  }

  /** A strict order that decides between any two different elements of s. */
  ghost predicate StrictTotalOn<T(!new)>(less: (T, T) -> bool, s: set<T>) {
    && (forall x :: x in s ==> !less(x, x))
    && (forall x, y :: x in s && y in s && x != y ==> (less(x, y) <==> !less(y, x)))
    && (forall x, y, z {:trigger less(x, y), less(y, z)} :: x in s && y in s && z in s && less(x, y) && less(y, z) ==> less(x, z))
  }

  ghost predicate Ordered<T>(less: (T, T) -> bool, s: seq<T>) {
    forall i, j :: 0 <= i < j < |s| ==> less(s[i], s[j])
  }

  function Elements<T>(s: seq<T>): set<T> {
    set x | x in s
  }

  predicate Distinct<T(==)>(s: seq<T>) {
    forall i, j :: 0 <= i < j < |s| ==> s[i] != s[j]
  }

  /** An order by rank: not less is transitive, and less goes one way. */
  ghost predicate RanksAll<T(!new)>(less: (T, T) -> bool) {
    && (forall x, y {:trigger less(x, y)} :: less(x, y) ==> !less(y, x))
    && forall x, y, z {:trigger less(x, y), less(y, z)} :: !less(x, y) && !less(y, z) ==> !less(x, z)
  }

  ghost predicate NoneLater<T>(less: (T, T) -> bool, s: seq<T>) {
    forall i, j :: 0 <= i < j < |s| ==> !less(s[j], s[i])
  }

  lemma {:induction false} InsertNoneLater<T(!new)>(less: (T, T) -> bool, x: T, s: seq<T>)
    requires RanksAll(less) && NoneLater(less, s)
    ensures NoneLater(less, Insert(less, x, s))
  {
    if s != [] {
      if less(s[0], x) {
        InsertNoneLater(less, x, s[1..]);
        InsertKeeps(less, x, s[1..]);
        var r := Insert(less, x, s[1..]);
        forall j | 0 <= j < |r|
          ensures !less(r[j], s[0])
        {
          assert r[j] in multiset(r);
          assert r[j] == x || r[j] in s[1..];
        }
      } else {
        forall j | 0 <= j < |s|
          ensures !less(s[j], x)
        {
          assert j > 0 ==> !less(s[j], s[0]);
        }
      }
    }
  }

  /** Nothing comes after what it ranks before, whether or not the order decides between any two. */
  lemma {:induction false} SortNoneLater<T(!new)>(less: (T, T) -> bool, s: seq<T>)
    requires RanksAll(less)
    ensures NoneLater(less, Sort(less, s))
  {
    if s != [] {
      SortNoneLater(less, s[1..]);
      InsertNoneLater(less, s[0], Sort(less, s[1..]));
    }
  }

  lemma {:induction false} InsertOrdered<T(!new)>(less: (T, T) -> bool, x: T, s: seq<T>, all: set<T>)
    requires StrictTotalOn(less, all) && Elements(s) <= all && x in all && x !in s && Ordered(less, s)
    ensures Ordered(less, Insert(less, x, s))
  {
    if s != [] {
      assert forall i :: 0 <= i < |s| ==> s[i] in Elements(s);
      if less(s[0], x) {
        assert Elements(s[1..]) <= Elements(s);
        InsertOrdered(less, x, s[1..], all);
        InsertKeeps(less, x, s[1..]);
        var r := Insert(less, x, s[1..]);
        forall j | 0 <= j < |r|
          ensures less(s[0], r[j])
        {
          assert r[j] in multiset(r);
          assert r[j] == x || r[j] in s[1..];
        }
      } else {
        assert less(x, s[0]);
      }
    }
  }

  lemma {:induction false} SortOrdered<T(!new)>(less: (T, T) -> bool, s: seq<T>, all: set<T>)
    requires StrictTotalOn(less, all) && Elements(s) <= all && Distinct(s)
    ensures Ordered(less, Sort(less, s))
  {
    if s != [] {
      assert forall i :: 0 <= i < |s| ==> s[i] in Elements(s);
      assert Elements(s[1..]) <= Elements(s);
      SortOrdered(less, s[1..], all);
      SortSameElements(less, s[1..]);
      assert Elements(Sort(less, s[1..])) <= all;
      InsertOrdered(less, s[0], Sort(less, s[1..]), all);
    }
  }

  /** The least element is found at the front of either. */
  lemma SameFront<T(!new)>(less: (T, T) -> bool, a: seq<T>, c: seq<T>)
    requires StrictTotalOn(less, Elements(a)) && Elements(a) == Elements(c)
    requires Ordered(less, a) && Ordered(less, c) && a != []
    ensures c != [] && a[0] == c[0]
  {
    assert a[0] in Elements(c);
    assert c[0] in Elements(a);
    var i :| 0 <= i < |a| && a[i] == c[0];
    var j :| 0 <= j < |c| && c[j] == a[0];
  }

  lemma OrderedTail<T(!new)>(less: (T, T) -> bool, a: seq<T>)
    requires StrictTotalOn(less, Elements(a)) && Ordered(less, a) && a != []
    ensures Elements(a[1..]) == Elements(a) - {a[0]} && Ordered(less, a[1..])
  {
    assert a[0] in Elements(a);
    assert a == [a[0]] + a[1..];
    assert forall i :: 0 < i < |a| ==> less(a[0], a[i]);
    assert a[0] !in a[1..];
  }

  lemma NoElements<T>(s: seq<T>)
    ensures Elements(s) == {} ==> s == []
  {
    if s != [] {
      assert s[0] in Elements(s);
    }
  }

  /** Two ordered lists of the same elements are the same list. */
  lemma {:induction false} OrderedUnique<T(!new)>(less: (T, T) -> bool, a: seq<T>, c: seq<T>)
    requires StrictTotalOn(less, Elements(a)) && Elements(a) == Elements(c)
    requires Ordered(less, a) && Ordered(less, c)
    ensures a == c
  {
    if a == [] {
      NoElements(c);
    } else {
      SameFront(less, a, c);
      OrderedTail(less, a);
      OrderedTail(less, c);
      OrderedUnique(less, a[1..], c[1..]);
      assert a == [a[0]] + a[1..] && c == [c[0]] + c[1..];
    }
  }

  /** Sorting forgets the original order. */
  lemma SortCanonical<T(!new)>(less: (T, T) -> bool, a: seq<T>, c: seq<T>)
    requires StrictTotalOn(less, Elements(a)) && Elements(a) == Elements(c) && Distinct(a) && Distinct(c)
    ensures Sort(less, a) == Sort(less, c)
  {
    SortOrdered(less, a, Elements(a));
    SortOrdered(less, c, Elements(a));
    SortSameElements(less, a);
    SortSameElements(less, c);
    assert Elements(Sort(less, a)) == Elements(a) && Elements(Sort(less, c)) == Elements(c);
    OrderedUnique(less, Sort(less, a), Sort(less, c));
  }

  function Mapped<T>(f: T -> T, s: seq<T>): seq<T> {
    if s == [] then [] else [f(s[0])] + Mapped(f, s[1..])
  }

  lemma {:induction false} MappedAt<T>(f: T -> T, s: seq<T>)
    ensures |Mapped(f, s)| == |s| && forall i :: 0 <= i < |s| ==> Mapped(f, s)[i] == f(s[i])
  {
    if s != [] {
      MappedAt(f, s[1..]);
    }
  }

  ghost predicate Respects<T(!new)>(f: T -> T, less: (T, T) -> bool) {
    forall x, y :: less(f(x), f(y)) == less(x, y)
  }

  lemma {:induction false} InsertMapped<T(!new)>(less: (T, T) -> bool, f: T -> T, x: T, s: seq<T>)
    requires Respects(f, less)
    ensures Insert(less, f(x), Mapped(f, s)) == Mapped(f, Insert(less, x, s))
  {
    if s != [] {
      assert Mapped(f, s)[0] == f(s[0]) && Mapped(f, s)[1..] == Mapped(f, s[1..]);
      if less(s[0], x) {
        InsertMapped(less, f, x, s[1..]);
        assert ([s[0]] + Insert(less, x, s[1..]))[1..] == Insert(less, x, s[1..]);
      } else {
        assert ([x] + s)[1..] == s;
      }
    } else {
      assert ([x] + s)[1..] == [];
    }
  }

  /** Sorting does not see a change of names that the order does not see. */
  lemma {:induction false} SortMapped<T(!new)>(less: (T, T) -> bool, f: T -> T, s: seq<T>)
    requires Respects(f, less)
    ensures Sort(less, Mapped(f, s)) == Mapped(f, Sort(less, s))
  {
    if s != [] {
      SortMapped(less, f, s[1..]);
      assert Mapped(f, s)[0] == f(s[0]) && Mapped(f, s)[1..] == Mapped(f, s[1..]);
      InsertMapped(less, f, s[0], Sort(less, s[1..]));
    }
  }
}
