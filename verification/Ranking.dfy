/** Ranking by recency: later `lastSeenAt` first, ties by id, as in `sorted(..., key=(-ts, id))`. */
module Ranking {
  import SetFacts
  import StableSort

  /** Lexicographic order by code point, strict. */
  predicate Less(a: string, b: string) {
    b != "" && (a == "" || a[0] < b[0] || (a[0] == b[0] && Less(a[1..], b[1..])))
  }

  lemma {:induction false} LessTotal(a: string, b: string)
    ensures a == b || Less(a, b) || Less(b, a)
    ensures !(Less(a, b) && Less(b, a)) && !Less(a, a)
  {
    if a != "" && b != "" && a[0] == b[0] {
      LessTotal(a[1..], b[1..]);
      assert a == [a[0]] + a[1..] && b == [b[0]] + b[1..];
    }
    if a != "" {
      LessTotal(a[1..], a[1..]);
    }
  }

  lemma {:induction false} LessTransitive(a: string, b: string, c: string)
    requires Less(a, b) && Less(b, c)
    ensures Less(a, c)
  {
    if a != "" && a[0] == b[0] == c[0] {
      LessTransitive(a[1..], b[1..], c[1..]);
    }
  }

  /** They agree up to position i, where a ends or has the smaller character. */
  predicate FirstDifference(a: string, b: string, i: nat) {
    i <= |a| && i < |b| && a[..i] == b[..i] && (i == |a| || a[i] < b[i])
  }

  lemma {:induction false} DifferenceDecides(a: string, b: string, i: nat)
    requires FirstDifference(a, b, i)
    ensures Less(a, b)
  {
    if i > 0 {
      assert a[0] == a[..i][0] == b[..i][0] == b[0];
      assert a[1..][..i - 1] == a[..i][1..] && b[1..][..i - 1] == b[..i][1..];
      DifferenceDecides(a[1..], b[1..], i - 1);
    }
  }

  lemma {:induction false} SomeDifference(a: string, b: string)
    requires Less(a, b)
    ensures exists i: nat :: FirstDifference(a, b, i)
  {
    if a != "" && a[0] == b[0] {
      SomeDifference(a[1..], b[1..]);
      var i: nat :| FirstDifference(a[1..], b[1..], i);
      assert a[..i + 1] == [a[0]] + a[1..][..i] && b[..i + 1] == [b[0]] + b[1..][..i];
      assert FirstDifference(a, b, i + 1);
    } else {
      assert FirstDifference(a, b, 0);
    }
  }

  lemma LessIff(a: string, b: string)
    ensures Less(a, b) <==> exists i: nat :: FirstDifference(a, b, i)
  {
    if Less(a, b) {
      SomeDifference(a, b);
    }
    if i: nat :| FirstDifference(a, b, i) {
      DifferenceDecides(a, b, i);
    }
  }

  /** a ranks strictly before b. */
  predicate Before(ts: map<string, int>, a: string, b: string)
    requires a in ts && b in ts
  {
    ts[a] > ts[b] || (ts[a] == ts[b] && Less(a, b))
  }

  lemma BeforeTotal(ts: map<string, int>, a: string, b: string)
    requires a in ts && b in ts
    ensures a == b || Before(ts, a, b) || Before(ts, b, a)
    ensures !(Before(ts, a, b) && Before(ts, b, a)) && !Before(ts, a, a)
  {
    LessTotal(a, b);
    LessTotal(a, a);
  }

  lemma BeforeTransitive(ts: map<string, int>, a: string, b: string, c: string)
    requires a in ts && b in ts && c in ts && Before(ts, a, b) && Before(ts, b, c)
    ensures Before(ts, a, c)
  {
    if ts[a] == ts[b] == ts[c] {
      LessTransitive(a, b, c);
    }
  }

  ghost predicate Sorted(ts: map<string, int>, s: seq<string>) {
    && (forall i :: 0 <= i < |s| ==> s[i] in ts)
    && forall i, j :: 0 <= i < j < |s| ==> Before(ts, s[i], s[j])
  }

  /** `sorted(...)`: the keys, best rank first. */
  method SortKeys(ts: map<string, int>) returns (ordered: seq<string>)
    ensures Sorted(ts, ordered)
    ensures forall x :: x in ordered <==> x in ts
  {
    ordered := [];
    var left := ts.Keys;
    while left != {}
      invariant left <= ts.Keys
      invariant Sorted(ts, ordered)
      invariant forall x :: x in ordered <==> x in ts && x !in left
      decreases |left|
    {
      ghost var some := SetFacts.Pick(left);
      var x :| x in left;
      ordered := Insert(ts, ordered, x);
      left := left - {x};
    }
  }

  method Insert(ts: map<string, int>, s: seq<string>, x: string) returns (r: seq<string>)
    requires Sorted(ts, s) && x in ts && x !in s
    ensures Sorted(ts, r)
    ensures forall y :: y in r <==> y in s || y == x
  {
    var k := 0;
    while k < |s| && Before(ts, s[k], x)
      invariant 0 <= k <= |s|
      invariant forall i :: 0 <= i < k ==> Before(ts, s[i], x)
    {
      k := k + 1;
    }
    if k < |s| {
      BeforeTotal(ts, s[k], x);
    }
    InsertedSorted(ts, s, x, k);
    r := s[..k] + [x] + s[k..];
    assert s == s[..k] + s[k..];
  }

  lemma InsertedSorted(ts: map<string, int>, s: seq<string>, x: string, k: nat)
    requires Sorted(ts, s) && x in ts && k <= |s|
    requires forall i :: 0 <= i < k ==> Before(ts, s[i], x)
    requires k < |s| ==> Before(ts, x, s[k])
    ensures Sorted(ts, s[..k] + [x] + s[k..])
  {
    var r := s[..k] + [x] + s[k..];
    forall i | k < i < |s|
      ensures Before(ts, x, s[i])
    {
      BeforeTransitive(ts, x, s[k], s[i]);
    }
    forall i, j | 0 <= i < j < |r|
      ensures Before(ts, r[i], r[j])
    {
      assert r[i] == if i < k then s[i] else if i == k then x else s[i - 1];
      assert r[j] == if j < k then s[j] else if j == k then x else s[j - 1];
    }
  }

  // ---- The k best ----

  /** kept are the k best-ranked keys, or all of them. */
  ghost predicate IsTop(ts: map<string, int>, kept: set<string>, k: nat) {
    && kept <= ts.Keys
    && |kept| == (if |ts| <= k then |ts| else k)
    && forall a, b :: a in kept && b in ts && b !in kept ==> Before(ts, a, b)
  }

  function Ahead(ts: map<string, int>, x: string): set<string>
    requires x in ts
  {
    set y | y in ts.Keys && Before(ts, y, x)
  }

  /** A key is kept exactly when fewer than k keys rank before it. */
  lemma KeptIff(ts: map<string, int>, kept: set<string>, k: nat, x: string)
    requires IsTop(ts, kept, k) && x in ts && |ts| > k
    ensures x in kept <==> |Ahead(ts, x)| < k
  {
    if x in kept {
      forall y | y in Ahead(ts, x)
        ensures y in kept - {x}
      {
        BeforeTotal(ts, y, x);
      }
      SetFacts.SubsetSize(Ahead(ts, x), kept - {x});
    } else {
      forall y | y in kept
        ensures y in Ahead(ts, x)
      {
      }
      SetFacts.SubsetSize(kept, Ahead(ts, x));
    }
  }

  /** With room for all, all are kept. */
  lemma AllKept(ts: map<string, int>, kept: set<string>, k: nat)
    requires IsTop(ts, kept, k) && |ts| <= k
    ensures kept == ts.Keys
  {
    SetFacts.SubsetSize(kept, ts.Keys);
  }

  lemma {:induction false} PrefixSize(s: seq<string>, k: nat)
    requires k <= |s| && forall i, j :: 0 <= i < j < |s| ==> s[i] != s[j]
    ensures |StableSort.Elements(s[..k])| == k
  {
    if k > 0 {
      PrefixSize(s, k - 1);
      assert s[..k] == s[..k - 1] + [s[k - 1]];
      assert StableSort.Elements(s[..k]) == StableSort.Elements(s[..k - 1]) + {s[k - 1]};
      assert s[k - 1] !in s[..k - 1];
    }
  }

  /** `ordered[:k]` */
  function First(s: seq<string>, k: nat): seq<string> {
    if |s| <= k then s else s[..k]
  }

  /** Taking the first k of the sorted keys gives the k best. */
  lemma FirstAreTop(ts: map<string, int>, ordered: seq<string>, k: nat)
    requires Sorted(ts, ordered) && forall x :: x in ordered <==> x in ts
    ensures IsTop(ts, StableSort.Elements(First(ordered, k)), k)
  {
    var n := if |ordered| <= k then |ordered| else k;
    var kept := StableSort.Elements(First(ordered, k));
    forall i, j | 0 <= i < j < |ordered|
      ensures ordered[i] != ordered[j]
    {
      BeforeTotal(ts, ordered[i], ordered[j]);
    }
    PrefixSize(ordered, n);
    PrefixSize(ordered, |ordered|);
    assert ordered[..|ordered|] == ordered;
    assert StableSort.Elements(ordered) == ts.Keys;
    forall a, b | a in kept && b in ts && b !in kept
      ensures Before(ts, a, b)
    {
      FirstBefore(ts, ordered, k, a, b);
    }
  }

  lemma FirstBefore(ts: map<string, int>, ordered: seq<string>, k: nat, a: string, b: string)
    requires Sorted(ts, ordered) && a in First(ordered, k) && b in ordered && b !in First(ordered, k)
    ensures Before(ts, a, b)
  {
    var i :| 0 <= i < |First(ordered, k)| && ordered[i] == a;
    var j :| 0 <= j < |ordered| && ordered[j] == b;
    assert forall l :: 0 <= l < |First(ordered, k)| ==> ordered[l] in First(ordered, k);
  }
}
