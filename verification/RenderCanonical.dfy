/** Rendering does not depend on the insertion order of dicts (`ai_format.py`). */
module RenderCanonical {
  import opened Rendering
  import opened RenderState
  import opened StableSort
  import Ranking

  /** w is v with the entries of dicts in another order, at any depth; a dict has each key once. */
  ghost predicate Reordered(v: Value, w: Value)
    decreases v
  {
    match v
    case Dict(entries) => w.Dict? && SameKeys(entries, w.entries)
      && forall i :: 0 <= i < |entries| ==> Reordered(entries[i].val, Lookup(w.entries, entries[i].key).val)
    case List(items) => w.List? && |items| == |w.items|
      && forall i :: 0 <= i < |items| ==> Reordered(items[i], w.items[i])
    case _ => v == w
  }

  ghost predicate SameKeys(es: seq<Entry>, fs: seq<Entry>)
    ensures SameKeys(es, fs) ==> forall i :: 0 <= i < |es| ==> es[i].key in KeysOf(fs)
  {
    && |es| == |fs| && Distinct(KeysOf(es)) && Distinct(KeysOf(fs))
    && (forall i :: 0 <= i < |es| ==> es[i].key in KeysOf(fs))
    && (forall i :: 0 <= i < |fs| ==> fs[i].key in KeysOf(es))
  }

  /** No two keys other than text read the same. */
  ghost predicate ReadApart(keys: set<Key>) {
    forall a, c :: a in keys && c in keys && a.Other? && c.Other? && a.text == c.text ==> a == c
  }

  ghost predicate Tellable(v: Value)
    decreases v
  {
    match v
    case Dict(entries) => ReadApart(Elements(KeysOf(entries))) && forall i :: 0 <= i < |entries| ==> Tellable(entries[i].val)
    case List(items) => forall i :: 0 <= i < |items| ==> Tellable(items[i])
    case _ => true
  }

  // ---- The key order is strict and total ----

  lemma KeyLessTotal(a: Key, c: Key)
    ensures !KeyLess(a, a)
    ensures (a.Other? && c.Other? && a.text == c.text) || a == c || (KeyLess(a, c) <==> !KeyLess(c, a))
  {
    Ranking.LessTotal(Shown(a), Shown(c));
    Ranking.LessTotal(Shown(a), Shown(a));
  }

  lemma KeyLessTransitive(a: Key, c: Key, d: Key)
    requires KeyLess(a, c) && KeyLess(c, d)
    ensures KeyLess(a, d)
  {
    if Ranking.Less(Shown(a), Shown(c)) && Ranking.Less(Shown(c), Shown(d)) {
      Ranking.LessTransitive(Shown(a), Shown(c), Shown(d));
    }
  }

  /** The order decides between any two keys of a dict exactly when no two of them read the same. */
  lemma TotalIffReadApart(keys: set<Key>)
    ensures StrictTotalOn(KeyLess, keys) <==> ReadApart(keys)
  {
    if ReadApart(keys) {
      forall x, y | x in keys && y in keys
        ensures !KeyLess(x, x) && (x != y ==> (KeyLess(x, y) <==> !KeyLess(y, x)))
      {
        KeyLessTotal(x, y);
      }
      forall x, y, z | x in keys && y in keys && z in keys && KeyLess(x, y) && KeyLess(y, z)
        ensures KeyLess(x, z)
      {
        KeyLessTransitive(x, y, z);
      }
    }
    if StrictTotalOn(KeyLess, keys) {
      forall a, c | a in keys && c in keys && a.Other? && c.Other? && a.text == c.text
        ensures a == c
      {
        Ranking.LessTotal(a.text, a.text);
        assert !KeyLess(a, c) && !KeyLess(c, a);
      }
    }
  }

  // ---- Same lines ----

  lemma KeysCovered(es: seq<Entry>, fs: seq<Entry>)
    requires forall i :: 0 <= i < |es| ==> es[i].key in KeysOf(fs)
    ensures forall k :: k in KeysOf(es) ==> k in KeysOf(fs)
  {
    forall k | k in KeysOf(es)
      ensures k in KeysOf(fs)
    {
      var i :| 0 <= i < |es| && KeysOf(es)[i] == k;
    }
  }

  lemma SortedSame(es: seq<Entry>, fs: seq<Entry>)
    requires SameKeys(es, fs) && ReadApart(Elements(KeysOf(es)))
    ensures Sorted(es) == Sorted(fs)
  {
    TotalIffReadApart(Elements(KeysOf(es)));
    KeysCovered(es, fs);
    KeysCovered(fs, es);
    assert Elements(KeysOf(es)) == Elements(KeysOf(fs));
    SortCanonical(KeyLess, KeysOf(es), KeysOf(fs));
  }

  lemma ValuesReordered(v: Value, w: Value, k: Key)
    requires v.Dict? && Reordered(v, w) && Tellable(v) && k in KeysOf(v.entries)
    ensures k in KeysOf(w.entries) && Reordered(Lookup(v.entries, k).val, Lookup(w.entries, k).val)
    ensures Tellable(Lookup(v.entries, k).val)
  {
    var i :| 0 <= i < |v.entries| && v.entries[i] == Lookup(v.entries, k);
    assert v.entries[i].key == k;
  }

  lemma {:induction false} BitsSame(v: Value, w: Value, keys: seq<Key>, b: Budget)
    requires v.Dict? && Reordered(v, w) && Tellable(v)
    requires forall k :: k in keys ==> k in KeysOf(v.entries) && k in KeysOf(w.entries)
    ensures Bits(v.entries, keys, b) == Bits(w.entries, keys, b)
  {
    if keys != [] {
      BitsSame(v, w, keys[..|keys| - 1], b);
      ValuesReordered(v, w, keys[|keys| - 1]);
    }
  }

  lemma ItemSame(v: Value, w: Value, depth: nat, b: Budget)
    requires Reordered(v, w) && Tellable(v)
    ensures ItemLine(v, depth, b) == ItemLine(w, depth, b)
  {
    if v.Dict? {
      SortedSame(v.entries, w.entries);
      BitsSame(v, w, FirstThree(Sorted(v.entries)), b);
    }
  }

  lemma EntrySame(k: Key, v: Value, w: Value, depth: nat, b: Budget)
    requires Reordered(v, w)
    ensures EntryLine(k, v, depth, b) == EntryLine(k, w, depth, b)
  {
  }

  lemma {:induction false} DictSame(v: Value, w: Value, keys: seq<Key>, depth: nat, b: Budget)
    requires v.Dict? && Reordered(v, w) && Tellable(v)
    requires forall k :: k in keys ==> k in KeysOf(v.entries) && k in KeysOf(w.entries)
    ensures DictLines(v, keys, depth, b) == DictLines(w, keys, depth, b)
    decreases v, 0, |keys|
  {
    if keys != [] {
      var last := keys[|keys| - 1];
      DictSame(v, w, keys[..|keys| - 1], depth, b);
      ValuesReordered(v, w, last);
      EntrySame(last, Lookup(v.entries, last).val, Lookup(w.entries, last).val, depth, b);
      if Lookup(v.entries, last).val.Dict? || Lookup(v.entries, last).val.List? {
        LinesSame(Lookup(v.entries, last).val, Lookup(w.entries, last).val, depth + 1, b);
      }
    }
  }

  lemma ListSame(v: Value, w: Value, depth: nat, b: Budget)
    requires v.List? && Reordered(v, w) && Tellable(v)
    ensures ListLines(v.items, depth, b) == ListLines(w.items, depth, b)
  {
    forall i | 0 <= i < |v.items|
      ensures ItemLine(v.items[i], depth, b) == ItemLine(w.items[i], depth, b)
    {
      ItemSame(v.items[i], w.items[i], depth, b);
    }
    assert ItemLines(v.items, depth, b) == ItemLines(w.items, depth, b);
  }

  lemma {:induction false} LinesSame(v: Value, w: Value, depth: nat, b: Budget)
    requires Reordered(v, w) && Tellable(v)
    ensures Lines(v, depth, b) == Lines(w, depth, b)
    decreases v, 1, 0
  {
    if v.Dict? {
      SortedSame(v.entries, w.entries);
      DictSame(v, w, Sorted(v.entries), depth, b);
      DictLinesAre(v, depth, b);
      DictLinesAre(w, depth, b);
    } else if v.List? {
      ListSame(v, w, depth, b);
    }
  }

  lemma DictLinesAre(v: Value, depth: nat, b: Budget)
    requires v.Dict?
    ensures Lines(v, depth, b) == if depth > b.maxDepth then [TRUNCATED + " depth>"] else DictLines(v, Sorted(v.entries), depth, b)
  {
  }

  /** Values that differ only in the order of dict entries render to the same text, under any budget. */
  lemma RenderingIsCanonical(v: Value, w: Value, b: Budget)
    requires Reordered(v, w) && Tellable(v)
    ensures Markdown(v, b) == Markdown(w, b)
  {
    LinesSame(v, w, 0, b);
  }

  // ---- Text keys always suffice; others that read the same do not ----

  ghost predicate TextKeyed(v: Value)
    decreases v
  {
    match v
    case Dict(entries) => forall i :: 0 <= i < |entries| ==> entries[i].key.Name? && TextKeyed(entries[i].val)
    case List(items) => forall i :: 0 <= i < |items| ==> TextKeyed(items[i])
    case _ => true
  }

  lemma {:induction false} TextKeyedTellable(v: Value)
    requires TextKeyed(v)
    ensures Tellable(v)
  {
    if v.Dict? {
      forall i | 0 <= i < |v.entries|
        ensures Tellable(v.entries[i].val)
      {
        TextKeyedTellable(v.entries[i].val);
      }
    } else if v.List? {
      forall i | 0 <= i < |v.items|
        ensures Tellable(v.items[i])
      {
        TextKeyedTellable(v.items[i]);
      }
    }
  }

  lemma TextKeyedCanonical(v: Value, w: Value, b: Budget)
    requires Reordered(v, w) && TextKeyed(v)
    ensures Markdown(v, b) == Markdown(w, b)
  {
    TextKeyedTellable(v);
    RenderingIsCanonical(v, w, b);
  }

  lemma TieKeepsOrder(a: Key, c: Key)
    requires a.Other? && c.Other? && a.text == c.text
    ensures Sort(KeyLess, [a, c]) == [a, c]
  {
    Ranking.LessTotal(a.text, a.text);
    assert [a, c][1..] == [c] && [c][1..] == [];
    assert Sort(KeyLess, [c]) == Insert(KeyLess, c, Sort(KeyLess, [c][1..]));
    assert Sort(KeyLess, [a, c]) == Insert(KeyLess, a, Sort(KeyLess, [a, c][1..]));
  }

  lemma FirstOfTwo(a: Key, c: Key, x: Value, y: Value, b: Budget)
    requires a.Other? && c.Other? && a != c && a.text == c.text && b.maxDepth >= 0
    requires !x.Dict? && !x.List? && !y.Dict? && !y.List?
    ensures var ls := Lines(Dict([Entry(a, x), Entry(c, y)]), 0, b); ls != [] && ls[0] == EntryLine(a, x, 0, b)
  {
    var d := Dict([Entry(a, x), Entry(c, y)]);
    assert KeysOf(d.entries) == [a, c];
    TieKeepsOrder(a, c);
    StartsWithFirst(d, [a, c], 0, b);
  }

  lemma StartsWithFirst(d: Value, keys: seq<Key>, depth: nat, b: Budget)
    requires d.Dict? && keys != [] && forall k :: k in keys ==> k in KeysOf(d.entries)
    ensures var ls := DictLines(d, keys, depth, b);
            ls != [] && ls[0] == EntryLine(keys[0], Lookup(d.entries, keys[0]).val, depth, b)
  {
    DictPrefix(d, keys, 1, depth, b);
    assert keys[..1][..0] == [];
    assert DictLines(d, keys[..1], depth, b) == EntryLines(keys[0], Lookup(d.entries, keys[0]).val, depth, b);
  }

  /** Two keys that are not text and read the same keep their insertion order, and so it shows. */
  lemma SameReadingShowsOrder(a: Key, c: Key, x: Value, y: Value, b: Budget)
    requires a.Other? && c.Other? && a != c && a.text == c.text && b.maxDepth >= 0
    requires !x.Dict? && !x.List? && !y.Dict? && !y.List? && FormatScalar(x, b) != FormatScalar(y, b)
    ensures Reordered(Dict([Entry(a, x), Entry(c, y)]), Dict([Entry(c, y), Entry(a, x)]))
    ensures Lines(Dict([Entry(a, x), Entry(c, y)]), 0, b) != Lines(Dict([Entry(c, y), Entry(a, x)]), 0, b)
  {
    FirstOfTwo(a, c, x, y, b);
    FirstOfTwo(c, a, y, x, b);
    ScalarsShow(a, c, x, y, b);
    SwapReordered(a, c, x, y);
  }

  lemma ScalarsShow(a: Key, c: Key, x: Value, y: Value, b: Budget)
    requires a.Other? && c.Other? && a.text == c.text
    requires !x.Dict? && !x.List? && !y.Dict? && !y.List? && FormatScalar(x, b) != FormatScalar(y, b)
    ensures EntryLine(a, x, 0, b) != EntryLine(c, y, 0, b)
  {
    var before := Indent(0) + a.text + ": ";
    assert EntryLine(a, x, 0, b) == before + FormatScalar(x, b) && EntryLine(c, y, 0, b) == before + FormatScalar(y, b);
    assert (before + FormatScalar(x, b))[|before|..] == FormatScalar(x, b);
    assert (before + FormatScalar(y, b))[|before|..] == FormatScalar(y, b);
  }

  lemma SwapReordered(a: Key, c: Key, x: Value, y: Value)
    requires a != c && !x.Dict? && !x.List? && !y.Dict? && !y.List?
    ensures Reordered(Dict([Entry(a, x), Entry(c, y)]), Dict([Entry(c, y), Entry(a, x)]))
  {
    var es, fs := [Entry(a, x), Entry(c, y)], [Entry(c, y), Entry(a, x)];
    assert KeysOf(es) == [a, c] && KeysOf(fs) == [c, a];
    assert SameKeys(es, fs);
    assert Lookup(fs, c) == fs[0] && Lookup(fs, a) == fs[1];
  }
}
