/** When the order in which a dict was filled shows in the text (`ai_format.py`). */
module RenderOrder {
  import opened Rendering
  import opened RenderCanonical
  import opened RenderState
  import opened StableSort
  import opened Text
  import Ranking

  /** A dict with these keys, filled in this order. */
  function DictOf(keys: seq<Key>, val: Key -> Value): Value {
    Dict(seq(|keys|, i requires 0 <= i < |keys| => Entry(keys[i], val(keys[i]))))
  }

  /** The same keys in another order. */
  ghost predicate Rearranged(ks: seq<Key>, ls: seq<Key>) {
    |ks| == |ls| && Distinct(ls) && Elements(ks) == Elements(ls)
  }

  /** A value that is itself rendered alike in every order. */
  ghost predicate Steady(v: Value) {
    Reordered(v, v) && Tellable(v)
  }

  /** Dicts with these keys and the same values render to the same text, in whatever order they were
      filled and under whatever budget. */
  ghost predicate RenderAlike(ks: seq<Key>) {
    forall ls: seq<Key>, val: Key -> Value, b: Budget {:trigger Markdown(DictOf(ls, val), b)} ::
      Rearranged(ks, ls) && (forall k :: k in ks ==> Steady(val(k))) ==> Markdown(DictOf(ks, val), b) == Markdown(DictOf(ls, val), b)
  }

  lemma DictKeys(keys: seq<Key>, val: Key -> Value)
    ensures KeysOf(DictOf(keys, val).entries) == keys
    ensures forall k :: k in keys ==> k in KeysOf(DictOf(keys, val).entries) && Lookup(DictOf(keys, val).entries, k).val == val(k)
  {
    assert KeysOf(DictOf(keys, val).entries) == keys;
  }

  // ---- Keys that read apart ----

  lemma RearrangedReordered(ks: seq<Key>, ls: seq<Key>, val: Key -> Value)
    requires Distinct(ks) && Rearranged(ks, ls) && forall k :: k in ks ==> Steady(val(k))
    ensures Reordered(DictOf(ks, val), DictOf(ls, val))
  {
    var es, fs := DictOf(ks, val).entries, DictOf(ls, val).entries;
    DictKeys(ks, val);
    DictKeys(ls, val);
    forall i | 0 <= i < |ks|
      ensures ks[i] in ls
    {
      assert ks[i] in Elements(ls);
    }
    forall i | 0 <= i < |ls|
      ensures ls[i] in ks
    {
      assert ls[i] in Elements(ks);
    }
    assert SameKeys(es, fs);
    forall i | 0 <= i < |es|
      ensures Reordered(es[i].val, Lookup(fs, es[i].key).val)
    {
      assert ks[i] in ks;
    }
  }

  lemma ApartRenderAlike(ks: seq<Key>)
    requires Distinct(ks) && ReadApart(Elements(ks))
    ensures RenderAlike(ks)
  {
    forall ls: seq<Key>, val: Key -> Value, b: Budget | Rearranged(ks, ls) && (forall k :: k in ks ==> Steady(val(k)))
      ensures Markdown(DictOf(ks, val), b) == Markdown(DictOf(ls, val), b)
    {
      RearrangedReordered(ks, ls, val);
      DictKeys(ks, val);
      var es := DictOf(ks, val).entries;
      forall i | 0 <= i < |es|
        ensures Tellable(es[i].val)
      {
        assert ks[i] in ks;
      }
      RenderingIsCanonical(DictOf(ks, val), DictOf(ls, val), b);
    }
  }

  // ---- Two keys that read the same ----

  function Swapped(a: Key, c: Key, k: Key): Key {
    if k == a then c else if k == c then a else k
  }

  function Swap(a: Key, c: Key): Key -> Key {
    k => Swapped(a, c, k)
  }

  /** The key order does not see the exchange of two keys that read the same. */
  lemma SwapRespected(a: Key, c: Key)
    requires a.Other? && c.Other? && a.text == c.text
    ensures Respects(Swap(a, c), KeyLess)
  {
    forall x: Key, y: Key
      ensures KeyLess(Swapped(a, c, x), Swapped(a, c, y)) == KeyLess(x, y)
    {
      SameRank(x, Swapped(a, c, x));
      SameRank(y, Swapped(a, c, y));
      RankDecides(x, Swapped(a, c, x), y, Swapped(a, c, y));
    }
  }

  predicate RanksAs(x: Key, y: Key) {
    Priority(x) == Priority(y) && (x.Name? <==> y.Name?) && Shown(x) == Shown(y)
  }

  lemma SameRank(x: Key, y: Key)
    requires x == y || (x.Other? && y.Other? && x.text == y.text)
    ensures RanksAs(x, y)
  {
  }

  lemma RankDecides(x: Key, x': Key, y: Key, y': Key)
    requires RanksAs(x, x') && RanksAs(y, y')
    ensures KeyLess(x', y') == KeyLess(x, y)
  {
  }

  /** The two keys get different scalars of one character. */
  function Mark(a: Key, c: Key, k: Key): Value {
    Num(if k == a then "x" else if k == c then "y" else "z")
  }

  function Marks(a: Key, c: Key): Key -> Value {
    k => Mark(a, c, k)
  }

  function MarkLine(a: Key, c: Key, k: Key): string {
    Shown(k) + ": " + Mark(a, c, k).text
  }

  lemma MarkEntryLine(a: Key, c: Key, k: Key, b: Budget)
    ensures EntryLines(k, Mark(a, c, k), 0, b) == [MarkLine(a, c, k)]
  {
    assert Indent(0) == "";
    assert "" + Shown(k) + (": " + Mark(a, c, k).text) == Shown(k) + ": " + Mark(a, c, k).text;
  }

  function MarkLines(a: Key, c: Key, keys: seq<Key>): seq<string> {
    seq(|keys|, i requires 0 <= i < |keys| => MarkLine(a, c, keys[i]))
  }

  lemma {:induction false} MarkedDictLines(a: Key, c: Key, d: Value, keys: seq<Key>, b: Budget)
    requires d.Dict? && forall k :: k in keys ==> k in KeysOf(d.entries) && Lookup(d.entries, k).val == Mark(a, c, k)
    ensures DictLines(d, keys, 0, b) == MarkLines(a, c, keys)
    decreases |keys|
  {
    if keys != [] {
      var front, last := keys[..|keys| - 1], keys[|keys| - 1];
      MarkedDictLines(a, c, d, front, b);
      MarkEntryLine(a, c, last, b);
      DictLinesSnoc(d, keys, 0, b);
      MarkLinesSnoc(a, c, keys);
    }
  }

  lemma DictLinesSnoc(d: Value, keys: seq<Key>, depth: nat, b: Budget)
    requires d.Dict? && keys != [] && forall k :: k in keys ==> k in KeysOf(d.entries)
    ensures var front, last := keys[..|keys| - 1], keys[|keys| - 1];
            DictLines(d, keys, depth, b) == DictLines(d, front, depth, b) + EntryLines(last, Lookup(d.entries, last).val, depth, b)
  {
  }

  lemma MarkLinesSnoc(a: Key, c: Key, keys: seq<Key>)
    requires keys != []
    ensures MarkLines(a, c, keys) == MarkLines(a, c, keys[..|keys| - 1]) + [MarkLine(a, c, keys[|keys| - 1])]
  {
  }

  function Marked(a: Key, c: Key, keys: seq<Key>): Value {
    DictOf(keys, Marks(a, c))
  }

  lemma MarkedLines(a: Key, c: Key, keys: seq<Key>, b: Budget)
    requires b.maxDepth >= 0
    ensures Lines(Marked(a, c, keys), 0, b) == MarkLines(a, c, Sort(KeyLess, keys))
  {
    var d := Marked(a, c, keys);
    DictKeys(keys, Marks(a, c));
    SortSameElements(KeyLess, keys);
    DictLinesAre(d, 0, b);
    MarkedDictLines(a, c, d, Sorted(d.entries), b);
  }

  // ---- Texts that differ ----

  lemma {:induction false} StripKeeps(s: string, q: nat)
    requires q < |s| && !IsSpace(s[q])
    ensures q < |StripRight(s)| && StripRight(s)[q] == s[q]
  {
    if IsSpace(s[|s| - 1]) {
      StripKeeps(s[..|s| - 1], q);
    }
  }

  /** Where the end of line p comes to stand. */
  lemma {:induction false} LineEnd(lines: seq<string>, p: nat) returns (q: nat)
    requires p < |lines| && lines[p] != ""
    ensures q < |Join(lines, "\n")| && Join(lines, "\n")[q] == lines[p][|lines[p]| - 1]
    ensures q == Room(lines[..p]) + |lines[p]| - 1
  {
    if p == 0 {
      q := |lines[0]| - 1;
      assert lines[..0] == [];
    } else {
      var r := LineEnd(lines[1..], p - 1);
      q := |lines[0]| + 1 + r;
      assert lines[..p] == [lines[0]] + lines[1..][..p - 1];
      RoomConcat([lines[0]], lines[1..][..p - 1]);
      assert [lines[0]][..0] == [];
      assert Join(lines, "\n") == lines[0] + "\n" + Join(lines[1..], "\n");
    }
  }

  lemma {:induction false} SameRoom(ms: seq<string>, ns: seq<string>)
    requires |ms| == |ns| && forall i :: 0 <= i < |ms| ==> |ms[i]| == |ns[i]|
    ensures Room(ms) == Room(ns)
  {
    if ms != [] {
      SameRoom(ms[..|ms| - 1], ns[..|ns| - 1]);
    }
  }

  /** Lines of equal lengths, one of which ends in different visible characters. */
  lemma ContentsDiffer(ms: seq<string>, ns: seq<string>, p: nat)
    requires |ms| == |ns| && forall i :: 0 <= i < |ms| ==> |ms[i]| == |ns[i]|
    requires p < |ms| && ms[p] != ""
    requires var l := |ms[p]| - 1; ms[p][l] != ns[p][l] && !IsSpace(ms[p][l]) && !IsSpace(ns[p][l])
    ensures Content(ms) != Content(ns)
  {
    var q := LineEnd(ms, p);
    var r := LineEnd(ns, p);
    SameRoom(ms[..p], ns[..p]);
    assert q == r;
    StripKeeps(Join(ms, "\n"), q);
    StripKeeps(Join(ns, "\n"), q);
  }

  lemma WrappedDiffers(x: string, y: string)
    requires x != y
    ensures Wrapped(x) != Wrapped(y)
  {
    assert Wrapped(x)[|HEADER|..|Wrapped(x)| - 1] == x;
    assert Wrapped(y)[|HEADER|..|Wrapped(y)| - 1] == y;
  }

  lemma MarkLineEnd(a: Key, c: Key, k: Key)
    ensures var l := MarkLine(a, c, k); |l| == |Shown(k)| + 3 && l[|l| - 1] == if k == a then 'x' else if k == c then 'y' else 'z'
  {
  }

  lemma MarksHaveSameLengths(a: Key, c: Key, keys: seq<Key>)
    requires a.Other? && c.Other? && a.text == c.text
    ensures var ms, ns := MarkLines(a, c, keys), MarkLines(a, c, Mapped(Swap(a, c), keys));
            |ms| == |ns| == |keys| && forall i :: 0 <= i < |ms| ==> |ms[i]| == |ns[i]|
  {
    MappedAt(Swap(a, c), keys);
    forall i | 0 <= i < |keys|
      ensures |MarkLine(a, c, keys[i])| == |MarkLine(a, c, Swapped(a, c, keys[i]))|
    {
      MarkLineEnd(a, c, keys[i]);
      MarkLineEnd(a, c, Swapped(a, c, keys[i]));
    }
  }

  /** The lines of the two keys end in different visible characters. */
  lemma MarksSeen(a: Key, c: Key)
    requires a.Other? && c.Other? && a.text == c.text && a != c
    ensures var x, y := MarkLine(a, c, a), MarkLine(a, c, c);
            x != "" && |x| == |y| && x[|x| - 1] != y[|x| - 1] && !IsSpace(x[|x| - 1]) && !IsSpace(y[|x| - 1])
  {
    MarkLineEnd(a, c, a);
    MarkLineEnd(a, c, c);
  }

  lemma MarksDiffer(a: Key, c: Key, keys: seq<Key>)
    requires a.Other? && c.Other? && a.text == c.text && a != c && a in keys
    ensures Content(MarkLines(a, c, keys)) != Content(MarkLines(a, c, Mapped(Swap(a, c), keys)))
  {
    var ms, ns := MarkLines(a, c, keys), MarkLines(a, c, Mapped(Swap(a, c), keys));
    MappedAt(Swap(a, c), keys);
    MarksHaveSameLengths(a, c, keys);
    MarksSeen(a, c);
    var p :| 0 <= p < |keys| && keys[p] == a;
    assert ms[p] == MarkLine(a, c, a) && ns[p] == MarkLine(a, c, c);
    ContentsDiffer(ms, ns, p);
  }

  lemma MarksSameRoom(a: Key, c: Key, keys: seq<Key>)
    requires a.Other? && c.Other? && a.text == c.text && a in keys
    ensures var ms, ns := MarkLines(a, c, keys), MarkLines(a, c, Mapped(Swap(a, c), keys));
            Room(ms) == Room(ns) && ms != [] && ns != []
  {
    MarksHaveSameLengths(a, c, keys);
    SameRoom(MarkLines(a, c, keys), MarkLines(a, c, Mapped(Swap(a, c), keys)));
  }

  lemma MarksShow(a: Key, c: Key, ks: seq<Key>, ls: seq<Key>, b: Budget)
    requires a.Other? && c.Other? && a.text == c.text && a != c && a in ks && ls == Mapped(Swap(a, c), ks)
    requires b.maxDepth >= 0 && b.maxChars >= Room(MarkLines(a, c, Sort(KeyLess, ks))) + |HEADER|
    ensures Markdown(Marked(a, c, ks), b) != Markdown(Marked(a, c, ls), b)
  {
    SwapRespected(a, c);
    SortMapped(KeyLess, Swap(a, c), ks);
    SortSameElements(KeyLess, ks);
    MarkedLines(a, c, ks, b);
    MarkedLines(a, c, ls, b);
    MarksDiffer(a, c, Sort(KeyLess, ks));
    MarksSameRoom(a, c, Sort(KeyLess, ks));
    UncutWithRoomForHeader(Marked(a, c, ks), b);
    UncutWithRoomForHeader(Marked(a, c, ls), b);
    WrappedDiffers(Content(Lines(Marked(a, c, ks), 0, b)), Content(Lines(Marked(a, c, ls), 0, b)));
  }

  lemma SwapTwice(a: Key, c: Key, k: Key)
    ensures Swapped(a, c, Swapped(a, c, k)) == k
  {
  }

  lemma SwapKeepsDistinct(a: Key, c: Key, ks: seq<Key>)
    requires Distinct(ks)
    ensures Distinct(Mapped(Swap(a, c), ks))
  {
    var ls := Mapped(Swap(a, c), ks);
    MappedAt(Swap(a, c), ks);
    forall i, j | 0 <= i < j < |ls|
      ensures ls[i] != ls[j]
    {
      SwapTwice(a, c, ks[i]);
      SwapTwice(a, c, ks[j]);
      assert ls[i] == Swapped(a, c, ks[i]) && ls[j] == Swapped(a, c, ks[j]);
    }
  }

  lemma SwapWithin(a: Key, c: Key, ks: seq<Key>)
    requires a in ks && c in ks
    ensures forall k :: k in Mapped(Swap(a, c), ks) <==> k in ks
  {
    var ls := Mapped(Swap(a, c), ks);
    MappedAt(Swap(a, c), ks);
    forall k | k in ks
      ensures k in ls
    {
      var i :| 0 <= i < |ks| && ks[i] == Swapped(a, c, k);
      SwapTwice(a, c, k);
      assert ls[i] == k;
    }
    forall k | k in ls
      ensures k in ks
    {
      var i :| 0 <= i < |ls| && ls[i] == k;
      assert k == Swapped(a, c, ks[i]);
    }
  }

  lemma SwapRearranges(a: Key, c: Key, ks: seq<Key>)
    requires Distinct(ks) && a in ks && c in ks
    ensures Rearranged(ks, Mapped(Swap(a, c), ks))
  {
    MappedAt(Swap(a, c), ks);
    SwapKeepsDistinct(a, c, ks);
    SwapWithin(a, c, ks);
  }

  lemma MarkSteady(a: Key, c: Key, k: Key)
    ensures Steady(Mark(a, c, k))
  {
  }

  lemma NotAlike(ks: seq<Key>, ls: seq<Key>, val: Key -> Value, b: Budget)
    requires Rearranged(ks, ls) && forall k :: k in ks ==> Steady(val(k))
    requires Markdown(DictOf(ks, val), b) != Markdown(DictOf(ls, val), b)
    ensures !RenderAlike(ks)
  {
  }

  lemma SameReadingDiffers(ks: seq<Key>, a: Key, c: Key)
    requires Distinct(ks) && a in ks && c in ks && a.Other? && c.Other? && a.text == c.text && a != c
    ensures !RenderAlike(ks)
  {
    var ls, b := Mapped(Swap(a, c), ks), Budget(Room(MarkLines(a, c, Sort(KeyLess, ks))) + |HEADER|, 0, 0, 0);
    SwapRearranges(a, c, ks);
    MarksShow(a, c, ks, ls, b);
    forall k | k in ks
      ensures Steady(Marks(a, c)(k))
    {
      MarkSteady(a, c, k);
    }
    NotAlike(ks, ls, Marks(a, c), b);
  }

  /** Dicts with the given keys render alike in every order of filling exactly when no two of the keys,
      other than text, read the same. */
  lemma RenderAlikeIff(ks: seq<Key>)
    requires Distinct(ks)
    ensures RenderAlike(ks) <==> ReadApart(Elements(ks))
  {
    if ReadApart(Elements(ks)) {
      ApartRenderAlike(ks);
    } else {
      var a, c :| a in Elements(ks) && c in Elements(ks) && a.Other? && c.Other? && a.text == c.text && a != c;
      SameReadingDiffers(ks, a, c);
    }
  }
}
