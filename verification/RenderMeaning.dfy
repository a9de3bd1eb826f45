/** What the rendered text says (`ai_format.py`). */
module RenderMeaning {
  import opened Rendering
  import opened RenderState
  import opened StableSort
  import opened Text
  import Ranking

  // ---- Cutting ----

  /** The length of Python's `t[:n]`. */
  function CutLength(t: string, n: int): nat {
    if n >= 0 then (if n < |t| then n else |t|) else if |t| + n > 0 then |t| + n else 0
  }

  /** r is t as far as the first n characters go, without white space at the end, and then the mark. */
  ghost predicate CutAt(r: string, t: string, n: int, mark: string, k: nat) {
    && k <= CutLength(t, n) && r == t[..k] + mark
    && AllSpace(t[k..CutLength(t, n)]) && (k > 0 ==> !IsSpace(t[k - 1]))
  }

  /** r is t if that has room, and otherwise cut. */
  ghost predicate ShownOrCut(r: string, t: string, n: int, mark: string) {
    if |t| <= n then r == t else exists k: nat :: CutAt(r, t, n, mark, k)
  }

  lemma CutIs(t: string, n: int, mark: string)
    requires |t| > n
    ensures ShownOrCut(StripRight(Slice(t, n)) + mark, t, n, mark)
  {
    var c := CutLength(t, n);
    assert Slice(t, n) == t[..c];
    StripRightIs(t[..c]);
    var k := |StripRight(t[..c])|;
    assert t[..c][k..] == t[k..c] && StripRight(t[..c]) == t[..k];
    assert CutAt(StripRight(Slice(t, n)) + mark, t, n, mark, k);
  }

  // ---- Scalars ----

  /** Where the first line ends. */
  function LineEnd(s: string): (n: nat)
    ensures n <= |s|
  {
    if s == "" || s[0] == '\r' || s[0] == '\n' then 0 else 1 + LineEnd(s[1..])
  }

  lemma {:induction false} FirstLineIs(s: string)
    ensures var t := WithoutCr(WithoutCrLf(s));
            && ('\n' in t <==> LineEnd(s) < |s|) && FirstLine(t) == s[..LineEnd(s)]
            && (LineEnd(s) == |s| ==> t == s)
  {
    var t := WithoutCr(WithoutCrLf(s));
    if s != "" {
      if s[0] == '\r' || s[0] == '\n' {
        assert t[0] == '\n';
      } else {
        FirstLineIs(s[1..]);
        var later := WithoutCr(WithoutCrLf(s[1..]));
        assert t == [s[0]] + later && t[1..] == later;
        assert s[..LineEnd(s)] == [s[0]] + s[1..][..LineEnd(s[1..])];
      }
    }
  }

  /** Text is shown as it is if it is one line and has room; of several lines the first is shown, with a
      mark; and what has no room is cut. */
  lemma TextMeans(s: string, b: Budget)
    ensures ShownOrCut(FormatText(s, b), if LineEnd(s) < |s| then s[..LineEnd(s)] + " " + ELLIPSIS else s, b.maxStrChars, ELLIPSIS)
  {
    FirstLineIs(s);
    var t := if LineEnd(s) < |s| then s[..LineEnd(s)] + " " + ELLIPSIS else s;
    assert FormatText(s, b) == Clipped(t, b.maxStrChars);
    if |t| > b.maxStrChars {
      CutIs(t, b.maxStrChars, ELLIPSIS);
    }
  }

  lemma ScalarMeans(v: Value, b: Budget)
    requires !v.Dict? && !v.List?
    ensures v.Null? ==> FormatScalar(v, b) == "null"
    ensures v.Bool? ==> FormatScalar(v, b) == if v.b then "true" else "false"
    ensures v.Num? || v.Opaque? ==> FormatScalar(v, b) == v.text
    ensures v.Str? ==>
              ShownOrCut(FormatScalar(v, b), if LineEnd(v.s) < |v.s| then v.s[..LineEnd(v.s)] + " " + ELLIPSIS else v.s,
                         b.maxStrChars, ELLIPSIS)
  {
    if v.Str? {
      TextMeans(v.s, b);
    }
  }

  function Reading(digits: string): nat
    requires forall i :: 0 <= i < |digits| ==> '0' <= digits[i] <= '9'
  {
    if digits == "" then 0 else 10 * Reading(digits[..|digits| - 1]) + (digits[|digits| - 1] as nat - '0' as nat)
  }

  /** Numbers are written in decimal, without leading zeros. */
  lemma {:induction false} DecimalReads(n: nat)
    ensures var d := Decimal(n);
            && d != "" && (forall i :: 0 <= i < |d| ==> '0' <= d[i] <= '9') && Reading(d) == n
            && (d[0] == '0' ==> n == 0)
  {
    if n >= 10 {
      DecimalReads(n / 10);
      assert Decimal(n)[..|Decimal(n)| - 1] == Decimal(n / 10);
    } else {
      assert Decimal(n)[..0] == "";
    }
  }

  lemma {:induction false} IndentIs(depth: nat)
    ensures Indent(depth) == seq(2 * depth, i => ' ')
  {
    if depth > 0 {
      IndentIs(depth - 1);
    }
  }

  // ---- The order of keys ----

  predicate IsPriority(k: Key) {
    k.Name? && k.s in PRIORITY_KEYS
  }

  predicate FirstAt(names: seq<string>, s: string, i: nat) {
    i < |names| && names[i] == s && forall m :: 0 <= m < i ==> names[m] != s
  }

  /** Priority keys first, in the order of their list; then other text, then all else, each by its reading. */
  ghost predicate ComesFirst(a: Key, c: Key) {
    if IsPriority(a) && IsPriority(c)
    then exists i: nat, j: nat :: i < j && FirstAt(PRIORITY_KEYS, a.s, i) && FirstAt(PRIORITY_KEYS, c.s, j)
    else if IsPriority(a) || IsPriority(c) then IsPriority(a)
    else if a.Name? != c.Name? then a.Name?
    else exists i: nat :: Ranking.FirstDifference(Shown(a), Shown(c), i)
  }

  lemma {:induction false} IndexIs(names: seq<string>, s: string)
    requires s in names
    ensures FirstAt(names, s, IndexIn(names, s))
  {
    if names[0] != s {
      IndexIs(names[1..], s);
    }
  }

  lemma PriorityIs(k: Key)
    ensures IsPriority(k) ==> FirstAt(PRIORITY_KEYS, k.s, Priority(k)) && Priority(k) < 10000
    ensures IsPriority(k) ==> forall i :: FirstAt(PRIORITY_KEYS, k.s, i) ==> i == Priority(k)
    ensures !IsPriority(k) ==> Priority(k) == 10000
  {
    if IsPriority(k) {
      IndexIs(PRIORITY_KEYS, k.s);
      assert |PRIORITY_KEYS| < 10000;
    }
  }

  lemma SamePriority(a: Key, c: Key)
    requires IsPriority(a) && Priority(a) == Priority(c)
    ensures a == c
  {
    PriorityIs(a);
    PriorityIs(c);
  }

  lemma KeyLessMeans(a: Key, c: Key)
    ensures KeyLess(a, c) <==> ComesFirst(a, c)
  {
    PriorityIs(a);
    PriorityIs(c);
    Ranking.LessIff(Shown(a), Shown(c));
    if IsPriority(a) && Priority(a) == Priority(c) {
      SamePriority(a, c);
      Ranking.LessTotal(Shown(a), Shown(a));
    }
  }

  lemma KeysRank()
    ensures RanksAll(KeyLess)
  {
    forall x, y
      ensures KeyLess(x, y) ==> !KeyLess(y, x)
    {
      Ranking.LessTotal(Shown(x), Shown(y));
    }
    forall x, y, z | !KeyLess(x, y) && !KeyLess(y, z)
      ensures !KeyLess(x, z)
    {
      NotLessTransitive(Shown(x), Shown(y), Shown(z));
    }
  }

  lemma NotLessTransitive(a: string, b: string, c: string)
    ensures !Ranking.Less(a, b) && !Ranking.Less(b, c) ==> !Ranking.Less(a, c)
  {
    Ranking.LessTotal(a, b);
    Ranking.LessTotal(b, c);
    Ranking.LessTotal(a, c);
    if Ranking.Less(c, b) && Ranking.Less(b, a) {
      Ranking.LessTransitive(c, b, a);
    }
  }

  /** Of the keys of any dict none is listed after one that it comes before. */
  lemma KeysInOrder(entries: seq<Entry>, i: nat, j: nat)
    requires i < j < |Sorted(entries)|
    ensures !ComesFirst(Sorted(entries)[j], Sorted(entries)[i])
  {
    KeysRank();
    SortNoneLater(KeyLess, KeysOf(entries));
    KeyLessMeans(Sorted(entries)[j], Sorted(entries)[i]);
  }

  // ---- Lines ----

  /** The lines of one entry of a dict: its key with its value, or with what kind of value follows below. */
  function Block(k: Key, v: Value, depth: nat, b: Budget): seq<string> {
    var start := Indent(depth) + Shown(k);
    match v
    case Dict(_) => [start + ":"] + Lines(v, depth + 1, b)
    case List(items) => [start + (": [len=" + Decimal(|items|) + "]")] + Lines(v, depth + 1, b)
    case _ => [start + (": " + FormatScalar(v, b))]
  }

  function Blocks(d: Value, depth: nat, b: Budget): seq<seq<string>>
    requires d.Dict?
  {
    var keys := Sorted(d.entries);
    seq(|keys|, i requires 0 <= i < |keys| => Block(keys[i], Lookup(d.entries, keys[i]).val, depth, b))
  }

  function Flat(blocks: seq<seq<string>>): seq<string> {
    if blocks == [] then [] else Flat(blocks[..|blocks| - 1]) + blocks[|blocks| - 1]
  }

  lemma {:induction false} InFlat(blocks: seq<seq<string>>, i: nat, line: string)
    requires i < |blocks| && line in blocks[i]
    ensures line in Flat(blocks)
  {
    if i < |blocks| - 1 {
      InFlat(blocks[..|blocks| - 1], i, line);
    }
  }

  lemma FlatNext(blocks: seq<seq<string>>, n: nat)
    requires n < |blocks|
    ensures Flat(blocks[..n + 1]) == Flat(blocks[..n]) + blocks[n]
  {
    assert blocks[..n + 1][..n] == blocks[..n];
  }

  lemma DictLinesNext(d: Value, n: nat, depth: nat, b: Budget)
    requires d.Dict? && n < |Sorted(d.entries)|
    ensures var keys := Sorted(d.entries);
            DictLines(d, keys[..n + 1], depth, b)
            == DictLines(d, keys[..n], depth, b) + Block(keys[n], Lookup(d.entries, keys[n]).val, depth, b)
  {
    var keys := Sorted(d.entries);
    assert keys[..n + 1][..n] == keys[..n];
    EntryBlock(keys[n], Lookup(d.entries, keys[n]).val, depth, b);
  }

  lemma EntryBlock(k: Key, v: Value, depth: nat, b: Budget)
    ensures EntryLines(k, v, depth, b) == Block(k, v, depth, b)
  {
  }

  lemma {:induction false} FlatIs(blocks: seq<seq<string>>, upTo: seq<seq<string>>, n: nat)
    requires n <= |blocks| && |upTo| == |blocks| + 1 && upTo[0] == []
    requires forall i :: 0 <= i < |blocks| ==> upTo[i + 1] == upTo[i] + blocks[i]
    ensures upTo[n] == Flat(blocks[..n])
  {
    if n > 0 {
      FlatIs(blocks, upTo, n - 1);
      FlatNext(blocks, n - 1);
      assert upTo[n - 1 + 1] == upTo[n - 1] + blocks[n - 1];
    }
  }

  /** A dict is the blocks of its entries, one after the other in the order of the keys, and nothing else. */
  lemma DictMeans(d: Value, depth: nat, b: Budget)
    requires d.Dict? && depth <= b.maxDepth
    ensures Lines(d, depth, b) == Flat(Blocks(d, depth, b))
  {
    var keys := Sorted(d.entries);
    var blocks := Blocks(d, depth, b);
    var upTo := seq(|keys| + 1, i requires 0 <= i <= |keys| => DictLines(d, keys[..i], depth, b));
    forall i | 0 <= i < |keys|
      ensures upTo[i + 1] == upTo[i] + blocks[i]
    {
      DictLinesNext(d, i, depth, b);
    }
    FlatIs(blocks, upTo, |keys|);
    assert keys[..|keys|] == keys && blocks[..|keys|] == blocks;
  }

  /** The scalar entries among the keys, in their order. */
  function Parts(entries: seq<Entry>, keys: seq<Key>, b: Budget): seq<string>
    requires forall k :: k in keys ==> k in KeysOf(entries)
  {
    if keys == [] then []
    else
      var v := Lookup(entries, keys[0]).val;
      (if v.Dict? || v.List? then [] else [Shown(keys[0]) + "=" + FormatScalar(v, b)]) + Parts(entries, keys[1..], b)
  }

  lemma {:induction false} PartsSnoc(entries: seq<Entry>, keys: seq<Key>, last: Key, b: Budget)
    requires forall k :: k in keys + [last] ==> k in KeysOf(entries)
    ensures Parts(entries, keys + [last], b) == Parts(entries, keys, b) + Parts(entries, [last], b)
  {
    if keys == [] {
      assert keys + [last] == [last];
    } else {
      assert (keys + [last])[1..] == keys[1..] + [last];
      PartsSnoc(entries, keys[1..], last, b);
    }
  }

  lemma {:induction false} BitsAreParts(entries: seq<Entry>, keys: seq<Key>, b: Budget)
    requires forall k :: k in keys ==> k in KeysOf(entries)
    ensures Bits(entries, keys, b) == Parts(entries, keys, b)
  {
    if keys != [] {
      var front, last := keys[..|keys| - 1], keys[|keys| - 1];
      BitsAreParts(entries, front, b);
      PartsSnoc(entries, front, last, b);
      assert keys == front + [last];
    }
  }

  /** A list item stands on one line: a dict by the scalars among its first three entries. */
  lemma PreviewMeans(v: Value, depth: nat, b: Budget)
    ensures var start := Indent(depth) + "- ";
            match v
            case Dict(entries) =>
              var keys := Sorted(entries);
              var parts := Parts(entries, if |keys| > 3 then keys[..3] else keys, b);
              ItemLine(v, depth, b) == start + (if parts != [] then Join(parts, " ") else "dict(keys=" + Decimal(|entries|) + ")")
            case List(items) => ItemLine(v, depth, b) == start + ("[list len=" + Decimal(|items|) + "]")
            case _ => ItemLine(v, depth, b) == start + FormatScalar(v, b)
  {
    if v.Dict? {
      BitsAreParts(v.entries, FirstThree(Sorted(v.entries)), b);
    }
  }

  /** A list is its first items, up to the limit, and a note of its length if there are more. */
  lemma ListMeans(items: seq<Value>, depth: nat, b: Budget)
    requires depth <= b.maxDepth
    ensures var n := if b.maxListItems < 0 then 0 else if b.maxListItems < |items| then b.maxListItems else |items|;
            var lines := Lines(List(items), depth, b);
            && |lines| == n + (if |items| > b.maxListItems then 1 else 0)
            && (forall i :: 0 <= i < n ==> lines[i] == ItemLine(items[i], depth, b))
            && (|items| > b.maxListItems ==>
                  lines[n] == Indent(depth) + "- " + (ELLIPSIS + " <TRUNCATED") + " list len=" + Decimal(|items|) + ">")
  {
  }

  /** Below the depth that is asked for there is a note only, and a scalar is a line by itself. */
  lemma OtherMeans(v: Value, depth: nat, b: Budget)
    ensures depth > b.maxDepth ==> Lines(v, depth, b) == [(ELLIPSIS + " <TRUNCATED") + " depth>"]
    ensures depth <= b.maxDepth && !v.Dict? && !v.List? ==> Lines(v, depth, b) == [FormatScalar(v, b)]
  {
  }

  // ---- Every entry is shown ----

  /** A path of keys into nested dicts leads from v to w. */
  predicate Leads(v: Value, path: seq<Key>, w: Value)
    decreases |path|
  {
    if path == [] then v == w
    else v.Dict? && path[0] in KeysOf(v.entries) && Leads(Lookup(v.entries, path[0]).val, path[1..], w)
  }

  lemma BlockShown(d: Value, k: Key, depth: nat, b: Budget, line: string)
    requires d.Dict? && depth <= b.maxDepth && k in KeysOf(d.entries)
    requires line in Block(k, Lookup(d.entries, k).val, depth, b)
    ensures line in Lines(d, depth, b)
  {
    var i :| 0 <= i < |Sorted(d.entries)| && Sorted(d.entries)[i] == k;
    DictMeans(d, depth, b);
    InFlat(Blocks(d, depth, b), i, line);
  }

  lemma NestedShown(k: Key, v: Value, depth: nat, b: Budget, line: string)
    requires v.Dict? && line in Lines(v, depth + 1, b)
    ensures line in Block(k, v, depth, b)
  {
  }

  /** A line of a block is a line of the dict, and a line of a dict one of the block it lies in. */
  ghost predicate Passes(inBlock: (Key, Value, nat) -> bool, inLines: (Value, nat) -> bool, d: Value, k: Key, depth: nat)
    requires d.Dict? && k in KeysOf(d.entries)
  {
    && (inBlock(k, Lookup(d.entries, k).val, depth) ==> inLines(d, depth))
    && forall above :: inLines(d, depth + 1) ==> inBlock(above, d, depth)
  }

  lemma {:induction false} PassesUp(v: Value, path: seq<Key>, w: Value, depth: nat, maxDepth: int,
                                    inBlock: (Key, Value, nat) -> bool, inLines: (Value, nat) -> bool)
    requires forall d: Value, k, n: nat {:trigger Passes(inBlock, inLines, d, k, n)} ::
               d.Dict? && k in KeysOf(d.entries) && n <= maxDepth ==> Passes(inBlock, inLines, d, k, n)
    requires path != [] && Leads(v, path, w) && depth + |path| - 1 <= maxDepth
    requires inBlock(path[|path| - 1], w, depth + |path| - 1)
    ensures inLines(v, depth)
    decreases |path|
  {
    if |path| > 1 {
      var child := Lookup(v.entries, path[0]).val;
      PassesUp(child, path[1..], w, depth + 1, maxDepth, inBlock, inLines);
      assert Passes(inBlock, inLines, child, path[1], depth);
    }
    assert Passes(inBlock, inLines, v, path[0], depth);
  }

  ghost function BlockHas(b: Budget, line: string): (Key, Value, nat) -> bool {
    (k: Key, x: Value, n: nat) => line in Block(k, x, n, b)
  }

  ghost function LinesHave(b: Budget, line: string): (Value, nat) -> bool {
    (x: Value, n: nat) => line in Lines(x, n, b)
  }

  lemma LinePasses(d: Value, k: Key, n: nat, b: Budget, line: string)
    requires d.Dict? && k in KeysOf(d.entries) && n <= b.maxDepth
    ensures Passes(BlockHas(b, line), LinesHave(b, line), d, k, n)
  {
    if BlockHas(b, line)(k, Lookup(d.entries, k).val, n) {
      BlockShown(d, k, n, b, line);
    }
    forall above | LinesHave(b, line)(d, n + 1)
      ensures BlockHas(b, line)(above, d, n)
    {
      NestedShown(above, d, n, b, line);
    }
  }

  lemma AllPass(b: Budget, line: string, inBlock: (Key, Value, nat) -> bool, inLines: (Value, nat) -> bool)
    requires inBlock == BlockHas(b, line) && inLines == LinesHave(b, line)
    ensures forall d: Value, k, n: nat {:trigger Passes(inBlock, inLines, d, k, n)} ::
              d.Dict? && k in KeysOf(d.entries) && n <= b.maxDepth ==> Passes(inBlock, inLines, d, k, n)
  {
    forall d: Value, k, n: nat | d.Dict? && k in KeysOf(d.entries) && n <= b.maxDepth
      ensures Passes(inBlock, inLines, d, k, n)
    {
      LinePasses(d, k, n, b, line);
    }
  }

  /** Every entry of nested dicts, down to the depth that is asked for, is shown with all its lines. */
  lemma EntryIsShown(v: Value, path: seq<Key>, w: Value, depth: nat, b: Budget, line: string)
    requires path != [] && Leads(v, path, w) && depth + |path| - 1 <= b.maxDepth
    requires line in Block(path[|path| - 1], w, depth + |path| - 1, b)
    ensures line in Lines(v, depth, b)
  {
    var inBlock, inLines := BlockHas(b, line), LinesHave(b, line);
    AllPass(b, line, inBlock, inLines);
    assert inBlock(path[|path| - 1], w, depth + |path| - 1);
    PassesUp(v, path, w, depth, b.maxDepth, inBlock, inLines);
  }

  // ---- The whole text ----

  /** `text.split("\n")` */
  function Split(s: string): seq<string> {
    if s == "" then [""]
    else if s[0] == '\n' then [""] + Split(s[1..])
    else
      var rest := Split(s[1..]);
      [[s[0]] + rest[0]] + rest[1..]
  }

  lemma {:induction false} SplitOne(line: string)
    requires '\n' !in line
    ensures Split(line) == [line]
  {
    if line != "" {
      SplitOne(line[1..]);
      assert [line[0]] + line[1..] == line;
    }
  }

  lemma {:induction false} SplitLine(line: string, rest: string)
    requires '\n' !in line
    ensures Split(line + (['\n'] + rest)) == [line] + Split(rest)
  {
    var s := line + (['\n'] + rest);
    if line == "" {
      assert s[1..] == rest;
    } else {
      SplitLine(line[1..], rest);
      assert s[1..] == line[1..] + (['\n'] + rest) && s[0] == line[0];
      assert [line[0]] + line[1..] == line && ([line[1..]] + Split(rest))[1..] == Split(rest);
    }
  }

  /** Splitting at newlines undoes joining lines. */
  lemma {:induction false} SplitJoin(lines: seq<string>)
    requires AllOneLined(lines) && lines != []
    ensures Split(Join(lines, "\n")) == lines
  {
    if |lines| > 1 {
      var rest := Join(lines[1..], "\n");
      SplitJoin(lines[1..]);
      SplitLine(lines[0], rest);
      assert Join(lines, "\n") == lines[0] + (['\n'] + rest);
    } else {
      SplitOne(lines[0]);
    }
  }

  lemma {:induction false} JoinEnds(lines: seq<string>)
    requires lines != [] && lines[|lines| - 1] != ""
    ensures var t := Join(lines, "\n"); t != "" && t[|t| - 1] == lines[|lines| - 1][|lines[|lines| - 1]| - 1]
  {
    if |lines| > 1 {
      JoinEnds(lines[1..]);
    }
  }

  /** Content is put between header and newline and shown, or cut. */
  lemma CappedMeans(content: string, maxChars: int)
    ensures ShownOrCut(Capped(Wrapped(content), maxChars), HEADER + content + "\n", maxChars, MARKER)
  {
    if |Wrapped(content)| > maxChars {
      CutIs(Wrapped(content), maxChars, MARKER);
    }
  }

  /** The text is the emitted lines, up to white space at the end, so shown or cut. */
  lemma MarkdownMeans(data: Value, b: Budget)
    ensures exists content :: ShownOrCut(Markdown(data, b), HEADER + content + "\n", b.maxChars, MARKER)
                              && content <= Join(Emitted(data, b), "\n")
                              && AllSpace(Join(Emitted(data, b), "\n")[|content|..])
                              && (content != "" ==> !IsSpace(content[|content| - 1]))
  {
    var content := Content(Emitted(data, b));
    CappedMeans(content, b.maxChars);
    StripRightIs(Join(Emitted(data, b), "\n"));
    assert Markdown(data, b) == Capped(Wrapped(content), b.maxChars);
  }

  /** A text that is not cut gives its lines back: without the header and the final newline, split at
      newlines; as long as the last line does not end in white space. */
  lemma MarkdownReadsBack(data: Value, b: Budget)
    requires OneLined(data)
    requires Room(Lines(data, 0, b)) <= b.maxChars && |HEADER| + |Content(Lines(data, 0, b))| + 1 <= b.maxChars
    requires var lines := Lines(data, 0, b);
             lines != [] && lines[|lines| - 1] != "" && !IsSpace(lines[|lines| - 1][|lines[|lines| - 1]| - 1])
    ensures var text := Markdown(data, b);
            && |text| > |HEADER| && HEADER <= text && text[|text| - 1] == '\n'
            && Split(text[|HEADER|..|text| - 1]) == Lines(data, 0, b)
  {
    var lines := Lines(data, 0, b);
    LinesOneLined(data, 0, b);
    SplitJoin(lines);
    JoinEnds(lines);
    assert Content(lines) == Join(lines, "\n");
    var text := Wrapped(Content(lines));
    UncutIff(data, b);
    WrappedLength(Content(lines));
    assert Markdown(data, b) == text;
    assert text[|HEADER|..|text| - 1] == Content(lines);
  }
}
