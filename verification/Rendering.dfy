/** Budgeted rendering of tool output (`ai_format.py`). */
module Rendering {
  import Ranking
  import opened StableSort
  import opened Text

  // ---- Values ----

  /** A dict key: text, or anything else with its `str(...)`. */
  datatype Key = Name(s: string) | Other(id: nat, text: string)

  /** Scalars that are not text carry their `str(...)`. */
  datatype Value = Null | Bool(b: bool) | Num(text: string) | Str(s: string) | Opaque(text: string)
                 | Dict(entries: seq<Entry>) | List(items: seq<Value>)

  datatype Entry = Entry(key: Key, val: Value)

  datatype Budget = Budget(maxChars: int, maxDepth: int, maxListItems: int, maxStrChars: int)

  function Shown(k: Key): string {
    if k.Name? then k.s else k.text
  }

  function KeysOf(entries: seq<Entry>): seq<Key> {
    seq(|entries|, i requires 0 <= i < |entries| => entries[i].key)
  }

  /** `d[key]` */
  function Lookup(entries: seq<Entry>, k: Key): (e: Entry)
    requires k in KeysOf(entries)
    ensures e in entries && e.key == k
  {
    assert exists i :: 0 <= i < |entries| && KeysOf(entries)[i] == k;
    if entries[0].key == k then entries[0]
    else
      assert KeysOf(entries)[1..] == KeysOf(entries[1..]);
      Lookup(entries[1..], k)
  }

  // ---- Key order ----

  const PRIORITY_KEYS := ["ok", "success", "isError", "error", "tool", "note", "action", "reason", "suggestion",
                          "url", "title", "status", "statusText", "target", "sessionTabId", "cursor", "since",
                          "found", "timeout", "waited", "waited_for"]

  function IndexIn(names: seq<string>, s: string): nat {
    if names == [] || names[0] == s then 0 else 1 + IndexIn(names[1..], s)
  }

  function Priority(k: Key): nat {
    if k.Name? && k.s in PRIORITY_KEYS then IndexIn(PRIORITY_KEYS, k.s) else 10000
  }

  /** The order of `(idx, class, text)`. */
  predicate KeyLess(a: Key, b: Key) {
    || Priority(a) < Priority(b)
    || (Priority(a) == Priority(b) && a.Name? && b.Other?)
    || (Priority(a) == Priority(b) && (a.Name? <==> b.Name?) && Ranking.Less(Shown(a), Shown(b)))
  }

  /** `_sorted_keys` */
  function Sorted(entries: seq<Entry>): (s: seq<Key>)
    ensures multiset(s) == multiset(KeysOf(entries))
    ensures forall k :: k in s <==> k in KeysOf(entries)
  {
    SortKeeps(KeyLess, KeysOf(entries));
    SortSameElements(KeyLess, KeysOf(entries));
    Sort(KeyLess, KeysOf(entries))
  }

  // ---- Text ----

  /** Python's `s[:n]` */
  function Slice(s: string, n: int): string {
    if n >= |s| then s else if n >= 0 then s[..n] else if |s| + n > 0 then s[..|s| + n] else ""
  }

  /** `s.replace("\r\n", "\n")` */
  function WithoutCrLf(s: string): string {
    if |s| < 2 then s
    else if s[0] == '\r' && s[1] == '\n' then ['\n'] + WithoutCrLf(s[2..])
    else [s[0]] + WithoutCrLf(s[1..])
  }

  /** `s.replace("\r", "\n")` */
  function WithoutCr(s: string): string {
    seq(|s|, i requires 0 <= i < |s| => if s[i] == '\r' then '\n' else s[i])
  }

  /** What precedes the first newline. */
  function FirstLine(s: string): (r: string)
    ensures '\n' !in r && |r| <= |s| && forall c :: c in r ==> c in s
  {
    if s == "" || s[0] == '\n' then "" else [s[0]] + FirstLine(s[1..])
  }

  const ELLIPSIS := "\U{2026}"

  function Clipped(s: string, n: int): string {
    if |s| > n then StripRight(Slice(s, n)) + ELLIPSIS else s
  }

  function FormatText(s: string, b: Budget): string {
    var t := WithoutCr(WithoutCrLf(s));
    Clipped(if '\n' in t then FirstLine(t) + " " + ELLIPSIS else t, b.maxStrChars)
  }

  function FormatScalar(v: Value, b: Budget): string
    requires !v.Dict? && !v.List?
  {
    match v
    case Null => "null"
    case Bool(x) => if x then "true" else "false"
    case Num(text) => text
    case Str(s) => FormatText(s, b)
    case Opaque(text) => text
  }

  /** Text is shown on one line of bounded length. */
  lemma TextOnOneLine(s: string, b: Budget)
    ensures '\n' !in FormatText(s, b) && '\r' !in FormatText(s, b)
    ensures b.maxStrChars >= 0 ==> |FormatText(s, b)| <= b.maxStrChars + 1
  {
    var t := WithoutCr(WithoutCrLf(s));
    assert '\r' !in t;
    var u := if '\n' in t then FirstLine(t) + " " + ELLIPSIS else t;
    assert '\n' !in u && '\r' !in u;
    StripRightIs(Slice(u, b.maxStrChars));
    assert forall c :: c in StripRight(Slice(u, b.maxStrChars)) ==> c in u;
  }

  function Decimal(n: nat): string {
    if n < 10 then ["0123456789"[n]] else Decimal(n / 10) + ["0123456789"[n % 10]]
  }

  function Indent(depth: nat): string {
    if depth == 0 then "" else Indent(depth - 1) + "  "
  }

  // ---- The lines without a budget ----

  const TRUNCATED := ELLIPSIS + " <TRUNCATED"

  function FirstThree(keys: seq<Key>): seq<Key> {
    if |keys| > 3 then keys[..3] else keys
  }

  /** `" ".join(preview_bits)` over the keys whose values are no containers. */
  function Bits(entries: seq<Entry>, keys: seq<Key>, b: Budget): seq<string>
    requires forall k :: k in keys ==> k in KeysOf(entries)
  {
    if keys == [] then []
    else
      var last := keys[|keys| - 1];
      var v := Lookup(entries, last).val;
      Bits(entries, keys[..|keys| - 1], b) + (if v.Dict? || v.List? then [] else [Shown(last) + "=" + FormatScalar(v, b)])
  }

  function Join(parts: seq<string>, sep: string): string {
    if parts == [] then "" else if |parts| == 1 then parts[0] else parts[0] + sep + Join(parts[1..], sep)
  }

  /** What stands for a list item. */
  function Preview(v: Value, b: Budget): string {
    match v
    case Dict(entries) =>
      var bits := Bits(entries, FirstThree(Sorted(entries)), b);
      if bits != [] then Join(bits, " ") else "dict(keys=" + Decimal(|entries|) + ")"
    case List(items) => "[list len=" + Decimal(|items|) + "]"
    case _ => FormatScalar(v, b)
  }

  function ItemLine(v: Value, depth: nat, b: Budget): string {
    Indent(depth) + "- " + Preview(v, b)
  }

  function Shortest(n: nat, limit: int): int {
    if n < limit then n else limit
  }

  function ItemLines(items: seq<Value>, depth: nat, b: Budget): seq<string> {
    var limit := Shortest(|items|, b.maxListItems);
    seq(if limit < 0 then 0 else limit, i requires 0 <= i < |items| => ItemLine(items[i], depth, b))
  }

  function ListLines(items: seq<Value>, depth: nat, b: Budget): seq<string> {
    ItemLines(items, depth, b) +
    if |items| > Shortest(|items|, b.maxListItems)
    then [Indent(depth) + "- " + TRUNCATED + " list len=" + Decimal(|items|) + ">"]
    else []
  }

  function EntryLine(k: Key, v: Value, depth: nat, b: Budget): string {
    Indent(depth) + Shown(k) +
    match v
    case Dict(_) => ":"
    case List(items) => ": [len=" + Decimal(|items|) + "]"
    case _ => ": " + FormatScalar(v, b)
  }

  function EntryLines(k: Key, v: Value, depth: nat, b: Budget): seq<string>
    decreases v, 2, 0
  {
    [EntryLine(k, v, depth, b)] + if v.Dict? || v.List? then Lines(v, depth + 1, b) else []
  }

  function DictLines(d: Value, keys: seq<Key>, depth: nat, b: Budget): seq<string>
    requires d.Dict? && forall k :: k in keys ==> k in KeysOf(d.entries)
    decreases d, 0, |keys|
  {
    if keys == [] then []
    else
      var last := keys[|keys| - 1];
      DictLines(d, keys[..|keys| - 1], depth, b) + EntryLines(last, Lookup(d.entries, last).val, depth, b)
  }

  function Lines(v: Value, depth: nat, b: Budget): seq<string>
    decreases v, 1, 0
  {
    if depth > b.maxDepth then [TRUNCATED + " depth>"]
    else match v
      case Dict(entries) => DictLines(v, Sorted(entries), depth, b)
      case List(items) => ListLines(items, depth, b)
      case _ => [FormatScalar(v, b)]
  }

  // ---- One line each ----

  /** No key and no scalar other than text brings a newline of its own. */
  ghost predicate OneLined(v: Value)
    decreases v
  {
    match v
    case Num(text) => '\n' !in text
    case Opaque(text) => '\n' !in text
    case Dict(entries) => forall i :: 0 <= i < |entries| ==> '\n' !in Shown(entries[i].key) && OneLined(entries[i].val)
    case List(items) => forall i :: 0 <= i < |items| ==> OneLined(items[i])
    case _ => true
  }

  ghost predicate AllOneLined(lines: seq<string>) {
    forall i :: 0 <= i < |lines| ==> '\n' !in lines[i]
  }

  lemma ScalarOneLined(v: Value, b: Budget)
    requires !v.Dict? && !v.List? && OneLined(v)
    ensures '\n' !in FormatScalar(v, b)
  {
    if v.Str? {
      TextOnOneLine(v.s, b);
    }
  }

  lemma {:induction false} DecimalOneLined(n: nat)
    ensures '\n' !in Decimal(n)
  {
    if n >= 10 {
      DecimalOneLined(n / 10);
    }
  }

  lemma {:induction false} IndentOneLined(depth: nat)
    ensures '\n' !in Indent(depth)
  {
    if depth > 0 {
      IndentOneLined(depth - 1);
    }
  }

  lemma {:induction false} JoinOneLined(parts: seq<string>)
    requires AllOneLined(parts)
    ensures '\n' !in Join(parts, " ")
  {
    if |parts| > 1 {
      JoinOneLined(parts[1..]);
    }
  }

  lemma EntryOneLined(d: Value, k: Key)
    requires d.Dict? && OneLined(d) && k in KeysOf(d.entries)
    ensures '\n' !in Shown(k) && OneLined(Lookup(d.entries, k).val)
  {
    var i :| 0 <= i < |d.entries| && d.entries[i] == Lookup(d.entries, k);
  }

  lemma {:induction false} BitsOneLined(d: Value, keys: seq<Key>, b: Budget)
    requires d.Dict? && OneLined(d) && forall k :: k in keys ==> k in KeysOf(d.entries)
    ensures AllOneLined(Bits(d.entries, keys, b))
  {
    if keys != [] {
      var last := keys[|keys| - 1];
      BitsOneLined(d, keys[..|keys| - 1], b);
      EntryOneLined(d, last);
      var v := Lookup(d.entries, last).val;
      if !v.Dict? && !v.List? {
        ScalarOneLined(v, b);
      }
    }
  }

  lemma DictPreviewOneLined(v: Value, b: Budget)
    requires v.Dict? && OneLined(v)
    ensures '\n' !in Preview(v, b)
  {
    var bits := Bits(v.entries, FirstThree(Sorted(v.entries)), b);
    BitsOneLined(v, FirstThree(Sorted(v.entries)), b);
    JoinOneLined(bits);
    DecimalOneLined(|v.entries|);
  }

  lemma ItemOneLined(v: Value, depth: nat, b: Budget)
    requires OneLined(v)
    ensures '\n' !in ItemLine(v, depth, b)
  {
    IndentOneLined(depth);
    match v
    case Dict(_) => DictPreviewOneLined(v, b);
    case List(items) => DecimalOneLined(|items|);
    case _ => ScalarOneLined(v, b);
  }

  lemma EntryLineOneLined(k: Key, v: Value, depth: nat, b: Budget)
    requires '\n' !in Shown(k) && OneLined(v)
    ensures '\n' !in EntryLine(k, v, depth, b)
  {
    IndentOneLined(depth);
    match v
    case Dict(_) =>
    case List(items) => DecimalOneLined(|items|);
    case _ => ScalarOneLined(v, b);
  }

  lemma ListOneLined(v: Value, depth: nat, b: Budget)
    requires v.List? && OneLined(v)
    ensures AllOneLined(ListLines(v.items, depth, b))
  {
    forall i | 0 <= i < |v.items|
      ensures '\n' !in ItemLine(v.items[i], depth, b)
    {
      ItemOneLined(v.items[i], depth, b);
    }
    assert AllOneLined(ItemLines(v.items, depth, b));
    IndentOneLined(depth);
    DecimalOneLined(|v.items|);
  }

  lemma {:induction false} DictOneLined(d: Value, keys: seq<Key>, depth: nat, b: Budget)
    requires d.Dict? && OneLined(d) && forall k :: k in keys ==> k in KeysOf(d.entries)
    ensures AllOneLined(DictLines(d, keys, depth, b))
    decreases d, 0, |keys|
  {
    if keys != [] {
      var last := keys[|keys| - 1];
      var v := Lookup(d.entries, last).val;
      DictOneLined(d, keys[..|keys| - 1], depth, b);
      EntryOneLined(d, last);
      if v.Dict? || v.List? {
        LinesOneLined(v, depth + 1, b);
      }
      EntryLinesOneLined(last, v, depth, b);
      AppendOneLined(DictLines(d, keys[..|keys| - 1], depth, b), EntryLines(last, v, depth, b));
    }
  }

  lemma EntryLinesOneLined(k: Key, v: Value, depth: nat, b: Budget)
    requires '\n' !in Shown(k) && OneLined(v)
    requires v.Dict? || v.List? ==> AllOneLined(Lines(v, depth + 1, b))
    ensures AllOneLined(EntryLines(k, v, depth, b))
  {
    EntryLineOneLined(k, v, depth, b);
    if v.Dict? || v.List? {
      AppendOneLined([EntryLine(k, v, depth, b)], Lines(v, depth + 1, b));
    }
  }

  lemma AppendOneLined(a: seq<string>, c: seq<string>)
    requires AllOneLined(a) && AllOneLined(c)
    ensures AllOneLined(a + c)
  {
  }

  /** Then every rendered line is one line, whatever text the values hold. */
  lemma {:induction false} LinesOneLined(v: Value, depth: nat, b: Budget)
    requires OneLined(v)
    ensures AllOneLined(Lines(v, depth, b))
    decreases v, 1, 0
  {
    if depth <= b.maxDepth {
      match v
      case Dict(entries) => DictOneLined(v, Sorted(entries), depth, b);
      case List(_) => ListOneLined(v, depth, b);
      case _ => ScalarOneLined(v, b);
    }
  }

  // ---- The budget ----

  /** The renderer's state and the line list it appends to. */
  datatype Output = Output(lines: seq<string>, used: int, truncated: bool)

  const BLANK := Output([], 0, false)

  function Pushed(o: Output, line: string, maxChars: int): Output {
    if o.truncated then o
    else if o.used + |line| + 1 > maxChars then o.(truncated := true)
    else Output(o.lines + [line], o.used + |line| + 1, false)
  }

  function PushedAll(o: Output, lines: seq<string>, maxChars: int): Output {
    if lines == [] then o
    else Pushed(PushedAll(o, lines[..|lines| - 1], maxChars), lines[|lines| - 1], maxChars)
  }

  lemma {:induction false} PushedConcat(o: Output, a: seq<string>, c: seq<string>, maxChars: int)
    ensures PushedAll(o, a + c, maxChars) == PushedAll(PushedAll(o, a, maxChars), c, maxChars)
  {
    if c == [] {
      assert a + c == a;
    } else {
      PushedConcat(o, a, c[..|c| - 1], maxChars);
      assert (a + c)[..|a + c| - 1] == a + c[..|c| - 1];
    }
  }

  lemma {:induction false} PushedOnce(o: Output, line: string, maxChars: int)
    ensures PushedAll(o, [line], maxChars) == Pushed(o, line, maxChars)
  {
    assert [line][..0] == [];
  }

  lemma {:induction false} TruncatedStays(o: Output, lines: seq<string>, maxChars: int)
    requires o.truncated
    ensures PushedAll(o, lines, maxChars) == o
  {
    if lines != [] {
      TruncatedStays(o, lines[..|lines| - 1], maxChars);
    }
  }

  /** The room that lines take up, each with a newline. */
  function Room(lines: seq<string>): nat {
    if lines == [] then 0 else Room(lines[..|lines| - 1]) + |lines[|lines| - 1]| + 1
  }

  lemma {:induction false} RoomConcat(a: seq<string>, c: seq<string>)
    ensures Room(a + c) == Room(a) + Room(c)
  {
    if c == [] {
      assert a + c == a;
    } else {
      RoomConcat(a, c[..|c| - 1]);
      assert (a + c)[..|a + c| - 1] == a + c[..|c| - 1];
    }
  }

  /** out is the longest prefix of all for which there is room. */
  ghost predicate LongestFitting(out: seq<string>, all: seq<string>, maxChars: int) {
    && out <= all && (out != [] ==> Room(out) <= maxChars)
    && forall p :: p <= all && p != [] && Room(p) <= maxChars ==> |p| <= |out|
  }

  /** The lines are a prefix that fits; truncation was noticed exactly when they are not all, and then
      one more would not have fitted. */
  ghost predicate Fits(o: Output, all: seq<string>, maxChars: int) {
    && o.lines <= all && o.used == Room(o.lines) && (o.lines != [] ==> o.used <= maxChars)
    && (o.truncated <==> |o.lines| < |all|)
    && (o.truncated ==> Room(all[..|o.lines| + 1]) > maxChars)
  }

  lemma PushFits(o: Output, front: seq<string>, line: string, maxChars: int)
    requires Fits(o, front, maxChars)
    ensures Fits(Pushed(o, line, maxChars), front + [line], maxChars)
  {
    if o.truncated {
      assert (front + [line])[..|o.lines| + 1] == front[..|o.lines| + 1];
    } else {
      assert o.lines == front && (o.lines + [line])[..|o.lines|] == o.lines;
      assert (front + [line])[..|front| + 1] == front + [line];
    }
  }

  lemma {:induction false} EmittedPrefix(all: seq<string>, maxChars: int)
    ensures Fits(PushedAll(BLANK, all, maxChars), all, maxChars)
  {
    if all != [] {
      var k := |all| - 1;
      EmittedPrefix(all[..k], maxChars);
      PushFits(PushedAll(BLANK, all[..k], maxChars), all[..k], all[k], maxChars);
      assert all == all[..k] + [all[k]];
    }
  }

  /** Of two prefixes the longer takes up at least as much room. */
  lemma {:induction false} LongerTakesMore(p: seq<string>, k: nat)
    requires k <= |p|
    ensures Room(p[..k]) <= Room(p)
  {
    if k < |p| {
      LongerTakesMore(p[..|p| - 1], k);
      assert p[..|p| - 1][..k] == p[..k];
    } else {
      assert p[..k] == p;
    }
  }

  lemma TooLong(p: seq<string>, all: seq<string>, k: nat, maxChars: int)
    requires p <= all && k < |p| && Room(all[..k + 1]) > maxChars
    ensures Room(p) > maxChars
  {
    assert p[..k + 1] == all[..k + 1];
    LongerTakesMore(p, k + 1);
  }

  /** What is emitted is the longest prefix that fits. */
  lemma EmittedFits(all: seq<string>, maxChars: int)
    ensures LongestFitting(PushedAll(BLANK, all, maxChars).lines, all, maxChars)
  {
    var out := PushedAll(BLANK, all, maxChars).lines;
    EmittedPrefix(all, maxChars);
    forall p | p <= all && p != [] && Room(p) <= maxChars
      ensures |p| <= |out|
    {
      if |p| > |out| {
        TooLong(p, all, |out|, maxChars);
      }
    }
  }

  lemma AllEmitted(all: seq<string>, maxChars: int)
    requires Room(all) <= maxChars
    ensures PushedAll(BLANK, all, maxChars).lines == all
  {
    var out := PushedAll(BLANK, all, maxChars).lines;
    EmittedPrefix(all, maxChars);
    if |out| < |all| {
      TooLong(all, all, |out|, maxChars);
    }
  }
}
