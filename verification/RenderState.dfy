/** The renderer that appends lines until its budget runs out (`ai_format.py`). */
module RenderState {
  import opened Rendering
  import opened Text

  class Renderer {
    const b: Budget
    var lines: seq<string>
    var used: int
    var truncated: bool

    ghost function State(): Output
      reads this
    {
      Output(lines, used, truncated)
    }

    constructor (b: Budget)
      ensures State() == BLANK && this.b == b
    {
      this.b := b;
      lines, used, truncated := [], 0, false;
    }

    method PushLine(line: string)
      modifies this
      ensures State() == Pushed(old(State()), line, b.maxChars)
    {
      if truncated {
        return;
      }
      var needed := |line| + 1;
      if used + needed > b.maxChars {
        truncated := true;
        return;
      }
      lines := lines + [line];
      used := used + needed;
    }

    /** Everything the unlimited renderer would emit is offered to the budget, in order. */
    method RenderAny(value: Value, depth: nat)
      modifies this
      ensures State() == PushedAll(old(State()), Lines(value, depth, b), b.maxChars)
      decreases value, 1, 0
    {
      if truncated {
        TruncatedStays(State(), Lines(value, depth, b), b.maxChars);
        return;
      }
      if depth > b.maxDepth {
        PushedOnce(State(), TRUNCATED + " depth>", b.maxChars);
        PushLine(TRUNCATED + " depth>");
        return;
      }
      if value.Dict? {
        RenderDict(value, depth);
        return;
      }
      if value.List? {
        RenderList(value.items, depth);
        return;
      }
      PushedOnce(State(), FormatScalar(value, b), b.maxChars);
      PushLine(FormatScalar(value, b));
    }

    method RenderDict(d: Value, depth: nat)
      requires d.Dict?
      modifies this
      ensures State() == PushedAll(old(State()), DictLines(d, Sorted(d.entries), depth, b), b.maxChars)
      decreases d, 0, 0
    {
      ghost var start := State();
      var keys := Sorted(d.entries);
      var i := 0;
      while i < |keys|
        invariant 0 <= i <= |keys|
        invariant State() == PushedAll(start, DictLines(d, keys[..i], depth, b), b.maxChars)
      {
        if truncated {
          DictStays(start, d, keys, i, depth, b);
          return;
        }
        var val := Lookup(d.entries, keys[i]).val;
        DictExtends(start, d, keys, i, depth, b);
        PushedOnce(State(), EntryLine(keys[i], val, depth, b), b.maxChars);
        PushLine(EntryLine(keys[i], val, depth, b));
        if val.Dict? || val.List? {
          RenderAny(val, depth + 1);
        }
        i := i + 1;
      }
      assert keys[..|keys|] == keys;
    }

    method RenderList(items: seq<Value>, depth: nat)
      modifies this
      ensures State() == PushedAll(old(State()), ListLines(items, depth, b), b.maxChars)
    {
      ghost var start := State();
      var limit := Shortest(|items|, b.maxListItems);
      ghost var all := ItemLines(items, depth, b);
      var i := 0;
      while i < limit
        invariant 0 <= i <= |all|
        invariant State() == PushedAll(start, all[..i], b.maxChars)
      {
        if truncated {
          SomeStays(start, all[..i], ListLines(items, depth, b), b.maxChars);
          return;
        }
        PushedNext(start, all, i, b.maxChars);
        PushLine(ItemLine(items[i], depth, b));
        i := i + 1;
      }
      assert all[..|all|] == all;
      ListEnds(start, items, depth, b);
      if |items| > limit && !truncated {
        PushLine(Indent(depth) + "- " + TRUNCATED + " list len=" + Decimal(|items|) + ">");
      }
    }
  }

  lemma PushedNext(start: Output, all: seq<string>, i: nat, maxChars: int)
    requires i < |all|
    ensures PushedAll(start, all[..i + 1], maxChars) == Pushed(PushedAll(start, all[..i], maxChars), all[i], maxChars)
  {
    assert all[..i + 1][..i] == all[..i];
  }

  /** The note about left-out items is pushed last, if there is one. */
  lemma ListEnds(start: Output, items: seq<Value>, depth: nat, b: Budget)
    ensures var o := PushedAll(start, ItemLines(items, depth, b), b.maxChars);
            PushedAll(start, ListLines(items, depth, b), b.maxChars)
            == if |items| > Shortest(|items|, b.maxListItems) && !o.truncated
               then Pushed(o, Indent(depth) + "- " + TRUNCATED + " list len=" + Decimal(|items|) + ">", b.maxChars)
               else o
  {
    var all := ItemLines(items, depth, b);
    var o := PushedAll(start, all, b.maxChars);
    if |items| > Shortest(|items|, b.maxListItems) {
      var note := Indent(depth) + "- " + TRUNCATED + " list len=" + Decimal(|items|) + ">";
      PushedConcat(start, all, [note], b.maxChars);
      PushedOnce(o, note, b.maxChars);
    } else {
      assert ListLines(items, depth, b) == all;
    }
  }

  /** Once truncated, further lines make no difference. */
  lemma SomeStays(start: Output, some: seq<string>, all: seq<string>, maxChars: int)
    requires some <= all && PushedAll(start, some, maxChars).truncated
    ensures PushedAll(start, all, maxChars) == PushedAll(start, some, maxChars)
  {
    assert all == some + all[|some|..];
    PushedConcat(start, some, all[|some|..], maxChars);
    TruncatedStays(PushedAll(start, some, maxChars), all[|some|..], maxChars);
  }

  lemma DictExtends(start: Output, d: Value, keys: seq<Key>, i: nat, depth: nat, b: Budget)
    requires d.Dict? && i < |keys| && forall k :: k in keys ==> k in KeysOf(d.entries)
    ensures var k := keys[i]; var v := Lookup(d.entries, k).val;
            var before := PushedAll(start, DictLines(d, keys[..i], depth, b), b.maxChars);
            PushedAll(start, DictLines(d, keys[..i + 1], depth, b), b.maxChars)
            == PushedAll(PushedAll(before, [EntryLine(k, v, depth, b)], b.maxChars),
                         if v.Dict? || v.List? then Lines(v, depth + 1, b) else [], b.maxChars)
  {
    var k := keys[i];
    var v := Lookup(d.entries, k).val;
    var rest := if v.Dict? || v.List? then Lines(v, depth + 1, b) else [];
    var before := DictLines(d, keys[..i], depth, b);
    assert keys[..i + 1][..i] == keys[..i];
    assert DictLines(d, keys[..i + 1], depth, b) == before + ([EntryLine(k, v, depth, b)] + rest);
    PushedConcat(start, before, [EntryLine(k, v, depth, b)] + rest, b.maxChars);
    PushedConcat(PushedAll(start, before, b.maxChars), [EntryLine(k, v, depth, b)], rest, b.maxChars);
  }

  lemma {:induction false} DictPrefix(d: Value, keys: seq<Key>, i: nat, depth: nat, b: Budget)
    requires d.Dict? && i <= |keys| && forall k :: k in keys ==> k in KeysOf(d.entries)
    ensures DictLines(d, keys[..i], depth, b) <= DictLines(d, keys, depth, b)
    decreases |keys|
  {
    if i < |keys| {
      DictPrefix(d, keys[..|keys| - 1], i, depth, b);
      assert keys[..|keys| - 1][..i] == keys[..i];
    } else {
      assert keys[..i] == keys;
    }
  }

  lemma DictStays(start: Output, d: Value, keys: seq<Key>, i: nat, depth: nat, b: Budget)
    requires d.Dict? && i <= |keys| && forall k :: k in keys ==> k in KeysOf(d.entries)
    requires PushedAll(start, DictLines(d, keys[..i], depth, b), b.maxChars).truncated
    ensures PushedAll(start, DictLines(d, keys, depth, b), b.maxChars) == PushedAll(start, DictLines(d, keys[..i], depth, b), b.maxChars)
  {
    DictPrefix(d, keys, i, depth, b);
    SomeStays(start, DictLines(d, keys[..i], depth, b), DictLines(d, keys, depth, b), b.maxChars);
  }

  // ---- The final text ----

  const HEADER := "[CONTENT]\n"
  const MARKER := "\n" + TRUNCATED + ">\n"

  function Wrapped(content: string): string {
    HEADER + content + "\n"
  }

  /** The hard cap on the whole text. */
  function Capped(text: string, maxChars: int): string {
    if |text| > maxChars then StripRight(Slice(text, maxChars)) + MARKER else text
  }

  /** The text exceeds the budget by at most the truncation marker. */
  lemma CappedLength(text: string, maxChars: nat)
    ensures |Capped(text, maxChars)| <= maxChars + |MARKER|
    ensures |text| <= maxChars ==> Capped(text, maxChars) == text
  {
    StripRightIs(Slice(text, maxChars));
  }

  lemma {:induction false} JoinedRoom(lines: seq<string>)
    ensures |Join(lines, "\n")| == if lines == [] then 0 else Room(lines) - 1
  {
    if |lines| > 1 {
      JoinedRoom(lines[1..]);
      assert lines == [lines[0]] + lines[1..];
      RoomConcat([lines[0]], lines[1..]);
      assert [lines[0]][..0] == [];
      assert Room([lines[0]]) == |lines[0]| + 1;
    } else if lines != [] {
      assert lines[..0] == [];
    }
  }

  /** The lines emitted for data under the budget. */
  function Emitted(data: Value, b: Budget): seq<string> {
    PushedAll(BLANK, Lines(data, 0, b), b.maxChars).lines
  }

  function Content(lines: seq<string>): string {
    StripRight(Join(lines, "\n"))
  }

  function Markdown(data: Value, b: Budget): string {
    Capped(Wrapped(Content(Emitted(data, b))), b.maxChars)
  }

  /** The text shows the longest prefix of the unlimited lines that fits, and exceeds the budget by at
      most the truncation marker; below a budget of 0 no line is shown. */
  lemma MarkdownFits(data: Value, b: Budget)
    ensures LongestFitting(Emitted(data, b), Lines(data, 0, b), b.maxChars)
    ensures b.maxChars >= 0 ==> |Markdown(data, b)| <= b.maxChars + |MARKER|
    ensures b.maxChars < 0 ==> Emitted(data, b) == [] && |Markdown(data, b)| <= |HEADER| + |MARKER|
  {
    EmittedFits(Lines(data, 0, b), b.maxChars);
    if b.maxChars >= 0 {
      CappedLength(Wrapped(Content(Emitted(data, b))), b.maxChars);
    } else {
      NothingEmitted(Lines(data, 0, b), b.maxChars);
      EmptyContent();
      WrappedLength("");
      CappedBelowZero(Wrapped(""), b.maxChars);
    }
  }

  lemma CappedBelowZero(text: string, maxChars: int)
    requires maxChars < 0 && text != ""
    ensures |Capped(text, maxChars)| <= |text| - 1 + |MARKER|
  {
    StripRightIs(Slice(text, maxChars));
  }

  lemma NothingEmitted(all: seq<string>, maxChars: int)
    requires maxChars < 0
    ensures PushedAll(BLANK, all, maxChars).lines == []
  {
    EmittedPrefix(all, maxChars);
  }

  lemma EmptyContent()
    ensures Content([]) == ""
  {
  }

  /** `render_ctx_markdown` */
  method RenderCtxMarkdown(data: Value, b: Budget) returns (out: string)
    ensures out == Markdown(data, b)
  {
    var state := new Renderer(b);
    state.RenderAny(data, 0);
    out := Wrapped(Content(state.lines));
    if |out| > b.maxChars {
      out := StripRight(Slice(out, b.maxChars)) + MARKER;
    }
  }

  /** All lines are shown and the hard cap is not reached exactly when the lines have room, and the text
      with its header too, which the lines' budget does not count. */
  lemma UncutIff(data: Value, b: Budget)
    ensures var all := Lines(data, 0, b);
            Emitted(data, b) == all && |Wrapped(Content(Emitted(data, b)))| <= b.maxChars
            <==> (all == [] || Room(all) <= b.maxChars) && |HEADER| + |Content(all)| + 1 <= b.maxChars
  {
    var all := Lines(data, 0, b);
    AllEmittedIff(all, b.maxChars);
    WrappedLength(Content(all));
  }

  lemma AllEmittedIff(all: seq<string>, maxChars: int)
    ensures PushedAll(BLANK, all, maxChars).lines == all <==> all == [] || Room(all) <= maxChars
  {
    EmittedPrefix(all, maxChars);
    if all != [] && Room(all) <= maxChars {
      AllEmitted(all, maxChars);
    }
  }

  lemma WrappedLength(content: string)
    ensures |Wrapped(content)| == |HEADER| + |content| + 1
  {
  }

  /** In particular nothing is cut when the lines leave room for the header ... */
  lemma UncutWithRoomForHeader(data: Value, b: Budget)
    requires Lines(data, 0, b) != [] && Room(Lines(data, 0, b)) + |HEADER| <= b.maxChars
    ensures Markdown(data, b) == Wrapped(Content(Lines(data, 0, b)))
  {
    ContentRoom(Lines(data, 0, b));
    WrappedLength(Content(Lines(data, 0, b)));
    UncutIff(data, b);
  }

  /** ... and a single line that fits the lines' budget is cut all the same when they do not. */
  lemma HeaderOverflows(s: string, b: Budget)
    requires b.maxDepth >= 0 && StripRight(s) == s
    requires |s| + 1 <= b.maxChars < |HEADER| + |s| + 1
    ensures Emitted(Num(s), b) == [s] == Lines(Num(s), 0, b)
    ensures |Wrapped(Content(Emitted(Num(s), b)))| > b.maxChars
  {
    OneLineEmitted(s, b);
    OneLineContent(s);
    UncutIff(Num(s), b);
  }

  lemma OneLineEmitted(s: string, b: Budget)
    requires b.maxDepth >= 0 && |s| + 1 <= b.maxChars
    ensures Emitted(Num(s), b) == [s] == Lines(Num(s), 0, b)
  {
    assert Lines(Num(s), 0, b) == [s];
    PushedOnce(BLANK, s, b.maxChars);
  }

  lemma OneLineContent(s: string)
    requires StripRight(s) == s
    ensures Content([s]) == s && |Wrapped(s)| == |HEADER| + |s| + 1
  {
    assert Join([s], "\n") == s;
  }

  lemma ContentRoom(lines: seq<string>)
    requires lines != []
    ensures |Wrapped(Content(lines))| <= Room(lines) + |HEADER|
  {
    JoinedRoom(lines);
    StripRightIs(Join(lines, "\n"));
  }

  method RenderCtxText(text: string, b: Budget) returns (out: string)
    ensures out == Capped(Wrapped(StripRight(text)), b.maxChars)
    ensures b.maxChars >= 0 ==> |out| <= b.maxChars + |MARKER|
  {
    var cleaned := StripRight(text);
    out := Wrapped(cleaned);
    if b.maxChars >= 0 {
      CappedLength(out, b.maxChars);
    }
    if |out| > b.maxChars {
      out := StripRight(Slice(out, b.maxChars)) + MARKER;
    }
  }
}
