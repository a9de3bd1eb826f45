/** The fast test that decides whether a text is searched for placeholders at all (`run/params.py`). */
module ParamsGuard {
  import opened Params
  import opened ParamsRedaction
  import opened Placeholders
  import opened Text
  import opened Wire
  import OrderedMap

  // ---- The test before the regular expression ----

  predicate Tight(source: string) {
    "{{param:" <= source || "${param:" <= source
  }

  lemma {:induction false} ContainsLater(front: string, later: string, t: string)
    requires Contains(later, t)
    ensures Contains(front + later, t)
  {
    if front == "" {
      assert front + later == later;
    } else {
      ContainsLater(front[1..], later, t);
      assert (front + later)[1..] == front[1..] + later;
    }
  }

  lemma {:induction false} SourceContains(pieces: seq<Piece>, i: nat, t: string)
    requires i < |pieces| && pieces[i].Hole? && t <= pieces[i].source
    ensures Contains(Source(pieces), t)
  {
    var front := match pieces[0] case Lit(c) => [c] case Hole(_, source) => source;
    assert Source(pieces) == front + Source(pieces[1..]);
    if i > 0 {
      SourceContains(pieces[1..], i - 1, t);
      ContainsLater(front, Source(pieces[1..]), t);
    }
  }

  /** A placeholder written without space before `param:` passes the test, so none such is skipped. */
  lemma TightIsFound(s: string, i: nat)
    requires i < |Pieces(s)| && Pieces(s)[i].Hole? && Tight(Pieces(s)[i].source)
    ensures MayHaveHoles(s)
  {
    SourceOfPieces(s);
    if "{{param:" <= Pieces(s)[i].source {
      SourceContains(Pieces(s), i, "{{param:");
    } else {
      SourceContains(Pieces(s), i, "${param:");
    }
  }

  // ---- Spaced placeholders inside a text ----

  predicate Adjacent(s: string, c: char, d: char) {
    |s| >= 2 && ((s[0] == c && s[1] == d) || Adjacent(s[1..], c, d))
  }

  lemma {:induction false} ContainsAdjacent(s: string, t: string)
    requires Contains(s, t) && |t| >= 3
    ensures Adjacent(s, t[1], t[2])
  {
    if t <= s {
      assert s[1..][0] == t[1] && s[1..][1] == t[2];
    } else {
      ContainsAdjacent(s[1..], t);
    }
  }

  lemma {:induction false} LacksAdjacent(s: string, c: char, d: char)
    requires c !in s
    ensures !Adjacent(s, c, d)
  {
    if |s| >= 2 {
      LacksAdjacent(s[1..], c, d);
    }
  }

  lemma EveryLacks(s: string, p: char -> bool, c: char)
    requires Every(s, p) && !p(c)
    ensures c !in s
  {
  }

  lemma NoBraceAfterOpening(u: string, key: string, w: string)
    requires Parts(u, key, w)
    ensures '{' !in u + ("param:" + (key + (w + ("}}" + ""))))
  {
    EveryLacks(u, IsSpace, '{');
    EveryLacks(key, KeyChar, '{');
    EveryLacks(w, IsSpace, '{');
    assert '{' !in "param:" && '{' !in "}}" + "";
  }

  /** Text before a placeholder. */
  function Led(p: string): string {
    ['a'] + p
  }

  lemma SpacedFailsTest(u: string, key: string, w: string)
    requires Parts(u, key, w) && u != ""
    ensures !MayHaveHoles(Led(Spelled("{{", u, key, w, "}}", "")))
  {
    var tail := u + ("param:" + (key + (w + ("}}" + ""))));
    var s := Led("{{" + tail);
    NoBraceAfterOpening(u, key, w);
    LacksAdjacent(tail, '{', 'p');
    assert tail[0] == u[0] && IsSpace(u[0]);
    assert s[1..] == "{{" + tail && s[1..][1..] == ['{'] + tail && s[1..][1..][1..] == tail;
    assert !Adjacent(s[1..][1..], '{', 'p');
    assert !Adjacent(s, '{', 'p');
    if Contains(s, "{{param:") {
      ContainsAdjacent(s, "{{param:");
    }
    if Contains(s, "${param:") {
      ContainsAdjacent(s, "${param:");
    }
  }

  lemma LedPieces(p: string)
    ensures ExactKey(Led(p)) == None && HoleKeys(Pieces(Led(p))) == HoleKeys(Pieces(p))
  {
    var s := Led(p);
    assert s[0] == 'a' && s[1..] == p;
    assert Span(s, IsSpace) == 0;
    assert MatchAt(s) == None;
    assert Pieces(s) == [Lit('a')] + Pieces(p);
    assert Pieces(s)[1..] == Pieces(p);
  }

  /** The regular expression sees a placeholder with space before `param:` inside a text, but the test
      skips the text: it is left as it is, and a missing key goes unnoticed. */
  lemma SpacedIsSkipped(u: string, key: string, w: string, env: Env)
    requires Parts(u, key, w) && u != ""
    ensures var s := Led(Spelled("{{", u, key, w, "}}", ""));
            HoleKeys(Pieces(s)) == [key] && Interpolated(Val.Text(s), env) == Done(Val.Text(s), Val.Text(s))
  {
    var p := Spelled("{{", u, key, w, "}}", "");
    SpacedFailsTest(u, key, w);
    LedPieces(p);
    OpeningComplete(u, key, w, "", false);
    assert Pieces(p)[1..] == Pieces("");
  }

  // ---- Without the test ----

  /** What the two regular expressions alone would do. */
  function UnguardedText(s: string, env: Env): Outcome<Val> {
    var exact := ExactKey(s);
    if exact.Some? then InterpolatedText(s, env)
    else
      var actual := Substituted(s, env.params, key => Shown(env, key));
      var note := Substituted(s, env.params, Redacted);
      if actual.Lacks? then Missing(actual.key)
      else if note.Lacks? then Missing(note.key)
      else Done(Val.Text(actual.text), Val.Text(note.text))
  }

  function Unguarded(v: Val, env: Env): Outcome<Val> {
    Walked(v, s => UnguardedText(s, env))
  }

  function AllHoles(s: string): seq<string> {
    var exact := ExactKey(s);
    if exact.Some? then [exact.value] else HoleKeys(Pieces(s))
  }

  function UnguardedActual(s: string, env: Env): Val {
    if ExactKey(s).Some? then ActualOf(s, env) else Val.Text(Fill(Pieces(s), key => Shown(env, key)))
  }

  function UnguardedNote(s: string): Val {
    if ExactKey(s).Some? then NoteOf(s) else Val.Text(Fill(Pieces(s), Redacted))
  }

  lemma UnguardedTextIs(s: string, env: Env)
    ensures UnguardedText(s, env)
         == match FirstMissing(AllHoles(s), env.params.Keys)
            case Some(key) => Missing(key)
            case None => Done(UnguardedActual(s, env), UnguardedNote(s))
  {
    if ExactKey(s).Some? {
      TextIs(s, env);
    } else {
      SubstitutedIs(s, env.params, key => Shown(env, key));
      SubstitutedIs(s, env.params, Redacted);
    }
  }

  /** The text is one placeholder, or passes the test, or holds no placeholder. */
  predicate Harmless(s: string) {
    ExactKey(s).Some? || MayHaveHoles(s) || HoleKeys(Pieces(s)) == []
  }

  lemma HarmlessSame(s: string, env: Env)
    requires Harmless(s)
    ensures InterpolatedText(s, env) == UnguardedText(s, env)
  {
    UnguardedTextIs(s, env);
    if ExactKey(s).None? && !MayHaveHoles(s) {
      FillWithoutHoles(Pieces(s), key => Shown(env, key));
      FillWithoutHoles(Pieces(s), Redacted);
      SourceOfPieces(s);
    }
  }

  /** Parameters of just these names. */
  function Knowing(known: set<string>): Env {
    Env(map k | k in known :: Null, v => "")
  }

  /** The test makes no difference to a text, whatever the parameters, exactly when the text is harmless. */
  lemma GuardHarmlessIff(s: string)
    ensures (forall env :: InterpolatedText(s, env) == UnguardedText(s, env)) <==> Harmless(s)
  {
    if Harmless(s) {
      forall env
        ensures InterpolatedText(s, env) == UnguardedText(s, env)
      {
        HarmlessSame(s, env);
      }
    } else {
      UnguardedTextIs(s, Knowing({}));
      assert InterpolatedText(s, Knowing({})) != UnguardedText(s, Knowing({}));
    }
  }

  // ---- Nested values ----

  /** p holds of every text in v. */
  ghost predicate EveryText(v: Val, p: string -> bool)
    decreases v
  {
    match v
    case Text(s) => p(s)
    case Mapping(entries) => forall i :: 0 <= i < |entries| ==> EveryText(entries[i].value, p)
    case Items(items) => forall i :: 0 <= i < |items| ==> EveryText(items[i], p)
    case _ => true
  }

  /** No two keys of a dict read the same, as is the case when all are text. */
  ghost predicate KeysApart(v: Val)
    decreases v
  {
    match v
    case Mapping(entries) => OrderedMap.DistinctKeys(entries) && forall i :: 0 <= i < |entries| ==> KeysApart(entries[i].value)
    case Items(items) => forall i :: 0 <= i < |items| ==> KeysApart(items[i])
    case _ => true
  }

  /** The entry is the last whose key reads like that. */
  ghost predicate IsLast(v: Val, i: nat)
    requires v.Mapping? && i < |v.entries|
  {
    LastWith(v, |v.entries|, v.entries[i].key) == i
  }

  /** p holds of every text that reaches the result: of dict keys that read the same, the last counts. */
  ghost predicate Survivors(v: Val, p: string -> bool)
    decreases v
  {
    match v
    case Text(s) => p(s)
    case Mapping(entries) => forall i :: 0 <= i < |entries| && IsLast(v, i) ==> Survivors(entries[i].value, p)
    case Items(items) => forall i :: 0 <= i < |items| ==> Survivors(items[i], p)
    case _ => true
  }

  lemma {:induction false} SurvivorsWeaken(v: Val, p: string -> bool, q: string -> bool)
    requires Survivors(v, p) && forall s: string :: p(s) ==> q(s)
    ensures Survivors(v, q)
  {
    match v
    case Mapping(entries) =>
      forall i | 0 <= i < |entries| && IsLast(v, i)
        ensures Survivors(entries[i].value, q)
      {
        SurvivorsWeaken(entries[i].value, p, q);
      }
    case Items(items) =>
      forall i | 0 <= i < |items|
        ensures Survivors(items[i], q)
      {
        SurvivorsWeaken(items[i], p, q);
      }
    case _ =>
  }

  lemma {:induction false} EverySurvives(v: Val, p: string -> bool)
    ensures EveryText(v, p) ==> Survivors(v, p)
    ensures KeysApart(v) && Survivors(v, p) ==> EveryText(v, p)
  {
    match v
    case Mapping(entries) =>
      forall i | 0 <= i < |entries|
        ensures EveryText(entries[i].value, p) ==> Survivors(entries[i].value, p)
        ensures KeysApart(v) ==> IsLast(v, i)
        ensures KeysApart(v) && Survivors(entries[i].value, p) ==> EveryText(entries[i].value, p)
      {
        EverySurvives(entries[i].value, p);
      }
    case Items(items) =>
      forall i | 0 <= i < |items|
        ensures EveryText(items[i], p) ==> Survivors(items[i], p)
        ensures KeysApart(v) && Survivors(items[i], p) ==> EveryText(items[i], p)
      {
        EverySurvives(items[i], p);
      }
    case _ =>
  }

  // ---- When two ways to rebuild agree ----

  lemma {:induction false} RebuiltGet(v: Val, n: nat, leaf: string -> Val, key: string)
    requires v.Mapping? && n <= |v.entries|
    ensures var rebuilt, i := RebuiltEntries(v, n, leaf), LastWith(v, n, key);
            && OrderedMap.DistinctKeys(rebuilt)
            && OrderedMap.Get(rebuilt, key) == if i >= 0 then Some(Rebuilt(v.entries[i].value, leaf)) else None
  {
    if n > 0 {
      RebuiltGet(v, n - 1, leaf, key);
      OrderedMap.PutGet(RebuiltEntries(v, n - 1, leaf), v.entries[n - 1].key, Rebuilt(v.entries[n - 1].value, leaf), key);
    }
  }

  ghost predicate SameKeys(a: seq<OrderedMap.Entry<Val>>, c: seq<OrderedMap.Entry<Val>>) {
    |a| == |c| && forall j :: 0 <= j < |a| ==> a[j].key == c[j].key
  }

  lemma {:induction false} RebuiltKeys(v: Val, n: nat, leaf: string -> Val, other: string -> Val)
    requires v.Mapping? && n <= |v.entries|
    ensures SameKeys(RebuiltEntries(v, n, leaf), RebuiltEntries(v, n, other))
  {
    if n > 0 {
      RebuiltKeys(v, n - 1, leaf, other);
      SameIndex(RebuiltEntries(v, n - 1, leaf), RebuiltEntries(v, n - 1, other), v.entries[n - 1].key);
    }
  }

  lemma SameEntries(a: seq<OrderedMap.Entry<Val>>, c: seq<OrderedMap.Entry<Val>>)
    requires OrderedMap.DistinctKeys(a) && OrderedMap.DistinctKeys(c) && SameKeys(a, c)
    requires forall j :: 0 <= j < |a| ==> OrderedMap.Get(a, a[j].key) == OrderedMap.Get(c, a[j].key)
    ensures a == c
  {
    forall j | 0 <= j < |a|
      ensures a[j] == c[j]
    {
      OrderedMap.IndexIs(a, j);
      OrderedMap.IndexIs(c, j);
    }
  }

  ghost predicate SameAt(v: Val, i: nat, leaf: string -> Val, other: string -> Val)
    requires v.Mapping? && i < |v.entries|
  {
    Rebuilt(v.entries[i].value, leaf) == Rebuilt(v.entries[i].value, other)
  }

  lemma EntriesSameIff(v: Val, leaf: string -> Val, other: string -> Val)
    requires v.Mapping?
    ensures RebuiltEntries(v, |v.entries|, leaf) == RebuiltEntries(v, |v.entries|, other)
       <==> forall i :: 0 <= i < |v.entries| && IsLast(v, i) ==> SameAt(v, i, leaf, other)
  {
    var n := |v.entries|;
    var a, c := RebuiltEntries(v, n, leaf), RebuiltEntries(v, n, other);
    forall i | 0 <= i < n && IsLast(v, i) && a == c
      ensures SameAt(v, i, leaf, other)
    {
      RebuiltGet(v, n, leaf, v.entries[i].key);
      RebuiltGet(v, n, other, v.entries[i].key);
    }
    if forall i :: 0 <= i < n && IsLast(v, i) ==> SameAt(v, i, leaf, other) {
      LastSame(v, leaf, other);
    }
  }

  lemma LastSame(v: Val, leaf: string -> Val, other: string -> Val)
    requires v.Mapping?
    requires forall i :: 0 <= i < |v.entries| && IsLast(v, i) ==> SameAt(v, i, leaf, other)
    ensures RebuiltEntries(v, |v.entries|, leaf) == RebuiltEntries(v, |v.entries|, other)
  {
    var n := |v.entries|;
    var a, c := RebuiltEntries(v, n, leaf), RebuiltEntries(v, n, other);
    forall key: string
      ensures OrderedMap.DistinctKeys(a) && OrderedMap.DistinctKeys(c) && OrderedMap.Get(a, key) == OrderedMap.Get(c, key)
    {
      RebuiltGet(v, n, leaf, key);
      RebuiltGet(v, n, other, key);
      var i := LastWith(v, n, key);
      assert i >= 0 ==> IsLast(v, i) && SameAt(v, i, leaf, other);
    }
    assert OrderedMap.Get(a, "") == OrderedMap.Get(c, "");
    RebuiltKeys(v, n, leaf, other);
    SameEntries(a, c);
  }

  ghost predicate AgreeWhere(p: string -> bool, leaf: string -> Val, other: string -> Val) {
    forall s: string {:trigger leaf(s)} {:trigger p(s)} :: leaf(s) == other(s) <==> p(s)
  }

  /** Two ways to rebuild give the same value exactly when they agree on the texts that survive. */
  lemma {:induction false} RebuiltSameIff(v: Val, p: string -> bool, leaf: string -> Val, other: string -> Val)
    requires AgreeWhere(p, leaf, other)
    ensures Rebuilt(v, leaf) == Rebuilt(v, other) <==> Survivors(v, p)
  {
    match v
    case Mapping(entries) =>
      EntriesSameIff(v, leaf, other);
      forall i | 0 <= i < |entries|
        ensures SameAt(v, i, leaf, other) <==> Survivors(entries[i].value, p)
      {
        RebuiltSameIff(entries[i].value, p, leaf, other);
      }
    case Items(items) =>
      forall i | 0 <= i < |items|
        ensures RebuiltItems(v, |items|, leaf)[i] == RebuiltItems(v, |items|, other)[i] <==> Survivors(items[i], p)
      {
        RebuiltItem(v, |items|, leaf, i);
        RebuiltItem(v, |items|, other, i);
        RebuiltSameIff(items[i], p, leaf, other);
      }
      assert Rebuilt(v, leaf).items == RebuiltItems(v, |items|, leaf);
      assert Rebuilt(v, other).items == RebuiltItems(v, |items|, other);
    case _ =>
  }

  lemma HoleOpens(s: string)
    requires MatchAt(s).Some?
    ensures var source := s[..|s| - |MatchAt(s).value.rest|]; source != "" && (source[0] == '{' || source[0] == '$')
  {
    Opens(s);
  }

  /** Redacting even one placeholder changes the text. */
  lemma {:induction false} RedactionShows(s: string)
    requires HoleKeys(Pieces(s)) != []
    ensures Fill(Pieces(s), Redacted) != s
    decreases |s|
  {
    var m := MatchAt(s);
    if m.Some? {
      HoleOpens(s);
      assert Fill(Pieces(s), Redacted) == Redacted(m.value.key) + Fill(Pieces(s)[1..], Redacted);
      assert Redacted(m.value.key)[0] == '<';
    } else {
      assert Pieces(s)[1..] == Pieces(s[1..]);
      RedactionShows(s[1..]);
      assert Fill(Pieces(s), Redacted)[1..] == Fill(Pieces(s[1..]), Redacted);
    }
  }

  lemma NotesDifferUnlessHarmless(s: string)
    ensures NoteOf(s) == UnguardedNote(s) <==> Harmless(s)
  {
    if ExactKey(s).None? && !MayHaveHoles(s) {
      SourceOfPieces(s);
      if HoleKeys(Pieces(s)) == [] {
        FillWithoutHoles(Pieces(s), Redacted);
      } else {
        RedactionShows(s);
      }
    }
  }

  // ---- Which key is missed first ----

  /** The keys outside seen, each where it is first asked for. */
  function Firsts(keys: seq<string>, seen: set<string>): seq<string> {
    if keys == [] then []
    else if keys[0] in seen then Firsts(keys[1..], seen)
    else [keys[0]] + Firsts(keys[1..], seen + {keys[0]})
  }

  lemma {:induction false} FirstsHead(keys: seq<string>, seen: set<string>)
    ensures var firsts := Firsts(keys, seen);
            && FirstMissing(keys, seen) == (if firsts == [] then None else Some(firsts[0]))
            && (firsts != [] ==> Firsts(keys, seen + {firsts[0]}) == firsts[1..])
  {
    if keys != [] && keys[0] in seen {
      FirstsHead(keys[1..], seen);
    }
  }

  lemma {:induction false} FirstsSuffice(keys: seq<string>, seen: set<string>, known: set<string>)
    requires seen <= known
    ensures FirstMissing(keys, known) == FirstMissing(Firsts(keys, seen), known)
  {
    if keys != [] {
      if keys[0] in seen {
        FirstsSuffice(keys[1..], seen, known);
      } else {
        assert Firsts(keys, seen)[1..] == Firsts(keys[1..], seen + {keys[0]});
        if keys[0] in known {
          FirstsSuffice(keys[1..], seen + {keys[0]}, known);
        }
      }
    }
  }

  ghost predicate MissAlike(a: seq<string>, c: seq<string>) {
    forall known :: FirstMissing(a, known) == FirstMissing(c, known)
  }

  lemma {:induction false} MissAlikeFirsts(a: seq<string>, c: seq<string>, seen: set<string>)
    requires MissAlike(a, c)
    ensures Firsts(a, seen) == Firsts(c, seen)
    decreases |Firsts(a, seen)|
  {
    FirstsHead(a, seen);
    FirstsHead(c, seen);
    assert FirstMissing(a, seen) == FirstMissing(c, seen);
    if Firsts(a, seen) != [] {
      MissAlikeFirsts(a, c, seen + {Firsts(a, seen)[0]});
    }
  }

  /** Two lists of keys miss the same first key, whatever is known, exactly when they ask for the same
      keys in the same order for the first time. */
  lemma MissAlikeIff(a: seq<string>, c: seq<string>)
    ensures MissAlike(a, c) <==> Firsts(a, {}) == Firsts(c, {})
  {
    if MissAlike(a, c) {
      MissAlikeFirsts(a, c, {});
    }
    if Firsts(a, {}) == Firsts(c, {}) {
      forall known: set<string>
        ensures FirstMissing(a, known) == FirstMissing(c, known)
      {
        FirstsSuffice(a, {}, known);
        FirstsSuffice(c, {}, known);
      }
    }
  }

  ghost predicate AskAlike(p: string -> bool, holes: string -> seq<string>, other: string -> seq<string>) {
    forall s: string {:trigger holes(s)} :: p(s) ==> holes(s) == other(s)
  }

  lemma {:induction false} AskedAlike(v: Val, p: string -> bool, holes: string -> seq<string>, other: string -> seq<string>)
    requires EveryText(v, p) && AskAlike(p, holes, other)
    ensures AskedBy(v, holes) == AskedBy(v, other)
    decreases v, 1
  {
    match v
    case Mapping(entries) => AskedFirstAlike(v, |entries|, p, holes, other);
    case Items(items) => AskedFirstAlike(v, |items|, p, holes, other);
    case _ =>
  }

  lemma {:induction false} AskedFirstAlike(v: Val, n: nat, p: string -> bool, holes: string -> seq<string>,
                                           other: string -> seq<string>)
    requires n <= Size(v) && EveryText(v, p) && AskAlike(p, holes, other)
    ensures AskedFirst(v, n, holes) == AskedFirst(v, n, other)
    decreases v, 0, n
  {
    if n > 0 {
      AskedFirstAlike(v, n - 1, p, holes, other);
      AskedAlike(Part(v, n - 1), p, holes, other);
    }
  }

  // ---- The exact condition ----

  ghost predicate GuardUnseen(v: Val) {
    forall env :: Interpolated(v, env) == Unguarded(v, env)
  }

  lemma UnguardedIs(v: Val, env: Env)
    ensures Unguarded(v, env)
         == match FirstMissing(AskedBy(v, AllHoles), env.params.Keys)
            case Some(key) => Missing(key)
            case None => Done(Rebuilt(v, s => UnguardedActual(s, env)), Rebuilt(v, UnguardedNote))
  {
    var leaf, actual := s => UnguardedText(s, env), s => UnguardedActual(s, env);
    forall s: string
      ensures leaf(s) == match FirstMissing(AllHoles(s), env.params.Keys)
                         case Some(key) => Missing(key)
                         case None => Done(actual(s), UnguardedNote(s))
    {
      UnguardedTextIs(s, env);
    }
    WalkedIs(v, leaf, AllHoles, env.params.Keys, actual, UnguardedNote);
  }

  lemma UnseenMissAlike(v: Val)
    requires GuardUnseen(v)
    ensures MissAlike(Asked(v), AskedBy(v, AllHoles)) && Survivors(v, Harmless)
  {
    var asked, all := Asked(v), AskedBy(v, AllHoles);
    forall known: set<string>
      ensures FirstMissing(asked, known) == FirstMissing(all, known)
    {
      var env := Knowing(known);
      assert env.params.Keys == known;
      InterpolatedIs(v, env);
      UnguardedIs(v, env);
      assert Interpolated(v, env) == Unguarded(v, env);
    }
    var env := Knowing(set k | k in asked);
    NoneMissingIff(asked, env.params.Keys);
    InterpolatedIs(v, env);
    UnguardedIs(v, env);
    assert Interpolated(v, env) == Unguarded(v, env);
    NotesAgreeIff(v);
  }

  lemma NotesAgreeIff(v: Val)
    ensures Rebuilt(v, NoteOf) == Rebuilt(v, UnguardedNote) <==> Survivors(v, Harmless)
  {
    forall s: string
      ensures NoteOf(s) == UnguardedNote(s) <==> Harmless(s)
    {
      NotesDifferUnlessHarmless(s);
    }
    RebuiltSameIff(v, Harmless, NoteOf, UnguardedNote);
  }

  lemma HarmlessActual(s: string, env: Env)
    requires Harmless(s)
    ensures ActualOf(s, env) == UnguardedActual(s, env)
  {
    if ExactKey(s).None? && !MayHaveHoles(s) {
      FillWithoutHoles(Pieces(s), key => Shown(env, key));
      SourceOfPieces(s);
    }
  }

  lemma ActualsAgree(v: Val, env: Env)
    requires Survivors(v, Harmless)
    ensures Rebuilt(v, s => ActualOf(s, env)) == Rebuilt(v, s => UnguardedActual(s, env))
  {
    var leaf, other := s => ActualOf(s, env), s => UnguardedActual(s, env);
    var p := s => ActualOf(s, env) == UnguardedActual(s, env);
    forall s: string | Harmless(s)
      ensures p(s)
    {
      HarmlessActual(s, env);
    }
    SurvivorsWeaken(v, Harmless, p);
    RebuiltSameIff(v, p, leaf, other);
  }

  lemma MissAlikeUnseen(v: Val)
    requires MissAlike(Asked(v), AskedBy(v, AllHoles)) && Survivors(v, Harmless)
    ensures GuardUnseen(v)
  {
    forall env
      ensures Interpolated(v, env) == Unguarded(v, env)
    {
      InterpolatedIs(v, env);
      UnguardedIs(v, env);
      assert FirstMissing(Asked(v), env.params.Keys) == FirstMissing(AskedBy(v, AllHoles), env.params.Keys);
      NotesAgreeIff(v);
      ActualsAgree(v, env);
    }
  }

  /** The test makes no difference to a value, whatever the parameters, exactly when the texts that no
      later entry overwrites are harmless and, with the test and without, the same keys are asked for in
      the same order for the first time. */
  lemma NestedGuardHarmlessIff(v: Val)
    ensures (forall env :: Interpolated(v, env) == Unguarded(v, env))
       <==> Survivors(v, Harmless) && Firsts(Asked(v), {}) == Firsts(AskedBy(v, AllHoles), {})
  {
    MissAlikeIff(Asked(v), AskedBy(v, AllHoles));
    if GuardUnseen(v) {
      UnseenMissAlike(v);
    } else if MissAlike(Asked(v), AskedBy(v, AllHoles)) && Survivors(v, Harmless) {
      MissAlikeUnseen(v);
    }
  }

  /** It is enough that all texts are harmless; where no two keys of a dict read the same, that is
      necessary too. */
  lemma EveryTextHarmlessIff(v: Val)
    ensures EveryText(v, Harmless) ==> forall env :: Interpolated(v, env) == Unguarded(v, env)
    ensures KeysApart(v) && (forall env :: Interpolated(v, env) == Unguarded(v, env)) ==> EveryText(v, Harmless)
  {
    NestedGuardHarmlessIff(v);
    EverySurvives(v, Harmless);
    if EveryText(v, Harmless) {
      AskedAlike(v, Harmless, Holes, AllHoles);
    }
  }
}
