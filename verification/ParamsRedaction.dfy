/** What the redacted twin may depend on (`run/params.py`). */
module ParamsRedaction {
  import opened Params
  import opened Placeholders
  import opened Text
  import opened Wire
  import OrderedMap

  // ---- Texts ----

  /** The keys a text asks for, in order. */
  function Holes(s: string): seq<string> {
    var exact := ExactKey(s);
    if exact.Some? then [exact.value] else if MayHaveHoles(s) then HoleKeys(Pieces(s)) else []
  }

  function ActualOf(s: string, env: Env): Val {
    var exact := ExactKey(s);
    if exact.Some? then (if exact.value in env.params then env.params[exact.value] else Null)
    else if MayHaveHoles(s) then Val.Text(Fill(Pieces(s), key => Shown(env, key)))
    else Val.Text(s)
  }

  /** Depends on the text alone. */
  function NoteOf(s: string): Val {
    var exact := ExactKey(s);
    Val.Text(if exact.Some? then Redacted(exact.value) else if MayHaveHoles(s) then Fill(Pieces(s), Redacted) else s)
  }

  /** s is t between spaces u and w, and t a placeholder for key. */
  ghost predicate Surrounded(s: string, key: string, u: string, t: string, w: string) {
    s == u + t && Every(u, IsSpace) && Reads(t, key, w) && Every(w, IsSpace)
  }

  /** The exact form is one placeholder and nothing but space around it. */
  lemma ExactIff(s: string, key: string)
    ensures ExactKey(s) == Some(key) <==> exists u, t, w :: Surrounded(s, key, u, t, w)
  {
    if ExactKey(s) == Some(key) {
      var t := After(s, IsSpace);
      var w := MatchAt(t).value.rest;
      SpanSatisfies(s, IsSpace);
      MatchIff(t, key, w);
      SpanSatisfies(w, IsSpace);
      assert w[..Span(w, IsSpace)] + "" == w[..Span(w, IsSpace)];
      assert Surrounded(s, key, s[..Span(s, IsSpace)], t, w);
    }
    if u, t, w :| Surrounded(s, key, u, t, w) {
      MatchIff(t, key, w);
      OpensWithoutSpace(t);
      SpanIs(u, t, IsSpace);
      SpanIs(w, "", IsSpace);
      assert w + "" == w;
    }
  }

  lemma OpensWithoutSpace(t: string)
    requires MatchAt(t).Some?
    ensures t != "" && !IsSpace(t[0])
  {
    Opens(t);
  }

  lemma Opens(t: string)
    requires MatchAt(t).Some?
    ensures t != "" && (t[0] == '{' || t[0] == '$')
  {
    if "{{" <= t {
      assert t[0] == "{{"[0];
    } else {
      assert "${" <= t;
      assert t[0] == "${"[0];
    }
  }

  function FirstMissing(keys: seq<string>, known: set<string>): Option<string> {
    if keys == [] then None else if keys[0] !in known then Some(keys[0]) else FirstMissing(keys[1..], known)
  }

  lemma {:induction false} FirstMissingConcat(a: seq<string>, c: seq<string>, known: set<string>)
    ensures FirstMissing(a + c, known) == if FirstMissing(a, known).Some? then FirstMissing(a, known) else FirstMissing(c, known)
  {
    if a == [] {
      assert a + c == c;
    } else {
      FirstMissingConcat(a[1..], c, known);
      assert (a + c)[1..] == a[1..] + c;
    }
  }

  /** Substitution fills the pieces of the template; what it puts in is never scanned again. */
  lemma {:induction false} SubstitutedIs(s: string, params: map<string, Val>, value: string -> string)
    ensures Substituted(s, params, value)
         == match FirstMissing(HoleKeys(Pieces(s)), params.Keys)
            case Some(key) => Lacks(key)
            case None => Filled(Fill(Pieces(s), value))
    decreases |s|
  {
    if s != "" {
      var m := MatchAt(s);
      var later := if m.Some? then m.value.rest else s[1..];
      SubstitutedIs(later, params, value);
      assert Pieces(s)[1..] == Pieces(later);
      if m.Some? {
        assert HoleKeys(Pieces(s)) == [m.value.key] + HoleKeys(Pieces(later));
      } else {
        assert HoleKeys(Pieces(s)) == HoleKeys(Pieces(later));
      }
    }
  }

  lemma TextIs(s: string, env: Env)
    ensures InterpolatedText(s, env)
         == match FirstMissing(Holes(s), env.params.Keys)
            case Some(key) => Missing(key)
            case None => Done(ActualOf(s, env), NoteOf(s))
  {
    if ExactKey(s).Some? {
      assert FirstMissing([ExactKey(s).value][1..], env.params.Keys) == None;
    } else {
      SubstitutedIs(s, env.params, key => Shown(env, key));
      SubstitutedIs(s, env.params, Redacted);
    }
  }

  /** A text that asks for nothing stays as it is in both versions. */
  lemma UntouchedWithoutHoles(s: string, env: Env)
    requires Holes(s) == []
    ensures ActualOf(s, env) == NoteOf(s) == Val.Text(s)
  {
    SourceOfPieces(s);
    if MayHaveHoles(s) {
      FillWithoutHoles(Pieces(s), key => Shown(env, key));
      FillWithoutHoles(Pieces(s), Redacted);
    }
  }

  // ---- Nested values ----

  /** v with every text replaced. */
  function Rebuilt(v: Val, leaf: string -> Val): Val
    decreases v, 1, 0
  {
    match v
    case Text(s) => leaf(s)
    case Mapping(entries) => Mapping(RebuiltEntries(v, |entries|, leaf))
    case Items(items) => Items(RebuiltItems(v, |items|, leaf))
    case _ => v
  }

  function RebuiltItems(v: Val, n: nat, leaf: string -> Val): (r: seq<Val>)
    requires v.Items? && n <= |v.items|
    ensures |r| == n
    decreases v, 0, n
  {
    if n == 0 then [] else RebuiltItems(v, n - 1, leaf) + [Rebuilt(v.items[n - 1], leaf)]
  }

  function RebuiltEntries(v: Val, n: nat, leaf: string -> Val): seq<OrderedMap.Entry<Val>>
    requires v.Mapping? && n <= |v.entries|
    decreases v, 0, n
  {
    if n == 0 then []
    else OrderedMap.Put(RebuiltEntries(v, n - 1, leaf), v.entries[n - 1].key, Rebuilt(v.entries[n - 1].value, leaf))
  }

  /** All keys a value asks for, in the order it is walked. */
  function Asked(v: Val): seq<string> {
    AskedBy(v, Holes)
  }

  /** The same for texts that ask for holes(s). */
  function AskedBy(v: Val, holes: string -> seq<string>): seq<string>
    decreases v, 1, 0
  {
    match v
    case Text(s) => holes(s)
    case Mapping(entries) => AskedFirst(v, |entries|, holes)
    case Items(items) => AskedFirst(v, |items|, holes)
    case _ => []
  }

  function Part(v: Val, i: nat): (p: Val)
    requires (v.Mapping? && i < |v.entries|) || (v.Items? && i < |v.items|)
    ensures p < v
  {
    if v.Mapping? then v.entries[i].value else v.items[i]
  }

  function Size(v: Val): nat {
    if v.Mapping? then |v.entries| else if v.Items? then |v.items| else 0
  }

  function AskedFirst(v: Val, n: nat, holes: string -> seq<string>): seq<string>
    requires n <= Size(v)
    decreases v, 0, n
  {
    if n == 0 then [] else AskedFirst(v, n - 1, holes) + AskedBy(Part(v, n - 1), holes)
  }

  /** leaf fails on the first of a text's holes that is not known, and otherwise gives two versions. */
  ghost predicate LeafIs(leaf: string -> Outcome<Val>, holes: string -> seq<string>, known: set<string>,
                         actual: string -> Val, note: string -> Val)
  {
    forall s: string {:trigger leaf(s)} ::
      leaf(s) == match FirstMissing(holes(s), known)
                 case Some(key) => Missing(key)
                 case None => Done(actual(s), note(s))
  }

  /** Then so does the walk: it fails on the first hole of all that is not known, and otherwise rebuilds
      the value twice. */
  lemma {:induction false} WalkedIs(v: Val, leaf: string -> Outcome<Val>, holes: string -> seq<string>, known: set<string>,
                                    actual: string -> Val, note: string -> Val)
    requires LeafIs(leaf, holes, known, actual, note)
    ensures Walked(v, leaf)
         == match FirstMissing(AskedBy(v, holes), known)
            case Some(key) => Missing(key)
            case None => Done(Rebuilt(v, actual), Rebuilt(v, note))
    decreases v, 1, 0
  {
    match v
    case Mapping(entries) => EntriesAre(v, |entries|, leaf, holes, known, actual, note);
    case Items(items) => ItemsAre(v, |items|, leaf, holes, known, actual, note);
    case _ =>
  }

  lemma {:induction false} EntriesAre(v: Val, n: nat, leaf: string -> Outcome<Val>, holes: string -> seq<string>,
                                      known: set<string>, actual: string -> Val, note: string -> Val)
    requires v.Mapping? && n <= |v.entries| && LeafIs(leaf, holes, known, actual, note)
    ensures WalkedEntries(v, n, leaf)
         == match FirstMissing(AskedFirst(v, n, holes), known)
            case Some(key) => Missing(key)
            case None => Done(RebuiltEntries(v, n, actual), RebuiltEntries(v, n, note))
    decreases v, 0, n
  {
    if n > 0 {
      EntriesAre(v, n - 1, leaf, holes, known, actual, note);
      WalkedIs(v.entries[n - 1].value, leaf, holes, known, actual, note);
      FirstMissingConcat(AskedFirst(v, n - 1, holes), AskedBy(v.entries[n - 1].value, holes), known);
    }
  }

  lemma {:induction false} ItemsAre(v: Val, n: nat, leaf: string -> Outcome<Val>, holes: string -> seq<string>,
                                    known: set<string>, actual: string -> Val, note: string -> Val)
    requires v.Items? && n <= |v.items| && LeafIs(leaf, holes, known, actual, note)
    ensures WalkedItems(v, n, leaf)
         == match FirstMissing(AskedFirst(v, n, holes), known)
            case Some(key) => Missing(key)
            case None => Done(RebuiltItems(v, n, actual), RebuiltItems(v, n, note))
    decreases v, 0, n
  {
    if n > 0 {
      ItemsAre(v, n - 1, leaf, holes, known, actual, note);
      WalkedIs(v.items[n - 1], leaf, holes, known, actual, note);
      FirstMissingConcat(AskedFirst(v, n - 1, holes), AskedBy(v.items[n - 1], holes), known);
    }
  }

  /** Interpolation fails on the first key asked for that is not a parameter, and otherwise rebuilds
      the value twice; nothing but the actual version looks at the parameters' values. */
  lemma InterpolatedIs(v: Val, env: Env)
    ensures Interpolated(v, env)
         == match FirstMissing(Asked(v), env.params.Keys)
            case Some(key) => Missing(key)
            case None => Done(Rebuilt(v, s => ActualOf(s, env)), Rebuilt(v, NoteOf))
  {
    var leaf, actual := s => InterpolatedText(s, env), s => ActualOf(s, env);
    forall s: string
      ensures leaf(s) == match FirstMissing(Holes(s), env.params.Keys)
                         case Some(key) => Missing(key)
                         case None => Done(actual(s), NoteOf(s))
    {
      TextIs(s, env);
    }
    WalkedIs(v, leaf, Holes, env.params.Keys, actual, NoteOf);
  }

  /** Two runs with the same parameter names, whatever the values, fail on the same key or give the
      same note. */
  lemma NoteRevealsNothing(v: Val, env1: Env, env2: Env)
    requires env1.params.Keys == env2.params.Keys
    ensures var r1, r2 := Interpolated(v, env1), Interpolated(v, env2);
            (r1.Missing? && r1 == r2) || (r1.Done? && r2.Done? && r1.note == r2.note)
  {
    InterpolatedIs(v, env1);
    InterpolatedIs(v, env2);
  }

  /** It succeeds exactly when every key asked for is a parameter. */
  lemma {:induction false} NoneMissingIff(keys: seq<string>, known: set<string>)
    ensures FirstMissing(keys, known).None? <==> forall k :: k in keys ==> k in known
  {
    if keys != [] {
      NoneMissingIff(keys[1..], known);
      assert keys == [keys[0]] + keys[1..];
    }
  }

  lemma SucceedsIff(v: Val, env: Env)
    ensures Interpolated(v, env).Done? <==> forall k :: k in Asked(v) ==> k in env.params
  {
    InterpolatedIs(v, env);
    NoneMissingIff(Asked(v), env.params.Keys);
  }

  // ---- Agreement outside placeholders ----

  /** The last of the first n entries with this key, or -1. */
  function LastWith(v: Val, n: nat, key: string): (i: int)
    requires v.Mapping? && n <= |v.entries|
    ensures -1 <= i < n && (i >= 0 ==> v.entries[i].key == key)
    ensures forall j :: i < j < n ==> v.entries[j].key != key
  {
    if n == 0 then -1 else if v.entries[n - 1].key == key then n - 1 else LastWith(v, n - 1, key)
  }

  /** a and c are versions of v in which each text is replaced as it is on its own, so that they differ in
      texts with placeholders only; of dict keys that read the same, the last value counts. */
  ghost predicate Twins(v: Val, a: Val, c: Val, env: Env)
    decreases v, 1
  {
    match v
    case Text(s) => a == ActualOf(s, env) && c == NoteOf(s) && (Holes(s) == [] ==> a == c == v)
    case Mapping(entries) => a.Mapping? && c.Mapping? && TwinEntries(v, |entries|, a.entries, c.entries, env)
    case Items(items) =>
      && a.Items? && c.Items? && |a.items| == |c.items| == |items|
      && forall i :: 0 <= i < |items| ==> Twins(items[i], a.items[i], c.items[i], env)
    case _ => a == c == v
  }

  ghost predicate TwinEntries(v: Val, n: nat, a: seq<OrderedMap.Entry<Val>>, c: seq<OrderedMap.Entry<Val>>, env: Env)
    requires v.Mapping? && n <= |v.entries|
    decreases v, 0, 1
  {
    && |a| == |c| && (forall i :: 0 <= i < n ==> OrderedMap.Has(a, v.entries[i].key))
    && forall j :: 0 <= j < |a| ==> TwinAt(v, n, a[j], c[j], env)
  }

  ghost predicate TwinAt(v: Val, n: nat, p: OrderedMap.Entry<Val>, q: OrderedMap.Entry<Val>, env: Env)
    requires v.Mapping? && n <= |v.entries|
    decreases v, 0, 0
  {
    && p.key == q.key && LastWith(v, n, p.key) >= 0
    && Twins(v.entries[LastWith(v, n, p.key)].value, p.value, q.value, env)
  }

  /** Each text is replaced on its own, and wherever there is no placeholder both versions are the template. */
  lemma {:induction false} RebuiltTwins(v: Val, env: Env)
    ensures Twins(v, Rebuilt(v, s => ActualOf(s, env)), Rebuilt(v, NoteOf), env)
    decreases v, 1, 0
  {
    match v
    case Text(s) =>
      if Holes(s) == [] {
        UntouchedWithoutHoles(s, env);
      }
    case Mapping(entries) => EntriesTwins(v, |entries|, env);
    case Items(items) =>
      forall i | 0 <= i < |items|
        ensures Twins(items[i], RebuiltItems(v, |items|, s => ActualOf(s, env))[i], RebuiltItems(v, |items|, NoteOf)[i], env)
      {
        RebuiltTwins(items[i], env);
        RebuiltItem(v, |items|, s => ActualOf(s, env), i);
        RebuiltItem(v, |items|, NoteOf, i);
      }
    case _ =>
  }

  lemma {:induction false} RebuiltItem(v: Val, n: nat, leaf: string -> Val, i: nat)
    requires v.Items? && i < n <= |v.items|
    ensures RebuiltItems(v, n, leaf)[i] == Rebuilt(v.items[i], leaf)
  {
    if i < n - 1 {
      RebuiltItem(v, n - 1, leaf, i);
    }
  }

  lemma {:induction false} EntriesTwins(v: Val, n: nat, env: Env)
    requires v.Mapping? && n <= |v.entries|
    ensures OrderedMap.DistinctKeys(RebuiltEntries(v, n, s => ActualOf(s, env)))
    ensures TwinEntries(v, n, RebuiltEntries(v, n, s => ActualOf(s, env)), RebuiltEntries(v, n, NoteOf), env)
    decreases v, 0, n
  {
    if n > 0 {
      EntriesTwins(v, n - 1, env);
      RebuiltTwins(v.entries[n - 1].value, env);
      PutTwins(v, n, RebuiltEntries(v, n - 1, s => ActualOf(s, env)), RebuiltEntries(v, n - 1, NoteOf),
               Rebuilt(v.entries[n - 1].value, s => ActualOf(s, env)), Rebuilt(v.entries[n - 1].value, NoteOf), env);
    }
  }

  lemma PutTwins(v: Val, n: nat, a: seq<OrderedMap.Entry<Val>>, c: seq<OrderedMap.Entry<Val>>, x: Val, y: Val, env: Env)
    requires v.Mapping? && 0 < n <= |v.entries| && OrderedMap.DistinctKeys(a) && TwinEntries(v, n - 1, a, c, env)
    requires Twins(v.entries[n - 1].value, x, y, env)
    ensures var key := v.entries[n - 1].key; var a' := OrderedMap.Put(a, key, x);
            OrderedMap.DistinctKeys(a') && TwinEntries(v, n, a', OrderedMap.Put(c, key, y), env)
  {
    var key := v.entries[n - 1].key;
    forall j | 0 <= j < |a|
      ensures a[j].key == c[j].key && (a[j].key != key ==> TwinAt(v, n, a[j], c[j], env))
    {
      TwinEarlier(v, n, a[j], c[j], env);
    }
    PutDistinct(a, key, x);
    PutCovers(v, n, a, x);
    PutPair(a, c, key, x, y, (p, q) => TwinAt(v, n, p, q, env));
  }

  lemma TwinEarlier(v: Val, n: nat, p: OrderedMap.Entry<Val>, q: OrderedMap.Entry<Val>, env: Env)
    requires v.Mapping? && 0 < n <= |v.entries| && TwinAt(v, n - 1, p, q, env)
    ensures p.key == q.key && (p.key != v.entries[n - 1].key ==> TwinAt(v, n, p, q, env))
  {
  }

  /** Storing under one key in two maps with the same keys relates them entry by entry. */
  lemma PutPair(a: seq<OrderedMap.Entry<Val>>, c: seq<OrderedMap.Entry<Val>>, key: string, x: Val, y: Val,
                rel: (OrderedMap.Entry<Val>, OrderedMap.Entry<Val>) -> bool)
    requires OrderedMap.DistinctKeys(a) && |a| == |c|
    requires forall j :: 0 <= j < |a| ==> a[j].key == c[j].key && (a[j].key != key ==> rel(a[j], c[j]))
    requires rel(OrderedMap.Entry(key, x), OrderedMap.Entry(key, y))
    ensures var a', c' := OrderedMap.Put(a, key, x), OrderedMap.Put(c, key, y);
            |a'| == |c'| && forall j :: 0 <= j < |a'| ==> rel(a'[j], c'[j])
  {
    SameIndex(a, c, key);
    forall j | 0 <= j < |a| && j != OrderedMap.IndexOf(a, key)
      ensures rel(a[j], c[j])
    {
      OtherKey(a, key, j);
    }
  }

  lemma OtherKey(a: seq<OrderedMap.Entry<Val>>, key: string, j: nat)
    requires OrderedMap.DistinctKeys(a) && j < |a| && j != OrderedMap.IndexOf(a, key)
    ensures a[j].key != key
  {
  }

  lemma SameIndex(a: seq<OrderedMap.Entry<Val>>, c: seq<OrderedMap.Entry<Val>>, key: string)
    requires |a| == |c| && forall j :: 0 <= j < |a| ==> a[j].key == c[j].key
    ensures OrderedMap.IndexOf(a, key) == OrderedMap.IndexOf(c, key)
  {
    var i, j := OrderedMap.IndexOf(a, key), OrderedMap.IndexOf(c, key);
    assert !(i < j) && !(j < i);
  }

  lemma PutCovers(v: Val, n: nat, a: seq<OrderedMap.Entry<Val>>, x: Val)
    requires v.Mapping? && 0 < n <= |v.entries| && OrderedMap.DistinctKeys(a)
    requires forall i :: 0 <= i < n - 1 ==> OrderedMap.Has(a, v.entries[i].key)
    ensures forall i :: 0 <= i < n ==> OrderedMap.Has(OrderedMap.Put(a, v.entries[n - 1].key, x), v.entries[i].key)
  {
    forall i | 0 <= i < n
      ensures OrderedMap.Has(OrderedMap.Put(a, v.entries[n - 1].key, x), v.entries[i].key)
    {
      if i < n - 1 {
        assert OrderedMap.Has(a, v.entries[i].key);
      }
      PutHas(a, v.entries[n - 1].key, x, v.entries[i].key);
    }
  }

  lemma PutDistinct(a: seq<OrderedMap.Entry<Val>>, key: string, x: Val)
    requires OrderedMap.DistinctKeys(a)
    ensures OrderedMap.DistinctKeys(OrderedMap.Put(a, key, x))
  {
    OrderedMap.PutGet(a, key, x, key);
  }

  lemma PutHas(a: seq<OrderedMap.Entry<Val>>, key: string, x: Val, k: string)
    requires OrderedMap.DistinctKeys(a) && (k == key || OrderedMap.Has(a, k))
    ensures OrderedMap.Has(OrderedMap.Put(a, key, x), k)
  {
    OrderedMap.PutGet(a, key, x, k);
  }

  /** On success the two results are such twins. */
  lemma AgreeOutsidePlaceholders(v: Val, env: Env)
    requires Interpolated(v, env).Done?
    ensures Twins(v, Interpolated(v, env).actual, Interpolated(v, env).note, env)
  {
    InterpolatedIs(v, env);
    RebuiltTwins(v, env);
  }
}
