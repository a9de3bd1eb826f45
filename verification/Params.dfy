/** Filling parameters into run macros, with a redacted twin (`run/params.py`). */
module Params {
  import opened Placeholders
  import opened Text
  import opened Wire
  import OrderedMap

  /** Dict keys are given by their `str(...)`; Plain is any other scalar. */
  datatype Val = Null | Text(s: string) | Plain(shown: string)
               | Mapping(entries: seq<OrderedMap.Entry<Val>>) | Items(items: seq<Val>)

  datatype Outcome<T> = Done(actual: T, note: T) | Missing(key: string)

  datatype Filled = Filled(text: string) | Lacks(key: string)

  /** The parameters, and Python's `str` on their values. */
  datatype Env = Env(params: map<string, Val>, show: Val -> string)

  // ---- One text ----

  /** The whole text, up to surrounding space, is one placeholder. */
  function ExactKey(s: string): Option<string> {
    var m := MatchAt(After(s, IsSpace));
    if m.Some? && After(m.value.rest, IsSpace) == "" then Some(m.value.key) else None
  }

  predicate Contains(s: string, t: string) {
    t <= s || (s != "" && Contains(s[1..], t))
  }

  /** The test before the regular expression is tried. */
  predicate MayHaveHoles(s: string) {
    Contains(s, "{{param:") || Contains(s, "${param:")
  }

  function Shown(env: Env, key: string): string {
    if key !in env.params || env.params[key].Null? then "" else env.show(env.params[key])
  }

  function Redacted(key: string): string {
    "<param:" + key + ">"
  }

  /** `_PARAM_INLINE_RE.sub(repl, s)`, where repl fails on a missing key. */
  function Substituted(s: string, params: map<string, Val>, value: string -> string): Filled
    decreases |s|
  {
    if s == "" then Filled("")
    else
      var m := MatchAt(s);
      if m.Some? && m.value.key !in params then Lacks(m.value.key)
      else
        var rest := Substituted(if m.Some? then m.value.rest else s[1..], params, value);
        if rest.Lacks? then rest
        else Filled((if m.Some? then value(m.value.key) else [s[0]]) + rest.text)
  }

  function InterpolatedText(s: string, env: Env): Outcome<Val> {
    var exact := ExactKey(s);
    if exact.Some? then
      if exact.value !in env.params then Missing(exact.value)
      else Done(env.params[exact.value], Text(Redacted(exact.value)))
    else if !MayHaveHoles(s) then Done(Text(s), Text(s))
    else
      var actual := Substituted(s, env.params, key => Shown(env, key));
      var note := Substituted(s, env.params, Redacted);
      if actual.Lacks? then Missing(actual.key)
      else if note.Lacks? then Missing(note.key)
      else Done(Text(actual.text), Text(note.text))
  }

  // ---- Nested values ----

  function Interpolated(v: Val, env: Env): Outcome<Val> {
    Walked(v, s => InterpolatedText(s, env))
  }

  /** The recursion, for any treatment of texts. */
  function Walked(v: Val, leaf: string -> Outcome<Val>): Outcome<Val>
    decreases v, 1, 0
  {
    match v
    case Text(s) => leaf(s)
    case Mapping(entries) =>
      (match WalkedEntries(v, |entries|, leaf)
       case Missing(key) => Missing(key)
       case Done(a, n) => Done(Mapping(a), Mapping(n)))
    case Items(items) =>
      (match WalkedItems(v, |items|, leaf)
       case Missing(key) => Missing(key)
       case Done(a, n) => Done(Items(a), Items(n)))
    case _ => Done(v, v)
  }

  /** The first n entries; a later key that reads the same replaces the value. */
  function WalkedEntries(v: Val, n: nat, leaf: string -> Outcome<Val>): Outcome<seq<OrderedMap.Entry<Val>>>
    requires v.Mapping? && n <= |v.entries|
    decreases v, 0, n
  {
    if n == 0 then Done([], [])
    else match WalkedEntries(v, n - 1, leaf)
      case Missing(key) => Missing(key)
      case Done(a, b) =>
        match Walked(v.entries[n - 1].value, leaf)
        case Missing(key) => Missing(key)
        case Done(x, y) => Done(OrderedMap.Put(a, v.entries[n - 1].key, x), OrderedMap.Put(b, v.entries[n - 1].key, y))
  }

  function WalkedItems(v: Val, n: nat, leaf: string -> Outcome<Val>): Outcome<seq<Val>>
    requires v.Items? && n <= |v.items|
    decreases v, 0, n
  {
    if n == 0 then Done([], [])
    else match WalkedItems(v, n - 1, leaf)
      case Missing(key) => Missing(key)
      case Done(a, b) =>
        match Walked(v.items[n - 1], leaf)
        case Missing(key) => Missing(key)
        case Done(x, y) => Done(a + [x], b + [y])
  }

  /** `interpolate_params_pair`, with its loops. */
  method InterpolateParamsPair(value: Val, env: Env) returns (r: Outcome<Val>)
    ensures r == Interpolated(value, env)
    decreases value
  {
    ghost var leaf := s => InterpolatedText(s, env);
    if value.Text? {
      return InterpolatedText(value.s, env);
    }
    if value.Mapping? {
      var outActual: seq<OrderedMap.Entry<Val>>, outNote: seq<OrderedMap.Entry<Val>> := [], [];
      var i := 0;
      while i < |value.entries|
        invariant 0 <= i <= |value.entries|
        invariant WalkedEntries(value, i, leaf) == Done(outActual, outNote)
      {
        var one := InterpolateParamsPair(value.entries[i].value, env);
        if one.Missing? {
          MissingEntry(value, i + 1, leaf);
          return Missing(one.key);
        }
        outActual := OrderedMap.Put(outActual, value.entries[i].key, one.actual);
        outNote := OrderedMap.Put(outNote, value.entries[i].key, one.note);
        i := i + 1;
      }
      return Done(Mapping(outActual), Mapping(outNote));
    }
    if value.Items? {
      var actualItems: seq<Val>, noteItems: seq<Val> := [], [];
      var i := 0;
      while i < |value.items|
        invariant 0 <= i <= |value.items|
        invariant WalkedItems(value, i, leaf) == Done(actualItems, noteItems)
      {
        var one := InterpolateParamsPair(value.items[i], env);
        if one.Missing? {
          MissingItem(value, i + 1, leaf);
          return Missing(one.key);
        }
        actualItems, noteItems := actualItems + [one.actual], noteItems + [one.note];
        i := i + 1;
      }
      return Done(Items(actualItems), Items(noteItems));
    }
    return Done(value, value);
  }

  lemma {:induction false} MissingEntry(v: Val, n: nat, leaf: string -> Outcome<Val>)
    requires v.Mapping? && n <= |v.entries| && WalkedEntries(v, n, leaf).Missing?
    ensures WalkedEntries(v, |v.entries|, leaf) == WalkedEntries(v, n, leaf)
    decreases |v.entries| - n
  {
    if n < |v.entries| {
      MissingEntry(v, n + 1, leaf);
    }
  }

  lemma {:induction false} MissingItem(v: Val, n: nat, leaf: string -> Outcome<Val>)
    requires v.Items? && n <= |v.items| && WalkedItems(v, n, leaf).Missing?
    ensures WalkedItems(v, |v.items|, leaf) == WalkedItems(v, n, leaf)
    decreases |v.items| - n
  {
    if n < |v.items| {
      MissingItem(v, n + 1, leaf);
    }
  }
}
