/** What a filled text says (`run/params.py`). */
module ParamsFilling {
  import opened Params
  import opened ParamsRedaction
  import opened Placeholders
  import opened Text
  import opened Wire

  // ---- Texts around a placeholder ----

  /** No placeholder of s begins from i up to j. */
  predicate NoneBegins(s: string, i: nat, j: nat)
    requires i <= j <= |s|
  {
    forall k :: i <= k < j ==> MatchAt(s[k..]).None?
  }

  /** s is u, a placeholder p for key, and w; none begins in u. */
  ghost predicate Splits(s: string, u: string, p: string, key: string, w: string) {
    s == u + (p + w) && Reads(p, key, "") && NoneBegins(s, 0, |u|)
  }

  lemma SpelledBefore(open: string, u: string, key: string, v: string, close: string, w: string)
    ensures Spelled(open, u, key, v, close, "") + w == Spelled(open, u, key, v, close, w)
  {
    assert close + "" == close;
  }

  lemma ReadsBefore(p: string, key: string, w: string)
    requires Reads(p, key, "")
    ensures MatchAt(p + w) == Some(Match(key, w)) && p != ""
  {
    var u, v :| Parts(u, key, v)
      && (p == Spelled("{{", u, key, v, "}}", "") || p == Spelled("${", u, key, v, "}", ""));
    SpelledBefore("{{", u, key, v, "}}", w);
    SpelledBefore("${", u, key, v, "}", w);
    OpeningComplete(u, key, v, w, p != Spelled("{{", u, key, v, "}}", ""));
  }

  /** g copies the first character where starts does not hold, and asked does not depend on it. */
  ghost predicate CopiesAt(g: string -> string, asked: string -> seq<string>, starts: string -> bool, s: string) {
    s != "" && !starts(s) ==> g(s) == [s[0]] + g(s[1..]) && asked(s) == asked(s[1..])
  }

  ghost predicate StartsAt(starts: string -> bool, s: string, k: nat)
    requires k <= |s|
  {
    starts(s[k..])
  }

  lemma {:induction false} CopiesPrefix(u: string, t: string, g: string -> string, asked: string -> seq<string>, starts: string -> bool)
    requires forall s: string {:trigger CopiesAt(g, asked, starts, s)} :: CopiesAt(g, asked, starts, s)
    requires forall k :: 0 <= k < |u| ==> !StartsAt(starts, u + t, k)
    ensures g(u + t) == u + g(t) && asked(u + t) == asked(t)
  {
    if u == "" {
      assert u + t == t;
    } else {
      var s, rest := u + t, u[1..] + t;
      assert s[1..] == rest && s[0..] == s && u == [u[0]] + u[1..];
      forall k | 0 <= k < |u| - 1
        ensures !StartsAt(starts, rest, k)
      {
        assert rest[k..] == s[k + 1..] && !StartsAt(starts, s, k + 1);
      }
      CopiesPrefix(u[1..], t, g, asked, starts);
      assert CopiesAt(g, asked, starts, s) && !StartsAt(starts, s, 0);
    }
  }

  lemma OneLiteral(s: string, value: string -> string)
    requires s != "" && MatchAt(s).None?
    ensures Fill(Pieces(s), value) == [s[0]] + Fill(Pieces(s[1..]), value)
    ensures HoleKeys(Pieces(s)) == HoleKeys(Pieces(s[1..]))
  {
    assert Pieces(s)[1..] == Pieces(s[1..]);
  }

  /** Up to the first placeholder a text is filled with itself. */
  lemma FillsItself(u: string, t: string, value: string -> string)
    requires NoneBegins(u + t, 0, |u|)
    ensures Fill(Pieces(u + t), value) == u + Fill(Pieces(t), value)
    ensures HoleKeys(Pieces(u + t)) == HoleKeys(Pieces(t))
  {
    var g, asked, starts := s => Fill(Pieces(s), value), s => HoleKeys(Pieces(s)), s => MatchAt(s).Some?;
    forall s: string
      ensures CopiesAt(g, asked, starts, s)
    {
      if s != "" && MatchAt(s).None? {
        OneLiteral(s, value);
      }
    }
    CopiesPrefix(u, t, g, asked, starts);
  }

  lemma OneHole(s: string, key: string, w: string, value: string -> string)
    requires s != "" && MatchAt(s) == Some(Match(key, w))
    ensures Fill(Pieces(s), value) == value(key) + Fill(Pieces(w), value)
    ensures HoleKeys(Pieces(s)) == [key] + HoleKeys(Pieces(w))
  {
    assert Pieces(s)[1..] == Pieces(w);
  }

  /** Filling goes from placeholder to placeholder: what lies before one stays, the placeholder becomes the
      key's value, and what follows is filled in the same way. */
  lemma FillsOne(s: string, u: string, p: string, key: string, w: string, value: string -> string)
    requires Splits(s, u, p, key, w)
    ensures Fill(Pieces(s), value) == u + value(key) + Fill(Pieces(w), value)
    ensures HoleKeys(Pieces(s)) == [key] + HoleKeys(Pieces(w))
  {
    ReadsBefore(p, key, w);
    FillsItself(u, p + w, value);
    OneHole(p + w, key, w, value);
  }

  lemma FillsWhole(w: string, value: string -> string)
    requires NoneBegins(w, 0, |w|)
    ensures Fill(Pieces(w), value) == w && HoleKeys(Pieces(w)) == []
  {
    assert w + "" == w;
    FillsItself(w, "", value);
  }

  lemma {:induction false} FillSame(pieces: seq<Piece>, value: string -> string, other: string -> string)
    requires forall k :: k in HoleKeys(pieces) ==> value(k) == other(k)
    ensures Fill(pieces, value) == Fill(pieces, other)
  {
    if pieces != [] {
      assert pieces[0].Hole? ==> pieces[0].key in HoleKeys(pieces);
      FillSame(pieces[1..], value, other);
    }
  }

  // ---- What is put in ----

  /** The parameter as text; nothing for null. */
  function InText(env: Env, key: string): string
    requires key in env.params
  {
    match env.params[key]
    case Null => ""
    case v => env.show(v)
  }

  /** A text with placeholders inside it, all of them for parameters there are: each is replaced by its
      parameter's text, and in the note by its name between `<param:` and `>`. */
  lemma FilledIs(s: string, env: Env, value: string -> string, name: string -> string)
    requires ExactKey(s).None? && MayHaveHoles(s) && forall k :: k in HoleKeys(Pieces(s)) ==> k in env.params
    requires forall k :: k in HoleKeys(Pieces(s)) ==> value(k) == InText(env, k) && name(k) == "<param:" + k + ">"
    ensures Interpolated(Val.Text(s), env) == Done(Val.Text(Fill(Pieces(s), value)), Val.Text(Fill(Pieces(s), name)))
  {
    TextIs(s, env);
    NoneMissingIff(HoleKeys(Pieces(s)), env.params.Keys);
    FillSame(Pieces(s), value, key => Shown(env, key));
    FillSame(Pieces(s), name, Redacted);
  }

  /** The text of a note names each key. */
  function Named(key: string): string {
    "<param:" + key + ">"
  }

  /** One placeholder in the middle of a text: what stands before and after it stays. */
  lemma InlineFilled(s: string, u: string, p: string, key: string, w: string, env: Env)
    requires Splits(s, u, p, key, w) && NoneBegins(w, 0, |w|)
    requires ExactKey(s).None? && MayHaveHoles(s)
    ensures Interpolated(Val.Text(s), env)
         == if key !in env.params then Missing(key)
            else Done(Val.Text(u + (if env.params[key].Null? then "" else env.show(env.params[key])) + w),
                      Val.Text(u + ("<param:" + key + ">") + w))
  {
    var value := k => if k in env.params then InText(env, k) else "";
    FillsOne(s, u, p, key, w, value);
    FillsOne(s, u, p, key, w, Named);
    FillsWhole(w, value);
    FillsWhole(w, Named);
    assert HoleKeys(Pieces(s)) == [key];
    if key in env.params {
      FilledIs(s, env, value, Named);
    } else {
      TextIs(s, env);
    }
  }

  /** A text that is nothing but a placeholder becomes the parameter itself, of whatever kind. */
  lemma ExactFilled(s: string, key: string, u: string, p: string, w: string, env: Env)
    requires Surrounded(s, key, u, p, w)
    ensures Interpolated(Val.Text(s), env)
         == if key in env.params then Done(env.params[key], Val.Text("<param:" + key + ">")) else Missing(key)
  {
    ExactIff(s, key);
  }
}
