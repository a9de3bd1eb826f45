/** The placeholder syntax of run macros: the regular expressions of `run/params.py`. */
module Placeholders {
  import opened Text
  import opened Wire

  predicate KeyChar(c: char) {
    'A' <= c <= 'Z' || 'a' <= c <= 'z' || '0' <= c <= '9' || c == '_' || c == '.' || c == '-'
  }

  predicate Every(s: string, p: char -> bool) {
    forall i :: 0 <= i < |s| ==> p(s[i])
  }

  // ---- The grammar ----

  /** The opening, u, `param:`, the key, w, the closing, and the rest. */
  function Spelled(open: string, u: string, key: string, w: string, close: string, rest: string): string {
    open + (u + ("param:" + (key + (w + (close + rest)))))
  }

  predicate Parts(u: string, key: string, w: string) {
    Every(u, IsSpace) && Every(w, IsSpace) && key != "" && Every(key, KeyChar)
  }

  /** A placeholder for key stands at the front of s, before rest. */
  ghost predicate Reads(s: string, key: string, rest: string) {
    exists u, w :: Parts(u, key, w)
      && (s == Spelled("{{", u, key, w, "}}", rest) || s == Spelled("${", u, key, w, "}", rest))
  }

  // ---- Matching ----

  /** The key, and what follows the placeholder. */
  datatype Match = Match(key: string, rest: string)

  /** How many characters at the front of s satisfy p. */
  function Span(s: string, p: char -> bool): (n: nat)
    ensures n <= |s|
  {
    if s != "" && p(s[0]) then 1 + Span(s[1..], p) else 0
  }

  function After(s: string, p: char -> bool): (r: string)
    ensures |r| <= |s| && r == s[|s| - |r|..]
  {
    s[Span(s, p)..]
  }

  function AfterLiteral(s: string, lit: string): (r: Option<string>)
    ensures r.Some? ==> |r.value| == |s| - |lit| && r.value == s[|s| - |r.value|..]
  {
    if lit <= s then Some(s[|lit|..]) else None
  }

  function MatchKey(s: string, close: string): (r: Option<Match>)
    ensures r.Some? ==> |r.value.rest| <= |s| && r.value.rest == s[|s| - |r.value.rest|..]
  {
    var k := Span(s, KeyChar);
    var end := AfterLiteral(After(s[k..], IsSpace), close);
    if k == 0 || end.None? then None else Some(Match(s[..k], end.value))
  }

  function MatchTail(s: string, close: string): (r: Option<Match>)
    ensures r.Some? ==> |r.value.rest| <= |s| && r.value.rest == s[|s| - |r.value.rest|..]
  {
    var t := AfterLiteral(After(s, IsSpace), "param:");
    if t.None? then None else MatchKey(t.value, close)
  }

  /** A match of the regular expression at the front of s. */
  function MatchAt(s: string): (r: Option<Match>)
    ensures r.Some? ==> |r.value.rest| < |s| && r.value.rest == s[|s| - |r.value.rest|..]
  {
    if "{{" <= s then MatchTail(s[2..], "}}")
    else if "${" <= s then MatchTail(s[2..], "}")
    else None
  }

  lemma {:induction false} SpanIs(x: string, y: string, p: char -> bool)
    requires Every(x, p) && (y == "" || !p(y[0]))
    ensures Span(x + y, p) == |x| && After(x + y, p) == y
  {
    if x == "" {
      assert x + y == y;
    } else {
      SpanIs(x[1..], y, p);
      assert (x + y)[1..] == x[1..] + y && (x + y)[0] == x[0];
    }
  }

  lemma {:induction false} SpanSatisfies(s: string, p: char -> bool)
    ensures var n := Span(s, p); Every(s[..n], p) && s == s[..n] + After(s, p)
  {
    if s != "" && p(s[0]) {
      SpanSatisfies(s[1..], p);
      assert s[..Span(s, p)] == [s[0]] + s[1..][..Span(s[1..], p)];
    }
  }

  lemma LiteralIff(s: string, lit: string, rest: string)
    ensures AfterLiteral(s, lit) == Some(rest) <==> s == lit + rest
  {
    if lit <= s {
      assert s == lit + s[|lit|..];
    }
    assert (lit + rest)[|lit|..] == rest;
  }

  predicate IsClosing(close: string) {
    close == "}}" || close == "}"
  }

  lemma KeyComplete(key: string, w: string, close: string, rest: string)
    requires Parts("", key, w) && IsClosing(close)
    ensures MatchKey(key + (w + (close + rest)), close) == Some(Match(key, rest))
  {
    var y := w + (close + rest);
    assert y[0] == if w == "" then '}' else w[0];
    SpanIs(key, y, KeyChar);
    assert (key + y)[..|key|] == key && (key + y)[|key|..] == y;
    SpanIs(w, close + rest, IsSpace);
    LiteralIff(close + rest, close, rest);
  }

  lemma TailComplete(u: string, key: string, w: string, close: string, rest: string)
    requires Parts(u, key, w) && IsClosing(close)
    ensures MatchTail(u + ("param:" + (key + (w + (close + rest)))), close) == Some(Match(key, rest))
  {
    var x := key + (w + (close + rest));
    assert ("param:" + x)[0] == 'p';
    SpanIs(u, "param:" + x, IsSpace);
    LiteralIff("param:" + x, "param:", x);
    KeyComplete(key, w, close, rest);
  }

  lemma KeySound(s: string, close: string) returns (key: string, w: string, rest: string)
    requires MatchKey(s, close).Some?
    ensures MatchKey(s, close) == Some(Match(key, rest)) && Parts("", key, w) && s == key + (w + (close + rest))
  {
    var k := Span(s, KeyChar);
    SpanSatisfies(s, KeyChar);
    SpanSatisfies(s[k..], IsSpace);
    key, w := s[..k], s[k..][..Span(s[k..], IsSpace)];
    rest := MatchKey(s, close).value.rest;
    LiteralIff(After(s[k..], IsSpace), close, rest);
  }

  lemma TailSound(s: string, close: string) returns (u: string, key: string, w: string, rest: string)
    requires MatchTail(s, close).Some?
    ensures MatchTail(s, close) == Some(Match(key, rest)) && Parts(u, key, w)
    ensures s == u + ("param:" + (key + (w + (close + rest))))
  {
    SpanSatisfies(s, IsSpace);
    u := s[..Span(s, IsSpace)];
    var t := AfterLiteral(After(s, IsSpace), "param:");
    LiteralIff(After(s, IsSpace), "param:", t.value);
    key, w, rest := KeySound(t.value, close);
  }

  lemma OpeningComplete(u: string, key: string, w: string, rest: string, dollar: bool)
    requires Parts(u, key, w)
    ensures MatchAt(if dollar then Spelled("${", u, key, w, "}", rest) else Spelled("{{", u, key, w, "}}", rest)) == Some(Match(key, rest))
  {
    var close := if dollar then "}" else "}}";
    var tail := u + ("param:" + (key + (w + (close + rest))));
    TailComplete(u, key, w, close, rest);
    OpeningTail(tail);
  }

  lemma OpeningTail(tail: string)
    ensures MatchAt("{{" + tail) == MatchTail(tail, "}}") && MatchAt("${" + tail) == MatchTail(tail, "}")
  {
    assert ("{{" + tail)[2..] == tail && ("${" + tail)[2..] == tail;
    assert ("${" + tail)[0] == '$';
  }

  lemma OpeningSound(s: string)
    requires MatchAt(s).Some?
    ensures Reads(s, MatchAt(s).value.key, MatchAt(s).value.rest)
  {
    var dollar := !("{{" <= s);
    var u, key, w, rest := TailSound(s[2..], if dollar then "}" else "}}");
    Opened(s, if dollar then "${" else "{{");
    SpelledReads(u, key, w, rest);
  }

  lemma Opened(s: string, open: string)
    requires open <= s && |open| == 2
    ensures s == open + s[2..]
  {
  }

  lemma SpelledReads(u: string, key: string, w: string, rest: string)
    requires Parts(u, key, w)
    ensures Reads(Spelled("{{", u, key, w, "}}", rest), key, rest) && Reads(Spelled("${", u, key, w, "}", rest), key, rest)
  {
  }

  /** The matcher decides the grammar, and there is only one way to read a placeholder. */
  lemma MatchIff(s: string, key: string, rest: string)
    ensures MatchAt(s) == Some(Match(key, rest)) <==> Reads(s, key, rest)
  {
    if MatchAt(s) == Some(Match(key, rest)) {
      OpeningSound(s);
    }
    if Reads(s, key, rest) {
      var u, w :| Parts(u, key, w)
        && (s == Spelled("{{", u, key, w, "}}", rest) || s == Spelled("${", u, key, w, "}", rest));
      OpeningComplete(u, key, w, rest, s != Spelled("{{", u, key, w, "}}", rest));
    }
  }

  // ---- Scanning a text ----

  /** A character, or a placeholder as it was written. */
  datatype Piece = Lit(c: char) | Hole(key: string, source: string)

  /** What `sub` finds, scanning from left to right. */
  function Pieces(s: string): seq<Piece>
    decreases |s|
  {
    if s == "" then []
    else
      var m := MatchAt(s);
      if m.None? then [Lit(s[0])] + Pieces(s[1..])
      else [Hole(m.value.key, s[..|s| - |m.value.rest|])] + Pieces(m.value.rest)
  }

  function Source(pieces: seq<Piece>): string {
    if pieces == [] then ""
    else (match pieces[0] case Lit(c) => [c] case Hole(_, source) => source) + Source(pieces[1..])
  }

  function HoleKeys(pieces: seq<Piece>): seq<string> {
    if pieces == [] then []
    else (if pieces[0].Hole? then [pieces[0].key] else []) + HoleKeys(pieces[1..])
  }

  function Fill(pieces: seq<Piece>, value: string -> string): string {
    if pieces == [] then ""
    else (match pieces[0] case Lit(c) => [c] case Hole(key, _) => value(key)) + Fill(pieces[1..], value)
  }

  /** Scanning loses nothing: the pieces spell the text. */
  lemma {:induction false} SourceOfPieces(s: string)
    ensures Source(Pieces(s)) == s
    decreases |s|
  {
    if s != "" {
      var m := MatchAt(s);
      if m.None? {
        SourceOfPieces(s[1..]);
      } else {
        SourceOfPieces(m.value.rest);
      }
    }
  }

  /** A piece is a hole exactly when a placeholder stands there, with what follows it as the rest. */
  lemma {:induction false} PiecesExact(s: string, i: nat)
    requires i < |Pieces(s)|
    ensures var here, next := Source(Pieces(s)[i..]), Source(Pieces(s)[i + 1..]);
            match Pieces(s)[i]
            case Hole(key, _) => Reads(here, key, next)
            case Lit(_) => forall key, rest :: !Reads(here, key, rest)
    decreases |s|
  {
    var m := MatchAt(s);
    var later := if m.None? then s[1..] else m.value.rest;
    assert Pieces(s)[1..] == Pieces(later);
    if i == 0 {
      SourceOfPieces(s);
      SourceOfPieces(later);
      assert Pieces(s)[0..] == Pieces(s);
      if m.Some? {
        MatchIff(s, m.value.key, m.value.rest);
      } else {
        forall key, rest
          ensures !Reads(s, key, rest)
        {
          MatchIff(s, key, rest);
        }
      }
    } else {
      PiecesExact(later, i - 1);
      assert Pieces(s)[i..] == Pieces(later)[i - 1..] && Pieces(s)[i + 1..] == Pieces(later)[i..];
    }
  }

  /** Without holes any filling gives the text back. */
  lemma {:induction false} FillWithoutHoles(pieces: seq<Piece>, value: string -> string)
    requires HoleKeys(pieces) == []
    ensures Fill(pieces, value) == Source(pieces)
  {
    if pieces != [] {
      assert pieces[0].Lit?;
      FillWithoutHoles(pieces[1..], value);
    }
  }
}
