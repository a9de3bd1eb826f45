/** Length-prefixed frames: the "Native messaging protocol" of Chrome with the 4-byte length
    fixed to little-endian (`mcp_servers/browser/native_broker.py`). */
module Framing {
  import opened Wire

  newtype byte = x: int | 0 <= x < 256

  const MAX_FRAME_BYTES := 8_000_000

  const TWO_32 := 0x1_0000_0000

  /** JSON text as UTF-8 bytes. `decode` is None for bytes that are not a JSON object. */
  datatype Codec<!M> = Codec(encode: M -> seq<byte>, decode: seq<byte> -> Option<M>)

  ghost predicate Faithful<M(!new)>(k: Codec<M>) {
    forall m :: k.decode(k.encode(m)) == Some(m)
  }

  // ---- Printing ----

  function LittleEndian(n: nat): (b: seq<byte>)
    requires n < TWO_32
  {
    [(n % 256) as byte, (n / 256 % 256) as byte, (n / 256 / 256 % 256) as byte, (n / 256 / 256 / 256) as byte]
  }

  function FromLittleEndian(b: seq<byte>): (n: nat)
    requires |b| == 4
  {
    b[0] as nat + 256 * (b[1] as nat + 256 * (b[2] as nat + 256 * b[3] as nat))
  }

  lemma LittleEndianRoundTrip(n: nat)
    requires n < TWO_32
    ensures FromLittleEndian(LittleEndian(n)) == n
  {
  }

  lemma FromLittleEndianRoundTrip(b: seq<byte>)
    requires |b| == 4
    ensures FromLittleEndian(b) < TWO_32 && LittleEndian(FromLittleEndian(b)) == b
  {
    var n := FromLittleEndian(b);
    assert n / 256 == b[1] as nat + 256 * (b[2] as nat + 256 * b[3] as nat);
    assert n / 256 / 256 == b[2] as nat + 256 * b[3] as nat;
  }

  /** One written frame; a payload of 4 GiB or more cannot be packed. There is no check against
      MAX_FRAME_BYTES on the writing side. */
  function Frame(payload: seq<byte>): (f: Option<seq<byte>>) {
    if |payload| < TWO_32 then Some(LittleEndian(|payload|) + payload) else None
  }

  // ---- Parsing ----

  /** The payload of the first frame and the bytes after it, if the stream starts with a
      complete frame of acceptable length. */
  function Parse(s: seq<byte>): (r: Option<(seq<byte>, seq<byte>)>)
    ensures r.Some? ==> |r.value.1| < |s|
  {
    if |s| < 4 then None
    else
      var n := FromLittleEndian(s[..4]);
      if n <= 0 || n > MAX_FRAME_BYTES || |s| < 4 + n then None else Some((s[4..4 + n], s[4 + n..]))
  }

  /** Parsing accepts exactly what printing produces, up to the size limits. */
  lemma ParseIffFrame(s: seq<byte>, payload: seq<byte>, rest: seq<byte>)
    ensures Parse(s) == Some((payload, rest))
       <==> 1 <= |payload| <= MAX_FRAME_BYTES && s == LittleEndian(|payload|) + payload + rest
  {
    if 1 <= |payload| <= MAX_FRAME_BYTES && s == LittleEndian(|payload|) + payload + rest {
      LittleEndianRoundTrip(|payload|);
      assert s[..4] == LittleEndian(|payload|);
      assert s[4..4 + |payload|] == payload && s[4 + |payload|..] == rest;
    }
    if Parse(s) == Some((payload, rest)) {
      FromLittleEndianRoundTrip(s[..4]);
      assert s == s[..4] + payload + rest;
    }
  }

  // ---- Reading from a descriptor ----

  /** A file descriptor: each read returns some non-empty part of what is left, as much as the
      operating system cares to give, and nothing at end of stream. */
  class Descriptor {
    var left: seq<byte>

    constructor (all: seq<byte>)
      ensures left == all
    {
      left := all;
    }

    method Read(n: nat) returns (chunk: seq<byte>)
      requires n > 0
      modifies this
      ensures old(left) == chunk + left && |chunk| <= n
      ensures chunk == [] <==> old(left) == []
    {
      if left == [] {
        return [];
      }
      var k :| 1 <= k <= n && k <= |left|;
      chunk := left[..k];
      left := left[k..];
    }

    /** `_read_exact_fd`: None at end of stream, whatever was read so far being lost. */
    method ReadExact(n: nat) returns (r: Option<seq<byte>>)
      modifies this
      ensures r == if n <= |old(left)| then Some(old(left)[..n]) else None
      ensures left == if n <= |old(left)| then old(left)[n..] else []
    {
      var buf: seq<byte> := [];
      while |buf| < n
        invariant |buf| <= n && old(left) == buf + left
        decreases n - |buf|
      {
        var chunk := Read(n - |buf|);
        if chunk == [] {
          return None;
        }
        buf := buf + chunk;
      }
      assert old(left)[..n] == buf && old(left)[n..] == left;
      return Some(buf);
    }

    /** `read_native_message`, up to JSON decoding. */
    method ReadFrame() returns (r: Option<seq<byte>>)
      modifies this
      ensures r == if Parse(old(left)).Some? then Some(Parse(old(left)).value.0) else None
      ensures Parse(old(left)).Some? ==> left == Parse(old(left)).value.1
      ensures old(left) == [] ==> left == []
    {
      var header := ReadExact(4);
      if header.None? {
        return None;
      }
      var n := FromLittleEndian(header.value);
      ghost var s := old(left);
      assert left == s[4..];
      if n <= 0 || n > MAX_FRAME_BYTES {
        return None;
      }
      assert 4 + n <= |s| ==> left[..n] == s[4..4 + n] && left[n..] == s[4 + n..];
      r := ReadExact(n);
    }

    /** The extension loop: deliver messages until one cannot be read. */
    method ReadAll<M>(k: Codec<M>) returns (ms: seq<M>)
      modifies this
      ensures ms == Delivered(k, old(left))
      ensures StopsAt(k, old(left)) == [] ==> left == []
    {
      ms := [];
      while true
        invariant Delivered(k, old(left)) == ms + Delivered(k, left)
        invariant StopsAt(k, old(left)) == StopsAt(k, left)
        decreases |left|
      {
        ghost var s := left;
        var raw := ReadFrame();
        if raw.None? {
          DeliversNone(k, s);
          return;
        }
        var m := k.decode(raw.value);
        if m.None? {
          DeliversNone(k, s);
          return;
        }
        DeliversOne(k, s);
        ms := ms + [m.value];
      }
    }
  }

  /** A growing output stream. */
  class Sink {
    var sent: seq<byte>

    constructor ()
      ensures sent == []
    {
      sent := [];
    }

    /** `write_native_message` after encoding: length, then payload; packing the length fails
        for 4 GiB and more, before anything is written. */
    method WriteFrame(payload: seq<byte>) returns (ok: bool)
      modifies this
      ensures ok <==> Frame(payload).Some?
      ensures sent == old(sent) + (if ok then Frame(payload).value else [])
    {
      if |payload| >= TWO_32 {
        return false;
      }
      sent := sent + LittleEndian(|payload|);
      sent := sent + payload;
      return true;
    }
  }

  /** The messages a stream delivers: parse and decode frames until one fails. */
  function Delivered<M>(k: Codec<M>, s: seq<byte>): (ms: seq<M>)
    decreases |s|
  {
    var r := Parse(s);
    if r.None? then []
    else
      var m := k.decode(r.value.0);
      if m.None? then [] else [m.value] + Delivered(k, r.value.1)
  }

  /** What is left where delivery stops: nothing at a clean end of stream, or else the bytes from the
      frame on that could not be read. */
  function StopsAt<M>(k: Codec<M>, s: seq<byte>): (rest: seq<byte>)
    decreases |s|
  {
    var r := Parse(s);
    if r.None? || k.decode(r.value.0).None? then s else StopsAt(k, r.value.1)
  }

  predicate NextReadable<M>(k: Codec<M>, s: seq<byte>) {
    Parse(s).Some? && k.decode(Parse(s).value.0).Some?
  }

  lemma DeliversNone<M>(k: Codec<M>, s: seq<byte>)
    requires !NextReadable(k, s)
    ensures Delivered(k, s) == [] && StopsAt(k, s) == s
  {
  }

  lemma DeliversOne<M>(k: Codec<M>, s: seq<byte>)
    requires NextReadable(k, s)
    ensures Delivered(k, s) == [k.decode(Parse(s).value.0).value] + Delivered(k, Parse(s).value.1)
    ensures StopsAt(k, s) == StopsAt(k, Parse(s).value.1)
  {
  }

  // ---- Round trips ----

  /** The stream written for a list of messages. */
  function Written<M>(k: Codec<M>, ms: seq<M>): (s: seq<byte>)
    requires forall m :: m in ms ==> |k.encode(m)| < TWO_32
  {
    if ms == [] then [] else Frame(k.encode(ms[0])).value + Written(k, ms[1..])
  }

  predicate Readable<M>(k: Codec<M>, m: M) {
    1 <= |k.encode(m)| <= MAX_FRAME_BYTES
  }

  /** The messages before the first one whose encoding the reader rejects. */
  function ReadablePrefix<M>(k: Codec<M>, ms: seq<M>): (p: seq<M>) {
    if ms == [] || !Readable(k, ms[0]) then [] else [ms[0]] + ReadablePrefix(k, ms[1..])
  }

  /** Reading back what was written delivers the messages up to the first unreadable one, under
      any chunking of the reads, and stops there. */
  lemma {:induction false} ReadBack<M(!new)>(k: Codec<M>, ms: seq<M>)
    requires Faithful(k) && forall m :: m in ms ==> |k.encode(m)| < TWO_32
    ensures var n := |ReadablePrefix(k, ms)|;
            && Delivered(k, Written(k, ms)) == ReadablePrefix(k, ms)
            && n <= |ms| && StopsAt(k, Written(k, ms)) == Written(k, ms[n..])
  {
    if ms != [] {
      var payload := k.encode(ms[0]);
      var rest := Written(k, ms[1..]);
      var s := Written(k, ms);
      assert s == LittleEndian(|payload|) + payload + rest;
      if Readable(k, ms[0]) {
        ParseIffFrame(s, payload, rest);
        ReadBack(k, ms[1..]);
        assert ms[|ReadablePrefix(k, ms)|..] == ms[1..][|ReadablePrefix(k, ms[1..])|..];
      } else {
        LittleEndianRoundTrip(|payload|);
        assert s[..4] == LittleEndian(|payload|);
      }
    }
  }

  lemma {:induction false} PrefixIsAllIff<M>(k: Codec<M>, ms: seq<M>)
    ensures ReadablePrefix(k, ms) == ms <==> forall m :: m in ms ==> Readable(k, m)
  {
    if ms != [] {
      PrefixIsAllIff(k, ms[1..]);
      assert ms == [ms[0]] + ms[1..];
      if !Readable(k, ms[0]) {
        assert ms[0] in ms;
      }
    }
  }

  lemma SomethingWritten<M>(k: Codec<M>, ms: seq<M>)
    requires forall m :: m in ms ==> |k.encode(m)| < TWO_32
    ensures Written(k, ms) == [] <==> ms == []
  {
    if ms != [] {
      assert |Written(k, ms)| >= 4;
    }
  }

  lemma {:induction false} PrefixIsPrefix<M>(k: Codec<M>, ms: seq<M>)
    ensures ReadablePrefix(k, ms) <= ms
  {
    if ms != [] && Readable(k, ms[0]) {
      PrefixIsPrefix(k, ms[1..]);
      assert ms == [ms[0]] + ms[1..];
    }
  }

  /** Writing then reading returns the same list exactly when every encoding has between 1 and 8,000,000
      bytes, and exactly then the reader ends at the end of the stream and not at a frame it rejects. */
  lemma RoundTripIff<M(!new)>(k: Codec<M>, ms: seq<M>)
    requires Faithful(k) && forall m :: m in ms ==> |k.encode(m)| < TWO_32
    ensures Delivered(k, Written(k, ms)) == ms <==> forall m :: m in ms ==> Readable(k, m)
    ensures StopsAt(k, Written(k, ms)) == [] <==> forall m :: m in ms ==> Readable(k, m)
  {
    ReadBack(k, ms);
    PrefixIsAllIff(k, ms);
    PrefixIsPrefix(k, ms);
    SomethingWritten(k, ms[|ReadablePrefix(k, ms)|..]);
  }
}
