/** `CdpConnection` of `session_cdp.py`: command replies and events arrive interleaved on one
    stream; waiting for one must not lose the other. */
module CdpConnection {
  import opened Wire
  import opened EventHistory

  const MAX_EVENT_QUEUE := 2000

  /** A decoded message: an event has a method and no id; a reply has an id. */
  datatype Incoming =
    | EventMsg(name: string, params: Json)
    | ReplyMsg(id: int, error: Option<Json>, result: Json)
    | OtherObject
    | NotAnObject

  /** What one `recv` yields. A stream is what the successive calls yield before the deadline. */
  datatype Recv = TimedOut | Undecodable | Broken(text: string) | Message(m: Incoming)

  datatype CommandResult = Result(result: Json) | Failed(text: string) | DeadlinePassed | Crashed

  datatype WaitResult = Got(event: Event) | Nothing | WaitFailed(text: string)

  /** `arrivals` numbers the events for the proofs; the source keeps no such counter. */
  datatype Conn = Conn(queue: seq<Event>, arrivals: nat)

  const NEW := Conn([], 0)

  // ---- Specification functions ----

  function Pushed(c: Conn, name: string, params: Json): Conn {
    Conn(Push(c.queue, Event(name, params, c.arrivals), MAX_EVENT_QUEUE), c.arrivals + 1)
  }

  /** Wait for the reply with this id; events met on the way are queued. Also returns how much of
      the stream was used. */
  function AwaitReply(c: Conn, expected: int, stream: seq<Recv>): (r: (Conn, CommandResult, nat))
    ensures r.2 <= |stream|
    decreases |stream|
  {
    if stream == [] then (c, DeadlinePassed, 0)
    else
      match stream[0]
      case Broken(text) => (c, Failed(text), 1)
      case Message(NotAnObject) => (c, Crashed, 1)
      case Message(ReplyMsg(id, error, result)) =>
        if id == expected then (c, if error.Some? then Failed(error.value) else Result(result), 1)
        else Shift(AwaitReply(c, expected, stream[1..]))
      case Message(EventMsg(name, params)) => Shift(AwaitReply(Pushed(c, name, params), expected, stream[1..]))
      case _ => Shift(AwaitReply(c, expected, stream[1..]))
  }

  function Shift<R>(r: (Conn, R, nat)): (Conn, R, nat) {
    (r.0, r.1, r.2 + 1)
  }

  function Popped(c: Conn, name: string): (Conn, Option<Event>) {
    if name == "" then (c, None)
    else var (q, e) := Take(c.queue, name); (c.(queue := q), e)
  }

  function AwaitArrival(c: Conn, name: string, stream: seq<Recv>): (r: (Conn, WaitResult, nat))
    ensures r.2 <= |stream|
    decreases |stream|
  {
    if stream == [] then (c, Nothing, 0)
    else
      match stream[0]
      case Broken(text) => (c, WaitFailed(text), 1)
      case Message(EventMsg(n, params)) =>
        if n == name then (c.(arrivals := c.arrivals + 1), Got(Event(n, params, c.arrivals)), 1)
        else Shift(AwaitArrival(Pushed(c, n, params), name, stream[1..]))
      case _ => Shift(AwaitArrival(c, name, stream[1..]))
  }

  function AwaitEvent(c: Conn, name: string, stream: seq<Recv>): (Conn, WaitResult, nat) {
    var (c', e) := Popped(c, name);
    if e.Some? then (c', Got(e.value), 0) else AwaitArrival(c, name, stream)
  }

  /** Take up to `max` buffered messages, stopping at the first that is not an event. */
  function Drained(c: Conn, max: nat, stream: seq<Recv>): (Conn, nat, nat)
    decreases max
  {
    if max == 0 || stream == [] then (c, 0, 0)
    else
      match stream[0]
      case Message(EventMsg(name, params)) =>
        var (c', n, used) := Drained(Pushed(c, name, params), max - 1, stream[1..]);
        (c', n + 1, used + 1)
      case Undecodable => Shift(Drained(c, max - 1, stream[1..]))
      case _ => (c, 0, 1)
  }

  // ---- The connection object ----

  class CdpConnection {
    var queue: seq<Event>
    var arrivals: nat
    var nextId: int

    ghost function State(): Conn
      reads this
    {
      Conn(queue, arrivals)
    }

    constructor ()
      ensures State() == NEW && nextId == 1
    {
      queue, arrivals, nextId := [], 0, 1;
    }

    method PushEvent(name: string, params: Json)
      modifies this`queue, this`arrivals
      ensures State() == Pushed(old(State()), name, params)
    {
      queue := queue + [Event(name, params, arrivals)];
      arrivals := arrivals + 1;
      if |queue| > MAX_EVENT_QUEUE {
        queue := queue[|queue| - MAX_EVENT_QUEUE..];
      }
    }

    method PopEvent(name: string) returns (e: Option<Event>)
      modifies this`queue
      ensures (State(), e) == Popped(old(State()), name)
    {
      if name == "" {
        return None;
      }
      for i := 0 to |queue|
        invariant queue == old(queue)
        invariant forall j :: 0 <= j < i ==> queue[j].name != name
      {
        var ev := queue[i];
        if ev.name == name {
          FindIs(queue, name, i);
          queue := queue[..i] + queue[i + 1..];
          return Some(ev);
        }
      }
      FindIs(queue, name, |queue|);
      return None;
    }

    /** Allocates the id of a command and waits for its reply. */
    method Send(stream: seq<Recv>) returns (id: int, r: CommandResult, used: nat)
      modifies this
      ensures id == old(nextId) && nextId == old(nextId) + 1
      ensures (State(), r, used) == AwaitReply(old(State()), id, stream)
    {
      id := nextId;
      nextId := nextId + 1;
      r, used := RecvUntil(id, stream);
    }

    method RecvUntil(expected: int, stream: seq<Recv>) returns (r: CommandResult, used: nat)
      modifies this`queue, this`arrivals
      ensures (State(), r, used) == AwaitReply(old(State()), expected, stream)
    {
      assert stream[0..] == stream;
      for i := 0 to |stream|
        invariant AwaitReply(old(State()), expected, stream) == After(i, AwaitReply(State(), expected, stream[i..]))
      {
        assert stream[i..][0] == stream[i] && stream[i..][1..] == stream[i + 1..];
        match stream[i] {
          case Broken(text) => return Failed(text), i + 1;
          case Message(NotAnObject) => return Crashed, i + 1;
          case Message(ReplyMsg(id, error, result)) =>
            if id == expected {
              return if error.Some? then Failed(error.value) else Result(result), i + 1;
            }
          case Message(EventMsg(name, params)) => PushEvent(name, params);
          case _ =>
        }
      }
      assert stream[|stream|..] == [];
      return DeadlinePassed, |stream|;
    }

    method WaitForEvent(name: string, stream: seq<Recv>) returns (r: WaitResult, used: nat)
      modifies this`queue, this`arrivals
      ensures (State(), r, used) == AwaitEvent(old(State()), name, stream)
    {
      var queued := PopEvent(name);
      if queued.Some? {
        return Got(queued.value), 0;
      }
      assert State() == old(State());
      assert stream[0..] == stream;
      for i := 0 to |stream|
        invariant AwaitArrival(old(State()), name, stream) == After(i, AwaitArrival(State(), name, stream[i..]))
      {
        assert stream[i..][0] == stream[i] && stream[i..][1..] == stream[i + 1..];
        match stream[i] {
          case Broken(text) => return WaitFailed(text), i + 1;
          case Message(EventMsg(n, params)) =>
            if n == name {
              arrivals := arrivals + 1;
              return Got(Event(n, params, arrivals - 1)), i + 1;
            }
            PushEvent(n, params);
          case _ =>
        }
      }
      assert stream[|stream|..] == [];
      return Nothing, |stream|;
    }

    method DrainEvents(max: nat, stream: seq<Recv>) returns (drained: nat, used: nat)
      modifies this`queue, this`arrivals
      ensures (State(), drained, used) == Drained(old(State()), max, stream)
    {
      drained, used := 0, 0;
      assert stream[0..] == stream;
      for k := 0 to max
        invariant used <= |stream|
        invariant var rest := Drained(State(), max - k, stream[used..]);
                  Drained(old(State()), max, stream) == (rest.0, drained + rest.1, used + rest.2)
      {
        if used == |stream| {
          return;
        }
        assert stream[used..][0] == stream[used] && stream[used..][1..] == stream[used + 1..];
        match stream[used] {
          case Undecodable =>
          case Message(EventMsg(name, params)) =>
            PushEvent(name, params);
            drained := drained + 1;
          case _ =>
            used := used + 1;
            return;
        }
        used := used + 1;
      }
    }
  }

  // ---- Command replies ----

  /** What ends the wait for a reply. */
  predicate EndsWait(r: Recv, expected: int) {
    r.Broken? || (r.Message? && (r.m.NotAnObject? || (r.m.ReplyMsg? && r.m.id == expected)))
  }

  function Ending(r: Recv): CommandResult
    requires r.Broken? || r.Message?
  {
    match r
    case Broken(text) => Failed(text)
    case Message(ReplyMsg(_, error, result)) => if error.Some? then Failed(error.value) else Result(result)
    case Message(_) => Crashed
  }

  /** A command gets the first reply bearing its own id (or the first transport failure before it),
      and times out only if the stream has neither; replies to other ids are skipped. */
  lemma {:induction false} ReplyBearsId(c: Conn, expected: int, stream: seq<Recv>)
    ensures var (_, r, used) := AwaitReply(c, expected, stream);
            && (forall j :: 0 <= j < used - 1 ==> !EndsWait(stream[j], expected))
            && (if r.DeadlinePassed? then used == |stream| && forall j :: 0 <= j < |stream| ==> !EndsWait(stream[j], expected)
                else used >= 1 && EndsWait(stream[used - 1], expected) && r == Ending(stream[used - 1]))
    decreases |stream|
  {
    if stream != [] && !EndsWait(stream[0], expected) {
      var c' := if stream[0].Message? && stream[0].m.EventMsg? then Pushed(c, stream[0].m.name, stream[0].m.params) else c;
      ReplyBearsId(c', expected, stream[1..]);
      var (_, r, used) := AwaitReply(c', expected, stream[1..]);
      assert AwaitReply(c, expected, stream).2 == used + 1;
      forall j | 0 <= j < used
        ensures !EndsWait(stream[j], expected)
      {
        if j > 0 {
          assert stream[j] == stream[1..][j - 1];
        }
      }
      if r.DeadlinePassed? {
        forall j | 0 <= j < |stream|
          ensures !EndsWait(stream[j], expected)
        {
          if j > 0 {
            assert stream[j] == stream[1..][j - 1];
          }
        }
      }
    }
  }

  // ---- Event waits ----

  predicate IsEvent(r: Recv) {
    r.Message? && r.m.EventMsg?
  }

  /** What ends the wait for an event. */
  predicate EndsEventWait(r: Recv, name: string) {
    r.Broken? || (IsEvent(r) && r.m.name == name)
  }

  predicate NoEnd(stream: seq<Recv>, n: nat, name: string) {
    forall j :: 0 <= j < n && j < |stream| ==> !EndsEventWait(stream[j], name)
  }

  lemma NoEndLater(stream: seq<Recv>, n: nat, name: string)
    requires stream != [] && n <= |stream| - 1
    requires !EndsEventWait(stream[0], name) && NoEnd(stream[1..], n, name)
    ensures NoEnd(stream, n + 1, name)
  {
    forall j | 0 <= j < n + 1 && j < |stream|
      ensures !EndsEventWait(stream[j], name)
    {
      assert j > 0 ==> stream[j] == stream[1..][j - 1];
    }
  }

  /** The wait gives up only when it has used up the whole stream and there was neither an event of the
      name nor a transport failure; otherwise it ends at the first such element with what that says. */
  lemma {:induction false} ArrivalIsFirst(c: Conn, name: string, stream: seq<Recv>)
    ensures var (_, r, used) := AwaitArrival(c, name, stream);
            if r.Nothing? then used == |stream| && NoEnd(stream, |stream|, name)
            else
              && used >= 1 && NoEnd(stream, used - 1, name)
              && match stream[used - 1]
                 case Broken(text) => r == WaitFailed(text)
                 case Message(EventMsg(n, params)) => n == name && r.Got? && r.event.name == name && r.event.params == params
                 case _ => false
    decreases |stream|
  {
    if stream != [] && !EndsEventWait(stream[0], name) {
      var c1 := if IsEvent(stream[0]) then Pushed(c, stream[0].m.name, stream[0].m.params) else c;
      ArrivalIsFirst(c1, name, stream[1..]);
      var (_, r, used) := AwaitArrival(c1, name, stream[1..]);
      assert AwaitArrival(c, name, stream).2 == used + 1 && AwaitArrival(c, name, stream).1 == r;
      NoEndLater(stream, if r.Nothing? then used else used - 1, name);
      assert used >= 1 ==> stream[used] == stream[1..][used - 1];
    }
  }

  /** An event of a name that is not blank is looked for in the queue first; then nothing is received. */
  lemma QueuedFirst(c: Conn, name: string, stream: seq<Recv>)
    ensures var (c', r, used) := AwaitEvent(c, name, stream);
            if name != "" && exists e :: e in c.queue && e.name == name
            then r == Got(c.queue[Find(c.queue, name)]) && used == 0
                 && c' == c.(queue := RemoveAt(c.queue, Find(c.queue, name)))
            else (c', r, used) == AwaitArrival(c, name, stream)
  {
    if e :| e in c.queue && e.name == name {
      var i :| 0 <= i < |c.queue| && c.queue[i] == e;
      assert Find(c.queue, name) <= i;
    }
  }

  // ---- Draining ----

  /** Draining goes on after events and undecodable messages. */
  predicate Drainable(r: Recv) {
    r.Undecodable? || IsEvent(r)
  }

  /** Draining takes messages until the given number, the end of what is buffered, or the first message
      that is neither an event nor undecodable, which is lost; it counts the events it queued. */
  lemma {:induction false} DrainTakesAll(c: Conn, max: nat, stream: seq<Recv>)
    ensures var (_, n, used) := Drained(c, max, stream);
            && used <= max && used <= |stream| && n == |ArrivalsOf(stream[..used])|
            && (forall j :: 0 <= j < used - 1 ==> Drainable(stream[j]))
            && (used < max && used < |stream| ==> used >= 1 && !Drainable(stream[used - 1]))
    decreases max
  {
    if max != 0 && stream != [] {
      var used := Drained(c, max, stream).2;
      if Drainable(stream[0]) {
        var c1 := if IsEvent(stream[0]) then Pushed(c, stream[0].m.name, stream[0].m.params) else c;
        DrainTakesAll(c1, max - 1, stream[1..]);
        assert Drained(c1, max - 1, stream[1..]).2 == used - 1;
        assert stream[..used][0] == stream[0] && stream[..used][1..] == stream[1..][..used - 1];
        assert forall j :: 1 <= j < |stream| ==> stream[j] == stream[1..][j - 1];
      } else {
        assert stream[..used] == [stream[0]] && [stream[0]][1..] == [];
      }
    }
  }

  // ---- Events ----

  /** The events on a piece of stream, as arrivals of a history. */
  function ArrivalsOf(stream: seq<Recv>): seq<Op> {
    if stream == [] then []
    else
      (if stream[0].Message? && stream[0].m.EventMsg? then [Arrive(stream[0].m.name, stream[0].m.params)] else [])
      + ArrivalsOf(stream[1..])
  }

  function PushAll(c: Conn, stream: seq<Recv>): Conn
    decreases |stream|
  {
    if stream == [] then c
    else
      PushAll(if stream[0].Message? && stream[0].m.EventMsg? then Pushed(c, stream[0].m.name, stream[0].m.params) else c,
              stream[1..])
  }

  /** Waiting for a reply queues every event met on the way, in order. */
  lemma {:induction false} ReplyQueuesAll(c: Conn, expected: int, stream: seq<Recv>)
    ensures var (c', _, used) := AwaitReply(c, expected, stream); c' == PushAll(c, stream[..used])
    decreases |stream|
  {
    if stream != [] {
      var c1 := if stream[0].Message? && stream[0].m.EventMsg? then Pushed(c, stream[0].m.name, stream[0].m.params) else c;
      var used := AwaitReply(c, expected, stream).2;
      assert stream[..used][0] == stream[0];
      if EndsWait(stream[0], expected) {
        assert stream[..used][1..] == [];
      } else {
        ReplyQueuesAll(c1, expected, stream[1..]);
        assert stream[..used][1..] == stream[1..][..used - 1];
      }
    }
  }

  /** So does draining. */
  lemma {:induction false} DrainQueuesAll(c: Conn, max: nat, stream: seq<Recv>)
    ensures var (c', _, used) := Drained(c, max, stream); used <= |stream| && c' == PushAll(c, stream[..used])
    decreases max
  {
    if max != 0 && stream != [] {
      var c1 := if stream[0].Message? && stream[0].m.EventMsg? then Pushed(c, stream[0].m.name, stream[0].m.params) else c;
      DrainQueuesAll(c1, max - 1, stream[1..]);
      var used := Drained(c, max, stream).2;
      if used <= |stream| {
        assert stream[..used][0] == stream[0];
        if stream[0].Undecodable? || (stream[0].Message? && stream[0].m.EventMsg?) {
          assert stream[..used][1..] == stream[1..][..used - 1];
        } else {
          assert stream[..used][1..] == [];
        }
      }
    }
  }

  /** While waiting for an event none of its name gets queued. */
  lemma {:induction false} AwaitedNameNotQueued(c: Conn, name: string, stream: seq<Recv>)
    requires forall e :: e in c.queue ==> e.name != name
    ensures forall e :: e in AwaitArrival(c, name, stream).0.queue ==> e.name != name
    decreases |stream|
  {
    if stream != [] && !stream[0].Broken? && !(stream[0].Message? && stream[0].m.EventMsg? && stream[0].m.name == name) {
      var c1 := if stream[0].Message? && stream[0].m.EventMsg? then Pushed(c, stream[0].m.name, stream[0].m.params) else c;
      AwaitedNameNotQueued(c1, name, stream[1..]);
    }
  }

  /** Waiting for an event queues all others; the awaited one is handed over without being queued. */
  lemma {:induction false} ArrivalQueuesOthers(c: Conn, name: string, stream: seq<Recv>)
    ensures var (c', r, used) := AwaitArrival(c, name, stream);
            if r.Got? then
              && used >= 1
              && var before := PushAll(c, stream[..used - 1]);
                 && c' == before.(arrivals := before.arrivals + 1)
                 && r.event.name == name && r.event.stamp == before.arrivals
                 && stream[used - 1] == Message(EventMsg(name, r.event.params))
            else c' == PushAll(c, stream[..used])
    decreases |stream|
  {
    if stream != [] && !stream[0].Broken? && !(stream[0].Message? && stream[0].m.EventMsg? && stream[0].m.name == name) {
      var c1 := if stream[0].Message? && stream[0].m.EventMsg? then Pushed(c, stream[0].m.name, stream[0].m.params) else c;
      ArrivalQueuesOthers(c1, name, stream[1..]);
      var (_, r, used) := AwaitArrival(c, name, stream);
      var n := if r.Got? then used - 1 else used;
      assert n >= 1 ==> stream[..n][0] == stream[0] && stream[..n][1..] == stream[1..][..n - 1];
    } else if stream != [] && stream[0].Broken? {
      assert stream[..1][1..] == [];
    }
  }

  /** Results counted from an earlier point of the stream. */
  function After<R>(i: nat, r: (Conn, R, nat)): (Conn, R, nat) {
    (r.0, r.1, r.2 + i)
  }
}
