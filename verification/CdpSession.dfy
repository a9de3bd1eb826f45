/** Any interleaving of commands, event waits, pops and drains on one CDP connection, against
    the history of its events. */
module CdpSession {
  import opened Wire
  import opened EventHistory
  import opened CdpConnection

  /** One call on the connection together with what its `recv`s yield. */
  datatype Call =
    | Command(stream: seq<Recv>)
    | WaitFor(name: string, stream: seq<Recv>)
    | Pop(name: string)
    | Drain(max: nat, stream: seq<Recv>)

  /** The connection, its command counter, and the events handed to callers so far. */
  datatype Session = Session(conn: Conn, nextId: int, delivered: seq<Event>)

  const OPEN := Session(NEW, 1, [])

  function Perform(s: Session, call: Call): Session {
    match call
    case Command(stream) => Session(AwaitReply(s.conn, s.nextId, stream).0, s.nextId + 1, s.delivered)
    case WaitFor(name, stream) =>
      var (c, r, _) := AwaitEvent(s.conn, name, stream);
      s.(conn := c, delivered := if r.Got? then s.delivered + [r.event] else s.delivered)
    case Pop(name) =>
      var (c, e) := Popped(s.conn, name);
      s.(conn := c, delivered := if e.Some? then s.delivered + [e.value] else s.delivered)
    case Drain(max, stream) => s.(conn := Drained(s.conn, max, stream).0)
  }

  function PerformAll(s: Session, calls: seq<Call>): Session
    decreases |calls|
  {
    if calls == [] then s else PerformAll(Perform(s, calls[0]), calls[1..])
  }

  /** The events one call sees, as operations on a history. */
  function OpsOf(s: Session, call: Call): seq<Op> {
    match call
    case Command(stream) => ArrivalsOf(stream[..AwaitReply(s.conn, s.nextId, stream).2])
    case WaitFor(name, stream) =>
      if Popped(s.conn, name).1.Some? then [Read(name)]
      else
        var (_, r, used) := AwaitArrival(s.conn, name, stream);
        if r.Got? && used >= 1 then ArrivalsOf(stream[..used - 1]) + [Pass(name, r.event.params)]
        else ArrivalsOf(stream[..used])
    case Pop(name) => if name == "" then [] else [Read(name)]
    case Drain(max, stream) =>
      var used := Drained(s.conn, max, stream).2;
      if used <= |stream| then ArrivalsOf(stream[..used]) else []
  }

  function AllOps(s: Session, calls: seq<Call>): seq<Op>
    decreases |calls|
  {
    if calls == [] then [] else OpsOf(s, calls[0]) + AllOps(Perform(s, calls[0]), calls[1..])
  }

  // ---- The connection follows the history ----

  ghost predicate Follows(h: History, s: Session) {
    && h.queue == s.conn.queue
    && |h.arrived| == s.conn.arrivals
    && h.taken == Stamps(s.delivered)
    && (forall i :: 0 <= i < |s.delivered| ==> s.delivered[i].stamp < |h.arrived| && h.arrived[s.delivered[i].stamp] == s.delivered[i])
  }

  lemma {:induction false} RunSplit(h: History, a: seq<Op>, b: seq<Op>, cap: nat)
    ensures Run(h, a + b, cap) == Run(Run(h, a, cap), b, cap)
    ensures ValidOps(h, a + b, cap) <==> ValidOps(h, a, cap) && ValidOps(Run(h, a, cap), b, cap)
    decreases |a|
  {
    if a == [] {
      assert a + b == b;
    } else {
      assert (a + b)[0] == a[0] && (a + b)[1..] == a[1..] + b;
      RunSplit(Step(h, a[0], cap), a[1..], b, cap);
    }
  }

  lemma {:induction false} ArrivalsFollow(h: History, s: Session, stream: seq<Recv>)
    requires Follows(h, s)
    ensures ValidOps(h, ArrivalsOf(stream), MAX_EVENT_QUEUE)
    ensures Follows(Run(h, ArrivalsOf(stream), MAX_EVENT_QUEUE), s.(conn := PushAll(s.conn, stream)))
    decreases |stream|
  {
    if stream != [] {
      if stream[0].Message? && stream[0].m.EventMsg? {
        var op := Arrive(stream[0].m.name, stream[0].m.params);
        var s1 := s.(conn := Pushed(s.conn, op.name, op.params));
        assert ArrivalsOf(stream)[0] == op && ArrivalsOf(stream)[1..] == ArrivalsOf(stream[1..]);
        ArrivalsFollow(Step(h, op, MAX_EVENT_QUEUE), s1, stream[1..]);
      } else {
        assert ArrivalsOf(stream) == ArrivalsOf(stream[1..]);
        ArrivalsFollow(h, s, stream[1..]);
      }
    }
  }

  lemma ReadFollows(h: History, s: Session, name: string)
    requires Follows(h, s) && Inv(h, MAX_EVENT_QUEUE) && name != ""
    ensures Follows(Step(h, Read(name), MAX_EVENT_QUEUE), Perform(s, Pop(name)))
  {
    var (q, e) := Take(h.queue, name);
    if e.Some? {
      StampsSnoc(s.delivered, e.value);
    }
  }

  lemma PassFollows(h: History, s: Session, name: string, params: Json)
    requires Follows(h, s) && (name == "" || forall e :: e in s.conn.queue ==> e.name != name)
    ensures Enabled(h, Pass(name, params))
    ensures var e := Event(name, params, s.conn.arrivals);
            Follows(Step(h, Pass(name, params), MAX_EVENT_QUEUE),
                    s.(conn := s.conn.(arrivals := s.conn.arrivals + 1), delivered := s.delivered + [e]))
  {
    StampsSnoc(s.delivered, Event(name, params, s.conn.arrivals));
  }

  lemma Single(h: History, op: Op, cap: nat)
    ensures Run(h, [op], cap) == Step(h, op, cap)
    ensures ValidOps(h, [op], cap) <==> Enabled(h, op)
  {
    assert [op][1..] == [];
  }

  /** Some events are queued, and one of a name of which none is queued is handed over. */
  lemma HandoverFollows(h: History, s: Session, stream: seq<Recv>, name: string, params: Json)
    requires Follows(h, s)
    requires name == "" || forall e :: e in PushAll(s.conn, stream).queue ==> e.name != name
    ensures var ops, c := ArrivalsOf(stream) + [Pass(name, params)], PushAll(s.conn, stream);
            && ValidOps(h, ops, MAX_EVENT_QUEUE)
            && Follows(Run(h, ops, MAX_EVENT_QUEUE),
                       s.(conn := c.(arrivals := c.arrivals + 1), delivered := s.delivered + [Event(name, params, c.arrivals)]))
  {
    var before, pass := ArrivalsOf(stream), Pass(name, params);
    ArrivalsFollow(h, s, stream);
    var h1 := Run(h, before, MAX_EVENT_QUEUE);
    PassFollows(h1, s.(conn := PushAll(s.conn, stream)), name, params);
    Single(h1, pass, MAX_EVENT_QUEUE);
    RunSplit(h, before, [pass], MAX_EVENT_QUEUE);
  }

  /** The wait finds nothing queued and turns to the stream. */
  lemma AwaitFollows(h: History, s: Session, name: string, stream: seq<Recv>)
    requires Follows(h, s) && Popped(s.conn, name).1.None?
    ensures ValidOps(h, OpsOf(s, WaitFor(name, stream)), MAX_EVENT_QUEUE)
    ensures Follows(Run(h, OpsOf(s, WaitFor(name, stream)), MAX_EVENT_QUEUE), Perform(s, WaitFor(name, stream)))
  {
    ArrivalQueuesOthers(s.conn, name, stream);
    var (_, r, used) := AwaitArrival(s.conn, name, stream);
    if r.Got? {
      if name != "" {
        NotQueuedBefore(s.conn, name, stream);
      }
      HandoverFollows(h, s, stream[..used - 1], name, r.event.params);
    } else {
      ArrivalsFollow(h, s, stream[..used]);
    }
  }

  lemma NotQueuedBefore(c: Conn, name: string, stream: seq<Recv>)
    requires name != "" && Popped(c, name).1.None? && AwaitArrival(c, name, stream).1.Got?
    ensures var used := AwaitArrival(c, name, stream).2;
            used >= 1 && forall e :: e in PushAll(c, stream[..used - 1]).queue ==> e.name != name
  {
    ArrivalQueuesOthers(c, name, stream);
    AwaitedNameNotQueued(c, name, stream);
  }

  lemma WaitFollows(h: History, s: Session, name: string, stream: seq<Recv>)
    requires Follows(h, s) && Inv(h, MAX_EVENT_QUEUE)
    ensures ValidOps(h, OpsOf(s, WaitFor(name, stream)), MAX_EVENT_QUEUE)
    ensures Follows(Run(h, OpsOf(s, WaitFor(name, stream)), MAX_EVENT_QUEUE), Perform(s, WaitFor(name, stream)))
  {
    if Popped(s.conn, name).1.Some? {
      ReadFollows(h, s, name);
      Single(h, Read(name), MAX_EVENT_QUEUE);
    } else {
      AwaitFollows(h, s, name, stream);
    }
  }

  lemma CallFollows(h: History, s: Session, call: Call)
    requires Follows(h, s) && Inv(h, MAX_EVENT_QUEUE)
    ensures ValidOps(h, OpsOf(s, call), MAX_EVENT_QUEUE)
    ensures Follows(Run(h, OpsOf(s, call), MAX_EVENT_QUEUE), Perform(s, call))
  {
    match call
    case Command(stream) =>
      ReplyQueuesAll(s.conn, s.nextId, stream);
      ArrivalsFollow(h, s, stream[..AwaitReply(s.conn, s.nextId, stream).2]);
    case WaitFor(name, stream) => WaitFollows(h, s, name, stream);
    case Pop(name) =>
      if name != "" {
        ReadFollows(h, s, name);
        Single(h, Read(name), MAX_EVENT_QUEUE);
      }
    case Drain(max, stream) =>
      DrainQueuesAll(s.conn, max, stream);
      ArrivalsFollow(h, s, stream[..Drained(s.conn, max, stream).2]);
  }

  /** Any sequence of calls is a valid history of its events. */
  lemma {:induction false} CallsFollow(h: History, s: Session, calls: seq<Call>)
    requires Follows(h, s) && Inv(h, MAX_EVENT_QUEUE)
    ensures ValidOps(h, AllOps(s, calls), MAX_EVENT_QUEUE)
    ensures var h' := Run(h, AllOps(s, calls), MAX_EVENT_QUEUE);
            Follows(h', PerformAll(s, calls)) && Inv(h', MAX_EVENT_QUEUE)
    decreases |calls|
  {
    if calls != [] {
      var ops := OpsOf(s, calls[0]);
      CallFollows(h, s, calls[0]);
      RunKeeps(h, ops, MAX_EVENT_QUEUE);
      CallsFollow(Run(h, ops, MAX_EVENT_QUEUE), Perform(s, calls[0]), calls[1..]);
      RunSplit(h, ops, AllOps(Perform(s, calls[0]), calls[1..]), MAX_EVENT_QUEUE);
    }
  }

  /** What callers may rely on: events of one name are handed out in the order they arrived, none
      twice, each as it arrived; and the queue is the newest part of what arrived and was not
      handed out. */
  ghost predicate Orderly(s: Session, h: History) {
    && (forall i, j :: 0 <= i < j < |s.delivered| ==> s.delivered[i].stamp != s.delivered[j].stamp)
    && (forall i, j :: 0 <= i < j < |s.delivered| && s.delivered[i].name == s.delivered[j].name ==>
          s.delivered[i].stamp < s.delivered[j].stamp)
    && (forall i :: 0 <= i < |s.delivered| ==>
          s.delivered[i].stamp < |h.arrived| && h.arrived[s.delivered[i].stamp] == s.delivered[i])
    && |s.conn.queue| <= MAX_EVENT_QUEUE
    && h.dropped <= |Unread(h.arrived, Stamps(s.delivered))|
    && s.conn.queue == Unread(h.arrived, Stamps(s.delivered))[h.dropped..]
  }

  lemma FollowingIsOrderly(s: Session, h: History)
    requires Follows(h, s) && Inv(h, MAX_EVENT_QUEUE)
    ensures Orderly(s, h)
  {
    NothingReadTwice(h, MAX_EVENT_QUEUE);
    assert forall i :: 0 <= i < |s.delivered| ==> h.taken[i] == s.delivered[i].stamp;
  }

  /** The stream theorem, for every mixture of commands, waits, pops and drains; an event is missing from
      the queue for each arrival that found it full, and for no other reason. */
  lemma EventsInOrder(calls: seq<Call>)
    ensures var ops := AllOps(OPEN, calls);
            && Orderly(PerformAll(OPEN, calls), Run(EMPTY, ops, MAX_EVENT_QUEUE))
            && Run(EMPTY, ops, MAX_EVENT_QUEUE).dropped == FullArrivals(EMPTY, ops, MAX_EVENT_QUEUE)
  {
    CallsFollow(EMPTY, OPEN, calls);
    RunLosses(EMPTY, AllOps(OPEN, calls), MAX_EVENT_QUEUE);
    FollowingIsOrderly(PerformAll(OPEN, calls), Run(EMPTY, AllOps(OPEN, calls), MAX_EVENT_QUEUE));
  }

  // ---- Overtaking ----

  /** Nothing was handed out while an older event of its name was left in the queue. */
  ghost predicate NoneOvertaken(s: Session) {
    forall i, j :: 0 <= i < |s.delivered| && 0 <= j < |s.conn.queue| && s.delivered[i].name == s.conn.queue[j].name ==>
      s.delivered[i].stamp < s.conn.queue[j].stamp
  }

  /** All waits and pops ask for one of these names. */
  predicate AsksFor(calls: seq<Call>, names: set<string>) {
    forall call :: call in calls && (call.WaitFor? || call.Pop?) ==> call.name in names
  }

  lemma OnlyAskedDelivered(s: Session, call: Call, names: set<string>)
    requires (call.WaitFor? || call.Pop?) ==> call.name in names
    requires forall e :: e in s.delivered ==> e.name in names
    ensures forall e :: e in Perform(s, call).delivered ==> e.name in names
  {
    if call.WaitFor? && Popped(s.conn, call.name).1.None? {
      ArrivalQueuesOthers(s.conn, call.name, call.stream);
    }
  }

  lemma {:induction false} OnlyAskedDeliveredEver(s: Session, calls: seq<Call>, names: set<string>)
    requires AsksFor(calls, names) && forall e :: e in s.delivered ==> e.name in names
    ensures forall e :: e in PerformAll(s, calls).delivered ==> e.name in names
    decreases |calls|
  {
    if calls != [] {
      assert calls[0] in calls;
      OnlyAskedDelivered(s, calls[0], names);
      OnlyAskedDeliveredEver(Perform(s, calls[0]), calls[1..], names);
    }
  }

  lemma NamedNeverOvertake(calls: seq<Call>, names: set<string>)
    requires AsksFor(calls, names) && "" !in names
    ensures NoneOvertaken(PerformAll(OPEN, calls))
  {
    var s, h := PerformAll(OPEN, calls), Run(EMPTY, AllOps(OPEN, calls), MAX_EVENT_QUEUE);
    CallsFollow(EMPTY, OPEN, calls);
    OnlyAskedDeliveredEver(OPEN, calls, names);
    forall i, j | 0 <= i < |s.delivered| && 0 <= j < |s.conn.queue| && s.delivered[i].name == s.conn.queue[j].name
      ensures s.delivered[i].stamp < s.conn.queue[j].stamp
    {
      assert s.delivered[i] in s.delivered;
      assert h.taken[i] == s.delivered[i].stamp && h.arrived[h.taken[i]] == s.delivered[i];
    }
  }

  const OLD := [Message(EventMsg("", "old"))]
  const NEWER := [Message(EventMsg("", "new"))]
  const BLANK_WAIT := [Drain(1, OLD), WaitFor("", NEWER)]

  /** An event with an empty method name is queued, but `pop_event("")` never looks for it, so
      waiting for "" hands out a newer one first. */
  lemma BlankNameJumpsTheQueue()
    ensures var s := PerformAll(OPEN, BLANK_WAIT);
            s.delivered == [Event("", "new", 1)] && s.conn.queue == [Event("", "old", 0)]
  {
    var s1 := Perform(OPEN, BLANK_WAIT[0]);
    assert OLD[1..] == [];
    assert s1.conn == Conn([Event("", "old", 0)], 1);
    assert BLANK_WAIT[1..][0] == BLANK_WAIT[1] && BLANK_WAIT[1..][1..] == [];
    assert PerformAll(OPEN, BLANK_WAIT) == PerformAll(s1, BLANK_WAIT[1..]) == Perform(s1, BLANK_WAIT[1]);
  }

  /** Callers who ask for these names never see an event overtake an older one of its name, whatever
      they call and whatever arrives, exactly when the blank name is not among them. */
  lemma NeverOvertakenIff(names: set<string>)
    ensures (forall calls :: AsksFor(calls, names) ==> NoneOvertaken(PerformAll(OPEN, calls))) <==> "" !in names
  {
    if "" in names {
      BlankNameJumpsTheQueue();
      var s := PerformAll(OPEN, BLANK_WAIT);
      assert s.delivered[0].name == s.conn.queue[0].name && s.delivered[0].stamp > s.conn.queue[0].stamp;
      assert AsksFor(BLANK_WAIT, names) && !NoneOvertaken(s);
    } else {
      forall calls | AsksFor(calls, names)
        ensures NoneOvertaken(PerformAll(OPEN, calls))
      {
        NamedNeverOvertake(calls, names);
      }
    }
  }
}
