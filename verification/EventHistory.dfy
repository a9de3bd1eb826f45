/** Bounded event queues, read by event name.

    Shared by the CDP connection (`session_cdp.py`) and the extension gateways
    (`extension_gateway.py`, `extension_gateway_native_peer.py`): arrivals are appended, the oldest
    entry falls off a full queue, and a reader takes the oldest entry of the name it asks for. */
module EventHistory {
  import opened Wire

  /** `stamp` numbers the arrivals; only the proofs look at it. */
  datatype Event = Event(name: string, params: Json, stamp: nat)

  // ---- The queue operations ----

  /** Append, then keep the newest `cap` entries. */
  function Push(q: seq<Event>, e: Event, cap: nat): (r: seq<Event>)
    ensures |r| <= |q| + 1
  {
    if |q| + 1 > cap then (q + [e])[|q| + 1 - cap..] else q + [e]
  }

  /** The position of the first entry with this name, or |q|. */
  function Find(q: seq<Event>, name: string): (i: nat)
    ensures i <= |q|
    ensures i < |q| ==> q[i].name == name
    ensures forall j :: 0 <= j < i ==> q[j].name != name
  {
    if q == [] || q[0].name == name then 0 else 1 + Find(q[1..], name)
  }

  lemma {:induction false} FindIs(q: seq<Event>, name: string, i: nat)
    requires i <= |q| && (i < |q| ==> q[i].name == name)
    requires forall j :: 0 <= j < i ==> q[j].name != name
    ensures Find(q, name) == i
  {
    if i > 0 {
      FindIs(q[1..], name, i - 1);
    }
  }

  function RemoveAt(q: seq<Event>, i: nat): (r: seq<Event>)
    requires i < |q|
    ensures |r| == |q| - 1
  {
    q[..i] + q[i + 1..]
  }

  function Take(q: seq<Event>, name: string): (seq<Event>, Option<Event>) {
    var i := Find(q, name);
    if i < |q| then (RemoveAt(q, i), Some(q[i])) else (q, None)
  }

  // ---- Histories ----

  /** An event arrives and is queued; one arrives and is handed straight to a reader who found
      none of its name queued; a reader takes from the queue. */
  datatype Op = Arrive(name: string, params: Json) | Pass(name: string, params: Json) | Read(name: string)

  /** What happened so far: all arrivals, the stamps handed to readers in that order, how many
      unread events fell off, and the queue. */
  datatype History = History(arrived: seq<Event>, taken: seq<nat>, dropped: nat, queue: seq<Event>)

  const EMPTY := History([], [], 0, [])

  function Arrival(h: History, name: string, params: Json): Event {
    Event(name, params, |h.arrived|)
  }

  /** Readers never look for the blank name, so they do not notice queued events of that name. */
  predicate Enabled(h: History, op: Op) {
    && (op.Read? ==> op.name != "")
    && (op.Pass? && op.name != "" ==> Find(h.queue, op.name) == |h.queue|)
  }

  function Step(h: History, op: Op, cap: nat): History {
    match op
    case Arrive(name, params) =>
      var e := Arrival(h, name, params);
      h.(arrived := h.arrived + [e],
         queue := Push(h.queue, e, cap),
         dropped := if |h.queue| + 1 > cap then h.dropped + 1 else h.dropped)
    case Pass(name, params) =>
      var e := Arrival(h, name, params);
      h.(arrived := h.arrived + [e], taken := h.taken + [e.stamp])
    case Read(name) =>
      var (q, e) := Take(h.queue, name);
      if e.Some? then h.(queue := q, taken := h.taken + [e.value.stamp]) else h
  }

  function Run(h: History, ops: seq<Op>, cap: nat): History
    decreases |ops|
  {
    if ops == [] then h else Run(Step(h, ops[0], cap), ops[1..], cap)
  }

  ghost predicate ValidOps(h: History, ops: seq<Op>, cap: nat)
    decreases |ops|
  {
    ops != [] ==> Enabled(h, ops[0]) && ValidOps(Step(h, ops[0], cap), ops[1..], cap)
  }

  function Stamps(events: seq<Event>): seq<nat> {
    seq(|events|, i requires 0 <= i < |events| => events[i].stamp)
  }

  lemma StampsSnoc(events: seq<Event>, e: Event)
    ensures Stamps(events + [e]) == Stamps(events) + [e.stamp]
  {
  }

  // ---- The invariant ----

  /** The arrivals no reader has been given, oldest first. */
  function Unread(arrived: seq<Event>, taken: seq<nat>): (u: seq<Event>) {
    if arrived == [] then []
    else
      var last := arrived[|arrived| - 1];
      Unread(arrived[..|arrived| - 1], taken) + (if last.stamp in taken then [] else [last])
  }

  ghost predicate Stamped(arrived: seq<Event>) {
    forall i :: 0 <= i < |arrived| ==> arrived[i].stamp == i
  }

  ghost predicate Ordered(q: seq<Event>) {
    forall i, j :: 0 <= i < j < |q| ==> q[i].stamp < q[j].stamp
  }

  ghost predicate Known(arrived: seq<Event>, q: seq<Event>) {
    forall i :: 0 <= i < |q| ==> q[i].stamp < |arrived| && arrived[q[i].stamp] == q[i]
  }

  /** Handed-out events arrived, and none is handed out twice; events of one name are handed out
      in arrival order, and before anything of that name still queued, unless the name is blank. */
  ghost predicate InOrder(arrived: seq<Event>, taken: seq<nat>, q: seq<Event>) {
    && (forall i :: 0 <= i < |taken| ==> taken[i] < |arrived|)
    && (forall i, j :: 0 <= i < j < |taken| && arrived[taken[i]].name == arrived[taken[j]].name ==> taken[i] < taken[j])
    && (forall i, j :: 0 <= i < |taken| && 0 <= j < |q| && arrived[taken[i]].name == q[j].name != "" ==> taken[i] < q[j].stamp)
  }

  ghost predicate Inv(h: History, cap: nat) {
    && Stamped(h.arrived)
    && Ordered(h.queue)
    && Known(h.arrived, h.queue)
    && InOrder(h.arrived, h.taken, h.queue)
    && |h.queue| <= cap
    && h.dropped <= |Unread(h.arrived, h.taken)|
    && h.queue == Unread(h.arrived, h.taken)[h.dropped..]
  }

  lemma {:induction false} UnreadMember(arrived: seq<Event>, taken: seq<nat>, e: Event)
    ensures e in Unread(arrived, taken) <==> e in arrived && e.stamp !in taken
  {
    if arrived != [] {
      var front, last := arrived[..|arrived| - 1], arrived[|arrived| - 1];
      assert arrived == front + [last];
      UnreadMember(front, taken, e);
    }
  }

  /** Taking a stamp that has not arrived yet changes nothing. */
  lemma {:induction false} UnreadFuture(arrived: seq<Event>, taken: seq<nat>, t: nat)
    requires forall i :: 0 <= i < |arrived| ==> arrived[i].stamp != t
    ensures Unread(arrived, taken + [t]) == Unread(arrived, taken)
  {
    if arrived != [] {
      var front := arrived[..|arrived| - 1];
      assert forall i :: 0 <= i < |front| ==> front[i] == arrived[i];
      UnreadFuture(front, taken, t);
    }
  }

  /** Handing out one unread event removes exactly it. */
  lemma {:induction false} UnreadTake(arrived: seq<Event>, taken: seq<nat>, i: nat)
    requires Stamped(arrived) && i < |Unread(arrived, taken)|
    ensures Unread(arrived, taken + [Unread(arrived, taken)[i].stamp]) == RemoveAt(Unread(arrived, taken), i)
  {
    var u := Unread(arrived, taken);
    var front, last := arrived[..|arrived| - 1], arrived[|arrived| - 1];
    var v := Unread(front, taken);
    assert Stamped(front) by {
      assert forall j :: 0 <= j < |front| ==> front[j] == arrived[j];
    }
    if i < |v| {
      UnreadMember(front, taken, v[i]);
      assert v[i] in front;
      UnreadTake(front, taken, i);
      assert RemoveAt(u, i) == RemoveAt(v, i) + (if last.stamp in taken then [] else [last]);
    } else {
      assert u[i] == last;
      assert forall j :: 0 <= j < |front| ==> front[j] == arrived[j];
      UnreadFuture(front, taken, last.stamp);
      assert RemoveAt(u, i) == v;
    }
  }

  /** The queue invariants that mention no history of reads. */
  lemma SuffixKeeps(arrived: seq<Event>, taken: seq<nat>, q: seq<Event>, n: nat)
    requires Ordered(q) && Known(arrived, q) && InOrder(arrived, taken, q) && n <= |q|
    ensures Ordered(q[n..]) && Known(arrived, q[n..]) && InOrder(arrived, taken, q[n..])
  {
    assert forall j :: 0 <= j < |q| - n ==> q[n..][j] == q[n + j];
  }

  lemma OneMoreArrival(arrived: seq<Event>, taken: seq<nat>, q: seq<Event>, e: Event)
    requires Stamped(arrived) && Ordered(q) && Known(arrived, q) && InOrder(arrived, taken, q)
    requires e.stamp == |arrived|
    ensures Stamped(arrived + [e]) && Ordered(q + [e]) && Known(arrived + [e], q + [e])
    ensures InOrder(arrived + [e], taken, q + [e])
    ensures Unread(arrived + [e], taken) == Unread(arrived, taken) + [e]
  {
    assert (arrived + [e])[..|arrived|] == arrived;
  }

  lemma ArriveKeeps(h: History, name: string, params: Json, cap: nat)
    requires Inv(h, cap)
    ensures Inv(Step(h, Arrive(name, params), cap), cap)
  {
    var e := Arrival(h, name, params);
    OneMoreArrival(h.arrived, h.taken, h.queue, e);
    var u := Unread(h.arrived, h.taken);
    assert (u + [e])[h.dropped..] == h.queue + [e];
    if |h.queue| + 1 > cap {
      SuffixKeeps(h.arrived + [e], h.taken, h.queue + [e], |h.queue| + 1 - cap);
      assert (u + [e])[h.dropped + 1..] == (h.queue + [e])[1..];
    }
  }

  lemma ReadKeeps(h: History, name: string, cap: nat)
    requires Inv(h, cap) && name != ""
    ensures Inv(Step(h, Read(name), cap), cap)
  {
    var i := Find(h.queue, name);
    if i < |h.queue| {
      UnreadTake(h.arrived, h.taken, h.dropped + i);
      RemoveFromSuffix(Unread(h.arrived, h.taken), h.dropped, i);
      RemoveKeepsOrder(h.arrived, h.queue, i);
      ReadInOrder(h.arrived, h.taken, h.queue, i, name);
    }
  }

  lemma RemoveFromSuffix(u: seq<Event>, d: nat, i: nat)
    requires d + i < |u|
    ensures RemoveAt(u[d..], i) == RemoveAt(u, d + i)[d..]
  {
  }

  lemma RemoveKeepsOrder(arrived: seq<Event>, q: seq<Event>, i: nat)
    requires Ordered(q) && Known(arrived, q) && i < |q|
    ensures Ordered(RemoveAt(q, i)) && Known(arrived, RemoveAt(q, i))
  {
    assert forall j :: 0 <= j < |q| - 1 ==> RemoveAt(q, i)[j] == q[if j < i then j else j + 1];
  }

  lemma ReadInOrder(arrived: seq<Event>, taken: seq<nat>, q: seq<Event>, i: nat, name: string)
    requires Ordered(q) && Known(arrived, q) && InOrder(arrived, taken, q)
    requires i < |q| && Find(q, name) == i && name != ""
    ensures InOrder(arrived, taken + [q[i].stamp], RemoveAt(q, i))
  {
    var q', taken' := RemoveAt(q, i), taken + [q[i].stamp];
    forall a, b | 0 <= a < |taken'| && 0 <= b < |q'| && arrived[taken'[a]].name == q'[b].name != ""
      ensures taken'[a] < q'[b].stamp
    {
      assert q'[b] == q[if b < i then b else b + 1];
    }
  }

  lemma PassKeeps(h: History, name: string, params: Json, cap: nat)
    requires Inv(h, cap) && Enabled(h, Pass(name, params))
    ensures Inv(Step(h, Pass(name, params), cap), cap)
  {
    var e := Arrival(h, name, params);
    var h' := Step(h, Pass(name, params), cap);
    assert h'.arrived[..|h.arrived|] == h.arrived;
    UnreadFuture(h.arrived, h.taken, e.stamp);
    assert Unread(h'.arrived, h'.taken) == Unread(h.arrived, h'.taken);
  }

  /** Over any run: every queue is the newest part of what arrived and was not read; nothing is
      read twice; and the events of each name are read in arrival order. */
  lemma {:induction false} RunKeeps(h: History, ops: seq<Op>, cap: nat)
    requires Inv(h, cap) && ValidOps(h, ops, cap)
    ensures Inv(Run(h, ops, cap), cap)
    decreases |ops|
  {
    if ops != [] {
      match ops[0] {
        case Arrive(name, params) => ArriveKeeps(h, name, params, cap);
        case Pass(name, params) => PassKeeps(h, name, params, cap);
        case Read(name) => ReadKeeps(h, name, cap);
      }
      RunKeeps(Step(h, ops[0], cap), ops[1..], cap);
    }
  }

  lemma NothingReadTwice(h: History, cap: nat)
    requires Inv(h, cap)
    ensures forall i, j :: 0 <= i < j < |h.taken| ==> h.taken[i] != h.taken[j]
  {
    forall i, j | 0 <= i < j < |h.taken|
      ensures h.taken[i] != h.taken[j]
    {
      var a, b := h.arrived[h.taken[i]], h.arrived[h.taken[j]];
      assert a.name == b.name ==> h.taken[i] < h.taken[j];
    }
  }

  /** A reader gets the oldest queued event of its name, and nothing only if there is none. */
  lemma ReadsOldest(h: History, name: string, cap: nat)
    requires Inv(h, cap)
    ensures var (q, e) := Take(h.queue, name);
            && (e.None? <==> forall x :: x in h.queue ==> x.name != name)
            && (e.Some? ==> e.value in h.queue && e.value.name == name
                            && forall x :: x in h.queue && x.name == name ==> e.value.stamp <= x.stamp)
  {
  }

  /** An unread event is lost only when `cap` newer unread events are queued at an arrival. */
  lemma LossNeedsFullQueue(h: History, op: Op, cap: nat)
    requires Inv(h, cap)
    ensures Step(h, op, cap).dropped == h.dropped + (if op.Arrive? && |h.queue| == cap then 1 else 0)
  {
  }

  /** How many arrivals of the run found the queue full. */
  function FullArrivals(h: History, ops: seq<Op>, cap: nat): nat
    decreases |ops|
  {
    if ops == [] then 0
    else (if ops[0].Arrive? && |h.queue| == cap then 1 else 0) + FullArrivals(Step(h, ops[0], cap), ops[1..], cap)
  }

  /** Over any run exactly one unread event is lost for each arrival that found the queue full. */
  lemma {:induction false} RunLosses(h: History, ops: seq<Op>, cap: nat)
    requires Inv(h, cap) && ValidOps(h, ops, cap)
    ensures Run(h, ops, cap).dropped == h.dropped + FullArrivals(h, ops, cap)
    decreases |ops|
  {
    if ops != [] {
      LossNeedsFullQueue(h, ops[0], cap);
      OneStep(h, ops, cap);
      RunKeeps(h, ops[..1], cap);
      RunLosses(Step(h, ops[0], cap), ops[1..], cap);
    }
  }

  lemma OneStep(h: History, ops: seq<Op>, cap: nat)
    requires ops != [] && ValidOps(h, ops, cap)
    ensures ValidOps(h, ops[..1], cap) && Run(h, ops[..1], cap) == Step(h, ops[0], cap)
  {
    assert ops[..1][0] == ops[0] && ops[..1][1..] == [];
  }
}
