/** Fanning tab-scoped events out to subscribed peers (`native_broker.py`).

    A broadcast takes a snapshot of the registered connections and then gives each its turn, with
    awaits in between: while a broadcast is under way peers subscribe, arrive and leave. The next
    extension message is handled only when the broadcast is over. */
module EventFanout {
  import opened Wire
  import opened Broker
  import Text

  datatype Event = Event(tabId: string, name: string, params: Json)

  /** `current` is the event being broadcast and the connections still to get their turn. */
  datatype Fan = Fan(broker: BrokerState, current: Option<(Event, seq<ConnId>)>, sent: map<ConnId, seq<Event>>)

  datatype Action =
    | Hello(peerId: string, conn: ConnId)
    | Says(peerId: string, conn: ConnId, msg: PeerMsg, info: Json)
    | Gone(peerId: string)
    | Relayed(result: ExtResult)
    | Arrives(event: Event, snapshot: seq<ConnId>)
    | Turn(conn: ConnId, event: Event, writes: bool)

  const IDLE := Fan(FRESH, None, map[])

  function SentTo(s: Fan, c: ConnId): seq<Event> {
    if c in s.sent then s.sent[c] else []
  }

  predicate Blank(e: Event) {
    e.tabId == "" || e.name == ""
  }

  /** Each registered connection once. */
  ghost predicate IsSnapshot(peers: map<string, ConnId>, order: seq<ConnId>) {
    && (forall i, j :: 0 <= i < j < |order| ==> order[i] != order[j])
    && (forall p :: p in peers ==> peers[p] in order)
    && (forall c :: c in order ==> Registered(peers, c))
  }

  ghost predicate Registered(peers: map<string, ConnId>, c: ConnId) {
    exists p :: p in peers && peers[p] == c
  }

  /** A hello comes on a new connection; only greeted connections speak; an event is taken up when
      no broadcast is under way; turns follow the snapshot, whether a write succeeds or not. */
  ghost predicate Enabled(s: Fan, a: Action) {
    match a
    case Hello(_, c) => c !in s.broker.tabs
    case Says(_, c, _, _) => c in s.broker.tabs
    case Gone(_) => true
    case Relayed(_) => true
    case Arrives(_, order) => s.current.None? && IsSnapshot(s.broker.peers, order)
    case Turn(c, e, _) => s.current.Some? && s.current.value.0 == e && s.current.value.1 != [] && s.current.value.1[0] == c
  }

  function Rest(e: Event, order: seq<ConnId>): Option<(Event, seq<ConnId>)> {
    if order == [] then None else Some((e, order))
  }

  function Step(s: Fan, a: Action): Fan {
    match a
    case Hello(p, c) => s.(broker := Register(s.broker, p, c))
    case Says(p, c, msg, info) => s.(broker := Dispatch(s.broker, p, c, msg, info).0)
    case Gone(p) => s.(broker := Unregister(s.broker, p))
    case Relayed(r) => s.(broker := Relay(s.broker, r).0)
    case Arrives(e, order) => if Blank(e) then s else s.(current := Rest(e, order))
    case Turn(c, e, writes) =>
      s.(current := if s.current.Some? && s.current.value.1 != [] then Rest(e, s.current.value.1[1..]) else None,
         sent := if e.tabId in TabsOf(s.broker, c) && writes then s.sent[c := SentTo(s, c) + [e]] else s.sent)
  }

  function Run(actions: seq<Action>): Fan {
    if actions == [] then IDLE else Step(Run(actions[..|actions| - 1]), actions[|actions| - 1])
  }

  ghost predicate ValidRun(actions: seq<Action>) {
    actions != [] ==>
      ValidRun(actions[..|actions| - 1]) && Enabled(Run(actions[..|actions| - 1]), actions[|actions| - 1])
  }

  // ---- The broadcast itself ----

  /** `_broadcast_cdp_event`: the loop's state between two turns, and what was written. */
  class Broadcast {
    var current: Option<(Event, seq<ConnId>)>
    var sent: map<ConnId, seq<Event>>

    ghost function State(b: NativeBroker): Fan
      reads this, b
    {
      Fan(b.State(), current, sent)
    }

    constructor ()
      ensures current == None && sent == map[]
    {
      current, sent := None, map[];
    }

    /** The loop starts on a snapshot of the registered connections. */
    method Begin(b: NativeBroker, e: Event, snapshot: seq<ConnId>)
      modifies this`current
      ensures State(b) == Step(old(State(b)), Arrives(e, snapshot))
    {
      if e.tabId == "" || e.name == "" {
        return;
      }
      current := if snapshot == [] then None else Some((e, snapshot));
    }

    /** One round of the loop; writes tells whether a write would succeed. */
    method TakeTurn(b: NativeBroker, writes: bool) returns (c: ConnId)
      requires current.Some? && current.value.1 != []
      modifies this
      ensures c == old(current).value.1[0]
      ensures State(b) == Step(old(State(b)), Turn(c, old(current).value.0, writes))
    {
      var (e, order) := current.value;
      c := order[0];
      var wants := b.WantsEvent(c, e.tabId);
      if wants && writes {
        sent := sent[c := (if c in sent then sent[c] else []) + [e]];
      }
      current := if order[1..] == [] then None else Some((e, order[1..]));
    }
  }

  // ---- The same thing, read off the trace ----

  /** The tab the params name, up to white space around it. */
  function Named(params: Params): set<string> {
    if params.tabId.Some? then {Text.Strip(params.tabId.value)} - {""} else {}
  }

  /** The tabs named so far in the connection's own rpc params. */
  function Asked(actions: seq<Action>, c: ConnId): set<string> {
    if actions == [] then {}
    else
      var a := actions[|actions| - 1];
      Asked(actions[..|actions| - 1], c) +
      if a.Says? && a.conn == c && a.msg.Rpc? && a.msg.rpc.params.Some? then Named(a.msg.rpc.params.value) else {}
  }

  /** The connection's turns whose event's tab it had asked for by then, except where the write failed. */
  function Due(actions: seq<Action>, c: ConnId): seq<Event> {
    if actions == [] then []
    else
      var front, a := actions[..|actions| - 1], actions[|actions| - 1];
      Due(front, c) + (if a.Turn? && a.conn == c && a.event.tabId in Asked(front, c) && a.writes then [a.event] else [])
  }

  /** The connection's turns, wanted or not. */
  function TurnsOf(actions: seq<Action>, c: ConnId): seq<Event> {
    if actions == [] then []
    else
      var a := actions[|actions| - 1];
      TurnsOf(actions[..|actions| - 1], c) + (if a.Turn? && a.conn == c then [a.event] else [])
  }

  /** The events the extension sent. */
  function Arrived(actions: seq<Action>): seq<Event> {
    if actions == [] then []
    else
      var a := actions[|actions| - 1];
      Arrived(actions[..|actions| - 1]) +
      if a.Arrives? && a.event.tabId != "" && a.event.name != "" then [a.event] else []
  }

  // ---- What peers receive ----

  lemma SubscribeTabs(b: BrokerState, c: ConnId, params: Option<Params>, d: ConnId)
    ensures TabsOf(Subscribe(b, c, params), d)
         == TabsOf(b, d) + if c == d && params.Some? then Named(params.value) else {}
  {
  }

  lemma DispatchTabs(b: BrokerState, p: string, c: ConnId, msg: PeerMsg, info: Json, d: ConnId)
    ensures TabsOf(Dispatch(b, p, c, msg, info).0, d)
         == TabsOf(b, d) + if c == d && msg.Rpc? && msg.rpc.params.Some? then Named(msg.rpc.params.value) else {}
  {
    if msg.Rpc? {
      DispatchSubscribes(b, p, c, msg.rpc, info);
      SubscribeTabs(b, c, msg.rpc.params, d);
    }
  }

  lemma DispatchSubscribes(b: BrokerState, p: string, c: ConnId, rpc: PeerRpc, info: Json)
    ensures Dispatch(b, p, c, Rpc(rpc), info).0.tabs == Subscribe(b, c, rpc.params).tabs
    ensures Dispatch(b, p, c, Rpc(rpc), info).0.peers == b.peers
  {
  }

  /** A connection's subscriptions are exactly the tabs it asked for itself, so they only grow. */
  lemma {:induction false} SubscriptionsAreOwnRequests(actions: seq<Action>, c: ConnId)
    requires ValidRun(actions)
    ensures TabsOf(Run(actions).broker, c) == Asked(actions, c)
    ensures c !in Run(actions).broker.tabs ==> Asked(actions, c) == {}
  {
    if actions != [] {
      var front, a := actions[..|actions| - 1], actions[|actions| - 1];
      SubscriptionsAreOwnRequests(front, c);
      if a.Says? {
        DispatchTabs(Run(front).broker, a.peerId, a.conn, a.msg, a.info, c);
      }
    }
  }

  /** The sequence written to a connection is, in order, the events whose turn found their tab
      among the connection's own requests so far, less those whose write failed. */
  lemma {:induction false} ReceivesExactlyDue(actions: seq<Action>, c: ConnId)
    requires ValidRun(actions)
    ensures SentTo(Run(actions), c) == Due(actions, c)
  {
    if actions != [] {
      var front, a := actions[..|actions| - 1], actions[|actions| - 1];
      ReceivesExactlyDue(front, c);
      SubscriptionsAreOwnRequests(front, c);
    }
  }

  // ---- Every event reaches its turn ----

  /** What a broadcast under way still owes the connection. */
  function Owed(s: Fan, c: ConnId): seq<Event> {
    if s.current.Some? && c in s.current.value.1 then [s.current.value.0] else []
  }

  /** Turns are given only to greeted connections, at most one each per broadcast. */
  ghost predicate TurnsOk(s: Fan) {
    && (forall p :: p in s.broker.peers ==> s.broker.peers[p] in s.broker.tabs)
    && (s.current.Some? ==>
          && s.current.value.1 != []
          && (forall c :: c in s.current.value.1 ==> c in s.broker.tabs)
          && forall i, j :: 0 <= i < j < |s.current.value.1| ==> s.current.value.1[i] != s.current.value.1[j])
  }

  /** Nothing takes the registration of peerId away or hands it to another connection. */
  predicate Stays(peerId: string, actions: seq<Action>) {
    forall a :: a in actions ==> !(a.Gone? && a.peerId == peerId) && !(a.Hello? && a.peerId == peerId)
  }

  lemma DispatchPeers(b: BrokerState, p: string, c: ConnId, msg: PeerMsg, info: Json)
    ensures Dispatch(b, p, c, msg, info).0.peers == b.peers
    ensures b.tabs.Keys <= Dispatch(b, p, c, msg, info).0.tabs.Keys
  {
    if msg.Rpc? {
      DispatchSubscribes(b, p, c, msg.rpc, info);
    }
  }

  lemma StepPeers(s: Fan, a: Action)
    ensures a.Hello? ==> Step(s, a).broker.peers == s.broker.peers[a.peerId := a.conn]
    ensures a.Gone? ==> Step(s, a).broker.peers == s.broker.peers - {a.peerId}
    ensures !a.Hello? && !a.Gone? ==> Step(s, a).broker.peers == s.broker.peers
    ensures s.broker.tabs.Keys <= Step(s, a).broker.tabs.Keys
    ensures a.Hello? ==> a.conn in Step(s, a).broker.tabs
    ensures !a.Arrives? && !a.Turn? ==> Step(s, a).current == s.current
  {
    if a.Says? {
      DispatchPeers(s.broker, a.peerId, a.conn, a.msg, a.info);
    }
  }

  lemma TurnsStayOk(s: Fan, a: Action)
    requires TurnsOk(s) && Enabled(s, a)
    ensures TurnsOk(Step(s, a))
  {
    StepPeers(s, a);
    if a.Arrives? && !Blank(a.event) {
      forall c | c in a.snapshot
        ensures c in s.broker.tabs
      {
        assert Registered(s.broker.peers, c);
      }
    } else if a.Turn? {
      var order := s.current.value.1;
      assert forall i :: 0 <= i < |order| - 1 ==> order[1..][i] == order[i + 1];
    }
  }

  lemma {:induction false} RunTurnsOk(actions: seq<Action>)
    requires ValidRun(actions)
    ensures TurnsOk(Run(actions))
  {
    if actions != [] {
      RunTurnsOk(actions[..|actions| - 1]);
      TurnsStayOk(Run(actions[..|actions| - 1]), actions[|actions| - 1]);
    }
  }

  lemma {:induction false} NoTurnsBeforeHello(actions: seq<Action>, c: ConnId)
    requires ValidRun(actions) && c !in Run(actions).broker.tabs
    ensures TurnsOf(actions, c) == [] && Owed(Run(actions), c) == []
  {
    RunTurnsOk(actions);
    if actions != [] {
      var front, a := actions[..|actions| - 1], actions[|actions| - 1];
      StepPeers(Run(front), a);
      NoTurnsBeforeHello(front, c);
      RunTurnsOk(front);
    }
  }

  lemma {:induction false} StaysRegistered(before: seq<Action>, p: string, c: ConnId, after: seq<Action>)
    requires Stays(p, after)
    ensures var s := Run(before + [Hello(p, c)] + after); p in s.broker.peers && s.broker.peers[p] == c
  {
    var actions := before + [Hello(p, c)] + after;
    var front, a := actions[..|actions| - 1], actions[|actions| - 1];
    StepPeers(Run(front), a);
    if after != [] {
      assert front == before + [Hello(p, c)] + after[..|after| - 1] && a == after[|after| - 1];
      StaysRegistered(before, p, c, after[..|after| - 1]);
    } else {
      assert a == Hello(p, c);
    }
  }

  lemma TurnSettles(s: Fan, a: Action, c: ConnId)
    requires TurnsOk(s) && Enabled(s, a)
    ensures a.Turn? ==> Owed(s, c) == (if a.conn == c then [a.event] else []) + Owed(Step(s, a), c)
    ensures !a.Turn? && !a.Arrives? ==> Owed(Step(s, a), c) == Owed(s, c)
    ensures a.Arrives? && Registered(s.broker.peers, c) ==>
              Owed(s, c) == [] && Owed(Step(s, a), c) == if Blank(a.event) then [] else [a.event]
  {
    StepPeers(s, a);
    if a.Turn? {
      var order := s.current.value.1;
      assert order == [order[0]] + order[1..];
    }
  }

  /** Every event beyond `base` has had its turn with c or is still owed to it. */
  ghost predicate Accounted(base: seq<Event>, actions: seq<Action>, c: ConnId) {
    Arrived(actions) == base + TurnsOf(actions, c) + Owed(Run(actions), c)
  }

  lemma AccountsForStep(base: seq<Event>, front: seq<Action>, a: Action, c: ConnId)
    requires TurnsOk(Run(front)) && Enabled(Run(front), a)
    requires Registered(Run(front).broker.peers, c)
    requires Accounted(base, front, c)
    ensures Accounted(base, front + [a], c)
  {
    assert (front + [a])[..|front|] == front;
    TurnSettles(Run(front), a, c);
  }

  /** From its hello on, and as long as it stays registered, a connection gets a turn for every
      event the extension sends, once and in order; only the broadcast under way may still owe it one. */
  lemma {:induction false} EveryEventGetsItsTurn(before: seq<Action>, p: string, c: ConnId, after: seq<Action>)
    requires ValidRun(before + [Hello(p, c)] + after) && Stays(p, after)
    ensures Accounted(Arrived(before), before + [Hello(p, c)] + after, c)
    decreases |after|
  {
    var actions := before + [Hello(p, c)] + after;
    var front, a := actions[..|actions| - 1], actions[|actions| - 1];
    if after == [] {
      assert front == before && a == Hello(p, c);
      HelloAccounts(before, p, c);
      assert actions == before + [Hello(p, c)];
    } else {
      var shorter := after[..|after| - 1];
      assert front == before + [Hello(p, c)] + shorter && a == after[|after| - 1];
      EveryEventGetsItsTurn(before, p, c, shorter);
      NextGetsItsTurn(before, p, c, shorter, a);
      assert actions == front + [a];
    }
  }

  lemma NextGetsItsTurn(before: seq<Action>, p: string, c: ConnId, after: seq<Action>, a: Action)
    requires var front := before + [Hello(p, c)] + after; ValidRun(front) && Enabled(Run(front), a)
    requires Stays(p, after) && Accounted(Arrived(before), before + [Hello(p, c)] + after, c)
    ensures Accounted(Arrived(before), before + [Hello(p, c)] + after + [a], c)
  {
    var front := before + [Hello(p, c)] + after;
    StaysRegistered(before, p, c, after);
    RunTurnsOk(front);
    AccountsForStep(Arrived(before), front, a, c);
  }

  lemma HelloAccounts(before: seq<Action>, p: string, c: ConnId)
    requires ValidRun(before + [Hello(p, c)])
    ensures Accounted(Arrived(before), before + [Hello(p, c)], c)
  {
    assert (before + [Hello(p, c)])[..|before|] == before;
    StepPeers(Run(before), Hello(p, c));
    NoTurnsBeforeHello(before, c);
  }
}
