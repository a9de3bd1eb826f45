/** That answers arrive: what brings a call's answer to its caller, and that nothing else can end the wait. */
module RpcDelivery {
  import opened Wire
  import opened Broker
  import opened GatewayPeer
  import opened RpcMultiplexer
  import opened RpcGuarantees
  import opened BrokerRegistry
  import Text

  // ---- One answer ----

  /** s after client k has taken an answer off connection c whose reply completes future f. */
  function Answered(s: System, k: nat, c: ConnId, d: PeerResult, f: nat, reply: Reply): System
    requires k < |s.peers| && f < |s.peers[k].futures|
  {
    var p := s.peers[k];
    s.(down := s.down - multiset{(c, d)},
       peers := s.peers[k := p.(futures := p.futures[f := Some(Settled(reply, d.origin))])])
  }

  /** An answer to a waiting call, good or bad, completes its future with what it tells; no other future,
      no pending id and no counter changes. */
  lemma ReceiveSettles(s: System, c: ConnId, d: PeerResult, f: nat)
    requires Enabled(s, Receive(c, d)) && Waits(s.peers[s.owner[c]], d.id, f)
    ensures exists reply :: Tells(reply, d.verdict) && Step(s, Receive(c, d)) == Answered(s, s.owner[c], c, d, f, reply)
  {
    var p := s.peers[s.owner[c]];
    AnswerSettles(p, d);
    var reply :| Tells(reply, d.verdict) && OnResult(p, d) == p.(futures := p.futures[f := Some(Settled(reply, d.origin))]);
    assert Step(s, Receive(c, d)) == Answered(s, s.owner[c], c, d, f, reply);
  }

  // ---- The wait ----

  /** The client gives up on the call, loses its connection, or gets an answer for it. */
  predicate Settles(s: System, a: Action, k: nat, id: int) {
    || a == Finish(k, id) || a == Disconnect(k)
    || (a.Receive? && a.conn < |s.owner| && s.owner[a.conn] == k && a.answer.id == id)
  }

  predicate LeftAlone(s: System, actions: seq<Action>, k: nat, id: int) {
    actions != [] ==>
      var front := actions[..|actions| - 1];
      LeftAlone(s, front, k, id) && !Settles(Run(s, front), actions[|actions| - 1], k, id)
  }

  lemma StepStillWaits(ids: seq<string>, s: System, a: Action, k: nat, id: int, f: nat)
    requires Basic(ids, s) && k < |s.peers| && Waits(s.peers[k], id, f) && !Settles(s, a, k, id)
    ensures Waits(Step(s, a).peers[k], id, f)
  {
    assert PeerOk(s.peers[k], ids[k]);
    if Enabled(s, a) {
      ChangedOnly(s, a);
    }
  }

  lemma StepBasic(ids: seq<string>, s: System, a: Action)
    requires Basic(ids, s)
    ensures Basic(ids, Step(s, a))
  {
    if Enabled(s, a) {
      ChangedOk(ids, s, a);
      LinksAndIdsOk(ids, s, a);
    }
  }

  lemma {:induction false} StillWaits(ids: seq<string>, s: System, actions: seq<Action>, k: nat, id: int, f: nat)
    requires Basic(ids, s) && k < |s.peers| && Waits(s.peers[k], id, f) && LeftAlone(s, actions, k, id)
    ensures Basic(ids, Run(s, actions)) && Waits(Run(s, actions).peers[k], id, f)
  {
    if actions != [] {
      var front, a := actions[..|actions| - 1], actions[|actions| - 1];
      StillWaits(ids, s, front, k, id, f);
      StepStillWaits(ids, Run(s, front), a, k, id, f);
      StepBasic(ids, Run(s, front), a);
    }
  }

  /** A call that is begun after any run waits through anything that follows, until its client gives up on
      it, disconnects, or gets an answer for it. */
  lemma CallWaits(ids: seq<string>, before: seq<Action>, a: Action, after: seq<Action>)
    requires a.Begin? && Enabled(Run(Initial(ids), before), a)
    requires var s := Run(Initial(ids), before); LeftAlone(Step(s, a), after, a.client, s.peers[a.client].nextId)
    ensures var s := Run(Initial(ids), before); var s', p := Run(Step(s, a), after), s.peers[a.client];
            a.client < |s'.peers| && Waits(s'.peers[a.client], p.nextId, |p.futures|)
  {
    var s := Run(Initial(ids), before);
    RunBasic(ids, before);
    assert PeerOk(s.peers[a.client], ids[a.client]);
    NewCallWaits(s.peers[a.client]);
    StepBasic(ids, s, a);
    StillWaits(ids, Step(s, a), after, a.client, s.peers[a.client].nextId, |s.peers[a.client].futures|);
  }

  /** So the first answer that comes for it before that completes it. */
  lemma AnswerSettlesCall(ids: seq<string>, before: seq<Action>, a: Action, after: seq<Action>, c: ConnId, d: PeerResult)
    requires a.Begin? && Enabled(Run(Initial(ids), before), a)
    requires var s := Run(Initial(ids), before); LeftAlone(Step(s, a), after, a.client, s.peers[a.client].nextId)
    requires var s := Run(Initial(ids), before); var s' := Run(Step(s, a), after);
             Enabled(s', Receive(c, d)) && s'.owner[c] == a.client && d.id == s.peers[a.client].nextId
    ensures var s := Run(Initial(ids), before); var s', f := Run(Step(s, a), after), |s.peers[a.client].futures|;
            && a.client < |s'.peers| && f < |s'.peers[a.client].futures|
            && exists reply :: Tells(reply, d.verdict) && Step(s', Receive(c, d)) == Answered(s', a.client, c, d, f, reply)
  {
    var s := Run(Initial(ids), before);
    CallWaits(ids, before, a, after);
    ReceiveSettles(Run(Step(s, a), after), c, d, |s.peers[a.client].futures|);
  }

  // ---- The whole way ----

  /** Client k is connected through c, which the broker serves and has registered. */
  predicate Linked(s: System, k: nat, c: ConnId) {
    && InPhase(s, c, Serving) && s.owner[c] == k && s.peers[k].conn == Some(c)
    && s.ident[c] in s.broker.peers && s.broker.peers[s.ident[c]] == c
  }

  function RequestOf(s: System, a: Action): PeerRpc
    requires a.Begin? && a.client < |s.peers|
  {
    var p := s.peers[a.client];
    PeerRpc(p.nextId, a.name, a.params, a.timeoutMs, Call(a.client, |p.futures|))
  }

  /** s after the request was begun, written and read by the broker. */
  function Asked(s: System, a: Action, info: Json): System
    requires a.Begin? && a.client < |s.peers|
  {
    var rpc := RequestOf(s, a);
    Step(Step(Step(s, a), Write(a.conn, rpc)), Read(a.conn, rpc, info))
  }

  lemma AskedIs(s: System, a: Action, info: Json)
    requires a.Begin? && Enabled(s, a) && Linked(s, a.client, a.conn)
    ensures var k, p, rpc := a.client, s.peers[a.client], RequestOf(s, a);
            var (b, eff) := Dispatch(s.broker, s.ident[a.conn], a.conn, Rpc(rpc), info);
            && Asked(s, a, info).peers == s.peers[k := BeginCall(p)]
            && Asked(s, a, info).owner == s.owner && Asked(s, a, info).broker == b
            && (eff.Answer? ==> (eff.conn, eff.result) in Asked(s, a, info).down)
  {
    var rpc := RequestOf(s, a);
    var s1 := Step(s, a);
    assert s1.peers == s.peers[a.client := BeginCall(s.peers[a.client])];
    var s2 := Step(s1, Write(a.conn, rpc));
    assert s2 == s1.(outbox := s1.outbox - {(a.conn, rpc)}, up := s1.up + {(a.conn, rpc)});
    assert InPhase(s2, a.conn, Serving) && s2.ident == s.ident && s2.broker == s.broker;
  }

  /** The new call of client k has been asked, and its answer d has come. */
  ghost predicate AnswerHere(s: System, s': System, k: nat, c: ConnId, d: PeerResult) {
    && k < |s.peers| && s.peers[k].conn == Some(c) && s.peers[k].nextId !in s.peers[k].pending
    && s'.peers == s.peers[k := BeginCall(s.peers[k])]
    && c < |s'.owner| && s'.owner[c] == k && (c, d) in s'.down && d.id == s.peers[k].nextId
  }

  lemma AnswerTaken(s: System, s': System, k: nat, c: ConnId, d: PeerResult) returns (reply: Reply)
    requires AnswerHere(s, s', k, c, d)
    ensures Tells(reply, d.verdict)
    ensures var p := s.peers[k];
            Step(s', Receive(c, d)).peers
            == s.peers[k := BeginCall(p).(futures := p.futures + [Some(Settled(reply, d.origin))])]
  {
    var p, q := s.peers[k], BeginCall(s.peers[k]);
    NewCallWaits(p);
    assert s'.peers[k] == q;
    ReceiveSettles(s', c, d, |p.futures|);
    reply :| Tells(reply, d.verdict) && Step(s', Receive(c, d)) == Answered(s', k, c, d, |p.futures|, reply);
    assert q.futures[|p.futures| := Some(Settled(reply, d.origin))] == p.futures + [Some(Settled(reply, d.origin))];
  }

  lemma FreshId(ids: seq<string>, s: System, k: nat)
    requires Basic(ids, s) && k < |s.peers|
    ensures s.peers[k].nextId !in s.peers[k].pending
  {
    assert PeerOk(s.peers[k], ids[k]);
  }

  /** The reply a caller gets on a linked connection for what the broker answers itself. */
  lemma LocalCallAnswered(ids: seq<string>, s: System, a: Action, info: Json)
    requires Basic(ids, s) && a.Begin? && Enabled(s, a) && Linked(s, a.client, a.conn)
    requires Text.Strip(a.name) in {"gateway.status", "gateway.waitForConnection"}
    ensures var p, rpc := s.peers[a.client], RequestOf(s, a);
            var result := if Text.Strip(a.name) == "gateway.status" then info else "{\"connected\":true}";
            var d := PeerResult(p.nextId, Good(result), FromBroker(rpc.call));
            Step(Asked(s, a, info), Receive(a.conn, d)).peers
            == s.peers[a.client := BeginCall(p).(futures := p.futures + [Some(Settled(Value(result), d.origin))])]
  {
    var p, rpc := s.peers[a.client], RequestOf(s, a);
    FreshId(ids, s, a.client);
    var result := if Text.Strip(a.name) == "gateway.status" then info else "{\"connected\":true}";
    AnsweredLocally(s.broker, s.ident[a.conn], a.conn, rpc, info);
    AskedIs(s, a, info);
    var reply := AnswerTaken(s, Asked(s, a, info), a.client, a.conn, PeerResult(p.nextId, Good(result), FromBroker(rpc.call)));
  }

  lemma AnsweredLocally(b: BrokerState, peerId: string, c: ConnId, rpc: PeerRpc, info: Json)
    requires Text.Strip(rpc.name) in {"gateway.status", "gateway.waitForConnection"}
    ensures var result := if Text.Strip(rpc.name) == "gateway.status" then info else "{\"connected\":true}";
            Dispatch(b, peerId, c, Rpc(rpc), info).1 == Answer(c, PeerResult(rpc.id, Good(result), FromBroker(rpc.call)))
  {
  }

  /** What comes of the request once the extension has sent r. */
  function Relayed(s: System, r: ExtResult): System {
    Step(Step(s, Emit(r)), RelayResult(r))
  }

  lemma RelayedIs(s: System, r: ExtResult, c: ConnId)
    requires r.id.Some? && r.id.value in s.broker.pending
    requires s.broker.pending[r.id.value].peerId in s.broker.peers && s.broker.peers[s.broker.pending[r.id.value].peerId] == c
    ensures var d := PeerResult(s.broker.pending[r.id.value].localId, VerdictOf(r), FromExtension(r.id.value));
            Relayed(s, r).peers == s.peers && Relayed(s, r).owner == s.owner && (c, d) in Relayed(s, r).down
  {
    var s1 := Step(s, Emit(r));
    assert s1.broker == s.broker && r in s1.emitted;
  }

  lemma ForwardedToExtension(b: BrokerState, peerId: string, c: ConnId, rpc: PeerRpc, info: Json)
    requires IdsIssued(b)
    requires Text.Strip(rpc.name) !in {"", "gateway.status", "gateway.waitForConnection"}
    ensures var (b', eff) := Dispatch(b, peerId, c, Rpc(rpc), info);
            b'.peers == b.peers && b'.pending == b.pending[b.nextGlobalId := Route(peerId, rpc.id)]
  {
    DispatchAllocates(b, peerId, c, Rpc(rpc), info);
  }

  /** And for everything else: whatever the extension sends for the forwarded request, the caller gets the
      reply for just that. */
  lemma CallAnswered(ids: seq<string>, s: System, a: Action, info: Json, r: ExtResult)
    requires Basic(ids, s) && a.Begin? && Enabled(s, a) && Linked(s, a.client, a.conn)
    requires Text.Strip(a.name) !in {"", "gateway.status", "gateway.waitForConnection"}
    requires r.id == Some(s.broker.nextGlobalId)
    ensures var p, g := s.peers[a.client], s.broker.nextGlobalId;
            var d := PeerResult(p.nextId, VerdictOf(r), FromExtension(g));
            Step(Relayed(Asked(s, a, info), r), Receive(a.conn, d)).peers
            == s.peers[a.client := BeginCall(p).(futures := p.futures + [Some(Settled(ReplyFor(r), FromExtension(g)))])]
  {
    var p, g := s.peers[a.client], s.broker.nextGlobalId;
    FreshId(ids, s, a.client);
    ForwardedToExtension(s.broker, s.ident[a.conn], a.conn, RequestOf(s, a), info);
    AskedIs(s, a, info);
    RelayedIs(Asked(s, a, info), r, a.conn);
    var d := PeerResult(p.nextId, VerdictOf(r), FromExtension(g));
    var reply := AnswerTaken(s, Relayed(Asked(s, a, info), r), a.client, a.conn, d);
    TellsOne(r, reply);
  }

  lemma TellsOne(r: ExtResult, reply: Reply)
    requires Tells(reply, VerdictOf(r))
    ensures reply == ReplyFor(r)
  {
  }
}
