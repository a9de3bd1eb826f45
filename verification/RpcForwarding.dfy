/** Which calls are forwarded: facts about runs that do not depend on how peer ids look. */
module RpcForwarding {
  import opened Wire
  import opened Broker
  import opened GatewayPeer
  import opened RpcMultiplexer
  import opened RpcGuarantees
  import opened BrokerRegistry

  /** Each call travels in one message, from its own client, and not any more once it was forwarded. */
  ghost predicate Traffic(s: System) {
    && RequestsOk(s.peers, s.owner, s.outbox + s.up)
    && s.outbox !! s.up
    && OneMessagePerCall(s.outbox + s.up, s.forwarded)
    && CallsOk(s.peers, s.forwarded)
    && (forall g :: g in s.forwarded <==> 1 <= g < s.broker.nextGlobalId)
  }

  /** Requests, forwarded calls and global ids are those of s; clients and connections at most grew. */
  lemma QuietKeeps(s: System, s': System)
    requires Traffic(s) && Grown(s.peers, s'.peers) && s.owner <= s'.owner
    requires s'.outbox + s'.up == s.outbox + s.up && s'.outbox !! s'.up
    requires s'.forwarded == s.forwarded && s'.broker.nextGlobalId == s.broker.nextGlobalId
    ensures Traffic(s')
  {
    GrownRequests(s.peers, s'.peers, s.owner, s'.owner, s.outbox + s.up, s.forwarded);
  }

  lemma ChangedGrows(s: System, a: Action)
    requires Enabled(s, a)
    ensures Grown(s.peers, Do(s, a).peers)
  {
    ChangedOnly(s, a);
  }

  lemma BeginTravels(ids: seq<string>, s: System, a: Action)
    requires Basic(ids, s) && Traffic(s) && a.Begin? && Enabled(s, a)
    ensures Traffic(Do(s, a))
  {
    var k, p := a.client, s.peers[a.client];
    var m := (a.conn, PeerRpc(p.nextId, a.name, a.params, a.timeoutMs, Call(k, |p.futures|)));
    var s' := Do(s, a);
    assert PeerOk(p, ids[k]);
    ChangedGrows(s, a);
    GrownRequests(s.peers, s'.peers, s.owner, s.owner, s.outbox + s.up, s.forwarded);
    assert s'.outbox + s'.up == (s.outbox + s.up) + {m};
    forall m' | m' in s.outbox + s.up
      ensures m'.1.call != m.1.call && RequestOk(s'.peers, s'.owner, m')
    {
      assert RequestOk(s.peers, s.owner, m');
    }
    assert RequestOk(s'.peers, s'.owner, m);
    NewCall(s, m);
  }

  lemma NewCall(s: System, m: (ConnId, PeerRpc))
    requires Traffic(s)
    requires m.1.call.client < |s.peers| && m.1.call.future == |s.peers[m.1.call.client].futures|
    requires forall m' :: m' in s.outbox + s.up ==> m'.1.call != m.1.call
    ensures m !in s.up && OneMessagePerCall(s.outbox + s.up + {m}, s.forwarded)
  {
  }

  lemma ReadTravels(s: System, c: ConnId, rpc: PeerRpc, info: Json)
    requires Traffic(s) && IdsIssued(s.broker) && Enabled(s, Read(c, rpc, info))
    ensures Traffic(Do(s, Read(c, rpc, info)))
  {
    var s', requests := Do(s, Read(c, rpc, info)), s.outbox + s.up;
    DispatchOutcome(s.broker, s.ident[c], c, rpc, info);
    assert RequestOk(s.peers, s.owner, (c, rpc));
    assert s'.outbox + s'.up == requests - {(c, rpc)};
    FewerRequests(s.peers, s.owner, requests, requests - {(c, rpc)}, s.forwarded);
    if Dispatch(s.broker, s.ident[c], c, Rpc(rpc), info).1.Forward? {
      OneMoreForward(s, requests, (c, rpc), s.broker.nextGlobalId);
    }
  }

  lemma LoseTravels(s: System, c: ConnId, rpc: PeerRpc)
    requires Traffic(s) && Enabled(s, LoseRequest(c, rpc))
    ensures Traffic(Do(s, LoseRequest(c, rpc)))
  {
    var s' := Do(s, LoseRequest(c, rpc));
    FewerRequests(s.peers, s.owner, s.outbox + s.up, s'.outbox + s'.up, s.forwarded);
  }

  lemma StepTravels(ids: seq<string>, s: System, a: Action)
    requires Basic(ids, s) && Traffic(s)
    ensures Traffic(Step(s, a))
  {
    if Enabled(s, a) {
      match a
      case Begin(_, _, _, _, _) => BeginTravels(ids, s, a);
      case Read(c, rpc, info) => ReadTravels(s, c, rpc, info);
      case LoseRequest(c, rpc) => LoseTravels(s, c, rpc);
      case RelayResult(r) =>
        RelayConsumes(s.broker, r);
        QuietKeeps(s, Do(s, a));
      case _ =>
        ChangedGrows(s, a);
        QuietKeeps(s, Do(s, a));
    }
  }

  /** Whatever peer ids clients use, and whatever is lost, repeated or reconnected: no call is ever
      forwarded under two global ids. */
  lemma {:induction false} ForwardedAtMostOnce(ids: seq<string>, actions: seq<Action>)
    ensures var s := Run(Initial(ids), actions); Traffic(s) && ForwardedOnce(s.forwarded)
  {
    if actions != [] {
      var front := actions[..|actions| - 1];
      ForwardedAtMostOnce(ids, front);
      RunBasic(ids, front);
      StepTravels(ids, Run(Initial(ids), front), actions[|actions| - 1]);
    }
  }
}
