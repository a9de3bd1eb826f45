/** The broker's registry when connections overlap.

    A client may reconnect under its old peer id while the broker is still serving the previous
    connection, but the registry has room for one connection of each peer id. */
module BrokerRegistry {
  import opened Wire
  import opened Broker
  import opened GatewayPeer
  import opened RpcMultiplexer
  import opened RpcGuarantees

  predicate Served(s: System, c: ConnId) {
    c < |s.phase| && c < |s.ident| && s.phase[c] == Serving
  }

  /** The id a connection will be known by once greeted. */
  function IdOnGreet(s: System, c: ConnId, fallback: string): string
    requires InPhase(s, c, Opened)
  {
    HelloId(s.peers[s.owner[c]].peerId, fallback)
  }

  ghost predicate ConnExact(s: System, c: ConnId) {
    Served(s, c) ==> s.ident[c] in s.broker.peers && s.broker.peers[s.ident[c]] == c
  }

  /** Every served connection is the registered one of its peer id, only served connections are
      registered, and every outstanding request names a registered peer. */
  ghost predicate RegistryExact(s: System) {
    && (forall c {:trigger ConnExact(s, c)} :: ConnExact(s, c))
    && (forall p :: p in s.broker.peers ==> Served(s, s.broker.peers[p]) && s.ident[s.broker.peers[p]] == p)
    && (forall g :: g in s.broker.pending ==> s.broker.pending[g].peerId in s.broker.peers)
  }

  // ---- What holds whether or not peer ids are distinct ----

  /** Clients keep their ids, connections their owners, and global ids are issued in order. */
  ghost predicate Basic(ids: seq<string>, s: System) {
    PeersOk(ids, s.peers) && LinksOk(ids, s.owner, s.phase, s.ident) && IdsIssued(s.broker)
  }

  lemma OnePeerOk(ids: seq<string>, peers: seq<PeerState>, k: nat, p: PeerState)
    requires PeersOk(ids, peers) && k < |peers| && PeerOk(p, ids[k])
    ensures PeersOk(ids, peers[k := p])
  {
    forall i | 0 <= i < |ids|
      ensures PeerOk(peers[k := p][i], ids[i])
    {
      assert PeerOk(peers[i], ids[i]);
    }
  }

  lemma PeerStepsOk(p: PeerState, id: string, c: ConnId, d: PeerResult, req: int)
    requires PeerOk(p, id)
    ensures PeerOk(BeginCall(p), id) && PeerOk(OnResult(p, d), id) && PeerOk(EndCall(p, req), id)
    ensures PeerOk(Shutdown(p), id) && PeerOk(p.(conn := Some(c)), id)
  {
  }

  /** The client a step is about, and what becomes of it. */
  function Changed(s: System, a: Action): Option<(nat, PeerState)>
    requires Enabled(s, a)
  {
    match a
    case Adopt(k, c) => Some((k, s.peers[k].(conn := Some(c))))
    case Begin(k, _, _, _, _) => Some((k, BeginCall(s.peers[k])))
    case Receive(c, d) => Some((s.owner[c], OnResult(s.peers[s.owner[c]], d)))
    case Finish(k, id) => Some((k, EndCall(s.peers[k], id)))
    case Disconnect(k) => Some((k, Shutdown(s.peers[k])))
    case _ => None
  }

  lemma ChangedOnly(s: System, a: Action)
    requires Enabled(s, a)
    ensures var ch := Changed(s, a);
            if ch.Some? then ch.value.0 < |s.peers| && Do(s, a).peers == s.peers[ch.value.0 := ch.value.1]
            else Do(s, a).peers == s.peers
  {
    if a.Read? || a.RelayResult? {
      DispatchLeavesPeers(s, a);
    }
  }

  lemma ChangedOk(ids: seq<string>, s: System, a: Action)
    requires Enabled(s, a) && PeersOk(ids, s.peers)
    ensures PeersOk(ids, Do(s, a).peers)
  {
    ChangedOnly(s, a);
    var ch := Changed(s, a);
    if ch.Some? {
      var k := ch.value.0;
      assert PeerOk(s.peers[k], ids[k]);
      PeerStepsOk(s.peers[k], ids[k], if a.Adopt? then a.conn else 0,
                  if a.Receive? then a.answer else RELAYED, if a.Finish? then a.id else 0);
      OnePeerOk(ids, s.peers, k, ch.value.1);
    }
  }

  lemma LinksAndIdsOk(ids: seq<string>, s: System, a: Action)
    requires Enabled(s, a) && Basic(ids, s)
    ensures LinksOk(ids, Do(s, a).owner, Do(s, a).phase, Do(s, a).ident) && IdsIssued(Do(s, a).broker)
  {
    if a.Read? {
      DispatchAllocates(s.broker, s.ident[a.conn], a.conn, Rpc(a.rpc), a.info);
    } else if a.RelayResult? {
      RelayConsumes(s.broker, a.result);
    } else if a.Greet? {
      assert PeerOk(s.peers[s.owner[a.conn]], ids[s.owner[a.conn]]);
    }
  }

  lemma {:induction false} RunBasic(ids: seq<string>, actions: seq<Action>)
    ensures Basic(ids, Run(Initial(ids), actions))
  {
    if actions == [] {
      InitialOk(ids);
    } else {
      var front, a := actions[..|actions| - 1], actions[|actions| - 1];
      var s := Run(Initial(ids), front);
      RunBasic(ids, front);
      if Enabled(s, a) {
        ChangedOk(ids, s, a);
        LinksAndIdsOk(ids, s, a);
      }
    }
  }

  // ---- Overlapping connections ----

  /** A hello arriving while another connection of the same peer id is still served. */
  ghost predicate Overlaps(s: System, a: Action) {
    && a.Greet? && InPhase(s, a.conn, Opened)
    && exists c: ConnId :: Served(s, c) && c != a.conn && s.ident[c] == IdOnGreet(s, a.conn, a.fallback)
  }

  lemma GreetKeepsExact(s: System, c: ConnId, fallback: string)
    requires InPhase(s, c, Opened) && RegistryExact(s)
    ensures RegistryExact(Step(s, Greet(c, fallback))) <==> !Overlaps(s, Greet(c, fallback))
  {
    var s', id := Step(s, Greet(c, fallback)), IdOnGreet(s, c, fallback);
    if Overlaps(s, Greet(c, fallback)) {
      var d: ConnId :| Served(s, d) && d != c && s.ident[d] == id;
      assert !ConnExact(s', d);
    } else {
      forall d: ConnId
        ensures ConnExact(s', d)
      {
        assert ConnExact(s, d);
        assert d != c && Served(s', d) ==> Served(s, d) && s.ident[d] != id;
      }
      forall p | p in s'.broker.peers
        ensures Served(s', s'.broker.peers[p]) && s'.ident[s'.broker.peers[p]] == p
      {
        if p != id {
          assert Served(s, s.broker.peers[p]);
        }
      }
    }
  }

  lemma CloseKeepsExact(s: System, c: ConnId)
    requires InPhase(s, c, Serving) && RegistryExact(s)
    ensures RegistryExact(Step(s, Close(c)))
  {
    var s' := Step(s, Close(c));
    assert ConnExact(s, c);
    forall d
      ensures ConnExact(s', d)
    {
      assert ConnExact(s, d);
    }
    forall p | p in s'.broker.peers
      ensures Served(s', s'.broker.peers[p]) && s'.ident[s'.broker.peers[p]] == p
    {
      assert Served(s, s.broker.peers[p]) && p != s.ident[c];
    }
  }

  /** Same connections and same registry; pending requests name registered peers. */
  lemma UnchangedRegistry(s: System, s': System)
    requires RegistryExact(s)
    requires s.broker.peers == s'.broker.peers
    requires s.phase <= s'.phase && s.ident <= s'.ident && |s.phase| == |s.ident| && |s'.phase| == |s'.ident|
    requires forall c :: |s.phase| <= c < |s'.phase| ==> s'.phase[c] == Opened
    requires forall g :: g in s'.broker.pending ==> s'.broker.pending[g].peerId in s.broker.peers
    ensures RegistryExact(s')
  {
    forall c
      ensures ConnExact(s', c)
    {
      assert ConnExact(s, c);
    }
    forall p | p in s'.broker.peers
      ensures Served(s', s'.broker.peers[p]) && s'.ident[s'.broker.peers[p]] == p
    {
      assert Served(s, s.broker.peers[p]);
    }
  }

  lemma ReadKeepsExact(s: System, c: ConnId, rpc: PeerRpc, info: Json)
    requires Enabled(s, Read(c, rpc, info)) && RegistryExact(s) && IdsIssued(s.broker) && |s.phase| == |s.ident|
    ensures RegistryExact(Do(s, Read(c, rpc, info)))
  {
    assert ConnExact(s, c);
    DispatchAllocates(s.broker, s.ident[c], c, Rpc(rpc), info);
    UnchangedRegistry(s, Do(s, Read(c, rpc, info)));
  }

  ghost predicate LeavesBroker(a: Action) {
    !a.Greet? && !a.Close? && !a.Read? && !a.RelayResult?
  }

  lemma OthersLeaveBroker(s: System, a: Action)
    requires LeavesBroker(a) && Enabled(s, a) && |s.phase| == |s.ident|
    ensures Do(s, a).broker == s.broker
    ensures s.phase <= Do(s, a).phase && s.ident <= Do(s, a).ident && |Do(s, a).phase| == |Do(s, a).ident|
    ensures forall c :: |s.phase| <= c < |Do(s, a).phase| ==> Do(s, a).phase[c] == Opened
  {
  }

  lemma RelayKeepsExact(s: System, r: ExtResult)
    requires RegistryExact(s) && |s.phase| == |s.ident|
    ensures RegistryExact(Step(s, RelayResult(r)))
  {
    RelayConsumes(s.broker, r);
    UnchangedRegistry(s, Step(s, RelayResult(r)));
  }

  /** From an exact registry, the next state is exact again unless the step is an overlapping hello. */
  lemma ExactStep(s: System, a: Action)
    requires |s.phase| == |s.ident| && IdsIssued(s.broker) && RegistryExact(s)
    ensures RegistryExact(Step(s, a)) <==> !Overlaps(s, a)
  {
    if !Enabled(s, a) {
    } else if a.Greet? {
      GreetKeepsExact(s, a.conn, a.fallback);
    } else if a.Close? {
      CloseKeepsExact(s, a.conn);
    } else if a.Read? {
      ReadKeepsExact(s, a.conn, a.rpc, a.info);
    } else if a.RelayResult? {
      RelayKeepsExact(s, a.result);
    } else {
      OthersLeaveBroker(s, a);
      UnchangedRegistry(s, Do(s, a));
    }
  }

  lemma ExactStepOfRun(ids: seq<string>, actions: seq<Action>, a: Action)
    requires RegistryExact(Run(Initial(ids), actions))
    ensures RegistryExact(Run(Initial(ids), actions + [a])) <==> !Overlaps(Run(Initial(ids), actions), a)
  {
    RunBasic(ids, actions);
    RunSnoc(Initial(ids), actions, a);
    ExactStep(Run(Initial(ids), actions), a);
  }

  lemma InitiallyExact(ids: seq<string>)
    ensures RegistryExact(Initial(ids))
  {
    forall c
      ensures ConnExact(Initial(ids), c)
    {
    }
  }

  /** After every prefix of the run. */
  ghost predicate ExactThroughout(ids: seq<string>, actions: seq<Action>) {
    && RegistryExact(Run(Initial(ids), actions))
    && (actions != [] ==> ExactThroughout(ids, actions[..|actions| - 1]))
  }

  ghost predicate NeverOverlaps(ids: seq<string>, actions: seq<Action>) {
    actions != [] ==>
      && NeverOverlaps(ids, actions[..|actions| - 1])
      && !Overlaps(Run(Initial(ids), actions[..|actions| - 1]), actions[|actions| - 1])
  }

  /** The registry is exact at every moment of a run exactly when no hello of the run overlaps
      a served connection with the same peer id. */
  lemma {:induction false} ExactIffNoOverlap(ids: seq<string>, actions: seq<Action>)
    ensures ExactThroughout(ids, actions) <==> NeverOverlaps(ids, actions)
  {
    if actions == [] {
      InitiallyExact(ids);
    } else {
      var front, last := actions[..|actions| - 1], actions[|actions| - 1];
      assert actions == front + [last];
      ExactIffNoOverlap(ids, front);
      if ExactThroughout(ids, front) {
        ExactStepOfRun(ids, front, last);
      }
    }
  }
}
