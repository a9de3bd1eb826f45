/** What the RPC system promises over whole runs, and exactly when. */
module RpcGuarantees {
  import opened Wire
  import opened Broker
  import opened GatewayPeer
  import opened RpcMultiplexer
  import Text

  lemma RunSnoc(s: System, actions: seq<Action>, a: Action)
    ensures Run(s, actions + [a]) == Step(Run(s, actions), a)
  {
    assert (actions + [a])[..|actions|] == actions;
  }

  // ---- At most once ----

  ghost predicate NothingUndone(s: System, s': System) {
    && |s.peers| == |s'.peers|
    && forall k {:trigger s.peers[k]} {:trigger s'.peers[k]} ::
         0 <= k < |s.peers| ==> Keeps(s.peers[k].futures, s'.peers[k].futures)
  }

  lemma OneChanged(s: System, s': System, k: nat, p: PeerState)
    requires k < |s.peers| && Keeps(s.peers[k].futures, p.futures) && s'.peers == s.peers[k := p]
    ensures NothingUndone(s, s')
  {
  }

  lemma StepUndoesNothing(s: System, a: Action)
    ensures NothingUndone(s, Step(s, a))
  {
    if Enabled(s, a) {
      var s' := Do(s, a);
      match a
      case Read(_, _, _) => DispatchLeavesPeers(s, a);
      case RelayResult(_) => DispatchLeavesPeers(s, a);
      case Adopt(k, c) => OneChanged(s, s', k, s.peers[k].(conn := Some(c)));
      case Begin(k, _, _, _, _) =>
        StepsKeepOutcomes(s.peers[k], RELAYED, 0);
        OneChanged(s, s', k, BeginCall(s.peers[k]));
      case Receive(c, d) =>
        StepsKeepOutcomes(s.peers[s.owner[c]], d, 0);
        OneChanged(s, s', s.owner[c], OnResult(s.peers[s.owner[c]], d));
      case Finish(k, id) =>
        StepsKeepOutcomes(s.peers[k], RELAYED, id);
        OneChanged(s, s', k, EndCall(s.peers[k], id));
      case Disconnect(k) =>
        StepsKeepOutcomes(s.peers[k], RELAYED, 0);
        OneChanged(s, s', k, Shutdown(s.peers[k]));
      case _ =>
    }
  }

  lemma DispatchLeavesPeers(s: System, a: Action)
    requires Enabled(s, a) && (a.Read? || a.RelayResult?)
    ensures Do(s, a).peers == s.peers
  {
  }

  /** A future, once completed, never changes again, whatever happens afterwards. */
  lemma {:induction false} CompletedAtMostOnce(s: System, actions: seq<Action>, n: nat)
    requires n <= |actions|
    ensures NothingUndone(Run(s, actions[..n]), Run(s, actions))
    decreases |actions|
  {
    if n == |actions| {
      assert actions[..n] == actions;
    } else {
      var front, last := actions[..|actions| - 1], actions[|actions| - 1];
      assert front[..n] == actions[..n];
      CompletedAtMostOnce(s, front, n);
      StepUndoesNothing(Run(s, front), last);
      ThroughTheMiddle(Run(s, actions[..n]), Run(s, front), Run(s, actions));
    }
  }

  lemma ThroughTheMiddle(s: System, t: System, u: System)
    requires NothingUndone(s, t) && NothingUndone(t, u)
    ensures NothingUndone(s, u)
  {
    forall k | 0 <= k < |s.peers|
      ensures Keeps(s.peers[k].futures, u.peers[k].futures)
    {
      assert Keeps(s.peers[k].futures, t.peers[k].futures) && Keeps(t.peers[k].futures, u.peers[k].futures);
    }
  }

  /** Ids answered so far were handed out and are not outstanding. */
  ghost predicate AnswersSpent(b: BrokerState, relayed: seq<int>) {
    IdsIssued(b) && RelayedOk(b, relayed)
  }

  lemma ReadSpends(b: BrokerState, relayed: seq<int>, peerId: string, c: ConnId, rpc: PeerRpc, info: Json)
    requires AnswersSpent(b, relayed)
    ensures AnswersSpent(Dispatch(b, peerId, c, Rpc(rpc), info).0, relayed)
  {
    DispatchAllocates(b, peerId, c, Rpc(rpc), info);
  }

  lemma RelaySpends(b: BrokerState, relayed: seq<int>, r: ExtResult)
    requires AnswersSpent(b, relayed)
    ensures var (b', eff) := Relay(b, r); AnswersSpent(b', if eff.Answer? then relayed + [r.id.value] else relayed)
  {
    RelayConsumes(b, r);
  }

  lemma StepSpends(s: System, a: Action)
    requires AnswersSpent(s.broker, s.relayed)
    ensures AnswersSpent(Step(s, a).broker, Step(s, a).relayed)
  {
    if Enabled(s, a) {
      match a
      case Read(c, rpc, info) => ReadSpends(s.broker, s.relayed, s.ident[c], c, rpc, info);
      case RelayResult(r) => RelaySpends(s.broker, s.relayed, r);
      case _ =>
    }
  }

  /** Whatever peer ids clients use and whatever the extension sends, no global id is answered twice. */
  lemma {:induction false} AnsweredAtMostOnce(ids: seq<string>, actions: seq<Action>)
    ensures var s := Run(Initial(ids), actions); AnswersSpent(s.broker, s.relayed) && AnsweredOnce(s.relayed)
  {
    if actions != [] {
      AnsweredAtMostOnce(ids, actions[..|actions| - 1]);
      StepSpends(Run(Initial(ids), actions[..|actions| - 1]), actions[|actions| - 1]);
    }
  }

  // ---- Correlation, exactly ----

  ghost predicate AlwaysCorrelated(ids: seq<string>) {
    forall actions :: Correlated(Run(Initial(ids), actions))
  }

  /** Where the broker can tell all clients apart every run is correlated. */
  lemma DistinctIdsCorrelate(ids: seq<string>, actions: seq<Action>)
    requires DistinctIds(ids)
    ensures Correlated(Run(Initial(ids), actions))
  {
    RunKeeps(ids, actions);
  }

  const ASK := "tabs.list"

  function CallOf(k: nat): PeerRpc {
    PeerRpc(1, ASK, None, 0, Call(k, 0))
  }

  const REPLY := ExtResult(Some(1), true, "[]", None)

  const RELAYED := PeerResult(1, Good("[]"), FromExtension(1))

  lemma AskIsForwarded(b: BrokerState, peerId: string, conn: ConnId, k: nat)
    requires b.nextGlobalId == 1
    ensures Dispatch(b, peerId, conn, Rpc(CallOf(k)), "")
         == (b.(nextGlobalId := 2, pending := b.pending[1 := Route(peerId, 1)]),
             Forward(ExtRequest(1, ASK, None, None, Call(k, 0))))
  {
    assert Text.Strip(ASK) == ASK;
  }

  /** An id under which the broker may know both clients. */
  function CommonId(a: string, b: string): string {
    if Text.Strip(a) != "" then Text.Strip(a) else if Text.Strip(b) != "" then Text.Strip(b) else "peer"
  }

  lemma CommonIdServes(a: string, b: string)
    requires !Apart(a, b)
    ensures HelloId(a, CommonId(a, b)) == HelloId(b, CommonId(a, b)) == CommonId(a, b)
  {
  }

  /** Two clients under one peer id, both connected; the newer connection is the registered one. */
  function BothConnected(ids: seq<string>, i: nat, j: nat): System
    requires i < j < |ids|
  {
    var s, id := Initial(ids), CommonId(ids[i], ids[j]);
    s.(owner := [i, j], phase := [Serving, Serving], ident := [id, id],
       broker := BrokerState(map[id := 1], 1, map[], map[0 := {}, 1 := {}]),
       peers := s.peers[j := Start(ids[j]).(conn := Some(1))])
  }

  lemma ConnectBoth(ids: seq<string>, i: nat, j: nat) returns (actions: seq<Action>)
    requires i < j < |ids| && !Apart(ids[i], ids[j])
    ensures Run(Initial(ids), actions) == BothConnected(ids, i, j)
  {
    var s0, id := Initial(ids), CommonId(ids[i], ids[j]);
    CommonIdServes(ids[i], ids[j]);
    var s1 := Step(s0, Connect(i));
    var s2 := Step(s1, Greet(0, id));
    assert s2 == s0.(owner := [i], phase := [Serving], ident := [id], broker := BrokerState(map[id := 0], 1, map[], map[0 := {}]));
    var s3 := Step(s2, Connect(j));
    var s4 := Step(s3, Greet(1, id));
    assert s4 == s0.(owner := [i, j], phase := [Serving, Serving], ident := [id, id],
                     broker := BrokerState(map[id := 1], 1, map[], map[0 := {}, 1 := {}]));
    var s5 := Step(s4, Adopt(j, 1));
    assert s5 == BothConnected(ids, i, j);
    actions := [Connect(i)];
    assert actions[..0] == [];
    actions := RunMore(s0, actions, Greet(0, id));
    actions := RunMore(s0, actions, Connect(j));
    actions := RunMore(s0, actions, Greet(1, id));
    actions := RunMore(s0, actions, Adopt(j, 1));
  }

  lemma RunMore(s: System, actions: seq<Action>, a: Action) returns (longer: seq<Action>)
    ensures longer == actions + [a] && Run(s, longer) == Step(Run(s, actions), a)
  {
    longer := actions + [a];
    RunSnoc(s, actions, a);
  }

  /** The older client's call has been forwarded; the newer one waits under the same local id. */
  function BothAsked(ids: seq<string>, i: nat, j: nat): System
    requires i < j < |ids|
  {
    var s, id := BothConnected(ids, i, j), CommonId(ids[i], ids[j]);
    s.(peers := s.peers[i := BeginCall(s.peers[i])][j := BeginCall(s.peers[j])],
       outbox := {(1, CallOf(j))},
       broker := BrokerState(map[id := 1], 2, map[1 := Route(id, 1)], map[0 := {}, 1 := {}]),
       forwarded := map[1 := Call(i, 0)], askedOn := map[1 := 0])
  }

  lemma AskBoth(ids: seq<string>, i: nat, j: nat) returns (actions: seq<Action>)
    requires i < j < |ids| && !Apart(ids[i], ids[j])
    ensures Run(Initial(ids), actions) == BothAsked(ids, i, j)
  {
    actions := ConnectBoth(ids, i, j);
    var s0, id := Initial(ids), CommonId(ids[i], ids[j]);
    var t0 := BothConnected(ids, i, j);
    var t1 := Step(t0, Begin(i, 0, ASK, None, 0));
    assert t1 == t0.(peers := t0.peers[i := BeginCall(t0.peers[i])], outbox := {(0, CallOf(i))});
    var t2 := Step(t1, Write(0, CallOf(i)));
    assert t2 == t1.(outbox := {}, up := {(0, CallOf(i))});
    AskIsForwarded(t2.broker, id, 0, i);
    var t3 := Step(t2, Read(0, CallOf(i), ""));
    assert t3 == t2.(up := {}, forwarded := map[1 := Call(i, 0)], askedOn := map[1 := 0],
                     broker := BrokerState(map[id := 1], 2, map[1 := Route(id, 1)], map[0 := {}, 1 := {}]));
    var t4 := Step(t3, Begin(j, 1, ASK, None, 0));
    assert t4 == BothAsked(ids, i, j);
    actions := RunMore(s0, actions, Begin(i, 0, ASK, None, 0));
    actions := RunMore(s0, actions, Write(0, CallOf(i)));
    actions := RunMore(s0, actions, Read(0, CallOf(i), ""));
    actions := RunMore(s0, actions, Begin(j, 1, ASK, None, 0));
  }

  /** The extension's answer to the older client completes the newer client's future. */
  lemma SharedIdMisdelivers(ids: seq<string>, i: nat, j: nat) returns (actions: seq<Action>)
    requires i < j < |ids| && !Apart(ids[i], ids[j])
    ensures !Correlated(Run(Initial(ids), actions))
  {
    actions := AskBoth(ids, i, j);
    var s0 := Initial(ids);
    var t0 := BothAsked(ids, i, j);
    var t1 := Step(t0, Emit(REPLY));
    assert t1 == t0.(emitted := multiset{REPLY}, said := {REPLY});
    var t2 := Step(t1, RelayResult(REPLY));
    assert Relay(t1.broker, REPLY) == (t1.broker.(pending := map[]), Answer(1, RELAYED));
    assert t2.peers == t1.peers && t2.owner == t1.owner && t2.forwarded == t1.forwarded && (1, RELAYED) in t2.down;
    var t3 := Step(t2, Receive(1, RELAYED));
    assert t3.peers[j] == OnResult(t2.peers[j], RELAYED);
    assert t3.peers[j].futures[0] == Some(Settled(Value("[]"), FromExtension(1)));
    assert !OutcomeOk(t3.forwarded, t3.said, t3.peers[j].futures[0], Call(j, 0));
    assert !FuturesOk(t3.forwarded, t3.said, t3.peers[j], j);
    actions := RunMore(s0, actions, Emit(REPLY));
    actions := RunMore(s0, actions, RelayResult(REPLY));
    actions := RunMore(s0, actions, Receive(1, RELAYED));
  }

  /** Futures always get their own answers exactly when the broker can tell the ids of any two clients apart. */
  lemma CorrelationIffDistinctIds(ids: seq<string>)
    ensures AlwaysCorrelated(ids) <==> DistinctIds(ids)
  {
    if DistinctIds(ids) {
      forall actions
        ensures Correlated(Run(Initial(ids), actions))
      {
        DistinctIdsCorrelate(ids, actions);
      }
    } else {
      var i, j :| 0 <= i < j < |ids| && !Apart(ids[i], ids[j]);
      var actions := SharedIdMisdelivers(ids, i, j);
    }
  }
}
