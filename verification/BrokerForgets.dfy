/** What the end of a connection takes from others.

    The cleanup goes by peer id, not by connection. When a client has reconnected under its old
    peer id before the broker notices that its previous connection ended, that late end can take the
    new connection's registration and outstanding calls with it. */
module BrokerForgets {
  import opened Wire
  import opened Broker
  import opened GatewayPeer
  import opened RpcMultiplexer
  import opened RpcGuarantees
  import opened BrokerRegistry

  // ---- Outstanding calls and their connections ----

  ghost predicate EntryOnServed(s: System, g: int)
    requires g in s.broker.pending
  {
    g in s.askedOn && Served(s, s.askedOn[g]) && s.ident[s.askedOn[g]] == s.broker.pending[g].peerId
  }

  /** Every outstanding call was read on a connection that is still served, under its peer id. */
  ghost predicate EntriesOnServed(s: System) {
    forall g {:trigger EntryOnServed(s, g)} :: g in s.broker.pending ==> EntryOnServed(s, g)
  }

  lemma GreetKeepsEntries(s: System, c: ConnId, fallback: string)
    requires EntriesOnServed(s) && InPhase(s, c, Opened)
    ensures EntriesOnServed(Step(s, Greet(c, fallback)))
  {
    forall g | g in s.broker.pending
      ensures EntryOnServed(Step(s, Greet(c, fallback)), g)
    {
      assert EntryOnServed(s, g);
    }
  }

  lemma CloseKeepsEntries(s: System, c: ConnId)
    requires EntriesOnServed(s) && InPhase(s, c, Serving)
    ensures EntriesOnServed(Step(s, Close(c)))
  {
    var s' := Step(s, Close(c));
    forall g | g in s'.broker.pending
      ensures EntryOnServed(s', g)
    {
      assert EntryOnServed(s, g);
    }
  }

  lemma ReadKeepsEntries(s: System, c: ConnId, rpc: PeerRpc, info: Json)
    requires EntriesOnServed(s) && Enabled(s, Read(c, rpc, info)) && IdsIssued(s.broker)
    ensures EntriesOnServed(Step(s, Read(c, rpc, info)))
  {
    var s' := Step(s, Read(c, rpc, info));
    DispatchAllocates(s.broker, s.ident[c], c, Rpc(rpc), info);
    forall g | g in s'.broker.pending
      ensures EntryOnServed(s', g)
    {
      if g in s.broker.pending {
        assert EntryOnServed(s, g);
      }
    }
  }

  lemma RelayKeepsEntries(s: System, r: ExtResult)
    requires EntriesOnServed(s)
    ensures EntriesOnServed(Step(s, RelayResult(r)))
  {
    RelayConsumes(s.broker, r);
    var s' := Step(s, RelayResult(r));
    forall g | g in s'.broker.pending
      ensures EntryOnServed(s', g)
    {
      assert EntryOnServed(s, g);
    }
  }

  lemma OthersKeepEntries(s: System, a: Action)
    requires EntriesOnServed(s) && LeavesBroker(a) && Enabled(s, a) && |s.phase| == |s.ident|
    ensures EntriesOnServed(Step(s, a)) && Step(s, a).broker == s.broker
  {
    OthersLeaveBroker(s, a);
    assert Do(s, a).askedOn == s.askedOn;
    forall g | g in s.broker.pending
      ensures EntryOnServed(Do(s, a), g)
    {
      assert EntryOnServed(s, g);
    }
  }

  lemma StepKeepsEntries(s: System, a: Action)
    requires EntriesOnServed(s) && IdsIssued(s.broker) && |s.phase| == |s.ident|
    ensures EntriesOnServed(Step(s, a))
  {
    if Enabled(s, a) {
      match a
      case Greet(c, fallback) => GreetKeepsEntries(s, c, fallback);
      case Close(c) => CloseKeepsEntries(s, c);
      case Read(c, rpc, info) => ReadKeepsEntries(s, c, rpc, info);
      case RelayResult(r) => RelayKeepsEntries(s, r);
      case _ => OthersKeepEntries(s, a);
    }
  }

  /** In every run of any clients. */
  lemma {:induction false} RunEntriesOnServed(ids: seq<string>, actions: seq<Action>)
    ensures EntriesOnServed(Run(Initial(ids), actions))
  {
    if actions != [] {
      var front := actions[..|actions| - 1];
      RunEntriesOnServed(ids, front);
      RunBasic(ids, front);
      StepKeepsEntries(Run(Initial(ids), front), actions[|actions| - 1]);
    }
  }

  // ---- What an end takes from another connection ----

  ghost predicate HasCalls(s: System, d: ConnId) {
    exists g :: g in s.broker.pending && g in s.askedOn && s.askedOn[g] == d
  }

  predicate IsRegistered(s: System, d: ConnId) {
    d < |s.ident| && s.ident[d] in s.broker.peers && s.broker.peers[s.ident[d]] == d
  }

  /** The end of c takes another served connection's registration or one of its outstanding calls. */
  ghost predicate TakesFrom(s: System, c: ConnId, d: ConnId) {
    && InPhase(s, c, Serving) && d != c && Served(s, d)
    && var s' := Step(s, Close(c));
       || (IsRegistered(s, d) && !IsRegistered(s', d))
       || exists g :: g in s.broker.pending && g in s.askedOn && s.askedOn[g] == d && g !in s'.broker.pending
  }

  /** Another served connection has c's peer id, and is the registered one or has calls outstanding. */
  ghost predicate TakesOnEnd(s: System, c: ConnId) {
    exists d: ConnId ::
      d != c && Served(s, d) && c < |s.ident| && s.ident[d] == s.ident[c] && (IsRegistered(s, d) || HasCalls(s, d))
  }

  lemma TakesIff(s: System, c: ConnId, d: ConnId)
    requires EntriesOnServed(s) && InPhase(s, c, Serving) && d != c && Served(s, d)
    ensures TakesFrom(s, c, d) <==> s.ident[d] == s.ident[c] && (IsRegistered(s, d) || HasCalls(s, d))
  {
    forall g | g in s.broker.pending
      ensures EntryOnServed(s, g)
    {
    }
  }

  /** The end of c takes something from some other connection exactly when one of its peer id has it. */
  lemma EndTakesIff(s: System, c: ConnId)
    requires EntriesOnServed(s) && InPhase(s, c, Serving)
    ensures (exists d :: TakesFrom(s, c, d)) <==> TakesOnEnd(s, c)
  {
    if d :| TakesFrom(s, c, d) {
      TakesIff(s, c, d);
    }
    if TakesOnEnd(s, c) {
      var d: ConnId :| d != c && Served(s, d) && s.ident[d] == s.ident[c] && (IsRegistered(s, d) || HasCalls(s, d));
      TakesIff(s, c, d);
    }
  }

  ghost predicate NothingTaken(ids: seq<string>, actions: seq<Action>) {
    actions != [] ==>
      && NothingTaken(ids, actions[..|actions| - 1])
      && var s, a := Run(Initial(ids), actions[..|actions| - 1]), actions[|actions| - 1];
         a.Close? ==> forall d :: !TakesFrom(s, a.conn, d)
  }

  ghost predicate EndsAlone(ids: seq<string>, actions: seq<Action>) {
    actions != [] ==>
      && EndsAlone(ids, actions[..|actions| - 1])
      && var s, a := Run(Initial(ids), actions[..|actions| - 1]), actions[|actions| - 1];
         a.Close? && InPhase(s, a.conn, Serving) ==> !TakesOnEnd(s, a.conn)
  }

  /** In a run of any clients no end of a connection takes anything from another served one exactly when
      no connection ends while another of its peer id is registered or has calls outstanding. */
  lemma {:induction false} NothingTakenIff(ids: seq<string>, actions: seq<Action>)
    ensures NothingTaken(ids, actions) <==> EndsAlone(ids, actions)
  {
    if actions != [] {
      var front, a := actions[..|actions| - 1], actions[|actions| - 1];
      NothingTakenIff(ids, front);
      RunEntriesOnServed(ids, front);
      if a.Close? && InPhase(Run(Initial(ids), front), a.conn, Serving) {
        EndTakesIff(Run(Initial(ids), front), a.conn);
      }
    }
  }

  // ---- Stranded calls ----

  /** A result for an outstanding call would reach some connection. */
  predicate AllAnswerable(s: System) {
    forall g :: g in s.broker.pending ==> s.broker.pending[g].peerId in s.broker.peers
  }

  /** An outstanding call is forgotten only by its own result or the end of its own connection. */
  ghost predicate ForgetsOwnOnly(s: System, a: Action) {
    forall g :: g in s.broker.pending && g !in Step(s, a).broker.pending ==>
      (a.RelayResult? && a.result.id == Some(g)) || (a.Close? && g in s.askedOn && s.askedOn[g] == a.conn)
  }

  /** A connection ends while another of its peer id has calls outstanding, or a call is forwarded for a
      connection whose peer id is not registered any more. */
  ghost predicate Strands(s: System, a: Action) {
    Enabled(s, a) &&
    match a
    case Close(c) => exists d: ConnId :: d != c && d < |s.ident| && s.ident[d] == s.ident[c] && HasCalls(s, d)
    case Read(c, rpc, info) => Dispatch(s.broker, s.ident[c], c, Rpc(rpc), info).1.Forward? && s.ident[c] !in s.broker.peers
    case _ => false
  }

  lemma CloseStrandsIff(s: System, c: ConnId)
    requires EntriesOnServed(s) && InPhase(s, c, Serving) && AllAnswerable(s)
    ensures ForgetsOwnOnly(s, Close(c)) && AllAnswerable(Step(s, Close(c))) <==> !Strands(s, Close(c))
  {
    forall g | g in s.broker.pending
      ensures EntryOnServed(s, g)
    {
    }
    if Strands(s, Close(c)) {
      var d: ConnId :| d != c && d < |s.ident| && s.ident[d] == s.ident[c] && HasCalls(s, d);
      var g :| g in s.broker.pending && g in s.askedOn && s.askedOn[g] == d;
      assert g !in Step(s, Close(c)).broker.pending;
    } else {
      forall g | g in s.broker.pending && g !in Step(s, Close(c)).broker.pending
        ensures s.askedOn[g] == c
      {
        assert HasCalls(s, s.askedOn[g]);
      }
    }
  }

  lemma ReadStrandsIff(s: System, c: ConnId, rpc: PeerRpc, info: Json)
    requires Enabled(s, Read(c, rpc, info)) && AllAnswerable(s) && IdsIssued(s.broker)
    ensures var a := Read(c, rpc, info); ForgetsOwnOnly(s, a) && AllAnswerable(Step(s, a)) <==> !Strands(s, a)
  {
    DispatchAllocates(s.broker, s.ident[c], c, Rpc(rpc), info);
    var s' := Step(s, Read(c, rpc, info));
    if Strands(s, Read(c, rpc, info)) {
      assert s'.broker.pending[s.broker.nextGlobalId].peerId !in s'.broker.peers;
    }
  }

  lemma StepStrandsIff(s: System, a: Action)
    requires EntriesOnServed(s) && AllAnswerable(s) && IdsIssued(s.broker) && |s.phase| == |s.ident|
    ensures ForgetsOwnOnly(s, a) && AllAnswerable(Step(s, a)) <==> !Strands(s, a)
  {
    if Enabled(s, a) {
      match a
      case Close(c) => CloseStrandsIff(s, c);
      case Read(c, rpc, info) => ReadStrandsIff(s, c, rpc, info);
      case RelayResult(r) => RelayConsumes(s.broker, r);
      case Greet(c, fallback) =>
      case _ => OthersKeepEntries(s, a);
    }
  }

  /** At every moment: nothing forgotten that was not a call's own, and all outstanding calls answerable. */
  ghost predicate NeverStranded(ids: seq<string>, actions: seq<Action>) {
    && AllAnswerable(Run(Initial(ids), actions))
    && (actions != [] ==> NeverStranded(ids, actions[..|actions| - 1])
                          && ForgetsOwnOnly(Run(Initial(ids), actions[..|actions| - 1]), actions[|actions| - 1]))
  }

  ghost predicate NeverStrands(ids: seq<string>, actions: seq<Action>) {
    actions != [] ==>
      NeverStrands(ids, actions[..|actions| - 1]) && !Strands(Run(Initial(ids), actions[..|actions| - 1]), actions[|actions| - 1])
  }

  /** Throughout a run of any clients every outstanding call stays in the table until its own result or the
      end of its own connection, and can be answered, exactly when no step strands one. */
  lemma {:induction false} StrandedIff(ids: seq<string>, actions: seq<Action>)
    ensures NeverStranded(ids, actions) <==> NeverStrands(ids, actions)
  {
    if actions != [] {
      var front, a := actions[..|actions| - 1], actions[|actions| - 1];
      StrandedIff(ids, front);
      RunEntriesOnServed(ids, front);
      RunBasic(ids, front);
      if NeverStranded(ids, front) {
        StepStrandsIff(Run(Initial(ids), front), a);
      }
    }
  }

  lemma CallsAreServed(s: System, d: ConnId)
    requires EntriesOnServed(s)
    ensures HasCalls(s, d) ==> Served(s, d)
  {
    forall g | g in s.broker.pending
      ensures EntryOnServed(s, g)
    {
    }
  }

  lemma ExactNeitherTakesNorStrands(s: System, a: Action)
    requires RegistryExact(s) && EntriesOnServed(s)
    ensures !Strands(s, a) && (a.Close? && InPhase(s, a.conn, Serving) ==> !TakesOnEnd(s, a.conn))
  {
    if a.Close? && InPhase(s, a.conn, Serving) {
      assert ConnExact(s, a.conn);
      forall d: ConnId | d != a.conn && d < |s.ident| && s.ident[d] == s.ident[a.conn]
        ensures !Served(s, d) && !HasCalls(s, d)
      {
        assert ConnExact(s, d);
        CallsAreServed(s, d);
      }
    } else if a.Read? && Enabled(s, a) {
      assert ConnExact(s, a.conn);
    }
  }

  /** Without overlapping connections of one peer id nothing is taken and nothing stranded. */
  lemma NoOverlapNothingLost(ids: seq<string>, actions: seq<Action>)
    requires NeverOverlaps(ids, actions)
    ensures NothingTaken(ids, actions) && NeverStranded(ids, actions)
  {
    NoOverlapCareful(ids, actions);
    NothingTakenIff(ids, actions);
    StrandedIff(ids, actions);
  }

  lemma {:induction false} NoOverlapCareful(ids: seq<string>, actions: seq<Action>)
    requires NeverOverlaps(ids, actions)
    ensures EndsAlone(ids, actions) && NeverStrands(ids, actions)
  {
    if actions != [] {
      var front := actions[..|actions| - 1];
      NoOverlapCareful(ids, front);
      ExactIffNoOverlap(ids, front);
      RunEntriesOnServed(ids, front);
      ExactNeitherTakesNorStrands(Run(Initial(ids), front), actions[|actions| - 1]);
    }
  }

  // ---- It happens, and overlap alone does not make it happen ----

  /** The served connection is no longer registered and its outstanding call is forgotten:
      no result the extension could send will be answered. */
  ghost predicate Stranded(s: System) {
    && s.phase == [Ended, Serving] && s.owner == [0, 0]
    && |s.peers| == 1 && s.peers[0].conn == Some(1)
    && s.peers[0].futures == [None] && s.peers[0].pending == map[1 := 0]
    && s.forwarded == map[1 := Call(0, 0)] && s.askedOn == map[1 := 1]
    && s.broker.peers == map[]
    && forall r :: Relay(s.broker, r).1 == Silent
  }

  /** What the broker calls the client. */
  function Known(id: string): string {
    HelloId(id, "peer")
  }

  function Reconnected(id: string): System {
    var s := Initial([id]);
    s.(owner := [0, 0], phase := [Serving, Serving], ident := [Known(id), Known(id)],
       broker := BrokerState(map[Known(id) := 1], 1, map[], map[0 := {}, 1 := {}]),
       peers := [Start(id).(conn := Some(1))])
  }

  function Connected(id: string): System {
    var s := Initial([id]);
    s.(owner := [0], phase := [Serving], ident := [Known(id)], broker := BrokerState(map[Known(id) := 0], 1, map[], map[0 := {}]))
  }

  lemma ConnectOnce(id: string) returns (actions: seq<Action>)
    ensures Run(Initial([id]), actions) == Connected(id)
  {
    var s0 := Initial([id]);
    assert s0.peers == [Start(id)];
    var s1 := Step(s0, Connect(0));
    var s2 := Step(s1, Greet(0, "peer"));
    assert s2 == Connected(id);
    actions := [Connect(0)];
    assert actions[..0] == [];
    actions := RunMore(s0, actions, Greet(0, "peer"));
  }

  lemma GreetAgain(id: string)
    ensures Step(Step(Step(Connected(id), Connect(0)), Greet(1, "peer")), Adopt(0, 1)) == Reconnected(id)
  {
    var s2 := Connected(id);
    assert s2.peers == [Start(id)];
    var s4 := Step(Step(s2, Connect(0)), Greet(1, "peer"));
    assert s4.peers == s2.peers && s4.ident == [Known(id), Known(id)] && s4.phase == [Serving, Serving];
  }

  lemma Reconnect(id: string) returns (actions: seq<Action>)
    ensures Run(Initial([id]), actions) == Reconnected(id)
  {
    actions := ConnectOnce(id);
    var s0 := Initial([id]);
    GreetAgain(id);
    actions := RunMore(s0, actions, Connect(0));
    actions := RunMore(s0, actions, Greet(1, "peer"));
    actions := RunMore(s0, actions, Adopt(0, 1));
  }

  function Asked(id: string): System {
    var s := Reconnected(id);
    s.(peers := [BeginCall(s.peers[0])], forwarded := map[1 := Call(0, 0)], askedOn := map[1 := 1],
       broker := BrokerState(map[Known(id) := 1], 2, map[1 := Route(Known(id), 1)], map[0 := {}, 1 := {}]))
  }

  lemma AskAfterReconnect(id: string) returns (actions: seq<Action>)
    ensures Run(Initial([id]), actions) == Asked(id)
  {
    actions := Reconnect(id);
    var s0 := Initial([id]);
    var t0 := Reconnected(id);
    var t1 := Step(t0, Begin(0, 1, ASK, None, 0));
    assert t1 == t0.(peers := [BeginCall(t0.peers[0])], outbox := {(1, CallOf(0))});
    var t2 := Step(t1, Write(1, CallOf(0)));
    assert t2 == t1.(outbox := {}, up := {(1, CallOf(0))});
    AskIsForwarded(t2.broker, Known(id), 1, 0);
    var t3 := Step(t2, Read(1, CallOf(0), ""));
    assert t3 == Asked(id);
    actions := RunMore(s0, actions, Begin(0, 1, ASK, None, 0));
    actions := RunMore(s0, actions, Write(1, CallOf(0)));
    actions := RunMore(s0, actions, Read(1, CallOf(0), ""));
  }

  /** A client reconnects, asks, and only then does the broker notice that its old connection ended. */
  lemma OverlapStrandsACall(id: string) returns (actions: seq<Action>)
    ensures Stranded(Run(Initial([id]), actions))
  {
    actions := AskAfterReconnect(id);
    var t := Step(Asked(id), Close(0));
    assert t == Asked(id).(phase := [Ended, Serving], broker := Asked(id).broker.(peers := map[], pending := map[]));
    actions := RunMore(Initial([id]), actions, Close(0));
  }

  lemma ReceiveAnswer(id: string, t: System)
    requires t.peers == Asked(id).peers && t.owner == [0, 0] && (1, RELAYED) in t.down
    ensures var t' := Step(t, Receive(1, RELAYED));
            t'.peers == [OnResult(t.peers[0], RELAYED)] && t'.phase == t.phase && t'.ident == t.ident
    ensures OnResult(t.peers[0], RELAYED).futures == [Some(Settled(Value("[]"), FromExtension(1)))]
  {
  }

  lemma RelayToReconnected(id: string)
    ensures var t := Step(Step(Asked(id), Emit(REPLY)), RelayResult(REPLY));
            && t.peers == Asked(id).peers && t.owner == [0, 0] && (1, RELAYED) in t.down
            && t.phase == [Serving, Serving] && t.ident == [Known(id), Known(id)]
  {
    var t1 := Step(Asked(id), Emit(REPLY));
    assert t1 == Asked(id).(emitted := multiset{REPLY}, said := {REPLY});
    assert Relay(t1.broker, REPLY) == (t1.broker.(pending := map[]), Answer(1, RELAYED));
  }

  /** The same run without the late close: both connections are still served under one peer id, and the
      extension's answer completes the call. */
  lemma WithoutLateCloseAnswered(id: string) returns (actions: seq<Action>)
    ensures var s := Run(Initial([id]), actions);
            && |s.peers| == 1 && s.peers[0].futures == [Some(Settled(Value("[]"), FromExtension(1)))]
            && Served(s, 0) && Served(s, 1) && s.ident[0] == s.ident[1]
  {
    actions := AskAfterReconnect(id);
    var s0 := Initial([id]);
    RelayToReconnected(id);
    ReceiveAnswer(id, Step(Step(Asked(id), Emit(REPLY)), RelayResult(REPLY)));
    actions := RunMore(s0, actions, Emit(REPLY));
    actions := RunMore(s0, actions, RelayResult(REPLY));
    actions := RunMore(s0, actions, Receive(1, RELAYED));
  }
}
