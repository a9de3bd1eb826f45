/** Peers, broker and extension as one step system, and who gets whose answer.

    Code between two awaits is one action. Connections may overlap, messages may be lost when a
    connection dies, calls may time out at any moment, the broker may notice the end of an old
    connection long after the client has reconnected under the same peer id, and the extension
    may send any result at any time, any number of times. */
module RpcMultiplexer {
  import opened Wire
  import opened Broker
  import opened GatewayPeer
  import Text

  datatype Phase = Opened | Serving | Ended

  datatype System = System(
    peers: seq<PeerState>,
    broker: BrokerState,
    owner: seq<nat>,                          // connection c was opened by client owner[c]
    phase: seq<Phase>,                        // the broker's view of connection c
    ident: seq<string>,                       // the peer id the broker keeps for connection c, once greeted
    outbox: set<(ConnId, PeerRpc)>,           // scheduled writes of the clients
    up: set<(ConnId, PeerRpc)>,               // written by a client, not yet read by the broker
    emitted: multiset<ExtResult>,             // results the extension has sent that the broker has not read
    down: multiset<(ConnId, PeerResult)>,     // written by the broker, not yet read by a client
    // History, for the specification only:
    forwarded: map<int, Call>,                // the call forwarded under each global id
    askedOn: map<int, ConnId>,                // and the connection it was read on
    said: set<ExtResult>,                     // everything the extension ever sent
    relayed: seq<int>)                        // global ids answered to some peer

  datatype Action =
    | Connect(client: nat)
    | Greet(conn: ConnId, fallback: string)
    | Adopt(client: nat, conn: ConnId)
    | Begin(client: nat, conn: ConnId, name: string, params: Option<Params>, timeoutMs: int)
    | Write(conn: ConnId, rpc: PeerRpc)
    | LoseRequest(conn: ConnId, rpc: PeerRpc)
    | Read(conn: ConnId, rpc: PeerRpc, info: Json)
    | Emit(result: ExtResult)
    | RelayResult(result: ExtResult)
    | LoseAnswer(conn: ConnId, answer: PeerResult)
    | Receive(conn: ConnId, answer: PeerResult)
    | Finish(client: nat, id: int)
    | Disconnect(client: nat)
    | Close(conn: ConnId)

  function Initial(peerIds: seq<string>): System {
    System(seq(|peerIds|, i requires 0 <= i < |peerIds| => Start(peerIds[i])),
           FRESH, [], [], [], {}, {}, multiset{}, multiset{}, map[], map[], {}, [])
  }

  /** Connection c is in this phase, and some client opened it. */
  predicate InPhase(s: System, c: ConnId, phase: Phase) {
    c < |s.owner| && c < |s.phase| && c < |s.ident| && s.phase[c] == phase && s.owner[c] < |s.peers|
  }

  /** The actions that can happen in a state; any other leaves the state alone. */
  predicate Enabled(s: System, a: Action) {
    match a
    case Connect(k) => k < |s.peers|
    case Greet(c, _) => InPhase(s, c, Opened)
    case Adopt(k, c) => k < |s.peers| && c < |s.owner| && s.owner[c] == k
    case Begin(k, c, _, _, _) => k < |s.peers| && c < |s.owner| && s.owner[c] == k
    case Write(c, rpc) => (c, rpc) in s.outbox
    case LoseRequest(c, rpc) => (c, rpc) in s.outbox || (c, rpc) in s.up
    case Read(c, rpc, _) => (c, rpc) in s.up && InPhase(s, c, Serving)
    case Emit(_) => true
    case RelayResult(r) => r in s.emitted
    case LoseAnswer(c, d) => (c, d) in s.down
    case Receive(c, d) =>
      (c, d) in s.down && c < |s.owner| && s.owner[c] < |s.peers| && s.peers[s.owner[c]].conn == Some(c)
    case Finish(k, _) => k < |s.peers|
    case Disconnect(k) => k < |s.peers|
    case Close(c) => InPhase(s, c, Serving)
  }

  function Do(s: System, a: Action): System
    requires Enabled(s, a)
  {
    match a
    case Connect(k) => s.(owner := s.owner + [k], phase := s.phase + [Opened], ident := s.ident + [""])
    case Greet(c, fallback) =>
      var id := HelloId(s.peers[s.owner[c]].peerId, fallback);
      s.(broker := Register(s.broker, id, c), phase := s.phase[c := Serving], ident := s.ident[c := id])
    case Adopt(k, c) => s.(peers := s.peers[k := s.peers[k].(conn := Some(c))])
    case Begin(k, c, name, params, timeoutMs) =>
      var p := s.peers[k];
      var rpc := PeerRpc(p.nextId, name, params, timeoutMs, Call(k, |p.futures|));
      s.(peers := s.peers[k := BeginCall(p)], outbox := s.outbox + {(c, rpc)})
    case Write(c, rpc) => s.(outbox := s.outbox - {(c, rpc)}, up := s.up + {(c, rpc)})
    case LoseRequest(c, rpc) => s.(outbox := s.outbox - {(c, rpc)}, up := s.up - {(c, rpc)})
    case Read(c, rpc, info) =>
      var (b, eff) := Dispatch(s.broker, s.ident[c], c, Rpc(rpc), info);
      Apply(s.(up := s.up - {(c, rpc)}, broker := b,
               askedOn := if eff.Forward? then s.askedOn[eff.request.id := c] else s.askedOn), eff)
    case Emit(r) => s.(emitted := s.emitted + multiset{r}, said := s.said + {r})
    case RelayResult(r) =>
      var (b, eff) := Relay(s.broker, r);
      Apply(s.(emitted := s.emitted - multiset{r}, broker := b,
               relayed := if eff.Answer? then s.relayed + [r.id.value] else s.relayed), eff)
    case LoseAnswer(c, d) => s.(down := s.down - multiset{(c, d)})
    case Receive(c, d) =>
      var k := s.owner[c];
      s.(down := s.down - multiset{(c, d)}, peers := s.peers[k := OnResult(s.peers[k], d)])
    case Finish(k, id) => s.(peers := s.peers[k := EndCall(s.peers[k], id)])
    case Disconnect(k) => s.(peers := s.peers[k := Shutdown(s.peers[k])])
    case Close(c) =>
      s.(broker := Unregister(s.broker, s.ident[c]), phase := s.phase[c := Ended])
  }

  function Apply(s: System, eff: Effect): System {
    match eff
    case Silent => s
    case Forward(request) => s.(forwarded := s.forwarded[request.id := request.call])
    case Answer(c, result) => s.(down := s.down + multiset{(c, result)})
  }

  function Step(s: System, a: Action): System {
    if Enabled(s, a) then Do(s, a) else s
  }

  function Run(s: System, actions: seq<Action>): System {
    if actions == [] then s else Step(Run(s, actions[..|actions| - 1]), actions[|actions| - 1])
  }

  // ---- Correlation ----

  /** The call an answer was made for. */
  ghost predicate AnswerFor(forwarded: map<int, Call>, origin: Origin, call: Call) {
    match origin
    case FromBroker(c) => c == call
    case FromExtension(g) => g in forwarded && forwarded[g] == call
  }

  /** What a caller is to see for a result of the extension: its value, or its error message if it has
      one, or else a message of the broker or of the client. */
  function ReplyFor(r: ExtResult): Reply {
    if r.ok then Value(r.result)
    else if r.error.None? then Failure("rpc failed")
    else if r.error.value in {None, Some("")} then Failure("Native broker RPC failed")
    else Failure(r.error.value.value)
  }

  /** The broker's and the client's translation together give that. */
  lemma ReplyMeans(r: ExtResult)
    ensures ReplyOf(VerdictOf(r)) == ReplyFor(r)
  {
  }

  /** The extension really sent a result under the answer's global id, and this is the reply for it. */
  ghost predicate Genuine(said: set<ExtResult>, reply: Reply, origin: Origin) {
    origin.FromExtension? ==> exists r :: r in said && r.id == Some(origin.globalId) && ReplyFor(r) == reply
  }

  ghost predicate OutcomeOk(forwarded: map<int, Call>, said: set<ExtResult>, o: Option<Outcome>, call: Call) {
    o.Some? && o.value.Settled? ==>
      AnswerFor(forwarded, o.value.origin, call) && Genuine(said, o.value.reply, o.value.origin)
  }

  ghost predicate FuturesOk(forwarded: map<int, Call>, said: set<ExtResult>, p: PeerState, k: nat) {
    forall f {:trigger OutcomeOk(forwarded, said, p.futures[f], Call(k, f))} ::
      0 <= f < |p.futures| ==> OutcomeOk(forwarded, said, p.futures[f], Call(k, f))
  }

  /** Every completed future holds an answer to its own request, exactly as the extension gave it. */
  ghost predicate Correlated(s: System) {
    forall k {:trigger FuturesOk(s.forwarded, s.said, s.peers[k], k)} ::
      0 <= k < |s.peers| ==> FuturesOk(s.forwarded, s.said, s.peers[k], k)
  }

  /** No call is forwarded under two global ids. */
  ghost predicate ForwardedOnce(forwarded: map<int, Call>) {
    forall g, h :: g in forwarded && h in forwarded && forwarded[g] == forwarded[h] ==> g == h
  }

  /** No global id is answered twice. */
  ghost predicate AnsweredOnce(relayed: seq<int>) {
    forall i, j :: 0 <= i < j < |relayed| ==> relayed[i] != relayed[j]
  }

  /** The broker can tell the two ids apart: it strips them, and makes one up for a blank one. */
  predicate Apart(a: string, b: string) {
    Text.Strip(a) != "" && Text.Strip(b) != "" && Text.Strip(a) != Text.Strip(b)
  }

  ghost predicate DistinctIds(ids: seq<string>) {
    forall i, j :: 0 <= i < j < |ids| ==> Apart(ids[i], ids[j])
  }

  // ---- The inductive invariant ----

  /** Local ids are never reused: the n-th call has id n. */
  ghost predicate PeerOk(p: PeerState, id: string) {
    && p.peerId == id
    && p.nextId == |p.futures| + 1
    && forall i :: i in p.pending ==> 1 <= i <= |p.futures| && p.pending[i] == i - 1
  }

  ghost predicate PeersOk(ids: seq<string>, peers: seq<PeerState>) {
    |peers| == |ids| && forall k {:trigger PeerOk(peers[k], ids[k])} :: 0 <= k < |ids| ==> PeerOk(peers[k], ids[k])
  }

  /** The broker may know a client by this id. */
  predicate Names(raw: string, id: string) {
    Text.Strip(raw) != "" ==> id == Text.Strip(raw)
  }

  ghost predicate LinksOk(ids: seq<string>, owner: seq<nat>, phase: seq<Phase>, ident: seq<string>) {
    && |owner| == |phase| == |ident|
    && forall c :: 0 <= c < |owner| ==> owner[c] < |ids| && (phase[c] != Opened ==> Names(ids[owner[c]], ident[c]))
  }

  ghost predicate RequestOk(peers: seq<PeerState>, owner: seq<nat>, m: (ConnId, PeerRpc)) {
    && m.0 < |owner| && owner[m.0] < |peers|
    && m.1.call.client == owner[m.0]
    && m.1.call.future < |peers[owner[m.0]].futures|
    && m.1.id == m.1.call.future + 1
  }

  ghost predicate RequestsOk(peers: seq<PeerState>, owner: seq<nat>, requests: set<(ConnId, PeerRpc)>) {
    forall m {:trigger RequestOk(peers, owner, m)} :: m in requests ==> RequestOk(peers, owner, m)
  }

  /** A call travels in one message only, and not any more once it has been forwarded. */
  ghost predicate OneMessagePerCall(requests: set<(ConnId, PeerRpc)>, forwarded: map<int, Call>) {
    && (forall m, m' :: m in requests && m' in requests && m.1.call == m'.1.call ==> m == m')
    && (forall m, g :: m in requests && g in forwarded ==> forwarded[g] != m.1.call)
    && ForwardedOnce(forwarded)
  }

  ghost predicate CallsOk(peers: seq<PeerState>, forwarded: map<int, Call>) {
    forall g :: g in forwarded ==> forwarded[g].client < |peers| && forwarded[g].future < |peers[forwarded[g].client].futures|
  }

  ghost predicate RoutesOk(ids: seq<string>, b: BrokerState, forwarded: map<int, Call>) {
    && IdsIssued(b)
    && (forall g :: g in forwarded <==> 1 <= g < b.nextGlobalId)
    && (forall g :: g in b.pending ==> RouteOk(ids, b.pending[g], forwarded[g]))
  }

  ghost predicate RouteOk(ids: seq<string>, route: Route, call: Call) {
    call.client < |ids| && Names(ids[call.client], route.peerId) && route.localId == call.future + 1
  }

  ghost predicate RegistryOk(ids: seq<string>, owner: seq<nat>, registry: map<string, ConnId>) {
    forall p :: p in registry ==>
      registry[p] < |owner| && owner[registry[p]] < |ids| && Names(ids[owner[registry[p]]], p)
  }

  ghost predicate AnswerOk(owner: seq<nat>, forwarded: map<int, Call>, said: set<ExtResult>, d: (ConnId, PeerResult)) {
    && d.0 < |owner|
    && match d.1.origin
       case FromBroker(call) => call.client == owner[d.0] && d.1.id == call.future + 1
       case FromExtension(g) =>
         && g in forwarded && forwarded[g].client == owner[d.0] && d.1.id == forwarded[g].future + 1
         && exists r :: r in said && r.id == Some(g) && VerdictOf(r) == d.1.verdict
  }

  ghost predicate AnswersOk(owner: seq<nat>, forwarded: map<int, Call>, said: set<ExtResult>, down: multiset<(ConnId, PeerResult)>) {
    forall d {:trigger AnswerOk(owner, forwarded, said, d)} :: d in down ==> AnswerOk(owner, forwarded, said, d)
  }

  ghost predicate RelayedOk(b: BrokerState, relayed: seq<int>) {
    AnsweredOnce(relayed) && forall i :: 0 <= i < |relayed| ==> relayed[i] !in b.pending && relayed[i] < b.nextGlobalId
  }

  ghost predicate SaidOk(emitted: multiset<ExtResult>, said: set<ExtResult>) {
    forall r :: r in emitted ==> r in said
  }

  ghost predicate Inv(ids: seq<string>, s: System) {
    && PeersOk(ids, s.peers)
    && LinksOk(ids, s.owner, s.phase, s.ident)
    && RequestsOk(s.peers, s.owner, s.outbox + s.up)
    && s.outbox !! s.up
    && OneMessagePerCall(s.outbox + s.up, s.forwarded)
    && CallsOk(s.peers, s.forwarded)
    && RoutesOk(ids, s.broker, s.forwarded)
    && RegistryOk(ids, s.owner, s.broker.peers)
    && AnswersOk(s.owner, s.forwarded, s.said, s.down)
    && RelayedOk(s.broker, s.relayed)
    && SaidOk(s.emitted, s.said)
    && Correlated(s)
  }

  // ---- Frame lemmas ----

  /** peers' differs from peers only in completed futures, ids and connections of client k. */
  ghost predicate Grown(peers: seq<PeerState>, peers': seq<PeerState>) {
    |peers| == |peers'| && forall k :: 0 <= k < |peers| ==> |peers[k].futures| <= |peers'[k].futures|
  }

  lemma GrownRequests(peers: seq<PeerState>, peers': seq<PeerState>, owner: seq<nat>, owner': seq<nat>,
                      requests: set<(ConnId, PeerRpc)>, forwarded: map<int, Call>)
    requires RequestsOk(peers, owner, requests) && CallsOk(peers, forwarded)
    requires Grown(peers, peers') && owner <= owner'
    ensures RequestsOk(peers', owner', requests) && CallsOk(peers', forwarded)
  {
    forall m | m in requests
      ensures RequestOk(peers', owner', m)
    {
      assert RequestOk(peers, owner, m);
    }
  }

  lemma FewerRequests(peers: seq<PeerState>, owner: seq<nat>, requests: set<(ConnId, PeerRpc)>,
                      fewer: set<(ConnId, PeerRpc)>, forwarded: map<int, Call>)
    requires RequestsOk(peers, owner, requests) && OneMessagePerCall(requests, forwarded)
    requires fewer <= requests
    ensures RequestsOk(peers, owner, fewer) && OneMessagePerCall(fewer, forwarded)
  {
    forall m | m in fewer
      ensures RequestOk(peers, owner, m)
    {
      assert RequestOk(peers, owner, m);
    }
  }

  lemma GrownAnswers(owner: seq<nat>, owner': seq<nat>, forwarded: map<int, Call>, forwarded': map<int, Call>,
                     said: set<ExtResult>, said': set<ExtResult>, down: multiset<(ConnId, PeerResult)>)
    requires AnswersOk(owner, forwarded, said, down)
    requires owner <= owner' && said <= said'
    requires forall g :: g in forwarded ==> g in forwarded' && forwarded'[g] == forwarded[g]
    ensures AnswersOk(owner', forwarded', said', down)
  {
    forall d | d in down
      ensures AnswerOk(owner', forwarded', said', d)
    {
      assert AnswerOk(owner, forwarded, said, d);
    }
  }

  lemma GrownFutures(forwarded: map<int, Call>, forwarded': map<int, Call>, said: set<ExtResult>, said': set<ExtResult>,
                     p: PeerState, k: nat)
    requires FuturesOk(forwarded, said, p, k) && said <= said'
    requires forall g :: g in forwarded ==> g in forwarded' && forwarded'[g] == forwarded[g]
    ensures FuturesOk(forwarded', said', p, k)
  {
    forall f | 0 <= f < |p.futures|
      ensures OutcomeOk(forwarded', said', p.futures[f], Call(k, f))
    {
      assert OutcomeOk(forwarded, said, p.futures[f], Call(k, f));
    }
  }

  lemma GrownCorrelated(s: System, s': System)
    requires Correlated(s) && s'.peers == s.peers && s.said <= s'.said
    requires forall g :: g in s.forwarded ==> g in s'.forwarded && s'.forwarded[g] == s.forwarded[g]
    ensures Correlated(s')
  {
    forall k | 0 <= k < |s'.peers|
      ensures FuturesOk(s'.forwarded, s'.said, s'.peers[k], k)
    {
      assert FuturesOk(s.forwarded, s.said, s.peers[k], k);
      GrownFutures(s.forwarded, s'.forwarded, s.said, s'.said, s.peers[k], k);
    }
  }

  /** Replacing client k by a state that is fine by itself. */
  lemma ReplacePeer(ids: seq<string>, s: System, s': System, k: nat, p: PeerState)
    requires Inv(ids, s) && k < |s.peers|
    requires s' == s.(peers := s.peers[k := p])
    requires PeerOk(p, ids[k]) && |s.peers[k].futures| <= |p.futures|
    requires FuturesOk(s.forwarded, s.said, p, k)
    ensures Inv(ids, s')
  {
    forall i | 0 <= i < |ids|
      ensures PeerOk(s'.peers[i], ids[i])
      ensures FuturesOk(s.forwarded, s.said, s'.peers[i], i)
    {
      assert PeerOk(s.peers[i], ids[i]) && FuturesOk(s.forwarded, s.said, s.peers[i], i);
    }
    GrownRequests(s.peers, s'.peers, s.owner, s.owner, s.outbox + s.up, s.forwarded);
  }

  // ---- Each action keeps the invariant ----

  lemma ConnectKeeps(ids: seq<string>, s: System, k: nat)
    requires Inv(ids, s) && k < |s.peers|
    ensures Inv(ids, Do(s, Connect(k)))
  {
    var s' := Do(s, Connect(k));
    GrownRequests(s.peers, s.peers, s.owner, s'.owner, s.outbox + s.up, s.forwarded);
    GrownAnswers(s.owner, s'.owner, s.forwarded, s.forwarded, s.said, s.said, s.down);
    GrownCorrelated(s, s');
  }

  lemma GreetKeeps(ids: seq<string>, s: System, c: ConnId, fallback: string)
    requires Inv(ids, s) && Enabled(s, Greet(c, fallback))
    ensures Inv(ids, Do(s, Greet(c, fallback)))
  {
    assert PeerOk(s.peers[s.owner[c]], ids[s.owner[c]]);
    GrownCorrelated(s, Do(s, Greet(c, fallback)));
  }

  lemma CloseKeeps(ids: seq<string>, s: System, c: ConnId)
    requires Inv(ids, s) && Enabled(s, Close(c))
    ensures Inv(ids, Do(s, Close(c)))
  {
    GrownCorrelated(s, Do(s, Close(c)));
  }

  lemma AdoptKeeps(ids: seq<string>, s: System, k: nat, c: ConnId)
    requires Inv(ids, s) && Enabled(s, Adopt(k, c))
    ensures Inv(ids, Do(s, Adopt(k, c)))
  {
    var p := s.peers[k].(conn := Some(c));
    assert PeerOk(s.peers[k], ids[k]) && FuturesOk(s.forwarded, s.said, s.peers[k], k);
    SameFutures(s.forwarded, s.said, s.peers[k], p, k);
    ReplacePeer(ids, s, Do(s, Adopt(k, c)), k, p);
  }

  lemma SameFutures(forwarded: map<int, Call>, said: set<ExtResult>, p: PeerState, p': PeerState, k: nat)
    requires FuturesOk(forwarded, said, p, k)
    requires |p'.futures| >= |p.futures|
    requires forall f :: 0 <= f < |p'.futures| ==>
      (f < |p.futures| && p'.futures[f] == p.futures[f]) || p'.futures[f].None? || p'.futures[f].value.Lost?
    ensures FuturesOk(forwarded, said, p', k)
  {
    forall f | 0 <= f < |p'.futures|
      ensures OutcomeOk(forwarded, said, p'.futures[f], Call(k, f))
    {
      if f < |p.futures| {
        assert OutcomeOk(forwarded, said, p.futures[f], Call(k, f));
      }
    }
  }

  lemma FinishKeeps(ids: seq<string>, s: System, k: nat, id: int)
    requires Inv(ids, s) && k < |s.peers|
    ensures Inv(ids, Do(s, Finish(k, id)))
  {
    var p := EndCall(s.peers[k], id);
    assert PeerOk(s.peers[k], ids[k]) && FuturesOk(s.forwarded, s.said, s.peers[k], k);
    SameFutures(s.forwarded, s.said, s.peers[k], p, k);
    ReplacePeer(ids, s, Do(s, Finish(k, id)), k, p);
  }

  lemma DisconnectKeeps(ids: seq<string>, s: System, k: nat)
    requires Inv(ids, s) && k < |s.peers|
    ensures Inv(ids, Do(s, Disconnect(k)))
  {
    var p := Shutdown(s.peers[k]);
    assert PeerOk(s.peers[k], ids[k]) && FuturesOk(s.forwarded, s.said, s.peers[k], k);
    SameFutures(s.forwarded, s.said, s.peers[k], p, k);
    ReplacePeer(ids, s, Do(s, Disconnect(k)), k, p);
  }

  lemma BeginKeeps(ids: seq<string>, s: System, a: Action)
    requires Inv(ids, s) && a.Begin? && Enabled(s, a)
    ensures Inv(ids, Do(s, a))
  {
    var k, old_ := a.client, s.peers[a.client];
    var p := BeginCall(old_);
    var m := (a.conn, PeerRpc(old_.nextId, a.name, a.params, a.timeoutMs, Call(k, |old_.futures|)));
    assert PeerOk(old_, ids[k]) && FuturesOk(s.forwarded, s.said, old_, k);
    SameFutures(s.forwarded, s.said, old_, p, k);
    var s1 := s.(peers := s.peers[k := p]);
    ReplacePeer(ids, s, s1, k, p);
    var s' := Do(s, a);
    assert s'.outbox + s'.up == (s.outbox + s.up) + {m};
    forall m' | m' in s.outbox + s.up
      ensures m'.1.call != m.1.call && RequestOk(s'.peers, s'.owner, m')
    {
      assert RequestOk(s.peers, s.owner, m') && RequestOk(s1.peers, s1.owner, m');
    }
    assert m !in s.up;
    GrownCorrelated(s1, s');
  }

  lemma WriteKeeps(ids: seq<string>, s: System, c: ConnId, rpc: PeerRpc)
    requires Inv(ids, s) && (c, rpc) in s.outbox
    ensures Inv(ids, Do(s, Write(c, rpc)))
  {
    var s' := Do(s, Write(c, rpc));
    assert s'.outbox + s'.up == s.outbox + s.up;
    GrownCorrelated(s, s');
  }

  lemma LoseRequestKeeps(ids: seq<string>, s: System, c: ConnId, rpc: PeerRpc)
    requires Inv(ids, s)
    ensures Enabled(s, LoseRequest(c, rpc)) ==> Inv(ids, Do(s, LoseRequest(c, rpc)))
  {
    if Enabled(s, LoseRequest(c, rpc)) {
      var s' := Do(s, LoseRequest(c, rpc));
      FewerRequests(s.peers, s.owner, s.outbox + s.up, s'.outbox + s'.up, s.forwarded);
      GrownCorrelated(s, s');
    }
  }

  lemma EmitKeeps(ids: seq<string>, s: System, r: ExtResult)
    requires Inv(ids, s)
    ensures Inv(ids, Do(s, Emit(r)))
  {
    var s' := Do(s, Emit(r));
    GrownAnswers(s.owner, s.owner, s.forwarded, s.forwarded, s.said, s'.said, s.down);
    GrownCorrelated(s, s');
  }

  lemma LoseAnswerKeeps(ids: seq<string>, s: System, c: ConnId, d: PeerResult)
    requires Inv(ids, s)
    ensures Inv(ids, s.(down := s.down - multiset{(c, d)}))
  {
    var s' := s.(down := s.down - multiset{(c, d)});
    forall x | x in s'.down
      ensures AnswerOk(s.owner, s.forwarded, s.said, x)
    {
      assert x in s.down;
    }
    GrownCorrelated(s, s');
  }

  /** The heart of the matter: the future an answer reaches belongs to the call it was made for. */
  lemma ReceiveKeeps(ids: seq<string>, s: System, c: ConnId, d: PeerResult)
    requires Inv(ids, s) && Enabled(s, Receive(c, d))
    ensures Inv(ids, Do(s, Receive(c, d)))
  {
    var k := s.owner[c];
    var p, p' := s.peers[k], OnResult(s.peers[k], d);
    assert AnswerOk(s.owner, s.forwarded, s.said, (c, d));
    assert PeerOk(p, ids[k]) && FuturesOk(s.forwarded, s.said, p, k);
    if d.origin.FromExtension? {
      var r :| r in s.said && r.id == Some(d.origin.globalId) && VerdictOf(r) == d.verdict;
      ReplyMeans(r);
    }
    forall f | 0 <= f < |p'.futures|
      ensures OutcomeOk(s.forwarded, s.said, p'.futures[f], Call(k, f))
    {
      assert OutcomeOk(s.forwarded, s.said, p.futures[f], Call(k, f));
    }
    var s1 := s.(down := s.down - multiset{(c, d)});
    LoseAnswerKeeps(ids, s, c, d);
    ReplacePeer(ids, s1, Do(s, Receive(c, d)), k, p');
  }

  lemma OneMoreAnswer(owner: seq<nat>, forwarded: map<int, Call>, said: set<ExtResult>,
                      down: multiset<(ConnId, PeerResult)>, d: (ConnId, PeerResult))
    requires AnswersOk(owner, forwarded, said, down) && AnswerOk(owner, forwarded, said, d)
    ensures AnswersOk(owner, forwarded, said, down + multiset{d})
  {
    forall x | x in down + multiset{d}
      ensures AnswerOk(owner, forwarded, said, x)
    {
      assert x in down || x == d;
    }
  }

  lemma OneMoreForward(s: System, requests: set<(ConnId, PeerRpc)>, m: (ConnId, PeerRpc), g: int)
    requires OneMessagePerCall(requests, s.forwarded) && m in requests && g !in s.forwarded
    ensures OneMessagePerCall(requests - {m}, s.forwarded[g := m.1.call])
  {
  }

  /** The broker after reading a request: either it forwarded the request under the next global
      id, or it answered on the same connection. */
  ghost predicate ReadOutcome(b: BrokerState, b': BrokerState, eff: Effect, peerId: string, c: ConnId, rpc: PeerRpc) {
    && b'.peers == b.peers
    && match eff
       case Forward(request) =>
         && request.id == b.nextGlobalId && request.call == rpc.call
         && b'.nextGlobalId == b.nextGlobalId + 1
         && b'.pending == b.pending[b.nextGlobalId := Route(peerId, rpc.id)]
       case Answer(conn, result) =>
         && conn == c && result.id == rpc.id && result.origin == FromBroker(rpc.call)
         && b'.nextGlobalId == b.nextGlobalId && b'.pending == b.pending
       case Silent => false
  }

  lemma DispatchOutcome(b: BrokerState, peerId: string, c: ConnId, rpc: PeerRpc, info: Json)
    requires IdsIssued(b)
    ensures var (b', eff) := Dispatch(b, peerId, c, Rpc(rpc), info); ReadOutcome(b, b', eff, peerId, c, rpc)
  {
    DispatchAllocates(b, peerId, c, Rpc(rpc), info);
  }

  lemma ReadOutcomeKeeps(ids: seq<string>, s: System, c: ConnId, rpc: PeerRpc, b: BrokerState, eff: Effect, askedOn: map<int, ConnId>)
    requires Inv(ids, s) && (c, rpc) in s.up && c < |s.owner| && s.owner[c] < |ids|
    requires InPhase(s, c, Serving) && ReadOutcome(s.broker, b, eff, s.ident[c], c, rpc)
    ensures Inv(ids, Apply(s.(up := s.up - {(c, rpc)}, broker := b, askedOn := askedOn), eff))
  {
    assert RequestOk(s.peers, s.owner, (c, rpc));
    var s1 := s.(up := s.up - {(c, rpc)});
    var s' := Apply(s.(up := s.up - {(c, rpc)}, broker := b, askedOn := askedOn), eff);
    assert s1.outbox + s1.up == (s.outbox + s.up) - {(c, rpc)};
    FewerRequests(s.peers, s.owner, s.outbox + s.up, s1.outbox + s1.up, s.forwarded);
    if eff.Forward? {
      OneMoreForward(s, s.outbox + s.up, (c, rpc), eff.request.id);
      GrownAnswers(s.owner, s.owner, s.forwarded, s'.forwarded, s.said, s.said, s.down);
    } else {
      assert AnswerOk(s.owner, s.forwarded, s.said, (c, eff.result));
      OneMoreAnswer(s.owner, s.forwarded, s.said, s.down, (c, eff.result));
    }
    GrownCorrelated(s, s');
  }

  lemma ReadKeeps(ids: seq<string>, s: System, c: ConnId, rpc: PeerRpc, info: Json)
    requires Inv(ids, s) && Enabled(s, Read(c, rpc, info))
    ensures Inv(ids, Do(s, Read(c, rpc, info)))
  {
    DispatchOutcome(s.broker, s.ident[c], c, rpc, info);
    var (b, eff) := Dispatch(s.broker, s.ident[c], c, Rpc(rpc), info);
    ReadOutcomeKeeps(ids, s, c, rpc, b, eff, if eff.Forward? then s.askedOn[eff.request.id := c] else s.askedOn);
  }

  lemma SameName(ids: seq<string>, i: nat, j: nat, id: string)
    requires DistinctIds(ids) && i < |ids| && j < |ids| && Names(ids[i], id) && Names(ids[j], id)
    ensures i == j
  {
  }

  /** The only place that needs distinct peer ids: the connection registered under the remembered
      peer id belongs to the client whose call was forwarded. */
  lemma RelayedAnswerOk(ids: seq<string>, s: System, r: ExtResult)
    requires DistinctIds(ids) && RoutesOk(ids, s.broker, s.forwarded) && RegistryOk(ids, s.owner, s.broker.peers)
    requires r in s.said && Relay(s.broker, r).1.Answer?
    ensures var eff := Relay(s.broker, r).1; AnswerOk(s.owner, s.forwarded, s.said, (eff.conn, eff.result))
  {
    var eff, g := Relay(s.broker, r).1, r.id.value;
    assert RouteOk(ids, s.broker.pending[g], s.forwarded[g]);
    SameName(ids, s.owner[eff.conn], s.forwarded[g].client, s.broker.pending[g].peerId);
  }

  lemma RelayKeeps(ids: seq<string>, s: System, r: ExtResult)
    requires DistinctIds(ids) && Inv(ids, s) && r in s.emitted
    ensures Inv(ids, Do(s, RelayResult(r)))
  {
    RelayConsumes(s.broker, r);
    var (b, eff) := Relay(s.broker, r);
    if eff.Answer? {
      RelayedAnswerOk(ids, s, r);
      OneMoreAnswer(s.owner, s.forwarded, s.said, s.down, (eff.conn, eff.result));
    }
    GrownCorrelated(s, Do(s, RelayResult(r)));
  }

  lemma StepKeeps(ids: seq<string>, s: System, a: Action)
    requires DistinctIds(ids) && Inv(ids, s)
    ensures Inv(ids, Step(s, a))
  {
    if Enabled(s, a) {
      match a
      case Connect(k) => ConnectKeeps(ids, s, k);
      case Greet(c, fallback) => GreetKeeps(ids, s, c, fallback);
      case Adopt(k, c) => AdoptKeeps(ids, s, k, c);
      case Begin(_, _, _, _, _) => BeginKeeps(ids, s, a);
      case Write(c, rpc) => WriteKeeps(ids, s, c, rpc);
      case LoseRequest(c, rpc) => LoseRequestKeeps(ids, s, c, rpc);
      case Read(c, rpc, info) => ReadKeeps(ids, s, c, rpc, info);
      case Emit(r) => EmitKeeps(ids, s, r);
      case RelayResult(r) => RelayKeeps(ids, s, r);
      case LoseAnswer(c, d) => LoseAnswerKeeps(ids, s, c, d);
      case Receive(c, d) => ReceiveKeeps(ids, s, c, d);
      case Finish(k, id) => FinishKeeps(ids, s, k, id);
      case Disconnect(k) => DisconnectKeeps(ids, s, k);
      case Close(c) => CloseKeeps(ids, s, c);
    }
  }

  lemma InitialOk(ids: seq<string>)
    ensures Inv(ids, Initial(ids))
  {
    var s := Initial(ids);
    forall k | 0 <= k < |ids|
      ensures PeerOk(s.peers[k], ids[k])
    {
    }
  }

  lemma {:induction false} RunKeeps(ids: seq<string>, actions: seq<Action>)
    requires DistinctIds(ids)
    ensures Inv(ids, Run(Initial(ids), actions))
  {
    if actions == [] {
      InitialOk(ids);
    } else {
      RunKeeps(ids, actions[..|actions| - 1]);
      StepKeeps(ids, Run(Initial(ids), actions[..|actions| - 1]), actions[|actions| - 1]);
    }
  }
}
