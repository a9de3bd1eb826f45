/** The native broker: id translation, routing, subscriptions, cleanup
    (`mcp_servers/browser/native_broker.py`). */
module Broker {
  import opened Wire
  import SetFacts
  import Text

  datatype Route = Route(peerId: string, localId: int)

  datatype BrokerState = BrokerState(
    peers: map<string, ConnId>,
    nextGlobalId: int,
    pending: map<int, Route>,
    tabs: map<ConnId, set<string>>)

  datatype Effect =
    | Silent
    | Forward(request: ExtRequest)
    | Answer(conn: ConnId, result: PeerResult)

  const FRESH := BrokerState(map[], 1, map[], map[])

  // ---- Specification functions ----

  /** A blank `peerId` in the hello is replaced by a made-up one. */
  function HelloId(raw: string, fallback: string): string {
    if Text.Strip(raw) == "" then fallback else Text.Strip(raw)
  }

  function Register(b: BrokerState, peerId: string, conn: ConnId): BrokerState {
    b.(peers := b.peers[peerId := conn], tabs := b.tabs[conn := {}])
  }

  /** The tab named by the params, if any. */
  function TabOf(params: Option<Params>): Option<string> {
    if params.Some? && params.value.tabId.Some? && Text.Strip(params.value.tabId.value) != ""
    then Some(Text.Strip(params.value.tabId.value))
    else None
  }

  function TabsOf(b: BrokerState, conn: ConnId): set<string> {
    if conn in b.tabs then b.tabs[conn] else {}
  }

  function Subscribe(b: BrokerState, conn: ConnId, params: Option<Params>): BrokerState {
    if TabOf(params).Some? then b.(tabs := b.tabs[conn := TabsOf(b, conn) + {TabOf(params).value}]) else b
  }

  function Allocate(b: BrokerState, peerId: string, localId: int): BrokerState {
    b.(nextGlobalId := b.nextGlobalId + 1, pending := b.pending[b.nextGlobalId := Route(peerId, localId)])
  }

  /** One message of a peer. `info` is the broker's own status report. */
  function Dispatch(b: BrokerState, peerId: string, conn: ConnId, msg: PeerMsg, info: Json): (BrokerState, Effect) {
    match msg
    case Unrelated => (b, Silent)
    case Rpc(rpc) =>
      var name := Text.Strip(rpc.name);
      var b' := Subscribe(b, conn, rpc.params);
      if name == "" then (b', Answer(conn, PeerResult(rpc.id, Bad(Some("missing method")), FromBroker(rpc.call))))
      else if name == "gateway.status" then (b', Answer(conn, PeerResult(rpc.id, Good(info), FromBroker(rpc.call))))
      else if name == "gateway.waitForConnection" then
        (b', Answer(conn, PeerResult(rpc.id, Good("{\"connected\":true}"), FromBroker(rpc.call))))
      else
        (Allocate(b', peerId, rpc.id),
         Forward(ExtRequest(b'.nextGlobalId, name, rpc.params,
                            if rpc.timeoutMs > 0 then Some(rpc.timeoutMs) else None, rpc.call)))
  }

  function VerdictOf(r: ExtResult): Verdict {
    if r.ok then Good(r.result)
    else if r.error.Some? then Bad(r.error.value)
    else Bad(Some("rpc failed"))
  }

  /** One `rpcResult` of the extension: forget the global id and answer whoever is registered
      under the remembered peer id now. */
  function Relay(b: BrokerState, r: ExtResult): (BrokerState, Effect) {
    if r.id.None? || r.id.value !in b.pending then (b, Silent)
    else
      var g := r.id.value;
      var route := b.pending[g];
      var b' := b.(pending := b.pending - {g});
      if route.peerId !in b.peers then (b', Silent)
      else (b', Answer(b.peers[route.peerId], PeerResult(route.localId, VerdictOf(r), FromExtension(g))))
  }

  /** The end of a connection's loop: unregister its peer id, whoever holds it now, and forget
      every pending request under that peer id. */
  function Unregister(b: BrokerState, peerId: string): BrokerState {
    b.(peers := b.peers - {peerId}, pending := b.pending - StaleIds(b.pending, peerId))
  }

  function StaleIds(pending: map<int, Route>, peerId: string): set<int> {
    set g | g in pending && pending[g].peerId == peerId
  }

  // ---- The broker object ----

  class NativeBroker {
    var peers: map<string, ConnId>
    var nextGlobalId: int
    var pending: map<int, Route>
    var tabs: map<ConnId, set<string>>

    ghost function State(): BrokerState
      reads this
    {
      BrokerState(peers, nextGlobalId, pending, tabs)
    }

    constructor ()
      ensures State() == FRESH
    {
      peers, nextGlobalId, pending, tabs := map[], 1, map[], map[];
    }

    method HandleHello(rawPeerId: string, fallback: string, conn: ConnId) returns (peerId: string)
      modifies this
      ensures peerId == HelloId(rawPeerId, fallback)
      ensures peers == old(peers)[peerId := conn] && tabs == old(tabs)[conn := {}]
      ensures pending == old(pending) && nextGlobalId == old(nextGlobalId)
      ensures peerId == if Text.Strip(rawPeerId) != "" then Text.Strip(rawPeerId) else fallback
      ensures State() == Register(old(State()), peerId, conn)
    {
      peerId := Text.Strip(rawPeerId);
      if peerId == "" {
        peerId := fallback;
      }
      tabs := tabs[conn := {}];
      peers := peers[peerId := conn];
    }

    method SubscribeIfTab(conn: ConnId, params: Params)
      modifies this`tabs
      ensures State() == Subscribe(old(State()), conn, Some(params))
    {
      if params.tabId.Some? {
        var tabId := Text.Strip(params.tabId.value);
        if tabId != "" {
          tabs := tabs[conn := (if conn in tabs then tabs[conn] else {}) + {tabId}];
        }
      }
    }

    /** The extension sees a request as the peer made it, and only what the broker cannot answer itself;
        a blank method name is refused. */
    method PeerDispatch(peerId: string, conn: ConnId, msg: PeerMsg, info: Json) returns (eff: Effect)
      modifies this
      ensures (State(), eff) == Dispatch(old(State()), peerId, conn, msg, info)
      ensures eff.Forward? <==>
                msg.Rpc? && Text.Strip(msg.rpc.name) !in {"", "gateway.status", "gateway.waitForConnection"}
      ensures eff.Forward? ==>
                && eff.request.name == Text.Strip(msg.rpc.name) && eff.request.params == msg.rpc.params
                && eff.request.timeoutMs == if msg.rpc.timeoutMs > 0 then Some(msg.rpc.timeoutMs) else None
      ensures eff.Answer? ==>
                eff.result.verdict == match Text.Strip(msg.rpc.name)
                                      case "" => Bad(Some("missing method"))
                                      case "gateway.status" => Good(info)
                                      case _ => Good("{\"connected\":true}")
    {
      if msg.Unrelated? {
        return Silent;
      }
      var rpc := msg.rpc;
      var name := Text.Strip(rpc.name);
      if rpc.params.Some? {
        SubscribeIfTab(conn, rpc.params.value);
      }
      if name == "" {
        return Answer(conn, PeerResult(rpc.id, Bad(Some("missing method")), FromBroker(rpc.call)));
      }
      if name == "gateway.status" {
        return Answer(conn, PeerResult(rpc.id, Good(info), FromBroker(rpc.call)));
      }
      if name == "gateway.waitForConnection" {
        return Answer(conn, PeerResult(rpc.id, Good("{\"connected\":true}"), FromBroker(rpc.call)));
      }
      var globalId := nextGlobalId;
      nextGlobalId := nextGlobalId + 1;
      pending := pending[globalId := Route(peerId, rpc.id)];
      return Forward(ExtRequest(globalId, name, rpc.params,
                                if rpc.timeoutMs > 0 then Some(rpc.timeoutMs) else None, rpc.call));
    }

    method HandleRpcResult(r: ExtResult) returns (eff: Effect)
      modifies this`pending
      ensures (State(), eff) == Relay(old(State()), r)
    {
      if r.id.None? {
        return Silent;
      }
      var globalId := r.id.value;
      if globalId !in pending {
        return Silent;
      }
      var rec := pending[globalId];
      pending := pending - {globalId};
      if rec.peerId !in peers {
        return Silent;
      }
      var verdict := if r.ok then Good(r.result)
                     else if r.error.Some? then Bad(r.error.value)
                     else Bad(Some("rpc failed"));
      return Answer(peers[rec.peerId], PeerResult(rec.localId, verdict, FromExtension(globalId)));
    }

    /** Whether a broadcast writes an event of this tab to the connection, decided when its turn comes. */
    method WantsEvent(conn: ConnId, tabId: string) returns (wants: bool)
      ensures wants <==> tabId in TabsOf(State(), conn)
    {
      wants := conn in tabs && tabId in tabs[conn];
    }

    method PeerLoopEnded(peerId: string)
      modifies this`peers, this`pending
      ensures State() == Unregister(old(State()), peerId)
    {
      peers := peers - {peerId};
      var stale := StaleIds(pending, peerId);
      var left := stale;
      while left != {}
        invariant left <= stale && peers == old(peers) - {peerId}
        invariant pending == old(pending) - (stale - left)
        decreases |left|
      {
        ghost var some := SetFacts.Pick(left);
        var g :| g in left;
        pending := pending - {g};
        left := left - {g};
      }
      assert stale - left == stale;
    }
  }

  // ---- What one step keeps ----

  /** Outstanding global ids are numbers the broker has already handed out. */
  ghost predicate IdsIssued(b: BrokerState) {
    b.nextGlobalId >= 1 && forall g :: g in b.pending ==> 1 <= g < b.nextGlobalId
  }

  /** A global id is never handed out twice: a forwarded request takes a fresh one and is
      remembered under it with the sender's own id; nothing else touches the table. */
  lemma DispatchAllocates(b: BrokerState, peerId: string, conn: ConnId, msg: PeerMsg, info: Json)
    requires IdsIssued(b)
    ensures var (b', eff) := Dispatch(b, peerId, conn, msg, info);
            && IdsIssued(b')
            && b'.peers == b.peers
            && (eff.Forward? ==> msg.Rpc? && eff.request.id !in b.pending
                                 && b.nextGlobalId == eff.request.id && b'.nextGlobalId == b.nextGlobalId + 1
                                 && eff.request.call == msg.rpc.call
                                 && b'.pending == b.pending[eff.request.id := Route(peerId, msg.rpc.id)])
            && (!eff.Forward? ==> b'.pending == b.pending && b'.nextGlobalId == b.nextGlobalId)
            && (eff.Answer? ==> eff.conn == conn && msg.Rpc? && eff.result.id == msg.rpc.id
                                && eff.result.origin == FromBroker(msg.rpc.call))
  {
  }

  /** An id is answered only while outstanding, and is not outstanding afterwards. */
  lemma RelayConsumes(b: BrokerState, r: ExtResult)
    ensures var (b', eff) := Relay(b, r);
            && b'.peers == b.peers && b'.nextGlobalId == b.nextGlobalId
            && b'.pending.Keys == b.pending.Keys - (if r.id.Some? then {r.id.value} else {})
            && (forall g :: g in b'.pending ==> b'.pending[g] == b.pending[g])
            && (eff.Answer? <==> r.id.Some? && r.id.value in b.pending && b.pending[r.id.value].peerId in b.peers)
  {
  }

  /** A disconnect removes exactly the registration and the entries of its peer id. */
  lemma UnregisterExact(b: BrokerState, peerId: string)
    ensures forall g :: g in Unregister(b, peerId).pending <==> g in b.pending && b.pending[g].peerId != peerId
    ensures forall g :: g in Unregister(b, peerId).pending ==> Unregister(b, peerId).pending[g] == b.pending[g]
    ensures forall p :: p in Unregister(b, peerId).peers <==> p in b.peers && p != peerId
  {
  }
}
