/** The client half of an RPC: request ids, futures and the pending table
    (`mcp_servers/browser/extension_gateway_native_peer.py`). */
module GatewayPeer {
  import opened Wire
  import SetFacts
  import Text

  /** What a caller of `rpc_call` gets to see. */
  datatype Reply = Value(result: Json) | Failure(message: string)

  /** How a future was completed. */
  datatype Outcome = Settled(reply: Reply, origin: Origin) | Lost

  /** `futures` holds every future ever created, in creation order; `pending` maps request ids
      to positions in it. */
  datatype PeerState = PeerState(
    peerId: string,
    nextId: int,
    pending: map<int, nat>,
    futures: seq<Option<Outcome>>,
    conn: Option<ConnId>)

  function Start(peerId: string): PeerState {
    PeerState(peerId, 1, map[], [], None)
  }

  function ReplyOf(v: Verdict): Reply {
    match v
    case Good(result) => Value(result)
    case Bad(message) =>
      Failure(if message.Some? && message.value != "" then message.value else "Native broker RPC failed")
  }

  /** Completing a future that is already done changes nothing. */
  function Complete(futures: seq<Option<Outcome>>, f: nat, outcome: Outcome): seq<Option<Outcome>> {
    if f < |futures| && futures[f].None? then futures[f := Some(outcome)] else futures
  }

  /** `rpc_call`, up to the scheduled write: a fresh id and a fresh future. */
  function BeginCall(p: PeerState): PeerState {
    p.(nextId := p.nextId + 1,
       pending := p.pending[p.nextId := |p.futures|],
       futures := p.futures + [None])
  }

  /** An incoming `rpcResult` completes the future pending under its id; the entry stays. */
  function OnResult(p: PeerState, r: PeerResult): PeerState {
    if r.id in p.pending
    then p.(futures := Complete(p.futures, p.pending[r.id], Settled(ReplyOf(r.verdict), r.origin)))
    else p
  }

  /** The `finally` of `rpc_call`, after an answer, an error or a timeout. */
  function EndCall(p: PeerState, id: int): PeerState {
    p.(pending := p.pending - {id})
  }

  /** The connection is gone: every pending future fails and the table is emptied. */
  function Shutdown(p: PeerState): PeerState {
    p.(conn := None, pending := map[], futures := FailAll(p.futures, Targets(p.pending, p.pending.Keys)))
  }

  /** The futures some of the given ids point at. */
  function Targets(pending: map<int, nat>, ids: set<int>): set<nat> {
    set id | id in ids && id in pending :: pending[id]
  }

  function FailAll(futures: seq<Option<Outcome>>, doomed: set<nat>): seq<Option<Outcome>> {
    seq(|futures|, i requires 0 <= i < |futures| => if i in doomed && futures[i].None? then Some(Lost) else futures[i])
  }

  class NativeExtensionGatewayPeer {
    const peerId: string
    var nextId: int
    var pending: map<int, nat>
    var futures: seq<Option<Outcome>>
    var conn: Option<ConnId>

    ghost function State(): PeerState
      reads this
    {
      PeerState(peerId, nextId, pending, futures, conn)
    }

    constructor (peerId: string)
      ensures State() == Start(peerId)
    {
      this.peerId := peerId;
      nextId, pending, futures, conn := 1, map[], [], None;
    }

    method Connected(c: ConnId)
      modifies this`conn
      ensures State() == old(State()).(conn := Some(c))
    {
      conn := Some(c);
    }

    /** The message to write, or None when the method name is blank or nothing is connected;
        `me` only labels the message for the proofs. */
    method RpcCall(name: string, params: Option<Params>, timeoutMs: int, ghost me: nat)
      returns (msg: Option<(ConnId, int)>, ghost call: Call)
      modifies this`nextId, this`pending, this`futures
      ensures msg.Some? <==> Text.Strip(name) != "" && old(conn).Some?
      ensures msg.Some? ==>
                && State() == BeginCall(old(State()))
                && msg.value == (old(conn).value, old(nextId))
                && call == Call(me, |old(futures)|)
      ensures msg.None? ==> State() == old(State())
    {
      call := Call(me, |futures|);
      if Text.Strip(name) == "" || conn.None? {
        return None, call;
      }
      var reqId := nextId;
      nextId := nextId + 1;
      pending := pending[reqId := |futures|];
      futures := futures + [None];
      return Some((conn.value, reqId)), call;
    }

    method OnRpcResult(r: PeerResult)
      modifies this`futures
      ensures State() == OnResult(old(State()), r)
    {
      if r.id !in pending {
        return;
      }
      var f := pending[r.id];
      if f < |futures| && futures[f].None? {
        var reply: Reply;
        match r.verdict {
          case Good(result) => reply := Value(result);
          case Bad(message) =>
            reply := Failure(if message.Some? && message.value != "" then message.value else "Native broker RPC failed");
        }
        futures := futures[f := Some(Settled(reply, r.origin))];
      }
    }

    method FinishCall(reqId: int)
      modifies this`pending
      ensures State() == EndCall(old(State()), reqId)
    {
      pending := pending - {reqId};
    }

    method ShutdownAsync()
      modifies this`conn, this`pending, this`futures
      ensures State() == Shutdown(old(State()))
    {
      conn := None;
      var taken := pending;
      pending := map[];
      var left := taken.Keys;
      while left != {}
        invariant left <= taken.Keys && conn == None && pending == map[]
        invariant futures == FailAll(old(futures), Targets(taken, taken.Keys - left))
        decreases |left|
      {
        ghost var some := SetFacts.Pick(left);
        var id :| id in left;
        ghost var before := futures;
        if taken[id] < |futures| && futures[taken[id]].None? {
          futures := futures[taken[id] := Some(Lost)];
        }
        left := left - {id};
        FailOneMore(old(futures), before, taken, taken.Keys - left, id);
      }
      assert taken.Keys - left == taken.Keys;
    }
  }

  lemma FailOneMore(all: seq<Option<Outcome>>, before: seq<Option<Outcome>>, pending: map<int, nat>, ids: set<int>, id: int)
    requires id in ids && id in pending
    requires before == FailAll(all, Targets(pending, ids - {id}))
    ensures Complete(before, pending[id], Lost) == FailAll(all, Targets(pending, ids))
  {
    var f := pending[id];
    assert Targets(pending, ids) == Targets(pending, ids - {id}) + {f};
  }

  /** After a disconnect nobody waits for a pending future any more, and no other future changed. */
  lemma ShutdownCompletesPending(p: PeerState, f: nat)
    requires f < |p.futures|
    ensures var p' := Shutdown(p);
            && p'.conn == None && p'.pending == map[] && p'.nextId == p.nextId && |p'.futures| == |p.futures|
            && p'.futures[f] == if p.futures[f].None? && exists id :: id in p.pending && p.pending[id] == f
                                then Some(Lost) else p.futures[f]
  {
    assert f in Targets(p.pending, p.pending.Keys) <==> exists id :: id in p.pending && p.pending[id] == f;
  }

  // ---- Waiting and being answered ----

  /** A call waits: its id is pending on a future that is not done. */
  predicate Waits(p: PeerState, id: int, f: nat) {
    id in p.pending && p.pending[id] == f && f < |p.futures| && p.futures[f].None?
  }

  /** What the caller is to see: the value, or the error's message, or a default where there is none. */
  predicate Tells(reply: Reply, v: Verdict) {
    match v
    case Good(result) => reply == Value(result)
    case Bad(None) => reply == Failure("Native broker RPC failed")
    case Bad(Some(message)) => reply == Failure(if message == "" then "Native broker RPC failed" else message)
  }

  /** An answer, good or bad, completes the future that waits under its id and changes nothing else;
      an answer nobody waits for changes nothing at all. */
  lemma AnswerSettles(p: PeerState, r: PeerResult)
    ensures forall f: nat :: Waits(p, r.id, f) ==>
              exists reply :: Tells(reply, r.verdict)
                && OnResult(p, r) == p.(futures := p.futures[f := Some(Settled(reply, r.origin))])
    ensures (forall f: nat :: !Waits(p, r.id, f)) ==> OnResult(p, r) == p
  {
    forall f: nat | Waits(p, r.id, f)
      ensures exists reply :: Tells(reply, r.verdict)
                && OnResult(p, r) == p.(futures := p.futures[f := Some(Settled(reply, r.origin))])
    {
      assert Tells(ReplyOf(r.verdict), r.verdict);
    }
    if r.id in p.pending {
      assert !Waits(p, r.id, p.pending[r.id]) ==> OnResult(p, r) == p;
    }
  }

  /** A new call waits under an id not used before and a new future; calls that waited still wait. */
  lemma NewCallWaits(p: PeerState)
    requires p.nextId !in p.pending
    ensures var p' := BeginCall(p);
            && Waits(p', p.nextId, |p.futures|) && p'.nextId == p.nextId + 1 && p'.conn == p.conn
            && forall id, f :: Waits(p, id, f) ==> Waits(p', id, f)
  {
  }

  /** A call that has returned waits no more; all others go on. */
  lemma EndedWaitsNoMore(p: PeerState, id: int)
    ensures var p' := EndCall(p, id);
            && p' == p.(pending := p'.pending) && id !in p'.pending
            && forall j :: j != id && j in p.pending ==> j in p'.pending && p'.pending[j] == p.pending[j]
  {
  }

  // ---- At most once ----

  /** What has been completed stays as it is. */
  ghost predicate Keeps(before: seq<Option<Outcome>>, after: seq<Option<Outcome>>) {
    |before| <= |after| && forall f :: 0 <= f < |before| && before[f].Some? ==> after[f] == before[f]
  }

  lemma StepsKeepOutcomes(p: PeerState, r: PeerResult, id: int)
    ensures Keeps(p.futures, BeginCall(p).futures)
    ensures Keeps(p.futures, OnResult(p, r).futures)
    ensures Keeps(p.futures, EndCall(p, id).futures)
    ensures Keeps(p.futures, Shutdown(p).futures)
  {
  }
}
