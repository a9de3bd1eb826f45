/** Messages between peers, broker and extension. JSON values are opaque text. */
module Wire {

  datatype Option<+T> = None | Some(value: T)

  type Json = string

  /** One accepted IPC connection; the broker keeps one `_Peer` record per connection. */
  type ConnId = nat

  /** The identity of one `rpc_call` invocation: which client, and which of its futures.
      Messages carry it only so that the proofs can say whose request they belong to;
      no operation looks at it. */
  datatype Call = Call(client: nat, future: nat)

  /** A non-empty `params` object: its `tabId`, if that is text or a number, and the rest. */
  datatype Params = Params(tabId: Option<string>, rest: Json)

  /** An `rpc` message of a peer, asking for the method `name`. A missing or unreadable `timeoutMs` is 0. */
  datatype PeerRpc = PeerRpc(id: int, name: string, params: Option<Params>, timeoutMs: int, call: Call)

  datatype PeerMsg = Rpc(rpc: PeerRpc) | Unrelated

  /** What the broker forwards to the extension. */
  datatype ExtRequest = ExtRequest(id: int, name: string, params: Option<Params>, timeoutMs: Option<int>, call: Call)

  /** An `rpcResult` of the extension. `id` is None when it is not an integer; `error` is None when
      it is not an object, and otherwise holds the object's `message` if that is text. */
  datatype ExtResult = ExtResult(id: Option<int>, ok: bool, result: Json, error: Option<Option<string>>)

  /** The payload of an `rpcResult` sent to a peer. */
  datatype Verdict = Good(result: Json) | Bad(message: Option<string>)

  /** Where an answer comes from; proof bookkeeping, like `Call`. */
  datatype Origin = FromExtension(globalId: int) | FromBroker(call: Call)

  datatype PeerResult = PeerResult(id: int, verdict: Verdict, origin: Origin)
}
