# Browser MCP: a verified model

The repository is a server that lets language-model agents drive a browser. Many server processes share
one browser extension; the server keeps short memories of what it saw; and it renders what it knows into
small texts. This project models the parts where that goes on behind the caller's back, and proves what
callers may rely on, and exactly when.

| files | what they model |
|---|---|
| `Wire`, `Broker`, `GatewayPeer`, `RpcMultiplexer`, `RpcForwarding`, `RpcDelivery`, `RpcGuarantees`, `BrokerRegistry`, `BrokerForgets` | request and reply across client, native broker and extension, as one step system |
| `Framing` | length-prefixed frames, as in the "Native messaging protocol" section of Chrome's Native Messaging documentation, with the length fixed to little-endian |
| `EventFanout` | broadcasting tab events to subscribed connections |
| `EventHistory`, `CdpConnection`, `CdpSession`, `GatewayEvents` | bounded event queues that are read by name |
| `DiagramGraph`, `DiagramLayering`, `DiagramLayout` | layering and placing the boxes of a diagram |
| `OrderedMap`, `Telemetry`, `TelemetryMeaning`, `TelemetryOrder` | correlating network events by request id |
| `StableSort`, `Ranking`, `NavGraph`, `NavIntegrity`, `NavCounts` | the self-pruning navigation graph |
| `SharedSession` | the re-entrant shared session with emergency reset |
| `LeaderElection` | leader, peer and rescue election over file locks |
| `Rendering`, `RenderState`, `RenderMeaning`, `RenderCanonical`, `RenderOrder` | budgeted rendering |
| `Placeholders`, `Params`, `ParamsRedaction`, `ParamsFilling`, `ParamsGuard` | filling parameters into macros, with a redacted twin |
| `Text`, `SetFacts` | small shared pieces |

Code that changes objects in place is a class here too; its methods are proved equal to a function on the
object's state, and the theorems are about runs of those functions. Code between two `await`s is one step.
Where a run is a list or a `Trace` of actions, the theorems hold for every such list.

## Where the code and its description part

Each of these is a theorem below, together with the exact condition under which the code does meet the description.

- Replies are correlated exactly as long as the broker can tell the peer ids of any two clients apart
  (`CorrelationIffDistinctIds`); the id is the clock and the process id (`extension_gateway_native_peer.py:79`).
- A client keeps its peer id when it reconnects, and the end of the old connection goes by peer id. A connection that
  ends while another of its peer id has calls outstanding takes those calls with it, and one that ends while another of
  its peer id is registered takes the registration (`StrandedIff`, `NothingTakenIff`, `OverlapStrandsACall`). Connections
  of one peer id may well overlap without that (`WithoutLateCloseAnswered`); where they never do, nothing is lost
  (`NoOverlapNothingLost`).
- The frame writer has no size limit but the reader does (`RoundTripIff`).
- `wait_for_event("")` hands out a newer event while an older one of the same, empty name stays queued. No other name
  does that (`NeverOvertakenIff`), and what is handed out is in arrival order all the same (`EventsInOrder`).
- `telemetry.py:280` says that the newest completed request is last. That fails when a request completes again that is
  in the table but not at its end (`ByCompletionIffNeverReturns`, `ReturningBreaksOrder`).
- Pruning can drop the current page, and the next visit then leaves an edge without a node
  (`RunWellLinkedIff`, `OneLinkTooMany`). By default 30 nodes are kept and up to 50 links noted.
- A shared-session block that outlives a reset must not be left while a newer one is open
  (`CountedIffProper`, `ImproperExitUnshares`).
- Against the comment at `extension_gateway_shared.py:122-124`, peers can get stuck. While the unhealthy leader holds the
  main lock a rescuer leads only until its next call (`AlwaysLeadsIff`, `RescueLastsIff`), but keeps the rescue lock, and a
  peer can rescue itself only if no other process has taken that lock without stopping or dying since
  (`RescueWorksIff`, `DemotedRescueBlocks`).
- The line budget of the renderer does not count the header, so texts whose lines fit may still be cut
  (`UncutIff`, `HeaderOverflows`).
- Rendering a dict depends on its insertion order exactly when two keys that are not text read the same
  (`RenderAlikeIff`).
- The fast test before the search for placeholders looks for `{{param:` and `${param:`. A text without either is left
  alone even if it holds placeholders with space before `param:`, unless it is nothing but one placeholder
  (`GuardHarmlessIff`, `NestedGuardHarmlessIff`).

## Model

| member | source | states |
|---|---|---|
| `RpcGuarantees.CorrelationIffDistinctIds` | mcp_servers/browser/native_broker.py:166-194 | every run of any number of clients, under losses, timeouts, reconnects and arbitrary results of the extension, completes each future only with the verdict the extension gave to that very call, exactly when the broker can tell any two clients apart: their peer ids are not blank and differ after stripping |
| `RpcGuarantees.DistinctIdsCorrelate` | mcp_servers/browser/extension_gateway_native_peer.py:197-216 | with ids the broker can tell apart every future is completed only with the verdict for its own call, at every moment of every run |
| `RpcForwarding.ForwardedAtMostOnce` | mcp_servers/browser/native_broker.py:254-263 | whatever peer ids clients use, and under losses, timeouts and reconnects: in no run is a call forwarded under two global ids, and each call not yet read travels in one request only |
| `RpcDelivery.AnswerSettlesCall` | mcp_servers/browser/extension_gateway_native_peer.py:403-426 | a call begun after any run waits through anything that follows, and the first answer for it, good or bad, completes its future with the value, the error message or the default for none; nothing else at the client changes; only giving up, a disconnect or an answer ends the wait |
| `RpcDelivery.ReceiveSettles` | mcp_servers/browser/extension_gateway_native_peer.py:403-426 | the same for one answer taken off a connection in any state |
| `RpcDelivery.CallAnswered` | mcp_servers/browser/native_broker.py:177-263 | from any reachable state, on a connection that is served and registered: a call that the broker cannot answer itself is forwarded, and whatever the extension sends for it completes the caller's future with the reply for exactly that |
| `RpcDelivery.LocalCallAnswered` | mcp_servers/browser/native_broker.py:240-246 | the same for the two methods the broker answers itself: its status for one, connected for the other |
| `RpcGuarantees.CompletedAtMostOnce` | mcp_servers/browser/extension_gateway_native_peer.py:398-426 | a completed future never changes again, whatever happens later and whatever the peer ids |
| `RpcGuarantees.AnsweredAtMostOnce` | mcp_servers/browser/native_broker.py:177-183 | no global id is ever answered to a peer twice, whatever peer ids clients use and whatever the extension sends |
| `RpcGuarantees.SharedIdMisdelivers` | mcp_servers/browser/native_broker.py:273-289 | for any two clients that the broker cannot tell apart there is a run in which the answer to one completes the other's future |
| `RpcMultiplexer.RunKeeps` | mcp_servers/browser/native_broker.py:222-289 | the inductive invariant behind correlation holds after every run: the n-th call of a client has local id n, outstanding global ids are below the next one, each call travels in one message, every answer under way names the call it was made for |
| `RpcMultiplexer.StepKeeps` | mcp_servers/browser/native_broker.py:222-289 | each of the fourteen kinds of step keeps that invariant |
| `RpcMultiplexer.RelayKeeps` | mcp_servers/browser/native_broker.py:177-193 | an answer relayed to the connection registered under the remembered peer id reaches the client whose call was forwarded; the one place that needs ids told apart |
| `RpcMultiplexer.ReceiveKeeps` | mcp_servers/browser/extension_gateway_native_peer.py:403-426 | the future that an incoming answer completes belongs to the call the answer was made for |
| `RpcMultiplexer.BeginKeeps` | mcp_servers/browser/extension_gateway_native_peer.py:197-216 | starting a call takes a fresh local id and a fresh future and keeps all others correlated |
| `RpcMultiplexer.ReadOutcomeKeeps` | mcp_servers/browser/native_broker.py:222-263 | a request read by the broker is either forwarded under the next global id or answered on its own connection, and the invariant survives both |
| `RpcMultiplexer.DisconnectKeeps` | mcp_servers/browser/extension_gateway_native_peer.py:289-306 | failing all pending futures at a disconnect keeps the invariant |
| `BrokerRegistry.ExactIffNoOverlap` | mcp_servers/browser/native_broker.py:265-289 | throughout a run every served connection is the registered one of its peer id and every outstanding entry names a registered peer, exactly when no hello arrives while a connection of the same peer id is still served; for any clients |
| `BrokerRegistry.RunBasic` | mcp_servers/browser/native_broker.py:254-256 | whatever the peer ids, outstanding global ids are numbers already handed out and local ids are never reused |
| `BrokerRegistry.ExactStep` | mcp_servers/browser/native_broker.py:265-289 | from an exact registry every step leads to an exact registry except an overlapping hello, which never does |
| `BrokerForgets.StrandedIff` | mcp_servers/browser/native_broker.py:254-277 | throughout a run of any clients every outstanding call stays in the table until its own result or the end of the connection it was read on, and a result for it would reach some connection, exactly when no connection ends while another of its peer id has calls outstanding and no call is forwarded for a connection whose peer id is not registered |
| `BrokerForgets.NothingTakenIff` | mcp_servers/browser/native_broker.py:272-277 | in a run of any clients no end of a connection unregisters another served connection or forgets its calls exactly when no connection ends while another of its peer id is registered or has calls outstanding |
| `BrokerForgets.EndTakesIff` | mcp_servers/browser/native_broker.py:272-277 | the same for one end of a connection in any reachable state |
| `BrokerForgets.NoOverlapNothingLost` | mcp_servers/browser/native_broker.py:265-289 | if no hello overlaps a served connection of its peer id, nothing is taken and nothing stranded |
| `BrokerForgets.RunEntriesOnServed` | mcp_servers/browser/native_broker.py:254-277 | in every run each outstanding call was read on a connection that is still served, and is kept under its peer id |
| `BrokerForgets.OverlapStrandsACall` | mcp_servers/browser/native_broker.py:272-277 | a run in which the late end of an old connection unregisters the new one and forgets its call: no result the extension could send is answered any more |
| `BrokerForgets.WithoutLateCloseAnswered` | mcp_servers/browser/native_broker.py:272-277 | the same run delivers the answer if the old connection does not end before it, with both connections served under one peer id all along |
| `Broker.NativeBroker.PeerDispatch` | mcp_servers/browser/native_broker.py:222-263 | subscription, local methods, id translation and forwarding of one peer message, as a state change and one effect; a request is forwarded exactly when the broker has no answer itself, with the name stripped and the params as the peer sent them |
| `Broker.NativeBroker.HandleRpcResult` | mcp_servers/browser/native_broker.py:169-194 | consumes the global id, then answers whoever is registered under the remembered peer id |
| `Broker.NativeBroker.PeerLoopEnded` | mcp_servers/browser/native_broker.py:272-277 | the loop that drops the stale entries leaves exactly the other peers' entries |
| `Broker.NativeBroker.HandleHello` | mcp_servers/browser/native_broker.py:285-289 | registers the connection under the stripped or made-up peer id, with no subscriptions |
| `Broker.NativeBroker.SubscribeIfTab` | mcp_servers/browser/native_broker.py:147-152 | adds the stripped tab id to the connection's own set |
| `Broker.DispatchAllocates` | mcp_servers/browser/native_broker.py:254-263 | a forwarded request takes a never used global id and is remembered under it with the sender's own id; local answers touch no table and go back on the same connection |
| `Broker.RelayConsumes` | mcp_servers/browser/native_broker.py:177-193 | an id is answered only while outstanding, is not outstanding afterwards, and no other entry changes |
| `Broker.UnregisterExact` | mcp_servers/browser/native_broker.py:272-277 | a disconnect removes exactly the registration and the entries of its peer id |
| `GatewayPeer.ShutdownCompletesPending` | mcp_servers/browser/extension_gateway_native_peer.py:289-302 | after a disconnect no pending future is left waiting, and no other future changed |
| `GatewayPeer.AnswerSettles` | mcp_servers/browser/extension_gateway_native_peer.py:403-426 | in any state an answer completes the future that waits under its id with what it tells, changing nothing else, and changes nothing at all if none waits |
| `GatewayPeer.NewCallWaits` | mcp_servers/browser/extension_gateway_native_peer.py:197-216 | a new call waits under a fresh id, and those that waited go on waiting |
| `GatewayPeer.EndedWaitsNoMore` | mcp_servers/browser/extension_gateway_native_peer.py:214-216 | a call that returned is no longer pending; all others are |
| `GatewayPeer.NativeExtensionGatewayPeer.RpcCall` | mcp_servers/browser/extension_gateway_native_peer.py:177-216 | fresh id and future, or nothing at all for a blank method name or without a connection |
| `GatewayPeer.NativeExtensionGatewayPeer.OnRpcResult` | mcp_servers/browser/extension_gateway_native_peer.py:403-426 | completes the future pending under the id unless it is done already |
| `GatewayPeer.NativeExtensionGatewayPeer.FinishCall` | mcp_servers/browser/extension_gateway_native_peer.py:214-216 | forgets the id after an answer, an error or a timeout |
| `GatewayPeer.NativeExtensionGatewayPeer.ShutdownAsync` | mcp_servers/browser/extension_gateway_native_peer.py:289-306 | the loop fails exactly the pending futures that are not done and empties the table |
| `Framing.RoundTripIff` | mcp_servers/browser/native_broker.py:33-69 | writing a list of messages and reading the bytes back returns the same list exactly when every encoding has 1 to 8,000,000 bytes, and exactly then the reader stops at the end of the stream |
| `Framing.ReadBack` | mcp_servers/browser/native_broker.py:43-69 | what is read back is always the messages before the first one the reader rejects, and reading stops in front of that one |
| `Framing.ParseIffFrame` | mcp_servers/browser/native_broker.py:45-53 | the parser accepts exactly what the printer produces within the size limits |
| `Framing.LittleEndianRoundTrip` | mcp_servers/browser/native_broker.py:49-67 | unpacking the packed length gives the length |
| `Framing.FromLittleEndianRoundTrip` | mcp_servers/browser/native_broker.py:49-67 | packing an unpacked length gives the four bytes |
| `Framing.Descriptor.ReadExact` | mcp_servers/browser/native_broker.py:33-40 | under any chunking of reads: the next n bytes, or none and the stream used up |
| `Framing.Descriptor.ReadFrame` | mcp_servers/browser/native_broker.py:43-55 | reads exactly the first frame of what is left, whatever the chunking |
| `Framing.Descriptor.ReadAll` | mcp_servers/browser/native_broker.py:213-220 | the extension loop delivers the messages of the stream up to the first failure, and ends; where the stream ends cleanly nothing is left of it |
| `Framing.Sink.WriteFrame` | mcp_servers/browser/native_broker.py:64-69 | appends one frame, or fails before writing when the length does not fit four bytes; there is no check against the reader's limit |
| `EventFanout.ReceivesExactlyDue` | mcp_servers/browser/native_broker.py:154-164 | the events written to a connection are, in order, those whose turn found their tab among the connection's own requests so far, less those whose write failed |
| `EventFanout.SubscriptionsAreOwnRequests` | mcp_servers/browser/native_broker.py:147-152 | subscriptions are exactly the tabs named in the connection's own rpc params, so they only grow |
| `EventFanout.EveryEventGetsItsTurn` | mcp_servers/browser/native_broker.py:158-164 | while it stays registered a connection gets a turn for every event after its hello, once and in order, except that the broadcast under way may still owe it one |
| `EventFanout.RunTurnsOk` | mcp_servers/browser/native_broker.py:158-164 | turns go to greeted connections only, at most one each per broadcast |
| `EventFanout.Broadcast.Begin` | mcp_servers/browser/native_broker.py:154-158 | a broadcast of an event with a tab and a name snapshots the connections, and any other does nothing |
| `EventFanout.Broadcast.TakeTurn` | mcp_servers/browser/native_broker.py:158-164 | one round of the loop writes the event to the next connection of the snapshot if that asks for the tab at that time and the write succeeds, and goes on in any case |
| `EventHistory.RunKeeps` | mcp_servers/browser/session_cdp.py:85-99 | over any run the queue is the newest part of what arrived and was not read, nothing is read twice, each name is read in arrival order |
| `EventHistory.ReadsOldest` | mcp_servers/browser/session_cdp.py:94-98 | a reader gets the oldest queued event of its name, and nothing only if there is none |
| `EventHistory.NothingReadTwice` | mcp_servers/browser/session_cdp.py:94-99 | no event is handed out twice |
| `EventHistory.RunLosses` | mcp_servers/browser/session_cdp.py:85-88 | over any run exactly one unread event is lost for each arrival that found the queue full |
| `CdpSession.EventsInOrder` | mcp_servers/browser/session_cdp.py:72-137 | for every mixture of commands, waits, pops and drains, for whatever names: events of one name are handed out in arrival order, none twice, each as it arrived, the queue is the newest 2000 of the rest at each push, and one event is lost for each that arrived at a full queue, none otherwise |
| `CdpSession.CallsFollow` | mcp_servers/browser/session_cdp.py:229-301 | any sequence of calls is a valid run of the unbounded event history it is compared with |
| `CdpSession.NeverOvertakenIff` | mcp_servers/browser/session_cdp.py:90-99 | callers whose waits and pops ask for names of a given set never see an event handed out while an older one of its name is still queued, whatever they call and whatever arrives, exactly when the blank name is not in the set |
| `CdpSession.BlankNameJumpsTheQueue` | mcp_servers/browser/session_cdp.py:92-93 | an event with an empty name is never popped, so waiting for the empty name hands out a newer one while the older stays queued |
| `CdpConnection.ReplyBearsId` | mcp_servers/browser/session_cdp.py:229-263 | a command gets the first reply with its own id, or the first transport failure before it; it times out only if the stream has neither |
| `CdpConnection.ReplyQueuesAll` | mcp_servers/browser/session_cdp.py:254-257 | waiting for a reply queues every event met on the way, in order |
| `CdpConnection.ArrivalQueuesOthers` | mcp_servers/browser/session_cdp.py:292-300 | waiting for an event queues all others and hands over the first of its name unqueued |
| `CdpConnection.AwaitedNameNotQueued` | mcp_servers/browser/session_cdp.py:292-300 | while waiting for a name no event of that name is queued |
| `CdpConnection.ArrivalIsFirst` | mcp_servers/browser/session_cdp.py:272-301 | a wait for an event gives up only when the whole stream was used and held neither an event of the name nor a transport failure; otherwise it ends at the first of these, with its params or its failure |
| `CdpConnection.QueuedFirst` | mcp_servers/browser/session_cdp.py:267-270 | an event of the name in the queue is handed out first, and then nothing is received |
| `CdpConnection.DrainQueuesAll` | mcp_servers/browser/session_cdp.py:113-137 | draining queues every event it takes off the stream, in order |
| `CdpConnection.DrainTakesAll` | mcp_servers/browser/session_cdp.py:113-137 | draining goes on through events and undecodable messages up to the given number, the end of what is buffered, or the first other message, which it takes; it returns the number of events |
| `CdpConnection.CdpConnection.PushEvent` | mcp_servers/browser/session_cdp.py:85-88 | append, then keep the newest 2000 |
| `CdpConnection.CdpConnection.PopEvent` | mcp_servers/browser/session_cdp.py:90-99 | the search loop removes the first event of the name and nothing else |
| `CdpConnection.CdpConnection.Send` | mcp_servers/browser/session_cdp.py:165-195 | takes the next id and waits for the reply bearing it |
| `CdpConnection.CdpConnection.RecvUntil` | mcp_servers/browser/session_cdp.py:229-263 | the receive loop computes the specified wait on every stream |
| `CdpConnection.CdpConnection.WaitForEvent` | mcp_servers/browser/session_cdp.py:265-301 | queue first, then the stream |
| `CdpConnection.CdpConnection.DrainEvents` | mcp_servers/browser/session_cdp.py:113-137 | takes at most the given number of messages and stops at the first that is no event |
| `GatewayEvents.TabsAreIndependent` | mcp_servers/browser/extension_gateway.py:456-471 | each tab's queue and pops are those of its own history, whatever happens to other tabs |
| `GatewayEvents.PopsAreFifo` | mcp_servers/browser/extension_gateway.py:996-1008 | every queue stays within 2500; pops of one tab and name are first in, first out, each event once |
| `GatewayEvents.RemoveValue` | mcp_servers/browser/extension_gateway.py:465-468 | deleting by value removes exactly the matched position |
| `GatewayEvents.GatewayEventQueues.PopEvent` | mcp_servers/browser/extension_gateway_native_peer.py:248-263 | removes the oldest event of the name from the tab's queue only |
| `GatewayEvents.GatewayEventQueues.Ingest` | mcp_servers/browser/extension_gateway_native_peer.py:428-446 | appends to the tab's queue and drops from its front down to the bound |
| `DiagramLayering.ComputeLayers` | mcp_servers/browser/apps/diagram.py:99-123 | terminates on every multigraph; all nodes are visited exactly when there is no cycle, and then every layer is a longest-path length; each edge occurrence leaving a visited node is relaxed in turn |
| `DiagramLayering.DequeuedIsLongestPath` | mcp_servers/browser/apps/diagram.py:110-118 | the layer of any visited node is the number of edges on a longest path ending there, even when the graph has cycles elsewhere |
| `DiagramLayering.LayerIsLongestDequeuedPath` | mcp_servers/browser/apps/diagram.py:110-123 | the layer of any node at all, visited or stuck, is the number of edges on a longest path to it whose earlier nodes were all visited |
| `DiagramLayering.StuckIffDownstreamOfCycle` | mcp_servers/browser/apps/diagram.py:110-123 | the nodes never visited are exactly those on a cycle or reachable from one |
| `DiagramLayering.AllDequeuedIffAcyclic` | mcp_servers/browser/apps/diagram.py:121-123 | the visited count reaches the node count exactly when there is no cycle |
| `DiagramLayering.RightwardIffAcyclic` | mcp_servers/browser/apps/diagram.py:110-118 | every edge increases the layer exactly on acyclic graphs |
| `DiagramLayering.RelaxedOnce` | mcp_servers/browser/apps/diagram.py:114-118 | every edge occurrence leaving a visited node is relaxed exactly once and no other ever |
| `DiagramLayering.RelaxQueue` | mcp_servers/browser/apps/diagram.py:116-118 | a relaxed node has at least one remaining in-edge, so the clamp at 0 never changes anything; it is queued exactly when its last in-edge goes |
| `DiagramLayering.Finish` | mcp_servers/browser/apps/diagram.py:110-123 | when the queue runs empty the invariant gives layers below the node count, rightward edges out of visited nodes, and a path of that many edges for every layer |
| `DiagramLayering.DrainQueue` | mcp_servers/browser/apps/diagram.py:110-118 | the outer loop dequeues each node at most once and keeps the invariant |
| `DiagramLayering.RelaxSuccessors` | mcp_servers/browser/apps/diagram.py:114-118 | the inner loop relaxes exactly the pending out-edges of the current node |
| `DiagramLayering.BuildAdjacency` | mcp_servers/browser/apps/diagram.py:100-104 | in-degrees and successor lists, with parallel edges counted |
| `DiagramLayering.Roots` | mcp_servers/browser/apps/diagram.py:107-107 | the initial queue is the nodes without in-edges |
| `DiagramLayout.LayoutSound` | mcp_servers/browser/apps/diagram.py:125-142 | every node is placed once, boxes are the full gap apart and inside the canvas less its margins, and all arrows point right by at least the gap exactly when there is no cycle, for all positive boxes and non-negative gaps |
| `DiagramLayout.LayoutDiagram` | mcp_servers/browser/apps/diagram.py:57-142 | the whole pipeline from raw lists to positions yields such a layout of the normalised graph |
| `DiagramLayout.EdgeRightIffLayerIncreases` | mcp_servers/browser/apps/diagram.py:137-142 | an arrow has the full gap exactly when its layers increase |
| `DiagramLayout.BoxInside` | mcp_servers/browser/apps/diagram.py:131-142 | each box lies inside the canvas, below the title |
| `DiagramLayout.BoxesApart` | mcp_servers/browser/apps/diagram.py:137-142 | boxes in different cells are the full gap apart |
| `DiagramLayout.CanvasTight` | mcp_servers/browser/apps/diagram.py:132-142 | the last column and row end at the margins and the first ones begin there, so the canvas is as small as the boxes and gaps allow |
| `DiagramLayout.Normalize` | mcp_servers/browser/apps/diagram.py:63-97 | a well-formed graph, the built-in example for an empty list |
| `DiagramLayout.NodeIdsExact` | mcp_servers/browser/apps/diagram.py:73-83 | the first entry of every non-blank id, and no other |
| `DiagramLayout.NodeIdsInOrder` | mcp_servers/browser/apps/diagram.py:73-83 | earlier entries decide the node order |
| `DiagramLayout.GraphMeans` | mcp_servers/browser/apps/diagram.py:65-95 | the nodes are the non-blank ids, once each, the edges the occurrences between two of them; for an empty node list alone the built-in chain is drawn |
| `DiagramLayout.KnownEdgesInOrder` | mcp_servers/browser/apps/diagram.py:85-95 | edges stay in their order |
| `DiagramLayout.ColumnInOrder` | mcp_servers/browser/apps/diagram.py:125-129 | within a column earlier nodes stand above later ones |
| `DiagramLayout.KnownEdgesExact` | mcp_servers/browser/apps/diagram.py:85-97 | exactly the edge occurrences with two known ends survive |
| `DiagramLayout.Place` | mcp_servers/browser/apps/diagram.py:125-142 | columns, canvas size and positions for given layers |
| `DiagramLayout.FillColumns` | mcp_servers/browser/apps/diagram.py:125-129 | one column per layer, each in node order |
| `DiagramLayout.ColumnExact` | mcp_servers/browser/apps/diagram.py:128-129 | a column holds exactly the nodes of its layer, once each |
| `DiagramLayout.PlaceNodes` | mcp_servers/browser/apps/diagram.py:136-142 | every node is at the grid point of its column and row |
| `Telemetry.CompletedRefinesLife` | mcp_servers/browser/telemetry.py:494-617 | a surviving completed record is the fold of its own request's events exactly when its entry had not been pushed out while it ran |
| `Telemetry.RunningRefinesLife` | mcp_servers/browser/telemetry.py:407-453 | what is known of a running request is what its own events say, exactly unless its entry was pushed out, or never fitted, and then nothing is known of it |
| `Telemetry.DoneMeans` | mcp_servers/browser/telemetry.py:494-612 | in that fold a record holds the request's own start (time, method, address, kind), the last status since and the last type that came with one, and its own ending (error text, block reason, length); it is not ok exactly if the load failed or that status is 400 or more, and its duration counts from that start |
| `Telemetry.MetaMeans` | mcp_servers/browser/telemetry.py:407-470 | the same for the metadata of a request under way |
| `TelemetryMeaning.CompletedMeans` | mcp_servers/browser/telemetry.py:494-612 | every record in the completed table, whatever was pushed out, is of its request's last ending, with the start if that was still remembered then, and without one otherwise |
| `TelemetryMeaning.BuffersMean` | mcp_servers/browser/telemetry.py:407-612 | each buffer is the newest part of what the events say, read off them alone: error statuses and failed loads with the address and method asked for; failed, erroneous, primary, slow or large loads; and the cursor is the latest time |
| `Telemetry.EndingMovesOver` | mcp_servers/browser/telemetry.py:526-548 | a request that ended is no longer under way, and its record is stored if the table holds any |
| `Telemetry.TablesStayOk` | mcp_servers/browser/telemetry.py:308-325 | both tables stay within the limit with distinct keys over any run |
| `Telemetry.RememberGet` | mcp_servers/browser/telemetry.py:308-325 | storing in a full table pushes out the oldest entry only, never the one just stored |
| `Telemetry.BuffersHoldNewest` | mcp_servers/browser/telemetry.py:259-262 | each buffer holds the newest entries of everything ever pushed to it |
| `TelemetryOrder.ByCompletionIffNeverReturns` | mcp_servers/browser/telemetry.py:280-281 | the completed table is in order of completion, newest last, at every moment of a run exactly when no request of the run completes again while it is in the table but not at its end |
| `TelemetryOrder.ReturningBreaksOrder` | mcp_servers/browser/telemetry.py:318-325 | loading a, then b, then a again leaves a before b though a completed last, for any two ids and any table of two entries or more |
| `Telemetry.Tier0Telemetry.Ingest` | mcp_servers/browser/telemetry.py:327-617 | one network event, as a change of tables, buffers and cursor |
| `Telemetry.Tier0Telemetry.OnResponse` | mcp_servers/browser/telemetry.py:438-492 | status and type go to the request's metadata, error statuses to the network buffer |
| `Telemetry.Tier0Telemetry.OnFailed` | mcp_servers/browser/telemetry.py:494-548 | a failed load is recorded as not ok with its metadata and leaves the running table |
| `Telemetry.Tier0Telemetry.OnFinished` | mcp_servers/browser/telemetry.py:550-617 | a finished load is ok unless its last status is 400 or more; summaries are kept for failures, primary resources, slow and large loads |
| `Telemetry.Tier0Telemetry.RememberRequest` | mcp_servers/browser/telemetry.py:308-316 | store, then drop the oldest down to the limit |
| `Telemetry.Tier0Telemetry.RememberDoneRequest` | mcp_servers/browser/telemetry.py:318-325 | the same for completed requests |
| `OrderedMap.PutGet` | mcp_servers/browser/telemetry.py:311-321 | storing under a key changes the value at that key only |
| `OrderedMap.TrimGet` | mcp_servers/browser/telemetry.py:312-325 | trimming loses exactly the keys whose entries are oldest |
| `NavIntegrity.RunWellLinkedIff` | mcp_servers/browser/session_manager.py:1146-1248 | along any run, with any clock and any limits per call, the current page is always a node and every edge joins two nodes exactly when each observation leaves fewer than keep_n nodes ranked ahead of its current page |
| `NavIntegrity.AdvancingWellLinkedIff` | mcp_servers/browser/session_manager.py:1146-1248 | with an advancing clock that is exactly when each observation links to fewer than keep_n pages with ids before its own page's |
| `NavIntegrity.FewTargetsSuffice` | mcp_servers/browser/session_manager.py:1198-1245 | with an advancing clock at most keep_n - 1 distinct link targets per observation always suffice |
| `NavIntegrity.WellLinkedIff` | mcp_servers/browser/session_manager.py:1166-1246 | the same for one observation from a well-linked graph |
| `NavIntegrity.CurrentKeptIff` | mcp_servers/browser/session_manager.py:1125-1130 | the current page is kept exactly when fewer than keep_n recorded nodes rank ahead of it, whatever the clock |
| `NavIntegrity.OneLinkTooMany` | mcp_servers/browser/session_manager.py:1198-1245 | for any keep_n up to the 50 links noted, and whatever the digests: a page that links to keep_n pages with smaller ids loses its own node, and a visit to one of those then leaves an edge without a node |
| `NavIntegrity.NextVisitDangles` | mcp_servers/browser/session_manager.py:1182-1193 | whenever the last page is no node, a visit to a page that is one, where nothing need be dropped, leaves an edge without a node |
| `NavIntegrity.VisitsCountObservations` | mcp_servers/browser/session_manager.py:1168-1180 | over any run a node counts at most the observations of its page, and exactly them if it was never dropped; link targets count none |
| `NavCounts.EdgeCountsTraversals` | mcp_servers/browser/session_manager.py:1182-1242 | in every run a stored edge is exactly its traversals (page changes and the first 50 links of each observation) since the graph was last without it: their number, the key of the first, the times of the first and the last |
| `NavCounts.EdgeMeans` | mcp_servers/browser/session_manager.py:1182-1242 | so its count is between 1 and the number of its traversals in the run, and if it was never dropped it is exactly all of them |
| `NavCounts.NodeMeans` | mcp_servers/browser/session_manager.py:1161-1219 | in every run a node is exactly the sightings of its page since the graph was last without it: visits, first and last time, the last title, the address last observed or else first linked |
| `NavCounts.LimitsMean` | mcp_servers/browser/session_manager.py:1116-1117 | as many nodes and edges are kept as asked for, within 1 to 200 and 0 to 500 |
| `NavIntegrity.KeptRankFirst` | mcp_servers/browser/session_manager.py:1125-1144 | at most keep_n nodes and keep_e edges are kept; every kept node ranks before every dropped one by newest time, then id; likewise edges whose ends were kept |
| `NavIntegrity.PruneKeepsAttached` | mcp_servers/browser/session_manager.py:1131-1137 | pruning never detaches an edge |
| `NavIntegrity.RecordedAttached` | mcp_servers/browser/session_manager.py:1168-1243 | after recording the current page and all link targets are nodes, and edges join nodes if the graph was well linked |
| `NavIntegrity.RecordedTimes` | mcp_servers/browser/session_manager.py:1168-1221 | with a later clock exactly the current page and the link targets carry the new time |
| `NavGraph.TabGraph.NoteObservation` | mcp_servers/browser/session_manager.py:1146-1246 | one observation: record, then prune |
| `NavGraph.TabGraph.Record` | mcp_servers/browser/session_manager.py:1166-1243 | node, transition edge and link edges are counted as specified |
| `NavGraph.TabGraph.NoteLinks` | mcp_servers/browser/session_manager.py:1197-1243 | the loop over at most 50 link entries, with stubs for new targets |
| `NavGraph.TabGraph.Prune` | mcp_servers/browser/session_manager.py:1114-1144 | deletes down to the best-ranked nodes, then the dangling edges, then down to the best-ranked edges |
| `NavGraph.KeepBest` | mcp_servers/browser/session_manager.py:1125-1144 | above the limit exactly the best-ranked entries stay, unchanged |
| `NavGraph.DeleteOthers` | mcp_servers/browser/session_manager.py:1128-1130 | the deletion loop leaves exactly the kept entries |
| `Ranking.SortKeys` | mcp_servers/browser/session_manager.py:1126-1126 | the keys in rank order, each once |
| `Ranking.FirstAreTop` | mcp_servers/browser/session_manager.py:1126-1127 | the first k of the sorted keys are the k best |
| `Ranking.KeptIff` | mcp_servers/browser/session_manager.py:1126-1130 | a key is kept exactly when fewer than k keys rank before it |
| `Ranking.BeforeTotal` | mcp_servers/browser/session_manager.py:1126-1126 | ranking decides between any two keys |
| `Ranking.LessIff` | mcp_servers/browser/session_manager.py:1126-1126 | strings are compared at the first place where they differ, or where one ends |
| `SharedSession.CountedIffProper` | mcp_servers/browser/session_manager.py:1677-1731 | in every run with resets and failed setups anywhere, the refcount is the number of blocks entered since the last reset and the session fields are set exactly when it is positive, exactly when no block from before a reset is left while a newer one is open |
| `SharedSession.LastFirstCounted` | mcp_servers/browser/session_manager.py:1677-1731 | last-in-first-out exits always meet that condition |
| `SharedSession.NoResetCounted` | mcp_servers/browser/session_manager.py:1677-1731 | without resets any order of exits does |
| `SharedSession.NestedSharesSession` | mcp_servers/browser/session_manager.py:1674-1682 | a block entered while one is live yields the session of all live blocks, or raises for another port and changes nothing |
| `SharedSession.StaleExitHarmless` | mcp_servers/browser/session_manager.py:1683-1690 | under last-in-first-out, leaving a block from before a reset finds nothing shared and only closes its own session again |
| `SharedSession.NoResetClosesOnce` | mcp_servers/browser/session_manager.py:1719-1731 | without resets every connection that is no longer shared was closed exactly once and the shared one never |
| `SharedSession.LastOutCloses` | mcp_servers/browser/session_manager.py:1683-1731 | without resets the last of the overlapping blocks closes the session, no other |
| `SharedSession.ProperCloses` | mcp_servers/browser/session_manager.py:134-162 | with resets, exactly the connections no longer shared have been closed, and none that was never made |
| `SharedSession.NothingLeaks` | mcp_servers/browser/session_manager.py:1719-1731 | when all blocks are left everything is closed and nothing shared |
| `SharedSession.ImproperExitUnshares` | mcp_servers/browser/session_manager.py:1719-1731 | leaving a block from before a reset first unshares a newer block's open session, and the next block opens a second connection |
| `SharedSession.SessionManager.Enter` | mcp_servers/browser/session_manager.py:1665-1717 | what a block yields or that it raises, and the new fields, for every outcome of the setup |
| `SharedSession.SessionManager.Exit` | mcp_servers/browser/session_manager.py:1718-1731 | decrement, and at zero close and clear |
| `SharedSession.SessionManager.RecoverReset` | mcp_servers/browser/session_manager.py:134-162 | closes the shared session if there is one and clears the fields |
| `SharedSession.SessionManager.GetActiveSharedSession` | mcp_servers/browser/session_manager.py:1649-1662 | the shared session while the fields are set and the count is positive |
| `LeaderElection.LeadersHoldLocks` | mcp_servers/browser/extension_gateway_shared.py:38-63 | in every run of any number of processes every leader holds the main or the rescue lock, so there are at most two; the main lock's holder always leads |
| `LeaderElection.RunSound` | mcp_servers/browser/extension_gateway_shared.py:38-138 | no process has both backends, `is_proxy` holds exactly when the peer backend is set, and locks are held by live processes |
| `LeaderElection.StepSound` | mcp_servers/browser/extension_gateway_shared.py:38-138 | each locked block, a stop, a crash and a start keep that |
| `LeaderElection.CrashPromotes` | mcp_servers/browser/extension_gateway_shared.py:38-48 | when the leader stops or dies the next process that needs its backend, or tries again while waiting, takes over |
| `LeaderElection.AttemptDecides` | mcp_servers/browser/extension_gateway_shared.py:38-63 | either attempt makes a process the leader with the main lock exactly when no other process has that lock, and affects no other process |
| `LeaderElection.AlwaysLeadsIff` | mcp_servers/browser/extension_gateway_shared.py:38-63 | over any run a process leads at every moment exactly when it leads to begin with, neither stops nor dies, and none of its calls comes while another process holds the main lock |
| `LeaderElection.RescueLastsIff` | mcp_servers/browser/extension_gateway_shared.py:51-63 | while the unhealthy leader lives, its rescuer leads throughout a run exactly when it makes no call in it and neither stops nor dies; its next call turns it back into a peer that keeps the rescue lock |
| `LeaderElection.RescueWorksIff` | mcp_servers/browser/extension_gateway_shared.py:122-134 | after any run a peer's attempt to rescue itself succeeds exactly when no other process has taken the rescue lock without stopping or dying since |
| `LeaderElection.TakerOwns` | mcp_servers/browser/extension_gateway_shared.py:125-126 | in every run the rescue lock is with the process that last took it as a peer while nobody had it, until that process stops or dies |
| `LeaderElection.RescueStaysBlocked` | mcp_servers/browser/extension_gateway_shared.py:122-138 | until a process with the rescue lock stops or dies, leader or not, any other leader holds the main lock |
| `LeaderElection.DemotedRescueBlocks` | mcp_servers/browser/extension_gateway_shared.py:51-138 | a reachable state in which this happens to a third process |
| `LeaderElection.SharedExtensionGateway.EnsureBackend` | mcp_servers/browser/extension_gateway_shared.py:38-59 | leader with the main lock, or else peer |
| `LeaderElection.SharedExtensionGateway.Promote` | mcp_servers/browser/extension_gateway_shared.py:107-117 | leader if the main lock can be had, else unchanged |
| `LeaderElection.SharedExtensionGateway.RescueLead` | mcp_servers/browser/extension_gateway_shared.py:125-133 | leader on the rescue lock if still a proxy and the lock can be had |
| `LeaderElection.SharedExtensionGateway.WaitForConnection` | mcp_servers/browser/extension_gateway_shared.py:99-138 | undisturbed, the whole method ends as leader if either lock was available, with the right result |
| `LeaderElection.SharedExtensionGateway.Stop` | mcp_servers/browser/extension_gateway_shared.py:73-83 | idle, both locks released |
| `LeaderElection.LeaderLock.TryAcquire` | mcp_servers/browser/extension_leader_lock.py:40-83 | succeeds exactly when the lock is free or its own, and then holds it |
| `LeaderElection.LeaderLock.Release` | mcp_servers/browser/extension_leader_lock.py:85-102 | gives the lock back if it was held |
| `RenderState.MarkdownFits` | mcp_servers/browser/server/ai_format.py:44-70 | the text shows the longest prefix of the unlimited lines that fits, and exceeds a budget of 0 or more by at most the marker; below 0 no line is shown and the text is no longer than header and marker |
| `RenderState.UncutIff` | mcp_servers/browser/server/ai_format.py:62-70 | all lines are shown and the hard cap is not reached exactly when the lines have room, and the text has room with its header, which the line budget does not count |
| `RenderState.UncutWithRoomForHeader` | mcp_servers/browser/server/ai_format.py:62-70 | in particular nothing is cut when the lines leave room for the header |
| `RenderState.HeaderOverflows` | mcp_servers/browser/server/ai_format.py:62-70 | a single line that fits the line budget is cut all the same when there is no room for the header |
| `RenderState.RenderCtxMarkdown` | mcp_servers/browser/server/ai_format.py:44-70 | the imperative renderer produces exactly that text |
| `RenderState.RenderCtxText` | mcp_servers/browser/server/ai_format.py:73-81 | the text wrapped and capped the same way, within the same bound for budgets of 0 or more |
| `RenderMeaning.EntryIsShown` | mcp_servers/browser/server/ai_format.py:164-180 | for every path of keys into nested dicts, down to the depth that is asked for, all lines of the entry at its end are among the rendered lines |
| `RenderMeaning.DictMeans` | mcp_servers/browser/server/ai_format.py:164-180 | a dict is the blocks of its entries in the order of its keys and nothing else: indentation, key, and the scalar, or the kind of container with its own lines below |
| `RenderMeaning.ListMeans` | mcp_servers/browser/server/ai_format.py:183-206 | a list is its first items, up to the limit, one line each, and a note of its length if there are more |
| `RenderMeaning.PreviewMeans` | mcp_servers/browser/server/ai_format.py:189-203 | the line of an item: a dict by the scalars among its first three keys or else by its size, a list by its length, a scalar as it is |
| `RenderMeaning.OtherMeans` | mcp_servers/browser/server/ai_format.py:149-161 | below the depth that is asked for there is one note, and a scalar is a line by itself |
| `RenderMeaning.ScalarMeans` | mcp_servers/browser/server/ai_format.py:104-120 | each scalar as it is written; of text the first line, with a mark if there are more, cut to the limit, less white space, with a mark if longer |
| `RenderMeaning.KeyLessMeans` | mcp_servers/browser/server/ai_format.py:131-142 | priority keys come first, in the order of their list, then other text, then all else, by their reading |
| `RenderMeaning.KeysInOrder` | mcp_servers/browser/server/ai_format.py:131-142 | in any dict no key is listed after one that it comes before |
| `RenderMeaning.DecimalReads` | mcp_servers/browser/server/ai_format.py:171-206 | lengths are written in decimal without leading zeros |
| `RenderMeaning.MarkdownMeans` | mcp_servers/browser/server/ai_format.py:55-70 | the text is the emitted lines less white space at the end, between header and newline; if that is longer than the budget, of whatever sign, it is cut as Python's slice does, less white space, and marked |
| `RenderMeaning.CappedMeans` | mcp_servers/browser/server/ai_format.py:73-81 | the same for a plain text |
| `RenderMeaning.MarkdownReadsBack` | mcp_servers/browser/server/ai_format.py:44-70 | from a text that is not cut, without header and final newline, splitting at newlines gives exactly the rendered lines back |
| `Text.StripIs` | mcp_servers/browser/native_broker.py:227-227 | stripping takes away white space at both ends, all of it, and nothing else |
| `RenderState.Renderer.RenderAny` | mcp_servers/browser/server/ai_format.py:145-161 | every line of the unlimited rendering is offered to the budget, in order |
| `RenderState.Renderer.RenderDict` | mcp_servers/browser/server/ai_format.py:164-180 | the same for the loop over sorted keys with its early return |
| `RenderState.Renderer.RenderList` | mcp_servers/browser/server/ai_format.py:183-206 | the same for the loop over list items |
| `RenderState.Renderer.PushLine` | mcp_servers/browser/server/ai_format.py:91-101 | a line is taken only if it fits with its newline; the first refusal is final |
| `Rendering.EmittedFits` | mcp_servers/browser/server/ai_format.py:91-101 | pushing lines one by one emits the longest prefix that fits |
| `Rendering.EmittedPrefix` | mcp_servers/browser/server/ai_format.py:91-101 | the used count is the room of the emitted lines, and truncation is noticed exactly when lines are missing |
| `Rendering.TextOnOneLine` | mcp_servers/browser/server/ai_format.py:111-119 | text is shown on one line of bounded length |
| `Rendering.LinesOneLined` | mcp_servers/browser/server/ai_format.py:104-206 | whatever text the values hold, every rendered line is one line, if keys and other scalars bring no newline |
| `RenderCanonical.RenderingIsCanonical` | mcp_servers/browser/server/ai_format.py:123-206 | values that differ only in the order of dict entries, at any depth, render to the same text under any budget, if no two keys other than text read the same |
| `RenderCanonical.TextKeyedCanonical` | mcp_servers/browser/server/ai_format.py:123-206 | in particular all values with text keys |
| `RenderCanonical.TotalIffReadApart` | mcp_servers/browser/server/ai_format.py:131-142 | the key order decides between any two keys of a dict exactly when no two other than text read the same |
| `RenderOrder.RenderAlikeIff` | mcp_servers/browser/server/ai_format.py:131-142 | for any list of keys, dicts with these keys and the same values render to the same text in every order of filling and under every budget exactly when no two of the keys, other than text, read the same |
| `StableSort.SortCanonical` | mcp_servers/browser/server/ai_format.py:142-142 | sorting by a strict total order forgets the original order |
| `StableSort.SortKeeps` | mcp_servers/browser/server/ai_format.py:142-142 | sorting is a permutation |
| `StableSort.SortNoneLater` | mcp_servers/browser/server/ai_format.py:142-142 | nothing is sorted behind what it ranks before, whether or not the order is total |
| `RenderCanonical.SameReadingShowsOrder` | mcp_servers/browser/server/ai_format.py:139-142 | where two keys read the same and hold scalars that are shown differently, the two orders of filling give different lines under every budget that shows them |
| `StableSort.SortMapped` | mcp_servers/browser/server/ai_format.py:142-142 | sorting does not see an exchange of names that the order does not see |
| `StableSort.SortOrdered` | mcp_servers/browser/server/ai_format.py:142-142 | sorting orders |
| `ParamsRedaction.NoteRevealsNothing` | mcp_servers/browser/run/params.py:39-90 | two runs with the same parameter names, whatever the values, fail on the same key or give the same note |
| `ParamsRedaction.InterpolatedIs` | mcp_servers/browser/run/params.py:39-90 | interpolation fails on the first key asked for that is missing and otherwise rebuilds the template twice, the note without looking at any value |
| `ParamsRedaction.SucceedsIff` | mcp_servers/browser/run/params.py:50-68 | it succeeds exactly when every key asked for is a parameter |
| `ParamsRedaction.AgreeOutsidePlaceholders` | mcp_servers/browser/run/params.py:54-90 | on success the actual value and the note have the template's shape, each nested text is replaced as it is on its own, and both are the template wherever a text has no placeholder |
| `ParamsRedaction.SubstitutedIs` | mcp_servers/browser/run/params.py:57-70 | substitution fills the pieces the template was cut into, so what is put in is never scanned again |
| `ParamsRedaction.UntouchedWithoutHoles` | mcp_servers/browser/run/params.py:54-55 | a text that asks for nothing stays as it is in both versions |
| `ParamsRedaction.ExactIff` | mcp_servers/browser/run/params.py:22-24 | the exact form is one placeholder with nothing but space around it |
| `ParamsFilling.InlineFilled` | mcp_servers/browser/run/params.py:57-70 | a text with one placeholder inside becomes what stands before it, the parameter as text or nothing for null, and what stands after it; in the note `<param:`, the key and `>` stand there; a missing key fails |
| `ParamsFilling.FillsOne` | mcp_servers/browser/run/params.py:70-70 | for texts with any placeholders: up to the first nothing changes, that one is replaced, and what follows is filled in the same way |
| `ParamsFilling.FilledIs` | mcp_servers/browser/run/params.py:54-70 | on success both versions are such fillings, with the parameters as text and with the redacted names |
| `ParamsFilling.ExactFilled` | mcp_servers/browser/run/params.py:46-52 | a text that is nothing but a placeholder becomes the parameter itself, with the redacted name in the note, or fails |
| `ParamsGuard.TightIsFound` | mcp_servers/browser/run/params.py:54-55 | a placeholder without space before `param:` always passes the fast test |
| `ParamsGuard.GuardHarmlessIff` | mcp_servers/browser/run/params.py:54-55 | for every text the fast test before the regular expression makes no difference, whatever the parameters, exactly when the text is one placeholder, passes the test, or holds no placeholder |
| `ParamsGuard.NestedGuardHarmlessIff` | mcp_servers/browser/run/params.py:45-90 | the same for every nested value: exactly when the texts that no later key overwrites are so, and the same keys are asked for in the same order for the first time with the test and without |
| `ParamsGuard.MissAlikeIff` | mcp_servers/browser/run/params.py:59-68 | two lists of keys fail on the same first key, whatever the parameters, exactly when they ask for the same keys in the same order for the first time |
| `ParamsGuard.RebuiltSameIff` | mcp_servers/browser/run/params.py:73-90 | two treatments of texts rebuild a value to the same result exactly when they agree on the texts that no later key overwrites |
| `ParamsGuard.EveryTextHarmlessIff` | mcp_servers/browser/run/params.py:45-90 | it is enough that all texts are harmless, and necessary where no two keys of a dict read the same |
| `ParamsGuard.SpacedIsSkipped` | mcp_servers/browser/run/params.py:54-55 | a family of texts where it does: one placeholder of any key with space before `param:`, after a letter, is left alone, and a missing key goes unnoticed |
| `Placeholders.MatchIff` | mcp_servers/browser/run/params.py:19-21 | the matcher decides the grammar of placeholders, and a placeholder can be read in one way only |
| `Placeholders.PiecesExact` | mcp_servers/browser/run/params.py:70-70 | scanning makes a hole exactly where a placeholder stands |
| `Placeholders.SourceOfPieces` | mcp_servers/browser/run/params.py:70-70 | scanning loses nothing: the pieces spell the text |
| `Params.InterpolateParamsPair` | mcp_servers/browser/run/params.py:39-90 | the recursion with its loops and first failure computes the specified outcome |

## Left out

- Sockets, threads, asyncio, websockets, subprocesses, file writes and environment variables: streams, steps, clock
  arguments and a table of lock owners stand for them.
- JSON, UTF-8, SHA-1, base64, URL splitting and `str` of arbitrary values: opaque parameters. `Framing` asks of JSON only
  that decoding undoes encoding; `NavGraph` asks nothing of the digests.
- `Call`, `Origin`, `stamp` and the `arrivals` counters label messages and events for the proofs; no operation looks at them.
- Local ids are integers, as the clients send them; the broker would echo any JSON value.
- Two `_extension_loop`s or several brokers, broker restarts, and a failed write to a peer, which would end the extension loop.
- Waiting with a timeout in the gateways (`wait_for_event`): repeated pops with sleeps between them.
- A shared session whose `close` raises, and two threads inside `shared_session` at once.
- Exceptions between the assignments of one election block.
- `extension_gateway_peer.py` and the pending table of `extension_gateway.py`: the same logic as the native peer.
- Header previews, initiators, full addresses, content types, download names, console, errors, dialogs and redaction in telemetry,
  and the queries on it; `get_nav_graph_view`.
- Observations without a tab or a URL, which return at once, and the sizes that the navigation graph reports.
- Labels, titles and the SVG text of diagrams; `net_trace.py`, embedded JavaScript, tool schemas, registries and installers.
- LeaderElection.LeaderLock.TryAcquire: does not model writing the process id into the lock file, which nothing reads, nor
  the fallback when file locks are not supported (`extension_leader_lock.py:66-74`).
- Framing.RoundTripIff: for encodings below 4 GiB, because packing the length of longer ones raises.
- NavIntegrity.FewTargetsSuffice: for clocks that advance between observations; `RunWellLinkedIff` needs no such clock.
