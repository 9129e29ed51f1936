# MyFlowHub core: a verified model

MyFlowHub's core is a message hub. Hubs form a tree; each keeps a table of connections, reads
HeaderTcp v2 frames off byte pipes, and hands a frame to a sub-protocol handler, forwards it one
link toward its target, or copies it to its children. This project models the parts of that core
where a mistake would not show in one function, and proves what they do over every input, every
run and every interleaving.

What the project proves, in five parts:

1. **Routing** (`Links`, `Routing`, `Sums`, `Network`, `Trees`, `TreeDelivery`). One node's
   treatment of one frame, then a network of nodes as a state machine whose steps process any
   frame in flight. For an arbitrary topology, cycles and broken tables included, every run ends,
   and the number of forwards is bounded by the hop limit. In a tree of hubs, unicast and broadcast
   are delivered exactly: where, how often, along which path, and when not.
2. **The byte path** (`Bytes`, `Remainders`, `Header`, `Codec`, `Pipes`, `FrameIO`). The codec and its stream
   laws, the zero-copy writer, `WriteAll`, and the Windows RFCOMM pipe with its chunking, halving
   fallback and read cache, against a provider that answers any send with any partial progress and
   any error. `FrameIO.Transfer` joins them end to end.
3. **The send scheduler** (`SendScheduler`, `SendOrder`, `SendClose`, `SendDispatch`). Dispatch,
   shard workers, connection writers and the two halves of CloseConn as freely interleaved steps:
   conservation of tasks, order and bytes on each pipe, and exactly what CloseConn may upset.
   `SendDispatch` holds the dispatcher and the writers as objects whose methods are those steps.
4. **The connection manager** (`ConnManager`, `ManagerRuns`). The manager as a class; then its
   operations split at the point where the lock is released, with hooks, closing and evictions
   interleaving.
5. **The receive scheduler** (`ReceiveScheduler`). Queue strategies, the fairness of round-robin,
   and order of routing over every run of channels and workers.

Integers are unbounded in Dafny, so every truncation of the Go code is written out. Map iteration
order is a parameter constrained only to be an enumeration. Hashes are arbitrary fixed functions.
Timeouts, full queues and failing writes are free choices of the run.

## Where the code differs from its comments or from what one would expect

- `route` says a Cmd frame is handled locally without affecting its forwarding
  (process/dispatcher.go:235-238), but Cmd frames are never forwarded: the branch is reached only
  by frames with source 0 that pre-routing dropped (`Routing.InterceptedAfterDrop`).
- A broadcast is copied on but never handed to a handler, at any hub (`Routing.BroadcastIsNeverHandled`,
  `TreeDelivery.BroadcastDelivery`).
- A unicast frame can be sent back on the link it came in on; `TreeDelivery.SentBackExactly` says
  exactly when.
- A stream cut after 0, 4 or 32 bytes of a frame reports a plain EOF, as if it had ended between
  frames (`Codec.StrictPrefixFails`).
- A payload of 2^32 bytes or more is written with its length cut to 32 bits, so the round trip
  holds exactly below that size (`Codec.RoundTrip`, `Codec.OversizedPayloadIsLost`).
- Index updates do not check that the connection is managed; the index invariant survives an
  update exactly when it is (`ManagerRuns.GuardIsExact`).
- A remove hook can get ahead of its add hook, exactly when a removal takes effect while an add has
  yet to fire that hook (`ManagerRuns.HookOrderIff`, `ManagerRuns.RemoveOvertakesAdd`).
- An eviction names its victim by ID and removes another connection exactly when one is stored
  under that ID by then (`ManagerRuns.EvictionExact`, `ManagerRuns.EvictionHitsNewcomer`); a
  predecessor with an empty ID is never evicted (`ConnManager.DirectBindConflict`).
- CloseConn lets a second writer onto a pipe the first is still writing to. A connection's frames
  stay in order and are written one at a time exactly when no CloseConn finds a writer with bytes
  left to write (`SendClose.FrameOrderIff`, `SendClose.OneAtATimeIff`,
  `SendClose.CloseConnLetsFramesInterleave`); they are reported in order exactly when no CloseConn
  finds one with so much as a report left to make (`SendClose.ReportOrderIff`).
- A hub without a handler for a frame's sub-protocol drops it even in transit
  (process/dispatcher.go:217-221): delivery depends on every hub of the path
  (`TreeDelivery.UnicastDelivery`, `TreeDelivery.BroadcastDelivery`).
- Bytes received together with an error other than message-size are dropped; all received bytes
  are kept exactly when there are none (`Pipes.AllKeptIff`).
- Connection hashing keeps a connection's frames in order exactly when each channel has a single
  worker, and round-robin stays fair past the wrap of its counter exactly when the number of queues
  divides 2^64 (`ReceiveScheduler.ConnOrderIff`, `ReceiveScheduler.FairForeverIff`).

## Model

| member | source | states |
|---|---|---|
| `Header.PackTypeFmt` | header/header.go:62-89 | Major and sub-protocol tile the type byte: both can be read back from it, each cut to its width |
| `Header.BitFieldsAreMasks` | header/header.go:62-66 | On bit vectors: the major is bits 0-1 and the sub-protocol bits 2-7 |
| `Header.HeaderCell.WithMajor` | header/header.go:80-84 | Sets the major bits and leaves the sub-protocol and every other field alone |
| `Header.HeaderCell.WithSubProto` | header/header.go:86-89 | Sets the sub-protocol bits and leaves the major bits and every other field alone |
| `Header.CloneToTCP` | header/header.go:225-246 | A fresh header that stands for the same values, whatever header type it was cloned from |
| `Header.CloneToTCPForForward` | header/header.go:250-264 | Agrees with the router's own clone followed by conversion, and refuses exactly the same headers |
| `Header.TraceSequence.Next` | server/server.go:115-129 | Never 0, otherwise consecutive, across the 32-bit wrap |
| `Header.FillHeader` | header/header.go:151-164 | Lays the fields out big-endian in the first 32 bytes and touches nothing behind them |
| `Header.Encode` | header/header.go:122-167 | The buffer is the normalised header image followed by the payload |
| `Codec.WireLayout` | header/header.go:122-167 | Every field of an encoded frame at its offset, big-endian, with the literal values of magic, version, header length and default hop limit |
| `Codec.DecodesExactly` | header/header.go:170-223 | Exactly which inputs decode, and which error the first thing that is wrong gives |
| `Codec.ParseLaidOut` | header/header.go:170-223 | Reading the fields undoes laying them out, whatever follows |
| `Codec.LayOutParsed` | header/header.go:170-223 | Laying the fields out undoes reading them, for any 32 bytes |
| `Codec.DecodeImage` | header/header.go:170-223 | Decoding any well-formed image: extension bytes skipped, exactly the announced payload taken, short input reported as such |
| `Codec.RoundTrip` | header/header.go:122-223 | Decoding an encoded frame returns it normalised and leaves exactly the rest of the stream, if and only if the payload is shorter than 2^32 bytes |
| `Codec.OversizedPayloadIsLost` | header/header.go:144-146 | A payload of exactly 2^32 bytes decodes as an empty one |
| `Codec.StrictPrefixFails` | header/header.go:170-223 | Every strict prefix of a frame fails to decode, with a clean EOF exactly at cuts 0, 4 and 32 |
| `Codec.ExtensionIsIgnored` | header/header.go:184-196 | Up to 223 extension bytes change the announced header length and nothing else |
| `Codec.DecodedShape` | header/header.go:170-223 | What a successful decode implies about its input: constants, lengths, and how the input splits into header, payload and rest |
| `Codec.ReencodeIsCanonical` | header/header.go:122-223 | Re-encoding reproduces the input exactly when it had no extension and an explicit hop limit, decodes to the same frame, and is idempotent |
| `Codec.StreamLaw` | reader/tcp_reader.go:44-56 | Repeated decoding of a concatenation of frames returns them in order and continues with whatever follows |
| `Codec.CutStream` | reader/tcp_reader.go:44-56 | A stream cut inside a frame delivers exactly the whole frames before the cut |
| `Codec.SendOverWire` | server/server.go:318-340 | What the peer decodes of a frame a node originates: the hop limit set or 16, the trace set or a new one, the message unchanged |
| `Codec.ForwardOverWire` | process/prerouting.go:196-210 | One forward through clone, Send, encode and decode spends exactly one hop, the 0-means-16 default does not fire, and the message and a non-zero trace are unchanged |
| `Codec.ForwardChain` | process/prerouting.go:196-210 | A frame survives k forwards exactly when its effective hop limit exceeds k, with k hops spent and its message and trace kept |
| `Pipes.WinSockPipe.Read` | listener/rfcomm_listener/native_windows.go:180-199 | As a stream: bytes come out in order for any packets and sizes, and its error only when it is used up. As accounting: bytes returned and cached are those cached before and those received to be kept |
| `Pipes.WinSockPipe.FillReadCacheLocked` | listener/rfcomm_listener/native_windows.go:202-227 | One receive: what is to be kept, message-size reports included, is in the cache; any other error is returned and its bytes are not kept |
| `Pipes.WinSockPipe.ReadMany` | listener/rfcomm_listener/native_windows.go:180-227 | Any reads of any sizes, going on after errors: bytes returned followed by the cache are the cache before and all bytes received since and kept |
| `Pipes.AllKeptIff` | listener/rfcomm_listener/native_windows.go:212-226 | Every received byte is kept if and only if none came with an error other than message-size |
| `Pipes.EndExactly` | listener/rfcomm_listener/native_windows.go:202-227 | Where the stream of any arrivals ends and with what: a clean EOF only for no arrival or an empty one without an error, every other error as itself |
| `Pipes.WinSockPipe.Write` | listener/rfcomm_listener/native_windows.go:230-252 | The provider holds exactly the first n bytes; every send carries 1 to 127 bytes; a refused send is followed by one of at least half its size; nil means all sent; any error is the one the last send reported, or "short write" after one that took nothing; a provider whose message limit changes from call to call but never falls below one byte gets everything, and one that takes all it is offered is called once per 127 bytes |
| `Pipes.WinSockPipe.WriteOnce` | listener/rfcomm_listener/native_windows.go:267-277 | One send, recorded with what it offered and what was taken |
| `Pipes.WinSockPipe.WriteChunkWithFallback` | listener/rfcomm_listener/native_windows.go:255-264 | The same for one chunk, with at most seven refusals |
| `Pipes.WinSockPipe.WriteWithMsgSizeFallback` | listener/rfcomm_listener/native_windows.go:280-322 | The same for the halving loop, which ends because (bytes left, piece size) decreases |
| `Pipes.WriteAll` | writeutil.go:14-34 | Success exactly when every byte went out, a strict prefix otherwise; it goes on after short writes, so an error is the one the last send reported, or "short write" after one that took nothing without error; a writer whose provider takes messages of this size, in however many parts, gets everything; it ends for every writer |
| `Pipes.WriteAllBuffers` | writeutil.go:37-47 | The same for the concatenation of the buffers |
| `FrameIO.HeaderBuffer` | process/frame_writer.go:44-68 | The fast path's 32 bytes are those of Encode |
| `FrameIO.WriteTCPFrame` | process/frame_writer.go:44-70 | On success exactly the bytes of Encode went out, on error a strict prefix of them with the last send to blame, for any header type and any short-writing writer; a writer that only takes less at a time gets them all |
| `FrameIO.WriteFrame` | process/frame_writer.go:29-42 | The same for both codec paths; a failing encoder writes nothing |
| `FrameIO.Decode` | header/header.go:170-223 | Three reads over the caching pipe compute the stream decoder's result and leave exactly its rest |
| `FrameIO.ReadLoop` | reader/tcp_reader.go:32-57 | Dispatches exactly the frames of the stream, in order, and stops with its error |
| `FrameIO.RepacketiseKeepsBytes` | listener/rfcomm_listener/native_windows.go:202-227 | Whatever the packet sizes and message-size reports, the reader's stream is the bytes, with the end that follows them |
| `FrameIO.EveryArrivalIsACutting` | listener/rfcomm_listener/native_windows.go:202-227 | Every sequence of arrivals is such a cutting of the stream it stands for, so no case is left out |
| `FrameIO.SendOverRfcomm` | process/frame_writer.go:29-70 | Frames written through the chunking pipe: the wire holds whole images and then a strict prefix of the first that failed |
| `FrameIO.Transfer` | process/frame_writer.go:29-70 | End to end: under any provider and any arrivals that carry the wire's bytes, exactly the frames whose write succeeded arrive, in order and normalised; all of them if the provider keeps accepting |
| `Routing.HandleBroadcast` | process/prerouting.go:132-151 | The loop sends one copy to each eligible connection of the walk, in order |
| `Routing.FindParentConn` | process/prerouting.go:239-249 | The first link with the parent role, none if and only if there is none |
| `Routing.ForwardUnicast` | process/prerouting.go:154-193 | At most one send, on the link the index, the scan by number or the scan by role yields |
| `Routing.GateExactly` | process/dispatcher.go:266-295 | Exactly when the source gate is open, in terms of the metadata values, the source and the node index |
| `Routing.CallsExactly` | process/dispatcher.go:216-239 | For every node, link, scan and header: the handler called is the one registered for the sub-protocol, else the default one; it is called once, exactly if it exists, the gate is open and the frame is auth, a command from a node, addressed here by a node, or a command without a source that the handler accepts |
| `Routing.CallsWithoutRouting` | process/prerouting.go:72-86 | Without a server or a header: nothing is sent, and that handler is called exactly if the gate is open |
| `Routing.UnicastSendsExactly` | process/prerouting.go:98-193 | For every frame addressed to another node: one copy with one hop less, on the indexed link, else the first link bound to the target, else the first parent link unless it came from there; exactly if it is admitted, in transit, forwarded here, with a hop left, and there is such a link; else nothing |
| `Routing.RouteOnce` | process/dispatcher.go:216-239 | For every frame and table: at most one handler call, never a call and a send, at most one send unless it is a broadcast |
| `Routing.SendsSpendOneHop` | process/prerouting.go:72-119 | Whatever is sent on carries one hop less than the effective limit and the same message |
| `Routing.InterceptedAfterDrop` | process/dispatcher.go:234-239 | Exactly which dropped Cmd frames still reach a handler; no Cmd frame is forwarded |
| `Routing.BroadcastIsNeverHandled` | process/prerouting.go:90-115 | Broadcasts and transit frames reach no handler |
| `Routing.BroadcastExactly` | process/prerouting.go:132-151 | What Route sends for a frame with target 0: if it is admitted and in transit, the node forwards and a hop is left, one copy with one hop less to each managed connection that is neither the ingress nor a parent link, in any walk order and whatever the indexes say; otherwise nothing |
| `Network.TransmitIsTheWire` | server/server.go:318-340 | What the next node gets is what decoding the bytes of the send gives |
| `Network.ForwardKeepsMessage` | process/prerouting.go:196-210 | Every forward in the network carries the same message with exactly one hop less |
| `Network.SendsBounded` | process/prerouting.go:72-119 | A node sends at most one copy per eligible link, and a unicast frame at most once |
| `Network.SpreadIsPowerSum` | process/prerouting.go:132-151 | The spread bound is D + D^2 + ... + D^(e-1) |
| `Network.StepSpends` | process/prerouting.go:72-119 | A step uses up more of the potential of the frame it processes than its forwards carry on |
| `Network.RunsAreBounded` | process/prerouting.go:72-119 | Termination for any topology: the number of steps of every run and of forwards it makes is bounded by the potential of the frames in flight |
| `Network.OneFrameIsBounded` | process/prerouting.go:72-119 | A unicast frame with e hops causes at most e-1 forwards, a broadcast at most D + ... + D^(e-1), in every run on every topology |
| `Network.Progress` | connmgr/manager.go:316-328 | As long as a frame is in flight some step is possible, whatever the indexes say, so maximal runs are complete |
| `Trees.SimplePathIsWay` | process/prerouting.go:154-193 | The hop-by-hop way is the only simple path of tree links between two nodes |
| `Trees.WayIsSimplePath` | process/prerouting.go:154-193 | The hop-by-hop way is a simple path of tree links |
| `TreeDelivery.GateOpen` | process/dispatcher.go:266-295 | The source gate lets every frame that belongs in a hub tree pass, for every handler |
| `TreeDelivery.EgressInTree` | process/prerouting.go:154-193 | In a hub tree the egress link is the one toward the target, or none for a frame from the parent with a target elsewhere |
| `TreeDelivery.UnicastRoute` | process/dispatcher.go:216-239 | A hub makes exactly one send toward the target, or nothing when it has no handler, no hop is left or there is nowhere to go |
| `TreeDelivery.SentBackExactly` | process/prerouting.go:154-193 | Route sends a frame back on its ingress link exactly when the gate and hop limit let it pass and its target lies beyond that child, or it came from the parent it is addressed to |
| `TreeDelivery.StepConserves` | process/prerouting.go:72-119 | Processing one frame keeps, per hub and message, arrivals done plus due and handler calls done plus due |
| `TreeDelivery.RunConserves` | process/prerouting.go:72-119 | The same over every lossless run from any frames in flight, in any interleaving |
| `TreeDelivery.RunNeverGains` | process/prerouting.go:122-129 | With sends failing as they may: arrivals and handler calls done and due never grow |
| `TreeDelivery.BroadcastDelivery` | process/prerouting.go:132-151 | A broadcast with e hops arrives exactly once at each proper descendant at most e-1 levels down, through hubs that have a handler for it and not below the ingress child, at no other hub, and reaches no handler |
| `TreeDelivery.BroadcastAtMostOnce` | process/prerouting.go:132-151 | At any moment of any run, losses included: at most once at each of those hubs, never at another, never to a handler |
| `TreeDelivery.UnicastRun` | process/prerouting.go:98-115 | Every complete run of one unicast frame logs exactly its journey, hub by hub |
| `TreeDelivery.UnicastDelivery` | process/prerouting.go:98-115 | A unicast frame passes the hubs of the unique simple path and no others, as far as its hops allow and up to the first hub without a handler for it, and is handled once, at its target, if and only if its effective hop limit exceeds the distance and every hub of the path has a handler |
| `TreeDelivery.UnicastAtMostOnce` | process/prerouting.go:98-115 | At any moment of any run, losses included: at most once at each hub of the path within the hop limit and up to the first without a handler, never off it, and at most one handler call, at the target |
| `TreeDelivery.TwoHubsCarryFrames` | process/prerouting.go:72-119 | Hub trees and frames that belong in them exist |
| `TreeDelivery.TwoHubsSendBack` | process/prerouting.go:154-174 | A frame a child addresses to itself is sent straight back |
| `Links.SnapshotMembers` | connmgr/manager.go:316-328 | A walk of the table sees exactly the managed connections |
| `ConnManager.Manager.Add` | connmgr/manager.go:58-113 | Refuses nil and known IDs without effect; otherwise adds the entry, indexes it by its metadata and fires the add hooks |
| `ConnManager.Manager.Remove` | connmgr/manager.go:116-136 | Takes the connection out of all three maps, or refuses without effect; the log gains exactly one Close and one call of each installed remove hook, none of them after the Close |
| `ConnManager.Manager.RemoveNodeIndexLocked` | connmgr/manager.go:144-153 | The deletion loop removes every entry that points at the connection and no other |
| `ConnManager.Manager.RemoveDeviceIndexLocked` | connmgr/manager.go:156-165 | The same for the device index |
| `ConnManager.Manager.UpdateNodeIndex` | connmgr/manager.go:200-233 | The table afterwards is that of the update and, if it displaced a direct bind, of its removal; the log gains one Close and each installed remove hook once for the connection evicted, and nothing if none was |
| `ConnManager.Manager.UpdateDeviceIndex` | connmgr/manager.go:284-299 | Sets or clears one device entry and nothing else |
| `ConnManager.Manager.CloseAll` | connmgr/manager.go:353-375 | Empties all maps; for every managed connection the log gains exactly one Close and one call of each installed remove hook, none of them after its Close |
| `ConnManager.AddExactly` | connmgr/manager.go:58-113 | Entry by entry: the connection is stored under its ID, and indexed under a node number that is a non-zero uint32 and a device ID that is a non-empty string; nothing else changes |
| `ConnManager.RemoveExactly` | connmgr/manager.go:116-165 | Entry by entry: the ID and every index entry of its connection go, all others stay |
| `ConnManager.UpdateExactly` | connmgr/manager.go:200-299 | Entry by entry: an index update sets one entry, or clears it without a connection, and ignores the key 0 or empty |
| `ConnManager.DirectBindExactly` | connmgr/manager.go:204-216 | A connection is directly bound to a node exactly if its own node number, held as any of the integer types and cut to 32 bits, is that non-zero node |
| `ConnManager.DirectBindConflict` | connmgr/manager.go:200-233 | The node ends up on the new, still managed connection; the predecessor leaves all three maps exactly when both are direct binds and it has an ID; otherwise no connection is lost |
| `ManagerRuns.StepKeepsConsistent` | connmgr/manager.go:58-233 | Every guarded step, tails of other callers included, keeps the index invariant |
| `ManagerRuns.RunKeepsConsistent` | connmgr/manager.go:58-375 | In every interleaved guarded run, index keys are real and index values are the connections stored under their own IDs |
| `ManagerRuns.GuardIsExact` | connmgr/manager.go:200-299 | A node or device update keeps the invariant if and only if its connection is managed (or the key is 0 or empty) |
| `ManagerRuns.StepBalances` | connmgr/manager.go:58-375 | Hooks and Closes fired plus owed equal the adds or removes behind them, step by step |
| `ManagerRuns.Lifecycle` | connmgr/manager.go:58-375 | In every run: no hook fires too often in any state; with no caller mid-way, every add period fired both add hooks, and every ended one both remove hooks and Close, exactly once |
| `ManagerRuns.OrderlyKeepsOrder` | connmgr/manager.go:58-136 | In every run in which no removal takes effect while an add is yet to fire its hook, the remove hook never gets ahead of the add hook, for connection hooks and link hooks |
| `ManagerRuns.ShowDisorder` | connmgr/manager.go:116-136 | Once such a removal took effect, firing what is already owed suffices to put the remove hook ahead |
| `ManagerRuns.HookOrderIff` | connmgr/manager.go:58-375 | For every run, for connection hooks and for link hooks: the remove hook never gets ahead of the add hook, at any state and whatever is still fired, if and only if no removal takes effect while an add is yet to fire that hook |
| `ManagerRuns.RemoveOvertakesAdd` | connmgr/manager.go:58-136 | A run in which OnRemove fires while OnAdd is still owed |
| `ManagerRuns.WrongVictimIff` | connmgr/manager.go:225-232 | An eviction removes another connection than its predecessor if and only if another is stored under that ID when it runs, and its predecessor if and only if that is still managed |
| `ManagerRuns.EvictionExact` | connmgr/manager.go:200-233 | The same at any later moment of any run after the update that opened it, and never the wrong one if no Add under that ID took effect since |
| `ManagerRuns.EvictionHitsNewcomer` | connmgr/manager.go:200-233 | A run from an empty manager, every update with a managed connection, after which the eviction removes a newcomer that took the victim's ID |
| `ManagerRuns.RemovedSourceIsRejected` | process/dispatcher.go:266-295 | After a removal of any kind, sources indexed to the connection are rejected on every non-parent link bound to another node, in every run until they are indexed again |
| `ManagerRuns.GateAdmits` | process/dispatcher.go:266-295 | In a consistent table, exactly which sources the gate admits on a non-parent link |
| `ManagerRuns.AddIsARun` | connmgr/manager.go:58-80 | Add, undisturbed, is a run of the state machine with the same table and log |
| `ManagerRuns.RemoveIsARun` | connmgr/manager.go:116-136 | The same for Remove |
| `ManagerRuns.UpdateIsARun` | connmgr/manager.go:200-233 | The same for UpdateNodeIndex with its eviction |
| `ManagerRuns.CloseAllIsARun` | connmgr/manager.go:353-375 | The same for CloseAll, in any order of the walk |
| `SendScheduler.Shard` | process/senddispatcher.go:285-298 | A shard in range |
| `SendScheduler.ShardExactly` | process/senddispatcher.go:285-298 | The shard is the remainder of the hash of the connection ID by the shard count cut to 32 bits |
| `SendScheduler.DispatchExactly` | process/senddispatcher.go:253-282 | One task is accepted, with the connection, frame, codec and callback of the request, at the end of its connection's shard; nothing else changes |
| `SendScheduler.AcceptedAreRequests` | process/senddispatcher.go:253-282 | Over every run the tasks accepted are the requests made, each as it was made and in that order |
| `SendScheduler.ClosedOnlyDrains` | process/senddispatcher.go:93-131 | In every run a stopped writer stays so and is handed no further task; it only drains |
| `SendScheduler.NoneRefused` | process/senddispatcher.go:93-120 | Without a timeout no writer refuses a task in any run in which none is stopped |
| `SendScheduler.StepBalances` | process/senddispatcher.go:62-131 | Every step, CloseConn included, keeps each task in as many places as it was accepted times |
| `SendScheduler.ExactlyOnce` | process/senddispatcher.go:62-338 | In every run each accepted task is in exactly one place, its callback fired at most once, and exactly once when everything is drained |
| `SendOrder.StepKeepsShape` | process/senddispatcher.go:207-338 | Every step keeps tasks with their connection and the writer on record open |
| `SendOrder.StepKeepsTidy` | process/senddispatcher.go:301-338 | Every step but a CloseConn on a writer in use keeps each writer of the connection on record or at rest |
| `SendOrder.StepKeepsOrder` | process/senddispatcher.go:62-325 | Every step keeps a connection's tasks, from the last byte on the pipe back to the shard queue, in order of acceptance |
| `SendOrder.StepKeepsWire` | process/senddispatcher.go:62-90 | Every step keeps the pipe equal to what the ended writes put out plus what the current one has |
| `SendOrder.WrittenIffReported` | process/senddispatcher.go:62-90 | In every run a task's last byte is on the pipe exactly when it was reported done without error or its writer is about to report it |
| `SendOrder.WholeFramesIff` | process/senddispatcher.go:62-90 | The bytes of writes that are over are whole frames if and only if none failed part-way |
| `SendOrder.OrderedFrames` | process/senddispatcher.go:62-338 | In every interleaving in which no CloseConn for the connection finds bytes left to write: writes that are over, and tasks whose last byte is out, are subsequences of what was accepted, in that order; the pipe is what those writes put out plus what the current one has; and that is whole frames if and only if no write failed part-way |
| `SendOrder.PeerReadsWhatWasSent` | process/senddispatcher.go:62-325 | Decoding the pipe at any moment yields exactly the frames whose last byte is out |
| `SendClose.BusyCloseUpsets` | process/senddispatcher.go:328-338 | From every state such a run reaches, for every configuration and whatever the writer holds: CloseConn on a writer with bytes left can be followed by a later frame overtaking an earlier one on the pipe |
| `SendClose.FrameOrderIff` | process/senddispatcher.go:328-338 | For every run: a connection's frames go out in order at every state, and in whatever follows short of another CloseConn, if and only if no CloseConn found a writer with bytes left to write or on their way to it |
| `SendClose.OneAtATimeIff` | process/senddispatcher.go:75-90 | For every run: no two writers are ever in the middle of a frame on one pipe, at any state and in whatever follows short of another CloseConn, under exactly the same condition |
| `SendClose.BusyCloseInterleaves` | process/senddispatcher.go:328-338 | From every state such a run reaches: CloseConn on a writer with bytes left can be followed by two writers in the middle of a frame on one pipe |
| `SendClose.EarlyCloseUpsetsReports` | process/senddispatcher.go:62-73 | CloseConn on a writer with a report left to make can be followed by a later task being reported before an earlier one |
| `SendClose.ReportOrderIff` | process/senddispatcher.go:62-73 | For every run: tasks are reported in order at every state, and in whatever follows short of another CloseConn, if and only if no CloseConn found a writer with anything left to write or to report |
| `SendClose.CloseConnLetsFramesInterleave` | process/senddispatcher.go:328-338 | For every configuration and connection a run, with no failed write, after which the pipe is a prefix of no concatenation of frames |
| `SendDispatch.SendDispatcher.Dispatch` | process/senddispatcher.go:253-282 | An error and no effect, or the dispatch step: the connection's shard gains one task, at its end, with exactly the connection, frame, codec and callback of the request |
| `SendDispatch.SendDispatcher.Take` | process/senddispatcher.go:216-218 | The worker's receive step |
| `SendDispatch.SendDispatcher.GetOrCreateWriter` | process/senddispatcher.go:301-325 | The lookup step: the writer on record is used, otherwise a fresh one is recorded |
| `SendDispatch.SendDispatcher.EnqueueTask` | process/senddispatcher.go:230-233 | The enqueue step, failing exactly when the writer is closed or out of time |
| `SendDispatch.SendDispatcher.BeginTask` | process/senddispatcher.go:62-73 | The writer's receive step |
| `SendDispatch.SendDispatcher.EndTask` | process/senddispatcher.go:66-71 | The completion step, without error exactly with the whole frame out |
| `SendDispatch.SendDispatcher.WriteTask` | process/senddispatcher.go:76-90 | The writer's write through WriteFrame is some bytes of the frame reaching the pipe followed by the end of the task, without error exactly when there is a codec and the whole frame went out |
| `SendDispatch.SendDispatcher.CloseConn` | process/senddispatcher.go:328-338 | Detach then stop, and nothing when there is no writer |
| `ReceiveScheduler.ConnHash` | process/queuestrategy.go:28-41 | In range, except that the division panics exactly when the queue count is a positive multiple of 2^32 |
| `ReceiveScheduler.ConnHashExactly` | process/queuestrategy.go:28-41 | The queue is the remainder of the hash of the connection ID by the count cut to 32 bits; without a connection, of the sub-protocol by the count; without either, 0 |
| `ReceiveScheduler.SubProtoQueue` | process/queuestrategy.go:50-58 | In range |
| `ReceiveScheduler.SubProtoExactly` | process/queuestrategy.go:50-58 | The queue is the remainder of the sub-protocol by the count |
| `ReceiveScheduler.SourceTargetQueue` | process/queuestrategy.go:67-87 | In range |
| `ReceiveScheduler.SourceTargetExactly` | process/queuestrategy.go:67-87 | The queue is the remainder, by the count, of the hash of source then target, each as eight big-endian bytes |
| `ReceiveScheduler.PairKeyIsInjective` | process/queuestrategy.go:74-85 | The hashed bytes tell every two source/target pairs apart |
| `ReceiveScheduler.SelectBySourceTarget` | process/queuestrategy.go:67-87 | The two shifting loops compute the key bytes and the index |
| `ReceiveScheduler.RoundRobin.SelectQueue` | process/queuestrategy.go:96-104 | The counter's value modulo n, in range; the counter advances by one with wrap, and not at all for n <= 1 |
| `ReceiveScheduler.FairUntilWrap` | process/queuestrategy.go:96-104 | Every window of k picks before the wrap gives each queue floor(k/n) or ceil(k/n) |
| `ReceiveScheduler.FairForeverIff` | process/queuestrategy.go:96-104 | Every window whatever is that even, if and only if n divides 2^64 |
| `ReceiveScheduler.QueuesAreFifo` | process/dispatcher.go:139-169 | With one worker per channel every queue is first in, first out in every run |
| `ReceiveScheduler.RoutedOncePerAcceptance` | process/dispatcher.go:139-169 | With any number of workers, an accepted event is never lost and is routed once |
| `ReceiveScheduler.ClassOrder` | process/dispatcher.go:139-169 | Any class of events that share a queue is routed in arrival order |
| `ReceiveScheduler.ConnOrder` | process/queuestrategy.go:28-41 | Connection hashing: each connection's routed events are a prefix of those accepted for it, the rest waiting in its queue |
| `ReceiveScheduler.PairOrder` | process/queuestrategy.go:67-87 | The same per source/target pair |
| `ReceiveScheduler.SubProtoOrder` | process/queuestrategy.go:50-58 | The same per sub-protocol |
| `ReceiveScheduler.ConnOrderIff` | process/dispatcher.go:139-169 | Connection hashing keeps every connection in order in every run if and only if channels have one worker |
| `ReceiveScheduler.TurnOrderIff` | process/queuestrategy.go:96-104 | Round-robin does so if and only if there is one channel with one worker |
| `ReceiveScheduler.ReceiveExactly` | process/dispatcher.go:341-359 | An event joins the end of its channel exactly if that holds fewer than `buffer` events, or is empty with a worker waiting; otherwise it is dropped and nothing else changes |
| `ReceiveScheduler.ChannelsAreBounded` | process/dispatcher.go:68-76 | In every run no channel holds more than its buffer (one event in hand-over if that is 0), and no more events are taken than there are workers |
| `ReceiveScheduler.Dispatcher.SelectQueue` | process/dispatcher.go:329-331 | The configured strategy's queue |
| `ReceiveScheduler.Dispatcher.OnReceive` | process/dispatcher.go:341-359 | The receive step: the event as it came enters the end of its channel if and only if that has room in its buffer or is empty with a worker waiting, is dropped otherwise, and the call never waits |
| `ReceiveScheduler.Dispatcher.TakeEvent` | process/dispatcher.go:159-161 | The worker's receive step |
| `ReceiveScheduler.Dispatcher.RouteEvent` | process/dispatcher.go:159-161 | The worker's call of route |

## Left out

- TreeDelivery.BroadcastDelivery: clients that are not hubs may hang off a hub as plain connections, and arrivals there are not counted.
- TreeDelivery.UnicastDelivery: frames between hubs; a frame whose source or target is a client that is not a hub is not covered.
- TreeDelivery.SentBackExactly: about hub trees with correct indexes; elsewhere a unicast frame may return on its ingress whenever the index says so.
- SendScheduler.ExactlyOnce: runs end before shutdown; channel capacities appear only as refused dispatches and, where enqueueing can time out, failed enqueues, both possible at any moment.
- SendDispatch.SendDispatcher.Dispatch: a connection is its ID, so two objects under one ID share a pipe; headers are not changed by their owner after dispatch; a nil header and the unused pre-encoded mode of a writer are not modelled.
- ReceiveScheduler.ConnOrder: runs end before cancellation.
- ManagerRuns.Lifecycle: both hook sets are installed from the start and hooks neither panic nor call back into the manager.
- Pipes.WriteAll: a Go writer that returns a negative count or more than it was given is not modelled.
- Header.Encode: a nil header, on which the Go code panics, is not modelled; the fast path writes an all-zero header for it and that is modelled.
- Routing.RouteOnce: the base process is PreRoutingProcess; a nil connection and nil pointers behind non-nil interfaces are not modelled.
- Concurrency is modelled as interleaved steps on values; memory-model effects, goroutine scheduling and time are not.
- Shutdown and cancellation of both dispatchers, and the server's start, stop and parent-link loop.
- Sockets, TLS, QUIC, D-Bus/BlueZ, Winsock setup and service registration: foreign calls without visible semantics.
- FNV hashing: an arbitrary fixed function of the bytes.
- Event bus, configuration, permissions, bootstrap and sub-protocol helpers, Bluetooth address and UUID text: they would only add easy members.
- Logging, wall-clock time, and the random start of the trace sequence (any start is covered).
