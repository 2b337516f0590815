# Orion signaling server: the peer registry and relay state machine

This project models the in-memory core of `server.js`, the Orion signaling
server: the registry of connected peers (`peers`), the store of envelopes
waiting for offline peers (`pendingMessages`), the id each connection has
registered under, the `message` handler with its six recognised frame types,
the `close` handler, the `broadcast` fan-out helper and the once-a-minute
cleanup tick.

The model has two layers:

- `Router` (router.dfy) is the pure specification. `State` holds every socket
  with its registered id, the set of sockets in the OPEN state, the `peers`
  map with its iteration order, the pending queues, and a log of every
  `ws.send` and `ws.close` call. Each event has one function (`AfterRegister`,
  `AfterRelay`, `AfterClose`, `AfterSweep`, ...) that gives the state once the
  handler has run to completion. `Inv` is the invariant every reachable state
  keeps: the order lists each registered id exactly once, no queue is empty,
  and only accepted sockets are open.
- `Server.Hub` (server.dfy) is the server itself. It is a class whose fields
  are those maps, and its handlers are methods that update the fields in place
  the way the source does. The `forEach` walks over `peers` and over a queue
  are `while` loops. Every handler is proved to keep `Valid()` and to leave
  exactly the state the matching `Router` function gives.

The other modules hold the parts both layers share:

- `Messages` has the frames and records.
- `Registry` covers the iteration-order walks over `peers`: who a fan-out
  reaches, the `peers` snapshot, and which peers the sweep evicts.
- `Queues` covers the pending queues: the age filter, pruning and draining.
- `Properties` states what each handler promises, using the `Router`
  functions.

Conventions used throughout:

- Time is an integer number of milliseconds, passed in as `now` wherever the
  source reads `Date.now()`.
- A socket is a number (`ConnId`).
- `readyState === OPEN` means the socket is in the `open` set.
- `peerId` is `null` until the socket registers, so it is an `Option`.
- JavaScript truthiness of that id (`if (peerId)`) is the predicate `Truthy`:
  present and not the empty string.
- `msg.lastSync || 0` is `LastSyncOrZero`.

The close handler deletes by id, not by socket. A close of a socket whose id
has since been registered again from another socket therefore deletes the
newer record. The model keeps this behaviour as written, and
`Properties.StaleCloseDropsLiveRecord` states it.

## Model

| member | source | states |
|---|---|---|
| Registry.SetOrder | server.js:42 | `peers.set` keeps an existing key in place and appends a new key; the result lists the old keys plus the new one, each exactly once |
| Registry.TargetsExactly | server.js:170-177 | a fan-out visits exactly the registered ids whose socket is open and that are not excluded, each once |
| Registry.SendsAt | server.js:170-177 | send number k of a fan-out goes to the socket of target number k; there is one send per target |
| Registry.PeerListExactly | server.js:52-60 | the `peers` snapshot lists exactly the reachable ids with their public keys, each id once |
| Registry.RemoveIdExactly | server.js:154 | `peers.delete(x)` takes x, and only x, out of the iteration order and keeps the order distinct |
| Registry.IdleExactly | server.js:184-190 | the sweep evicts exactly the registered ids that are silent for strictly longer than the timeout |
| Registry.KeptExactly | server.js:184-190 | the ids that survive the sweep are exactly the registered ids that are not silent, each once |
| Registry.ClosesAt | server.js:184-190 | the sweep makes one `ws.close()` per evicted peer, on that peer's socket, in iteration order |
| Registry.AliveLater | server.js:184-190 | an eviction is final: a sweep at a later time removes whatever an earlier one did |
| Registry.KeptLater | server.js:184-190 | after two sweeps, the iteration order is the same as after the later sweep alone |
| Registry.ClosesNone | server.js:184-190 | when no visited peer is silent, the sweep closes nothing |
| Queues.Fresh | server.js:194 | the age filter never lengthens a queue |
| Queues.FreshKeepsExactly | server.js:194 | the filter keeps exactly the envelopes younger than 24 hours |
| Queues.FreshOfConcat | server.js:194 | the filter works piecewise, so kept envelopes stay in their original relative order |
| Queues.FreshFullLength | server.js:195-199 | a filter that drops nothing returns the queue itself, which is why a queue may be left in place |
| Queues.FreshLater | server.js:194 | filtering at a later time after an earlier one is the same as filtering only at the later time |
| Queues.Prune | server.js:193-200 | after the sweep no queue is empty, and a queue is kept exactly when its filtered contents are not empty |
| Queues.PruneLater | server.js:193-200 | pruning at a later time after an earlier one is the same as pruning only at the later time |
| Queues.DeliveriesAt | server.js:75-79 | draining a queue sends envelope k as send k, to the new socket; there is one send per envelope |
| Router.AfterConnection | server.js:28-32 | an accepted socket is new, open, has no id and keeps its client address; every other socket is unchanged; nothing is sent and the registry, its order and the queues do not change |
| Router.Fanout | server.js:170-177 | `broadcast` only appends sends to the log; it changes no map, the order or the open set |
| Router.AfterRegister | server.js:39-83 | `register` always sends at least the snapshot; the socket adopts the id and keeps its address, every other socket keeps its id, the record under the id is on that socket and seen at `now`, and the id's queue is gone |
| Router.AfterRelay | server.js:85-106 | `relay` either sends exactly one frame (the target is online) or lengthens the target's queue by one (it is not), never both; nothing else changes |
| Router.AfterBroadcast | server.js:108-116 | a `broadcast` frame only appends sends to the log |
| Router.AfterSyncRequest | server.js:118-126 | a `sync_request` frame only appends sends to the log |
| Router.AfterSyncResponse | server.js:128-138 | `sync_response` sends one frame exactly when the target is online and changes nothing else |
| Router.AfterPing | server.js:140-145 | `ping` sends exactly one `pong`, on the sender's own socket; it registers and deletes nothing and touches no queue |
| Router.AfterClose | server.js:152-163 | the closed socket leaves the open set; a truthy id's record is gone, nothing is registered; with a falsy id nothing else changes and nothing is sent |
| Router.AfterSweep | server.js:180-201 | the tick only removes records, queues and open sockets, never adds one; every surviving record is unchanged and was seen within the last five minutes |
| Router.AfterMessage | server.js:38-146 | a frame of an unrecognised type changes nothing; no frame changes the set of sockets, and the log only grows |
| Router.Step | server.js:28-201 | no event forgets a socket or takes back a send: the sockets and the log only grow |
| Router.Run | server.js:15-201 | over any sequence of events the sockets and the log only grow |
| Router.ConnectionKeepsInv | server.js:28-32 | accepting a socket keeps the invariant |
| Router.FanoutKeepsInv | server.js:170-177 | `broadcast` keeps the invariant |
| Router.RegisterKeepsInv | server.js:39-83 | `register` keeps the invariant, including when the id is already registered |
| Router.RelayKeepsInv | server.js:85-106 | `relay` keeps the invariant: a created queue is never left empty |
| Router.PingKeepsInv | server.js:140-145 | `ping` keeps the invariant |
| Router.CloseKeepsInv | server.js:152-163 | `close` keeps the invariant: the deleted id leaves the iteration order |
| Router.SweepKeepsInv | server.js:180-201 | the cleanup tick keeps the invariant: the order still lists the registry and no queue is empty |
| Router.MessageKeepsInv | server.js:38-146 | every frame keeps the invariant |
| Router.StepKeepsInv | server.js:28-201 | every event (connection, frame, close, tick) keeps the invariant |
| Router.RunKeepsInv | server.js:28-201 | every sequence of events keeps the invariant |
| Router.ReachableInv | server.js:15-201 | every state reachable from the empty maps at start-up satisfies the invariant |
| Server.Hub.constructor | server.js:15-19 | the process starts with both maps empty, which satisfies the invariant |
| Server.Hub.OnConnection | server.js:28-32 | a new socket is open and has no id yet |
| Server.Hub.Broadcast | server.js:170-177 | the `forEach` loop appends exactly the fan-out's sends to the log and changes no map |
| Server.Hub.ListOthers | server.js:52-60 | the loop builds exactly the snapshot of the other open peers, in iteration order |
| Server.Hub.Deliver | server.js:77-79 | the loop sends every queued envelope to the socket, in queue order |
| Server.Hub.Drain | server.js:75-82 | the queue held for the id is sent in full and then deleted; the other queues are untouched |
| Server.Hub.Enrol | server.js:41-47 | the connection adopts the id, and the record under the id is replaced by one seen at `now` |
| Server.Hub.Welcome | server.js:52-72 | the registrant gets the snapshot, then every other open peer gets `peer_joined` |
| Server.Hub.OnRegister | server.js:39-83 | the `register` case keeps the invariant and leaves the state `Router.AfterRegister` gives |
| Server.Hub.OnRelay | server.js:85-106 | the `relay` case keeps the invariant and leaves the state `Router.AfterRelay` gives |
| Server.Hub.OnBroadcast | server.js:108-116 | the `broadcast` case leaves the state `Router.AfterBroadcast` gives |
| Server.Hub.OnSyncRequest | server.js:118-126 | the `sync_request` case leaves the state `Router.AfterSyncRequest` gives |
| Server.Hub.OnSyncResponse | server.js:128-138 | the `sync_response` case leaves the state `Router.AfterSyncResponse` gives |
| Server.Hub.OnPing | server.js:140-145 | the `ping` case keeps the invariant and leaves the state `Router.AfterPing` gives |
| Server.Hub.OnMessage | server.js:34-146 | the frame dispatcher keeps the invariant and leaves the state `Router.AfterMessage` gives |
| Server.Hub.OnClose | server.js:152-163 | the `close` handler keeps the invariant and leaves the state `Router.AfterClose` gives |
| Server.Hub.Evict | server.js:184-190 | the eviction loop deletes exactly the silent records, closes their sockets in iteration order, and keeps the order of the survivors |
| Server.Hub.PruneQueues | server.js:193-200 | the queue loop filters every queue by age and deletes the queues it empties |
| Server.Hub.Sweep | server.js:180-201 | the cleanup tick keeps the invariant and leaves the state `Router.AfterSweep` gives |
| Properties.FanoutExact | server.js:170-177 | `broadcast(ex, m)` sends m exactly once to each registered peer with an open socket whose id is not ex, in iteration order; it sends nothing else and changes no map |
| Properties.BroadcastExcludesSender | server.js:108-116 | a `broadcast` frame reaches every open peer except the sender, once each in iteration order, each copy stamped with the sender's id, the payload and `now` |
| Properties.SyncRequestExcludesSender | server.js:118-126 | a `sync_request` reaches exactly the open peers other than the sender, once each in iteration order, each copy carrying the sender's id and `lastSync`, which is 0 when the frame has none; no map changes |
| Properties.RegisterReplacesRecord | server.js:41-47 | register stores a fresh record seen at `now` under the id and replaces any earlier one; the socket adopts the id and every other socket keeps its own; every other record is unchanged; an id already present keeps its place in the order |
| Properties.RegisterSnapshotExact | server.js:52-65 | the first send on register goes to the registrant's own socket: the list of exactly the other registered ids with an open socket, each once, with its public key |
| Properties.RegisterAnnounces | server.js:68-72 | between the snapshot and the drained queue, exactly the other registered peers with an open socket get `peer_joined`, once each, in iteration order, on their own sockets; so the snapshot goes to the registrant only |
| Properties.RegisterDrainsInOrder | server.js:75-82 | every envelope queued for the id goes to the new socket in insertion order, as the last sends; the queue is then gone and other queues are untouched |
| Properties.RelayDeliversOrBuffers | server.js:87-105 | relay to an online peer sends exactly one `message` and buffers nothing; otherwise it sends nothing and appends the envelope to the end of that peer's queue (creating it if needed), and no other queue changes |
| Properties.SyncResponseNeverBuffers | server.js:128-138 | `sync_response` is sent only to an online peer; otherwise nothing at all changes, so nothing is buffered |
| Properties.PingRefreshes | server.js:140-145 | `ping` always sends `pong` on the sender's own socket; it sets `lastSeen` to `now` only for a truthy, still-registered id, and changes nothing else |
| Properties.PingKeepsAlive | server.js:140-145 | a peer that pings at `now` survives every sweep up to `now` plus five minutes |
| Properties.CloseRemovesAndAnnounces | server.js:152-163 | close takes the socket out of the open set; for a truthy id it deletes that id's record and sends `peer_left` exactly once to each remaining registered peer with an open socket; otherwise nothing else changes |
| Properties.SweepEvictsExactly | server.js:184-190 | the sweep removes a record exactly when `now - lastSeen > 300000`, sends one close per removed peer in iteration order and no `peer_left`, and leaves survivors' records unchanged |
| Properties.SweepPrunesExactly | server.js:193-200 | each surviving queue holds exactly the envelopes with `now - timestamp < 86400000`; a queue survives exactly when one of its envelopes does; no empty queue remains |
| Properties.SweepLater | server.js:180-201 | a sweep at a later time after an earlier one leaves the registry, the order and the queues as the later sweep alone would |
| Properties.SweepIdempotent | server.js:180-201 | a second sweep at the same time changes nothing and closes nothing |
| Properties.EvictionBoundary | server.js:182-185 | a peer silent for exactly 300000 ms is kept; one silent for 300001 ms is evicted |
| Properties.ExpiryBoundary | server.js:22 | an envelope 86399999 ms old survives the sweep; one exactly 86400000 ms old is dropped |
| Properties.BufferThenDeliver | server.js:75-105 | two relays to an offline id followed by its registration deliver both envelopes to the new socket, in the order they were sent |
| Properties.ReRegistrationLaterWins | server.js:41-47 | registering an id again from another socket replaces the record, and the id keeps its place in the order |
| Properties.StaleCloseDropsLiveRecord | server.js:152-154 | closing a superseded socket deletes the record under its id, even though that record now belongs to a newer open socket |

## Left out

- Sockets and the `ws` server (`WebSocket.Server` and the `ws.on(...)` wiring of the handlers) are left out; the `message` and `close` handlers themselves are `OnMessage` and `OnClose`. The `error` handler is left out: it only logs (server.js:165-167). A socket is an opaque `ConnId`. Its `readyState` being OPEN is membership in `open`. `ws.send` and `ws.close` are entries appended to the log.
- The log records calls, not deliveries. A send to a socket that is not open is still recorded, exactly as the source still makes the call.
- JSON parsing and serialisation are left out, and so is the `try`/`catch`. A frame arrives already parsed as `Inbound`, and a frame that fails to parse is `Unrecognised`, which changes nothing.
- `lastSync` is narrowed to an integer, and `None` stands for every falsy value (absent, `null`, `false`, `""`, `0`, `NaN`). The source forwards any truthy JSON value unchanged: a string, a fractional number or an object; the model carries only integers.
- Partial effects of an exception thrown in the middle of a handler are not modelled. One example is `substring` on an id that is not a string. Ids, keys and payloads are strings.
- The client address from `x-forwarded-for` or the socket is not computed. It is an input to `OnConnection`.
- Console logging is left out, along with the statistics timer and the SIGTERM shutdown. They touch no state in the core.
- `setInterval` scheduling is left out. A tick is a call of `Sweep(now)`, and `Date.now()` is the parameter `now`.
- The `close` event that `ws.close()` in the sweep later triggers is not part of the tick. When it arrives it is a separate `OnClose` event.
- A socket leaves the `open` set only at its `close` event, or when the sweep closes it. This is a modelling choice. In `ws`, a socket becomes CLOSING as soon as the client's close frame arrives (or `ws.close()` is called), before the `close` event fires. In that window the source's fan-outs and online tests already skip the socket (`readyState === OPEN` fails), while the model still counts it as open and sends to it.
- Router.Step: a connection event for a socket that is already known, or a frame or close for an unknown socket, is ignored. The `ws` library never delivers such events.
