/** The relay router as a state machine: the whole server state, its
    invariant, and one function per event giving the state after that event
    runs to completion. Events are the handlers of server.js, which never
    interleave: a new connection, an inbound frame, a closed socket and a
    tick of the cleanup timer. */
module Router {
  import opened Wrappers
  import opened Messages
  import opened Registry
  import opened Queues

  /** Everything the handlers read or write. `order` is the iteration order
      of `peers`; `open` holds the sockets whose readyState is OPEN; `outbox`
      logs every `ws.send` and `ws.close` call, oldest first. */
  datatype State = State(
    conns: map<ConnId, Connection>,
    open: set<ConnId>,
    peers: map<PeerId, PeerRecord>,
    order: seq<PeerId>,
    pending: map<PeerId, seq<Envelope>>,
    outbox: seq<Action>)

  /** The state when the process starts: both maps empty. */
  const Initial := State(map[], {}, map[], [], map[], [])

  /** What every reachable state satisfies: `order` is the key order of the
      `peers` map, no destination keeps an empty queue, and only accepted
      sockets are open. */
  ghost predicate Inv(s: State) {
    Consistent(s.conns, s.open, s.peers, s.order, s.pending)
  }

  /** The invariant on the parts of the state other than the log. */
  ghost predicate Consistent(conns: map<ConnId, Connection>, open: set<ConnId>, peers: map<PeerId, PeerRecord>,
                             order: seq<PeerId>, pending: map<PeerId, seq<Envelope>>)
  {
    && Lists(order, peers)
    && (forall k :: k in pending ==> pending[k] != [])
    && open <= conns.Keys
  }

  /** A socket is accepted: it is open and has no peer id yet. */
  function AfterConnection(s: State, c: ConnId, ip: string): (r: State)
    requires c !in s.conns
    ensures c in r.conns && r.conns[c] == Connection(ip, None) && r.open == s.open + {c}
    ensures s.conns.Keys < r.conns.Keys && forall d :: d in s.conns ==> r.conns[d] == s.conns[d]
    ensures r.outbox == s.outbox && r.peers == s.peers && r.order == s.order && r.pending == s.pending
  {
    s.(conns := s.conns[c := Connection(ip, None)], open := s.open + {c})
  }

  /** `broadcast(exclude, m)`: one send of `m` per open peer other than
      `exclude`, in iteration order; no map changes. */
  function Fanout(s: State, exclude: Option<PeerId>, m: Outbound): (r: State)
    ensures r.(outbox := s.outbox) == s && s.outbox <= r.outbox
  {
    s.(outbox := s.outbox + Sends(s.order, s.peers, s.open, exclude, m))
  }

  /** `register`: the record for `p` is overwritten, the connection adopts
      `p`, the registrant gets the list of the other open peers, they get
      `peer_joined`, and the queue held for `p` is handed over and removed. */
  function AfterRegister(s: State, c: ConnId, p: PeerId, key: PublicKey, now: Time): (r: State)
    requires c in s.conns
    ensures s.outbox < r.outbox
    ensures r.conns.Keys == s.conns.Keys && r.conns[c] == s.conns[c].(peerId := Some(p)) && r.open == s.open
    ensures forall d :: d in s.conns && d != c ==> r.conns[d] == s.conns[d]
    ensures p in r.peers && r.peers[p].conn == c && r.peers[p].lastSeen == now
    ensures p !in r.pending && r.pending.Keys <= s.pending.Keys
  {
    var peers := s.peers[p := PeerRecord(c, key, s.conns[c].ip, now)];
    var order := SetOrder(s.order, s.peers, p);
    s.(conns := s.conns[c := s.conns[c].(peerId := Some(p))],
       peers := peers,
       order := order,
       pending := s.pending - {p},
       outbox := s.outbox + [Send(c, Peers(PeerList(order, peers, s.open, Some(p))))]
                 + Sends(order, peers, s.open, Some(p), PeerJoined(p, key))
                 + Deliveries(c, Queued(s.pending, p)))
  }

  /** `relay`: a `message` stamped with the sender's id and `now` goes to the
      destination's socket if it is online, else to the end of its queue. */
  function AfterRelay(s: State, c: ConnId, to: PeerId, payload: Payload, now: Time): (r: State)
    requires c in s.conns
    ensures r.(outbox := s.outbox, pending := s.pending) == s && s.outbox <= r.outbox
    ensures Online(s.peers, s.open, to) <==> |r.outbox| == |s.outbox| + 1
    ensures !Online(s.peers, s.open, to) <==> to in r.pending && |r.pending[to]| == |Queued(s.pending, to)| + 1
  {
    var env := Envelope(s.conns[c].peerId, payload, now);
    if Online(s.peers, s.open, to) then
      s.(outbox := s.outbox + [Send(s.peers[to].conn, Message(env))])
    else
      s.(pending := Enqueue(s.pending, to, env))
  }

  /** `broadcast`: fanned out to every open peer but the sender. */
  function AfterBroadcast(s: State, c: ConnId, payload: Payload, now: Time): (r: State)
    requires c in s.conns
    ensures r.(outbox := s.outbox) == s && s.outbox <= r.outbox
  {
    var from := s.conns[c].peerId;
    Fanout(s, from, BroadcastFrom(from, payload, now))
  }

  /** `sync_request`: fanned out to every open peer but the sender. */
  function AfterSyncRequest(s: State, c: ConnId, lastSync: Option<int>): (r: State)
    requires c in s.conns
    ensures r.(outbox := s.outbox) == s && s.outbox <= r.outbox
  {
    var from := s.conns[c].peerId;
    Fanout(s, from, SyncRequestFrom(from, LastSyncOrZero(lastSync)))
  }

  /** `sync_response`: sent to an online destination, otherwise dropped. */
  function AfterSyncResponse(s: State, c: ConnId, to: PeerId, messages: Payload): (r: State)
    requires c in s.conns
    ensures r.(outbox := s.outbox) == s && s.outbox <= r.outbox
    ensures Online(s.peers, s.open, to) <==> |r.outbox| == |s.outbox| + 1
  {
    if Online(s.peers, s.open, to) then
      s.(outbox := s.outbox + [Send(s.peers[to].conn, SyncResponseFrom(s.conns[c].peerId, messages))])
    else s
  }

  /** `ping`: `pong` to the sender's own socket, and the sender's record, if
      its id is truthy and still registered, is marked seen at `now`. */
  function AfterPing(s: State, c: ConnId, now: Time): (r: State)
    requires c in s.conns
    ensures r.(peers := s.peers, outbox := s.outbox) == s && r.peers.Keys == s.peers.Keys
    ensures |r.outbox| == |s.outbox| + 1 && s.outbox <= r.outbox && r.outbox[|s.outbox|] == Send(c, Pong)
  {
    var id := s.conns[c].peerId;
    var replied := s.(outbox := s.outbox + [Send(c, Pong)]);
    if Truthy(id) && id.value in s.peers then
      replied.(peers := s.peers[id.value := s.peers[id.value].(lastSeen := now)])
    else replied
  }

  /** The socket's close event: it is no longer open, and if the connection
      has a truthy peer id, whatever record is under that id is deleted and
      every open peer left gets `peer_left`. */
  function AfterClose(s: State, c: ConnId): (r: State)
    requires c in s.conns
    ensures c !in r.open && r.open == s.open - {c}
    ensures r.conns == s.conns && r.pending == s.pending && s.outbox <= r.outbox
    ensures r.peers.Keys <= s.peers.Keys
    ensures Truthy(s.conns[c].peerId) ==> s.conns[c].peerId.value !in r.peers
    ensures !Truthy(s.conns[c].peerId) ==> r.peers == s.peers && r.outbox == s.outbox
  {
    var id := s.conns[c].peerId;
    var closed := s.(open := s.open - {c});
    if Truthy(id) then
      Fanout(closed.(peers := s.peers - {id.value}, order := RemoveId(s.order, id.value)),
             None, PeerLeft(id.value))
    else closed
  }

  /** A tick of the cleanup timer: silent peers are closed and removed, in
      iteration order, and every queue is pruned by age. */
  function AfterSweep(s: State, now: Time): (r: State)
    ensures r.conns == s.conns && r.open <= s.open && s.outbox <= r.outbox
    ensures r.peers.Keys <= s.peers.Keys && r.pending.Keys <= s.pending.Keys
    ensures forall id :: id in r.peers ==> r.peers[id] == s.peers[id] && now - r.peers[id].lastSeen <= PeerTimeout
  {
    s.(peers := Alive(s.peers, now),
       order := Kept(s.order, s.peers, now),
       open := s.open - ClosedConns(s.order, s.peers, now),
       pending := Prune(s.pending, now),
       outbox := s.outbox + Closes(s.order, s.peers, now))
  }

  /** The `message` handler: dispatch on the frame's type; an unrecognised
      or unparsable frame changes nothing. */
  function AfterMessage(s: State, c: ConnId, msg: Inbound, now: Time): (r: State)
    requires c in s.conns
    ensures msg.Unrecognised? ==> r == s
    ensures r.conns.Keys == s.conns.Keys && s.outbox <= r.outbox
  {
    match msg
    case Register(p, key) => AfterRegister(s, c, p, key, now)
    case Relay(to, payload) => AfterRelay(s, c, to, payload, now)
    case Broadcast(payload) => AfterBroadcast(s, c, payload, now)
    case SyncRequest(lastSync) => AfterSyncRequest(s, c, lastSync)
    case SyncResponse(to, messages) => AfterSyncResponse(s, c, to, messages)
    case Ping => AfterPing(s, c, now)
    case Unrecognised => s
  }

  // Every event keeps the invariant.

  lemma ConnectionKeepsInv(s: State, c: ConnId, ip: string)
    requires Inv(s) && c !in s.conns
    ensures Inv(AfterConnection(s, c, ip))
  {
  }

  lemma FanoutKeepsInv(s: State, exclude: Option<PeerId>, m: Outbound)
    requires Inv(s)
    ensures Inv(Fanout(s, exclude, m))
  {
  }

  /** A state whose fields are those `register` computes is its result. */
  lemma RegisterFields(s: State, c: ConnId, p: PeerId, key: PublicKey, now: Time, t: State)
    requires c in s.conns
    requires t.conns == s.conns[c := s.conns[c].(peerId := Some(p))]
    requires t.order == SetOrder(s.order, s.peers, p)
    requires t.peers == s.peers[p := PeerRecord(c, key, s.conns[c].ip, now)]
    requires t.open == s.open && t.pending == s.pending - {p}
    requires t.outbox == s.outbox + [Send(c, Peers(PeerList(t.order, t.peers, s.open, Some(p))))]
                 + Sends(t.order, t.peers, s.open, Some(p), PeerJoined(p, key))
                 + Deliveries(c, Queued(s.pending, p))
    ensures t == AfterRegister(s, c, p, key, now)
  {
  }

  lemma RegisterKeepsInv(s: State, c: ConnId, p: PeerId, key: PublicKey, now: Time)
    requires Inv(s) && c in s.conns
    ensures Inv(AfterRegister(s, c, p, key, now))
  {
  }

  lemma RelayKeepsInv(s: State, c: ConnId, to: PeerId, payload: Payload, now: Time)
    requires Inv(s) && c in s.conns
    ensures Inv(AfterRelay(s, c, to, payload, now))
  {
  }

  lemma PingKeepsInv(s: State, c: ConnId, now: Time)
    requires Inv(s) && c in s.conns
    ensures Inv(AfterPing(s, c, now))
  {
  }

  lemma CloseKeepsInv(s: State, c: ConnId)
    requires Inv(s) && c in s.conns
    ensures Inv(AfterClose(s, c))
  {
    var id := s.conns[c].peerId;
    if Truthy(id) {
      RemoveIdExactly(s.order, id.value);
    }
  }

  lemma SweepKeepsInv(s: State, now: Time)
    requires Inv(s)
    ensures Inv(AfterSweep(s, now))
  {
    KeptExactly(s.order, s.peers, now);
  }

  lemma MessageKeepsInv(s: State, c: ConnId, msg: Inbound, now: Time)
    requires Inv(s) && c in s.conns
    ensures Inv(AfterMessage(s, c, msg, now))
  {
    match msg
    case Register(p, key) => RegisterKeepsInv(s, c, p, key, now);
    case Relay(to, payload) => RelayKeepsInv(s, c, to, payload, now);
    case Ping => PingKeepsInv(s, c, now);
    case _ =>
  }

  // Runs of the server.

  /** One event delivered to the process. */
  datatype Event =
    | Connect(c: ConnId, ip: string)
    | Frame(c: ConnId, msg: Inbound, now: Time)
    | Closed(c: ConnId)
    | Tick(now: Time)

  /** The state after one event. The `ws` library only reports a new socket
      once and only reports frames and closes of accepted sockets; an event
      that breaks this is not delivered and changes nothing. */
  function Step(s: State, e: Event): (r: State)
    ensures s.conns.Keys <= r.conns.Keys && s.outbox <= r.outbox
  {
    match e
    case Connect(c, ip) => if c !in s.conns then AfterConnection(s, c, ip) else s
    case Frame(c, msg, now) => if c in s.conns then AfterMessage(s, c, msg, now) else s
    case Closed(c) => if c in s.conns then AfterClose(s, c) else s
    case Tick(now) => AfterSweep(s, now)
  }

  /** The state after a sequence of events, oldest first. */
  function Run(s: State, events: seq<Event>): (r: State)
    ensures s.conns.Keys <= r.conns.Keys && s.outbox <= r.outbox
    decreases |events|
  {
    if events == [] then s else Run(Step(s, events[0]), events[1..])
  }

  lemma StepKeepsInv(s: State, e: Event)
    requires Inv(s)
    ensures Inv(Step(s, e))
  {
    match e
    case Connect(c, ip) => if c !in s.conns { ConnectionKeepsInv(s, c, ip); }
    case Frame(c, msg, now) => if c in s.conns { MessageKeepsInv(s, c, msg, now); }
    case Closed(c) => if c in s.conns { CloseKeepsInv(s, c); }
    case Tick(now) => SweepKeepsInv(s, now);
  }

  /** Every state the server can reach from its start satisfies `Inv`. */
  lemma {:induction false} RunKeepsInv(events: seq<Event>, s: State)
    requires Inv(s)
    ensures Inv(Run(s, events))
    decreases |events|
  {
    if events != [] {
      StepKeepsInv(s, events[0]);
      RunKeepsInv(events[1..], Step(s, events[0]));
    }
  }

  lemma ReachableInv(events: seq<Event>)
    ensures Inv(Run(Initial, events))
  {
    RunKeepsInv(events, Initial);
  }
}
