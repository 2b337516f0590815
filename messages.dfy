/** The values the signaling server handles: identifiers, the record kept per
    registered peer, the envelope kept per buffered relay, and the parsed
    inbound and outbound frames. */
module Messages {
  import opened Wrappers

  /** Client-chosen opaque identifier; uniqueness is not enforced. */
  type PeerId = string
  /** An accepted socket; stands for the `ws` object. */
  type ConnId = nat
  type PublicKey = string
  /** Any JSON value the server forwards without looking inside. */
  type Payload = string
  /** Milliseconds, the value `Date.now()` would return. */
  type Time = int

  /** A peer that has not pinged for longer than this is evicted (5 minutes). */
  const PeerTimeout: int := 5 * 60 * 1000
  /** A buffered envelope this old or older is discarded (24 hours). */
  const MessageTtl: int := 24 * 60 * 60 * 1000

  /** Per-connection state: the client address and the `peerId` variable of
      the connection's closure, `None` until the first `register`. */
  datatype Connection = Connection(ip: string, peerId: Option<PeerId>)

  /** The value stored under a peer id in `peers`. */
  datatype PeerRecord = PeerRecord(conn: ConnId, publicKey: PublicKey, ip: string, lastSeen: Time)

  /** A `message` built by `relay`: sent at once or buffered as is. */
  datatype Envelope = Envelope(from: Option<PeerId>, payload: Payload, timestamp: Time)

  /** One entry of the `peers` list sent to a registering peer. */
  datatype PeerInfo = PeerInfo(peerId: PeerId, publicKey: PublicKey)

  /** An inbound frame after parsing. `Unrecognised` stands for a frame
      whose `type` is none of the six, and for one that failed to parse. */
  datatype Inbound =
    | Register(peerId: PeerId, publicKey: PublicKey)
    | Relay(to: PeerId, payload: Payload)
    | Broadcast(payload: Payload)
    | SyncRequest(lastSync: Option<int>)
    | SyncResponse(to: PeerId, messages: Payload)
    | Ping
    | Unrecognised

  /** An outbound frame, one constructor per `type` the server emits. */
  datatype Outbound =
    | Peers(peers: seq<PeerInfo>)
    | PeerJoined(peerId: PeerId, publicKey: PublicKey)
    | PeerLeft(peerId: PeerId)
    | Message(envelope: Envelope)
    | BroadcastFrom(from: Option<PeerId>, payload: Payload, timestamp: Time)
    | SyncRequestFrom(from: Option<PeerId>, lastSync: int)
    | SyncResponseFrom(from: Option<PeerId>, messages: Payload)
    | Pong

  /** What the server does to a socket: `ws.send(frame)` or `ws.close()`. */
  datatype Action = Send(conn: ConnId, msg: Outbound) | Disconnect(conn: ConnId)

  /** JavaScript truthiness of the connection's `peerId`: `null` and the
      empty string are both falsy. */
  predicate Truthy(id: Option<PeerId>) {
    id.Some? && id.value != ""
  }

  /** `msg.lastSync || 0`: an absent or falsy value becomes 0. */
  function LastSyncOrZero(lastSync: Option<int>): int {
    match lastSync
    case Some(t) => t
    case None => 0
  }
}
