/** The server process itself: the two shared maps and the per-connection
    state as fields of one object, and each handler of server.js as a method
    that updates them in place, iterating the way the source does. Every
    method is proved to leave exactly the state the matching function of
    `Router` describes. */
module Server {
  import opened Wrappers
  import opened Messages
  import opened Registry
  import opened Queues
  import Router

  class Hub {
    /** Accepted sockets with the closure state of each. */
    var conns: map<ConnId, Connection>
    /** Sockets whose readyState is OPEN. */
    var open: set<ConnId>
    /** `peers`, with its iteration order in `order`. */
    var peers: map<PeerId, PeerRecord>
    var order: seq<PeerId>
    /** `pendingMessages`. */
    var pending: map<PeerId, seq<Envelope>>
    /** Every `ws.send` and `ws.close` call made so far. */
    var outbox: seq<Action>

    function Abs(): Router.State
      reads this
    {
      Router.State(conns, open, peers, order, pending, outbox)
    }

    /** `Router.Inv` of `Abs()`; the log is left out of the frame so that
        sending cannot break it. */
    ghost predicate Valid()
      reads this`conns, this`open, this`peers, this`order, this`pending
    {
      Router.Consistent(conns, open, peers, order, pending)
    }

    constructor ()
      ensures Valid() && Abs() == Router.Initial
    {
      conns, open := map[], {};
      peers, order := map[], [];
      pending, outbox := map[], [];
    }

    /** The `connection` event. */
    method OnConnection(c: ConnId, ip: string)
      requires Valid() && c !in conns
      modifies this
      ensures Valid() && Abs() == Router.AfterConnection(old(Abs()), c, ip)
    {
      Router.ConnectionKeepsInv(Abs(), c, ip);
      conns := conns[c := Connection(ip, None)];
      open := open + {c};
    }

    /** `broadcast(excludePeerId, message)`. */
    method Broadcast(exclude: Option<PeerId>, m: Outbound)
      modifies this`outbox
      ensures outbox == old(outbox) + Sends(order, peers, open, exclude, m)
      ensures Abs() == Router.Fanout(old(Abs()), exclude, m)
    {
      var i := 0;
      while i < |order|
        modifies this`outbox
        invariant 0 <= i <= |order|
        invariant outbox == old(outbox) + Sends(order[..i], peers, open, exclude, m)
      {
        var id := order[i];
        assert order[..i + 1] == order[..i] + [id];
        SendsSnoc(order[..i], id, peers, open, exclude, m);
        if id in peers && exclude != Some(id) && peers[id].conn in open {
          outbox := outbox + [Send(peers[id].conn, m)];
        }
        i := i + 1;
      }
      assert order[..i] == order;
    }

    /** The `peers` list built on register: every open peer other than
        `p`, in iteration order. Reads the state and changes nothing. */
    method ListOthers(p: PeerId) returns (list: seq<PeerInfo>)
      ensures list == PeerList(order, peers, open, Some(p))
    {
      list := [];
      var i := 0;
      while i < |order|
        invariant 0 <= i <= |order|
        invariant list == PeerList(order[..i], peers, open, Some(p))
      {
        var id := order[i];
        assert order[..i + 1] == order[..i] + [id];
        PeerListSnoc(order[..i], id, peers, open, Some(p));
        if id in peers && id != p && peers[id].conn in open {
          list := list + [PeerInfo(id, peers[id].publicKey)];
        }
        i := i + 1;
      }
      assert order[..i] == order;
    }

    /** Sends every envelope of a drained queue to socket `c`, in order. */
    method Deliver(c: ConnId, queue: seq<Envelope>)
      modifies this`outbox
      ensures outbox == old(outbox) + Deliveries(c, queue)
    {
      var j := 0;
      while j < |queue|
        invariant 0 <= j <= |queue|
        invariant outbox == old(outbox) + Deliveries(c, queue[..j])
      {
        assert queue[..j + 1] == queue[..j] + [queue[j]];
        DeliveriesSnoc(c, queue[..j], queue[j]);
        outbox := outbox + [Send(c, Message(queue[j]))];
        j := j + 1;
      }
      assert queue[..j] == queue;
    }

    /** Hands the queue buffered for `p` to its new socket `c` and forgets it. */
    method Drain(c: ConnId, p: PeerId)
      modifies this`outbox, this`pending
      ensures pending == old(pending) - {p}
      ensures outbox == old(outbox) + Deliveries(c, Queued(old(pending), p))
    {
      if p in pending {
        Deliver(c, pending[p]);
        pending := pending - {p};
      } else {
        assert pending - {p} == pending;
      }
    }

    /** Records `p` as the peer on socket `c`: the closure state of the
        socket, and a new record in `peers` that replaces any earlier one. */
    method Enrol(c: ConnId, p: PeerId, key: PublicKey, now: Time)
      requires c in conns
      modifies this`conns, this`order, this`peers
      ensures conns == old(conns)[c := old(conns)[c].(peerId := Some(p))]
      ensures order == SetOrder(old(order), old(peers), p)
      ensures peers == old(peers)[p := PeerRecord(c, key, old(conns)[c].ip, now)]
    {
      conns := conns[c := conns[c].(peerId := Some(p))];
      order := SetOrder(order, peers, p);
      peers := peers[p := PeerRecord(c, key, conns[c].ip, now)];
    }

    /** Sends the new peer on `c` the list of the others, then announces it
        to every open peer but itself. */
    method Welcome(c: ConnId, p: PeerId, key: PublicKey)
      modifies this`outbox
      ensures outbox == old(outbox) + [Send(c, Peers(PeerList(order, peers, open, Some(p))))]
                                    + Sends(order, peers, open, Some(p), PeerJoined(p, key))
    {
      var list := ListOthers(p);
      outbox := outbox + [Send(c, Peers(list))];
      Broadcast(Some(p), PeerJoined(p, key));
    }

    /** The `register` case. */
    method OnRegister(c: ConnId, p: PeerId, key: PublicKey, now: Time)
      requires Valid() && c in conns
      modifies this
      ensures Valid() && Abs() == Router.AfterRegister(old(Abs()), c, p, key, now)
    {
      Router.RegisterKeepsInv(Abs(), c, p, key, now);
      ghost var s0 := Abs();
      Enrol(c, p, key, now);
      Welcome(c, p, key);
      Drain(c, p);
      Router.RegisterFields(s0, c, p, key, now, Abs());
    }

    /** The `relay` case. */
    method OnRelay(c: ConnId, to: PeerId, payload: Payload, now: Time)
      requires Valid() && c in conns
      modifies this
      ensures Valid() && Abs() == Router.AfterRelay(old(Abs()), c, to, payload, now)
    {
      Router.RelayKeepsInv(Abs(), c, to, payload, now);
      var relayed := Envelope(conns[c].peerId, payload, now);
      if to in peers && peers[to].conn in open {
        outbox := outbox + [Send(peers[to].conn, Message(relayed))];
      } else {
        if to !in pending {
          pending := pending[to := []];
        }
        pending := pending[to := pending[to] + [relayed]];
      }
    }

    /** The `broadcast` case. */
    method OnBroadcast(c: ConnId, payload: Payload, now: Time)
      requires Valid() && c in conns
      modifies this
      ensures Valid() && Abs() == Router.AfterBroadcast(old(Abs()), c, payload, now)
    {
      var from := conns[c].peerId;
      Broadcast(from, BroadcastFrom(from, payload, now));
    }

    /** The `sync_request` case. */
    method OnSyncRequest(c: ConnId, lastSync: Option<int>)
      requires Valid() && c in conns
      modifies this
      ensures Valid() && Abs() == Router.AfterSyncRequest(old(Abs()), c, lastSync)
    {
      var from := conns[c].peerId;
      Broadcast(from, SyncRequestFrom(from, LastSyncOrZero(lastSync)));
    }

    /** The `sync_response` case. */
    method OnSyncResponse(c: ConnId, to: PeerId, messages: Payload)
      requires Valid() && c in conns
      modifies this
      ensures Valid() && Abs() == Router.AfterSyncResponse(old(Abs()), c, to, messages)
    {
      if to in peers && peers[to].conn in open {
        outbox := outbox + [Send(peers[to].conn, SyncResponseFrom(conns[c].peerId, messages))];
      }
    }

    /** The `ping` case. */
    method OnPing(c: ConnId, now: Time)
      requires Valid() && c in conns
      modifies this
      ensures Valid() && Abs() == Router.AfterPing(old(Abs()), c, now)
    {
      Router.PingKeepsInv(Abs(), c, now);
      outbox := outbox + [Send(c, Pong)];
      var id := conns[c].peerId;
      if id.Some? && id.value != "" && id.value in peers {
        peers := peers[id.value := peers[id.value].(lastSeen := now)];
      }
    }

    /** The `message` event: one parsed frame, dispatched on its type. */
    method OnMessage(c: ConnId, msg: Inbound, now: Time)
      requires Valid() && c in conns
      modifies this
      ensures Valid() && Abs() == Router.AfterMessage(old(Abs()), c, msg, now)
    {
      match msg
      case Register(p, key) => OnRegister(c, p, key, now);
      case Relay(to, payload) => OnRelay(c, to, payload, now);
      case Broadcast(payload) => OnBroadcast(c, payload, now);
      case SyncRequest(lastSync) => OnSyncRequest(c, lastSync);
      case SyncResponse(to, messages) => OnSyncResponse(c, to, messages);
      case Ping => OnPing(c, now);
      case Unrecognised =>
    }

    /** The `close` event of socket `c`. */
    method OnClose(c: ConnId)
      requires Valid() && c in conns
      modifies this
      ensures Valid() && Abs() == Router.AfterClose(old(Abs()), c)
    {
      Router.CloseKeepsInv(Abs(), c);
      open := open - {c};
      var id := conns[c].peerId;
      if id.Some? && id.value != "" {
        peers := peers - {id.value};
        order := RemoveId(order, id.value);
        Broadcast(None, PeerLeft(id.value));
      }
    }

    /** The first half of the cleanup tick: every peer silent for longer
        than `PeerTimeout` has its socket closed and its record deleted,
        visiting the peers in iteration order. */
    method Evict(now: Time)
      requires Lists(order, peers)
      modifies this`peers, this`order, this`open, this`outbox
      ensures peers == Alive(old(peers), now)
      ensures order == Kept(old(order), old(peers), now)
      ensures open == old(open) - ClosedConns(old(order), old(peers), now)
      ensures outbox == old(outbox) + Closes(old(order), old(peers), now)
    {
      var ids := order;
      var kept := [];
      var i := 0;
      while i < |ids|
        modifies this`peers, this`open, this`outbox
        invariant 0 <= i <= |ids|
        invariant kept == Kept(ids[..i], old(peers), now)
        invariant peers == old(peers) - SilentIds(ids[..i], old(peers), now)
        invariant open == old(open) - ClosedConns(ids[..i], old(peers), now)
        invariant outbox == old(outbox) + Closes(ids[..i], old(peers), now)
      {
        var id := ids[i];
        EvictStep(ids, i, old(peers), now);
        var peer := peers[id];
        assert peer == old(peers)[id];
        if now - peer.lastSeen > PeerTimeout {
          EvictSilent(ids, i, old(peers), now, old(open), old(outbox));
          outbox := outbox + [Disconnect(peer.conn)];
          open := open - {peer.conn};
          peers := peers - {id};
        } else {
          EvictLive(ids, i, old(peers), now);
          kept := kept + [id];
        }
        i := i + 1;
      }
      assert ids[..i] == ids;
      SilentIdsCoverAll(ids, old(peers), now);
      order := kept;
    }

    /** The second half of the cleanup tick: every queue loses the envelopes
        older than `MessageTtl`, and a queue left empty is deleted. */
    method PruneQueues(now: Time)
      modifies this`pending
      ensures pending == Prune(old(pending), now)
    {
      var keys := pending.Keys;
      while keys != {}
        modifies this`pending
        invariant keys <= old(pending).Keys
        invariant forall k :: k in pending <==> k in old(pending) && (k in keys || Fresh(old(pending)[k], now) != [])
        invariant forall k :: k in pending ==> pending[k] == if k in keys then old(pending)[k] else Fresh(old(pending)[k], now)
        decreases keys
      {
        var k :| k in keys;
        var messages := pending[k];
        var filtered := Fresh(messages, now);
        if |filtered| == 0 {
          pending := pending - {k};
        } else if |filtered| != |messages| {
          pending := pending[k := filtered];
        } else {
          FreshFullLength(messages, now);
        }
        keys := keys - {k};
      }
    }

    /** One tick of the cleanup timer at time `now`. */
    method Sweep(now: Time)
      requires Valid()
      modifies this
      ensures Valid() && Abs() == Router.AfterSweep(old(Abs()), now)
    {
      Router.SweepKeepsInv(Abs(), now);
      Evict(now);
      PruneQueues(now);
    }
  }
}
