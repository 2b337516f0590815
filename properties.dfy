/** What each handler of server.js promises, stated over the functions of
    `Router` that the methods of `Server.Hub` are proved to implement. */
module Properties {
  import opened Wrappers
  import opened Messages
  import opened Registry
  import opened Queues
  import opened Router

  // Fan-out.

  /** `broadcast(exclude, m)` sends `m` once to each registered peer whose
      socket is open and whose id is not `exclude`, in iteration order, to
      that peer's socket, sends nothing else, and changes no map. */
  lemma FanoutExact(s: State, exclude: Option<PeerId>, m: Outbound)
    requires Inv(s)
    ensures var r := Fanout(s, exclude, m);
      && r.(outbox := s.outbox) == s
      && |r.outbox| >= |s.outbox| && r.outbox[..|s.outbox|] == s.outbox
    ensures var sent := Fanout(s, exclude, m).outbox[|s.outbox|..];
      var t := Targets(s.order, s.peers, s.open, exclude);
      && (forall id :: id in t <==> id in s.peers && s.peers[id].conn in s.open && exclude != Some(id))
      && Distinct(t)
      && |sent| == |t|
      && (forall k :: 0 <= k < |t| ==> t[k] in s.peers && sent[k] == Send(s.peers[t[k]].conn, m))
  {
    TargetsExactly(s.order, s.peers, s.open, exclude);
    SendsAt(s.order, s.peers, s.open, exclude, m);
    var r := Fanout(s, exclude, m);
    assert r.outbox[|s.outbox|..] == Sends(s.order, s.peers, s.open, exclude, m);
  }

  /** The `broadcast` case reaches every open peer but the sender, and each
      copy names the sender's id, the payload and the time of arrival. */
  lemma BroadcastExcludesSender(s: State, c: ConnId, payload: Payload, now: Time)
    requires Inv(s) && c in s.conns
    ensures var r := AfterBroadcast(s, c, payload, now);
      var sent := r.outbox[|s.outbox|..];
      var from := s.conns[c].peerId;
      var t := Targets(s.order, s.peers, s.open, from);
      && r.(outbox := s.outbox) == s
      && (forall id :: id in t <==> Online(s.peers, s.open, id) && from != Some(id))
      && Distinct(t)
      && |sent| == |t|
      && (forall k :: 0 <= k < |t| ==> t[k] in s.peers && sent[k] == Send(s.peers[t[k]].conn, BroadcastFrom(from, payload, now)))
  {
    var from := s.conns[c].peerId;
    FanoutExact(s, from, BroadcastFrom(from, payload, now));
  }

  /** `sync_request` is fanned out like `broadcast`: every open peer but the
      sender gets one copy, in iteration order, carrying the sender's id and
      `lastSync`, which is 0 when the frame has none. */
  lemma SyncRequestExcludesSender(s: State, c: ConnId, lastSync: Option<int>)
    requires Inv(s) && c in s.conns
    ensures var r := AfterSyncRequest(s, c, lastSync);
      var sent := r.outbox[|s.outbox|..];
      var from := s.conns[c].peerId;
      var t := Targets(s.order, s.peers, s.open, from);
      && r.(outbox := s.outbox) == s
      && (forall id :: id in t <==> Online(s.peers, s.open, id) && from != Some(id))
      && Distinct(t)
      && |sent| == |t|
      && (forall k :: 0 <= k < |t| ==> t[k] in s.peers && sent[k] == Send(s.peers[t[k]].conn, SyncRequestFrom(from, LastSyncOrZero(lastSync))))
      && (lastSync == None ==> forall a :: a in sent ==> a.Send? && a.msg == SyncRequestFrom(from, 0))
  {
    var from := s.conns[c].peerId;
    FanoutExact(s, from, SyncRequestFrom(from, LastSyncOrZero(lastSync)));
  }

  // register

  /** Registering `p` on socket `c` stores a fresh record under `p`, seen at
      `now`, replacing any earlier record without error; the socket adopts
      `p`; every other record is untouched; an id already present keeps its
      place in the iteration order and a new one goes last. */
  lemma RegisterReplacesRecord(s: State, c: ConnId, p: PeerId, key: PublicKey, now: Time)
    requires Inv(s) && c in s.conns
    ensures var r := AfterRegister(s, c, p, key, now);
      && p in r.peers && r.peers[p] == PeerRecord(c, key, s.conns[c].ip, now)
      && r.conns == s.conns[c := s.conns[c].(peerId := Some(p))]
      && (forall id :: id != p ==> (id in r.peers <==> id in s.peers))
      && (forall id :: id != p && id in s.peers ==> r.peers[id] == s.peers[id])
      && (p in s.peers ==> r.order == s.order)
      && (p !in s.peers ==> r.order == s.order + [p])
      && r.open == s.open
      && Inv(r)
  {
    RegisterKeepsInv(s, c, p, key, now);
  }

  /** The first thing sent on register is the `peers` snapshot, to the
      registrant's own socket only: it lists exactly the registered ids
      other than `p` whose socket is open, each once and with its public
      key. */
  lemma RegisterSnapshotExact(s: State, c: ConnId, p: PeerId, key: PublicKey, now: Time)
    requires Inv(s) && c in s.conns
    ensures |AfterRegister(s, c, p, key, now).outbox| > |s.outbox|
    ensures var sent := AfterRegister(s, c, p, key, now).outbox[|s.outbox|];
      && AfterRegister(s, c, p, key, now).outbox[..|s.outbox|] == s.outbox
      && sent.Send? && sent.conn == c && sent.msg.Peers?
      && (forall info :: info in sent.msg.peers <==>
            && info.peerId != p && Online(s.peers, s.open, info.peerId)
            && info.publicKey == s.peers[info.peerId].publicKey)
      && (forall i, j :: 0 <= i < j < |sent.msg.peers| ==> sent.msg.peers[i].peerId != sent.msg.peers[j].peerId)
  {
    var r := AfterRegister(s, c, p, key, now);
    assert r.outbox[|s.outbox|] == Send(c, Peers(PeerList(r.order, r.peers, s.open, Some(p))));
    PeerListExactly(r.order, r.peers, s.open, Some(p));
  }

  /** Between the snapshot and the drained queue, every registered peer
      other than `p` whose socket is open gets `peer_joined` once, in
      iteration order, on its own socket. */
  lemma RegisterAnnounces(s: State, c: ConnId, p: PeerId, key: PublicKey, now: Time)
    requires Inv(s) && c in s.conns
    ensures var r := AfterRegister(s, c, p, key, now);
      var q := Queued(s.pending, p);
      |r.outbox| >= |s.outbox| + 1 + |q|
    ensures var r := AfterRegister(s, c, p, key, now);
      var q := Queued(s.pending, p);
      var mid := r.outbox[|s.outbox| + 1 .. |r.outbox| - |q|];
      var t := Targets(r.order, r.peers, s.open, Some(p));
      && (forall id :: id in t <==> id != p && Online(s.peers, s.open, id))
      && Distinct(t)
      && |mid| == |t|
      && (forall k :: 0 <= k < |t| ==> t[k] in s.peers && mid[k] == Send(s.peers[t[k]].conn, PeerJoined(p, key)))
  {
    RegisterKeepsInv(s, c, p, key, now);
    var r := AfterRegister(s, c, p, key, now);
    var q := Queued(s.pending, p);
    TargetsExactly(r.order, r.peers, s.open, Some(p));
    SendsAt(r.order, r.peers, s.open, Some(p), PeerJoined(p, key));
    DeliveriesAt(c, q);
    var joined := Sends(r.order, r.peers, s.open, Some(p), PeerJoined(p, key));
    assert r.outbox[|s.outbox| + 1 .. |r.outbox| - |q|] == joined;
  }

  /** Then every envelope queued for `p` is sent to the new socket, in the
      order it was queued, as the last sends of the handler; the queue is
      gone and every other queue is untouched. */
  lemma RegisterDrainsInOrder(s: State, c: ConnId, p: PeerId, key: PublicKey, now: Time)
    requires c in s.conns
    ensures var r := AfterRegister(s, c, p, key, now);
      var q := Queued(s.pending, p);
      && |r.outbox| >= |s.outbox| + |q|
      && (forall k :: 0 <= k < |q| ==> r.outbox[|r.outbox| - |q| + k] == Send(c, Message(q[k])))
      && p !in r.pending
      && (forall to :: to != p ==> (to in r.pending <==> to in s.pending))
      && (forall to :: to != p && to in s.pending ==> r.pending[to] == s.pending[to])
  {
    DeliveriesAt(c, Queued(s.pending, p));
  }

  // relay and sync_response

  /** `relay` to an online destination sends it exactly one `message` naming
      the sender's id, the payload and `now`, and buffers nothing; to any
      other destination it sends nothing and appends that envelope to the
      end of the destination's queue, creating it when absent, leaving every
      other queue as it was. */
  lemma RelayDeliversOrBuffers(s: State, c: ConnId, to: PeerId, payload: Payload, now: Time)
    requires c in s.conns
    ensures var r := AfterRelay(s, c, to, payload, now);
      var env := Envelope(s.conns[c].peerId, payload, now);
      && r.(outbox := s.outbox, pending := s.pending) == s
      && (Online(s.peers, s.open, to) ==>
            r.outbox == s.outbox + [Send(s.peers[to].conn, Message(env))] && r.pending == s.pending)
      && (!Online(s.peers, s.open, to) ==>
            && r.outbox == s.outbox
            && to in r.pending && |r.pending[to]| == |Queued(s.pending, to)| + 1
            && r.pending[to][..|r.pending[to]| - 1] == Queued(s.pending, to)
            && r.pending[to][|r.pending[to]| - 1] == env
            && (forall k :: k != to ==> (k in r.pending <==> k in s.pending))
            && (forall k :: k != to && k in s.pending ==> r.pending[k] == s.pending[k]))
  {
    var env := Envelope(s.conns[c].peerId, payload, now);
    assert (Queued(s.pending, to) + [env])[..|Queued(s.pending, to)|] == Queued(s.pending, to);
  }

  /** `sync_response` reaches an online destination and is otherwise
      dropped: it never touches the queues or the registry. */
  lemma SyncResponseNeverBuffers(s: State, c: ConnId, to: PeerId, messages: Payload)
    requires c in s.conns
    ensures var r := AfterSyncResponse(s, c, to, messages);
      && r.(outbox := s.outbox) == s
      && (Online(s.peers, s.open, to) ==>
            r.outbox == s.outbox + [Send(s.peers[to].conn, SyncResponseFrom(s.conns[c].peerId, messages))])
      && (!Online(s.peers, s.open, to) ==> r == s)
  {
  }

  // ping

  /** `ping` always answers `pong` on the sender's own socket and nothing
      else; it refreshes `lastSeen` to `now` only when the socket has a
      truthy id that is still registered, and changes nothing else. */
  lemma PingRefreshes(s: State, c: ConnId, now: Time)
    requires c in s.conns
    ensures var r := AfterPing(s, c, now);
      var id := s.conns[c].peerId;
      && r.outbox == s.outbox + [Send(c, Pong)]
      && r.(outbox := s.outbox, peers := s.peers) == s
      && r.peers.Keys == s.peers.Keys
      && (forall q :: q in s.peers && !(Truthy(id) && q == id.value) ==> r.peers[q] == s.peers[q])
      && (Truthy(id) && id.value in s.peers ==> r.peers[id.value] == s.peers[id.value].(lastSeen := now))
  {
  }

  /** A peer that pinged at `now` survives every sweep up to and including
      `now + PeerTimeout`. */
  lemma PingKeepsAlive(s: State, c: ConnId, now: Time, later: Time)
    requires c in s.conns && Truthy(s.conns[c].peerId) && s.conns[c].peerId.value in s.peers
    requires later <= now + PeerTimeout
    ensures s.conns[c].peerId.value in AfterSweep(AfterPing(s, c, now), later).peers
  {
  }

  // close

  /** Closing a socket takes it out of the open set. If it had a truthy id,
      the record under that id is deleted, whichever socket it belongs to,
      and every peer still registered with an open socket gets one
      `peer_left`; otherwise nothing else happens. */
  lemma CloseRemovesAndAnnounces(s: State, c: ConnId)
    requires Inv(s) && c in s.conns
    ensures var r := AfterClose(s, c);
      var id := s.conns[c].peerId;
      && r.open == s.open - {c} && r.conns == s.conns && r.pending == s.pending
      && (!Truthy(id) ==> r.peers == s.peers && r.order == s.order && r.outbox == s.outbox)
      && (Truthy(id) ==> r.peers == s.peers - {id.value} && Lists(r.order, r.peers))
    ensures Truthy(s.conns[c].peerId) ==>
      var r := AfterClose(s, c);
      var id := s.conns[c].peerId.value;
      var sent := r.outbox[|s.outbox|..];
      var t := Targets(r.order, r.peers, r.open, None);
      && |r.outbox| >= |s.outbox| && r.outbox[..|s.outbox|] == s.outbox
      && (forall q :: q in t <==> q != id && Online(s.peers, s.open - {c}, q))
      && Distinct(t)
      && |sent| == |t|
      && (forall k :: 0 <= k < |t| ==> t[k] in s.peers && sent[k] == Send(s.peers[t[k]].conn, PeerLeft(id)))
  {
    var id := s.conns[c].peerId;
    if Truthy(id) {
      CloseKeepsInv(s, c);
      var closed := s.(open := s.open - {c}, peers := s.peers - {id.value}, order := RemoveId(s.order, id.value));
      RemoveIdExactly(s.order, id.value);
      assert Inv(closed);
      FanoutExact(closed, None, PeerLeft(id.value));
    }
  }

  // The cleanup tick.

  /** The sweep removes a record exactly when its silence is strictly longer
      than five minutes, closes the sockets of the removed peers one by one
      in iteration order and announces nothing; the order still lists the
      registry, and the sockets left open are those of no removed peer. */
  lemma SweepEvictsExactly(s: State, now: Time)
    requires Inv(s)
    ensures var r := AfterSweep(s, now);
      && (forall id :: id in r.peers <==> id in s.peers && now - s.peers[id].lastSeen <= 300000)
      && (forall id :: id in r.peers ==> r.peers[id] == s.peers[id])
      && Lists(r.order, r.peers)
      && r.conns == s.conns
    ensures var r := AfterSweep(s, now);
      var gone := Idle(s.order, s.peers, now);
      var closes := r.outbox[|s.outbox|..];
      && r.outbox[..|s.outbox|] == s.outbox
      && (forall id :: id in gone <==> id in s.peers && now - s.peers[id].lastSeen > 300000)
      && |closes| == |gone|
      && (forall k :: 0 <= k < |gone| ==> gone[k] in s.peers && closes[k] == Disconnect(s.peers[gone[k]].conn))
      && (forall q :: q in r.open <==> q in s.open && forall id :: id in gone ==> s.peers[id].conn != q)
  {
    SweepKeepsInv(s, now);
    IdleExactly(s.order, s.peers, now);
    ClosesAt(s.order, s.peers, now);
    var r := AfterSweep(s, now);
    assert r.outbox[|s.outbox|..] == Closes(s.order, s.peers, now);
  }

  /** The sweep keeps, in every queue, exactly the envelopes younger than
      24 hours, and keeps a queue exactly when one of its envelopes is; no
      queue it leaves is empty. */
  lemma SweepPrunesExactly(s: State, now: Time)
    ensures var r := AfterSweep(s, now);
      && (forall to :: to in r.pending ==> r.pending[to] != [])
      && (forall to :: to in r.pending <==> to in s.pending && exists e :: e in s.pending[to] && now - e.timestamp < 86400000)
      && (forall to, e :: to in r.pending ==> (e in r.pending[to] <==> e in s.pending[to] && now - e.timestamp < 86400000))
  {
    forall to | to in s.pending
      ensures forall e :: e in Fresh(s.pending[to], now) <==> e in s.pending[to] && Young(e, now)
      ensures Fresh(s.pending[to], now) != [] <==> exists e :: e in s.pending[to] && Young(e, now)
    {
      FreshKeepsExactly(s.pending[to], now);
      if Fresh(s.pending[to], now) != [] {
        assert Fresh(s.pending[to], now)[0] in Fresh(s.pending[to], now);
      }
    }
  }

  /** A later sweep sees the effect of an earlier one as if only the later
      one had run: eviction and expiry are final. */
  lemma SweepLater(s: State, t1: Time, t2: Time)
    requires Inv(s) && t1 <= t2
    ensures var r := AfterSweep(AfterSweep(s, t1), t2);
      && r.peers == Alive(s.peers, t2)
      && r.order == Kept(s.order, s.peers, t2)
      && r.pending == Prune(s.pending, t2)
  {
    AliveLater(s.peers, t1, t2);
    KeptLater(s.order, s.peers, t1, t2);
    PruneLater(s.pending, t1, t2);
  }

  /** A second sweep at the same time changes nothing and closes nothing. */
  lemma SweepIdempotent(s: State, now: Time)
    requires Inv(s)
    ensures AfterSweep(AfterSweep(s, now), now) == AfterSweep(s, now)
  {
    var r1 := AfterSweep(s, now);
    SweepLater(s, now, now);
    SweepKeepsInv(s, now);
    ClosesNone(r1.order, r1.peers, now);
    assert ClosedConns(r1.order, r1.peers, now) == {};
    assert r1.outbox + [] == r1.outbox;
  }

  /** The boundary of the liveness timeout: silent for exactly five minutes
      is kept, one millisecond more is evicted. */
  lemma EvictionBoundary(s: State, now: Time, id: PeerId)
    requires id in s.peers
    ensures s.peers[id].lastSeen == now - 300000 ==> id in AfterSweep(s, now).peers
    ensures s.peers[id].lastSeen == now - 300001 ==> id !in AfterSweep(s, now).peers
  {
  }

  /** The boundary of the retention window: an envelope one millisecond short
      of 24 hours old survives, one exactly 24 hours old is dropped. */
  lemma ExpiryBoundary(s: State, now: Time, to: PeerId, e: Envelope)
    requires to in s.pending && e in s.pending[to]
    ensures e.timestamp == now - 86399999 ==>
      to in AfterSweep(s, now).pending && e in AfterSweep(s, now).pending[to]
    ensures e.timestamp == now - 86400000 ==>
      to !in AfterSweep(s, now).pending || e !in AfterSweep(s, now).pending[to]
  {
    FreshKeepsExactly(s.pending[to], now);
  }

  // Scenarios.

  /** Two relays to an offline id, then its registration: both envelopes
      reach the new socket, first one first, as the last two sends. */
  lemma BufferThenDeliver(s: State, c: ConnId, d: ConnId, p: PeerId, key: PublicKey,
                          x: Payload, y: Payload, t1: Time, t2: Time, now: Time)
    requires c in s.conns && d in s.conns
    requires !Online(s.peers, s.open, p) && p !in s.pending
    ensures var s2 := AfterRelay(AfterRelay(s, c, p, x, t1), c, p, y, t2);
      var r := AfterRegister(s2, d, p, key, now);
      var from := s.conns[c].peerId;
      && |r.outbox| >= 2
      && r.outbox[|r.outbox| - 2..] == [Send(d, Message(Envelope(from, x, t1))), Send(d, Message(Envelope(from, y, t2)))]
      && p !in r.pending
  {
    var from := s.conns[c].peerId;
    var s2 := AfterRelay(AfterRelay(s, c, p, x, t1), c, p, y, t2);
    assert Queued(s2.pending, p) == [Envelope(from, x, t1), Envelope(from, y, t2)];
    RegisterDrainsInOrder(s2, d, p, key, now);
    var r := AfterRegister(s2, d, p, key, now);
    var q := Queued(s2.pending, p);
    assert r.outbox[|r.outbox| - |q| + 0] == Send(d, Message(q[0]));
    assert r.outbox[|r.outbox| - |q| + 1] == Send(d, Message(q[1]));
  }

  /** Registering the same id from a second socket: the later registration
      wins, and the id keeps its place in the iteration order. */
  lemma ReRegistrationLaterWins(s: State, c: ConnId, d: ConnId, p: PeerId, k1: PublicKey, k2: PublicKey, t1: Time, t2: Time)
    requires c in s.conns && d in s.conns
    ensures var s1 := AfterRegister(s, c, p, k1, t1);
      var r := AfterRegister(s1, d, p, k2, t2);
      && r.peers[p] == PeerRecord(d, k2, s.conns[d].ip, t2)
      && r.order == s1.order
  {
  }

  /** The close of a superseded socket still deletes the record under its
      id, although that record now belongs to the newer, open socket. */
  lemma StaleCloseDropsLiveRecord(s: State, c: ConnId, d: ConnId, p: PeerId, k1: PublicKey, k2: PublicKey, t1: Time, t2: Time)
    requires c in s.conns && d in s.conns && c != d && d in s.open && p != ""
    ensures var s2 := AfterRegister(AfterRegister(s, c, p, k1, t1), d, p, k2, t2);
      var r := AfterClose(s2, c);
      && s2.peers[p].conn == d
      && p !in r.peers
      && d in r.open && r.conns[d].peerId == Some(p)
  {
  }
}
