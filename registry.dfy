/** The peer map `peers` seen as a JavaScript `Map`: a dictionary together
    with the insertion order in which `forEach` visits its entries, and the
    filters over that order used by the peer list, by `broadcast` and by the
    inactivity sweep. */
module Registry {
  import opened Wrappers
  import opened Messages

  /** No id occurs twice: a `Map` has one entry per key. */
  ghost predicate Distinct(ids: seq<PeerId>) {
    forall i, j :: 0 <= i < j < |ids| ==> ids[i] != ids[j]
  }

  /** `order` lists exactly the keys of `peers`, each once. */
  ghost predicate Lists(order: seq<PeerId>, peers: map<PeerId, PeerRecord>) {
    Distinct(order) && forall id :: id in order <==> id in peers
  }

  /** `peers.get(id)` is a record whose socket is in the OPEN state. */
  predicate Online(peers: map<PeerId, PeerRecord>, open: set<ConnId>, id: PeerId) {
    id in peers && peers[id].conn in open
  }

  /** The test of `broadcast` and of the peer list: an open peer whose id is
      not the excluded one (`null` excludes nobody). */
  predicate Reachable(peers: map<PeerId, PeerRecord>, open: set<ConnId>, exclude: Option<PeerId>, id: PeerId) {
    Online(peers, open, id) && exclude != Some(id)
  }

  /** The ids, in iteration order, that `broadcast(exclude, ...)` sends to. */
  function Targets(ids: seq<PeerId>, peers: map<PeerId, PeerRecord>, open: set<ConnId>, exclude: Option<PeerId>): seq<PeerId>
  {
    if ids == [] then []
    else
      var prefix, last := ids[..|ids| - 1], ids[|ids| - 1];
      Targets(prefix, peers, open, exclude) + (if Reachable(peers, open, exclude, last) then [last] else [])
  }

  /** The sends of `broadcast(exclude, m)` while it visits `ids`: one
      `ws.send(m)` per reachable peer, to that peer's socket. */
  function Sends(ids: seq<PeerId>, peers: map<PeerId, PeerRecord>, open: set<ConnId>, exclude: Option<PeerId>, m: Outbound): seq<Action>
  {
    if ids == [] then []
    else
      var prefix, last := ids[..|ids| - 1], ids[|ids| - 1];
      Sends(prefix, peers, open, exclude, m)
        + (if Reachable(peers, open, exclude, last) then [Send(peers[last].conn, m)] else [])
  }

  /** The `peers` list built on register while visiting `ids`: the id and
      public key of each reachable peer. */
  function PeerList(ids: seq<PeerId>, peers: map<PeerId, PeerRecord>, open: set<ConnId>, exclude: Option<PeerId>): seq<PeerInfo>
  {
    if ids == [] then []
    else
      var prefix, last := ids[..|ids| - 1], ids[|ids| - 1];
      PeerList(prefix, peers, open, exclude)
        + (if Reachable(peers, open, exclude, last) then [PeerInfo(last, peers[last].publicKey)] else [])
  }

  /** The iteration order after `peers.delete(x)`. */
  function RemoveId(ids: seq<PeerId>, x: PeerId): seq<PeerId>
  {
    if ids == [] then []
    else
      var prefix, last := ids[..|ids| - 1], ids[|ids| - 1];
      RemoveId(prefix, x) + (if last == x then [] else [last])
  }

  /** The iteration order after `peers.set(x, ...)`: a new key goes last,
      an existing key keeps its place. */
  function SetOrder(ids: seq<PeerId>, peers: map<PeerId, PeerRecord>, x: PeerId): (r: seq<PeerId>)
    ensures Lists(ids, peers) ==> Distinct(r) && forall id :: id in r <==> id in peers || id == x
  {
    if x in peers then ids else ids + [x]
  }

  /** Silent for strictly longer than the liveness timeout. */
  predicate Silent(r: PeerRecord, now: Time) {
    now - r.lastSeen > PeerTimeout
  }

  /** Registered and silent: the sweep's eviction test. */
  predicate Stale(peers: map<PeerId, PeerRecord>, now: Time, id: PeerId) {
    id in peers && Silent(peers[id], now)
  }

  /** The ids, in iteration order, that the sweep evicts. */
  function Idle(ids: seq<PeerId>, peers: map<PeerId, PeerRecord>, now: Time): seq<PeerId>
  {
    if ids == [] then []
    else
      var prefix, last := ids[..|ids| - 1], ids[|ids| - 1];
      Idle(prefix, peers, now) + (if Stale(peers, now, last) then [last] else [])
  }

  /** The ids, in iteration order, that survive the sweep. */
  function Kept(ids: seq<PeerId>, peers: map<PeerId, PeerRecord>, now: Time): seq<PeerId>
  {
    if ids == [] then []
    else
      var prefix, last := ids[..|ids| - 1], ids[|ids| - 1];
      Kept(prefix, peers, now) + (if last in peers && !Silent(peers[last], now) then [last] else [])
  }

  /** The `ws.close()` calls of the sweep while it visits `ids`, one per
      evicted peer, in order. */
  function Closes(ids: seq<PeerId>, peers: map<PeerId, PeerRecord>, now: Time): seq<Action>
  {
    if ids == [] then []
    else
      var prefix, last := ids[..|ids| - 1], ids[|ids| - 1];
      Closes(prefix, peers, now) + (if Stale(peers, now, last) then [Disconnect(peers[last].conn)] else [])
  }

  /** The sockets those calls take out of the OPEN state. */
  function ClosedConns(ids: seq<PeerId>, peers: map<PeerId, PeerRecord>, now: Time): set<ConnId> {
    set id | id in ids && Stale(peers, now, id) :: peers[id].conn
  }

  /** The ids of `ids` whose record has gone silent. */
  function SilentIds(ids: seq<PeerId>, peers: map<PeerId, PeerRecord>, now: Time): set<PeerId> {
    set id | id in ids && Stale(peers, now, id)
  }

  /** The registry with every silent peer removed. */
  function Alive(peers: map<PeerId, PeerRecord>, now: Time): map<PeerId, PeerRecord>
  {
    map id | id in peers && !Silent(peers[id], now) :: peers[id]
  }

  // What the filters keep.

  lemma {:induction false} DistinctPrefix(ids: seq<PeerId>)
    requires Distinct(ids) && ids != []
    ensures Distinct(ids[..|ids| - 1]) && ids[|ids| - 1] !in ids[..|ids| - 1]
  {
  }

  /** The targets of a fan-out are exactly the reachable ids it visits, each
      once when the ids are distinct. */
  lemma {:induction false} TargetsExactly(ids: seq<PeerId>, peers: map<PeerId, PeerRecord>, open: set<ConnId>, exclude: Option<PeerId>)
    ensures forall id :: id in Targets(ids, peers, open, exclude) <==> id in ids && Reachable(peers, open, exclude, id)
    ensures Distinct(ids) ==> Distinct(Targets(ids, peers, open, exclude))
  {
    if ids != [] {
      var prefix, last := ids[..|ids| - 1], ids[|ids| - 1];
      assert ids == prefix + [last];
      if Distinct(ids) { DistinctPrefix(ids); }
      TargetsExactly(prefix, peers, open, exclude);
    }
  }

  /** Send number `k` of a fan-out goes to the socket of target number `k`. */
  lemma {:induction false} SendsAt(ids: seq<PeerId>, peers: map<PeerId, PeerRecord>, open: set<ConnId>, exclude: Option<PeerId>, m: Outbound)
    ensures |Sends(ids, peers, open, exclude, m)| == |Targets(ids, peers, open, exclude)|
    ensures forall k :: 0 <= k < |Targets(ids, peers, open, exclude)| ==>
      Targets(ids, peers, open, exclude)[k] in peers &&
      Sends(ids, peers, open, exclude, m)[k] == Send(peers[Targets(ids, peers, open, exclude)[k]].conn, m)
  {
    if ids != [] {
      SendsAt(ids[..|ids| - 1], peers, open, exclude, m);
    }
  }

  /** The peer list describes exactly the reachable ids it visits, with
      their public keys, and names each once when the ids are distinct. */
  lemma {:induction false} PeerListExactly(ids: seq<PeerId>, peers: map<PeerId, PeerRecord>, open: set<ConnId>, exclude: Option<PeerId>)
    ensures forall info :: info in PeerList(ids, peers, open, exclude) <==>
      info.peerId in ids && Reachable(peers, open, exclude, info.peerId) && info.publicKey == peers[info.peerId].publicKey
    ensures Distinct(ids) ==> forall i, j :: 0 <= i < j < |PeerList(ids, peers, open, exclude)| ==>
      PeerList(ids, peers, open, exclude)[i].peerId != PeerList(ids, peers, open, exclude)[j].peerId
  {
    if ids != [] {
      var prefix, last := ids[..|ids| - 1], ids[|ids| - 1];
      assert ids == prefix + [last];
      if Distinct(ids) { DistinctPrefix(ids); }
      PeerListExactly(prefix, peers, open, exclude);
    }
  }

  /** Deleting a key removes exactly that key from the order. */
  lemma {:induction false} RemoveIdExactly(ids: seq<PeerId>, x: PeerId)
    ensures forall id :: id in RemoveId(ids, x) <==> id in ids && id != x
    ensures Distinct(ids) ==> Distinct(RemoveId(ids, x))
  {
    if ids != [] {
      var prefix, last := ids[..|ids| - 1], ids[|ids| - 1];
      assert ids == prefix + [last];
      if Distinct(ids) { DistinctPrefix(ids); }
      RemoveIdExactly(prefix, x);
    }
  }

  /** The sweep evicts exactly the silent registered ids it visits. */
  lemma {:induction false} IdleExactly(ids: seq<PeerId>, peers: map<PeerId, PeerRecord>, now: Time)
    ensures forall id :: id in Idle(ids, peers, now) <==> id in ids && Stale(peers, now, id)
  {
    if ids != [] {
      var prefix, last := ids[..|ids| - 1], ids[|ids| - 1];
      assert ids == prefix + [last];
      IdleExactly(prefix, peers, now);
    }
  }

  /** The sweep keeps exactly the registered ids that are not silent, in
      their order, each once when the ids are distinct. */
  lemma {:induction false} KeptExactly(ids: seq<PeerId>, peers: map<PeerId, PeerRecord>, now: Time)
    ensures forall id :: id in Kept(ids, peers, now) <==> id in ids && id in peers && !Silent(peers[id], now)
    ensures Distinct(ids) ==> Distinct(Kept(ids, peers, now))
  {
    if ids != [] {
      var prefix, last := ids[..|ids| - 1], ids[|ids| - 1];
      assert ids == prefix + [last];
      if Distinct(ids) { DistinctPrefix(ids); }
      KeptExactly(prefix, peers, now);
    }
  }

  /** Close number `k` of the sweep is that of evicted id number `k`. */
  lemma {:induction false} ClosesAt(ids: seq<PeerId>, peers: map<PeerId, PeerRecord>, now: Time)
    ensures |Closes(ids, peers, now)| == |Idle(ids, peers, now)|
    ensures forall k :: 0 <= k < |Idle(ids, peers, now)| ==>
      Idle(ids, peers, now)[k] in peers &&
      Closes(ids, peers, now)[k] == Disconnect(peers[Idle(ids, peers, now)[k]].conn)
  {
    if ids != [] {
      ClosesAt(ids[..|ids| - 1], peers, now);
    }
  }

  /** Eviction is final: a record live at a later time was live earlier. */
  lemma AliveLater(peers: map<PeerId, PeerRecord>, t1: Time, t2: Time)
    requires t1 <= t2
    ensures Alive(Alive(peers, t1), t2) == Alive(peers, t2)
  {
  }

  /** Filtering the order at a later time after filtering it at an earlier
      one is the same as filtering it only at the later time. */
  lemma {:induction false} KeptLater(ids: seq<PeerId>, peers: map<PeerId, PeerRecord>, t1: Time, t2: Time)
    requires t1 <= t2
    ensures Kept(Kept(ids, peers, t1), Alive(peers, t1), t2) == Kept(ids, peers, t2)
  {
    if ids != [] {
      var prefix, last := ids[..|ids| - 1], ids[|ids| - 1];
      KeptLater(prefix, peers, t1, t2);
      if last in peers && !Silent(peers[last], t1) {
        KeptSnoc(Kept(prefix, peers, t1), last, Alive(peers, t1), t2);
      } else {
        assert Kept(ids, peers, t1) == Kept(prefix, peers, t1);
        assert Kept(ids, peers, t2) == Kept(prefix, peers, t2);
      }
    }
  }

  /** A walk over ids none of which is silent closes nothing. */
  lemma {:induction false} ClosesNone(ids: seq<PeerId>, peers: map<PeerId, PeerRecord>, now: Time)
    requires forall id :: id in ids ==> !Stale(peers, now, id)
    ensures Closes(ids, peers, now) == []
  {
    if ids != [] {
      ClosesNone(ids[..|ids| - 1], peers, now);
      assert ids[|ids| - 1] in ids;
    }
  }

  // One more id visited: how each iteration of a `forEach` over `peers`
  // extends what the functions above describe.

  lemma SendsSnoc(ids: seq<PeerId>, x: PeerId, peers: map<PeerId, PeerRecord>, open: set<ConnId>, exclude: Option<PeerId>, m: Outbound)
    ensures Sends(ids + [x], peers, open, exclude, m)
         == Sends(ids, peers, open, exclude, m) + (if Reachable(peers, open, exclude, x) then [Send(peers[x].conn, m)] else [])
  {
  }

  lemma PeerListSnoc(ids: seq<PeerId>, x: PeerId, peers: map<PeerId, PeerRecord>, open: set<ConnId>, exclude: Option<PeerId>)
    ensures PeerList(ids + [x], peers, open, exclude)
         == PeerList(ids, peers, open, exclude) + (if Reachable(peers, open, exclude, x) then [PeerInfo(x, peers[x].publicKey)] else [])
  {
  }

  lemma KeptSnoc(ids: seq<PeerId>, x: PeerId, peers: map<PeerId, PeerRecord>, now: Time)
    ensures Kept(ids + [x], peers, now)
         == Kept(ids, peers, now) + (if x in peers && !Silent(peers[x], now) then [x] else [])
  {
  }

  lemma ClosesSnoc(ids: seq<PeerId>, x: PeerId, peers: map<PeerId, PeerRecord>, now: Time)
    ensures Closes(ids + [x], peers, now)
         == Closes(ids, peers, now) + (if Stale(peers, now, x) then [Disconnect(peers[x].conn)] else [])
    ensures ClosedConns(ids + [x], peers, now)
         == ClosedConns(ids, peers, now) + (if Stale(peers, now, x) then {peers[x].conn} else {})
    ensures SilentIds(ids + [x], peers, now)
         == SilentIds(ids, peers, now) + (if Stale(peers, now, x) then {x} else {})
  {
  }

  /** One step of the eviction walk over a listing of the registry: the
      `i`-th id is a key not visited before. */
  lemma EvictStep(ids: seq<PeerId>, i: nat, peers: map<PeerId, PeerRecord>, now: Time)
    requires Lists(ids, peers) && i < |ids|
    ensures ids[i] in peers && ids[i] !in SilentIds(ids[..i], peers, now)
  {
  }

  /** Visiting a silent id `ids[i]`: the walk deletes it, takes its socket
      out of `open0` and logs one close. */
  lemma EvictSilent(ids: seq<PeerId>, i: nat, peers: map<PeerId, PeerRecord>, now: Time,
                    open0: set<ConnId>, log0: seq<Action>)
    requires i < |ids| && Stale(peers, now, ids[i])
    ensures Kept(ids[..i + 1], peers, now) == Kept(ids[..i], peers, now)
    ensures peers - SilentIds(ids[..i + 1], peers, now) == (peers - SilentIds(ids[..i], peers, now)) - {ids[i]}
    ensures open0 - ClosedConns(ids[..i + 1], peers, now)
         == (open0 - ClosedConns(ids[..i], peers, now)) - {peers[ids[i]].conn}
    ensures log0 + Closes(ids[..i + 1], peers, now)
         == (log0 + Closes(ids[..i], peers, now)) + [Disconnect(peers[ids[i]].conn)]
  {
    assert ids[..i + 1] == ids[..i] + [ids[i]];
    KeptSnoc(ids[..i], ids[i], peers, now);
    ClosesSnoc(ids[..i], ids[i], peers, now);
  }

  /** Visiting a live id `ids[i]`: the walk keeps it and changes nothing else. */
  lemma EvictLive(ids: seq<PeerId>, i: nat, peers: map<PeerId, PeerRecord>, now: Time)
    requires i < |ids| && ids[i] in peers && !Silent(peers[ids[i]], now)
    ensures Kept(ids[..i + 1], peers, now) == Kept(ids[..i], peers, now) + [ids[i]]
    ensures SilentIds(ids[..i + 1], peers, now) == SilentIds(ids[..i], peers, now)
    ensures ClosedConns(ids[..i + 1], peers, now) == ClosedConns(ids[..i], peers, now)
    ensures Closes(ids[..i + 1], peers, now) == Closes(ids[..i], peers, now)
  {
    assert ids[..i + 1] == ids[..i] + [ids[i]];
    KeptSnoc(ids[..i], ids[i], peers, now);
    ClosesSnoc(ids[..i], ids[i], peers, now);
  }

  /** When `ids` lists the registry, deleting the silent ids it lists leaves
      exactly the live records. */
  lemma SilentIdsCoverAll(ids: seq<PeerId>, peers: map<PeerId, PeerRecord>, now: Time)
    requires Lists(ids, peers)
    ensures peers - SilentIds(ids, peers, now) == Alive(peers, now)
  {
  }
}
