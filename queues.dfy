/** The pending delivery store `pendingMessages`: one FIFO queue of relayed
    envelopes per destination id that was not reachable, drained when that id
    registers and pruned by age in the periodic sweep. */
module Queues {
  import opened Wrappers
  import opened Messages

  /** Strictly younger than the retention window at `now`. */
  predicate Young(e: Envelope, now: Time) {
    now - e.timestamp < MessageTtl
  }

  /** The queue filtered by age, the only pure step of the sweep. */
  function Fresh(q: seq<Envelope>, now: Time): (r: seq<Envelope>)
    ensures |r| <= |q|
  {
    if q == [] then []
    else (if Young(q[0], now) then [q[0]] else []) + Fresh(q[1..], now)
  }

  /** The filter keeps exactly the young envelopes. */
  lemma {:induction false} FreshKeepsExactly(q: seq<Envelope>, now: Time)
    ensures forall e :: e in Fresh(q, now) <==> e in q && Young(e, now)
  {
    if q != [] {
      FreshKeepsExactly(q[1..], now);
      assert q == [q[0]] + q[1..];
    }
  }

  /** The filter works piecewise, so it keeps the relative order of what it
      keeps: an envelope queued before another is still before it. */
  lemma {:induction false} FreshOfConcat(a: seq<Envelope>, b: seq<Envelope>, now: Time)
    ensures Fresh(a + b, now) == Fresh(a, now) + Fresh(b, now)
  {
    if a != [] {
      assert (a + b)[0] == a[0];
      assert (a + b)[1..] == a[1..] + b;
      FreshOfConcat(a[1..], b, now);
    } else {
      assert a + b == b;
    }
  }

  /** A filter that dropped nothing returned the queue itself, which is why
      the sweep may leave such a queue in place. */
  lemma {:induction false} FreshFullLength(q: seq<Envelope>, now: Time)
    requires |Fresh(q, now)| == |q|
    ensures Fresh(q, now) == q
  {
    if q != [] {
      assert |Fresh(q[1..], now)| <= |q| - 1;
      FreshFullLength(q[1..], now);
    }
  }

  /** Expiry is final: filtering at a later time after filtering at an earlier
      one is the same as filtering only at the later time. */
  lemma {:induction false} FreshLater(q: seq<Envelope>, t1: Time, t2: Time)
    requires t1 <= t2
    ensures Fresh(Fresh(q, t1), t2) == Fresh(q, t2)
  {
    if q != [] {
      var head := if Young(q[0], t1) then [q[0]] else [];
      FreshOfConcat(head, Fresh(q[1..], t1), t2);
      FreshLater(q[1..], t1, t2);
    }
  }

  /** The pending store after the sweep: each queue filtered by age, and the
      queues left empty removed. */
  function Prune(pending: map<PeerId, seq<Envelope>>, now: Time): (r: map<PeerId, seq<Envelope>>)
    ensures forall k :: k in r ==> r[k] != []
    ensures forall k :: k in r <==> k in pending && Fresh(pending[k], now) != []
  {
    map k | k in pending && Fresh(pending[k], now) != [] :: Fresh(pending[k], now)
  }

  /** Pruning at a later time after pruning at an earlier one is the same as
      pruning only at the later time. */
  lemma PruneLater(pending: map<PeerId, seq<Envelope>>, t1: Time, t2: Time)
    requires t1 <= t2
    ensures Prune(Prune(pending, t1), t2) == Prune(pending, t2)
  {
    forall k | k in pending
      ensures Fresh(Fresh(pending[k], t1), t2) == Fresh(pending[k], t2)
    {
      FreshLater(pending[k], t1, t2);
    }
  }

  /** The queue held for `to`, empty when there is none. */
  function Queued(pending: map<PeerId, seq<Envelope>>, to: PeerId): seq<Envelope> {
    if to in pending then pending[to] else []
  }

  /** The store after appending `env` to the queue of `to`, creating the
      queue when absent. */
  function Enqueue(pending: map<PeerId, seq<Envelope>>, to: PeerId, env: Envelope): map<PeerId, seq<Envelope>> {
    pending[to := Queued(pending, to) + [env]]
  }

  /** The sends that hand a drained queue to a socket, in queue order. */
  function Deliveries(c: ConnId, q: seq<Envelope>): seq<Action> {
    if q == [] then []
    else Deliveries(c, q[..|q| - 1]) + [Send(c, Message(q[|q| - 1]))]
  }

  /** Send number `k` of a drain hands envelope number `k` to the socket. */
  lemma {:induction false} DeliveriesAt(c: ConnId, q: seq<Envelope>)
    ensures |Deliveries(c, q)| == |q|
    ensures forall k :: 0 <= k < |q| ==> Deliveries(c, q)[k] == Send(c, Message(q[k]))
  {
    if q != [] {
      DeliveriesAt(c, q[..|q| - 1]);
    }
  }

  lemma DeliveriesSnoc(c: ConnId, q: seq<Envelope>, e: Envelope)
    ensures Deliveries(c, q + [e]) == Deliveries(c, q) + [Send(c, Message(e))]
  {
  }
}
