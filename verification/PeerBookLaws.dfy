/** Whom the connection accounting lets through, and what each event changes, said by the sets, maps and
    limits alone. */
module PeerBookLaws {
  import opened Common
  import opened PeerBook

  const TWO_TO_32: nat := 0x1_0000_0000

  /** The number of connections at which a limit refuses; no limit is the largest 32-bit number. */
  function Bound(limit: Option<U32>): nat { if limit.Some? then limit.value else 0xffff_ffff }

  function CountOf(m: map<PeerId, set<ConnectionId>>, p: PeerId): nat { if p in m then |m[p]| else 0 }

  /** A connection reached its limit, with the count cut to 32 bits. */
  predicate AtLimit(count: nat, limit: Option<U32>) { count % TWO_TO_32 >= Bound(limit) }

  /** Below 2^32 a cut count is the count. */
  lemma {:induction false} AtLimitBelow(count: nat, limit: Option<U32>)
    requires count < TWO_TO_32
    ensures AtLimit(count, limit) <==> count >= Bound(limit)
  {
  }

  /** A whitelisted peer is let through in every state. */
  lemma {:induction false} WhitelistedPass(b: Book, id: ConnectionId, p: PeerId, incoming: bool)
    requires p in b.whitelist
    ensures Accepts(b, Admit(id, p, incoming)) && Accepts(b, PendingOutbound(id, Some(p)))
  {
  }

  /** Any other peer is refused exactly when its direction, its own connections or all connections have
      reached their limit. */
  lemma {:induction false} OthersRefusedAtTheLimit(b: Book, id: ConnectionId, p: PeerId, incoming: bool)
    requires p !in b.whitelist
    ensures !Accepts(b, Admit(id, p, incoming))
            <==> || (if incoming then AtLimit(|b.inbound|, b.limits.incoming) else AtLimit(|b.outbound|, b.limits.outgoing))
                 || AtLimit(CountOf(b.perPeer, p), b.limits.perPeer)
                 || AtLimit(|b.inbound| + |b.outbound|, b.limits.total)
  {
  }

  /** The same where the counts fit 32 bits. */
  lemma {:induction false} OthersRefusedBelow(b: Book, id: ConnectionId, p: PeerId, incoming: bool)
    requires p !in b.whitelist && |b.inbound| + |b.outbound| < TWO_TO_32 && CountOf(b.perPeer, p) < TWO_TO_32
    ensures !Accepts(b, Admit(id, p, incoming))
            <==> || (if incoming then |b.inbound| >= Bound(b.limits.incoming) else |b.outbound| >= Bound(b.limits.outgoing))
                 || CountOf(b.perPeer, p) >= Bound(b.limits.perPeer)
                 || |b.inbound| + |b.outbound| >= Bound(b.limits.total)
  {
    hide AtLimit, Accepts;
    OthersRefusedAtTheLimit(b, id, p, incoming);
    AtLimitBelow(|b.inbound|, b.limits.incoming);
    AtLimitBelow(|b.outbound|, b.limits.outgoing);
    AtLimitBelow(CountOf(b.perPeer, p), b.limits.perPeer);
    AtLimitBelow(|b.inbound| + |b.outbound|, b.limits.total);
  }

  /** Pending connections: inbound ones by their limit alone, dials to whitelisted peers always and others
      by theirs; a disconnection for a connected peer without a pending one. Nothing else is refused. */
  lemma {:induction false} PendingAccepted(b: Book, id: ConnectionId, peer: Option<PeerId>, p: PeerId)
    ensures Accepts(b, PendingInbound(id)) <==> !AtLimit(|b.pendingInbound|, b.limits.pendingIncoming)
    ensures Accepts(b, PendingOutbound(id, peer))
            <==> (peer.Some? && peer.value in b.whitelist) || !AtLimit(|b.pendingOutbound|, b.limits.pendingOutgoing)
    ensures Accepts(b, Disconnect(p)) <==> p in b.connections && p !in b.disconnecting
  {
  }

  // ---------------------------------------------------------------------------------------------
  // What changes

  /** Only the pending connections and dials change, by the id of the event. */
  lemma {:induction false} PendingEvents(b: Book, id: ConnectionId, peer: Option<PeerId>, p: PeerId, incoming: bool)
    ensures Apply(b, PendingInbound(id))
            == b.(pendingInbound := b.pendingInbound + if AtLimit(|b.pendingInbound|, b.limits.pendingIncoming) then {} else {id})
    ensures Apply(b, PendingOutbound(id, peer))
            == b.(pendingOutbound := b.pendingOutbound
                    + if (peer.Some? && peer.value in b.whitelist) || !AtLimit(|b.pendingOutbound|, b.limits.pendingOutgoing) then {id} else {})
    ensures Apply(b, Admit(id, p, true)) == b.(pendingInbound := b.pendingInbound - {id})
    ensures Apply(b, Admit(id, p, false)) == b.(pendingOutbound := b.pendingOutbound - {id})
    ensures Apply(b, DialFailed(id)) == b.(pendingOutbound := b.pendingOutbound - {id})
    ensures Apply(b, ListenFailed(id)) == b.(pendingInbound := b.pendingInbound - {id})
  {
    PendingAccepted(b, id, peer, p);
    hide Accepts, AtLimit;
    assert b.pendingInbound + {} == b.pendingInbound && b.pendingOutbound + {} == b.pendingOutbound;
  }

  lemma {:induction false} PeerEvents(b: Book, p: PeerId)
    ensures Apply(b, Disconnect(p)) == b.(disconnecting := b.disconnecting + if p in b.connections then {p} else {})
    ensures Apply(b, Allow(p)) == b.(whitelist := b.whitelist + {p})
    ensures Apply(b, Disallow(p)) == b.(whitelist := b.whitelist - {p})
  {
    if p in b.disconnecting {
      assert b.disconnecting + {p} == b.disconnecting;
    }
    assert b.disconnecting + {} == b.disconnecting;
  }

  /** An established connection joins the set of its direction, the end of its peer's list and its peer's
      set; nothing else changes. */
  lemma {:induction false} EstablishedEvent(b: Book, id: ConnectionId, p: PeerId, incoming: bool, address: Address)
    ensures var b1 := Apply(b, Established(id, p, incoming, address));
            && b1.inbound == b.inbound + (if incoming then {id} else {}) && b1.outbound == b.outbound + (if incoming then {} else {id})
            && b1.connections.Keys == b.connections.Keys + {p} && b1.perPeer.Keys == b.perPeer.Keys + {p}
            && b1.connections[p] == (if p in b.connections then b.connections[p] else []) + [(id, address)]
            && b1.perPeer[p] == (if p in b.perPeer then b.perPeer[p] else {}) + {id}
            && (forall q :: q in b.connections && q != p ==> b1.connections[q] == b.connections[q])
            && (forall q :: q in b.perPeer && q != p ==> b1.perPeer[q] == b.perPeer[q])
            && b1 == b.(inbound := b1.inbound, outbound := b1.outbound, connections := b1.connections, perPeer := b1.perPeer)
  {
  }

  /** The first place of a connection in a peer's list. */
  ghost predicate FirstAt(list: seq<(ConnectionId, Address)>, id: ConnectionId, at: nat) {
    at < |list| && list[at].0 == id && forall j :: 0 <= j < at ==> list[j].0 != id
  }

  /** The last connection of the list takes the place of the closed one. */
  lemma {:induction false} ListAfterClose(list: seq<(ConnectionId, Address)>, id: ConnectionId, at: nat)
    ensures (forall j :: 0 <= j < |list| ==> list[j].0 != id) ==> Without(list, id) == list
    ensures FirstAt(list, id, at) ==>
              && |Without(list, id)| == |list| - 1
              && forall j :: 0 <= j < |list| - 1 ==> Without(list, id)[j] == if j == at then list[|list| - 1] else list[j]
  {
  }

  /** A closed connection leaves the sets and its peer's list and set, and these go when they are empty; a
      pending disconnection of the peer ends; nothing else changes. */
  lemma {:induction false} ClosedEvent(b: Book, id: ConnectionId, p: PeerId)
    ensures var b1 := Apply(b, Closed(id, p));
            && b1.inbound == b.inbound - {id} && b1.outbound == b.outbound - {id} && b1.disconnecting == b.disconnecting - {p}
            && (forall q :: q != p ==> (q in b1.connections <==> q in b.connections) && (q in b1.perPeer <==> q in b.perPeer))
            && (forall q :: q != p && q in b.connections ==> b1.connections[q] == b.connections[q])
            && (forall q :: q != p && q in b.perPeer ==> b1.perPeer[q] == b.perPeer[q])
            && (p in b1.connections <==> p in b.connections && |Without(b.connections[p], id)| > 0)
            && (p in b1.connections ==> b1.connections[p] == Without(b.connections[p], id))
            && (p in b1.perPeer <==> p in b.perPeer && exists other :: other in b.perPeer[p] && other != id)
            && (p in b1.perPeer ==> b1.perPeer[p] == b.perPeer[p] - {id})
            && b1 == b.(inbound := b1.inbound, outbound := b1.outbound, connections := b1.connections, perPeer := b1.perPeer, disconnecting := b1.disconnecting)
  {
    hide Without;
    if p in b.perPeer && b.perPeer[p] - {id} != {} {
      var other :| other in b.perPeer[p] - {id};
      assert other in b.perPeer[p] && other != id;
    }
    if other :| p in b.perPeer && other in b.perPeer[p] && other != id {
      assert other in b.perPeer[p] - {id};
    }
  }
}
