/** What every reachable state of the connection accounting satisfies. */
module PeerBookRuns {
  import opened Common
  import opened PeerBook

  // ---------------------------------------------------------------------------------------------
  // The indexes agree

  function Ids(list: seq<(ConnectionId, Address)>): set<ConnectionId> {
    if list == [] then {} else {list[0].0} + Ids(list[1..])
  }

  ghost predicate NoRepeats(list: seq<(ConnectionId, Address)>) {
    forall i, j :: 0 <= i < j < |list| ==> list[i].0 != list[j].0
  }

  /** The connections of one peer belong to no other. */
  ghost predicate Apart(perPeer: map<PeerId, set<ConnectionId>>) {
    forall p, q, id :: p in perPeer && q in perPeer && id in perPeer[p] && id in perPeer[q] ==> p == q
  }

  ghost predicate Owned(perPeer: map<PeerId, set<ConnectionId>>, id: ConnectionId) {
    exists p :: p in perPeer && id in perPeer[p]
  }

  /** Inbound and outbound connections are disjoint and partitioned by peer; the lists hold the same
      ids, once each, and are never empty; a pending disconnection has an open connection. */
  ghost predicate Consistent(b: Book) {
    && b.inbound !! b.outbound
    && Apart(b.perPeer)
    && (forall id :: id in b.inbound + b.outbound <==> Owned(b.perPeer, id))
    && b.connections.Keys == b.perPeer.Keys
    && (forall p :: p in b.perPeer ==> b.perPeer[p] != {})
    && (forall p :: p in b.connections ==> Ids(b.connections[p]) == b.perPeer[p] && NoRepeats(b.connections[p]))
    && b.disconnecting <= b.connections.Keys
  }

  /** The swarm's side: new connections have new ids, and a closed connection, if it was established,
      is reported for its own peer. */
  ghost predicate Legal(b: Book, e: Event) {
    match e
    case Established(id, _, _, _) => id !in b.inbound + b.outbound
    case Closed(id, p) => forall q :: q in b.perPeer && id in b.perPeer[q] ==> q == p
    case _ => true
  }

  lemma {:induction false} IdsMember(list: seq<(ConnectionId, Address)>)
    ensures forall id :: id in Ids(list) <==> exists i :: 0 <= i < |list| && list[i].0 == id
  {
    if list != [] {
      IdsMember(list[1..]);
      forall id
        ensures id in Ids(list) <==> exists i :: 0 <= i < |list| && list[i].0 == id
      {
        if i :| 0 <= i < |list| && list[i].0 == id {
          if i > 0 {
            assert list[1..][i - 1].0 == id;
          }
        }
        if id in Ids(list[1..]) {
          var i :| 0 <= i < |list| - 1 && list[1..][i].0 == id;
          assert list[i + 1].0 == id;
        }
      }
    }
  }

  lemma {:induction false} ListAppend(list: seq<(ConnectionId, Address)>, c: (ConnectionId, Address))
    requires NoRepeats(list) && c.0 !in Ids(list)
    ensures Ids(list + [c]) == Ids(list) + {c.0} && NoRepeats(list + [c])
  {
    IdsMember(list);
    IdsMember(list + [c]);
    var all := list + [c];
    forall id
      ensures id in Ids(all) <==> id in Ids(list) + {c.0}
    {
      if id in Ids(list) {
        var i :| 0 <= i < |list| && list[i].0 == id;
        assert all[i].0 == id;
      }
      assert all[|list|].0 == c.0;
    }
  }

  /** Moving the last element into the gap loses exactly the removed connection. */
  lemma {:induction false} ListWithout(list: seq<(ConnectionId, Address)>, id: ConnectionId)
    requires NoRepeats(list)
    ensures Ids(Without(list, id)) == Ids(list) - {id} && NoRepeats(Without(list, id))
  {
    var r := Without(list, id);
    IdsMember(list);
    IdsMember(r);
    var at := IndexOf(list, id);
    if at < |list| {
      assert forall j :: 0 <= j < |r| ==> r[j] == if j == at then list[|list| - 1] else list[j];
      forall x
        ensures x in Ids(r) <==> x in Ids(list) - {id}
      {
        if x in Ids(list) && x != id {
          var i :| 0 <= i < |list| && list[i].0 == x;
          assert r[if i == |list| - 1 then at else i].0 == x;
        }
      }
    }
  }

  lemma {:induction false} EmptyList(list: seq<(ConnectionId, Address)>)
    ensures list == [] <==> Ids(list) == {}
  {
  }

  lemma {:induction false} AddOwned(m: map<PeerId, set<ConnectionId>>, p: PeerId, id: ConnectionId)
    requires Apart(m) && !Owned(m, id)
    ensures Apart(AddTo(m, p, id))
    ensures forall x :: Owned(AddTo(m, p, id), x) <==> Owned(m, x) || x == id
  {
    var m1 := AddTo(m, p, id);
    assert p in m1 && id in m1[p];
    forall x
      ensures Owned(m1, x) <==> Owned(m, x) || x == id
    {
      if Owned(m, x) {
        var q :| q in m && x in m[q];
        assert q in m1 && x in m1[q];
      }
    }
  }

  lemma {:induction false} RemoveOwned(m: map<PeerId, set<ConnectionId>>, p: PeerId, id: ConnectionId)
    requires Apart(m) && forall q :: q in m && id in m[q] ==> q == p
    ensures Apart(RemoveFrom(m, p, id))
    ensures forall x :: Owned(RemoveFrom(m, p, id), x) <==> Owned(m, x) && x != id
  {
    var m1 := RemoveFrom(m, p, id);
    forall x
      ensures Owned(m1, x) <==> Owned(m, x) && x != id
    {
      if Owned(m, x) && x != id {
        var q :| q in m && x in m[q];
        assert q == p ==> x in m[q] - {id};
        assert q in m1 && x in m1[q];
      }
    }
  }

  lemma {:induction false} EstablishedLists(b: Book, e: Event)
    requires Consistent(b) && e.Established? && Legal(b, e)
    ensures var b1 := Apply(b, e);
            && b1.connections.Keys == b1.perPeer.Keys == b.connections.Keys + {e.peerId}
            && forall p :: p in b1.connections ==> Ids(b1.connections[p]) == b1.perPeer[p] && NoRepeats(b1.connections[p])
  {
    var p := e.peerId;
    assert !Owned(b.perPeer, e.id);
    assert p in b.connections ==> e.id !in b.perPeer[p];
    ListAppend(if p in b.connections then b.connections[p] else [], (e.id, e.address));
  }

  lemma {:induction false} EstablishedKeeps(b: Book, e: Event)
    requires Consistent(b) && e.Established? && Legal(b, e)
    ensures Consistent(Apply(b, e))
  {
    hide Ids, NoRepeats, Owned, Apart, AddTo;
    assert !Owned(b.perPeer, e.id);
    EstablishedLists(b, e);
    AddOwned(b.perPeer, e.peerId, e.id);
    AddNonEmpty(b.perPeer, e.peerId, e.id);
  }

  lemma {:induction false} AddNonEmpty(m: map<PeerId, set<ConnectionId>>, p: PeerId, id: ConnectionId)
    requires forall q :: q in m ==> m[q] != {}
    ensures forall q :: q in AddTo(m, p, id) ==> AddTo(m, p, id)[q] != {}
  {
    assert id in AddTo(m, p, id)[p];
  }

  lemma {:induction false} ClosedLists(b: Book, id: ConnectionId, p: PeerId)
    requires Consistent(b)
    ensures var b1 := Apply(b, Closed(id, p));
            && b1.connections.Keys == b1.perPeer.Keys
            && b1.connections.Keys >= b.connections.Keys - {p}
            && forall q :: q in b1.connections ==> Ids(b1.connections[q]) == b1.perPeer[q] && NoRepeats(b1.connections[q])
  {
    if p in b.connections {
      hide NoRepeats;
      ListWithout(b.connections[p], id);
      EmptyList(Without(b.connections[p], id));
      hide Ids, Without;
    }
  }

  lemma {:induction false} ClosedKeeps(b: Book, e: Event)
    requires Consistent(b) && e.Closed? && Legal(b, e)
    ensures Consistent(Apply(b, e))
  {
    hide Ids, NoRepeats, Without, Owned, Apart, RemoveFrom;
    ClosedLists(b, e.id, e.peerId);
    RemoveOwned(b.perPeer, e.peerId, e.id);
    RemoveNonEmpty(b.perPeer, e.peerId, e.id);
  }

  lemma {:induction false} RemoveNonEmpty(m: map<PeerId, set<ConnectionId>>, p: PeerId, id: ConnectionId)
    requires forall q :: q in m ==> m[q] != {}
    ensures forall q :: q in RemoveFrom(m, p, id) ==> RemoveFrom(m, p, id)[q] != {}
  {
  }

  /** Every event the swarm may send keeps the indexes in agreement. */
  lemma {:induction false} EventsKeepConsistent(b: Book, e: Event)
    requires Consistent(b) && Legal(b, e)
    ensures Consistent(Apply(b, e))
  {
    if e.Established? {
      EstablishedKeeps(b, e);
    } else if e.Closed? {
      ClosedKeeps(b, e);
    }
  }

  // ---------------------------------------------------------------------------------------------
  // Limits over whole runs

  /** What a connection was accepted for. */
  datatype Claim = Claim(peer: PeerId, incoming: bool)

  type Claims = map<ConnectionId, Claim>

  /** A run so far: the book; the connections accepted and in flight, that is neither established nor
      given up; the connections, open or in flight, whose peer was not whitelisted when they were
      accepted; and the dials let through for peers that were not whitelisted. */
  datatype Trace = Trace(book: Book, accepted: Claims, claims: Claims, dials: set<ConnectionId>)

  predicate Listed(b: Book, peer: Option<PeerId>) { peer.Some? && peer.value in b.whitelist }

  function NextAccepted(t: Trace, e: Event): Claims {
    match e
    case Admit(id, p, incoming) => if Accepts(t.book, e) then t.accepted[id := Claim(p, incoming)] else t.accepted
    case Established(id, _, _, _) => t.accepted - {id}
    case Closed(id, _) => t.accepted - {id}
    case DialFailed(id) => t.accepted - {id}
    case ListenFailed(id) => t.accepted - {id}
    case _ => t.accepted
  }

  function NextClaims(t: Trace, e: Event): Claims {
    match e
    case Admit(id, p, incoming) =>
      if Accepts(t.book, e) && p !in t.book.whitelist then t.claims[id := Claim(p, incoming)] else t.claims
    case Closed(id, _) => t.claims - {id}
    case DialFailed(id) => if id in t.accepted then t.claims - {id} else t.claims
    case ListenFailed(id) => if id in t.accepted then t.claims - {id} else t.claims
    case _ => t.claims
  }

  function NextDials(t: Trace, e: Event): set<ConnectionId> {
    match e
    case PendingOutbound(id, peer) => if Accepts(t.book, e) && !Listed(t.book, peer) then t.dials + {id} else t.dials
    case Admit(id, _, incoming) => if incoming then t.dials else t.dials - {id}
    case DialFailed(id) => t.dials - {id}
    case _ => t.dials
  }

  function Follow(t: Trace, e: Event): Trace {
    Trace(Apply(t.book, e), NextAccepted(t, e), NextClaims(t, e), NextDials(t, e))
  }

  /** The accepted connections of peers that were not whitelisted, as long as they are not established. */
  function InFlight(t: Trace): set<ConnectionId> { t.accepted.Keys * t.claims.Keys }

  /** The open connections whose peer was not whitelisted when they were accepted. */
  function Limited(t: Trace): set<ConnectionId> { t.claims.Keys - t.accepted.Keys }

  /** Every count the limits are compared with fits 32 bits. */
  ghost predicate Small(b: Book) {
    |b.inbound| + |b.outbound| < U32_LIMIT && |b.pendingInbound| < U32_LIMIT && |b.pendingOutbound| < U32_LIMIT
  }

  /** A new connection is accepted with a new id and established as what it was accepted for, and an
      accepted connection has at most `others` other ones in flight beside it. */
  ghost predicate InOrder(t: Trace, e: Event, others: nat) {
    && Legal(t.book, e) && Small(t.book)
    && (e.Admit? ==> e.id !in t.accepted && e.id !in t.claims)
    && (e.Established? ==> e.id in t.accepted && t.accepted[e.id] == Claim(e.peerId, e.incoming))
    && |InFlight(Follow(t, e))| <= others + 1
  }

  /** The count exceeds the limit by no more than `excess`. */
  ghost predicate AtMost(count: nat, limit: Option<U32>, excess: nat) {
    limit.Some? ==> count <= limit.value + excess
  }

  /** The limits on incoming, outgoing and all connections. */
  ghost predicate KindsAtMost(limited: set<ConnectionId>, b: Book, excess: nat) {
    && limited <= b.inbound + b.outbound
    && AtMost(|limited * b.inbound|, b.limits.incoming, excess)
    && AtMost(|limited * b.outbound|, b.limits.outgoing, excess)
    && AtMost(|limited|, b.limits.total, excess)
  }

  ghost predicate PeersAtMost(limited: set<ConnectionId>, b: Book, excess: nat) {
    forall p :: p in b.perPeer ==> AtMost(|limited * b.perPeer[p]|, b.limits.perPeer, excess)
  }

  ghost predicate PendingAtMost(b: Book, dials: set<ConnectionId>) {
    && AtMost(|b.pendingInbound|, b.limits.pendingIncoming, 0)
    && dials <= b.pendingOutbound && AtMost(|dials|, b.limits.pendingOutgoing, 0)
  }

  ghost predicate WithinLimits(t: Trace, excess: nat) {
    KindsAtMost(Limited(t), t.book, excess) && PeersAtMost(Limited(t), t.book, excess) && PendingAtMost(t.book, t.dials)
  }

  // ---------------------------------------------------------------------------------------------
  // The claims: where their connections are, and how many there are

  ghost predicate OpenAs(b: Book, id: ConnectionId, c: Claim) {
    id in (if c.incoming then b.inbound else b.outbound) && c.peer in b.perPeer && id in b.perPeer[c.peer]
  }

  ghost predicate ClaimsOk(b: Book, accepted: Claims, claims: Claims) {
    forall id :: id in claims ==> if id in accepted then accepted[id] == claims[id] else OpenAs(b, id, claims[id])
  }

  function OfKind(claims: Claims, incoming: bool): set<ConnectionId> {
    set id | id in claims && claims[id].incoming == incoming
  }

  function OfPeer(claims: Claims, p: PeerId): set<ConnectionId> {
    set id | id in claims && claims[id].peer == p
  }

  ghost predicate KindClaimsAtMost(claims: Claims, limits: Limits, excess: nat) {
    && AtMost(|OfKind(claims, true)|, limits.incoming, excess)
    && AtMost(|OfKind(claims, false)|, limits.outgoing, excess)
    && AtMost(|claims.Keys|, limits.total, excess)
  }

  ghost predicate PeerClaimsAtMost(claims: Claims, limits: Limits, excess: nat) {
    forall p :: AtMost(|OfPeer(claims, p)|, limits.perPeer, excess)
  }

  ghost predicate ClaimsAtMost(claims: Claims, limits: Limits, excess: nat) {
    KindClaimsAtMost(claims, limits, excess) && PeerClaimsAtMost(claims, limits, excess)
  }

  ghost predicate TraceOk(t: Trace, others: nat) {
    && Consistent(t.book) && ClaimsOk(t.book, t.accepted, t.claims)
    && ClaimsAtMost(t.claims, t.book.limits, others) && PendingAtMost(t.book, t.dials)
  }

  lemma {:induction false} SmallerSet<T>(a: set<T>, b: set<T>)
    requires a <= b
    ensures |a| <= |b|
  {
    assert b == a + (b - a);
    assert |b| == |a| + |b - a|;
  }

  /** What is counted is open or in flight, so one more, let through by the limit, exceeds it by at
      most the others in flight. */
  lemma {:induction false} RoomForOne(counted: set<ConnectionId>, held: set<ConnectionId>, flight: set<ConnectionId>, id: ConnectionId, limit: Option<U32>, others: nat)
    requires counted <= held + flight && |flight| <= others
    requires Admits(limit, |held|) && |held| < U32_LIMIT
    ensures AtMost(|counted + {id}|, limit, others)
  {
    SmallerSet(counted + {id}, held + flight + {id});
    assert |held + flight| <= |held| + |flight|;
    if limit.Some? {
      AdmitsBelowTheLimit(limit.value, |held|);
    }
  }

  lemma {:induction false} HeldSizes(b: Book, p: PeerId)
    requires Consistent(b) && Small(b)
    ensures |b.inbound + b.outbound| == |b.inbound| + |b.outbound| < U32_LIMIT
    ensures PeerCount(b, p) < U32_LIMIT
  {
    hide Ids, NoRepeats, Apart;
    if p in b.perPeer {
      forall id | id in b.perPeer[p]
        ensures id in b.inbound + b.outbound
      {
        assert Owned(b.perPeer, id);
      }
      SmallerSet(b.perPeer[p], b.inbound + b.outbound);
    }
  }

  /** The claims are held by the book or in flight. */
  lemma {:induction false} ClaimsHeld(t: Trace, p: PeerId)
    requires ClaimsOk(t.book, t.accepted, t.claims)
    ensures OfKind(t.claims, true) <= t.book.inbound + InFlight(t)
    ensures OfKind(t.claims, false) <= t.book.outbound + InFlight(t)
    ensures t.claims.Keys <= t.book.inbound + t.book.outbound + InFlight(t)
    ensures OfPeer(t.claims, p) <= (if p in t.book.perPeer then t.book.perPeer[p] else {}) + InFlight(t)
  {
  }

  lemma {:induction false} OneMoreClaim(claims: Claims, id: ConnectionId, c: Claim, p: PeerId)
    requires id !in claims
    ensures var more := claims[id := c];
            && OfKind(more, c.incoming) == OfKind(claims, c.incoming) + {id} && OfKind(more, !c.incoming) == OfKind(claims, !c.incoming)
            && more.Keys == claims.Keys + {id}
            && OfPeer(more, p) == if p == c.peer then OfPeer(claims, p) + {id} else OfPeer(claims, p)
  {
  }

  /** Accepting one more connection, counted among all. */
  lemma {:induction false} AcceptTotal(t: Trace, id: ConnectionId, c: Claim, others: nat)
    requires Consistent(t.book) && ClaimsOk(t.book, t.accepted, t.claims) && Small(t.book) && |InFlight(t)| <= others
    requires id !in t.claims && MayConnect(t.book, c.peer, c.incoming) && c.peer !in t.book.whitelist
    ensures AtMost(|t.claims[id := c].Keys|, t.book.limits.total, others)
  {
    hide Consistent, ClaimsOk, AtMost, Admits, InFlight, OfKind, OfPeer, Small;
    var b := t.book;
    HeldSizes(b, c.peer);
    ClaimsHeld(t, c.peer);
    RoomForOne(t.claims.Keys, b.inbound + b.outbound, InFlight(t), id, b.limits.total, others);
    assert t.claims[id := c].Keys == t.claims.Keys + {id};
  }

  /** The same, counted for its kind. */
  lemma {:induction false} AcceptKind(t: Trace, id: ConnectionId, c: Claim, others: nat)
    requires Consistent(t.book) && ClaimsOk(t.book, t.accepted, t.claims) && Small(t.book) && |InFlight(t)| <= others
    requires id !in t.claims && MayConnect(t.book, c.peer, c.incoming) && c.peer !in t.book.whitelist
    ensures AtMost(|OfKind(t.claims, c.incoming) + {id}|, if c.incoming then t.book.limits.incoming else t.book.limits.outgoing, others)
  {
    hide Consistent, ClaimsOk, AtMost, Admits, InFlight, OfKind, OfPeer;
    var b := t.book;
    ClaimsHeld(t, c.peer);
    if c.incoming {
      RoomForOne(OfKind(t.claims, true), b.inbound, InFlight(t), id, b.limits.incoming, others);
    } else {
      RoomForOne(OfKind(t.claims, false), b.outbound, InFlight(t), id, b.limits.outgoing, others);
    }
  }

  lemma {:induction false} AcceptKinds(t: Trace, id: ConnectionId, c: Claim, others: nat)
    requires Consistent(t.book) && ClaimsOk(t.book, t.accepted, t.claims) && Small(t.book)
    requires KindClaimsAtMost(t.claims, t.book.limits, others) && |InFlight(t)| <= others
    requires id !in t.claims && MayConnect(t.book, c.peer, c.incoming) && c.peer !in t.book.whitelist
    ensures KindClaimsAtMost(t.claims[id := c], t.book.limits, others)
  {
    hide Consistent, ClaimsOk, AtMost, Admits, InFlight, OfKind, OfPeer, Small, MayConnect;
    AcceptTotal(t, id, c, others);
    AcceptKind(t, id, c, others);
    OneMoreClaim(t.claims, id, c, c.peer);
  }

  /** The same, counted for its peer. */
  lemma {:induction false} AcceptPeers(t: Trace, id: ConnectionId, c: Claim, others: nat)
    requires Consistent(t.book) && ClaimsOk(t.book, t.accepted, t.claims) && Small(t.book)
    requires PeerClaimsAtMost(t.claims, t.book.limits, others) && |InFlight(t)| <= others
    requires id !in t.claims && MayConnect(t.book, c.peer, c.incoming) && c.peer !in t.book.whitelist
    ensures PeerClaimsAtMost(t.claims[id := c], t.book.limits, others)
  {
    hide Consistent, ClaimsOk, Small, AtMost, Admits, InFlight, OfKind, OfPeer;
    var b, more := t.book, t.claims[id := c];
    HeldSizes(b, c.peer);
    ClaimsHeld(t, c.peer);
    RoomForOne(OfPeer(t.claims, c.peer), if c.peer in b.perPeer then b.perPeer[c.peer] else {}, InFlight(t), id, b.limits.perPeer, others);
    forall p
      ensures AtMost(|OfPeer(more, p)|, b.limits.perPeer, others)
    {
      OneMoreClaim(t.claims, id, c, p);
      assert AtMost(|OfPeer(t.claims, p)|, b.limits.perPeer, others);
    }
  }

  lemma {:induction false} FewerClaims(claims: Claims, id: ConnectionId, limits: Limits, excess: nat)
    requires ClaimsAtMost(claims, limits, excess)
    ensures ClaimsAtMost(claims - {id}, limits, excess)
  {
    var less := claims - {id};
    SmallerSet(OfKind(less, true), OfKind(claims, true));
    SmallerSet(OfKind(less, false), OfKind(claims, false));
    SmallerSet(less.Keys, claims.Keys);
    forall p
      ensures AtMost(|OfPeer(less, p)|, limits.perPeer, excess)
    {
      SmallerSet(OfPeer(less, p), OfPeer(claims, p));
      assert AtMost(|OfPeer(claims, p)|, limits.perPeer, excess);
    }
  }

  lemma {:induction false} FlightGrows(accepted: Claims, claims: Claims, id: ConnectionId, c: Claim)
    requires id !in claims
    ensures |accepted[id := c].Keys * claims[id := c].Keys| == |accepted.Keys * claims.Keys| + 1
  {
    assert accepted[id := c].Keys * claims[id := c].Keys == accepted.Keys * claims.Keys + {id};
  }

  lemma {:induction false} FollowedClaims(t: Trace, e: Event, others: nat)
    requires TraceOk(t, others) && InOrder(t, e, others)
    ensures ClaimsAtMost(NextClaims(t, e), t.book.limits, others)
  {
    hide Consistent, ClaimsOk, PendingAtMost, Small, Legal, Apply, MayConnect, KindClaimsAtMost, PeerClaimsAtMost;
    if e.Admit? && Accepts(t.book, e) && e.peerId !in t.book.whitelist {
      var c := Claim(e.peerId, e.incoming);
      FlightGrows(t.accepted, t.claims, e.id, c);
      AcceptKinds(t, e.id, c, others);
      AcceptPeers(t, e.id, c, others);
    } else if e.Closed? || e.DialFailed? || e.ListenFailed? {
      FewerClaims(t.claims, e.id, t.book.limits, others);
    }
  }

  lemma {:induction false} ClaimsAfterEstablished(t: Trace, e: Event)
    requires ClaimsOk(t.book, t.accepted, t.claims) && e.Established?
    requires e.id in t.accepted && t.accepted[e.id] == Claim(e.peerId, e.incoming)
    ensures ClaimsOk(Apply(t.book, e), t.accepted - {e.id}, t.claims)
  {
    var b, b1 := t.book, Apply(t.book, e);
    forall id | id in t.claims && id !in t.accepted - {e.id}
      ensures OpenAs(b1, id, t.claims[id])
    {
      if id != e.id {
        assert OpenAs(b, id, t.claims[id]);
      }
    }
  }

  lemma {:induction false} ClaimsAfterClosed(t: Trace, id: ConnectionId, p: PeerId)
    requires ClaimsOk(t.book, t.accepted, t.claims)
    ensures ClaimsOk(Apply(t.book, Closed(id, p)), t.accepted - {id}, t.claims - {id})
  {
    var b, b1 := t.book, Apply(t.book, Closed(id, p));
    assert b1.inbound == b.inbound - {id} && b1.outbound == b.outbound - {id} && b1.perPeer == RemoveFrom(b.perPeer, p, id);
    hide Apply;
    forall x | x in t.claims - {id} && x !in t.accepted - {id}
      ensures OpenAs(b1, x, t.claims[x])
    {
      var c := t.claims[x];
      assert OpenAs(b, x, c);
      assert c.peer == p ==> x in b.perPeer[p] - {id};
    }
  }

  lemma {:induction false} FollowedBook(t: Trace, e: Event, others: nat)
    requires TraceOk(t, others) && InOrder(t, e, others)
    ensures var t1 := Follow(t, e); ClaimsOk(t1.book, t1.accepted, t1.claims)
  {
    hide Consistent, ClaimsAtMost, PendingAtMost, Small, InFlight;
    if e.Established? {
      hide ClaimsOk;
      ClaimsAfterEstablished(t, e);
    } else if e.Closed? {
      hide ClaimsOk;
      ClaimsAfterClosed(t, e.id, e.peerId);
    } else {
      OthersKeepOpen(t.book, e);
      hide Apply, OpenAs, Accepts, Legal;
    }
  }

  lemma {:induction false} OthersKeepOpen(b: Book, e: Event)
    requires !e.Established? && !e.Closed?
    ensures forall id, c :: OpenAs(b, id, c) ==> OpenAs(Apply(b, e), id, c)
  {
    hide Accepts;
  }

  lemma {:induction false} InboundPending(t: Trace, e: Event)
    requires Small(t.book) && AtMost(|t.book.pendingInbound|, t.book.limits.pendingIncoming, 0)
    ensures AtMost(|Apply(t.book, e).pendingInbound|, t.book.limits.pendingIncoming, 0)
  {
    var b, b1 := t.book, Apply(t.book, e);
    if e.PendingInbound? && Accepts(b, e) {
      RoomForOne(b.pendingInbound, b.pendingInbound, {}, e.id, b.limits.pendingIncoming, 0);
    } else {
      SmallerSet(b1.pendingInbound, b.pendingInbound);
    }
  }

  lemma {:induction false} OutboundPending(t: Trace, e: Event)
    requires Small(t.book) && t.dials <= t.book.pendingOutbound && AtMost(|t.dials|, t.book.limits.pendingOutgoing, 0)
    ensures NextDials(t, e) <= Apply(t.book, e).pendingOutbound
    ensures AtMost(|NextDials(t, e)|, t.book.limits.pendingOutgoing, 0)
  {
    if e.PendingOutbound? && Accepts(t.book, e) && !Listed(t.book, e.peer) {
      RoomForOne(t.dials, t.book.pendingOutbound, {}, e.id, t.book.limits.pendingOutgoing, 0);
    } else {
      SmallerSet(NextDials(t, e), t.dials);
    }
  }

  lemma {:induction false} LimitsStay(b: Book, e: Event)
    ensures Apply(b, e).limits == b.limits
  {
    hide Accepts;
  }

  /** Every event in order keeps the indexes in agreement and the claims within the limits. */
  lemma {:induction false} FollowKeeps(t: Trace, e: Event, others: nat)
    requires TraceOk(t, others) && InOrder(t, e, others)
    ensures TraceOk(Follow(t, e), others) && Follow(t, e).book.limits == t.book.limits
  {
    FollowedClaims(t, e, others);
    FollowedBook(t, e, others);
    hide Consistent, ClaimsOk, ClaimsAtMost, Apply, Accepts, NextDials, NextClaims, NextAccepted, Small, Legal, InFlight, AtMost;
    EventsKeepConsistent(t.book, e);
    LimitsStay(t.book, e);
    InboundPending(t, e);
    OutboundPending(t, e);
  }

  /** The open connections among the claims are counted by kind and by peer. */
  lemma {:induction false} OpenClaims(t: Trace, p: PeerId)
    requires Consistent(t.book) && ClaimsOk(t.book, t.accepted, t.claims)
    ensures Limited(t) <= t.book.inbound + t.book.outbound && Limited(t) <= t.claims.Keys
    ensures Limited(t) * t.book.inbound <= OfKind(t.claims, true)
    ensures Limited(t) * t.book.outbound <= OfKind(t.claims, false)
    ensures p in t.book.perPeer ==> Limited(t) * t.book.perPeer[p] <= OfPeer(t.claims, p)
  {
    hide Ids, NoRepeats, Owned;
    forall id | id in Limited(t)
      ensures OpenAs(t.book, id, t.claims[id])
    {
    }
  }

  lemma {:induction false} Fewer(a: set<ConnectionId>, b: set<ConnectionId>, limit: Option<U32>, excess: nat)
    requires a <= b && AtMost(|b|, limit, excess)
    ensures AtMost(|a|, limit, excess)
  {
    SmallerSet(a, b);
  }

  lemma {:induction false} ClaimsBoundTheBook(t: Trace, others: nat)
    requires TraceOk(t, others)
    ensures WithinLimits(t, others)
  {
    hide Consistent, ClaimsOk, PendingAtMost, AtMost, Limited, OfKind, OfPeer;
    var b := t.book;
    forall p
      ensures p in b.perPeer ==> AtMost(|Limited(t) * b.perPeer[p]|, b.limits.perPeer, others)
    {
      OpenClaims(t, p);
      if p in b.perPeer {
        Fewer(Limited(t) * b.perPeer[p], OfPeer(t.claims, p), b.limits.perPeer, others);
      }
    }
    OpenClaims(t, []);
    Fewer(Limited(t) * b.inbound, OfKind(t.claims, true), b.limits.incoming, others);
    Fewer(Limited(t) * b.outbound, OfKind(t.claims, false), b.limits.outgoing, others);
    Fewer(Limited(t), t.claims.Keys, b.limits.total, others);
  }

  function Begin(limits: Limits): Trace {
    Trace(Book(limits, {}, {}, {}, {}, {}, map[], map[], {}), map[], map[], {})
  }

  function FollowAll(t: Trace, es: seq<Event>): Trace
    decreases es
  {
    if es == [] then t else FollowAll(Follow(t, es[0]), es[1..])
  }

  ghost predicate AllInOrder(t: Trace, es: seq<Event>, others: nat)
    decreases es
  {
    es != [] ==> InOrder(t, es[0], others) && AllInOrder(Follow(t, es[0]), es[1..], others)
  }

  lemma {:induction false} RunKeeps(t: Trace, es: seq<Event>, others: nat)
    requires TraceOk(t, others) && AllInOrder(t, es, others)
    ensures TraceOk(FollowAll(t, es), others) && FollowAll(t, es).book.limits == t.book.limits
    decreases es
  {
    hide TraceOk, InOrder, Follow;
    if es != [] {
      FollowKeeps(t, es[0], others);
      RunKeeps(Follow(t, es[0]), es[1..], others);
    }
  }

  lemma {:induction false} BeginOk(limits: Limits, others: nat)
    ensures TraceOk(Begin(limits), others)
  {
    assert OfKind(map[], true) == {} && OfKind(map[], false) == {};
    assert forall p :: OfPeer(map[], p) == {};
  }

  /** In every reachable state the indexes agree, and the connections admitted for peers that were not
      whitelisted exceed no limit by more than the number of other connections that are ever in flight
      beside an accepted one: none does when connections are accepted and established one by one. */
  lemma {:induction false} EveryRun(limits: Limits, es: seq<Event>, others: nat)
    requires AllInOrder(Begin(limits), es, others)
    ensures var t := FollowAll(Begin(limits), es);
            Consistent(t.book) && WithinLimits(t, others) && t.book.limits == limits
  {
    hide ClaimsOk, ClaimsAtMost, WithinLimits, Consistent, PendingAtMost, AllInOrder, FollowAll;
    BeginOk(limits, others);
    RunKeeps(Begin(limits), es, others);
    ClaimsBoundTheBook(FollowAll(Begin(limits), es), others);
  }

  // ---------------------------------------------------------------------------------------------
  // The bound is reached: a burst of connections, all accepted before the first is established

  function Upto(n: nat): (s: set<ConnectionId>)
    ensures |s| == n && forall id: ConnectionId :: id in s <==> id < n
  {
    if n == 0 then {} else Upto(n - 1) + {n - 1}
  }

  function EstablishFrom(p: PeerId, j: nat, n: nat): seq<Event>
    decreases n - j
  {
    if j >= n then [] else [Established(j, p, true, "")] + EstablishFrom(p, j + 1, n)
  }

  function AdmitFrom(p: PeerId, i: nat, n: nat): seq<Event>
    decreases n - i
  {
    if i >= n then EstablishFrom(p, 0, n) else [Admit(i, p, true)] + AdmitFrom(p, i + 1, n)
  }

  const ONE_INCOMING := Limits(None, None, Some(1), None, None, None)

  /** The first `i` connections have been accepted. */
  ghost predicate Accepting(t: Trace, p: PeerId, i: nat) {
    && t.book.limits == ONE_INCOMING && t.book.whitelist == {}
    && t.book.inbound == {} && t.book.outbound == {} && t.book.perPeer == map[]
    && t.book.pendingInbound == {} && t.book.pendingOutbound == {}
    && t.accepted == t.claims && t.claims.Keys == Upto(i)
    && forall id :: id in t.claims ==> t.claims[id] == Claim(p, true)
  }

  /** Of `n` accepted connections the first `j` have been established. */
  ghost predicate Establishing(t: Trace, p: PeerId, j: nat, n: nat) {
    && t.book.inbound == Upto(j) && t.book.outbound == {}
    && t.book.pendingInbound == {} && t.book.pendingOutbound == {}
    && t.claims.Keys == Upto(n) && t.accepted.Keys == Upto(n) - Upto(j)
    && forall id :: id in t.accepted ==> t.accepted[id] == Claim(p, true)
  }

  lemma {:induction false} NextAccepting(t: Trace, p: PeerId, i: nat)
    requires Accepting(t, p, i)
    ensures Accepting(Follow(t, Admit(i, p, true)), p, i + 1)
  {
    var e := Admit(i, p, true);
    assert Accepts(t.book, e);
    assert Follow(t, e).claims.Keys == Upto(i + 1);
  }

  lemma {:induction false} AcceptsOneMore(t: Trace, p: PeerId, i: nat, n: nat)
    requires Accepting(t, p, i) && i < n
    ensures InOrder(t, Admit(i, p, true), n - 1) && Accepting(Follow(t, Admit(i, p, true)), p, i + 1)
  {
    hide Follow;
    NextAccepting(t, p, i);
    assert InFlight(Follow(t, Admit(i, p, true))) == Upto(i + 1);
  }

  lemma {:induction false} NextEstablishing(t: Trace, p: PeerId, j: nat, n: nat)
    requires Establishing(t, p, j, n) && j < n
    ensures Establishing(Follow(t, Established(j, p, true, "")), p, j + 1, n)
  {
    var t1 := Follow(t, Established(j, p, true, ""));
    assert t1.book.inbound == Upto(j + 1);
    assert t1.accepted.Keys == Upto(n) - Upto(j + 1);
  }

  lemma {:induction false} FlightWithin(t: Trace, p: PeerId, j: nat, n: nat)
    requires Establishing(t, p, j, n)
    ensures |InFlight(t)| <= n
  {
    SmallerSet(InFlight(t), Upto(n));
  }

  lemma {:induction false} EstablishesOneMore(t: Trace, p: PeerId, j: nat, n: nat)
    requires Establishing(t, p, j, n) && j < n < U32_LIMIT
    ensures InOrder(t, Established(j, p, true, ""), n - 1) && Establishing(Follow(t, Established(j, p, true, "")), p, j + 1, n)
  {
    hide Follow, Upto;
    NextEstablishing(t, p, j, n);
    FlightWithin(Follow(t, Established(j, p, true, "")), p, j + 1, n);
    assert j in t.accepted;
  }

  lemma {:induction false} RunFrom(t: Trace, e: Event, es: seq<Event>, others: nat)
    requires InOrder(t, e, others) && AllInOrder(Follow(t, e), es, others)
    ensures AllInOrder(t, [e] + es, others) && FollowAll(t, [e] + es) == FollowAll(Follow(t, e), es)
  {
    hide InOrder, Follow;
    assert ([e] + es)[1..] == es;
  }

  lemma {:induction false} NothingToRun(t: Trace, others: nat)
    ensures AllInOrder(t, [], others) && FollowAll(t, []) == t
  {
  }

  lemma {:induction false} EstablishingRuns(t: Trace, p: PeerId, j: nat, n: nat)
    requires Establishing(t, p, j, n) && j <= n && 0 < n < U32_LIMIT
    ensures AllInOrder(t, EstablishFrom(p, j, n), n - 1) && Establishing(FollowAll(t, EstablishFrom(p, j, n)), p, n, n)
    decreases n - j
  {
    hide Establishing, InOrder, Follow, AllInOrder, FollowAll;
    if j < n {
      var e := Established(j, p, true, "");
      EstablishesOneMore(t, p, j, n);
      EstablishingRuns(Follow(t, e), p, j + 1, n);
      RunFrom(t, e, EstablishFrom(p, j + 1, n), n - 1);
    } else {
      NothingToRun(t, n - 1);
    }
  }

  lemma {:induction false} AllAccepted(t: Trace, p: PeerId, n: nat)
    requires Accepting(t, p, n)
    ensures Establishing(t, p, 0, n)
  {
  }

  lemma {:induction false} NoneAccepted(p: PeerId)
    ensures Accepting(Begin(ONE_INCOMING), p, 0)
  {
  }

  lemma {:induction false} AllEstablished(t: Trace, p: PeerId, n: nat)
    requires Establishing(t, p, n, n)
    ensures |Limited(t) * t.book.inbound| == n
  {
    assert Limited(t) * t.book.inbound == Upto(n);
  }

  lemma {:induction false} AcceptingRuns(t: Trace, p: PeerId, i: nat, n: nat)
    requires Accepting(t, p, i) && i <= n && 0 < n < U32_LIMIT
    ensures AllInOrder(t, AdmitFrom(p, i, n), n - 1) && Establishing(FollowAll(t, AdmitFrom(p, i, n)), p, n, n)
    decreases n - i
  {
    hide Accepting, Establishing, InOrder, Follow, AllInOrder, FollowAll, EstablishFrom;
    if i < n {
      var e := Admit(i, p, true);
      AcceptsOneMore(t, p, i, n);
      AcceptingRuns(Follow(t, e), p, i + 1, n);
      RunFrom(t, e, AdmitFrom(p, i + 1, n), n - 1);
    } else {
      AllAccepted(t, p, n);
      EstablishingRuns(t, p, 0, n);
    }
  }

  /** For every number of others in flight there is a run in order that exceeds a limit by it. */
  lemma {:induction false} ExcessIsReached(p: PeerId, others: nat) returns (es: seq<Event>)
    requires others + 1 < U32_LIMIT
    ensures AllInOrder(Begin(ONE_INCOMING), es, others)
    ensures var t := FollowAll(Begin(ONE_INCOMING), es);
            |Limited(t) * t.book.inbound| == 1 + others && t.book.limits == ONE_INCOMING
  {
    hide AllInOrder, FollowAll, AdmitFrom, Consistent, WithinLimits, Accepting, Establishing, Begin, Limited;
    es := AdmitFrom(p, 0, others + 1);
    NoneAccepted(p);
    AcceptingRuns(Begin(ONE_INCOMING), p, 0, others + 1);
    AllEstablished(FollowAll(Begin(ONE_INCOMING), es), p, others + 1);
    EveryRun(ONE_INCOMING, es, others);
  }

  // ---------------------------------------------------------------------------------------------
  // The behaviour driven by events

  method Handle(book: Behaviour, e: Event) returns (ok: bool)
    modifies book
    ensures ok == Accepts(old(book.State()), e) && book.State() == Apply(old(book.State()), e)
  {
    hide Apply;
    ok := true;
    match e {
      case PendingInbound(id) => ok := book.HandlePendingInbound(id);
      case PendingOutbound(id, p) => ok := book.HandlePendingOutbound(id, p);
      case Admit(id, p, incoming) =>
        if incoming {
          ok := book.HandleEstablishedInbound(id, p);
        } else {
          ok := book.HandleEstablishedOutbound(id, p);
        }
      case Established(id, p, incoming, address) => book.OnEstablished(id, p, incoming, address);
      case Closed(id, p) => book.OnClosed(id, p);
      case DialFailed(id) => book.OnDialFailure(id);
      case ListenFailed(id) => book.OnListenFailure(id);
      case Disconnect(p) => ok := book.RequestDisconnect(p);
      case Allow(p) => book.SetWhitelisted(p, true);
      case Disallow(p) => book.SetWhitelisted(p, false);
    }
  }

  /** Drives a new behaviour through a run; in order, it ends consistent and within its limits but for
      what was in flight. */
  method Drive(limits: Limits, es: seq<Event>, ghost others: nat) returns (book: Behaviour, ghost t: Trace)
    ensures fresh(book) && t == FollowAll(Begin(limits), es) && book.State() == t.book
    ensures AllInOrder(Begin(limits), es, others) ==> Consistent(book.State()) && WithinLimits(t, others)
  {
    hide Apply, Consistent, WithinLimits, InOrder;
    book := new Behaviour(limits);
    t := Begin(limits);
    assert es[0..] == es;
    for i := 0 to |es|
      invariant fresh(book) && book.State() == t.book
      invariant FollowAll(Begin(limits), es) == FollowAll(t, es[i..])
    {
      assert es[i..][0] == es[i] && es[i..][1..] == es[i + 1..];
      t := Follow(t, es[i]);
      var _ := Handle(book, es[i]);
    }
    if AllInOrder(Begin(limits), es, others) {
      EveryRun(limits, es, others);
    }
  }
}
