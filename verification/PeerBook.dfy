/** Connection accounting: the indexes of live connections and the swarm events that update them. */
module PeerBook {
  import opened Common

  type PeerId = Bytes
  type ConnectionId = nat
  type Address = string

  const U32_LIMIT: nat := 0x1_0000_0000

  type U32 = x: nat | x < U32_LIMIT

  datatype Limits = Limits(
    pendingIncoming: Option<U32>,
    pendingOutgoing: Option<U32>,
    incoming: Option<U32>,
    outgoing: Option<U32>,
    perPeer: Option<U32>,
    total: Option<U32>)

  /** The state of the behaviour. */
  datatype Book = Book(
    limits: Limits,
    whitelist: set<PeerId>,
    pendingInbound: set<ConnectionId>,
    pendingOutbound: set<ConnectionId>,
    inbound: set<ConnectionId>,
    outbound: set<ConnectionId>,
    perPeer: map<PeerId, set<ConnectionId>>,
    connections: map<PeerId, seq<(ConnectionId, Address)>>,
    disconnecting: set<PeerId>)

  // ---------------------------------------------------------------------------------------------
  // Limits

  /** Counts are cut to 32 bits, and no limit is the largest 32-bit number. */
  predicate Admits(limit: Option<U32>, current: nat) {
    current % U32_LIMIT < (if limit.Some? then limit.value else U32_LIMIT - 1)
  }

  /** The check is a comparison with the limit exactly when the count fits 32 bits, or is refused anyway. */
  lemma {:induction false} AdmitsBelowTheLimit(limit: U32, current: nat)
    ensures (Admits(Some(limit), current) <==> current < limit) <==> current < U32_LIMIT || current % U32_LIMIT >= limit
    ensures current < U32_LIMIT ==> (Admits(None, current) <==> current != U32_LIMIT - 1)
  {
    if current < U32_LIMIT {
      assert current % U32_LIMIT == current;
    }
  }

  /** A count of exactly 2^32 passes for zero. */
  lemma {:induction false} CountsWrapAround()
    ensures Admits(Some(1), U32_LIMIT)
  {
  }

  function PeerCount(b: Book, p: PeerId): nat {
    if p in b.perPeer then |b.perPeer[p]| else 0
  }

  predicate MayConnect(b: Book, p: PeerId, incoming: bool) {
    || p in b.whitelist
    || (&& (if incoming then Admits(b.limits.incoming, |b.inbound|) else Admits(b.limits.outgoing, |b.outbound|))
        && Admits(b.limits.perPeer, PeerCount(b, p))
        && Admits(b.limits.total, |b.inbound| + |b.outbound|))
  }

  // ---------------------------------------------------------------------------------------------
  // Events

  datatype Event =
    | PendingInbound(id: ConnectionId)
    | PendingOutbound(id: ConnectionId, peer: Option<PeerId>)
    | Admit(id: ConnectionId, peerId: PeerId, incoming: bool)
    | Established(id: ConnectionId, peerId: PeerId, incoming: bool, address: Address)
    | Closed(id: ConnectionId, peerId: PeerId)
    | DialFailed(id: ConnectionId)
    | ListenFailed(id: ConnectionId)
    | Disconnect(peerId: PeerId)
    | Allow(peerId: PeerId)
    | Disallow(peerId: PeerId)

  /** The position of a connection in a peer's list, or the length of the list. */
  function IndexOf(list: seq<(ConnectionId, Address)>, id: ConnectionId): (i: nat)
    ensures i <= |list|
    ensures i < |list| ==> list[i].0 == id
    ensures forall j :: 0 <= j < i ==> list[j].0 != id
  {
    if list == [] || list[0].0 == id then 0 else 1 + IndexOf(list[1..], id)
  }

  /** Removes an element by moving the last one into its place. */
  function SwapRemove<T>(list: seq<T>, i: nat): (r: seq<T>)
    requires i < |list|
    ensures |r| == |list| - 1
  {
    list[i := list[|list| - 1]][..|list| - 1]
  }

  function Without(list: seq<(ConnectionId, Address)>, id: ConnectionId): seq<(ConnectionId, Address)> {
    if IndexOf(list, id) < |list| then SwapRemove(list, IndexOf(list, id)) else list
  }

  function AddTo<K, V>(m: map<K, set<V>>, k: K, v: V): map<K, set<V>> {
    m[k := (if k in m then m[k] else {}) + {v}]
  }

  /** Removes a value and, with the last one, its key. */
  function RemoveFrom<K, V>(m: map<K, set<V>>, k: K, v: V): map<K, set<V>> {
    if k in m && m[k] - {v} != {} then m[k := m[k] - {v}] else m - {k}
  }

  lemma {:induction false} RemovedFrom<K, V>(m: map<K, set<V>>, k: K, v: V)
    ensures var left := m[k := (if k in m then m[k] else {}) - {v}];
            RemoveFrom(m, k, v) == if left[k] == {} then left - {k} else left
  {
    var left := m[k := (if k in m then m[k] else {}) - {v}];
    assert left - {k} == m - {k};
  }

  /** What an event does to the indexes; whether a connection is let through is `Accepts`. */
  function Apply(b: Book, e: Event): Book {
    match e
    case PendingInbound(id) => if Accepts(b, e) then b.(pendingInbound := b.pendingInbound + {id}) else b
    case PendingOutbound(id, _) => if Accepts(b, e) then b.(pendingOutbound := b.pendingOutbound + {id}) else b
    case Admit(id, _, incoming) =>
      if incoming then b.(pendingInbound := b.pendingInbound - {id}) else b.(pendingOutbound := b.pendingOutbound - {id})
    case Established(id, p, incoming, address) =>
      b.(inbound := if incoming then b.inbound + {id} else b.inbound,
         outbound := if incoming then b.outbound else b.outbound + {id},
         connections := b.connections[p := (if p in b.connections then b.connections[p] else []) + [(id, address)]],
         perPeer := AddTo(b.perPeer, p, id))
    case Closed(id, p) =>
      b.(inbound := b.inbound - {id},
         outbound := b.outbound - {id},
         connections := (if p !in b.connections then b.connections
                         else if Without(b.connections[p], id) == [] then b.connections - {p}
                         else b.connections[p := Without(b.connections[p], id)]),
         perPeer := RemoveFrom(b.perPeer, p, id),
         disconnecting := b.disconnecting - {p})
    case DialFailed(id) => b.(pendingOutbound := b.pendingOutbound - {id})
    case ListenFailed(id) => b.(pendingInbound := b.pendingInbound - {id})
    case Disconnect(p) => if Accepts(b, e) then b.(disconnecting := b.disconnecting + {p}) else b
    case Allow(p) => b.(whitelist := b.whitelist + {p})
    case Disallow(p) => b.(whitelist := b.whitelist - {p})
  }

  /** Whether the call behind the event succeeds. */
  predicate Accepts(b: Book, e: Event) {
    match e
    case PendingInbound(_) => Admits(b.limits.pendingIncoming, |b.pendingInbound|)
    case PendingOutbound(_, p) => (p.Some? && p.value in b.whitelist) || Admits(b.limits.pendingOutgoing, |b.pendingOutbound|)
    case Admit(_, p, incoming) => MayConnect(b, p, incoming)
    case Disconnect(p) => p in b.connections && p !in b.disconnecting
    case _ => true
  }

  // ---------------------------------------------------------------------------------------------
  // The behaviour itself

  class Behaviour {
    var limits: Limits
    var whitelist: set<PeerId>
    var pendingInbound: set<ConnectionId>
    var pendingOutbound: set<ConnectionId>
    var inbound: set<ConnectionId>
    var outbound: set<ConnectionId>
    var perPeer: map<PeerId, set<ConnectionId>>
    var connections: map<PeerId, seq<(ConnectionId, Address)>>
    var disconnecting: set<PeerId>

    function State(): Book
      reads this
    {
      Book(limits, whitelist, pendingInbound, pendingOutbound, inbound, outbound, perPeer, connections, disconnecting)
    }

    constructor (limits: Limits)
      ensures State() == Book(limits, {}, {}, {}, {}, {}, map[], map[], {})
    {
      this.limits := limits;
      whitelist, pendingInbound, pendingOutbound, inbound, outbound := {}, {}, {}, {}, {};
      perPeer, connections, disconnecting := map[], map[], {};
    }

    method CheckLimit(limit: Option<U32>, current: nat) returns (r: bool)
      ensures r == Admits(limit, current)
    {
      var bound := if limit.Some? then limit.value else U32_LIMIT - 1;
      var cut := current % U32_LIMIT;
      r := cut < bound;
    }

    method HandlePendingInbound(id: ConnectionId) returns (ok: bool)
      modifies this
      ensures ok == Accepts(old(State()), PendingInbound(id))
      ensures State() == Apply(old(State()), PendingInbound(id))
    {
      ok := CheckLimit(limits.pendingIncoming, |pendingInbound|);
      if ok {
        pendingInbound := pendingInbound + {id};
      }
    }

    method HandlePendingOutbound(id: ConnectionId, peer: Option<PeerId>) returns (ok: bool)
      modifies this
      ensures ok == Accepts(old(State()), PendingOutbound(id, peer))
      ensures State() == Apply(old(State()), PendingOutbound(id, peer))
    {
      var whitelisted := false;
      if peer.Some? {
        whitelisted := peer.value in whitelist;
      }
      if !whitelisted {
        ok := CheckLimit(limits.pendingOutgoing, |pendingOutbound|);
        if !ok {
          return;
        }
      }
      pendingOutbound := pendingOutbound + {id};
      ok := true;
    }

    method HandleEstablishedInbound(id: ConnectionId, peer: PeerId) returns (ok: bool)
      modifies this
      ensures ok == Accepts(old(State()), Admit(id, peer, true))
      ensures State() == Apply(old(State()), Admit(id, peer, true))
      ensures peer in whitelist ==> ok
      ensures peer !in whitelist ==>
                (ok <==> && Admits(limits.incoming, |inbound|) && Admits(limits.perPeer, if peer in perPeer then |perPeer[peer]| else 0)
                         && Admits(limits.total, |inbound| + |outbound|))
    {
      pendingInbound := pendingInbound - {id};
      if peer !in whitelist {
        ok := CheckLimit(limits.incoming, |inbound|);
        if !ok {
          return;
        }
        ok := CheckLimit(limits.perPeer, if peer in perPeer then |perPeer[peer]| else 0);
        if !ok {
          return;
        }
        ok := CheckLimit(limits.total, |inbound| + |outbound|);
        if !ok {
          return;
        }
      }
      ok := true;
    }

    method HandleEstablishedOutbound(id: ConnectionId, peer: PeerId) returns (ok: bool)
      modifies this
      ensures ok == Accepts(old(State()), Admit(id, peer, false))
      ensures State() == Apply(old(State()), Admit(id, peer, false))
      ensures peer in whitelist ==> ok
      ensures peer !in whitelist ==>
                (ok <==> && Admits(limits.outgoing, |outbound|) && Admits(limits.perPeer, if peer in perPeer then |perPeer[peer]| else 0)
                         && Admits(limits.total, |inbound| + |outbound|))
    {
      pendingOutbound := pendingOutbound - {id};
      if peer !in whitelist {
        ok := CheckLimit(limits.outgoing, |outbound|);
        if !ok {
          return;
        }
        ok := CheckLimit(limits.perPeer, if peer in perPeer then |perPeer[peer]| else 0);
        if !ok {
          return;
        }
        ok := CheckLimit(limits.total, |inbound| + |outbound|);
        if !ok {
          return;
        }
      }
      ok := true;
    }

    method OnEstablished(id: ConnectionId, peer: PeerId, incoming: bool, address: Address)
      modifies this
      ensures State() == Apply(old(State()), Established(id, peer, incoming, address))
    {
      if incoming {
        inbound := inbound + {id};
      } else {
        outbound := outbound + {id};
      }
      connections := connections[peer := (if peer in connections then connections[peer] else []) + [(id, address)]];
      perPeer := perPeer[peer := (if peer in perPeer then perPeer[peer] else {}) + {id}];
    }

    method Position(list: seq<(ConnectionId, Address)>, id: ConnectionId) returns (i: nat)
      ensures i == IndexOf(list, id)
    {
      i := 0;
      assert list[0..] == list;
      while i < |list| && list[i].0 != id
        invariant i <= |list| && IndexOf(list, id) == i + IndexOf(list[i..], id)
      {
        assert list[i..][1..] == list[i + 1..];
        i := i + 1;
      }
    }

    method DropConnection(list: seq<(ConnectionId, Address)>, id: ConnectionId) returns (r: seq<(ConnectionId, Address)>)
      ensures r == Without(list, id)
    {
      r := list;
      var index := Position(list, id);
      if index < |list| {
        r := SwapRemove(list, index);
      }
    }

    method OnClosed(id: ConnectionId, peer: PeerId)
      modifies this
      ensures State() == Apply(old(State()), Closed(id, peer))
    {
      hide Without, RemoveFrom, Accepts;
      inbound, outbound := inbound - {id}, outbound - {id};
      perPeer := perPeer[peer := (if peer in perPeer then perPeer[peer] else {}) - {id}];
      if peer in connections {
        var list := DropConnection(connections[peer], id);
        connections := if list == [] then connections - {peer} else connections[peer := list];
      }
      RemovedFrom(old(perPeer), peer, id);
      if perPeer[peer] == {} {
        perPeer := perPeer - {peer};
      }
      disconnecting := disconnecting - {peer};
    }

    method OnDialFailure(id: ConnectionId)
      modifies this
      ensures State() == Apply(old(State()), DialFailed(id))
    {
      pendingOutbound := pendingOutbound - {id};
    }

    method OnListenFailure(id: ConnectionId)
      modifies this
      ensures State() == Apply(old(State()), ListenFailed(id))
    {
      pendingInbound := pendingInbound - {id};
    }

    /** The answer is immediate unless the disconnection is now pending. */
    method RequestDisconnect(peer: PeerId) returns (pending: bool)
      modifies this
      ensures pending == Accepts(old(State()), Disconnect(peer))
      ensures State() == Apply(old(State()), Disconnect(peer))
    {
      if peer !in connections {
        return false;
      }
      if peer in disconnecting {
        return false;
      }
      disconnecting := disconnecting + {peer};
      pending := true;
    }

    method SetWhitelisted(peer: PeerId, listed: bool)
      modifies this
      ensures State() == Apply(old(State()), if listed then Allow(peer) else Disallow(peer))
    {
      whitelist := if listed then whitelist + {peer} else whitelist - {peer};
    }
  }
}
