/** The registry implementation (MapTPAManager<T>): a two-level map from
    receiver to (sender to request), updated in place.

    Flatten turns the two-level store into the flat view of the interface
    contract (Manager.Pending); each method states both its concrete new
    store and its effect on that view. An inner map emptied by removeRequest
    is kept, as in the source; it is invisible in the view. */
module MapManager {
  import opened Manager

  /** receiver -> (sender -> request) */
  type Store<T> = map<Uuid, map<Uuid, TPARequest<T>>>

  /** A request found under receiver key r and sender key s is the request
      from s to r. */
  ghost predicate StoreKeyed<T>(m: Store<T>) {
    forall r, s :: r in m && s in m[r] ==> m[r][s].sender == s && m[r][s].receiver == r
  }

  /** The flat (sender, receiver) view of a store. */
  function Flatten<T>(m: Store<T>): Pending<T> {
    map r, s | r in m && s in m[r] :: Pair(s, r) := m[r][s]
  }

  /** Looking a pair up in the flat view is looking it up in the receiver's
      inner map; a receiver without an inner map has no requests. */
  lemma FlattenAt<T>(m: Store<T>, sender: Uuid, receiver: Uuid)
    ensures Pair(sender, receiver) in Flatten(m) <==> receiver in m && sender in m[receiver]
    ensures Pair(sender, receiver) in Flatten(m) ==> Flatten(m)[Pair(sender, receiver)] == m[receiver][sender]
  {
    if Pair(sender, receiver) in Flatten(m) {
      var r, s :| r in m && s in m[r] && Pair(s, r) == Pair(sender, receiver);
    }
  }

  /** The concrete keying invariant is the interface's one, read on the view. */
  lemma FlattenKeyed<T>(m: Store<T>)
    ensures StoreKeyed(m) <==> WellKeyed(Flatten(m))
  {
    if StoreKeyed(m) {
      forall k | k in Flatten(m) ensures PairOf(Flatten(m)[k]) == k {
        FlattenAt(m, k.sender, k.receiver);
      }
    }
    if WellKeyed(Flatten(m)) {
      forall r, s | r in m && s in m[r] ensures m[r][s].sender == s && m[r][s].receiver == r {
        FlattenAt(m, s, r);
      }
    }
  }

  /** Writing one request into a receiver's inner map writes that one pair of
      the view. */
  lemma FlattenPut<T>(m: Store<T>, sender: Uuid, receiver: Uuid, q: TPARequest<T>)
    ensures Flatten(m[receiver := InnerOf(m, receiver)[sender := q]]) == Flatten(m)[Pair(sender, receiver) := q]
  {
    var m' := m[receiver := InnerOf(m, receiver)[sender := q]];
    var lhs, rhs := Flatten(m'), Flatten(m)[Pair(sender, receiver) := q];
    forall k | k in lhs ensures k in rhs && lhs[k] == rhs[k] {
      FlattenAt(m', k.sender, k.receiver);
      FlattenAt(m, k.sender, k.receiver);
    }
    forall k | k in rhs ensures k in lhs {
      FlattenAt(m', k.sender, k.receiver);
      FlattenAt(m, k.sender, k.receiver);
    }
  }

  /** Storing the request from s to r under keys r and s keeps the store keyed. */
  lemma PutKeepsKeyed<T>(m: Store<T>, sender: Uuid, receiver: Uuid, q: TPARequest<T>)
    requires StoreKeyed(m) && q.sender == sender && q.receiver == receiver
    ensures StoreKeyed(m[receiver := InnerOf(m, receiver)[sender := q]])
  {
  }

  /** Deleting a sender from a receiver's inner map (kept even when it becomes
      empty) deletes that one pair of the view. */
  lemma FlattenDelete<T>(m: Store<T>, sender: Uuid, receiver: Uuid)
    requires receiver in m
    ensures Flatten(m[receiver := m[receiver] - {sender}]) == Flatten(m) - {Pair(sender, receiver)}
  {
    var m' := m[receiver := m[receiver] - {sender}];
    var lhs, rhs := Flatten(m'), Flatten(m) - {Pair(sender, receiver)};
    forall k | k in lhs ensures k in rhs && lhs[k] == rhs[k] {
      FlattenAt(m', k.sender, k.receiver);
      FlattenAt(m, k.sender, k.receiver);
    }
    forall k | k in rhs ensures k in lhs {
      FlattenAt(m', k.sender, k.receiver);
      FlattenAt(m, k.sender, k.receiver);
    }
  }

  /** Dropping a receiver's inner map drops every pair (., receiver) of the
      view, and that inner map's values are exactly the requests to it. */
  lemma FlattenDropReceiver<T>(m: Store<T>, receiver: Uuid)
    ensures Flatten(m - {receiver}) == WithoutReceiver(Flatten(m), receiver)
    ensures AddressedTo(Flatten(m), receiver) == InnerOf(m, receiver).Values
  {
    var lhs, rhs := Flatten(m - {receiver}), WithoutReceiver(Flatten(m), receiver);
    forall k | k in lhs ensures k in rhs && lhs[k] == rhs[k] {
      FlattenAt(m - {receiver}, k.sender, k.receiver);
      FlattenAt(m, k.sender, k.receiver);
    }
    forall k | k in rhs ensures k in lhs {
      FlattenAt(m - {receiver}, k.sender, k.receiver);
      FlattenAt(m, k.sender, k.receiver);
    }
    var got, inner := AddressedTo(Flatten(m), receiver), InnerOf(m, receiver);
    forall q | q in got ensures q in inner.Values {
      var k :| k in Flatten(m) && k.receiver == receiver && Flatten(m)[k] == q;
      FlattenAt(m, k.sender, k.receiver);
    }
    forall q | q in inner.Values ensures q in got {
      var s :| s in inner && inner[s] == q;
      FlattenAt(m, s, receiver);
    }
  }

  /** The receiver's inner map, or an empty one (computeIfAbsent's default). */
  function InnerOf<T>(m: Store<T>, receiver: Uuid): map<Uuid, TPARequest<T>> {
    if receiver in m then m[receiver] else map[]
  }

  class MapTPAManager<T(==)> {
    var tpaMap: Store<T>
    /** What getRequest observes: the flat view of tpaMap. */
    ghost var pending: Pending<T>

    ghost predicate Valid()
      reads this
    {
      StoreKeyed(tpaMap) && pending == Flatten(tpaMap)
    }

    constructor ()
      ensures Valid() && tpaMap == map[] && pending == map[]
    {
      tpaMap := map[];
      pending := map[];
    }

    /** addRequest: stores (sender, receiver, direction, data) under its pair,
        replacing any request the pair had; reports whether there was one. */
    method AddRequest(sender: Uuid, receiver: Uuid, direction: TPADirection, data: T) returns (replaced: bool)
      requires Valid()
      modifies this
      ensures Valid()
      ensures tpaMap == old(tpaMap)[receiver := InnerOf(old(tpaMap), receiver)[sender := TPARequest(sender, receiver, direction, data)]]
      ensures replaced <==> Pair(sender, receiver) in old(pending)
      ensures pending == Added(old(pending), sender, receiver, direction, data)
    {
      var request := TPARequest(sender, receiver, direction, data);
      FlattenAt(tpaMap, sender, receiver);
      FlattenPut(tpaMap, sender, receiver, request);
      PutKeepsKeyed(tpaMap, sender, receiver, request);
      var receiverMap := InnerOf(tpaMap, receiver);
      replaced := sender in receiverMap;
      tpaMap := tpaMap[receiver := receiverMap[sender := request]];
      pending := Added(pending, sender, receiver, direction, data);
    }

    /** getRequest: the pair's request, or nothing when the receiver has no
        inner map or that map has no entry for the sender. */
    method GetRequest(sender: Uuid, receiver: Uuid) returns (request: Option<TPARequest<T>>)
      ensures request.None? <==> receiver !in tpaMap || sender !in tpaMap[receiver]
      ensures request.Some? ==> request.value == tpaMap[receiver][sender]
      ensures request == Get(Flatten(tpaMap), sender, receiver)
      ensures Valid() ==> request == Get(pending, sender, receiver)
    {
      FlattenAt(tpaMap, sender, receiver);
      if receiver !in tpaMap {
        return None;
      }
      var receiverMap := tpaMap[receiver];
      request := if sender in receiverMap then Some(receiverMap[sender]) else None;
    }

    /** removeRequest: deletes the pair's request and reports whether there
        was one. The receiver's inner map stays, even when emptied. */
    method RemoveRequest(sender: Uuid, receiver: Uuid) returns (removed: bool)
      requires Valid()
      modifies this
      ensures Valid()
      ensures tpaMap == if receiver in old(tpaMap) then old(tpaMap)[receiver := old(tpaMap)[receiver] - {sender}]
                        else old(tpaMap)
      ensures removed <==> Pair(sender, receiver) in old(pending)
      ensures pending == Removed(old(pending), sender, receiver)
    {
      FlattenAt(tpaMap, sender, receiver);
      if receiver !in tpaMap {
        return false;
      }
      FlattenDelete(tpaMap, sender, receiver);
      var receiverMap := tpaMap[receiver];
      removed := sender in receiverMap;
      tpaMap := tpaMap[receiver := receiverMap - {sender}];
      pending := Removed(pending, sender, receiver);
    }

    /** removeRequestsBySender: an unimplemented stub; it hands back an empty
        collection and removes nothing. */
    method RemoveRequestsBySender(sender: Uuid) returns (requests: set<TPARequest<T>>)
      ensures requests == {}
    {
      requests := {};
    }

    /** removeRequestsToReceiver: drops the receiver's inner map and hands back
        exactly the requests that were addressed to it (none if it had no map). */
    method RemoveRequestsToReceiver(receiver: Uuid) returns (requests: set<TPARequest<T>>)
      requires Valid()
      modifies this
      ensures Valid()
      ensures tpaMap == old(tpaMap) - {receiver}
      ensures receiver !in old(tpaMap) ==> requests == {}
      ensures requests == AddressedTo(old(pending), receiver)
      ensures pending == WithoutReceiver(old(pending), receiver)
    {
      FlattenDropReceiver(tpaMap, receiver);
      if receiver !in tpaMap {
        pending := WithoutReceiver(pending, receiver);
        return {};
      }
      var receiverMap := tpaMap[receiver];
      tpaMap := tpaMap - {receiver};
      pending := WithoutReceiver(pending, receiver);
      requests := receiverMap.Values;
    }
  }
}
