/** The shared types of the teleport-request registry and the contract of its
    interface (TPAManager<T>).

    A registry is observed by its callers as one map from a (sender, receiver)
    pair to the request stored for it, so it holds at most one request per pair.
    The functions below give the effect of each interface operation on that
    view; every implementation (MapManager.MapTPAManager) is proved against them. */
module Manager {

  /** java.util.UUID: two 64-bit halves. Identities are only compared. */
  datatype Uuid = Uuid(mostSigBits: int, leastSigBits: int)

  /** java.util.Optional: absence is an ordinary result, not an error. */
  datatype Option<+T> = None | Some(value: T)

  /** Which party is moved to the other once the request is accepted. */
  datatype TPADirection = ToSender | ToReceiver

  /** A request record: who asked, who must answer, the direction, and an
      opaque payload (the coordinator keeps the request's timer there).
      Being a datatype value, it cannot change after construction. */
  datatype TPARequest<T> = TPARequest(sender: Uuid, receiver: Uuid, direction: TPADirection, data: T)

  /** The key a request is stored under. */
  datatype Pair = Pair(sender: Uuid, receiver: Uuid)

  function PairOf<T>(q: TPARequest<T>): Pair {
    Pair(q.sender, q.receiver)
  }

  /** The registry as its callers observe it. */
  type Pending<T> = map<Pair, TPARequest<T>>

  /** Every stored request names the pair it is stored under. */
  ghost predicate WellKeyed<T>(p: Pending<T>) {
    forall k :: k in p ==> PairOf(p[k]) == k
  }

  /** getRequest */
  function Get<T>(p: Pending<T>, sender: Uuid, receiver: Uuid): Option<TPARequest<T>> {
    if Pair(sender, receiver) in p then Some(p[Pair(sender, receiver)]) else None
  }

  /** The view after addRequest: the pair's request is replaced, not merged. */
  function Added<T>(p: Pending<T>, sender: Uuid, receiver: Uuid, direction: TPADirection, data: T): Pending<T> {
    p[Pair(sender, receiver) := TPARequest(sender, receiver, direction, data)]
  }

  /** The view after removeRequest. */
  function Removed<T>(p: Pending<T>, sender: Uuid, receiver: Uuid): Pending<T> {
    p - {Pair(sender, receiver)}
  }

  /** The requests removeRequestsToReceiver hands back. */
  function AddressedTo<T(==)>(p: Pending<T>, receiver: Uuid): set<TPARequest<T>> {
    set k | k in p && k.receiver == receiver :: p[k]
  }

  /** The view after removeRequestsToReceiver. */
  function WithoutReceiver<T>(p: Pending<T>, receiver: Uuid): Pending<T> {
    map k | k in p && k.receiver != receiver :: p[k]
  }

  /** A request is exactly its four components: two records are equal iff
      all four agree. */
  lemma RequestIsItsComponents<T>(a: TPARequest<T>, b: TPARequest<T>)
    ensures a == b <==> (a.sender == b.sender && a.receiver == b.receiver &&
                         a.direction == b.direction && a.data == b.data)
  {
  }

  /** There are exactly two directions. */
  lemma DirectionCases(d: TPADirection)
    ensures d == ToSender || d == ToReceiver
    ensures d.ToSender? != d.ToReceiver?
  {
  }

  /** After addRequest(s, r, d, x), getRequest(s, r) yields exactly
      (s, r, d, x); every other pair reads as before. */
  lemma GetAfterAdd<T>(p: Pending<T>, sender: Uuid, receiver: Uuid, direction: TPADirection, data: T,
                       s: Uuid, r: Uuid)
    ensures Get(Added(p, sender, receiver, direction, data), sender, receiver)
            == Some(TPARequest(sender, receiver, direction, data))
    ensures (s, r) != (sender, receiver) ==>
            Get(Added(p, sender, receiver, direction, data), s, r) == Get(p, s, r)
  {
  }

  /** After removeRequest(s, r), getRequest(s, r) is empty; every other pair
      reads as before; a second removal finds nothing and changes nothing. */
  lemma GetAfterRemove<T>(p: Pending<T>, sender: Uuid, receiver: Uuid, s: Uuid, r: Uuid)
    ensures Get(Removed(p, sender, receiver), sender, receiver) == None
    ensures (s, r) != (sender, receiver) ==> Get(Removed(p, sender, receiver), s, r) == Get(p, s, r)
    ensures Removed(Removed(p, sender, receiver), sender, receiver) == Removed(p, sender, receiver)
  {
  }

  /** After removeRequestsToReceiver(r) no pair (., r) is left and pairs to
      other receivers read as before. */
  lemma GetAfterRemoveToReceiver<T>(p: Pending<T>, receiver: Uuid, s: Uuid, r: Uuid)
    ensures Get(WithoutReceiver(p, receiver), s, receiver) == None
    ensures r != receiver ==> Get(WithoutReceiver(p, receiver), s, r) == Get(p, s, r)
  {
  }

  /** removeRequestsToReceiver(r) hands back exactly the stored requests
      addressed to r. */
  lemma AddressedToExactly<T>(p: Pending<T>, receiver: Uuid, q: TPARequest<T>)
    requires WellKeyed(p)
    ensures q in AddressedTo(p, receiver) <==> PairOf(q) in p && p[PairOf(q)] == q && q.receiver == receiver
  {
  }

  /** Each interface operation keeps every stored request under its own pair. */
  lemma OperationsKeepWellKeyed<T>(p: Pending<T>, sender: Uuid, receiver: Uuid, direction: TPADirection, data: T)
    requires WellKeyed(p)
    ensures WellKeyed(Added(p, sender, receiver, direction, data))
    ensures WellKeyed(Removed(p, sender, receiver))
    ensures WellKeyed(WithoutReceiver(p, receiver))
  {
  }
}
