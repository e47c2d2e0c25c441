# AtlasTP pending-request registry and timed coordinator, in Dafny

This project models the part of AtlasTP (a Sponge server plugin for teleport
requests) that holds state: the in-memory registry of pending teleport
requests, and the coordinator that gives each request an expiry timer.

- `manager.dfy`, module `Manager` (`TPAManager.java`). Holds the request record
  `TPARequest` (sender, receiver, direction, opaque payload), the two-valued
  `TPADirection` and `Option`, which stands for `java.util.Optional`.
  java.util.UUID becomes `Uuid`.
  The interface contract is stated on the view every caller observes: a flat
  map `Pending` keyed by the `(sender, receiver)` pair. Functions `Get`,
  `Added`, `Removed`, `AddressedTo` and `WithoutReceiver` give each
  operation's effect on that view, and lemmas state their properties.
- `map_manager.dfy`, module `MapManager` (`MapTPAManager.java`). The class
  `MapTPAManager` keeps the source's two-level map `tpaMap` (receiver →
  sender → request) as a field that its methods update in place. The flat
  view is kept in the ghost field `pending`. `Valid()` ties that field to
  `Flatten(tpaMap)` and holds the keying invariant: the entry under keys
  (r, s) is the request from s to r. Every method states its new concrete
  store, its result, and its effect on `pending`.
- `host.dfy`, module `Host`. This is the Sponge scheduler, seen abstractly.
  A `Task` handle gets a fresh identity and records the pair its body was
  built for and its delay. `Scheduler` hands out identities (`next`) and
  tracks the live handles in a ghost set. `Cancel` removes a handle from
  that set. `Dispatch` is the host taking a due live task off its queue to
  run it.
- `util.dfy`, module `Util` (`TPAManagerUtil.java`). `CoordState` is the joint
  state of registry, scheduler and expiry-callback log. `Timed`, `Resolve`
  and `Fired` are the three operations on it. `Consistent` is the invariant:
  - every stored request has exactly one live task;
  - every live task belongs to a stored request;
  - identities are fresh;
  - each logged callback ran once.

  `Run` replays any interleaving of calls, with each call atomic. The class
  `TPAManagerUtil` performs the source's steps on the real registry and
  scheduler objects: get, cancel, submit, add, and for the task body,
  remove-then-callback. Each method is proved equal to its operation on
  `CoordState`.

The task body does not check that the stored request still carries it, and
`removeRequestsBySender` is an unimplemented stub. The model follows the code
in both:
- `Fired` removes whatever request the pair holds and calls back iff one was
  there (`FiredCallsBackIffRemoved`). `FiredEffect` and
  `ReplacedNeverExpires` show that this does no harm when calls are
  sequential, under one assumption about the host: a task runs only while it
  is live, that is, a cancelled or already-run task never runs. The model
  states this assumption as the `requires task in live` of
  `Host.Scheduler.Dispatch` and of `Util.TPAManagerUtil.Fire`. Under it, a
  live task always still owns its pair's entry.
- `RemoveRequestsBySender` is the stub it is in the source.

## Model

| member | source | states |
|---|---|---|
| Manager.RequestIsItsComponents | src/main/java/dev/atlasmc/atlastp/manager/TPAManager.java:20-28 | a request is exactly its four components (sender, receiver, direction, data): two requests are equal iff all four agree; as a datatype value it cannot change |
| Manager.DirectionCases | src/main/java/dev/atlasmc/atlastp/manager/TPAManager.java:30-33 | a direction is TO_SENDER or TO_RECEIVER, and never both |
| Manager.GetAfterAdd | src/main/java/dev/atlasmc/atlastp/manager/MapTPAManager.java:11-15 | after addRequest(s, r, d, x), getRequest(s, r) is exactly (s, r, d, x); the old request is replaced, not merged; every other pair reads as before |
| Manager.GetAfterRemove | src/main/java/dev/atlasmc/atlastp/manager/MapTPAManager.java:28-35 | after removeRequest(s, r), getRequest(s, r) is empty and other pairs read as before; a second removal finds nothing and changes nothing |
| Manager.GetAfterRemoveToReceiver | src/main/java/dev/atlasmc/atlastp/manager/MapTPAManager.java:44-51 | after removeRequestsToReceiver(r), no pair (., r) is left; requests to other receivers read as before |
| Manager.AddressedToExactly | src/main/java/dev/atlasmc/atlastp/manager/MapTPAManager.java:44-51 | for a well-keyed registry, a request is in the bulk-removal result for r iff it is stored under its own pair and addressed to r |
| Manager.OperationsKeepWellKeyed | src/main/java/dev/atlasmc/atlastp/manager/MapTPAManager.java:12-14 | add, remove and remove-to-receiver each keep every stored request under its own (sender, receiver) pair |
| MapManager.FlattenAt | src/main/java/dev/atlasmc/atlastp/manager/MapTPAManager.java:19-24 | a pair is in the view iff the receiver has an inner map that holds the sender, and then its request is that entry; a receiver without a map has no requests |
| MapManager.FlattenKeyed | src/main/java/dev/atlasmc/atlastp/manager/MapTPAManager.java:8 | the two-level keying invariant (entry under r, s names s and r) holds iff the flat view is well keyed |
| MapManager.FlattenPut | src/main/java/dev/atlasmc/atlastp/manager/MapTPAManager.java:12-14 | computeIfAbsent followed by put on the inner map writes exactly that one pair of the view |
| MapManager.PutKeepsKeyed | src/main/java/dev/atlasmc/atlastp/manager/MapTPAManager.java:12-14 | storing the request from s to r under keys r, s keeps the store keyed |
| MapManager.FlattenDelete | src/main/java/dev/atlasmc/atlastp/manager/MapTPAManager.java:29-34 | removing a sender from an inner map deletes exactly that pair of the view, although the emptied inner map stays |
| MapManager.FlattenDropReceiver | src/main/java/dev/atlasmc/atlastp/manager/MapTPAManager.java:45-50 | removing a receiver's inner map deletes exactly the pairs (., r), and that map's values are exactly the requests addressed to r |
| MapManager.MapTPAManager.constructor | src/main/java/dev/atlasmc/atlastp/manager/MapTPAManager.java:8 | a new registry is empty and keyed |
| MapManager.MapTPAManager.AddRequest | src/main/java/dev/atlasmc/atlastp/manager/MapTPAManager.java:11-15 | the inner map of the receiver is created if absent and the new request put for the sender; returns true iff the pair had a request; the view is the old one with that pair (re)set; the keying invariant is kept |
| MapManager.MapTPAManager.GetRequest | src/main/java/dev/atlasmc/atlastp/manager/MapTPAManager.java:18-25 | empty iff the receiver has no inner map or that map lacks the sender, otherwise that entry; equals the contract's lookup on the view; changes nothing |
| MapManager.MapTPAManager.RemoveRequest | src/main/java/dev/atlasmc/atlastp/manager/MapTPAManager.java:28-35 | returns true iff the pair had a request; the sender is removed from the existing inner map, which stays even if emptied; no store change when the receiver has no map; the view loses exactly that pair |
| MapManager.MapTPAManager.RemoveRequestsBySender | src/main/java/dev/atlasmc/atlastp/manager/MapTPAManager.java:38-41 | the stub as written: always an empty (non-null) collection, and no state change |
| MapManager.MapTPAManager.RemoveRequestsToReceiver | src/main/java/dev/atlasmc/atlastp/manager/MapTPAManager.java:44-51 | the receiver's inner map is removed; the result is exactly the requests previously addressed to r (empty if r had no map); requests to other receivers are untouched |
| Host.Scheduler.Submit | src/main/java/dev/atlasmc/atlastp/util/TPAManagerUtil.java:33-43 | submitting arms a one-shot task for the pair with a never-used identity, which becomes live |
| Host.Scheduler.Cancel | src/main/java/dev/atlasmc/atlastp/util/TPAManagerUtil.java:31 | cancelling makes the task not live; cancelling a task that already ran or was cancelled changes nothing |
| Host.Scheduler.Dispatch | src/main/java/dev/atlasmc/atlastp/util/TPAManagerUtil.java:36-40 | the host runs only a live task, and a one-shot task is no longer live once it runs |
| Util.InitialConsistent | src/main/java/dev/atlasmc/atlastp/AtlasTP.java:78 | the coordinator built over a fresh empty registry with nothing scheduled satisfies the invariant |
| Util.TimedConsistent | src/main/java/dev/atlasmc/atlastp/util/TPAManagerUtil.java:30-45 | cancel-then-replace keeps the invariant, so each stored pair has at most one live task |
| Util.TimedEffect | src/main/java/dev/atlasmc/atlastp/util/TPAManagerUtil.java:30-45 | the result is true iff a request for the pair was replaced; the stored request carries the given direction and the newly armed task as its data; the replaced request's task is no longer live; the new task is the pair's only live task; every other pair reads as before, both the pairs that had a request and those that had none; the callback log is untouched |
| Util.ResolveConsistent | src/main/java/dev/atlasmc/atlastp/util/TPAManagerUtil.java:49-58 | resolving keeps the invariant |
| Util.ResolveEffect | src/main/java/dev/atlasmc/atlastp/util/TPAManagerUtil.java:49-58 | no request: returns empty and changes nothing; otherwise returns the stored request (its own direction and data), removes the pair, and leaves its task and the pair without a live task; an immediate second call returns empty |
| Util.FiredConsistent | src/main/java/dev/atlasmc/atlastp/util/TPAManagerUtil.java:36-40 | a firing keeps the invariant |
| Util.FiredCallsBackIffRemoved | src/main/java/dev/atlasmc/atlastp/util/TPAManagerUtil.java:36-40 | the callback for (s, r) is invoked iff the registry removal for (s, r) found a request, whichever task it carried (no identity check); when the removal finds nothing, the registry and the callback log are unchanged and only the fired task retires; afterwards the pair has no request |
| Util.FiredEffect | src/main/java/dev/atlasmc/atlastp/util/TPAManagerUtil.java:36-40 | on a consistent state a live task's firing always removes its pair and calls back once; afterwards neither the task nor any other task is live for that pair, so it cannot call back again |
| Util.RunConsistent | src/main/java/dev/atlasmc/atlastp/util/TPAManagerUtil.java:23-58 | every interleaving of create, resolve and fire calls keeps the invariant: never two live tasks for a pair, never a live task without its entry, never a stored entry without its live task |
| Util.RunKeepsRetiredTask | src/main/java/dev/atlasmc/atlastp/util/TPAManagerUtil.java:23-58 | a task that was armed and is no longer live never becomes live again and never calls back again in any later interleaving; the callback log only grows |
| Util.ResolvedNeverExpires | src/main/java/dev/atlasmc/atlastp/util/TPAManagerUtil.java:48-58 | a request handed back by removeRequest never has its expiry callback run afterwards (one terminal outcome per request) |
| Util.ReplacedNeverExpires | src/main/java/dev/atlasmc/atlastp/util/TPAManagerUtil.java:30-45 | a request superseded by timedTPARequest never has its expiry callback run, and the superseded request gets no notification |
| Util.TPAManagerUtil.constructor | src/main/java/dev/atlasmc/atlastp/util/TPAManagerUtil.java:18-21 | wraps the given registry and scheduler, which must already agree with each other (as an empty registry and an idle scheduler do) |
| Util.TPAManagerUtil.TimedTPARequest | src/main/java/dev/atlasmc/atlastp/util/TPAManagerUtil.java:23-46 | get, cancel any prior task, submit, add: the new state and result are exactly Timed of the old state, and the invariant is kept |
| Util.TPAManagerUtil.Fire | src/main/java/dev/atlasmc/atlastp/util/TPAManagerUtil.java:36-40 | the task body, run by the host only while the task is live: the new state, callback log included, is exactly Fired of the old state |
| Util.TPAManagerUtil.RemoveRequest | src/main/java/dev/atlasmc/atlastp/util/TPAManagerUtil.java:48-59 | get, then on a hit cancel and remove: the new state and result are exactly Resolve of the old state |

## Left out

- Concurrency: the task body runs on the asynchronous scheduler, and races between threads are not modelled. Each call and each firing is one atomic step, and `Run` covers every sequential interleaving. A firing that races a `timedTPARequest` on the same pair is therefore outside the model. Because the task body does not check which task the stored request carries, an old task whose body has already started when a new `timedTPARequest` for (s, r) cancels it, and whose removal runs after the new request is stored, removes that newer request and invokes the callback for (s, r). The newer request thus expires early through the old task's callback, and its own task later finds nothing to remove.
- The Sponge scheduler, `Task`/`ScheduledTask` and `Ticks` are foreign API. They are replaced by `Host.Scheduler`, where handles are fresh integer identities, the live set is ghost, and the delay is an uninterpreted integer. Elapsed time is not modelled: a firing is an explicit call on a live task.
- The expiry callback (`BiConsumer`) is not a parameter. Its invocation is recorded in the ghost log `expired`, with the task standing for the (sender, receiver) it is called with. What the callback does (player messaging in TPACommand.java) is not part of this model.
- The plugin container passed to TPAManagerUtil is not modelled. It only tags the task for the host.
- `getTpaManager` is not modelled. It only hands out the registry reference, and a write through it would bypass the coordinator; the model assumes only the coordinator writes.
- `MapManager.MapTPAManager.RemoveRequestsToReceiver`: the Java result is a `Collection` view of the map's values, and its iteration order is not modelled. The model returns a set; the keying invariant makes those values distinct.
- `Util.TPAManagerUtil.constructor` requires an injected registry and scheduler that already agree with each other. The Java constructor accepts any registry, but AtlasTP.java:78 always passes a fresh, empty one.
- `Host.Task` holds the delay as an unbounded integer rather than a Java `long`. No arithmetic is done on it.
- Command classes, plugin bootstrap, message templates and build configuration are host and UI I/O. They are not part of this model.
