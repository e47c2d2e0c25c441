/** The timed-request coordinator (TPAManagerUtil): it wraps a registry whose
    payload is each request's scheduled task, so that every stored request
    has exactly one live timer.

    CoordState is what the coordinator, its registry and the scheduler
    jointly hold; Timed, Resolve and Fired are the three operations on it.
    The class TPAManagerUtil performs them step by step on the real objects
    and is proved to match them; Consistent is the invariant they keep, and
    Run replays any sequence of calls, firings included. */
module Util {
  import opened Manager
  import opened Host
  import MapManager

  /** The registry's view, the scheduler's live tasks and next identity, and
      the log of expiry-callback invocations: a task t in `expired` stands for
      the callback called with (t.sender, t.receiver) by t's body. */
  datatype CoordState = CoordState(pending: Pending<Task>, live: set<Task>, next: nat, expired: seq<Task>)

  /** The invariant: each stored request's task is live and was armed for
      that request's pair; each live task is the one stored for its pair (so
      a pair has at most one live task, and no live task lacks an entry);
      identities are fresh below `next`; a task whose callback has run is no
      longer live and has run its callback once. */
  ghost predicate Consistent(st: CoordState) {
    && WellKeyed(st.pending)
    && (forall k :: k in st.pending ==> st.pending[k].data in st.live && TaskPair(st.pending[k].data) == k)
    && (forall t :: t in st.live ==> TaskPair(t) in st.pending && st.pending[TaskPair(t)].data == t)
    && (forall t :: t in st.live ==> t.id < st.next)
    && (forall i :: 0 <= i < |st.expired| ==> st.expired[i] !in st.live && st.expired[i].id < st.next)
    && (forall i, j :: 0 <= i < j < |st.expired| ==> st.expired[i] != st.expired[j])
  }

  /** timedTPARequest: cancel the task of any request the pair has, submit a
      new task for the pair, store the request with that task; the result is
      the registry's "replaced" answer. */
  function Timed(st: CoordState, sender: Uuid, receiver: Uuid, direction: TPADirection, ticks: int): (CoordState, bool)
  {
    var prior := Get(st.pending, sender, receiver);
    var live := if prior.Some? then st.live - {prior.value.data} else st.live;
    var task := Task(st.next, sender, receiver, ticks);
    (CoordState(Added(st.pending, sender, receiver, direction, task), live + {task}, st.next + 1, st.expired),
     Pair(sender, receiver) in st.pending)
  }

  /** removeRequest (accept and deny): nothing to do when the pair has no
      request; otherwise cancel its task, remove it, and hand it back. */
  function Resolve(st: CoordState, sender: Uuid, receiver: Uuid): (CoordState, Option<TPARequest<Task>>)
  {
    match Get(st.pending, sender, receiver)
    case None => (st, None)
    case Some(request) =>
      (CoordState(Removed(st.pending, sender, receiver), st.live - {request.data}, st.next, st.expired), Some(request))
  }

  /** A live task runs: it leaves the scheduler, removes its pair's request
      and calls back iff that removal found one. There is no check that the
      stored request carries this very task. */
  function Fired(st: CoordState, task: Task): CoordState
    requires task in st.live
  {
    var removed := TaskPair(task) in st.pending;
    CoordState(Removed(st.pending, task.sender, task.receiver), st.live - {task}, st.next,
               if removed then st.expired + [task] else st.expired)
  }

  /** An empty registry with nothing scheduled is consistent. */
  lemma InitialConsistent(next: nat)
    ensures Consistent(CoordState(map[], {}, next, []))
  {
  }

  /** timedTPARequest keeps the invariant. */
  lemma TimedConsistent(st: CoordState, sender: Uuid, receiver: Uuid, direction: TPADirection, ticks: int)
    requires Consistent(st)
    ensures Consistent(Timed(st, sender, receiver, direction, ticks).0)
  {
    var post := Timed(st, sender, receiver, direction, ticks).0;
    var task := Task(st.next, sender, receiver, ticks);
    forall t | t in post.live ensures TaskPair(t) in post.pending && post.pending[TaskPair(t)].data == t {
      if t != task {
        assert t in st.live;
      }
    }
  }

  /** timedTPARequest reports a replacement iff the pair had a request; it
      stores (sender, receiver, direction) with a freshly armed live task;
      the replaced request's task is no longer live; the new task is the only
      live task of the pair; other pairs and the callback log are untouched. */
  lemma TimedEffect(st: CoordState, sender: Uuid, receiver: Uuid, direction: TPADirection, ticks: int)
    requires Consistent(st)
    ensures var (post, replaced) := Timed(st, sender, receiver, direction, ticks);
            var task := Task(st.next, sender, receiver, ticks);
            && (replaced <==> Get(st.pending, sender, receiver).Some?)
            && Get(post.pending, sender, receiver) == Some(TPARequest(sender, receiver, direction, task))
            && task in post.live && task !in st.live && task !in st.expired
            && (replaced ==> st.pending[Pair(sender, receiver)].data !in post.live)
            && (forall t :: t in post.live && TaskPair(t) == Pair(sender, receiver) ==> t == task)
            && (forall k :: k in st.pending && k != Pair(sender, receiver) ==> k in post.pending && post.pending[k] == st.pending[k])
            && (forall s, r :: Pair(s, r) != Pair(sender, receiver) ==> Get(post.pending, s, r) == Get(st.pending, s, r))
            && post.expired == st.expired
  {
    TimedConsistent(st, sender, receiver, direction, ticks);
    var task := Task(st.next, sender, receiver, ticks);
    assert task !in st.live;
  }

  /** removeRequest keeps the invariant. */
  lemma ResolveConsistent(st: CoordState, sender: Uuid, receiver: Uuid)
    requires Consistent(st)
    ensures Consistent(Resolve(st, sender, receiver).0)
  {
    var post := Resolve(st, sender, receiver).0;
    var p := Pair(sender, receiver);
    if p in st.pending {
      forall t | t in post.live ensures TaskPair(t) in post.pending && post.pending[TaskPair(t)].data == t {
        assert t in st.live && t != st.pending[p].data;
      }
    }
  }

  /** With no request for the pair, removeRequest hands back nothing and
      changes nothing. Otherwise it hands back the stored request (its own
      direction and task), after which the pair is absent, its task is no
      longer live, no live task is left for the pair, and an immediate second
      call hands back nothing. */
  lemma ResolveEffect(st: CoordState, sender: Uuid, receiver: Uuid)
    requires Consistent(st)
    ensures var (post, request) := Resolve(st, sender, receiver);
            && (request.None? <==> Pair(sender, receiver) !in st.pending)
            && (request.None? ==> post == st)
            && (request.Some? ==> request.value == st.pending[Pair(sender, receiver)]
                                  && Pair(sender, receiver) !in post.pending
                                  && request.value.data !in post.live
                                  && (forall t :: t in post.live ==> TaskPair(t) != Pair(sender, receiver)))
            && Resolve(post, sender, receiver) == (post, None)
  {
    ResolveConsistent(st, sender, receiver);
  }

  /** A firing keeps the invariant. */
  lemma FiredConsistent(st: CoordState, task: Task)
    requires Consistent(st) && task in st.live
    ensures Consistent(Fired(st, task))
  {
    var post := Fired(st, task);
    forall t | t in post.live ensures TaskPair(t) in post.pending && post.pending[TaskPair(t)].data == t {
      assert t in st.live && t != task;
    }
    assert post.expired == st.expired + [task];
    forall i, j | 0 <= i < j < |post.expired| ensures post.expired[i] != post.expired[j] {
      if j == |st.expired| {
        assert post.expired[i] == st.expired[i];
      }
    }
  }

  /** The callback runs iff the firing's removal found a request for the
      pair; it does not matter which task that request carries. When the
      removal finds nothing, the registry and the log are unchanged and only
      the task itself retires. */
  lemma FiredCallsBackIffRemoved(st: CoordState, task: Task)
    requires task in st.live
    ensures Fired(st, task).expired == st.expired + [task] <==> TaskPair(task) in st.pending
    ensures TaskPair(task) !in st.pending ==> Fired(st, task).expired == st.expired
    ensures TaskPair(task) !in st.pending ==> Fired(st, task).pending == st.pending && Fired(st, task).live == st.live - {task}
    ensures TaskPair(task) !in Fired(st, task).pending
  {
    if Fired(st, task).expired == st.expired + [task] {
      assert |Fired(st, task).expired| == |st.expired| + 1;
    }
  }

  /** On a consistent state a live task still owns its pair's request, so its
      firing always calls back, once; afterwards the pair is absent and has
      no live task left, so it cannot call back a second time. */
  lemma FiredEffect(st: CoordState, task: Task)
    requires Consistent(st) && task in st.live
    ensures var post := Fired(st, task);
            && post.expired == st.expired + [task]
            && TaskPair(task) !in post.pending
            && task !in post.live
            && (forall t :: t in post.live ==> TaskPair(t) != TaskPair(task))
  {
    FiredConsistent(st, task);
  }

  /** What the host and the command layer can do: create a timed request,
      resolve one (accept or deny), or run a task whose delay elapsed. */
  datatype Call =
    | Create(sender: Uuid, receiver: Uuid, direction: TPADirection, ticks: int)
    | Answer(sender: Uuid, receiver: Uuid)
    | Expire(task: Task)

  /** The state after a sequence of calls, each applied atomically; None
      when a call runs a task that is not live, which the host never does. */
  function Run(st: CoordState, calls: seq<Call>): Option<CoordState>
    decreases |calls|
  {
    if calls == [] then Some(st)
    else
      match calls[0]
      case Create(s, r, d, ticks) => Run(Timed(st, s, r, d, ticks).0, calls[1..])
      case Answer(s, r) => Run(Resolve(st, s, r).0, calls[1..])
      case Expire(t) => if t in st.live then Run(Fired(st, t), calls[1..]) else None
  }

  /** Any interleaving of creations, resolutions and firings keeps the
      invariant: never two live tasks for a pair, never a live task without
      its request, never a stored request without its live task. */
  lemma {:induction false} RunConsistent(st: CoordState, calls: seq<Call>)
    requires Consistent(st)
    ensures Run(st, calls).Some? ==> Consistent(Run(st, calls).value)
    decreases |calls|
  {
    if calls != [] {
      match calls[0]
      case Create(s, r, d, ticks) =>
        TimedConsistent(st, s, r, d, ticks);
        RunConsistent(Timed(st, s, r, d, ticks).0, calls[1..]);
      case Answer(s, r) =>
        ResolveConsistent(st, s, r);
        RunConsistent(Resolve(st, s, r).0, calls[1..]);
      case Expire(t) =>
        if t in st.live {
          FiredConsistent(st, t);
          RunConsistent(Fired(st, t), calls[1..]);
        }
    }
  }

  /** A task that has been armed and is no longer live (replaced, resolved
      or already run) never becomes live again and never calls back again,
      whatever happens next; the callback log only grows. */
  lemma {:induction false} RunKeepsRetiredTask(st: CoordState, calls: seq<Call>, task: Task)
    requires Consistent(st) && task !in st.live && task.id < st.next
    ensures Run(st, calls).Some? ==>
            var post := Run(st, calls).value;
            && task !in post.live
            && |st.expired| <= |post.expired| && post.expired[..|st.expired|] == st.expired
            && task !in post.expired[|st.expired|..]
    decreases |calls|
  {
    if calls != [] {
      var next: CoordState;
      match calls[0] {
        case Create(s, r, d, ticks) =>
          TimedConsistent(st, s, r, d, ticks);
          next := Timed(st, s, r, d, ticks).0;
        case Answer(s, r) =>
          ResolveConsistent(st, s, r);
          next := Resolve(st, s, r).0;
        case Expire(t) =>
          if t !in st.live {
            return;
          }
          FiredConsistent(st, t);
          next := Fired(st, t);
      }
      assert task !in next.expired[|st.expired|..];
      RunKeepsRetiredTask(next, calls[1..], task);
      assert Run(st, calls) == Run(next, calls[1..]);
      if Run(st, calls).Some? {
        var post := Run(st, calls).value;
        assert post.expired[..|st.expired|] == st.expired;
        assert post.expired[|st.expired|..] == next.expired[|st.expired|..] + post.expired[|next.expired|..];
      }
    }
  }

  /** Exactly one terminal outcome per request: once removeRequest has handed
      a request back, no later interleaving ever runs its expiry callback. */
  lemma ResolvedNeverExpires(st: CoordState, sender: Uuid, receiver: Uuid, calls: seq<Call>)
    requires Consistent(st)
    requires Resolve(st, sender, receiver).1.Some?
    ensures var (mid, request) := Resolve(st, sender, receiver);
            Run(mid, calls).Some? ==> request.value.data !in Run(mid, calls).value.expired
  {
    var (mid, request) := Resolve(st, sender, receiver);
    var task := request.value.data;
    ResolveConsistent(st, sender, receiver);
    RunKeepsRetiredTask(mid, calls, task);
    if Run(mid, calls).Some? {
      var post := Run(mid, calls).value;
      assert post.expired == post.expired[..|mid.expired|] + post.expired[|mid.expired|..];
    }
  }

  /** A request superseded by timedTPARequest never runs its expiry
      callback, whatever happens next: the superseded request gets no
      notification. */
  lemma ReplacedNeverExpires(st: CoordState, sender: Uuid, receiver: Uuid, direction: TPADirection, ticks: int,
                             calls: seq<Call>)
    requires Consistent(st)
    requires Pair(sender, receiver) in st.pending
    ensures var mid := Timed(st, sender, receiver, direction, ticks).0;
            Run(mid, calls).Some? ==> st.pending[Pair(sender, receiver)].data !in Run(mid, calls).value.expired
  {
    var mid := Timed(st, sender, receiver, direction, ticks).0;
    var task := st.pending[Pair(sender, receiver)].data;
    TimedConsistent(st, sender, receiver, direction, ticks);
    TimedEffect(st, sender, receiver, direction, ticks);
    RunKeepsRetiredTask(mid, calls, task);
    if Run(mid, calls).Some? {
      var post := Run(mid, calls).value;
      assert post.expired == post.expired[..|mid.expired|] + post.expired[|mid.expired|..];
    }
  }

  class TPAManagerUtil {
    const tpaManager: MapManager.MapTPAManager<Task>
    const scheduler: Scheduler
    /** Expiry-callback invocations, in order. */
    ghost var expired: seq<Task>

    ghost function State(): CoordState
      reads this, tpaManager, scheduler
    {
      CoordState(tpaManager.pending, scheduler.live, scheduler.next, expired)
    }

    ghost predicate Valid()
      reads this, tpaManager, scheduler
    {
      tpaManager.Valid() && scheduler.Valid() && Consistent(State())
    }

    /** The registry and scheduler handed in must already agree, as an empty
        registry and an idle scheduler do. */
    constructor (tpaManager: MapManager.MapTPAManager<Task>, scheduler: Scheduler)
      requires tpaManager.Valid() && scheduler.Valid()
      requires Consistent(CoordState(tpaManager.pending, scheduler.live, scheduler.next, []))
      ensures Valid() && expired == []
      ensures this.tpaManager == tpaManager && this.scheduler == scheduler
    {
      this.tpaManager := tpaManager;
      this.scheduler := scheduler;
      expired := [];
    }

    /** timedTPARequest */
    method TimedTPARequest(sender: Uuid, receiver: Uuid, direction: TPADirection, ticks: int) returns (replaced: bool)
      requires Valid()
      modifies tpaManager, scheduler
      ensures Valid()
      ensures (State(), replaced) == Timed(old(State()), sender, receiver, direction, ticks)
    {
      ghost var st := State();
      ghost var post := Timed(st, sender, receiver, direction, ticks);
      TimedConsistent(st, sender, receiver, direction, ticks);
      var prior := tpaManager.GetRequest(sender, receiver);
      if prior.Some? {
        scheduler.Cancel(prior.value.data);
      }
      var task := scheduler.Submit(sender, receiver, ticks);
      assert scheduler.live == post.0.live;
      replaced := tpaManager.AddRequest(sender, receiver, direction, task);
      assert State() == post.0;
    }

    /** The body of a task armed by TimedTPARequest, run by the host. */
    method Fire(task: Task)
      requires Valid() && task in scheduler.live
      modifies this, tpaManager, scheduler
      ensures Valid()
      ensures State() == Fired(old(State()), task)
    {
      ghost var st := State();
      ghost var post := Fired(st, task);
      FiredConsistent(st, task);
      scheduler.Dispatch(task);
      var removed := tpaManager.RemoveRequest(task.sender, task.receiver);
      if removed {
        expired := expired + [task];
      }
      assert State() == post;
    }

    /** removeRequest, used by both accept and deny. */
    method RemoveRequest(sender: Uuid, receiver: Uuid) returns (request: Option<TPARequest<Task>>)
      requires Valid()
      modifies tpaManager, scheduler
      ensures Valid()
      ensures (State(), request) == Resolve(old(State()), sender, receiver)
    {
      ghost var st := State();
      ghost var post := Resolve(st, sender, receiver);
      ResolveConsistent(st, sender, receiver);
      request := tpaManager.GetRequest(sender, receiver);
      if request.None? {
        return None;
      }
      scheduler.Cancel(request.value.data);
      var _ := tpaManager.RemoveRequest(sender, receiver);
      assert State() == post.0;
    }
  }
}
