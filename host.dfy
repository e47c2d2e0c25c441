/** The host's asynchronous scheduler, seen abstractly.

    A submitted task is a one-shot delayed job; its handle is a fresh
    identity. The set of live handles (submitted, neither cancelled nor yet
    run) is ghost bookkeeping: the host never hands it out. */
module Host {
  import opened Manager

  /** A scheduled task: its fresh identity, the pair its body was built
      for, and its delay in server ticks. */
  datatype Task = Task(id: nat, sender: Uuid, receiver: Uuid, ticks: int)

  function TaskPair(t: Task): Pair {
    Pair(t.sender, t.receiver)
  }

  class Scheduler {
    /** The identity the next submitted task receives. */
    var next: nat
    /** Tasks that may still run. */
    ghost var live: set<Task>

    /** Every live task was handed out before. */
    ghost predicate Valid()
      reads this
    {
      forall t :: t in live ==> t.id < next
    }

    constructor ()
      ensures Valid() && next == 0 && live == {}
    {
      next := 0;
      live := {};
    }

    /** submit: arms a new task for the pair, with a never-used identity. */
    method Submit(sender: Uuid, receiver: Uuid, ticks: int) returns (task: Task)
      requires Valid()
      modifies this
      ensures Valid()
      ensures task == Task(old(next), sender, receiver, ticks) && task !in old(live)
      ensures live == old(live) + {task} && next == old(next) + 1
    {
      task := Task(next, sender, receiver, ticks);
      next := next + 1;
      live := live + {task};
    }

    /** cancel: the task will not run; cancelling a task that already ran or
        was already cancelled changes nothing. */
    method Cancel(task: Task)
      modifies this
      ensures live == old(live) - {task} && next == old(next)
    {
      live := live - {task};
    }

    /** The host takes a live task whose delay has elapsed off its queue in
        order to run its body; a one-shot task runs at most once. */
    method Dispatch(task: Task)
      requires task in live
      modifies this
      ensures live == old(live) - {task} && next == old(next)
    {
      live := live - {task};
    }
  }
}
