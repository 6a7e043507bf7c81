/** The thread pool as interleaved steps.  A step is what one thread does while it holds the mutex,
    or one access to state that is its own or atomic: the stop flag, a worker's deferred slot, the
    task it runs. */
module ThreadPoolSpec {
  import opened Options

  /** Tasks are numbered as the pool accepts them. */
  type Task = nat

  datatype Kind = Dispatch | Post | Defer

  /** Where a worker is in its loop: about to take the mutex and look for a task, waiting on
      queue_not_empty_, running a task with or without another in its deferred slot, about to take
      the mutex because it is done, or gone. */
  datatype Worker =
    | Ready
    | Asleep
    | Running(task: Task, deferred: Option<Task>)
    | Leaving
    | Exited

  datatype Thread = Client(id: nat) | OnWorker(w: nat)

  /** A call that has seen the pool not stopping and has yet to take the mutex. */
  datatype Call = Call(thread: Thread, task: Task)

  /** join() before it was called, about to take the mutex for the first time, waiting on
      no_busy_workers_, woken from that wait but yet without the mutex, or past the point from which
      the pool is stopping. */
  datatype Joiner = NotJoining | Entering | Waiting | Woken | Joined

  /** `tasks`, `busy` and `stopping` are the pool's fields.  `calls` are the submissions under way.
      The rest is history: how many tasks were accepted, which were pushed on the queue and which
      taken from it, in order, and which have finished. */
  datatype State = State(
    tasks: seq<Task>,
    busy: nat,
    stopping: bool,
    workers: seq<Worker>,
    joiner: Joiner,
    calls: seq<Call>,
    accepted: nat,
    pushed: seq<Task>,
    popped: seq<Task>,
    finished: seq<Task>)

  datatype Event =
    | Submit(thread: Thread, kind: Kind)
    | Enqueue(call: nat, woken: Option<nat>)
    | Look(w: nat)
    | SpuriousWake(w: nat)
    | Finish(w: nat)
    | Leave(w: nat)
    | Stop
    | JoinCalled
    | JoinLook
    | JoinSpuriousWake

  function Initial(threads: nat): State {
    State([], 0, false, seq(threads, i => Ready), NotJoining, [], 0, [], [], [])
  }

  predicate Calling(st: State, thread: Thread) {
    exists c :: c in st.calls && c.thread == thread
  }

  /** A task running on one of the pool's own workers may call the pool. */
  predicate Inside(st: State, thread: Thread) {
    thread.OnWorker? && thread.w < |st.workers| && st.workers[thread.w].Running?
  }

  predicate Enabled(st: State, e: Event) {
    match e
    case Submit(thread, _) => !Calling(st, thread) && (thread.OnWorker? ==> Inside(st, thread))
    case Enqueue(c, woken) => c < |st.calls| && NotifiesOne(st, woken)
    case Look(w) => w < |st.workers| && st.workers[w].Ready?
    case SpuriousWake(w) => w < |st.workers| && st.workers[w].Asleep?
    case Finish(w) => w < |st.workers| && st.workers[w].Running? && !Calling(st, OnWorker(w))
    case Leave(w) => w < |st.workers| && st.workers[w].Leaving?
    case Stop => true
    case JoinCalled => st.joiner.NotJoining?
    case JoinLook => st.joiner.Entering? || st.joiner.Woken?
    case JoinSpuriousWake => st.joiner.Waiting?
  }

  /** notify_one wakes some sleeper if there is any, and is only called while a worker is not busy. */
  predicate NotifiesOne(st: State, woken: Option<nat>) {
    if st.busy < |st.workers| && Asleep in st.workers
    then woken.Some? && woken.value < |st.workers| && st.workers[woken.value].Asleep?
    else woken.None?
  }

  function WakeAll(ws: seq<Worker>): (r: seq<Worker>)
    ensures |r| == |ws|
  {
    seq(|ws|, i requires 0 <= i < |ws| => if ws[i].Asleep? then Ready else ws[i])
  }

  /** The beginning of operator(), up to the mutex if it gets there.  A dispatched task runs inside
      the call and never is the pool's. */
  function DoSubmit(st: State, thread: Thread, kind: Kind): State {
    if st.stopping then st
    else if thread.OnWorker? && kind.Dispatch? then st
    else if Inside(st, thread) && kind.Defer? && st.workers[thread.w].deferred.None? then
      st.(workers := st.workers[thread.w := st.workers[thread.w].(deferred := Some(st.accepted))],
          accepted := st.accepted + 1)
    else
      st.(calls := st.calls + [Call(thread, st.accepted)], accepted := st.accepted + 1)
  }

  /** The end of operator(), under the mutex. */
  function DoEnqueue(st: State, c: nat, woken: Option<nat>): State
    requires c < |st.calls| && NotifiesOne(st, woken)
  {
    st.(tasks := st.tasks + [st.calls[c].task],
        pushed := st.pushed + [st.calls[c].task],
        calls := st.calls[..c] + st.calls[c + 1..],
        workers := if woken.Some? then st.workers[woken.value := Ready] else st.workers)
  }

  /** A worker with the mutex waits for something to do, leaves, or takes the next task. */
  function DoLook(st: State, w: nat): State
    requires w < |st.workers|
  {
    if st.stopping then st.(workers := st.workers[w := Exited])
    else if st.tasks == [] then st.(workers := st.workers[w := Asleep])
    else
      st.(workers := st.workers[w := Running(st.tasks[0], None)],
          tasks := st.tasks[1..],
          popped := st.popped + [st.tasks[0]],
          busy := st.busy + 1)
  }

  /** A task is done; the deferred one, if any, is run next unless the pool is stopping. */
  function DoFinish(st: State, w: nat): State
    requires w < |st.workers| && st.workers[w].Running?
  {
    var deferred := st.workers[w].deferred;
    st.(workers := st.workers[w := if deferred.Some? && !st.stopping then Running(deferred.value, None) else Leaving],
        finished := st.finished + [st.workers[w].task])
  }

  /** Decrement of an unsigned int. */
  function Pred(n: nat): nat {
    if n == 0 then 0xFFFF_FFFF else n - 1
  }

  /** A worker without a task takes the mutex, says so, and without letting go looks for another. */
  function DoLeave(st: State, w: nat): State
    requires w < |st.workers|
  {
    var idle := st.(busy := Pred(st.busy),
                    joiner := if st.busy == 1 && st.joiner.Waiting? then Woken else st.joiner);
    DoLook(idle, w)
  }

  function DoStop(st: State): State {
    st.(tasks := [], stopping := true, workers := WakeAll(st.workers))
  }

  /** join() with the mutex: wait for idle workers, then stop the pool.  Only a join() that finds
      the pool stopping when it begins does not wait. */
  function DoJoinLook(st: State): State {
    if st.joiner.Entering? && st.stopping then st.(joiner := Joined)
    else if st.busy > 0 then st.(joiner := Waiting)
    else st.(joiner := Joined, stopping := true, workers := WakeAll(st.workers))
  }

  function Step(st: State, e: Event): State
    requires Enabled(st, e)
  {
    match e
    case Submit(thread, kind) => DoSubmit(st, thread, kind)
    case Enqueue(c, woken) => DoEnqueue(st, c, woken)
    case Look(w) => DoLook(st, w)
    case SpuriousWake(w) => st.(workers := st.workers[w := Ready])
    case Finish(w) => DoFinish(st, w)
    case Leave(w) => DoLeave(st, w)
    case Stop => DoStop(st)
    case JoinCalled => st.(joiner := Entering)
    case JoinLook => DoJoinLook(st)
    case JoinSpuriousWake => st.(joiner := Woken)
  }
}
