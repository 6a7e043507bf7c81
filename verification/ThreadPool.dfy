/** The thread pool itself: the fields guarded by the mutex, where each thread is, and the pieces of
    code that run between taking the mutex and letting it go.  Every piece is proved to take the
    machine's step. */
module ThreadPool {
  import opened Options
  import opened ThreadPoolSpec

  class ThreadPool {
    var tasks: seq<Task>
    var busy: nat
    var stopping: bool
    /** Where the workers, the thread in join() and the threads in operator() are. */
    var workers: seq<Worker>
    var joiner: Joiner
    var calls: seq<Call>
    /** History: the number of the next task, and what was queued, started and finished. */
    var accepted: nat
    ghost var pushed: seq<Task>
    ghost var popped: seq<Task>
    ghost var finished: seq<Task>

    ghost function View(): State
      reads this
    {
      State(tasks, busy, stopping, workers, joiner, calls, accepted, pushed, popped, finished)
    }

    constructor (threads: nat)
      ensures View() == Initial(threads)
    {
      tasks, busy, stopping := [], 0, false;
      workers := seq(threads, i => Ready);
      joiner, calls, accepted := NotJoining, [], 0;
      pushed, popped, finished := [], [], [];
    }

    /** operator(), up to the mutex if it gets there. */
    method Submit(thread: Thread, kind: Kind)
      requires Enabled(View(), Event.Submit(thread, kind))
      modifies this
      ensures View() == Step(old(View()), Event.Submit(thread, kind))
    {
      if stopping {
        return;
      }
      var kind' := kind;
      if kind != Post && !thread.OnWorker? {
        kind' := Post;
      }
      if kind'.Dispatch? {
        // Run on the spot, as a part of the running task.
        return;
      }
      var task := accepted;
      accepted := accepted + 1;
      if kind'.Defer? && workers[thread.w].deferred.None? {
        workers := workers[thread.w := workers[thread.w].(deferred := Some(task))];
        return;
      }
      calls := calls + [Call(thread, task)];
    }

    /** The rest of operator(), with the mutex; `woken` is who notify_one picks, if anybody waits. */
    method Enqueue(c: nat, woken: Option<nat>)
      requires Enabled(View(), Event.Enqueue(c, woken))
      modifies this
      ensures View() == Step(old(View()), Event.Enqueue(c, woken))
    {
      tasks := tasks + [calls[c].task];
      pushed := pushed + [calls[c].task];
      calls := calls[..c] + calls[c + 1..];
      if busy < |workers| && woken.Some? {
        workers := workers[woken.value := Ready];
      }
    }

    /** A worker with the mutex: wait, leave, or take a task and let the mutex go. */
    method TakeOrWait(w: nat)
      requires w < |workers|
      modifies this
      ensures View() == DoLook(old(View()), w)
    {
      if tasks == [] && !stopping {
        workers := workers[w := Asleep];
        return;
      }
      if stopping {
        workers := workers[w := Exited];
        return;
      }
      var task := tasks[0];
      tasks := tasks[1..];
      popped := popped + [task];
      busy := busy + 1;
      workers := workers[w := Running(task, None)];
    }

    /** The end of a round of the inner loop: fetch the deferred task, and test the loop's condition. */
    method TaskDone(w: nat)
      requires Enabled(View(), Finish(w))
      modifies this
      ensures View() == Step(old(View()), Finish(w))
    {
      finished := finished + [workers[w].task];
      var task := workers[w].deferred;
      if !stopping && task.Some? {
        workers := workers[w := Running(task.value, None)];
      } else {
        workers := workers[w := Leaving];
      }
    }

    /** Past the inner loop: count down with the mutex, and go round the outer one. */
    method NoLongerBusy(w: nat)
      requires Enabled(View(), Leave(w))
      modifies this
      ensures View() == Step(old(View()), Leave(w))
    {
      busy := Pred(busy);
      if busy == 0 && joiner.Waiting? {
        joiner := Woken;
      }
      TakeOrWait(w);
    }

    method NotifyAll()
      modifies this`workers
      ensures workers == WakeAll(old(workers))
    {
      var w := 0;
      while w < |workers|
        invariant w <= |workers| == |old(workers)|
        invariant forall i :: 0 <= i < |workers| ==>
          workers[i] == if i < w then WakeAll(old(workers))[i] else old(workers)[i]
      {
        if workers[w].Asleep? {
          workers := workers[w := Ready];
        }
        w := w + 1;
      }
    }

    method Stop()
      modifies this
      ensures View() == Step(old(View()), Event.Stop)
    {
      tasks := [];
      stopping := true;
      NotifyAll();
    }

    /** join() with the mutex, for the first time or after a wait. */
    method Join()
      requires Enabled(View(), JoinLook)
      modifies this
      ensures View() == Step(old(View()), JoinLook)
    {
      if joiner.Woken? || !stopping {
        if busy != 0 {
          joiner := Waiting;
          return;
        }
        stopping := true;
        NotifyAll();
      }
      joiner := Joined;
    }
  }
}
