/** What each step of the thread pool does to its fields, said without the functions the machine is made
    of, and how many tasks a run accepts. */
module ThreadPoolSteps {
  import opened Options
  import opened ThreadPoolSpec
  import opened ThreadPoolRuns

  /** Whether a submission gives the pool a task: not once it is stopping, and not if the task is run on
      the spot, which is what dispatching from a worker does. */
  predicate Taken(st: State, thread: Thread, kind: Kind) {
    !st.stopping && !(thread.OnWorker? && kind.Dispatch?)
  }

  /** A task that is taken is put in the worker's slot if it was deferred by a task running there and the
      slot is empty; any other is on its way to the queue.  If none is taken, nothing changes. */
  lemma SubmitTakes(st: State, thread: Thread, kind: Kind)
    requires Enabled(st, Submit(thread, kind))
    ensures var st' := Step(st, Submit(thread, kind));
            if !Taken(st, thread, kind) then st' == st
            else if thread.OnWorker? && kind.Defer? && st.workers[thread.w].deferred.None? then
              var running := Running(st.workers[thread.w].task, Some(st.accepted));
              st' == st.(accepted := st.accepted + 1, workers := st.workers[thread.w := running])
            else
              st' == st.(accepted := st.accepted + 1, calls := st.calls + [Call(thread, st.accepted)])
  {
  }

  /** A call pushes its task at the end of the queue; one sleeper is woken if there is one, and if not all
      workers are busy. */
  lemma EnqueuePushes(st: State, c: nat, woken: Option<nat>)
    requires Enabled(st, Enqueue(c, woken))
    ensures woken.Some? <==> st.busy < |st.workers| && Asleep in st.workers
    ensures woken.Some? ==> woken.value < |st.workers| && st.workers[woken.value] == Asleep
    ensures var st' := Step(st, Enqueue(c, woken));
            && c < |st.calls| && st'.calls == st.calls[..c] + st.calls[c + 1..]
            && st'.tasks == st.tasks + [st.calls[c].task] && st'.pushed == st.pushed + [st.calls[c].task]
            && st' == st.(calls := st'.calls, tasks := st'.tasks, pushed := st'.pushed, workers := st'.workers)
            && st'.workers == if woken.Some? then st.workers[woken.value := Ready] else st.workers
  {
  }

  /** A worker with the mutex leaves a pool that is stopping, waits if nothing is queued, and else takes
      the first task. */
  lemma LookTakesFirst(st: State, w: nat)
    requires Enabled(st, Look(w))
    ensures var st' := Step(st, Look(w));
            if st.stopping then st' == st.(workers := st.workers[w := Exited])
            else if st.tasks == [] then st' == st.(workers := st.workers[w := Asleep])
            else st' == st.(workers := st.workers[w := Running(st.tasks[0], None)], tasks := st.tasks[1..],
                            popped := st.popped + [st.tasks[0]], busy := st.busy + 1)
  {
  }

  /** A task done is followed by the deferred one, unless there is none or the pool is stopping. */
  lemma FinishGoesOn(st: State, w: nat)
    requires Enabled(st, Finish(w))
    ensures var Running(task, deferred), st' := st.workers[w], Step(st, Finish(w));
            && st' == st.(finished := st.finished + [task], workers := st.workers[w := st'.workers[w]])
            && (match deferred
                case Some(d) => st'.workers[w] == if st.stopping then Leaving else Running(d, None)
                case None => st'.workers[w] == Leaving)
  {
  }

  /** A worker that is done is busy no longer, wakes the thread in join() if it was the last, and looks
      for the next task without letting the mutex go. */
  lemma LeaveCountsDown(st: State, w: nat)
    requires Enabled(st, Leave(w)) && st.busy > 0
    ensures var idle := st.(busy := st.busy - 1, workers := st.workers[w := Ready],
                            joiner := if st.busy == 1 && st.joiner.Waiting? then Woken else st.joiner);
            Enabled(idle, Look(w)) && Step(st, Leave(w)) == Step(idle, Look(w))
  {
    assert st.workers[w := Ready][w := Exited] == st.workers[w := Exited];
    assert st.workers[w := Ready][w := Asleep] == st.workers[w := Asleep];
    if st.tasks != [] {
      var running := Running(st.tasks[0], None);
      assert st.workers[w := Ready][w := running] == st.workers[w := running];
    }
  }

  /** Stopping empties the queue and wakes all sleepers. */
  lemma StopEmpties(st: State)
    ensures var st' := Step(st, Stop);
            && st' == st.(tasks := [], stopping := true, workers := st'.workers)
            && |st'.workers| == |st.workers|
            && forall w :: 0 <= w < |st.workers| ==>
                 st'.workers[w] == if st.workers[w].Asleep? then Ready else st.workers[w]
  {
  }

  /** join() goes on at once in a pool that it finds stopping; otherwise, and whenever it has waited, it
      goes on exactly when no worker is busy, and then stops the pool but does not empty the queue. */
  lemma JoinWaits(st: State)
    requires Enabled(st, JoinLook)
    ensures var st' := Step(st, JoinLook);
            if st.joiner.Entering? && st.stopping then st' == st.(joiner := Joined)
            else if st.busy > 0 then st' == st.(joiner := Waiting)
            else
              && st' == st.(joiner := Joined, stopping := true, workers := st'.workers)
              && |st'.workers| == |st.workers|
              && forall w :: 0 <= w < |st.workers| ==>
                   st'.workers[w] == if st.workers[w].Asleep? then Ready else st.workers[w]
  {
  }

  /** The remaining steps: a call of join(), and waits that end for no reason. */
  lemma OtherSteps(st: State, e: Event)
    requires Enabled(st, e)
    ensures e.SpuriousWake? ==> Step(st, e) == st.(workers := st.workers[e.w := Ready])
    ensures e.JoinCalled? ==> st.joiner.NotJoining? && Step(st, e) == st.(joiner := Entering)
    ensures e.JoinSpuriousWake? ==> st.joiner.Waiting? && Step(st, e) == st.(joiner := Woken)
  {
  }

  // ----- Runs

  /** The submissions of a run that give the pool a task. */
  function TakenIn(st: State, es: seq<Event>): nat
    requires Possible(st, es)
    decreases |es|
  {
    if es == [] then 0
    else (if es[0].Submit? && Taken(st, es[0].thread, es[0].kind) then 1 else 0) + TakenIn(Step(st, es[0]), es[1..])
  }

  /** In every run exactly these are accepted. */
  lemma {:induction false} AcceptedAreTaken(st: State, es: seq<Event>)
    requires Possible(st, es)
    ensures After(st, es).accepted == st.accepted + TakenIn(st, es)
    decreases |es|
  {
    if es != [] {
      AcceptsOne(st, es[0]);
      hide Step;
      AcceptedAreTaken(Step(st, es[0]), es[1..]);
    }
  }

  lemma AcceptsOne(st: State, e: Event)
    requires Enabled(st, e)
    ensures Step(st, e).accepted ==
            st.accepted + (if e.Submit? && Taken(st, e.thread, e.kind) then 1 else 0)
  {
    if e.Submit? {
      SubmitTakes(st, e.thread, e.kind);
    }
  }
}
