/** Whole runs of the thread pool: what holds in every reachable state, what a deferred task is
    promised, and what stop() and join() leave behind. */
module ThreadPoolRuns {
  import opened Options
  import opened ThreadPoolSpec
  import opened ThreadPoolProofs

  /** Each event can happen when its turn comes. */
  predicate Possible(st: State, es: seq<Event>)
    decreases |es|
  {
    es == [] || (Enabled(st, es[0]) && Possible(Step(st, es[0]), es[1..]))
  }

  function After(st: State, es: seq<Event>): State
    requires Possible(st, es)
    decreases |es|
  {
    if es == [] then st else After(Step(st, es[0]), es[1..])
  }

  lemma {:induction false} RunKeeps(st: State, es: seq<Event>)
    requires Inv(st) && Possible(st, es)
    ensures Inv(After(st, es))
    decreases |es|
  {
    if es != [] {
      StepKeeps(st, es[0]);
      RunKeeps(Step(st, es[0]), es[1..]);
    }
  }

  /** In every run of any number of workers: a worker only sleeps while at least as many woken ones
      are on their way as there are tasks queued, and none does once the pool is stopping; the thread
      in join() only sleeps while a worker is busy. */
  lemma NoLostWakeUp(threads: nat, es: seq<Event>)
    requires Possible(Initial(threads), es)
    ensures var st := After(Initial(threads), es);
            && st.busy == Count(st.workers, IsBusy)
            && (Asleep in st.workers ==> !st.stopping && Count(st.workers, IsReady) >= |st.tasks|)
            && (st.joiner.Waiting? ==> st.busy > 0)
  {
    InitialInv(threads);
    RunKeeps(Initial(threads), es);
  }

  /** In every run no task is in two places or finished twice; until the pool is stopping each task
      accepted is in exactly one place, and tasks leave the queue in the order they were pushed. */
  lemma TasksConserved(threads: nat, es: seq<Event>, t: Task)
    requires Possible(Initial(threads), es)
    ensures var st := After(Initial(threads), es);
            && Copies(st, t) <= (if t < st.accepted then 1 else 0)
            && (!st.stopping && t < st.accepted ==> Copies(st, t) == 1)
            && st.popped <= st.pushed
            && (!st.stopping ==> st.pushed == st.popped + st.tasks)
  {
    InitialInv(threads);
    RunKeeps(Initial(threads), es);
  }

  /** While tasks are queued and the pool is not stopping, some worker can take a step towards them,
      or a call to the pool can: the pool does not stall. */
  lemma QueueCanMove(st: State) returns (e: Event)
    requires Inv(st) && !st.stopping && st.tasks != [] && st.workers != []
    ensures Enabled(st, e) && (WorkerStep(e) || e.Enqueue?)
  {
    hide Conserved, CallersRunning, InOrder;
    if Asleep in st.workers {
      var w := SomeCounted(st.workers, IsReady);
      e := Look(w);
    } else {
      match st.workers[0] {
        case Ready => e := Look(0);
        case Leaving => e := Leave(0);
        case Running(_, _) =>
          if Calling(st, OnWorker(0)) {
            e := Enqueue(0, None);
          } else {
            e := Finish(0);
          }
      }
    }
  }

  // ----- A deferred task

  /** What happens elsewhere leaves a worker its task and its slot. */
  lemma {:induction false} SlotHeld(st: State, es: seq<Event>, w: nat)
    requires Possible(st, es) && Finish(w) !in es
    requires w < |st.workers| && st.workers[w].Running? && st.workers[w].deferred.Some?
    ensures w < |After(st, es).workers| && After(st, es).workers[w] == st.workers[w]
    decreases |es|
  {
    if es != [] {
      assert Step(st, es[0]).workers[w] == st.workers[w];
      SlotHeld(Step(st, es[0]), es[1..], w);
    }
  }

  /** A task put in a worker's slot is what that worker runs next, whatever else happens meanwhile;
      it is dropped exactly if the pool is stopping by then. */
  lemma DeferredRunsNext(st: State, es: seq<Event>, w: nat)
    requires Inside(st, OnWorker(w)) && st.workers[w].deferred.None? && !st.stopping
    requires Enabled(st, Submit(OnWorker(w), Defer))
    requires var on := Step(st, Submit(OnWorker(w), Defer));
             Possible(on, es) && Finish(w) !in es && Enabled(After(on, es), Finish(w))
    ensures var before := After(Step(st, Submit(OnWorker(w), Defer)), es);
            && w < |before.workers|
            && Step(before, Finish(w)).workers[w] ==
               (if before.stopping then Leaving else Running(st.accepted, None))
  {
    SlotHeld(Step(st, Submit(OnWorker(w), Defer)), es, w);
  }

  // ----- Stopping

  /** The task a worker has in hand. */
  predicate Holds(st: State, w: nat, t: Task) {
    w < |st.workers| && st.workers[w].Running? && st.workers[w].task == t
  }

  /** Once the pool is stopping it stays so, no task is accepted or leaves the queue, and a worker
      runs nothing but what it had in hand. */
  lemma {:induction false} StoppingStartsNothing(st: State, es: seq<Event>)
    requires st.stopping && Possible(st, es)
    ensures var st' := After(st, es);
            && st'.stopping && st'.accepted == st.accepted && st'.popped == st.popped
            && (forall w: nat, t :: Holds(st', w, t) ==> Holds(st, w, t))
            && (forall t :: t in st'.finished ==> t in st.finished || exists w: nat :: Holds(st, w, t))
    decreases |es|
  {
    if es != [] {
      StoppingStep(st, es[0]);
      hide Step, Holds;
      StoppingStartsNothing(Step(st, es[0]), es[1..]);
    }
  }

  lemma StoppingStep(st: State, e: Event)
    requires st.stopping && Enabled(st, e)
    ensures var st' := Step(st, e);
            && st'.stopping && st'.accepted == st.accepted && st'.popped == st.popped
            && (forall w: nat, t :: Holds(st', w, t) ==> Holds(st, w, t))
            && (forall t :: t in st'.finished ==> t in st.finished || exists w: nat :: Holds(st, w, t))
  {
    var st' := Step(st, e);
    if e.Finish? {
      assert Holds(st, e.w, st.workers[e.w].task);
      assert st'.finished == st.finished + [st.workers[e.w].task];
    } else {
      assert st'.finished == st.finished;
    }
  }

  /** When join() is what stops the pool, no worker is running a task and none ever will again.  But
      it has waited for idle workers and not for an empty queue: everything accepted has been run if
      and only if nothing is queued and nobody is half-way through posting. */
  lemma JoinStopsIdlePool(threads: nat, es: seq<Event>, later: seq<Event>)
    requires Possible(Initial(threads), es)
    requires var st := After(Initial(threads), es);
             Enabled(st, JoinLook) && !st.stopping && Step(st, JoinLook).stopping && Possible(Step(st, JoinLook), later)
    ensures var st := After(Initial(threads), es);
            && (forall w: nat, t :: !Holds(After(Step(st, JoinLook), later), w, t))
            && After(Step(st, JoinLook), later).finished == st.finished
            && ((forall t :: 0 <= t < st.accepted ==> t in st.finished) <==> st.tasks == [] && st.calls == [])
  {
    InitialInv(threads);
    RunKeeps(Initial(threads), es);
    var st := After(Initial(threads), es);
    CountAll(st.workers, IsBusy);
    assert forall w: nat :: w < |st.workers| ==> st.workers[w] in st.workers;
    var stopped := Step(st, JoinLook);
    assert forall w: nat, t :: !Holds(stopped, w, t);
    StoppingStartsNothing(stopped, later);
    NothingFinishes(stopped, later);
    AllFinishedIff(st);
  }

  lemma AllFinishedIff(st: State)
    requires Conserved(st) && !st.stopping
    requires forall w :: w in st.workers ==> !IsBusy(w)
    ensures (forall t :: 0 <= t < st.accepted ==> t in st.finished) <==> st.tasks == [] && st.calls == []
  {
    if st.tasks != [] {
      UnfinishedTask(st, st.tasks[0]);
    } else if st.calls != [] {
      UnfinishedTask(st, st.calls[0].task);
    } else {
      forall t: Task | t < st.accepted
        ensures t in st.finished
      {
        NobodyDoing(st.workers, t);
        assert Copies(st, t) == 1;
      }
    }
  }

  /** A task that is queued or being posted has been accepted, and not finished. */
  lemma UnfinishedTask(st: State, t: Task)
    requires Conserved(st) && !st.stopping
    requires t in st.tasks || (st.calls != [] && t == st.calls[0].task)
    ensures t < st.accepted && t !in st.finished
  {
    assert Copies(st, t) > multiset(st.finished)[t];
  }

  lemma {:induction false} NobodyDoing(ws: seq<Worker>, t: Task)
    requires forall w :: w in ws ==> !IsBusy(w)
    ensures AllDoing(ws, t) == 0
  {
    if ws != [] {
      assert ws[0] in ws;
      NobodyDoing(ws[1..], t);
    }
  }

  lemma {:induction false} NothingFinishes(st: State, es: seq<Event>)
    requires st.stopping && Possible(st, es)
    requires forall w: nat, t :: !Holds(st, w, t)
    ensures After(st, es).finished == st.finished
    decreases |es|
  {
    if es != [] {
      if es[0].Finish? {
        assert Holds(st, es[0].w, st.workers[es[0].w].task);
      }
      StoppingStep(st, es[0]);
      NothingFinishes(Step(st, es[0]), es[1..]);
    }
  }

  /** A task posted just before join() is called is accepted and never run. */
  lemma PostedTaskDropped() returns (es: seq<Event>)
    ensures es == [Submit(Client(0), Post), Enqueue(0, None), JoinCalled, JoinLook, Look(0)]
    ensures Possible(Initial(1), es)
    ensures var st := After(Initial(1), es);
            st.accepted == 1 && st.tasks == [0] && st.workers == [Exited] && st.finished == []
  {
    es := [Submit(Client(0), Post), Enqueue(0, None), JoinCalled, JoinLook, Look(0)];
    var s0 := Initial(1);
    assert s0.workers == [Ready];
    var s1 := Step(s0, es[0]);
    var s2 := Step(s1, es[1]);
    var s3 := Step(s2, es[2]);
    var s4 := Step(s3, es[3]);
    assert s1 == s0.(calls := [Call(Client(0), 0)], accepted := 1);
    assert s2 == s0.(tasks := [0], pushed := [0], accepted := 1);
    assert s4.workers == [Ready];
  }

  // ----- The end

  function Ahead(w: Worker): nat {
    match w
    case Running(_, deferred) => if deferred.Some? then 4 else 3
    case Leaving => 2
    case Ready => 1
    case _ => 0
  }

  function AllAhead(ws: seq<Worker>): nat {
    if ws == [] then 0 else Ahead(ws[0]) + AllAhead(ws[1..])
  }

  lemma {:induction false} AheadUpdate(ws: seq<Worker>, i: nat, w: Worker)
    requires i < |ws|
    ensures AllAhead(ws[i := w]) + Ahead(ws[i]) == AllAhead(ws) + Ahead(w)
  {
    if i == 0 {
      assert ws[0 := w][1..] == ws[1..];
    } else {
      AheadUpdate(ws[1..], i - 1, w);
      assert ws[i := w][1..] == ws[1..][i - 1 := w];
    }
  }

  predicate WorkerStep(e: Event) { e.Look? || e.Finish? || e.Leave? }

  function WorkerSteps(es: seq<Event>): nat {
    if es == [] then 0 else (if WorkerStep(es[0]) then 1 else 0) + WorkerSteps(es[1..])
  }

  /** Once the pool is stopping the workers have only so many steps left, in every run. */
  lemma {:induction false} WindsDown(st: State, es: seq<Event>)
    requires Inv(st) && st.stopping && Possible(st, es)
    ensures WorkerSteps(es) + AllAhead(After(st, es).workers) <= AllAhead(st.workers)
    decreases |es|
  {
    if es != [] {
      StepKeeps(st, es[0]);
      AheadStep(st, es[0]);
      hide Step, Inv;
      WindsDown(Step(st, es[0]), es[1..]);
    }
  }

  lemma AheadStep(st: State, e: Event)
    requires NoneForgotten(st) && st.stopping && Enabled(st, e)
    ensures Step(st, e).stopping
    ensures (if WorkerStep(e) then 1 else 0) + AllAhead(Step(st, e).workers) <= AllAhead(st.workers)
  {
    var st' := Step(st, e);
    if WorkerStep(e) {
      AheadUpdate(st.workers, e.w, st'.workers[e.w]);
      assert st'.workers == st.workers[e.w := st'.workers[e.w]];
    } else {
      assert forall w: nat :: w < |st.workers| ==> st.workers[w] in st.workers;
      assert st'.workers == st.workers;
    }
  }

  /** Nor do they get stuck on the way: until all workers are gone, one can move or a call to the
      pool can, so that a pool whose tasks return ends. */
  lemma WorkerCanMove(st: State, w: nat) returns (e: Event)
    requires Inv(st) && st.stopping && w < |st.workers| && st.workers[w] != Exited
    ensures Enabled(st, e) && (WorkerStep(e) || e.Enqueue?)
  {
    assert st.workers[w] in st.workers;
    match st.workers[w] {
      case Ready => e := Look(w);
      case Leaving => e := Leave(w);
      case Running(_, _) =>
        if Calling(st, OnWorker(w)) {
          e := Enqueue(0, None);
        } else {
          e := Finish(w);
        }
    }
  }

  // ----- The queue

  /** A bound on the steps the workers have left: every task queued is worth a round of the loop. */
  function Work(st: State): nat {
    4 * |st.tasks| + AllAhead(st.workers)
  }

  lemma WorkStep(st: State, e: Event)
    requires Enabled(st, e) && WorkerStep(e)
    ensures Work(Step(st, e)) < Work(st)
    ensures Step(st, e).calls == st.calls && Step(st, e).stopping == st.stopping
    ensures Step(st, e).pushed == st.pushed && |Step(st, e).workers| == |st.workers|
  {
    var st' := Step(st, e);
    AheadUpdate(st.workers, e.w, st'.workers[e.w]);
    assert st'.workers == st.workers[e.w := st'.workers[e.w]];
  }

  lemma {:induction false} WorkersBounded(st: State, es: seq<Event>)
    requires Inv(st) && Possible(st, es) && forall e :: e in es ==> WorkerStep(e)
    ensures var st' := After(st, es);
            && Inv(st') && |es| + Work(st') <= Work(st) && |st'.workers| == |st.workers|
            && st'.calls == st.calls && st'.stopping == st.stopping && st'.pushed == st.pushed
    decreases |es|
  {
    if es != [] {
      assert es[0] in es;
      assert forall e :: e in es[1..] ==> e in es;
      StepKeeps(st, es[0]);
      WorkStep(st, es[0]);
      hide Step, Inv, Work;
      WorkersBounded(Step(st, es[0]), es[1..]);
    }
  }

  /** In a pool that is not stopping and is left alone, the workers empty the queue: they make a bounded
      number of steps, can go on while a task is queued, and in the end all that was queued has been
      taken, in order. */
  lemma QueueEmpties(st: State, es: seq<Event>) returns (next: Event)
    requires Inv(st) && !st.stopping && st.calls == [] && st.workers != []
    requires Possible(st, es) && forall e :: e in es ==> WorkerStep(e)
    ensures |es| <= Work(st)
    ensures var st' := After(st, es);
            if st'.tasks == [] then st'.popped == st.popped + st.tasks
            else Enabled(st', next) && WorkerStep(next)
  {
    WorkersBounded(st, es);
    var st' := After(st, es);
    hide After, Possible;
    if st'.tasks == [] {
      next := Stop;
      assert st'.popped == st'.pushed == st.popped + st.tasks;
    } else {
      next := QueueCanMove(st');
    }
  }
}
