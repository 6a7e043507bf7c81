/** What every step of the thread pool keeps, for any number of workers: no wake-up is lost, no task
    is lost or run twice, and queued tasks start in the order they were queued. */
module ThreadPoolProofs {
  import opened Options
  import opened ThreadPoolSpec

  // ----- Counting workers

  predicate IsBusy(w: Worker) { w.Running? || w.Leaving? }

  predicate IsReady(w: Worker) { w.Ready? }

  function Count(ws: seq<Worker>, p: Worker -> bool): nat {
    if ws == [] then 0 else (if p(ws[0]) then 1 else 0) + Count(ws[1..], p)
  }

  lemma {:induction false} CountUpdate(ws: seq<Worker>, i: nat, w: Worker, p: Worker -> bool)
    requires i < |ws|
    ensures Count(ws[i := w], p) + (if p(ws[i]) then 1 else 0) == Count(ws, p) + (if p(w) then 1 else 0)
  {
    if i == 0 {
      assert ws[0 := w][1..] == ws[1..];
    } else {
      CountUpdate(ws[1..], i - 1, w, p);
      assert ws[i := w][1..] == ws[1..][i - 1 := w];
    }
  }

  lemma {:induction false} CountAll(ws: seq<Worker>, p: Worker -> bool)
    ensures Count(ws, p) <= |ws|
    ensures Count(ws, p) == |ws| ==> forall w :: w in ws ==> p(w)
    ensures Count(ws, p) == 0 ==> forall w :: w in ws ==> !p(w)
  {
    if ws != [] {
      CountAll(ws[1..], p);
      assert forall w :: w in ws ==> w == ws[0] || w in ws[1..];
    }
  }

  lemma {:induction false} SomeCounted(ws: seq<Worker>, p: Worker -> bool) returns (i: nat)
    requires Count(ws, p) > 0
    ensures i < |ws| && p(ws[i])
  {
    if p(ws[0]) {
      i := 0;
    } else {
      i := SomeCounted(ws[1..], p);
      i := i + 1;
    }
  }

  lemma {:induction false} CountWakeAll(ws: seq<Worker>)
    ensures Count(WakeAll(ws), IsBusy) == Count(ws, IsBusy)
  {
    if ws != [] {
      CountWakeAll(ws[1..]);
      assert WakeAll(ws)[1..] == WakeAll(ws[1..]);
    }
  }

  // ----- Where a task is

  function Doing(w: Worker, t: Task): nat {
    if w.Running? then (if w.task == t then 1 else 0) + (if w.deferred == Some(t) then 1 else 0) else 0
  }

  function AllDoing(ws: seq<Worker>, t: Task): nat {
    if ws == [] then 0 else Doing(ws[0], t) + AllDoing(ws[1..], t)
  }

  lemma {:induction false} DoingUpdate(ws: seq<Worker>, i: nat, w: Worker, t: Task)
    requires i < |ws|
    ensures AllDoing(ws[i := w], t) + Doing(ws[i], t) == AllDoing(ws, t) + Doing(w, t)
  {
    if i == 0 {
      assert ws[0 := w][1..] == ws[1..];
    } else {
      DoingUpdate(ws[1..], i - 1, w, t);
      assert ws[i := w][1..] == ws[1..][i - 1 := w];
    }
  }

  lemma {:induction false} DoingWakeAll(ws: seq<Worker>, t: Task)
    ensures AllDoing(WakeAll(ws), t) == AllDoing(ws, t)
  {
    if ws != [] {
      DoingWakeAll(ws[1..], t);
      assert WakeAll(ws)[1..] == WakeAll(ws[1..]);
    }
  }

  function Submitting(cs: seq<Call>, t: Task): nat {
    if cs == [] then 0 else (if cs[0].task == t then 1 else 0) + Submitting(cs[1..], t)
  }

  lemma {:induction false} SubmittingConcat(a: seq<Call>, b: seq<Call>, t: Task)
    ensures Submitting(a + b, t) == Submitting(a, t) + Submitting(b, t)
  {
    if a == [] {
      assert a + b == b;
    } else {
      SubmittingConcat(a[1..], b, t);
      assert (a + b)[1..] == a[1..] + b;
    }
  }

  lemma SubmittingRemove(cs: seq<Call>, i: nat, t: Task)
    requires i < |cs|
    ensures Submitting(cs, t) == Submitting(cs[..i] + cs[i + 1..], t) + (if cs[i].task == t then 1 else 0)
  {
    assert cs == cs[..i] + ([cs[i]] + cs[i + 1..]);
    SubmittingConcat(cs[..i], [cs[i]] + cs[i + 1..], t);
    SubmittingConcat([cs[i]], cs[i + 1..], t);
    SubmittingConcat(cs[..i], cs[i + 1..], t);
  }

  /** How many places hold a task. */
  function Copies(st: State, t: Task): nat {
    multiset(st.tasks)[t] + Submitting(st.calls, t) + AllDoing(st.workers, t) + multiset(st.finished)[t]
  }

  // ----- The invariant

  /** `busy_workers_` counts the workers in their run section. */
  ghost predicate BusyCounted(st: State) {
    st.busy == Count(st.workers, IsBusy)
  }

  /** No wake-up is lost: while somebody sleeps, the workers that have been woken and have yet to
      look are at least as many as the tasks queued; once stopping nobody sleeps. */
  ghost predicate NoneForgotten(st: State) {
    if st.stopping then Asleep !in st.workers
    else Asleep in st.workers ==> Count(st.workers, IsReady) >= |st.tasks|
  }

  /** A call made by one of the pool's tasks comes from a worker that is running one, and no thread
      makes two calls at once. */
  ghost predicate CallersRunning(st: State) {
    && (forall i :: 0 <= i < |st.calls| && st.calls[i].thread.OnWorker? ==> Inside(st, st.calls[i].thread))
    && (forall i, j :: 0 <= i < j < |st.calls| ==> st.calls[i].thread != st.calls[j].thread)
  }

  /** No task is in two places, or in one before it is accepted; until the pool is stopping each
      accepted task is in exactly one: the queue, a call, a worker's hands or slot, or done. */
  ghost predicate Conserved(st: State) {
    forall t: Task :: Copies(st, t) <= (if t < st.accepted then 1 else 0)
                      && (!st.stopping && t < st.accepted ==> Copies(st, t) == 1)
  }

  /** Tasks leave the queue in the order in which they were pushed. */
  ghost predicate InOrder(st: State) {
    st.popped <= st.pushed && (!st.stopping ==> st.pushed == st.popped + st.tasks)
  }

  /** No worker goes before the pool is stopping. */
  ghost predicate NoneGone(st: State) {
    !st.stopping ==> Exited !in st.workers
  }

  /** The thread in join() only sleeps while some worker is busy. */
  ghost predicate JoinerAwake(st: State) {
    st.joiner.Waiting? ==> st.busy > 0
  }

  ghost predicate Inv(st: State) {
    && BusyCounted(st) && NoneForgotten(st) && NoneGone(st) && CallersRunning(st)
    && Conserved(st) && InOrder(st) && JoinerAwake(st)
  }

  lemma {:induction false} InitialIdle(n: nat, t: Task)
    ensures Count(Initial(n).workers, IsBusy) == 0 && AllDoing(Initial(n).workers, t) == 0
  {
    if n > 0 {
      InitialIdle(n - 1, t);
      assert Initial(n).workers[1..] == Initial(n - 1).workers;
    }
  }

  lemma InitialInv(threads: nat)
    ensures Inv(Initial(threads))
  {
    forall t: Task
      ensures Copies(Initial(threads), t) == 0
    {
      InitialIdle(threads, t);
    }
    InitialIdle(threads, 0);
  }

  /** A worker about to leave is counted as busy. */
  lemma LeavingBusy(st: State, w: nat)
    requires BusyCounted(st) && w < |st.workers| && IsBusy(st.workers[w])
    ensures st.busy > 0
  {
    CountAll(st.workers, IsBusy);
  }

  // ----- busy_workers_

  lemma StepBusy(st: State, e: Event)
    requires BusyCounted(st) && Enabled(st, e)
    ensures BusyCounted(Step(st, e))
  {
    var st' := Step(st, e);
    match e {
      case Submit(thread, kind) =>
        if st'.workers != st.workers { CountUpdate(st.workers, thread.w, st'.workers[thread.w], IsBusy); }
      case Enqueue(c, woken) => if woken.Some? { CountUpdate(st.workers, woken.value, Ready, IsBusy); }
      case Look(w) => CountUpdate(st.workers, w, st'.workers[w], IsBusy);
      case SpuriousWake(w) => CountUpdate(st.workers, w, Ready, IsBusy);
      case Finish(w) => CountUpdate(st.workers, w, st'.workers[w], IsBusy);
      case Leave(w) =>
        LeavingBusy(st, w);
        CountUpdate(st.workers, w, st'.workers[w], IsBusy);
      case Stop => CountWakeAll(st.workers);
      case JoinLook => CountWakeAll(st.workers);
      case _ =>
    }
  }

  // ----- Wake-ups

  lemma StepAwake(st: State, e: Event)
    requires BusyCounted(st) && NoneForgotten(st) && Enabled(st, e)
    ensures NoneForgotten(Step(st, e))
  {
    var st' := Step(st, e);
    match e {
      case Submit(thread, kind) =>
        if st'.workers != st.workers {
          CountUpdate(st.workers, thread.w, st'.workers[thread.w], IsReady);
          SameSleepers(st.workers, thread.w, st'.workers[thread.w]);
        }
      case Enqueue(c, woken) =>
        if woken.Some? {
          CountUpdate(st.workers, woken.value, Ready, IsReady);
          SameSleepers(st.workers, woken.value, Ready);
        } else if st.busy >= |st.workers| {
          CountAll(st.workers, IsBusy);
        }
      case Look(w) =>
        CountUpdate(st.workers, w, st'.workers[w], IsReady);
        if !st'.workers[w].Asleep? { SameSleepers(st.workers, w, st'.workers[w]); }
      case SpuriousWake(w) =>
        CountUpdate(st.workers, w, Ready, IsReady);
        SameSleepers(st.workers, w, Ready);
      case Finish(w) =>
        CountUpdate(st.workers, w, st'.workers[w], IsReady);
        SameSleepers(st.workers, w, st'.workers[w]);
      case Leave(w) =>
        CountUpdate(st.workers, w, st'.workers[w], IsReady);
        if !st'.workers[w].Asleep? { SameSleepers(st.workers, w, st'.workers[w]); }
      case _ =>
    }
  }

  lemma SameSleepers(ws: seq<Worker>, i: nat, w: Worker)
    requires i < |ws| && !w.Asleep?
    ensures Asleep in ws[i := w] ==> Asleep in ws
  {
  }

  lemma StepGone(st: State, e: Event)
    requires NoneGone(st) && Enabled(st, e)
    ensures NoneGone(Step(st, e))
  {
  }

  // ----- Callers

  lemma StepCallers(st: State, e: Event)
    requires CallersRunning(st) && Enabled(st, e)
    ensures CallersRunning(Step(st, e))
  {
    var st' := Step(st, e);
    forall c | c in st.calls && c.thread.OnWorker?
      ensures Inside(st', c.thread)
    {
      CallerStays(st, e, c);
    }
    assert forall c :: c in st'.calls && c !in st.calls && c.thread.OnWorker? ==> Inside(st', c.thread);
    NoThreadTwice(st, e);
    hide Step, Enabled;
  }

  /** A worker in the middle of a call keeps running its task. */
  lemma CallerStays(st: State, e: Event, c: Call)
    requires CallersRunning(st) && Enabled(st, e)
    requires c in st.calls && c.thread.OnWorker?
    ensures Inside(Step(st, e), c.thread)
  {
    assert Inside(st, c.thread);
  }

  lemma NoThreadTwice(st: State, e: Event)
    requires CallersRunning(st) && Enabled(st, e)
    ensures var cs := Step(st, e).calls;
            forall i, j :: 0 <= i < j < |cs| ==> cs[i].thread != cs[j].thread
  {
    if e.Enqueue? {
      var cs := Step(st, e).calls;
      assert forall i :: 0 <= i < |cs| ==> cs[i] == st.calls[if i < e.call then i else i + 1];
    }
  }

  // ----- Tasks

  /** How a step moves a task about: the newly accepted one comes in once, and none goes unless the
      pool is stopping. */
  ghost predicate Moves(st: State, st': State, t: Task) {
    && (st'.accepted == st.accepted || (st'.accepted == st.accepted + 1 && !st.stopping))
    && (st.stopping ==> st'.stopping)
    && var n := Copies(st, t) + (if st.accepted == t < st'.accepted then 1 else 0);
       Copies(st', t) == n || (st'.stopping && Copies(st', t) <= n)
  }

  lemma StepMoves(st: State, e: Event, t: Task)
    requires Enabled(st, e)
    ensures Moves(st, Step(st, e), t)
  {
    var st' := Step(st, e);
    match e {
      case Submit(thread, kind) => SubmitMoves(st, thread, kind, t);
      case Enqueue(c, woken) => EnqueueMoves(st, c, woken, t);
      case Look(w) => LookMoves(st, w, t);
      case SpuriousWake(w) => DoingUpdate(st.workers, w, Ready, t);
      case Finish(w) => FinishMoves(st, w, t);
      case Leave(w) => LookMoves(st, w, t);
      case Stop => DoingWakeAll(st.workers, t);
      case JoinLook => DoingWakeAll(st.workers, t);
      case _ =>
    }
  }

  lemma FinishMoves(st: State, w: nat, t: Task)
    requires w < |st.workers| && st.workers[w].Running?
    ensures Moves(st, DoFinish(st, w), t)
  {
    DoingUpdate(st.workers, w, DoFinish(st, w).workers[w], t);
  }

  lemma SubmitMoves(st: State, thread: Thread, kind: Kind, t: Task)
    ensures Moves(st, DoSubmit(st, thread, kind), t)
  {
    var st' := DoSubmit(st, thread, kind);
    if st'.workers != st.workers {
      DoingUpdate(st.workers, thread.w, st'.workers[thread.w], t);
    } else if st'.calls != st.calls {
      SubmittingConcat(st.calls, [Call(thread, st.accepted)], t);
    }
  }

  lemma EnqueueMoves(st: State, c: nat, woken: Option<nat>, t: Task)
    requires c < |st.calls| && NotifiesOne(st, woken)
    ensures Moves(st, DoEnqueue(st, c, woken), t)
  {
    SubmittingRemove(st.calls, c, t);
    if woken.Some? {
      DoingUpdate(st.workers, woken.value, Ready, t);
    }
  }

  lemma LookMoves(st: State, w: nat, t: Task)
    requires w < |st.workers| && (st.workers[w].Ready? || st.workers[w].Leaving?)
    ensures Moves(st, DoLook(st, w), t)
  {
    DoingUpdate(st.workers, w, DoLook(st, w).workers[w], t);
    if st.tasks != [] {
      assert st.tasks == [st.tasks[0]] + st.tasks[1..];
    }
  }

  lemma StepConserves(st: State, e: Event)
    requires Conserved(st) && Enabled(st, e)
    ensures Conserved(Step(st, e))
  {
    var st' := Step(st, e);
    forall t: Task
      ensures Copies(st', t) <= (if t < st'.accepted then 1 else 0)
              && (!st'.stopping && t < st'.accepted ==> Copies(st', t) == 1)
    {
      StepMoves(st, e, t);
      hide Copies, Step;
    }
  }

  // ----- Order

  lemma StepOrdered(st: State, e: Event)
    requires InOrder(st) && Enabled(st, e)
    ensures InOrder(Step(st, e))
  {
    match e {
      case Enqueue(c, woken) =>
      case Look(w) => LookOrdered(st, w);
      case Leave(w) => LookOrdered(st, w);
      case _ =>
    }
  }

  lemma LookOrdered(st: State, w: nat)
    requires InOrder(st) && w < |st.workers|
    ensures InOrder(DoLook(st, w))
  {
    if !st.stopping && st.tasks != [] {
      assert st.tasks == [st.tasks[0]] + st.tasks[1..];
    }
  }

  // ----- All of it

  lemma StepKeeps(st: State, e: Event)
    requires Inv(st) && Enabled(st, e)
    ensures Inv(Step(st, e))
  {
    StepBusy(st, e);
    StepAwake(st, e);
    StepGone(st, e);
    StepCallers(st, e);
    StepConserves(st, e);
    StepOrdered(st, e);
    JoinerStep(st, e);
    hide BusyCounted, NoneForgotten, NoneGone, CallersRunning, Conserved, InOrder, JoinerAwake, Step;
  }

  lemma JoinerStep(st: State, e: Event)
    requires BusyCounted(st) && JoinerAwake(st) && Enabled(st, e)
    ensures JoinerAwake(Step(st, e))
  {
    if e.Leave? {
      LeavingBusy(st, e.w);
    }
  }
}
