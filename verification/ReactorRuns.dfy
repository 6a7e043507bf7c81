/** Whole runs of the reactor, and exactly when it does less than one would wish. */
module ReactorRuns {
  import opened ReactorSpec
  import opened ReactorProofs

  /** Each event can happen when its turn comes. */
  ghost predicate Possible(st: State, es: seq<Event>)
    decreases |es|
  {
    es == [] || (Enabled(st, es[0]) && Possible(Step(st, es[0]), es[1..]))
  }

  ghost function After(st: State, es: seq<Event>): State
    requires Possible(st, es)
    decreases |es|
  {
    if es == [] then st else After(Step(st, es[0]), es[1..])
  }

  lemma {:induction false} RunKeeps(st: State, es: seq<Event>)
    requires Inv(st) && Possible(st, es)
    ensures Inv(After(st, es))
    decreases |es|
  {
    if es != [] {
      StepKeeps(st, es[0]);
      hide Step, Inv;
      RunKeeps(Step(st, es[0]), es[1..]);
    }
  }

  /** In every run, until stop: a bit is set exactly for what is registered, the pipe's read end is
      always there and alone has no handler, and no handler is posted twice or still registered once
      it has been posted. */
  lemma MapAndBitsAgree(pipe: nat, capacity: nat, es: seq<Event>)
    requires pipe < FD_SETSIZE && capacity > 0 && Possible(Initial(pipe, capacity), es)
    ensures var st := After(Initial(pipe, capacity), es);
            && (!st.stopping ==>
                  && st.bits == st.events.Keys
                  && forall k :: k in st.events && st.events[k].NoHandler? <==> k == PipeKey(st))
            && (forall i, j :: 0 <= i < j < |st.posted| ==> st.posted[i] != st.posted[j])
            && (forall k :: k in st.events && st.events[k].Handler? ==> st.events[k].id !in st.posted)
  {
    InitialInv(pipe, capacity);
    RunKeeps(Initial(pipe, capacity), es);
  }

  /** In every run, no descriptor that select() is watching has been destroyed, although clients
      close descriptors while it does. */
  lemma NothingInUseDestroyed(pipe: nat, capacity: nat, es: seq<Event>, k: Key)
    requires pipe < FD_SETSIZE && capacity > 0 && Possible(Initial(pipe, capacity), es)
    ensures var st := After(Initial(pipe, capacity), es);
            st.loop.InSelect? && k in st.loop.snap ==> k.fd in st.open
  {
    InitialInv(pipe, capacity);
    RunKeeps(Initial(pipe, capacity), es);
  }

  // ----- Wake-ups

  /** select() was told to watch the pipe. */
  ghost predicate Watches(st: State) {
    Waiting(st) ==> PipeKey(st) in Watched(st.loop.snap, st.loop.max)
  }

  /** The condition on the state in which run() is called. */
  ghost predicate StartsWatching(st: State) {
    !st.stopping || exists k :: k in st.events && k.fd > st.pipe
  }

  /** Starting the loop watches the pipe unless the reactor was stopped before: stop() has then
      cleared the map that the number of descriptors comes from. */
  lemma RunWatchesIff(st: State)
    requires Inv(st) && Enabled(st, Run)
    ensures Watches(Step(st, Run)) <==> StartsWatching(st)
  {
    if exists k :: k in st.events && k.fd > st.pipe {
      var k :| k in st.events && k.fd > st.pipe;
      assert k.op == 0 || k.op == 1;
    }
  }

  /** Every later copy of the bits is made with the reactor not stopping. */
  lemma StepWatches(st: State, e: Event)
    requires Inv(st) && Watches(st) && Enabled(st, e)
    requires e.Run? ==> StartsWatching(st)
    ensures Watches(Step(st, e))
  {
    if e.Run? {
      RunWatchesIff(st);
    } else if e.Process? {
      StepKeeps(st, e);
    }
  }

  lemma StopsOnlyByStop(st: State, e: Event)
    requires Enabled(st, e)
    ensures Step(st, e).stopping == (st.stopping || e.Stop?)
  {
  }

  /** Along a run, run() is called in a state from which it watches the pipe. */
  ghost predicate StartedWatching(st: State, es: seq<Event>)
    requires Possible(st, es)
    decreases |es|
  {
    es != [] ==> (es[0].Run? ==> StartsWatching(st)) && StartedWatching(Step(st, es[0]), es[1..])
  }

  /** The loop has come to an end. */
  predicate Over(st: State) {
    st.loop.Finished? || st.loop.Threw?
  }

  lemma {:induction false} StaysOver(st: State, es: seq<Event>)
    requires Over(st) && Possible(st, es)
    ensures Over(After(st, es))
    decreases |es|
  {
    if es != [] {
      assert Over(Step(st, es[0]));
      hide Step;
      StaysOver(Step(st, es[0]), es[1..]);
    }
  }

  /** A loop that does not watch the pipe is in its first select(), or over. */
  lemma UnwatchedStep(st: State, e: Event)
    requires Waiting(st) && st.stopping && !Watches(st) && Enabled(st, e)
    ensures var st' := Step(st, e); st'.stopping && (Over(st') || (Waiting(st') && !Watches(st')))
  {
  }

  /** In every run select() watches the pipe if and only if the state in which run() was called had it
      do so. */
  lemma {:induction false} WatchesIff(st: State, es: seq<Event>)
    requires Inv(st) && Possible(st, es) && (!Watches(st) ==> st.stopping)
    ensures Inv(After(st, es))
    ensures Waiting(After(st, es)) ==> (Watches(After(st, es)) <==> Watches(st) && StartedWatching(st, es))
    decreases |es|
  {
    if es != [] {
      var st' := Step(st, es[0]);
      StepKeeps(st, es[0]);
      if !Watches(st) {
        UnwatchedStep(st, es[0]);
      } else if es[0].Run? {
        RunWatchesIff(st);
      } else {
        StepWatches(st, es[0]);
      }
      hide Step, Inv, Watches;
      if Over(st') {
        StaysOver(st', es[1..]);
        RunKeeps(st', es[1..]);
      } else {
        StopsOnlyByStop(st, es[0]);
        WatchesIff(st', es[1..]);
      }
    }
  }

  /** No wake-up is lost: in every run, if anything was newly registered, closed or stopped since
      select() was given its copy of the bits, or a bit is set that is not in that copy, a descriptor
      waits to be closed or the reactor is stopping, then there is something in the pipe; and then
      select() can return for it if and only if run() was called in a state from which it watches the
      pipe. */
  lemma NoLostWakeUp(pipe: nat, capacity: nat, es: seq<Event>)
    requires pipe < FD_SETSIZE && capacity > 0 && Possible(Initial(pipe, capacity), es)
    ensures var st := After(Initial(pipe, capacity), es);
            st.loop.InSelect? && (st.changed || Pending(st)) ==>
              && st.buffered > 0
              && (Enabled(st, Return(Ready({PipeKey(st)}))) <==> StartedWatching(Initial(pipe, capacity), es))
  {
    InitialInv(pipe, capacity);
    WatchesIff(Initial(pipe, capacity), es);
  }

  /** A run that calls run() before stop(), if at all, meets that condition. */
  lemma {:induction false} RunBeforeStop(st: State, es: seq<Event>)
    requires Possible(st, es) && (st.stopping ==> Run !in es)
    requires forall i, j :: 0 <= i < j < |es| && es[j].Run? ==> !es[i].Stop?
    ensures StartedWatching(st, es)
    decreases |es|
  {
    if es != [] {
      StopsOnlyByStop(st, es[0]);
      hide Step;
      assert forall i :: 0 <= i < |es[1..]| ==> es[1..][i] == es[i + 1];
      RunBeforeStop(Step(st, es[0]), es[1..]);
    }
  }

  /** Inside select() nothing anybody does changes what it watches. */
  lemma {:induction false} StillInSelect(st: State, es: seq<Event>)
    requires st.loop.InSelect? && Possible(st, es)
    requires forall e :: e in es ==> !e.Return?
    ensures After(st, es).loop == st.loop && After(st, es).pipe == st.pipe
    decreases |es|
  {
    if es != [] {
      assert es[0] in es;
      assert Step(st, es[0]).loop == st.loop && Step(st, es[0]).pipe == st.pipe;
      hide Step;
      StillInSelect(Step(st, es[0]), es[1..]);
    }
  }

  /** A reactor stopped before it is started sleeps for ever, whatever is done to it then: only a
      signal ends its select(). */
  lemma StoppedFirstSleeps(pipe: nat, capacity: nat, es: seq<Event>, mask: set<Key>)
    requires pipe < FD_SETSIZE && capacity > 0
    requires Possible(Initial(pipe, capacity), [Stop, Run] + es)
    requires forall e :: e in es ==> !e.Return?
    ensures var st := After(Initial(pipe, capacity), [Stop, Run] + es);
            st.stopping && st.loop.InSelect? && !Enabled(st, Return(Ready(mask)))
  {
    var st0 := Initial(pipe, capacity);
    assert ([Stop, Run] + es)[1..] == [Run] + es;
    assert ([Run] + es)[1..] == es;
    var st1 := Step(st0, Stop);
    var st2 := Step(st1, Run);
    StillInSelect(st2, es);
    StaysStopping(st2, es);
    assert st1.events == map[];
    assert st2.loop.max == Bounds(-1, -1);
    assert Watched(st2.loop.snap, st2.loop.max) == {};
  }

  lemma {:induction false} StaysStopping(st: State, es: seq<Event>)
    requires st.stopping && Possible(st, es)
    ensures After(st, es).stopping
    decreases |es|
  {
    if es != [] {
      StopsOnlyByStop(st, es[0]);
      StaysStopping(Step(st, es[0]), es[1..]);
    }
  }

  // ----- What one round does

  /** The loop deals with the first of the descriptors reported and leaves the others registered: it
      gives up exactly if a client has taken that one out since select() was called. */
  lemma RoundServesFirst(st: State)
    requires Inv(st) && Enabled(st, Process) && st.loop.result.Ready? && !st.stopping
    ensures var st', k := Step(st, Process), First(st.loop.result.mask);
            && (st'.loop.Threw? <==> k in st.withdrawn)
            && (k !in st.withdrawn ==>
                  && k in st.events
                  && (k == PipeKey(st) ==> st'.events == st.events && st'.buffered == 0)
                  && (k != PipeKey(st) ==>
                        && st.events[k].Handler? && st'.events == st.events - {k}
                        && st'.posted == st.posted + [st.events[k].id] && st'.buffered == st.buffered))
  {
    hide MaxFd;
    var mask := st.loop.result.mask;
    assert Scanned(mask, st.loop.max) == mask;
  }

  /** A descriptor has been dealt with: its handler is posted or gone, or it is the pipe and empty. */
  ghost predicate Dealt(st: State, k: Key) {
    if k == PipeKey(st) then st.buffered == 0 else k !in st.events
  }

  /** So a round leaves nothing that was ready to be dealt with if and only if, of what was reported,
      clients have withdrawn all but the first. */
  lemma RoundServesAllIff(st: State)
    requires Inv(st) && Enabled(st, Process) && st.loop.result.Ready? && !st.stopping
    ensures var mask := st.loop.result.mask;
            (forall k :: k in mask ==> Dealt(Step(st, Process), k)) <==>
            mask - st.withdrawn == {} || mask - st.withdrawn == {First(mask)}
  {
    var mask := st.loop.result.mask;
    forall k | k in mask
      ensures Dealt(Step(st, Process), k) <==> k in st.withdrawn || k == First(mask)
    {
      DealtIff(st, k);
    }
    hide Dealt, Step, Inv, First;
    AllButOne(mask, st.withdrawn, First(mask));
  }

  lemma AllButOne(mask: set<Key>, withdrawn: set<Key>, f: Key)
    requires f in mask
    ensures (forall k :: k in mask ==> k in withdrawn || k == f) <==>
            mask - withdrawn == {} || mask - withdrawn == {f}
  {
    var rest := mask - withdrawn;
    assert forall k :: k in rest <==> k in mask && k !in withdrawn;
  }

  /** What a round does about one of the descriptors reported. */
  lemma DealtIff(st: State, k: Key)
    requires Inv(st) && Enabled(st, Process) && st.loop.result.Ready? && !st.stopping
    requires k in st.loop.result.mask
    ensures Dealt(Step(st, Process), k) <==> k in st.withdrawn || k == First(st.loop.result.mask)
  {
    RoundServesFirst(st);
    RoundKeepsOthers(st);
    hide Step, First, Once;
    assert k in st.events || k in st.withdrawn;
  }

  /** A round that gives up changes nothing, and no round changes the descriptor of the pipe. */
  lemma RoundKeepsOthers(st: State)
    requires Enabled(st, Process) && st.loop.result.Ready? && !st.stopping
    ensures PipeKey(Step(st, Process)) == PipeKey(st)
    ensures Step(st, Process).loop.Threw? ==>
              Step(st, Process).events == st.events && Step(st, Process).buffered == st.buffered
  {
    hide MaxFd, First, Scanned;
  }
}
