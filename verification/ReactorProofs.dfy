/** What every step of the reactor keeps, and what follows for whole runs: wake-ups, the agreement of
    the map and the bits, handlers posted once, and descriptors that outlive the select() they are
    in. */
module ReactorProofs {
  import opened ReactorSpec

  // ----- The invariant

  /** Until stop, a bit is set exactly for the registered, and the pipe's read end is.  It is the
      only one without a handler. */
  ghost predicate Agree(st: State) {
    && (!st.stopping ==> st.bits == st.events.Keys)
    && PipeKey(st) in st.bits
    && (st.stopping <==> PipeKey(st) !in st.events)
    && forall k :: k in st.events ==> (st.events[k].NoHandler? <==> k.fd == st.pipe) && (k.fd == st.pipe ==> k.op == 0)
  }

  /** No handler is registered twice, or both registered and posted, or posted twice. */
  ghost predicate Once(events: map<Key, Entry>, registered: nat, posted: seq<nat>) {
    && (forall k :: k in events && events[k].Handler? ==> events[k].id < registered && events[k].id !in posted)
    && (forall j, k :: j in events && k in events && j != k && events[j].Handler? ==> events[j] != events[k])
    && (forall id :: id in posted ==> id < registered)
    && (forall i, j :: 0 <= i < j < |posted| ==> posted[i] != posted[j])
  }

  ghost predicate HandlersOnce(st: State) {
    Once(st.events, st.registered, st.posted)
  }

  /** The loop has made a copy of the bits and not yet dealt with what select() made of it. */
  predicate Waiting(st: State) {
    st.loop.InSelect? || st.loop.Returned?
  }

  /** Whatever was done since then has left a byte in the pipe, and one is in it if it was reported:
      nobody but the loop takes any out. */
  ghost predicate Told(st: State) {
    && st.capacity > 0
    && (Waiting(st) && st.changed ==> st.buffered > 0)
    && (st.loop.Returned? && st.loop.result.Ready? && PipeKey(st) in st.loop.result.mask ==> st.buffered > 0)
  }

  /** What is registered is neither closed nor about to be, and what select() watches is not closed. */
  ghost predicate InUse(st: State) {
    && (forall k :: k in st.bits ==> k.fd in st.open && k.fd !in st.closing && k.fd < FD_SETSIZE)
    && st.closing <= st.open
    && (st.loop.InSelect? ==> forall k :: k in st.loop.snap ==> k.fd in st.open && k.fd < FD_SETSIZE)
    && st.pipe < FD_SETSIZE
  }

  /** Until stop, what is in the copy and no longer registered was taken out by a client. */
  ghost predicate Tracked(st: State) {
    Waiting(st) && !st.stopping ==>
      && (forall k :: k in st.loop.snap ==> k in st.events || k in st.withdrawn)
      && (forall k :: k in st.loop.snap ==> k.fd <= st.loop.max.At(k.op))
      && (forall k :: k in st.withdrawn ==> k !in st.events)
      && (st.loop.Returned? && st.loop.result.Ready? ==>
            st.loop.result.mask <= st.loop.snap && st.loop.result.mask != {})
  }

  /** What select() must be told about shows in the state too: a bit that is not in its copy, a
      descriptor waiting to be closed, or the stop flag. */
  predicate Pending(st: State)
    requires Waiting(st)
  {
    !(st.bits <= st.loop.snap) || st.closing != {} || st.stopping
  }

  ghost predicate Noted(st: State) {
    && (Waiting(st) && !(st.bits <= st.loop.snap) ==> st.changed)
    && (st.closing != {} || st.stopping ==> st.buffered > 0)
  }

  ghost predicate Inv(st: State) {
    Agree(st) && HandlersOnce(st) && Told(st) && Noted(st) && InUse(st) && Tracked(st)
  }

  lemma InitialInv(pipe: nat, capacity: nat)
    requires pipe < FD_SETSIZE && capacity > 0
    ensures Inv(Initial(pipe, capacity))
  {
  }

  lemma StepAgree(st: State, e: Event)
    requires Agree(st) && Enabled(st, e)
    ensures Agree(Step(st, e))
  {
    match e {
      case Handle(key, handler) => HandleAgrees(st, key, handler);
      case Close(fd) => CloseAgrees(st, fd);
      case Process => ProcessAgrees(st);
      case _ =>
    }
  }

  lemma HandleAgrees(st: State, key: Key, handler: bool)
    requires Agree(st) && key.fd != st.pipe
    ensures Agree(DoHandle(st, key, handler))
  {
  }

  lemma CloseAgrees(st: State, fd: nat)
    requires Agree(st) && fd != st.pipe
    ensures Agree(DoClose(st, fd))
  {
  }

  lemma ProcessAgrees(st: State)
    requires Agree(st) && st.loop.Returned?
    ensures Agree(DoProcess(st))
  {
    hide Scanned, First, MaxFd;
  }

  lemma StepHandlersOnce(st: State, e: Event)
    requires HandlersOnce(st) && Enabled(st, e)
    ensures HandlersOnce(Step(st, e))
  {
    match e {
      case Handle(key, handler) => RegisterOnce(st, key, handler);
      case Process => PostOnce(st);
      case _ =>
    }
  }

  lemma RegisterOnce(st: State, key: Key, handler: bool)
    requires HandlersOnce(st)
    ensures HandlersOnce(DoHandle(st, key, handler))
  {
  }

  lemma PostOnce(st: State)
    requires HandlersOnce(st) && st.loop.Returned?
    ensures HandlersOnce(DoProcess(st))
  {
    hide Scanned, First, Once;
    forall k | k in st.events && st.events[k].Handler?
      ensures Once(st.events - {k}, st.registered, st.posted + [st.events[k].id])
    {
      MovesOnce(st.events, st.registered, st.posted, k);
    }
  }

  lemma MovesOnce(events: map<Key, Entry>, registered: nat, posted: seq<nat>, k: Key)
    requires Once(events, registered, posted) && k in events && events[k].Handler?
    ensures Once(events - {k}, registered, posted + [events[k].id])
  {
  }

  lemma StepTold(st: State, e: Event)
    requires Told(st) && Enabled(st, e)
    ensures Told(Step(st, e))
  {
    hide MaxFd, First, Scanned;
  }

  lemma StepNoted(st: State, e: Event)
    requires Told(st) && Noted(st) && Enabled(st, e)
    ensures Noted(Step(st, e))
  {
    hide MaxFd, First, Scanned;
  }

  lemma StepInUse(st: State, e: Event)
    requires InUse(st) && Enabled(st, e)
    ensures InUse(Step(st, e))
  {
    match e {
      case Handle(key, handler) => HandleInUse(st, key, handler);
      case Close(fd) => CloseInUse(st, fd);
      case _ => hide MaxFd, First, Scanned;
    }
  }

  lemma HandleInUse(st: State, key: Key, handler: bool)
    requires InUse(st) && Owned(st, key.fd)
    ensures InUse(DoHandle(st, key, handler))
  {
  }

  lemma CloseInUse(st: State, fd: nat)
    requires InUse(st) && Owned(st, fd)
    ensures InUse(DoClose(st, fd))
  {
  }

  lemma StepTracked(st: State, e: Event)
    requires Agree(st) && Tracked(st) && Enabled(st, e)
    ensures Tracked(Step(st, e))
  {
    if e.Run? || e.Process? {
      StepAgree(st, e);
      var st' := Step(st, e);
      if st'.loop.InSelect? {
        assert st' == Snapshot(st');
        SnapshotTracked(st');
      }
    }
  }

  lemma SnapshotTracked(st: State)
    requires !st.stopping ==> st.bits == st.events.Keys
    ensures Tracked(Snapshot(st))
  {
  }

  lemma StepKeeps(st: State, e: Event)
    requires Inv(st) && Enabled(st, e)
    ensures Inv(Step(st, e))
  {
    StepAgree(st, e);
    StepHandlersOnce(st, e);
    StepTold(st, e);
    StepNoted(st, e);
    StepInUse(st, e);
    StepTracked(st, e);
    hide Agree, HandlersOnce, Told, Noted, InUse, Tracked, Step;
  }
}
