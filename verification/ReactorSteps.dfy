/** What each step of the reactor does to its fields, said without the functions the machine is made of,
    and that the handler a client asked for is the one that is posted. */
module ReactorSteps {
  import opened ReactorSpec
  import opened ReactorProofs
  import opened ReactorRuns

  /** One more byte in the pipe, unless it is full. */
  function OneMore(st: State): nat {
    if st.buffered < st.capacity then st.buffered + 1 else st.buffered
  }

  /** Registering concerns the operation and the descriptor named and no others: the bit is set, the new
      handler is the one in the map, and the pipe is written to if and only if the bit was not set. */
  lemma HandleRegisters(st: State, key: Key)
    requires Enabled(st, Handle(key, true)) && key.fd < 1024
    ensures var st' := Step(st, Handle(key, true));
            && st'.bits == st.bits + {key}
            && st'.events == st.events[key := Handler(st.registered)]
            && st'.registered == st.registered + 1
            && st'.buffered == (if key in st.bits then st.buffered else OneMore(st))
            && st'.changed == (st.changed || key !in st.bits)
            && st'.withdrawn == st.withdrawn - {key}
            && st' == st.(bits := st'.bits, events := st'.events, registered := st'.registered,
                          buffered := st'.buffered, changed := st'.changed, withdrawn := st'.withdrawn)
  {
  }

  /** Withdrawing takes that operation on that descriptor out, and nothing else; the pipe is left alone. */
  lemma HandleWithdraws(st: State, key: Key)
    requires Enabled(st, Handle(key, false)) && key.fd < 1024
    ensures var st' := Step(st, Handle(key, false));
            if key in st.bits then
              && key !in st'.bits && key !in st'.events
              && st'.bits == st.bits - {key} && st'.events == st.events - {key}
              && st'.withdrawn == st.withdrawn + {key}
              && st' == st.(bits := st'.bits, events := st'.events, withdrawn := st'.withdrawn)
            else st' == st
  {
  }

  /** Descriptors beyond select()'s range are refused, and closed at once. */
  lemma TooBig(st: State, key: Key, handler: bool)
    requires key.fd >= 1024 && Owned(st, key.fd)
    ensures Step(st, Handle(key, handler)) == st
    ensures Step(st, Close(key.fd)) == st.(open := st.open - {key.fd})
  {
  }

  /** Closing takes both operations on the descriptor out, keeps it open for the time being, and writes to
      the pipe. */
  lemma CloseForgets(st: State, fd: nat)
    requires Enabled(st, Close(fd)) && fd < 1024
    ensures var st' := Step(st, Close(fd));
            && st'.bits == (set k | k in st.bits && k.fd != fd)
            && st'.events.Keys == (set k | k in st.events && (k.fd != fd || k !in st.bits))
            && (forall k :: k in st'.events ==> st'.events[k] == st.events[k])
            && st'.withdrawn == st.withdrawn + (set k | k in st.bits && k.fd == fd)
            && st' == st.(bits := st'.bits, events := st'.events, withdrawn := st'.withdrawn,
                          closing := st.closing + {fd}, changed := true, buffered := OneMore(st))
  {
    var gone := {Key(0, fd), Key(1, fd)} * st.bits;
    assert forall k: Key :: k in gone <==> k in st.bits && k.fd == fd by {
      assert forall k: Key :: k == Key(0, k.fd) || k == Key(1, k.fd);
    }
  }

  /** Stopping empties the map, sets the flag, and writes to the pipe; the bits stay. */
  lemma StopClears(st: State)
    ensures Step(st, Stop) == st.(events := map[], stopping := true, changed := true, buffered := OneMore(st))
  {
  }

  /** The loop is in select() with the bits as they are, and with the largest descriptors registered. */
  ghost predicate Selects(st: State) {
    && st.loop.InSelect? && st.loop.snap == st.bits && !st.changed && st.withdrawn == {}
    && IsLargest(st.events, 0, st.loop.max.read) && IsLargest(st.events, 1, st.loop.max.write)
  }

  predicate IsLargest(events: map<Key, Entry>, op: Op, m: int) {
    && (forall k :: k in events && k.op == op ==> k.fd <= m)
    && (m == -1 || (m >= 0 && Key(op, m) in events))
  }

  lemma RunSelects(st: State)
    requires Enabled(st, Run)
    ensures var st' := Step(st, Run);
            Selects(st') && st' == st.(loop := st'.loop, changed := false, withdrawn := {})
  {
  }

  /** Back from select(), the descriptors given away are destroyed.  An error ends the loop by throwing,
      the stop flag ends it otherwise, and an interruption by a signal does neither. */
  lemma ProcessGoesOn(st: State)
    requires Enabled(st, Process)
    ensures var st' := Step(st, Process);
            && st'.open == st.open - st.closing && st'.closing == {} && st'.stopping == st.stopping
            && (st.loop.result.Failed? ==> st'.loop == Threw)
            && (!st.loop.result.Failed? && st.stopping ==> st'.loop == Finished)
            && (st'.loop == Finished ==> st.stopping)
            && (st.loop.result.Interrupted? && !st.stopping ==> Selects(st'))
            && (!st.loop.result.Ready? || st.stopping ==>
                  && st'.events == st.events && st'.bits == st.bits
                  && st'.posted == st.posted && st'.buffered == st.buffered)
            && (st'.loop.InSelect? ==> Selects(st'))
  {
    hide MaxFd;
  }

  /** The first of what was reported: reading goes before writing, and a smaller descriptor before a
      larger one. */
  lemma FirstReady(mask: set<Key>, k: Key)
    requires k in mask
    requires forall j :: j in mask ==> k.op < j.op || (k.op == j.op && k.fd <= j.fd)
    ensures First(mask) == k
  {
    var f := First(mask);
    assert !Before(k, f);
  }

  // ----- The handler asked for

  lemma EntryStays(st: State, e: Event, key: Key)
    requires Enabled(st, e) && e != Handle(key, true) && key in Step(st, e).events
    ensures key in st.events && Step(st, e).events[key] == st.events[key]
  {
    hide MaxFd, First, Scanned;
  }

  lemma {:induction false} LastAskedStays(st: State, es: seq<Event>, key: Key)
    requires Possible(st, es) && Handle(key, true) !in es && key in After(st, es).events
    ensures key in st.events && After(st, es).events[key] == st.events[key]
    decreases |es|
  {
    if es != [] {
      LastAskedStays(Step(st, es[0]), es[1..], key);
      hide After, Possible;
      EntryStays(st, es[0], key);
    }
  }

  /** From asking to posting: after a handler has been registered for an operation on a descriptor, and
      until another is, a round that finds it registered and alone ready takes it out and posts it. */
  lemma AskedIsPosted(st: State, key: Key, es: seq<Event>)
    requires Inv(st) && Enabled(st, Handle(key, true)) && key.fd < 1024
    requires Possible(Step(st, Handle(key, true)), es) && Handle(key, true) !in es
    requires var last := After(Step(st, Handle(key, true)), es);
             && Enabled(last, Process) && last.loop.result == Ready({key})
             && !last.stopping && key in last.events
    ensures var last := After(Step(st, Handle(key, true)), es);
            && Step(last, Process).posted == last.posted + [st.registered]
            && key !in Step(last, Process).events && key !in Step(last, Process).bits
  {
    var asked := Step(st, Handle(key, true));
    HandleRegisters(st, key);
    StepKeeps(st, Handle(key, true));
    RunKeeps(asked, es);
    LastAskedStays(asked, es, key);
    var last := After(asked, es);
    OneReady(last, key, st.registered);
  }

  lemma OneReady(st: State, key: Key, id: nat)
    requires Inv(st) && Enabled(st, Process) && st.loop.result == Ready({key}) && !st.stopping
    requires key in st.events && st.events[key] == Handler(id)
    ensures var st' := Step(st, Process);
            st'.posted == st.posted + [id] && key !in st'.events && key !in st'.bits
  {
    RoundServesFirst(st);
    assert First({key}) == key;
    StepKeeps(st, Process);
    StopsOnlyByStop(st, Process);
  }
}
