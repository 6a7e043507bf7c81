/** Whole runs of the chat room: delivery, the message that is lost without the premise, and how a
    room in which only idle sessions leave drains its queue. */
module ChatRuns {
  import opened ChatSpec
  import opened ChatProofs

  datatype Outcome = Fine(st: State) | TouchedErasedNode

  /** The state after a run of events. */
  function After(st: State, es: seq<Event>): Outcome
    requires Possible(st, es)
    decreases |es|
  {
    if es == [] then Fine(st)
    else if !Defined(st, es[0]) then TouchedErasedNode
    else After(Step(st, es[0]), es[1..])
  }

  /** Each event can happen when its turn comes. */
  predicate Possible(st: State, es: seq<Event>)
    decreases |es|
  {
    es == [] ||
    (Enabled(st, es[0]) && (Defined(st, es[0]) ==> Possible(Step(st, es[0]), es[1..])))
  }

  /** The premise on departures, along a run. */
  predicate DepartsCleanly(st: State, es: seq<Event>, strays: bool)
    requires Possible(st, es)
    decreases |es|
  {
    es != [] && Defined(st, es[0]) ==>
      && (es[0].Disconnect? ==> CleanDeparture(st, es[0].s, strays))
      && DepartsCleanly(Step(st, es[0]), es[1..], strays)
  }

  /** The plain form of the premise, stronger than either: a session is not busy with a message of its
      own queued after the one being written to it. */
  lemma NoOwnMessageBehind(st: State, s: SessionId, strays: bool)
    requires Enabled(st, Disconnect(s)) && Defined(st, Disconnect(s))
    requires st.sessions[s].At? ==>
               forall j :: Find(st.queue, st.sessions[s].id) < j < |st.queue| ==> st.queue[j].sender != s
    ensures CleanDeparture(st, s, strays)
  {
  }

  lemma StepKeeps(st: State, e: Event, strays: bool)
    requires Inv(st, strays) && Enabled(st, e) && Defined(st, e)
    requires e.Disconnect? ==> CleanDeparture(st, e.s, strays)
    ensures Inv(Step(st, e), strays)
  {
    match e {
      case Join(s) => JoinKeeps(st, s, strays);
      case Receive(s, text) => ReceiveKeeps(st, s, text, strays);
      case Complete(s) => CompleteKeeps(st, s, strays);
      case Disconnect(s) => DisconnectKeeps(st, s, strays);
    }
  }

  lemma {:induction false} RunKeeps(st: State, es: seq<Event>, strays: bool)
    requires Inv(st, strays) && Possible(st, es) && DepartsCleanly(st, es, strays)
    ensures After(st, es).Fine? && Inv(After(st, es).st, strays)
    decreases |es|
  {
    if es != [] {
      AllDefined(st, es[0], strays);
      StepKeeps(st, es[0], strays);
      hide Inv, Step;
      RunKeeps(Step(st, es[0]), es[1..], strays);
    }
  }

  /** The writes started to a session are a prefix of what it is owed: all of it if it is idle. */
  ghost predicate Served(st: State, s: SessionId) {
    && s in st.sessions && s in st.joined && s in st.writes && st.joined[s] <= |st.accepted|
    && st.writes[s] <= Owed(st.accepted, st.joined[s], |st.accepted|, s)
    && (st.sessions[s].Idle? ==> st.writes[s] == Owed(st.accepted, st.joined[s], |st.accepted|, s))
  }

  /** No erased node was touched, and every connected session is served. */
  ghost predicate AllServed(o: Outcome) {
    o.Fine? && forall s :: s in o.st.sessions ==> Served(o.st, s)
  }

  lemma InvServes(st: State, strays: bool)
    requires Inv(st, strays)
    ensures AllServed(Fine(st))
  {
    forall s | s in st.sessions
      ensures Served(st, s)
    {
      assert PlacedOne(st, s) && DeliveredTo(st, s);
      if st.sessions[s].At? {
        OwedPrefix(st.accepted, st.joined[s], st.sessions[s].id + 1, |st.accepted|, s);
      }
    }
  }

  /** In every run in which departures leave no more than strays no erased node is touched, and the
      writes started to each connected session are a prefix of what it is owed: all of it once the
      session is idle. */
  lemma Delivery(es: seq<Event>)
    requires Possible(INITIAL, es) && DepartsCleanly(INITIAL, es, true)
    ensures AllServed(After(INITIAL, es))
  {
    RunKeeps(INITIAL, es, true);
    InvServes(After(INITIAL, es).st, true);
  }

  /** In every such run every cursor names a message that is still queued and is somebody else's, and
      each count is the number of sessions still behind the message; without strays that holds of every
      message, with strays at least while the sender is connected. */
  lemma CountsAndCursors(es: seq<Event>, i: nat, s: SessionId, strays: bool)
    requires Possible(INITIAL, es) && DepartsCleanly(INITIAL, es, strays)
    ensures After(INITIAL, es).Fine?
    ensures var st := After(INITIAL, es).st;
            && |st.queue| <= MAX_QUEUE
            && (i < |st.queue| && (strays ==> st.queue[i].sender in st.sessions) ==>
                  st.queue[i].remaining == |Behind(st.sessions, st.queue[i].id, st.queue[i].sender)|)
            && (s in st.sessions && st.sessions[s].At? ==>
                  && Dereferenceable(st, s)
                  && st.queue[Find(st.queue, st.sessions[s].id)].sender != s)
  {
    RunKeeps(INITIAL, es, strays);
    var st := After(INITIAL, es).st;
    if s in st.sessions && st.sessions[s].At? {
      CursorsLive(st, s);
    }
    if i < |st.queue| {
      assert CountIs(st.sessions, st.queue[i], strays);
    }
  }

  // ----- Without the premise

  /** Three sessions, two messages queued, every write still under way. */
  const BUSY_ROOM := State(
    [Msg(0, 1, "m", 2), Msg(1, 0, "n", 2)],
    map[0 := At(0), 1 := At(1), 2 := At(0)],
    [Post(1, "m"), Post(0, "n")],
    map[0 := 0, 1 := 0, 2 := 0],
    map[0 := ["m"], 1 := ["n"], 2 := ["m"]])

  const LOST_ROOM := BUSY_ROOM.(queue := [], sessions := map[1 := Idle, 2 := Idle])

  /** Session 0 leaves while busy with session 1's message, its own one queued behind: session 1
      then takes that one out of the queue, and session 2 never gets it. */
  lemma MessageLost() returns (es: seq<Event>)
    ensures es == [Join(0), Join(1), Join(2), Receive(1, "m"), Receive(0, "n"),
                   Disconnect(0), Complete(1), Complete(2)]
    ensures Possible(INITIAL, es) && After(INITIAL, es) == Fine(LOST_ROOM)
    ensures LOST_ROOM.sessions[2].Idle? && LOST_ROOM.writes[2] == ["m"]
    ensures Owed(LOST_ROOM.accepted, LOST_ROOM.joined[2], |LOST_ROOM.accepted|, 2) == ["m", "n"]
  {
    es := LosingEnd();
    es := BusyStart(es);
  }

  lemma LosingEnd() returns (es: seq<Event>)
    ensures es == [Disconnect(0), Complete(1), Complete(2)]
    ensures Possible(BUSY_ROOM, es) && After(BUSY_ROOM, es) == Fine(LOST_ROOM)
  {
    hide Leads;
    LastWrite();
    OwnWrite();
    Departure();
    es := Continue(OWED_ROOM, Complete(2), [], LOST_ROOM);
    es := Continue(LEFT_ROOM, Complete(1), es, OWED_ROOM);
    es := Continue(BUSY_ROOM, Disconnect(0), es, LEFT_ROOM);
  }

  const LEFT_ROOM := BUSY_ROOM.(
    queue := [Msg(0, 1, "m", 1), Msg(1, 0, "n", 1)],
    sessions := map[1 := At(1), 2 := At(0)])

  const OWED_ROOM := BUSY_ROOM.(
    queue := [Msg(0, 1, "m", 1)],
    sessions := map[1 := Idle, 2 := At(0)])

  lemma Departure()
    ensures Leads(BUSY_ROOM, Disconnect(0), LEFT_ROOM)
  {
    assert Find(BUSY_ROOM.queue, 0) == 0;
    assert Abandon(BUSY_ROOM.queue, 0) == LEFT_ROOM.queue;
    assert BUSY_ROOM.sessions - {0} == LEFT_ROOM.sessions;
  }

  lemma OwnWrite()
    ensures Leads(LEFT_ROOM, Complete(1), OWED_ROOM)
  {
    assert Find(LEFT_ROOM.queue, 1) == 1;
    assert NextOther(LEFT_ROOM.queue, 1, 2) == 2;
    assert Release(LEFT_ROOM.queue, 1) == OWED_ROOM.queue;
  }

  lemma LastWrite()
    ensures Leads(OWED_ROOM, Complete(2), LOST_ROOM)
  {
    assert Find(OWED_ROOM.queue, 0) == 0;
    assert NextOther(OWED_ROOM.queue, 2, 1) == 1;
    assert Release(OWED_ROOM.queue, 0) == LOST_ROOM.queue;
  }

  lemma BusyStart(tail: seq<Event>) returns (es: seq<Event>)
    requires Possible(BUSY_ROOM, tail)
    ensures es == [Join(0), Join(1), Join(2), Receive(1, "m"), Receive(0, "n")] + tail
    ensures Possible(INITIAL, es) && After(INITIAL, es) == After(BUSY_ROOM, tail)
  {
    hide Leads, Possible, After;
    SecondMessage();
    FirstMessage();
    Joins();
    es := Continue(FIRST_ROOM, Receive(0, "n"), tail, BUSY_ROOM);
    es := Continue(QUIET_ROOM, Receive(1, "m"), es, FIRST_ROOM);
    es := Continue(TWO_ROOM, Join(2), es, QUIET_ROOM);
    es := Continue(ONE_ROOM, Join(1), es, TWO_ROOM);
    es := Continue(INITIAL, Join(0), es, ONE_ROOM);
  }

  const ONE_ROOM := INITIAL.(sessions := map[0 := Idle], joined := map[0 := 0], writes := map[0 := []])

  const TWO_ROOM := INITIAL.(
    sessions := map[0 := Idle, 1 := Idle],
    joined := map[0 := 0, 1 := 0],
    writes := map[0 := [], 1 := []])

  const QUIET_ROOM := INITIAL.(
    sessions := map[0 := Idle, 1 := Idle, 2 := Idle],
    joined := map[0 := 0, 1 := 0, 2 := 0],
    writes := map[0 := [], 1 := [], 2 := []])

  const FIRST_ROOM := QUIET_ROOM.(
    queue := [Msg(0, 1, "m", 2)],
    sessions := map[0 := At(0), 1 := Idle, 2 := At(0)],
    accepted := [Post(1, "m")],
    writes := map[0 := ["m"], 1 := [], 2 := ["m"]])

  lemma Joins()
    ensures Leads(INITIAL, Join(0), ONE_ROOM) && Leads(ONE_ROOM, Join(1), TWO_ROOM)
    ensures Leads(TWO_ROOM, Join(2), QUIET_ROOM)
  {
  }

  lemma ThreeHere(sessions: map<SessionId, Pos>)
    requires sessions.Keys == {0, 1, 2}
    ensures |sessions| == 3
  {
    assert |sessions| == |sessions.Keys|;
  }

  lemma FirstMessage()
    ensures Leads(QUIET_ROOM, Receive(1, "m"), FIRST_ROOM)
  {
    var st := QUIET_ROOM;
    ThreeHere(st.sessions);
    FirstCursors();
    FirstWrites();
    hide StartCursors, StartWrites;
  }

  lemma FirstCursors()
    ensures StartCursors(QUIET_ROOM.sessions, 1, 0) == FIRST_ROOM.sessions
  {
  }

  lemma FirstWrites()
    ensures StartWrites(QUIET_ROOM.sessions, QUIET_ROOM.writes, 1, "m") == FIRST_ROOM.writes
  {
    assert [] + ["m"] == ["m"];
  }

  lemma SecondMessage()
    ensures Leads(FIRST_ROOM, Receive(0, "n"), BUSY_ROOM)
  {
    var st := FIRST_ROOM;
    ThreeHere(st.sessions);
    SecondCursors();
    SecondWrites();
    hide StartCursors, StartWrites;
    assert st.queue + [Msg(1, 0, "n", 2)] == BUSY_ROOM.queue;
  }

  lemma SecondCursors()
    ensures StartCursors(FIRST_ROOM.sessions, 0, 1) == BUSY_ROOM.sessions
  {
  }

  lemma SecondWrites()
    ensures StartWrites(FIRST_ROOM.sessions, FIRST_ROOM.writes, 0, "n") == BUSY_ROOM.writes
  {
    assert [] + ["n"] == ["n"];
  }

  predicate Leads(st: State, e: Event, st': State) {
    Enabled(st, e) && Defined(st, e) && Step(st, e) == st'
  }

  lemma Continue(st: State, e: Event, tail: seq<Event>, st': State) returns (es: seq<Event>)
    requires Leads(st, e, st') && Possible(st', tail)
    ensures es == [e] + tail && Possible(st, es) && After(st, es) == After(st', tail)
  {
    es := [e] + tail;
    assert es[1..] == tail;
  }

  // ----- Rooms that only idle sessions leave

  predicate IdleDepartures(st: State, es: seq<Event>)
    requires Possible(st, es)
    decreases |es|
  {
    es != [] && Defined(st, es[0]) ==>
      && (es[0].Disconnect? ==> st.sessions[es[0].s].Idle?)
      && IdleDepartures(Step(st, es[0]), es[1..])
  }

  predicate AllAwaited(q: seq<Msg>) {
    forall i :: 0 <= i < |q| ==> q[i].remaining >= 1
  }

  function Sum(q: seq<Msg>): nat {
    if q == [] then 0 else q[0].remaining + Sum(q[1..])
  }

  lemma {:induction false} ReleaseLowersSum(q: seq<Msg>, k: nat)
    requires k < |q| && q[k].remaining >= 1
    ensures Sum(Release(q, k)) == Sum(q) - 1
  {
    var r := Release(q, k);
    if k == 0 {
      assert r == if q[0].remaining == 1 then q[1..] else [q[0].(remaining := q[0].remaining - 1)] + q[1..];
    } else {
      ReleaseLowersSum(q[1..], k - 1);
      assert r[0] == q[0] && r[1..] == Release(q[1..], k - 1);
    }
  }

  /** A completion lowers the sum of the counts by exactly one and leaves no message unawaited. */
  lemma CompletionLowersSum(st: State, s: SessionId)
    requires Inv(st, false) && AllAwaited(st.queue) && Enabled(st, Complete(s))
    ensures Defined(st, Complete(s))
    ensures Sum(DoComplete(st, s).queue) == Sum(st.queue) - 1 && AllAwaited(DoComplete(st, s).queue)
  {
    AllDefined(st, Complete(s), false);
    var k, j := CompleteStands(st, s);
    ReleaseLowersSum(st.queue, k);
    var q := Release(st.queue, k);
    forall i | 0 <= i < |q| ensures q[i].remaining >= 1 {
      var o := ReleaseOrigin(st.queue, k, i);
    }
  }

  lemma StepKeepsAwaited(st: State, e: Event)
    requires Inv(st, false) && AllAwaited(st.queue) && Enabled(st, e) && Defined(st, e)
    requires e.Disconnect? ==> st.sessions[e.s].Idle?
    ensures Inv(Step(st, e), false) && AllAwaited(Step(st, e).queue)
  {
    hide Inv, DoComplete, StartCursors, StartWrites;
    StepKeeps(st, e, false);
    if e.Complete? {
      CompletionLowersSum(st, e.s);
    }
  }

  lemma {:induction false} RunKeepsAwaited(st: State, es: seq<Event>)
    requires Inv(st, false) && AllAwaited(st.queue) && Possible(st, es) && IdleDepartures(st, es)
    ensures After(st, es).Fine? && Inv(After(st, es).st, false) && AllAwaited(After(st, es).st.queue)
    decreases |es|
  {
    if es != [] {
      AllDefined(st, es[0], false);
      StepKeepsAwaited(st, es[0]);
      hide Inv, Step, AllAwaited;
      RunKeepsAwaited(Step(st, es[0]), es[1..]);
    }
  }

  /** While a message is queued some write is under way, so the room cannot stall. */
  lemma SomebodyBusy(st: State) returns (s: SessionId)
    requires Inv(st, false) && AllAwaited(st.queue) && st.queue != []
    ensures Enabled(st, Complete(s))
  {
    var m := st.queue[0];
    assert CountIs(st.sessions, m, false);
    s :| s in Behind(st.sessions, m.id, m.sender);
  }

  lemma EmptyMeansIdle(st: State, s: SessionId)
    requires Inv(st, false) && st.queue == [] && s in st.sessions
    ensures st.sessions[s].Idle?
  {
    if st.sessions[s].At? {
      CursorsLive(st, s);
    }
  }

  lemma {:induction false} CompletionsDrain(st: State, es: seq<Event>)
    requires Inv(st, false) && AllAwaited(st.queue) && Possible(st, es)
    requires forall i :: 0 <= i < |es| ==> es[i].Complete?
    ensures |es| <= Sum(st.queue)
    ensures After(st, es).Fine?
    ensures var st' := After(st, es).st;
            Inv(st', false) && AllAwaited(st'.queue) && Sum(st'.queue) == Sum(st.queue) - |es|
    decreases |es|
  {
    hide Inv, DoComplete, AllAwaited, Sum;
    if es != [] {
      CompletionLowersSum(st, es[0].s);
      StepKeepsAwaited(st, es[0]);
      CompletionsDrain(Step(st, es[0]), es[1..]);
    }
  }

  /** In a run that only idle sessions leave every queued message is awaited; from there on, with
      no new messages, no more completions than the sum of the counts can follow, and when that
      many have, the queue is empty and everybody idle. */
  lemma Drain(es: seq<Event>, cs: seq<Event>, s: SessionId)
    requires Possible(INITIAL, es) && IdleDepartures(INITIAL, es)
    requires After(INITIAL, es).Fine? ==> Possible(After(INITIAL, es).st, cs)
    requires forall i :: 0 <= i < |cs| ==> cs[i].Complete?
    ensures After(INITIAL, es).Fine?
    ensures var st := After(INITIAL, es).st;
            && AllAwaited(st.queue) && |st.queue| <= MAX_QUEUE && |cs| <= Sum(st.queue)
            && After(st, cs).Fine?
            && (var st' := After(st, cs).st;
                && (|cs| == Sum(st.queue) <==> st'.queue == [])
                && (|cs| == Sum(st.queue) && s in st'.sessions ==> st'.sessions[s].Idle?))
  {
    RunKeepsAwaited(INITIAL, es);
    var st := After(INITIAL, es).st;
    CompletionsDrain(st, cs);
    var st' := After(st, cs).st;
    if st'.queue == [] && s in st'.sessions {
      EmptyMeansIdle(st', s);
    }
  }
}
