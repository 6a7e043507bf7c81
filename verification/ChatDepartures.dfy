/** Which departures lose messages: a departure after which some run of completions takes a message away
    from a session that stands on it, and one after which no run does. */
module ChatDepartures {
  import opened ChatSpec
  import opened ChatProofs
  import opened ChatRuns

  // ----- A message counted one too low with two or more behind it

  /** The message at index i has lost its sender and is counted one too low, with two sessions or more
      behind it; what is queued before it is counted right, up to strays. */
  ghost predicate Flawed(st: State, i: nat) {
    && Consistent(st) && i < |st.queue| && FlawedAt(st.sessions, st.queue[i]) && CountedBefore(st, i)
  }

  /** All of the invariant but the counts. */
  ghost predicate Consistent(st: State) {
    Ordered(st) && Bookkeeping(st) && Placed(st) && Retained(st) && Delivered(st)
  }

  ghost predicate CountedBefore(st: State, i: nat)
    requires i <= |st.queue|
  {
    forall x :: 0 <= x < i ==> CountIs(st.sessions, st.queue[x], true)
  }

  ghost predicate FlawedAt(sessions: map<SessionId, Pos>, m: Msg) {
    && m.sender !in sessions
    && |Waiting(sessions, m)| >= 2
    && m.remaining == |Waiting(sessions, m)| - 1
  }

  /** The sessions behind a message, and those of them that are not at it yet. */
  ghost function Waiting(sessions: map<SessionId, Pos>, m: Msg): set<SessionId> {
    Behind(sessions, m.id, m.sender)
  }

  ghost function Laggards(sessions: map<SessionId, Pos>, m: Msg): set<SessionId> {
    set t | t in Waiting(sessions, m) && sessions[t].id < m.id
  }

  predicate AllComplete(es: seq<Event>) {
    forall e :: e in es ==> e.Complete?
  }

  /** These completions end at an erased node. */
  ghost predicate Doomed(st: State, es: seq<Event>) {
    AllComplete(es) && Possible(st, es) && After(st, es) == TouchedErasedNode
  }

  /** One more completion before them. */
  lemma Before(st: State, t: SessionId, es: seq<Event>)
    requires Enabled(st, Complete(t)) && Defined(st, Complete(t)) && Doomed(DoComplete(st, t), es)
    ensures Doomed(st, [Complete(t)] + es)
  {
    assert ([Complete(t)] + es)[1..] == es;
  }

  lemma CompletedConsistent(st: State, t: SessionId, k: nat, j: nat)
    requires Consistent(st) && Stands(st, t, k, j)
    requires Dec(st.queue[k].remaining) == 0 ==> CountIs(st.sessions, st.queue[k], true)
    ensures Consistent(Completed(st, t, k, j))
  {
    CompleteOrders(st, t, k, j);
    CompleteRetains(st, t, k, j, true);
    CompleteDelivers(st, t, k, j);
    hide Completed, Ordered, Bookkeeping, Placed, Retained, Delivered, Stands;
  }

  /** Releasing a node at i or before keeps what is counted right up to there. */
  lemma CompletedCounted(st: State, t: SessionId, k: nat, j: nat, i: nat)
    requires Ordered(st) && Stands(st, t, k, j) && k <= i <= |st.queue| && CountedBefore(st, i)
    ensures i <= |Release(st.queue, k)| + (if Dec(st.queue[k].remaining) == 0 then 1 else 0)
    ensures k < i || Dec(st.queue[k].remaining) != 0 ==>
              CountedBefore(Completed(st, t, k, j), if Dec(st.queue[k].remaining) == 0 then i - 1 else i)
  {
    if k < i || Dec(st.queue[k].remaining) != 0 {
      var i' := if Dec(st.queue[k].remaining) == 0 then i - 1 else i;
      forall x | 0 <= x < i'
        ensures CountIs(Completed(st, t, k, j).sessions, Release(st.queue, k)[x], true)
      {
        CompleteCountsOne(st, t, k, j, x, true);
      }
    }
  }

  /** A session on its way to the flawed message has its next message no later. */
  lemma LaggardStands(st: State, i: nat, t: SessionId) returns (k: nat, j: nat)
    requires Flawed(st, i) && t in Laggards(st.sessions, st.queue[i])
    ensures Enabled(st, Complete(t)) && Defined(st, Complete(t))
    ensures Stands(st, t, k, j) && k < i && j <= i && DoComplete(st, t) == Completed(st, t, k, j)
    ensures st.queue[k].id < st.queue[j].id <= st.queue[i].id
    ensures CountIs(st.sessions, st.queue[k], true)
  {
    hide CountIs, FlawedAt;
    CursorsLive(st, t);
    k, j := CompleteStands(st, t);
    assert st.queue[i].sender != t;
  }

  /** A completion by a session on its way to the flawed message, which moves to index i'. */
  lemma LaggardMoves(st: State, i: nat, t: SessionId) returns (i': nat)
    requires Flawed(st, i) && t in Laggards(st.sessions, st.queue[i])
    ensures Enabled(st, Complete(t)) && Defined(st, Complete(t))
    ensures var st', m := DoComplete(st, t), st.queue[i];
            && Flawed(st', i') && st'.queue[i'] == m
            && st'.sessions.Keys == st.sessions.Keys
            && (forall u :: u in st.sessions && u != t ==> st'.sessions[u] == st.sessions[u])
            && st'.sessions[t].At? && st.sessions[t].id < st'.sessions[t].id <= m.id
            && Waiting(st'.sessions, m) == Waiting(st.sessions, m)
  {
    var k, j := LaggardStands(st, i, t);
    CompletedConsistent(st, t, k, j);
    CompletedCounted(st, t, k, j, i);
    CompleteBehind(st, t, k, j, i);
    i' := if Dec(st.queue[k].remaining) == 0 then i - 1 else i;
    ReleasedLater(st.queue, k, i);
    hide Consistent, CountedBefore, CountIs, Behind, DoComplete, Release, Ordered, Stands, Laggards;
  }

  lemma ReleasedLater(q: seq<Msg>, k: nat, i: nat)
    requires k < i < |q|
    ensures var i' := if Dec(q[k].remaining) == 0 then i - 1 else i;
            i' < |Release(q, k)| && Release(q, k)[i'] == q[i]
  {
  }

  /** A completion at the flawed message while more than two are behind it: one fewer is. */
  lemma OnePasses(st: State, i: nat, t: SessionId)
    requires Flawed(st, i) && t in st.sessions && st.sessions[t] == At(st.queue[i].id)
    requires |Waiting(st.sessions, st.queue[i])| > 2
    ensures Enabled(st, Complete(t)) && Defined(st, Complete(t))
    ensures var st' := DoComplete(st, t);
            && Flawed(st', i) && st'.queue[i].id == st.queue[i].id
            && |Waiting(st'.sessions, st'.queue[i])| == |Waiting(st.sessions, st.queue[i])| - 1
  {
    var k, j := StandsAt(st, i, t);
    CompletedConsistent(st, t, i, j);
    CompletedCounted(st, t, i, j, i);
    CompleteBehind(st, t, i, j, i);
    hide Consistent, CountedBefore, CountIs, Behind, DoComplete;
  }

  lemma StandsAt(st: State, i: nat, t: SessionId) returns (k: nat, j: nat)
    requires Flawed(st, i) && t in st.sessions && st.sessions[t] == At(st.queue[i].id)
    ensures Enabled(st, Complete(t)) && Defined(st, Complete(t))
    ensures k == i && Stands(st, t, k, j) && DoComplete(st, t) == Completed(st, t, k, j)
  {
    hide CountedBefore, FlawedAt;
    CursorsLive(st, t);
    k, j := CompleteStands(st, t);
  }

  /** The last but one takes the message away from the last. */
  lemma LastLoses(st: State, i: nat, t: SessionId, u: SessionId) returns (es: seq<Event>)
    requires Flawed(st, i) && |Waiting(st.sessions, st.queue[i])| == 2
    requires t in st.sessions && st.sessions[t] == At(st.queue[i].id)
    requires u in st.sessions && st.sessions[u] == At(st.queue[i].id) && u != t
    ensures Doomed(st, es)
  {
    var k, j := StandsAt(st, i, t);
    var st' := Completed(st, t, i, j);
    ErasedGone(st, i);
    assert st'.queue == Release(st.queue, i) && st'.sessions[u] == st.sessions[u];
    hide Consistent, Find, Completed, CountedBefore;
    es := [Complete(u)];
    Before(st, t, es);
    es := [Complete(t)] + es;
  }

  lemma ErasedGone(st: State, i: nat)
    requires Flawed(st, i) && |Waiting(st.sessions, st.queue[i])| == 2
    ensures Find(Release(st.queue, i), st.queue[i].id) == |Release(st.queue, i)|
  {
    var q := st.queue;
    var r := Release(q, i);
    assert r == q[..i] + q[i + 1..];
    forall x | 0 <= x < |r|
      ensures r[x].id != q[i].id
    {
      assert r[x] == q[if x < i then x else x + 1];
    }
  }

  /** Whoever stands at a message that is somebody else's is behind it. */
  lemma NoLaggards(sessions: map<SessionId, Pos>, m: Msg)
    requires |Waiting(sessions, m)| >= 2 && Laggards(sessions, m) == {}
    ensures exists t, u :: t in Waiting(sessions, m) && u in Waiting(sessions, m) && t != u
    ensures forall t :: t in Waiting(sessions, m) ==> t in sessions && sessions[t] == At(m.id)
  {
    var w := Waiting(sessions, m);
    var t :| t in w;
    assert |w - {t}| >= 1;
    var u :| u in w - {t};
    forall v | v in w
      ensures sessions[v] == At(m.id)
    {
      assert v !in Laggards(sessions, m);
    }
  }

  /** From a flawed state completions lead to an erased node: those on their way come up, and then pass
      one by one. */
  lemma {:induction false} Doom(st: State, i: nat) returns (es: seq<Event>)
    requires Flawed(st, i)
    ensures Doomed(st, es)
    decreases |Waiting(st.sessions, st.queue[i])|, |Laggards(st.sessions, st.queue[i])|, st.queue[i].id + 1
  {
    var m := st.queue[i];
    if t :| t in Laggards(st.sessions, m) {
      es := DoomWith(st, i, t);
    } else {
      NoLaggards(st.sessions, m);
      var t, u :| t in Waiting(st.sessions, m) && u in Waiting(st.sessions, m) && t != u;
      if |Waiting(st.sessions, m)| == 2 {
        es := LastLoses(st, i, t, u);
      } else {
        OnePasses(st, i, t);
        es := Doom(DoComplete(st, t), i);
        Before(st, t, es);
        es := [Complete(t)] + es;
      }
    }
  }

  lemma {:induction false} DoomWith(st: State, i: nat, t: SessionId) returns (es: seq<Event>)
    requires Flawed(st, i) && t in Laggards(st.sessions, st.queue[i])
    ensures Doomed(st, es)
    decreases |Waiting(st.sessions, st.queue[i])|, |Laggards(st.sessions, st.queue[i])|,
              st.queue[i].id - st.sessions[t].id
  {
    var m := st.queue[i];
    var i' := LaggardMoves(st, i, t);
    var st' := DoComplete(st, t);
    LaggardsAfter(st.sessions, st'.sessions, m, t);
    hide Flawed, DoComplete, Doomed, Waiting, Dereferenceable, Laggards;
    if st'.sessions[t].id < m.id {
      es := DoomWith(st', i', t);
    } else {
      es := Doom(st', i');
    }
    Before(st, t, es);
    es := [Complete(t)] + es;
  }

  lemma LaggardsAfter(before: map<SessionId, Pos>, after: map<SessionId, Pos>, m: Msg, t: SessionId)
    requires after.Keys == before.Keys && Waiting(after, m) == Waiting(before, m) && t in Laggards(before, m)
    requires forall u :: u in before && u != t ==> after[u] == before[u]
    ensures if after[t].id < m.id then Laggards(after, m) == Laggards(before, m) && t in Laggards(after, m)
            else |Laggards(after, m)| < |Laggards(before, m)|
  {
    if after[t].id < m.id {
      assert Laggards(after, m) == Laggards(before, m);
    } else {
      assert Laggards(after, m) == Laggards(before, m) - {t};
    }
  }

  // ----- Departures

  /** A departure that leaves an own message of its own with two or more behind it leaves a flaw. */
  lemma LeavesFlaw(st: State, s: SessionId, k: nat, j: nat)
    requires Inv(st, true) && StandsOn(st, s, k) && PrunesClean(st.queue, s, k)
    requires k < j < |st.queue| && Cut(st.queue, k) <= j && st.queue[j].sender == s && st.queue[j].remaining >= 2
    requires forall x :: k < x < j && st.queue[x].sender == s ==> CleanOne(st.queue, k, x, true)
    ensures Flawed(Left(st, s, k), j - Cut(st.queue, k))
  {
    LeftOrders(st, s, k);
    LeftRetains(st, s, k, true);
    LeftStays(st, s, k);
    OwnFlawed(st, s, k, j);
    LeftCountedBefore(st, s, k, j);
    hide Inv, Left, Ordered, Bookkeeping, Placed, Retained, Delivered, CountedBefore, FlawedAt;
  }

  lemma OwnFlawed(st: State, s: SessionId, k: nat, j: nat)
    requires Ordered(st) && Counted(st, true) && StandsOn(st, s, k)
    requires k < j < |st.queue| && Cut(st.queue, k) <= j && st.queue[j].sender == s && st.queue[j].remaining >= 2
    ensures var st', i := Left(st, s, k), j - Cut(st.queue, k);
            i < |st'.queue| && FlawedAt(st'.sessions, st'.queue[i])
  {
    LeftMiscounts(st, s, k, j, true);
    LeftBehind(st, s, k, j);
    assert CountIs(st.sessions, st.queue[j], true);
    hide Counted, Ordered, Behind;
  }

  lemma LeftCountedBefore(st: State, s: SessionId, k: nat, j: nat)
    requires Ordered(st) && Counted(st, true) && StandsOn(st, s, k)
    requires k < j < |st.queue| && Cut(st.queue, k) <= j
    requires forall x :: k < x < j && st.queue[x].sender == s ==> CleanOne(st.queue, k, x, true)
    ensures j - Cut(st.queue, k) <= |Left(st, s, k).queue|
    ensures CountedBefore(Left(st, s, k), j - Cut(st.queue, k))
  {
    AbandonNodes(st.queue, k);
    forall x | 0 <= x < j - Cut(st.queue, k)
      ensures CountIs(Left(st, s, k).sessions, Left(st, s, k).queue[x], true)
    {
      var o := x + Cut(st.queue, k);
      assert k < o && st.queue[o].sender == s ==> CleanOne(st.queue, k, o, true);
      LeftCountsOne(st, s, k, o, true);
    }
  }

  /** The first of the departing session's own messages that is not clean. */
  lemma {:induction false} FirstUnclean(q: seq<Msg>, s: SessionId, k: nat, from: nat) returns (j: nat)
    requires k < from <= |q|
    requires forall x :: k < x < from && q[x].sender == s ==> CleanOne(q, k, x, true)
    requires !CleanAt(q, s, k, true)
    ensures k < j < |q| && q[j].sender == s && !CleanOne(q, k, j, true)
    ensures forall x :: k < x < j && q[x].sender == s ==> CleanOne(q, k, x, true)
    decreases |q| - from
  {
    if from < |q| && (q[from].sender == s ==> CleanOne(q, k, from, true)) {
      j := FirstUnclean(q, s, k, from + 1);
    } else {
      j := from;
    }
  }

  /** After a departure that is not clean some completions end at an erased node. */
  lemma UncleanDooms(st: State, s: SessionId) returns (es: seq<Event>)
    requires Inv(st, true) && Enabled(st, Disconnect(s)) && Defined(st, Disconnect(s))
    requires !CleanDeparture(st, s, true)
    ensures Doomed(DoDisconnect(st, s), es)
  {
    var k := Find(st.queue, st.sessions[s].id);
    CursorsLive(st, s);
    assert DoDisconnect(st, s) == Left(st, s, k) && Ordered(st) && Counted(st, true) && StandsOn(st, s, k);
    hide Inv, Ordered, Counted, StandsOn, DoDisconnect, Left, Cut;
    if PrunesClean(st.queue, s, k) {
      var j := FirstUnclean(st.queue, s, k, k + 1);
      LeavesFlaw(st, s, k, j);
      es := Doom(Left(st, s, k), j - Cut(st.queue, k));
    } else {
      var j :| k < j < Cut(st.queue, k) && st.queue[j].sender == s && st.queue[j].remaining != 0;
      var t := LeftDangles(st, s, k, j, true);
      DanglingDooms(Left(st, s, k), t);
      es := [Complete(t)];
    }
  }

  lemma DanglingDooms(st: State, t: SessionId)
    requires t in st.sessions && st.sessions[t].At? && !Dereferenceable(st, t)
    ensures Doomed(st, [Complete(t)])
  {
  }

  /** Whatever happens after it, as long as the later departures are clean, everybody is served. */
  ghost predicate Harmless(st: State) {
    forall es :: Possible(st, es) && DepartsCleanly(st, es, true) ==> AllServed(After(st, es))
  }

  lemma {:induction false} CompletionsDepartCleanly(st: State, es: seq<Event>)
    requires Possible(st, es) && AllComplete(es)
    ensures DepartsCleanly(st, es, true)
    decreases |es|
  {
    if es != [] && Defined(st, es[0]) {
      assert es[0] in es;
      assert forall e :: e in es[1..] ==> e in es;
      CompletionsDepartCleanly(Step(st, es[0]), es[1..]);
    }
  }

  /** Exactly the clean departures, strays allowed, do no harm. */
  lemma HarmlessIff(st: State, s: SessionId)
    requires Inv(st, true) && Enabled(st, Disconnect(s))
    ensures Defined(st, Disconnect(s))
    ensures Harmless(DoDisconnect(st, s)) <==> CleanDeparture(st, s, true)
  {
    AllDefined(st, Disconnect(s), true);
    var st' := DoDisconnect(st, s);
    if CleanDeparture(st, s, true) {
      DisconnectKeeps(st, s, true);
      forall es | Possible(st', es) && DepartsCleanly(st', es, true)
        ensures AllServed(After(st', es))
      {
        RunKeeps(st', es, true);
        InvServes(After(st', es).st, true);
      }
    } else {
      var es := UncleanDooms(st, s);
      CompletionsDepartCleanly(st', es);
      assert !AllServed(After(st', es));
    }
  }

  /** In every run whose departures so far were clean: the next departure is clean if and only if
      everybody is served in every run that goes on from it with clean departures. */
  lemma DepartureHarmlessIff(es: seq<Event>, s: SessionId)
    requires Possible(INITIAL, es) && DepartsCleanly(INITIAL, es, true)
    requires After(INITIAL, es).Fine? ==> s in After(INITIAL, es).st.sessions
    ensures After(INITIAL, es).Fine?
    ensures var st := After(INITIAL, es).st;
            && Defined(st, Disconnect(s))
            && (Harmless(DoDisconnect(st, s)) <==> CleanDeparture(st, s, true))
  {
    RunKeeps(INITIAL, es, true);
    HarmlessIff(After(INITIAL, es).st, s);
  }
}
