/** What the chat room keeps.  The central invariant ties every message's count to the cursors of
    the sessions; delivery follows from it.  It survives a disconnect exactly when the departing
    session's own queued messages cannot be miscounted. */
module ChatProofs {
  import opened ChatSpec

  // ----- What delivery means

  /** The texts of the messages numbered start..to that `s` did not send, in order. */
  function Owed(accepted: seq<Post>, start: nat, stop: nat, s: SessionId): seq<string>
    requires start <= stop <= |accepted|
    decreases stop
  {
    if start == stop then []
    else
      Owed(accepted, start, stop - 1, s) + (if accepted[stop - 1].sender == s then [] else [accepted[stop - 1].text])
  }

  lemma {:induction false} OwedExtends(accepted: seq<Post>, p: Post, start: nat, stop: nat, s: SessionId)
    requires start <= stop <= |accepted|
    ensures Owed(accepted + [p], start, stop, s) == Owed(accepted, start, stop, s)
    decreases stop
  {
    if start < stop {
      OwedExtends(accepted, p, start, stop - 1, s);
    }
  }

  /** Messages of one's own are not owed. */
  lemma {:induction false} OwedSkips(accepted: seq<Post>, start: nat, mid: nat, stop: nat, s: SessionId)
    requires start <= mid <= stop <= |accepted|
    requires forall k :: mid <= k < stop ==> accepted[k].sender == s
    ensures Owed(accepted, start, stop, s) == Owed(accepted, start, mid, s)
    decreases stop
  {
    if mid < stop {
      OwedSkips(accepted, start, mid, stop - 1, s);
    }
  }

  lemma {:induction false} OwedPrefix(accepted: seq<Post>, start: nat, mid: nat, stop: nat, s: SessionId)
    requires start <= mid <= stop <= |accepted|
    ensures Owed(accepted, start, mid, s) <= Owed(accepted, start, stop, s)
    decreases stop
  {
    if mid < stop {
      OwedPrefix(accepted, start, mid, stop - 1, s);
    }
  }

  // ----- The invariant

  /** The sessions that still have to hear message `id` of `sender` and whose writes have not got
      past it: busy, not the sender, at or before it. */
  ghost function Behind(sessions: map<SessionId, Pos>, id: nat, sender: SessionId): set<SessionId> {
    set t | t in sessions && t != sender && sessions[t].At? && sessions[t].id <= id
  }

  ghost predicate Queued(st: State, id: nat) {
    exists i :: 0 <= i < |st.queue| && st.queue[i].id == id
  }

  /** Nodes are in acceptance order and hold what was accepted. */
  ghost predicate Ordered(st: State) {
    && (forall i, j :: 0 <= i < j < |st.queue| ==> st.queue[i].id < st.queue[j].id)
    && (forall i :: 0 <= i < |st.queue| ==>
          && st.queue[i].id < |st.accepted|
          && st.accepted[st.queue[i].id] == Post(st.queue[i].sender, st.queue[i].text))
  }

  ghost predicate Bookkeeping(st: State) {
    && st.joined.Keys == st.writes.Keys
    && st.sessions.Keys <= st.joined.Keys
    && (forall s :: s in st.sessions ==> st.joined[s] <= |st.accepted|)
    && |st.queue| <= MAX_QUEUE
  }

  /** A busy session stands on a message it joined before and did not send. */
  ghost predicate PlacedOne(st: State, s: SessionId)
    requires s in st.sessions && s in st.joined
  {
    st.sessions[s].At? ==>
      && st.joined[s] <= st.sessions[s].id < |st.accepted|
      && st.accepted[st.sessions[s].id].sender != s
  }

  ghost predicate Placed(st: State)
    requires Bookkeeping(st)
  {
    forall s :: s in st.sessions ==> PlacedOne(st, s)
  }

  /** Nothing a busy session still has to be sent has left the queue. */
  ghost predicate Retained(st: State) {
    forall s, id | s in st.sessions && st.sessions[s].At? && st.sessions[s].id <= id < |st.accepted| ::
      st.accepted[id].sender != s ==> Queued(st, id)
  }

  /** `senders_remaining_` is the number of sessions behind.  With strays, a message may also be
      counted one too low if its sender has gone and at most one session is behind: the last one to
      pass it takes the count past zero, and the node stays. */
  ghost predicate CountIs(sessions: map<SessionId, Pos>, m: Msg, strays: bool) {
    var n := |Behind(sessions, m.id, m.sender)|;
    m.remaining == n || (strays && m.sender !in sessions && n <= 1 && m.remaining == Dec(n))
  }

  ghost predicate Counted(st: State, strays: bool) {
    forall i :: 0 <= i < |st.queue| ==> CountIs(st.sessions, st.queue[i], strays)
  }

  /** Whoever sent a message has joined, so that nobody joins under its name again. */
  ghost predicate SendersKnown(st: State) {
    forall i :: 0 <= i < |st.queue| ==> st.queue[i].sender in st.joined
  }

  /** The writes started to a session are what it is owed up to its cursor, or all it is owed. */
  ghost predicate DeliveredTo(st: State, s: SessionId)
    requires s in st.sessions && s in st.joined && s in st.writes
    requires st.joined[s] <= |st.accepted| && PlacedOne(st, s)
  {
    st.writes[s] == Owed(st.accepted, st.joined[s],
                         if st.sessions[s].Idle? then |st.accepted| else st.sessions[s].id + 1, s)
  }

  ghost predicate Delivered(st: State)
    requires Bookkeeping(st) && Placed(st)
  {
    forall s :: s in st.sessions ==> DeliveredTo(st, s)
  }

  /** The invariant: with exact counts, or with strays. */
  ghost predicate Inv(st: State, strays: bool) {
    && Ordered(st) && Bookkeeping(st) && Placed(st) && Retained(st)
    && Counted(st, strays) && Delivered(st) && SendersKnown(st)
  }

  // ----- What follows from it at once

  lemma QueuedFound(q: seq<Msg>, id: nat, i: nat)
    requires i < |q| && q[i].id == id
    ensures Find(q, id) <= i
  {
  }

  /** Every stored cursor can be followed, to a message somebody else sent. */
  lemma CursorsLive(st: State, s: SessionId)
    requires Ordered(st) && Bookkeeping(st) && Placed(st) && Retained(st)
    requires s in st.sessions && st.sessions[s].At?
    ensures Dereferenceable(st, s)
    ensures st.queue[Find(st.queue, st.sessions[s].id)].sender != s
  {
    var id := st.sessions[s].id;
    assert Queued(st, id);
    var i :| 0 <= i < |st.queue| && st.queue[i].id == id;
    QueuedFound(st.queue, id, i);
  }

  lemma AllDefined(st: State, e: Event, strays: bool)
    requires Inv(st, strays) && Enabled(st, e)
    ensures Defined(st, e)
  {
    match e {
      case Complete(s) => CursorsLive(st, s);
      case Disconnect(s) => if st.sessions[s].At? { CursorsLive(st, s); }
      case _ =>
    }
  }

  lemma {:induction false} SubsetSize<T>(a: set<T>, b: set<T>)
    requires a <= b
    ensures |a| <= |b|
  {
    assert b == a + (b - a);
  }

  /** Where a message still owed to a busy session is queued. */
  lemma QueuedAt(st: State, t: SessionId, id: nat) returns (o: nat)
    requires Ordered(st) && Retained(st)
    requires t in st.sessions && st.sessions[t].At? && st.sessions[t].id <= id < |st.accepted|
    requires st.accepted[id].sender != t
    ensures o < |st.queue| && st.queue[o].id == id
    ensures t in Behind(st.sessions, id, st.queue[o].sender)
  {
    assert Queued(st, id);
    o :| o < |st.queue| && st.queue[o].id == id;
  }

  /** Two sessions behind a message make its count at least two. */
  lemma CountsBoth(st: State, i: nat, t: SessionId, u: SessionId, strays: bool)
    requires i < |st.queue| && CountIs(st.sessions, st.queue[i], strays) && t != u
    requires t in Behind(st.sessions, st.queue[i].id, st.queue[i].sender)
    requires u in Behind(st.sessions, st.queue[i].id, st.queue[i].sender)
    ensures st.queue[i].remaining >= 2
  {
    SubsetSize({t, u}, Behind(st.sessions, st.queue[i].id, st.queue[i].sender));
  }

  // ----- Joining

  lemma JoinKeeps(st: State, s: SessionId, strays: bool)
    requires Inv(st, strays) && Enabled(st, Join(s))
    ensures Inv(DoJoin(st, s), strays)
  {
    var st' := DoJoin(st, s);
    forall i | 0 <= i < |st'.queue|
      ensures CountIs(st'.sessions, st'.queue[i], strays)
    {
      var m := st.queue[i];
      assert CountIs(st.sessions, m, strays) && m.sender in st.joined;
      assert Behind(st'.sessions, m.id, m.sender) == Behind(st.sessions, m.id, m.sender);
    }
    forall t, id | t in st'.sessions && st'.sessions[t].At? && st'.sessions[t].id <= id < |st'.accepted|
      ensures st'.accepted[id].sender != t ==> Queued(st', id)
    {
      if st'.accepted[id].sender != t {
        assert Queued(st, id);
      }
    }
  }

  // ----- Receiving

  lemma ReceiveKeeps(st: State, s: SessionId, text: string, strays: bool)
    requires Inv(st, strays) && s in st.sessions
    ensures Inv(DoReceive(st, s, text), strays)
  {
    hide Ordered, Bookkeeping, Placed, Retained, Counted, Delivered, SendersKnown, DoReceive;
    if |st.sessions| == 1 || |st.queue| == MAX_QUEUE {
      ReceiveDrops(st, s, text);
    } else {
      ReceiveFits(st);
      ReceiveSenders(st, s, text);
      ReceiveOrders(st, s, text);
      ReceiveCounts(st, s, text, strays);
      ReceiveRetains(st, s, text);
      ReceiveDelivers(st, s, text);
    }
  }

  lemma ReceiveDrops(st: State, s: SessionId, text: string)
    requires s in st.sessions && (|st.sessions| == 1 || |st.queue| == MAX_QUEUE)
    ensures DoReceive(st, s, text) == st
  {
  }

  lemma ReceiveFits(st: State)
    requires Bookkeeping(st) && |st.queue| != MAX_QUEUE
    ensures |st.queue| < MAX_QUEUE
  {
  }

  lemma ReceiveSenders(st: State, s: SessionId, text: string)
    requires Bookkeeping(st) && SendersKnown(st) && s in st.sessions
    ensures SendersKnown(DoReceive(st, s, text))
  {
    hide StartCursors, StartWrites;
  }

  lemma ReceiveOrders(st: State, s: SessionId, text: string)
    requires Ordered(st) && s in st.sessions
    ensures Ordered(DoReceive(st, s, text))
  {
  }

  lemma ReceiveRetains(st: State, s: SessionId, text: string)
    requires Bookkeeping(st) && Placed(st) && Retained(st) && s in st.sessions
    ensures Retained(DoReceive(st, s, text))
  {
    var st' := DoReceive(st, s, text);
    forall t, id | t in st'.sessions && st'.sessions[t].At? && st'.sessions[t].id <= id < |st'.accepted|
      ensures st'.accepted[id].sender != t ==> Queued(st', id)
    {
      if st'.accepted[id].sender != t {
        if id == |st.accepted| {
          assert st'.queue[|st.queue|].id == id;
        } else {
          assert Queued(st, id);
          var i :| 0 <= i < |st.queue| && st.queue[i].id == id;
          assert st'.queue[i].id == id;
        }
      }
    }
  }

  lemma ReceiveCounts(st: State, s: SessionId, text: string, strays: bool)
    requires Ordered(st) && Bookkeeping(st) && Placed(st) && Counted(st, strays)
    requires s in st.sessions && |st.sessions| != 1 && |st.queue| < MAX_QUEUE
    ensures Counted(DoReceive(st, s, text), strays)
  {
    var st' := DoReceive(st, s, text);
    forall i | 0 <= i < |st'.queue|
      ensures CountIs(st'.sessions, st'.queue[i], strays)
    {
      var m := st'.queue[i];
      if i < |st.queue| {
        assert CountIs(st.sessions, m, strays);
        assert Behind(st'.sessions, m.id, m.sender) == Behind(st.sessions, m.id, m.sender);
      } else {
        assert Behind(st'.sessions, m.id, s) == st.sessions.Keys - {s};
      }
    }
  }

  lemma ReceiveDelivers(st: State, s: SessionId, text: string)
    requires Bookkeeping(st) && Placed(st) && Delivered(st)
    requires s in st.sessions && |st.sessions| != 1 && |st.queue| < MAX_QUEUE
    ensures var st' := DoReceive(st, s, text); Bookkeeping(st') && Placed(st') && Delivered(st')
  {
    var st' := DoReceive(st, s, text);
    assert Bookkeeping(st') by {
      assert st'.writes.Keys == st.writes.Keys && st'.sessions.Keys == st.sessions.Keys;
    }
    forall t | t in st.sessions
      ensures PlacedOne(st', t) && DeliveredTo(st', t)
    {
      ReceivedWrite(st, s, text, t);
    }
  }

  /** A write of the new message is started to a session just when it owes nothing else. */
  lemma ReceivedWrite(st: State, s: SessionId, text: string, t: SessionId)
    requires s in st.sessions && t in st.sessions && t in st.joined && t in st.writes
    requires st.joined[t] <= |st.accepted| && |st.sessions| != 1 && |st.queue| < MAX_QUEUE
    requires PlacedOne(st, t) && DeliveredTo(st, t)
    ensures var st' := DoReceive(st, s, text); PlacedOne(st', t) && DeliveredTo(st', t)
  {
    OwedExtends(st.accepted, Post(s, text), st.joined[t],
                if st.sessions[t].Idle? then |st.accepted| else st.sessions[t].id + 1, t);
  }

  // ----- Completing a write

  /** The session is busy with the message at index k. */
  ghost predicate StandsOn(st: State, s: SessionId, k: nat) {
    && s in st.sessions && st.sessions[s].At?
    && k < |st.queue| && st.queue[k].id == st.sessions[s].id && st.queue[k].sender != s
  }

  /** ... and its next message is at index j. */
  ghost predicate Stands(st: State, s: SessionId, k: nat, j: nat) {
    && StandsOn(st, s, k)
    && k < j <= |st.queue|
    && (forall x :: k < x < j ==> st.queue[x].sender == s)
    && (j < |st.queue| ==> st.queue[j].sender != s)
  }

  lemma CompleteKeeps(st: State, s: SessionId, strays: bool)
    requires Inv(st, strays) && Enabled(st, Complete(s)) && Defined(st, Complete(s))
    ensures Inv(DoComplete(st, s), strays)
  {
    var k, j := CompleteStands(st, s);
    CompletedKeeps(st, s, k, j, strays);
  }

  lemma CompleteStands(st: State, s: SessionId) returns (k: nat, j: nat)
    requires Ordered(st) && Bookkeeping(st) && Placed(st) && Retained(st)
    requires Enabled(st, Complete(s)) && Defined(st, Complete(s))
    ensures Stands(st, s, k, j) && DoComplete(st, s) == Completed(st, s, k, j)
  {
    CursorsLive(st, s);
    k := Find(st.queue, st.sessions[s].id);
    j := NextOther(st.queue, s, k + 1);
  }

  lemma CompletedKeeps(st: State, s: SessionId, k: nat, j: nat, strays: bool)
    requires Inv(st, strays) && Stands(st, s, k, j)
    ensures Inv(Completed(st, s, k, j), strays)
  {
    CompleteOrders(st, s, k, j);
    CompleteCounts(st, s, k, j, strays);
    CompleteRetains(st, s, k, j, strays);
    CompleteDelivers(st, s, k, j);
  }

  /** The next message the session is owed is the next one queued: what lies between was sent by
      the session itself. */
  lemma CompleteNext(st: State, s: SessionId, k: nat, j: nat, id: nat)
    requires Ordered(st) && Retained(st) && Stands(st, s, k, j)
    requires st.sessions[s].id < id < (if j < |st.queue| then st.queue[j].id else |st.accepted|)
    requires id < |st.accepted|
    ensures st.accepted[id].sender == s
  {
  }

  /** Where the nodes of the queue come from after a release. */
  function ReleaseOrigin(q: seq<Msg>, k: nat, i: nat): (o: nat)
    requires k < |q| && i < |Release(q, k)|
    ensures o < |q|
    ensures Release(q, k)[i] == (if o == k then q[k].(remaining := Dec(q[k].remaining)) else q[o])
    ensures o == k ==> Dec(q[k].remaining) != 0
  {
    if Dec(q[k].remaining) == 0 && i >= k then i + 1 else i
  }

  lemma CompleteOrders(st: State, s: SessionId, k: nat, j: nat)
    requires Ordered(st) && k < |st.queue|
    ensures Ordered(Completed(st, s, k, j))
  {
    var st' := Completed(st, s, k, j);
    assert forall i :: 0 <= i < |st'.queue| ==>
      var o := ReleaseOrigin(st.queue, k, i);
      && st'.queue[i].id == st.queue[o].id
      && st'.queue[i].sender == st.queue[o].sender
      && st'.queue[i].text == st.queue[o].text;
  }

  lemma CompleteCounts(st: State, s: SessionId, k: nat, j: nat, strays: bool)
    requires Ordered(st) && Counted(st, strays) && Stands(st, s, k, j)
    ensures Counted(Completed(st, s, k, j), strays)
  {
    var st' := Completed(st, s, k, j);
    forall i | 0 <= i < |st'.queue|
      ensures CountIs(st'.sessions, st'.queue[i], strays)
    {
      CompleteCountsOne(st, s, k, j, i, strays);
    }
  }

  lemma CompleteCountsOne(st: State, s: SessionId, k: nat, j: nat, i: nat, strays: bool)
    requires Ordered(st) && Stands(st, s, k, j) && i < |Release(st.queue, k)|
    requires CountIs(st.sessions, st.queue[ReleaseOrigin(st.queue, k, i)], strays)
    ensures CountIs(Completed(st, s, k, j).sessions, Release(st.queue, k)[i], strays)
  {
    CompleteBehind(st, s, k, j, ReleaseOrigin(st.queue, k, i));
    hide Behind;
  }

  /** Moving the cursor on takes the session off the message it has finished, and off no other. */
  lemma CompleteBehind(st: State, s: SessionId, k: nat, j: nat, o: nat)
    requires Ordered(st) && Stands(st, s, k, j) && o < |st.queue|
    ensures var m := st.queue[o];
            var before := Behind(st.sessions, m.id, m.sender);
            var after := Behind(Completed(st, s, k, j).sessions, m.id, m.sender);
            if o == k then s in before && after == before - {s} else after == before
  {
    var st' := Completed(st, s, k, j);
    var m := st.queue[o];
    var before := Behind(st.sessions, m.id, m.sender);
    var after := Behind(st'.sessions, m.id, m.sender);
    assert forall t :: t != s ==> (t in before <==> t in after);
    assert o < k ==> m.id < st.queue[k].id;
    assert k < o ==> st.queue[k].id < m.id;
    assert j < |st.queue| ==> (j <= o <==> st.queue[j].id <= m.id);
    assert s in before <==> k <= o && m.sender != s;
    assert s in after <==> j <= o && m.sender != s;
  }

  lemma CompleteRetains(st: State, s: SessionId, k: nat, j: nat, strays: bool)
    requires Ordered(st) && Retained(st) && Stands(st, s, k, j)
    requires Dec(st.queue[k].remaining) == 0 ==> CountIs(st.sessions, st.queue[k], strays)
    ensures Retained(Completed(st, s, k, j))
  {
    var st' := Completed(st, s, k, j);
    forall t, id | t in st'.sessions && st'.sessions[t].At? && st'.sessions[t].id <= id < |st'.accepted|
      ensures st'.accepted[id].sender != t ==> Queued(st', id)
    {
      if st'.accepted[id].sender != t {
        var o := QueuedAt(st, t, id);
        CompleteRetainsOne(st, s, k, j, t, o, strays);
      }
    }
  }

  lemma CompleteRetainsOne(st: State, s: SessionId, k: nat, j: nat, t: SessionId, o: nat, strays: bool)
    requires StandsOn(st, s, k) && o < |st.queue|
    requires Dec(st.queue[k].remaining) == 0 ==> CountIs(st.sessions, st.queue[k], strays)
    requires t in Behind(st.sessions, st.queue[o].id, st.queue[o].sender)
    requires t == s ==> o != k
    ensures Queued(Completed(st, s, k, j), st.queue[o].id)
  {
    var st' := Completed(st, s, k, j);
    var gone := Dec(st.queue[k].remaining) == 0;
    if o == k && gone {
      CountsBoth(st, k, t, s, strays);
    }
    assert st'.queue[if gone && o > k then o - 1 else o].id == st.queue[o].id;
  }

  lemma CompleteDelivers(st: State, s: SessionId, k: nat, j: nat)
    requires Ordered(st) && Bookkeeping(st) && Placed(st) && Retained(st) && Delivered(st) && Stands(st, s, k, j)
    ensures var st' := Completed(st, s, k, j); Bookkeeping(st') && Placed(st') && Delivered(st')
  {
    var next := if j < |st.queue| then st.queue[j].id else |st.accepted|;
    assert PlacedOne(st, s) && DeliveredTo(st, s);
    forall id | st.sessions[s].id + 1 <= id < next
      ensures st.accepted[id].sender == s
    {
      CompleteNext(st, s, k, j, id);
    }
    CompletedWrite(st, s, k, j);
    OthersUntouched(st, s, k, j);
  }

  lemma OthersUntouched(st: State, s: SessionId, k: nat, j: nat)
    requires Bookkeeping(st) && Placed(st) && Delivered(st) && s in st.sessions && k < |st.queue|
    requires var st' := Completed(st, s, k, j);
             s in st'.sessions && s in st'.writes && PlacedOne(st', s) && DeliveredTo(st', s)
    ensures var st' := Completed(st, s, k, j); Bookkeeping(st') && Placed(st') && Delivered(st')
  {
    var st' := Completed(st, s, k, j);
    forall t | t in st'.sessions
      ensures PlacedOne(st', t) && DeliveredTo(st', t)
    {
      assert PlacedOne(st, t) && DeliveredTo(st, t);
    }
  }

  /** The write started next, if any, is the next one owed. */
  lemma CompletedWrite(st: State, s: SessionId, k: nat, j: nat)
    requires Ordered(st) && Stands(st, s, k, j)
    requires s in st.joined && s in st.writes && st.joined[s] <= |st.accepted|
    requires PlacedOne(st, s) && DeliveredTo(st, s)
    requires forall id :: st.sessions[s].id + 1 <= id < (if j < |st.queue| then st.queue[j].id else |st.accepted|)
               ==> st.accepted[id].sender == s
    ensures var st' := Completed(st, s, k, j);
            s in st'.sessions && s in st'.writes && PlacedOne(st', s) && DeliveredTo(st', s)
  {
    var next := if j < |st.queue| then st.queue[j].id else |st.accepted|;
    assert st.sessions[s].id < next by {
      if j < |st.queue| { assert st.queue[k].id < st.queue[j].id; }
    }
    OwedSkips(st.accepted, st.joined[s], st.sessions[s].id + 1, next, s);
  }

  // ----- Disconnecting

  /** The index at which the queue begins once the node at index k has been abandoned. */
  function Cut(q: seq<Msg>, k: nat): (c: nat)
    requires k < |q|
    ensures c <= |q|
    ensures forall x :: 0 <= x < c ==> k == 0 && q[x].remaining <= 1
    ensures c > 0 ==> k < c && q[k].remaining == 1
  {
    if k == 0 && q[0].remaining == 1 then FirstShared(q, 1) else 0
  }

  /** The nodes that stay, and the counts they are left with. */
  lemma AbandonNodes(q: seq<Msg>, k: nat)
    requires k < |q|
    ensures |Abandon(q, k)| == |q| - Cut(q, k)
    ensures forall i :: 0 <= i < |Abandon(q, k)| ==> Abandon(q, k)[i] == Kept(q, k, i + Cut(q, k))
  {
    var c := Cut(q, k);
    assert q[0..] == q;
    assert Abandon(q, k) == DecFrom(q[c..], if c > 0 then 0 else k);
  }

  /** What becomes of the node at index o if it stays. */
  function Kept(q: seq<Msg>, k: nat, o: nat): Msg
    requires o < |q|
  {
    if o < k then q[o] else q[o].(remaining := Dec(q[o].remaining))
  }

  /** A session may go away when it is idle, or when each of its own messages still queued behind its
      cursor is one that nobody waits for and that leaves the queue with it.  With strays, one that
      stays is no harm while at most one session waits for it. */
  predicate CleanDeparture(st: State, s: SessionId, strays: bool)
    requires Enabled(st, Disconnect(s)) && Defined(st, Disconnect(s))
  {
    st.sessions[s].Idle? || CleanAt(st.queue, s, Find(st.queue, st.sessions[s].id), strays)
  }

  predicate CleanAt(q: seq<Msg>, s: SessionId, k: nat, strays: bool)
    requires k < |q|
  {
    forall j :: k < j < |q| && q[j].sender == s ==> CleanOne(q, k, j, strays)
  }

  predicate CleanOne(q: seq<Msg>, k: nat, j: nat, strays: bool)
    requires k < |q| && j < |q|
  {
    if j < Cut(q, k) then q[j].remaining == 0 else strays && q[j].remaining <= 1
  }

  /** Nobody is behind an own message that leaves the queue. */
  predicate PrunesClean(q: seq<Msg>, s: SessionId, k: nat)
    requires k < |q|
  {
    forall j :: k < j < Cut(q, k) && q[j].sender == s ==> q[j].remaining == 0
  }

  lemma IdleLeaves(st: State, s: SessionId, strays: bool)
    requires Inv(st, strays) && s in st.sessions && st.sessions[s].Idle?
    ensures Inv(st.(sessions := st.sessions - {s}), strays)
  {
    var st' := st.(sessions := st.sessions - {s});
    forall i | 0 <= i < |st'.queue|
      ensures CountIs(st'.sessions, st'.queue[i], strays)
    {
      var m := st.queue[i];
      assert CountIs(st.sessions, m, strays);
      assert Behind(st'.sessions, m.id, m.sender) == Behind(st.sessions, m.id, m.sender);
    }
    forall t, id | t in st'.sessions && st'.sessions[t].At? && st'.sessions[t].id <= id < |st'.accepted|
      ensures st'.accepted[id].sender != t ==> Queued(st', id)
    {
      if st'.accepted[id].sender != t {
        assert Queued(st, id);
      }
    }
  }

  /** The departing session was behind exactly the messages from its cursor on that it did not send. */
  lemma LeftBehind(st: State, s: SessionId, k: nat, o: nat)
    requires Ordered(st) && StandsOn(st, s, k) && o < |st.queue|
    ensures var m := st.queue[o];
            var before := Behind(st.sessions, m.id, m.sender);
            Behind(st.sessions - {s}, m.id, m.sender) == before - {s} && (s in before <==> m.sender != s && k <= o)
  {
    var m := st.queue[o];
    assert Behind(st.sessions - {s}, m.id, m.sender) == Behind(st.sessions, m.id, m.sender) - {s};
    assert k <= o <==> st.queue[k].id <= m.id;
  }

  lemma LeftOrders(st: State, s: SessionId, k: nat)
    requires Ordered(st) && k < |st.queue|
    ensures Ordered(Left(st, s, k))
  {
    AbandonNodes(st.queue, k);
  }

  lemma LeftCounts(st: State, s: SessionId, k: nat, strays: bool)
    requires Ordered(st) && Counted(st, strays) && StandsOn(st, s, k) && CleanAt(st.queue, s, k, strays)
    ensures Counted(Left(st, s, k), strays)
  {
    var st' := Left(st, s, k);
    AbandonNodes(st.queue, k);
    forall i | 0 <= i < |st'.queue|
      ensures CountIs(st'.sessions, st'.queue[i], strays)
    {
      LeftCountsOne(st, s, k, i + Cut(st.queue, k), strays);
    }
  }

  lemma LeftCountsOne(st: State, s: SessionId, k: nat, o: nat, strays: bool)
    requires Ordered(st) && StandsOn(st, s, k) && o < |st.queue|
    requires CountIs(st.sessions, st.queue[o], strays)
    requires k < o && st.queue[o].sender == s ==> strays && st.queue[o].remaining <= 1
    ensures CountIs(st.sessions - {s}, Kept(st.queue, k, o), strays)
  {
    LeftBehind(st, s, k, o);
    hide Behind;
  }

  lemma LeftRetains(st: State, s: SessionId, k: nat, strays: bool)
    requires Ordered(st) && Retained(st) && Counted(st, strays) && StandsOn(st, s, k) && PrunesClean(st.queue, s, k)
    ensures Retained(Left(st, s, k))
  {
    var st' := Left(st, s, k);
    forall t, id | t in st'.sessions && st'.sessions[t].At? && st'.sessions[t].id <= id < |st'.accepted|
      ensures st'.accepted[id].sender != t ==> Queued(st', id)
    {
      if st'.accepted[id].sender != t {
        var o := QueuedAt(st, t, id);
        LeftRetainsOne(st, s, k, t, o, strays);
      }
    }
  }

  lemma LeftRetainsOne(st: State, s: SessionId, k: nat, t: SessionId, o: nat, strays: bool)
    requires Ordered(st) && Counted(st, strays) && StandsOn(st, s, k) && PrunesClean(st.queue, s, k)
    requires o < |st.queue| && t != s && t in Behind(st.sessions, st.queue[o].id, st.queue[o].sender)
    ensures Queued(Left(st, s, k), st.queue[o].id)
  {
    WaitedFor(st, s, k, t, o, strays);
    AbandonNodes(st.queue, k);
    assert Left(st, s, k).queue[o - Cut(st.queue, k)].id == st.queue[o].id;
  }

  /** A message somebody else is behind does not leave the queue with the session. */
  lemma WaitedFor(st: State, s: SessionId, k: nat, t: SessionId, o: nat, strays: bool)
    requires Ordered(st) && Counted(st, strays) && StandsOn(st, s, k) && PrunesClean(st.queue, s, k)
    requires o < |st.queue| && t != s && t in Behind(st.sessions, st.queue[o].id, st.queue[o].sender)
    ensures o >= Cut(st.queue, k)
  {
    LeftBehind(st, s, k, o);
    if st.queue[o].sender != s && k <= o {
      CountsBoth(st, o, t, s, strays);
    } else {
      SubsetSize({t}, Behind(st.sessions, st.queue[o].id, st.queue[o].sender));
    }
  }

  lemma DisconnectKeeps(st: State, s: SessionId, strays: bool)
    requires Inv(st, strays) && Enabled(st, Disconnect(s)) && Defined(st, Disconnect(s))
    requires CleanDeparture(st, s, strays)
    ensures Inv(DoDisconnect(st, s), strays)
  {
    if st.sessions[s].Idle? {
      IdleLeaves(st, s, strays);
    } else {
      var k := Find(st.queue, st.sessions[s].id);
      CursorsLive(st, s);
      LeftOrders(st, s, k);
      LeftCounts(st, s, k, strays);
      CleanPrunes(st.queue, s, k, strays);
      LeftRetains(st, s, k, strays);
      LeftStays(st, s, k);
      hide Left, Ordered, Bookkeeping, Retained, Counted, SendersKnown, Placed, Delivered;
    }
  }

  lemma CleanPrunes(q: seq<Msg>, s: SessionId, k: nat, strays: bool)
    requires k < |q| && CleanAt(q, s, k, strays)
    ensures PrunesClean(q, s, k)
  {
    forall j | k < j < Cut(q, k) && q[j].sender == s
      ensures q[j].remaining == 0
    {
      assert CleanOne(q, k, j, strays);
    }
  }

  /** What a departure does not touch: the other sessions and what they have been sent. */
  lemma LeftStays(st: State, s: SessionId, k: nat)
    requires Bookkeeping(st) && Placed(st) && Delivered(st) && SendersKnown(st) && k < |st.queue|
    ensures var st' := Left(st, s, k); Bookkeeping(st') && Placed(st') && Delivered(st') && SendersKnown(st')
  {
    var st' := Left(st, s, k);
    AbandonNodes(st.queue, k);
    forall t | t in st'.sessions
      ensures PlacedOne(st', t) && DeliveredTo(st', t)
    {
      assert PlacedOne(st, t) && DeliveredTo(st, t);
    }
    forall i | 0 <= i < |st'.queue|
      ensures st'.queue[i].sender in st'.joined
    {
      assert st'.queue[i].sender == st.queue[i + Cut(st.queue, k)].sender;
    }
  }

  /** An own message left in the queue is counted one too low afterwards, with wrap-around, and more
      than a stray unless at most one session is behind it. */
  lemma LeftMiscounts(st: State, s: SessionId, k: nat, j: nat, strays: bool)
    requires Ordered(st) && Counted(st, strays) && StandsOn(st, s, k)
    requires k < j < |st.queue| && st.queue[j].sender == s && j >= Cut(st.queue, k)
    requires !(strays && st.queue[j].remaining <= 1)
    ensures var m, st' := Kept(st.queue, k, j), Left(st, s, k);
            && j - Cut(st.queue, k) < |st'.queue| && st'.queue[j - Cut(st.queue, k)] == m
            && m.remaining == Dec(|Behind(st'.sessions, m.id, m.sender)|)
    ensures !Counted(Left(st, s, k), strays)
  {
    var m := st.queue[j];
    AbandonNodes(st.queue, k);
    LeftBehind(st, s, k, j);
    assert Left(st, s, k).queue[j - Cut(st.queue, k)] == m.(remaining := Dec(m.remaining));
  }

  /** An own message that somebody is behind takes that session's node with it. */
  lemma LeftDangles(st: State, s: SessionId, k: nat, j: nat, strays: bool) returns (t: SessionId)
    requires Ordered(st) && Counted(st, strays) && StandsOn(st, s, k)
    requires k < j < Cut(st.queue, k) && st.queue[j].sender == s && st.queue[j].remaining > 0
    ensures var st' := Left(st, s, k); t in st'.sessions && st'.sessions[t].At? && !Dereferenceable(st', t)
  {
    var m := st.queue[j];
    t :| t in Behind(st.sessions, m.id, m.sender);
    AbandonNodes(st.queue, k);
    var q := Left(st, s, k).queue;
    forall i | 0 <= i < |q|
      ensures q[i].id > m.id
    {
      assert q[i].id == st.queue[i + Cut(st.queue, k)].id;
    }
    NotFound(q, st.sessions[t].id);
  }

  lemma NotFound(q: seq<Msg>, id: nat)
    requires forall i :: 0 <= i < |q| ==> q[i].id > id
    ensures Find(q, id) == |q|
  {
  }

  lemma KeptFound(st: State, s: SessionId, k: nat, o: nat)
    requires k < |st.queue| && o < |st.queue|
    ensures o >= Cut(st.queue, k) ==> Find(Left(st, s, k).queue, st.queue[o].id) < |Left(st, s, k).queue|
  {
    AbandonNodes(st.queue, k);
    if o >= Cut(st.queue, k) {
      QueuedFound(Left(st, s, k).queue, st.queue[o].id, o - Cut(st.queue, k));
    }
  }

  /** Only such a message does: anybody else's node that goes is one nobody is behind any more. */
  lemma DanglesBehindOwn(st: State, s: SessionId, k: nat, t: SessionId, strays: bool) returns (j: nat)
    requires Inv(st, strays) && StandsOn(st, s, k) && !Dereferenceable(Left(st, s, k), t)
    ensures k < j < Cut(st.queue, k) && st.queue[j].sender == s && st.queue[j].remaining > 0
  {
    CursorsLive(st, t);
    var id := st.sessions[t].id;
    j := Find(st.queue, id);
    var m := st.queue[j];
    KeptFound(st, s, k, j);
    assert t in Behind(st.sessions, m.id, m.sender);
    SubsetSize({t}, Behind(st.sessions, m.id, m.sender));
    if m.sender != s {
      LeftBehind(st, s, k, j);
      CountsBoth(st, j, t, s, strays);
    }
  }

  /** Exactly when a departure leaves a session on an erased node: when it prunes a message of the
      departing session's own that somebody is behind.  That session's next step is then undefined. */
  lemma DepartureDanglesIff(st: State, s: SessionId, strays: bool)
    requires Inv(st, strays) && s in st.sessions && st.sessions[s].At?
    ensures Defined(st, Disconnect(s))
    ensures var k := Find(st.queue, st.sessions[s].id);
            (exists t :: !Dereferenceable(DoDisconnect(st, s), t)) <==>
            (exists j :: k < j < Cut(st.queue, k) && st.queue[j].sender == s && st.queue[j].remaining > 0)
  {
    CursorsLive(st, s);
    var k := Find(st.queue, st.sessions[s].id);
    assert DoDisconnect(st, s) == Left(st, s, k) && Ordered(st) && Counted(st, strays) && StandsOn(st, s, k);
    hide Inv, Ordered, Counted, StandsOn, DoDisconnect, Left, Dereferenceable, Cut;
    if t :| !Dereferenceable(DoDisconnect(st, s), t) {
      var j := DanglesBehindOwn(st, s, k, t, strays);
    }
    if j :| k < j < Cut(st.queue, k) && st.queue[j].sender == s && st.queue[j].remaining > 0 {
      var t := LeftDangles(st, s, k, j, strays);
    }
  }

  /** The exact condition under which the room survives a departure. */
  lemma DisconnectKeepsIff(st: State, s: SessionId, strays: bool)
    requires Inv(st, strays) && Enabled(st, Disconnect(s))
    ensures Defined(st, Disconnect(s))
    ensures Inv(DoDisconnect(st, s), strays) <==> CleanDeparture(st, s, strays)
  {
    AllDefined(st, Disconnect(s), strays);
    if CleanDeparture(st, s, strays) {
      DisconnectKeeps(st, s, strays);
    } else {
      var k := Find(st.queue, st.sessions[s].id);
      CursorsLive(st, s);
      var j :| k < j < |st.queue| && st.queue[j].sender == s && !CleanOne(st.queue, k, j, strays);
      if j >= Cut(st.queue, k) {
        LeftMiscounts(st, s, k, j, strays);
      } else {
        var t := LeftDangles(st, s, k, j, strays);
        if Inv(DoDisconnect(st, s), strays) {
          CursorsLive(DoDisconnect(st, s), t);
        }
      }
    }
  }
}
