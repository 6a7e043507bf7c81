/** The chat room itself: the shared list, a cursor into it per session, and the tasks that its
    strand runs one at a time.  A list node is a value numbered by acceptance and a cursor is such a
    number, so a cursor can outlive its node.  Every task is proved to take the machine's step. */
module Chat {
  import opened ChatSpec

  class Chat {
    var queue: seq<Msg>
    var sessions: map<SessionId, Pos>
    /** The texts handed to each session's asynchronous write, in order. */
    var writes: map<SessionId, seq<string>>
    /** History: every message queued so far, whose number names the next list node, and how many
        there were when each session joined. */
    var accepted: seq<Post>
    ghost var joined: map<SessionId, nat>

    /** Every session has a log of writes. */
    ghost predicate Valid()
      reads this
    {
      sessions.Keys <= writes.Keys
    }

    ghost function View(): State
      reads this
    {
      State(queue, sessions, accepted, joined, writes)
    }

    constructor ()
      ensures Valid() && View() == INITIAL
    {
      queue, sessions, writes := [], map[], map[];
      accepted, joined := [], map[];
    }

    method SessionCreated(s: SessionId)
      requires Valid() && Enabled(View(), Join(s))
      modifies this
      ensures Valid() && View() == Step(old(View()), Join(s))
    {
      sessions := sessions[s := Idle];
      writes := writes[s := []];
      joined := joined[s := |accepted|];
    }

    method SessionDestroyed(s: SessionId)
      requires Valid() && Enabled(View(), Disconnect(s)) && Defined(View(), Disconnect(s))
      modifies this
      ensures Valid() && View() == Step(old(View()), Disconnect(s))
    {
      var pos := sessions[s];
      sessions := sessions - {s};
      if pos.Idle? {
        return;
      }
      var p := IndexOf(pos.id);
      if p == 0 && queue[p].remaining == 1 {
        p := 1;
        while p < |queue| && !(queue[p].remaining > 1)
          invariant 1 <= p <= |queue|
          invariant FirstShared(queue, p) == FirstShared(queue, 1)
        {
          p := p + 1;
        }
        queue := queue[p..];
        p := 0;
      }
      DecrementFrom(p);
    }

    /** Where a cursor points in the list. */
    method IndexOf(id: nat) returns (k: nat)
      requires Find(queue, id) < |queue|
      ensures k == Find(queue, id)
    {
      k := 0;
      while queue[k].id != id
        invariant k < |queue|
        invariant k + Find(queue[k..], id) == Find(queue, id)
        decreases |queue| - k
      {
        assert queue[k..][1..] == queue[k + 1..];
        k := k + 1;
      }
    }

    /** The loop that lowers every count from a place in the list on. */
    method DecrementFrom(start: nat)
      requires start <= |queue|
      modifies this`queue
      ensures queue == DecFrom(old(queue), start)
    {
      var p := start;
      while p < |queue|
        invariant start <= p <= |queue| == |old(queue)|
        invariant forall i :: 0 <= i < |queue| ==>
          queue[i] == if start <= i < p then DecFrom(old(queue), start)[i] else old(queue)[i]
      {
        queue := queue[p := queue[p].(remaining := Dec(queue[p].remaining))];
        p := p + 1;
      }
    }

    method MessageReceived(s: SessionId, text: string)
      requires Valid() && Enabled(View(), Receive(s, text))
      modifies this
      ensures Valid() && View() == Step(old(View()), Receive(s, text))
    {
      if |sessions| == 1 {
        return;
      }
      if |queue| == MAX_QUEUE {
        return;
      }
      assert s in sessions.Keys;
      queue := queue + [Msg(|accepted|, s, text, |sessions| - 1)];
      accepted := accepted + [Post(s, text)];
      StartIdle(s, |queue| - 1);
    }

    /** Send node k to every idle session but its sender's, in whatever order the map gives. */
    method StartIdle(s: SessionId, k: nat)
      requires k < |queue| && Valid()
      modifies this`sessions, this`writes
      ensures Valid()
      ensures sessions == StartCursors(old(sessions), s, queue[k].id)
      ensures writes == StartWrites(old(sessions), old(writes), s, queue[k].text)
    {
      var todo := sessions.Keys;
      while todo != {}
        invariant todo <= sessions.Keys == old(sessions).Keys && writes.Keys == old(writes).Keys
        invariant forall t :: t in sessions ==>
          sessions[t] == (if t in todo then old(sessions) else StartCursors(old(sessions), s, queue[k].id))[t]
        invariant forall t :: t in writes ==>
          writes[t] == (if t in todo then old(writes) else StartWrites(old(sessions), old(writes), s, queue[k].text))[t]
      {
        var t :| t in todo;
        todo := todo - {t};
        if t != s && sessions[t].Idle? {
          Send(t, k);
        }
      }
    }

    method Send(s: SessionId, k: nat)
      requires k < |queue|
      modifies this`sessions, this`writes
      ensures sessions == old(sessions)[s := At(queue[k].id)]
      ensures writes == old(writes)[s := (if s in old(writes) then old(writes)[s] else []) + [queue[k].text]]
    {
      sessions := sessions[s := At(queue[k].id)];
      writes := writes[s := (if s in writes then writes[s] else []) + [queue[k].text]];
    }

    /** The handler that runs when the write to `s` has completed. */
    method WriteCompleted(s: SessionId)
      requires Valid() && Enabled(View(), Complete(s)) && Defined(View(), Complete(s))
      modifies this
      ensures Valid() && View() == Step(old(View()), Complete(s))
    {
      var k := IndexOf(sessions[s].id);
      var rem := Dec(queue[k].remaining);
      queue := queue[k := queue[k].(remaining := rem)];
      var next := k + 1;
      while next < |queue| && queue[next].sender == s
        invariant k < next <= |queue| == |old(queue)|
        invariant NextOther(old(queue), s, next) == NextOther(old(queue), s, k + 1)
        invariant queue == old(queue)[k := old(queue)[k].(remaining := rem)]
      {
        next := next + 1;
      }
      // The cursor may move before the node goes: erasing a list node leaves the others in place.
      if next < |queue| {
        Send(s, next);
      } else {
        sessions := sessions[s := Idle];
      }
      if rem == 0 {
        queue := queue[..k] + queue[k + 1..];
      }
    }
  }
}
