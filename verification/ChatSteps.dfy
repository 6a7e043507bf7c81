/** What each task of the chat room does to its fields, said without the functions the machine is made
    of, and which messages a run accepts. */
module ChatSteps {
  import opened ChatSpec
  import opened ChatRuns

  /** A session joins idle and is owed what comes after. */
  lemma JoinAdds(st: State, s: SessionId)
    requires Enabled(st, Join(s))
    ensures Step(st, Join(s)) == st.(
              sessions := st.sessions[s := Idle], joined := st.joined[s := |st.accepted|], writes := st.writes[s := []])
  {
  }

  /** A message is accepted if and only if somebody else is there and fewer than a hundred are queued;
      otherwise nothing changes.  An accepted one is queued last, to be sent by everybody but its sender,
      and a write of it is started to exactly the others that are idle. */
  lemma ReceiveAcceptsIff(st: State, s: SessionId, text: string)
    requires s in st.sessions && st.sessions.Keys <= st.writes.Keys
    ensures var st' := Step(st, Receive(s, text));
            && (st'.accepted == st.accepted + [Post(s, text)] <==> |st.sessions| > 1 && |st.queue| != 100)
            && (st'.accepted != st.accepted + [Post(s, text)] ==> st' == st)
            && (|st.sessions| > 1 && |st.queue| != 100 ==>
                  && st'.queue == st.queue + [Msg(|st.accepted|, s, text, |st.sessions| - 1)]
                  && st'.joined == st.joined
                  && st'.sessions.Keys == st.sessions.Keys && st'.writes.Keys == st.writes.Keys
                  && (forall t :: t in st.sessions && t != s && st.sessions[t].Idle? ==>
                        st'.sessions[t] == At(|st.accepted|) && st'.writes[t] == st.writes[t] + [text])
                  && (forall t :: t in st.sessions && (t == s || st.sessions[t].At?) ==>
                        st'.sessions[t] == st.sessions[t] && st'.writes[t] == st.writes[t])
                  && (forall t :: t in st.writes && t !in st.sessions ==> st'.writes[t] == st.writes[t]))
  {
    assert s in st.sessions.Keys;
    assert |st.sessions| == |st.sessions.Keys| > 0;
  }

  /** The count of a node goes down by one, and wraps around. */
  predicate Lowered(before: Msg, after: Msg) {
    && after == before.(remaining := after.remaining)
    && after.remaining == if before.remaining == 0 then 0xFFFF_FFFF_FFFF_FFFF else before.remaining - 1
  }

  /** A completed write lowers the count of the node written, at k, and takes the node out at zero; then
      the next node not sent by the session itself, at j, is written, or else the session is idle. */
  lemma CompleteMoves(st: State, s: SessionId) returns (k: nat, j: nat)
    requires Enabled(st, Complete(s)) && Defined(st, Complete(s))
    ensures k < j <= |st.queue| && st.queue[k].id == st.sessions[s].id
    ensures forall x :: 0 <= x < k ==> st.queue[x].id != st.sessions[s].id
    ensures forall x :: k < x < j ==> st.queue[x].sender == s
    ensures j < |st.queue| ==> st.queue[j].sender != s
    ensures var st', q := Step(st, Complete(s)), st.queue;
            && st'.accepted == st.accepted && st'.joined == st.joined
            && (if q[k].remaining == 1 then st'.queue == q[..k] + q[k + 1..]
                else |st'.queue| == |q| && Lowered(q[k], st'.queue[k]) && st'.queue == q[k := st'.queue[k]])
            && (if j < |q| then
                  && st'.sessions == st.sessions[s := At(q[j].id)]
                  && (s in st.writes ==> st'.writes == st.writes[s := st.writes[s] + [q[j].text]])
                else st'.sessions == st.sessions[s := Idle] && st'.writes == st.writes)
  {
    k := Find(st.queue, st.sessions[s].id);
    j := NextOther(st.queue, s, k + 1);
  }

  /** A departure takes the session out.  If it was busy with the node at k, every count from there on is
      lowered; and if that was the head and nobody else waited for it, the queue first loses everything
      before the first other node that more than one session waits for, at c. */
  lemma DisconnectLeaves(st: State, s: SessionId) returns (k: nat, c: nat)
    requires Enabled(st, Disconnect(s)) && Defined(st, Disconnect(s))
    ensures var st', q := Step(st, Disconnect(s)), st.queue;
            && st' == st.(sessions := st.sessions - {s}, queue := st'.queue)
            && (st.sessions[s].Idle? ==> st'.queue == q)
            && (st.sessions[s].At? ==>
                  && k < |q| && q[k].id == st.sessions[s].id && c <= |q| && |st'.queue| == |q| - c
                  && (forall x :: 0 <= x < k ==> q[x].id != st.sessions[s].id)
                  && (forall i :: 0 <= i < |st'.queue| ==>
                        if i + c < k then st'.queue[i] == q[i + c] else Lowered(q[i + c], st'.queue[i]))
                  && (if k == 0 && q[0].remaining == 1 then
                        c >= 1 && (forall x :: 1 <= x < c ==> q[x].remaining <= 1) && (c < |q| ==> q[c].remaining > 1)
                      else c == 0))
  {
    k, c := 0, 0;
    if st.sessions[s].At? {
      k := Find(st.queue, st.sessions[s].id);
      c := AbandonedFrom(st.queue, k);
      hide Abandon, Find;
    }
  }

  lemma AbandonedFrom(q: seq<Msg>, k: nat) returns (c: nat)
    requires k < |q|
    ensures c <= |q| && |Abandon(q, k)| == |q| - c
    ensures forall i :: 0 <= i < |Abandon(q, k)| ==>
              if i + c < k then Abandon(q, k)[i] == q[i + c] else Lowered(q[i + c], Abandon(q, k)[i])
    ensures if k == 0 && q[0].remaining == 1 then
              c >= 1 && (forall x :: 1 <= x < c ==> q[x].remaining <= 1) && (c < |q| ==> q[c].remaining > 1)
            else c == 0
  {
    c := if k == 0 && q[0].remaining == 1 then FirstShared(q, 1) else 0;
    assert Abandon(q, k) == DecFrom(q[c..], if c > 0 then 0 else k);
  }

  // ----- Runs

  /** The messages that came when somebody else was there and fewer than a hundred were queued. */
  function Heard(st: State, es: seq<Event>): seq<Post>
    requires Possible(st, es)
    decreases |es|
  {
    if es == [] || !Defined(st, es[0]) then []
    else
      var heard := es[0].Receive? && |st.sessions| > 1 && |st.queue| != 100;
      (if heard then [Post(es[0].s, es[0].text)] else []) + Heard(Step(st, es[0]), es[1..])
  }

  /** In every run exactly these are accepted, in order. */
  lemma {:induction false} AcceptedAreHeard(st: State, es: seq<Event>)
    requires Possible(st, es) && After(st, es).Fine? && st.sessions.Keys <= st.writes.Keys
    ensures After(st, es).st.accepted == st.accepted + Heard(st, es)
    decreases |es|
  {
    hide Step, Enabled, Defined;
    if es != [] {
      var st' := Step(st, es[0]);
      AcceptsOne(st, es[0]);
      AcceptedAreHeard(st', es[1..]);
    }
  }

  lemma AcceptsOne(st: State, e: Event)
    requires Enabled(st, e) && Defined(st, e) && st.sessions.Keys <= st.writes.Keys
    ensures var st' := Step(st, e);
            && st'.sessions.Keys <= st'.writes.Keys
            && st'.accepted == st.accepted +
               (if e.Receive? && |st.sessions| > 1 && |st.queue| != 100 then [Post(e.s, e.text)] else [])
  {
    match e {
      case Receive(s, text) => ReceiveAcceptsIff(st, s, text);
      case Complete(s) => var k, j := CompleteMoves(st, s);
      case Disconnect(s) => var k, c := DisconnectLeaves(st, s);
      case _ =>
    }
  }
}
