/** The chat room of asio-shared as a state machine.  Every task the room runs on its strand is
    one step: a session joins, a line arrives from a session, a write to a session completes, a
    session goes away.  The state also keeps the history that the delivery property talks about. */
module ChatSpec {

  type SessionId = nat

  const MAX_QUEUE: nat := 100
  const SIZE_T: nat := 0x1_0000_0000_0000_0000

  /** What a client said: enough to tell who still has to hear it. */
  datatype Post = Post(sender: SessionId, text: string)

  /** A node of the shared list.  `id` is the number of messages accepted before it, which stands
      for the identity of the list node. */
  datatype Msg = Msg(id: nat, sender: SessionId, text: string, remaining: nat)

  /** A session's cursor: the value-initialised iterator, or the node being written. */
  datatype Pos = Idle | At(id: nat)

  /** `queue` and `sessions` are the room's own fields.  `accepted` lists every message ever
      queued, `joined` says how many there were when a session joined, and `writes` lists the
      texts whose write to a session has been started. */
  datatype State = State(
    queue: seq<Msg>,
    sessions: map<SessionId, Pos>,
    accepted: seq<Post>,
    joined: map<SessionId, nat>,
    writes: map<SessionId, seq<string>>)

  datatype Event =
    | Join(s: SessionId)
    | Receive(s: SessionId, text: string)
    | Complete(s: SessionId)
    | Disconnect(s: SessionId)

  const INITIAL := State([], map[], [], map[], map[])

  // ----- The steps

  /** `--n` on a size_t. */
  function Dec(n: nat): nat {
    if n == 0 then SIZE_T - 1 else n - 1
  }

  /** The index of the first node numbered `id`, or the length of the queue. */
  function Find(q: seq<Msg>, id: nat): (k: nat)
    ensures k <= |q|
    ensures k < |q| ==> q[k].id == id
    ensures forall i :: 0 <= i < k ==> q[i].id != id
  {
    if q == [] || q[0].id == id then 0 else 1 + Find(q[1..], id)
  }

  /** The first index from `i` on whose message was not sent by `s`, or the length of the queue. */
  function NextOther(q: seq<Msg>, s: SessionId, i: nat): (j: nat)
    requires i <= |q|
    ensures i <= j <= |q|
    ensures j < |q| ==> q[j].sender != s
    ensures forall x :: i <= x < j ==> q[x].sender == s
    decreases |q| - i
  {
    if i < |q| && q[i].sender == s then NextOther(q, s, i + 1) else i
  }

  /** The first index from `i` on whose message more than one session still needs. */
  function FirstShared(q: seq<Msg>, i: nat): (j: nat)
    requires i <= |q|
    ensures i <= j <= |q|
    ensures j < |q| ==> q[j].remaining > 1
    ensures forall x :: i <= x < j ==> q[x].remaining <= 1
    decreases |q| - i
  {
    if i < |q| && q[i].remaining <= 1 then FirstShared(q, i + 1) else i
  }

  /** Every count from index `i` on lowered by one. */
  function DecFrom(q: seq<Msg>, i: nat): seq<Msg> {
    seq(|q|, j requires 0 <= j < |q| => if j < i then q[j] else q[j].(remaining := Dec(q[j].remaining)))
  }

  /** A cursor can only be followed while its node is still in the list. */
  predicate Dereferenceable(st: State, s: SessionId) {
    s in st.sessions && st.sessions[s].At? ==> Find(st.queue, st.sessions[s].id) < |st.queue|
  }

  /** What the strand can be asked to do next.  Sessions are never reused, a write can only
      complete while one is under way. */
  predicate Enabled(st: State, e: Event) {
    match e
    case Join(s) => s !in st.joined
    case Receive(s, _) => s in st.sessions
    case Complete(s) => s in st.sessions && st.sessions[s].At?
    case Disconnect(s) => s in st.sessions
  }

  /** The step touches no list node that has been erased. */
  predicate Defined(st: State, e: Event) {
    match e
    case Complete(s) => Dereferenceable(st, s)
    case Disconnect(s) => Dereferenceable(st, s)
    case _ => true
  }

  function DoJoin(st: State, s: SessionId): State {
    st.(sessions := st.sessions[s := Idle],
        joined := st.joined[s := |st.accepted|],
        writes := st.writes[s := []])
  }

  /** A new message starts a write to every idle session but its sender's. */
  predicate Starts(sessions: map<SessionId, Pos>, sender: SessionId, t: SessionId) {
    t in sessions && t != sender && sessions[t].Idle?
  }

  function StartCursors(sessions: map<SessionId, Pos>, sender: SessionId, id: nat): map<SessionId, Pos> {
    map t | t in sessions :: if Starts(sessions, sender, t) then At(id) else sessions[t]
  }

  function StartWrites(sessions: map<SessionId, Pos>, writes: map<SessionId, seq<string>>,
                       sender: SessionId, text: string): map<SessionId, seq<string>>
  {
    map t | t in writes :: if Starts(sessions, sender, t) then writes[t] + [text] else writes[t]
  }

  function DoReceive(st: State, s: SessionId, text: string): State
    requires s in st.sessions
  {
    if |st.sessions| == 1 || |st.queue| == MAX_QUEUE then st
    else
      var id := |st.accepted|;
      assert |st.sessions| > 0;
      st.(queue := st.queue + [Msg(id, s, text, |st.sessions| - 1)],
          sessions := StartCursors(st.sessions, s, id),
          accepted := st.accepted + [Post(s, text)],
          writes := StartWrites(st.sessions, st.writes, s, text))
  }

  /** Start writing queue[j] to `s`, or leave `s` idle when there is nothing at j. */
  function MoveTo(st: State, s: SessionId, q: seq<Msg>, j: nat): State {
    if j < |q| then
      st.(sessions := st.sessions[s := At(q[j].id)],
          writes := st.writes[s := (if s in st.writes then st.writes[s] else []) + [q[j].text]])
    else
      st.(sessions := st.sessions[s := Idle])
  }

  /** The queue after the count of node k has been lowered, and the node erased at zero. */
  function Release(q: seq<Msg>, k: nat): seq<Msg>
    requires k < |q|
  {
    var rem := Dec(q[k].remaining);
    if rem == 0 then q[..k] + q[k + 1..] else q[k := q[k].(remaining := rem)]
  }

  function DoComplete(st: State, s: SessionId): State
    requires Enabled(st, Complete(s)) && Defined(st, Complete(s))
  {
    var k := Find(st.queue, st.sessions[s].id);
    Completed(st, s, k, NextOther(st.queue, s, k + 1))
  }

  /** The write of node k to `s` is done and node j is next. */
  function Completed(st: State, s: SessionId, k: nat, j: nat): State
    requires k < |st.queue|
  {
    MoveTo(st, s, st.queue, j).(queue := Release(st.queue, k))
  }

  /** The queue after the session standing at index k has gone. */
  function Abandon(q: seq<Msg>, k: nat): seq<Msg>
    requires k < |q|
  {
    if k == 0 && q[0].remaining == 1 then
      DecFrom(q[FirstShared(q, 1)..], 0)
    else
      DecFrom(q, k)
  }

  function DoDisconnect(st: State, s: SessionId): State
    requires Enabled(st, Disconnect(s)) && Defined(st, Disconnect(s))
  {
    if st.sessions[s].Idle? then st.(sessions := st.sessions - {s})
    else Left(st, s, Find(st.queue, st.sessions[s].id))
  }

  /** The session at node k has gone. */
  function Left(st: State, s: SessionId, k: nat): State
    requires k < |st.queue|
  {
    st.(sessions := st.sessions - {s}, queue := Abandon(st.queue, k))
  }

  function Step(st: State, e: Event): State
    requires Enabled(st, e) && Defined(st, e)
  {
    match e
    case Join(s) => DoJoin(st, s)
    case Receive(s, text) => DoReceive(st, s, text)
    case Complete(s) => DoComplete(st, s)
    case Disconnect(s) => DoDisconnect(st, s)
  }
}
