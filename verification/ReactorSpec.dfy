/** The select reactor as interleaved steps of its loop and of its clients.  A step is what one
    thread does while it holds the mutex; the loop lets it go only around select(). */
module ReactorSpec {

  /** Index into the two halves of events_ and fd_sets_: 0 is reading, 1 is writing. */
  type Op = n: nat | n < 2

  const FD_SETSIZE := 1024

  datatype Key = Key(op: Op, fd: nat)

  /** Registered handlers are numbered by registration.  The pipe's read end has none. */
  datatype Entry = NoHandler | Handler(id: nat)

  /** The largest descriptor registered for each operation, or -1. */
  datatype Bounds = Bounds(read: int, write: int) {
    function At(op: Op): int { if op == 0 then read else write }
  }

  /** select() reports some of what it watched, was interrupted by a signal, or failed. */
  datatype Result = Ready(mask: set<Key>) | Interrupted | Failed

  /** run() before it was called, inside select() with its copy of the bits, back but without the
      mutex, or over, one way or the other. */
  datatype Loop =
    | NotRunning
    | InSelect(snap: set<Key>, max: Bounds)
    | Returned(snap: set<Key>, max: Bounds, result: Result)
    | Finished
    | Threw

  /** `events`, `bits`, `closing` and `stopping` are the reactor's fields; `pipe` is the number of
      the pipe's read end, and `buffered` of at most `capacity` bytes are in it.  `open` are the
      descriptors that exist.  The rest is history: how many handlers were registered, which were
      posted to the executor, and since the last copy of the bits was made, whether anything was
      done that select() must be told about and what was taken out. */
  datatype State = State(
    events: map<Key, Entry>,
    bits: set<Key>,
    closing: set<nat>,
    stopping: bool,
    pipe: nat,
    buffered: nat,
    capacity: nat,
    open: set<nat>,
    loop: Loop,
    registered: nat,
    posted: seq<nat>,
    changed: bool,
    withdrawn: set<Key>)

  datatype Event =
    | Open(fd: nat)
    | Handle(key: Key, handler: bool)
    | Close(fd: nat)
    | Stop
    | Run
    | Return(result: Result)
    | Process

  function PipeKey(st: State): Key { Key(0, st.pipe) }

  function Initial(pipe: nat, capacity: nat): State {
    State(map[Key(0, pipe) := NoHandler], {Key(0, pipe)}, {}, false, pipe, 0, capacity, {pipe},
          NotRunning, 0, [], false, {})
  }

  /** A client names descriptors of its own that it has not given away to be closed. */
  predicate Owned(st: State, fd: nat) {
    fd in st.open && fd !in st.closing && fd != st.pipe
  }

  predicate Enabled(st: State, e: Event) {
    match e
    case Open(fd) => fd !in st.open
    case Handle(key, _) => Owned(st, key.fd)
    case Close(fd) => Owned(st, fd)
    case Stop => true
    case Run => st.loop.NotRunning?
    case Return(result) => st.loop.InSelect? && MayReturn(st, result)
    case Process => st.loop.Returned?
  }

  /** select() is given the first nfds descriptors of the copy, nfds being one more than the largest
      one registered, and has no timeout.  The pipe is ready when something is in it. */
  predicate MayReturn(st: State, result: Result)
    requires st.loop.InSelect?
  {
    result.Ready? ==>
      && result.mask != {}
      && result.mask <= Watched(st.loop.snap, st.loop.max)
      && (PipeKey(st) in result.mask ==> st.buffered > 0)
  }

  function Watched(snap: set<Key>, max: Bounds): set<Key> {
    set k | k in snap && (k.fd <= max.read || k.fd <= max.write)
  }

  // ----- The largest descriptor

  ghost function MaxOf(fds: set<nat>): (m: int)
    ensures -1 <= m
    ensures forall fd :: fd in fds ==> fd <= m
    ensures m == -1 || m in fds
  {
    if fds == {} then -1
    else
      var fd :| fd in fds;
      assert fds == (fds - {fd}) + {fd};
      var m := MaxOf(fds - {fd});
      if fd > m then fd else m
  }

  ghost function MaxFd(events: map<Key, Entry>, op: Op): (m: int)
    ensures -1 <= m
    ensures forall k :: k in events && k.op == op ==> k.fd <= m
    ensures m == -1 || Key(op, m) in events
  {
    var fds := set k | k in events && k.op == op :: k.fd;
    assert forall k :: k in events && k.op == op ==> k.fd in fds;
    MaxOf(fds)
  }

  // ----- Clients

  /** A byte into the pipe, unless it is full. */
  function Interrupt(st: State): State {
    st.(buffered := if st.buffered < st.capacity then st.buffered + 1 else st.buffered)
  }

  function DoHandle(st: State, key: Key, handler: bool): State {
    if key.fd >= FD_SETSIZE then st
    else if handler then
      var isNew := key !in st.bits;
      var st' := st.(bits := st.bits + {key},
                     events := st.events[key := Handler(st.registered)],
                     registered := st.registered + 1,
                     withdrawn := st.withdrawn - {key},
                     changed := st.changed || isNew);
      if isNew then Interrupt(st') else st'
    else if key in st.bits then
      st.(bits := st.bits - {key}, events := st.events - {key}, withdrawn := st.withdrawn + {key})
    else st
  }

  /** A descriptor too big to have been registered goes at once, any other when select() is over. */
  function DoClose(st: State, fd: nat): State {
    if fd >= FD_SETSIZE then st.(open := st.open - {fd})
    else
      var gone := {Key(0, fd), Key(1, fd)} * st.bits;
      Interrupt(st.(bits := st.bits - gone,
                    events := st.events - gone,
                    withdrawn := st.withdrawn + gone,
                    closing := st.closing + {fd},
                    changed := true))
  }

  function DoStop(st: State): State {
    Interrupt(st.(events := map[], stopping := true, changed := true))
  }

  // ----- The loop

  ghost function Snapshot(st: State): State {
    st.(loop := InSelect(st.bits, Bounds(MaxFd(st.events, 0), MaxFd(st.events, 1))),
        changed := false, withdrawn := {})
  }

  /** The order in which the loop looks at what is ready. */
  predicate Before(j: Key, k: Key) {
    j.op < k.op || (j.op == k.op && j.fd < k.fd)
  }

  predicate IsFirst(k: Key, keys: set<Key>) {
    k in keys && forall j :: j in keys ==> !Before(j, k)
  }

  /** What of a mask the loop gets to see. */
  function Scanned(mask: set<Key>, max: Bounds): set<Key> {
    set k | k in mask && k.fd <= max.At(k.op)
  }

  lemma {:induction false} FirstExists(keys: set<Key>)
    requires keys != {}
    ensures exists k :: IsFirst(k, keys)
    decreases |keys|
  {
    var k :| k in keys;
    if keys == {k} {
      assert IsFirst(k, keys);
    } else {
      var rest := keys - {k};
      assert keys == rest + {k};
      FirstExists(rest);
      var j :| IsFirst(j, rest);
      assert IsFirst(if Before(k, j) then k else j, keys);
    }
  }

  ghost function First(keys: set<Key>): (k: Key)
    requires keys != {}
    ensures IsFirst(k, keys)
  {
    FirstExists(keys);
    var k :| IsFirst(k, keys);
    k
  }

  /** What is done about one descriptor that select() reported: its handler is taken out and posted,
      and the pipe is drained. */
  function Served(st: State, k: Key): State
    requires k in st.events
  {
    if st.events[k].Handler? then
      st.(events := st.events - {k}, bits := st.bits - {k}, posted := st.posted + [st.events[k].id])
    else st.(buffered := 0)
  }

  /** The loop from select() to the next select().  When more than one descriptor is ready, it leaves
      the scan after the first: the counter it tests is then not zero. */
  ghost function DoProcess(st: State): State
    requires st.loop.Returned?
  {
    var result, max := st.loop.result, st.loop.max;
    var st' := st.(open := st.open - st.closing, closing := {});
    if result.Failed? then st'.(loop := Threw)
    else if st.stopping then st'.(loop := Finished)
    else if result.Interrupted? || Scanned(result.mask, max) == {} then Snapshot(st')
    else
      var k := First(Scanned(result.mask, max));
      if k in st'.events then Snapshot(Served(st', k)) else st'.(loop := Threw)
  }

  ghost function Step(st: State, e: Event): State
    requires Enabled(st, e)
  {
    match e
    case Open(fd) => st.(open := st.open + {fd})
    case Handle(key, handler) => DoHandle(st, key, handler)
    case Close(fd) => DoClose(st, fd)
    case Stop => DoStop(st)
    case Run => Snapshot(st)
    case Return(result) => st.(loop := Returned(st.loop.snap, st.loop.max, result))
    case Process => DoProcess(st)
  }
}
