/** The calculator session over a byte stream, as steps: reads and writes of any size, the search for
    a newline in what has been read so far, and the callbacks.  Its specification is a function of
    the whole input. */
module SessionSpec {
  import opened Options

  type Byte = bv8
  type Bytes = seq<Byte>

  const NEWLINE: Byte := 10
  const LIMIT := 1024

  /** Reading and printing numbers of any size are left open. */
  datatype Numbers = Numbers(parse: Bytes -> Option<int>, show: int -> Bytes)

  // ----- What a session says

  /** Why a session ends: the input does, between two lines or inside one; a line does not fit the
      buffer; a line is no number; or the stream fails. */
  datatype End = Closed | CutShort | TooLong | BadNumber | Failed

  datatype Talk = Talk(output: Bytes, end: End)

  /** Where the first newline is, or the length if there is none. */
  function Find(s: Bytes): (k: nat)
    ensures k <= |s|
    ensures forall j :: 0 <= j < k ==> s[j] != NEWLINE
    ensures k < |s| ==> s[k] == NEWLINE
  {
    if s == [] || s[0] == NEWLINE then 0 else 1 + Find(s[1..])
  }

  /** The bytes before the first NUL. */
  function CString(s: Bytes): Bytes {
    if s == [] || s[0] == 0 then [] else [s[0]] + CString(s[1..])
  }

  /** The answer to the input `s`, `carry` being the first factor if that has been read. */
  function Conversation(num: Numbers, s: Bytes, carry: Option<int>): Talk
    decreases |s|
  {
    var k := Find(s);
    if k >= LIMIT then Talk([], TooLong)
    else if k == |s| then Talk([], if s == [] then Closed else CutShort)
    else match num.parse(CString(s[..k]))
      case None => Talk([], BadNumber)
      case Some(b) =>
        if carry.None? then Conversation(num, s[k + 1..], Some(b))
        else
          var talk := Conversation(num, s[k + 1..], None);
          talk.(output := Answer(num, carry.value, b) + talk.output)
  }

  function Answer(num: Numbers, a: int, b: int): Bytes {
    num.show(a * b) + [NEWLINE]
  }

  // ----- The machine

  /** About to search the buffer; reading into `len` free bytes; about to be told of the `n` bytes
      up to a newline; with a full buffer and that many callbacks coming; writing; or over. */
  datatype Phase =
    | Searching
    | Reading(len: nat)
    | Found(n: nat)
    | Overrun(left: nat)
    | Writing(rest: Bytes)
    | Ended(end: End)

  /** `buf`, its `capacity`, `a` and `readingB` are the session's fields and `i` is the search's
      cached index.  `input` is what the stream has yet to give, `written` what it has taken.
      `started` and `fired` count the calls of async_read_until and of its callbacks. */
  datatype State = State(
    num: Numbers,
    buf: Bytes,
    capacity: nat,
    i: nat,
    a: int,
    readingB: bool,
    phase: Phase,
    input: Bytes,
    written: Bytes,
    started: nat,
    fired: nat)

  datatype Event =
    | Search(capacity: nat)
    | Read(n: nat)
    | ReadFails
    | CallBack
    | CallBackLimit
    | Wrote(n: nat)
    | WriteFails

  function Initial(num: Numbers, capacity: nat, input: Bytes): State {
    State(num, [], capacity, 0, 0, false, Searching, input, [], 1, 0)
  }

  /** A read gives up to as many bytes as there is room for, and none only at the end of the input.
      A full string grows by as much as it likes. */
  predicate Enabled(st: State, e: Event) {
    match e
    case Search(capacity) =>
      st.phase.Searching? && (if |st.buf| == st.capacity then capacity > |st.buf| else capacity == st.capacity)
    case Read(n) => st.phase.Reading? && n <= st.phase.len && n <= |st.input| && (n == 0 ==> st.input == [])
    case ReadFails => st.phase.Reading?
    case CallBack => st.phase.Found? && 0 < st.phase.n <= |st.buf|
    case CallBackLimit => st.phase.Overrun? && st.phase.left > 0
    case Wrote(n) => st.phase.Writing? && n <= |st.phase.rest|
    case WriteFails => st.phase.Writing?
  }

  /** The search resumes where it left off. */
  function FindFrom(buf: Bytes, i: nat): nat {
    if i <= |buf| then i + Find(buf[i..]) else i
  }

  /** async_read_until_impl, up to its read or its callback.  A full buffer is reported, and still
      read into: that read ends at once and is reported as well. */
  function DoSearch(st: State, capacity: nat): State {
    var k := FindFrom(st.buf, st.i);
    if k < |st.buf| then st.(phase := Found(k + 1))
    else if |st.buf| >= LIMIT then st.(i := |st.buf|, phase := Overrun(2))
    else
      var most := if capacity < LIMIT then capacity else LIMIT;
      st.(i := |st.buf|, capacity := capacity, phase := Reading(if most < |st.buf| then 0 else most - |st.buf|))
  }

  function DoRead(st: State, n: nat): State
    requires n <= |st.input|
  {
    if n == 0 then
      st.(fired := st.fired + 1, phase := Ended(if st.buf == [] then Closed else CutShort))
    else
      st.(buf := st.buf + st.input[..n], input := st.input[n..], phase := Searching)
  }

  function StartReading(st: State, b: bool): State {
    st.(readingB := b, i := 0, phase := Searching, started := st.started + 1)
  }

  /** The callback that is given a line: take the number off the buffer, and read the second one or
      write the product. */
  function DoCallBack(st: State): State
    requires st.phase.Found? && 0 < st.phase.n <= |st.buf|
  {
    var n := st.phase.n;
    var st' := st.(fired := st.fired + 1);
    match st.num.parse(CString(st.buf[..n - 1]))
    case None => st'.(buf := st.buf[n - 1 := 0], phase := Ended(BadNumber))
    case Some(b) =>
      if st.readingB then st'.(buf := st.buf[n..], phase := Writing(Answer(st.num, st.a, b)))
      else StartReading(st'.(buf := st.buf[n..], a := b), true)
  }

  function DoWrote(st: State, n: nat): State
    requires st.phase.Writing? && n <= |st.phase.rest|
  {
    var st' := st.(written := st.written + st.phase.rest[..n]);
    if n == |st.phase.rest| then StartReading(st', false)
    else st'.(phase := Writing(st.phase.rest[n..]))
  }

  function Step(st: State, e: Event): State
    requires Enabled(st, e)
  {
    match e
    case Search(capacity) => DoSearch(st, capacity)
    case Read(n) => DoRead(st, n)
    case ReadFails => st.(fired := st.fired + 1, phase := Ended(Failed))
    case CallBack => DoCallBack(st)
    case CallBackLimit =>
      st.(fired := st.fired + 1, phase := if st.phase.left == 1 then Ended(TooLong) else Overrun(st.phase.left - 1))
    case Wrote(n) => DoWrote(st, n)
    case WriteFails => st.(phase := Ended(Failed))
  }
}
