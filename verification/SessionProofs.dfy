/** A session's output depends on its input alone: however reads and writes are cut up, it is the
    products of the numbers on consecutive lines. */
module SessionProofs {
  import opened Options
  import opened SessionSpec

  // ----- The invariant

  predicate NoNewline(s: Bytes) {
    forall j :: 0 <= j < |s| ==> s[j] != NEWLINE
  }

  /** The cached index never passes a newline. */
  ghost predicate Sound(st: State) {
    && |st.buf| <= LIMIT && |st.buf| <= st.capacity
    && match st.phase {
         case Searching => st.i <= |st.buf| && NoNewline(st.buf[..st.i])
         case Reading(len) =>
           && st.i == |st.buf| && NoNewline(st.buf)
           && 0 < len && |st.buf| + len <= LIMIT && |st.buf| + len <= st.capacity
         case Found(n) => 0 < n <= |st.buf| && st.buf[n - 1] == NEWLINE && NoNewline(st.buf[..n - 1])
         case Overrun(left) => 1 <= left <= 2 && |st.buf| == LIMIT && NoNewline(st.buf)
         case Writing(rest) => rest != []
         case Ended(_) => true
       }
  }

  /** What is still to be said. */
  function Ahead(st: State): Talk {
    match st.phase
    case Ended(end) => Talk([], end)
    case Overrun(_) => Talk([], TooLong)
    case Writing(rest) =>
      var talk := Conversation(st.num, st.buf + st.input, None);
      talk.(output := rest + talk.output)
    case _ => Conversation(st.num, st.buf + st.input, if st.readingB then Some(st.a) else None)
  }

  /** All that the session says, once it has. */
  function Whole(st: State): Talk {
    Ahead(st).(output := st.written + Ahead(st).output)
  }

  /** Callbacks that are due but have not been called; negative if one was called too many. */
  function Due(st: State): int {
    match st.phase
    case Writing(_) => 0
    case Overrun(left) => left - 1
    case Ended(end) => if end.TooLong? then -1 else 0
    case _ => 1
  }

  ghost predicate Inv(st: State) {
    Sound(st) && st.fired + Due(st) == st.started
  }

  // ----- Steps

  lemma FindIs(s: Bytes, k: nat)
    requires k < |s| && s[k] == NEWLINE && NoNewline(s[..k])
    ensures Find(s) == k
  {
    assert forall j :: 0 <= j < k ==> s[j] == s[..k][j];
  }

  lemma {:induction false} FindPast(s: Bytes, t: Bytes)
    requires NoNewline(s)
    ensures Find(s + t) == |s| + Find(t)
  {
    if s == [] {
      assert s + t == t;
    } else {
      assert (s + t)[1..] == s[1..] + t;
      FindPast(s[1..], t);
    }
  }

  lemma FindNone(s: Bytes)
    requires NoNewline(s)
    ensures Find(s) == |s|
  {
    assert s + [] == s;
    FindPast(s, []);
  }

  lemma SearchKeeps(st: State, capacity: nat)
    requires Inv(st) && Enabled(st, Search(capacity))
    ensures Inv(DoSearch(st, capacity)) && Whole(DoSearch(st, capacity)) == Whole(st)
  {
    SearchSound(st, capacity);
    hide Conversation, FindFrom, Inv;
    if DoSearch(st, capacity).phase.Overrun? {
      FullBuffer(st.num, st.buf, st.input, if st.readingB then Some(st.a) else None);
    }
    assert Ahead(st) == Ahead(DoSearch(st, capacity));
  }

  lemma SearchSound(st: State, capacity: nat)
    requires Inv(st) && Enabled(st, Search(capacity))
    ensures Inv(DoSearch(st, capacity))
    ensures DoSearch(st, capacity).phase.Overrun? ==> NoNewline(st.buf) && |st.buf| >= LIMIT
  {
    hide FindFrom, Find, NoNewline;
    ResumedSearch(st.buf, st.i);
  }

  lemma FullBuffer(num: Numbers, buf: Bytes, input: Bytes, carry: Option<int>)
    requires NoNewline(buf) && |buf| >= LIMIT
    ensures Conversation(num, buf + input, carry) == Talk([], TooLong)
  {
    FindPast(buf, input);
  }

  lemma ResumedSearch(buf: Bytes, i: nat)
    requires i <= |buf| && NoNewline(buf[..i])
    ensures var k := FindFrom(buf, i);
            k == Find(buf) && NoNewline(buf[..k]) && if k < |buf| then buf[k] == NEWLINE else NoNewline(buf)
  {
    assert buf == buf[..i] + buf[i..];
    FindPast(buf[..i], buf[i..]);
  }

  lemma ReadKeeps(st: State, n: nat)
    requires Inv(st) && Enabled(st, Read(n))
    ensures Inv(DoRead(st, n)) && Whole(DoRead(st, n)) == Whole(st)
  {
    var st' := DoRead(st, n);
    if n == 0 {
      assert st.buf + st.input == st.buf;
      FindNone(st.buf);
    } else {
      hide Find, Conversation;
      assert st.input == st.input[..n] + st.input[n..];
      assert st'.buf + st'.input == st.buf + st.input;
      assert st'.buf[..st'.i] == st.buf;
    }
  }

  lemma CallBackKeeps(st: State)
    requires Inv(st) && Enabled(st, CallBack)
    ensures Inv(DoCallBack(st)) && Whole(DoCallBack(st)) == Whole(st)
  {
    var n, s := st.phase.n, st.buf + st.input;
    assert s[..n - 1] == st.buf[..n - 1];
    FindIs(s, n - 1);
    assert s[n..] == st.buf[n..] + st.input;
    var st' := DoCallBack(st);
    if st'.phase.Writing? {
      assert Ahead(st) == Ahead(st');
    }
  }

  lemma WroteKeeps(st: State, n: nat)
    requires Inv(st) && Enabled(st, Wrote(n))
    ensures Inv(DoWrote(st, n)) && Whole(DoWrote(st, n)) == Whole(st)
  {
    var rest := st.phase.rest;
    var more := Conversation(st.num, st.buf + st.input, None).output;
    assert rest == rest[..n] + rest[n..];
    assert st.written + (rest + more) == (st.written + rest[..n]) + (rest[n..] + more);
    if n == |rest| {
      assert rest[n..] + more == more;
    }
  }

  predicate Fails(e: Event) { e.ReadFails? || e.WriteFails? }

  /** Unless the stream fails, a step changes nothing of what the session says in all; and if it
      does, what has been said so far stands. */
  lemma StepKeeps(st: State, e: Event)
    requires Inv(st) && Enabled(st, e)
    ensures Inv(Step(st, e))
    ensures !Fails(e) ==> Whole(Step(st, e)) == Whole(st)
    ensures Fails(e) ==> Step(st, e).phase == Ended(Failed) && Step(st, e).written == st.written
  {
    match e {
      case Search(capacity) => SearchKeeps(st, capacity);
      case Read(n) => ReadKeeps(st, n);
      case CallBack => CallBackKeeps(st);
      case Wrote(n) => WroteKeeps(st, n);
      case _ =>
    }
  }

  // ----- Progress

  /** The stream does not fail, and takes something when it is written to. */
  predicate Progresses(e: Event) { !Fails(e) && e != Wrote(0) }

  /** A session that is not over can go on. */
  lemma CanMove(st: State) returns (e: Event)
    requires Inv(st) && !st.phase.Ended?
    ensures Enabled(st, e) && Progresses(e)
  {
    match st.phase {
      case Searching => e := Search(if |st.buf| == st.capacity then st.capacity + 1 else st.capacity);
      case Reading(_) => e := Read(if st.input == [] then 0 else 1);
      case Found(_) => e := CallBack;
      case Overrun(_) => e := CallBackLimit;
      case Writing(_) => e := Wrote(1);
    }
  }

  function Rank(phase: Phase): nat {
    match phase
    case Searching => 3
    case Reading(_) => 2
    case Found(_) => 1
    case Overrun(left) => left
    case _ => 0
  }

  /** A bound on the steps to come, in what is to be said, searched and read. */
  function Work(st: State): nat {
    4 * |Ahead(st).output| + 4 * |st.buf| + 8 * |st.input| + Rank(st.phase)
  }

  lemma StepLowersWork(st: State, e: Event)
    requires Inv(st) && Enabled(st, e) && Progresses(e)
    ensures Work(Step(st, e)) < Work(st)
  {
    hide Ahead, Whole, FindFrom, CString, Answer;
    StepKeeps(st, e);
    WholeLength(st);
    WholeLength(Step(st, e));
  }

  lemma WholeLength(st: State)
    ensures |Whole(st).output| == |st.written| + |Ahead(st).output|
  {
    hide Ahead;
  }

  // ----- Runs

  predicate Possible(st: State, es: seq<Event>)
    decreases |es|
  {
    es == [] || (Enabled(st, es[0]) && Possible(Step(st, es[0]), es[1..]))
  }

  function After(st: State, es: seq<Event>): State
    requires Possible(st, es)
    decreases |es|
  {
    if es == [] then st else After(Step(st, es[0]), es[1..])
  }

  lemma {:induction false} RunKeeps(st: State, es: seq<Event>)
    requires Inv(st) && Possible(st, es)
    ensures var st' := After(st, es);
            && Inv(st')
            && (if st'.phase == Ended(Failed) then st'.written <= Whole(st).output else Whole(st') == Whole(st))
    decreases |es|
  {
    if es != [] {
      StepKeeps(st, es[0]);
      if Fails(es[0]) {
        assert es[1..] == [];
      }
      RunKeeps(Step(st, es[0]), es[1..]);
    }
  }

  lemma InitialWhole(num: Numbers, capacity: nat, input: Bytes)
    ensures Inv(Initial(num, capacity, input))
    ensures Whole(Initial(num, capacity, input)) == Conversation(num, input, None)
  {
    hide Conversation;
    assert [] + input == input;
    assert [] + Conversation(num, input, None).output == Conversation(num, input, None).output;
  }

  /** However the input arrives and the output leaves, what a session has written is a prefix of the
      conversation its input makes, and all of it once it has ended by itself. */
  lemma OutputOfInput(num: Numbers, capacity: nat, input: Bytes, es: seq<Event>)
    requires Possible(Initial(num, capacity, input), es)
    ensures var st, talk := After(Initial(num, capacity, input), es), Conversation(num, input, None);
            && st.written <= talk.output
            && (st.phase.Ended? && st.phase.end != Failed ==> st.written == talk.output && st.phase.end == talk.end)
  {
    var st0 := Initial(num, capacity, input);
    InitialWhole(num, capacity, input);
    hide Conversation, Initial, After, Possible, Inv;
    RunKeeps(st0, es);
    var st := After(st0, es);
    if st.phase.Ended? && st.phase.end != Failed {
      assert st.written + [] == st.written;
    }
  }

  lemma {:induction false} RunBounded(st: State, es: seq<Event>)
    requires Inv(st) && st.phase != Ended(Failed) && Possible(st, es)
    requires forall e :: e in es ==> Progresses(e)
    ensures |es| + Work(After(st, es)) <= Work(st)
    ensures After(st, es).phase != Ended(Failed)
    decreases |es|
  {
    if es != [] {
      assert es[0] in es;
      assert forall e :: e in es[1..] ==> e in es;
      StepKeeps(st, es[0]);
      StepLowersWork(st, es[0]);
      assert Step(st, es[0]).phase != Ended(Failed);
      hide Work, Step, Inv;
      RunBounded(Step(st, es[0]), es[1..]);
    }
  }

  /** Over a stream that does not fail and takes something of each write, a session ends: it makes no
      more steps than its input and its answer bound, it can go on until it is over, and then it has
      written the whole conversation. */
  lemma SessionEnds(num: Numbers, capacity: nat, input: Bytes, es: seq<Event>) returns (next: Event)
    requires Possible(Initial(num, capacity, input), es) && forall e :: e in es ==> Progresses(e)
    ensures var st, talk := After(Initial(num, capacity, input), es), Conversation(num, input, None);
            && |es| <= 4 * |talk.output| + 8 * |input| + 3
            && (if st.phase.Ended? then st.written == talk.output && st.phase == Ended(talk.end)
                else Enabled(st, next) && Progresses(next))
  {
    var st0 := Initial(num, capacity, input);
    var st := After(st0, es);
    InitialWhole(num, capacity, input);
    assert Work(st0) == 4 * |Conversation(num, input, None).output| + 8 * |input| + 3 by {
      hide Conversation;
      assert [] + input == input;
    }
    hide Conversation, Initial, After, Possible, Inv, Work;
    RunBounded(st0, es);
    RunKeeps(st0, es);
    OutputOfInput(num, capacity, input, es);
    if st.phase.Ended? {
      next := Search(0);
    } else {
      next := CanMove(st);
    }
  }

  /** Every read reports exactly once if and only if no line is too long for the buffer: the limit is
      reported, and the read that goes on regardless is too. */
  lemma CallBacksOnceIff(num: Numbers, capacity: nat, input: Bytes, es: seq<Event>)
    requires Possible(Initial(num, capacity, input), es)
    requires After(Initial(num, capacity, input), es).phase.Ended?
    ensures var st := After(Initial(num, capacity, input), es);
            && (st.fired == st.started <==> st.phase.end != TooLong)
            && (st.fired == st.started + 1 <==> st.phase.end == TooLong)
            && (st.phase.end != Failed ==> (st.fired == st.started <==> Conversation(num, input, None).end != TooLong))
  {
    OutputOfInput(num, capacity, input, es);
    RunKeeps(Initial(num, capacity, input), es);
  }

  // ----- What the conversation is

  /** Lines, each with its newline. */
  function Unlines(lines: seq<Bytes>): Bytes {
    if lines == [] then [] else lines[0] + [10] + Unlines(lines[1..])
  }

  /** The products of consecutive pairs, printed, each with a newline.  This and the lines are written
      out, so that they share nothing with the machine. */
  function Products(num: Numbers, xs: seq<int>): Bytes {
    if |xs| < 2 then [] else num.show(xs[0] * xs[1]) + [10] + Products(num, xs[2..])
  }

  /** A number is read from the bytes of its line before the first NUL. */
  lemma {:induction false} CStringIs(s: Bytes)
    ensures |CString(s)| <= |s| && CString(s) == s[..|CString(s)|]
    ensures 0 !in CString(s)
    ensures |CString(s)| < |s| ==> s[|CString(s)|] == 0
  {
    if s != [] && s[0] != 0 {
      CStringIs(s[1..]);
      assert s == [s[0]] + s[1..];
    }
  }

  /** A line with no newline among 1024 bytes ends the session without an answer. */
  lemma LongLineEnds(num: Numbers, s: Bytes, carry: Option<int>)
    requires |s| >= 1024 && NoNewline(s[..1024])
    ensures Conversation(num, s, carry) == Talk([], TooLong)
  {
    assert s == s[..1024] + s[1024..];
    FindPast(s[..1024], s[1024..]);
  }

  /** And so does a line that is no number. */
  lemma BadLineEnds(num: Numbers, line: Bytes, rest: Bytes, carry: Option<int>)
    requires NoNewline(line) && |line| < 1024 && num.parse(CString(line)).None?
    ensures Conversation(num, line + [10] + rest, carry) == Talk([], BadNumber)
  {
    var s := line + [10] + rest;
    assert s[..|line|] == line;
    FindIs(s, |line|);
  }

  /** A search that fails leads to a read into all the room that the string and the limit leave, or, with
      1024 bytes there, to the two reports. */
  lemma SearchReadsOn(st: State, capacity: nat)
    requires Inv(st) && Enabled(st, Search(capacity)) && NoNewline(st.buf)
    ensures var st' := Step(st, Search(capacity));
            && st'.buf == st.buf && st'.i == |st.buf|
            && (if |st.buf| == 1024 then st'.phase == Overrun(2)
                else st'.phase.Reading? && |st.buf| + st'.phase.len == if capacity < 1024 then capacity else 1024)
  {
    ResumedSearch(st.buf, st.i);
    FindNone(st.buf);
    hide Find, FindFrom;
  }

  /** Lines that fit the buffer with their newlines and are numbers, namely `xs`. */
  ghost predicate AreNumbers(num: Numbers, lines: seq<Bytes>, xs: seq<int>) {
    |lines| == |xs| &&
    forall j :: 0 <= j < |lines| ==>
      NoNewline(lines[j]) && |lines[j]| < 1024 && num.parse(CString(lines[j])) == Some(xs[j])
  }

  lemma OneLine(num: Numbers, line: Bytes, b: int, rest: Bytes, carry: Option<int>)
    requires NoNewline(line) && |line| < 1024 && num.parse(CString(line)) == Some(b)
    ensures Conversation(num, line + [10] + rest, carry) ==
            if carry.None? then Conversation(num, rest, Some(b))
            else
              var talk := Conversation(num, rest, None);
              Talk(num.show(carry.value * b) + [10] + talk.output, talk.end)
  {
    var s := line + [10] + rest;
    assert s[..|line|] == line;
    FindIs(s, |line|);
    assert s[|line| + 1..] == rest;
  }

  lemma LastLine(num: Numbers, tail: Bytes, carry: Option<int>)
    requires NoNewline(tail) && |tail| < 1024
    ensures Conversation(num, tail, carry) == Talk([], if tail == [] then Closed else CutShort)
  {
    FindNone(tail);
  }

  lemma LineAhead(lines: seq<Bytes>, tail: Bytes)
    requires lines != []
    ensures Unlines(lines) + tail == lines[0] + [10] + (Unlines(lines[1..]) + tail)
  {
  }

  /** On well-formed lines followed by an unfinished one, the conversation is the printed products of
      the numbers on consecutive lines. */
  lemma {:induction false} ConversationIsProducts(num: Numbers, lines: seq<Bytes>, xs: seq<int>, tail: Bytes)
    requires AreNumbers(num, lines, xs) && NoNewline(tail) && |tail| < 1024
    ensures Conversation(num, Unlines(lines) + tail, None) ==
            Talk(Products(num, xs), if tail == [] then Closed else CutShort)
    decreases |lines|
  {
    hide Conversation, Find, CString, NoNewline;
    if lines == [] {
      assert Unlines(lines) + tail == tail;
      LastLine(num, tail, None);
    } else {
      LineAhead(lines, tail);
      OneLine(num, lines[0], xs[0], Unlines(lines[1..]) + tail, None);
      if |lines| == 1 {
        assert Unlines(lines[1..]) + tail == tail;
        LastLine(num, tail, Some(xs[0]));
      } else {
        LineAhead(lines[1..], tail);
        assert lines[1..][1..] == lines[2..];
        hide Unlines;
        OneLine(num, lines[1], xs[1], Unlines(lines[2..]) + tail, Some(xs[0]));
        ConversationIsProducts(num, lines[2..], xs[2..], tail);
      }
    }
  }

  /** On well-formed lines a session writes nothing but the products, in order; over a stream that does
      not fail and takes something of each write it ends after a bounded number of steps, having
      written them all, with one callback for each read. */
  lemma ProductsWritten(num: Numbers, capacity: nat, lines: seq<Bytes>, xs: seq<int>, tail: Bytes, es: seq<Event>)
    requires AreNumbers(num, lines, xs) && NoNewline(tail) && |tail| < 1024
    requires Possible(Initial(num, capacity, Unlines(lines) + tail), es)
    ensures var st := After(Initial(num, capacity, Unlines(lines) + tail), es);
            && st.written <= Products(num, xs)
            && ((forall e :: e in es ==> Progresses(e)) ==>
                  && |es| <= 4 * |Products(num, xs)| + 8 * |Unlines(lines) + tail| + 3
                  && if st.phase.Ended?
                     then st.written == Products(num, xs) && st.fired == st.started
                     else exists next :: Enabled(st, next) && Progresses(next))
  {
    var input := Unlines(lines) + tail;
    ConversationIsProducts(num, lines, xs, tail);
    OutputOfInput(num, capacity, input, es);
    hide Conversation, Possible, After, Unlines, Products, AreNumbers, NoNewline;
    if forall e :: e in es ==> Progresses(e) {
      var next := SessionEnds(num, capacity, input, es);
      if After(Initial(num, capacity, input), es).phase.Ended? {
        CallBacksOnceIff(num, capacity, input, es);
      }
    }
  }
}
