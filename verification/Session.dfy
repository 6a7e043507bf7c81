/** The session itself: its buffers, the search predicate's cached index, and the handlers that run
    one after another.  Every handler is proved to take the machine's step. */
module Session {
  import opened Options
  import opened SessionSpec

  class Session {
    const num: Numbers
    /** While a read is under way, the buffer has been made longer by the bytes it may fill. */
    var inBuf: Bytes
    var capacity: nat
    var i: nat
    var a: int
    var readingB: bool
    var outBuf: Bytes
    var phase: Phase
    /** The stream. */
    var input: Bytes
    var written: Bytes
    ghost var started: nat
    ghost var fired: nat

    ghost predicate Valid()
      reads this
    {
      && |inBuf| <= capacity && |inBuf| <= LIMIT
      && (phase.Reading? ==> phase.len <= |inBuf|)
      && (phase.Searching? || phase.Reading? ==> i <= |Data()|)
      && (phase.Found? ==> 0 < phase.n <= |inBuf|)
    }

    /** The bytes read and not yet used. */
    ghost function Data(): Bytes
      reads this
    {
      if phase.Reading? && phase.len <= |inBuf| then inBuf[..|inBuf| - phase.len] else inBuf
    }

    ghost function View(): State
      reads this
    {
      State(num, Data(), capacity, i, a, readingB, phase, input, written, started, fired)
    }

    constructor (numbers: Numbers, room: nat, stream: Bytes)
      ensures Valid() && View() == Initial(numbers, room, stream)
    {
      num, inBuf, capacity, i, a, readingB, outBuf := numbers, [], room, 0, 0, false, [];
      phase, input, written := Searching, stream, [];
      started, fired := 1, 0;
    }

    /** The predicate: find the delimiter, from where the last search ended. */
    method Match() returns (len: int)
      requires i <= |inBuf|
      modifies this`i
      ensures var k := FindFrom(inBuf, old(i));
              if k < |inBuf| then len == k + 1 && i == old(i) else len == -1 && i == |inBuf|
    {
      var it := i;
      while it < |inBuf| && inBuf[it] != NEWLINE
        invariant i <= it <= |inBuf|
        invariant it + Find(inBuf[it..]) == i + Find(inBuf[i..])
      {
        assert inBuf[it..][1..] == inBuf[it + 1..];
        it := it + 1;
      }
      if it == |inBuf| {
        i := |inBuf|;
        return -1;
      }
      return it + 1;
    }

    /** async_read_until_impl; `grown` is the capacity a full string chooses when it grows. */
    method ReadUntil(grown: nat)
      requires Valid() && Enabled(View(), Search(grown))
      modifies this
      ensures Valid() && View() == Step(old(View()), Search(grown))
    {
      hide Find;
      var len := Match();
      if len >= 0 {
        phase := Found(len);
        return;
      }
      var full := |inBuf| == LIMIT;
      if full {
        // This is reported, but nothing returns here: the read below goes ahead without room.
      } else if |inBuf| == capacity {
        capacity := grown;
      }
      var room := (if LIMIT < capacity then LIMIT else capacity) - |inBuf|;
      ghost var data := inBuf;
      inBuf := inBuf + seq(room, j => 0);
      phase := if full then Overrun(2) else Reading(room);
      assert Data() == data;
    }

    /** A read has come back with `n` bytes. */
    method OnRead(n: nat)
      requires Valid() && Enabled(View(), Read(n))
      modifies this
      ensures Valid() && View() == Step(old(View()), Read(n))
    {
      var size := |inBuf| - phase.len;
      inBuf := inBuf[..size] + input[..n] + inBuf[size + n..];
      inBuf := inBuf[..size + n];
      assert inBuf == old(Data()) + input[..n];
      input := input[n..];
      if n == 0 {
        fired := fired + 1;
        phase := Ended(if |inBuf| == 0 then Closed else CutShort);
        return;
      }
      phase := Searching;
    }

    lemma {:induction false} CStringIs(s: Bytes, len: nat)
      requires len <= |s| && (len == |s| || s[len] == 0)
      requires forall j :: 0 <= j < len ==> s[j] != 0
      ensures CString(s) == s[..len]
    {
      if len > 0 {
        CStringIs(s[1..], len - 1);
      }
    }

    method ReadBufferedNumber(n: nat) returns (x: Option<int>)
      requires 0 < n <= |inBuf|
      modifies this`inBuf
      ensures x == num.parse(CString(old(inBuf)[..n - 1]))
      ensures inBuf == if x.Some? then old(inBuf)[n..] else old(inBuf)[n - 1 := 0]
    {
      inBuf := inBuf[n - 1 := 0];
      // The constructor reads up to the first NUL, of which there now is one.
      ghost var line := old(inBuf)[..n - 1];
      var len := 0;
      while inBuf[len] != 0
        invariant len < n
        invariant inBuf == old(inBuf)[n - 1 := 0]
        invariant forall j :: 0 <= j < len ==> line[j] != 0
        decreases n - len
      {
        len := len + 1;
      }
      CStringIs(line, len);
      assert inBuf[..len] == line[..len];
      x := num.parse(inBuf[..len]);
      if x.Some? {
        inBuf := inBuf[n..];
      }
    }

    method StartReading(b: bool)
      modifies this`readingB, this`i, this`phase, this`started
      ensures readingB == b && i == 0 && phase == Searching && started == old(started) + 1
    {
      readingB := b;
      i, phase, started := 0, Searching, started + 1;
    }

    /** The callback of a read that found a line. */
    method OnLine()
      requires Valid() && Enabled(View(), CallBack)
      modifies this
      ensures Valid() && View() == Step(old(View()), CallBack)
    {
      hide CString;
      var n := phase.n;
      fired := fired + 1;
      var b := ReadBufferedNumber(n);
      if b.None? {
        phase := Ended(BadNumber);
        return;
      }
      if readingB {
        outBuf := num.show(a * b.value) + [NEWLINE];
        phase := Writing(outBuf);
      } else {
        a := b.value;
        StartReading(true);
      }
    }

    /** The stream has taken `n` bytes of what async_write has left. */
    method OnWrote(n: nat)
      requires Valid() && Enabled(View(), Wrote(n))
      modifies this
      ensures Valid() && View() == Step(old(View()), Wrote(n))
    {
      written := written + phase.rest[..n];
      if n == |phase.rest| {
        StartReading(false);
      } else {
        phase := Writing(phase.rest[n..]);
      }
    }
  }
}
