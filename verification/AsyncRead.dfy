/** async_read: read a whole span or fail, from a stream that gives as much as it likes at a time. */
module AsyncRead {
  import opened SessionSpec

  datatype Outcome = Done | BrokenPipe | StreamError

  /** Byte j of a span from which `n` places have been given the first bytes of `s`. */
  function Filled(was: Bytes, from: nat, s: Bytes, n: nat, j: nat): Byte
    requires j < |was| && n <= |s|
  {
    if from <= j < from + n then s[j - from] else was[j]
  }

  class Stream {
    var input: Bytes
    /** How many reads have failed. */
    ghost var failures: nat

    constructor (bytes: Bytes)
      ensures input == bytes && failures == 0
    {
      input, failures := bytes, 0;
    }

    /** Some of the input, and none of it only at its end or if no room is given; or an error. */
    method ReadSome(buf: array<Byte>, from: nat) returns (failed: bool, n: nat)
      requires from <= buf.Length
      modifies this, buf
      ensures n <= buf.Length - from && n <= |old(input)|
      ensures n == 0 ==> failed || from == buf.Length || old(input) == []
      ensures failed ==> n == 0
      ensures failures == old(failures) + if failed then 1 else 0
      ensures input == old(input)[n..]
      ensures forall j :: 0 <= j < buf.Length ==> buf[j] == Filled(old(buf[..]), from, old(input), n, j)
    {
      failed, n := false, 0;
      if * {
        failed := true;
        failures := failures + 1;
      } else if from < buf.Length && input != [] {
        n :| 0 < n <= buf.Length - from && n <= |input|;
        forall j | 0 <= j < n {
          buf[from + j] := input[j];
        }
        input := input[n..];
      }
    }
  }

  /** The span is buf[from..].  It is filled with the next bytes of the input if and only if there are
      enough of them, it is not empty, and the stream does not fail; an empty span is reported like
      the end of the input. */
  method AsyncRead(stream: Stream, buf: array<Byte>, from: nat) returns (r: Outcome, done: nat)
    requires from <= buf.Length
    modifies stream, buf
    ensures done <= buf.Length - from && done <= |old(stream.input)|
    ensures stream.input == old(stream.input)[done..]
    ensures forall j :: 0 <= j < buf.Length ==> buf[j] == Filled(old(buf[..]), from, old(stream.input), done, j)
    ensures r.Done? ==> done == buf.Length - from > 0
    ensures !r.StreamError? ==> (r.Done? <==> 0 < buf.Length - from <= |old(stream.input)|)
    ensures stream.failures == old(stream.failures) + if r.StreamError? then 1 else 0
    ensures r.BrokenPipe? ==> from == buf.Length || |old(stream.input)| == done < buf.Length - from
    decreases buf.Length - from
  {
    var failed, n := stream.ReadSome(buf, from);
    if failed {
      return StreamError, 0;
    }
    if n == 0 {
      return BrokenPipe, 0;
    }
    if n == buf.Length - from {
      return Done, n;
    }
    var more;
    r, more := AsyncRead(stream, buf, from + n);
    done := n + more;
  }
}
