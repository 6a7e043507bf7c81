/** The reactor itself: its fields, the bytes in its pipe, and the pieces of code that run with the
    mutex held.  Every piece is proved to take the machine's step. */
module Reactor {
  import opened ReactorSpec

  class Reactor {
    var events: map<Key, Entry>
    var bits: set<Key>
    var closing: set<nat>
    var stopping: bool
    const pipe: nat
    var buffered: nat
    const capacity: nat
    var loop: Loop
    /** The number of the next handler. */
    var registered: nat
    ghost var open: set<nat>
    ghost var posted: seq<nat>
    ghost var changed: bool
    ghost var withdrawn: set<Key>

    ghost function View(): State
      reads this
    {
      State(events, bits, closing, stopping, pipe, buffered, capacity, open, loop,
            registered, posted, changed, withdrawn)
    }

    constructor Init(readEnd: nat, room: nat)
      ensures View() == Initial(readEnd, room)
    {
      events, bits := map[Key(0, readEnd) := NoHandler], {Key(0, readEnd)};
      closing, stopping, pipe, buffered, capacity := {}, false, readEnd, 0, room;
      loop, registered := NotRunning, 0;
      open, posted, changed, withdrawn := {readEnd}, [], false, {};
    }

    method InterruptSelect()
      modifies this`buffered
      ensures View() == Interrupt(old(View()))
    {
      if buffered < capacity {
        buffered := buffered + 1;
      }
    }

    /** Register a handler, or remove one; refused when the descriptor is too big. */
    method Handle(key: Key, handler: bool) returns (ok: bool)
      modifies this
      ensures ok == (key.fd < FD_SETSIZE)
      ensures View() == DoHandle(old(View()), key, handler)
    {
      if key.fd >= FD_SETSIZE {
        return false;
      }
      var interrupt := false;
      if handler {
        if key !in bits {
          bits := bits + {key};
          interrupt := true;
          changed := true;
        }
        events := events[key := Handler(registered)];
        registered := registered + 1;
        withdrawn := withdrawn - {key};
      } else if key in bits {
        bits := bits - {key};
        events := events - {key};
        withdrawn := withdrawn + {key};
      }
      if interrupt {
        InterruptSelect();
      }
      return true;
    }

    /** The loop that takes a descriptor out of both sets. */
    method Forget(fd: nat)
      modifies this`events, this`bits, this`withdrawn
      ensures var gone := {Key(0, fd), Key(1, fd)} * old(bits);
              bits == old(bits) - gone && events == old(events) - gone && withdrawn == old(withdrawn) + gone
    {
      for op := 0 to 2
        invariant var gone := (set k | k in old(bits) && k.fd == fd && k.op < op);
                  bits == old(bits) - gone && events == old(events) - gone && withdrawn == old(withdrawn) + gone
      {
        if Key(op, fd) in bits {
          events := events - {Key(op, fd)};
          bits := bits - {Key(op, fd)};
          withdrawn := withdrawn + {Key(op, fd)};
        }
      }
    }

    method Close(fd: nat)
      modifies this
      ensures View() == DoClose(old(View()), fd)
    {
      if fd >= FD_SETSIZE {
        open := open - {fd};
        return;
      }
      Forget(fd);
      closing := closing + {fd};
      changed := true;
      InterruptSelect();
    }

    method Stop()
      modifies this
      ensures View() == DoStop(old(View()))
    {
      events := map[];
      stopping := true;
      changed := true;
      InterruptSelect();
    }

    /** The largest descriptor registered for an operation. */
    method Largest(op: Op) returns (m: int)
      ensures m == MaxFd(events, op)
    {
      m := -1;
      var todo := events.Keys;
      while todo != {}
        invariant todo <= events.Keys
        invariant -1 <= m && (m == -1 || Key(op, m) in events)
        invariant forall k :: k in events && k !in todo && k.op == op ==> k.fd <= m
      {
        var k :| k in todo;
        todo := todo - {k};
        if k.op == op && k.fd > m {
          m := k.fd;
        }
      }
      if m == -1 {
        assert MaxFd(events, op) == -1;
      }
    }

    /** The beginning of the loop's body, up to the call of select(). */
    method TakeSnapshot()
      modifies this`loop, this`changed, this`withdrawn
      ensures View() == Snapshot(old(View()))
    {
      var read := Largest(0);
      var write := Largest(1);
      loop := InSelect(bits, Bounds(read, write));
      changed, withdrawn := false, {};
    }

    /** Read 16 bytes at a time until a read comes back short or would block. */
    method Drain()
      modifies this`buffered
      ensures buffered == 0
    {
      while true
        decreases buffered
      {
        var n := if buffered < 16 then buffered else 16;
        buffered := buffered - n;
        if n < 16 {
          return;
        }
      }
    }

    method Serve(k: Key)
      requires k in events
      modifies this`events, this`bits, this`posted, this`buffered
      ensures View() == Served(old(View()), k)
    {
      if events[k].Handler? {
        var id := events[k].id;
        events := events - {k};
        bits := bits - {k};
        posted := posted + [id];
      } else {
        Drain();
      }
    }

    /** Scan what select() reported.  The scan is left when the count, lowered for each descriptor
        dealt with, is not zero. */
    method Scan(mask: set<Key>, max: Bounds) returns (ok: bool)
      modifies this`events, this`bits, this`posted, this`buffered
      ensures var keys := Scanned(mask, max);
              if keys == {} then ok && View() == old(View())
              else ok == (First(keys) in old(events)) &&
                   View() == if ok then Served(old(View()), First(keys)) else old(View())
    {
      ghost var keys := Scanned(mask, max);
      ghost var served := false;
      var count := |mask|;
      var op := 0;
      label scan:
      while op < 2
        invariant op <= 2
        invariant !served ==> count == |mask| && unchanged(this) && forall k :: k in keys ==> op <= k.op
        invariant served ==> ServedOnly(mask, max, old(View())) && First(keys).op < op
      {
        var i := 0;
        while i <= max.At(op)
          invariant 0 <= i
          invariant !served ==> count == |mask| && unchanged(this) &&
                                forall k :: k in keys ==> op <= k.op && (k.op == op ==> i <= k.fd)
          invariant served ==> ServedOnly(mask, max, old(View())) && Before(First(keys), Key(op, i))
        {
          if Key(op, i) in mask {
            FirstIs(Key(op, i), keys);
            if Key(op, i) !in events {
              return false;
            }
            Serve(Key(op, i));
            count := count - 1;
            if count != 0 {
              break scan;
            }
            Alone(mask, Key(op, i));
            served := true;
          }
          i := i + 1;
        }
        op := op + 1;
      }
      return true;
    }

    /** The one descriptor reported has been dealt with. */
    ghost predicate ServedOnly(mask: set<Key>, max: Bounds, was: State)
      reads this
    {
      var keys := Scanned(mask, max);
      && keys != {} && mask == {First(keys)} && First(keys) in was.events
      && View() == Served(was, First(keys))
    }

    lemma Alone(mask: set<Key>, k: Key)
      requires k in mask && |mask| == 1
      ensures mask == {k}
    {
      assert |mask - {k}| == 0;
    }

    lemma FirstIs(k: Key, keys: set<Key>)
      requires IsFirst(k, keys)
      ensures keys != {} && First(keys) == k
    {
    }

    /** The loop with the mutex back, up to the next call of select(). */
    method OnReturn()
      requires loop.Returned?
      modifies this
      ensures View() == DoProcess(old(View()))
    {
      var result, max := loop.result, loop.max;
      open := open - closing;
      closing := {};
      if result.Failed? {
        loop := Threw;
        return;
      }
      if stopping {
        loop := Finished;
        return;
      }
      if result.Ready? {
        var ok := Scan(result.mask, max);
        if !ok {
          loop := Threw;
          return;
        }
      }
      TakeSnapshot();
    }
  }
}
