/** The batched progress counter: threads that count their work by themselves and add it to a shared
    counter a batch at a time. */
module Progress {

  const WRAP := 0x1_0000_0000_0000_0000

  /** A thread between two pieces of work, about to add a batch, about to add the remainder, about to
      say it is done, or done. */
  datatype Worker =
    | Working(done: nat)
    | Adding(done: nat)
    | AddingRest
    | Leaving
    | Gone

  datatype State = State(work: nat, batch: nat, processed: nat, left: nat, workers: seq<Worker>)

  /** One thread takes its next step. */
  predicate Enabled(st: State, w: nat) {
    w < |st.workers| && !st.workers[w].Gone?
  }

  function Initial(threads: nat, work: nat, batch: nat): State {
    State(work, batch, 0, threads, seq(threads, i => Working(0)))
  }

  function Add(st: State, n: nat): State {
    st.(processed := (st.processed + n) % WRAP)
  }

  function Go(st: State, w: nat, to': Worker): State
    requires w < |st.workers|
  {
    st.(workers := st.workers[w := to'])
  }

  function Step(st: State, w: nat): State
    requires Enabled(st, w) && st.batch > 0
  {
    match st.workers[w]
    case Working(done) =>
      if done >= st.work then Go(st, w, AddingRest)
      else if (done + 1) % st.batch == 0 then Go(st, w, Adding(done + 1))
      else Go(st, w, Working(done + 1))
    case Adding(done) => Go(Add(st, st.batch), w, Working(done))
    case AddingRest => Go(Add(st, st.work % st.batch), w, Leaving)
    case Leaving => Go(st.(left := if st.left == 0 then 0xFFFF_FFFF else st.left - 1), w, Gone)
    case Gone => st
  }

  // ----- What a thread has done and what it has added

  function Done(st: State, w: Worker): nat {
    match w
    case Working(done) => done
    case Adding(done) => done
    case _ => st.work
  }

  function Added(st: State, w: Worker): int
    requires st.batch > 0
  {
    match w
    case Working(done) => done - done % st.batch
    case Adding(done) => done - st.batch
    case AddingRest => st.work - st.work % st.batch
    case _ => st.work
  }

  function AllDone(st: State, ws: seq<Worker>): nat {
    if ws == [] then 0 else Done(st, ws[0]) + AllDone(st, ws[1..])
  }

  function AllAdded(st: State, ws: seq<Worker>): int
    requires st.batch > 0
  {
    if ws == [] then 0 else Added(st, ws[0]) + AllAdded(st, ws[1..])
  }

  function StillHere(ws: seq<Worker>): nat {
    if ws == [] then 0 else (if ws[0].Gone? then 0 else 1) + StillHere(ws[1..])
  }

  predicate Sane(st: State, w: Worker)
    requires st.batch > 0
  {
    match w
    case Working(done) => done <= st.work
    case Adding(done) => 0 < done <= st.work && done % st.batch == 0
    case _ => true
  }

  ghost predicate Inv(st: State) {
    && st.batch > 0
    && (forall w :: w in st.workers ==> Sane(st, w))
    && st.left == StillHere(st.workers)
    && st.processed == AllAdded(st, st.workers) % WRAP
  }

  /** How far a thread's additions lag behind its work. */
  lemma Lag(st: State, w: Worker)
    requires st.batch > 0 && Sane(st, w)
    ensures 0 <= Done(st, w) - Added(st, w) <= st.batch
    ensures Done(st, w) <= st.work && 0 <= Added(st, w)
  {
    if w.Adding? {
      AtLeastOne(w.done, st.batch);
    } else {
      var n := if w.Working? then w.done else st.work;
      assert n % st.batch < st.batch;
      NotMore(n, st.batch);
    }
  }

  lemma AtLeastOne(n: nat, d: nat)
    requires 0 < d && 0 < n && n % d == 0
    ensures n >= d
  {
  }

  lemma NotMore(n: nat, d: nat)
    requires 0 < d
    ensures n % d <= n
  {
  }

  lemma Times(k: nat, m: nat)
    requires k > 0
    ensures k * m == (k - 1) * m + m
  {
  }

  lemma {:induction false} AllLag(st: State, ws: seq<Worker>)
    requires st.batch > 0 && forall w :: w in ws ==> Sane(st, w)
    ensures 0 <= AllAdded(st, ws) <= AllDone(st, ws) <= AllAdded(st, ws) + |ws| * st.batch
    ensures AllDone(st, ws) <= |ws| * st.work
  {
    hide Added, Done, Sane;
    if ws != [] {
      assert ws[0] in ws;
      Lag(st, ws[0]);
      AllLag(st, ws[1..]);
      Times(|ws|, st.batch);
      Times(|ws|, st.work);
    }
  }

  lemma {:induction false} Update(st: State, ws: seq<Worker>, i: nat, w: Worker)
    requires st.batch > 0 && i < |ws|
    ensures AllAdded(st, ws[i := w]) == AllAdded(st, ws) - Added(st, ws[i]) + Added(st, w)
    ensures StillHere(ws[i := w]) + (if ws[i].Gone? then 0 else 1) == StillHere(ws) + (if w.Gone? then 0 else 1)
  {
    if i == 0 {
      assert ws[0 := w][1..] == ws[1..];
    } else {
      Update(st, ws[1..], i - 1, w);
      assert ws[i := w][1..] == ws[1..][i - 1 := w];
    }
  }

  /** The sums depend on nothing but the amount of work and the size of a batch. */
  lemma {:induction false} SameSums(st: State, st': State, ws: seq<Worker>)
    requires st.batch > 0 && st'.batch == st.batch && st'.work == st.work
    ensures AllAdded(st, ws) == AllAdded(st', ws)
  {
    if ws != [] {
      SameSums(st, st', ws[1..]);
    }
  }

  lemma NextMultiple(done: nat, batch: nat)
    requires batch > 0
    ensures if (done + 1) % batch == 0 then done % batch == batch - 1 else (done + 1) % batch == done % batch + 1
  {
    var q, r := done / batch, done % batch;
    assert done + 1 == batch * q + (r + 1);
    if r + 1 < batch {
      Remainder(batch, q, r + 1);
    } else {
      assert done + 1 == batch * (q + 1) + 0;
      Remainder(batch, q + 1, 0);
    }
  }

  lemma Remainder(d: nat, q: nat, r: nat)
    requires r < d
    ensures (d * q + r) % d == r
  {
    Quotient(d, q, r, (d * q + r) / d);
  }

  lemma Quotient(d: nat, q: nat, r: nat, p: int)
    requires r < d && 0 <= d * q + r - d * p < d
    ensures p == q
  {
    Distribute(d, q, p);
    if p < q {
      Distribute(d, q - p, 1);
    } else if p > q {
      Distribute(d, p - q, 1);
      Distribute(d, p, q);
    }
  }

  lemma Distribute(d: nat, a: int, b: int)
    ensures d * a - d * b == d * (a - b)
    ensures a >= b ==> d * (a - b) >= 0
  {
  }

  lemma StepKeeps(st: State, w: nat)
    requires Inv(st) && Enabled(st, w)
    ensures Inv(Step(st, w))
  {
    var st' := Step(st, w);
    var was, now := st.workers[w], st'.workers[w];
    assert was in st.workers && Sane(st, was);
    var n := StepAdds(st, w);
    AddMod(AllAdded(st, st.workers), n);
    hide Added, Sane;
    assert st'.workers == st.workers[w := now];
    Update(st, st.workers, w, now);
    SameSums(st, st', st'.workers);
    forall v | v in st'.workers
      ensures Sane(st', v)
    {
      SameSane(st, st', v);
      assert v == now || v in st.workers;
    }
    StillHereBound(st.workers, w);
  }

  lemma SameSane(st: State, st': State, v: Worker)
    requires st.batch > 0 && st'.batch == st.batch && st'.work == st.work
    ensures Sane(st, v) == Sane(st', v)
  {
  }

  /** What a step adds to the counter is what the thread then counts as added. */
  lemma StepAdds(st: State, w: nat) returns (n: nat)
    requires st.batch > 0 && Enabled(st, w) && Sane(st, st.workers[w])
    requires st.processed < WRAP
    ensures Sane(st, Step(st, w).workers[w])
    ensures n == Added(st, Step(st, w).workers[w]) - Added(st, st.workers[w])
    ensures Step(st, w).processed == (st.processed + n) % WRAP
  {
    match st.workers[w] {
      case Working(done) =>
        n := 0;
        NextMultiple(done, st.batch);
        assert st.processed % WRAP == st.processed;
        if done >= st.work { assert done == st.work; }
      case Adding(done) =>
        n := st.batch;
      case AddingRest =>
        n := st.work % st.batch;
      case Leaving =>
        n := 0;
    }
  }

  lemma AddMod(a: int, n: nat)
    ensures (a % WRAP + n) % WRAP == (a + n) % WRAP
  {
    var q := a / WRAP;
    assert a == WRAP * q + a % WRAP;
    var p := (a % WRAP + n) / WRAP;
    assert a + n == WRAP * (p + q) + (a % WRAP + n) % WRAP;
  }

  lemma {:induction false} StillHereBound(ws: seq<Worker>, i: nat)
    requires i < |ws| && !ws[i].Gone?
    ensures StillHere(ws) > 0
  {
    if i > 0 {
      StillHereBound(ws[1..], i - 1);
    }
  }

  // ----- Runs: the order in which the threads take their steps

  predicate Possible(st: State, order: seq<nat>)
    requires st.batch > 0
    decreases |order|
  {
    order == [] || (Enabled(st, order[0]) && Possible(Step(st, order[0]), order[1..]))
  }

  function After(st: State, order: seq<nat>): (r: State)
    requires st.batch > 0 && Possible(st, order)
    ensures r.batch == st.batch && r.work == st.work && |r.workers| == |st.workers|
    decreases |order|
  {
    if order == [] then st else After(Step(st, order[0]), order[1..])
  }

  lemma {:induction false} RunKeeps(st: State, order: seq<nat>)
    requires Inv(st) && Possible(st, order)
    ensures Inv(After(st, order))
    decreases |order|
  {
    if order != [] {
      StepKeeps(st, order[0]);
      RunKeeps(Step(st, order[0]), order[1..]);
    }
  }

  lemma InitialInv(threads: nat, work: nat, batch: nat)
    requires batch > 0
    ensures Inv(Initial(threads, work, batch))
  {
    var st := Initial(threads, work, batch);
    NothingAdded(st, st.workers);
  }

  lemma {:induction false} NothingAdded(st: State, ws: seq<Worker>)
    requires st.batch > 0 && forall w :: w in ws ==> w == Working(0)
    ensures AllAdded(st, ws) == 0 && StillHere(ws) == |ws|
  {
    if ws != [] {
      assert ws[0] in ws;
      assert Added(st, Working(0)) == 0;
      assert forall w :: w in ws[1..] ==> w in ws;
      hide Added;
      NothingAdded(st, ws[1..]);
    }
  }

  /** In every interleaving the counter never exceeds the work done.  It lags it by at most a batch per
      thread as long as what was added to it fits; and only then, unless that bound is itself beyond the
      counter's range. */
  lemma CounterFollowsWork(threads: nat, work: nat, batch: nat, order: seq<nat>)
    requires batch > 0 && Possible(Initial(threads, work, batch), order)
    ensures var st := After(Initial(threads, work, batch), order);
            var done, added := AllDone(st, st.workers), AllAdded(st, st.workers);
            && st.processed <= done
            && (added < 0x1_0000_0000_0000_0000 ==> done <= st.processed + threads * batch)
            && (threads * batch < 0x1_0000_0000_0000_0000 ==>
                  (done <= st.processed + threads * batch <==> added < 0x1_0000_0000_0000_0000))
  {
    InitialInv(threads, work, batch);
    RunKeeps(Initial(threads, work, batch), order);
    var st := After(Initial(threads, work, batch), order);
    hide Sane, Added, Done, After;
    AllLag(st, st.workers);
    Reduced(AllAdded(st, st.workers));
  }

  lemma Reduced(n: nat)
    ensures n % WRAP <= n && (n < WRAP ==> n % WRAP == n) && (n >= WRAP ==> n % WRAP <= n - WRAP)
  {
  }

  /** The premise under which nothing overflows. */
  lemma WorkFits(threads: nat, work: nat, batch: nat, order: seq<nat>)
    requires batch > 0 && threads * work < 0x1_0000_0000_0000_0000 && Possible(Initial(threads, work, batch), order)
    ensures var st := After(Initial(threads, work, batch), order); AllAdded(st, st.workers) < 0x1_0000_0000_0000_0000
  {
    InitialInv(threads, work, batch);
    RunKeeps(Initial(threads, work, batch), order);
    var st := After(Initial(threads, work, batch), order);
    hide Sane, Added, Done, After;
    AllLag(st, st.workers);
  }

  lemma Small(n: int)
    requires 0 <= n < WRAP
    ensures n % WRAP == n
  {
  }

  /** Once no thread is left the counter is all of the work, if and only if that fits it. */
  lemma FinalCountIff(threads: nat, work: nat, batch: nat, order: seq<nat>)
    requires batch > 0 && Possible(Initial(threads, work, batch), order)
    requires After(Initial(threads, work, batch), order).left == 0
    ensures After(Initial(threads, work, batch), order).processed == threads * work <==>
            threads * work < 0x1_0000_0000_0000_0000
  {
    InitialInv(threads, work, batch);
    RunKeeps(Initial(threads, work, batch), order);
    var st := After(Initial(threads, work, batch), order);
    hide Sane, Added, Done, After;
    AllGone(st, st.workers);
    if threads * work < WRAP {
      Small(threads * work);
    }
  }

  lemma {:induction false} AllGone(st: State, ws: seq<Worker>)
    requires st.batch > 0 && StillHere(ws) == 0
    ensures AllAdded(st, ws) == |ws| * st.work
  {
    if ws != [] {
      AllGone(st, ws[1..]);
      Times(|ws|, st.work);
    }
  }

  // ----- The program: the atomics, and a thread's variables

  class Counter {
    const work: nat
    const batch: nat
    var processed: nat
    var left: nat
    /** Each thread's `done`, and where it is. */
    var workers: seq<Worker>

    ghost function View(): State
      reads this
    {
      State(work, batch, processed, left, workers)
    }

    constructor (threads: nat, each: nat, every: nat)
      ensures View() == Initial(threads, each, every)
    {
      work, batch, processed, left := each, every, 0, threads;
      workers := seq(threads, i => Working(0));
    }

    method FetchAdd(n: nat)
      modifies this`processed
      ensures processed == (old(processed) + n) % WRAP
    {
      processed := (processed + n) % WRAP;
    }

    /** From one access to an atomic, or end of a piece of work, to the next. */
    method Advance(w: nat)
      requires batch > 0 && Enabled(View(), w)
      modifies this
      ensures View() == Step(old(View()), w)
    {
      match workers[w] {
        case Working(done) =>
          if done < work {
            var done' := done + 1;
            workers := workers[w := if done' % batch == 0 then Adding(done') else Working(done')];
          } else {
            workers := workers[w := AddingRest];
          }
        case Adding(done) =>
          FetchAdd(batch);
          workers := workers[w := Working(done)];
        case AddingRest =>
          FetchAdd(work % batch);
          workers := workers[w := Leaving];
        case Leaving =>
          left := if left == 0 then 0xFFFF_FFFF else left - 1;
          workers := workers[w := Gone];
      }
    }
  }
}
