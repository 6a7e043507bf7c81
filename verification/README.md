# Verified models of the C++ examples

The repository is a collection of teaching programs, several of which hold a real protocol or
algorithm. This project models those in Dafny, in the form the programs have (fields updated by
methods, loops over buffers), and proves what each of them is for. `dafny verify dfyconfig.toml`
checks everything.

A concurrent program is modelled in layers, so that each part stays small:

- `...Spec.dfy` is a state machine: a state, the events that can happen, and a step for each. A step
  is what the program does without letting another thread in (a strand task, a stretch of code under
  the mutex, one access to an atomic). Where the program's result depends on a scheduler, a socket or
  a library, the event carries what happened, and every possibility is allowed.
- a class of the program's own name holds its fields and its code; each method is proved to take
  the machine's step, `View() == Step(old(View()), event)`.
- `...Steps.dfy` says what each step does to the fields without naming the functions the step is made of,
  and follows that through runs: which messages and tasks are accepted, which handler is posted.
- `...Proofs.dfy` and `...Runs.dfy` prove an invariant of every step and, from it, statements about
  all runs: every finite sequence of events that can happen, for any number of threads, sessions or
  descriptors.

What the modules are about:

- **Chat** (`ChatSpec`, `ChatProofs`, `ChatRuns`, `ChatDepartures`, `ChatSteps`, `Chat`): one list of messages, each
  with a count of the sessions that have yet to send it, a cursor per session, and tasks on a strand.
  Delivery holds in every run in which no departure leaves a message of the departing session's own
  queued after the one it is busy with and with two sessions or more behind it, or prunes such a message
  with any behind it. That is exact: after a departure that does either, some run of completions takes a
  message away from a session that stands on it. A second, narrower condition is exact for the counts.
- **Algebraic normal form** (`AnfSpec`, `AnfWord`, `Anf`, `AnfAvx2`): the in-place bit-parallel Möbius
  transform, for words and for 256-bit registers. Both equal one recursive function on bytes, which
  equals the subset sum over all index masks, is linear, and is its own inverse.
- **Thread pool** (`ThreadPoolSpec`, `ThreadPoolProofs`, `ThreadPoolRuns`, `ThreadPoolSteps`, `ThreadPool`): no lost
  wake-up, no lost or duplicated task, order, deferred tasks, and what `stop` and `join` leave behind.
- **Select reactor** (`ReactorSpec`, `ReactorProofs`, `ReactorRuns`, `ReactorSteps`, `Reactor`): the map of handlers
  and the bit sets, the wake-up pipe, and delayed closing.
- **Calculator session** (`SessionSpec`, `SessionProofs`, `Session`, `AsyncRead`): incremental search for
  a newline over reads of any size, and the conversation built on it, against a function of the whole
  input; and that it ends.
- **Notes** (`NotesCodec`, `NotesStream`, `NotesTree`, `NotesModel`): reading back what was written,
  and the item model's positions and parents.
- **Expression templates** (`ExpressionTemplates`): fused evaluation, possibly into an operand's own
  storage, against evaluation of whole vectors.
- **Progress counter** (`Progress`): a shared counter updated in batches.

## What the code does less than its comments say

The models follow the code. Where a member is named, it proves the point: as an exact condition, or with a
run that shows it.

- `asio-shared/src/chat.cpp:35` lowers the count of every later message, including those the departing
  session sent itself and was never counted for. Whether a departure is clean can be told beforehand
  from the queue (`ChatProofs.CleanDeparture`), in two degrees. Allowing strays, own messages that stay
  with at most one session behind them, it is the exact condition under which everybody is served
  whatever clean runs follow (`ChatDepartures.DepartureHarmlessIff`): a stray's count passes zero and
  wraps around, so that its node stays for good. Without strays it is the exact condition under which
  the counts remain right as well (`ChatProofs.DisconnectKeepsIff`). `ChatDepartures.UncleanDooms`
  gives, for every departure that is not clean, completions that end at an erased node;
  `ChatProofs.DepartureDanglesIff` says when the departure itself leaves a session on one;
  `ChatRuns.MessageLost` is a run in which a session is idle and never gets a message.
- `select/src/thread_pool.cpp:51` waits for idle workers, not for an empty queue: a task that was
  posted before `join` can be dropped (`ThreadPoolRuns.JoinStopsIdlePool`, `ThreadPoolRuns.PostedTaskDropped`).
- `select/src/select_reactor.cpp:59` leaves the scan when descriptors remain to be looked at, while the
  comment below it speaks of the opposite case: a round deals with one ready descriptor
  (`ReactorRuns.RoundServesFirst`, `ReactorRuns.RoundServesAllIff`).
- `select/src/select_reactor.cpp:37` gives up if the first ready descriptor was withdrawn by a client
  during the wait, which the interface allows (`ReactorRuns.RoundServesFirst`).
- `select/src/select_reactor.cpp:72-73` clears the map the number of descriptors is computed from: a
  reactor stopped before it is started sleeps in `select` for ever (`ReactorRuns.StoppedFirstSleeps`);
  `ReactorRuns.NoLostWakeUp` says exactly which runs can be woken.
- `select/src/composite_async_ops.hpp:66` does not return after reporting the limit, so that the
  callback is called a second time (`SessionProofs.CallBacksOnceIff`). An empty span is reported as
  the end of the input (`AsyncRead.AsyncRead`, lines 17-20).
- `et/src/et_vector.hpp:118-121` gives a scalar size one, so that an expression of empty vectors with
  a scalar in it has size one (`ExpressionTemplates.SizeIsLengthIff`).
- `et/src/et_vector.hpp:93-99` looks for storage to take over inside operands that are expressions, but
  the operators hold those by reference, and the trait at lines 33-37 is true of no reference: only a
  vector that is an operand itself is ever taken over (`ExpressionTemplates.Storage.Convert`, which is
  proved from `ExpressionTemplates.Storage.Generate` for any vector). For such an operand line 101
  remains as a second return, of another type than line 90 or 92; the model has it return once.
- `treeview/src/notes.cpp:15` cuts a folder's size to an `int` (`NotesCodec.RoundTripIff`).

## Model

| member | source | states |
|---|---|---|
| ChatRuns.Delivery | asio-shared/src/chat.cpp:12-75 | in every run whose departures leave no more than strays no erased node is touched, and what was written to a session is, in order and without gap or repeat, a prefix of the messages accepted since it joined that others sent; all of them whenever it is idle |
| ChatDepartures.DepartureHarmlessIff | asio-shared/src/chat.cpp:19-38 | after any such run, the next departure is of that kind if and only if everybody is served in every run that goes on from it with such departures |
| ChatDepartures.HarmlessIff | asio-shared/src/chat.cpp:19-38 | the same for every state of the invariant |
| ChatDepartures.UncleanDooms | asio-shared/src/chat.cpp:27-36 | after any other departure some completions, and nothing else, end at an erased node that a session stands on |
| ChatDepartures.Doom | asio-shared/src/chat.cpp:62-74 | a message counted one too low with two or more sessions behind it can always be taken away from the last of them by completions |
| ChatRuns.CountsAndCursors | asio-shared/src/chat.cpp:19-75 | in every run with clean departures each cursor names a queued message of somebody else, the queue keeps its limit, and each count is the number of busy sessions other than the sender standing at or before the message: always without strays, and with strays while the sender is connected |
| ChatRuns.RunKeeps | asio-shared/src/chat.cpp:12-75 | the invariant tying counts, cursors, the accepted messages and the writes together survives every run with clean departures, with strays or without |
| ChatProofs.JoinKeeps | asio-shared/src/chat.cpp:12-17 | a session joining keeps the invariant |
| ChatProofs.ReceiveKeeps | asio-shared/src/chat.cpp:40-57 | a message arriving, dropped or queued and sent to idle sessions, keeps the invariant |
| ChatProofs.CompleteKeeps | asio-shared/src/chat.cpp:62-74 | a completed write keeps the invariant, including the erasure of a node whose count reaches zero |
| ChatProofs.DisconnectKeepsIff | asio-shared/src/chat.cpp:19-38 | a departure keeps the invariant, with strays or without, if and only if it is clean to that degree |
| ChatProofs.DepartureDanglesIff | asio-shared/src/chat.cpp:27-34 | a departure leaves a session on an erased node if and only if it prunes an own message of the departing session that somebody is behind |
| ChatProofs.LeftMiscounts | asio-shared/src/chat.cpp:35-36 | an own message that a departure leaves queued, and that is no stray, is counted one too low afterwards and breaks the invariant |
| ChatRuns.NoOwnMessageBehind | asio-shared/src/chat.cpp:27-36 | a departure is clean to either degree if the session is idle or no message of its own is queued behind the one it is busy with |
| ChatProofs.AllDefined | asio-shared/src/chat.cpp:22-35 | in every state of the invariant no task follows a cursor to an erased node |
| ChatRuns.MessageLost | asio-shared/src/chat.cpp:35-36 | a run of eight events after which an idle session was never given an accepted message of another |
| ChatRuns.CompletionLowersSum | asio-shared/src/chat.cpp:62-74 | while every queued message is awaited, a completion lowers the sum of counts by exactly one |
| ChatRuns.SomebodyBusy | asio-shared/src/chat.cpp:59-74 | while a message is queued some write is under way, so that the room does not stall |
| ChatRuns.Drain | asio-shared/src/chat.cpp:40-75 | in runs that only idle sessions leave every queued message has count at least one; with no new messages exactly as many completions as the sum of counts empty the queue and leave everybody idle |
| ChatSteps.ReceiveAcceptsIff | asio-shared/src/chat.cpp:43-55 | a message is accepted if and only if more than one session is there and not a hundred messages are queued, otherwise nothing changes; an accepted one is queued last with a count of all other sessions and written to exactly the other idle ones |
| ChatSteps.AcceptedAreHeard | asio-shared/src/chat.cpp:40-57 | in every run the accepted messages are those that met this guard when they came, in order |
| ChatSteps.JoinAdds | asio-shared/src/chat.cpp:12-17 | a session joins idle, and nothing else changes |
| ChatSteps.CompleteMoves | asio-shared/src/chat.cpp:62-74 | a completion lowers the count of the node written and takes it out at zero, and the next node of somebody else is written, or the session is idle |
| ChatSteps.DisconnectLeaves | asio-shared/src/chat.cpp:22-36 | a departure lowers the counts from its node on, and prunes only from the head, to the first other node that more than one session waits for |
| Chat.Chat.SessionCreated | asio-shared/src/chat.cpp:12-17 | the task takes the machine's join step |
| Chat.Chat.SessionDestroyed | asio-shared/src/chat.cpp:19-38 | the task, with its search for the first shared message and its loop over later ones, takes the machine's step |
| Chat.Chat.DecrementFrom | asio-shared/src/chat.cpp:35-36 | the loop lowers, with wrap-around of an unsigned count, exactly the counts from a place on |
| Chat.Chat.MessageReceived | asio-shared/src/chat.cpp:40-57 | the task takes the machine's step, which ChatSteps.ReceiveAcceptsIff describes |
| Chat.Chat.StartIdle | asio-shared/src/chat.cpp:53-55 | the loop over the sessions, in whatever order, starts a write to exactly the idle ones other than the sender |
| Chat.Chat.WriteCompleted | asio-shared/src/chat.cpp:62-74 | the completion handler takes the machine's step |
| AnfSpec.Coefficients | anf/src/anf.cpp:14-31 | output bit u is the exclusive or of all input bits whose index is a subset of u's bits |
| AnfSpec.TransformMoebius | anf/src/anf.cpp:14-31 | the transform by halving of bytes is the one by halving of bits |
| AnfSpec.MoebiusIsSubsetSum | anf/src/anf.cpp:14-31 | recursive halving computes the subset sums, for every power of two |
| AnfSpec.Involutive | anf/src/anf.cpp:9-32 | the transform is its own inverse |
| AnfSpec.Linear | anf/src/anf.cpp:9-32 | it is linear over exclusive or |
| AnfSpec.PolynomialHasTruthTable | anf/src/anf.cpp:9-32 | the output, evaluated as a polynomial at any point, gives the input bit of that point |
| AnfWord.InWordTransforms | anf/src/anf.cpp:15-22 | the six masked shifts of a little-endian 64-bit word are the transform of its eight bytes |
| Anf.Words | anf/src/anf.cpp:14-23 | the first loop transforms each block of eight bytes |
| Anf.AddHalf | anf/src/anf.cpp:26-31 | the innermost loop adds the lower half of a block into the upper half and changes nothing else |
| Anf.Pass | anf/src/anf.cpp:25-31 | a pass turns transformed blocks into transformed blocks of twice the size |
| Anf.Anf | anf/src/anf.cpp:9-32 | for every power-of-two length of at least 8 the buffer ends as the transform of what it was |
| AnfAvx2.InRegisterTransforms | anf/src/anf_avx2.cpp:19-31 | the per-lane shifts, the shift by bytes and the permutation of halves are the transform of the register's 32 bytes |
| AnfAvx2.AnfAvx2 | anf/src/anf_avx2.cpp:12-43 | for every power-of-two length of at least 32 the buffer ends as the same transform of what it was |
| AnfAvx2.SameBytes | anf/src/anf_avx2.cpp:12-43 | on equal buffers both implementations leave equal bytes |
| ThreadPoolRuns.NoLostWakeUp | select/src/thread_pool.cpp:19-37 | in every run a worker sleeps only if the pool is not stopping and at least as many woken ones are on their way as tasks are queued; the count of busy workers is right; the thread in join sleeps only while one is busy |
| ThreadPoolRuns.TasksConserved | select/src/thread_pool.cpp:20-37 | in every run no task is in two places, until the pool is stopping each accepted one is in exactly one of queue, call, worker's hand, deferred slot or finished, and tasks leave the queue in the order they entered |
| ThreadPoolProofs.StepAwake | select/src/thread_pool.cpp:84-87 | every step keeps the wake-up invariant, in particular the conditional notification |
| ThreadPoolProofs.StepConserves | select/src/thread_pool.cpp:70-88 | every step keeps tasks in exactly one place |
| ThreadPoolProofs.StepKeeps | select/src/thread_pool.cpp:19-88 | every step keeps the whole invariant |
| ThreadPoolRuns.QueueCanMove | select/src/thread_pool.cpp:19-37 | while tasks are queued and the pool is not stopping, a worker or a call to the pool can move |
| ThreadPoolRuns.QueueEmpties | select/src/thread_pool.cpp:19-37 | left alone, the workers of a pool that is not stopping make a bounded number of steps, can go on while a task is queued, and then have taken all of them in order |
| ThreadPoolRuns.DeferredRunsNext | select/src/thread_pool.cpp:30-33 | whatever else happens, a task put in a worker's slot is what that worker runs next, unless the pool is stopping by then |
| ThreadPoolRuns.StoppingStartsNothing | select/src/thread_pool.cpp:62-68 | once the pool is stopping no task is accepted or leaves the queue, and workers run and finish only what they had in hand |
| ThreadPoolRuns.JoinStopsIdlePool | select/src/thread_pool.cpp:46-60 | when join stops the pool no task is in hand and none runs ever after; everything accepted has run if and only if nothing is queued and nobody is posting |
| ThreadPoolRuns.PostedTaskDropped | select/src/thread_pool.cpp:50-55 | a run in which a task posted before join is never run |
| ThreadPoolRuns.WindsDown | select/src/thread_pool.cpp:24-36 | once the pool is stopping only a bounded number of worker steps can follow |
| ThreadPoolRuns.WorkerCanMove | select/src/thread_pool.cpp:58-59 | and until all workers are gone one of them, or a call to the pool, can move |
| ThreadPoolSteps.SubmitTakes | select/src/thread_pool.cpp:70-83 | unless the pool is stopping, or a worker dispatches, a submission is accepted: into the worker's slot if and only if it is deferred by a task running there and the slot is empty, and towards the queue otherwise; if not accepted, nothing changes |
| ThreadPoolSteps.AcceptedAreTaken | select/src/thread_pool.cpp:70-88 | in every run the number of accepted tasks is the number of such submissions |
| ThreadPoolSteps.EnqueuePushes | select/src/thread_pool.cpp:84-87 | the task goes to the end of the queue, and a sleeper is woken if there is one and not all workers are busy |
| ThreadPoolSteps.LookTakesFirst | select/src/thread_pool.cpp:21-29 | a worker leaves if the pool is stopping, waits if nothing is queued, and else takes the first task |
| ThreadPoolSteps.FinishGoesOn | select/src/thread_pool.cpp:30-33 | a worker goes on with the deferred task, unless there is none or the pool is stopping |
| ThreadPoolSteps.LeaveCountsDown | select/src/thread_pool.cpp:34-37 | a worker is counted out, wakes the thread in join if it was the last, and looks again |
| ThreadPoolSteps.StopEmpties | select/src/thread_pool.cpp:62-68 | stopping empties the queue, sets the flag and wakes all sleepers |
| ThreadPoolSteps.JoinWaits | select/src/thread_pool.cpp:46-57 | join goes on at once only if it finds the pool stopping when it begins; after a wait only if no worker is busy |
| ThreadPool.ThreadPool.Submit | select/src/thread_pool.cpp:72-83 | the call up to the mutex takes the machine's step, which ThreadPoolSteps.SubmitTakes describes |
| ThreadPool.ThreadPool.Enqueue | select/src/thread_pool.cpp:84-87 | the rest of the call takes the machine's step |
| ThreadPool.ThreadPool.TakeOrWait | select/src/thread_pool.cpp:21-29 | a worker with the mutex takes the machine's step |
| ThreadPool.ThreadPool.TaskDone | select/src/thread_pool.cpp:30-33 | the end of a round of the inner loop takes the machine's step |
| ThreadPool.ThreadPool.NoLongerBusy | select/src/thread_pool.cpp:34-37 | counting down and looking again takes the machine's step |
| ThreadPool.ThreadPool.NotifyAll | select/src/thread_pool.cpp:67 | exactly the sleeping workers are woken |
| ThreadPool.ThreadPool.Stop | select/src/thread_pool.cpp:62-68 | takes the machine's step |
| ThreadPool.ThreadPool.Join | select/src/thread_pool.cpp:46-57 | each pass through the wait takes the machine's step |
| ReactorRuns.NoLostWakeUp | select/src/select_reactor.cpp:14-20 | in every run, if anything was newly registered, closed or stopped since select was given its copy, or shows in the state as a bit not in the copy, a descriptor to be closed or the stop flag, the pipe is not empty; and then select can return for it if and only if run was called with the reactor not stopping, or with something registered on a larger descriptor |
| ReactorRuns.WatchesIff | select/src/select_reactor.cpp:14-20 | in every run select watches the pipe if and only if that condition held when run was called |
| ReactorRuns.RunBeforeStop | select/src/select_reactor.cpp:69-76 | every run that calls run before stop, if at all, meets that condition |
| ReactorRuns.RunWatchesIff | select/src/select_reactor.cpp:14-19 | starting watches the pipe if and only if the reactor is not stopping or something was registered on a larger descriptor since |
| ReactorRuns.StoppedFirstSleeps | select/src/select_reactor.cpp:69-76 | a reactor stopped and then started stays in select whatever is done to it |
| ReactorRuns.MapAndBitsAgree | select/src/select_reactor.cpp:31-63 | in every run until stop: bits are set exactly for what is registered, the pipe's read end is always there and alone has no handler; and always: no handler is posted twice, or posted and still registered |
| ReactorRuns.NothingInUseDestroyed | select/src/select_reactor.cpp:100-117 | in every run no descriptor that select is watching has been destroyed through close |
| ReactorRuns.RoundServesFirst | select/src/select_reactor.cpp:31-63 | a round deals with the first ready descriptor only, and throws if and only if a client has withdrawn that one during the wait |
| ReactorRuns.RoundServesAllIff | select/src/select_reactor.cpp:31-63 | until stop, a round leaves nothing that was reported to be dealt with, the pipe included, if and only if clients have withdrawn everything reported, or everything but the first |
| ReactorSteps.HandleRegisters | select/src/select_reactor.cpp:84-97 | registering sets the bit and the handler of just the operation and descriptor named, and writes to the pipe if and only if the bit was not set |
| ReactorSteps.HandleWithdraws | select/src/select_reactor.cpp:92-95 | withdrawing takes out just that operation on that descriptor, or changes nothing |
| ReactorSteps.AskedIsPosted | select/src/select_reactor.cpp:31-50 | the handler last registered for an operation on a descriptor is the one posted by the round that finds it registered and alone ready |
| ReactorSteps.FirstReady | select/src/select_reactor.cpp:33-35 | the first descriptor of a round is the smallest that is ready for reading, or else for writing |
| ReactorSteps.CloseForgets | select/src/select_reactor.cpp:100-117 | closing takes both operations out, keeps the descriptor open for the time being, and writes to the pipe |
| ReactorSteps.TooBig | select/src/select_reactor.cpp:81-82 | descriptors from 1024 on are not registered; closing one destroys it at once |
| ReactorSteps.StopClears | select/src/select_reactor.cpp:69-76 | stopping empties the map, sets the flag, and writes to the pipe |
| ReactorSteps.RunSelects | select/src/select_reactor.cpp:11-20 | select is called with the bits as they are and the largest descriptors registered |
| ReactorSteps.ProcessGoesOn | select/src/select_reactor.cpp:21-30 | after select the descriptors given away are destroyed; an error throws, the stop flag ends the loop, and a signal does neither |
| ReactorProofs.StepKeeps | select/src/select_reactor.cpp:7-139 | every step keeps the whole invariant |
| Reactor.Reactor.Init | select/src/select_reactor.cpp:119-127 | only the pipe's read end is registered |
| Reactor.Reactor.Handle | select/src/select_reactor.cpp:78-98 | refuses descriptors that are too big, and otherwise takes the machine's step, which ReactorSteps.HandleRegisters and HandleWithdraws describe |
| Reactor.Reactor.Close | select/src/select_reactor.cpp:100-117 | takes the machine's step |
| Reactor.Reactor.Stop | select/src/select_reactor.cpp:69-76 | takes the machine's step |
| Reactor.Reactor.InterruptSelect | select/src/select_reactor.cpp:129-139 | adds a byte to the pipe unless it is full |
| Reactor.Reactor.Largest | select/src/select_reactor.cpp:15-17 | computes the largest registered descriptor of an operation, or -1 |
| Reactor.Reactor.Drain | select/src/select_reactor.cpp:51-57 | reading 16 bytes at a time empties the pipe |
| Reactor.Reactor.Scan | select/src/select_reactor.cpp:31-63 | the two loops with their counter serve exactly the first ready descriptor, or report that it is not registered |
| Reactor.Reactor.OnReturn | select/src/select_reactor.cpp:21-63 | the loop from one select to the next takes the machine's step |
| SessionProofs.OutputOfInput | select/src/main.cpp:118-184 | however reads and writes are cut up, what was written is a prefix of the conversation the whole input makes, and all of it, for the reason it gives, once the session has ended by itself |
| SessionProofs.ConversationIsProducts | select/src/main.cpp:142-171 | on lines of less than 1024 bytes that are numbers the conversation is, for each consecutive pair, the printed product and a newline |
| SessionProofs.LongLineEnds | select/src/composite_async_ops.hpp:57-58 | 1024 bytes without a newline end the conversation without an answer |
| SessionProofs.BadLineEnds | select/src/main.cpp:142-149 | so does a line that is no number |
| SessionProofs.CStringIs | select/src/main.cpp:217-223 | a number is read from the bytes before the first NUL |
| SessionProofs.SearchReadsOn | select/src/composite_async_ops.hpp:57-76 | a failed search leads to a read into all the room that the string and the limit leave, or to the two reports |
| SessionProofs.CallBacksOnceIff | select/src/composite_async_ops.hpp:40-91 | every read reports exactly once if and only if no line is too long for the buffer; then once too often |
| SessionProofs.StepKeeps | select/src/composite_async_ops.hpp:40-138 | every step keeps the cached index from passing a newline and leaves the whole conversation as it was |
| SessionProofs.ResumedSearch | select/src/composite_async_ops.hpp:111-120 | a search from the cached index finds the first newline of the whole buffer |
| SessionProofs.CanMove | select/src/main.cpp:118-184 | a session that has not ended has a step that neither fails nor writes nothing |
| SessionProofs.StepLowersWork | select/src/composite_async_ops.hpp:40-138 | every such step lowers a bound on what is to be said, searched and read |
| SessionProofs.SessionEnds | select/src/main.cpp:118-184 | over a stream that does not fail and takes something of each write, a session makes a bounded number of steps, can go on until it is over, and then has written the whole conversation |
| SessionProofs.ProductsWritten | select/src/main.cpp:118-184 | on well-formed lines nothing but a prefix of the products is ever written, and over such a stream the session ends with all of them written and one callback for each read |
| Session.Session.Match | select/src/composite_async_ops.hpp:111-120 | the predicate returns the length up to the newline or moves its index to the end |
| Session.Session.ReadUntil | select/src/composite_async_ops.hpp:40-76 | takes the machine's step |
| Session.Session.OnRead | select/src/composite_async_ops.hpp:77-90 | takes the machine's step |
| Session.Session.ReadBufferedNumber | select/src/main.cpp:217-223 | parses the line up to its first NUL and takes it off the buffer if it is a number |
| Session.Session.OnLine | select/src/main.cpp:129-171 | takes the machine's step |
| Session.Session.OnWrote | select/src/composite_async_ops.hpp:125-138 | takes the machine's step |
| AsyncRead.AsyncRead | select/src/composite_async_ops.hpp:12-27 | the span is filled with the next bytes of the input, or the input has ended before, or the span is empty, or a read of the stream has failed; what was read is at the front |
| NotesCodec.RoundTripIff | treeview/src/notes.cpp:9-49 | a written tree followed by any bytes is read back as the same tree and exactly those bytes, if and only if its strings and child counts fit |
| NotesCodec.ForestRoundTripIff | treeview/src/notesmodel.cpp:240-243 | the same for a counted forest, as dragged and dropped |
| NotesCodec.EncodingsDiffer | treeview/src/notes.cpp:9-21 | no tree's bytes are the beginning of another's |
| NotesCodec.SmallTree | treeview/src/notes.cpp:9-21 | the bytes of a small tree, in full |
| NotesStream.DataStream.WriteEntity | treeview/src/notes.cpp:9-21 | appends the tree's encoding |
| NotesStream.DataStream.WriteItems | treeview/src/notes.cpp:15-17 | the loop appends the number and the encodings of the items |
| NotesStream.DataStream.ReadEntity | treeview/src/notes.cpp:23-49 | reads what decoding gives and advances to what it leaves |
| NotesStream.DataStream.ReadItems | treeview/src/notes.cpp:31-38 | the loop reads the items that decoding gives |
| NotesTree.ParentOfIndex | treeview/src/notesmodel.cpp:27-51 | the parent of the index of a row of p is p, row and all |
| NotesTree.IndexOfParent | treeview/src/notesmodel.cpp:27-51 | asking an index's parent for its row gives the index |
| NotesTree.SearchFinds | treeview/src/notesmodel.cpp:45-50 | the search for a parent always finds it, so that the line marked unreachable is |
| NotesTree.IndexValidIff | treeview/src/notesmodel.cpp:27-35 | a row has an index if and only if it is asked for in column zero of the root or of a folder that has the row; the index is of the item there |
| NotesTree.InsertKeeps | treeview/src/notesmodel.cpp:142-171 | inserting keeps every item's parent the folder that holds it |
| NotesTree.RemoveKeeps | treeview/src/notesmodel.cpp:173-185 | so does removing, with everything below the rows |
| NotesTree.InsertedIs | treeview/src/notesmodel.cpp:142-171 | the items new in the rows are as asked for, and nothing else changes but the places of those after them |
| NotesTree.RemovedIff | treeview/src/notesmodel.cpp:173-185 | what goes is what was in the rows, and what was in what goes; the folder loses just the rows |
| NotesTree.RemoveUndoesInsert | treeview/src/notesmodel.cpp:142-185 | removing the rows just inserted gives back the tree |
| NotesModel.NotesModel.Index | treeview/src/notesmodel.cpp:27-35 | is the index function |
| NotesModel.NotesModel.Parent | treeview/src/notesmodel.cpp:37-51 | the loop computes the parent function and never runs out |
| NotesModel.NotesModel.InsertRows | treeview/src/notesmodel.cpp:142-157 | succeeds exactly with notes, a positive count and a folder; then the new notes are in the folder's rows and nothing else changes |
| NotesModel.NotesModel.InsertFolder | treeview/src/notesmodel.cpp:159-171 | the same for one empty folder |
| NotesModel.NotesModel.RemoveRows | treeview/src/notesmodel.cpp:173-185 | succeeds exactly for rows that exist; then those and everything below are gone and nothing else changes |
| ExpressionTemplates.FusedIsNaive | et/src/et_vector.hpp:63-66 | each element of the fused form is that of the whole-vector form, for any operations |
| ExpressionTemplates.NaiveIsElementWise | et/src/naive_vector.hpp:28-36 | the whole-vector form applies the operation to each pair of elements, the left one first, a scalar standing for any of its own |
| ExpressionTemplates.SizeIsLengthIff | et/src/et_vector.hpp:55-61 | the size is the vectors' length if and only if that is not zero or there is no scalar |
| ExpressionTemplates.Storage.Generate | et/src/et_vector.hpp:70-74 | overwriting a vector element by element leaves in it the whole-vector result on the old values, although other leaves may share it |
| ExpressionTemplates.Storage.Convert | et/src/et_vector.hpp:68-102 | the result is the whole-vector one; the vector overwritten with it is the left operand if that was given up, else the right one if that was, and otherwise no vector changes |
| ExpressionTemplates.ReuseFirst | et/src/naive_vector.hpp:45-57 | storing into the first operand gives the same result, even if it is the second as well |
| ExpressionTemplates.ReuseSecond | et/src/naive_vector.hpp:61-69 | storing into the second operand gives the same result, in the same order of operands |
| Progress.CounterFollowsWork | atomic/src/main.cpp:41-64 | in every interleaving the counter never exceeds the work done, and lags it by at most a batch per thread if what was added fits the counter; if that bound fits the counter, only then |
| Progress.WorkFits | atomic/src/main.cpp:41-64 | what was added fits if threads times work does |
| Progress.FinalCountIff | atomic/src/main.cpp:56-64 | once no thread is left the counter is threads times work, if and only if that fits in 64 bits |
| Progress.StepKeeps | atomic/src/main.cpp:46-61 | every atomic step keeps the counter equal to what the threads have added |
| Progress.Counter.Advance | atomic/src/main.cpp:46-61 | a thread between two accesses to the atomics takes the machine's step |

## Left out

- User interface (`qt`, painting, delegates, SQL, translations, maps, `block-scene`) and the signals of the item model. Its `removeRows` begins a removal and ends an insertion (`treeview/src/notesmodel.cpp:181-183`), which only a model of the signals would show.
- Boost.Asio, Beast, logging, coroutines and executors. A strand is modelled as running its tasks one at a time, in some order.
- System calls, sockets and timing: reads, writes and `select` return anything in their documented range. An error of `select` other than an interruption ends the reactor's loop.
- Weak memory: threads interleave at the mutex and at atomics. Exceptions thrown by tasks and handlers, failed allocations, and several calls to `join`.
- Chat.Chat.SessionCreated: list nodes are values numbered by acceptance and cursors are those numbers, so that a cursor can outlive its node; pointers and the reuse of a session's address are not modelled. Destruction and removal of a session are one step, and a session whose write fails stays busy, because its completion handler is not called (`asio-shared/src/chat_session.hpp:40-45`).
- Anf.Anf: the alignment of the buffer and machines that are not little-endian.
- AnfAvx2.AnfAvx2: the instructions are written out from their documented meaning on 64-bit lanes.
- ThreadPool.ThreadPool.Submit: a dispatched task is part of the task that calls; tasks are numbers, and what they capture and the deferred slot of threads outside the pool are not modelled. A deferred slot that has been moved from (`select/src/thread_pool.cpp:32`) is taken to be empty, although the library leaves the state of a moved-from `std::function` unspecified.
- Reactor.Reactor.Close: clients own the descriptors they name, and do not use one after giving it away to be closed.
- ReactorRuns.NoLostWakeUp: says that `select` can return, not that the operating system makes it.
- The transport of writes: `select/src/async_file_descriptor.hpp:76` waits for readability before writing again; the session's stream is abstract.
- SessionProofs.OutputOfInput: parsing and printing of big integers are functions left open; after a failure of the stream only the prefix is claimed.
- SessionProofs.CallBacksOnceIff: the second callback after the limit is called on an object that has been moved from; what a session then does is not modelled.
- NotesStream.DataStream.ReadEntity: bytes that end early or are malformed are an error here, while the stream class of the library leaves default values and a status.
- NotesStream.DataStream.ReadItems: parents are not part of a tree as read; `treeview/src/notes.cpp:35` leaves those of nested items empty.
- NotesModel.NotesModel.InsertRows: items are entries of a table rather than heap objects, and the row must exist, as the program assumes. `moveRows` and `dropMimeData` are not modelled: they leave parents of moved or nested items wrong (`treeview/src/notesmodel.cpp:204`, `treeview/src/notes.cpp:35`).
- NotesModel.NotesModel.RemoveRows: the sum of row and count does not overflow.
- ExpressionTemplates.Storage.Convert: one element type; vectors are of equal length; without a vector to take over, vectors are not empty or there is no scalar. After the move the storage taken over is said to hold the result, where the program hands it on.
- `hex`, `charconv`, `format`, `generator`, file copying and the other examples would add only easy members.
