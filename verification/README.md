# A model of kcp-rust's session runtime

kcp-rust wraps the C library `ikcp.c` in futures. This project models the runtime around it: sessions
behind a mutex with two closed flags and four waker slots, the poller that drives all sessions with one
timer, the bounded queue and the signal channel between tasks, the closer, the conversation allocator,
the session tables, and the cut that `Kcp::send` makes. The C control block is opaque: what it answers
(`ikcp_check`, `ikcp_waitsnd`, `ikcp_peeksize`, the results of send, receive and input) is an argument of
every call, and so are clock readings, the polling task and the order of events.

| module | what it models |
|---|---|
| `Prelude` | poll results, wakers (a waker is the task it wakes), u32 arithmetic that wraps |
| `Session` | `SafeKcp`: one function for each critical section, the calls built from them, and the class |
| `Interleaving` | the same calls with every lock acquisition a separate step, any number of threads, any schedule |
| `Timeouts` | histories of calls at true times, of which the session sees 32-bit readings |
| `RetainMut`, `Poller` | `Vec::retain_mut` over shared objects, `poll_update`, `poller_main` |
| `Registration` | the poller with the queue through which sessions are registered with it, and stop |
| `Turns` | the poller's turn on one session, with calls of other tasks between its own |
| `Backoff` | the growing delay of a closing session |
| `BoundedQueue`, `QueueTasks` | the queue, and a sender and a receiver task interleaved with everybody else |
| `SignalChannel` | the channel, the biased select, the pause/resume/stop loops |
| `SessionTable`, `ConvAllocator` | the table that allocator, reader and closer share; the client's conversation numbers and its opens |
| `ServerTable` | the server's two-level table and its reader |
| `Closer` | the closer task, on the client and on the server |
| `Fragments` | `Kcp::send` |

Classes hold the fields that the source mutates. Their methods equate the new state with a function of the
old one; where other tasks may use the sessions meanwhile, the poller's methods also state what holds
whatever those do. The theorems are about the functions, over all inputs, all runs or all schedules.
Arithmetic is that of a release build: u32 additions and subtractions wrap (a debug build panics there).

## What turned out not to hold

The code was modelled as it is. Where an expected property fails, the exact condition is proved:

* After `force_close` a flush or a close can still be parked for ever, if its thread stood between the two
  locks of `poll_flush` or `poll_close` (`Interleaving.RaceStrandsFlusher`); with nobody there it cannot,
  and this is an equivalence (`Interleaving.SilentForEverIffNoneInFlight`, `Interleaving.ForceCloseSilences`).
* An update that closes the session wakes the closer alone, and the following `force_close` does nothing:
  the others stay parked exactly if the guard of the close branch holds and somebody else is parked
  (`Interleaving.FailedUpdateSilencesIff`). On a closed session they stay parked exactly until somebody calls
  `poll_input` or wakes their slot (`Interleaving.StrandedUntilWoken`); `Timeouts.ClosingStrandsReceiver` is a
  history that gets there.
* A turn of the poller does not always add 20 to the back-off of a closing session: a `poll_close` that sets
  `close_flag` between its two checks makes it 10 (`Backoff.CloseInsideTurnAddsTen`). Without an accepted
  input in it a turn adds nothing or 20 exactly if both checks find the same `close_flag`
  (`Turns.TurnAddsTwentyIff`). In every run, whatever falls into its turns, the back-off is 20 for each pass
  since the session began to close, and 10 more exactly if that beginning, the setting of the flag or a later
  input, fell between the two checks of a turn (`Backoff.BackoffCountsPasses`).
* After a wrap of the 32-bit clock the poller passes over live sessions: exactly those that never had an
  input, while their next check reads less than their creation (`Timeouts.OnlyUnheardArePassedOver`,
  `Poller.PassedOverAfterWrap`, `Poller.VisitSilences`).
* The poller's reading, taken before a wrap, times out a session that had input after it
  (`Timeouts.StaleReadingAcrossWrap`): exactly if the wrap lies between the two and what is left of the
  period exceeds the limit (`Timeouts.StaleReading`).
* The delay of a pass is not the minimum of its values when a value is 0 and the last one is not
  (`Poller.DelayIsMinIff`).
* A queue or a signal channel of size 0 never passes anything on, and both of its tasks can park
  (`QueueTasks.BothParkedIffSizeZero`).
* Of the close requests that complete in one pass only the last is removed from the table
  (`Closer.RemovedIffOneAtATime`).
* The closer removes by key: if the key was freed and taken by a new session, an old close removes and
  closes the new one (`Closer.StaleCloseTakesNewSession`). It closes the session that was asked for exactly
  if nothing removed or replaced the key since the request (`Closer.RemovesItsOwnIff`).
* Two opens that overlap get the same conversation, and the second replaces the session of the first
  (`ConvAllocator.OverlappingOpensCollide`). A run that takes no conversation from under an open is free of
  this exactly if no open inserts after another has since it allocated (`ConvAllocator.NeverOverwritesIffTimely`);
  a removal in between can take the victim away first (`ConvAllocator.RemovalAvertsOverwrite`).
* A session whose `register` returned Ok is lost, neither polled nor closed, if `stop` comes before the poller
  receives it (`Registration.StopLosesRegistered`): at the end of the poller all registered sessions are
  closed exactly if the queue was left empty or others closed what was in it (`Registration.RunPoller`).
* A signal that is still queued when the channel closes is lost, and nothing else is
  (`SignalChannel.ClosedChannelIsDead`).
* The server's table keeps an outer key for every address ever looked up (`ServerTable.NestedRefinesFlat`).

## Model

| member | source | states |
|---|---|---|
| Session.SafeKcp.Wrap | src/poller.rs:68-94 | a new session is open, nobody is parked, and its clocks read the creation time |
| Session.SafeKcp.TryWakeSend | src/poller.rs:96-100 | empties the send slot and wakes what was in it |
| Session.SafeKcp.TryWakeRecv | src/poller.rs:102-106 | the same for the receive slot |
| Session.SafeKcp.TryWakeFlush | src/poller.rs:108-112 | the same for the flush slot |
| Session.SafeKcp.TryWakeClose | src/poller.rs:114-118 | the same for the close slot |
| Session.SafeKcp.TryWakeAll | src/poller.rs:120-125 | the four slots are taken in the order of the source |
| Session.SafeKcp.Check | src/poller.rs:127-138 | stores ikcp's next check, adds 10 while closing, returns the wrapped sum |
| Session.SafeKcp.Updatable | src/poller.rs:145-152 | closed sessions are always updatable, others by last_update against a fresh check |
| Session.SafeKcp.ForceClose | src/poller.rs:154-167 | returns early on a closed session, else sets both flags and wakes all |
| Session.SafeKcp.Update | src/poller.rs:169-219 | the four timeout branches in order, their flags, their single wake and their error |
| Session.SafeKcp.PollInput | src/poller.rs:223-246 | an accepted packet resets the back-off and the clocks, a rejected one closes receiving; all are woken |
| Session.SafeKcp.PollSend | src/poller.rs:248-267 | BrokenPipe, a parked sender, or the library's answer |
| Session.SafeKcp.PollRecv | src/poller.rs:269-294 | BrokenPipe, end of stream, a parked receiver, or the library's answer; then the sender is woken |
| Session.SafeKcp.PollFlush | src/poller.rs:296-309 | BrokenPipe, a parked flusher, or Ok |
| Session.SafeKcp.PollClose | src/poller.rs:311-326 | Ok, or a parked closer and close_flag set |
| Session.WakeAllWakesEveryone | src/poller.rs:120-125 | every parked task is woken once, in order, nobody stays parked, and nothing else changes |
| Session.InputAndForceCloseWakeEveryone | src/poller.rs:154-167 | a force_close that finds the session open, and an input in any case, wake every parked task once |
| Session.RecvWakesSender | src/poller.rs:269-294 | a receive on an open session leaves no sender parked and has woken the one that was |
| Session.UpdateKeepsCore | src/poller.rs:174-218 | update changes only flags, slots and wakes, and never closes sending before receiving |
| Session.FreshIsOpen | src/poller.rs:68-94 | a session just made is open, its clocks all read the creation, no update fails at that time and no send waits while the window has room |
| Session.SendWaitsIffFull | src/poller.rs:248-267 | a send waits in the send slot if and only if sending is open and the window full, else the library's answer is passed on unless sending is closed, and nothing else changes |
| Session.RecvWaitsIffNoData | src/poller.rs:269-294 | on an open session a receive waits in its slot if and only if receiving is open and there is no data, gets the library's answer with data, and the end of the stream if and only if receiving is closed |
| Session.FlushWaitsIffUnsent | src/poller.rs:296-309 | on an open session a flush waits in its slot if and only if something is unacknowledged, else it is Ok and nothing changes |
| Session.InputClosesIffRejected | src/poller.rs:223-246 | a rejected packet closes receiving and nothing else; an accepted one closes nothing and resets back-off and clocks |
| Session.UpdateWakesOne | src/poller.rs:174-218 | a failed update wakes exactly the task it fails because of, closes receiving, and sending only for the closer; a successful one changes nothing |
| Interleaving.AloneIsAtomic | src/poller.rs:127-326 | the lock-by-lock steps of a call, run without interference, add up to the call as one step, for every call |
| Interleaving.Lifecycle | src/poller.rs:140-143 | over every interleaving flags only rise, closed() is exactly send_closed, and the phase open, receive-closed, closed never goes back |
| Interleaving.ForceCloseFreesSendAndRecv | src/poller.rs:154-167 | whatever other threads do, after the last step of a force_close that did not return early no sender or receiver is parked, ever |
| Interleaving.SilentForEverIffNoneInFlight | src/poller.rs:296-326 | a closed session without parked tasks stays so over all schedules if and only if no thread is between the two locks of poll_flush or poll_close |
| Interleaving.ForceCloseSilences | src/poller.rs:154-167 | if nobody is between those locks when the flags are set, all four slots are empty in every state after the force_close is done waking |
| Interleaving.RaceStrandsFlusher | src/poller.rs:296-309 | on every open session with data in flight there is a schedule after which all threads are idle, the session is closed and a flusher is parked |
| Interleaving.ParkedTaskIsNeverForgotten | src/poller.rs:96-125 | over every interleaving in which one task uses a slot, a task parked there is still parked or has been woken |
| Interleaving.ParkedForAReason | src/poller.rs:248-326 | over every interleaving who is in a slot was there at the start or was parked by a step that had to wait, and has been there ever since; a sender only by a full window, a receiver only by a lack of data, a flusher only by unacknowledged data |
| Interleaving.StepParksIff | src/poller.rs:248-326 | a step fills a slot if and only if it is the locked part of a call that must wait there; any other leaves the slot or empties it |
| Interleaving.FailedUpdateSilencesIff | src/poller.rs:178-186 | a failed update followed by force_close empties all slots exactly if the guard of the close branch is false or only the closer is parked; if it is true precisely the others stay parked |
| Interleaving.ClosedForGood | src/poller.rs:154-167 | after a force_close of an open session and any later calls nobody is parked; send, receive and flush answer BrokenPipe and close answers Ok |
| Interleaving.StrandedUntilWoken | src/poller.rs:169-326 | over every script of calls a slot of a closed session is emptied exactly if one of them is poll_input or wakes that slot, and never filled |
| Interleaving.EndOfStreamIsFinal | src/poller.rs:278-289 | once a receive met the end of the stream, after any further calls a receive gets no data and does not wait |
| Interleaving.RejectedInputEndsStream | src/poller.rs:223-246 | after a rejected packet and any further calls no receive waits or gets data |
| Timeouts.OverdueExactly | src/poller.rs:174-181 | the wrapped comparison fires exactly if the reading has not fallen behind and the quiet time modulo the period exceeds the limit; so never early |
| Timeouts.HistoryDated | src/poller.rs:69-93 | over every history, updates with readings of any age included, last_send is the reading of the last accepted input, last_update is the creation reading until the first input and 0 ever after, and the limits are unchanged |
| Timeouts.TimeoutsExactly | src/poller.rs:169-219 | after any history, if and only if conditions for each timeout of update and for a successful poll_close |
| Timeouts.NoEarlyTimeout | src/poller.rs:174-213 | across any number of clock wraps no timeout is reported, and no close succeeds, before the true quiet time has reached the limit |
| Timeouts.PollerDropsOnlyQuietSessions | src/poller.rs:460-474 | after any history, whatever calls fall into its turn, the poller drops a session it found open only if another task closed it meanwhile or a task waits whose limit its reading exceeds |
| Timeouts.UpdateFailsIffLate | src/poller.rs:174-213 | an update with any reading, older or newer than the last input, fails if and only if a parked task's limit is exceeded, in terms of true times |
| Timeouts.LateMeansSilent | src/poller.rs:174-181 | exceeding a limit means true silence beyond it, or an input after the reading with a wrap in between |
| Timeouts.HistoryIsCalls | src/poller.rs:169-326 | a history of timed calls leaves the session as the same calls without the times do |
| Timeouts.ClosingStrandsReceiver | src/poller.rs:178-186 | a reachable session on which update and force_close leave a receiver parked, where it stays over every further script exactly until a poll_input or a wake of its slot |
| Timeouts.OpenSessionsAreUpdated | src/poller.rs:145-152 | as long as the clock has not wrapped since the creation, whatever period it is in, a pass updates every open session, whatever happened to it before |
| Timeouts.OnlyUnheardArePassedOver | src/poller.rs:145-152 | across any number of wraps, after any history, an open session is passed over if and only if it never had an input and its next check reads less than its creation |
| Timeouts.VisitIsCalls | src/poller.rs:460-483 | a turn of the poller equals a sequence of calls of the session |
| Timeouts.StaleReading | src/poller.rs:461-468 | a reading older than the last input makes a session overdue if and only if the clock wrapped in between and what is left of the period exceeds the limit |
| Timeouts.StaleReadingAcrossWrap | src/poller.rs:461-468 | a history after which such a reading times out a session that has just had input |
| RetainMut.RetainOrder | src/poller.rs:460-483 | what retain_mut keeps is a subsequence of the vector, in order |
| RetainMut.DroppedAreDone | src/poller.rs:460-483 | if the closure drops only finished objects, every object dropped is finished at the end, even if the vector names it twice |
| RetainMut.StaysGood | src/poller.rs:460-483 | what the closure leaves good at one turn is good at the end of the pass |
| Poller.VisitDropsOnlyClosed | src/poller.rs:460-474 | a session is dropped only if it is closed, is closed when dropped, and is never reopened |
| Poller.VisitSilences | src/poller.rs:467-474 | a retained session ends its turn with nobody parked and everyone woken, unless it was passed over; then the same tasks are parked still |
| Poller.NotPassedOver | src/poller.rs:145-152 | no live session is passed over while the clock has not wrapped since its creation |
| Poller.PassedOverAfterWrap | src/poller.rs:145-152 | a session created at the end of a period is passed over five milliseconds later |
| Poller.PassConserves | src/poller.rs:460-483 | a pass keeps a subsequence in order, and whatever it drops or finds closed is closed |
| Poller.PassSilences | src/poller.rs:460-474 | a session retained at its turn and not passed over ends the whole pass with nobody parked |
| Poller.AfterLastZero | src/poller.rs:476-480 | splits the retained values behind their last zero |
| Poller.DelayIsMinAfterLastZero | src/poller.rs:476-480 | the delay is the least retained value after the last zero, 0 if none, and never above the last value |
| Poller.DelayIsMinIff | src/poller.rs:476-480 | the delay is the least of all retained values exactly if none is 0 or the last one is |
| Poller.VisitSession | src/poller.rs:460-483 | with other tasks between its calls the closure drops a session only closed and reopens none; without them it is exactly a turn of the pass |
| Turns.TurnConserves | src/poller.rs:460-483 | with any calls of others between its own, a turn reopens nothing, drops a session only closed, and drops one it found open exactly if updatable said yes and update failed |
| Turns.ClosedMeanwhileIsDropped | src/poller.rs:460-474 | a session that others close before the poller's updatable or update is dropped in the same turn |
| Turns.TurnIsScript | src/poller.rs:460-483 | a turn with calls of others in it is one script of calls, so what holds over all scripts holds over turns |
| Turns.AloneIsVisit | src/poller.rs:460-483 | a turn into which nothing falls is the closure run alone |
| Poller.PollUpdate | src/poller.rs:454-486 | even if other tasks act between any two calls of the pass it keeps a subsequence in order, closes whatever it drops and reopens nothing; if they do not, kept sessions, delay and all session states are exactly the pass |
| Poller.ForceCloseAll | src/poller.rs:393-395 | every session of the vector ends closed, whatever other tasks do meanwhile |
| Poller.PassOnce | src/poller.rs:376-378 | a due pass replaces the vector by what it kept and sets the timer to the delay it returned |
| Poller.PollOnce | src/poller.rs:364-389 | one poll takes an arrival, or makes the pass that is due, or looks at the timer; it keeps every received session in the vector or closed, and passes spaced by their delays |
| Poller.PollerMain | src/poller.rs:353-398 | for every script, with other tasks between polls and between the calls of a pass, every arrived session is in the vector or closed, the loop ends exactly at a closed queue and then all are closed, and passes are at least their delays apart |
| Registration.RunPoller | src/poller.rs:337-398 | over every order of registers, stops and polls each session whose register returned Ok is queued, in the vector or closed; at the end all are closed if and only if all that the queue still holds are, and what was not received nobody has touched, so without others if and only if it holds none |
| Registration.RegisterOnce | src/poller.rs:348-350 | register succeeds exactly on an open queue that is not full |
| Registration.PollOnceMore | src/poller.rs:364-368 | what a poll takes from the queue goes to the poller, and the books stay right |
| Registration.StopLosesRegistered | src/poller.rs:344-346 | a session whose register succeeded stays in the queue if stop comes before the poller's next poll |
| Turns.TurnAdds | src/poller.rs:127-138 | exactly what a retained turn adds with any calls of others in it: 10 for each check that finds close_flag set, where an accepted input takes back what came before; and its value is the distance to the next check |
| Turns.TurnAddsTwentyIff | src/poller.rs:127-138 | a turn without accepted input adds 20, 10 or nothing as its two checks find the flag, and not 10 if and only if both find the same |
| Backoff.BackoffCountsChecks | src/poller.rs:127-138 | over every interleaving of every number of threads clsck_inc is 10 for each check that found close_flag set since the last accepted input |
| Backoff.BackoffCountsCalls | src/poller.rs:127-152 | the same over every script of calls, with the checks inside updatable of an open session |
| Backoff.CloseInsideTurnAddsTen | src/poller.rs:460-483 | a poll_close that sets close_flag between the two checks of a turn makes that turn add 10 |
| Backoff.BackoffCountsPasses | src/poller.rs:460-483 | in every run, whatever falls into the turns, on an open session clsck_inc is 20 for each retained pass since the later of close_flag being set and the last accepted input, and 10 more if and only if that fell between the two checks of a turn |
| Backoff.PassesSpreadOut | src/poller.rs:467-485 | with timers that are never early and a silent peer, whatever else others do within and between turns, pass k + 1 of a closing session comes at least 10 k (k + 1) ms after the first |
| BoundedQueue.QueueImpl.constructor | src/queue.rs:37-45 | an open empty queue of capacity at most 1 |
| BoundedQueue.QueueImpl.WakeRecv | src/queue.rs:122-126 | empties the receiver slot and wakes what was in it |
| BoundedQueue.QueueImpl.WakeSend | src/queue.rs:128-132 | empties the sender slot and wakes what was in it |
| BoundedQueue.QueueImpl.Close | src/queue.rs:134-138 | closes and wakes both sides |
| BoundedQueue.QueueImpl.PollRead | src/queue.rs:140-159 | Interrupted, the front item with the sender woken, or a parked receiver |
| BoundedQueue.QueueImpl.PollSend | src/queue.rs:161-178 | Interrupted, a parked sender that keeps its item, or the item pushed and the receiver woken |
| BoundedQueue.QueueImpl.BlockSend | src/queue.rs:62-74 | pushes onto an open queue, full or not; refuses on a closed one and wakes the sender |
| BoundedQueue.BlockSendIffOpen | src/queue.rs:62-74 | Ok if and only if the queue is not closed, however full; then the item is behind the others and the receiver slot is empty, else the items are as before |
| QueueTasks.NoLostWakeup | src/queue.rs:122-178 | in every reachable state a parked receiver faces an empty open queue and a parked sender a full open one, with their wakers in place, and with a capacity of 1 they are never both parked |
| QueueTasks.QueueHistory | src/queue.rs:140-178 | received plus queued is what was pushed, in order; a send future's item goes in once if it returns Ok and never otherwise; only the front of the queue can have come through poll_send |
| QueueTasks.NothingAfterClose | src/queue.rs:134-146 | after a close nothing is pushed or received in any run |
| QueueTasks.PushedIffOk | src/queue.rs:161-178 | an item leaves its future exactly if poll_send returns Ok, and Pending means open and full |
| QueueTasks.BlockSendNeverDrops | src/queue.rs:62-74 | in every run what entered through block_send is exactly what was given to it before the first close, in order, however full the queue was |
| QueueTasks.BothParkedIffSizeZero | src/queue.rs:37-45 | some run parks both tasks if and only if the size is 0, and then no send ever succeeds |
| SignalChannel.SignalImpl.constructor | src/signal.rs:87-96 | an open channel on a queue of that size |
| SignalChannel.SignalImpl.CloseWrite | src/signal.rs:98-102 | marks the sending side closed and closes the queue |
| SignalChannel.SignalImpl.CloseRead | src/signal.rs:127-131 | marks the reading side closed and closes the queue |
| SignalChannel.SignalImpl.PollSend | src/signal.rs:104-123 | the queue's answer, with Interrupted turned into a closed reader |
| SignalChannel.SignalImpl.PollRecv | src/signal.rs:133-151 | the queue's answer, with Interrupted turned into a closed sender (reported as SignalReadClosed) |
| SignalChannel.SendAnswers | src/signal.rs:104-123 | a send is Got if and only if the signal entered, which is if and only if the channel is open and not full; Pending if and only if open and full |
| SignalChannel.RecvAnswers | src/signal.rs:133-151 | a receive gets the front signal if and only if the channel is open and not empty; Pending if and only if open and empty; which side it reports as closed |
| SignalChannel.CloseIsTold | src/signal.rs:98-151 | what either side hears at its next polls after the one or the other has closed |
| SignalChannel.ControlLoop.SelectFirst | src/signal.rs:70-85 | the first ready future wins; a ready data source leaves the channel untouched |
| SignalChannel.ControlLoop.Poll | src/poller.rs:420-451 | one poll of a control loop: data only while unpaused, else at most one signal, handled |
| SignalChannel.ControlLoopFollowsSignals | src/client.rs:279-300 | in every run delivered signals are a prefix of those sent with the rest queued, the pause flag is their fold, a Stop is the last, and the data source was polled only while that fold was unpaused |
| SignalChannel.LoopEndsIff | src/client.rs:292-325 | in every run the loop is done if and only if a Stop was delivered, a poll met a closed channel, or the data source gave an ending answer while the delivered signals left it running |
| SignalChannel.StartIsControlled | src/poller.rs:418 | a new loop, which starts paused, satisfies the invariant |
| SignalChannel.ClosedChannelIsDead | src/signal.rs:98-151 | after a close nothing is sent or delivered, the next poll of the signal ends the loop, and everything sent is delivered if and only if nothing was queued at the close |
| ConvAllocator.SearchFindsNearest | src/client.rs:337-345 | the search returns a free conversation, and none lies nearer on the cycle |
| ConvAllocator.SearchFailsIffFull | src/client.rs:340-342 | the search fails exactly if all of 1 .. 2^32 - 1 are taken |
| ConvAllocator.StepAhead | src/client.rs:338-340 | the wrapping increment runs through the cycle and is back exactly after all of it |
| ConvAllocator.Client.constructor | src/client.rs:117-120 | the cursor starts at 1 |
| ConvAllocator.Client.Allocate | src/client.rs:331-346 | terminates, and steps the opens: an absent nonzero conversation that becomes the cursor, or NoMoreConv exactly if all are taken, with the cursor where it was |
| ConvAllocator.Client.Manage | src/client.rs:399-407 | steps the opens; a live session is replaced exactly if an overwrite is counted, and never if no other open has inserted since this one allocated |
| ConvAllocator.Client.Open | src/client.rs:152-171 | an open that nobody gets in between fails exactly if all conversations are taken, else puts the session under a nonzero one that was free, and overwrites nothing |
| ConvAllocator.Client.Deallocate | src/client.rs:348 | gives nothing back: an open that fails leaves cursor and table alone |
| ConvAllocator.Client.RemoveKcp | src/client.rs:420-424 | steps the opens, and closes the session it takes out |
| SessionTable.SessionTable.RemoveKcp | src/client.rs:420-424 | takes the session out and force-closes it |
| ConvAllocator.OverlappingOpensCollide | src/client.rs:152-171 | in every run all opens that allocated since the last insert hold one conversation; the first to insert overwrites nothing, the next one overwrites it |
| ConvAllocator.SerialOpensNeverOverwrite | src/client.rs:152-171 | if each open is over before the next allocates, with any removals in between, nothing is overwritten and no live conversation is 0 |
| ConvAllocator.NeverOverwritesIffTimely | src/client.rs:152-171 | in every run, opens that fail or are dropped included, that removes no conversation an open holds, nothing is overwritten if and only if no open inserts after another has since it allocated |
| ConvAllocator.RemovalAvertsOverwrite | src/client.rs:152-171 | a run in which such a removal leaves a late insert nothing to overwrite |
| ServerTable.NestedRefinesFlat | src/server.rs:286-322 | over every sequence of operations the nested table answers as a flat map keyed by (id, conv), and its outer keys are all ids named since it was last emptied |
| ServerTable.KcpManager.constructor | src/server.rs:76-89 | an empty table |
| ServerTable.KcpManager.OrDefault | src/server.rs:293-294 | makes an empty inner map if there is none |
| ServerTable.KcpManager.Manage | src/server.rs:286-297 | the insert step of the nested table |
| ServerTable.KcpManager.Lookup | src/server.rs:313-322 | the lookup step, which may create an empty inner map |
| ServerTable.KcpManager.RemoveSession | src/server.rs:299-311 | the removal step, and the removed session is force-closed |
| ServerTable.CloseInner | src/server.rs:372-374 | force-closes every session of an inner map |
| ServerTable.KcpManager.CloseAllSession | src/server.rs:368-378 | every stored session is force-closed, whatever the iteration order, and the table is empty |
| ServerTable.ReaderNeverOverwrites | src/server.rs:237-263 | the reader inserts only at absent keys, although others remove and clear while it waits to register |
| ServerTable.ReaderStores | src/server.rs:237-263 | over every run the table holds under every key what the events alone say, the session in the making is the one they say, and exactly the sessions that rejected a packet are closed |
| ServerTable.StoredIffRegistered | src/server.rs:253-297 | a key stands for a session if and only if a registration stored it there and no removal or clearing came after |
| Closer.PollCloseIs | src/poller.rs:311-326 | poll_close is Ready exactly on a closed session or a quiet one with nothing left to send, and else marks the session as closing |
| Closer.PollFuture | src/client.rs:210-213 | one poll of a pending close, perhaps after other tasks used the session |
| Closer.PollAll | src/client.rs:220-226 | the retain loop of a pass |
| Closer.RetainPending | src/client.rs:217-229 | exactly the requests that poll_close answers Ready leave the list and the last of them is returned; a closed session is Ready whatever others do; if they do nothing Ready are exactly the closable ones and all others are marked and will wake the closer |
| Closer.SelectKeepsOrder | src/client.rs:220-226 | what leaves and what stays are each the elements with that answer, once and in order, and nothing else |
| Closer.PollRequests | src/client.rs:204-231 | one poll of the closer's loop steps the account: a request found in the table is queued, or the pending ones are polled, other tasks in between or not, and the last that completed is to be removed |
| Closer.CleanUp | src/client.rs:233-236 | removes and closes what the key stands for by then, after whatever other tasks did to the table |
| Closer.CloserBalances | src/server.rs:154-189 | in every run requests found, each with its session, are exactly those pending or completed, all were submitted, and only completed ones are removed |
| Closer.RunHolds | src/client.rs:204-237 | over every run a key stands for the same session exactly as long as no event removed or replaced it |
| Closer.RemovesItsOwnIff | src/client.rs:210-236 | after any run since a request, events between the pass and the removal included, the session its removal closes is the one whose poll_close was Ready if and only if nothing removed or replaced the key since |
| Closer.StaleCloseTakesNewSession | src/client.rs:210-236 | runs in which an old close removes a new session under a reused key, taken before the pass or between pass and removal, although nobody asked |
| Closer.RemovedIffOneAtATime | src/client.rs:220-236 | what completes is handed to remove_kcp one for one if and only if no pass completes two requests |
| Fragments.KeptLengthIs | src/kcp/mod.rs:157-166 | for every length and mss the kept slice has min(count, 127) fragments, is uncut exactly up to 127, never empty for nonempty data, and is cut by whole fragments |
| Fragments.NoUnderflow | src/kcp/mod.rs:163 | neither subtraction of the cut underflows |
| Fragments.SlicesDeliver | src/kcp/mod.rs:153-176 | resending what was not accepted delivers every byte once, in order, in ceil(ceil(len / mss) / 127) calls of 1 to 127 fragments each |
| Fragments.SlicesAreFewest | src/kcp/mod.rs:157-166 | no way of cutting data into sends of at most 127 fragments takes fewer calls |
| Fragments.Kcp.Send | src/kcp/mod.rs:153-176 | the library is handed exactly that prefix, and its length or its error is returned |

## Left out

- `ikcp.c` itself (segments, retransmission, windows) is not part of this model; `kcp_ext.c`, the bindings and the cleanup of user data neither.
- `src/tokio.rs` and `src/smol.rs`, socket i/o, the sender tasks and logging: adapters without state of their own.
- `GuardedUpdate` and the shutdown order of tasks: depends on polling a finished async function again.
- Several senders parked on one queue: the slot holds one waker, so the second one replaces the first; wake-up theorems are for one sender task and one receiver task.
- Client `close_all_session`: like the server's, but the table is kept.
- QueueTasks.NoLostWakeup: the runs are over values of the queue that the methods of `QueueImpl` are proved equal to; the memory order of the mutex is not modelled.
- Poller.PollerMain: what other tasks do is any change of the sessions that reopens none; which changes their calls make is in `Interleaving` and `Turns`.
- Closer.PollRequests: while other tasks use the sessions during a pass, its answers are those of the moment of each poll; only for sessions closed before does the contract say which.
- Backoff.PassesSpreadOut: stated while 20 k plus the interval fits in a u32; beyond it, after more than 200 million silent passes, the sum wraps as `Backoff.BackoffCountsPasses` says.
- Addresses are opaque ids; two addresses with the same hash share a session in the source as well.
