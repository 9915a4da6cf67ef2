# Verified models of the RTL-SDR driver for Android

This project models the parts of the driver whose correctness is hardest to see
from the code, and proves what they are for. `dafny verify dfyconfig.toml`
checks everything.

* **Event and transfer engine of libusb.** `EventData` is the state under the
  event data lock, with the event pipe. `EventLoop` is a step machine over any
  number of threads that handle events, wait for events or close devices, also
  from callbacks; every lock-protected block is one step. `EventCounts` accounts
  for all messages and completed transfers that come in, `EventProgress` shows
  that nothing ever gets stuck, and `EventFlow` that a close comes first and when
  the pipe is polled again. `Transfers` is a step machine for submit, cancel,
  timeout, completion and disconnect, with the flags of `TransferFlags`;
  `TransferTimeouts` says which transfers time out in it and what their callbacks
  are told, and `TransferProgress` that all of them can come to an end. `FlyingList` is the list sorted by timeout with the scans over it, and
  `ListHead` the circular list below it.
* **In-place FFT.** `BitReversal`, `Dft`, `FftLoops` and `ExactFft` show that the
  loops compute a discrete Fourier transform in exact arithmetic (`Complex`).
  `FixedPoint` and `FixFft` run the same loops on 16-bit integers, show that
  nothing overflows and bound the distance from the exact transform.
* **Configuration descriptors.** `Descriptors` says what is found in a buffer,
  `DescriptorParser` has the three nested loops, `DescriptorTheorems` the byte
  accounting on arbitrary input and `DescriptorRoundTrip` a serializer that the
  parser undoes (sections 9.6.3, 9.6.5 and 9.6.6 of the USB 2.0 specification).
* **Tuners.** `R82xxRegisters` is the cache of shadow registers, `R82xxPll` the
  synthesizer with its sigma-delta loop, `E4000` the other synthesizer and
  `Resampler` the sample rate arithmetic.
* **Streams.** `RtlFm` has the filters that carry state between blocks, on top of
  `Streams`; `Adsb` is the in-place Manchester decoder. `ElementQueue` and
  `WorkPool` are the linked queue and the circulating buffers of the TCP server.
* **EEPROM.** `Eeprom` has the image, its parser and the byte device.

Loops and objects that the program updates in place are methods, arrays and
classes here; each is proved equal to a function of the old state, and the
theorems are about those functions.

## What does not hold

Some statements that one would like to make are false of the code. For each there
is a lemma with an input or a run, and one that says exactly when it holds; where
that is known in one direction only, it is said so.

* A transfer that is submitted again with its timeout set back to none keeps the
  old deadline (`FlyingList.DeadlineAsRequested`, `FlyingList.StaleDeadline`).
* The endpoint count of an alternate setting can exceed the endpoints filled in,
  when a class specific descriptor is cut short
  (`DescriptorTheorems.EndpointCount`, `DescriptorRoundTrip.CountWithoutEndpoints`).
* The sigma-delta loop divides by zero for some fraction exactly with crystals
  from 32.768 MHz on, rounded to kHz (`R82xxPll.NeverDividesByZero`).
* Writes that start below the shadow window, and failed writes, can leave the
  shadow different from the chip (`R82xxRegisters.WriteFromBelow`,
  `R82xxRegisters.WriteKeepsCoherent`).
* With a crystal that is not exactly 28.8 MHz the resampler can lose a sign bit
  of the ratio (`Resampler.RateExact`, `Resampler.DetunedCrystals`).
* The E4000 register z is cut to 8 bits without a check (`E4000.CloseIffZFits`,
  `E4000.ZTooLarge`). The comment at tuner_e4k.c:519 gives 65536 as the largest x;
  the code never gets beyond 65535, and the model follows the code.
* `sdrtcp_feed()` can drop a block and report success (`WorkPool.FeedAcceptedIff`,
  `WorkPool.FeedCanBeDropped`).
* The timeout handling takes the lock of a transfer while it holds the one of the
  list, and a submit takes them the other way round: a submit that fails and a
  timeout pass that finds its transfer due can wait for each other for ever
  (`Transfers.PassStuckIff`, `Transfers.PassCanBeStuck`).
* The timeout handling writes the flags of a transfer without the lock that
  libusbi.h:427-429 asks for. Between its load and its store a submit can mark the
  transfer as in flight, or a cancellation can reach the backend, and the store
  takes that back: then a disconnect can leave the transfer with the backend, the
  transfer can be listed twice, and the backend can be asked to cancel twice. A run
  loses nothing if and only if no such step comes in between
  (`Transfers.LosesNothingIff`, `Transfers.MarkLosesIff`, with the runs
  `Transfers.LostInFlight`, `Transfers.ListedTwice`, `Transfers.AskedTwice`), and
  the accounting of `Transfers` holds in every run that loses nothing.
* The timeout handling marks a transfer as timed out only after its cancellation has
  returned. A completion that begins in between, in another thread, reads the mark
  too early, and the callback is told that the transfer was cancelled
  (`TransferTimeouts.TimeoutToldAsCancelled`). A callback of a cancelled transfer
  is told of a timeout if and only if the mark was made before its completion
  began (`TransferTimeouts.CallbackIsTold`, `TransferTimeouts.TimedOutIff`).
* Without allowed errors the Manchester decoder can overwrite a magnitude that it
  then reads again, and then need not do what a decoder with an untouched copy
  does (`Adsb.TurnUnreadIff`, `Adsb.NothingClobberedIff`, `Adsb.SilenceDiffers`).
  When it overwrites is exact; that the two decoders agree is shown in one
  direction, for runs in which it does not (`Adsb.TurnsAreCopyTurns`): they can
  agree although a magnitude was overwritten.
  It still ends on all magnitudes; on a buffer of arbitrary numbers it can stall
  (`Adsb.EndsIff`).
* The final byte of the EEPROM image can overwrite the marker of an empty string;
  the configuration still comes back, with an error message
  (`Eeprom.ImageRoundTrip`).
* A sine table of two points has no cosine (`ExactFft.OneBitTable`).

## Model

| member | source | states |
|---|---|---|
| `EventLoop.NoWaiterIsStranded` | libusb/src/main/jni/libusb/io.c:2303-2341 | In every run of any number of threads, a thread that sleeps on the waiters condition (or is about to) implies that another thread still owes a broadcast: it holds the events lock, has released it but not broadcast yet, or is inside `libusb_close()`. |
| `EventLoop.SleepersCanBeWoken` | libusb/src/main/jni/libusb/io.c:1778-1790 | From every reachable state the threads that are awake can run, without any wait timing out, to a state in which nobody sleeps; the lemma returns such a path. |
| `EventLoop.PipeIsReadableWhilePending` | libusb/src/main/jni/libusb/io.c:2072-2179 | In every run pending events keep at least one byte in the event pipe, and no read of the pipe under the data lock ever finds it empty; this covers the window in which the drain loop drops the lock. |
| `EventLoop.EventsLockExcludes` | libusb/src/main/jni/libusb/io.c:1721-1775 | In every run at most one thread handles events or closes a device, and the recursive lock is held exactly as deeply as the program point of its holder says. |
| `EventLoop.ActiveImpliesHeld` | libusb/src/main/jni/libusb/io.c:1841-1857 | In every run `event_handler_active` is set only while some thread holds the events lock (not conversely: the nested unlock of `do_close()` clears it). |
| `EventLoop.PathInv` | libusb/src/main/jni/libusb/core.c:1432-1474 | The invariant behind these results holds after every step, including `libusb_close()` from a callback with its nested lock and unlock. |
| `EventLoop.StepInv` | libusb/src/main/jni/libusb/io.c:2039-2234 | One step of one thread keeps the invariant: locks as the program points say, pipe, close counter equal to the number of closers, someone owes a broadcast. |
| `EventLoop.ProducerInv` | libusb/src/main/jni/libusb/io.c:1689-1700 | An event produced by any thread at any time keeps the invariant. |
| `EventLoop.StepOwes` | libusb/src/main/jni/libusb/io.c:2323-2341 | If some thread waits after a step, some thread owes a broadcast after it. |
| `EventLoop.LocalStepOk` | libusb/src/main/jni/libusb/io.c:1721-1790 | Every step keeps what the program points promise; a thread stops owing a broadcast only by one, and starts to wait only while one is owed. |
| `EventLoop.OnwardIsAStep` | libusb/src/main/jni/libusb/core.c:1449-1474 | A thread that owes a broadcast and can have the events lock has a step that brings it closer to the broadcast. |
| `EventLoop.RunToBroadcast` | libusb/src/main/jni/libusb/io.c:1778-1790 | Such a thread, and whoever holds the waiters lock, can run until it broadcasts. |
| `EventCounts.MessagesAreConserved` | libusb/src/main/jni/libusb/io.c:2156-2162 | In every run the hotplug notifications so far = the messages still queued + the steps in which a thread at the drain found one: each such step takes exactly one, and nothing else takes any. |
| `EventCounts.TransfersAreConserved` | libusb/src/main/jni/libusb/io.c:2164-2173 | In every run the signalled completions so far = the completed transfers still queued + the steps in which a thread at the drain, or back from a completion without an error, found one. |
| `EventCounts.StepCounts` | libusb/src/main/jni/libusb/io.c:2139-2179 | Every step of every run in numbers: one message or transfer less exactly in those steps, one close more or less exactly when one is announced or retired, one byte more exactly when that ends the quiet, one less exactly when a block that may read the pipe leaves all quiet. |
| `EventCounts.DrainCounts` | libusb/src/main/jni/libusb/io.c:2156-2192 | A transfer that was taken is completed next, otherwise the hotplug callbacks come; whether a message was taken is kept in mind until then. |
| `EventCounts.EveryRunHasALog` | libusb/src/main/jni/libusb/io.c:1689-1700 | Every run has a log of what happened in it, outside or by which thread, step by step; the two laws above hold of every log. |
| `EventProgress.EverythingCanBeHandled` | libusb/src/main/jni/libusb/io.c:2303-2341 | No reachable state is a dead end: the threads that are awake can run, without any wait timing out, until all functions have returned, and any one thread can then handle everything that is pending. The lemma returns such a path. |
| `EventProgress.SomeoneIsUnhindered` | libusb/src/main/jni/libusb/io.c:1778-1790 | In every state of the invariant with a thread that is not at rest some thread is awake and not kept waiting by a lock. |
| `EventProgress.AllGoHome` | libusb/src/main/jni/libusb/core.c:1432-1474 | All threads can return from what they are doing, `libusb_close()` from callbacks included. |
| `EventProgress.WorksToTheEnd` | libusb/src/main/jni/libusb/io.c:2039-2234 | A thread alone handles all messages, transfers and changes of the poll set, and returns. |
| `EventFlow.ClosersGoFirst` | libusb/src/main/jni/libusb/io.c:1721-1740 | While a device is being closed a call of `libusb_handle_events()` that has yet to look for closes, or has seen one, never takes the events lock and does not retry: it goes on to sleep and to return. |
| `EventFlow.PollsAgainIff` | libusb/src/main/jni/libusb/io.c:2181-2228 | Behind the hotplug callbacks `poll()` is called again exactly if the drain has taken a message and no completion has failed since the last `poll()`, unless the backend comes first or a callback closes a device; the backend is left out behind a failure. |
| `EventFlow.FlagsTellInRun` | libusb/src/main/jni/libusb/io.c:2135-2228 | In every run `special_event` says whether the drain since the last `poll()` took a message, and `ret` whether a completion has failed since. |
| `EventFlow.CanGoIff` | libusb/src/main/jni/libusb/io.c:2109-2139 | Wherever the application, the allocator, `poll()`, the backend or the clock decides, exactly the listed continuations are possible, in every reachable state; among them a `poll()` that finds the pipe readable if and only if there is a byte. |
| `EventData.Context.constructor` | libusb/src/main/jni/libusb/io.c:1123-1145 | A fresh context is valid (pending events imply a byte in the pipe, no read has blocked): exactly the poll set is pending, with exactly one byte. |
| `EventData.Context.UsbiFdNotification` | libusb/src/main/jni/libusb/io.c:2602-2612 | The poll set is marked modified, and stays valid; exactly one byte is added if nothing was pending before, none otherwise, and nothing else changes. |
| `EventData.Context.UsbiHotplugNotification` | libusb/src/main/jni/libusb/hotplug.c:212-234 | There is one more message, and stays valid; exactly one byte is added if nothing was pending before, none otherwise, and nothing else changes. |
| `EventData.Context.UsbiSignalTransferCompletion` | libusb/src/main/jni/libusb/io.c:1689-1700 | There is one more completed transfer, and stays valid; exactly one byte is added if nothing was pending before, none otherwise, and nothing else changes. |
| `EventData.Context.AnnounceClose` | libusb/src/main/jni/libusb/core.c:1449-1456 | There is one more close under way, and stays valid; exactly one byte is added if nothing was pending before, none otherwise, and nothing else changes. |
| `EventData.Context.RetireClose` | libusb/src/main/jni/libusb/core.c:1464-1471 | A valid context stays valid: one close less, and exactly one byte less if nothing is pending any more, which the read finds; nothing else changes. |
| `EventData.Context.RefreshPollSet` | libusb/src/main/jni/libusb/io.c:2072-2109 | A valid context stays valid: the poll set is not modified afterwards, and exactly one byte is read if it was and nothing else is pending; the read finds it. |
| `EventData.Context.TurnDrainLoop` | libusb/src/main/jni/libusb/io.c:2156-2179 | With the byte that poll found, a valid context stays valid: a completed transfer is taken and the byte left, or exactly one byte is read if nothing is pending; the read finds it. |
| `EventData.Context.TakeHotplugMessage` | libusb/src/main/jni/libusb/io.c:2156-2162 | A valid context stays valid: exactly one message is taken if there is one, which is returned; nothing else changes. |
| `Transfers.AcceptedSubmissionsBalanceCallbacks` | libusb/src/main/jni/libusb/io.c:1625-1666 | In every run in which no store of the timeout mark loses anything (exactly those of `LosesNothingIff`), and for every transfer: accepted submissions = callbacks + (1 if the backend still owns it) + (1 if its completion is under way). So each successful submit has at most one callback, and has it unless one of the other two still holds. |
| `Transfers.SettledTransferHoldsNothing` | libusb/src/main/jni/libusb/io.c:1468-1529 | In every such run a transfer nobody works on holds no device reference, is on no list and has had all its callbacks. |
| `Transfers.FailedSubmitIsUndone` | libusb/src/main/jni/libusb/io.c:1487-1529 | In every such run a transfer that enters a submit not in flight, and leaves it without a submission having been accepted, is at both ends on no list, not with the backend, and holds no device reference but that of a completion that has yet to drop its own. |
| `Transfers.StepAccepts` | libusb/src/main/jni/libusb/io.c:1503-1517 | No step but an accepted submission, or a store that loses something, puts a transfer in flight. |
| `Transfers.BackendAskedOnce` | libusb/src/main/jni/libusb/io.c:1545-1578 | In every such run the backend is asked to cancel at most once for each accepted submission, by all threads and timeouts together; a cancellation that can reach it now is the first of its submission. |
| `Transfers.LosesNothingIff` | libusb/src/main/jni/libusb/io.c:1949-1962 | The mark of a timeout is loaded and stored without the lock of the flags. No such store of a run loses what another thread has written if and only if, between every load and its store, no submit of the transfer makes its flag update and no cancellation of it reaches the backend. |
| `Transfers.MarkLosesIff` | libusb/src/main/jni/libusb/io.c:1955 | The first store of a run that undoes something is exactly the first with such a step since its load. |
| `Transfers.StampLosesNothing` | libusb/src/main/jni/libusb/io.c:1957-1958 | The second unlocked store, behind a successful cancellation, is never the first to lose something. |
| `Transfers.OthersTouch` | libusb/src/main/jni/libusb/libusbi.h:427-429 | While the pass has a listed transfer in hand, a flag update of its submit and a cancellation that reaches the backend show in its flags, and no other step of the other threads changes them. |
| `Transfers.LostInFlight` | libusb/src/main/jni/libusb/io.c:1503-1517 | For every thread, transfer and handle there is a run in which such a store takes back the mark of being in flight: the disconnect of the handle has been dealt with, while the backend keeps the transfer and its callback never came. |
| `Transfers.ListedTwice` | libusb/src/main/jni/libusb/io.c:1478-1491 | There is one in which the transfer, submitted once more, is on the flying list twice. |
| `Transfers.AskedTwice` | libusb/src/main/jni/libusb/io.c:1955-1956 | There is one in which the backend is asked twice to cancel a submission. |
| `Transfers.FlyingListIsSound` | libusb/src/main/jni/libusb/io.c:1369-1453 | In every run in which no store loses anything no transfer is on the flying list twice, and every transfer in flight is listed until its completion begins. |
| `Transfers.RemovedIsListed` | libusb/src/main/jni/libusb/io.c:1439-1453 | In every such run what is taken off the list is on it, once, and nothing else leaves it. |
| `Transfers.OthersKeepList` | libusb/src/main/jni/libusb/io.c:1439-1453 | Only a failing submit and the beginning of a completion take a transfer off the list, and only a submit of it adds one. |
| `Transfers.LockKeepsOthersOut` | libusb/src/main/jni/libusb/io.c:1475-1545 | While a submit holds the lock of a transfer no other thread asks the backend to cancel it, takes it back or moves the submit on. |
| `Transfers.DisconnectLeavesNothingInFlight` | libusb/src/main/jni/libusb/io.c:2734-2783 | In every such run, once a disconnect has been dealt with, no transfer of the handle is in flight then or later; the backend owns one only until the submit that is just returning takes it back; and a transfer nobody works on has had all its callbacks and holds no reference. |
| `Transfers.DisconnectLoopTerminates` | libusb/src/main/jni/libusb/io.c:2753-2782 | In every such run the disconnect loop takes back at most as many transfers as the backend owned when the device went away, even if callbacks resubmit. |
| `Transfers.OwnedShrinks` | libusb/src/main/jni/libusb/io.c:2753-2782 | After the disconnect no step of any thread gives the backend another transfer of the handle, and each turn of the loop takes one away. |
| `Transfers.RunInv` | libusb/src/main/jni/libusb/io.c:1468-1666 | The per-transfer accounting (list, callbacks, cancellations, references, flags) holds after every step of every interleaving in which no store loses anything. |
| `Transfers.StepInv` | libusb/src/main/jni/libusb/io.c:1468-1666 | One step of submit, cancel, timeout, completion or disconnect keeps it, unless it is a store that loses something. |
| `Transfers.ScannedIsGrounded` | libusb/src/main/jni/libusb/io.c:1508-1526 | A transfer that the disconnect scan marks as disappeared, or finds off the list, can no longer become in flight. |
| `Transfers.WithoutKeeps` | libusb/src/main/jni/libusb/io.c:1439-1453 | Removing a listed transfer removes it and nothing else. |
| `Transfers.PassStuckIff` | libusb/src/main/jni/libusb/io.c:1949-2015 | A timeout pass that wants the lock of a transfer, and holds the one of the list, never gets it in any continuation of any run if and only if a submit holds that lock and cannot end without the lock of the list. |
| `Transfers.PassCanBeStuck` | libusb/src/main/jni/libusb/io.c:1499-1527 | For every thread, transfer and handle there is a run into such a state: the backend refuses a submit while the timeout of the transfer is found due. |
| `Transfers.DoomedStep` | libusb/src/main/jni/libusb/io.c:1949-2015 | No step of any thread ends that wait. |
| `Transfers.Escape` | libusb/src/main/jni/libusb/io.c:1545-1578 | Otherwise the submit, if any, can end and the pass go on. |
| `TransferTimeouts.TimedOutIff` | libusb/src/main/jni/libusb/io.c:1949-1962 | In every run in which no store loses anything a transfer is marked as timed out if and only if, since a submit last cleared its flags, the cancellation of a timeout pass reached the backend and returned 0 and the pass then made its second store; so the mark stays up to the completion and the next submit. |
| `TransferTimeouts.StepTimesOut` | libusb/src/main/jni/libusb/io.c:1957-1958 | In one step: the mark is set by the second store and cleared by a submit that does not find the transfer busy, and nothing else touches it. |
| `TransferTimeouts.HandledIff` | libusb/src/main/jni/libusb/io.c:1955 | In the same way a timeout counts as handled if and only if a pass has made its first store since. |
| `TransferTimeouts.HandledOnce` | libusb/src/main/jni/libusb/io.c:1990-2001 | Between two passes that handle the timeout of one transfer a submit has cleared its flags. |
| `TransferTimeouts.CallbackIsTold` | libusb/src/main/jni/libusb/io.c:1676-1683 | The callback of a cancelled transfer is told of a timeout if and only if a pass had cancelled and marked it when its completion began; otherwise of a cancellation. One whose device has gone is told so, and one that was not cancelled gets the result of the backend. |
| `TransferTimeouts.TimeoutToldAsCancelled` | libusb/src/main/jni/libusb/io.c:1956-1958 | For every thread, transfer and handle there is a run in which a pass cancels a transfer for its timeout, and the completion begins before the mark: the callback is told of a cancellation. |
| `TransferProgress.EverythingCanSettle` | libusb/src/main/jni/libusb/io.c:1468-1666 | From every state of a run in which no store has lost anything, unless a timeout pass has a transfer in hand, the threads can go on until all functions have returned, every disconnect is dealt with and every accepted submission has had its callback. The lemma returns such a path. |
| `TransferProgress.SomeoneGoesOn` | libusb/src/main/jni/libusb/io.c:2753-2782 | In every such state that is not at rest some thread has a step after which less is left to do, whoever holds which lock. |
| `TransferProgress.ActiveIsNotGone` | libusb/src/main/jni/libusb/io.c:2734-2783 | Once the disconnects are dealt with and the submits have returned, the backend owns no transfer of a device that is gone. |
| `TransferProgress.CanReachIff` | libusb/src/main/jni/libusb/io.c:1475-1505 | A submit can go on exactly so: it is listed only if the transfer is not in flight, the clock may fail, the backend may refuse at any time and accept exactly as long as the device is there. |
| `FlyingList.Context.Add` | libusb/src/main/jni/libusb/io.c:1369-1433 | The list stays sorted by timeout, infinite timeouts last, and the transfer is placed stably: behind all entries not later than it, before all others; the ring of list entries behind the head keeps the same order. |
| `FlyingList.Context.Remove` | libusb/src/main/jni/libusb/io.c:1439-1453 | Exactly the given entry leaves the list and its ring, which stay sorted. |
| `FlyingList.Context.HandleTimeouts` | libusb/src/main/jni/libusb/io.c:1964-2004 | The scan that stops early equals a pass over the whole list that cancels exactly the due transfers; without a clock nothing changes and its error is returned. |
| `FlyingList.Context.GetNextTimeout` | libusb/src/main/jni/libusb/io.c:2510-2565 | Returns 0 if no finite timeout is unhandled, otherwise 1 and the time until the minimum of all of them. |
| `FlyingList.ExpiredIffDue` | libusb/src/main/jni/libusb/io.c:2557-2559 | The answer is "at once" exactly if a timeout pass has something to do. |
| `FlyingList.PassLeavesNothingDue` | libusb/src/main/jni/libusb/io.c:1980-2003 | Right after a pass no caller is told to come back at once, whatever the backend answered to the cancellations. |
| `FlyingList.PassKeeps` | libusb/src/main/jni/libusb/io.c:1949-2004 | A pass keeps the order and leaves nothing due. |
| `FlyingList.NothingDueFrom` | libusb/src/main/jni/libusb/io.c:1986-1998 | Behind an infinite or a future timeout nothing is due, which justifies the early exits. |
| `FlyingList.FirstAwaited` | libusb/src/main/jni/libusb/io.c:2530-2542 | The first unhandled finite entry has the minimum of all unhandled timeouts. |
| `FlyingList.Transfer.CalculateTimeout` | libusb/src/main/jni/libusb/io.c:1204-1230 | The deadline is the clock plus the milliseconds, normalized; unchanged if there is no timeout or the clock fails. |
| `FlyingList.DeadlineAsRequested` | libusb/src/main/jni/libusb/io.c:1204-1212 | A transfer has a deadline exactly if one was asked for, if and only if a timeout is asked for now or none was left from before. |
| `FlyingList.StaleDeadline` | libusb/src/main/jni/libusb/io.c:1204-1212 | A concrete resubmission without timeout that keeps the previous deadline. |
| `FlyingList.Transfer.Cancel` | libusb/src/main/jni/libusb/io.c:1545-1578 | Asks the backend exactly if the transfer is in flight and not yet cancelling; then it is cancelling, and disappeared if the device is gone; no other flag changes. |
| `FlyingList.Transfer.HandleTimeout` | libusb/src/main/jni/libusb/io.c:1949-1962 | The timeout is not awaited any more; the transfer is timed out exactly if this cancellation succeeded or it was before; no flags change but these and those of the cancellation. |
| `FlyingList.Minus` | libusb/src/main/jni/libusb/io.c:2561 | The difference of two times, normalized. |
| `ListHead.Entry.constructor` | libusb/src/main/jni/libusb/libusbi.h:112-115 | A ring of one. |
| `ListHead.ListEmpty` | libusb/src/main/jni/libusb/libusbi.h:110 | True exactly if the head is alone in its ring. |
| `ListHead.ListAdd` | libusb/src/main/jni/libusb/libusbi.h:117-124 | The ring gains the entry directly behind the head. |
| `ListHead.ListAddTail` | libusb/src/main/jni/libusb/libusbi.h:126-134 | The ring gains the entry directly before the head, that is at its end or before an element. |
| `ListHead.ListDel` | libusb/src/main/jni/libusb/libusbi.h:136-141 | The ring loses exactly this entry, whose links become null. |
| `ListHead.WalkMeetsAll` | libusb/src/main/jni/libusb/libusbi.h:99-102 | Following `next` from any entry visits the rest of the ring in order and returns to the head. |
| `ListHead.AddThenDelete` | libusb/src/main/jni/libusb/libusbi.h:117-141 | Adding an entry and deleting it again leaves the ring, and so all its links, as before. |
| `ListHead.RingFixesLinks` | libusb/src/main/jni/libusb/libusbi.h:78-80 | A ring determines both links of each of its entries. |
| `ListHead.Link` | libusb/src/main/jni/libusb/io.c:1380-1408 | The three ways of insertion into the flying list, done on the ring: the entry comes to the given place in the sequence behind the head. |
| `ListHead.Unlink` | libusb/src/main/jni/libusb/io.c:1439-1453 | The removal, done on the ring: the entry leaves the sequence behind the head. |
| `ExactFft.FixFft` | rtlsdr/src/main/jni/src/rtl_power.c:260-316 | In exact arithmetic for every n = 2^m up to the table size the loops leave in place the discrete Fourier transform of the original array (its defining sum) divided by n; a larger n returns -1 and changes nothing. |
| `ExactFft.Stages` | rtlsdr/src/main/jni/src/rtl_power.c:287-314 | The loop over the stages carries every sample through m stages, for any property that the butterflies carry on. |
| `ExactFft.Stage` | rtlsdr/src/main/jni/src/rtl_power.c:290-311 | The loop over the table entries treats every sample once per stage. |
| `ExactFft.Sweep` | rtlsdr/src/main/jni/src/rtl_power.c:298-310 | The innermost loop treats exactly the samples at one offset of every block. |
| `ExactFft.CombinePair` | rtlsdr/src/main/jni/src/rtl_power.c:299-309 | One turn is one butterfly with the halved twiddle factor; all other samples stay. |
| `ExactFft.TableIndexInRange` | rtlsdr/src/main/jni/src/rtl_power.c:292-293 | The index m << k stays in the first half of the period. |
| `ExactFft.TableIndex` | rtlsdr/src/main/jni/src/rtl_power.c:292-295 | The entry that it selects is the twiddle factor of the stage. |
| `ExactFft.OneBitTable` | rtlsdr/src/main/jni/src/rtl_power.c:236-250 | For LOG2_N_WAVE == 1 the table serves its sine 0 as cosine, and either coefficient is right exactly if the second sample is zero. |
| `BitReversal.Reorder` | rtlsdr/src/main/jni/src/rtl_power.c:268-286 | Afterwards sample q is the one that was at the bit reversal of q. |
| `BitReversal.NextReversed` | rtlsdr/src/main/jni/src/rtl_power.c:272-276 | The do-while and the mask add one to the reversed counter. |
| `BitReversal.RevIncrementIsNext` | rtlsdr/src/main/jni/src/rtl_power.c:268-276 | Adding one in reverse leads from the reversal of i to that of i + 1. |
| `BitReversal.RevInvolution` | rtlsdr/src/main/jni/src/rtl_power.c:277-285 | Bit reversal is its own inverse. |
| `BitReversal.ReorderStep` | rtlsdr/src/main/jni/src/rtl_power.c:277-285 | Exchanging only when mr > m exchanges every pair once. |
| `BitReversal.Exchange` | rtlsdr/src/main/jni/src/rtl_power.c:280-285 | Two complex samples change places, all others stay. |
| `Dft.TransformedIsCoefficient` | rtlsdr/src/main/jni/src/rtl_power.c:287-314 | The recursive even/odd transform with halving, scaled by n, equals the sum over j of a[j] w^(jk). |
| `Dft.Butterfly` | rtlsdr/src/main/jni/src/rtl_power.c:299-309 | In the array between two stages, a butterfly of the samples i and i + 2^s gives both their values after the next stage. |
| `Dft.StartsReversed` | rtlsdr/src/main/jni/src/rtl_power.c:268-286 | The array before the first stage is the input in bit-reversed order. |
| `FftLoops.NextPair` | rtlsdr/src/main/jni/src/rtl_power.c:298-299 | The pairs of a stage partition the indices: the inner loop treats i and i + l next, neither treated before, and no others. |
| `FftLoops.PairReady` | rtlsdr/src/main/jni/src/rtl_power.c:298-299 | The partner is inside the array and neither of the two has been treated in this stage. |
| `FftLoops.PairDone` | rtlsdr/src/main/jni/src/rtl_power.c:298-310 | With the pair carried on, the loops have made one turn and no other sample has changed its stage. |
| `FixFft.FixFft` | rtlsdr/src/main/jni/src/rtl_power.c:260-316 | For samples in the disc of radius 32767 - 3m and a table on or within the circle of radius 32768 no assignment overflows int16; with table entries within two units of the sines every result is within 4m of the DFT coefficient divided by n. |
| `FixFft.CombinePair` | rtlsdr/src/main/jni/src/rtl_power.c:299-309 | The butterfly on int16 values, each assignment shown to fit. |
| `FixFft.Sweep` | rtlsdr/src/main/jni/src/rtl_power.c:298-310 | The innermost loop, for any property that its butterflies carry on and that keeps them in range. |
| `FixFft.Stage` | rtlsdr/src/main/jni/src/rtl_power.c:290-311 | The loop over the table entries of a stage. |
| `FixFft.Stages` | rtlsdr/src/main/jni/src/rtl_power.c:287-314 | The loop over the stages. |
| `FixFft.GrowingButterfly` | rtlsdr/src/main/jni/src/rtl_power.c:299-309 | One stage widens the disc by less than 3 and all intermediate values fit in 16 bits. |
| `FixFft.TrackingButterfly` | rtlsdr/src/main/jni/src/rtl_power.c:299-309 | One stage adds less than 4 to the distance from the exact values. |
| `FixFft.FourPointTable` | rtlsdr/src/main/jni/src/rtl_power.c:236-250 | The table for four points meets the assumptions about tables. |
| `FixedPoint.FixMpyRounds` | rtlsdr/src/main/jni/src/rtl_power.c:252-258 | FIX_MPY is within one half of the product divided by 32768 when one factor was halved. |
| `FixedPoint.ButterflyError` | rtlsdr/src/main/jni/src/rtl_power.c:294-309 | The rounding errors of one butterfly add up to less than 3. |
| `FixedPoint.ButterflyGrowth` | rtlsdr/src/main/jni/src/rtl_power.c:294-309 | Samples within radius r are within r + 3 afterwards, and so are the products on the way. |
| `FixedPoint.ButterflyDrift` | rtlsdr/src/main/jni/src/rtl_power.c:294-309 | The distance from the exact butterfly grows by less than 4. |
| `DescriptorParser.ParseDescriptor` | libusb/src/main/jni/libusb/descriptor.c:45-93 | The little-endian fields of a format and the number of bytes that it takes. |
| `DescriptorParser.WordField` | libusb/src/main/jni/libusb/descriptor.c:59-70 | A field `w` takes two bytes and is their little-endian word. |
| `DescriptorParser.DoubleWordField` | libusb/src/main/jni/libusb/descriptor.c:71-83 | A field `d` takes four bytes and is their little-endian double word. |
| `DescriptorParser.SkipExtra` | libusb/src/main/jni/libusb/descriptor.c:138-167 | The loop over class specific descriptors finds where they end, or a cut-off or impossible one. |
| `DescriptorParser.ParseEndpoint` | libusb/src/main/jni/libusb/descriptor.c:101-189 | Returns code, consumed length and endpoint as specified for every buffer, reading only inside it. |
| `DescriptorParser.ParseEndpoints` | libusb/src/main/jni/libusb/descriptor.c:323-346 | The endpoints of one alternate setting, up to the announced number. |
| `DescriptorParser.ParseSetting` | libusb/src/main/jni/libusb/descriptor.c:231-346 | One alternate setting, with the parser's way out behind a cut-off descriptor. |
| `DescriptorParser.ParseInterface` | libusb/src/main/jni/libusb/descriptor.c:216-360 | All consecutive alternate settings with the number of the first. |
| `DescriptorParser.ParseTurn` | libusb/src/main/jni/libusb/descriptor.c:421-483 | Extra descriptors and the next interface of a configuration; only the first run of extra bytes is kept. |
| `DescriptorParser.ParseInterfaces` | libusb/src/main/jni/libusb/descriptor.c:421-486 | The interfaces of a configuration, up to the announced number. |
| `DescriptorParser.ParseConfiguration` | libusb/src/main/jni/libusb/descriptor.c:375-491 | A negative code, or the bytes left over and the tree, for every buffer. |
| `Descriptors.ConfigAt` | libusb/src/main/jni/libusb/descriptor.c:375-491 | Never more left over than there was; failures are negative. |
| `Descriptors.EndpointAt` | libusb/src/main/jni/libusb/descriptor.c:101-189 | A parsed endpoint takes at least one byte and at most the buffer. |
| `DescriptorTheorems.ConfigAccounting` | libusb/src/main/jni/libusb/descriptor.c:421-486 | On arbitrary bytes: either a negative code, or the consumed length is the sum of the `bLength` fields of whole consecutive descriptors, and there are as many interfaces as the count says. |
| `DescriptorTheorems.EndpointCount` | libusb/src/main/jni/libusb/descriptor.c:280-346 | The endpoint count equals the endpoints filled in if and only if no class specific descriptor behind the interface is cut short while endpoints are announced. |
| `DescriptorTheorems.EndpointCounts` | libusb/src/main/jni/libusb/descriptor.c:231-356 | Within an interface only the last alternate setting can have a wrong count. |
| `DescriptorRoundTrip.ParseUndoesWrite` | libusb/src/main/jni/libusb/descriptor.c:375-491 | Parsing a serialized well-formed configuration, followed by bytes that cannot belong to it, returns the same tree and leaves exactly those bytes. |
| `DescriptorRoundTrip.NothingLeftOver` | libusb/src/main/jni/libusb/descriptor.c:375-491 | Parsing the serialization alone leaves nothing over. |
| `DescriptorRoundTrip.InterfacesRoundTrip` | libusb/src/main/jni/libusb/descriptor.c:421-486 | The same for any sequence of interfaces with different consecutive numbers. |
| `DescriptorRoundTrip.SettingsRoundTrip` | libusb/src/main/jni/libusb/descriptor.c:216-360 | The same for the alternate settings of one interface. |
| `DescriptorRoundTrip.SettingRoundTrip` | libusb/src/main/jni/libusb/descriptor.c:231-346 | The same for one alternate setting. |
| `DescriptorRoundTrip.EndpointRoundTrip` | libusb/src/main/jni/libusb/descriptor.c:101-189 | The same for one endpoint of 7 or 9 bytes with extra descriptors. |
| `DescriptorRoundTrip.CountWithoutEndpoints` | libusb/src/main/jni/libusb/descriptor.c:283-296 | A concrete configuration whose endpoint count is 1 although no endpoint was filled in. |
| `DescriptorRoundTrip.BulkDevice` | libusb/src/main/jni/libusb/descriptor.c:375-491 | The parse of a device with one bulk endpoint, byte by byte. |
| `DescriptorRoundTrip.AudioDevice` | libusb/src/main/jni/libusb/descriptor.c:375-491 | The parse of an audio device with class specific descriptors, two alternate settings and an endpoint of nine bytes, byte by byte. |
| `DescriptorRoundTrip.Refused` | libusb/src/main/jni/libusb/descriptor.c:388-405 | A configuration that is cut short, too small, of another type or with more than 32 interfaces gives the code -1. |
| `DescriptorRoundTrip.SettingRefused` | libusb/src/main/jni/libusb/descriptor.c:234-275 | So does an interface that is too small or has more than 32 endpoints; the interfaces end exactly at bytes that are too few, of another type or cut short. |
| `DescriptorRoundTrip.EndpointRefused` | libusb/src/main/jni/libusb/descriptor.c:110-135 | So does an endpoint that is too small or has no header; the endpoints end exactly at another type or a descriptor cut short. |
| `R82xxRegisters.RunKeepsCoherent` | rtlsdr/src/main/jni/src/tuner_r82xx.c:235-302 | After any run of successful writes within the window, from a coherent start, every cached register equals that of the chip. |
| `R82xxRegisters.WriteKeepsCoherent` | rtlsdr/src/main/jni/src/tuner_r82xx.c:235-287 | After a write of which the chip took only the first bytes, the shadow is coherent if and only if the chip already held the others. |
| `R82xxRegisters.FullWriteMakesCoherent` | rtlsdr/src/main/jni/src/tuner_r82xx.c:1305-1306 | The full write at initialization makes the shadow coherent, whatever it held. |
| `R82xxRegisters.WriteFromBelow` | rtlsdr/src/main/jni/src/tuner_r82xx.c:235-250 | A write that starts below the window keeps the shadow coherent if and only if the bytes it copies happen to equal the ones it should copy. |
| `R82xxRegisters.MaskedBits` | rtlsdr/src/main/jni/src/tuner_r82xx.c:312 | Masked bits become those of the value, all others stay. |
| `R82xxRegisters.Tuner.ShadowStore` | rtlsdr/src/main/jni/src/tuner_r82xx.c:235-250 | The shadow gets the bytes that fall into the window, clipped at both ends. |
| `R82xxRegisters.Tuner.Write` | rtlsdr/src/main/jni/src/tuner_r82xx.c:252-287 | Split into messages, a successful write equals one unsplit write; it succeeds exactly if every message is acknowledged in full; a failed one leaves a prefix on the chip. |
| `R82xxRegisters.Tuner.ReadCacheReg` | rtlsdr/src/main/jni/src/tuner_r82xx.c:294-302 | From a coherent cache the value is that of the chip. |
| `R82xxRegisters.Tuner.WriteRegMask` | rtlsdr/src/main/jni/src/tuner_r82xx.c:304-315 | A masked write changes exactly one register, in cache and chip, to the masked combination, and keeps them coherent. |
| `R82xxPll.NeverDividesByZero` | rtlsdr/src/main/jni/src/tuner_r82xx.c:513-522 | No fraction makes the loop divide by zero if and only if `pll_ref_khz` < 32768. |
| `R82xxPll.WordReconstructs` | rtlsdr/src/main/jni/src/tuner_r82xx.c:513-522 | For such crystals the word does not overflow and reproduces the fraction to within 15 kHz below and 2 kHz above. |
| `R82xxPll.ModulateTracks` | rtlsdr/src/main/jni/src/tuner_r82xx.c:513-522 | From any step on: the word tracks the total within the kHz lost by rounding so far. |
| `R82xxPll.TwoKilohertz` | rtlsdr/src/main/jni/src/tuner_r82xx.c:513-522 | With a faster crystal a fraction of 2 kHz runs into the division by zero. |
| `R82xxPll.EndsInTime` | rtlsdr/src/main/jni/src/tuner_r82xx.c:513-522 | If the last step takes at most one kHz the loop ends before the 16-bit `n_sdm` becomes 0. |
| `R82xxPll.SigmaDelta` | rtlsdr/src/main/jni/src/tuner_r82xx.c:513-522 | The loop with its 16-bit variables computes the word of the recursive specification, or divides by zero. |
| `R82xxPll.FindDivider` | rtlsdr/src/main/jni/src/tuner_r82xx.c:455-467 | A divider is found exactly for 27657 to 1769999 kHz; then the oscillator is in range and `div_num` is the logarithm. |
| `R82xxPll.Synthesize` | rtlsdr/src/main/jni/src/tuner_r82xx.c:487-522 | For a crystal below 32.7675 MHz: no crash, and the values are valid if and only if the 8-bit `nint` is at most 128 / vco_power_ref - 1, that is, below 512 times the crystal, if and only if the oscillator is below 128 / vco_power_ref times twice the crystal; then nint is the quotient, ni and si its parts, and nint + sdm / 65536 reproduces the frequency. |
| `R82xxPll.SetPll` | rtlsdr/src/main/jni/src/tuner_r82xx.c:433-522 | From the frequency to the synthesizer values: the same equivalence for the oscillator that the divider search chose; for valid values nint + sdm / 65536 is within -4 and 16 kHz of it. |
| `RtlFm.DemodState.LowPass` | rtlsdr/src/main/jni/src/rtl_fm.c:302-322 | In place, the block becomes the output of the step function run over it, and the carried state is its final state. |
| `RtlFm.DemodState.LowPassReal` | rtlsdr/src/main/jni/src/rtl_fm.c:340-360 | The same for the fractional decimator. |
| `RtlFm.GenericFir` | rtlsdr/src/main/jni/src/rtl_fm.c:393-416 | The same for the droop filter on every other element; the elements between stay. |
| `RtlFm.LowPassInBlocksOrAtOnce` | rtlsdr/src/main/jni/src/rtl_fm.c:302-322 | However the stream is cut into blocks of even length, calling the method for one block after the other puts out what one call does for the whole stream, and leaves the same state. |
| `RtlFm.LowPassRealInBlocksOrAtOnce` | rtlsdr/src/main/jni/src/rtl_fm.c:340-360 | The same for the fractional decimator and any blocks; the number of outputs is floor((prev + N slow) / fast). |
| `RtlFm.DroopInBlocksOrAtOnce` | rtlsdr/src/main/jni/src/rtl_fm.c:742-747 | The same for the droop filter on both interleaved channels, with the histories. |
| `RtlFm.Droop` | rtlsdr/src/main/jni/src/rtl_fm.c:742-747 | The two calls filter one channel each and leave the other alone. |
| `RtlFm.LowPassSums` | rtlsdr/src/main/jni/src/rtl_fm.c:302-322 | The output consists of the sums over consecutive windows of the input. |
| `RtlFm.WindowSumAt` | rtlsdr/src/main/jni/src/rtl_fm.c:302-322 | Window k is the one that begins at sample k d. |
| `RtlFm.LowPassRealCount` | rtlsdr/src/main/jni/src/rtl_fm.c:340-360 | A block gives exactly floor((prev + N slow) / fast) outputs. |
| `RtlFm.LowPassRealBalance` | rtlsdr/src/main/jni/src/rtl_fm.c:340-360 | Carried phase plus what was put out equals carried phase plus what came in. |
| `RtlFm.FirIsConvolution` | rtlsdr/src/main/jni/src/rtl_fm.c:393-416 | Output n is the sum over nine consecutive samples of history and stream, from sample n on, weighted with the taps of a table row, divided by 32768, rounded down and cut to 16 bits. |
| `RtlFm.FirIsWeighted` | rtlsdr/src/main/jni/src/rtl_fm.c:400-405 | The folded sum is that of the nine taps, of which the table row holds one half and the middle. |
| `RtlFm.RowsAreTaps` | rtlsdr/src/main/jni/src/rtl_fm.c:259-271 | In each of the ten rows of the table the nine numbers behind the length are the taps: the same from both ends. |
| `RtlFm.LowPassRealSums` | rtlsdr/src/main/jni/src/rtl_fm.c:340-360 | Output k is the sum of the samples from where it begins to where the next one begins, the first one with what was carried over, divided by fast / slow towards zero and cut to 16 bits. |
| `Adsb.Manchester` | rtlsdr/src/main/jni/src/rtl_adsb.c:262-307 | Ends for every buffer and settings for which some number of turns reaches the end; the buffer then holds what those turns leave and, with at least one allowed error, what a decoder reading an untouched copy of the magnitudes would write. |
| `Adsb.EndsIff` | rtlsdr/src/main/jni/src/rtl_adsb.c:272-306 | For every number of allowed errors the outer loop ends if and only if it never stalls: no errors allowed, quality not 0 or 5, within the last 16 samples, a bad first pair whose second magnitude is 255. |
| `Adsb.EndsUnless255` | rtlsdr/src/main/jni/src/rtl_adsb.c:272-306 | So it ends if an error is allowed, or quality is 0 or 5, or none of the last 15 magnitudes is 255. |
| `Adsb.EndsOnMagnitudes` | rtlsdr/src/main/jni/src/rtl_adsb.c:162-183 | It ends on every buffer of sums of two squares, which are the only magnitudes there are, for all settings. |
| `Adsb.TurnUnreadIff` | rtlsdr/src/main/jni/src/rtl_adsb.c:284-305 | A turn leaves all unread magnitudes alone if and only if it does not, with no errors allowed, mark a bad first pair whose first magnitude is not 255. |
| `Adsb.NothingClobberedIff` | rtlsdr/src/main/jni/src/rtl_adsb.c:272-306 | No unread magnitude is overwritten in the whole run if and only if no turn does so. |
| `Adsb.TurnsAreCopyTurns` | rtlsdr/src/main/jni/src/rtl_adsb.c:272-306 | Up to the first such turn the decoder in place and the one with the copy are in the same states. |
| `Adsb.InPlaceIsCopy` | rtlsdr/src/main/jni/src/rtl_adsb.c:272-306 | With at least one allowed error both end alike. |
| `Adsb.SilenceDiffers` | rtlsdr/src/main/jni/src/rtl_adsb.c:272-306 | On any silent buffer of two or more samples, without allowed errors and at the usual quality, the decoder in place ends and the one with the copy does not. |
| `Adsb.Mark` | rtlsdr/src/main/jni/src/rtl_adsb.c:284-305 | The second inner loop does what marking from the untouched magnitudes would, for any number of allowed errors; with at least one no unread magnitude has been overwritten. |
| `Adsb.SearchPreamble` | rtlsdr/src/main/jni/src/rtl_adsb.c:270-282 | The first inner loop finds the preamble that searching the untouched magnitudes would, and overwrites none that is unread. |
| `Adsb.Preamble` | rtlsdr/src/main/jni/src/rtl_adsb.c:236-260 | Found exactly if every pulse is higher than the gaps around it and the first is not zero. |
| `Adsb.PreambleShape` | rtlsdr/src/main/jni/src/rtl_adsb.c:242-257 | The same in the sixteen places: pulses at 0, 2, 7 and 9. |
| `Adsb.SingleManchester` | rtlsdr/src/main/jni/src/rtl_adsb.c:185-224 | The order of the second pair, or a bad sample; it is good at quality 10 if and only if its samples reach to the other side of b than a is, at 5 unless equal bits fail to, at any other but 0 if and only if each pair reaches above the lower sample of the other. |
| `Adsb.DecodesCleanBits` | rtlsdr/src/main/jni/src/rtl_adsb.c:284-305 | Every bit of a two-level Manchester-encoded message is decoded in order, at every quality setting. |
| `Adsb.FrameDecoded` | rtlsdr/src/main/jni/src/rtl_adsb.c:270-305 | One turn over a buffer that ends with a preamble and a two-level message: everything before stays, the sixteen samples of the preamble become 253, then come the bits, and the rest becomes 254. |
| `Eeprom.StoreAndLoad` | rtlsdr/src/main/jni/src/rtl_eeprom.c:92-175 | Generating, writing (skipping equal bytes), reading and parsing returns the configuration with flags as 0 and 1; a fitting configuration fails only through the bus. |
| `Eeprom.ImageRoundTrip` | rtlsdr/src/main/jni/src/rtl_eeprom.c:132-175 | Parsing the image of a configuration that fits returns it; an error is printed exactly if the final zero at 78 falls on the marker of an empty string. |
| `Eeprom.ImageHeader` | rtlsdr/src/main/jni/src/rtl_eeprom.c:152-166 | The image byte by byte, in numbers: nine bytes of header with the flags in bits 1 and 0 of byte 7 and bits 4 and 2 set, and a zero at 78. |
| `Eeprom.ImageString` | rtlsdr/src/main/jni/src/rtl_eeprom.c:109-130 | The three string descriptors begin at 9 and behind each other: length, type 3, and each character with a zero behind it. |
| `Eeprom.ImageKeepsRest` | rtlsdr/src/main/jni/src/rtl_eeprom.c:152-175 | Everything behind the strings but byte 78 is as before. |
| `Eeprom.GenEepromFromConf` | rtlsdr/src/main/jni/src/rtl_eeprom.c:152-175 | Success is reported exactly for configurations that fit, and the buffer then holds their image. |
| `Eeprom.ParseEepromToConf` | rtlsdr/src/main/jni/src/rtl_eeprom.c:132-150 | The configuration and whether an error is printed, for any 256 bytes; or that it would read outside them. |
| `Eeprom.SetStringDescriptor` | rtlsdr/src/main/jni/src/rtl_eeprom.c:109-130 | Succeeds exactly if there is room, writes exactly the descriptor and returns the position behind it. |
| `Eeprom.GetStringDescriptor` | rtlsdr/src/main/jni/src/rtl_eeprom.c:92-107 | The characters and the position behind, for any data. |
| `Eeprom.Device.WriteEeprom` | rtlsdr/src/main/jni/src/librtlsdr.c:823-859 | On success exactly the given bytes are patched in; on failure a prefix of them. |
| `Eeprom.Device.ReadEeprom` | rtlsdr/src/main/jni/src/librtlsdr.c:861-884 | Exactly the requested bytes are read. |
| `Eeprom.Store` | rtlsdr/src/main/jni/src/rtl_eeprom.c:152-175 | What a successful store leaves on the chip is the image. |
| `Eeprom.Load` | rtlsdr/src/main/jni/src/rtl_eeprom.c:132-150 | Loading parses what is on the chip. |
| `Resampler.SetSampleRate` | rtlsdr/src/main/jni/src/librtlsdr.c:1091-1117 | Accepts exactly the documented rates; the resulting rate is the requested one if and only if the two high bits of the ratio agree. |
| `Resampler.RateExact` | rtlsdr/src/main/jni/src/librtlsdr.c:1108-1117 | The masked and restored ratio gives back the rate if and only if 96 rate <= xtal < 128 rate (low rates) or xtal < 32 rate (high rates). |
| `Resampler.NominalCrystal` | rtlsdr/src/main/jni/src/librtlsdr.c:1108-1117 | At 28.8 MHz this holds for every accepted rate. |
| `Resampler.DetunedCrystals` | rtlsdr/src/main/jni/src/librtlsdr.c:1108-1117 | At 28799999 Hz it fails for 300 kHz; at 28800128 Hz the ratio for 225001 Hz is cut to 0. |
| `E4000.ComputePllParams` | rtlsdr/src/main/jni/src/tuner_e4k.c:483-532 | In range, if z fits in 8 bits z and x are the two quotients and the tuned frequency is at most the intended one and short by less than (fosc / 65536 + 1) / r + 1 Hz; if not, the oscillator is not close. Three-phase mixing exactly below 350 MHz. |
| `E4000.CloseIffZFits` | rtlsdr/src/main/jni/src/tuner_e4k.c:508-521 | The oscillator set by the cut z and x is close to the intended one if and only if z <= 255; x always fits in 16 bits. |
| `E4000.ZTooLarge` | rtlsdr/src/main/jni/src/tuner_e4k.c:508-521 | At 16 MHz and just below 1.2 GHz z would be 299, and the oscillator is not close. |
| `E4000.LookUp` | rtlsdr/src/main/jni/src/tuner_e4k.c:497-504 | The divider of the first row above the frequency, three-phase mixing exactly below 350 MHz, and a register value that selects both: its low three bits the divider, bit 3 the mixing. |
| `E4000.ComputeFlo` | rtlsdr/src/main/jni/src/tuner_e4k.c:442-449 | The oscillator divided by r, rounded down, or the error code as an unsigned number. |
| `WorkPool.BuffersAreConserved` | app/src/main/jni/workpool.c:27-101 | In every run every allocated buffer is in exactly one of the two queues or the two hands, and there are never more than the maximum. |
| `WorkPool.SentIsPrefix` | app/src/main/jni/sdrtcp.c:117-153 | In every run the bytes sent are a prefix of the accepted blocks in feeding order. |
| `WorkPool.HeaderComesFirst` | app/src/main/jni/sdrtcp.c:247-259 | The first finished feed is the header, and the bytes on the wire begin with it. |
| `WorkPool.FeedAcceptedIff` | app/src/main/jni/sdrtcp.c:340-365 | A feed that starts in a state of any run is accepted in every continuation in which it ends, if and only if at its start an empty buffer is queued or one more may be allocated. |
| `WorkPool.FeedCanBeDropped` | app/src/main/jni/sdrtcp.c:340-365 | For every pool size, header and block there is a run from the start in which the feed of the block ends, reported like a success, without being accepted. |
| `WorkPool.AcceptedCanBeSent` | app/src/main/jni/sdrtcp.c:117-153 | From every state of any run in which the server serves and has cut nothing short it can go on until all that was accepted is sent. |
| `WorkPool.StopRequested` | app/src/main/jni/sdrtcp.c:323-337 | A stop can be requested in every state of any run, and from then on no block is sent in any continuation but the rest of the one in hand. |
| `WorkPool.SendCanFail` | app/src/main/jni/sdrtcp.c:131-150 | While a part of a buffer is unsent the client can fail to take it, and from then on nothing more is sent in any continuation. |
| `WorkPool.NextInv` | app/src/main/jni/sdrtcp.c:111-155 | Every step of producer, consumer or stage keeps conservation and order. |
| `WorkPool.RunInv` | app/src/main/jni/workpool.c:27-101 | So does every run. |
| `WorkPool.WorkPool.Pop` | app/src/main/jni/workpool.c:27-54 | The first buffer of a queue, or after a wait what has arrived meanwhile; nothing from an invalid pool. |
| `WorkPool.WorkPool.GetWaitLock` | app/src/main/jni/workpool.c:73-88 | Takes a queued buffer, else allocates one up to the maximum for queue 0, else waits or gives up. |
| `WorkPool.WorkPool.GetUnlock` | app/src/main/jni/workpool.c:90-101 | The buffer is appended to the next queue in the circle, emptied if that is the first; all other queues and the number of buffers stay. |
| `WorkPool.WorkPool.Free` | app/src/main/jni/workpool.c:114-139 | Every queued buffer is freed once and the pool is invalid afterwards. |
| `WorkPool.WorkPool.SetThreads` | app/src/main/jni/workpool.c:141-159 | A valid pool with so many empty queues; nothing for a number that is not positive. |
| `WorkPool.WorkPool.constructor` | app/src/main/jni/workpool.c:103-112 | An invalid pool without queues. |
| `ElementQueue.Queue.Add` | app/src/main/jni/queue.c:34-52 | The linked queue with its cached tail appends one payload to the sequence it stands for. |
| `ElementQueue.Queue.Pop` | app/src/main/jni/queue.c:54-70 | It returns and removes the first payload, or nothing if empty; the new head knows the tail. |
| `ElementQueue.Queue.constructor` | app/src/main/jni/queue.c:34-36 | An empty queue. |

## Left out

libusb:

- Transfers.DisconnectLeavesNothingInFlight: assumes that the backend refuses a submit once the handle is gone, completes a transfer at most once, and completes none after the disconnect.
- Transfers.FlyingListIsSound: `do_close()` with transfers still in flight and freeing a transfer in flight are application errors and not modelled.
- EventLoop.PathInv: of the functions that a callback can call only `libusb_close()` is modelled; errors of pipe writes, the per-thread guard against recursive event handling, and the timeout handling and error codes inside `handle_events()` beyond its control flow are not.
- EventLoop.PipeIsReadableWhilePending: says at least one byte, not one byte per reason; while the drain loop drops the lock the pipe can hold more bytes than one.
- EventLoop.SleepersCanBeWoken: says that the threads can run that way, not that a scheduler makes them.
- FlyingList.Context.Add: the scans go along the sequence of transfers, which the ring of list entries is shown to follow, instead of along the pointers (`ListHead.WalkMeetsAll` says that this is the same order).
- FlyingList.Transfer.HandleTimeout: one thread alone; what other threads can do between the loads and stores of the flags is in Transfers.
- Transfers.LosesNothingIff: each locked update of the flags is one step, so the unlocked store does not come in the middle of one; there it could also lose the mark of the timeout, the mark of submitting, which nothing reads, or that of a device that has disappeared under a cancellation, on which only a message depends.
- Transfers.PassStuckIff: whether the deadline of a transfer has passed is left open, so the walk may find any listed transfer due whose timeout has not been handled.
- TransferTimeouts.CallbackIsTold: of the results that a backend reports only success is told from a cancellation; that a short transfer can count as an error is left out.
- The timerfd branches, which are not compiled in this repository, and their error returns.
- Device reference counts are tracked for each transfer, not for each device.
- The argument `host_endian` of the descriptor parser, big-endian hosts, padding of the C structures and failing allocations.

FFT and filters:

- FixFft.FixFft: the sine table is an assumption, because `sin()` in floating point is not modelled; the copy of the transform in the application is the same code and not modelled again.
- RtlFm.DemodState.LowPassReal: requires 0 < rate_out2 <= rate_out; outside of that the code divides by zero or advances without bound.
- RtlFm.GenericFir: the 32-bit accumulators of the filters are unbounded integers here.
- Window functions, `fifth_order` and `remove_dc`.
- Adsb.Manchester: the buffer is not changed by the callback meanwhile, which in the program copies new samples into it without a lock.

Tuners:

- R82xxRegisters.Tuner.Write: the chip takes an acknowledged message and ignores any other; messages hold at least two bytes, and the register is at most 35, behind which the code would copy a negative length.
- R82xxPll.SetPll: the adjustment of `div_num` by the fine tuning that is read from the chip, the register writes and the check of the lock.
- Resampler.SetSampleRate: the quotients are exact before they are cut to integers; rounding of doubles is not modelled. The error for a missing device is left out.
- Gain tables, filter tables and the straight-line programming of registers.

TCP server:

- WorkPool.BuffersAreConserved: the queues are sequences here, which ElementQueue implements; freeing the pool while a thread holds a buffer, and the timing of the condition variables, are not modelled.
- WorkPool.SentIsPrefix: of the states of the server only opening, serving and stopped are kept; sockets and the command listener are left out.

EEPROM:

- Eeprom.Device.WriteEeprom: the reads on the bus, whose results the code does not check, are taken to succeed, and so is everything in reading; the error for a missing device is left out.
- Eeprom.ParseEepromToConf: reading behind the end of the data gives an outcome of its own; the strings of the caller are taken to be long enough.

Elsewhere: `rtlsdr_read_async()`, the Java and JNI parts, command lines and file output.
