# Verified model of the base logger

The logger collects records from any number of producers in a ring of 16 slots that overwrites its oldest record, and
one consumer thread writes them out. Channels are registered in a 64-bit bitmap and a pointer table while the logger is
idle. On the ChibiOS board a CAN receiver and an ADC callback are producers, the records leave as text over a serial
line, and `read.py` plots them.

The project models these pieces and joins them:

- `Ring`, `Words`, `Registry`, `Logger`: the buffer and `src/logger.c` as classes, one thread at a time, each method
  proved against a value specification: a keep-last queue, and a registry of bitmap, table and stored ids.
- `MicroLogger`: the same code as a state machine in which every assignment, test, lock, unlock, wait and signal of
  every thread is a step of its own; a semaphore with or without a token limit covers the POSIX and the ChibiOS form.
- `AtomicLogger`, `History`: the logger as a queue with atomic operations, and what all its runs do to the records.
- `Refinement`, `Liveness`, `Fairness`: every interleaving of `MicroLogger` is a run of `AtomicLogger`; wake-ups,
  stopping, mutual exclusion and defined behaviour at every reachable state; termination of infinite fair runs.
- `Calls`, `Tokens`, `Uninterrupted`: what callers hand to the logger is what reaches the log; signals, waits and empty
  tests balance; and each operation, run alone step by step, has the effect proved of the method in `Logger`.
- `CanChannel`, `AnalogChannel`, `Names`: the CAN credit, the borrowed DMA buffer and name resolution over the atomic
  logger; `CanInterleaved`, `AnalogInterleaved`, `NamesInterleaved` carry them to every interleaving of the code.
- `Serial`, `Text`, `RoundTrip`, `Monitor`, `EndToEnd`: printing, the reader's string functions against descriptions of
  their own, reading, plotting, and the way from the ADC to the plot.

A schedule is a sequence of labels. A label that is not enabled changes nothing, so statements about all schedules are
statements about all interleavings. The classes carry the operations that change state in place; the interleaved models
are on values, because a step of one thread must be seen by all the others.

## What the code relies on

These are hypotheses of the model; where the code does not enforce one, a lemma says what happens without it.

- The ring is initialised before the first push. A zeroed ring has size 0, and `% size` is undefined for it.
- Producers are not inside their critical section while `cb_init` runs (src/logger.c:112 takes no lock), and the
  consumer has left its old loop before the logger is started again.
- The lock callbacks are supplied and form a mutex. projects/chibios_serial_logger/main.c:53-54 leaves them null, so
  the CAN and ADC statements hold there only as far as queue operations are atomic. With a mutex the interleaved modules
  need no such assumption.
- The semaphore holds at least one token when signalled, or counts without limit; its initial count is arbitrary.
- There is one consumer and one stopping thread, which calls `logger_stop` once the status is RUNNING. A stop that comes
  earlier can be overwritten by src/logger.c:115: `Liveness.StopLastsIff` shows that a stop lasts exactly if the status
  reads RUNNING when it is called.
- Each read or assignment of one field is atomic. `status` and the ring are declared volatile.
- No channel object is registered twice (`Registry.RegisterValidIff` shows that this is exactly what keeps the registry
  valid; name resolution in `Names` does not assume it). Before `logger_init` the pointer table is null and no channel
  object carries an id: `Registry.InitValidIff` shows that this is exactly what makes its result valid.
  `logger_unregister` shifts by `id - 1`, which C defines for ids up to 64; every registered id is in that range.
- One `can_rx` thread. Its write callback is private to can_channel.c, so no other producer uses it. Likewise no other
  producer queues pointers into the ADC buffer.

Where documents disagree with the code, the model follows the code: all 16 slots are usable and a push onto a full ring
replaces the oldest record (docs/issue_review_report.md describes a sentinel ring of 15), and the bit for id `i` is
`i - 1` as inc/channel.h:8-12 says (inc/logger.h:80-81 says `i`).

Some expectations do not hold unconditionally. For each of them an input or a run shows the failure, and a lemma gives
the exact condition, in both directions:

- registering a live channel again breaks the registry: `Registry.RegisterValidIff`;
- unregistering an object that carries another channel's id strands that channel: `Registry.UnregisterOwnedIff`;
- `logger_init` leaves old pointers and ids in place: `Registry.InitValidIff`;
- a stop that comes before RUNNING is overwritten: `Liveness.StopLastsIff`;
- records are lost when a push finds the queue full: `History.LossFreeIff`;
- a record in the queue or in `_write` loses its name when its own channel is unregistered or registered again after a
  stop: `Names.ResolvesAfterUnregisterIff`, `Names.ResolvesAfterRegisterIff`, `Names.DisciplinedIff`, with the run
  `Names.UnregisterDuringLastWrite`;
- an ADC record is read too late: `AnalogChannel.ConvertedSafeIff`, `AnalogChannel.TimelyIff`, with the run
  `AnalogChannel.LateWriteReadsNewBytes`;
- a CAN frame that finds the logger not running, or a lost CAN record, uses up the only credit:
  `CanChannel.CreditKeptIff`, with the runs of `CanChannel.EarlyFrameDisables`;
- channel names that the text protocol does not carry: `RoundTrip.RoundTripIff`;
- packets that end inside a frame: `Monitor.WholeFramesIff`.

## Model

| member | source | states |
|---|---|---|
| Ring.CircularBuffer.Init | inc/buffer.h:31-37 | from any state of the fields, zeroed or used, the ring becomes valid, empty and of full capacity |
| Ring.CircularBuffer.Reset | inc/buffer.h:44-49 | the ring becomes empty and keeps its capacity |
| Ring.CircularBuffer.Push | inc/buffer.h:52-61 | for every capacity the contents become the last `size` elements of the old contents with the new one appended; no index or counter leaves the C int range |
| Ring.CircularBuffer.Pop | inc/buffer.h:63-70 | hands out the oldest element and keeps the rest in order; on an empty ring target and contents stay as they are |
| Ring.Perform | inc/buffer.h:31-70 | a buffer object taken through any list of pushes, pops and resets holds and hands out what the specification's run of that list does |
| Ring.SlotIsModulo | inc/buffer.h:55-57 | the index computed by `%` is the place i steps after the head, for every i up to the size |
| Ring.PushKeepsLast | inc/buffer.h:52-61 | one slot store plus a moved head or a raised count is "append and keep the last `size`", and the tail stays `occup` places behind the head |
| Ring.RunIsSuffix | inc/buffer.h:44-70 | after any such run, which Ring.Perform ties to the buffer object, the queue is a suffix of what was pushed since the last reset, never longer than the capacity |
| Ring.PushesKeepLast | inc/buffer.h:44-61 | without pops the run leaves exactly the last `size` pushes |
| Ring.FifoIff | inc/buffer.h:52-70 | without resets what came out followed by what is still in equals what went in exactly if no push found the buffer full |
| Words.TestBit | src/logger.c:26 | the masked test reads bit k alone |
| Words.SetBit | src/logger.c:45 | or-ing the shifted one changes bit k alone, to one |
| Words.ClearBit | src/logger.c:64 | and-ing the complement changes bit k alone, to zero |
| Registry.FirstFreeIsLeast | src/logger.c:18-32 | the scan finds the least id whose bit is clear, and 0 only if all are set |
| Registry.FullIff | src/logger.c:18-32 | the scan fails exactly when min(no_channels, 64) ids are in use |
| Registry.RegisterTakesLeast | src/logger.c:34-52 | a registration has no effect unless the logger is idle; then it succeeds exactly while fewer than min(no_channels, 64) ids are in use, takes the least missing id and adds it to the set, and touches no other bit, slot or object; with no id left only the object's id becomes 0 |
| Registry.RegisterValidIff | src/logger.c:34-52 | from a consistent registry, registration ends in one exactly if it has no effect or the object carries no id |
| Registry.UnregisterValid | src/logger.c:54-69 | unregistering any known object is defined and keeps bitmap, table and stored ids in agreement |
| Registry.UnregisterAgrees | src/logger.c:54-69 | bitmap, table and the ids it points to agree even after unregistering a foreign object |
| Registry.UnregisterOwnedIff | src/logger.c:54-69 | an object with a borrowed id leaves the id's rightful channel stranded exactly when the slot held someone else |
| Registry.UnregisterFreesId | src/logger.c:54-69 | nothing happens unless the logger is idle and the object carries an id from 1 to no_channels; then exactly this id leaves the set, the bitmap, the table and the object, and no other bit, slot or object changes |
| Registry.RegisterThenUnregister | src/logger.c:34-69 | registering a fresh object and unregistering it restores bitmap and table |
| Registry.LiveIdsDistinct | src/logger.c:40-49 | no channel object sits in two slots |
| Registry.InitValidIff | src/logger.c:5-16 | logger_init, which clears the bitmap and neither the table nor the objects, leaves a valid registry exactly if the table was empty up to the limit and no channel object carried an id |
| Registry.RunsStayValid | src/logger.c:18-69 | any run of register and unregister calls without double registration is defined and keeps bit, slot and stored id in agreement for every id, with no bit set above the limit |
| Registry.RunsRefineMap | src/logger.c:18-69 | over any run of calls on an idle logger without double registration, bitmap, table and stored ids are a finite map: each registration adds its object under the least unused id, if one is left, each unregistration drops its object |
| Logger.BaseLogger.Init | src/logger.c:5-16 | the new registry state for both results of the platform's init hook |
| Logger.BaseLogger.RegisterNewChannel | src/logger.c:18-32 | the 8-bit loop ends for every no_channels from 0 to 255 and computes the least free id |
| Logger.BaseLogger.Register | src/logger.c:34-52 | on the heap the call does what the registry specification does, returns the channel or null, and renames only a channel it accepted; unless the logger is idle it returns null and changes nothing at all |
| Logger.BaseLogger.Unregister | src/logger.c:54-69 | on the heap the call does what the registry specification does, for every guard outcome |
| Logger.BaseLogger.WriteAsync | src/logger.c:71-84 | exactly this record joins the keep-last queue, and the one signal comes after the unlock |
| Logger.BaseLogger.PerformWrite | src/logger.c:86-102 | an empty queue leads to one wait; else the oldest record leaves the queue and is written after the unlock, and its callback runs with its data exactly if the write succeeded and it has one |
| Logger.BaseLogger.BeginSession | src/logger.c:110-115 | only an idle logger starts, on an empty ring of full capacity; the _start hook sees status IDLE, RUNNING is set after it; otherwise nothing changes |
| Logger.BaseLogger.Loop | src/logger.c:104-108 | turn after turn up to the first stop; ring contents and records written are those of the ring specification's run of the same pushes and one pop per turn, every hook call in between is given in order, and the callbacks run are exactly those of the successful writes that have one, once each |
| Logger.BaseLogger.Start | src/logger.c:110-118 | a whole session: refused and without effect unless idle, ended by the first stop, with exactly the records written that the specification's run pops and exactly the callbacks due for them |
| Logger.SessionCalls | src/logger.c:94-97 | among the hooks of a session the callbacks are those of the records popped in turns whose write succeeds, with their own callback and data, once each and in order |
| Logger.BaseLogger.Stop | src/logger.c:120-126 | the signal is given, and the _stop hook called if there is one, when the status is IDLE already |
| AtomicLogger.StepInv | src/logger.c:71-126 | every atomic operation keeps queue, history and the fate of every record consistent |
| AtomicLogger.ExecInv | src/logger.c:71-126 | so does every run |
| History.Conservation | src/logger.c:71-126 | in every reachable state pushed = written + in flight + queued + overwritten + discarded by a restart |
| History.WrittenInOrder | src/logger.c:71-102 | written records are pushed records with strictly increasing numbers in lock order |
| History.OverwrittenByDistance | inc/buffer.h:52-61 | a record is overwritten only by the push `size` places after it, and is then never written |
| History.SessionFresh | src/logger.c:110-117 | after a start's cb_init only records pushed later are written or called back, over any further stops and restarts |
| History.LossFreeIff | src/logger.c:71-102 | for every run: written ++ in flight ++ queued is everything pushed since the last cb_init, in order, if and only if each of these pushes found fewer than `cap` records queued |
| History.ChannelOrder | src/logger.c:71-102 | if each push of the session found room, the records of each channel keep their order |
| History.CallbacksOnce | src/logger.c:94-98 | each successful write with a callback is followed by that callback once, in order |
| MicroLogger.StepInv | src/logger.c:71-126 | every single assignment, test, lock, wait or signal of any thread keeps mutual exclusion, the shape of the ring in mid-push and mid-pop, the consumer's record and the owed tokens |
| MicroLogger.ExecInv | inc/buffer.h:31-70 | so does every interleaving |
| Refinement.StoreContents | inc/buffer.h:52-61 | the store of a push is the moment at which the whole keep-last push takes effect, full ring included |
| Refinement.ProducerContents | inc/buffer.h:52-61 | the producer's other assignments do not change the queue the ring stands for |
| Refinement.HeadContents | inc/buffer.h:63-70 | the move of the head is the moment of the pop, and the record already copied is the oldest |
| Refinement.StepRefines | src/logger.c:71-126 | each micro step is one atomic step or none |
| Refinement.MatchingStep | src/logger.c:71-126 | the same, as one step of the atomic logger or none |
| Refinement.RunsRefine | src/logger.c:71-126 | every interleaving of the code is matched by a run of the atomic logger with the same log, writes and callbacks; that the log is what callers gave is Calls.CallsReachLog |
| Calls.CallsReachLog | src/logger.c:71-84 | for every schedule and producer: the records it stored, followed by the one it carries towards the ring, are the arguments of its accepted calls, in order |
| Calls.LogWasGiven | src/logger.c:71-84 | nothing else gets into the log |
| Calls.OutputsWereGiven | src/logger.c:71-102 | every record written was the argument of a call, and the callbacks run are those of the successful writes that have one, once each |
| Uninterrupted.CallCompletes | src/logger.c:71-84 | a logger_write_async that finds the lock free and is not interrupted adds exactly its record to queue and log, gives one signal, and changes nothing else |
| Uninterrupted.RoundCompletes | src/logger.c:86-98 | a perform_write on a queue that is not empty takes the oldest record, writes it, runs its callback exactly if the write succeeded and it has one, and changes nothing else |
| Uninterrupted.EmptyRoundWaits | src/logger.c:89-101 | on an empty queue it waits, passes with a token, and changes nothing else |
| Uninterrupted.StatusTest | src/logger.c:105 | another round exactly while the status is RUNNING |
| Uninterrupted.StartCompletes | src/logger.c:110-117 | logger_start of an idle logger reaches the loop with an empty ring of full capacity and status RUNNING |
| Uninterrupted.StopCompletes | src/logger.c:120-126 | logger_stop sets IDLE and then gives one signal |
| Tokens.SignalsAreCounted | examples/test_logger/test_logger.c:131-149 | for every run with a counting semaphore: tokens + waits passed = initial tokens + signals given |
| Tokens.SignalsSaturate | projects/chibios_serial_logger/main.c:144-154 | for every run with a saturating semaphore the same, less the signals given at the limit, which it never exceeds |
| Tokens.EmptyTestsWait | src/logger.c:89-101 | each time the consumer finds the ring empty it passes one wait before it goes on |
| Liveness.NoUndefinedBehaviour | inc/buffer.h:52-70 | at every interleaving indices are inside the array, `%` is never by zero, the count stays between 0 and the size, and no uninitialised record is written |
| Liveness.LockFreeRing | inc/buffer.h:52-70 | whenever the lock is free, `tail == (head + occup) % size` and the slots spell out the queue of an atomic logger with the same history |
| Liveness.MidPushBreaksShape | inc/buffer.h:54-57 | between tail and head of a push on a full ring that equation fails |
| Liveness.BrokenShapeReached | inc/buffer.h:54-57 | with two slots or more some interleaving reaches a state in which that equation fails |
| Liveness.EmptinessTestSound | src/logger.c:89-94 | after the unlocked test has seen a record the ring stays non-empty up to the consumer's own pop, and _write gets an initialised record |
| Liveness.WrittenInLockOrder | src/logger.c:79-94 | the records written at any interleaving are pushed records, each at most once, in lock order |
| Liveness.RestartForgets | src/logger.c:110-117 | after cb_init of a restart only records pushed later are ever written or called back |
| Liveness.CallbacksFollowWrites | src/logger.c:94-98 | at every interleaving the callbacks run are those of the records written successfully that have one, once each; with Calls.OutputsWereGiven these are records that callers gave |
| Liveness.NoLostWakeup | src/logger.c:79-101 | a consumer at or in wait with a non-empty ring has a token, or some producer still owes its signal |
| Liveness.WakeupArrives | examples/test_logger/test_logger.c:131-149 | at most two steps of producers already under way let it go on |
| Liveness.StopTokenOwed | src/logger.c:120-126 | after a stop a consumer that may block has a token or gets one from the stopper's pending signal |
| Liveness.StopEndsLoop | src/logger.c:104-126 | after a stop, at any interleaving, the consumer takes at most ten more steps and at most one more write finishes, and ten steps lead out of the loop; that a fair scheduler lets it take them is Fairness.StopTerminates |
| Liveness.HelperProgress | src/logger.c:79-126 | a stopped loop is never stuck: a thread that already holds something can move, and each such move brings the end nearer |
| Liveness.StoppedLoopCanEnd | src/logger.c:104-126 | from every reachable stopped state the loop ends within a fixed number of steps without new calls |
| Liveness.StopLastsIff | src/logger.c:110-126 | a stop called at any point, before logger_start is entered, during start-up or in the loop, keeps the status IDLE for the rest of that one session if and only if the status read RUNNING |
| Fairness.StopTerminates | src/logger.c:104-126 | in every infinite run under a fair scheduler and a fair mutex a stopped logger leaves its loop, however many calls the producers go on making |
| Fairness.WaiterWakes | src/logger.c:79-101 | in every such run a consumer that waits although the ring holds records leaves the wait |
| CanChannel.CreditConserved | projects/chibios_serial_logger/usr/src/can_channel.c:23-53 | flag + receiver + queued + in flight is 1 until one message is given up or one CAN record is lost, and 0 from then on |
| CanChannel.CreditKeptIff | projects/chibios_serial_logger/usr/src/can_channel.c:46-50 | for every run the credit is still there if and only if no message found the logger not running and no CAN record was overwritten, discarded by a restart or refused by _write |
| CanChannel.SingleCredit | projects/chibios_serial_logger/usr/src/can_channel.c:46-50 | at most one CAN record is in the logger, and none while the flag reads SUCCESS |
| CanChannel.FrameQueued | projects/chibios_serial_logger/usr/src/can_channel.c:46-50 | with the flag set and the logger running, one frame queues exactly one record: the two bytes of the frame buffer, under the channel's id, with the write callback; the flag is FAIL then |
| CanChannel.NothingQueued | projects/chibios_serial_logger/usr/src/can_channel.c:46-50 | without a frame, or with the flag at FAIL, the receiver touches nothing |
| CanChannel.RecordsAreRight | projects/chibios_serial_logger/usr/src/can_channel.c:49 | in every run whatever is logged with the write callback is that record |
| CanChannel.FlagAfter | projects/chibios_serial_logger/usr/src/can_channel.c:23-30 | the logger's threads change the flag by callbacks of CAN records only, to SUCCESS exactly for the frame buffer |
| CanChannel.TestAndStoreDoNotRace | projects/chibios_serial_logger/usr/src/can_channel.c:46-47 | no logger step changes the flag between the receiver's test and its store |
| CanChannel.CallbackGetsItsBuffer | projects/chibios_serial_logger/usr/src/can_channel.c:23-30 | the write callback always gets the receiver's own buffer and turns FAIL into SUCCESS |
| CanChannel.OneAheadOfCallbacks | projects/chibios_serial_logger/usr/src/can_channel.c:23-50 | the receiver has queued at most one CAN record more than were called back |
| CanChannel.LostCreditStaysLost | projects/chibios_serial_logger/usr/src/can_channel.c:46-49 | once the credit is gone the flag stays FAIL and no CAN record is queued again, whatever follows |
| CanChannel.EarlyFrameDisables | src/logger.c:112-116 | a frame that arrives after _start has launched can_rx and before RUNNING is set disables the CAN channel for good |
| CanInterleaved.RunsRefine | projects/chibios_serial_logger/usr/src/can_channel.c:23-53 | every interleaving of single assignments is matched by a run of the receiver with the atomic logger, with the same flag, queue and history |
| CanInterleaved.SingleCredit | projects/chibios_serial_logger/usr/src/can_channel.c:23-53 | at every interleaving of single assignments: at most one CAN record in the ring or in hand, none while the flag reads SUCCESS or the receiver is about to clear it, at most one queued record ahead of the callbacks |
| CanInterleaved.RecordsAreRight | projects/chibios_serial_logger/usr/src/can_channel.c:49 | at every interleaving whatever is logged with the write callback is the record of the frame buffer |
| CanInterleaved.FrameQueued | projects/chibios_serial_logger/usr/src/can_channel.c:46-50 | step by step, a frame that finds the flag set, the logger running and the lock free adds exactly that record to queue and log |
| AnalogChannel.PointersActAsCopies | projects/chibios_serial_logger/usr/src/analog_channel.c:46-56 | if no conversion callback finds an analog record unread, every payload read byte by byte from the live DMA buffer is the half-buffer as it was when queued |
| AnalogChannel.ConvertedSafeIff | projects/chibios_serial_logger/usr/src/analog_channel.c:48-56 | a conversion callback is safe, for all that threads and DMA do until the next one, if and only if no analog record is unread: being written and not fully read, or queued where the consumer can get at it and not overwritten by this push |
| AnalogChannel.TimelyIff | projects/chibios_serial_logger/usr/src/analog_channel.c:46-56 | over whole runs: no point can be continued without further conversions to read a wrong byte, if and only if every conversion callback of the run found no analog record unread |
| AnalogChannel.LateWriteReadsNewBytes | projects/chibios_serial_logger/usr/src/analog_channel.c:46-56 | the condition can fail: from every start some run reaches such a callback and reads a byte stored after the record was queued |
| AnalogChannel.ConversionQueues | projects/chibios_serial_logger/usr/src/analog_channel.c:46-56 | a conversion queues 1024 bytes from sample 0 or from sample 512 under the channel's id without callback, and the DMA turns to the other half |
| AnalogChannel.ConversionsAlternate | projects/chibios_serial_logger/usr/src/analog_channel.c:48-56 | in every run the analog records are one for each conversion, first half and second half in turn |
| AnalogInterleaved.PointersActAsCopies | projects/chibios_serial_logger/usr/src/analog_channel.c:46-56 | at every interleaving of single assignments, with the DMA on the other half as soon as the callback is entered: payloads are the halves captured at the callbacks, if no callback finds an analog record unread |
| AnalogInterleaved.ConversionsAlternate | projects/chibios_serial_logger/usr/src/analog_channel.c:48-56 | at every interleaving the analog records stored, followed by the one the callback still carries, are one for each conversion, first half and second half in turn |
| Names.WriteFindsItsChannel | projects/chibios_serial_logger/main.c:134 | in every disciplined run a record being written finds a non-null table entry that carries its id |
| Names.ResolvesAfterRegisterIff | src/logger.c:34-52 | a record whose id resolves still resolves after a registration if and only if the logger is not idle or the object does not carry the record's id; double registrations of other channels included |
| Names.ResolvesAfterUnregisterIff | src/logger.c:54-69 | the same condition for an unregistration |
| Names.SafeIff | src/logger.c:34-69 | all records on their way to _write resolve, if and only if the logger's threads cannot bring one that does not to _write |
| Names.DisciplinedIff | src/logger.c:34-69 | over any run of registry calls mixed with the logger: no point can be continued to write an unresolved record, if and only if each call while idle was given an object whose id no record on its way to _write carries, and each record that can be popped was queued under a registered id |
| Names.UnregisterDuringLastWrite | src/logger.c:54-69 | the condition can fail: for every idle registry with a registered channel some run, with a stop before the last write is done, nulls the entry of the record being written |
| NamesInterleaved.RunsRefine | src/logger.c:34-126 | every interleaving of registry calls with single assignments is matched by the same registry calls in a run of the atomic logger, with the same registry, queue and history |
| NamesInterleaved.WriteFindsItsChannel | src/logger.c:34-94 | at every interleaving of single assignments of a disciplined run the consumer at _write finds a channel that carries its record's id |
| Serial.ValueOfDecimal | projects/chibios_serial_logger/main.c:137 | the digits printed for a number have its value; that no other digits could be printed is Serial.DecimalIsUnique |
| Serial.DecimalIsUnique | projects/chibios_serial_logger/main.c:137 | the printed number is the only string of digits with its value and without a leading zero |
| Serial.DecimalIsCanonical | projects/chibios_serial_logger/main.c:137 | no leading zero is printed |
| Serial.SamplesOfEncoded | projects/chibios_serial_logger/main.c:137 | byte pairs read as `low + (high << 8)` give back 16-bit samples stored little-endian |
| Serial.Port.Write | projects/chibios_serial_logger/main.c:132-142 | the printing loop, two bytes a turn, sends exactly `CHANNEL id (name): `, the samples and CR LF |
| Text.BodySplits | projects/chibios_serial_logger/main.c:136-139 | the samples are printed each followed by one comma and nothing else |
| Serial.CanLineExample | projects/chibios_serial_logger/main.c:134-139 | one line written out in full |
| RoundTrip.ParseLine | projects/chibios_serial_logger/test/serial_monitor/read.py:29-34 | for every name without a colon the samples come back, and the header as Python shows it |
| RoundTrip.RoundTripIff | projects/chibios_serial_logger/test/serial_monitor/read.py:29-34 | for every id, sample list (empty included) and following data, the line read parses to exactly header and samples if and only if the name is printable and has no colon, single quote or backslash |
| RoundTrip.SamplesArrive | projects/chibios_serial_logger/main.c:132-142 | 16-bit samples in memory, printed, sent, read and parsed, are the same samples |
| RoundTrip.HeadersAreClean | projects/chibios_serial_logger/test/serial_monitor/read.py:31-33 | whatever line arrives, a parsed header holds printable characters and no colon |
| Text.ParsesIff | projects/chibios_serial_logger/test/serial_monitor/read.py:31-34 | a received line parses if and only if it holds exactly one colon and all the pieces behind it but the last are numerals, and then to their values; every other line raises |
| Text.ParseIntIff | projects/chibios_serial_logger/test/serial_monitor/read.py:34 | int accepts exactly digits with an optional sign between blanks, with their value |
| Text.StripIff | projects/chibios_serial_logger/test/serial_monitor/read.py:33 | strip removes exactly the longest runs of the given characters at both ends |
| Text.SplitJoins | projects/chibios_serial_logger/test/serial_monitor/read.py:31-34 | split is undone by joining, gives one part more than separators, and no part holds one |
| Text.EscapesReadBack | projects/chibios_serial_logger/test/serial_monitor/read.py:29 | the text form of received bytes can be read back, for all bytes |
| Text.FirstLineTakes | projects/chibios_serial_logger/test/serial_monitor/read.py:29 | readline takes everything up to the first line feed |
| Monitor.Display.Analog | projects/chibios_serial_logger/test/serial_monitor/read.py:41-44 | each of the four lists is extended by its share and cut to its last 4000 entries |
| Monitor.Display.Receive | projects/chibios_serial_logger/test/serial_monitor/read.py:29-44 | what any received line does to lists, time label and title, and when it raises |
| Monitor.EffectIff | projects/chibios_serial_logger/test/serial_monitor/read.py:30-44 | exactly which lines are ignored, raise, stamp the time or extend the lists; the empty read is ignored |
| Monitor.Display.Round | projects/chibios_serial_logger/test/serial_monitor/read.py:27-44 | ten lines are read, fewer if one raises; lists, time label and title show the effect of exactly these |
| Monitor.WindowKeepsLast | projects/chibios_serial_logger/test/serial_monitor/read.py:41-44 | after any number of packets of any length the list has 4000 entries, the last of the zeros and everything received for the channel |
| Monitor.WindowShowsStream | projects/chibios_serial_logger/test/serial_monitor/read.py:20-44 | for packets of whole frames these are the stream samples at positions congruent to k modulo 4 |
| Monitor.WholeFramesIff | projects/chibios_serial_logger/test/serial_monitor/read.py:41-44 | splitting packet by packet equals splitting the stream, for all continuations, exactly if the packet length is a multiple of 4 |
| Monitor.StrideAt | projects/chibios_serial_logger/test/serial_monitor/read.py:42 | entry j of channel k's share is sample k + 4j |
| EndToEnd.PrintedEffect | projects/chibios_serial_logger/test/serial_monitor/read.py:29-44 | for every plain channel name a printed line stamps the time, extends the lists, raises or is ignored according to whether the name itself contains "can" or "analog" and whether there are samples |
| EndToEnd.ApplicationLines | projects/chibios_serial_logger/usr/src/analog_channel.c:39 | ch_analog lines always extend the lists; ch_can lines with a sample always stamp the time |
| EndToEnd.ReadAllOfWire | projects/chibios_serial_logger/test/serial_monitor/read.py:29 | reading line by line recovers the printed lines, one for one |
| EndToEnd.PrintRun | projects/chibios_serial_logger/main.c:132-142 | the finished writes of a run, printed one after the other, put exactly the lines on the wire that EndToEnd.DisplayShowsCaptured reads back |
| EndToEnd.NameFromTable | projects/chibios_serial_logger/main.c:134 | a record whose id resolves is printed under the name of the channel that carries this id |
| EndToEnd.DisplayShowsCaptured | projects/chibios_serial_logger/test/serial_monitor/read.py:20-44 | for every timely run with records of other channels in between and names from the channel table: once all is read, list k is the last 4000 of 4000 zeros followed by the samples at positions congruent to k modulo 4 of the half-buffers written, as captured |

## Left out

- Logger.BaseLogger.WriteAsync: one thread at a time, with the platform hooks recorded as a list; interleavings are in MicroLogger.
- Logger.BaseLogger.Loop: the other threads act between the turns only, as given by a list that ends in a stop; interleavings are in MicroLogger.
- Liveness.StoppedLoopCanEnd: says that some schedule ends the loop; all fair infinite ones are in Fairness.
- NamesInterleaved.WriteFindsItsChannel: the converse, that an undisciplined run can fail, is proved for the atomic logger (Names.DisciplinedIff).
- AnalogInterleaved.PointersActAsCopies: a callback's push comes after the callback there, so a record that this push overwrites still counts as unread; the exact condition is proved for a callback that runs without interruption (AnalogChannel.TimelyIff).
- Serial.Port.Write: the record's size is a natural number and the bytes and the name are parameters; an odd size reads one byte past it, as in the code, and needs that byte to exist.
- RoundTrip.ParseLine: characters stand for bytes, and int() is modelled without digit groups separated by underscores.
- EndToEnd.DisplayShowsCaptured: the bytes of channels other than the analog one are arbitrary, and the channel table is the one of the session.
- The uint64_t bitmap is its 64 bits with the C operators defined bit by bit, not machine arithmetic.
- The interleaved logger and everything over it is on values; in-place update and aliasing of the ring and the registry are covered by the classes in Ring and Logger.
- The destination string and the optional start and stop hooks do not occur in MicroLogger; they touch neither ring nor status.
- The C memory model: each access to one field is taken as atomic and sequentially consistent.
- Behaviour with null lock callbacks, as in projects/chibios_serial_logger/main.c:53-54, beyond assuming atomic queue operations.
- Null-pointer argument checks of logger_register.
- The bytes of rxmsg: canReceive overwrites the frame buffer before the flag is tested (can_channel.c:46), so the code does not keep them until the write.
- Serial timeouts and partial lines, and the plotting of read.py:45-65.
- Hardware and operating system calls, board configuration, dac_test.c, the print-only ChibiOS example and serori/.
