# A verified model of the lock-free SPMC broadcast queue

One producer writes messages into a ring of 1024 slots; up to 64 consumers each read
every message at their own pace. Nobody locks. Safety rests on a version counter per
slot, a 64-bit wrapping distance test, a lazily refreshed minimum over the consumers,
and a scan of consumers that keep moving. This project models that machinery at three
levels and proves what it guarantees.

* **One call at a time.** `QueueSpec` gives each operation as a function on the queue's
  memory and the invariant that ties the ring to the log of published messages. `Queue`
  is the object itself: arrays updated in place, every method proved equal to its
  function and to its effect on the ghost log. `Histories` is about whole histories of
  calls: exact delivery, lazy cache against naive rescan, progress, scan cost, capacity.
* **Every shared access a step.** `StepMachine` lets the producer and 64 consumers
  interleave at each load, store and compare-and-swap, with messages written and copied
  word by word (any width). `Broadcast` is the simple thing it refines: an append-only
  log and a cursor per reader. `StepTheorems` holds the results over all runs;
  `StepProgress` shows that no state of the machine is stuck; `LateJoin` says which
  registrations may overlap a publish, with runs that go wrong for the others.
  `SoloRuns` joins the two levels: an uninterrupted call does what `QueueSpec` says, and
  a queue at rest satisfies the one-call invariant however it got there.
* **Release/acquire.** In `ReleaseAcquire` an acquire load may return any entry of the
  location's modification order that the thread's view does not exclude, and message
  words are plain memory with vector-clock race detection (`Views`). This is the part of
  ISO/IEC 14882:2017 (sections 4.7.1 and 32.4) that the queue relies on; since every
  atomic access in it is an acquire load or a release store, reads-from edges
  synchronise and no execution is lost by interleaving. `AcquireProgress` and
  `AcquirePublish` show that the calls get on at this level: what a stamp leads to, how
  soon a message is delivered, that every loop ends after the flag, when a publish gets
  through, and that producer and consumers are never stuck.

Around the ring: `Registration` (competing compare-and-swap scans), `WaitStrategy` and
`Wakeup` (spin, then sleep on a semaphore-mode eventfd), `Schedules` and `ConsumerRun`
(the consume loop, the drain at shutdown, the demo's thread, for whatever the producer
does between two looks), `ProducerSide` (commit-then-notify, the publishing loop of the
command-line program on the queue itself). `WholeSystem` puts the loops, each with its
strategy and its limit, the flag and the eventfd on top of the step machine and shows
that the result refines `Wakeup`; both show that every loop, whatever its strategy and
limit, ends within a bounded number of its own steps once the flag is up.
`Arithmetic64` and `RingLayout` hold the 64-bit arithmetic and the slot layout.

## Where the code differs from its own words

The model follows the code. These are the differences that were found; each is a lemma.

* `include/Queue.h:131-134` suggests registering at the producer's position. On a fresh
  queue that is 0, and then that consumer never gets anything and the producer never
  passes 1023, whatever else happens (`Histories.StartZeroStallsForGood`). Everywhere
  else it is fine between publishes (`QueueSpec.JoiningNowMeetsContract`).
* `include/Queue.h:108` calls registration thread-safe. It is exclusive as long as threads
  give back only ids they hold (`Registration.ExclusiveIff`). But a caller that reads
  `current_sequence()` and registers while publishes go on is safe if and only if it
  registers one past what it read and no publish claims a number before its
  compare-and-swap (`LateJoin.OverlappingJoinExactIff`); registering at what it read, as
  suggested, never is. `LateJoin.BehindIsWrong` gives the runs from a fresh queue in which
  the newcomer is handed a message 1024 numbers too late. The first consumer ever may also
  register at 1 at any moment, but not in the same publish as one at the front
  (`LateJoin.MixedIsWrong`); that is why the step machine has the constant `overlap`.
* `tests/test_queue.cpp:188` speaks of 1023 usable slots; all 1024 are
  (`Histories.CapacityIsWholeRing`).
* `include/WaitStrategy.h:258-265` and `docs/DESIGN.md:225` say one write wakes every
  sleeper. With two or more consumers that block on one eventfd a wake-up can be lost to
  the timeout, whatever their spin limits and targets; with one, among any number that
  never sleep, as in the demo, none is lost (`WholeSystem.NoLostWakeupIff`).
* `include/Consumer.h:101-102` says `run` stops after `max_messages`. It may handle up to
  1023 more: the limit is kept in every schedule if and only if there are no more
  messages than the limit, or at least 1024 more (`Schedules.LimitKeptIff`,
  `ConsumerRun.OverrunsItsLimit`).
* The tallies of the demo's consumer (`src/demo_single_process.cpp:80-87`) leave out what
  the drain handles. They are complete in every schedule if and only if there is nothing
  to count or at least 1024 messages more than wanted (`Schedules.NothingLeftToDrainIff`).
  The demo wants as many as there are: up to 1024 of its million can be missing from the
  tallies, and never more (`ConsumerRun.TalliesLeast`, `ConsumerRun.TalliesAtLeast`).
* `src/main.cpp:65` announces types in the cycle Add, Trade, Delete. The type moves on at
  refused attempts too (`ProducerSide.TypesCycleIff`). With consumers waiting at 1 the
  cycle is certain if and only if there are at most 1024 messages
  (`ProducerSide.CycleGuaranteedIff`).

## Model

| member | source | states |
|---|---|---|
| Arithmetic64.MaskIsRemainder | include/Queue.h:32-37 | masking with a power of two minus one is the remainder, for every width |
| Arithmetic64.WrappingDifference | include/Queue.h:188 | what the unsigned difference is on each side of the wrap point and against the sentinel |
| RingLayout.MaskSelectsSlot | include/Queue.h:210 | `seq & kRingMask` is seq mod 1024 |
| RingLayout.LastInOf | include/Queue.h:248-253 | which message a slot holds relative to the one a cursor expects: reached, not yet reached, lapped |
| QueueSpec.ScanMin | include/Queue.h:193-198 | the scan's result bounds every active cursor from below and is attained, or nobody is active |
| QueueSpec.StoreExtendsLog | include/Queue.h:206-217 | after a publish every slot again holds the latest message of its residue class, stamped number + 1 |
| QueueSpec.ConsumeFindsLatest | include/Queue.h:246-262 | for any cursor from 1 on: ready iff published; yields the latest message >= the cursor in that slot, the expected one iff not lapped |
| QueueSpec.WrappingTestFaithful | include/Queue.h:188-201 | in every invariant state the wrapping tests equal the integer tests and the sentinel admits nothing |
| QueueSpec.PublishExact | include/Queue.h:182-218 | with somebody active publish fails iff the slowest has exactly 1024 unread; the log grows by the item or nothing moves |
| QueueSpec.ConsumeExact | include/Queue.h:238-263 | consume succeeds iff the id is active and something is unread; it yields log[seq] and advances that cursor alone |
| QueueSpec.RefusedPublishUnblocks | include/Queue.h:188-204 | after a refusal the slowest consumer is 1024 behind and its consume succeeds |
| QueueSpec.RegisterExact | include/Queue.h:138-148 | lowest free id, none iff all 64 are in use; the invariant survives iff the start is inside the window and not below the cache |
| QueueSpec.JoiningNowMeetsContract | include/Queue.h:131-134 | registering at next_ or next_ + 1 meets the contract iff the start is not 0 |
| QueueSpec.UnregisterKeepsInv | include/Queue.h:159-163 | leaving keeps the invariant, deactivates that id and no other, and leaves every sequence and all else alone |
| QueueSpec.CachedAgreesWithRescan | include/Queue.h:183-204 | exact condition under which cached and rescanning producer agree; always with somebody active |
| QueueSpec.ReadableUnlessLastNumber | include/Queue.h:216-255 | a message is readable under its number iff that number is not 2^64-1 |
| Queue.LockFreePubSubQueue.constructor | include/Queue.h:119 | a new queue is fresh, valid and has an empty log |
| Queue.LockFreePubSubQueue.RegisterConsumer | include/Queue.h:138-148 | in place, equals the value-level operation; still valid iff refused or inside the contract |
| Queue.LockFreePubSubQueue.UnregisterConsumer | include/Queue.h:159-163 | in place, keeps the queue valid |
| Queue.LockFreePubSubQueue.ScanConsumers | include/Queue.h:193-198 | the scanning loop computes the minimum over the active consumers, and is counted as one scan |
| Queue.LockFreePubSubQueue.Publish | include/Queue.h:182-218 | in place; appends to the log on success and not otherwise; succeeds iff not truly full when somebody is active; scans the consumers iff the cached minimum makes the ring look full |
| Queue.LockFreePubSubQueue.Consume | include/Queue.h:238-263 | in place; succeeds iff active with something unread, yields the next log entry, advances only that cursor |
| Queue.LockFreePubSubQueue.CurrentSequence | include/Queue.h:268 | the number of messages published so far |
| Histories.RunDeliversExactly | include/Queue.h:182-263 | over every contract-obeying history each active reader has been given exactly log[start..], and the log only grows |
| Histories.LazyCacheIsExact | docs/DESIGN.md:161-180 | over every history with somebody active at each publish, all answers equal those of the rescanning producer |
| Histories.ScansAmortised | include/Queue.h:188-204 | from any state, consecutive scans are at least 1024 - lag publishes apart |
| Histories.FreshScansAmortised | docs/DESIGN.md:182 | from a fresh queue P publishes cost at most 1 + (P-1024)/(1024-lag) scans, none while P < 1024 |
| Histories.StepLowersRemaining | src/main.cpp:72-98 | each success lowers the work left by exactly one, a refusal leaves it alone |
| Histories.NeverStuck | include/Queue.h:182-263 | one call at a time: while anything is left and somebody is active, the next publish or some consume succeeds |
| Histories.DoneMeansDone | src/main.cpp:72-98 | no work is left iff all messages are out and everybody has read them all |
| Histories.CompleteRunCount | src/demo_single_process.cpp:165-194 | with k consumers at 1 and N messages a run is complete iff it had N(k+1) successes |
| Histories.CapacityIsWholeRing | tests/test_queue.cpp:173-197 | with a consumer waiting at 1, of any series of publishes exactly those up to number 1024 succeed |
| Histories.SixtyFourConsumers | tests/test_queue.cpp:201-226 | of any series of registrations, with the first n records taken (n is 0 on a fresh queue), exactly the next 64 - n succeed, with ids n, n + 1 and so on, each at its own start |
| Histories.LeavingFreesTheId | tests/test_queue.cpp:212-222 | with all records taken nobody gets in; once somebody leaves, the next to register gets that very id and starts afresh |
| Histories.NobodyRegistered | include/Consumer.h:73-79 | with nobody registered the producer stops by 1023 and a start at 1 stays inside the contract |
| Histories.StartZeroStallsForGood | include/Queue.h:131-148 | a consumer started at 0 on a fresh queue gets nothing and keeps the producer below 1024, whatever calls follow and whoever joins or leaves |
| Histories.RegisteringAtZero | include/Queue.h:138-148 | registering at the position of a fresh queue leads there |
| Histories.BelowTheCacheIsLapped | include/Queue.h:138-148 | a cursor below the cached minimum is lapped by publishes that need no scan, and then reads a later message |
| Broadcast.HistoryKeepsExact | include/Queue.h:107-111 | on the abstract log every history delivers exactly log[start..next-1], never more than 1024 behind |
| StepMachine.StepKeepsSafe | include/Queue.h:138-263 | each step of producer or consumer keeps the invariant, with registrations between calls within the contract, the first one at 1 at any moment, or any number at the front at any moment |
| StepMachine.TestFindsExactly | include/Queue.h:246-255 | at the load of the stamp the slot tests ready iff the expected message is committed, mid-overwrite or not |
| StepMachine.CopiedSlotIsStable | include/Queue.h:257-261 | a slot under copy is not under overwrite and holds the expected message; the copy so far is its beginning |
| StepTheorems.StepRefines | include/Queue.h:182-263 | each step is one event of the broadcast log or none; publish takes effect at the store of the slot's sequence |
| StepTheorems.RunRefines | include/Queue.h:182-263 | every interleaving is a run of the broadcast log |
| StepTheorems.DeliveryIsExact | include/Queue.h:182-263 | in every interleaving each registered consumer holds exactly log[start..seq-1], and the producer is at most 1024 ahead of it |
| StepTheorems.NoTornRead | include/Queue.h:210-261 | in no reachable state is a slot being written while it is being copied; every partial copy is a prefix of one message |
| StepTheorems.EmptyIsExact | include/Queue.h:253-255 | consume reports "nothing" iff at that instant everything committed had been read |
| StepTheorems.ScanBoundsForever | include/Queue.h:193-199 | a scanned minimum bounds, at the scan's end and ever after, each consumer that stays registered |
| StepTheorems.ScanOfNobody | include/Queue.h:193-204 | a scan that found nobody refuses; who is registered at its end all the same joined at the front, or is the first consumer ever, alone, at 1023 messages |
| StepTheorems.RejectionIsJustified | include/Queue.h:188-204 | a refusal after reading anybody's sequence: at some instant of that scan the slowest was 1024 behind, or a newcomer was between its CAS and its store with a number a ring behind still in its record |
| StepTheorems.FirstConsumerMissesNothing | include/Consumer.h:73-79 | until the first consumer has registered, at whatever moment, every message is still in its slot |
| StepTheorems.ScanDuringFirstJoinRefuses | include/Queue.h:138-204 | a scan between the first consumer's CAS and its store only refuses and leaves a harmless cache |
| StepTheorems.ProducerIsWaitFree | include/Queue.h:182-218 | inside publish the next own step is always possible and nearer the end; nobody else sets it back |
| StepTheorems.PublishIsBounded | include/Queue.h:182-218 | one publish takes at most 130 + width further own steps, however others interleave |
| StepTheorems.ReaderIsWaitFree | include/Queue.h:238-263 | inside consume or registration the next own step is always possible and nearer the end; nobody else touches the record |
| StepTheorems.RestingReaderIsFree | include/Queue.h:159-163 | between its calls a consumer may consume or leave at any moment, inside a publish or not, and leaving frees its record alone |
| StepTheorems.NewcomerIsFree | include/Queue.h:138-148 | the first consumer ever, at 1, or one at the front may register at any moment; between publishes, any start within the contract and no other |
| StepProgress.NeverStuck | src/main.cpp:72-98 | from every state of the step machine, wherever everybody stands: while a message is unread or to come, at most 326 + 2 * width further steps publish or deliver one |
| StepProgress.FinishPublish | include/Queue.h:182-218 | the publish under way ends within 130 + width steps, and with its message out if everybody was at the front |
| LateJoin.OverlappingJoinExactIff | include/Queue.h:131-204 | callers that read the position and register there or one past it, at any moment inside the contract: exact delivery in every interleaving iff one past it and no number is claimed between the read and the CAS |
| LateJoin.BehindIsWrong | include/Queue.h:131-148 | for every other offset and number of claims inside the contract, a run from a fresh queue that hands the newcomer the message 1024 after the one it starts at |
| LateJoin.MixedIsWrong | include/Queue.h:138-204 | the first consumer at 1 and another at the front inside one publish: a run from a fresh queue in which the first one gets message 1025 for message 1 |
| SoloRuns.SoloPublish | include/Queue.h:182-218 | an uninterrupted publish leaves the memory and gives the answer of the one-call operation |
| SoloRuns.SoloConsume | include/Queue.h:238-263 | an uninterrupted consume leaves the memory and gives the message of the one-call operation |
| SoloRuns.AtRestMeansInv | include/Queue.h:182-263 | after any interleaving, a queue at rest satisfies the one-call invariant for the same log |
| Views.JoinIsLub | include/Queue.h:77-80 | what an acquire load adds is the least view above both sides |
| ReleaseAcquire.StepKeepsSafe | include/Queue.h:206-263 | with a fixed set of consumers, each step keeps the invariant under release/acquire, whatever entries the loads return |
| ReleaseAcquire.StampIsExact | include/Queue.h:253-255 | a stamp that says ready is the expected message's own, however stale; with the latest one in sight it says ready iff the message is committed |
| ReleaseAcquire.DeliveryIsExact | include/Queue.h:238-263 | despite stale loads each consumer has exactly the log's prefix up to its cursor, at most 1024 behind |
| ReleaseAcquire.CopyIsExact | include/Queue.h:253-258 | each read of a slot is ordered after its last write and sees the expected message |
| ReleaseAcquire.OverwriteIsOrdered | include/Queue.h:206-216 | each write of a slot is ordered after every earlier read of it: every consumer is past the old message and the producer knows |
| ReleaseAcquire.DrainLosesNothing | include/Consumer.h:127-138 | a consumer that saw the flag and drained has the whole, final log; no stale load ends the drain early |
| AcquireProgress.StaleStampIsPossible | include/Queue.h:77-80 | stale loads are reachable: a run in which message 1 is committed and the consumer's look still finds nothing |
| AcquireProgress.TestIsExact | include/Queue.h:253-261 | in every state, for any stamp a load may return: ready is acted upon and says there is a message; not ready means that the stamp is stale or everything has been read; with the latest stamp consume goes on to copy iff a message is unread |
| AcquireProgress.DeliveredSoon | include/Queue.h:238-263 | with the latest entries loaded, a committed unread message is delivered, and it is the right one, within width + 4 own steps |
| AcquireProgress.OthersLeaveReader | include/Queue.h:182-263 | nobody else's step moves a consumer, unpublishes a message, or publishes after the flag, so these counts hold in any interleaving |
| AcquireProgress.FinishesAfterFlag | include/Consumer.h:127-138 | once the flag is up, with the latest entries loaded, a consumer ends within a bounded number of own steps with the whole log |
| AcquirePublish.ProducerIsWaitFree | include/Queue.h:182-218 | inside publish, whatever entries the loads return, the next own step is possible and nearer the end, at most k + width + 2 of them; nobody else sets it back |
| AcquirePublish.AcceptedMeansRoom | include/Queue.h:188-204 | a publish that is let through, by the cache or by a scan with however stale cursors, finds nobody a whole ring behind |
| AcquirePublish.LatestPublish | include/Queue.h:182-218 | a publish that loads the latest cursors succeeds iff nobody has 1024 unread; the log grows by its item or not at all |
| AcquirePublish.RefusalIsJustified | include/Queue.h:192-204 | a refusal in any run: its own scan was given a cursor a whole ring behind, no older than what the producer knew when that call began |
| AcquirePublish.NeverStuck | src/main.cpp:72-98 | in every state of the invariant, whatever stale entries have been seen: while a message is unread or to come, at most 2k + 2 * width + 5 further steps publish or deliver one |
| Registration.RegistrationIsExclusive | include/Queue.h:138-163 | threads giving back what they hold: in every interleaving no two own one record, the active records are exactly the owned ones, and the start stored there is the holder's |
| Registration.ExclusiveIff | include/Queue.h:138-163 | no two threads ever own one record iff nobody gives back an id it does not hold |
| Registration.PassedOverInUse | include/Queue.h:138-148 | a call takes the first record it does not find in use, and is refused only after finding each of the 64 in use at the instant it tried it |
| Registration.CallIsWaitFree | include/Queue.h:138-148 | a registration ends within 65 own steps |
| Registration.BetweenCalls | include/Queue.h:138-163 | between calls any thread may start a registration, and a holder may always give its record back, which then nobody owns |
| WaitStrategy.EventFd.Write | include/WaitStrategy.h:267-270 | the counter grows by exactly one below 2^64-2 and stays there at 2^64-2, and whoever polls next finds a unit |
| WaitStrategy.CounterIsLargestSurplus | include/WaitStrategy.h:244-270 | over every history of writes and reads the counter is the largest surplus of writes over attempts to read since any moment |
| WaitStrategy.ReadyIff | include/WaitStrategy.h:244-250 | poll and read find a unit iff since some moment writes outnumber attempts to read |
| WaitStrategy.BlockingWaitStrategy.WaitForData | include/WaitStrategy.h:233-255 | the first spinLimit calls since the last reset leave the eventfd alone; a later one without a unit and without an arrival leaves it alone too; otherwise it tries to take a unit, also one that came while it slept, so that the counter ends lower by one and by what others took in between, or at 0 |
| WaitStrategy.BlockingWaitStrategy.NotifyAll | include/WaitStrategy.h:267-270 | one unit more, short of saturation, and whoever polls next is signalled |
| WaitStrategy.SpinThenTake | include/WaitStrategy.h:233-274 | with a unit there all the time, it is left alone for exactly spinLimit calls after a reset and taken in the next |
| Wakeup.NoLostWakeupIffOneSleeper | include/WaitStrategy.h:233-270 | for any consumers with any strategies, spin limits and targets: no reachable state loses a wake-up iff at most one blocks and wants anything |
| Wakeup.OneSleeperCovered | include/Producer.h:68-85 | with one sleeper among any others, from failed consume to read, a message or the flag is matched by a unit or a write on its way |
| Wakeup.NewsWakesTheSleeper | include/WaitStrategy.h:244-251 | with one sleeper, sleeping on news ends without the timeout |
| Wakeup.EndsWithEverything | src/demo_single_process.cpp:59-91 | a consumer that is done has read all that was ever committed; one that stopped at its limit, exactly so many |
| Wakeup.UnitsAreAccounted | include/WaitStrategy.h:244-270 | in every run, short of saturation, each message and the flag put one unit in the eventfd or have its write still to come, and only reads that found one have taken any |
| Wakeup.CanAct | include/Consumer.h:107-140 | in every state a consumer whose loop has not ended, whatever its strategy and limit, can act, and nobody else changes its place |
| Wakeup.MessageSoon | include/Consumer.h:113-125 | with a message there, each own action consumes one, or leaves for having had enough, or brings it nearer, of at most 5 |
| Wakeup.FlagEndsLoop | src/demo_single_process.cpp:59-91 | once the flag is up, in every interleaving each own action lowers a rank (unread messages, place in the loop), and a consumer that has made so many has ended, whatever its strategy and limit |
| Wakeup.SpinsBeforePoll | include/Consumer.h:121-124 | after a message a blocking consumer spins exactly spinLimit times, with nothing consumed in between, before it polls |
| WholeSystem.SystemRefinesWakeup | src/demo_single_process.cpp:59-91 | every run of loops with their strategies and limits, flag, eventfd and queue, at every shared access, is a run of the wake-up machine |
| WholeSystem.NoLostWakeupIff | include/WaitStrategy.h:233-270 | for any up to 64 consumers, blocking or not, with any spin limits and targets: no such run loses a wake-up iff at most one may sleep |
| WholeSystem.DoneHasWholeLog | include/Consumer.h:127-138 | in every such run a consumer that left through the flag was given the whole log, word for word, the log is final, and less than a ring longer than the limit |
| WholeSystem.StoppedHasFirst | include/Consumer.h:107-122 | in every such run a consumer that left through its limit was given exactly the first so many messages, word for word |
| WholeSystem.ProducerCanMove | include/Producer.h:68-85 | at every shared access the producer can go on: notify when it owes a notification, take the next step of publish, or begin one or shut down |
| WholeSystem.ConsumerCanMove | include/Consumer.h:107-140 | at every shared access a consumer whose loop has not ended can move, whatever its strategy and limit |
| WholeSystem.MessageSoon | include/Consumer.h:113-125 | with a message unread, each own move of a consumer delivers it, leaves for having had enough, or brings it nearer |
| WholeSystem.FlagEndsLoop | include/Consumer.h:127-138 | once the flag is up, in every interleaving each own move lowers a rank, and a consumer that has made so many has ended, whatever its strategy and limit |
| Schedules.EndsIff | include/Consumer.h:107-140 | the loop ends iff shutdown or enough messages for its limit come |
| Schedules.DrainBounds | include/Consumer.h:107-140 | leaving through the flag, the loop has handled fewer than its limit, and the drain gets at most one ring |
| Schedules.LimitKeptIff | include/Consumer.h:109-138 | the limit is kept in every schedule iff there are no more messages or at least 1024 more; it is never overrun by more than 1023 |
| Schedules.NothingLeftToDrainIff | src/demo_single_process.cpp:59-91 | the loop itself sees all it handles, in every schedule, iff there are no messages, none are wanted, or at least 1024 more than wanted |
| Schedules.MostLeftToDrain | src/demo_single_process.cpp:59-91 | the most that any schedule leaves to the drain, for every number of messages and target, and a schedule that does |
| ConsumerRun.LoggingConsumer.OnMessage | include/Consumer.h:196-202 | the tallies count the handled messages by type |
| ConsumerRun.CountIsCardinality | include/Consumer.h:196-202 | the count of a type is the number of handled messages with that type |
| ConsumerRun.LoggingConsumer.DrainRemaining | include/Consumer.h:129-137 | handles all that is left, in unread + 1 calls, whatever max_messages was |
| ConsumerRun.LoggingConsumer.Run | include/Consumer.h:104-143 | ends as the schedule says: through the flag with everything from its start to the last message ever, limit or no limit, and so many of them in the drain; through the limit with exactly the first max_messages |
| ConsumerRun.OverrunsItsLimit | include/Consumer.h:112-136 | two messages and the flag between a failed consume and the look at the flag: limit 1, two handled, both in the drain |
| ConsumerRun.ConsumerThread | src/demo_single_process.cpp:48-92 | consumes in order to the target or the end of the log, as the schedule says; the tallies add up to the total iff the schedule leaves nothing to the drain |
| ConsumerRun.TalliesLeast | src/demo_single_process.cpp:59-91 | for any n > 0 messages and target n, a schedule after which the total is n and the tallies add up to n - min(n, 1024) |
| ConsumerRun.TalliesAtLeast | src/demo_single_process.cpp:59-91 | with target n, in every schedule the total is n and the tallies add up to at least n - 1024 |
| ProducerSide.Producer.Publish | include/Producer.h:68-74 | the counter grows by one for a message that got in, below 2^64-2, and is left alone by a refusal |
| ProducerSide.Producer.Shutdown | include/Producer.h:82-85 | raises the flag, and whoever polls next is signalled |
| ProducerSide.PublishLoop | src/main.cpp:72-98 | on the queue itself, with consumers moving between attempts: the log grows by what got in, the counts tell its types and add up, the counter grows by the number of them below 2^64-2 |
| ProducerSide.SentInOrder | src/main.cpp:72-98 | what got in is message 1, 2, 3 and so on, each once, none beyond the last |
| ProducerSide.TypesCycleIff | src/main.cpp:65-98 | for every queue and every schedule the types are Add, Trade, Delete, Add and so on iff the queue refused every message a multiple of three times |
| ProducerSide.WaitingIsRefused | src/main.cpp:72-98 | with consumers that wait at 1 until the ring is full and then take one message each, message 1025 is refused exactly once |
| ProducerSide.CycleGuaranteedIff | src/main.cpp:65-98 | with consumers waiting at 1 on an empty queue, the types cycle in every schedule iff there are at most 1024 messages |

## Left out

- Sequence numbers from 2^64-2 on: the invariants stop there; `QueueSpec.ReadableUnlessLastNumber` says what happens at the end of the number space.
- StepMachine.StepKeepsSafe: registrations that overlap a publish and are neither the first at 1 nor at the front are not steps of this machine, because of `LateJoin.OverlappingJoinExactIff`; nor are both kinds in one run, because of `LateJoin.MixedIsWrong`.
- ReleaseAcquire.StepKeepsSafe: that level has a fixed set of 1 to 64 consumers, all at 1 before the first publish; their `active` flags are constants, and nobody registers or leaves.
- AcquireProgress.DeliveredSoon: and `FinishesAfterFlag`, `AcquirePublish.LatestPublish` and `NeverStuck`, speak of continuations whose loads return the latest entries; how long a load may go on returning an older one is not modelled.
- Registration.RegistrationIsExclusive: asks that threads give back only what they hold, as `include/Queue.h:157` does; without that it fails, by `Registration.ExclusiveIff`.
- Wakeup.NoLostWakeupIffOneSleeper: refused publishes do not appear there; they do in `WholeSystem`, as moves that leave the wake-up state alone.
- WholeSystem.StoppedHasFirst: all consumers are registered at 1 before the first publish and stay registered, as in the demo.
- Real time in `poll`: a timeout may happen at any moment.
- ConsumerRun.LoggingConsumer.Run: the schedule is finite; a loop that never ends (no shutdown, too few messages) is outside its precondition, and `Schedules.EndsIff` says that there are no others.
- ProducerSide.PublishLoop: looks at as many attempts as the schedule has, so a producer that is refused for ever is seen up to any finite point; payload is the message number.
- `include/SharedMemoryManager.h`, process set-up and one eventfd per process: one queue object and one eventfd are shared by all.
- `include/LatencyTracker.h`, `include/Utils.h`, timestamps, alignment, pause and yield hints: no bearing on the protocol.
- `BusySpinWaitStrategy` and `YieldingWaitStrategy`: they touch no shared state and appear only as strategies that never sleep.
- Message layout: the queue is generic; the step machines see a message as a sequence of words.
- Command-line parsing and clean-up mode.
