# MailMsg V7 in Dafny

LZAMP runs Linux on seven cores of an RK3588S and Zephyr on the eighth, CPU3. The two sides talk through MailMsg V7:
eight single-producer single-consumer rings in shared memory, four priorities in each direction, with mailbox
doorbells that carry no data. This project models that protocol and the code around it, and proves what it promises
over every input, every interleaving and every run.

| files | what they model |
|---|---|
| Protocol, Words, WordShifts, Gf2, WordBits, ShiftRegister, BitLaws, Crc | message kinds; little-endian words, also as C's shifts give them; the frame checksum as a polynomial remainder over GF(2) |
| Ring, WeakRing, WeakAtomic | the ring in one thread; the ring between two cores whose stores become visible late; the one refining the other |
| Endpoint, EndpointCounters | session check, sequence generator, send, receive and counters of one end |
| Lifecycle, LifecycleSafety, LifecycleEffects, LifecycleRings, LifecycleExceptions | the Linux driver's session states, files, image and control work, over all runs |
| Cpu3Service, Cpu3Wakeup, Cpu3Drain, Cpu3Fairness, Cpu3Replies, Cpu3Answers, Cpu3Worker, Cpu3Exceptions | CPU3's interrupt, worker, READY publisher and stop path, interleaved with Linux |
| StopProtocol, StopSides, StopJoint, ReaderWakeup | both sides together: the controlled stop, and a blocking reader |
| PeripheralCodec, PeripheralService, PeripheralAgent, PeripheralRpc, PeripheralExceptions | the peripheral call from the Python agent to the C service and back |
| Clock, ClockSafety | the clock sequencer with its write-masked registers |

Code that works in place is modelled in place: `Ring.Buffer`, `Endpoint.Endpoint`, `Lifecycle.Device`,
`PeripheralService.Service` and `Clock.Cru` are classes whose methods follow the source branch by branch, and each is
proved equal to a function of the state it found. The theorems are about those functions. Protocols are step systems:
one locked region of the driver, one endpoint operation, one store or one mailbox access is one step, and a theorem
about a run holds for every sequence of steps.

## What is assumed

- Memory is field-granular: an index word, a header word, a payload byte, the checksum and the commit word travel
  between the cores one at a time. A store may reach memory at any moment after it is made; `publish` forces it out and
  `acquire` refreshes the reader's copy.
- `PSCI AFFINITY_INFO` never reports OFF for a core whose `CPU_ON` succeeded and which has not stopped. Only
  `RunningImageNeverOverwritten` uses this, and it says so in its precondition.
- The Linux mailbox driver clears the B2A status bit before it calls back.
- On CPU3 the interrupt handler runs to its end before a thread moves, but not atomically with respect to Linux.
- CPU3 does not write the header of the shared page, the PSCI operations are present, and CPU3's own bind at boot has
  succeeded.
- The device drivers behind the peripheral service do not use its own code -22, and a read delivers no more than was
  asked for.
- Clocks, timeouts, firmware answers, ring occupancy seen by a send, and device results are inputs of the steps, so
  every combination of them is covered.

## Where the code does less than its text says

- The stop preflight is meant to find all eight rings empty. It compares the 0/1 answer of `has_data` with -1, so it
  looks at the reverse p0 ring only. `PreflightLooksAtOneRing` says what it decides, `PreflightSound` exactly when that
  agrees with the purpose, and `PreflightMissesTraffic` a run from probe, for every image and every traffic, in which it
  does not.
- A doorbell that CPU3 handles between committing READY and setting its published flag is dropped, and so are the frames
  behind a rejected one; the protocol notes speak of fallback scanning, which the worker does not do.
  `CoverLostExactly` states exactly when a wakeup is given up, `CleanRunsLoseNothing` that nothing else loses one, and
  `EarlyDoorbellIsLost` and `RejectedFrameStrandsTheNext` that both cases occur.
- The agent matches a result to its request only by operation, and does not empty p1 before a call. `SuccessExactly`
  says which frame of p1 it takes for the answer: the first that is no status-zero acknowledgement, if that is a good
  result of its operation. `SuccessIsOwnExactly` says when that is the call's own: exactly if everything that waited in
  p1 is status-zero acknowledgements, which a caller can find out by reading p1 before writing. So an earlier pair with a
  good result is taken, also behind lone acknowledgements, while a NACK in front makes the call fail, and a result that
  has lost its acknowledgement ends in a sequence mismatch (`OrphanEndsInMismatch`). `LateAnswerPassesForTheNext` gives a
  run from boot.
- A sleeping reader compares a 32-bit counter for equality. `NeverSleepsThroughAFrame` includes the one way round that:
  a positive multiple of 2^32 wakes between loading the counter and looking again. `WrappedCounterStrandsTheReader` gives
  the run, in which another thread with the same file takes the frames.

## Model

| member | source | states |
|---|---|---|
| ShiftRegister.ComputeChecksum | mailmsg/mailmsg.h:150-166 | the nested loop over bytes and bits folds every byte, for any number of bytes and any word type with a shift and an exclusive-or |
| Crc.ComputeCrc32 | mailmsg/mailmsg.h:150-166 | the frame checksum loop on 32-bit words returns the word whose bitwise complement is the remainder of the message by the generator |
| Crc.RegisterIsRemainder | mailmsg/mailmsg.h:150-166 | for byte sequences of every length the register is a remainder, of degree below 32, of the message shifted by 32 plus the all-ones preset, by the V.42 generator |
| Crc.CrcCharacterized | mailmsg/mailmsg.h:150-166 | a word is the checksum if and only if its bitwise complement is that remainder |
| Crc.CrcAffine | mailmsg/mailmsg.h:150-166 | the checksum of the exclusive-or of three equally long messages is the exclusive-or of their checksums |
| Crc.BurstDetected | mailmsg/mailmsg.h:150-166 | any change confined to four consecutive bytes, of a message of any length, changes the checksum |
| Crc.CheckValue | mailmsg/mailmsg.h:150-166 | the checksum of the nine ASCII digits is 0xcbf43926, the published check value of CRC-32/ISO-HDLC |
| Ring.PushIsEnqueue | mailmsg/mailmsg.c:9-33 | push refuses exactly bad headers (zero generation or sequence, length above 28) and the eighth frame, and otherwise appends the message, committed, with the checksum of its covered bytes |
| Ring.PopIsDequeue | mailmsg/mailmsg.c:35-60 | pop answers EMPTY and INCOMPLETE exactly when it should, leaving everything alone, and otherwise removes the oldest frame whatever it says about it |
| Ring.JudgeExactly | mailmsg/mailmsg.c:53-58 | a frame that pop takes is INVALID exactly for a bad header, and else OK exactly if it carries the checksum of its covered bytes |
| Ring.FrameBytesAre | mailmsg/mailmsg.h:150-160 | the checksum covers exactly 44 bytes: generation at 0, type at 4, sequence at 8, length at 12, payload at 16 |
| Ring.SealedAccepted | mailmsg/mailmsg.c:23-58 | a frame that push accepted is one that pop accepts |
| Ring.AlterationRejected | mailmsg/mailmsg.c:49-58 | a sealed frame altered to another legal one, in its checksum or in any covered bytes within four consecutive ones, is judged BAD_CRC |
| Ring.WordAlterationRejected | mailmsg/mailmsg.c:49-58 | in particular a changed generation, type, sequence or length word is judged BAD_CRC |
| Ring.DrainJudgesInOrder | mailmsg/mailmsg.c:35-60 | popping a ring of committed frames until it is empty judges each frame once, in order |
| Ring.AlteredFrameIsolated | mailmsg/mailmsg.c:49-58 | altering the k-th queued frame makes pop answer BAD_CRC for that frame, release its slot, and deliver every other frame as sent |
| Ring.InjectedFrameRejected | scripts/linux-support/drivers/lzamp_amp_mailmsg.c:624-639 | the fault hook's flipped first payload byte always yields BAD_CRC |
| Ring.Buffer.PushFrame | mailmsg/mailmsg.c:9-33 | the in-place push answers and leaves the ring exactly as `Push` says |
| Ring.Buffer.FillSlot | mailmsg/mailmsg.c:23-30 | frame, checksum and commit stores leave one sealed frame in the producer's slot and touch no other |
| Ring.Buffer.PopFrame | mailmsg/mailmsg.c:35-60 | the in-place pop answers, delivers and leaves the ring exactly as `Pop` says |
| Ring.Buffer.HasData | mailmsg/mailmsg.c:62-70 | 0 for an empty queue and 1 otherwise, never RING_EMPTY |
| Ring.Buffer.Count | mailmsg/mailmsg.c:72-88 | the number of frames in flight, or INVALID if an index is out of range |
| WeakRing.DeliveredIsPrefixOfSent | mailmsg/mailmsg.c:9-60 | under late visibility and every interleaving, the frames popped are a prefix of the frames pushed, sealed, judged OK and in order, with at most seven in flight |
| WeakRing.PopNeverRejects | mailmsg/mailmsg.c:41-59 | from an honest producer pop answers only OK or EMPTY, and push only OK, FULL or INVALID |
| WeakRing.TestsAreExact | mailmsg/mailmsg.c:19-43 | FULL and EMPTY say what was true in memory at the instant of the acquire |
| WeakRing.NoSharedSlot | mailmsg/mailmsg.c:23-58 | the slot being written is never one that the consumer may read |
| WeakRing.CountIsInFlight | mailmsg/mailmsg.c:72-88 | with neither side in the middle of an operation, the count from the two index words is the number of frames sent and not delivered |
| WeakRing.StepRefinesQueue | mailmsg/mailmsg.c:9-60 | every store, load, publish and acquire is a step of a bounded first-in first-out queue: nothing, one append, or removal of the oldest |
| WeakAtomic.PushIsAtomic | mailmsg/mailmsg.c:9-33 | every push, however interleaved, returns what the one-thread push answers on the ring in memory at one moment of its call; an accepted one leaves there, in that step and no other, the frames that that push leaves |
| WeakAtomic.PopIsAtomic | mailmsg/mailmsg.c:35-60 | the same of every pop: its code, its message and the frames left are those of the one-thread pop at one moment of its call |
| Endpoint.Endpoint.SessionValid | mailmsg/mailmsg_endpoint.c:21-37 | the four answers of the session check, each with the exact condition under which it is given |
| Endpoint.Endpoint.Bind | mailmsg/mailmsg_endpoint.c:39-73 | INVALID exactly for missing memory, a missing operation or an unknown role, then the protocol and session refusals, all of which leave the endpoint alone; success starts a fresh generator, fresh counters and the page's generation |
| Endpoint.Endpoint.NextSequenceNumber | mailmsg/mailmsg_endpoint.c:4-10 | the generator steps by one modulo 2^32 and skips zero |
| Endpoint.Endpoint.CopyPayload | mailmsg/mailmsg_endpoint.c:103-105 | the payload loop leaves the caller's bytes, followed by zeros |
| Endpoint.Endpoint.Send | mailmsg/mailmsg_endpoint.c:75-132 | the whole new state, result record and code of a send, in every refusal and success |
| Endpoint.Endpoint.Receive | mailmsg/mailmsg_endpoint.c:134-164 | the whole new state, message and code of a receive, including stale frames |
| Endpoint.Endpoint.HasReceived | mailmsg/mailmsg_endpoint.c:166-177 | INVALID exactly without a valid session or priority, else whether the ring holds a frame |
| Endpoint.SendEnqueues | mailmsg/mailmsg_endpoint.c:98-131 | an accepted send adds exactly one intact frame with the caller's type, length and bytes, zeros behind them, and this session's generation, under the sequence that it reports; any other send leaves every ring alone, with the exact code and result; accepted if and only if the request, the session and the room allow it |
| Endpoint.ReceiveDequeues | mailmsg/mailmsg_endpoint.c:134-164 | the code of a receive for every frame that may be in front: uncommitted, stale, damaged or intact; which codes consume it and which do not |
| Endpoint.SentIsReceived | mailmsg/mailmsg_endpoint.c:75-164 | what one side sends on an empty ring the other side receives, type, length, bytes and sequence |
| Endpoint.CountersConserve | mailmsg/mailmsg_endpoint.c:98-163 | over any run of one binding with any peer: enqueued = sent + coalesced + failed and index advances = ok + bad CRC + invalid + stale, modulo 2^32; high water at most seven |
| EndpointCounters.CountersCountTheirEvents | mailmsg/mailmsg_endpoint.c:109-163 | over any run of one binding each of the ten counters is the number of its own events modulo 2^32, by doorbell answer and receive code, and the high-water mark is the greatest depth that a send has left |
| Endpoint.SequencesDistinct | mailmsg/mailmsg_endpoint.c:4-10 | any 2^32-1 consecutive generated sequences are nonzero and distinct, across FULL results too |
| Lifecycle.Device.MarkOfflineLocked | scripts/linux-support/drivers/lzamp_amp_mailmsg.c:303-320 | every armed state goes OFFLINE and all four reader counters move |
| Lifecycle.Device.RefreshAffinity | scripts/linux-support/drivers/lzamp_amp_mailmsg.c:323-341 | a sample is recorded, ON is remembered, and OFF is terminal only after ON was seen |
| Lifecycle.Device.SetTimeoutLocked | scripts/linux-support/drivers/lzamp_amp_mailmsg.c:383-398 | the two timeouts, with their results and wakes |
| Lifecycle.Device.AffinityWork | scripts/linux-support/drivers/lzamp_amp_mailmsg.c:343-379 | samples in armed states only |
| Lifecycle.Device.TimeoutWork | scripts/linux-support/drivers/lzamp_amp_mailmsg.c:498-527 | an expired stop that was answered READY takes one more sample before it times out |
| Lifecycle.Device.ControlWork | scripts/linux-support/drivers/lzamp_amp_mailmsg.c:402-496 | the control loop, with pushes and the deadline between its turns, equals `ControlWorked` and terminates |
| Lifecycle.TurnConsumes | scripts/linux-support/drivers/lzamp_amp_mailmsg.c:419-493 | a turn takes at most the oldest p0 frame, and a turn that stays in the loop takes it |
| Lifecycle.Device.ImageWrite | scripts/linux-support/drivers/lzamp_amp_mailmsg.c:673-711 | busy, seek and size refusals; otherwise exactly the given bytes are copied at the given offset |
| Lifecycle.Device.Start | scripts/linux-support/drivers/lzamp_amp_mailmsg.c:1739-1806 | refusals, then a fresh nonzero generation, cleared rings and STARTING, or UNARMED if CPU_ON failed |
| Lifecycle.Device.Rearm | scripts/linux-support/drivers/lzamp_amp_mailmsg.c:1827-1870 | refusals (which may still mark OFFLINE), then the reset session |
| Lifecycle.Device.PreflightLoop | scripts/linux-support/drivers/lzamp_amp_mailmsg.c:1452-1467 | the preflight loop as written, over whatever codes its checks answered |
| Lifecycle.Device.StopStore | scripts/linux-support/drivers/lzamp_amp_mailmsg.c:1485-1534 | refusals, the roll-back to ACTIVE when no frame was queued, and STOPPING with the sequence of the queued request |
| Lifecycle.Device.Open | scripts/linux-support/drivers/lzamp_amp_mailmsg.c:1056-1088 | one more open file if and only if ACTIVE; else the error that tells the other states apart |
| Lifecycle.Device.ClaimReader | scripts/linux-support/drivers/lzamp_amp_mailmsg.c:1105-1124 | one reader for each priority: zero if and only if the file holds the claim afterwards, and claiming twice is harmless |
| Lifecycle.Device.Release | scripts/linux-support/drivers/lzamp_amp_mailmsg.c:1090-1103 | the claim and the file are given back |
| Lifecycle.Device.UserReceive | scripts/linux-support/drivers/lzamp_amp_mailmsg.c:1145-1152 | the gate first, then one receive; success delivers exactly the oldest frame and takes it out |
| Lifecycle.Device.UserRead | scripts/linux-support/drivers/lzamp_amp_mailmsg.c:1143-1170 | one pass of the read loop: a frame, an error, or sleep |
| LifecycleRings.ReceiveRefines | mailmsg/mailmsg_endpoint.c:134-164 | receive on the reverse rings of this model answers, delivers and leaves what the endpoint's receive answers, delivers and leaves on the real rings |
| LifecycleRings.ShownIsReady | mailmsg/mailmsg.c:35-60 | a page that shows real rings, whatever their slots hold, carries only the codes on which every step of the lifecycle is defined |
| LifecycleRings.PushRefines | mailmsg/mailmsg.c:9-33 | a push that a real reverse ring accepts is a possible lifecycle step, after which the page shows the rings |
| LifecycleRings.StopRequestRefines | scripts/linux-support/drivers/lzamp_amp_mailmsg.c:1506-1524 | the driver's stop request is the endpoint's send: same code, generator and roll-back, and a queued request is one intact STOP_REQUEST behind what p0 held, with the sequence that the driver notes |
| LifecycleSafety.EveryRunIsSafe | scripts/linux-support/drivers/lzamp_amp_mailmsg.c:280-527 | every reachable state: armed if and only if CPU_ON was attempted and returned 0; open sessions have equal nonzero peer, session and shared generations; reader counts equal claims and are at most one; open files only in ACTIVE or OFFLINE; an armed image is the complete upload |
| LifecycleSafety.EveryTransitionHasItsCause | scripts/linux-support/drivers/lzamp_amp_mailmsg.c:303-527 | each change of session state happens only by the listed step, under the listed condition, from the listed state; a timeout only by work that found the deadline passed, at its start or between two turns |
| LifecycleEffects.TimeoutWorkExactly | scripts/linux-support/drivers/lzamp_amp_mailmsg.c:498-527 | timeout work does nothing before the deadline or outside a start or stop; else a start times out, and a stop goes OFFLINE with its result kept if and only if STOP_READY is recorded and the sample is OFF, and otherwise times out with -ETIMEDOUT |
| LifecycleEffects.OverdueStopExactly | scripts/linux-support/drivers/lzamp_amp_mailmsg.c:510-523 | the same, as an if-and-only-if, of every STOPPING state that a run reaches |
| LifecycleEffects.ControlLoopDecides | scripts/linux-support/drivers/lzamp_amp_mailmsg.c:419-493 | for every queue, arrivals and deadline: the loop passes over stale, damaged and non-matching frames in order, and then waits, times out, opens the session, records STOP_READY, or reopens on STOP_REFUSED, each with the result that it records |
| LifecycleEffects.OneDecision | scripts/linux-support/drivers/lzamp_amp_mailmsg.c:419-493 | that description leaves exactly one turn in which the loop can end |
| LifecycleEffects.ControlWorkExactly | scripts/linux-support/drivers/lzamp_amp_mailmsg.c:402-496 | control work in a reachable state: nothing outside a start or stop, a timeout behind the deadline, and else the decision of the loop |
| LifecycleEffects.SampleExactly | scripts/linux-support/drivers/lzamp_amp_mailmsg.c:323-379 | a sample takes an armed session OFFLINE if and only if it is OFF and CPU3 was seen on before, wakes all readers then, and never touches a result |
| LifecycleEffects.ImageExactly | scripts/linux-support/drivers/lzamp_amp_mailmsg.c:673-711 | the refusals of an image write, and else exactly the given bytes at the given offset |
| LifecycleEffects.StartExactly | scripts/linux-support/drivers/lzamp_amp_mailmsg.c:1739-1806 | the refusals of a start, and else the whole new session, with the next nonzero generation and CPU_ON's answer as its result |
| LifecycleEffects.RearmExactly | scripts/linux-support/drivers/lzamp_amp_mailmsg.c:1827-1870 | the refusals of a rearm, and else what it forgets and what it keeps |
| LifecycleEffects.StopExactly | scripts/linux-support/drivers/lzamp_amp_mailmsg.c:1485-1534 | in a reachable state: -ENOLINK, -EBUSY or -ENOSPC under their exact conditions, and else STOPPING with the next sequence and the doorbell's answer |
| LifecycleEffects.ReadExactly | scripts/linux-support/drivers/lzamp_amp_mailmsg.c:1143-1170 | what a reader gets in a reachable state for every frame that its ring may begin with |
| LifecycleSafety.OpenedByReply | scripts/linux-support/drivers/lzamp_amp_mailmsg.c:446-492 | the data plane opens only on an accepted SESSION_READY or STOP_REFUSED that answers this session |
| LifecycleSafety.OfflineNeedsEvidence | scripts/linux-support/drivers/lzamp_amp_mailmsg.c:327-338 | OFFLINE is entered only on an OFF sample after something in this session showed that CPU3 ran |
| LifecycleSafety.FinishedIsTerminal | scripts/linux-support/drivers/lzamp_amp_mailmsg.c:381-398 | over any run without a rearm, a timed-out or offline session stays so or goes OFFLINE |
| LifecycleSafety.CarveoutChanges | scripts/linux-support/drivers/lzamp_amp_mailmsg.c:681-707 | only an accepted image write changes the carve-out, below the image size, before CPU_ON, and it appends to the upload |
| LifecycleSafety.ImageIsFrozen | scripts/linux-support/drivers/lzamp_amp_mailmsg.c:1744-1860 | while CPU_ON is attempted no step changes the image, and the flag falls only in a rearm that saw OFF, no open file and no doorbell |
| LifecycleSafety.RunningImageNeverOverwritten | scripts/linux-support/drivers/lzamp_amp_mailmsg.c:1827-1860 | under the PSCI assumption a running CPU3's image is the complete upload and no step changes it |
| LifecycleSafety.RingsHaveOneReader | scripts/linux-support/drivers/lzamp_amp_mailmsg.c:280-298 | a frame leaves a reverse ring only by user code while ACTIVE, by the lifecycle on p0 while STARTING or STOPPING, or when a start clears the page |
| LifecycleSafety.LeavingActiveWakesReaders | scripts/linux-support/drivers/lzamp_amp_mailmsg.c:303-320 | leaving ACTIVE with a file open goes OFFLINE and moves all four reader counters |
| LifecycleSafety.ControlLoopConsumes | scripts/linux-support/drivers/lzamp_amp_mailmsg.c:419-493 | the control loop takes one frame a turn, in order, and no more turns than frames queued, frames arriving, and one |
| LifecycleSafety.PreflightLooksAtOneRing | scripts/linux-support/drivers/lzamp_amp_mailmsg.c:1440-1468 | the preflight succeeds if and only if no file is open, the session is valid and reverse p0 is empty |
| LifecycleSafety.PreflightSound | scripts/linux-support/drivers/lzamp_amp_mailmsg.c:1436-1468 | it agrees with "all eight rings empty, no doorbell" if and only if an earlier check fails, reverse p0 holds a frame, or the other seven rings are empty and no doorbell is pending |
| LifecycleExceptions.PreflightMissesTraffic | scripts/linux-support/drivers/lzamp_amp_mailmsg.c:1452-1461 | from every probed device, for every image and every state of the forward rings and mailbox, a run to an active session with an unread acknowledgement on p1 that enters STOPPING all the same |
| Cpu3Worker.Dispatch | zephyr/app/src/main.c:765-854 | the branches of the request dispatch choose exactly the answers of `Plan`, with their words |
| Cpu3Worker.SendAll | zephyr/app/src/main.c:765-854 | the sends of one request, with the result skipped when its acknowledgement failed and the halt after STOP_READY, keep the loop's variables in step with the machine |
| Cpu3Worker.DrainPriority | zephyr/app/src/main.c:731-861 | the quota loop and the recheck stay in step with the machine while Linux, the handler and the main thread move between any two events, and end at the next priority |
| Cpu3Worker.ServicePass | zephyr/app/src/main.c:707-865 | one service call, with others moving between its events, terminates with exactly the rings, answers, reschedule mask and halt of a run of the machine to the end of its pass |
| Cpu3Worker.UnpublishedPassDoesNothing | zephyr/app/src/main.c:714-719 | a pass begun before READY is published ends at once and changes no ring, answer or mask |
| Cpu3Wakeup.NoLostWakeup | zephyr/app/src/main.c:731-953 | in every reachable state an announced frame is covered by a doorbell bit, the handler, a pending bit with its token, or the pass, unless its priority was given up or CPU3 is offline |
| Cpu3Wakeup.CoverLostExactly | zephyr/app/src/main.c:714-761 | in every reachable state, a step removes the last cover if and only if a pass starts before READY is published or a frame is rejected below the quota, with no new doorbell under way |
| Cpu3Drain.CleanRunsLoseNothing | zephyr/app/src/main.c:873-953 | with intact frames, pushed at any time, and no doorbell bit set before the published flag, every announced frame is covered |
| Cpu3Drain.StopsReceivingExactly | zephyr/app/src/main.c:731-763 | the worker stops receiving from a ring exactly after seven frames, on an empty ring, at an uncommitted frame, or behind a frame that it rejects |
| Cpu3Exceptions.EarlyDoorbellIsLost | zephyr/app/src/main.c:604-606 | a run from boot that drops a doorbell rung between commit and publication and comes to rest with the frame uncovered |
| Cpu3Exceptions.RejectedFrameStrandsTheNext | zephyr/app/src/main.c:735-761 | a run from boot in which a damaged frame makes the worker leave its loop, and CPU3 comes to rest with an intact announced frame uncovered |
| Cpu3Drain.MovesSpend | zephyr/app/src/main.c:873-898 | with Linux silent every move of CPU3 lowers a rank that starts finite |
| Cpu3Drain.MovesUntilStuck | zephyr/app/src/main.c:873-898 | until nothing is left to do, some move of CPU3 is possible |
| Cpu3Drain.WorkerDrainsAnnouncedRings | zephyr/app/src/main.c:721-896 | once Linux is silent and with no frame to reject, CPU3 makes at most a stated number of moves; at rest no announced frame is left, and a ring whose every frame was announced at the start is empty |
| Cpu3Fairness.NoPendingPriorityIsStarved | zephyr/app/src/main.c:721-865 | from every reachable state with READY published, whatever Linux goes on pushing, a pending priority is reached within 260 worker steps, or CPU3 goes offline first |
| Cpu3Replies.ReadyIsFirstAndOnce | zephyr/app/src/main.c:574-719 | READY is committed at most once and before every other frame on any ring; main thread and worker are never both inside a send |
| Cpu3Replies.ResultsFollowTheirAck | zephyr/app/src/main.c:797-849 | on every ring a result stands right behind the status-zero acknowledgement of the same request, and no request gets two verdicts |
| Cpu3Replies.NothingAfterStopReady | zephyr/app/src/main.c:1001-1047 | STOP_READY is the last frame of p0 and CPU3 commits nothing more, whatever happens |
| Cpu3Answers.EveryFrameIsDue | zephyr/app/src/main.c:731-854 | in every run from boot, every frame on a reverse ring is the READY of this generation or an answer that is due, by its kind and words, to the request of that number, which is the one that Linux pushed as that number |
| Cpu3Answers.EverythingDueIsSent | zephyr/app/src/main.c:731-854 | everything that is due to a request that the worker is done with, and for which no send found the ring full, is on its ring |
| Cpu3Answers.NeverStopsWithoutControl | zephyr/app/src/main.c:774-784 | a build without stop control never sends STOP_READY and never takes CPU3 offline |
| Cpu3Answers.StopRequestsAreAnswered | zephyr/app/src/main.c:765-786 | a stop request gets READY with stop control, BUSY without, INVALID_REQUEST if it has a payload, naming its sequence |
| Cpu3Answers.PlainRequestsAreAnswered | zephyr/app/src/main.c:850-854 | a PING gets PONG, other types NOP, with the value plus one modulo 2^32, and an ACK on p0 and p1 |
| Cpu3Answers.DeviceRequestsAreAnswered | zephyr/app/src/main.c:797-849 | a served device request gets ACK and its result, a GPIO read with line and level; any other gets NACK |
| Cpu3Answers.DamagedRequestsAreAnswered | zephyr/app/src/main.c:735-761 | a damaged request on p0 or p1 gets NACK with the reason for its damage |
| StopProtocol.StopReadyIsFinal | scripts/linux-support/drivers/lzamp_amp_mailmsg.c:467-492 | once Linux has recorded STOP_READY no run of both sides brings that session back to ACTIVE |
| StopSides.Cpu3KeepsItsWord | zephyr/app/src/main.c:550-568 | CPU3 adds at most one frame to p0 in a step, none once offline, and goes offline exactly with STOP_READY |
| StopSides.Cpu3RunKeepsItsWord | zephyr/app/src/main.c:550-568 | the same of whole runs: what CPU3 adds to p0 ends with the only STOP_READY, and it is offline afterwards exactly if it sent one or was offline before |
| StopSides.FramesArriveAsSent | zephyr/app/src/main.c:528-650 | a frame with the bytes that CPU3 stores, sent by one endpoint and judged by the other, is the frame that the driver model sees: kind, length and words |
| StopSides.AnswersAreUnderstood | scripts/linux-support/drivers/lzamp_amp_mailmsg.c:446-473 | CPU3's READY and stop answers, with this session's generation or this request's sequence, are what the driver's control loop waits for |
| StopJoint.JointRunsFollowTheProtocol | zephyr/app/src/main.c:765-1047 | every run of driver and CPU3 machine together, CPU3 restarting at each successful CPU_ON and moving between the turns of the control loop, is a run of the stop protocol with every step enabled |
| StopJoint.StopIsFinalOnBothSides | scripts/linux-support/drivers/lzamp_amp_mailmsg.c:467-492 | from power-up: when Linux has recorded STOP_READY the CPU3 machine is offline and p0 is empty, and the session is never ACTIVE again |
| ReaderWakeup.NeverSleepsThroughAFrame | scripts/linux-support/drivers/lzamp_amp_mailmsg.c:1143-1176 | a sleeping reader whose counter has not moved has an ACTIVE session and an empty ring or a notification in flight, in every interleaving |
| ReaderWakeup.WrappedCounterStrandsTheReader | scripts/linux-support/drivers/lzamp_amp_mailmsg.c:1172-1175 | from every read that begins on an empty ring with nothing in flight, a run of 2^32 wakes that leaves the reader asleep with a frame in its ring and no notification on its way |
| ReaderWakeup.MovedCounterWakes | scripts/linux-support/drivers/lzamp_amp_mailmsg.c:1172-1175 | fewer than 2^32 wakes since the load always let the reader go |
| WordShifts.LoadWord | zephyr/drivers/rk3588_peripheral_service.c:11-15 | the four shifted and joined bytes are the little-endian value |
| WordShifts.StoreWord | zephyr/drivers/rk3588_peripheral_service.c:17-21 | the four truncated shifts are the little-endian bytes |
| PeripheralCodec.CommandRoundTrip | agent/mailmsg_agent.py:338-346 | the C loads, by shifts on 32-bit words, give back every command that the agent packs, for all words and up to eight bytes |
| PeripheralCodec.PayloadRoundTrip | zephyr/drivers/rk3588_peripheral_service.c:37-43 | repacking what the service loaded gives the same bytes if and only if the bytes behind the data are zero |
| PeripheralCodec.ResultRoundTrip | agent/mailmsg_agent.py:468-478 | C's result, stored by shifts, and Python's unpacked result are inverse to each other, for every signed status |
| PeripheralCodec.FrameRoundTrip | agent/mailmsg_agent.py:344-356 | the 48-byte user record unpacks to what was packed |
| PeripheralCodec.WireLayout | mailmsg/mailmsg.h:131-147 | where each field of a request and of a result lies |
| PeripheralService.Service.Dispatch | zephyr/drivers/rk3588_peripheral_service.c:42-137 | status -22 if and only if the request is malformed for the pin profile; status, value, length and driver calls of every branch as `Serve` and `Calls` say; no bytes with a failure, except what a UART read had delivered |
| PeripheralService.Service.Execute | zephyr/drivers/rk3588_peripheral_service.c:23-147 | a bad envelope answers -1, makes no call and leaves the buffer; otherwise the buffer holds the stored result of this request |
| PeripheralService.SuccessReportsTheDrivers | zephyr/drivers/rk3588_peripheral_service.c:44-146 | a successful answer carries the driver's level or conversion, the bytes it received and zeros behind them; a status is the service's own refusal or that of the last driver call made |
| PeripheralAgent.AcceptedIsNeverInvalid | agent/mailmsg_agent.py:285-413 | no decision that the agent accepts is answered -22, in either pin profile, and the answer names its operation |
| PeripheralAgent.AcceptedExactly | agent/mailmsg_agent.py:285-320 | the agent accepts a decision if and only if its numbers are words, its data fits, the service would not call it invalid, and the agent's own listed demands are met |
| PeripheralAgent.DecisionReachesTheDevice | agent/mailmsg_agent.py:384-413 | through packing, record, loads and dispatch, the drivers are called with the decision's own arguments, operation by operation, and not at all outside the pin profile |
| PeripheralAgent.AwaitAnswer | agent/mailmsg_agent.py:440-493 | the poll loop's outcome for every sequence of events, with the name of each failure, and the read error that it lets through |
| PeripheralAgent.SilenceExactly | agent/mailmsg_agent.py:441-456 | with nothing to read, the deadline, the end of the session or a failed read ends the waiting, by name |
| PeripheralAgent.SuccessHasBoth | agent/mailmsg_agent.py:457-488 | a success has read an acknowledgement and a status-zero result naming the same request, and reports that result |
| PeripheralRpc.OneCallOneAnswer | zephyr/app/src/main.c:797-815 | with one call on an empty p1, CPU3's frames there are nothing, one verdict, or the acknowledgement and the result of that call, all sent for that one request |
| PeripheralRpc.SuccessBelongsToTheCall | agent/mailmsg_agent.py:440-493 | whatever the answers to other requests, with nothing but acknowledgements waiting in p1 when the call begins a success is the service's answer to that very request: sequence, operation, status, value and bytes |
| PeripheralRpc.SuccessTellsTheDevice | agent/mailmsg_agent.py:416-493 | a reported success means that the drivers were called with that decision's arguments, and the value and bytes reported are the driver's |
| PeripheralRpc.SuccessExactly | agent/mailmsg_agent.py:440-488 | for every content of p1 and every timing, the agent succeeds if and only if, of the frames that come in time, the first that is no status-zero acknowledgement is a good result of its operation (or a result in front is followed by an acknowledgement of the same sequence), and reports that frame's result |
| PeripheralRpc.OutcomeExactly | agent/mailmsg_agent.py:440-488 | without a lone result in front, the first frame that is no status-zero acknowledgement decides the call, and its failure has the listed name |
| PeripheralRpc.SuccessIsOwnExactly | agent/mailmsg_agent.py:440-493 | from wherever in p1 the agent begins to read, the frame taken was sent for this very call if and only if everything waiting there when the call began is status-zero acknowledgements; without a lone result in front, a stale success is reported if and only if the stale frames alone hold one |
| PeripheralRpc.OrphanEndsInMismatch | agent/mailmsg_agent.py:482-483 | a good result that has lost its acknowledgement, followed by an acknowledgement of another sequence, ends the call in sequence_mismatch |
| PeripheralExceptions.LateAnswerPassesForTheNext | agent/mailmsg_agent.py:440-493 | a run from boot, for every successful late answer, after which the next call of the same operation reports it before CPU3 has received that call |
| Clock.Cru.HiwordUpdate | zephyr/drivers/rk3588_peripheral_clock.c:57-65 | the written word changes exactly the field that mask and shift select |
| Clock.Cru.GateSet | zephyr/drivers/rk3588_peripheral_clock.c:67-72 | one gate bit is cleared to enable and set to disable |
| Clock.Cru.UartEnable | zephyr/drivers/rk3588_peripheral_clock.c:85-94 | the four writes of a UART, in order |
| Clock.Cru.Enable | zephyr/drivers/rk3588_peripheral_clock.c:96-151 | the ordered writes of each peripheral; an unknown one is refused and nothing is written |
| Clock.Cru.Disable | zephyr/drivers/rk3588_peripheral_clock.c:153-191 | the ordered gate closings of each peripheral; an unknown one is refused |
| ClockSafety.MuxMovesOnlyWhileGated | zephyr/drivers/rk3588_peripheral_clock.c:85-191 | over every call sequence from every register state, a mux or divider field changes only while its leaf gates are closed |
| ClockSafety.OnlyOwnBitsChange | zephyr/drivers/rk3588_peripheral_clock.c:57-191 | a call changes no bit outside its peripheral's own fields |
| ClockSafety.CallsCommute | zephyr/drivers/rk3588_peripheral_clock.c:96-191 | calls for different peripherals commute |
| ClockSafety.CallReaches | zephyr/drivers/rk3588_peripheral_clock.c:96-191 | after enable the parent and divider are the selected ones and every gate is open; after disable every gate is closed |
| ClockSafety.BusOutlivesLeaf | zephyr/drivers/rk3588_peripheral_clock.c:85-191 | over every call sequence, after every single write, no leaf clock runs without its bus clock if none did at the start |
| ClockSafety.DisableReversesEnable | zephyr/drivers/rk3588_peripheral_clock.c:96-191 | disable closes the gates that enable opened, in the opposite order |

## Left out

- Sysfs formatting, status pages, probe and registration, mailbox-channel requests and their unwinding: I/O plumbing.
- The legacy ping and response lines and the diagnostic observation pages: not part of the MailMsg data plane.
- Cache maintenance, MMU, assembly and firmware: only the publish/acquire contract and the PSCI assumption remain.
- JSON, regular expressions and HTTP in the agent; the model starts from parsed arguments.
- The UART, SPI, I2C, PWM, SARADC, GPIO, reset and pin drivers: their results are inputs of the service.
- Line-granular caches: the two ring indices are adjacent words, so only field granularity is modelled.
- `mailmsg_user_removing` is never set by the driver, so its checks are not modelled.
- Test builds of CPU3 (skipped READY, skipped priority, held doorbell, self-off value) and the agent's increment, GPIO-read and IMU calls.
- Cpu3Service: the interrupt handler, the READY publisher and the worker's wait are steps on a state value, because other
  cores move between their instructions; the worker's drain loop is also given in its own form in Cpu3Worker.
- LifecycleSafety.ImageIsFrozen: speaks of the driver's writes; what CPU3 writes into its own memory is not modelled, and
  the status page behind the image is modelled by its header and rings instead of its bytes.
- Lifecycle.Device.UserReceive: the copy to user space and the poll mask are not modelled.
- Lifecycle.Device.StopStore: whether the forward ring had room and what the doorbell answered are inputs;
  LifecycleRings.StopRequestRefines ties them and the queued request to the endpoint's send.
- Cpu3Worker.Dispatch: the bytes of a peripheral result are those of PeripheralService; its answer carries the sequence.
- StopJoint.StopIsFinalOnBothSides: what Linux pushes towards CPU3 is any sequence of frames, not only what the driver's
  sends queue, so the theorem covers more runs than there are.
- PeripheralAgent.AwaitAnswer: the details that go with a failure, and the frame sequences in a success, are left out.
- Clock.Cru.HiwordUpdate: words are sets of bit positions, so the address arithmetic of the register base is not modelled.
