# A verified model of the LTE scheduling layer

This project models, in Dafny, the parts of the LTE eNodeB and UE physical layer
in which threads meet, blocks are retransmitted and two ends of a protocol have to
agree, and proves what they keep over whole runs. `dafny verify dfyconfig.toml` checks
the whole project.

| file | what it models |
|---|---|
| `FrontEnd.dfy` | the sequential uplink front end, and when two logs of signal-processing calls do the same work |
| `FepHandshake.dfy` | the two-thread front end as a transition system: every atomic step of caller and worker, every interleaving, spurious wakeups |
| `UeState.dfy` | the eNodeB's record of one UE: HARQ processes and statistics |
| `UeTable.dfy` | adding, finding and removing UEs |
| `DlFeedback.dfy` | downlink HARQ feedback and the conservation of blocks |
| `UlReception.dfy` | one uplink reception and the conservation of rounds |
| `Msg3Timing.dfy`, `RandomAccess.dfy` | Msg3 timing, and random access at the eNodeB |
| `UeAccess.dfy` | the UE's side of random access: one subframe in place, and runs of the physical layer |
| `UeRuns.dfy` | whole runs of the UE with MAC's contention-resolution timer, and both sides together |
| `UlFailure.dfy` | UL failure detection |
| `ENodeB.dfy` | all of the eNodeB's operations in place, on an array of UE records, each proved equal to its specification function |
| `DecodeJoin.dfy` | the loop that joins the parallel turbo decoders |
| `Pucch.dfy` | PUCCH resources, and TDD acknowledgements at both ends |
| `SrOpportunity.dfy` | scheduling-request opportunities at both ends |
| `Mib.dfy` | packing the master information block, and the UE's recovery of the frame number |
| `BitString.dfy` | ASN.1 BIT STRINGs read into integers |
| `Sse.dfy` | SSE2 stand-ins for wider instructions |
| `TestScheduler.dfy` | the dispatch of test cases to machines |
| `Arithmetic.dfy` | division with remainder |

Signal processing and channel decoding are events or parameters: the results of
decoding, the PHICH detector's word and the growth of `complete_turbo` are arbitrary
inputs that the theorems quantify over. The MAC layer is an environment: at the eNodeB
its one effect is that an empty Msg3 clears `Msg3_flag`; at the UE its
contention-resolution timer, `RA_active`, `ra_failed` and `ra_succeeded` are modelled,
and what it receives and when it starts an access are arbitrary inputs.

## What the model says about the code

Where a property that one would expect fails, the model keeps the code and the
theorem gives the exact condition.

- The UE stores the frame of Msg3 reduced to 10 bits but compares it with a counter
  that is not (`targets/RT/USER/lte-ue.c:1029` and `:1118`). A grant is answered if and
  only if no frame boundary lies between it and Msg3 or the UE's counter is still below
  1023
  (`UeRuns.FirstMsg3SentIff`).
- After a NAK the UE retransmits Msg3 in the right subframe, and 4 subframes later it
  transmits on another process, because it adds the 8 subframes of
  `get_Msg3_alloc_ret` to the time of the PHICH. If that process is at round 0 this makes
  it live, and it is retransmitted for as long as it is refused, beyond
  `maxHARQ_Msg3Tx` and after `ulsch_Msg3_active` was cleared
  (`UeRuns.RefusedUntilExpiry`). An ACK for it makes the UE forget that it is in random
  access, and then Msg3's own process goes on beyond the limit
  (`UeRuns.ForgottenUntilExpiry`). The contention-resolution timer ends both, but each
  such transmission made as Msg3 restarts it. The UE keeps to Msg3's times and number if
  and only if no refusal that leaves transmissions stores a time that its frame counter
  meets before the first Msg3's timer runs out (`UeRuns.KeepsToMsg3Iff`);
  `UeRuns.TransmitsExactly` gives all its transmissions.
- A retransmission does not restart the timer. With a timer of 8 subframes it runs out
  before the first retransmission, which the eNodeB still waits for: the UE sends each
  Msg3 that is expected if and only if the timer has not run out
  (`UeRuns.SentWheneverExpected`).
- Once the timer runs, every run's transmissions end (`UeRuns.EveryRunEnds`). But
  `ra_failed` leaves HARQ processes live (`UeRuns.FailureLeavesLive`): in the next access
  they take Msg3's place or move its time (`UeRuns.Msg3WithLeftoversIff`), and if that
  access's Msg3 is never due, no timer starts and such a process is transmitted for as
  long as it is refused, without end (`UeRuns.LeftoverWithoutEnd`).
- `maxHARQ_Msg3Tx` is compared for equality, and the configuration reader accepts 0: a
  failing Msg3 is then never given up (`RandomAccess.AbandonedExactlyAtLimit`).
- A one-shot Msg3 frees the UE's slot and then puts the freed slot into the mode of a
  connected UE; an abandoned UE's mode is zeroed by the removal, not left at PRACH
  (`UlReception.Msg3Outcome`).
- Adding an RNTI that is already in the table makes two slots share it
  (`UeTable.AddKeepsDistinct`).
- The UE's PUCCH resource goes through 8 bits: an answer on a resource of 256 or more is
  sent elsewhere (`Pucch.EndsAgreeOnResources`).
- TDD multiplexing without a scheduling request never acknowledges, which is right if and
  only if the UE decoded none of the blocks that are waited for
  (`Pucch.MultiplexingAloneRightIff`).
- With its second assignment missed the UE's multiplexing answer without a request says,
  by Table 10.1-2, the opposite about the first block (`Pucch.AnswerByTableIff`).
- In TDD configuration 3 blocks of the special subframe are never answered
  (`DlFeedback.AnsweredOnce`).
- Bundling without a scheduling request acknowledges both blocks when the first
  assignment was missed and the second block decoded, and in that case only, resources
  fitting into 8 bits (`Pucch.BundlingAloneWrongIff`); with a request, when one of two
  blocks was decoded (`Pucch.BundlingWithSrWrongIff`).
- With 4 transmit antennas the UE decodes the PBCH and leaves its frame counters alone
  (`Mib.Ue.Pbch`).
- In TDD configuration 1 two uplink subframes are received with no test between. The
  consecutive-error count then can pass the tested value, where it stays until a success
  (`UlFailure.SkippedInConfig1`); in FDD and configuration 3 it cannot
  (`UlFailure.TestedInTime`). `UlFailure.NeverPastIff` says when it does.
- At the end of a rate-adaptation window the MCS offset rises by at most one step but
  falls from 1 to -1 at once (`DlFeedback.AdaptMoves`).
- A test thread that cannot be started disables all later generic and softmodem tests
  (`TestScheduler.Dispatcher.HandleGeneric`, `TestScheduler.Dispatcher.Dispatch`); a
  machine named twice may be given to two threads (`TestScheduler.FreeIsNotBusyIff`).

## Model

| member | source | states |
|---|---|---|
| `FrontEnd.Receiver.FepFull` | openair1/SCHED/phy_procedures_lte_eNb.c:2455-2481 | the sequential front end makes on both slots of the subframe, and on no other, the removal call once and before all else, and one demodulation of each of symbols 0 to half-1 in order, and of no other symbol |
| `FrontEnd.RemovalComesFirst` | openair1/SCHED/phy_procedures_lte_eNb.c:2315-2332 | in any log that does a subframe, every demodulation has its own slot's 7.5 kHz removal before it |
| `FrontEnd.EachCallOnce` | openair1/SCHED/phy_procedures_lte_eNb.c:2315-2332 | in such a log the removal of each of the two slots and the demodulation of each of their symbols 0 to half-1 stand exactly once, and those of no other slot or symbol stand at all |
| `FrontEnd.SymbolsInOrder` | openair1/SCHED/phy_procedures_lte_eNb.c:2315-2332 | in such a log a slot's symbols are demodulated in order |
| `FrontEnd.ReplayIsSlotwise` | openair1/SCHED/phy_procedures_lte_eNb.c:2315-2332 | whatever the calls compute on the buffer of their slot, a slot's buffer depends only on the calls on that slot |
| `FrontEnd.SameSubframeSameBuffers` | openair1/SCHED/phy_procedures_lte_eNb.c:2455-2481 | two logs that do the same subframe leave the same sample buffers, whatever the calls compute |
| `FepHandshake.InvHolds` | openair1/PHY/defs.h:1020-1080 | the invariant on mutex, counter, program counters and work done holds after every interleaving of any number of calls, spurious wakeups included |
| `FepHandshake.ControlKept` | openair1/PHY/defs.h:1020-1080 | each step keeps mutual exclusion, the counter in {-1, 0}, and that a thread blocked with its condition met has a signal coming |
| `FepHandshake.ProgressKept` | openair1/SCHED/phy_procedures_lte_eNb.c:2339-2356 | each step keeps that the log holds exactly the calls both threads have made for the current subframe |
| `FepHandshake.ReturnedCallDidItsSubframe` | openair1/SCHED/phy_procedures_lte_eNb.c:2409-2450 | when a call has returned, in any run, its log holds the removals and demodulations of the subframe it was called for, each once and in order on each slot, and nothing else |
| `FepHandshake.RefinesSequential` | openair1/SCHED/phy_procedures_lte_eNb.c:2409-2481 | the two-thread front end leaves the same buffers as the sequential one, whatever the calls compute |
| `FepHandshake.SafeThroughout` | openair1/SCHED/phy_procedures_lte_eNb.c:2421-2448 | at every moment the counter is -1 or 0, the busy exit is not taken, no call is made for another call's subframe, and no wakeup is lost |
| `FepHandshake.NoDeadlock` | openair1/PHY/defs.h:1020-1080 | inside a call some thread can always step without a spurious wakeup |
| `FepHandshake.CallIsBounded` | openair1/SCHED/phy_procedures_lte_eNb.c:2409-2450 | from the entry of a call both threads take at most 2*half+28 steps, and 3 more for each spurious wakeup, before they rest |
| `UeTable.AddKeepsDistinct` | openair1/SCHED/phy_procedures_lte_eNb.c:151-187 | adding keeps RNTIs distinct if and only if the RNTI is 0 or new or the table is full |
| `UeTable.RemoveFreesItsSlot` | openair1/SCHED/phy_procedures_lte_eNb.c:189-222 | removing frees exactly the slot that had the RNTI: no RNTI, no process in use, nothing waiting for feedback, nothing counted, the Msg3 fields as they were; no slot is findable by the RNTI and every other slot is as it was |
| `UeTable.FindInvertsAdd` | openair1/SCHED/phy_procedures_lte_common.c:789-813 | after an addition find_ue gives the slot find_next_ue_index had named, and all other RNTIs are found where they were |
| `UeTable.RunKeepsConsistent` | openair1/SCHED/phy_procedures_lte_eNb.c:151-239 | over any run of additions of new RNTIs and removals, RNTIs stay distinct and equal in a slot's three copies |
| `ENodeB.Station.AddUe` | openair1/SCHED/phy_procedures_lte_eNb.c:151-187 | writes the three RNTIs of the first free slot and nothing else, gives its index, and -1 exactly if the table is full |
| `ENodeB.Station.FindNextUeIndex` | openair1/SCHED/phy_procedures_lte_eNb.c:224-239 | gives the slot add_ue will take, -1 exactly if there is none |
| `ENodeB.Station.FindUe` | openair1/SCHED/phy_procedures_lte_common.c:789-813 | gives the first slot whose channel has the RNTI, -1 if none has |
| `ENodeB.Station.RemoveUe` | openair1/SCHED/phy_procedures_lte_eNb.c:189-222 | frees the first slot with the RNTI, as new but for block sizes, PHICH activity and Msg3 fields, and no other; -1 if none has it |
| `ENodeB.Station.ReadFeedback` | openair1/SCHED/phy_procedures_lte_eNb.c:1277-1385 | the two-entry table holds o_ACK[0] and, in TDD without bundling, o_ACK[1] from the PUSCH; the first payload bit from the PUCCH; with multiplexing and no request what Table 10.1-2 of TS 36.213 says for every resource and bits |
| `ENodeB.Station.ReadAckCount` | openair1/SCHED/phy_procedures_lte_eNb.c:1327-1345 | inverts the code of Table 7.3-1 of TS 36.213: bits that stand for k ACKs among M blocks give k, others 0 |
| `ENodeB.Station.ProcessHarqFeedback` | openair1/SCHED/phy_procedures_lte_eNb.c:1387-1525 | settles the scheduled subframes in order by their bits, in one UE's record and no other; in FDD the block of 4 subframes before, by the one bit received |
| `ENodeB.Station.SettleInPlace` | openair1/SCHED/phy_procedures_lte_eNb.c:1408-1520 | one subframe's feedback changes the record as an ACK, a NAK or not at all, with rate adaptation after each counted one |
| `ENodeB.Station.Judge` | openair1/SCHED/phy_procedures_lte_eNb.c:1424-1486 | the step-by-step update for an ACK or a NAK is the specified one: counters at the block's old round, round, status, released subframe |
| `DlFeedback.SettleBooks` | openair1/SCHED/phy_procedures_lte_eNb.c:1424-1518 | one subframe's feedback in figures: one ACK or NAK more at the block's round and nothing else counted, round, status, release, bytes acknowledged and rate adaptation, all other processes and subframes as they were |
| `DlFeedback.FddFeedbackBooks` | openair1/SCHED/phy_procedures_lte_eNb.c:1275-1304 | in FDD, from PUSCH or PUCCH, the block sent 4 subframes before gains one ACK if the bit received is 1 and one NAK if it is 0 |
| `DlFeedback.TddFeedbackBooks` | openair1/SCHED/phy_procedures_lte_eNb.c:1305-1406 | in TDD, from the PUSCH or one PUCCH bit, the first scheduled subframe is settled by the first bit and the second by the second, which with bundling is the first |
| `DlFeedback.AnswersByTable` | openair1/SCHED/phy_procedures_lte_common.c:231-320 | which downlink subframes an uplink subframe answers, by the distances of Table 10.1-1 of TS 36.213 |
| `DlFeedback.AnsweredOnce` | openair1/SCHED/phy_procedures_lte_common.c:231-320 | every subframe that carries blocks is answered by exactly one uplink subframe, once; in configuration 3 the special subframe is not |
| `DlFeedback.AdaptMoves` | openair1/SCHED/phy_procedures_lte_eNb.c:1488-1518 | what the chain of tests amounts to: by how much the MCS offset moves for each number of first NAKs, at the end of a window and before it |
| `DlFeedback.AckedBalanced` | openair1/SCHED/phy_procedures_lte_eNb.c:1464-1486 | an ACK keeps the books of every process balanced |
| `DlFeedback.NakedBalanced` | openair1/SCHED/phy_procedures_lte_eNb.c:1427-1463 | a NAK keeps the books of every process balanced, the last round's included |
| `DlFeedback.FeedbackBalanced` | openair1/SCHED/phy_procedures_lte_eNb.c:1387-1525 | so does a whole feedback, on any bits from any source |
| `DlFeedback.AlwaysBalanced` | openair1/SCHED/phy_procedures_lte_eNb.c:1387-1486 | over every run of transmissions, feedback, first scheduling requests and resets, at each round what came in was acknowledged, refused, is waiting or was lost to a reset |
| `DlFeedback.FlowConservation` | openair1/SCHED/phy_procedures_lte_eNb.c:1387-1486 | between resets NAK[r] = ACK[r+1] + NAK[r+1] + (1 if active at r+1), NAK at the last round = layer-2 errors, and the round stays below the limit |
| `DlFeedback.EveryBlockAccountedFor` | openair1/SCHED/phy_procedures_lte_eNb.c:1387-1486 | every block ever started was acknowledged once, given up once, lost to the first scheduling request or is the one still active |
| `DlFeedback.SettledMeansReleased` | openair1/SCHED/phy_procedures_lte_eNb.c:1424-1486 | a block stops being active if and only if its subframe is released |
| `DlFeedback.FeedbackOnReleased` | openair1/SCHED/phy_procedures_lte_eNb.c:1394-1424 | feedback about unscheduled or released subframes changes nothing |
| `DlFeedback.ReleasedUntilTransmit` | openair1/SCHED/phy_procedures_lte_eNb.c:1387-1486 | over any run a released subframe stays released until it is transmitted in again |
| `DlFeedback.RepeatedFeedbackIgnored` | openair1/SCHED/phy_procedures_lte_eNb.c:1387-1486 | in FDD repeated feedback for a settled subframe changes nothing, over any run without a new transmission there |
| `UlReception.HeardNormally` | openair1/SCHED/phy_procedures_lte_eNb.c:2762-2946 | outside random access a reception is a success, a failure with rounds left or an exhaustion, and nothing else |
| `UlReception.NormalOutcome` | openair1/SCHED/phy_procedures_lte_eNb.c:2739-2946 | the same in figures: PHICH ACK, NAK or silence, round, schedule, attempts, errors and consecutive errors for a decoded block, a failure and the last failure; all other processes as they were; in FDD the downlink block of 4 subframes before settled by o_ACK[0] |
| `UlReception.Msg3Outcome` | openair1/SCHED/phy_procedures_lte_eNb.c:2786-3006 | for each result, MAC verdict and round of a Msg3: which mode, RNTIs, process, timing and statistics the UE is left with, and when its slot is freed |
| `UlReception.Msg3Downlink` | openair1/SCHED/phy_procedures_lte_eNb.c:2829-3066 | the downlink of a UE whose Msg3 was received: cleaned with a freed slot, statistics zeroed on connection, as it was after a failure, and then in FDD the feedback settled |
| `UlReception.FailureCounts` | openair1/SCHED/phy_procedures_lte_eNb.c:2786-2881 | a failure counts one attempt and one error at the block's round and moves only that block |
| `UlReception.AlwaysBalanced` | openair1/SCHED/phy_procedures_lte_eNb.c:2762-2946 | over every run of receptions and restarts each round's failures are the next round's attempts, up to what waits or was restarted |
| `UlReception.FlowConservation` | openair1/SCHED/phy_procedures_lte_eNb.c:2762-2946 | while no restart throws a block away (a PHICH ACK restarts at round 0) round_errors[r] = attempts[r+1] + (1 if waiting at r+1) less the block there at the start, the last round's errors are ulsch_errors, errors never exceed attempts |
| `UlReception.ConnectedCountsNothing` | openair1/SCHED/phy_procedures_lte_eNb.c:2979-3006 | receiving Msg3 leaves statistics from which that conservation starts |
| `ENodeB.Station.ReceiveUlsch` | openair1/SCHED/phy_procedures_lte_eNb.c:2739-3066 | one reception in place, with removal of the UE and downlink feedback, is the specified update of the whole table; outside random access it changes one slot only, with PHICH, round, counters and feedback as in UlReception.NormalOutcome |
| `ENodeB.Station.ReceiveFailure` | openair1/SCHED/phy_procedures_lte_eNb.c:2786-2900 | the failure branch: next Msg3, abandonment, next round or exhaustion |
| `ENodeB.Station.ReceiveSuccess` | openair1/SCHED/phy_procedures_lte_eNb.c:2943-3006 | the success branch: connection, one-shot Msg3 with removal, or plain success |
| `ENodeB.Station.ProcessMsg3` | openair1/SCHED/phy_procedures_lte_eNb.c:1216-1243 | exactly at the stored time raises Msg3_flag, schedules the process and clears Msg3_active; otherwise clears the flag; nothing else changes in the processes |
| `ENodeB.Station.DetectUlFailure` | openair1/SCHED/phy_procedures_lte_eNb.c:1130-1147 | indicates failure for exactly the slots that count 20, each once, and resets only those |
| `UlFailure.ReceptionCounts` | openair1/SCHED/phy_procedures_lte_eNb.c:2872-2946 | a reception resets, raises or keeps the consecutive-error count as it succeeds, exhausts its rounds or neither |
| `UlFailure.IndicatedEveryTwentieth` | openair1/SCHED/phy_procedures_lte_eNb.c:1137-1146 | with reception and test alternating, the count is the streak of blocks given up modulo 20, and failure is indicated exactly at every 20th of them |
| `UlFailure.TwentyBetween` | openair1/SCHED/phy_procedures_lte_eNb.c:1137-1146 | between two indications without a success 20 more blocks were given up |
| `UlFailure.PastTheLimitForGood` | openair1/SCHED/phy_procedures_lte_eNb.c:1137-1146 | a count past the limit stays past it in any sequence of steps without a success |
| `UlFailure.NeverPastIff` | openair1/SCHED/phy_procedures_lte_eNb.c:1137-1146 | for every sequence of receptions and tests: the count never passes the limit if and only if a test or a success always lies between the block that brings it to the limit and the next one given up |
| `UlFailure.TestedInTime` | openair1/SCHED/phy_procedures_lte_eNb.c:1123-1146 | in FDD and TDD configuration 3 the count never passes the limit, over every run of subframes and receptions |
| `UlFailure.ThreeProcessesCounts` | openair1/SCHED/phy_procedures_lte_eNb.c:2584-2881 | in configuration 1, for a UE with three processes of 4 rounds that never decode, the count at every time |
| `UlFailure.SkippedInConfig1` | openair1/SCHED/phy_procedures_lte_eNb.c:1123-1146 | from count 0 that UE's count passes the limit within 284 subframes and stays past it |
| `UlFailure.NextRound` | openair1/SCHED/phy_procedures_lte_eNb.c:2786-2872 | a failing process goes through its rounds in a circle, so that every mlimit-th failure gives a block up |
| `UlFailure.SkippedByTwoReceptions` | openair1/SCHED/phy_procedures_lte_eNb.c:1137-1146 | the shortest steps that pass the limit: one below it, two blocks given up with no test between, and no later test brings the count back |
| `Msg3Timing.GetMsg3Alloc` | openair1/SCHED/phy_procedures_lte_common.c:41-110 | in FDD the time is exactly 6 subframes on, in TDD 1 and 3 the first uplink subframe at distance 6 or more, wrap included; elsewhere the outputs stay |
| `Msg3Timing.Config1Alloc` | openair1/SCHED/phy_procedures_lte_common.c:61-84 | TDD configuration 1: the earliest legal uplink time from each downlink subframe |
| `Msg3Timing.Config3Alloc` | openair1/SCHED/phy_procedures_lte_common.c:85-108 | TDD configuration 3: the earliest legal uplink time from each downlink subframe |
| `Msg3Timing.DirectionsByTable` | openair1/SCHED/phy_procedures_lte_common.c:469-521 | the directions are those of Table 4.2-2 of TS 36.211 for configurations 1 and 3 |
| `Msg3Timing.HarqPidOfTime` | openair1/PHY/LTE_TRANSPORT/dci_tools.c:5546-5557 | the FDD process number is the time modulo 8 and the 1024-frame wrap keeps it |
| `Msg3Timing.RetransmissionIsEightLater` | openair1/SCHED/phy_procedures_lte_common.c:112-127 | the retransmission time is 8 subframes on, wrap included, and belongs to the same process |
| `Msg3Timing.RetransmissionIsOneFrameLater` | openair1/SCHED/phy_procedures_lte_common.c:128-139 | in TDD the retransmission time is one frame after the reception, wrap included |
| `RandomAccess.GrantExpectsMsg3` | openair1/SCHED/phy_procedures_lte_eNb.c:968-981 | the grant sent at time t makes the eNodeB expect Msg3 at t+6 and sets up the process of that time |
| `RandomAccess.ProcessMeans` | openair1/SCHED/phy_procedures_lte_eNb.c:2635-2660 | one UE's subframe when no Msg3 is due: without a schedule or grant nothing is received and nothing changes but Msg3_flag; otherwise the block is received as UlReception.NormalOutcome says |
| `RandomAccess.KeepsWaiting` | openair1/SCHED/phy_procedures_lte_eNb.c:1216-1243 | before Msg3 is due, other grants and their results do not disturb the wait or the round |
| `RandomAccess.ReceivesMsg3` | openair1/SCHED/phy_procedures_lte_eNb.c:2786-2850 | a due Msg3 ends random access, or failed with transmissions left and the next is due 8 subframes later, one round on |
| `RandomAccess.RandomAccessEnds` | openair1/SCHED/phy_procedures_lte_eNb.c:2786-2982 | however decoding goes, Msg3 is due at exactly every 8th subframe and random access ends with the last of at most maxHARQ_Msg3Tx receptions |
| `RandomAccess.SameProcess` | openair1/PHY/LTE_TRANSPORT/dci_tools.c:5546-5557 | all these times belong to one HARQ process |
| `RandomAccess.AbandonedExactlyAtLimit` | openair1/SCHED/phy_procedures_lte_eNb.c:2819-2836 | a failed Msg3 ends random access if and only if its round is one below maxHARQ_Msg3Tx, so never with a limit of 0 |
| `UeAccess.PidsOfTime` | openair1/SCHED/phy_procedures_lte_common.c:528-535 | the process a PHICH answers is that of 4 subframes before, through the 8-bit frame number too |
| `UeAccess.Ue.ProcessRar` | openair1/SCHED/phy_procedures_lte_ue.c:2380-2426 | a grant, unless the UE is connected, stores the Msg3 time, puts its process to round 0 and sets mode RA_RESPONSE |
| `UeAccess.Ue.RxPhich` | openair1/PHY/LTE_TRANSPORT/phich.c:1345-1413 | an answer changes only its process and the Msg3 state, as NAK or ACK, in random access or not, at the limit or below |
| `UeAccess.Ue.ContentionResolution` | openair2/LAYER2/MAC/ue_procedures.c:341-369 | with RA_active set, the UE's own Msg3 means success and another one failure, and both stop the timer; without it nothing happens |
| `UeAccess.Ue.RaSucceeded` | openair1/SCHED/phy_procedures_lte_ue.c:298-316 | success makes all 8 uplink processes idle, leaves their schedules and rounds, forgets Msg3 and sets mode PUSCH |
| `UeAccess.Ue.CountTimer` | openair2/LAYER2/MAC/ue_procedures.c:1655-1680 | the running timer counts; on reaching the limit exactly it stops, RA_active is cleared and the mode becomes PRACH |
| `UeAccess.Ue.UlschProcedures` | openair1/SCHED/phy_procedures_lte_ue.c:838-970 | a PUSCH is sent if the process is scheduled or Msg3 is due, the schedule is cleared, and Msg3, but no retransmission, starts the timer at 0 |
| `UeAccess.Ue.UeTx` | openair1/SCHED/phy_procedures_lte_ue.c:1295-1395 | on the PRACH nothing is sent and schedules stay; otherwise as the process of the time says |
| `UeAccess.Ue.RunSubframe` | targets/RT/USER/lte-ue.c:762-799 | PHICH, downlink assignment with contention resolution, grant, timer and transmission, in this order, are the specified step on the UE's whole state |
| `UeAccess.ModeAndTimer` | targets/RT/USER/lte-ue.c:762-799 | exactly what one subframe makes of UE_mode, RA_active and the timer, for every state and everything received |
| `UeAccess.SendsExactly` | openair1/PHY/LTE_TRANSPORT/phich.c:1345-1413 | the physical layer alone, in random access: over every run from a grant, for every word of the PHICH detector, the exact times at which it transmits, on Msg3's process and on the other |
| `UeAccess.TriggersExactly` | openair1/SCHED/phy_procedures_lte_ue.c:838-858 | and which of these transmissions are made as Msg3 |
| `UeRuns.FirstMsg3SentIff` | openair1/SCHED/phy_procedures_lte_ue.c:838-841 | Msg3 is sent 6 subframes after the grant, not before, if and only if the stored frame number is the one the UE counts to; otherwise never |
| `UeRuns.TransmitsExactly` | targets/RT/USER/lte-ue.c:762-799 | over every run from a grant at rest, for every word of the PHICH detector and every timer, the exact times at which the UE transmits, until contention resolution is heard or another grant comes |
| `UeRuns.TransmissionsEnd` | openair2/LAYER2/MAC/ue_procedures.c:1655-1680 | no transmission comes 6 + 8 * maxHARQ_Msg3Tx + limit subframes after the grant or later, nor twice the limit after Msg3 if the other process starts at round 0 |
| `UeRuns.TransmitsEveryEighth` | openair1/PHY/LTE_TRANSPORT/phich.c:1345-1388 | while its transmissions are refused the UE transmits 6, 14, 22, ... subframes after the grant if and only if the timer has not run out, whatever is detected on other processes |
| `UeRuns.StrayTransmissionIff` | openair1/PHY/LTE_TRANSPORT/phich.c:1354-1360 | the first refusal leads to a retransmission if and only if the timer is longer than 8, and to a transmission on another process 4 subframes later if and only if also the frame number it stores is the one the UE counts to |
| `UeRuns.KeepsToMsg3Iff` | openair1/PHY/LTE_TRANSPORT/phich.c:1345-1413 | the UE sends only at Msg3's times, and but once or less than maxHARQ_Msg3Tx times again, if and only if no refusal that leaves transmissions stores a time that the UE counts to and that comes before the first Msg3's timer runs out |
| `UeRuns.RefusedUntilExpiry` | openair1/PHY/LTE_TRANSPORT/phich.c:1345-1388 | 2 transmissions allowed and everything refused: exactly when the UE transmits, the last time 10 + limit subframes after the grant unless the limit is 8 |
| `UeRuns.RefusedFromTime0` | openair1/PHY/LTE_TRANSPORT/phich.c:1345-1388 | that input as a run from a grant at time 0, for every timer |
| `UeRuns.ForgottenUntilExpiry` | openair1/PHY/LTE_TRANSPORT/phich.c:1389-1413 | one ACK, for the other process: exactly when the UE transmits, the last time 14 + limit subframes after the grant unless the limit is 8 |
| `UeRuns.ForgottenBeyondLimitIff` | openair1/PHY/LTE_TRANSPORT/phich.c:1389-1413 | there Msg3's process transmits beyond its limit if and only if maxHARQ_Msg3Tx is at most one more than the limit in units of 8 subframes |
| `UeRuns.ForgottenFromTime0` | openair1/PHY/LTE_TRANSPORT/phich.c:1389-1413 | that input as a run from a grant at time 0, for every timer and every limit above 2 |
| `UeRuns.EveryRunEnds` | openair2/LAYER2/MAC/ue_procedures.c:1655-1680 | from any state with the timer running, live leftovers included, nothing is sent limit * (2 + 8 * maxHARQ_Msg3Tx) subframes on or later, without success or another grant |
| `UeRuns.SuccessEnds` | openair1/SCHED/phy_procedures_lte_ue.c:298-316 | after success only what was still scheduled goes out, within 8 subframes, and then nothing, whatever is received |
| `UeRuns.FailureEnds` | openair2/LAYER2/MAC/ue_procedures.c:355-361 | after contention nothing is sent, from that subframe on, until the next grant |
| `UeRuns.SleepsOn` | openair1/SCHED/phy_procedures_lte_ue.c:1295-1299 | on the PRACH with the timer stopped nothing is sent until the next grant |
| `UeRuns.FailureClears` | openair2/LAYER2/MAC/ue_procedures.c:1672-1678 | after an expiry of the timer and after contention RA_active is cleared, unless a new access starts on the PRACH in that subframe |
| `UeRuns.SetByPreambleOnly` | openair2/LAYER2/MAC/ra_procedures.c:334-356 | over every run, once cleared it is set again only by a new access on the PRACH |
| `UeRuns.RetransmitsIff` | openair1/PHY/LTE_TRANSPORT/phich.c:1345-1413 | one answer to a live process: a NAK leads to a transmission 4 subframes later if and only if transmissions are left or Msg3 is forgotten, and neither the mode is PRACH nor the timer runs out; the process and the Msg3 state after NAK and ACK |
| `UeRuns.Msg3WithLeftoversIff` | openair1/SCHED/phy_procedures_lte_ue.c:2380-2426 | whatever earlier accesses left: Msg3 goes out and starts the timer if and only if its frame is the one counted to and neither its process nor the one answered before it is live; and exactly when anything is sent at its time |
| `UeRuns.FailureLeavesLive` | openair1/SCHED/phy_procedures_lte_ue.c:289-296 | an input on which a failed access leaves both processes live |
| `UeRuns.StaleWithoutEnd` | openair1/PHY/LTE_TRANSPORT/phich.c:1371-1388 | with the timer stopped and Msg3 forgotten, a live process transmits at every one of its times for as long as it is refused |
| `UeRuns.LeftoverWithoutEnd` | openair1/PHY/LTE_TRANSPORT/phich.c:1371-1413 | how that comes about: two live leftovers, a grant whose Msg3 time is never met, one ACK; the other process transmits every 8 subframes without end |
| `UeRuns.SentWheneverExpected` | openair1/SCHED/phy_procedures_lte_ue.c:2364-2426 | both ends together, the stored frame being right: each time the eNodeB expects Msg3, until random access ends, the UE transmits if and only if the timer has not run out, given that no contention resolution was heard before; always with more than 8 subframes of timer per retransmission |
| `DecodeJoin.ReceptionIsLocal` | openair1/SCHED/phy_procedures_lte_eNb.c:2829-2836 | with distinct RNTIs a reception changes its own slot only, even when it removes the UE |
| `DecodeJoin.PassIsOutcome` | openair1/SCHED/phy_procedures_lte_eNb.c:2698-2739 | a sequential pass over the slots gives each UE the outcome it would have alone |
| `DecodeJoin.Join` | openair1/SCHED/phy_procedures_lte_eNb.c:2698-2739 | whenever the decoders finish, the loop ends and handles every slot exactly once, each at the first look at which it is inactive or its bit of complete_turbo is set, so taking final results only, and leaves the table a sequential pass over these leaves |
| `DecodeJoin.Sweep` | openair1/SCHED/phy_procedures_lte_eNb.c:2704-2739 | one look at all slots keeps handled UEs at their outcome, handled at their first chance and no others, and the count equal to the slots handled; it handles all once all decoders are done |
| `DecodeJoin.LookAt` | openair1/SCHED/phy_procedures_lte_eNb.c:2706-2739 | one look at one slot handles it exactly if it is waited for and inactive or decoded at that look |
| `DecodeJoin.TestBit` | openair1/SCHED/phy_procedures_lte_eNb.c:2706 | the masked test gives the binary digit of the UE in complete_turbo |
| `DecodeJoin.Handled` | openair1/SCHED/phy_procedures_lte_eNb.c:2737-2739 | handling a slot puts its outcome in place and marks it handled, once |
| `DecodeJoin.DoneBound` | openair1/SCHED/phy_procedures_lte_eNb.c:3133-3137 | the number of handled slots reaches the number of slots exactly when none is waited for |
| `Pucch.UserOfOffset` | openair1/SCHED/phy_procedures_lte_common.c:426-467 | for every table 0 = N0 < N1 < N2 < N3 a resource determines the subframe and CCE that use it |
| `Pucch.OffsetOfUser` | openair1/SCHED/phy_procedures_lte_common.c:426-467 | and each of the 2*N3 resources is used |
| `Pucch.NoCollisionIff` | openair1/SCHED/phy_procedures_lte_common.c:426-467 | answers from CCE indices below k never collide if and only if k is at most N3 |
| `Pucch.NpIsStandard` | openair1/SCHED/phy_procedures_lte_common.c:426-443 | the tables are those of the formula of section 10.1 of TS 36.213 |
| `Pucch.GetN1Pucch3` | openair1/SCHED/phy_procedures_lte_ue.c:470-543 | TDD 3 at the UE: resource and bits for every combination of answers, multiplexing or bundling, with and without a scheduling request; with one the bits are the code of the number of ACKs |
| `Pucch.AnswerByTableIff` | openair1/SCHED/phy_procedures_lte_ue.c:490-531 | multiplexing without a request: by Table 10.1-2 the UE's answer says what it decoded if and only if it did not miss the second assignment; if it did, it says the opposite about the first block |
| `Pucch.EndsAgreeOnResources` | openair1/SCHED/phy_procedures_lte_ue.c:1145-1149 | the eNodeB listens on the resource the UE computes, and the UE's signal is there if and only if the resource is below 256 |
| `Pucch.SameResources` | openair1/SCHED/phy_procedures_lte_eNb.c:1610-1651 | both ends compute the same resources for the same subframes |
| `Pucch.AckOnResource300` | openair1/SCHED/phy_procedures_lte_ue.c:1086 | an ACK for resource 300 reads as silence |
| `Pucch.ReadPucch` | openair1/SCHED/phy_procedures_lte_eNb.c:2012-2145 | which resource the eNodeB reads feedback from and what it reads there, for bundling and multiplexing, with and without a scheduling request seen; silence reads 0 |
| `Pucch.ResourcesDiffer` | openair1/SCHED/phy_procedures_lte_eNb.c:1610-1651 | the two resources of one answer are different |
| `Pucch.NoFalseAckWithSr` | openair1/SCHED/phy_procedures_lte_eNb.c:1327-1406 | multiplexing with a scheduling request: the scheduled blocks are acknowledged exactly when the UE decoded all of them, missed assignments included |
| `Pucch.SrEndToEnd` | openair1/SCHED/phy_procedures_lte_eNb.c:2012-2145 | the same from the UE's answer through the resource: acknowledged exactly when all were decoded and the request's resource fits into 8 bits |
| `Pucch.MultiplexingAloneAlwaysRefuses` | openair1/SCHED/phy_procedures_lte_eNb.c:1401-1406 | without one, every bit pattern settles all scheduled blocks as NAK |
| `Pucch.MultiplexingAloneRightIff` | openair1/SCHED/phy_procedures_lte_eNb.c:1401-1406 | this settles every block by the UE's own answer for it if and only if the UE decoded none of the blocks waited for |
| `Pucch.MultiplexingRefusesADecodedBlock` | openair1/SCHED/phy_procedures_lte_eNb.c:1401-1406 | an input on which it does not |
| `Pucch.BundlingIsRightIff` | openair1/SCHED/phy_procedures_lte_eNb.c:2120-2145 | when bundled feedback tells the truth about all scheduled blocks, for every resource, with and without a scheduling request |
| `Pucch.BundlingAloneWrongIff` | openair1/SCHED/phy_procedures_lte_eNb.c:2124-2131 | without a request and with resources below 256: wrong exactly when both blocks were scheduled, the first assignment missed and the second block decoded |
| `Pucch.BundlingWithSrWrongIff` | openair1/SCHED/phy_procedures_lte_ue.c:520-527 | with one: wrong exactly when one of two scheduled blocks was decoded |
| `Pucch.MissedAssignments` | openair1/SCHED/phy_procedures_lte_eNb.c:2124-2131 | the two inputs with one assignment missed: a false ACK for the first, a rightful refusal for the second |
| `SrOpportunity.OpportunityIff` | openair1/SCHED/phy_procedures_lte_eNb.c:120-148 | for every index at both ends, and for frame numbers reduced to 10 bits or not, an opportunity is a time equal to the offset modulo the period |
| `SrOpportunity.OpportunityAtIff` | openair1/SCHED/phy_procedures_lte_ue.c:351-378 | the same on absolute time |
| `SrOpportunity.PeriodsByTable` | openair1/SCHED/phy_procedures_lte_eNb.c:120-148 | periods and offsets are those of Table 10.1-5 of TS 36.213 |
| `SrOpportunity.OncePerPeriod` | openair1/SCHED/phy_procedures_lte_eNb.c:120-148 | every window of one period, across the wrap too, holds exactly one opportunity |
| `Mib.PackByte2` | openair1/SCHED/phy_procedures_lte_eNb.c:531-590 | the four masked writes to the third byte leave each field readable |
| `Mib.Pack` | openair1/SCHED/phy_procedures_lte_eNb.c:527-591 | from the packed block initial_sync reads the cell's bandwidth (25 resource blocks for one that does not exist), PHICH duration and resource, and the frame number |
| `Mib.ENodeB.Broadcast` | openair1/SCHED/phy_procedures_lte_eNb.c:527-591 | rebuilt every fourth frame only, the block is right for every frame |
| `Mib.BroadcastRun` | openair1/SCHED/phy_procedures_lte_eNb.c:527-591 | over any number of frames, across the wrap, each block carries its frame |
| `Mib.FrameRecovered` | openair1/PHY/LTE_TRANSPORT/initial_sync.c:168-237 | the block's frame bits and the phase add up to the frame number |
| `Mib.SearchPhase` | openair1/SCHED/phy_procedures_lte_ue.c:1668-1700 | the four trials from any starting phase find a decodable phase if there is one |
| `Mib.Ue.Pbch` | openair1/SCHED/phy_procedures_lte_ue.c:1668-1769 | on 1 or 2 antennas the counters follow the cell's frame and the error count is cleared; on 4 they stay; on failure the errors are counted |
| `Mib.FollowsTheCell` | openair1/SCHED/phy_procedures_lte_ue.c:1720-1760 | the frame counter is then congruent to the eNodeB's frame modulo 1024 |
| `Mib.AllFollow` | openair1/SCHED/phy_procedures_lte_ue.c:1720-1760 | and all four counters are set alike, or none is |
| `Mib.UpperBitsStay` | openair1/SCHED/phy_procedures_lte_ue.c:1720-1760 | and its upper bits are unchanged |
| `Mib.FrameAtBothEnds` | openair1/SCHED/phy_procedures_lte_ue.c:1668-1769 | one frame at both ends together: the UE counts it and, decoding the block just broadcast, takes over its frame |
| `Mib.TracksCell` | targets/RT/USER/lte-ue.c:1029-1030 | over any number of frames, wraps and failed decodings included, both frame counters are congruent to the cell's frame modulo 1024 from the first decoding on |
| `BitString.ToUint32` | common/utils/asn1_conversions.h:75-90 | sizes 1 to 4: the loop yields the bytes' big-endian value without the unused bits, in 32 bits |
| `BitString.ToUint16` | common/utils/asn1_conversions.h:48-68 | sizes 1 and 2: the fall-through switch yields the same value, in 16 bits |
| `BitString.ToUint8` | common/utils/asn1_conversions.h:35-39 | size 1: the shift yields the same value, in 8 bits |
| `BitString.ValueIsQuotient` | common/utils/asn1_conversions.h:75-90 | that value is the big-endian number divided by 2^bits_unused |
| `BitString.OneValue` | common/utils/asn1_conversions.h:35-90 | it is unique, so the three readers agree on common sizes |
| `BitString.AppendByte` | common/utils/asn1_conversions.h:82-85 | or-ing a shifted byte below the bytes before it adds it: their bits do not overlap |
| `Sse.SignExtendsBytes` | openair1/PHY/sse_intrin.h:280-291 | multiply and add extend the sign of each of the low 8 bytes and leave their bits |
| `Sse.SignExtendsWords` | openair1/PHY/sse_intrin.h:335-345 | and-not, shift and add extend the sign of each of the low 4 words and leave their bits |
| `Sse.MaxIsLarger` | openair1/PHY/sse_intrin.h:302-324 | each lane of the maximum is one of the two signed bytes and not below the other |
| `Sse.ShuffleEpi8` | openair1/PHY/sse_intrin.h:111-155 | each lane is the byte its mask names, or 0 where the mask byte is negative |
| `Sse.InsertEpi8` | openair1/PHY/sse_intrin.h:185-258 | exactly one byte is replaced: widening and saturating back loses nothing |
| `TestScheduler.FreeIsNotBusyIff` | cmake_targets/autotests/run_exec_lte-softmodem_tests.py:497-503 | no busy machine is offered if and only if no busy machine is listed twice |
| `TestScheduler.NoBusyOffered` | cmake_targets/autotests/run_exec_lte-softmodem_tests.py:497-503 | with distinct names the free machines are exactly those not busy |
| `TestScheduler.Dispatcher.Poll` | cmake_targets/autotests/run_exec_lte-softmodem_tests.py:482-496 | one look at the threads drops finished ones only and names the machine of every one kept as busy |
| `TestScheduler.Dispatcher.HandleGeneric` | cmake_targets/autotests/run_exec_lte-softmodem_tests.py:469-519 | a thread is started on the first machine that no live thread uses, if there is one; finished threads leave the list and no others |
| `TestScheduler.Dispatcher.WaitForGeneric` | cmake_targets/autotests/run_exec_lte-softmodem_tests.py:524-539 | succeeds only when no generic thread is alive, and does so if all end within the timeout; it ends the program only if one outlasts the timeout, and raises only without a list |
| `TestScheduler.Dispatcher.Dispatch` | cmake_targets/autotests/run_exec_lte-softmodem_tests.py:1540-1583 | over any test-case list: one live generic thread per machine, softmodem tests alone, each case reached has its effect in order, and after one whose thread fails to start none has any; the list is left early only at an unknown class, with every machine busy, or when a thread outlasts the timeout |

## Left out

- Bodies of the worker threads (MAC-to-PHY, control channels, PDSCH, OFDM, PUCCH, PUSCH, turbo decoding) and all signal processing: only completion bits and results are used.
- `pthread_mutex_timedlock` is a lock that blocks; error returns of pthread calls and `oai_exit` are not modelled; `subframe_rx` is written only between calls of the front end.
- The send over the fronthaul interface at the end of `eNB_fep_full` for a remote radio unit.
- Wrap-around of the 32-bit statistics counters and of the UE's 32-bit frame counter: both are unbounded in the model.
- Error-rate and bit-rate tracing, RSSI, timing advance and power-control fields of the UE records.
- MAC calls other than the clearing of `Msg3_flag` at the eNodeB, and at the UE those of contention resolution, its timer and new accesses; RRC's own returns to the PRACH and synchronisation; contention-based access, MBMS, relay and EMOS code; more than one component carrier; the checks for unallocated channel objects.
- The C arrays inside a UE record are sequences in an array of records: updates are in place record by record, aliasing of two records is not represented.
- Msg3Timing.RetransmissionAlloc: in TDD only the frame is computed, as in the code; TDD process numbers of Msg3 are not modelled.
- UeAccess.Ue.UlschProcedures: the grant's contents are taken to be well formed, and payload, power and coding are not modelled; a new uplink grant, which also ends Msg3, does not occur in the runs.
- UeRuns.TransmitsExactly: starts with no process in use and stops at contention resolution; for other starts the first Msg3, one answer, the end and the endless case are stated, not every transmission.
- UeRuns.SentWheneverExpected: starts at most 7 subframes before the first Msg3, with no uplink process of the UE awaiting an answer.
- RandomAccess.RandomAccessEnds: FDD only, since the process numbers it rests on are those of FDD.
- Pucch.GetN1Pucch3: TDD configuration 3 only; configuration 1 and FDD, and the eNodeB's resources for them, would repeat it.
- The PUCCH is free of errors: resources of different numbers do not interfere, and a resource without a signal reads 0 with the smaller metric.
- The eNodeB's subframes are taken one after the other; its two receive-transmit threads working on two subframes at once are not modelled.
- UlReception.FlowConservation: holds outside random access, where a reception with Msg3_flag set follows other rules.
- Mib.Ue.Pbch: decoding is assumed possible at the true phase only.
- Mib.BroadcastRun: broadcasting starts at a frame number divisible by 4; before that the block is not built.
- DecodeJoin.Join: at most 32 UEs, the width of the completion mask; unique RNTIs.
- TestScheduler.Dispatcher.HandleGeneric: the wait for a free machine is watched for `patience` polls.
- The test scheduler's final join, result files and remote sessions.
- `BIT_STRING_to_uint64` and the absolute-value, sign and horizontal-add macros, which do not compute the exact function.
- `pusch_pc.c` and `pucch_pc.c`: table lookups and clamps.
