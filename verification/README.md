# A verified model of the 10BASE-T1S heartbeat firmware

The firmware runs on two dsPIC33AK boards joined by single-pair Ethernet. One board (the
server) blinks an LED and sends its state to the other (the client), alternately by UDP and
by raw Ethernet frames; a button starts a throughput test or resets the board. Underneath lie
an SPI/DMA link to the MAC-PHY, a driver that joins slices into frames for lwIP, multi-stage
rings shared with interrupt handlers, and a clock built on a wrapping timer.

This project models those parts in Dafny and proves what they keep over whole runs. Code that
changes state in place is a class whose methods are tied to functions on a snapshot of the
object (`View()`); the theorems are lemmas about every sequence of those functions, with
interrupts, packets, clock readings and failures chosen arbitrarily at each step.

| file | models |
|---|---|
| `Words.dfy` | 8-, 16- and 32-bit words, elapsed time in words, concatenation |
| `StageQueue.dfy`, `QueueOrder.dfy`, `QueueData.dfy` | the generated multi-stage rings of `tc6-queue.h`, for any number of stages: their counters, the order of the entries, and the data in the slots |
| `Wakeup.dfy` | the interrupt counters of `tc6-stub.c` and the need-service flag of `tc6-lwip.c`, interleaved with the pin interrupt |
| `SpiHandshake.dfy` | the busy flags of `tc6-stub.c` and `dmaspi.c`, interleaved with the DMA interrupts |
| `RxPath.dfy`, `RxRuns.dfy` | frame reassembly, buffer ownership and demultiplexing in `tc6-lwip.c`; its runs |
| `TxPath.dfy` | scatter-gather transmission and its reference counts in `tc6-lwip.c` |
| `RawFrame.dfy` | the raw heartbeat frame, end to end, and the buffer all of them share |
| `SysTick.dfy` | the clock and timeouts of `systick.c` |
| `Button.dfy` | debouncing and press events of `app.c` |
| `PerfClient.dfy` | the sender of `udp_perf_client.c`: starting, stopping, numbering and counting |
| `Heartbeat.dfy`, `HeartbeatRuns.dfy`, `HeartbeatNetwork.dfy` | the endpoints of `eth_heartbeat.c` and `udp_heartbeat.c`, the round-trip average, any sequence of calls, and two boards on an unreliable network |
| `Board.dfy`, `BoardRuns.dfy`, `BoardParts.dfy` | the main loop of `main.c` over all of the above; its runs; what each part does in them |

Where a documented property does not hold of the code as it stands, the model keeps the code
and states exactly when the property holds:

- The millisecond clock, its 32-bit overflow aside, is exact if and only if the timer period is 42949 ms. That is what the
  generated `DSPIC33AK512MPS506_CURIOSITY_T1S/mcc_generated_files/timer/src/tmr1.c` programs
  (lines 67-68), while `systick.h` describes a period of 2^32 ticks.
- Both clocks are documented as monotonic. What `SysTick_GetTickMs` returns is so exactly
  until it overflows 32 bits. What `SysTick_GetTickUs` returns is so up to a given time if and
  only if the timer has not wrapped by then, or its period exceeds 42949 ms by at most 100
  ticks and the 32-bit offset it is computed from has not overflowed: the offset is widened to
  64 bits only after it has wrapped, so with any timer the clock goes back by more than
  4 * 10^12 after 49.7 days. At other wraps the documented full-range timer makes it step back
  by up to 672, and a short round trip measured across one is recorded as about 2^32.
- `tc6-queue.h` offers an undo for every stage and no check for it. Entries leave every stage
  once and in order, net of what was taken back, if and only if no stage passes on an entry
  before the first, and the counters say how many did if and only if no stage takes back what
  it never passed on. After an undo the last stage finds an entry of its own if and only if it
  had passed one on and stage 0 has not written other data to the slot since; undo of every
  other stage, while the next one still sees its work, is harmless.
- The interrupt counters hide a pending interrupt exactly when the unreleased edges are a
  positive multiple of 256.
- Every accepted SPI transfer has its one completion if and only if none completes inside the
  interrupt routine that started it, which clears its flag after the handler
  (`DSPIC33AK512MPS506_CURIOSITY_T1S/mcc_generated_files/dma/src/dma.c`, lines 546-563), and
  none is transmit-only. After either the stub stays busy for ever.
- The size guard of the receiver admits 1522 bytes, the buffer holds 1518: a frame is handed
  on whole if and only if it fits the buffer.
- All raw frames are built in one buffer that the library reads when a frame leaves. A frame
  carries the byte it was built with if and only if the last frame built before it left has
  the same byte. A client only ever builds ACKs.
- A pbuf chain is sent whole if and only if every link beyond the eighth is empty. References
  leak if and only if the library refuses a send after handing out segments.
- Stopping the throughput sender does not cancel a pending start. It stays stopped only
  because two short presses cannot be that close together. A start takes effect if and only
  if its reported time is not 0 modulo 2^32. Datagrams are numbered on from the session
  before, not from the start of each session.
- Between two boards that both run as client the traffic never dies out; with a server it does.

The repository's README swaps the addresses and node numbers of the two roles against
`main.c`; neither matters here.

## Model

| member | source | states |
|---|---|---|
| StageQueue.MaskPicksSlot | src/T1S/inc/tc6/tc6-queue.h:101-102 | masking the wrapped 8-bit counter with size - 1 picks the slot of the unbounded counter modulo size, for every power of two that fits a byte |
| StageQueue.SlotsSeparateIffPowerOfTwo | src/T1S/inc/tc6/tc6-conf.h:94-100 | the mask keeps the entries of one lap in different slots if and only if the size is a power of two |
| StageQueue.CodeMeansCounters | src/T1S/inc/tc6/tc6-queue.h:212-294 | ready, cap and ptr of every stage, computed on bytes, equal their meaning on unbounded ordered counters |
| StageQueue.RunMeansCounters | src/T1S/inc/tc6/tc6-queue.h:95-120 | after any interleaving of guarded done and undo steps the counters are ordered within one lap and the byte code still computes their meaning, over any number of wraps |
| StageQueue.ReadySlotsDiffer | src/T1S/inc/tc6/tc6-queue.h:148-175 | two stages that are ready at once point at different slots |
| StageQueue.StepTracksIff | src/T1S/inc/tc6/tc6-queue.h:212-294 | done without ready, or undo while the next stage sees no work of this one, breaks the order of the counters; with them it is kept |
| StageQueue.ReadyIsStable | src/T1S/inc/tc6/tc6-queue.h:148-175 | a stage seen ready stays ready, with the same slot, in any run of steps of other stages without an undo of the stage before it |
| QueueOrder.EntriesPassInOrder | src/T1S/inc/tc6/tc6-queue.h:213-294 | in every interleaving of done and undo steps, net of what was taken back, each stage has passed on entries 0, 1, 2, ... once and in order, and only after the previous stage, if no stage passes on an entry before the first |
| QueueOrder.InOrderIffForward | src/T1S/inc/tc6/tc6-queue.h:219-220 | the log of net passes is in that order throughout a run if and only if no stage passes on an entry before the first |
| QueueOrder.CountedIffGrounded | src/T1S/inc/tc6/tc6-queue.h:219-220 | the counters equal the number of entries in the log throughout a run if and only if every undo takes back an entry the stage had passed on |
| QueueOrder.NetWithoutUndo | src/T1S/inc/tc6/tc6-queue.h:217-218 | without undo the log is that of all done steps, so every entry passes every stage exactly once |
| QueueOrder.PassedEveryStage | src/T1S/inc/tc6/tc6-queue.h:190 | an entry that has left a stage has been through all stages before it |
| QueueOrder.ConfiguredQueuesAreFifo | src/T1S/inc/tc6/tc6-conf.h:98-130 | the three generated queues with their configured sizes (2 stages of 4, 3 of 1, 7 of 4), undo steps included, let out entries 0, 1, 2, ... in order, each after all stages |
| QueueData.RunRepresents | src/T1S/inc/tc6/tc6-queue.h:95-120 | slot writes, done and undo in any interleaving behave as if every entry had a private cell: every later stage that is ready finds what was last written for its own entry, if stage 0 fills an entry before passing it on and the last stage undoes nothing it never passed on and nothing whose slot stage 0 has written to |
| QueueData.ConfiguredQueuesKeepData | src/T1S/inc/tc6/tc6-conf.h:98-130 | the same for the three generated queues, from their initial state |
| QueueData.HarmlessIsGrounded | src/T1S/inc/tc6/tc6-queue.h:213-294 | a run that keeps the data also keeps the order |
| QueueData.LastUndoRightIff | src/T1S/inc/tc6/tc6-queue.h:291-292 | after an undo the last stage finds a written entry of its own if and only if it had passed one on and stage 0 has not written other data to the slot |
| QueueData.LastUndoOnFreshRing | src/T1S/inc/tc6/tc6-queue.h:291-292 | on an empty fresh ring it is then ready for a slot nobody has filled |
| QueueData.LastUndoMixesEntries | src/T1S/inc/tc6/tc6-queue.h:291-292 | in every full ring a run with all guards true makes the last stage find another entry's data after an undo |
| StageQueue.CapIsExact | src/T1S/inc/tc6/tc6-queue.h:221-234 | a stage can do n done steps in a row with its guard true if and only if n is at most what cap reports |
| StageQueue.Queue.constructor | src/T1S/inc/tc6/tc6-queue.h:209-210 | a new queue is empty in every stage |
| StageQueue.Queue.IsReady | src/T1S/inc/tc6/tc6-queue.h:213-226 | the byte comparison decides readiness of the unbounded counters |
| StageQueue.Queue.Cap | src/T1S/inc/tc6/tc6-queue.h:221-234 | the byte difference is the number of entries the stage may take, at most the size |
| StageQueue.Queue.Ptr | src/T1S/inc/tc6/tc6-queue.h:215-228 | the slot is inside the buffer and belongs to the stage's current entry |
| StageQueue.Queue.Store | src/T1S/inc/tc6/tc6-queue.h:101-102 | writing through a stage's pointer changes only that slot and keeps the queue valid |
| StageQueue.Queue.Pass | src/T1S/inc/tc6/tc6-queue.h:217-218 | done advances the stage's counter by one, wrapping, and keeps the queue valid exactly if the stage was ready |
| StageQueue.Queue.TakeBack | src/T1S/inc/tc6/tc6-queue.h:219-220 | undo takes the stage's counter back by one, wrapping, and keeps the queue valid exactly if the next stage was ready |
| Wakeup.Stub.IntHandler | src/T1S/tc6-stub.c:254-258 | an interrupt increments intIn, wrapping at 256 |
| Wakeup.Stub.IntActive | src/T1S/tc6-stub.c:151-160 | latches intIn as reported and says whether it differs from intOut |
| Wakeup.Stub.ReleaseInt | src/T1S/tc6-stub.c:162-172 | copies the reported count to intOut only if the pin reads high |
| Wakeup.NoLostInterrupt | src/T1S/tc6-stub.c:151-172 | in every interleaving of pin edges, interrupts and main-loop steps, an asserted pin has an interrupt pending or intIn differs from intOut; equality happens exactly at multiples of 256 unreleased edges |
| Wakeup.GapAt256 | src/T1S/tc6-stub.c:77-78 | a run exists in which 256 unreleased edges hide an asserted pin |
| Wakeup.AssertedPinIsServiced | src/T1S/tc6-lwip.c:261-284 | with fewer than 256 unreleased edges the next pass services the chip once, whatever pin edges, interrupts and requests fall between its steps, and gives up exactly the interrupts reported at its start, if and only if it then reads the pin high |
| Wakeup.NoLostRequest | src/T1S/tc6-lwip.c:723-729 | a need-service request, also one raised during a service, keeps the flag set until a service call that starts after it |
| Wakeup.RequestIsServed | src/T1S/tc6-lwip.c:267-281 | a pass that starts without an unreleased interrupt and finds the flag set clears it and then services the chip once, and one that finds it clear ends without, whatever falls between its steps |
| SpiHandshake.Spi.DmaSpiStartTransaction | src/hal/T1S/dmaspi.c:186-323 | starts and becomes busy exactly if free and given a buffer, remembering a transmit-only request |
| SpiHandshake.Spi.SpiTransaction | src/T1S/tc6-stub.c:184-206 | succeeds exactly if open, not busy and the DMA accepts; otherwise the stub is not left busy |
| SpiHandshake.Spi.Dma0Callback | src/hal/T1S/dmaspi.c:76-89 | frees the DMA only after a transmit-only transfer |
| SpiHandshake.Spi.Dma1Callback | src/hal/T1S/dmaspi.c:95-121 | frees the DMA before the completion handler asks for the status, so both flags are cleared |
| SpiHandshake.Spi.TransactionDone | src/T1S/tc6-stub.c:241-252 | the stub takes over the DMA's status |
| SpiHandshake.OneCompletionPerStart | src/T1S/tc6-stub.c:184-252 | in every interleaving, for transfers of every kind: starts, completions and both busy flags agree with what is outstanding if and only if no transmit-only transfer has finished and none has finished inside the routine that started it |
| SpiHandshake.HandlerStartsNext | src/hal/T1S/dmaspi.c:108-120 | while nothing was lost a completion is counted once, and the handler finds both flags free, so that a transfer it asks for is started |
| SpiHandshake.LostIsForEver | src/T1S/tc6-stub.c:191-203 | after either the stub is stuck: no transfer is ever started again |
| SpiHandshake.LossesHappen | src/hal/T1S/dmaspi.c:76-121 | both do occur in runs |
| SpiHandshake.UninterruptedCall | src/T1S/tc6-stub.c:184-206 | the atomic steps of the interleaving model compose to one whole call, for every choice of buffers |
| SpiHandshake.TransactionMeans | src/T1S/tc6-stub.c:184-206 | a request starts a transfer exactly if the stub is open, both flags are free and a buffer is given; then both are busy, otherwise nothing changes |
| RxPath.Receiver.RegisterRawRxCallback | src/T1S/tc6-lwip.c:364-372 | the first registration is kept, later ones are ignored |
| RxPath.Receiver.AllocPbuf | src/T1S/tc6-lwip.c:585-605 | a contiguous buffer is held, a chained one is freed again, and no buffer marks the frame invalid |
| RxPath.Receiver.RxEthernetSlice | src/T1S/tc6-lwip.c:563-612 | copies the slice to its offset, as far as the buffer goes, and counts it, unless the frame is invalid or the slice beyond the size guard |
| RxPath.Receiver.RxEthernetPacket | src/T1S/tc6-lwip.c:614-721 | checks the frame, offers it to raw handlers, then to lwIP, and frees the buffer unless lwIP took it |
| RxPath.Receiver.CbOnError | src/T1S/tc6-lwip.c:731-766 | exactly the eight listed errors begin a reset |
| RxPath.Receiver.CbOnEvent | src/T1S/tc6-lwip.c:773-840 | four events begin a reset, reset-complete ends it and drops the byte count |
| RxRuns.DeliveredFramesAreWhole | src/T1S/tc6-lwip.c:563-721 | in every run a frame is handed on only as the concatenation of its own slices, whole exactly if that fits the 1518 bytes of the buffer, and never if a reset event fell inside it |
| RxRuns.LongFrameIsCutOff | src/T1S/tc6-lwip.c:578-610 | every frame of 1519 to 1522 bytes can get past the guard in a run and is handed on cut off |
| RxRuns.PassedIff | src/T1S/tc6-lwip.c:625-648 | in the receiver's terms, a frame passes if and only if it is good, long enough, not invalid, outside and not across a reset, and no stray bytes are counted |
| RxRuns.FlagsMeanEvents | src/T1S/tc6-lwip.c:563-721 | in every run the reset flag, the invalid mark, the held buffer and the byte count say exactly which resets, allocations and slices came since the last frame end outside a reset |
| RxRuns.FramePassesIff | src/T1S/tc6-lwip.c:563-721 | in every run, read off the events alone: a frame passes if and only if it is good and long enough, the last reset is over and none fell inside it, the first slice since the last frame end got a buffer and none went beyond the guard, and the other bytes since then are a multiple of 2^16 |
| RxRuns.GoodFramesPass | src/T1S/tc6-lwip.c:614-721 | if every earlier frame got its end, the events say exactly which frames are ignored, dropped, and handed on and to whom |
| RxRuns.EndEmptiesReceiver | src/T1S/tc6-lwip.c:699-720 | a frame end outside a reset leaves no buffer, no count and no invalid mark; during a reset it changes nothing |
| RxRuns.LedgerStep | src/T1S/tc6-lwip.c:585-712 | at most one buffer is held, no buffer is freed or given twice or both, and a given one belongs to a frame that went to lwIP |
| RxRuns.WhoGetsTheFrame | src/T1S/tc6-lwip.c:662-712 | in every run a passed frame goes to the raw handler of its type; without one it is offered to lwIP exactly if its type is 0x0800 or 0x0806, and lwIP keeps the buffer exactly if it accepts; in every other case the driver frees it |
| RxRuns.DroppedIsFreed | src/T1S/tc6-lwip.c:699-712 | a buffer held at the end of a frame that does not pass is freed, unless a reset is under way |
| RxRuns.WhatResets | src/T1S/tc6-lwip.c:731-840 | exactly eight errors and four events begin a reset, and only reset-complete ends it |
| RxRuns.WireMeansEvents | src/T1S/inc/tc6/tc6.h:302-318 | the tracked frame is the concatenation of the slices since the last one at offset 0 |
| RawFrame.BuildFrame | src/T1S/eth_heartbeat.c:71-93 | the buffer holds broadcast address, own address, EtherType 0x88B5 big-endian and the byte |
| RawFrame.RawFrameRoundTrip | src/T1S/tc6-lwip.c:644-696 | the frame is a broadcast from the own address; for every byte, padding and cutting the handler gets exactly that byte once and lwIP never sees the frame, if and only if padding brings it to 42 bytes (section 3.2.8 of IEEE 802.3 asks for 60); a ready client that is not paused then shows the byte and acknowledges it |
| RawFrame.DeliveredIffNotRebuilt | src/T1S/inc/tc6/tc6.h:154-164 | in every run a queued frame leaves with the byte it was built with if and only if the last frame built before it left has that byte |
| RawFrame.RebuiltFrameIsWrong | src/T1S/eth_heartbeat.c:76-92 | for any two different bytes, a run in which the first frame leaves with the second byte |
| RawFrame.FramesLeaveInOrder | src/T1S/eth_heartbeat.c:71-93 | queued frames leave in order, none lost and none twice |
| RawFrame.AcksAreSafe | src/T1S/eth_heartbeat.c:154-156 | whatever calls and frames reach a client's endpoint, every frame it sends carries an ACK, although they share one buffer |
| TxPath.Transmitter.LwIpOut | src/T1S/tc6-lwip.c:461-524 | takes one reference, describes the chain up to the size of the segment array and enqueues it; refuses during a reset or when no array is free; answers success exactly if it added an entry |
| TxPath.Transmitter.OnRawTx | src/T1S/tc6-lwip.c:544-561 | completion of an entry returns its reference |
| TxPath.SegmentsCompleteIff | src/T1S/inc/lwip/pbuf.h:193-200 | the segments concatenate to the packet and sum to tot_len if and only if every link beyond the array is empty |
| TxPath.ReferencesMatchQueue | src/T1S/tc6-lwip.c:485-511 | in every run the references held equal the outstanding entries plus the refused sends |
| TxPath.NothingLeaksIff | src/T1S/tc6-lwip.c:481-511 | in every run they equal the outstanding entries if and only if no send outside a reset was refused after segments were handed out |
| TxPath.QueueHoldsPackets | src/T1S/tc6-lwip.c:487-511 | in every run each entry of the queue comes from one accepted send, announces that packet's length, has one segment per link up to the size of the array, and holds the packet if and only if every link beyond is empty |
| TxPath.SourcesDiffer | src/T1S/tc6-lwip.c:487-511 | no send queues two entries, and the entries keep the order of their sends |
| TxPath.AnswerMeans | src/T1S/tc6-lwip.c:461-524 | success exactly if an entry was added, would-block exactly for want of a segment array outside a reset |
| SysTick.ClockLaw | src/systick/systick.c:77-81 | true time exceeds reported time by the period's excess per wrap plus less than a millisecond |
| SysTick.ExactIffConfigured | src/systick/systick.h:40-45 | the millisecond clock, its 32-bit overflow aside, is exact for all times if and only if the period is the programmed 42949 ms |
| SysTick.MsMonotone | src/systick/systick.h:54-56 | the millisecond clock, its 32-bit overflow aside, never decreases |
| SysTick.MsMonotoneIff | src/systick/systick.c:77-81 | what is returned never decreases up to a given time if and only if it has not overflowed by then |
| SysTick.UsStepsBack | src/systick/systick.c:83-87 | between overflows of the offset what is returned goes back only across one wrap and by at most 672 |
| SysTick.UsOverflowStep | src/systick/systick.c:83-87 | across a wrap that overflows the offset it goes back by 2^32 ms less the time between the readings |
| SysTick.UsFailsAtOverflow | src/systick/systick.c:86 | for every timer period, two readings a tick apart after 49.7 days go back by more than 4 * 10^12 |
| SysTick.UsMonotoneIff | src/systick/systick.h:58-60 | what is returned never decreases up to a given time if and only if the timer has not wrapped by then, or the excess is at most 100 ticks and the offset has not overflowed |
| SysTick.WrapDetectedIffPolled | src/systick/systick.c:50-64 | comparing raw counts finds the number of wraps if and only if readings are less than a period apart |
| SysTick.TimeoutNotEarly | src/systick/systick.c:100-103 | a reached timeout means more than count - 1 ms of true time, across overflow of the counter |
| SysTick.TimeoutReported | src/systick/systick.c:100-103 | count + 1 ms of true time, plus the excess of the wraps, is reported as reached |
| SysTick.TimeoutExact | src/systick/systick.c:100-103 | in reported time a timeout is reached exactly from its count on, across overflow of the counter |
| SysTick.Clock.ReadTick | src/systick/systick.c:50-64 | last count and offset keep meaning true time |
| SysTick.Clock.GetTickMs | src/systick/systick.c:77-81 | returns the millisecond clock modulo 2^32 |
| SysTick.Clock.GetTickUs | src/systick/systick.c:83-87 | in terms of true time: the milliseconds of all past periods, wrapped at 32 bits, times 1000, plus the microseconds of the current period |
| SysTick.Timeout.constructor | src/systick/systick.c:89-93 | remembers start and delay |
| SysTick.Timeout.Restart | src/systick/systick.c:95-98 | moves the start and keeps the delay |
| SysTick.Timeout.IsReached | src/systick/systick.c:100-103 | decides whether the delay has passed since the start |
| Button.PushButton.Task | src/app.c:33-54 | one debounce step |
| Button.PushButton.WasPressed | src/app.c:70-77 | reports a short press once |
| Button.PushButton.IsLongPress | src/app.c:79-89 | reports a long press once per hold |
| Button.ChangesAreSpaced | src/app.c:33-54 | for every polling schedule and pin sequence, debounced changes are more than 20 reported ms apart |
| Button.OneEventPerPress | src/app.c:40-51 | each debounced press yields exactly one long report or one short press by its release, at most one before; every short press is taken once, still waiting, or missed because another one waited |
| Button.LongPressWasHeld | src/app.c:79-89 | a long report means the level has been down for the asked time |
| Button.HeldIsReported | src/app.c:79-89 | and it is made when that time has passed |
| Button.StableLevelIsSeen | src/app.c:39-51 | a level unchanged for more than 20 ms becomes the debounced level |
| PerfClient.Sender.UdpPacketSend | src/T1S/udp_perf_client.c:151-208 | only a datagram the stack takes is counted; a busy stack leaves the numbering as it was; any other error ends the session |
| PerfClient.Sender.TransferData | src/T1S/udp_perf_client.c:211-247 | closes interim reports after 5 s and the session after 300 s with a closing datagram, otherwise sends the next one |
| PerfClient.Sender.StartApplication | src/T1S/udp_perf_client.c:299-305 | a start is pending, not running, the counts are cleared and a first datagram is tried |
| PerfClient.Sender.StopApplication | src/T1S/udp_perf_client.c:307-310 | stopping leaves a pending start alone |
| PerfClient.Sender.Service | src/T1S/udp_perf_client.c:317-327 | runs the sender once more than 10 ms have passed, and transfers if it runs |
| PerfClient.SessionAddsUp | src/T1S/udp_perf_client.c:151-247 | for any calls, clock readings and send results: byte and datagram counts are those of the datagrams taken, closed reports and the open one add up to the total, and until the time limit datagrams are numbered without gaps but for failed attempts |
| PerfClient.ActiveSenderSends | src/T1S/udp_perf_client.c:317-325 | in every run a service that finds the sender running or due sends one datagram of 1460 bytes, counted exactly if the stack takes it, and stops it only by an error or after 300 s; any other service changes nothing |
| PerfClient.ClosingIsLast | src/T1S/udp_perf_client.c:228-239 | the datagram sent from 300 s on is numbered 2^32 - 1 and is the last of the session, whatever services follow |
| PerfClient.StartSendsFirst | src/T1S/udp_perf_client.c:299-305 | a start clears the counts, tries one datagram and waits |
| PerfClient.RevivedIff | src/T1S/udp_perf_client.c:307-322 | over any services after a stop, the sender runs again if and only if a start was pending at the stop and some service comes more than 10 ms after it |
| Heartbeat.HeartbeatModule.SendHeartbeat | src/T1S/udp_heartbeat.c:163-181 | only a server that is up stamps a send; UDP counts it if the stack took it, raw Ethernet always |
| Heartbeat.HeartbeatModule.OnReceive | src/T1S/eth_heartbeat.c:134-183 | a client shows the byte unless paused and acknowledges, over UDP counting the ACK also if the stack refuses it; a server accepts one ACK per stamp and records the round trip |
| Heartbeat.HeartbeatModule.SetPaused | src/T1S/eth_heartbeat.c:192-195 | changes only the paused flag |
| Heartbeat.HeartbeatModule.ResetRtt | src/T1S/udp_heartbeat.c:205-208 | drops the timestamp and nothing else |
| HeartbeatRuns.EndpointKeepsBooks | src/T1S/udp_heartbeat.c:56-208 | for either transport and role and any calls: stamp, counters, last and average round trip, LED, bytes built and ACKs sent are those read off the calls alone |
| Heartbeat.AverageStaysBetween | src/T1S/eth_heartbeat.c:169-174 | for positive samples below 2^29 the sum never overflows and the average stays between least and greatest |
| Heartbeat.FixedIff | src/T1S/udp_heartbeat.c:107-112 | a constant sample r fixes the average if and only if it lies in [r - 7, r] |
| Heartbeat.ReachesBand | src/T1S/udp_heartbeat.c:107-112 | from any average that band is reached within the distance to r, for good |
| Heartbeat.RttAccurate | src/T1S/eth_heartbeat.c:163-164 | with the programmed timer a round trip is measured to within a microsecond, also across an overflow of the offset |
| Heartbeat.RttBrokenAcrossFullWrap | src/systick/systick.h:40-45 | with the documented full-range timer a short round trip across a wrap is recorded as more than 2^32 - 674 |
| HeartbeatNetwork.AcksNeverExceedSends | src/T1S/eth_heartbeat.c:121-182 | under loss, duplication and reordering, ACKs accepted on a transport never exceed its stamped sends, nor ACKs emitted the heartbeats delivered |
| HeartbeatNetwork.TrafficIsFinite | src/T1S/udp_heartbeat.c:61-123 | without further heartbeats and duplicates the number of network steps is bounded by the packets in flight |
| HeartbeatNetwork.ExchangeSucceeds | src/T1S/udp_heartbeat.c:92-115 | an undisturbed heartbeat is acknowledged, accepted and timed |
| HeartbeatNetwork.TwoClientsNeverStop | src/T1S/eth_heartbeat.c:142-157 | between two clients every answered delivery puts another packet on the wire: their number stays the same over any run of deliveries |
| Board.MainLoop.LoopBody | src/main.c:153-263 | one pass of the loop, part by part |
| Board.MainLoop.Receive | src/T1S/t1s_lwip.c:96-105 | all packets of one pass, in order |
| Board.MainLoop.ShortPress | src/main.c:166-185 | a short press toggles the throughput test, on the server only |
| Board.MainLoop.AdvanceReset | src/main.c:192-222 | the three states of the reset sequence |
| Board.MainLoop.ToggleAndSend | src/main.c:232-244 | flips the LED and sends it in the current mode |
| Board.MainLoop.CountExchange | src/main.c:246-260 | the tenth heartbeat drops both timestamps and changes the mode |
| Board.MainLoop.BlinkAndSend | src/main.c:228-263 | only an idle server whose 500 ms are over sends |
| BoardRuns.StoppedSenderStaysStopped | src/main.c:165-185 | in every run a running or pending sender implies that the main loop has the test switched on |
| BoardRuns.ResetTakesItsTime | src/main.c:192-222 | in both roles, under any traffic and presses, the LED is on from arming to reset, which follows a hold of 3000 ms, a release and 1000 reported ms |
| BoardRuns.ArmedStaysArmed | src/main.c:192-222 | the reset sequence never goes back |
| BoardRuns.ModesAlternate | src/main.c:228-263 | heartbeat n uses UDP if and only if n / 10 is even, LED states alternate, the inactive transport awaits no ACK, a block of ten earns at most nine |
| BoardRuns.StartTakesEffect | src/T1S/udp_perf_client.c:302-325 | in every run a test started in one pass is run by the first service more than 10 ms later, any passes in between, if and only if the start was not reported at time 0 modulo 2^32 |
| BoardRuns.ResetGoesThrough | src/main.c:192-222 | in every run a pass arms exactly if it finds the button held 3000 ms, starts the countdown exactly if it finds it released, and resets exactly from 1000 ms later on |
| BoardParts.HeartbeatsGoOut | src/main.c:228-260 | in every run both endpoints keep the books of the calls the loop is to make; on the server a transport that is up has built one packet for every logged heartbeat of its own, with its byte, and none else; stamp and transmit count agree |
| BoardParts.HeartbeatIffDue | src/main.c:228-246 | in every run a pass logs a heartbeat exactly if the server is idle at its end and the last one, or the start, is 500 reported ms past |
| BoardParts.HeartbeatsAreSpaced | src/main.c:230-262 | in every run any two heartbeats are at least 500 reported ms apart |
| BoardParts.BoardButton | src/main.c:160-195 | in every run the button is the button module polled and asked once per pass, so its theorems hold of the board |
| BoardParts.BoardSender | src/main.c:165-185 | in every run the throughput sender is the sender module serviced once per pass and started or stopped by short presses |
| BoardParts.PressesToggle | src/main.c:165-185 | the test is on exactly after an odd number of short presses on the server, and never on a client |
| BoardParts.PausedWithTest | src/main.c:168-184 | until the reset is armed both transports are paused exactly while the test is on |
| BoardParts.ServerLed | src/main.c:192-239 | the server's LED shows its LED state, which is on while the reset is armed |
| BoardParts.ClientLed | src/T1S/udp_heartbeat.c:61-75 | in every run a client's LED shows the last heartbeat it got by either transport, and is on once the reset is armed |
| BoardParts.AllAcksAreCounted | src/T1S/udp_heartbeat.c:94-114 | the ACKs logged per block add up to those both endpoints have counted |

## Left out

- The TC6 library and the OPEN Alliance chunk protocol: precompiled, not part of this model. It appears only through its documented contracts, so what a re-initialisation does to the rings is not modelled.
- lwIP: only ownership on `netif->input`, the pbuf chain invariant and the possible results of allocation are used.
- RxPath.Receiver.RxEthernetSlice: of a slice that ends between 1519 and 1522 bytes only the part inside the buffer is followed; what the copy does to memory behind it is not modelled.
- TxPath.Transmitter.LwIpOut: the pbuf chain is a sequence of payloads, so aliasing between chain links and later changes to them are not captured.
- PerfClient.Sender.Service: the reports themselves and the statistics of received datagrams are output only and not modelled; one parallel client and the default payload of 1460 bytes, as configured.
- BoardRuns.StoppedSenderStaysStopped: assumes that no pass of the main loop takes 2^31 ms or more, and that the network is available so that the sender is serviced in every pass.
- HeartbeatNetwork.ExchangeSucceeds: a send stamped at time 0 is excluded, since 0 means "no send".
- The clock of the main loop is an input that does not decrease; `SysTick.MsMonotone` is the reason it may be.
- Register writes, pin setup, the EEPROM read for the MAC address, delays and critical sections: foreign hardware.
- Terminal output, reports, menus, PLCA status polling and initialisation: input/output and thin wrappers.
- Several driver instances: the configuration has one.
