# Verified models of the htsim / PhantomCC simulator's protocol and queue machines

The simulator is a discrete-event network simulator. This project models its stateful cores in Dafny and
proves what their code, assertions and comments rely on. The machines are given twice: as functions on
values, about which the properties of runs are proved, and as a class whose methods update fields, arrays
and ring buffers in place, as the simulator does. The `ensures` of each method equates the new state with
the function applied to the old one. `dafny verify dfyconfig.toml` checks everything.

| files | what they model |
|---|---|
| `BbrTypes`, `BbrSink`, `BbrSender`, `BbrSource` | messages, receiver and sender of the BBR transport |
| `BbrProtocol`, `BbrSafety` | sender, network and receiver together; the network loses, reorders, duplicates and trims, and the retransmission timer fires at will |
| `BbrTimeoutFree` | the same without duplication and timeouts |
| `BbrOnce` | the same, any network and any timeouts, without negative acknowledgements |
| `BbrFinish` | when the flow is declared finished |
| `BbrRetransmit`, `BbrTimers`, `BbrScan` | what one activation retransmits; over runs, when timers run out and what the periodic scan finds |
| `BbrWindow` | what window and pacer allow, and how a negative acknowledgement is answered |
| `BbrStall`, `BbrRepair` | states in which the sender is silent for good, and when a lost packet can still be repaired |
| `BbrModes`, `BbrModel`, `BbrStartup` | bandwidth filter, plateau test, STARTUP / DRAIN / PROBE_BW, over runs of acknowledgements and restarts; when STARTUP ends |
| `BbrCycle` | the order and times of the PROBE_BW phases, the filter's windows and the plateau rounds |
| `BbrDelivery` | the bandwidth samples as computed from the bytes delivered, and for which packet sizes STARTUP can go on for ever |
| `EventList` | the event list: a multimap whose equal keys keep insertion order, and triggers |
| `CircularBuffer` | the growable ring buffer |
| `WeightedRoundRobin` | the choice between two classes of packets, shared by both queues below |
| `Composite`, `CompositeRuns`, `CompositeGuarantees`, `CompositeEffects`, `CompositeQueue` | the trimming queue with its phantom queue, coupled to the event list; what runs guarantee and what each step does |
| `FairPull`, `FairPullQueue` | round robin over a map of ring buffers through a live iterator |
| `CompositePrio`, `CompositePrioService`, `CompositePrioQueue` | the queue that displaces longer-path packets: its counts, and what it serves and queues |
| `Meter` | the token bucket with penalties |
| `MptcpCoupling` | the integer coupling factor of multipath TCP |
| `Basics` | optional values, products and quotients |

How to read the statements:

* A result of `None`, or `ok == false` from a method, is a failed assertion, an abort, a division by zero or
  an index out of range of the original. Runs stop there.
* Sequence numbers are bytes: packet number `i` starts at `1 + i * mss`. All data packets have one size.
* Pacing is a number of `permits` per activation of the sender, chosen by the environment. Random draws and
  coins are parameters. Times are natural numbers, bandwidths are reals.
* Fields and parameters that only record what has happened are named as such: `History` values, the
  `arrived` / `sent` / `dropped` multisets, the `decisions` of the path-length queue, the `stamp` of an event,
  `orig` in an acknowledgement, `moved` and `peak` of the ring buffer.

What the proofs found in the code:

* The assertion that a negatively acknowledged packet is not acknowledged fails after a timeout of a packet that is
  only slow: it is sent again, one copy is trimmed, the other arrives, and its acknowledgement overtakes the negative
  one. `NackAssertionCanFail` is such a run, in which the network only trims; `NackAssertionsHoldIff` says exactly when
  the assertion holds. Without timeouts, and with a network that duplicates nothing, it cannot fail, which answers the
  question in the comment beside it. (Nothing in the simulator duplicates a transmission; the general network may.)
* A timeout alone makes the sender retransmit nothing: it retransmits for a negative acknowledgement, or once a
  retransmission was refused, and then whatever has timed out. Until a negative acknowledgement of some packet arrives
  every packet is sent exactly once. Once nothing is in flight, a lost packet can still reach the receiver if and only
  if a retransmission is pending or there is room to send a new packet (`RepairIff`): a new packet may be trimmed, and
  its negative acknowledgement starts the retransmissions. When everything was sent, no retransmission is pending and only
  acknowledgements are in flight, a loss is final and the flow never finishes (`StuckForever`); the loss of the only
  packet of a flow leads there (`LossOfTheOnlyPacket`).
* The `i == 0` branch and the `|| _sent_packets[0].acked` disjunct of `mark_received` never take effect, and the
  assignment to `_highest_sent` on an acknowledgement never changes it.
* STARTUP does not always end: while the level to beat is zero, a round that finds no positive bandwidth in the ten
  slots beats it with zero. It ends if and only if some round finds one (`StartupEndsIff`). A sample takes off 4153 bytes
  and a packet counts with 64 bytes of header, so STARTUP always ends, as long as rounds keep coming, if and only if
  packets have at least 4090 bytes (`StartupAlwaysEndsIff`); the usual 4096 are enough. With smaller ones a flow with one
  packet in flight at a time stays in it. Ten samples of zero can rotate a positive one out before the first round
  (`SampleEvicted`), but only packets of at most 313 bytes bring such samples in time (`TenZerosIff`).
* `updateParams` clears the ten slots of the bandwidth filter but not the window still open, so its samples
  come back with the next one.
* The assertion `total_queued <= 8` of the path-length queue holds in every run exactly when a ninth packet does
  not fit into the queue.
* The meter drops the fraction of a byte at each call, so packets closer together than the time of one byte
  earn no credit at all.
* Rounding the rate of a flow down can raise the coupling factor of the best multipath flow above the bound of the exact
  formula, with windows and round trips as they occur: 531 instead of at most 512 for a flow with one segment of 1500
  bytes in flight and a round trip of about 0.58 seconds. `CouplingBound` says exactly when the bound holds, and that it
  is missed by less than the square of the rate rounded up over the square of the total rate.

## Model

| member | source | states |
|---|---|---|
| BbrSink.ReceiveReassembles | sim/bbr.cpp:1833-1950 | Whatever arrives, whole or trimmed, new or repeated, the receiver remains the reassembly of the set received whole; a NACK answers exactly a trimmed packet not held; a cumulative reply carries the new cumulative ack, an out-of-order reply names a packet beyond the next expected one |
| BbrSink.AbsorbReassembles | sim/bbr.cpp:1913-1917 | Advancing the cumulative ack over stored packets restores the reassembly of the same set |
| BbrSink.InsertMembers | sim/bbr.cpp:1926-1941 | Inserting an out-of-order packet keeps the list strictly increasing and adds exactly it, a repeated one nothing |
| BbrSink.ReassemblyIsUnique | sim/bbr.cpp:1817-1831 | The state of a receiver is determined by the set received whole |
| BbrSink.LongestPrefixAndRest | sim/bbr.cpp:1872-1942 | After any arrivals the cumulative ack ends the longest gapless prefix of the packets received whole and the list is the increasing rest, all beyond the next expected one |
| BbrSink.OrderIndependence | sim/bbr.cpp:1833-1950 | Arrival sequences with the same set of whole packets end in the same state, whatever their order, duplicates and trimmed copies |
| BbrSink.RepliesWellFormed | sim/bbr.cpp:1864-1949 | Every arrival is answered by exactly one ACK or NACK that names the packet that arrived |
| BbrSink.BBRSink.constructor | sim/bbr.cpp:1788-1788 | A new receiver has received nothing |
| BbrSink.BBRSink.AlreadyReceivedScan | sim/bbr.cpp:1817-1831 | The scan finds a packet exactly if it is below the cumulative ack or in the list |
| BbrSink.BBRSink.InsertOutOfOrder | sim/bbr.cpp:1926-1941 | The empty, append and search-and-insert cases together are sorted insertion without duplicates |
| BbrSink.BBRSink.ReceivePacket | sim/bbr.cpp:1833-1950 | The in-place receiver computes the specified state and reply |
| BbrProtocol.CumulativeDrop | sim/bbr.cpp:324-329 | On a cumulative ack the `acked` disjunct of the erase loop never takes effect, and what is left starts right after the larger of the old and new cumulative acks |
| BbrProtocol.OutOfOrderFound | sim/bbr.cpp:336-344 | An out-of-order ack that is not late finds its packet in the list, and not at the head |
| BbrProtocol.MarkReceivedInv | sim/bbr.cpp:322-374 | `mark_received` never fails its assertion and keeps the sender's invariant |
| BbrProtocol.ProcessAckInv | sim/bbr.cpp:977-1109 | Processing an ack never fails an assertion, keeps the invariant, never lowers the highest packet sent, and finishes the flow only when the receiver's cumulative ack covers it |
| BbrProtocol.ProcessNackInv | sim/bbr.cpp:517-566 | Processing a NACK whose assertions hold keeps the invariant |
| BbrProtocol.SendPacketsInv | sim/bbr.cpp:1458-1532 | Sending and retransmitting keep the invariant |
| BbrProtocol.ArriveInv | sim/bbr.cpp:1833-1950 | An arrival at the receiver keeps the invariant that ties messages in flight to what the receiver had when it made them |
| BbrProtocol.NextInv | sim/bbr.cpp:1133-1193 | Every step of sender, network, timer and receiver keeps the invariant of the whole system |
| BbrProtocol.ReachesInv | sim/bbr.cpp:1133-1193 | So does every run |
| BbrSafety.HeadIsNextExpected | sim/bbr.cpp:322-331 | In every run the head of `_sent_packets` is the packet after the largest cumulative ack processed and never flagged acked; an empty list means that everything sent is covered by it |
| BbrSafety.AckBranchesThatNeverRun | sim/bbr.cpp:322-347 | No ack in flight can fail the assertion, reach the branch for the head, or make the erase loop run on because of an `acked` flag; no ackno exceeds the highest packet sent |
| BbrSafety.EndToEndSafety | sim/bbr.cpp:1063-1091 | A packet is erased or flagged acked only if the receiver holds it whole; the sender keeps every other packet it sent; a finished flow means that the receiver's cumulative ack covers the flow |
| BbrSafety.SentIsGapless | sim/bbr.cpp:1470-1531 | `_sent_packets` is a contiguous run of packets that ends at `_highest_sent` |
| BbrSafety.NackAssertionsHoldIff | sim/bbr.cpp:550-555 | The two assertions on a NACK hold exactly if no ack covering its packet, cumulative or out of order, was processed before, and the run goes on exactly then |
| BbrSafety.NackAssertionCanFail | sim/bbr.cpp:551-555 | For every retransmission timeout, a concrete run in which the second assertion fails after a spurious timeout; the network neither duplicates nor loses anything |
| BbrOnce.NothingSentTwice | sim/bbr.cpp:1458-1467 | In every run without a NACK at the sender, whatever is lost, reordered or duplicated and however often the timer fires, the packets transmitted are exactly those up to the highest, once each and in order |
| BbrOnce.LossIsNotRepaired | sim/bbr.cpp:1665-1702 | A packet sent, not received and no longer in flight is never received in any continuation in which no NACK of any packet reaches the sender, and a flow it belongs to never finishes |
| BbrRepair.RepairIff | sim/bbr.cpp:1458-1467 | For a window at restart of at least one packet and a positive timeout: in every run, once nothing is in flight, a lost packet can still reach the receiver if and only if a retransmission is pending or there is room for a new packet in the present window or the one a restart sets |
| BbrRepair.RepairPrimed | sim/bbr.cpp:1766-1782 | With a retransmission pending and everything timed out or nacked, the packets before the lost one are sent again, arrive and are acknowledged one by one until it is the head |
| BbrRepair.RepairPending | sim/bbr.cpp:1768-1781 | A pending retransmission, of whatever packet, leads there: a timer scan and a refused turn time everything out |
| BbrRepair.RepairBySending | sim/bbr.cpp:551-565 | Room for a new packet leads there too: the packet is trimmed and its retransmission refused |
| BbrRepair.ReachesTimerOk | sim/bbr.cpp:312-320 | In every run `_rtx_timeout` is set while a packet is outstanding, and the window is open once something was sent |
| BbrStall.StuckForever | sim/bbr.cpp:1458-1470 | With no retransmission pending, everything sent and only ACKs in flight, no continuation transmits anything or changes the receiver, and the flow never finishes unless the receiver has all of it |
| BbrStall.SilentIff | sim/bbr.cpp:1458-1470 | With nothing in flight and no retransmission pending, no continuation ever transmits anything if and only if everything was sent or the outstanding packets leave no room in the present window and the one a restart sets |
| BbrStall.LossOfTheOnlyPacket | sim/bbr.cpp:1665-1702 | Such a state is reached: in every flow of one packet the packet can be sent and lost, and then no continuation ever finishes the flow |
| BbrFinish.FinishedIff | sim/bbr.cpp:1063-1064 | In every run the source sends no packet that starts past the flow, and it has declared the flow finished exactly if the flow is not empty and the largest cumulative ack processed covers it |
| BbrFinish.AckFinishes | sim/bbr.cpp:1063-1091 | The ack that first covers the flow finishes it, because it leaves the list empty, and no other ack does |
| BbrRetransmit.LoopRetransmits | sim/bbr.cpp:1766-1782 | One activation of the loop: exactly the packets neither acked nor nacked whose timer is due by now plus the margin are flagged, if a timeout is pending, and shut the window to one packet; a packet is sent again exactly if it is flagged or nacked and at its turn the bytes outstanding are below the window and the pacer lets it out, in order, with its flags cleared and its timer started anew; a retransmission stays pending exactly if one was refused |
| BbrTimers.TimersRunFromLastSend | sim/bbr.cpp:1518-1520 | In every run the timer of each listed packet is the retransmission timeout after it was last sent, and it is flagged as timed out only if the timeout less the margin has passed since then at some activation |
| BbrTimers.SentAgainOnlyWhenDue | sim/bbr.cpp:1768-1781 | In every run a packet is sent again only on its NACK, while flagged as nacked, or when the timeout less the margin has passed since it was last sent |
| BbrTimers.SendPacketsTimed | sim/bbr.cpp:1458-1531 | An activation sends again only what is due, and only with a retransmission pending, and keeps every timer running from the last transmission |
| BbrScan.MinTimeoutIsLeast | sim/bbr.cpp:312-320 | The scan of the list finds the earliest timer of the outstanding packets, or none exactly if nothing is outstanding |
| BbrScan.ScanNeverMisses | sim/bbr.cpp:1665-1702 | In every run in which packets depart in order, a timer scan finds a timeout whenever an outstanding packet is due within the period, shuts the window to one packet and restarts the source by the time that timer runs out |
| BbrScan.ScanFindsOnlyDue | sim/bbr.cpp:1672-1688 | In such runs a scan changes the source only if the timer of some packet not acknowledged is due within the period |
| BbrWindow.WindowRespected | sim/bbr.cpp:1464-1530 | An activation exceeds the window by less than a packet, and not at all once it sends a new one, pays a permit for every packet, and stops sending new ones only without room, without permits or at the end of the flow |
| BbrWindow.FlightIsBounded | sim/bbr.cpp:1706-1708 | In every run the window is at most the largest of a packet, the bandwidth-delay product and its start value, and the bytes outstanding exceed that by less than a packet |
| BbrWindow.NackAnswered | sim/bbr.cpp:540-565 | An accepted NACK limits the window and sends its packet again at once exactly if there is room without it and a permit, and otherwise leaves it flagged with a retransmission pending; no other packet changes |
| BbrWindow.StartOpensWindow | sim/bbr.cpp:1379-1411 | Starting the flow opens the window to the bandwidth-delay product and fills it, unless a pending retransmission makes a packet time out, which shuts it to one packet |
| BbrOnce.StepFresh | sim/bbr.cpp:1458-1532 | A step without a NACK transmits only packets never sent before and leaves no retransmission pending |
| BbrOnce.TransmittedJoins | sim/bbr.cpp:1458-1532 | The packets counted as transmitted are those that join the messages in flight |
| BbrSafety.NackCounterCovers | sim/bbr.cpp:349-351 | `_nack_rtx_pending` never falls below the number of packets flagged, so the unsigned counter never wraps |
| BbrTimeoutFree.NextTF | sim/bbr.cpp:517-566 | Without duplication and timeouts every step keeps, per packet, at most one of: copy, header or reply in flight, or the `nacked` flag |
| BbrTimeoutFree.NeverHalts | sim/bbr.cpp:551-556 | In such runs no assertion ever fails, a NACK always finds its packet neither acked nor nacked, and no packet arrives twice |
| BbrTimeoutFree.OneCarrierPerPacket | sim/bbr.cpp:556-560 | In such runs each packet has at most one message in flight and none while flagged, an ACK is in flight only for a packet received, and `_nack_rtx_pending` equals the number of flagged packets |
| BbrTimeoutFree.ByteCounterIsExact | sim/bbr.cpp:409-415 | In such runs `_unacked` is at least one packet's worth per message in flight and the saturating subtraction never clips; if nothing is lost it is exactly that, and `get_unacked() <= _unacked` |
| BbrTimeoutFree.NackFindsPacket | sim/bbr.cpp:551-556 | A NACK in flight refers to a packet in the list that is neither acked nor nacked |
| BbrTimeoutFree.ArrivesOnce | sim/bbr.cpp:1817-1831 | What arrives has not been received before |
| BbrTimeoutFree.CoveredBytes | sim/bbr.cpp:1111-1120 | If every outstanding packet has its own message in flight, the outstanding bytes are at most one packet's worth per message |
| BbrSource.BBRSrc.constructor | sim/bbr.cpp:54-108 | A new sender has sent nothing |
| BbrSource.BBRSrc.GetSentPacketIdx | sim/bbr.cpp:303-310 | The first index of the packet, or the length of the list |
| BbrSource.BBRSrc.RefreshRtxTime | sim/bbr.cpp:312-320 | Recomputes the earliest timer of the outstanding packets by the scan of the original |
| BbrSource.BBRSrc.OutstandingSum | sim/bbr.cpp:1111-1120 | The bytes neither acked, nacked nor timed out |
| BbrSource.BBRSrc.TakeUnacked | sim/bbr.cpp:409-415 | Saturating subtraction |
| BbrSource.BBRSrc.MarkAckReceived | sim/bbr.cpp:322-374 | The in-place list after an ack, with both erase loops; false on the failed assertion |
| BbrSource.BBRSrc.Resend | sim/bbr.cpp:1704-1763 | Resends a packet exactly if window and pacer let it and clears its flags |
| BbrSource.BBRSrc.RetransmitAt | sim/bbr.cpp:1768-1780 | One turn of the retransmission loop: timeout, then resend |
| BbrSource.BBRSrc.Retransmit | sim/bbr.cpp:1766-1782 | The whole retransmission loop |
| BbrSource.BBRSrc.SendOne | sim/bbr.cpp:1470-1531 | One new packet at the end of the list |
| BbrSource.BBRSrc.SendNewPackets | sim/bbr.cpp:1458-1532 | Retransmissions and then new packets while the window has room |
| BbrSource.BBRSrc.HandleAck | sim/bbr.cpp:977-1109 | The sender after an ack |
| BbrSource.BBRSrc.LimitWindow | sim/bbr.cpp:417-426 | The window between one packet and its maximum |
| BbrSource.BBRSrc.HandleNack | sim/bbr.cpp:517-566 | The sender after a NACK; false on a failed assertion |
| BbrSource.BBRSrc.Receive | sim/bbr.cpp:1133-1193 | The sender after a packet arrives back, and whether it schedules itself to start again |
| BbrSource.BBRSrc.Start | sim/bbr.cpp:1379-1411 | The sender after its start event |
| BbrSource.BBRSrc.ScanRtxTimer | sim/bbr.cpp:1665-1702 | The sender after the periodic timer scan, and after what delay it schedules itself to start again, if it does |
| BbrModes.FilterRefinesHistory | sim/bbr.cpp:929-936 | After every update the ten slots still hold the peaks of the last windows, across overwriting, rotation and reuse of a stale slot, and the best bandwidth is the maximum of all samples in the ten most recent windows including the one the sample landed in |
| BbrModes.BestIsRecentMax | sim/bbr.cpp:817-828 | If each slot is the peak of one of the ten last windows, the largest slot is the maximum of their samples |
| BbrModes.BestBwIsRecentMax | sim/bbr.cpp:920-936 | The same after any run of acks and restarts of the whole machine, where a restart empties the closed windows |
| BbrModes.ClearForgetsClosedWindows | sim/bbr.cpp:512-514 | Clearing the slots forgets every closed window and keeps the open one |
| BbrModes.FreshFilterTracks | sim/bbr.h:249-254 | The initial filter stands for one empty window |
| BbrModes.OnAckInv | sim/bbr.cpp:799-902 | Every ack keeps: STARTUP exactly while the pipe is not filled, fewer than three idle rounds until then, and the pacing gain of the mode |
| BbrModes.ModesOnlyAdvance | sim/bbr.cpp:830-865 | Over any run of acks and restarts the mode only moves STARTUP, DRAIN, PROBE_BW, and a filled pipe stays filled with its level |
| BbrModes.DrainEndsIff | sim/bbr.cpp:844-856 | PROBE_BW follows exactly if it was reached before or the pipe is filled and the bytes in flight fit the estimated window |
| BbrCycle.EntryIsFirstPhase | sim/bbr.cpp:844-856 | PROBE_BW is entered in its first phase, which ends a base round-trip time later |
| BbrCycle.PhasesInOrder | sim/bbr.cpp:799-815 | Over any run from the entry on, restarts included, the gain of phase n is the n-th of 1.25, 0.75 and six times 1 in turn, none skipped; phase n + 1 begins at the first ack later than the entry and n + 1 base round-trip times that finds phase n begun, one phase per ack |
| BbrCycle.GainsFollowTheCycle | sim/bbr.cpp:799-815 | In every run that enters PROBE_BW the gains are those of the phase that the times of the acks since the entry make it |
| BbrCycle.CycleIsBalanced | sim/bbr.cpp:49-49 | The gains of any eight phases in a row add up to eight |
| BbrCycle.WindowsFollowTheClock | sim/bbr.cpp:932-936 | In every run the windows of the bandwidth filter close one at a time, the n-th only with an ack later than n base round-trip times, and use the ten slots in turn |
| BbrCycle.RoundsTakeARoundTrip | sim/bbr.cpp:867-885 | After a round of the plateau test the next ack starts a round trip, and the next round is taken exactly by the first ack later than a base round-trip time after that one |
| BbrStartup.StartupEndsIff | sim/bbr.cpp:882-902 | In an endless run of acks and restarts from level zero, with bounded samples and rounds of the plateau test that keep coming, STARTUP is left if and only if some round finds a positive best bandwidth |
| BbrStartup.StartupFromZero | sim/bbr.cpp:882-902 | From level zero STARTUP goes on as long as no round finds one; from the first that does, finding b0, at most 3k further rounds are taken if all samples are below 1.25^k b0, and STARTUP is over with the last |
| BbrStartup.RoundSeesRecentSamples | sim/bbr.cpp:888-888 | A round finds a positive best bandwidth exactly if one of the ten last windows holds a positive sample that no restart made it forget |
| BbrStartup.StartupTerminates | sim/bbr.cpp:882-902 | From a positive level b0 with all samples below 1.25^k b0, at most 3k rounds of the plateau test less the idle rounds already counted are taken, and STARTUP is over with the last (section 4.3.2.2 of draft-cardwell-iccrg-bbr-congestion-control-00) |
| BbrStartup.StartupBoundIsTight | sim/bbr.cpp:887-901 | For every k and b0 there are acks, from the initial machine on, whose first round finds b0 and that take 3k - 1 further rounds with samples below 1.25^k b0 and are still in STARTUP |
| BbrStartup.StartupNeedsASample | sim/bbr.cpp:887-892 | From level zero, without a positive sample held or to come, STARTUP never ends |
| BbrStartup.SampleEvicted | sim/bbr.cpp:929-936 | For every positive sample, ten samples of zero at any times within the round trip after it rotate it out before the first round, and STARTUP goes on for any further samples that are not positive |
| BbrDelivery.StartupAlwaysEndsIff | sim/bbr.cpp:1017-1029 | All endless runs from the initial machine with samples as computed, bounded, and rounds that keep coming leave STARTUP, if and only if a packet with its 64 bytes of header is larger than 4153 bytes |
| BbrDelivery.LargePacketsLeave | sim/bbr.cpp:1019-1029 | Such packets make every run whose rounds keep coming leave STARTUP |
| BbrDelivery.SampleIsPositiveIff | sim/bbr.cpp:1018-1022 | A sample is positive exactly if more than 4153 bytes were delivered since its packet was sent |
| BbrDelivery.SampleMeasuresBits | sim/bbr.cpp:1018-1022 | A sample times the nanoseconds of the round trip is the bits delivered since its packet was sent, less 4153 bytes, or zero |
| BbrDelivery.TenZerosIff | sim/bbr.cpp:1018-1022 | The tenth ack after another, of a packet sent before that one arrived, can bring a sample of zero exactly if eleven packets with headers fit into 4153 bytes |
| BbrStartup.RoundProgress | sim/bbr.cpp:887-901 | A round fills the pipe, raises the level by a quarter or uses up one of three idle rounds |
| BbrModel.BBRModel.constructor | sim/bbr.h:242-261 | The initial machine |
| BbrModel.BBRModel.ClearSlots | sim/bbr.cpp:512-514 | The machine after a restart: the slots cleared in place and nothing else |
| BbrModel.BBRModel.BestBw | sim/bbr.cpp:817-828 | The loop finds the best bandwidth |
| BbrModel.BBRModel.UpdateBwModel | sim/bbr.cpp:929-936 | The array of slots after a sample |
| BbrModel.BBRModel.IsNextCyclePhase | sim/bbr.cpp:904-918 | Whether the phase is over; the next one ends a round trip later |
| BbrModel.BBRModel.CyclePhase | sim/bbr.cpp:799-815 | The machine after the phase check |
| BbrModel.BBRModel.RttHasPassed | sim/bbr.cpp:867-880 | The alternating round-trip flag |
| BbrModel.BBRModel.FullPipe | sim/bbr.cpp:882-902 | The machine after the plateau test |
| BbrModel.BBRModel.Drain | sim/bbr.cpp:830-865 | The machine after the drain check |
| BbrModel.BBRModel.ProcessSample | sim/bbr.cpp:1027-1030 | The machine after an ack: filter, phase, plateau and drain |
| EventLists.InsertOrdered | sim/eventlist.cpp:50-51 | Insertion keeps the order by time and then by insertion and adds exactly the new event |
| EventLists.CancelRemovesEarliest | sim/eventlist.cpp:56-65 | Cancelling removes exactly the earliest pending event of the source, if there is one, and keeps the order of all others |
| EventLists.ApplyInv | sim/eventlist.cpp:10-70 | Every operation keeps the order, never moves the clock back, and accounts for every event as fired, cancelled or pending |
| EventLists.DispatchNeverFails | sim/eventlist.cpp:26-26 | The assertion that time does not go back never fails |
| EventLists.FiresAsStableSort | sim/eventlist.cpp:10-65 | Over any run events fire in order of time, equal times in order of insertion, and every accepted event has fired, been cancelled or is pending |
| EventLists.EachTriggerActivatesOnce | sim/eventlist.cpp:13-18 | In every run every trigger added is activated once or still waiting |
| EventLists.TriggersGoFirst | sim/eventlist.cpp:11-18 | Activating takes no time and moves no event, and an event fires only when no trigger waits |
| EventLists.RunsDry | sim/eventlist.cpp:10-35 | Left alone, the list activates all its triggers, the newest first, then fires all its events in their order, and is empty |
| EventLists.TraceAfter | sim/eventlist.cpp:23-35 | Nothing fires before an event that precedes everything pending |
| EventLists.OnlyPastSchedulesHalt | sim/eventlist.cpp:49-49 | A run halts only where something is scheduled in the past |
| EventLists.EventList.constructor | sim/eventlist.cpp:6-6 | A new list is empty at time zero without an end time |
| EventLists.EventList.SetEndTime | sim/eventlist.cpp:8-8 | Sets the end time and nothing else |
| EventLists.EventList.Schedule | sim/eventlist.cpp:37-52 | Inserts unless at or after the end time; false exactly for the past |
| EventLists.EventList.ScheduleRel | sim/eventlist.h:34-36 | Scheduling relative to now never fails |
| EventLists.EventList.CancelSource | sim/eventlist.cpp:56-65 | The search loop removes the first event of the source |
| EventLists.EventList.Reschedule | sim/eventlist.cpp:67-70 | Cancels, then schedules |
| EventLists.EventList.AddTrigger | sim/eventlist.cpp:54-54 | Adds a trigger |
| EventLists.EventList.TakeNext | sim/eventlist.cpp:10-35 | Triggers first, last one first, then the earliest event, which sets the clock |
| CompositeRuns.DispatchIsSound | sim/compositequeue.cpp:303-310 | When the queue's own event is next, the time comparison sends it to the drain that is due or to the service that ends, and exactly that timer is gone from the event list |
| CompositeRuns.CompleteServiceInv | sim/compositequeue.cpp:166-301 | A completion never meets an empty ring or an idle server, and serves on unless both rings are empty |
| CompositeRuns.BeginServiceCore | sim/compositequeue.cpp:70-98 | Starting a service adds exactly its end to the pending events and keeps the round robin |
| CompositeRuns.DecreasePhantomCore | sim/compositequeue.cpp:54-68 | A drain that is due keeps the phantom size in bounds and sets the next drain |
| CompositeRuns.ReceiveReady | sim/compositequeue.cpp:312-531 | Every arrival keeps the invariant |
| CompositeRuns.StepInv | sim/compositequeue.cpp:166-531 | Every step keeps the invariant of queue and event list; an assertion fails exactly if someone else schedules in the past |
| CompositeRuns.RunInv | sim/compositequeue.cpp:166-531 | So does every run |
| CompositeGuarantees.TimersAreExact | sim/compositequeue.cpp:303-310 | In every run the queue's pending events are one service end while serving and one drain once draining has started; it idles exactly when both rings are empty, and the packet in service is at the head of its ring |
| CompositeGuarantees.DispatchByTimeIsSound | sim/compositequeue.cpp:303-310 | In every run an own event at the next drain time is a drain that is due, any other ends the current service at its time, also when both fall on the same instant |
| CompositeGuarantees.NoAssertionFails | sim/compositequeue.cpp:166-282 | In every run no assertion of the queue fails |
| CompositeGuarantees.EachTimerFiresOnce | sim/compositequeue.cpp:54-98 | Every service begun is completed once, in order, on its own packet and at its own time, with at most one under way; every drain set happens once, at regular intervals |
| CompositeGuarantees.ConservesPackets | sim/compositequeue.cpp:212-531 | Byte counters equal the sums of the rings and stay within `_maxsize` and 2000 times it, the phantom size within its bound; each class is first in first out; every arrival is held, sent, bounced or dropped exactly once; whole packets are dropped only when told to drop |
| CompositeGuarantees.OneLowInTwentyOne | sim/compositequeue.cpp:71-86 | Of any 21 consecutive decisions with both classes waiting exactly one is for the low class |
| WeightedRoundRobin.LowWithinRound | sim/compositequeue.cpp:70-98 | In any log of round-robin decisions, a decision that sees a low packet waiting is, itself included, followed by a low one within a round: 21 decisions here, 11 in the path-length queue |
| CompositeGuarantees.LowNeverStarves | sim/compositequeue.cpp:70-98 | However a run goes on from a state with a low packet queued, one is in service or chosen by the next 21 decisions |
| CompositeGuarantees.NextDecisionSeesLow | sim/compositequeue.cpp:289-295 | A low packet queued during a high service is still waiting at the next decision |
| CompositeGuarantees.MarkingIsMonotone | sim/compositequeue.cpp:100-164 | In all three modes the draws that mark a packet also mark it with longer real and phantom queues |
| CompositeGuarantees.MarkingIsProportional | sim/compositequeue.cpp:100-164 | A packet is marked always above the upper threshold of the deciding queue, never up to the lower one, and between them for the draws in proportion; with both queues the real queue adds its own proportion between a fifth and four fifths of its size, only while the phantom queue is above its minimum |
| CompositeGuarantees.ThresholdsArePercentages | sim/compositequeue.cpp:122-123 | The thresholds are the given percentages of the size of the queue that decides, less its remainder of a hundred |
| CompositeGuarantees.PhantomDrains | sim/compositequeue.cpp:54-68 | k drains in a row take k packets' worth from the phantom queue, and not below zero |
| CompositeEffects.DataThatFits | sim/compositequeue.cpp:359-408 | In every reachable state a data packet that fits is queued whole behind the others; the other ring and what was bounced, dropped and sent stay as they are; the phantom queue takes its bytes up to its size, unless it is in series |
| CompositeEffects.DataThatDoesNotFit | sim/compositequeue.cpp:409-471 | One that does not fit is dropped if the queue is told to, and otherwise goes on as a trimmed header; the phantom queue takes a full packet, unless it is in series |
| CompositeEffects.HeaderArrives | sim/compositequeue.cpp:473-531 | A header is queued exactly if its bytes fit into 2000 times the size of the queue, bounced exactly if they do not and it has a way back and was not bounced before, and dropped otherwise |
| CompositeEffects.CompletionSends | sim/compositequeue.cpp:212-289 | The end of a service sends the packet at the front of the ring in service, marked exactly if it was marked or, for data and for headers that are neither acks nor pulls nor tell of a loss, the decision on the queue left behind says so; a phantom queue in series takes the data bytes, or a full packet per loss told |
| CompositeEffects.StepBegins | sim/compositequeue.cpp:70-98 | A step begins at most one service, of the packet at the front of the ring chosen, and its end is scheduled after the time the link takes for its bytes |
| CompositeQueues.CompositeQueue.constructor | sim/compositequeue.cpp:25-52 | A new queue is empty and idle |
| CompositeQueues.CompositeQueue.Serve | sim/compositequeue.cpp:77-84 | Schedules the end of service of a head packet |
| CompositeQueues.CompositeQueue.BeginService | sim/compositequeue.cpp:70-98 | The round-robin decision on the two ring buffers |
| CompositeQueues.CompositeQueue.DecreasePhantom | sim/compositequeue.cpp:54-68 | One drain and the scheduling of the next |
| CompositeQueues.CompositeQueue.AddToPhantom | sim/compositequeue.cpp:391-394 | Adds up to the phantom queue's size |
| CompositeQueues.CompositeQueue.DecideEcn | sim/compositequeue.cpp:100-164 | The marking decision, with the thresholds it leaves behind |
| CompositeQueues.CompositeQueue.TakeLow | sim/compositequeue.cpp:212-233 | Pops the low ring, its bytes out of the counter and, in series, into the phantom queue |
| CompositeQueues.CompositeQueue.DepartLow | sim/compositequeue.cpp:210-242 | A low packet leaves, marked if decided |
| CompositeQueues.CompositeQueue.CountHeader | sim/compositequeue.cpp:259-279 | A header counts as feedback of a loss or is marked |
| CompositeQueues.CompositeQueue.DepartHigh | sim/compositequeue.cpp:243-279 | A header leaves |
| CompositeQueues.CompositeQueue.CompleteService | sim/compositequeue.cpp:166-301 | The whole completion on ring buffers and event list; false on a failed assertion |
| CompositeQueues.CompositeQueue.DoNextEvent | sim/compositequeue.cpp:303-310 | Drain or completion, by comparing times |
| CompositeQueues.CompositeQueue.ServeIfIdle | sim/compositequeue.cpp:528-530 | Begins a service if none is under way |
| CompositeQueues.CompositeQueue.ReceiveLow | sim/compositequeue.cpp:359-408 | A data packet is queued whole |
| CompositeQueues.CompositeQueue.ReceiveHigh | sim/compositequeue.cpp:473-531 | A header is queued, bounced or dropped |
| CompositeQueues.CompositeQueue.ReceivePacket | sim/compositequeue.cpp:312-531 | Queued whole, trimmed to a header, or dropped when told to |
| CircularBuffers.AroundOnce | sim/circular_buffer.h:53-53 | Taking an index around the ring subtracts the size at most once |
| CircularBuffers.RingAppend | sim/circular_buffer.h:52-53 | Writing at the push index appends to the ring's sequence, wrapped or not |
| CircularBuffers.RingGrown | sim/circular_buffer.h:36-50 | Doubling and moving the wrapped part keeps the sequence |
| CircularBuffers.CircularBuffer.constructor | sim/circular_buffer.h:17-23 | A new buffer is empty |
| CircularBuffers.CircularBuffer.Grow | sim/circular_buffer.h:36-50 | The doubled array with the wrapped part moved, and how many elements the moving loop moved |
| CircularBuffers.CircularBuffer.Reserve | sim/circular_buffer.h:34-51 | Room for one more element with the contents kept |
| CircularBuffers.CircularBuffer.Push | sim/circular_buffer.h:32-55 | Appends; the moving loops of all growths together have moved fewer than twice the peak number of elements, not counting what resizing the array copies |
| CircularBuffers.CircularBuffer.Pop | sim/circular_buffer.h:57-65 | Removes and returns the oldest |
| CircularBuffers.CircularBuffer.PopFront | sim/circular_buffer.h:67-75 | Removes and returns the newest |
| CircularBuffers.CircularBuffer.Back | sim/circular_buffer.h:77-80 | Reads the oldest |
| CircularBuffers.CircularBuffer.Empty | sim/circular_buffer.h:82-82 | True exactly for no contents |
| FairPull.RoundRobinFair | sim/fairpullqueue.cpp:74-107 | From any state, while a flow is backlogged, not flushed and not served, every other flow is served at most once, whatever is enqueued, flushed, created or re-created meanwhile |
| FairPull.WaitIsBounded | sim/fairpullqueue.cpp:74-91 | With n flows a backlogged one is among the next n services |
| FairPull.DequeueAhead | sim/fairpullqueue.cpp:77-90 | Serving another flow moves the iterator past it and never back over the waiting one |
| FairPull.FlushAhead | sim/fairpullqueue.cpp:93-107 | Flushing another flow, also the one at the iterator, never moves the iterator back |
| FairPull.FlowIsFifo | sim/fairpullqueue.cpp:61-91 | Each flow is first in first out over any interleaving without its flush |
| FairPull.FlowIsConserved | sim/fairpullqueue.cpp:61-107 | Held and enqueued items are those dequeued, flushed and still held |
| FairPull.CountAfter | sim/fairpullqueue.cpp:71-102 | How each operation changes the number of items held |
| FairPull.TotalZero | sim/fairpullqueue.cpp:75-76 | The count is zero exactly if no flow is backlogged |
| FairPull.PassOne | sim/fairpullqueue.cpp:77-90 | One turn of the search serves the next backlogged flow, or keeps which flow that is and comes nearer to it |
| FairPull.WrapAround | sim/fairpullqueue.cpp:78-79 | Wrapping to the first key keeps the flow to serve and comes nearer |
| FairPull.SkipEmpty | sim/fairpullqueue.cpp:80-82 | Passing an empty queue keeps the flow to serve and comes nearer |
| FairPullQueues.FairPullQueue.constructor | sim/fairpullqueue.cpp:59-59 | A new queue has no flows and its iterator at the end |
| FairPullQueues.FairPullQueue.EnqueueItem | sim/fairpullqueue.cpp:61-72 | Appends to the flow's ring, created if new; `_pull_count` is the number of items held |
| FairPullQueues.FairPullQueue.Pass | sim/fairpullqueue.cpp:77-89 | One turn of the search loop on the live iterator |
| FairPullQueues.FairPullQueue.DequeueItem | sim/fairpullqueue.cpp:74-91 | The unbounded loop ends and serves the first backlogged flow from the iterator on |
| FairPullQueues.FairPullQueue.DrainQueue | sim/fairpullqueue.cpp:99-103 | Pops and counts out all items of one flow |
| FairPullQueues.FairPullQueue.FlushItems | sim/fairpullqueue.cpp:93-107 | Removes the flow, and moves the iterator on if it stood there |
| CompositePrio.ChecksHoldIff | sim/compositeprioqueue.cpp:251-261 | With correct counts the assertions of `check_queued` hold exactly while at most eight packets are queued |
| CompositePrio.FindMaxIsLongest | sim/compositeprioqueue.cpp:235-249 | The downward search finds the longest queued path |
| CompositePrio.EnqueueBooks | sim/compositeprioqueue.cpp:181-193 | Queuing keeps counts and cached maximum right |
| CompositePrio.RemoveBooks | sim/compositeprioqueue.cpp:195-212 | Removing any packet keeps counts and cached maximum right, also when the last of the longest goes |
| CompositePrio.TrimFindsVictim | sim/compositeprioqueue.cpp:263-319 | In a queue of any size, a trim for a path shorter than the longest queued always finds its victim, the most recently queued packet with a longer path, so the abort is out of reach |
| CompositePrio.TrimKeeps | sim/compositeprioqueue.cpp:269-308 | The assertions after it hold exactly if at most eight packets are left; only the victim goes, and its header is queued or dropped |
| CompositePrio.Displacement | sim/compositeprioqueue.cpp:95-151 | A full queue takes a packet exactly if some queued path is longer, displacing the most recently queued such packet, or if the last queued path is as long and the coin favours it, displacing that one |
| CompositePrio.StepInv | sim/compositeprioqueue.cpp:66-231 | Every step that goes through keeps counts, cached maximum, sizes and packets; a step fails an assertion exactly if it queues a ninth packet |
| CompositePrio.BooksAreExact | sim/compositeprioqueue.cpp:181-249 | In every run, for a queue of any size, the counts are those of the list, the cached maximum is its longest path or 0, and every arrival is queued, sent or dropped exactly once |
| CompositePrio.AssertionsHoldIff | sim/compositeprioqueue.cpp:251-319 | No assertion fails and no abort is reached in any run, exactly if a ninth packet does not fit |
| CompositePrioService.StepDecisions | sim/compositeprioqueue.cpp:36-64 | Every step that goes through keeps to the round robin, serves what was decided, and keeps a low packet waiting that a decision passed over |
| CompositePrioService.OneLowInEleven | sim/compositeprioqueue.cpp:37-52 | In every run, of any 11 consecutive decisions with both lists waiting exactly one is for the low list |
| CompositePrioService.LowWithinEleven | sim/compositeprioqueue.cpp:36-64 | However a run goes on from a state with a low packet queued, one is in service or chosen by one of the next 11 decisions |
| CompositePrioService.UncontendedTakesWaiting | sim/compositeprioqueue.cpp:55-60 | A decision with one list waiting takes that list, and what is served is what was decided last |
| CompositePrioService.CompletionSendsOldest | sim/compositeprioqueue.cpp:66-89 | A completion sends the oldest packet of the list decided on, and nothing else moves |
| CompositePrioService.ArrivalWithRoom | sim/compositeprioqueue.cpp:93-179 | A data packet that fits is queued whole and displaces nothing; a header is queued exactly if its bytes fit, and dropped if not |
| CompositePrioService.ArrivalWithoutRoom | sim/compositeprioqueue.cpp:106-166 | A data packet that does not fit turns one packet, the one it displaces or itself, into a header, which is queued exactly if its bytes fit, and dropped if not |
| CompositePrioQueues.CompositePrioQueue.constructor | sim/compositeprioqueue.cpp:8-34 | A new queue is empty with zero counts |
| CompositePrioQueues.CompositePrioQueue.CheckQueued | sim/compositeprioqueue.cpp:251-261 | The loop decides both assertions |
| CompositePrioQueues.CompositePrioQueue.FindMaxPathLenQueued | sim/compositeprioqueue.cpp:235-249 | The downward loop |
| CompositePrioQueues.CompositePrioQueue.EnqueuePacket | sim/compositeprioqueue.cpp:181-193 | Queues and updates the counts in place |
| CompositePrioQueues.CompositePrioQueue.EraseLow | sim/compositeprioqueue.cpp:195-212 | Erases a packet and updates the counts in place |
| CompositePrioQueues.CompositePrioQueue.QueueHeader | sim/compositeprioqueue.cpp:290-305 | Queues a header or drops it |
| CompositePrioQueues.CompositePrioQueue.TrimLowPriorityPacket | sim/compositeprioqueue.cpp:263-319 | The search-and-erase loop; false on the abort |
| CompositePrioQueues.CompositePrioQueue.BeginService | sim/compositeprioqueue.cpp:36-64 | The round-robin choice |
| CompositePrioQueues.CompositePrioQueue.DequeueHighPacket | sim/compositeprioqueue.cpp:214-231 | Takes the oldest header |
| CompositePrioQueues.CompositePrioQueue.CompleteService | sim/compositeprioqueue.cpp:66-89 | The queue after a completion |
| CompositePrioQueues.CompositePrioQueue.ReceivePacket | sim/compositeprioqueue.cpp:93-179 | The queue after an arrival |
| Meters.ConformsAtRate | sim/meter.cpp:46-75 | Over any run metered at a rate or slower, green bytes and credit left are paid for by the initial credit and the time passed, and the credit stays in the bucket |
| Meters.Conformance | sim/meter.cpp:46-75 | Over any run with penalties at any times, green bytes are at most the initial credit and the bytes the elapsed time is worth |
| Meters.PenaltyConformance | sim/meter.h:32-37 | After a penalty starts, at most a quarter of the rate passes while it lasts and half of it until the half penalty ends |
| Meters.GreenIff | sim/meter.cpp:49-74 | A packet is green exactly if it is no larger than the bucket and the time since the last call pays, at the rate of the moment, for the bytes of it that the credit does not cover; it is charged in full, and a red one not at all |
| Meters.PenaltyDelays | sim/meter.h:32-37 | After a penalty of N packets the next packet is green exactly if the time since then pays for it, at a quarter of the rate for N drain times of a data packet, half of it up to 4 N, and the full rate from then on |
| Meters.FrequentCallsEarnNothing | sim/meter.cpp:55-67 | Packets closer together than the time of one byte pass no more than the credit there was, however long it goes on |
| Meters.EarnsAllIff | sim/meter.cpp:55-67 | Outside penalties and without overflow, a run earns all the bytes that the elapsed time is worth exactly if the fractions forgotten at its calls add up to less than the time of one byte |
| Meters.EarnedOrForgotten | sim/meter.cpp:55-67 | In such a run all the time that passes is earned or forgotten |
| Meters.Meter.constructor | sim/meter.cpp:6-23 | A new bucket is full |
| Meters.Meter.ExecutePacket | sim/meter.cpp:46-75 | Refill at the current rate, verdict and charge |
| Meters.Meter.TrimPesiTime | sim/meter.h:32-37 | Empties the bucket and sets both deadlines |
| MptcpCoupling.ComputeAScaled | sim/mtcp.cpp:410-438 | The loop computes the factor from the best share, total rate and total window; none if the total rate is zero |
| MptcpCoupling.ComputeTotalWindow | sim/mtcp.cpp:338-349 | The sum of the windows, the threshold standing in during fast recovery |
| MptcpCoupling.CouplingBound | sim/mtcp.cpp:410-438 | For any flows and any one with the best share: the exact condition, on shares, windows and rates, for the factor times its window to be at most the scaled total window; that it is met if the round trip divides window times segment size, or share times window is at most the square of the total rate; and that otherwise it is missed by less than the square of the flow's rate rounded up over that of the total rate, and less than four times, through all divisions and the zero fallback (sections 3 and 4.1 of RFC 6356) |
| MptcpCoupling.FactorIff | sim/mtcp.cpp:431-436 | Both divisions and the zero fallback against one bound: factor times window is at most the scaled total exactly if the scaled total times the best share is below the quotient plus one times the squared rate |
| MptcpCoupling.FactorBound | sim/mtcp.cpp:431-431 | A bound on the best share against a flow's rate carries over to the factor |
| MptcpCoupling.ShareBelowRate | sim/mtcp.cpp:426-427 | Share times window is below four times the squared rate, and at most once without rounding of the rate |
| MptcpCoupling.RoundingExceedsBound | sim/mtcp.cpp:426-431 | A flow with one segment of 1500 bytes in flight and a round trip of about 0.58 seconds gets the factor 531, above the bound of 512 |
| MptcpCoupling.SingleFlowIsTcp | sim/mtcp.cpp:410-438 | A single flow without roundings gets the factor one, that of TCP |
| MptcpCoupling.IgnoresOtherWindow | sim/mtcp.cpp:420-421 | For any flows, neither the factor nor the total window depends on the threshold of a flow outside fast recovery or on the window of one inside it |

## Left out

- Fixed-width integers: all counters, times and sizes are unbounded, so overflow, the 32-bit sequence number of `get_sent_packet_idx` and the cast of the coupling factor to 32 bits are not modelled.
- BBRPacer: its timer and its synchronous re-entry into `send_packets` are replaced by the number of `permits` an activation has.
- BBR pacing rate: `UpdatePacingRate` is not modelled; `ChooseStartingIndex` is taken as written, which returns 0 whatever it draws.
- BBR routes and paths: `choose_route`, entropies and `random()` have no effect on the lists modelled.
- BBR options that are off in the code: distance-based retransmission, fast drop, `pause_send`, trimming disabled, simulated trims for lossless queues.
- BBR window laws that have no effect on the machines above: `adjust_window`, `medium_increase`, `fast_increase`, `quick_adapt`.
- BBR liveness: nothing says that a packet arrives in the end (`RepairIff` says when it no longer can).
- BbrScan.ScanFindsOnlyDue: says unacknowledged, not outstanding, because `_rtx_timeout` is not recomputed when a packet is nacked or times out without being sent again.
- BbrScan.ScanNeverMisses: assumes that packets depart in the order they are sent, as from a first-in first-out host queue; `_rtx_timeout` is not recomputed when a new packet is sent while it is set.
- BBR bounced packets at the source. In runs the event that restarts it when a timeout is pending is a `Start` step at any time.
- BbrSafety.NackCounterCovers: only an inequality, because in general runs a cumulative ack can erase a packet flagged for retransmission without decrementing the counter; the equality is OneCarrierPerPacket.
- BbrTimeoutFree.ByteCounterIsExact: an equality only when nothing is lost, because a lost message leaves its bytes counted.
- CompositeQueue with `_use_mixed`, with `use_bts`, failed links and switches: these index past the ring or depend on code that is not part of this model.
- CompositeQueue packet counters, loggers and data collection files: only the byte counters and the fate of each packet are modelled.
- CompositeQueue with an end time: events at or after it are never scheduled, and the queue would serve forever; the model assumes none, positive packet sizes and positive drain times.
- CompositeQueue re-entry: a packet sent on does not come back to the same queue within the same call.
- CompositeGuarantees.MarkingIsMonotone: does not say how likely a mark is, because the draws are parameters.
- CompositePrioQueue timing: completions happen at any time while serving; the event list is coupled to CompositeQueue only.
- CompositePrioQueue with unequal whole packets, path lengths of 0 or above 19, or a longest path seen that does not start at 0, which the constructor leaves unset.
- Meter queue: the list of packet drain times is never filled by the code shown.
- MPTCP: `inflate_window`, the other coupling types and `window_changed` work in floating point or only call the factor; the receive-window model of the sink is compiled out, and its reassembly is that of BBRSink.
- FifoPullQueue and the preferred flow; ECNQueue, FairCompositeQueue, CustomBuffer, CBR, Clock and Matrix.
- Swift, DCTCP and HPCC: floating-point window laws.
- Traffic generation, plotting, logging and output files.
- Packet pools, routes and object lifetime.
