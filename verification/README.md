# Netstack2, modelled in Dafny

Netstack2 is a userspace TCP/IP engine. This project models the parts of it whose correctness spans
many operations, and proves what they promise:

- the TCP byte stream: sender, receiver, delivery and AIMD congestion control, composed over a network
  that loses, repeats and reorders (`SeqSpace`, `Receive`, `Delivery`, `Congestion`, `SendStream`,
  `SendChoice`, `Send`, `SendRuns`, `Link`);
- the lock-free structures as state machines over their atomic steps: the tagged free list of the buffer
  pool and the bounded lanes between shards (`BufferPool`, `Lanes`);
- the FQ-CoDel scheduler (`FlowRing`, `CodelControl`, `CeMark`, `FqFlows`, `FqVerdicts`, `FqCodel`);
- IP fragment reassembly (`Reassembly`, `ReassemblyTable`, `ReassemblyRuns`);
- the wire format: checksum, options, headers, printer and parser (`Checksum`, `TcpOptions`, `Ipv6`, `Wire`,
  `WireLimits`);
- the timer wheel and the accounting of passive opens (`TimerWheel`, `PassiveOpen`).

`Prelude` holds what they share.

Objects that the source updates in place are classes with the source's fields plus ghost fields for the
abstract value they stand for (absolute stream positions, histories, accounts). Invariants are predicates
on values, so that each step has a small lemma of its own. Sequence numbers are 32-bit and wrap; the ghost
positions are unbounded. What the surroundings decide (clock, session, factory, pool, thread schedule,
timer callbacks, segments lost or repeated) is a parameter, quantified over in every statement.

Nine properties one might expect do not hold as they stand. Each has a concrete counterexample and the
exact condition under which it does hold: the SACK counters (`SackTrim`, `CountersDrift`), the peer's right
edge (`RightEdgeLaw`, `CrossesRightEdge`), windows offered on data segments (`OfferKept`, `UnrecordedOffer`),
the free list under tag wrap (`StepKeepsInv`, `TagWrapBreaks`), the discarding of IPv6 datagrams with an
overlap (`OverlapNoticed`, `OverlapCanComplete`), the rotation of the scheduler without a quantum
(`SettlesIff`, `SpinsWithoutQuantum`), the freedom of its unlisted slots (`Enqueue`, `ClaimsUnused`), the round
trip of long segments (`RoundTripIff`, `TooLong4`), and the SYN option round trip with an MSS of zero (`SynRoundTrip`).
Three pieces of the source turn out to be unreachable: the phase-shift branch of CoDel
(`PhaseShiftUnreachable`), the limit of eight IPv6 extension headers (`ParseLaw`), and the branch of the
receiver for segments with nothing left after trimming (`Place`).

Where comments and code disagree the code is followed: the header of the scheduler says that old flows have
drained once, the code moves a flow over when its credit does not cover its next packet
(src/qos/fq_codel.cpp:277-283).

`dafny verify dfyconfig.toml` checks the whole project.

## Model

| member | source | states |
|---|---|---|
| SeqSpace.ComparisonLaw | src/tcp/send.cpp:12-18 | wrapping comparison of two sequence numbers is comparison of the absolute positions whenever those are less than 2^31 apart |
| SeqSpace.OffsetLaw | src/tcp/receive.cpp:19-31 | the signed offset of a sequence number from a base is the true distance exactly when that distance is below 2^31 in size |
| Receive.Place | src/tcp/receive.cpp:99-143 | where an arriving segment falls: trimmed left and right, or refused exactly when the RFC 9293 test refuses it; what remains is never empty |
| Receive.TcpReceiveBuffer.constructor | src/tcp/receive.cpp:33-39 | a new buffer holds nothing and has promised the initial window, capped by its capacity |
| Receive.TcpReceiveBuffer.IsSequenceAcceptable | src/tcp/receive.cpp:75-90 | equals the acceptability test of section 3.10.7.4 of RFC 9293 on the window still promised |
| Receive.TcpReceiveBuffer.AcceptabilityLaw | src/tcp/receive.cpp:61-90 | on absolute positions: a segment is acceptable exactly when it begins or ends between rcv_nxt and the promised edge |
| Receive.TcpReceiveBuffer.PromiseKept | src/tcp/receive.cpp:61-90 | every position below the recorded edge and not yet received stays acceptable, however long ago the window was recorded |
| Receive.TcpReceiveBuffer.OfferKept | src/tcp/handshake.cpp:1280-1282 | a window that goes out unrecorded, as on data segments, is honoured in full exactly if the recorded edge already covers it |
| Receive.UnrecordedOffer | src/tcp/receive.cpp:33-39 | a new buffer with more room than its initial window computes a window that covers a position it would refuse |
| Receive.TcpReceiveBuffer.RecordAdvertisedWindow | src/tcp/receive.cpp:66-73 | the promised edge never retreats and stays within the ring, so rcv_adv - rcv_nxt never exceeds the free room |
| Receive.TcpReceiveBuffer.OnSegment | src/tcp/receive.cpp:92-209 | ring and bitmap refine a map from absolute position to first-written byte: every byte is kept as accepted, counted as duplicate or trimmed, none is overwritten, rcv_nxt is the end of the maximal prefix, and the ACK decision is delayed in exactly one case |
| Receive.TcpReceiveBuffer.AdvanceReady | src/tcp/receive.cpp:165-170 | ready_bytes grows to the maximal occupied prefix |
| Receive.TcpReceiveBuffer.HeldCount | src/tcp/receive.cpp:145-163 | bytes_held is the number of occupied slots and bytes_held - ready_bytes the number held out of order |
| Receive.TcpReceiveBuffer.ReadyView | src/tcp/receive.cpp:211-218 | the chunk offered to the session is the next bytes of the stream, up to the wrap of the ring |
| Receive.TcpReceiveBuffer.ConsumeReady | src/tcp/receive.cpp:220-230 | consumed bytes leave in stream order into the delivered prefix and nothing else leaves |
| Receive.TcpReceiveBuffer.RecentStillHeld | src/tcp/receive.cpp:238-253 | tells whether every byte of the remembered block is held beyond rcv_nxt, however stale the block |
| Receive.TcpReceiveBuffer.SackBlocks | src/tcp/receive.cpp:232-279 | every block lies beyond rcv_nxt and covers held bytes only; scanned blocks are the maximal runs in ascending order; unless the limit is hit every held byte is covered |
| Receive.TcpReceiveBuffer.ConsumeFin | src/tcp/receive.cpp:281-284 | rcv_nxt moves past the FIN, the stream end stays where it was |
| Delivery.DrainTcpReceiveBuffer | src/tcp/delivery.cpp:5-72 | for every behaviour of the session: what it took is the next piece of the stream, calls stay within budget, every call before the last asked for more, and the status names the answer that ended the loop |
| Congestion.AimdController.OnAck | src/tcp/congestion.cpp:17-43 | slow start and congestion avoidance never shrink the window and keep it positive |
| Congestion.AimdController.OnFastRecoveryEntry | src/tcp/congestion.cpp:52-58 | halving keeps both thresholds at two segments or more |
| Congestion.AimdController.OnRto | src/tcp/congestion.cpp:74-81 | a timeout leaves a window of one segment, never zero |
| Congestion.AimdController.UpdateMss | src/tcp/congestion.cpp:89-100 | rescaling to a smaller segment size keeps the window positive |
| SendStream.Conservation | src/tcp/send.cpp:284-473 | in every open state the operations keep: stream = acknowledged ++ record payloads ++ probe payload ++ unsent |
| SendStream.StoreStep | src/tcp/send.cpp:311-350 | cutting a record off the unsent queue keeps records contiguous from snd_una |
| SendStream.ProbeStep | src/tcp/send.cpp:361-388 | a live probe is the only thing in flight |
| SendStream.TrimStep | src/tcp/send.cpp:619-640 | a partial acknowledgment trims the front record and keeps the tiling |
| SendStream.SackTrim | src/tcp/send.cpp:626-638 | the SACK counters still equal the flags after a partial acknowledgment exactly when the trimmed record was not SACKed |
| SendStream.CoversLaw | src/tcp/send.cpp:871-936 | a block covers a record exactly when it spans it in absolute positions |
| SendChoice.NewChoiceOk | src/tcp/send.cpp:258-282 | a new segment carries the stream bytes at snd_nxt, fits every limit, and has a FIN exactly at the end of the stream |
| SendChoice.RetransmitChoiceOk | src/tcp/send.cpp:216-246 | a retransmission carries the stream bytes at snd_una |
| SendChoice.ProbeChoiceOk | src/tcp/send.cpp:132-189 | a window probe carries the next stream byte or the FIN |
| Send.AckLaw | src/tcp/send.cpp:475-500 | on 32-bit registers an ACK is new exactly when it lies in (una, nxt] in absolute positions |
| Send.RightEdgeLaw | src/tcp/send.cpp:88-94 | new data of every size the usable window allows stays within the peer's right edge exactly if the SACKed positions fit into what congestion control withholds |
| Send.TcpSendBuffer.Enqueue | src/tcp/send.cpp:64-78 | accepts exactly what fits and appends it to the stream |
| Send.TcpSendBuffer.RequestFin | src/tcp/send.cpp:80-86 | a FIN can be requested once and ends the stream |
| Send.TcpSendBuffer.NextSegment | src/tcp/send.cpp:103-282 | no stall: with work left and nothing pending it yields a segment, closes, or leaves a deadline in the future; every segment carries the stream bytes at its sequence number; retransmissions fit the peer's window, and new data respects its right edge under the condition of RightEdgeLaw |
| Send.TcpSendBuffer.ChooseProbe | src/tcp/send.cpp:118-190 | at a zero window a probe goes out exactly when the persist deadline has come, probes are left and there is work; the sender closes exactly when it has come and none are left |
| Send.TcpSendBuffer.ChooseOpen | src/tcp/send.cpp:192-282 | the open-window branch promotes, retransmits, sends, or leaves a live deadline |
| Send.TcpSendBuffer.StoreNewRecord | src/tcp/send.cpp:284-350 | snd_nxt and snd_max advance together over the stored record |
| Send.TcpSendBuffer.OnSent | src/tcp/send.cpp:352-473 | every pending kind leaves conservation intact; no record gets more than max_retransmissions timer retransmissions |
| Send.TcpSendBuffer.AckRecords | src/tcp/send.cpp:566-641 | exactly the acknowledged positions leave the queue; the SACK counters stay exact iff the ACK does not land inside a SACKed record |
| Send.TcpSendBuffer.OnAck | src/tcp/send.cpp:475-744 | una moves to the acknowledged position or not at all, conservation and deadlines hold afterwards |
| Send.TcpSendBuffer.OnSack | src/tcp/send.cpp:871-936 | exactly the covered records become SACKed and the counters follow |
| SendRuns.CrossesRightEdge | src/tcp/send.cpp:88-94 | Enqueue, two segments sent, the second SACKed: NextSegment then offers a third that lies wholly beyond the peer's window |
| SendRuns.CountersDrift | src/tcp/send.cpp:626-638 | Enqueue, two segments sent, the second SACKed, an acknowledgment into its middle: the counters were exact before it and are not after |
| Send.TcpSendBuffer.Close | src/tcp/send.cpp:815-833 | closing releases everything queued and stops every timer |
| Send.TcpSendBuffer.AllAckedLaw | src/tcp/send.cpp:850-854 | AllAcked means the whole stream, and a requested FIN, has been acknowledged |
| Link.Connection.SafetyTheorem | src/tcp/handshake.cpp:1243-1304 | delivered bytes are a prefix of written bytes, snd_una <= rcv_nxt <= snd_nxt, and an acknowledged FIN means the whole stream arrived in order |
| Link.Connection.Transmit | src/tcp/handshake.cpp:1243-1304 | NextSegment, a retained copy and OnSent in the engine's order keep the connection safe, also when the pool is empty; with a buffer and work to do something goes on the wire, the sender closes, or it waits for a deadline |
| Link.Connection.Arrive | src/tcp/receive.cpp:92-209 | any segment ever sent, however often repeated or late within 2^31, keeps the connection safe, and one that starts at rcv_nxt with room in the window advances it |
| Link.Connection.AckArrives | src/tcp/send.cpp:475-744 | any acknowledgment ever sent, with any SACK blocks, keeps the connection safe |
| Link.Connection.Run | src/tcp/send.cpp:103-350 | end to end: every interleaving of writes, sends, retransmissions, probes, losses, repetitions, reorderings, ACKs and reads |
| BufferPool.StepKeepsInv | src/core/buffer_pool.cpp:77-199 | one atomic step of any thread keeps the free list acyclic, equal to the pushed slots, and every slot with one holder, if and only if it is not a pop that swaps in an out-of-date successor |
| BufferPool.NoWrapNoStale | src/core/buffer_pool.cpp:77-90 | as long as no thread sleeps through a whole 32-bit tag space a stale swap cannot happen |
| BufferPool.TagWrapBreaks | src/core/buffer_pool.cpp:77-90 | from a new pool of three slots a legal run, in which one thread sleeps through 2^32 swaps, leads to a swap after which the free list starts with a leased slot |
| BufferPool.PopStep | src/core/buffer_pool.cpp:77-90 | a successful pop takes exactly the top slot |
| BufferPool.PushStep | src/core/buffer_pool.cpp:92-102 | a successful push puts back exactly the slot in the thread's hand, even across a tag wrap |
| BufferPool.StepKeepsCounts | src/core/buffer_pool.cpp:104-199 | free, outstanding and retained counters agree with the slots up to updates still owed by a thread |
| BufferPool.StepKeepsParity | src/core/buffer_pool.cpp:77-103 | the tag and the depth of the list move together: tag + depth keeps its parity |
| BufferPool.RunSafe | src/core/buffer_pool.cpp:77-199 | in every interleaving by any number of threads both hold, and no ownership check of the pool fires |
| BufferPool.ExclusiveHolders | src/core/buffer_pool.cpp:104-186 | a slot is free, leased once, retained or queued, never two of these |
| BufferPool.Quiescence | src/core/buffer_pool.cpp:104-199 | at quiescence free + leased + retained + queued = slot count and the lock is free |
| FlowRing.FlowQueue.PushBack | src/qos/fq_codel.h:175-181 | appends to the queue's contents, growing first when full |
| FlowRing.FlowQueue.PopFront | src/qos/fq_codel.h:186-192 | removes and returns the oldest packet |
| FlowRing.FlowQueue.Grow | src/qos/fq_codel.h:205-215 | growing keeps the contents and their order |
| FlowRing.FlowQueue.Clear | src/qos/fq_codel.h:195-202 | empties the queue and keeps its storage |
| CodelControl.Isqrt32 | src/qos/fq_codel.cpp:18-25 | the integer square root |
| CodelControl.CodelShouldDrop | src/qos/fq_codel.cpp:114-173 | the method, replay loop included, computes the controller's step |
| CodelControl.VerdictLaw | src/qos/fq_codel.cpp:118-131 | with a clock that does not go back a verdict comes only after at least interval in which every packet examined on the slot exceeded the target |
| CodelControl.SpacingLaw | src/qos/fq_codel.cpp:134-148 | for packets that leave in the order they came: successive verdicts are at least max(1, interval / isqrt(count)) apart, and a slot that stays over target gets the next one exactly then; every interval, 0 included |
| CodelControl.PhaseShiftUnreachable | src/qos/fq_codel.cpp:150-172 | the phase-shift branch is never taken with a clock that does not go back; a new episode starts at count 1 |
| CodelControl.OneVerdictAnInstant | src/qos/fq_codel.cpp:140-148 | after a verdict the next packet examined at the same instant is let through |
| CeMark.MarkCe | src/qos/fq_codel.cpp:175-217 | exactly the ECN-capable packets are marked, only ECN bits and the IPv4 checksum change, and the IPv4 header then verifies |
| FqFlows.ServeFlow | src/qos/fq_codel.cpp:219-260 | one visit removes at most two packets: at most one falls to CoDel, the next survivor is delivered, nothing is delivered only if the queue ran out |
| FqVerdicts.ServedLogged | src/qos/fq_codel.cpp:219-260 | what one visit to a slot drops, marks and passes is what the controller says after all the slot's examinations since it was claimed |
| FqVerdicts.DecisionLaw | src/qos/fq_codel.cpp:114-173 | each drop or mark of the scheduler came after an interval over target and a full delay after the slot's last one, and no later than it had to |
| FqCodel.FindFlow | src/qos/fq_codel.cpp:39-60 | the first slot in probe order that is free or carries the hash, none exactly when no slot qualifies |
| FqCodel.FqCoDelScheduler.Enqueue | src/qos/fq_codel.cpp:76-112 | accepts exactly within all four limits; the packet goes to the back of its slot, an idle slot joins the new list; only a refusal by the limits of the flow claims the slot, and it leaves an unlisted slot claimed exactly if the packet fits no empty flow and carries a hash |
| FqCodel.ClaimsUnused | src/qos/fq_codel.cpp:87-92 | on a new scheduler a packet that fits no flow leaves a slot claimed that is on no list and closed to every other hash |
| FqCodel.FqCoDelScheduler.ServeFlow | src/qos/fq_codel.cpp:219-260 | totals, deficits and fates of the leases follow what left the slot |
| FqCodel.FqCoDelScheduler.ReleaseFront | src/qos/fq_codel.cpp:62-74 | a drained slot is reset and leaves its list |
| FqCodel.GrantShrinks | src/qos/fq_codel.cpp:299-313 | each grant of the rotation strictly lowers the credit still missing, which is why Dequeue terminates |
| FqCodel.SettlesIff | src/qos/fq_codel.cpp:299-313 | from every state that satisfies the invariant the rotation of the old list ends exactly if there is a quantum, or a listed flow can pay already, or no listed flow has a packet |
| FqCodel.SpinsWithoutQuantum | src/qos/fq_codel.cpp:262-313 | without a quantum: one non-empty packet enqueued on a new scheduler, one pass of the new-list loop, and the rotation never ends |
| FqCodel.FqCoDelScheduler.VisitNew | src/qos/fq_codel.cpp:265-296 | one visit to the front of the new list: it is released, matures or is served; one that can pay is served |
| FqCodel.FqCoDelScheduler.DequeueNew | src/qos/fq_codel.cpp:265-296 | the new-list loop serves the front of the new list or empties it |
| FqCodel.FqCoDelScheduler.DequeueOld | src/qos/fq_codel.cpp:299-323 | the round robin terminates and serves the front of the old list, or empties it |
| FqCodel.FqCoDelScheduler.Dequeue | src/qos/fq_codel.cpp:262-326 | terminates; nothing is returned only when nothing is queued; new flows come first, and the front flow that can pay for its head packet is the one served; totals stay the sums over slots and every non-empty slot is on exactly one list |
| FqCodel.FairShares | src/qos/fq_codel.cpp:299-323 | slots on the old list for a whole window differ by at most one quantum in grants and by at most 3 quanta + 4 maximal packets in bytes |
| FqCodel.FqCoDelScheduler.Run | src/qos/fq_codel.cpp:76-326 | over any run: the accepted leases are those of the script that were admitted; what is handed out, in order, is what the log of decisions says was sent; each slot gives up its leases in the order they came; every accepted lease is queued, delivered once or dropped once; slots that stayed were served fairly; with a clock that does not go back every drop and mark obeys the two CoDel laws; if every lease fits an empty flow, every unlisted slot stays free |
| FqCodel.FqCoDelScheduler.Reset | src/qos/fq_codel.cpp:330-338 | back to the initial state, queued leases released |
| Reassembly.SortSpans | src/ip/fragment.cpp:198-210 | the in-place insertion sort computes the sort |
| Reassembly.SortOk | src/ip/fragment.cpp:198-210 | sorted, and a permutation |
| Reassembly.HasOverlap | src/ip/fragment.cpp:43-52 | true exactly when some stored piece overlaps |
| Reassembly.CompletenessIsCoverage | src/ip/fragment.cpp:189-236 | sort and chain walk accept exactly when the pieces tile [0, total) |
| Reassembly.AddFragment | src/ip/fragment.cpp:54-239 | refuses for exactly the listed reasons in their order, otherwise stores; completes exactly when the pieces tile [0, total) |
| Reassembly.Confluence | src/ip/fragment.cpp:54-239 | for every cut of a payload into at most 64 valid fragments, in every order: a fragment is refused exactly when the budget does not cover what it adds to the buffer; if none was, completion exactly on the last arrival, with the original payload and the union of the ECN marks |
| Reassembly.CutReordered | src/ip/fragment.cpp:54-239 | every permutation of a cut is a cut, so the order of arrival is immaterial |
| Reassembly.CompleteIsTiled | src/ip/fragment.cpp:212-235 | conversely, over a whole run from an empty entry: when a datagram completes, every byte of it was brought by an accepted fragment and every accepted fragment's bytes lie where it said |
| Reassembly.OverlapNoticed | src/ip/fragment.cpp:66-136 | RFC 5722: an overlapping fragment leaves an IPv6 entry discarded exactly if it was already, or the fragment passes the checks before the overlap test; otherwise the entry is unchanged |
| Reassembly.OverlapNeverCompletes | src/ip/fragment.cpp:118-136 | once such a fragment has been noticed on an IPv6 datagram nothing completes that entry, whatever arrives |
| Reassembly.UnnoticedLeavesNoTrace | src/ip/fragment.cpp:66-116 | an overlap that an earlier check refuses changes nothing: the run goes on as if that fragment had not come |
| Reassembly.OverlapCanComplete | src/ip/fragment.cpp:99-136 | a run of three fragments in which an IPv6 datagram completes although one of them overlapped |
| ReassemblyTable.FragmentReassembler.constructor | src/ip/fragment.cpp:245-252 | the number of entries is clamped to the range from 1 to the hard limit, a byte limit of 0 becomes the default, the table starts empty |
| ReassemblyTable.FragmentReassembler.FindOrCreate | src/ip/fragment.cpp:413-463 | the live entry of the key, else a fresh one in the first reusable place, else refusal; keys stay unique |
| ReassemblyTable.FragmentReassembler.AddTo | src/ip/fragment.cpp:311-339 | the entry meets the fragment with the remaining budget; current_bytes stays the sum of the buffers, within max_total_bytes |
| ReassemblyTable.FragmentReassembler.AddIpv4Fragment | src/ip/fragment.cpp:265-340 | IPv4: empty and oversized payloads refused first; refused for lack of an entry exactly when no entry is or can be made its own; otherwise its entry meets the fragment with the hard limit 65515 and the bytes no entry holds as budget |
| ReassemblyTable.FragmentReassembler.AddIpv6Fragment | src/ip/fragment.cpp:342-411 | IPv6: as above with 65535; what completes was not marked discarded |
| ReassemblyTable.Ipv4KeyInjective | src/ip/fragment.cpp:256-261 | mapping IPv4 addresses into 16 bytes keeps datagrams apart |
| ReassemblyTable.FragmentReassembler.Purge | src/ip/fragment.cpp:465-475 | every expired entry goes, no other changes, and the count returned is their number |
| ReassemblyRuns.Run | src/ip/fragment.cpp:265-475 | over any run of IPv4 and IPv6 fragments and purges: a live entry goes through exactly the fragments of its own key, whatever happens to other datagrams, and each call answers as that entry does |
| ReassemblyRuns.OverlapIsFinal | src/ip/fragment.cpp:118-136 | RFC 5722 for the table: after a noticed overlap no later call for that IPv6 datagram completes while its entry lives |
| ReassemblyRuns.CutCompletes | src/ip/fragment.cpp:212-235 | a cut that arrives while its entry lives completes exactly on its last fragment, as long as the payload fits beside what the table holds of other datagrams |
| Checksum.InternetChecksum | src/ip/checksum.cpp:7-31 | the four-byte-step loop returns the complement of the folded 32-bit sum, which is the RFC 1071 one's-complement sum |
| Checksum.OnesSumIsFold | src/ip/checksum.cpp:25-30 | folding the plain sum equals adding word by word with end-around carry |
| Checksum.SeededChecksum | src/ip/checksum.cpp:7-66 | seeding with a pseudo-header is the RFC 1071 sum over pseudo-header and segment together |
| Checksum.NoOverflow | src/ip/checksum.cpp:25-26 | up to 65,535 bytes the 32-bit accumulator cannot overflow |
| Checksum.InsertVerifies | src/ip/checksum.cpp:7-31 | inserting the checksum into its zeroed field makes verification return zero |
| Checksum.InsertVerifiesIff | src/tcp/output.cpp:182-200 | for data of any length the inserted checksum verifies exactly if adding it does not carry out of the 32-bit accumulator |
| Checksum.VerifiesIff | src/ip/checksum.cpp:27-30 | verification returns zero exactly when the non-zero total is a multiple of 65535 |
| Checksum.Ipv4PseudoHeaderSeed | src/ip/checksum.cpp:33-47 | the seed is the word sum of the RFC 793 pseudo-header |
| Checksum.Ipv6PseudoHeaderSeed | src/ip/checksum.cpp:49-66 | the seed is the word sum of the pseudo-header of section 8.1 of RFC 8200 |
| TcpOptions.SerializeSynOptions | src/tcp/output.cpp:31-73 | never overflows its 40 bytes and prints the option layout |
| TcpOptions.SerializeAckOptions | src/tcp/output.cpp:75-117 | three blocks beside a timestamp, four without, never overflowing |
| TcpOptions.ParseTcpSynOptions | src/tcp/options.cpp:17-114 | the offset loop computes the option-by-option parse, errors included |
| TcpOptions.ParseTcpSackBlocks | src/tcp/options.cpp:116-152 | the offset loop collects at most four blocks and stops at malformed options |
| TcpOptions.SynRoundTrip | src/tcp/options.cpp:17-114 | parsing printed SYN options gives them back, except that an MSS of zero is refused |
| TcpOptions.SackRoundTrip | src/tcp/options.cpp:116-152 | the SACK blocks that fit come back in order |
| TcpOptions.StampRoundTrip | src/tcp/options.cpp:17-114 | the timestamp of an ACK comes back through the SYN option parser |
| Ipv6.ParseIpv6Options | src/ip/extension_headers.cpp:5-48 | the cursor loop computes the parse that TlvLaw characterises |
| Ipv6.TlvLaw | src/ip/extension_headers.cpp:5-48 | the parse returns a list exactly if the area is the wire form of that list and the list has at most 64 options |
| Ipv6.WalkHeaders | src/ip/ipv6.cpp:139-270 | the extension-header loop computes the walk |
| Ipv6.WalkLaw | src/ip/ipv6.cpp:139-270 | the walk ends inside the payload after at most four distinct headers; the limit of eight never decides |
| Ipv6.ParseLaw | src/ip/ipv6.cpp:35-287 | the payload of a parsed packet lies inside the buffer, right after at most 1024 bytes of extension headers |
| Wire.BuildTcpControlPacket | src/tcp/output.cpp:121-202 | writes exactly the packet layout and nothing beyond it, or nothing at all when it refuses; the refusals in their order |
| Wire.TcpVerifies | src/tcp/segment.cpp:47-58 | the inserted transport checksum is one the parser accepts |
| Wire.SegmentRoundTrip | src/tcp/segment.cpp:21-76 | ParseTcpSegment undoes the TCP part |
| Wire.Ipv4RoundTrip | src/ip/ipv4.cpp:7-82 | through IPv4, header checksum included |
| Wire.Ipv6RoundTrip | src/ip/ipv6.cpp:35-287 | through IPv6 |
| Wire.RoundTrip | src/tcp/input.cpp:10-86 | ParseIpTcpPacket(BuildTcpControlPacket(r)) succeeds for every well-formed r that fits 16 bits and gives back flow, seq, ack, flags, window, ECN, options and payload |
| WireLimits.RoundTripIff | src/tcp/output.cpp:121-202 | for every response the printer accepts, of any length below 2^32: the packet parses back to it exactly if its lengths fit 16 bits, or, over IPv6, the length is a multiple of 2^16 and the checksum survives the accumulator |
| WireLimits.ExactlyTwo16 | src/ip/ipv6.cpp:82-120 | an IPv6 segment of exactly 2^16 bytes goes out with length zero and comes back whole |
| Wire.OptionsRoundTrip | src/tcp/output.cpp:133-145 | and the option bytes parse back to the options asked for |
| Lanes.StepKeeps | src/core/inbox_spsc.h:56-78 | one atomic step of producer or consumer keeps ring, order, byte account and ownership |
| Lanes.RunSafe | src/core/shard_lanes.h:33-66 | in every interleaving of the producer and the consumer |
| Lanes.LaneLaw | src/core/shard_lanes.h:33-66 | at every point of every interleaving: first in first out without loss, repetition or overwriting; bytes = queued + reserved + popped-not-released within capacity; a refused push leaves the envelope with the caller; neither side is stuck |
| Lanes.NextPow2MaskFits | src/core/inbox_spsc.h:98-109 | the mask is one less than a power of two and has room for the capacity |
| Lanes.NextPow2MaskIsLeast | src/core/inbox_spsc.h:98-109 | and it is the least such mask |
| Lanes.MaskedSlots | src/core/inbox_spsc.h:59-75 | masking wrapping 64-bit counters repeats after the capacity and not before |
| TimerWheel.Wheel.FreshId | src/core/timer_wheel.cpp:37-44 | terminates and returns an id no pending timer has, across id wrap |
| TimerWheel.Wheel.Schedule | src/core/timer_wheel.cpp:28-60 | adds one timer to the map, its deadline moved ahead of the cursor |
| TimerWheel.Wheel.Cancel | src/core/timer_wheel.cpp:62-71 | true exactly when the timer was pending, and then it is gone |
| TimerWheel.Sweep | src/core/timer_wheel.cpp:80-93 | collects what is due slot by slot and keeps list, index and count consistent |
| TimerWheel.DueLaw | src/core/timer_wheel.cpp:80-93 | what is collected is exactly the pending timers whose deadline has come |
| TimerWheel.Wheel.AdvanceTo | src/core/timer_wheel.cpp:73-100 | fires exactly the due timers once each, whatever the callbacks do; what the callbacks did follows their operations one by one; a timer not due and not cancelled by them stays as it was, and only what they scheduled is new |
| TimerWheel.PendingLaw | src/core/timer_wheel.cpp:28-100 | a timer is on the wheel exactly if it was scheduled and has since been neither cancelled nor reached by an advance |
| TimerWheel.FiresOnce | src/core/timer_wheel.cpp:73-100 | a timer fires at an advance exactly if that advance is the first to reach its deadline and no cancel came before; and then once |
| TimerWheel.Wheel.Run | src/core/timer_wheel.cpp:28-100 | both laws for the history of any run of Schedule, Cancel and AdvanceTo calls, callbacks included; every timer scheduled is pending, fired or cancelled |
| PassiveOpen.TcpHandshakeEngine.RemoveAt | src/tcp/handshake.cpp:645-681 | removal by swap keeps every count and cancels the retry timer |
| PassiveOpen.TcpHandshakeEngine.OnSyn | src/tcp/handshake.cpp:852-931 | a SYN opens exactly when half-open, backlog and PCB limits leave room, options parse and a timer can be set |
| PassiveOpen.TcpHandshakeEngine.OnHalfOpen | src/tcp/handshake.cpp:689-820 | exactly what a segment does to a half-open connection: reset removes it, the acknowledgment of the SYN-ACK promotes it, drops it for memory or refusal, everything else changes nothing; replies and errors |
| PassiveOpen.TcpHandshakeEngine.Establish | src/tcp/handshake.cpp:734-812 | memory is charged within its budget or the connection is dropped; the half-open count falls by one; the timer is cancelled |
| PassiveOpen.TcpHandshakeEngine.OnRetry | src/tcp/handshake.cpp:315-336 | at most four timed SYN-ACK resends, each with a fresh timer, then removal |
| PassiveOpen.TcpHandshakeEngine.OnSegment | src/tcp/handshake.cpp:683-931 | the exact outcome for an unknown flow, a half-open one and a later one; only a pure SYN raises the half-open count, and it is answered |
| PassiveOpen.TcpHandshakeEngine.Shutdown | src/tcp/handshake.cpp:1139-1159 | everything goes, all accounts return to zero |
| PassiveOpen.TcpHandshakeEngine.Run | src/tcp/handshake.cpp:645-931 | over any run: half_open_count is the number of SYN-RECEIVED blocks, all four limits hold, flows are unique, memory is the sum over buffers, each half-open block has its own live timer |

## Left out

- Memory orders, exceptions, allocation failure and process aborts: steps are sequentially consistent and allocation succeeds. In particular the path at src/tcp/handshake.cpp:765-769, which removes a block already marked established without lowering the half-open count, is not part of this model.
- BufferPool: reading and writing a slot's state and its counters is one step, since only the slot's holder does it; so is dropping the last reference and taking the lock. Reference counts move atomically from any thread; in the source they are plain and confined to one shard.
- The bit packing of the receiver's occupancy bitmap: it is an array of booleans.
- The receiver's ring after a FIN: ring statements are for the phase before the FIN is consumed.
- Send buffers whose retransmit limit is 2^31 or more: 32-bit comparison of ACKs has no meaning there, so the constructor demands less.
- BBR, the hybrid controller, KCC, its Kalman filter and the delivery-rate sampler: AIMD stands for the controller, and a pacing rate is a parameter of OnSent.
- Send.TcpSendBuffer.OnAck: exactness of the SACK counters is an if-and-only-if on where the ACK lands, because the source's counters do drift.
- FqCodel.FqCoDelScheduler.Dequeue: demands a positive quantum. `SettlesIff` says when the rotation reaches a slot that can pay; the whole loop goes on when CoDel takes that slot's last packet, and is proved to end only with a quantum.
- FqCodel.FairShares: per slot and among old-list slots only, since one flow hash can own two slots over time and new flows are credited in place.
- In the scheduler a flow's queue is its sequence of packets; the ring that stores it is proved separately as `FlowRing.FlowQueue`.
- CodelControl: millisecond times are 64-bit in subtraction but `now + delay` is taken not to overflow.
- Reassembly.AddFragment: the two parallel arrays of the source's sort are one array of pairs; null pointers and a failing resize are not modelled.
- ReassemblyTable: a sequence of entries held by value stands for the vector of entry objects.
- Wire.ParseIpv4 in the model reports failure without telling the source's five reasons apart; header fields no later step reads are still extracted.
- Wire.BuildTcpControlPacket: a payload pointer is never null, and a segment is shorter than 2^32 bytes.
- IPv6 routing headers and the stored option lists: only what decides acceptance and the payload range is kept.
- Lanes: positions count without bound; `MaskedSlots` is the 64-bit counterpart. A ring whose allocation failed is not modelled.
- TimerWheel.Wheel.AdvanceTo: callbacks schedule and cancel but do not call AdvanceTo; fewer than 2^64 - 1 timers are pending.
- PassiveOpen: established-state processing, TIME-WAIT eviction, sessions and responses other than SYN-ACK and RST appear only as an outcome chosen by the surroundings.
- Packet I/O, the shard event loop, the runtime, UDP flows, ICMP, path-MTU cache, ISN generation and configuration validation: input/output, orchestration or easy members.
