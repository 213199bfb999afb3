# TX engine transmit path, modelled in Dafny

This project models the transmit path of the TCP offload engine's TX engine
(`src/tx_engine/tx_engine.cpp`). That path is a set of dataflow stages that
run once per clock cycle and talk only through FIFOs:

- **metaLoader** (module `MetaLoader`) turns an event into segment metadata.
  Events are TX, RT, ACK, SYN, SYN-ACK, FIN and RST. For each one it fetches
  the session's receive and transmit state, writes not_ackd/ackd back, arms
  timers and issues a payload read command. Its window and segment
  arithmetic is in `SarArith`.
- **txEngMemAccessBreakdown** (`MemAccess`) cuts a payload read that crosses
  the end of a 64 KiB buffer into two reads. It also tells the packet
  stitcher whether it did.
- **tupleSplitter** (`TupleSplitter`) forwards the connection's four-tuple to
  the TCP builder and its address pair to the IP builder. The tuple comes
  either from the reverse session lookup or from the RST short-cut.
- **ipHeaderConstruction / pseudoHeaderConstruction** (`Headers`) build the
  20-byte IPv4 header and the TCP pseudo-header with the TCP header. A SYN
  also gets the 4-byte MSS option.
- **tx_pseudo_header_pkt_stitcher** (`PktStitcher`) appends the payload to
  the header words. When the payload came back in two reads, it realigns
  the second read behind the first.
- **tx_compute_pseudo_tcp_checksum** (`Checksum`) folds each frame into 32
  one's-complement lanes, then reduces them with an adder tree into the
  TCP checksum.
- **tx_ip_pkt_stitcher** (`IpStitcher`) puts the IP header in front of the
  segment, inserts the checksum and shifts the segment by 20 bytes across
  the 64-byte words.

Each stage has a pure transition function (`Next`, `BreakdownNext`,
`SplitterNext`, `BuildNext` for both header builders, `StitchNext`,
`ChecksumNext`, `IpNext`). It maps the stage's static variables and input
FIFOs to the new statics, the rest of the FIFOs and what was written. For
every stage except the two header builders, a class holds the statics as
fields. Its `Step` method mirrors the C++ branches and is proved to perform
that function. The header builders' statics hold only the metadata and tuple read
in the same cycle they are used (plus a word counter that is never read),
so no state carries from one cycle to the next. They are modelled as pure
functions only. Runs of several cycles are built from the step function, and
the lemmas state what whole events and frames produce.

Stream words are `Word(data, keep, last)`. Byte `i` of `data` is bits
`8i+7..8i` of the hardware word. The packet stitcher works on 8-byte words,
as its constants (keep 0xFF, bit 63) are written. The header builders, the
checksum engine and the IP stitcher work on 64-byte words. Fixed-width
arithmetic is written out: `Wrap16`, `Wrap32`, `Low16`, `bv32` for the
random generator.

`TxTypes` holds the shared types, keepToLen/lenToKeep and byte-order
helpers. `Streams` defines the bytes a word sequence carries and the shape
of a frame.

## Model

| member | source | states |
|---|---|---|
| TxTypes.KeepToLenOfLenToKeep | src/tx_engine/tx_engine.cpp:855-857 | keepToLen gives back n for the mask lenToKeep(n), for every n up to the word width |
| TxTypes.PrefixKeepIsLenToKeep | src/tx_engine/tx_engine.cpp:837-841 | a keep mask made of a run of set flags is exactly lenToKeep of its keepToLen |
| TxTypes.ByteOrderRoundTrip | src/tx_engine/tx_engine.cpp:684-692 | the big- and little-endian byte layouts used for header fields decode back to the 16- and 32-bit values |
| SarArith.AdvertisedWindowReachesReadPointer | src/tx_engine/tx_engine.cpp:219 | the advertised window is the free space less one: recvd + window + 1 is appd modulo 2^16, also across wrap-around |
| SarArith.UsedLengthSpansFlight | src/tx_engine/tx_engine.cpp:230 | the in-flight length, taken from ackd, reaches the low 16 bits of not_ackd |
| SarArith.UsableWindow | src/tx_engine/tx_engine.cpp:231-238 | the usable window never exceeds min_window, and with the in-flight length it fills min_window, or is 0 when the flight already does |
| SarArith.AvailableLengthReachesApp | src/tx_engine/tx_engine.cpp:229 | the unsent length, taken from not_ackd, reaches the application write pointer app modulo 2^16 |
| SarArith.PayloadAddressFields | src/tx_engine/tx_engine.cpp:240-244 | the payload address has 01 in bits 31..30, the session's low 14 bits above bit 16 and the sequence number's low 16 bits below |
| SarArith.PlanTx | src/tx_engine/tx_engine.cpp:246-291 | a TX segment never exceeds the MSS, the usable window or the unsent data. not_ackd advances by its length. A full MSS segment goes out whenever data and window allow. A short segment goes out only with nothing in flight (Nagle). The event repeats only after a full segment. not_ackd is written back exactly when the event ends. The step that ends the event sends min(unsent, usable window) when nothing is in flight, and nothing otherwise. The event repeats exactly when min(unsent, usable window) is at least MSS. A probe is armed exactly when the event ends with data in flight or held back by the window. The event is re-tagged FIN exactly when a FIN is ready and the step leaving the event hands out all buffered data |
| SarArith.AvailableAfterFullSegment | src/tx_engine/tx_engine.cpp:248-251 | after a full segment the unsent length shrinks by exactly MSS |
| SarArith.UsedAfterAdvance | src/tx_engine/tx_engine.cpp:250 | advancing not_ackd by len adds len to the in-flight length while that stays below 2^16 |
| SarArith.IdleMeansNothingInFlight | src/tx_engine/tx_engine.cpp:262-264 | ackd equal to not_ackd means nothing is in flight |
| SarArith.WindowAfterFullSegment | src/tx_engine/tx_engine.cpp:247-251 | when all unsent data fits the window, it still fits after a full segment, and data is then in flight |
| SarArith.TxBurstSendsWholeSegments | src/tx_engine/tx_engine.cpp:246-291 | a TX event whose data fits the window sends all of it when nothing is in flight and it is below one MSS. Otherwise it sends the whole MSS segments and holds back the remainder below one MSS |
| SarArith.RetransmitLengthSpansFlight | src/tx_engine/tx_engine.cpp:318-323 | the retransmit length spans ackd to not_ackd, less the FIN's sequence number once the FIN was sent |
| SarArith.SlowStartThreshold | src/tx_engine/tx_engine.cpp:340-347 | the new slow-start threshold is max(flight / 2, 2 MSS) |
| SarArith.PlanRt | src/tx_engine/tx_engine.cpp:353-374 | an RT segment is min(length, MSS) from ackd. ackd moves on only past a full segment with more to follow. The fourth consecutive full segment returns to the fetch phase. The remainder is followed by the FIN exactly when the FIN was sent |
| SarArith.RetransmitAfterFullSegment | src/tx_engine/tx_engine.cpp:353-356 | after a retransmitted full segment the remaining retransmit length shrinks by MSS |
| SarArith.RtBurstResendsAtMostFourSegments | src/tx_engine/tx_engine.cpp:353-374 | one RT pass resends min(outstanding length, (4 - count) MSS) bytes |
| SarArith.PlanFin | src/tx_engine/tx_engine.cpp:494-519 | a FIN is sent exactly when its sequence number's low 16 bits equal app. A retransmitted FIN reuses not_ackd - 1 and writes nothing back. A first FIN records fin_ready and commits not_ackd + 1 and fin_sent exactly when it is sent |
| SarArith.ScrambleIsInjective | src/tx_engine/tx_engine.cpp:421 | the generator step r*8 xor r never maps two values to one and maps only zero to zero |
| MemAccess.SplitCoversCommand | src/tx_engine/tx_engine.cpp:1105-1124 | the issued reads cover exactly the requested byte offsets, in order, each within the same 64 KiB buffer without wrapping. There are two reads exactly when the request crosses the buffer end |
| MemAccess.BreakTempIsRoomLeft | src/tx_engine/tx_engine.cpp:1110 | the first part's length 65536 - saddr, kept in 16 bits, is the room left in the buffer |
| MemAccess.BreakdownIssuesSplit | src/tx_engine/tx_engine.cpp:1104-1126 | from idle, a request yields its split reads in one or two cycles and a single marker telling whether it was split, then returns to idle |
| MemAccess.FullOutputStalls | src/tx_engine/tx_engine.cpp:1105 | with the output FIFO full nothing is read, written or changed |
| MemAccess.Breakdown.Step | src/tx_engine/tx_engine.cpp:1097-1128 | one cycle updates the statics and FIFOs as BreakdownNext says |
| MemAccess.Breakdown.constructor | src/tx_engine/tx_engine.cpp:1100-1103 | the stage starts idle |
| TupleSplitter.RouteSelects | src/tx_engine/tx_engine.cpp:575-594 | the k-th routed tuple is the next unread tuple of the channel its selector names: lookup for true, short-cut for false |
| TupleSplitter.WaitsForSelectedTuple | src/tx_engine/tx_engine.cpp:582-593 | after a selector, the splitter waits while the selected channel is empty, whatever the other holds |
| TupleSplitter.OnlySelectedChannelIsRead | src/tx_engine/tx_engine.cpp:582-593 | a tuple step never consumes from the channel not selected |
| TupleSplitter.SelectorThenTuple | src/tx_engine/tx_engine.cpp:575-594 | a selector and one tuple take two cycles, emit the tuple to the TCP side and its address pair to the IP side, and wait for the next selector |
| TupleSplitter.SplitterForwardsRoute | src/tx_engine/tx_engine.cpp:563-596 | two cycles per selector forward exactly the routed tuples, in order, and their address pairs, consuming one tuple per selector |
| TupleSplitter.Splitter.Step | src/tx_engine/tx_engine.cpp:563-596 | one cycle updates ts_getMeta/ts_isLookUp and the FIFOs as SplitterNext says |
| TupleSplitter.Splitter.constructor | src/tx_engine/tx_engine.cpp:570-571 | the splitter starts waiting for a selector |
| Headers.IpHeaderLayout | src/tx_engine/tx_engine.cpp:617-639 | the IP header word is one last word with 20 valid bytes. They decode to version 4, IHL 5, total length (length + 40) mod 2^16, TTL 0x40, protocol 6, zero checksum and the pair's addresses |
| Headers.IpBytesDecode | src/tx_engine/tx_engine.cpp:620-634 | the 20 header bytes decode to those fields |
| Headers.PseudoHeaderLayout | src/tx_engine/tx_engine.cpp:668-728 | the pseudo-header word is one last word with 32 valid bytes, or 40 for a SYN. They decode to the addresses, protocol 6, TCP length (length + 20), ports, seq/ack numbers, data offset 5 or 6, the flags, the window and zero checksum and urgent pointer |
| Headers.PseudoBytesDecode | src/tx_engine/tx_engine.cpp:671-713 | the pseudo-header and TCP header bytes decode to the metadata and tuple they were built from |
| Headers.PseudoFields | src/tx_engine/tx_engine.cpp:674-681 | bytes 0..11 hold source and destination address, zero, protocol 6 and the big-endian TCP length |
| Headers.TcpFieldsOf | src/tx_engine/tx_engine.cpp:680-713 | the TCP header holds the ports, big-endian seq and ack numbers, data offset, flags, big-endian window and zero checksum/urgent pointer |
| Headers.FlagByteEncodesFlags | src/tx_engine/tx_engine.cpp:705-711 | FIN, SYN, RST and ACK sit in bits 0, 1, 2 and 4 of the flag byte, each if and only if set, and PSH is clear |
| Headers.SynCarriesMssOption | src/tx_engine/tx_engine.cpp:715-720 | a SYN carries the option kind 2, length 4, MSS 1460 and four zero bytes |
| Headers.IpLengthCoversTcpLength | src/tx_engine/tx_engine.cpp:620 | the IP total length is the TCP length plus the 20-byte IP header |
| Headers.BuildRunPairsInOrder | src/tx_engine/tx_engine.cpp:617-619 | n cycles of a header builder emit one header per metadata/tuple pair, in FIFO order, and consume exactly n of each |
| MetaLoader.Requests | src/tx_engine/tx_engine.cpp:99-136 | a fetched event requests at most its own session's rxSar and txSar entries, and never rxSar without txSar |
| MetaLoader.EveryStepPairsMetadata | src/tx_engine/tx_engine.cpp:142-551 | every step writes at most one segment. Its IP length is the segment length. It is routed either through the lookup, with a request, or through the short-cut, with its tuple. A payload read goes with a non-empty segment of the same length |
| MetaLoader.DataSendPairs | src/tx_engine/tx_engine.cpp:293-304 | a TX step's outputs are paired as above |
| MetaLoader.RetransmitPairs | src/tx_engine/tx_engine.cpp:377-388 | an RT step's outputs are paired as above |
| MetaLoader.AckPairs | src/tx_engine/tx_engine.cpp:392-412 | an ACK step's outputs are paired as above |
| MetaLoader.SynPairs | src/tx_engine/tx_engine.cpp:413-442 | a SYN step's outputs are paired as above |
| MetaLoader.SynAckPairs | src/tx_engine/tx_engine.cpp:443-475 | a SYN-ACK step's outputs are paired as above |
| MetaLoader.FinPairs | src/tx_engine/tx_engine.cpp:476-523 | a FIN step's outputs are paired as above |
| MetaLoader.ResetPairs | src/tx_engine/tx_engine.cpp:524-549 | an RST step's outputs are paired as above |
| MetaLoader.StepConsumesAtMostOne | src/tx_engine/tx_engine.cpp:96-97 | a step consumes at most one entry of each input FIFO |
| MetaLoader.FetchRequestsWhatProcessReads | src/tx_engine/tx_engine.cpp:99-136 | the process phase consumes exactly the table replies the fetch phase requested, and consumes them once they are queued |
| MetaLoader.StatelessResetUsesNoTable | src/tx_engine/tx_engine.cpp:524-533 | an RST without a session requests nothing and sends seq 0, the event's ack number, RST+ACK, through the short-cut |
| MetaLoader.StatefulResetUsesNotAckd | src/tx_engine/tx_engine.cpp:534-548 | an RST with a session sends not_ackd and the event's ack number through the lookup, with no payload |
| MetaLoader.FirstSynUsesGenerator | src/tx_engine/tx_engine.cpp:413-473 | a first SYN or SYN-ACK is numbered by the generator, records the number after it, and advances the generator by its scrambling step |
| MetaLoader.SynUsesGenerator | src/tx_engine/tx_engine.cpp:418-423 | the same for SYN |
| MetaLoader.SynAckUsesGenerator | src/tx_engine/tx_engine.cpp:458-463 | the same for SYN-ACK |
| MetaLoader.SynStepShape | src/tx_engine/tx_engine.cpp:425-440 | every SYN, first or retried, is one segment through the lookup of length 4 (the MSS option), window 0xFFFF, SYN set, ACK, RST and FIN clear, acknowledgment 0, with the SYN retransmit timer, and returns to the fetch phase |
| MetaLoader.SynAckStepShape | src/tx_engine/tx_engine.cpp:449-473 | every SYN-ACK, first or retried, is one segment through the lookup of length 4, window 0xFFFF, SYN and ACK set, RST and FIN clear, acknowledging recvd, with the SYN-ACK retransmit timer, and returns to the fetch phase |
| MetaLoader.SynRetryUsesAckd | src/tx_engine/tx_engine.cpp:415-418 | a retried SYN reads the transmit table and is numbered from its ackd. It writes nothing back and leaves the generator unchanged |
| MetaLoader.SynAckRetryUsesAckd | src/tx_engine/tx_engine.cpp:456-458 | a retried SYN-ACK is numbered from ackd. It writes nothing back and leaves the generator unchanged |
| MetaLoader.AckStepSends | src/tx_engine/tx_engine.cpp:392-412 | once both replies are queued, an ACK event sends one segment numbered from not_ackd, acknowledging recvd, with the advertised window, length 0 and only ACK set. It issues no read, write-back or timer and returns to the fetch phase. Until then it waits unchanged |
| MetaLoader.FinStepSends | src/tx_engine/tx_engine.cpp:476-523 | a FIN step sends a segment exactly when PlanFin says: FIN and ACK set, SYN and RST clear, length 0, numbered as PlanFin says, acknowledging recvd. Its table write is PlanFin's write-back whether or not the FIN goes out, and it returns to the fetch phase |
| MetaLoader.RetransmitStepSends | src/tx_engine/tx_engine.cpp:316-388 | an RT step sends a segment exactly when min(retransmit length, MSS) is not zero: numbered from ackd, acknowledging recvd, with the advertised window and only ACK set, read from ackd's slot, with the retransmit timer re-armed |
| MetaLoader.RetransmitThresholdOnFirstPass | src/tx_engine/tx_engine.cpp:339-348 | an RT step writes the slow-start threshold max(flight / 2, 2 MSS) exactly on the first step of a first retransmission (rt_count 1, table freshly read). No other RT step writes to the table |
| MetaLoader.DataSendStepIsPlanned | src/tx_engine/tx_engine.cpp:210-307 | a TX step's segment respects the MSS, the usable window and the unsent data. It starts at not_ackd and acknowledges recvd. It is read from not_ackd's slot. not_ackd advances by its length |
| MetaLoader.DataSendOneStep | src/tx_engine/tx_engine.cpp:246-305 | a TX step keeps the tables loaded, moves to the phase and event kind the plan says, and advances not_ackd |
| MetaLoader.DataSendRepeat | src/tx_engine/tx_engine.cpp:248-251 | after a full segment the event has one step fewer to run and MSS fewer bytes to send |
| MetaLoader.DataSendRepeatAdvances | src/tx_engine/tx_engine.cpp:250 | where not_ackd ends up after the whole burst is unchanged by sending one full segment first |
| MetaLoader.DataSendBurst | src/tx_engine/tx_engine.cpp:210-307 | a TX event run to its end announces exactly the burst's bytes and advances not_ackd by them modulo 2^32. It then leaves the process phase or hands over to a FIN |
| MetaLoader.DataSendBurstHandsOverToFin | src/tx_engine/tx_engine.cpp:246-291 | a TX event run to its end hands over to a FIN exactly when a FIN is ready and the burst hands out every buffered byte. Otherwise it ends as a TX event in the fetch phase |
| MetaLoader.RetransmitOneStep | src/tx_engine/tx_engine.cpp:309-391 | an RT step moves ackd, the segment count, the phase and event kind as the plan says |
| MetaLoader.RetransmitBurst | src/tx_engine/tx_engine.cpp:353-374 | an RT event run to its end resends exactly the RT burst's bytes and leaves the process phase or hands over to a FIN |
| MetaLoader.Loader.constructor | src/tx_engine/tx_engine.cpp:79-85 | the dispatcher starts in the fetch phase with the generator at 0x562301af |
| MetaLoader.Loader.Step | src/tx_engine/tx_engine.cpp:93-552 | one cycle updates the statics and FIFOs as Next says |
| MetaLoader.Loader.FetchEvent | src/tx_engine/tx_engine.cpp:94-141 | the fetch branch performs FetchNext |
| MetaLoader.Loader.LoadSar | src/tx_engine/tx_engine.cpp:211-215 | the tables are read unless already loaded, and nothing else changes |
| MetaLoader.Loader.SendData | src/tx_engine/tx_engine.cpp:210-307 | the TX branch performs DataSendNext |
| MetaLoader.Loader.Retransmit | src/tx_engine/tx_engine.cpp:309-391 | the RT branch performs RetransmitNext: its segment, read and timer are stated by RetransmitStepSends, its threshold write by RetransmitThresholdOnFirstPass, its pointer moves by RetransmitOneStep |
| MetaLoader.Loader.SendAck | src/tx_engine/tx_engine.cpp:392-412 | the ACK branch performs AckNext, whose segment is stated by AckStepSends |
| MetaLoader.Loader.SendSyn | src/tx_engine/tx_engine.cpp:413-442 | the SYN branch performs SynNext: its shape is stated by SynStepShape, a first SYN's numbering by SynUsesGenerator, a retry's by SynRetryUsesAckd |
| MetaLoader.Loader.SendSynAck | src/tx_engine/tx_engine.cpp:443-475 | the SYN-ACK branch performs SynAckNext: its shape is stated by SynAckStepShape, a first SYN-ACK's numbering by SynAckUsesGenerator, a retry's by SynAckRetryUsesAckd |
| MetaLoader.Loader.SendFin | src/tx_engine/tx_engine.cpp:476-523 | the FIN branch performs FinNext, whose segment and write-back are stated by FinStepSends and PlanFin |
| MetaLoader.Loader.SendReset | src/tx_engine/tx_engine.cpp:524-549 | the RST branch performs ResetNext |
| PktStitcher.HeaderThenPayload | src/tx_engine/tx_engine.cpp:762-792 | four header words without the end flag are forwarded unchanged. Without SYN the stage then moves to the payload |
| PktStitcher.LastHeaderWordEndsSegment | src/tx_engine/tx_engine.cpp:786-790 | a header word marked last is forwarded and sends the stage back to reading headers |
| PktStitcher.OptionWordWithoutLastStalls | src/tx_engine/tx_engine.cpp:793-805 | after an option word without the end flag the stage enters state 7, which this build has no case for, and stays there |
| PktStitcher.MarkerThenRelay | src/tx_engine/tx_engine.cpp:823-827 | the first payload cycle of a segment reads the breakdown marker once |
| PktStitcher.RelayWord | src/tx_engine/tx_engine.cpp:828-848 | a payload word without the end flag is forwarded unchanged |
| PktStitcher.RelayLastWord | src/tx_engine/tx_engine.cpp:831-835 | the last word of an unsplit read is forwarded and ends the segment |
| PktStitcher.RelayFullFirstPart | src/tx_engine/tx_engine.cpp:836-845 | a full last word of a split read's first part is forwarded with its end flag cleared |
| PktStitcher.HoldPartialFirstPart | src/tx_engine/tx_engine.cpp:836-843 | a partial last word of the first part is held, and its valid bytes become the pending bytes |
| PktStitcher.SpliceFullWord | src/tx_engine/tx_engine.cpp:850-884 | a full second-part word is emitted as the pending bytes then its head, and its tail becomes the new pending bytes |
| PktStitcher.SpliceFits | src/tx_engine/tx_engine.cpp:856-860 | a second-part word that fits behind the pending bytes ends the segment with the pending bytes then its own |
| PktStitcher.SpliceOverflows | src/tx_engine/tx_engine.cpp:862-866 | a last second-part word that does not fit emits a full word and leaves its tail to flush |
| PktStitcher.FlushRest | src/tx_engine/tx_engine.cpp:887-896 | the flush writes the held word's remaining valid bytes as the final word, possibly empty |
| PktStitcher.RelayFullWords | src/tx_engine/tx_engine.cpp:847-848 | k words without the end flag are relayed unchanged |
| PktStitcher.RelayFrame | src/tx_engine/tx_engine.cpp:822-849 | an unsplit frame is relayed unchanged and ends the segment |
| PktStitcher.SpliceLastFits | src/tx_engine/tx_engine.cpp:856-860 | as SpliceFits, as a one-cycle run producing a packed frame |
| PktStitcher.SpliceLastOverflows | src/tx_engine/tx_engine.cpp:862-896 | an overflowing last word and its flush carry the pending bytes then the word's |
| PktStitcher.SpliceLastWord | src/tx_engine/tx_engine.cpp:850-896 | the final second-part word, fitting or overflowing, yields the pending bytes then its own, as a packed frame |
| PktStitcher.SpliceFrame | src/tx_engine/tx_engine.cpp:850-896 | splicing a whole second read yields the pending bytes then the read's bytes, contiguously, as one packed frame, and returns to reading headers |
| PktStitcher.FinishUnsplit | src/tx_engine/tx_engine.cpp:831-835 | an unsplit read's last word ends the segment with its bytes |
| PktStitcher.FinishAfterFullWord | src/tx_engine/tx_engine.cpp:836-848 | with a split and a full last first-part word, the second read follows it unchanged |
| PktStitcher.FinishBySplice | src/tx_engine/tx_engine.cpp:836-896 | with a split and a partial last first-part word, the second read is realigned right behind its valid bytes |
| PktStitcher.FinishFirstRead | src/tx_engine/tx_engine.cpp:829-896 | whichever case applies, the output carries the first part's last bytes then the second read's bytes |
| PktStitcher.PayloadAfterMarker | src/tx_engine/tx_engine.cpp:822-896 | a segment's payload, in one read or two, comes out as one packed frame carrying the first read's bytes then the second's |
| PktStitcher.PayloadIsContiguous | src/tx_engine/tx_engine.cpp:822-896 | from the first payload cycle, the same holds and exactly one breakdown marker is consumed |
| PktStitcher.Stitcher.constructor | src/tx_engine/tx_engine.cpp:751-756 | the stitcher starts reading headers with no word held |
| PktStitcher.Stitcher.Step | src/tx_engine/tx_engine.cpp:760-910 | one cycle updates the statics and FIFOs as StitchNext says |
| PktStitcher.Stitcher.ReadHeaderWord | src/tx_engine/tx_engine.cpp:762-792 | state 0 performs HeaderNext |
| PktStitcher.Stitcher.ReadOptionWord | src/tx_engine/tx_engine.cpp:793-805 | state 1 performs OptionNext |
| PktStitcher.Stitcher.RelayPayloadWord | src/tx_engine/tx_engine.cpp:822-849 | state 2 performs RelayNext |
| PktStitcher.Stitcher.SpliceWord | src/tx_engine/tx_engine.cpp:850-886 | states 3 and 4 perform SpliceNext |
| PktStitcher.Stitcher.FlushWord | src/tx_engine/tx_engine.cpp:887-897 | state 5 performs FlushNext |
| Checksum.OnesAddRep | src/tx_engine/tx_engine.cpp:953-959 | the lane adder's end-around carry keeps the sum congruent to the plain sum modulo 0xFFFF, and zero only for zero |
| Checksum.OnesSumRep | src/tx_engine/tx_engine.cpp:947-962 | a one's-complement sum represents the plain sum of its words |
| Checksum.FoldCarryRep | src/tx_engine/tx_engine.cpp:995-1001 | folding bits 20..16 of the tree sum back into 16 bits, with the extra end-around carry, keeps it congruent modulo 0xFFFF |
| Checksum.ChecksumCompletesToOnes | src/tx_engine/tx_engine.cpp:998-1001 | the complemented checksum added to the data's 16-bit words gives all ones, as the receiver's check in RFC 1071 expects |
| Checksum.ReadKeepsRep | src/tx_engine/tx_engine.cpp:947-962 | adding a word to the 32 lanes keeps each lane representing its column's total |
| Checksum.TotalsSum | src/tx_engine/tx_engine.cpp:950-951 | the lanes' column totals add up to the sum of the frame's big-endian 16-bit words |
| Checksum.SumRep | src/tx_engine/tx_engine.cpp:972-993 | the adder tree's plain total of the lanes represents the total of all column totals |
| Checksum.PairSums | src/tx_engine/tx_engine.cpp:980-989 | one adder-tree level halves the count and keeps the total |
| Checksum.ReadFrame | src/tx_engine/tx_engine.cpp:944-966 | reading a frame's words, up to the one marked last, adds each word into the lanes and then enters the reduce phase |
| Checksum.ReduceIsChecksum | src/tx_engine/tx_engine.cpp:969-1001 | reducing lanes that represent a frame yields the RFC 1071 checksum of the frame's data |
| Checksum.FrameChecksum | src/tx_engine/tx_engine.cpp:919-1009 | a frame takes one cycle per word plus one, writes exactly the RFC 1071 checksum of its 64-byte words and leaves the lanes cleared |
| Checksum.PaddedFrameChecksum | src/tx_engine/tx_engine.cpp:944-1005 | when the bytes past the last word's keep are zero, the checksum is that of the frame's valid bytes |
| Checksum.ZeroPaddingKeepsChecksum | src/tx_engine/tx_engine.cpp:947-962 | zero bytes after the data do not change its checksum |
| Checksum.WaitsForData | src/tx_engine/tx_engine.cpp:944 | with no word queued and no frame finished the stage waits unchanged |
| Checksum.ChecksumEngine.constructor | src/tx_engine/tx_engine.cpp:927-929 | the engine starts with 32 zero lanes, not reducing |
| Checksum.ChecksumEngine.Step | src/tx_engine/tx_engine.cpp:944-1007 | one cycle updates word_sum and compute_checksum and the FIFOs as ChecksumNext says |
| Checksum.ChecksumEngine.AddWord | src/tx_engine/tx_engine.cpp:947-962 | the loop adds each big-endian 16-bit column into its lane with the one's-complement adder |
| Checksum.ChecksumEngine.ReduceAndClear | src/tx_engine/tx_engine.cpp:972-1001 | the adder tree, fold and complement compute Reduce of the lanes, and the lanes are cleared |
| IpStitcher.JoinedFull | src/tx_engine/tx_engine.cpp:1051-1054 | 20 carried bytes followed by a word with at least 44 valid bytes make a full word |
| IpStitcher.JoinedShort | src/tx_engine/tx_engine.cpp:1051-1055 | followed by a word with at most 44 valid bytes, the word carries the 20 bytes then those |
| IpStitcher.ExtraValid | src/tx_engine/tx_engine.cpp:1042-1047 | corrected build: the extra word carries the last payload word's bytes beyond the 44 already sent |
| IpStitcher.FirstWordValid | src/tx_engine/tx_engine.cpp:1068-1085 | corrected build: the first word carries the 20 IP header bytes, then the segment's first bytes with the checksum big-endian at segment offset 16 |
| IpStitcher.CarryLastFits | src/tx_engine/tx_engine.cpp:1049-1058 | corrected build: a last payload word with at most 44 valid bytes takes one cycle: one packed word with the previous word's bytes 44..63 then its own, consuming just that word and returning to idle |
| IpStitcher.CarryLastOverflows | src/tx_engine/tx_engine.cpp:1042-1058 | corrected build: a last payload word with more than 44 valid bytes takes two cycles, a full word and an extra word marked last, which together carry the previous word's bytes 44..63 then its own, and return to idle |
| IpStitcher.CarryLastWord | src/tx_engine/tx_engine.cpp:1049-1066 | corrected build: the segment's last word, whether or not it overflows into an extra word, yields the carried 20 bytes then its own, and ends the segment |
| IpStitcher.CarryFrame | src/tx_engine/tx_engine.cpp:1042-1066 | corrected build: the rest of a segment comes out as the carried bytes then the segment's bytes, as one packed frame, in one cycle per word plus one for an overflow |
| IpStitcher.SegmentOneWordFits | src/tx_engine/tx_engine.cpp:1068-1085 | corrected build: a one-word segment that fits goes out in one last word |
| IpStitcher.SegmentOneWordOverflows | src/tx_engine/tx_engine.cpp:1042-1085 | corrected build: a one-word segment with more than 44 bytes goes out in two words |
| IpStitcher.SegmentFirstOfMany | src/tx_engine/tx_engine.cpp:1042-1093 | corrected build: a longer segment goes out as its first word then the carried frame |
| IpStitcher.SegmentFromIdle | src/tx_engine/tx_engine.cpp:1023-1095 | corrected build: a segment comes out as one packed frame of the IP header's 20 bytes then the segment's bytes, with the checksum inserted big-endian at offset 16. It consumes one header, one checksum and exactly the segment's words, and returns to idle |
| IpStitcher.IpNext | src/tx_engine/tx_engine.cpp:1042-1093 | for the build as written and the corrected one: at most one word per cycle, and a cycle that writes nothing changes nothing. The extra word is always written, marked last, and reads nothing. Any other word consumes exactly one segment word, which becomes prevWord, and is marked last exactly when that word ends the segment without an extra word. After the first word, a word's leading 20 bytes are those carried from prevWord: its first 20 bytes as written, bytes 44..63 corrected |
| IpStitcher.IdleWaitsForAllThree | src/tx_engine/tx_engine.cpp:1068 | an idle stitcher waits until header, payload and checksum are all queued |
| IpStitcher.AsWrittenCarryLosesBytes | src/tx_engine/tx_engine.cpp:1049-1054 | as written, the carried part repeats the previous word's first 20 bytes, and its keep comes from data bits, which can clear every flag. The corrected build carries bytes 44..63 |
| IpStitcher.AsWrittenChecksumClearsBit | src/tx_engine/tx_engine.cpp:1076 | as written, the 17-bit insert also clears bit 0 of the byte after the checksum. The corrected build leaves it |
| IpStitcher.IpPacketStitcher.constructor | src/tx_engine/tx_engine.cpp:1031-1040 | the stitcher starts idle |
| IpStitcher.IpPacketStitcher.Step | src/tx_engine/tx_engine.cpp:1042-1093 | one cycle updates writing_payload, writing_extra and prevWord and the FIFOs as IpNext, corrected build, says |

## Left out

- The TCP_NODELAY build (DDR bypass FIFO, TX without Nagle, stitcher states 6 and 7) is not modelled. The model follows the build with TCP_NODELAY off.
- txDataBroadcast and the top-level `tx_engine` dataflow wiring are not modelled. Each stage is modelled on its own FIFOs. The IP stitcher's payload is whatever the broadcast hands it. In the source that is the stitched stream, which starts with the 12-byte pseudo-header. So offset 16 of that stream, where the checksum is inserted, is the TCP header's offset 4. The composition of the stages is not modelled, so this is left as an observation.
- FIFO capacity is not modelled. A `full()` test is a boolean input (`outFull`). Writes never block. Reads that the C++ guards with `empty()` wait on an empty input.
- IpStitcher.IpNext: the writing_payload branch reads the payload without an `empty()` test. It is modelled as a blocking read that waits on an empty FIFO.
- Checksum.FrameChecksum: the engine sums all 64 bytes of every word, whatever its keep. FrameChecksum states the checksum of all those bytes. PaddedFrameChecksum states the checksum of the valid bytes only when the padding is zero.
- PktStitcher.HeaderThenPayload: as written, pseudoHeaderConstruction emits its header as one word marked last. State 0 then returns to state 0 after every header and never reaches the payload states. The payload lemmas therefore start from the payload states.
- tx_engine.hpp is not part of this model. Field widths are read from use: 32-bit sequence numbers and generator, 16-bit lengths, windows and app pointers. MSS is taken as 1460, the value the SYN option carries. The RST event's `hasSessionID`/`getAckNumb` are event fields. The six-argument metadata constructor leaves window and length at 0.
- PktStitcher: the stitcher is modelled on 8-byte words, the width its constants (keep 0xFF, bit 63, a 4-bit shift counter) are written for, while the same `axiWord` type is 64 bytes wide in the IP stitcher and the checksum engine. At 64 bytes the code would behave differently: the `keep != 0xFF` test would hold for every full 64-byte word, so every split read would be realigned, and `shiftBuffer` could not hold shifts up to 64. PayloadIsContiguous, SpliceFrame and the other payload lemmas therefore state the 8-byte behaviour only. The model does not capture the stitcher at 64 bytes.
- Timing (II=1 pipelining, HLS pragmas) and the debug counters (`txPktCounter`) are not modelled.

## Findings

| source | as written | input that shows it | evidently intended | confidence | as-written member | corrected member |
|---|---|---|---|---|---|---|
| src/tx_engine/tx_engine.cpp:1043-1044, 1051-1052 | the carried 20 bytes are `prevWord.data(159,0)`, the previous word's first 20 bytes, which were already sent. Their keep is `prevWord.data(19,0)`, data bits used as keep flags | a segment of two or more full words: its second output word starts with the first word's bytes 0..19 again, already sent, and the first word's bytes 44..63 are never sent. Its keep flags for those 20 bytes are data bits, so with byte 0 even the first is clear | carry bytes 44..63, `prevWord.data(511,352)`, with `prevWord.keep(63,44)` | not executed | IpStitcher.AsWrittenCarryLosesBytes | IpStitcher.SegmentFromIdle |
| src/tx_engine/tx_engine.cpp:1076 | the 16-bit checksum is written into the 17-bit range 304..288 | a segment whose byte 18 (first byte of the TCP urgent pointer when the segment starts at the TCP header) is odd: that bit is cleared | write the 16 bits 303..288 only | not executed | IpStitcher.AsWrittenChecksumClearsBit | IpStitcher.SegmentFromIdle |
