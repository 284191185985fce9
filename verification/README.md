# Verified model of the relay's media plane

The relay takes one WHIP publisher per stream and fans its media out to WHEP subscribers. This project
models the part of it that renumbers, reports on, caches and repairs RTP, as Dafny 4.11 modules, and
proves what that code promises over all inputs and all runs.

`dafny verify dfyconfig.toml` checks everything. Bytes are integers from 0 to 255, wire numbers are
integers with their wrap-around written out, and times are integer microseconds from a clock that does
not go back.

Main results:

- **Feedback is faithful.** A transport-wide feedback packet parses back to exactly the reported range;
  every reported arrival is within half a tick of the true one, with no drift however long the range
  (`FeedbackGenerator.Generator.Preview`, `FeedbackPacket.RoundTrip`), and it is the first arrival of that number
  (`FeedbackGenerator.FirstArrivalCounts`). The sender's lookup is exact up
  to a limit that is stated as an equivalence (`SendHistory.FindExactIff`).
- **Output streams are continuous** as far as packets can be built. Over every run of configuration,
  source changes, forwarding and retransmission the numbers handed out to an output stream are consecutive
  (`RewriterRuns.NumbersFromStart`). The numbers that come out of the rewriter are consecutive if and only if
  nothing fails in between, up to whole turns of 2^16 (`EmittedNumbers.OutputContinuousIff`), which a configuration
  can rule out (`EmittedNumbers.OutputFromStart`), with transport-wide numbers too while only forwarded packets are
  sent again (`ResentNumbers.ResentFromStart`), as the sending side does (`WhepSender.Sender.OutputHasNoGap`). A
  packet that comes out and then cannot be protected or sent still leaves a gap for the receiver. Within one source
  the timeline is shifted by a constant (`RewriterRuns.TimelineWithinSource`),
  and a new source starts newer than the high-water mark of what was sent, whatever was cleared or configured in
  between (`RewriterTimeline.LaterSourceStartsNewer`).
- **Rewriting preserves packets.** A forwarded packet reads back with the source's content and the
  subscriber's header (`RewriterInvariant.ForwardedReadsBack`); RTX encapsulation is reversible byte for
  byte, under the payload type that repairs the packet's codec (`RewriterRuns.RetransmissionRestores`).
- **Router and transports agree** on who waits for a keyframe of which source, in every reachable state
  (`KeyframeCoordination.ReachableAgree`), and whoever is not served waits, with the publisher asked
  (`KeyframeEffects.RtpSentServes`, `KeyframeEffects.FeedbackServes`, `KeyframeEffects.RetryAsks`).
- **A requested packet comes back.** The retransmission cache is exactly the longest run of latest writes
  within its limits (`RetransmissionCache.Cache.LookupForRetransmission`). An answered NACK restores the packet that
  was forwarded under that number, and it goes out on every hit while the mapping of its output stays
  (`WhepSender.Sender.AnswerNack`); all NACKs of one RTCP packet are answered as if each were the only one
  (`NackRequests.Gather`, `WhepSender.Sender.AnswerNacks`).
- **Receive statistics** report exact fractions and losses that telescope; **RTCP and STUN** readers undo
  the writers.

Layout:

| files | part of the relay |
|---|---|
| `Wire.dfy` | network-order integers, unwrapping, byte patches |
| `StatusChunks.dfy`, `FeedbackPacket.dfy`, `FeedbackGenerator.dfy`, `SendHistory.dfy` | transport-wide congestion feedback |
| `SequenceCache.dfy`, `HeaderExtensions.dfy`, `RtpPacket.dfy`, `RewriterMedia.dfy`, `ExtensionRewriting.dfy`, `RewrittenPacket.dfy`, `RtxEncapsulation.dfy`, `RtpRewriter.dfy`, `RewriterInvariant.dfy`, `RewriterRuns.dfy`, `RewriterTimeline.dfy`, `EmittedNumbers.dfy`, `NumberingGaps.dfy`, `TransportNumbers.dfy`, `ResentNumbers.dfy`, `WhepRewriter.dfy` | WHEP RTP rewriter |
| `NackRequests.dfy`, `WhepSender.dfy` | answering NACKs; rewriter, send history and cache as the sending side of a session |
| `FanoutRouter.dfy`, `KeyframeCoordination.dfy`, `KeyframeEffects.dfy`, `MediaPlane.dfy` | fan-out router and keyframe coordination |
| `RetransmissionCache.dfy`, `ReceiveStatistics.dfy`, `UdpPortAllocator.dfy` | cache, statistics, ports |
| `RtcpReader.dfy`, `RtcpBuilder.dfy`, `RtcpCompound.dfy`, `RtcpAggregation.dfy` | RTCP |
| `Stun.dfy`, `StunResponse.dfy` | STUN |

State that the relay updates in place is a class whose methods are proved equal to a step function;
the lemmas over runs are about those step functions.

Where the code and a first expectation differ, the code is followed:

- A packet that arrives behind the feedback window pulls the window back, so consecutive reports can
  overlap (`FeedbackGenerator.LateArrivalIsReportedTwice`); `FeedbackGenerator.OverlapIff` says exactly when,
  for any two consecutive reports of any run, and without late arrivals they never do.
- A number handed out for a packet that then cannot be built is not handed out again, so the output has a
  gap there (`NumberingGaps.ForwardingGap`, `NumberingGaps.RetransmissionGap`).
- The translation cache can forget the latest binding when an equal, older one leaves the queue
  (`SequenceCache.ForgetsTheLatest`); it never returns a stale one. In the rewriter that happens exactly when the
  output numbers between the two run through a multiple of 2^16 (`RewriterInvariant.OriginalCachedIff`), which takes
  at least 61440 packets of the source that failed to build; a run with that many reaches it
  (`RewriterMedia.WrapReached`).
- The 32-bit wrap counter of the receive statistics overflows after 2^16 wraps
  (`ReceiveStatistics.WrapCountOverflows`); `ReceiveStatistics.ExtendedGrowsByStep` holds exactly until then.

## Model

| member | source | states |
|---|---|---|
| `StatusChunks.FirstChunkRoundTrip` | rtp/rtcp_transport_feedback.cpp:104-168 | The first chunk the encoder chooses (run length, one-bit or two-bit vector), decoded with the number of symbols still missing, gives back exactly the symbols it was made from. |
| `StatusChunks.ChunkCountBound` | rtp/rtcp_transport_feedback.cpp:104-168 | A symbol list never needs more chunks than symbols, so packet sizes stay in their 16-bit length field. |
| `StatusChunks.EncodeStatusChunks` | rtp/rtcp_transport_feedback.cpp:104-168 | The encoding loop returns exactly the chunk list that the round trip is about. |
| `FeedbackPacket.EncodedSize` | rtp/rtcp_transport_feedback.cpp:170-249 | The predicted packet size is the length of the packet that is written. |
| `FeedbackPacket.EncodedPacketSize` | rtp/rtcp_transport_feedback.cpp:170-181 | The predicting loop computes that size from the delta sizes alone. |
| `FeedbackPacket.EncodePacket` | rtp/rtcp_transport_feedback.cpp:183-249 | Filling the array in place yields the packet for the entries: header, chunks, deltas and a padding count in the last byte. |
| `FeedbackPacket.ChunksRoundTrip` | rtp/rtcp_transport_feedback.cpp:776-830 | Reading chunks one after the other recovers all status sizes, whatever formats the encoder mixed. |
| `FeedbackPacket.DeltasRoundTrip` | rtp/rtcp_transport_feedback.cpp:832-866 | Reading deltas after the chunks recovers each status with its number, received flag and signed delta. |
| `FeedbackPacket.HeaderRoundTrip` | rtp/rtcp_transport_feedback.cpp:204-212 | Every header field, 24-bit reference time included, is read back. |
| `FeedbackPacket.EncodedLayout` | rtp/rtcp_transport_feedback.cpp:183-249 | Chunks, deltas and padding lie exactly where the parser looks for them. |
| `FeedbackPacket.RoundTrip` | rtp/rtcp_transport_feedback.cpp:183-249 | Every written packet of at most 8192 statuses parses back field for field and status for status. |
| `FeedbackPacket.ParseFeedback` | rtp/rtcp_transport_feedback.cpp:728-867 | The parsing loops compute the specified result, error for error. |
| `FeedbackPacket.FrameIff` | rtp/rtcp_transport_feedback.cpp:728-760 | A feedback frame is accepted exactly when it has whole words, version 2, format 15 of type 205, the declared size, and padding that counts itself and leaves the header. |
| `FeedbackPacket.ParsedIff` | rtp/rtcp_transport_feedback.cpp:728-867 | The parser accepts exactly a frame with complete chunks for at most 8192 statuses, complete deltas behind them and at most three zero bytes left, and reads each status with its number and delta where it lies. |
| `FeedbackGenerator.FloorReferenceTime` | rtp/rtcp_transport_feedback.cpp:84-92 | The reference time is the last multiple of 64 ms not after the arrival, for negative times too. |
| `FeedbackGenerator.RoundDeltaTicks` | rtp/rtcp_transport_feedback.cpp:94-102 | The delta is the nearest tick: off by at most half a tick, and 0 to 256 within one reference unit. |
| `FeedbackGenerator.ObservedKeepsInv` | rtp/rtcp_transport_feedback.cpp:339-385 | Observing any number keeps the invariant: arrivals at most newest, window start at most newest plus one, both optionals set together. |
| `FeedbackGenerator.EvictedKeepsInv` | rtp/rtcp_transport_feedback.cpp:297-337 | Eviction by age and count keeps the invariant and never moves the window back. |
| `FeedbackGenerator.RetainedIff` | rtp/rtcp_transport_feedback.cpp:297-337 | An arrival is kept exactly while it is young enough and fewer than the limit of young ones have higher numbers. |
| `FeedbackGenerator.ObservedTimes` | rtp/rtcp_transport_feedback.cpp:339-385 | After an observation a new number has the time of now and every other number left has the time it had; the newest number, the media SSRC and the feedback count are what they should be. |
| `FeedbackGenerator.FirstArrivalCounts` | rtp/rtcp_transport_feedback.cpp:339-385 | Over every run from an empty generator the time stored for a number is that of the first observation that landed on it since it was last absent: no duplicate replaces it. |
| `FeedbackGenerator.InvOverRuns` | rtp/rtcp_transport_feedback.cpp:256-562 | The invariant holds after every run of observe, expire, preview-then-commit and reset. |
| `FeedbackGenerator.WindowAdvances` | rtp/rtcp_transport_feedback.cpp:507-521 | A committed report moves the window to just after its end; no in-order step moves it back. |
| `FeedbackGenerator.CommittedIff` | rtp/rtcp_transport_feedback.cpp:507-521 | A commit moves the window exactly when it is for the window as it stands under the current count; any other changes nothing. |
| `FeedbackGenerator.CountFollowsReports` | rtp/rtcp_transport_feedback.cpp:507-521 | Reports carry consecutive feedback counts modulo 256. |
| `FeedbackGenerator.ReportsDoNotOverlap` | rtp/rtcp_transport_feedback.cpp:387-521 | Along every run without late arrivals the reported ranges are ordered and disjoint. |
| `FeedbackGenerator.BackToBackReports` | rtp/rtcp_transport_feedback.cpp:507-521 | Two reports with nothing between them cover adjacent ranges. |
| `FeedbackGenerator.PendingNeverUnderflows` | rtp/rtcp_transport_feedback.cpp:530-544 | The pending count is the plain difference of newest and window start plus one, which never goes below zero. |
| `FeedbackGenerator.LateArrivalReopensWindow` | rtp/rtcp_transport_feedback.cpp:363-366 | A packet behind the window pulls the window back to itself: the next report starts there. |
| `FeedbackGenerator.LateArrivalIsReportedTwice` | rtp/rtcp_transport_feedback.cpp:363-366 | A concrete run whose two reports, 100 to 100 and 99 to 100, overlap. |
| `FeedbackGenerator.OverlapIff` | rtp/rtcp_transport_feedback.cpp:297-521 | Two consecutive reports, whatever steps lie between them, overlap if and only if some observation lands, as a new number or a discontinuity, at or before the end of the first and its eviction leaves the window there, no later step moves the window past that end again, and the second report reaches back to the begin of the first. |
| `FeedbackGenerator.StartAfterStep` | rtp/rtcp_transport_feedback.cpp:297-385 | What one step does to an already reported range, from the state before it: a closed range is reopened exactly by such an observation, an open one stays open exactly while eviction and discontinuities leave the window there. |
| `FeedbackGenerator.CommittedPreviewIsReport` | rtp/rtcp_transport_feedback.cpp:387-521 | Committing what a preview returned is a report step of the run model and advances the window strictly. |
| `FeedbackGenerator.Generator.UnwrapSequence` | rtp/rtcp_transport_feedback.cpp:256-295 | The landing is congruent to the 16-bit number and within 2^15 of newest; a jump over the limit restarts the window there. |
| `FeedbackGenerator.Generator.EvictOld` | rtp/rtcp_transport_feedback.cpp:297-337 | In place: arrivals too old or too many go lowest first, then the window start follows. |
| `FeedbackGenerator.Generator.Observe` | rtp/rtcp_transport_feedback.cpp:339-385 | In place: unwrap, insert once, evict, the step that the stored times are proved about; reports whether the number was new and whether it was a discontinuity; keeps validity. |
| `FeedbackGenerator.Generator.Expire` | rtp/rtcp_transport_feedback.cpp:523-528 | In place: exactly the eviction step; keeps validity. |
| `FeedbackGenerator.Generator.Commit` | rtp/rtcp_transport_feedback.cpp:507-521 | Only a preview of the current window with the current count moves the window; states exactly when validity survives. |
| `FeedbackGenerator.Generator.LowerBound` | rtp/rtcp_transport_feedback.cpp:408-413 | The lowest arrival at or after a number. |
| `FeedbackGenerator.Generator.Preview` | rtp/rtcp_transport_feedback.cpp:387-505 | The packet fits the limit and parses back to one status per number of the range, received exactly when it arrived, every reported arrival within half a tick of the true one however long the range; it stops early only when the next status has no 16-bit delta or no room. Gives the exact condition of each error; the errors for the first delta and for an empty packet do not occur. |
| `FeedbackGenerator.Generator.Collect` | rtp/rtcp_transport_feedback.cpp:415-479 | The status loop: at least one status is taken and the running reference never drifts. |
| `FeedbackGenerator.FirstDeltaSmall` | rtp/rtcp_transport_feedback.cpp:434-450 | The first received delta is between 0 and 256 ticks. |
| `FeedbackGenerator.Generator.Clear` | rtp/rtcp_transport_feedback.cpp:554-562 | Reset returns to the empty, valid state. |
| `SendHistory.FindExact` | rtp/rtcp_transport_feedback.cpp:590-615 | With at most 2^15 live records, the lookup returns the only live record congruent to the 16-bit number, or none. |
| `SendHistory.FindExactIff` | rtp/rtcp_transport_feedback.cpp:590-615 | The lookup is right for every number if and only if at most 2^15 records are live, or one more while the newest lies in the upper half of its block. |
| `SendHistory.MissedRecord` | rtp/rtcp_transport_feedback.cpp:590-615 | Beyond that bound there is a live record that its own number does not find. |
| `SendHistory.TallyBalances` | rtp/rtcp_transport_feedback.cpp:642-694 | Hits plus misses are the statuses, receipts plus losses are the hits, and retransmissions are among them. |
| `SendHistory.TallyCounts` | rtp/rtcp_transport_feedback.cpp:642-694 | Received are the statuses that say so and found their packet, lost those that found it and say otherwise, with the sum of their sizes and the retransmissions among them; missed are those that found none. |
| `SendHistory.DelayIsLongest` | rtp/rtcp_transport_feedback.cpp:666-670 | The reported delay is the longest, in whole milliseconds, among the packets found. |
| `SendHistory.RetainedIs` | rtp/rtcp_transport_feedback.cpp:696-709 | While packets were sent in the order of time, what remains is the longest run of latest records that are young enough and within the limit. |
| `SendHistory.History.EvictOld` | rtp/rtcp_transport_feedback.cpp:696-709 | The queue loses its aged prefix, then what exceeds the limit, stays contiguous, and each removal is counted once. |
| `SendHistory.History.RememberSent` | rtp/rtcp_transport_feedback.cpp:571-588 | Sending appends one record under the next number, keeps sent = live + evicted, and leaves everything that counts feedback alone. |
| `SendHistory.History.Send` | session/whep_session_transport.cpp:1174-1184 | A number is used up only by a packet that carries it and went out; its record is appended, the queue evicted, and the record is then found under that number. |
| `SendHistory.GapsAreLostFeedback` | rtp/rtcp_transport_feedback.cpp:617-640 | While feedback packets arrive in order with fewer than 127 lost in a row, the gap counter is exactly the number of feedback packets lost in between, and nothing counts as duplicate or reordered. |
| `SendHistory.History.ObserveFeedbackCount` | rtp/rtcp_transport_feedback.cpp:617-640 | Duplicates, gaps and reordering are told apart by the 8-bit step; the first count changes no counter. |
| `SendHistory.History.Observe` | rtp/rtcp_transport_feedback.cpp:642-694 | Feedback is tallied against the records that remain (the tally that the counts are proved about), the running totals grow by it, and the duplicate, gap and reorder counters take one step of the 8-bit count. |
| `SendHistory.History.Lookup` | rtp/rtcp_transport_feedback.cpp:653-670 | The deque index of a found record is in bounds and is that record. |
| `HeaderExtensions.HeadsAgree` | rtp/rtp_packet.cpp:51-139 | The decodings of one element by validator, parser and finder, written out separately, agree on every byte string: same padding, same element, same error. |
| `HeaderExtensions.ValidateOneByte` | rtp/rtp_packet.cpp:51-95 | The validator's one-byte loop, looking before it advances, finds the first malformed element, or none. |
| `HeaderExtensions.ValidateTwoByte` | rtp/rtp_packet.cpp:97-139 | Its two-byte loop does the same. |
| `HeaderExtensions.ParseOneByte` | media/whep_rtp_rewriter.cpp:137-178 | The parser's one-byte loop, advancing before it tests, returns the elements in order, or the first error. |
| `HeaderExtensions.ParseTwoByte` | media/whep_rtp_rewriter.cpp:180-220 | Its two-byte loop does the same. |
| `HeaderExtensions.FindOneByte` | rtp/rtp_header_extension.cpp:30-66 | The finder's one-byte loop returns position and size of the first element with the id. |
| `HeaderExtensions.FindTwoByte` | rtp/rtp_header_extension.cpp:68-103 | Its two-byte loop does the same. |
| `HeaderExtensions.ValidatorAgrees` | rtp/rtp_packet.cpp:51-139 | Validator and parser accept the same payloads and report the same error. |
| `HeaderExtensions.FinderAgrees` | rtp/rtp_header_extension.cpp:30-103 | On everything the parser accepts, the finder points at the first parsed element with the id, or at nothing when there is none. |
| `HeaderExtensions.BuildThenParse` | media/whep_rtp_rewriter.cpp:498-519 | Parsing built elements followed by padding gives the elements back, in either format. |
| `HeaderExtensions.BlockRoundTrip` | media/whep_rtp_rewriter.cpp:482-535 | For ids 1 to 255 and values up to 255 bytes, build then parse is the identity in whichever format was chosen. |
| `HeaderExtensions.BuildPayload` | media/whep_rtp_rewriter.cpp:498-519 | The building loops produce that padded payload. |
| `RtpPacket.InspectLayout` | rtp/rtp_packet.cpp:207-268 | Header, payload and padding of an accepted packet add up to its size. |
| `RtpPacket.LayoutIff` | rtp/rtp_packet.cpp:207-268 | A layout is valid exactly for version 2, no RTCP packet type, room for the contributing sources, a readable extension area, and padding that counts itself behind the header; media payload is what is left. |
| `RtpPacket.PayloadStartIff` | rtp/rtp_packet.cpp:207-268 | With the extension flag the payload starts behind an area that lies inside the packet and has no malformed element in the two known formats; without it, behind the contributing sources. |
| `RtpPacket.RewriteableIff` | media/whep_rtp_rewriter.cpp:222-313 | The rewriter accepts exactly the valid layouts whose extension profile it knows. |
| `RtpPacket.FinderAgreesWithParser` | rtp/rtp_header_extension.cpp:105-165 | On every packet the rewriter accepts, the finder succeeds inside the extension area and agrees with the parsed list. |
| `RtpPacket.BlockReadsBack` | media/whep_rtp_rewriter.cpp:482-535 | An extension block anywhere in a packet reads back as its elements. |
| `RtpPacket.AssembledReadsBack` | media/whep_rtp_rewriter.cpp:1177-1206 | An assembled packet is accepted exactly when marker and payload type do not look like RTCP, and then every part reads back. |
| `SequenceCache.RememberTracks` | media/whep_rtp_rewriter.cpp:545-562 | One write keeps the cache equal to a function of the full log of writes, eviction by value included. |
| `SequenceCache.NeverStale` | media/whep_rtp_rewriter.cpp:564-574 | An answer is always the latest target written for that source number, written among the last 4096. |
| `SequenceCache.CompleteWhenDistinct` | media/whep_rtp_rewriter.cpp:543-584 | With distinct targets the cache is exactly the latest binding among the last 4096 writes. |
| `SequenceCache.ForgetsTheLatest` | media/whep_rtp_rewriter.cpp:550-561 | A concrete log of 4097 writes after which the binding just written is gone, because an equal, older one left the queue. |
| `SequenceCache.Remember` | media/whep_rtp_rewriter.cpp:545-562 | The queue loop performs that write. |
| `RewriterMedia.NewSourceStartsNewer` | media/whep_rtp_rewriter.cpp:618-639 | A new source starts strictly newer, in signed 32-bit order, than the high-water mark, and becomes it. |
| `RewriterMedia.OffsetIsConstant` | media/whep_rtp_rewriter.cpp:667-685 | Two translations in a row move source time by the same amount modulo 2^32. |
| `RewriterMedia.HighWaterHolds` | media/whep_rtp_rewriter.cpp:676-684 | After a translation the high-water mark is not older than what was sent. |
| `RewriterMedia.AllocatedInv` | media/whep_rtp_rewriter.cpp:641-665 | The number handed out is the initial number plus the count so far, modulo 2^16. |
| `RewriterMedia.PrimaryBegunInv` | media/whep_rtp_rewriter.cpp:618-639 | Starting a source sets SSRC, payload type and anchor together, keeps the numbering and starts an empty log. |
| `RewriterMedia.SourceClearedInv` | media/whep_rtp_rewriter.cpp:607-616 | Clearing a source unsets them together and keeps the numbering. |
| `RewriterMedia.ForgottenIff` | media/whep_rtp_rewriter.cpp:543-562 | In the rewriter a binding is forgotten early exactly when a multiple of 2^16 primary numbers lie between it and a binding of the same original number that has left the window. |
| `RewriterMedia.CachedIff` | media/whep_rtp_rewriter.cpp:543-584 | The translation cache knows an original exactly when its latest binding is among the last 4096 and was not wrapped onto like that, which takes at least 61440 packets of the source that failed to build. |
| `RewriterMedia.WrapReached` | media/whep_rtp_rewriter.cpp:543-584 | The bound is tight: one packet, 4095 others, 61440 that fail to build and the first original number again reach that state. |
| `ExtensionRewriting.RewrittenExtensions` | media/whep_rtp_rewriter.cpp:367-443 | For a negotiated mapping the new list is strictly sorted and encodable, and a reader finds the subscriber's MID, the fresh transport-wide number and every copied value under its id. |
| `ExtensionRewriting.ReaderFinds` | media/whep_rtp_rewriter.cpp:367-443 | What a reader finds under each id: the fresh number under the transport-wide id, the subscriber MID under the MID id, under any other the first source element whose first mapping leads there and that the relay does not make itself, or nothing. |
| `ExtensionRewriting.SortedFacts` | media/whep_rtp_rewriter.cpp:438-440 | Sorting keeps exactly the elements and orders distinct ids strictly. |
| `ExtensionRewriting.CopiedSucceeds` | media/whep_rtp_rewriter.cpp:406-409 | No parsed extension is too large to copy, so that error does not occur. |
| `ExtensionRewriting.BlockBound` | media/whep_rtp_rewriter.cpp:523-528 | At most 255 distinct ids fit the block's length field, so that error does not occur. |
| `RewrittenPacket.RewrittenReadsBack` | media/whep_rtp_rewriter.cpp:1177-1206 | A rewritten packet is accepted exactly when marker and payload type do not look like RTCP; CSRCs, marker, padding and payload are the source's, except an RTX original number. |
| `RewrittenPacket.BuildRewritten` | media/whep_rtp_rewriter.cpp:1177-1206 | Copying, appending and patching in the source's order gives those bytes. |
| `RtpRewriter.OnlyIndex` | media/whep_rtp_rewriter.cpp:700-768 | The only media that matches, or none when nothing or more than one matches. |
| `RtpRewriter.RouteOf` | media/whep_rtp_rewriter.cpp:1062-1091 | A packet is routed to a media in range by a mapping for its payload type. |
| `RtpRewriter.RouteOrder` | media/whep_rtp_rewriter.cpp:1062-1091 | The order of the search: the binding of the SSRC if its media maps the payload type to the recorded kind, else the only media whose MID the packet carries, else the only media that maps the payload type, else nothing. |
| `RtpRewriter.MidMatchesIff` | media/whep_rtp_rewriter.cpp:700-744 | A MID match carries the media MID under the id its mapping has for MIDs, and a payload type it maps. |
| `RewriterInvariant.BoundInv` | media/whep_rtp_rewriter.cpp:1094-1133 | Recording the source keeps every invariant and leaves an anchor in place, so neither fallback re-anchoring is reached. |
| `RewriterInvariant.SentInv` | media/whep_rtp_rewriter.cpp:1135-1230 | Sending keeps every invariant; a number handed out is the next of its stream; the only failure left is a two-byte block that was not negotiated. |
| `RewriterInvariant.OnlyTwoByteFails` | media/whep_rtp_rewriter.cpp:1163-1175 | Of the build errors only that one can occur, and exactly when a needed two-byte format is not allowed. |
| `RewriterInvariant.ForwardedInv` | media/whep_rtp_rewriter.cpp:1046-1231 | Whatever arrives, the invariant holds afterwards: numbering, anchors, translation log, and every binding points at a media that records its SSRC. |
| `RewriterInvariant.ForwardedIff` | media/whep_rtp_rewriter.cpp:1046-1175 | What becomes of a packet and why: unreadable, without a publisher, without a media or before its primary stream it leaves everything as it was; otherwise it takes a number unless its output has no SSRC, or as RTX it is too short or names an unknown original. |
| `RewriterInvariant.ForwardedPacket` | media/whep_rtp_rewriter.cpp:1135-1161 | A forwarded packet has its stream's next number and the source time moved by the media's offset; the offset changes only when a source begins, which then starts strictly newer; a keyframe is asked for exactly when a video source begins. |
| `RewriterInvariant.ForwardedReadsBack` | media/whep_rtp_rewriter.cpp:1144-1206 | Its bytes read back with the source's CSRCs, marker, padding and payload and the subscriber's extensions; an RTX packet carries the number most recently given to the packet it repeats since the source began. |
| `RewriterInvariant.OriginalCachedIff` | media/whep_rtp_rewriter.cpp:1144-1158 | An RTX packet is dropped for an unknown original if and only if that original is not among the last 4096 packets forwarded, or was wrapped onto; the latter takes at least 61440 packets of the source that failed to build. |
| `RewriterInvariant.OriginalCachedWithoutLoss` | media/whep_rtp_rewriter.cpp:1144-1158 | With fewer failures than that: if and only if it is not among the last 4096. |
| `RewriterInvariant.RetransmittedInv` | media/whep_rtp_rewriter.cpp:1251-1348 | A retransmission keeps the invariant and takes the next RTX number of its media. |
| `RewriterInvariant.ReconfiguredInv` | media/whep_rtp_rewriter.cpp:952-1000 | A new configuration keeps the invariant: media carried over by kind and target SSRC keep their numbering, RTX numbering restarts only with a new RTX SSRC. |
| `RewriterInvariant.BindingsOfInv` | media/whep_rtp_rewriter.cpp:1014-1030 | Rebuilt bindings all point at media that record them. |
| `RewriterInvariant.BindingsOfAll` | media/whep_rtp_rewriter.cpp:1014-1030 | Rebuilt bindings are complete: every recorded SSRC is bound, to the last media that records it, as RTX if it is on record there as RTX. |
| `RewriterInvariant.ClearedInv` | media/whep_rtp_rewriter.cpp:1002-1012 | Clearing the source keeps the invariant. |
| `RewriterRuns.NextInv` | media/whep_rtp_rewriter.cpp:952-1348 | Every operation keeps the invariant. |
| `RewriterRuns.NumbersAreConsecutive` | media/whep_rtp_rewriter.cpp:641-665 | Over every run whose configurations keep a stream, its numbers are consecutive modulo 2^16, across source changes, payload-type changes, cleared sources and new configurations; for RTX over any interleaving of forwarded packets and local retransmissions. |
| `RewriterRuns.NumbersFromStart` | media/whep_rtp_rewriter.cpp:537 | From a fresh rewriter the k-th number handed out is the initial number of the SSRC plus k. |
| `EmittedNumbers.EmitsIff` | media/whep_rtp_rewriter.cpp:1160-1175 | An operation that took a number emits its packet if and only if its guard lets it: a needed two-byte block is allowed, or the sent packet has a transport-wide extension to write into. |
| `EmittedNumbers.ConsecutiveIff` | media/whep_rtp_rewriter.cpp:641-665 | In any list of attempts the numbers that come out are consecutive if and only if the failures between neighbours are multiples of 2^16 in number. |
| `EmittedNumbers.OutputContinuousIff` | media/whep_rtp_rewriter.cpp:1160-1206 | Over every run that keeps a stream, the emitted numbers are consecutive exactly under that condition; with at most 2^16 attempts, exactly when nothing fails between two packets that come out. |
| `EmittedNumbers.EmitsEveryNumber` | media/whep_rtp_rewriter.cpp:482-496 | A stream whose mappings allow the two-byte format (and, for RTX, write no transport-wide number) emits every number it takes. |
| `EmittedNumbers.OutputFromStart` | media/whep_rtp_rewriter.cpp:482-496 | From a fresh rewriter the k-th packet of such a stream has the initial number plus k: no gap, over every run. |
| `NumberingGaps.ForwardingGap` | media/whep_rtp_rewriter.cpp:491-494 | A concrete run with a gap: a 17-byte extension without permission for the two-byte format fails between two packets whose numbers differ by 2. |
| `NumberingGaps.RetransmissionGap` | media/whep_rtp_rewriter.cpp:1334-1343 | The same for RTX: a packet that was never forwarded and has no transport-wide extension fails after taking a number. |
| `ResentNumbers.ResendsEveryNumber` | media/whep_rtp_rewriter.cpp:1251-1348 | A run that sends again only packets it forwarded, under configurations that allow two-byte extensions and keep one transport-wide id, emits every number it takes, RTX included. |
| `ResentNumbers.ResentFromStart` | media/whep_rtp_rewriter.cpp:1251-1348 | From a fresh rewriter the k-th packet of such a stream has the initial number plus k: no gap with transport-wide numbers either. |
| `RewriterRuns.ConfigureCounts` | media/whep_rtp_rewriter.cpp:960-994 | A configuration that keeps a stream carries its count over. |
| `RewriterRuns.OffsetOverRun` | media/whep_rtp_rewriter.cpp:667-685 | A run that does not end the source keeps the offset between source and target time. |
| `RewriterRuns.TimelineWithinSource` | media/whep_rtp_rewriter.cpp:667-685 | Within one source every forwarded packet is moved by the same amount, however long the run and whatever else happens in it. |
| `RewriterTimeline.NextMark` | media/whep_rtp_rewriter.cpp:607-685 | Every event that keeps an output keeps its timeline: once it has sent it always has, and its high-water mark moves only with a packet for this output, to a newer time. |
| `RewriterTimeline.MarkOverRun` | media/whep_rtp_rewriter.cpp:607-685 | Over every run without a packet for the output, cleared sources and new configurations included, its mark stays. |
| `RewriterTimeline.ForwardedIsMarked` | media/whep_rtp_rewriter.cpp:667-685 | A packet that comes out leaves its output marked, no earlier than itself. |
| `RewriterTimeline.LaterSourceStartsNewer` | media/whep_rtp_rewriter.cpp:607-639 | A source that begins later, whatever was cleared, configured, forwarded elsewhere or sent again in between, starts strictly newer than the mark, by 10 ms of its clock. |
| `RewriterTimeline.FirstSourceOffset` | media/whep_rtp_rewriter.cpp:618-639 | The first source of an output is moved by the offset of the output SSRC. |
| `RewriterTimeline.SourceIsRecorded` | media/whep_rtp_rewriter.cpp:1094-1133 | After a primary packet its SSRC, payload type and clock are on record, it begins a source exactly when they were not before, and then the SSRC is bound to that media alone; an RTX packet records and binds its SSRC as RTX. |
| `RewriterTimeline.ClearedForgets` | media/whep_rtp_rewriter.cpp:1002-1012 | Clearing forgets every source and binding and keeps numbering and timeline. |
| `RewriterTimeline.ReconfiguredMedia` | media/whep_rtp_rewriter.cpp:952-1000 | A configured media goes on from the one with its kind and SSRC: with its source exactly while publisher and source MID stay, with its numbering and timeline always, with its RTX numbering while the RTX SSRC stays; without a predecessor it is new. |
| `RewriterRuns.BeginningSettles` | media/whep_rtp_rewriter.cpp:1114-1126 | A source that begins is bound to its media alone, when no RTX stream has its SSRC. |
| `RewriterRuns.SettledRoutes` | media/whep_rtp_rewriter.cpp:1062-1091 | A packet of a settled source goes to its media and begins nothing. |
| `RewriterRuns.SourceStaysSettled` | media/whep_rtp_rewriter.cpp:1060-1133 | Over every run of forwarded and retransmitted packets that spares the source, it stays settled, so each further packet reaches the same media and begins nothing anew. |
| `RewriterRuns.QueryIsMapping` | media/whep_rtp_rewriter.cpp:1373-1395 | In every reachable state and for any time, the query maps a source exactly as its packets are mapped, when a single media has that source. |
| `RewriterRuns.QueryFailsWithoutSource` | media/whep_rtp_rewriter.cpp:1373-1395 | It answers nothing when no media has the source. |
| `RewriterRuns.QueryAgrees` | media/whep_rtp_rewriter.cpp:1373-1395 | In particular it gives back the timestamp of the packet just forwarded. |
| `RewriterRuns.RetransmissionRepairs` | media/whep_rtp_rewriter.cpp:1251-1348 | A retransmission is of a primary payload type with NACK; it is RTX exactly when the output has an RTX SSRC and an RTX payload type for that one, and then goes out under such a type, otherwise under its own; it keeps its timestamp. |
| `RewriterRuns.RetransmissionRestores` | media/whep_rtp_rewriter.cpp:1251-1348 | A retransmission is the sent packet with a fresh transport-wide number, encapsulated under the payload type that repairs its codec so that the receiver restores exactly that, or as it stands when there is no RTX for it. |
| `RtxEncapsulation.EncapsulationReversible` | media/whep_rtp_rewriter.cpp:1317-1332 | Removing the inserted number and restoring number, payload type and SSRC gives the sent packet byte for byte. |
| `RtxEncapsulation.RtxReversible` | media/whep_rtp_rewriter.cpp:1317-1345 | The same with the transport-wide number written: only its two bytes differ, and the write fails exactly when it would fail on the sent packet. |
| `RtxEncapsulation.RtxReadsBack` | media/whep_rtp_rewriter.cpp:1317-1332 | The RTX packet parses with the new header fields, the same extensions and two more payload bytes, unless it looks like RTCP. |
| `RtxEncapsulation.TransportReadsBack` | media/whep_rtp_rewriter.cpp:445-462 | Writing the transport-wide number changes that extension's value and nothing else a parser sees. |
| `RtxEncapsulation.PatchedElement` | media/whep_rtp_rewriter.cpp:445-462 | Overwriting the value of the first element with an id changes only that element in the parsed list. |
| `RtxEncapsulation.Encapsulate` | media/whep_rtp_rewriter.cpp:1317-1332 | Inserting and patching gives the encapsulated bytes. |
| `TransportNumbers.ForwardedCarriesNumber` | session/whep_session_transport.cpp:1058 | A forwarded packet that claims a transport-wide number carries exactly that number under the id negotiated for its media, whenever a reader accepts the packet. |
| `TransportNumbers.RetransmittedCarriesNumber` | session/whep_session_transport.cpp:2097-2098 | The same for a retransmission, encapsulated or not. |
| `TransportNumbers.RetransmittedHeader` | media/whep_rtp_rewriter.cpp:1251-1348 | The header bytes of what is sent again are the payload type, number and SSRC it is said to have, and otherwise those of the sent packet. |
| `TransportNumbers.CarriedIsWritable` | media/whep_rtp_rewriter.cpp:1251-1348 | A packet that carries one number under an id can be given any other number there. |
| `TransportNumbers.RetransmittedIff` | media/whep_rtp_rewriter.cpp:1251-1348 | A retransmission comes out if and only if the packet reads as RTP, its output has NACK for its payload type, and there is a place for the transport-wide number that output negotiated. |
| `TransportNumbers.ForwardedIsSeen` | media/whep_rtp_rewriter.cpp:1160-1206 | A forwarded primary packet is seen under the SSRC, payload type and number of the output and has a place for the number its output negotiated. |
| `WhepSender.FiledIsRepairable` | media/whep_rtp_rewriter.cpp:1251-1348 | While the mapping of its output stays, a cached packet goes out again exactly when it reads as RTP, which only a payload type from 64 to 95 can prevent. |
| `WhepSender.HitIsRight` | session/whep_session_transport.cpp:2038-2050 | In every state of the sending side a hit is the packet last cached under that SSRC and number, comes out exactly when it is repairable, and what comes out restores it. |
| `WhepSender.Sender.SendRtp` | session/whep_session_transport.cpp:976-1187 | The whole next state of rewriter, numbering, records, packets, cache and run: nothing changes for a packet dropped before rewriting; otherwise the rewriter takes its forwarding step, a number is used up and recorded exactly by an emitted packet that carries it and went out, and the cache is written exactly by an emitted primary packet with NACK that went out. |
| `WhepSender.ForwardingLeaves` | session/whep_session_transport.cpp:976-1187 | What a forwarding leaves behind: only what went out counts. It is the newest record under the number it carries, the packet filed under that number, and as a primary packet with NACK the newest cache entry, if it fits there at all. |
| `WhepSender.Sender.SendRewritten` | session/whep_session_transport.cpp:1176-1187 | The part after protecting and sending: number and record, then the cache, or neither when the packet did not go out. |
| `WhepSender.Sender.UseNumber` | session/whep_session_transport.cpp:1176-1184 | The number is used up, recorded and bound to its packet exactly when the packet carries it and went out. |
| `WhepSender.Sender.SendRetransmission` | session/whep_session_transport.cpp:2095-2157 | The whole next state: the rewriter takes its retransmission step, a number is used up and recorded exactly by a packet that carries it and went out, and the cache stays. |
| `WhepSender.Sender.CacheRewritten` | session/whep_session_transport.cpp:1537-1554 | Exactly the primary packets with negotiated NACK are written to the cache, as the latest write and under the mapping they were sent with. |
| `WhepSender.Sender.AnswerNack` | session/whep_session_transport.cpp:2038-2157 | One requested number and the whole next state: missed exactly when the writes from it on no longer fit the cache limits; on a hit the packet is the last one forwarded under that SSRC and number, it comes out exactly when it is repairable (always, while its mapping stays and it reads as RTP), restores the packet byte for byte up to the fresh number, and is recorded; the cache is pruned and marked; without a hit nothing but the cache changes. |
| `WhepSender.BatchComesOut` | session/whep_session_transport.cpp:1994-2093 | Of the packets looked up for one RTCP packet those come out that are repairable as the rewriter stood before the first, and each that does restores the cached packet under its own number. |
| `WhepSender.Sender.AnswerNacks` | session/whep_session_transport.cpp:1994-2157 | All requests of one RTCP packet and the whole next state: the lookups are the batch, then its packets are sent again one after the other, each taking the retransmission step of the state the one before it left. |
| `WhepSender.Sender.Observe` | session/whep_session_transport.cpp:2187-2197 | Feedback evicts and tallies records and steps the feedback counters; rewriter, cache, numbering and packets stay. |
| `WhepSender.Sender.Configure` | session/whep_session_transport.cpp:1582 | The reconfiguration step of the rewriter; numbering, records, packets and cache stay. |
| `WhepSender.Sender.ClearSource` | session/whep_session_transport.cpp:1558-1565 | The clearing step of the rewriter; numbering, records, packets and cache stay. |
| `WhepSender.Sender.Reset` | session/whep_session_transport.cpp:952-974 | A new peer: cache, history and packets start anew, the rewriter loses its source and keeps its numbering. |
| `WhepSender.Sender.OutputHasNoGap` | session/whep_session_transport.cpp:976-2157 | In every state of the sending side that only answered requests, under configurations that keep a stream, allow two-byte extensions and keep one transport-wide id: the numbers that came out of the rewriter for the stream are the initial number plus 0, 1, 2 and so on, RTX or not. |
| `WhepSender.Sender.PacketFindsItsRecord` | session/whep_session_transport.cpp:1058-1184 | In every state that sending, retransmitting, feedback and configuration reach: the number a reader finds in the packet of a live record, under the negotiated id, leads back to that record. |
| `WhepRewriter.RewriteHeaderExtensions` | media/whep_rtp_rewriter.cpp:367-443 | The loop with its table of used ids returns the specified list, or the size error. |
| `WhepRewriter.BuildBlock` | media/whep_rtp_rewriter.cpp:482-535 | Returns the block, or the error for a missing permission or an oversized block, each exactly when it applies. |
| `WhepRewriter.ResolveByMid` | media/whep_rtp_rewriter.cpp:700-744 | The loop finds the only media whose MID and payload type match. |
| `WhepRewriter.ResolveByPayloadType` | media/whep_rtp_rewriter.cpp:746-768 | The loop finds the only media that maps the payload type. |
| `WhepRewriter.CarryMedia` | media/whep_rtp_rewriter.cpp:960-994 | The loop builds each media on the previous entry for its target. |
| `WhepRewriter.Rewriter.constructor` | media/whep_rtp_rewriter.cpp:1397-1400 | A new rewriter is empty and valid. |
| `WhepRewriter.Rewriter.SetConfig` | media/whep_rtp_rewriter.cpp:952-1000 | In place: the reconfiguration step of the run model; keeps validity. |
| `WhepRewriter.Rewriter.ClearSource` | media/whep_rtp_rewriter.cpp:1002-1012 | In place: the clearing step of the run model, about which timeline and numbering are proved; keeps validity. |
| `WhepRewriter.Rewriter.RebuildBindings` | media/whep_rtp_rewriter.cpp:1014-1030 | In place: bindings are exactly those of the recorded SSRCs, later media winning. |
| `WhepRewriter.Rewriter.EraseBindings` | media/whep_rtp_rewriter.cpp:1032-1044 | In place: exactly the bindings of one media go, while walking the map. |
| `WhepRewriter.Rewriter.BindSource` | media/whep_rtp_rewriter.cpp:1094-1133 | In place: the binding step, and whether a keyframe is needed. |
| `WhepRewriter.Rewriter.SendResolved` | media/whep_rtp_rewriter.cpp:1135-1230 | In place: the sending step, drop by drop and error by error. |
| `WhepRewriter.Rewriter.Rewrite` | media/whep_rtp_rewriter.cpp:1046-1231 | In place: the forwarding step of the run model with its outcome; keeps validity. |
| `WhepRewriter.Rewriter.BuildRetransmission` | media/whep_rtp_rewriter.cpp:1251-1348 | In place: the retransmission step of the run model with its outcome; keeps validity. |
| `WhepRewriter.Rewriter.MapTimestamp` | media/whep_rtp_rewriter.cpp:1373-1395 | The loop answers for the first media that records the SSRC. |
| `FanoutRouter.SubscribedKeepsInv` | media/media_fanout_router.cpp:48-113 | Subscribing keeps the router invariant, given that the old subscription was ended first. |
| `FanoutRouter.UnsubscribedKeepsInv` | media/media_fanout_router.cpp:115-138 | Unsubscribing removes the session from every request and keeps the invariant. |
| `FanoutRouter.SourceSetKeepsInv` | media/media_fanout_router.cpp:140-193 | A new source gets a fresh generation; its stream keeps no request and no timing of the old one. |
| `FanoutRouter.SourceClearedKeepsInv` | media/media_fanout_router.cpp:195-241 | The same for a cleared source. |
| `FanoutRouter.RequestedKeepsInv` | media/media_fanout_router.cpp:243-320 | A request names the current source and waits only for subscribers of its stream; a burst starts with one matching timer. |
| `FanoutRouter.CompletedKeepsInv` | media/media_fanout_router.cpp:322-371 | Completion removes one waiter, and the request with its last. |
| `FanoutRouter.ByePublishedKeepsInv` | media/media_fanout_router.cpp:423-503 | A source's BYE removes its request and timing only. |
| `FanoutRouter.TimingPublishedKeepsInv` | media/media_fanout_router.cpp:505-561 | Stored timings name the current source. |
| `FanoutRouter.ScheduledKeepsInv` | media/media_fanout_router.cpp:563-594 | Scheduling keeps one timer with the request's token, or ends the burst. |
| `FanoutRouter.RetryAlwaysMatches` | media/media_fanout_router.cpp:596-637 | With cancelled waits discarded, a timer that fires always finds its request, token and current source: the mismatch branch is unreachable. |
| `FanoutRouter.RetryKeepsInv` | media/media_fanout_router.cpp:596-637 | A retry keeps the invariant, so a burst sends at most five requests. |
| `FanoutRouter.Router.CancelRequestsForSubscriber` | media/media_fanout_router.cpp:639-655 | The erase-while-iterating loop removes one session from every request and drops requests without waiters. |
| `FanoutRouter.Router.CancelStreamRequests` | media/media_fanout_router.cpp:657-671 | The loop drops exactly the requests of one stream. |
| `FanoutRouter.WelcomeIsConsistent` | media/media_fanout_router.cpp:66-101 | Every stored timing a new subscriber is told belongs to the source and generation it is told. |
| `FanoutRouter.Router.Subscribe` | media/media_fanout_router.cpp:48-113 | In place: the subscription, and the generation, source and sender timings the subscriber is told; a malformed subscription is told nothing. |
| `FanoutRouter.Router.Unsubscribe` | media/media_fanout_router.cpp:115-138 | In place: the unsubscription step. |
| `FanoutRouter.Router.SetPublisherSource` | media/media_fanout_router.cpp:140-193 | In place: the new source and its generation. |
| `FanoutRouter.Router.ClearPublisherSource` | media/media_fanout_router.cpp:195-241 | In place: the cleared source, only by its own publisher. |
| `FanoutRouter.Router.RequestKeyframe` | media/media_fanout_router.cpp:243-320 | In place: whether the request was accepted, and whether the publisher is asked at once. |
| `FanoutRouter.Router.CompleteKeyframeRequest` | media/media_fanout_router.cpp:322-371 | In place: the completion step. |
| `FanoutRouter.Router.CancelKeyframeRequests` | media/media_fanout_router.cpp:373-381 | In place: the cancellation step. |
| `FanoutRouter.Router.PublishSourceBye` | media/media_fanout_router.cpp:423-503 | In place: the BYE step and whether it was accepted. |
| `FanoutRouter.Router.PublishSenderTiming` | media/media_fanout_router.cpp:505-561 | In place: the timing step, packet and octet counts included, and whether it was accepted. |
| `FanoutRouter.Router.HandleKeyframeRetry` | media/media_fanout_router.cpp:596-637 | In place: the retry step and whether the publisher is asked again. |
| `FanoutRouter.Router.FireTimer` | media/media_fanout_router.cpp:563-637 | A pending wait that expires always asks the publisher again and keeps the invariant. |
| `KeyframeCoordination.MaybeRequestAgrees` | session/whep_session_transport.cpp:1608-1684 | Preparing and dispatching one request leaves router and transports in agreement, accepted or not. |
| `KeyframeCoordination.KeyframeCompletedAgrees` | session/whep_session_transport.cpp:1686-1704 | A completed keyframe leaves both sides in agreement. |
| `KeyframeCoordination.RtpSentAgrees` | session/whep_session_transport.cpp:1193-1274 | Every observation of a sent video packet, source switch included, keeps the agreement. |
| `KeyframeCoordination.FeedbackReceivedAgrees` | session/whep_session_transport.cpp:2479-2517 | Receiver PLI and FIR, prepared together and then dispatched one by one, keep the agreement. |
| `KeyframeCoordination.SourceSetAgrees` | session/whep_session_transport.cpp:1322-1359 | A new source told to every subscriber keeps the agreement. |
| `KeyframeCoordination.SourceClearedAgrees` | session/whep_session_transport.cpp:1322-1359 | A cleared source told to every subscriber keeps the agreement. |
| `KeyframeCoordination.ByeAgrees` | session/whep_session_transport.cpp:1706-1744 | A source's BYE told to every subscriber keeps the agreement. |
| `KeyframeCoordination.AttachedAgrees` | session/whep_session_transport.cpp:1277-1312 | Joining a stream, after leaving the old one, keeps the agreement. |
| `KeyframeCoordination.DetachedAgrees` | session/whep_session_transport.cpp:1314-1320 | Leaving keeps the agreement. |
| `KeyframeCoordination.RetryTimerAgrees` | media/media_fanout_router.cpp:596-637 | A retry keeps the agreement. |
| `KeyframeCoordination.NominatedAgrees` | session/whep_session_transport.cpp:2653-2669 | A changed ICE nomination, which starts the recovery over on both sides, keeps the agreement. |
| `KeyframeCoordination.StepAgrees` | session/whep_session_transport.cpp:1193-1274 | After every event, each subscribed transport's waiting set is exactly the SSRCs whose current router request lists it, waiting and ready are disjoint, and generation and source equal the router's. |
| `KeyframeCoordination.RunAgrees` | session/whep_session_transport.cpp:1592-1744 | The same in every reachable state. |
| `KeyframeCoordination.ReachableAgree` | session/whep_session_transport.cpp:1193-1359 | From an empty relay, whatever sequence of events follows, the agreement holds. |
| `KeyframeCoordination.GenerationsIncrease` | media/media_fanout_router.cpp:684-689 | Along every run the generations handed out strictly increase. |
| `KeyframeEffects.RtpSentServes` | session/whep_session_transport.cpp:1193-1274 | A video packet sent to a live session completes a keyframe, after which nothing waits for its source; or finds the session served or waiting and changes nothing; or leaves it waiting on both sides, with the publisher asked unless a burst for that source runs. Other sources and sessions stay. |
| `KeyframeEffects.FeedbackServes` | session/whep_session_transport.cpp:2479-2517 | Every source whose first PLI or FIR names an output ends up waiting on both sides with a burst running, begun by this feedback unless the session waited already or others did; everything else stays. |
| `KeyframeEffects.StaleIsIgnored` | session/whep_session_transport.cpp:1197-1198 | A packet of an old generation, and everything for a session without a source, changes nothing. |
| `KeyframeEffects.SourceSetTells` | media/media_fanout_router.cpp:140-193 | A new source gets the next generation; every session on the stream is told it and waits for nothing; nothing is asked of the stream, and other streams stay. |
| `KeyframeEffects.SourceClearedTells` | media/media_fanout_router.cpp:195-241 | The same for a cleared source, which only its own publisher can clear. |
| `KeyframeEffects.ByeForgets` | media/media_fanout_router.cpp:423-503 | After a BYE of the current source nobody waits for that SSRC or is served it, its publisher is no longer asked for it, and its timing is gone; everything else stays. |
| `KeyframeEffects.TimingIsTold` | media/media_fanout_router.cpp:505-561 | A sender timing of the current source is, clock and counts unchanged, what subscribers are told of that SSRC; other timings stay. |
| `KeyframeEffects.RetryAsks` | media/media_fanout_router.cpp:563-637 | A retry asks the publisher once more of at most five times and arms the next wait under a new token until the last. |
| `KeyframeEffects.NominationForgets` | session/whep_session_transport.cpp:2653-2669 | After a changed nomination the session waits for nothing and is served nothing. |
| `KeyframeEffects.DetachedIsGone` | session/whep_session_transport.cpp:1314-1320 | A session that leaves is gone on both sides. |
| `KeyframeEffects.AttachedIsTold` | session/whep_session_transport.cpp:1277-1312 | A session that joins is subscribed, told the current source and waits for nothing. |
| `MediaPlane.Plane.HandlePublisherSource` | session/whep_session_transport.cpp:1322-1359 | In place: one transport takes over the new source and cancels its recovery. |
| `MediaPlane.Plane.TellSubscribers` | media/media_fanout_router.cpp:140-193 | The loop over subscribers tells each of them once. |
| `MediaPlane.Plane.SetPublisherSource` | media/media_fanout_router.cpp:140-193 | In place: the system step for a new source and the generation it got; keeps the agreement. |
| `MediaPlane.Plane.ClearPublisherSource` | media/media_fanout_router.cpp:195-241 | In place: the system step for a cleared source; keeps the agreement. |
| `MediaPlane.Plane.PublishSourceBye` | media/media_fanout_router.cpp:423-503 | In place: the system step for a BYE and whether it was accepted; keeps the agreement. |
| `MediaPlane.Plane.PublishSenderTiming` | media/media_fanout_router.cpp:505-561 | In place: the system step for a sender timing and whether it was accepted; keeps the agreement. |
| `MediaPlane.Plane.Attach` | session/whep_session_transport.cpp:952-974 | In place: the system step for joining; keeps the agreement. |
| `MediaPlane.Plane.Detach` | session/whep_session_transport.cpp:1314-1320 | In place: the system step for leaving; keeps the agreement. |
| `MediaPlane.Plane.VideoPacketSent` | session/whep_session_transport.cpp:1193-1274 | In place: the system step for a sent video packet, about which waiting and asking are proved; keeps the agreement. |
| `MediaPlane.Plane.ReceiverFeedback` | session/whep_session_transport.cpp:2479-2517 | In place: the system step for receiver feedback, with its two loops; keeps the agreement. |
| `MediaPlane.Plane.RetryTimerFired` | media/media_fanout_router.cpp:596-637 | In place: the system step for a retry; keeps the agreement. |
| `MediaPlane.Plane.NominationChanged` | session/whep_session_transport.cpp:1602-1606 | In place: the system step for a changed nomination; keeps the agreement. |
| `RetransmissionCache.KeysAreDistinct` | rtp/rtp_retransmission_cache.cpp:35-38 | SSRC and number are recovered from a key. |
| `RetransmissionCache.LiveCount` | rtp/rtp_retransmission_cache.cpp:62-102 | The queue holds exactly one live record per entry. |
| `RetransmissionCache.Kept` | rtp/rtp_retransmission_cache.cpp:62-102 | What pruning leaves is the longest run of latest writes that fits age, count and byte limits: a suffix of the write order fits exactly when it starts there or later. |
| `RetransmissionCache.MissIff` | rtp/rtp_retransmission_cache.cpp:135-146 | A packet is missed if and only if it was never written or the writes from its last one on no longer fit the limits: nothing leaves early. |
| `RetransmissionCache.NewestSurvives` | rtp/rtp_retransmission_cache.cpp:104-133 | The packet just remembered is the last entry exactly when it fits the byte limit on its own; otherwise the cache is empty. |
| `RetransmissionCache.OthersAfterWrite` | rtp/rtp_retransmission_cache.cpp:104-133 | Another cached packet stays after a write exactly when the writes from its own on fit the limits both before and with the new packet written last, with its last hit. |
| `RetransmissionCache.PresentAfterHit` | rtp/rtp_retransmission_cache.cpp:135-164 | A hit moves nothing: later the packet is present exactly when it would have been without the request. |
| `RetransmissionCache.AskedAgain` | rtp/rtp_retransmission_cache.cpp:135-164 | A second request for a packet just sent again is missed exactly when the packet no longer fits, suppressed exactly within the minimum interval, and otherwise answered with the same packet. |
| `RetransmissionCache.InsertMovesKey` | rtp/rtp_retransmission_cache.cpp:104-133 | Writing a key moves it to the end of the order of last writes. |
| `RetransmissionCache.EvictOne` | rtp/rtp_retransmission_cache.cpp:62-102 | Evicting the front of the queue evicts the oldest write and its bytes. |
| `RetransmissionCache.PruneIsExact` | rtp/rtp_retransmission_cache.cpp:62-102 | Both pruning loops together leave exactly that longest run, and the aged ones are counted as aged. |
| `RetransmissionCache.Cache.EraseEntry` | rtp/rtp_retransmission_cache.cpp:40-60 | In place: the entry, its bytes and one counter. |
| `RetransmissionCache.Cache.PruneAged` | rtp/rtp_retransmission_cache.cpp:64-82 | The aged entries are exactly the oldest writes, and they all go. |
| `RetransmissionCache.Cache.PruneExcess` | rtp/rtp_retransmission_cache.cpp:84-101 | Oldest writes go first, and no more of them than packet and byte limits ask for; the empty-queue exit is not reached over the limits. |
| `RetransmissionCache.Cache.Prune` | rtp/rtp_retransmission_cache.cpp:62-102 | In place: the ordered map becomes exactly its longest fitting run of latest writes, each evicted entry is counted once under its cause, and survivors are unchanged. |
| `RetransmissionCache.Cache.Remember` | rtp/rtp_retransmission_cache.cpp:104-133 | In place: the ordered map is pruned, gets the packet as its last write, and is pruned again; nothing happens for an empty packet or SSRC zero. |
| `RetransmissionCache.Cache.LookupForRetransmission` | rtp/rtp_retransmission_cache.cpp:135-163 | In place: prune exactly, then answer. A miss happens exactly when the packet is not there or no longer fits; a hit is the last packet remembered for the key; two hits on one write are at least the minimum interval apart, and suppression happens exactly inside it. |
| `RetransmissionCache.Cache.Clear` | rtp/rtp_retransmission_cache.cpp:165-170 | The empty, valid state. |
| `NackRequests.MarkedFacts` | session/whep_session_transport.cpp:2004-2060 | Answering other requests changes neither the answer for a key nor what fits the limits. |
| `NackRequests.BatchFacts` | session/whep_session_transport.cpp:2004-2060 | What a batch sends again: no packet twice, each the answer to a request for a primary output, every such answer unless the limit of 256 was reached; and every request counts in exactly one way. |
| `NackRequests.Gather` | session/whep_session_transport.cpp:2004-2060 | The loop with its set of requests seen yields the batch in which every request is answered as if it were the only one; the cache is left pruned and marked if anything was looked up, and untouched otherwise. |
| `ReceiveStatistics.ExtendedGrowsByStep` | rtp/rtp_receive_statistics.cpp:67-77 | The extended highest number grows by exactly the step modulo 2^16 if and only if the 32-bit wrap count does not overflow. |
| `ReceiveStatistics.WrapCountOverflows` | rtp/rtp_receive_statistics.cpp:69-77 | A run of 2^21 packets from the fresh state after which the next wrap throws the extended number from 2^32 - 2048 back to 0. |
| `ReceiveStatistics.UpdateKeepsInv` | rtp/rtp_receive_statistics.cpp:58-99 | Every accepted or rejected number keeps the invariant, including expected - 1 <= 2999 (received - 1). |
| `ReceiveStatistics.IntervalsDoNotUnderflow` | rtp/rtp_receive_statistics.cpp:161-165 | No interval subtraction underflows, and an interval that expects packets received one. |
| `ReceiveStatistics.FractionIsExact` | rtp/rtp_receive_statistics.cpp:161-175 | The fraction is the floor of 256 lost / expected, and the cap at 255 never acts. |
| `ReceiveStatistics.InvOverRuns` | rtp/rtp_receive_statistics.cpp:58-188 | The invariant holds after every run of updates and commits, restarts after a jump included, as long as no counter overflows. |
| `ReceiveStatistics.LossesTelescope` | rtp/rtp_receive_statistics.cpp:152-188 | Between restarts the losses of committed intervals add up to the change of the cumulative loss. |
| `ReceiveStatistics.CommittedLossIsCumulative` | rtp/rtp_receive_statistics.cpp:152-188 | From the first packet on, committed interval losses add up to the cumulative loss. |
| `ReceiveStatistics.ReportOnRun` | rtp/rtp_receive_statistics.cpp:131-182 | For a source seen from its first packet: expected are the first number and all steps within the dropout window, received what arrived, lost the difference (negative with duplicates) confined to 24 bits, and the highest number the first moved by all steps. |
| `ReceiveStatistics.RestartIsFresh` | rtp/rtp_receive_statistics.cpp:79-93 | A restart leaves nothing of the old source. |
| `ReceiveStatistics.JumpThenNext` | rtp/rtp_receive_statistics.cpp:79-93 | A jump is not counted, and the number after it restarts the sequence exactly when it would jump, too. |
| `ReceiveStatistics.Statistics.UpdateSequence` | rtp/rtp_receive_statistics.cpp:58-99 | In place: the update step and whether the number was accepted. |
| `ReceiveStatistics.Statistics.CommitReport` | rtp/rtp_receive_statistics.cpp:184-188 | In place: the commit step. |
| `RtcpReader.ParseHeader` | rtp/rtp_packet.cpp:313-370 | An accepted header has a size of whole words inside the data, and padding that leaves the common header. |
| `RtcpReader.HeaderIff` | rtp/rtp_packet.cpp:313-370 | A header is accepted exactly for version 2, an RTCP type, a size inside the data, and padding that counts itself and leaves the header. |
| `RtcpReader.ReportIff` | rtp/rtcp_report.cpp:122-190 | A report is read exactly when sender, sender information and the announced blocks fill the payload. |
| `RtcpReader.DescriptionIff` | rtp/rtcp_compound_packet.cpp:227-330 | A source description is read exactly as the announced number of chunks that fill the payload, items one after the other, an end item and zeros to the next word. |
| `RtcpReader.ByeIff` | rtp/rtcp_compound_packet.cpp:332-389 | A BYE is read exactly when its SSRCs and a reason fit with nothing but zeros behind. |
| `RtcpReader.FeedbackIff` | rtp/rtcp_feedback.cpp:104-285 | Feedback is read as whole NACK entries, whole FIR entries, a PLI without a body, or transport-wide feedback that parses. |
| `RtcpReader.RembIff` | rtp/rtcp_feedback.cpp:186-214 | A REMB is its 18-bit mantissa times a power of two modulo 2^64 when its SSRCs fit. |
| `RtcpReader.CnameIs` | rtp/rtcp_compound_packet.cpp:227-330 | The canonical name is the first that is not empty. |
| `RtcpReader.PaddingIsLast` | rtp/rtcp_compound_packet.cpp:393-441 | Only the last block of a compound may be padded. |
| `RtcpReader.HeaderOfPrefix` | rtp/rtcp_compound_packet.cpp:401-441 | The header reads the same with or without what follows the block. |
| `RtcpReader.SizesCoverBuffer` | rtp/rtcp_compound_packet.cpp:393-515 | The block sizes of every accepted buffer add up to the buffer. |
| `RtcpBuilder.HeaderReadsBack` | rtp/rtcp_packet_builder.cpp:71-94 | A written header is accepted with its count, type and size. |
| `RtcpBuilder.BlockReadsBack` | rtp/rtcp_report.cpp:60-71 | A report block reads back, signed 24-bit loss included. |
| `RtcpBuilder.BlocksReadBack` | rtp/rtcp_report.cpp:179-186 | All report blocks read back in order. |
| `RtcpBuilder.CnameReadsBack` | rtp/rtcp_compound_packet.cpp:227-330 | A CNAME packet reads back as one chunk with that one item. |
| `RtcpBuilder.ByeReadsBack` | rtp/rtcp_compound_packet.cpp:332-389 | A BYE reads back with its SSRCs and its reason, empty or not. |
| `RtcpBuilder.FirReadsBack` | rtp/rtcp_feedback.cpp:156-184 | A FIR reads back with all its entries. |
| `RtcpBuilder.MemberRoundTrip` | rtp/rtcp_packet_builder.cpp:161-447 | Every sender report, receiver report, CNAME, PLI, FIR and BYE that is not refused parses back to exactly its content. |
| `RtcpBuilder.RefusedIff` | rtp/rtcp_packet_builder.cpp:161-447 | Exactly these messages are refused: a zero SSRC, an empty or too long list or text, a loss outside 24 bits. |
| `RtcpBuilder.WriteReportBlocks` | rtp/rtcp_packet_builder.cpp:96-121 | The loop fills the buffer at moving offsets, or fails exactly when a loss exceeds 24 bits. |
| `RtcpBuilder.BuildSenderReport` | rtp/rtcp_packet_builder.cpp:161-194 | In-place writes give the packet the reader undoes; refused exactly for a zero SSRC, more than 31 blocks or a loss beyond 24 bits. |
| `RtcpBuilder.BuildReceiverReport` | rtp/rtcp_packet_builder.cpp:196-223 | The same for receiver reports. |
| `RtcpBuilder.BuildCname` | rtp/rtcp_packet_builder.cpp:225-258 | The packet the reader undoes, end item and padding zero; refused exactly for a zero SSRC or a name of 0 or more than 255 bytes. |
| `RtcpBuilder.BuildPli` | rtp/rtcp_packet_builder.cpp:260-283 | The packet the reader undoes; refused exactly for a zero SSRC. |
| `RtcpBuilder.BuildFir` | rtp/rtcp_packet_builder.cpp:285-329 | The packet the reader undoes, reserved bytes zero; refused exactly for a zero SSRC, an empty list or one beyond the length field. |
| `RtcpBuilder.BuildBye` | rtp/rtcp_packet_builder.cpp:390-447 | The packet the reader undoes; refused exactly for no or more than 31 SSRCs, a zero SSRC or a reason beyond 255 bytes. |
| `RtcpCompound.CompoundIff` | rtp/rtcp_packet_builder.cpp:500-558 | The compound builder accepts exactly non-empty lists of valid members that start with a report, contain an SDES, pad only the last member and fit the maximum. |
| `RtcpCompound.JoinedReadsBack` | rtp/rtcp_compound_packet.cpp:393-515 | Members that read as blocks one by one read as those blocks, in order, when joined. |
| `RtcpCompound.CompoundRoundTrip` | rtp/rtcp_packet_builder.cpp:500-558 | Whatever the compound builder accepts parses to one block per member, in order. |
| `RtcpCompound.MessagesRoundTrip` | rtp/rtcp_packet_builder.cpp:161-558 | A compound of the relay's own messages gives every message back. |
| `RtcpCompound.BuildCompound` | rtp/rtcp_packet_builder.cpp:500-558 | The checking and joining loops return the specified result, error for error. |
| `RtcpCompound.DatagramIff` | rtp/rtcp_packet_builder.cpp:331-388 | A full feedback datagram is built exactly when the name has 1 to 255 bytes and the whole fits the maximum. |
| `RtcpCompound.FeedbackTakenIff` | rtp/rtcp_packet_builder.cpp:331-388 | Feedback is taken over exactly when it is one whole feedback packet of this sender. |
| `RtcpCompound.ReducedIff` | rtp/rtcp_packet_builder.cpp:331-388 | A reduced-size datagram is the feedback itself, whenever it is taken over and fits. |
| `RtcpCompound.ByeTakenIff` | rtp/rtcp_packet_builder.cpp:449-498 | A goodbye goes behind exactly a whole report of the participant, who has a name. |
| `RtcpCompound.FeedbackFitsDatagram` | rtp/rtcp_packet_builder.cpp:331-388 | Feedback of at most 1000 bytes and a name of at most 181 bytes always fit 1200 bytes. |
| `RtcpCompound.LongerNameDoesNotFit` | rtp/rtcp_packet_builder.cpp:331-388 | With 1000 bytes of feedback, 181 bytes is the longest name. |
| `RtcpCompound.TransportFeedbackIsMember` | rtp/rtcp_feedback.cpp:216-246 | Every transport-wide feedback packet that parses is a feedback block of a compound with the same content. |
| `RtcpCompound.FeedbackDatagramReadsBack` | rtp/rtcp_packet_builder.cpp:331-388 | From writer to compound reader: the datagram holds an empty report, the name and exactly the feedback that was written. |
| `RtcpCompound.BuildFeedbackDatagram` | rtp/rtcp_packet_builder.cpp:331-388 | Builds the datagram those results are about, or the bare feedback in reduced size; each refusal exactly when it applies. |
| `RtcpCompound.BuildByeDatagram` | rtp/rtcp_packet_builder.cpp:449-498 | Builds the goodbye datagram; refused exactly when report, participant, name, SSRCs or reason do not fit together. |
| `RtcpCompound.ByeDatagramReadsBack` | rtp/rtcp_packet_builder.cpp:449-498 | A goodbye datagram gives report, name, SSRCs and reason back. |
| `RtcpAggregation.NackNumbersIff` | rtp/rtcp_feedback.cpp:104-137 | A number is asked for exactly when some entry names it, itself or by a set bit. |
| `RtcpAggregation.ParseNack` | rtp/rtcp_feedback.cpp:104-137 | The nested loops read the entries and expand them. |
| `RtcpAggregation.ParseFirList` | rtp/rtcp_feedback.cpp:156-184 | The loop reads the FIR entries. |
| `RtcpAggregation.ParseReportBlocks` | rtp/rtcp_report.cpp:179-186 | The loop reads the report blocks. |
| `RtcpAggregation.ParseSdesChunks` | rtp/rtcp_compound_packet.cpp:227-330 | The nested loops read the chunks, error for error. |
| `RtcpAggregation.FlagsExclusive` | rtp/rtcp_compound_packet.cpp:104-170 | The name and the independent flags of a parsed feedback block say the same thing, and only one thing. |
| `RtcpAggregation.CountersPartition` | rtp/rtcp_compound_packet.cpp:132-211 | Counted by name and by flags, the counters partition the blocks, and the feedback counters partition the feedback. |
| `RtcpAggregation.PacketCountersPartition` | rtp/rtcp_compound_packet.cpp:393-515 | The same for the blocks of every accepted packet. |
| `RtcpAggregation.PacketCountersCount` | rtp/rtcp_compound_packet.cpp:393-515 | Each counter of an accepted packet is the number of its blocks of that kind. |
| `RtcpAggregation.ListsGather` | rtp/rtcp_compound_packet.cpp:104-211 | A number is asked for again exactly when some NACK block names it, a FIR entry is listed exactly when some block has it, and the bitrate is the highest any REMB names. |
| `RtcpAggregation.KeyframesListedOnce` | rtp/rtcp_compound_packet.cpp:179-187 | Every media that some block asks a keyframe for is listed once, and nothing else. |
| `RtcpAggregation.ParsePacket` | rtp/rtcp_compound_packet.cpp:393-515 | The compound loop returns all blocks and their totals, or the first error. |
| `Stun.TypeRoundTrip` | ice/stun_message.cpp:105-185 | Every 12-bit method and every class survive the message type field. |
| `Stun.ParsedIff` | ice/stun_message.cpp:806-865 | The parser accepts exactly a whole header followed by complete attributes of the right sizes, and reports the last user name and priority and each flag (controlling, controlled, use-candidate, integrity, fingerprint) exactly when an attribute of that kind is there. |
| `Stun.IntegrityFound` | ice/stun_message.cpp:687-732 | On every message the parser accepts, message integrity was seen exactly when the finder succeeds, at an aligned offset inside the message. |
| `Stun.FingerprintFrom` | ice/stun_message.cpp:633-685 | On an accepted message the fingerprint finder succeeds exactly when the first fingerprint is the last attribute. |
| `StunResponse.CalculateCrc32` | ice/stun_message.cpp:187-209 | The byte and bit loops compute the specified register. |
| `StunResponse.ConstantTimeEqual` | ice/stun_message.cpp:211-226 | Comparing without an early exit decides equality. |
| `StunResponse.AddressRecovered` | ice/stun_message.cpp:491-534 | A client recovers port and address with the same cookie and transaction id, and the value passes the address check. |
| `StunResponse.AppendIntegrity` | ice/stun_message.cpp:536-568 | In the source's order: the digest covers a length field that ends with the integrity attribute. |
| `StunResponse.AppendFingerprint` | ice/stun_message.cpp:570-594 | In the source's order: the checksum covers the final length field. |
| `StunResponse.WriteResponse` | ice/stun_message.cpp:867-924 | Appending and patching in the source's order gives the response both verifiers accept; refused exactly for a message that is no binding request, an empty or unreadable address, port zero or an empty key. |
| `StunResponse.ResponseVerifies` | ice/stun_message.cpp:867-1008 | Every written response parses with the request's transaction id and passes both verifiers under its key, although the length field changed after the digest. |
| `StunResponse.AnswerVerifies` | ice/stun_message.cpp:867-924 | The same for every request, address and port. |
| `StunResponse.RespondsIff` | ice/stun_message.cpp:867-924 | A response is written exactly for a binding request, to a readable address with a port, under a key. |
| `StunResponse.FingerprintIff` | ice/stun_message.cpp:926-955 | The fingerprint verifies exactly when the last attribute holds the checksum of everything before it. |
| `StunResponse.IntegrityIff` | ice/stun_message.cpp:957-1008 | The integrity verifies exactly when the first such attribute holds the digest under the key of everything before it, with the length set as if the message ended there. |
| `StunResponse.ParseMessage` | ice/stun_message.cpp:806-865 | The attribute loop computes the specified result. |
| `StunResponse.VerifyFingerprint` | ice/stun_message.cpp:926-955 | The finder loop and comparison compute the specified verdict. |
| `StunResponse.VerifyIntegrity` | ice/stun_message.cpp:957-1008 | The finder loop, length patch and comparison compute the specified verdict. |
| `UdpPortAllocator.FullIff` | net/udp_port_allocator.cpp:31-36 | As many held ports as the range has means that every port of the range is held, and the other way round. |
| `UdpPortAllocator.LapVisits` | net/udp_port_allocator.cpp:40-66 | One lap from the cursor visits every port of the range. |
| `UdpPortAllocator.Allocator.Acquire` | net/udp_port_allocator.cpp:24-69 | Returns the first free port in cyclic order from the cursor, and none exactly when all are held or the range is invalid; the final return is not reached with a free port. |
| `UdpPortAllocator.Allocator.Release` | net/udp_port_allocator.cpp:71 | Frees exactly that port and keeps held ports inside the range. |

## Left out

- Sockets, timers, HTTP, TLS, DTLS, SRTP and the UDP server: input and output only. Protecting and sending appear as the success flag of `SendHistory.History.Send`, a timer as its pending wait.
- SDP negotiation and the construction of the rewriter's configuration: a negotiated configuration is a precondition (distinct target SSRCs, distinct non-zero target extension ids, payload types below 128, clock rates above zero, a MID of at most 255 bytes).
- HMAC-SHA1 and the parsing of IP text are parameters of the STUN writer and verifiers, so nothing is claimed about them beyond a 20-byte digest and addresses of 4 or 16 bytes.
- Clock resolution: the source counts nanoseconds and converts to microseconds; ages and intervals are compared here in microseconds.
- 64-bit overflow of extended sequence numbers, serials and counters, which are unbounded here; `ReceiveStatistics.UpdateKeepsInv` asks that fewer than 2^62 packets were received.
- Cancelling a retry timer discards its wait: a callback already queued when its request is cancelled and created again is not modelled.
- A publisher-failure callback that closes a session while the router still notifies subscribers: a closing session is a later detach event.
- FanoutRouter.SubscribedKeepsInv: assumes the session left its previous stream first, as the transport does.
- ReceiveStatistics.ExtendedGrowsByStep: says nothing about the step that restarts the sequence after a jump, because the extended number starts anew there.
- `media_runtime_state` and `sequence_number_cache` are values inside the rewriter's list of media, so updating them replaces a list element; aliasing between list elements does not arise in the source.
- Interarrival jitter, the RTCP interval scheduler, media and log summaries, statistics for logs, codec names and result strings: floating point, randomness or text.
- Publishing RTP to every subscriber, the receiver-report handlers and the FIR sequence tracker: easy members that no result above needs.
- `source_ssrc_for_target_ssrc`: a simple search. The table of outbound RTCP senders: which SSRCs are primary outputs is a parameter of `WhepSender.Sender.AnswerNacks`.
- Running totals of the send history other than sent, evicted, hits, misses and the feedback counters: sums of the observations.
- Error messages are enumerations; several messages for one kind of truncation share one case.
