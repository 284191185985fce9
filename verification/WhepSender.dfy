/**
 Where the rewriter, the send history and the retransmission cache meet (`send_rtp` and `send_retransmission` in
 `session/whep_session_transport.cpp`): the transport-wide number is taken from the history, written
 into the packet by the rewriter, and used up when the packet goes out.
 */
module WhepSender {
  import opened Wire
  import HE = HeaderExtensions
  import RP = RtpPacket
  import RM = RewriterMedia
  import RX = RtxEncapsulation
  import RR = RtpRewriter
  import RI = RewriterInvariant
  import WR = WhepRewriter
  import RewriterRuns
  import SH = SendHistory
  import FP = FeedbackPacket
  import RC = RetransmissionCache
  import opened TransportNumbers
  import EN = EmittedNumbers
  import RN = ResentNumbers
  import NR = NackRequests

  // ----- the run of the rewriter behind it -----

  ghost function BytesOf(written: map<nat, RC.Packet>): set<seq<Byte>> {
    set k | k in written :: written[k].bytes
  }

  /** The run leads to the rewriter's state, and everything ever cached came out of it. */
  ghost predicate Traced(run: seq<RewriterRuns.Event>, s: RR.State, hs: seq<RM.History>, written: map<nat, RC.Packet>) {
    RN.Leads(run, s, hs, BytesOf(written))
  }

  lemma LeadsToLess(run: seq<RewriterRuns.Event>, s: RR.State, hs: seq<RM.History>, sent: set<seq<Byte>>, less: set<seq<Byte>>)
    requires RN.Leads(run, s, hs, sent) && less <= sent
    ensures RN.Leads(run, s, hs, less)
  {
  }

  lemma TracedOn(run: seq<RewriterRuns.Event>, s: RR.State, hs: seq<RM.History>, written: map<nat, RC.Packet>, e: RewriterRuns.Event)
    requires Traced(run, s, hs, written) && RewriterRuns.EventOk(e)
    ensures RR.Configured(s.media) && |hs| == |s.media|
    ensures Traced(run + [e], RewriterRuns.Next(s, e).state, RewriterRuns.NextHistories(s, hs, e), written)
    ensures RN.Leads(run + [e], RewriterRuns.Next(s, e).state, RewriterRuns.NextHistories(s, hs, e), BytesOf(written) + RN.PrimaryOf(s, e))
    ensures RN.RepeatsForwarded(run + [e]) <==> RN.RepeatsForwarded(run) && (e.Retransmit? ==> RN.WasForwarded(run, e.packet))
  {
    hide RN.Leads, RN.RepeatsForwarded, RN.WasForwarded, RN.PrimaryOf, RewriterRuns.Next, RewriterRuns.NextHistories, RewriterRuns.EventOk, BytesOf;
    RN.LeadsOn(run, s, hs, BytesOf(written), e);
    LeadsToLess(run + [e], RewriterRuns.Next(s, e).state, RewriterRuns.NextHistories(s, hs, e), BytesOf(written) + RN.PrimaryOf(s, e), BytesOf(written));
  }

  ghost function PrimaryBytes(outcome: RR.Outcome): set<seq<Byte>> {
    if outcome.Emitted? && !outcome.output.rtx then {outcome.output.packet} else {}
  }

  /** Forwarding leads on, with the packet that came out, if it is a primary one. */
  lemma TracedForward(run: seq<RewriterRuns.Event>, s: RR.State, hs: seq<RM.History>, written: map<nat, RC.Packet>, p: seq<Byte>, number: U16)
    requires Traced(run, s, hs, written)
    ensures RR.Configured(s.media) && |hs| == |s.media|
    ensures var n := RR.Forwarded(s, p, number);
            RN.Leads(run + [RewriterRuns.Forward(p, number)], n.state, RI.ForwardedHistories(s, hs, p, number), BytesOf(written) + PrimaryBytes(n.outcome))
    ensures var n := RR.Forwarded(s, p, number);
            Traced(run + [RewriterRuns.Forward(p, number)], n.state, RI.ForwardedHistories(s, hs, p, number), written)
    ensures RN.RepeatsForwarded(run + [RewriterRuns.Forward(p, number)]) <==> RN.RepeatsForwarded(run)
  {
    hide RN.Leads, RN.RepeatsForwarded, RN.WasForwarded, RR.Forwarded, RI.ForwardedHistories, RR.Configured, BytesOf;
    TracedOn(run, s, hs, written, RewriterRuns.Forward(p, number));
  }

  /** What came out may be cached. */
  lemma TracedCached(run: seq<RewriterRuns.Event>, s: RR.State, hs: seq<RM.History>, written: map<nat, RC.Packet>, sent: set<seq<Byte>>, key: nat, c: RC.Packet)
    requires RN.Leads(run, s, hs, BytesOf(written) + sent) && c.bytes in sent
    ensures Traced(run, s, hs, written[key := c])
  {
    hide RN.Leads;
    LeadsToLess(run, s, hs, BytesOf(written) + sent, BytesOf(written[key := c]));
  }

  lemma TracedRetransmit(run: seq<RewriterRuns.Event>, s: RR.State, hs: seq<RM.History>, written: map<nat, RC.Packet>, p: seq<Byte>, number: U16)
    requires Traced(run, s, hs, written)
    ensures RR.Configured(s.media) && |hs| == |s.media|
    ensures var e := RewriterRuns.Retransmit(p, number);
            && Traced(run + [e], RR.Retransmitted(s, p, number).state, RI.RetransmittedHistories(s, hs, p, number), written)
            && (RN.RepeatsForwarded(run + [e]) <==> RN.RepeatsForwarded(run) && RN.WasForwarded(run, p))
  {
    hide RN.Leads, RN.RepeatsForwarded, RN.WasForwarded, RR.Retransmitted, RI.RetransmittedHistories, RR.Configured, BytesOf;
    TracedOn(run, s, hs, written, RewriterRuns.Retransmit(p, number));
  }

  lemma TracedConfigure(run: seq<RewriterRuns.Event>, s: RR.State, hs: seq<RM.History>, written: map<nat, RC.Packet>, c: RR.Config)
    requires Traced(run, s, hs, written) && RI.ConfigOk(c)
    ensures |hs| == |s.media|
    ensures var e := RewriterRuns.Configure(c);
            && Traced(run + [e], RR.Reconfigured(s, c), RI.ReconfiguredHistories(s, hs, c), written)
            && (RN.RepeatsForwarded(run + [e]) <==> RN.RepeatsForwarded(run))
  {
    hide RN.Leads, RN.RepeatsForwarded, RN.WasForwarded, RR.Reconfigured, RI.ReconfiguredHistories, RR.Configured, BytesOf, RI.ConfigOk;
    TracedOn(run, s, hs, written, RewriterRuns.Configure(c));
  }

  lemma TracedClear(run: seq<RewriterRuns.Event>, s: RR.State, hs: seq<RM.History>, written: map<nat, RC.Packet>)
    requires Traced(run, s, hs, written)
    ensures |hs| == |s.media|
    ensures var e := RewriterRuns.ClearSource;
            && Traced(run + [e], RR.Cleared(s), RI.ClearedHistories(hs), written)
            && (RN.RepeatsForwarded(run + [e]) <==> RN.RepeatsForwarded(run))
  {
    hide RN.Leads, RN.RepeatsForwarded, RN.WasForwarded, RR.Cleared, RI.ClearedHistories, RR.Configured, BytesOf;
    TracedOn(run, s, hs, written, RewriterRuns.ClearSource);
  }

  lemma TracedEmpty(run: seq<RewriterRuns.Event>, s: RR.State, hs: seq<RM.History>, written: map<nat, RC.Packet>)
    requires Traced(run, s, hs, written)
    ensures Traced(run, s, hs, map[])
  {
    hide RN.Leads;
    LeadsToLess(run, s, hs, BytesOf(written), BytesOf(map[]));
  }

  lemma CachedWasForwarded(run: seq<RewriterRuns.Event>, s: RR.State, hs: seq<RM.History>, written: map<nat, RC.Packet>, key: nat)
    requires Traced(run, s, hs, written) && key in written
    ensures RN.WasForwarded(run, written[key].bytes)
  {
    hide RN.ForwardedBy, RewriterRuns.After;
  }

  // ----- the sending side as one object -----

  /** A packet that went out under a number, and the id the number stands under. */
  datatype Posted = Posted(packet: seq<Byte>, id: Byte, payloadType: Byte)

  ghost predicate Labelled(p: Posted, number: U16) {
    && (!(64 <= p.payloadType <= 95) ==> RP.ParseRewriteable(p.packet).Ok?)
    && (RP.ParseRewriteable(p.packet).Ok? ==> CarriesUnder(p.packet, p.id, number))
  }

  /** Every number used so far has the packet it went out in. */
  ghost predicate AllLabelled(posted: map<nat, Posted>, next: nat) {
    && (forall e: nat :: e in posted <==> e < next)
    && forall e: nat :: e in posted ==> Labelled(posted[e], e % SH.MODULUS)
  }

  lemma NothingYet()
    ensures AllLabelled(map[], 0) && AllFiled(map[], map[])
    ensures Traced([], RR.FRESH, [], map[]) && RN.RepeatsForwarded([])
  {
    hide RN.Leads, RN.RepeatsForwarded;
    RN.LeadsFresh();
    assert BytesOf(map[]) == {};
  }

  lemma LabelledOneMore(posted: map<nat, Posted>, next: nat, p: Posted)
    requires AllLabelled(posted, next) && Labelled(p, next % SH.MODULUS)
    ensures AllLabelled(posted[next := p], next + 1)
  {
    hide Labelled;
  }

  lemma OutputLabelled(o: RR.Output, id: Byte, number: U16)
    requires NumberWritten(o, id, number)
    ensures o.transportNumber == Some(number) && Labelled(Posted(o.packet, id, o.payloadType), number)
  {
    hide RP.ParseRewriteable, CarriesUnder;
  }

  lemma {:induction false} SameBytesSameNumber(a: U16, b: U16)
    requires U16Bytes(a) == U16Bytes(b)
    ensures a == b
  {
    assert U16Bytes(a)[0] == U16Bytes(b)[0] && U16Bytes(a)[1] == U16Bytes(b)[1];
  }

  /** The rewriter took its forwarding step. */
  ghost predicate ForwardStep(s: RR.State, p: seq<Byte>, next: nat, after: RR.State, outcome: RR.Outcome) {
    && RR.Configured(s.media)
    && var effect := RR.Forwarded(s, p, next % SH.MODULUS);
       after == effect.state && outcome == effect.outcome
  }

  /** The rewriter took its retransmission step. */
  ghost predicate RetransmitStep(s: RR.State, p: seq<Byte>, next: nat, after: RR.State, outcome: RR.Outcome) {
    && RR.Configured(s.media)
    && var effect := RR.Retransmitted(s, p, next % SH.MODULUS);
       after == effect.state && outcome == effect.outcome
  }

  /** The numbers used so far: the next one, the live records, and the packet each went out in. */
  datatype SendLog = SendLog(next: nat, records: seq<SH.Record>, posted: map<nat, Posted>)

  datatype Limits = Limits(maxAge: int, maxPackets: nat, cache: RC.Config)

  /** A number is used up, and recorded, exactly by a packet that carries it and went out. */
  ghost function NextLog(log: SendLog, outcome: RR.Outcome, id: Byte, sent: SH.Sent, delivered: bool, limits: Limits): SendLog {
    if outcome.Emitted? && outcome.output.transportNumber.Some? && delivered then
      SendLog(log.next + 1,
              SH.Retained(log.records + [SH.Record(log.next, sent)], sent.sentAt, limits.maxAge, limits.maxPackets),
              log.posted[log.next := Posted(outcome.output.packet, id, outcome.output.payloadType)])
    else log
  }

  /** Dropped before the rewriter sees it: malformed, without media payload, or with nowhere to go. */
  predicate PassedOn(p: seq<Byte>, ready: bool) {
    ready && RP.InspectLayout(p).Ok? && RP.InspectLayout(p).value.mediaPayloadSize != 0
  }

  /** Generic NACK was negotiated for this payload type of this output. */
  predicate NackEnabled(s: RR.State, targetSsrc: U32, payloadType: Byte) {
    MappingFor(s, targetSsrc).Some? && NackFor(MappingFor(s, targetSsrc).value, payloadType)
  }

  /**
   A packet as it is cached, and the mapping it was sent under: a reader that accepts it sees the key
   it is filed under, and the number that mapping asks for can be written into it.
   */
  ghost predicate Filed(p: RC.Packet, m: RM.Mapping) {
    && p.ssrc == m.targetSsrc && NackFor(m, p.payloadType)
    && (!(64 <= p.payloadType <= 95) ==> RP.ParseRewriteable(p.bytes).Ok?)
    && (RP.ParseRewriteable(p.bytes).Ok? ==>
          && SeenAs(RP.ParseRewriteable(p.bytes).value.header, p.ssrc, p.payloadType, p.sequence)
          && (m.transportCcId != 0 ==> Writable(p.bytes, m.transportCcId)))
  }

  ghost predicate AllFiled(written: map<nat, RC.Packet>, under: map<nat, RM.Mapping>) {
    forall k :: k in written ==> k in under && k == RC.MakeKey(written[k].ssrc, written[k].sequence) && Filed(written[k], under[k])
  }

  lemma FiledOneMore(written: map<nat, RC.Packet>, under: map<nat, RM.Mapping>, p: RC.Packet, m: RM.Mapping, now: int)
    requires AllFiled(written, under) && Filed(p, m)
    ensures var key := RC.MakeKey(p.ssrc, p.sequence); AllFiled(written[key := p.(storedAt := now)], under[key := m])
  {
    hide RP.ParseRewriteable, RC.MakeKey, NackFor, Writable;
  }

  lemma FiledAt(written: map<nat, RC.Packet>, under: map<nat, RM.Mapping>, key: nat)
    requires AllFiled(written, under) && key in written
    ensures key in under && key == RC.MakeKey(written[key].ssrc, written[key].sequence) && Filed(written[key], under[key])
  {
    hide Filed, RC.MakeKey;
  }

  /** While the mapping of its output has not changed, a cached packet goes out again exactly when it reads as RTP. */
  lemma FiledIsRepairable(s: RR.State, p: RC.Packet, m: RM.Mapping)
    requires Filed(p, m) && MappingFor(s, p.ssrc) == Some(m)
    ensures Repairable(s, p.bytes) <==> RP.ParseRewriteable(p.bytes).Ok?
    ensures !(64 <= p.payloadType <= 95) ==> Repairable(s, p.bytes)
  {
    hide RP.ParseRewriteable, NackFor, Writable, MappingFor;
  }

  /** What is forwarded as a primary packet can be filed under the mapping of its output. */
  lemma ForwardedIsFiled(s: RR.State, hs: seq<RM.History>, p: seq<Byte>, number: U16, payloadSize: nat, generation: nat, now: int)
    requires RI.Inv(s, hs) && RR.Configured(s.media) && RR.Forwarded(s, p, number).outcome.Emitted?
    ensures var o, after := RR.Forwarded(s, p, number).outcome.output, RR.Forwarded(s, p, number).state;
            && o.packet != [] && o.targetSsrc != 0
            && (!o.rtx && NackEnabled(after, o.targetSsrc, o.payloadType) ==>
                  Filed(ToCache(o, payloadSize, generation, now), MappingFor(after, o.targetSsrc).value))
  {
    hide RI.Inv, RR.Forwarded, RR.Configured, NackFor, Filed, MappingFor, SeenInOutput;
    ForwardedIsSeen(s, hs, p, number);
    var o := RR.Forwarded(s, p, number).outcome.output;
    if !o.rtx {
      FiledWhen(MappingFor(s, o.targetSsrc).value, o, payloadSize, generation, now);
    }
  }

  lemma FiledWhen(m: RM.Mapping, o: RR.Output, payloadSize: nat, generation: nat, now: int)
    requires SeenInOutput(o, m.transportCcId)
    ensures o.targetSsrc == m.targetSsrc && NackFor(m, o.payloadType) ==> Filed(ToCache(o, payloadSize, generation, now), m)
  {
    hide RP.ParseRewriteable, NackFor, Writable;
  }

  /** The packet as the cache stores it. */
  function ToCache(o: RR.Output, payloadSize: nat, generation: nat, now: int): RC.Packet {
    RC.Packet(o.packet, o.targetSsrc, o.payloadType, o.sequence, o.timestamp, payloadSize, generation, now)
  }

  /** The cache, what was written to it and when it was asked, and the mapping each packet was sent under. */
  datatype Store = Store(items: seq<RC.Item>, past: RC.Past, under: map<nat, RM.Mapping>)

  predicate Cacheable(s: RR.State, o: RR.Output) {
    !o.rtx && o.packet != [] && o.targetSsrc != 0 && NackEnabled(s, o.targetSsrc, o.payloadType)
  }

  /** A primary packet with NACK is the latest write; nothing else touches the cache. */
  ghost function Stored(store: Store, s: RR.State, o: RR.Output, payloadSize: nat, generation: nat, now: int, c: RC.Config): Store {
    if !Cacheable(s, o) then store
    else
      var packet, key := ToCache(o, payloadSize, generation, now), RC.MakeKey(o.targetSsrc, o.sequence);
      Store(RC.Written(store.items, packet, now, c),
            RC.Past(now, store.past.written[key := packet], store.past.lastHit - {key}),
            store.under[key := MappingFor(s, o.targetSsrc).value])
  }

  /** Only what went out is stored. */
  ghost function NextStore(store: Store, s: RR.State, outcome: RR.Outcome, payloadSize: nat, generation: nat, now: int, delivered: bool, c: RC.Config): Store {
    if outcome.Emitted? && delivered then Stored(store, s, outcome.output, payloadSize, generation, now, c) else store
  }

  /** A request prunes the cache and, on a hit, leaves its time. */
  ghost function Asked(store: Store, key: nat, now: int, c: RC.Config): Store {
    var kept := RC.Kept(store.items, now, c);
    Store(RC.Answered(kept, key, now, c),
          RC.Past(now, store.past.written, if RC.Answer(kept, key, now, c).Hit? then store.past.lastHit[key := now] else store.past.lastHit),
          store.under)
  }

  function MediaPayloadSize(p: seq<Byte>): nat {
    if RP.InspectLayout(p).Ok? then RP.InspectLayout(p).value.mediaPayloadSize else 0
  }

  /**
   The receiver of the output gets the sent packet with the fresh number: encapsulated under the RTX
   payload type that repairs its codec, when the output has one, and otherwise as it stands.
   */
  ghost predicate Restores(s: RR.State, p: seq<Byte>, o: RR.Output, number: U16) {
    RP.ParseRewriteable(p).Ok? &&
    var q := RP.ParseRewriteable(p).value;
    var i := RR.MediaFor(s.media, q.header.ssrc);
    i < |s.media| && RewriterRuns.Repairs(s.media[i].mapping, q.header.payloadType, o.rtx, o.payloadType) &&
    |o.packet| >= RP.FIXED_HEADER &&
    RP.HeaderOf(o.packet) == q.header.(payloadType := o.payloadType, sequence := o.sequence, ssrc := o.targetSsrc) &&
    var sent := RR.Numbered(p, s.media[i].mapping.transportCcId, number);
    && sent.Ok?
    && if o.rtx then |o.packet| == |p| + 2 && RX.Decapsulated(o.packet, q.payloadOffset, q.header.payloadType, q.header.ssrc) == sent.value
       else o.packet == sent.value
  }

  lemma RetransmissionIsRestored(s: RR.State, p: seq<Byte>, number: U16)
    requires RR.Configured(s.media) && RR.Retransmitted(s, p, number).outcome.Emitted?
    ensures Restores(s, p, RR.Retransmitted(s, p, number).outcome.output, number)
  {
    hide RP.ParseRewriteable, RP.InspectLayout, RR.Retransmitted, RR.Numbered, RX.Decapsulated, RP.HeaderOf, RewriterRuns.Repairs;
    RewriterRuns.RetransmissionRestores(s, p, number);
    RetransmittedHeader(s, p, number);
  }

  /**
   A request for `(ssrc, sequence)` was answered with `packet`, the one last filed under them. It went
   out again exactly when it is repairable, which it is, as long as its output's mapping stays and its
   payload type does not make it read as RTCP; and what came out restores it.
   */
  ghost predicate AnsweredRight(s: RR.State, store: Store, next: nat, ssrc: U32, sequence: U16, packet: RC.Packet, outcome: RR.Outcome) {
    && RC.MakeKey(ssrc, sequence) in store.past.written && packet == store.past.written[RC.MakeKey(ssrc, sequence)]
    && RC.MakeKey(ssrc, sequence) in store.under
    && packet.ssrc == ssrc && packet.sequence == sequence && Filed(packet, store.under[RC.MakeKey(ssrc, sequence)])
    && RR.Configured(s.media) && outcome == RR.Retransmitted(s, packet.bytes, next % SH.MODULUS).outcome
    && (outcome.Emitted? <==> Repairable(s, packet.bytes))
    && (MappingFor(s, ssrc) == Some(store.under[RC.MakeKey(ssrc, sequence)]) ==>
          && (outcome.Emitted? <==> RP.ParseRewriteable(packet.bytes).Ok?)
          && (!(64 <= packet.payloadType <= 95) ==> outcome.Emitted?))
    && (outcome.Emitted? ==> Restores(s, packet.bytes, outcome.output, next % SH.MODULUS))
  }

  // ----- the whole state of the sending side, and its steps -----

  datatype Sending = Sending(rewriter: RR.State, log: SendLog, store: Store, run: seq<RewriterRuns.Event>)

  /**
   A packet was forwarded, or passed over with nothing changed. The rewriter took its step, a number
   was used up exactly by an emitted packet that carries it and went out, and the cache was written
   exactly by a primary packet with NACK that went out.
   */
  ghost predicate RtpSent(b: Sending, a: Sending, p: seq<Byte>, size: nat, generation: nat, now: int, ready: bool, delivered: bool,
                          outcome: Option<RR.Outcome>, limits: Limits)
  {
    && (outcome.None? <==> !PassedOn(p, ready))
    && (outcome.None? ==> a == b)
    && (outcome.Some? ==>
          && ForwardStep(b.rewriter, p, b.log.next, a.rewriter, outcome.value)
          && a.log == NextLog(b.log, outcome.value, ForwardId(b.rewriter, p), SH.Sent(size, IsRtx(outcome.value), now), delivered, limits)
          && a.store == NextStore(b.store, a.rewriter, outcome.value, MediaPayloadSize(p), generation, now, delivered, limits.cache)
          && a.run == b.run + [RewriterRuns.Forward(p, b.log.next % SH.MODULUS)])
    && (RN.RepeatsForwarded(a.run) <==> RN.RepeatsForwarded(b.run))
  }

  predicate IsRtx(outcome: RR.Outcome) {
    outcome.Emitted? && outcome.output.rtx
  }

  /** The packet came out of the rewriter and went out on the network. */
  predicate WentOut(outcome: Option<RR.Outcome>, delivered: bool) {
    outcome.Some? && outcome.value.Emitted? && delivered
  }

  /**
   What a forwarding leaves behind. Only what went out counts: it is the newest record under the number
   it carries, it is the packet filed under that number, and as a primary packet with NACK it is the
   newest entry of the cache, if it fits there at all.
   */
  lemma ForwardingLeaves(b: Sending, a: Sending, p: seq<Byte>, size: nat, generation: nat, now: int, ready: bool, delivered: bool,
                         outcome: Option<RR.Outcome>, limits: Limits)
    requires RtpSent(b, a, p, size, generation, now, ready, delivered, outcome, limits)
    ensures !WentOut(outcome, delivered) ==> a.log == b.log && a.store == b.store
    ensures outcome.Some? <==> ready && RP.InspectLayout(p).Ok? && RP.InspectLayout(p).value.mediaPayloadSize != 0
    ensures WentOut(outcome, delivered) ==>
              var o := outcome.value.output;
              && (o.transportNumber.None? ==> a.log == b.log)
              && (o.transportNumber.Some? ==>
                    && a.log.next == b.log.next + 1 && b.log.next in a.log.posted && a.log.posted[b.log.next].packet == o.packet
                    && (limits.maxAge >= 0 && limits.maxPackets > 0 ==>
                          a.log.records != [] && a.log.records[|a.log.records| - 1] == SH.Record(b.log.next, SH.Sent(size, o.rtx, now))))
              && (o.rtx || !NackEnabled(a.rewriter, o.targetSsrc, o.payloadType) ==> a.store == b.store)
              && (!o.rtx && NackEnabled(a.rewriter, o.targetSsrc, o.payloadType) && o.packet != [] && o.targetSsrc != 0
                  && limits.cache.maxAge >= 0 && limits.cache.maxPackets > 0 ==>
                    var items, key := a.store.items, RC.MakeKey(o.targetSsrc, o.sequence);
                    if |o.packet| <= limits.cache.maxBytes then
                      && items != [] && items[|items| - 1].key == key
                      && items[|items| - 1].packet == RC.Packet(o.packet, o.targetSsrc, o.payloadType, o.sequence, o.timestamp, MediaPayloadSize(p), generation, now)
                    else items == [])
  {
    hide ForwardStep, NackEnabled, RC.MakeKey, RC.Written, ForwardId, SH.AgedCount, RN.RepeatsForwarded, RP.InspectLayout;
    if WentOut(outcome, delivered) {
      var o := outcome.value.output;
      if o.transportNumber.Some? {
        NewestRecord(b.log.records, SH.Record(b.log.next, SH.Sent(size, o.rtx, now)), limits.maxAge, limits.maxPackets);
      }
      if o.packet != [] && o.targetSsrc != 0 && limits.cache.maxAge >= 0 && limits.cache.maxPackets > 0 {
        RC.NewestSurvives(b.store.items, ToCache(o, MediaPayloadSize(p), generation, now), now, limits.cache);
      }
    }
  }

  lemma NewestRecord(records: seq<SH.Record>, newest: SH.Record, maxAge: int, maxPackets: nat)
    ensures var r := SH.Retained(records + [newest], newest.packet.sentAt, maxAge, maxPackets);
            maxAge >= 0 && maxPackets > 0 ==> r != [] && r[|r| - 1] == newest
  {
    hide SH.AgedCount;
    var all := records + [newest];
    assert all[|all| - 1] == newest;
  }

  /** A packet was sent again: the rewriter took its step and a number was used up in the same way; the cache stays. */
  ghost predicate Resent(b: Sending, a: Sending, p: seq<Byte>, size: nat, now: int, delivered: bool, outcome: RR.Outcome, limits: Limits) {
    && RetransmitStep(b.rewriter, p, b.log.next, a.rewriter, outcome)
    && a.log == NextLog(b.log, outcome, RetransmitId(b.rewriter, p), SH.Sent(size, true, now), delivered, limits)
    && a.store == b.store
    && a.run == b.run + [RewriterRuns.Retransmit(p, b.log.next % SH.MODULUS)]
    && (RN.RepeatsForwarded(a.run) <==> RN.RepeatsForwarded(b.run) && RN.WasForwarded(b.run, p))
  }

  /**
   A requested number was answered. The cache says what with, and is left pruned and, on a hit, marked;
   a hit is answered right and sent again; without a hit nothing but the cache changes.
   */
  ghost predicate NackAnswered(b: Sending, a: Sending, ssrc: U32, sequence: U16, size: nat, now: int, delivered: bool, found: RC.Lookup,
                               outcome: Option<RR.Outcome>, limits: Limits)
  {
    var key := RC.MakeKey(ssrc, sequence);
    && found == RC.Answer(RC.Kept(b.store.items, now, limits.cache), key, now, limits.cache)
    && (found.Miss? <==> !RC.Present(b.store.items, key, now, limits.cache))
    && (outcome.Some? <==> found.Hit?)
    && a.store == Asked(b.store, key, now, limits.cache)
    && (found.Hit? ==>
          && AnsweredRight(b.rewriter, b.store, b.log.next, ssrc, sequence, found.packet, outcome.value)
          && Resent(b.(store := a.store), a, found.packet.bytes, size, now, delivered, outcome.value, limits))
    && (!found.Hit? ==> a == b.(store := a.store))
    && (RN.RepeatsForwarded(b.run) ==> RN.RepeatsForwarded(a.run))
  }

  // ----- all requests of one RTCP packet -----

  /** The cache after the requests: pruned and marked, if anything was looked up. */
  ghost function BatchStore(store: Store, requests: seq<NR.Request>, outputs: set<U32>, now: int, c: RC.Config): Store {
    if !NR.AnyAsked(requests, outputs) then store
    else
      var kept := RC.Kept(store.items, now, c);
      var keys := NR.Gathered(kept, requests, outputs, now, c).keys;
      Store(NR.Marked(kept, keys, now), RC.Past(now, store.past.written, NR.HitAt(store.past.lastHit, keys, now)), store.under)
  }

  /** The packets were sent again one after the other, through these states. */
  ghost predicate AllResent(b: Sending, a: Sending, packets: seq<RC.Packet>, sizes: seq<nat>, now: int, delivered: seq<bool>, outcomes: seq<RR.Outcome>,
                            states: seq<Sending>, limits: Limits)
  {
    && |states| == |packets| + 1 && |outcomes| == |packets| && |packets| <= |sizes| && |packets| <= |delivered|
    && states[0] == b && states[|packets|] == a
    && forall i :: 0 <= i < |packets| ==> Resent(states[i], states[i + 1], packets[i].bytes, sizes[i], now, delivered[i], outcomes[i], limits)
  }

  lemma OneMoreResent(b: Sending, a: Sending, packets: seq<RC.Packet>, sizes: seq<nat>, now: int, delivered: seq<bool>, outcomes: seq<RR.Outcome>,
                      states: seq<Sending>, limits: Limits, i: nat, outcome: RR.Outcome, next: Sending)
    requires i < |packets| && i < |sizes| && i < |delivered| && AllResent(b, a, packets[..i], sizes, now, delivered, outcomes, states, limits)
    requires Resent(a, next, packets[i].bytes, sizes[i], now, delivered[i], outcome, limits)
    ensures AllResent(b, next, packets[..i + 1], sizes, now, delivered, outcomes + [outcome], states + [next], limits)
  {
    hide Resent;
    var p, o, t := packets[..i + 1], outcomes + [outcome], states + [next];
    forall k | 0 <= k < |p|
      ensures Resent(t[k], t[k + 1], p[k].bytes, sizes[k], now, delivered[k], o[k], limits)
    {
      if k < i {
        assert p[k] == packets[..i][k];
      }
    }
  }

  lemma NoneResent(b: Sending, packets: seq<RC.Packet>, sizes: seq<nat>, now: int, delivered: seq<bool>, limits: Limits)
    ensures AllResent(b, b, packets[..0], sizes, now, delivered, [], [b], limits)
  {
  }

  lemma ResentStore(b: Sending, a: Sending, p: seq<Byte>, size: nat, now: int, delivered: bool, outcome: RR.Outcome, limits: Limits)
    requires Resent(b, a, p, size, now, delivered, outcome, limits)
    ensures a.store == b.store && (RN.RepeatsForwarded(a.run) <==> RN.RepeatsForwarded(b.run) && RN.WasForwarded(b.run, p))
  {
    hide RN.RepeatsForwarded, RN.WasForwarded, RetransmitStep, NextLog;
  }

  lemma ResentOutcome(b: Sending, a: Sending, p: seq<Byte>, size: nat, now: int, delivered: bool, outcome: RR.Outcome, limits: Limits)
    requires Resent(b, a, p, size, now, delivered, outcome, limits)
    ensures RR.Configured(b.rewriter.media) && outcome == RR.Retransmitted(b.rewriter, p, b.log.next % SH.MODULUS).outcome
  {
    hide RN.RepeatsForwarded, RN.WasForwarded, NextLog, RR.Retransmitted, RR.Configured;
  }

  lemma BatchStored(store: Store, requests: seq<NR.Request>, outputs: set<U32>, now: int, c: RC.Config)
    ensures var kept := RC.Kept(store.items, now, c);
            var keys := NR.Gathered(kept, requests, outputs, now, c).keys;
            BatchStore(store, requests, outputs, now, c) ==
            Store(if NR.AnyAsked(requests, outputs) then NR.Marked(kept, keys, now) else store.items,
                  RC.Past(if NR.AnyAsked(requests, outputs) then now else store.past.clock, store.past.written, NR.HitAt(store.past.lastHit, keys, now)),
                  store.under)
  {
    hide RC.Kept, NR.Gathered, NR.Marked, NR.AnyAsked;
    var kept := RC.Kept(store.items, now, c);
    NR.PacketsWereAsked(kept, requests, outputs, now, c);
  }

  lemma RetransmissionKeepsMappings(s: RR.State, p: seq<Byte>, number: U16)
    requires RR.Configured(s.media)
    ensures forall ssrc :: MappingFor(RR.Retransmitted(s, p, number).state, ssrc) == MappingFor(s, ssrc)
  {
    hide RR.Retransmitted, RI.RetransmittedHistories;
    var hs := seq(|s.media|, i => RM.START);
    RewriterRuns.RetransmitShape(s, hs, p, number);
    forall ssrc: U32
      ensures MappingFor(RR.Retransmitted(s, p, number).state, ssrc) == MappingFor(s, ssrc)
    {
      SameMappings(s.media, RR.Retransmitted(s, p, number).state.media, ssrc);
    }
  }

  lemma SameMappings(a: seq<RM.Media>, b: seq<RM.Media>, ssrc: U32)
    requires |a| == |b| && forall k :: 0 <= k < |a| ==> a[k].mapping == b[k].mapping
    ensures RR.MediaFor(a, ssrc) == RR.MediaFor(b, ssrc)
  {
  }

  lemma ResentKeepsMappings(b: Sending, a: Sending, p: seq<Byte>, size: nat, now: int, delivered: bool, outcome: RR.Outcome, limits: Limits)
    requires Resent(b, a, p, size, now, delivered, outcome, limits)
    ensures forall ssrc :: MappingFor(a.rewriter, ssrc) == MappingFor(b.rewriter, ssrc)
    ensures outcome.Emitted? <==> Repairable(b.rewriter, p)
    ensures outcome.Emitted? ==> Restores(b.rewriter, p, outcome.output, b.log.next % SH.MODULUS)
  {
    hide MappingFor, RR.Configured, RR.Retransmitted, Restores, Repairable, NextLog, RetransmitId, RN.RepeatsForwarded, RN.WasForwarded;
    var number := b.log.next % SH.MODULUS;
    RetransmissionKeepsMappings(b.rewriter, p, number);
    RetransmittedIff(b.rewriter, p, number);
    if outcome.Emitted? {
      RetransmissionIsRestored(b.rewriter, p, number);
    }
  }

  lemma SameRepairable(a: RR.State, b: RR.State, p: seq<Byte>)
    requires forall ssrc :: MappingFor(a, ssrc) == MappingFor(b, ssrc)
    ensures Repairable(a, p) <==> Repairable(b, p)
  {
    hide MappingFor, NackFor, Writable, RP.ParseRewriteable;
  }

  lemma {:induction false} MappingsAlong(b: Sending, a: Sending, packets: seq<RC.Packet>, sizes: seq<nat>, now: int, delivered: seq<bool>,
                                         outcomes: seq<RR.Outcome>, states: seq<Sending>, limits: Limits, i: nat)
    requires AllResent(b, a, packets, sizes, now, delivered, outcomes, states, limits) && i <= |packets|
    ensures forall ssrc :: MappingFor(states[i].rewriter, ssrc) == MappingFor(b.rewriter, ssrc)
  {
    hide MappingFor, Resent;
    if i > 0 {
      MappingsAlong(b, a, packets, sizes, now, delivered, outcomes, states, limits, i - 1);
      assert states[i - 1 + 1] == states[i];
      ResentKeepsMappings(states[i - 1], states[i], packets[i - 1].bytes, sizes[i - 1], now, delivered[i - 1], outcomes[i - 1], limits);
    }
  }

  /**
   Of the packets looked up for one RTCP packet, those come out that are repairable as the rewriter stood
   before the first of them, and each that comes out restores the cached packet under its own number.
   */
  lemma BatchComesOut(b: Sending, a: Sending, packets: seq<RC.Packet>, sizes: seq<nat>, now: int, delivered: seq<bool>, outcomes: seq<RR.Outcome>,
                      states: seq<Sending>, limits: Limits, i: nat)
    requires AllResent(b, a, packets, sizes, now, delivered, outcomes, states, limits) && i < |packets|
    ensures outcomes[i].Emitted? <==> Repairable(b.rewriter, packets[i].bytes)
    ensures outcomes[i].Emitted? ==> Restores(states[i].rewriter, packets[i].bytes, outcomes[i].output, states[i].log.next % SH.MODULUS)
  {
    hide MappingFor, Resent, Repairable, Restores;
    MappingsAlong(b, a, packets, sizes, now, delivered, outcomes, states, limits, i);
    ResentKeepsMappings(states[i], states[i + 1], packets[i].bytes, sizes[i], now, delivered[i], outcomes[i], limits);
    SameRepairable(states[i].rewriter, b.rewriter, packets[i].bytes);
  }

  lemma NothingSent(log: SendLog, store: Store, s: RR.State, outcome: RR.Outcome, id: Byte, sent: SH.Sent, payloadSize: nat, generation: nat, now: int,
                    delivered: bool, limits: Limits)
    ensures !outcome.Emitted? ==>
              NextLog(log, outcome, id, sent, delivered, limits) == log
              && NextStore(store, s, outcome, payloadSize, generation, now, delivered, limits.cache) == store
  {
  }

  lemma TracedCacheable(run: seq<RewriterRuns.Event>, s: RR.State, hs: seq<RM.History>, written: map<nat, RC.Packet>, outcome: RR.Outcome,
                        payloadSize: nat, generation: nat, now: int)
    requires RN.Leads(run, s, hs, BytesOf(written) + PrimaryBytes(outcome)) && outcome.Emitted?
    ensures var o := outcome.output;
            Cacheable(s, o) ==> Traced(run, s, hs, written[RC.MakeKey(o.targetSsrc, o.sequence) := ToCache(o, payloadSize, generation, now)])
  {
    hide RN.Leads, Traced, BytesOf, NackEnabled, RC.MakeKey;
    var o := outcome.output;
    if Cacheable(s, o) {
      TracedCached(run, s, hs, written, PrimaryBytes(outcome), RC.MakeKey(o.targetSsrc, o.sequence), ToCache(o, payloadSize, generation, now));
    }
  }

  lemma AskedIs(store: Store, key: nat, now: int, c: RC.Config)
    ensures var kept := RC.Kept(store.items, now, c);
            Asked(store, key, now, c) ==
            Store(RC.Answered(kept, key, now, c),
                  RC.Past(now, store.past.written, if RC.Answer(kept, key, now, c).Hit? then store.past.lastHit[key := now] else store.past.lastHit),
                  store.under)
  {
  }

  lemma AnsweredWhen(b: Sending, a: Sending, ssrc: U32, sequence: U16, size: nat, now: int, delivered: bool, found: RC.Lookup, outcome: Option<RR.Outcome>,
                     limits: Limits)
    requires var key := RC.MakeKey(ssrc, sequence);
             && found == RC.Answer(RC.Kept(b.store.items, now, limits.cache), key, now, limits.cache)
             && (found.Miss? <==> !RC.Present(b.store.items, key, now, limits.cache))
             && (outcome.Some? <==> found.Hit?)
             && a.store == Asked(b.store, key, now, limits.cache)
    requires found.Hit? ==>
               && AnsweredRight(b.rewriter, b.store, b.log.next, ssrc, sequence, found.packet, outcome.value)
               && Resent(b.(store := a.store), a, found.packet.bytes, size, now, delivered, outcome.value, limits)
    requires !found.Hit? ==> a == b.(store := a.store)
    requires RN.RepeatsForwarded(b.run) ==> RN.RepeatsForwarded(a.run)
    ensures NackAnswered(b, a, ssrc, sequence, size, now, delivered, found, outcome, limits)
  {
    hide RC.MakeKey, RC.Answer, RC.Kept, RC.Present, AnsweredRight, Resent, Asked, RN.RepeatsForwarded;
  }

  lemma CacheableIff(s: RR.State, o: RR.Output)
    requires o.packet != [] && o.targetSsrc != 0
    ensures Cacheable(s, o) <==> !o.rtx && NackEnabled(s, o.targetSsrc, o.payloadType)
  {
    hide NackEnabled;
  }

  lemma HitIsRight(s: RR.State, store: Store, next: nat, ssrc: U32, sequence: U16, packet: RC.Packet)
    requires RR.Configured(s.media) && AllFiled(store.past.written, store.under)
    requires RC.MakeKey(ssrc, sequence) in store.past.written && packet == store.past.written[RC.MakeKey(ssrc, sequence)]
    ensures AnsweredRight(s, store, next, ssrc, sequence, packet, RR.Retransmitted(s, packet.bytes, next % SH.MODULUS).outcome)
  {
    hide RC.MakeKey, Filed, Repairable, MappingFor, RP.ParseRewriteable, RR.Retransmitted, Restores, AllFiled, RR.Configured;
    var key, number := RC.MakeKey(ssrc, sequence), next % SH.MODULUS;
    FiledAt(store.past.written, store.under, key);
    RC.KeysAreDistinct(packet.ssrc, packet.sequence, ssrc, sequence);
    RetransmittedIff(s, packet.bytes, number);
    if MappingFor(s, ssrc) == Some(store.under[key]) {
      FiledIsRepairable(s, packet, store.under[key]);
    }
    if RR.Retransmitted(s, packet.bytes, number).outcome.Emitted? {
      RetransmissionIsRestored(s, packet.bytes, number);
    }
  }

  class Sender {
    const rewriter: WR.Rewriter
    const history: SH.History
    const cache: RC.Cache
    ghost var posted: map<nat, Posted>
    ghost var under: map<nat, RM.Mapping>
    ghost var run: seq<RewriterRuns.Event>

    ghost function Log(): SendLog
      reads this, history
    {
      SendLog(history.next, history.records, posted)
    }

    ghost function Cached(): Store
      reads this, cache
    {
      Store(cache.Items(), cache.past, under)
    }

    ghost function State(): Sending
      reads this, rewriter, history, cache
    {
      Sending(rewriter.Model(), Log(), Cached(), run)
    }

    ghost function Bounds(): Limits
      reads history, cache
    {
      Limits(history.maxAge, history.maxPackets, cache.config)
    }

    /** What feedback has said so far. */
    ghost function Heard(): (SH.FeedbackCounts, nat, nat, nat)
      reads history
    {
      (history.Counts(), history.feedbackStatuses, history.hits, history.misses)
    }

    ghost predicate Valid()
      reads this, rewriter, history, cache
    {
      && rewriter.Valid() && history.Valid() && AllLabelled(posted, history.next) && cache.Valid() && AllFiled(cache.past.written, under)
      && Traced(run, rewriter.Model(), rewriter.histories, cache.past.written)
    }

    constructor (maxAge: int, maxPackets: nat, c: RC.Config, ghost now: int)
      ensures Valid() && fresh(rewriter) && fresh(history) && fresh(cache) && Log() == SendLog(0, [], map[])
      ensures run == [] && RN.RepeatsForwarded(run)
      ensures rewriter.Model() == RR.FRESH && history.maxAge == maxAge && history.maxPackets == maxPackets
      ensures cache.entries == map[] && cache.past == RC.Past(now, map[], map[]) && cache.config == RC.Normalised(c)
    {
      hide RI.Inv, RC.Inv, SH.Contiguous, AllLabelled, AllFiled, RC.Normalised;
      rewriter := new WR.Rewriter();
      history := new SH.History(maxAge, maxPackets);
      cache := new RC.Cache(c, now);
      posted, under, run := map[], map[], [];
      NothingYet();
    }

    /** A packet that carries its number and went out uses it up. */
    method UseNumber(o: RR.Output, ghost id: Byte, packet: SH.Sent, delivered: bool)
      requires history.Valid() && AllLabelled(posted, history.next)
      requires o.transportNumber.Some? ==> NumberWritten(o, id, history.next % SH.MODULUS)
      modifies this`posted, history
      ensures history.Valid() && AllLabelled(posted, history.next) && Heard() == old(Heard())
      ensures Log() == NextLog(old(Log()), RR.Emitted(o), id, packet, delivered, Bounds())
    {
      hide NumberWritten, AllLabelled, Labelled, SH.Contiguous, SH.Retained, SH.Find;
      var carries := o.transportNumber.Some?;
      if carries && delivered {
        OutputLabelled(o, id, history.next % SH.MODULUS);
        LabelledOneMore(posted, history.next, Posted(o.packet, id, o.payloadType));
        posted := posted[history.next := Posted(o.packet, id, o.payloadType)];
      }
      var number := history.Send(packet, carries, delivered);
    }

    /** A forwarded primary packet is kept for retransmission when its receiver may ask for it. */
    method CacheRewritten(o: RR.Output, payloadSize: nat, generation: nat, now: int)
      requires cache.Valid() && AllFiled(cache.past.written, under) && cache.past.clock <= now
      requires Cacheable(rewriter.Model(), o) ==> Filed(ToCache(o, payloadSize, generation, now), MappingFor(rewriter.Model(), o.targetSsrc).value)
      requires Traced(run, rewriter.Model(), rewriter.histories, cache.past.written)
      requires Cacheable(rewriter.Model(), o) ==>
                 Traced(run, rewriter.Model(), rewriter.histories,
                        cache.past.written[RC.MakeKey(o.targetSsrc, o.sequence) := ToCache(o, payloadSize, generation, now)])
      modifies this`under, cache
      ensures cache.Valid() && AllFiled(cache.past.written, under) && Traced(run, rewriter.Model(), rewriter.histories, cache.past.written)
      ensures Cached() == Stored(old(Cached()), old(rewriter.Model()), o, payloadSize, generation, now, cache.config)
    {
      hide Filed, RC.Inv, RC.Written, RC.ItemsOf, RC.Live, AllFiled, RC.Normalised, RC.MakeKey, RC.Young, NackFor, MappingFor, Traced;
      if o.rtx || o.packet == [] || !NackEnabled(rewriter.Model(), o.targetSsrc, o.payloadType) {
        return;
      }
      if Cacheable(rewriter.Model(), o) {
        ghost var m := MappingFor(rewriter.Model(), o.targetSsrc).value;
        FiledOneMore(cache.past.written, under, ToCache(o, payloadSize, generation, now), m, now);
        under := under[RC.MakeKey(o.targetSsrc, o.sequence) := m];
      }
      cache.Remember(ToCache(o, payloadSize, generation, now), now);
    }

    /** Forwards one packet; `delivered` is what protecting and sending it came to. */
    method SendRtp(p: seq<Byte>, size: nat, generation: nat, now: int, ready: bool, delivered: bool) returns (outcome: Option<RR.Outcome>)
      requires Valid() && cache.past.clock <= now
      modifies this, rewriter, history, cache
      ensures Valid() && Heard() == old(Heard())
      ensures RtpSent(old(State()), State(), p, size, generation, now, ready, delivered, outcome, Bounds())
    {
      hide RI.Inv, RR.Forwarded, RI.ForwardedHistories, NumberWritten, SH.Find, SH.Contiguous, RP.InspectLayout, ForwardId, AllLabelled, Labelled, SH.Retained, RN.Leads,
           RC.Inv, RC.Written, RC.ItemsOf, RC.Live, AllFiled, NackEnabled, RC.Normalised, Cacheable, NextStore, NextLog, PrimaryBytes, Filed, ToCache, Traced, RN.RepeatsForwarded, RC.MakeKey, MappingFor;
      outcome := None;
      if !ready {
        return;
      }
      var layout := RP.InspectLayout(p);
      if layout.Err? || layout.value.mediaPayloadSize == 0 {
        return;
      }
      RI.InvShape(rewriter.Model(), rewriter.histories);
      var number := history.NextSequenceNumber();
      ghost var before, past, id := rewriter.Model(), rewriter.histories, ForwardId(rewriter.Model(), p);
      TracedForward(run, before, past, cache.past.written, p, number);
      var result := rewriter.Rewrite(p, number);
      run := run + [RewriterRuns.Forward(p, number)];
      outcome := Some(result);
      NothingSent(Log(), Cached(), rewriter.Model(), result, id, SH.Sent(size, false, now), layout.value.mediaPayloadSize, generation, now, delivered, Bounds());
      if result.Emitted? {
        if result.output.transportNumber.Some? {
          ForwardedCarriesNumber(before, past, p, number);
        }
        ForwardedIsFiled(before, past, p, number, layout.value.mediaPayloadSize, generation, now);
        CacheableIff(rewriter.Model(), result.output);
        TracedCacheable(run, rewriter.Model(), rewriter.histories, cache.past.written, result, layout.value.mediaPayloadSize, generation, now);
        SendRewritten(result.output, id, size, layout.value.mediaPayloadSize, generation, now, delivered);
      }
    }

    /** What happens to a rewritten packet once it was protected and sent, or was not. */
    method SendRewritten(o: RR.Output, ghost id: Byte, size: nat, payloadSize: nat, generation: nat, now: int, delivered: bool)
      requires Valid() && cache.past.clock <= now
      requires o.transportNumber.Some? ==> NumberWritten(o, id, history.next % SH.MODULUS)
      requires Cacheable(rewriter.Model(), o) ==>
                 && Filed(ToCache(o, payloadSize, generation, now), MappingFor(rewriter.Model(), o.targetSsrc).value)
                 && Traced(run, rewriter.Model(), rewriter.histories,
                           cache.past.written[RC.MakeKey(o.targetSsrc, o.sequence) := ToCache(o, payloadSize, generation, now)])
      modifies this`posted, this`under, history, cache
      ensures Valid() && Heard() == old(Heard())
      ensures Log() == NextLog(old(Log()), RR.Emitted(o), id, SH.Sent(size, o.rtx, now), delivered, Bounds())
      ensures Cached() == NextStore(old(Cached()), old(rewriter.Model()), RR.Emitted(o), payloadSize, generation, now, delivered, cache.config)
    {
      hide RI.Inv, NumberWritten, SH.Find, SH.Contiguous, AllLabelled, SH.Retained, RC.Inv, RC.ItemsOf, RC.Live, AllFiled, RC.Normalised, Stored, NextLog,
           Traced, RN.RepeatsForwarded, RC.MakeKey, Filed;
      UseNumber(o, id, SH.Sent(size, o.rtx, now), delivered);
      if delivered {
        CacheRewritten(o, payloadSize, generation, now);
      }
    }

    /** Retransmits one cached packet. */
    method SendRetransmission(p: seq<Byte>, size: nat, now: int, delivered: bool) returns (outcome: RR.Outcome)
      requires Valid()
      modifies this`posted, this`run, rewriter, history
      ensures Valid() && Heard() == old(Heard())
      ensures Resent(old(State()), State(), p, size, now, delivered, outcome, Bounds())
    {
      hide RI.Inv, RR.Retransmitted, RI.RetransmittedHistories, NumberWritten, SH.Find, SH.Contiguous, RetransmitId, AllLabelled, Labelled, SH.Retained,
           RC.Inv, AllFiled, RC.Normalised, RR.Configured, Traced, RN.RepeatsForwarded, RN.WasForwarded;
      TracedRetransmit(run, rewriter.Model(), rewriter.histories, cache.past.written, p, history.next % SH.MODULUS);
      RI.InvShape(rewriter.Model(), rewriter.histories);
      var number := history.NextSequenceNumber();
      ghost var before, id := rewriter.Model(), RetransmitId(rewriter.Model(), p);
      outcome := rewriter.BuildRetransmission(p, number);
      run := run + [RewriterRuns.Retransmit(p, number)];
      if outcome.Emitted? {
        if outcome.output.transportNumber.Some? {
          RetransmittedCarriesNumber(before, p, number);
        }
        UseNumber(outcome.output, id, SH.Sent(size, true, now), delivered);
      }
    }

    /**
     Answers one requested number: the cache is asked, and on a hit its packet is sent again. The packet
     is the last one forwarded under that SSRC and number, and what goes out restores it byte for byte
     up to the fresh transport-wide number. Without a hit nothing but the cache changes.
     */
    method AnswerNack(ssrc: U32, sequence: U16, size: nat, now: int, delivered: bool) returns (found: RC.Lookup, outcome: Option<RR.Outcome>)
      requires Valid() && cache.past.clock <= now
      modifies this`posted, this`run, rewriter, history, cache
      ensures Valid() && Heard() == old(Heard())
      ensures NackAnswered(old(State()), State(), ssrc, sequence, size, now, delivered, found, outcome, Bounds())
    {
      hide RI.Inv, RR.Retransmitted, AllLabelled, SH.Retained, RC.Inv, RC.ItemsOf, RC.Live, RC.Kept, RC.Answer, RC.Answered, RC.Present, RC.Normalised,
           RC.MakeKey, RC.Young, RetransmitId, SH.Contiguous, RR.Configured, AllFiled, AnsweredRight, NextLog, Resent,
           NackAnswered, Asked, Traced, RN.RepeatsForwarded, RN.WasForwarded;
      outcome := None;
      ghost var first, store := State(), Cached();
      found := cache.LookupForRetransmission(ssrc, sequence, now);
      AskedIs(store, RC.MakeKey(ssrc, sequence), now, cache.config);
      assert State() == first.(store := Asked(store, RC.MakeKey(ssrc, sequence), now, cache.config));
      if found.Hit? {
        RI.InvShape(rewriter.Model(), rewriter.histories);
        CachedWasForwarded(run, rewriter.Model(), rewriter.histories, cache.past.written, RC.MakeKey(ssrc, sequence));
        HitIsRight(rewriter.Model(), store, history.next, ssrc, sequence, found.packet);
        ghost var mid := State();
        var sent := SendRetransmission(found.packet.bytes, size, now, delivered);
        ResentStore(mid, State(), found.packet.bytes, size, now, delivered, sent, Bounds());
        ResentOutcome(mid, State(), found.packet.bytes, size, now, delivered, sent, Bounds());
        outcome := Some(sent);
      }
      AnsweredWhen(first, State(), ssrc, sequence, size, now, delivered, found, outcome, Bounds());
    }

    /**
     Answers all requests of one RTCP packet: every number is looked up once and for primary outputs only,
     and the packets found, at most 256, are sent again one after the other.
     */
    method AnswerNacks(requests: seq<NR.Request>, outputs: set<U32>, sizes: seq<nat>, now: int, delivered: seq<bool>)
      returns (b: NR.Batch, outcomes: seq<RR.Outcome>, ghost states: seq<Sending>)
      requires Valid() && cache.past.clock <= now && |sizes| == |delivered| == NR.LIMIT
      modifies this`posted, this`run, rewriter, history, cache
      ensures Valid() && Heard() == old(Heard())
      ensures b == NR.Gathered(RC.Kept(old(cache.Items()), now, cache.config), requests, outputs, now, cache.config)
      ensures NR.LastWritten(b, old(cache.past.written))
      ensures AllResent(old(State()).(store := BatchStore(old(Cached()), requests, outputs, now, cache.config)), State(),
                        b.packets, sizes, now, delivered, outcomes, states, Bounds())
      ensures old(RN.RepeatsForwarded(run)) ==> RN.RepeatsForwarded(run)
    {
      hide RI.Inv, AllLabelled, RC.Inv, RC.ItemsOf, RC.Live, RC.Kept, RC.Normalised, SH.Contiguous, AllFiled, Traced, RN.RepeatsForwarded, RN.WasForwarded,
           NR.Gathered, NR.AnyAsked, NR.Marked, NR.HitAt, Resent, AllResent;
      ghost var first, hits := Cached(), cache.past.lastHit;
      b := NR.Gather(cache, requests, outputs, now);
      BatchStored(first, requests, outputs, now, cache.config);
      ghost var before := State();
      outcomes, states := [], [before];
      NoneResent(before, b.packets, sizes, now, delivered, Bounds());
      for i := 0 to |b.packets|
        invariant Valid() && Heard() == old(Heard()) && Cached() == before.store
        invariant AllResent(before, State(), b.packets[..i], sizes, now, delivered, outcomes, states, Bounds())
        invariant old(RN.RepeatsForwarded(run)) ==> RN.RepeatsForwarded(run)
      {
        ghost var mid := State();
        CachedWasForwarded(run, rewriter.Model(), rewriter.histories, cache.past.written, b.keys[i]);
        var outcome := SendRetransmission(b.packets[i].bytes, sizes[i], now, delivered[i]);
        ResentStore(mid, State(), b.packets[i].bytes, sizes[i], now, delivered[i], outcome, Bounds());
        OneMoreResent(before, mid, b.packets, sizes, now, delivered, outcomes, states, Bounds(), i, outcome, State());
        outcomes, states := outcomes + [outcome], states + [State()];
      }
      assert b.packets[..|b.packets|] == b.packets;
    }

    /** Feedback evicts and tallies records; rewriter, cache and numbering stay. */
    method Observe(feedback: FP.Parsed, now: int) returns (o: SH.Observation)
      requires Valid()
      modifies history
      ensures Valid() && Cached() == old(Cached()) && rewriter.Model() == old(rewriter.Model())
      ensures Log() == old(Log()).(records := SH.Retained(old(history.records), now, history.maxAge, history.maxPackets))
      ensures o == SH.TallyAll(history.records, history.next, feedback.statuses, now)
      ensures Heard() == (SH.CountObserved(old(history.Counts()), feedback.header.feedbackCount), old(history.feedbackStatuses) + |feedback.statuses|,
                          old(history.hits) + o.hits, old(history.misses) + o.misses)
    {
      hide RI.Inv, AllLabelled, AllFiled, Traced, SH.TallyAll, SH.Retained, SH.CountObserved, RC.Inv, RC.ItemsOf, RC.Live;
      o := history.Observe(feedback, now);
    }

    method Configure(c: RR.Config)
      requires Valid() && RI.ConfigOk(c)
      modifies rewriter, this`run
      ensures Valid() && rewriter.Model() == old(RR.Reconfigured(rewriter.Model(), c))
      ensures Log() == old(Log()) && Cached() == old(Cached()) && Heard() == old(Heard())
      ensures run == old(run) + [RewriterRuns.Configure(c)] && (RN.RepeatsForwarded(run) <==> old(RN.RepeatsForwarded(run)))
    {
      hide RI.Inv, AllLabelled, AllFiled, Traced, RN.RepeatsForwarded, RI.ConfigOk, RR.Reconfigured, RI.ReconfiguredHistories, RC.Inv, RC.ItemsOf, RC.Live;
      TracedConfigure(run, rewriter.Model(), rewriter.histories, cache.past.written, c);
      rewriter.SetConfig(c);
      run := run + [RewriterRuns.Configure(c)];
    }

    method ClearSource()
      requires Valid()
      modifies rewriter, this`run
      ensures Valid() && rewriter.Model() == old(RR.Cleared(rewriter.Model()))
      ensures Log() == old(Log()) && Cached() == old(Cached()) && Heard() == old(Heard())
      ensures run == old(run) + [RewriterRuns.ClearSource] && (RN.RepeatsForwarded(run) <==> old(RN.RepeatsForwarded(run)))
    {
      hide RI.Inv, AllLabelled, AllFiled, Traced, RN.RepeatsForwarded, RC.Inv, RR.Cleared, RI.ClearedHistories, RC.ItemsOf, RC.Live;
      TracedClear(run, rewriter.Model(), rewriter.histories, cache.past.written);
      rewriter.ClearSource();
      run := run + [RewriterRuns.ClearSource];
    }

    /** A new peer: cache, history and packets start anew; the rewriter loses its source and keeps its numbering. */
    method Reset()
      requires Valid()
      modifies this, rewriter, history, cache
      ensures Valid() && rewriter.Model() == old(RR.Cleared(rewriter.Model()))
      ensures Log() == SendLog(0, [], map[]) && Cached() == Store([], RC.Past(old(cache.past.clock), map[], map[]), map[])
      ensures Heard() == (SH.UNCOUNTED, 0, 0, 0)
      ensures run == old(run) + [RewriterRuns.ClearSource] && (RN.RepeatsForwarded(run) <==> old(RN.RepeatsForwarded(run)))
    {
      hide RI.Inv, AllLabelled, AllFiled, Traced, RN.RepeatsForwarded, RC.Inv, RC.Normalised, SH.Contiguous;
      ClearSource();
      ghost var written := cache.past.written;
      cache.Clear();
      history.Reset();
      posted, under := map[], map[];
      NothingYet();
      TracedEmpty(run, rewriter.Model(), rewriter.histories, written);
    }

    /**
     While every configuration keeps the stream, allows two-byte extensions and keeps one id for
     transport-wide numbers, and retransmissions only answer requests, the numbers that come out of the
     rewriter for the stream have no gap, RTX or not.
     */
    lemma OutputHasNoGap(x: RewriterRuns.Stream, id: Byte)
      requires Valid() && RN.RepeatsForwarded(run) && RewriterRuns.RunOk(run, x) && RN.RunUnder(run, x, id)
      ensures RI.Inv(RR.FRESH, [])
      ensures var out := EN.Produced(RR.FRESH, [], run, x);
              forall k :: 0 <= k < |out| ==> out[k] == (RM.InitialSequence(x.ssrc) + k) % 0x1_0000
    {
      hide *;
      RN.ResentFromStart(run, x, id);
    }

    /**
     In every state these operations reach: the number that a reader finds in the packet of a live
     record, under the id negotiated for it, leads back to that record.
     */
    lemma PacketFindsItsRecord(extended: nat, number: U16)
      requires Valid() && history.maxPackets <= SH.HALF_RANGE && SH.Live(history.records, extended)
      ensures extended in posted
      ensures RP.ParseRewriteable(posted[extended].packet).Ok? ==> CarriesUnder(posted[extended].packet, posted[extended].id, extended % SH.MODULUS)
      ensures CarriesUnder(posted[extended].packet, posted[extended].id, number) ==> SH.Find(history.records, number) == Some(extended)
    {
      hide RP.ParseRewriteable, RI.Inv, HE.FirstWithId, U16Bytes;
      SH.LiveRange(history.records, history.next, extended);
      SH.FindExact(history.records, history.next, extended % SH.MODULUS);
      assert Labelled(posted[extended], extended % SH.MODULUS);
      if CarriesUnder(posted[extended].packet, posted[extended].id, number) {
        SameBytesSameNumber(number, extended % SH.MODULUS);
      }
    }
  }
}
