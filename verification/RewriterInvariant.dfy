/**
 What every operation of the WHEP RTP rewriter keeps, and what each forwarded packet is: its number,
 its timestamp, and the original number inside an RTX packet.
 */
module RewriterInvariant {
  import opened Wire
  import opened HeaderExtensions
  import opened RtpPacket
  import SC = SequenceCache
  import opened RewriterMedia
  import opened ExtensionRewriting
  import opened RewrittenPacket
  import opened RtxEncapsulation
  import opened RtpRewriter

  // ----- the invariant -----

  predicate Records(m: Media, ssrc: U32, rtx: bool) {
    if rtx then m.rtxSsrc == Some(ssrc) else m.primarySsrc == Some(ssrc)
  }

  /** Every binding points at a media entry that records its SSRC. */
  ghost predicate BindingsInv(media: seq<Media>, bindings: map<U32, SsrcBinding>) {
    forall ssrc :: ssrc in bindings ==> bindings[ssrc].index < |media| && Records(media[bindings[ssrc].index], ssrc, bindings[ssrc].rtx)
  }

  ghost predicate MediaInvs(media: seq<Media>, hs: seq<History>) {
    |hs| == |media| && forall i :: 0 <= i < |media| ==> MediaInv(media[i], hs[i]) && LogNumbered(media[i].mapping.targetSsrc, hs[i])
  }

  ghost predicate DistinctTargets(media: seq<Media>) {
    forall i, j :: 0 <= i < j < |media| ==> media[i].mapping.targetSsrc != media[j].mapping.targetSsrc
  }

  ghost predicate Inv(s: State, hs: seq<History>) {
    && MediaInvs(s.media, hs)
    && BindingsInv(s.media, s.bindings)
    && Configured(s.media)
    && DistinctTargets(s.media)
  }

  /** A negotiated configuration. */
  ghost predicate ConfigOk(c: Config) {
    && (forall i :: 0 <= i < |c.media| ==> WellFormed(c.media[i]))
    && (forall i, j :: 0 <= i < j < |c.media| ==> c.media[i].targetSsrc != c.media[j].targetSsrc)
  }

  // ----- what the histories become -----

  ghost function BoundHistories(s: State, hs: seq<History>, q: Parsed, route: Route): (r: seq<History>)
    requires route.index < |s.media| == |hs|
    ensures |r| == |hs|
  {
    if !route.payload.rtx && SourceChanged(s.media[route.index], q, route.payload) then hs[route.index := Restarted(hs[route.index])] else hs
  }

  ghost function SentHistory(h: History, effect: Effect, source: U16): History {
    match effect.given
    case None => h
    case Some(a) =>
      if a.rtx then Counted(h, true)
      else if effect.outcome.Emitted? then Logged(Counted(h, false), SC.Binding(source, a.number))
      else Counted(h, false).(lost := h.lost + 1)
  }

  ghost function ForwardedHistories(s: State, hs: seq<History>, p: seq<Byte>, number: U16): (r: seq<History>)
    requires Configured(s.media) && |hs| == |s.media|
    ensures |r| == |hs|
  {
    match ParseRewriteable(p)
    case Err(_) => hs
    case Ok(q) =>
      var route := RouteOf(s, q);
      if !s.available || s.media == [] || route.None? then hs
      else if route.value.payload.rtx && s.media[route.value.index].primarySsrc.None? then hs
      else
        var bound := BoundHistories(s, hs, q, route.value);
        bound[route.value.index := SentHistory(bound[route.value.index], Forwarded(s, p, number), q.header.sequence)]
  }

  ghost function RetransmittedHistories(s: State, hs: seq<History>, p: seq<Byte>, number: U16): (r: seq<History>)
    requires Configured(s.media) && |hs| == |s.media|
    ensures |r| == |hs|
  {
    if Retransmitted(s, p, number).given.None? then hs
    else
      var i := MediaFor(s.media, HeaderOf(p).ssrc);
      hs[i := Counted(hs[i], true)]
  }

  ghost function RemappedHistory(m: Media, h: History, mapping: Mapping, sameSource: bool): History {
    var renumbered := if m.mapping.targetRtxSsrc != mapping.targetRtxSsrc then h.(rtxCount := 0) else h;
    if KeepsSource(m.mapping, mapping, sameSource) then renumbered else Restarted(renumbered)
  }

  ghost function CarriedHistory(media: seq<Media>, hs: seq<History>, mapping: Mapping, sameSource: bool): History
    requires |hs| == |media|
  {
    var i := Previous(media, mapping);
    if i < |media| then RemappedHistory(media[i], hs[i], mapping, sameSource) else START
  }

  ghost function ReconfiguredHistories(s: State, hs: seq<History>, c: Config): (r: seq<History>)
    requires |hs| == |s.media|
    ensures |r| == |c.media|
  {
    seq(|c.media|, i requires 0 <= i < |c.media| => CarriedHistory(s.media, hs, c.media[i], s.available && s.session == c.session))
  }

  ghost function ClearedHistories(hs: seq<History>): (r: seq<History>)
    ensures |r| == |hs|
  {
    seq(|hs|, i requires 0 <= i < |hs| => Restarted(hs[i]))
  }

  // ----- forwarding -----

  lemma RtxBindingInv(s: State, i: nat, ssrc: U32)
    requires i < |s.media| && BindingsInv(s.media, s.bindings)
    ensures var m := s.media[i];
            var kept := if m.rtxSsrc.Some? then s.bindings - {m.rtxSsrc.value} else s.bindings;
            BindingsInv(s.media[i := m.(rtxSsrc := Some(ssrc))], kept[ssrc := SsrcBinding(i, true)])
  {
  }

  lemma PrimaryBindingInv(s: State, i: nat, ssrc: U32, m: Media)
    requires i < |s.media| && BindingsInv(s.media, s.bindings) && m.primarySsrc == Some(ssrc)
    ensures BindingsInv(s.media[i := m], BindingsElsewhere(s.bindings, i)[ssrc := SsrcBinding(i, false)])
  {
  }

  lemma RtxRecorded(m: Media, h: History, ssrc: U32)
    requires MediaInv(m, h) && m.primarySsrc.Some?
    ensures MediaInv(m.(rtxSsrc := Some(ssrc)), h)
  {
    hide SC.Tracks, InitialSequence;
  }

  lemma OneMedia(media: seq<Media>, hs: seq<History>, i: nat, m: Media, h: History)
    requires MediaInvs(media, hs) && Configured(media) && DistinctTargets(media) && i < |media|
    requires MediaInv(m, h) && LogNumbered(m.mapping.targetSsrc, h) && m.mapping == media[i].mapping
    ensures MediaInvs(media[i := m], hs[i := h]) && Configured(media[i := m]) && DistinctTargets(media[i := m])
  {
    hide MediaInv, LogNumbered, WellFormed;
  }

  /** Binding keeps the invariant and leaves an anchor in place, so no fallback re-anchoring is reached. */
  lemma BoundInv(s: State, hs: seq<History>, q: Parsed, route: Route)
    requires Inv(s, hs) && route.index < |s.media|
    requires route.payload.rtx ==> s.media[route.index].primarySsrc.Some?
    ensures Inv(Bound(s, q, route), BoundHistories(s, hs, q, route))
    ensures Bound(s, q, route).media[route.index].sourceAnchor.Some?
    ensures !SourceChanged(s.media[route.index], q, route.payload) ==> s.media[route.index].sourceAnchor.Some?
  {
    hide SC.Tracks, InitialSequence, NumberedFrom, WellFormed;
    var i, m, h, ssrc := route.index, s.media[route.index], hs[route.index], q.header.ssrc;
    assert MediaInv(m, h);
    hide MediaInvs, BindingsInv, Configured, DistinctTargets;
    if route.payload.rtx {
      if m.rtxSsrc != Some(ssrc) {
        RtxRecorded(m, h, ssrc);
        RtxBindingInv(s, i, ssrc);
        OneMedia(s.media, hs, i, m.(rtxSsrc := Some(ssrc)), h);
        assert hs[i := h] == hs;
      }
    } else if SourceChanged(m, q, route.payload) {
      PrimaryBegunInv(m, h, ssrc, q.header.payloadType, q.header.timestamp, route.payload.clockRate);
      PrimaryBindingInv(s, i, ssrc, Begun(m, q, route.payload));
      OneMedia(s.media, hs, i, Begun(m, q, route.payload), Restarted(h));
    }
  }

  lemma SameRecords(media: seq<Media>, bindings: map<U32, SsrcBinding>, i: nat, m: Media)
    requires i < |media| && BindingsInv(media, bindings) && m.primarySsrc == media[i].primarySsrc && m.rtxSsrc == media[i].rtxSsrc
    ensures BindingsInv(media[i := m], bindings)
  {
  }

  /** Allocating, translating and remembering, step by step on one media entry. */
  lemma SentMediaInv(m: Media, h: History, rtx: bool, timestamp: U32, source: U16)
    requires MediaInv(m, h) && m.sourceAnchor.Some?
    ensures var (numbered, sequence) := Allocated(m, rtx);
            var (timed, target) := Timed(numbered, timestamp);
            && sequence == (InitialSequence(TargetSsrc(m.mapping, rtx)) + if rtx then h.rtxCount else h.primaryCount) % 0x1_0000
            && target == MappedTimestamp(m, timestamp)
            && timed.mapping == m.mapping && timed.primarySsrc == m.primarySsrc && timed.rtxSsrc == m.rtxSsrc && timed.numbers == m.numbers
            && numbered.sourceAnchor == timed.sourceAnchor == m.sourceAnchor && timed.targetAnchor == m.targetAnchor
            && MediaInv(timed, Counted(h, rtx)) && MediaInv(timed, Counted(h, rtx).(lost := h.lost + 1))
            && MediaInv(timed.(numbers := SC.Remembered(timed.numbers, SC.Binding(source, sequence))),
                        Counted(h, rtx).(log := h.log + [SC.Binding(source, sequence)], places := h.places + [h.primaryCount]))
  {
    hide SC.Tracks, InitialSequence, NumberedFrom, SC.Remembered;
    AllocatedInv(m, h, rtx);
    var (numbered, sequence) := Allocated(m, rtx);
    TranslatedInv(numbered, Counted(h, rtx), timestamp);
    SC.RememberTracks(m.numbers, h.log, SC.Binding(source, sequence));
  }

  ghost predicate RtxOriginalIsLatest(h: History, p: seq<Byte>, q: Parsed, original: U16)
    requires q.payloadOffset + 2 <= |p|
  {
    var at := SC.Latest(h.log, ReadU16(p, q.payloadOffset));
    at >= 0 && h.log[at].target == original
  }

  lemma OriginalIsLatest(m: Media, h: History, p: seq<Byte>, q: Parsed)
    requires MediaInv(m, h) && ParseRewriteable(p) == Ok(q) && Refusal(m, p, q, true).None?
    ensures RtxOriginalIsLatest(h, p, q, OriginalFor(m, p, q, true).value)
  {
    hide ParseRewriteable, SC.Tracks, InitialSequence, NumberedFrom;
    SC.NeverStale(m.numbers, h.log, ReadU16(p, q.payloadOffset));
  }

  /** Of a negotiated mapping's possible build errors only the missing two-byte permission can occur. */
  lemma OnlyTwoByteFails(m: Mapping, p: seq<Byte>, q: Parsed, payloadType: Byte, ssrc: U32, sequence: U16, timestamp: U32, original: Option<U16>,
                         number: U16)
    requires ParseRewriteable(p) == Ok(q) && WellFormed(m) && payloadType < 128
    requires original.Some? ==> q.payloadSize >= 2
    ensures RewriteExtensions(m, q.extensions, number).Some?
    ensures var es := RewriteExtensions(m, q.extensions, number).value;
            && FitsTwoByte(es) && |BlockPayload(es)| / 4 < 0x1_0000
            && Built(m, p, q, payloadType, ssrc, sequence, timestamp, original, number) ==
               if es != [] && !FitsOneByte(es) && !m.allowMixed then Err(TwoByteNotAllowed)
               else Ok(RewrittenBytes(p, q, es, payloadType, sequence, timestamp, ssrc, original))
  {
    hide ParseRewriteable, Copied, Sorted, WithMid, WithTransportCc, FirstWithId, BlockPayload, RewrittenBytes, MidMapping, FitsOneByte, IncreasingIds;
    ParsedValuesFit(p, q);
    CopiedSucceeds(m, q.extensions, {});
    RewrittenExtensions(m, q.extensions, number);
    BlockBound(RewriteExtensions(m, q.extensions, number).value);
  }

  lemma ParsedValuesFit(p: seq<Byte>, q: Parsed)
    requires ParseRewriteable(p) == Ok(q)
    ensures ValuesFit(q.extensions)
  {
    hide Parse, Valid, PayloadStart, PaddingSize;
    if HasExtension(p) {
      var (profile, start, end) := ExtensionArea(p, BaseSize(p)).value;
      ParsedFit(ProfileFormat(profile).value, p[start..end]);
    }
  }

  lemma SentNumbered(ssrc: U32, h: History, effect: Effect, source: U16)
    requires LogNumbered(ssrc, h) && effect.given.Some?
    requires !effect.given.value.rtx ==> effect.given.value.number == (InitialSequence(ssrc) + h.primaryCount) % 0x1_0000
    ensures LogNumbered(ssrc, SentHistory(h, effect, source))
  {
    hide InitialSequence;
    if !effect.given.value.rtx {
      LoggedNumbered(ssrc, h, source);
      LostNumbered(ssrc, h);
    }
  }

  /** Sending keeps the invariant; a number handed out is the next one of its stream. */
  lemma SentInv(s: State, hs: seq<History>, p: seq<Byte>, q: Parsed, route: Route, keyframe: bool, number: U16)
    requires Inv(s, hs) && ParseRewriteable(p) == Ok(q) && RouteOk(s, route) && s.media[route.index].sourceAnchor.Some?
    ensures var effect := Sent(s, p, q, route, keyframe, number);
            var m, h, rtx := s.media[route.index], hs[route.index], route.payload.rtx;
            && Inv(effect.state, hs[route.index := SentHistory(h, effect, q.header.sequence)])
            && (effect.given.Some? ==> effect.given.value == Allocation(m.mapping.kind, m.mapping.targetSsrc, rtx, NextNumber(m.mapping, h, rtx)))
            && (effect.outcome.Failed? ==> effect.outcome.error == TwoByteNotAllowed)
            && (effect.outcome.Emitted? ==> effect.given.Some?)
  {
    hide ParseRewriteable, MediaInv, WellFormed, Timed, Allocated, InitialSequence, SC.Remembered, Built, Refusal, OriginalFor, RewriteExtensions,
         BlockPayload, FitsTwoByte, FitsOneByte, RewrittenBytes, BindingsInv, LogNumbered;
    var i, m, h, rtx := route.index, s.media[route.index], hs[route.index], route.payload.rtx;
    if Refusal(m, p, q, rtx).None? {
      RouteTarget(s, route);
      SentMediaInv(m, h, rtx, q.header.timestamp, q.header.sequence);
      var (numbered, sequence) := Allocated(m, rtx);
      var (timed, timestamp) := Timed(numbered, q.header.timestamp);
      var original := OriginalFor(m, p, q, rtx);
      OriginalFits(m, p, q, rtx);
      OnlyTwoByteFails(m.mapping, p, q, route.payload.target, TargetSsrc(m.mapping, rtx), sequence, timestamp, original, number);
      var effect := Sent(s, p, q, route, keyframe, number);
      var done := effect.state.media[i];
      SameRecords(s.media, s.bindings, i, done);
      SentNumbered(m.mapping.targetSsrc, h, effect, q.header.sequence);
      OneMedia(s.media, hs, i, done, SentHistory(h, effect, q.header.sequence));
    } else {
      assert hs[i := h] == hs;
    }
  }

  ghost function NextNumber(mapping: Mapping, h: History, rtx: bool): U16 {
    (InitialSequence(TargetSsrc(mapping, rtx)) + if rtx then h.rtxCount else h.primaryCount) % 0x1_0000
  }

  lemma RouteTarget(s: State, route: Route)
    requires RouteOk(s, route)
    ensures route.payload.target < 128
  {
    var k :| 0 <= k < |s.media[route.index].mapping.payloadTypes| && s.media[route.index].mapping.payloadTypes[k] == route.payload;
  }

  lemma OriginalFits(m: Media, p: seq<Byte>, q: Parsed, rtx: bool)
    requires ParseRewriteable(p) == Ok(q) && Refusal(m, p, q, rtx).None?
    ensures OriginalFor(m, p, q, rtx).Some? ==> q.payloadSize >= 2
  {
    hide ParseRewriteable;
  }

  /** Where an accepted packet goes, when it gets as far as being sent. */
  ghost predicate Reaches(s: State, p: seq<Byte>, q: Parsed, route: Route) {
    && ParseRewriteable(p) == Ok(q) && s.available && s.media != []
    && RouteOf(s, q) == Some(route)
    && (route.payload.rtx ==> s.media[route.index].primarySsrc.Some?)
  }

  ghost predicate Begins(s: State, q: Parsed, route: Route)
    requires route.index < |s.media|
  {
    !route.payload.rtx && SourceChanged(s.media[route.index], q, route.payload)
  }

  lemma ReachedRoute(s: State, p: seq<Byte>, q: Parsed, route: Route)
    requires Configured(s.media) && Reaches(s, p, q, route)
    ensures RouteOk(s, route) && RouteOk(Bound(s, q, route), route)
  {
    hide WellFormed, ParseRewriteable;
  }

  /** What forwarding does once the packet has a place to go. */
  lemma ForwardedIsSent(s: State, p: seq<Byte>, q: Parsed, route: Route, number: U16)
    requires Configured(s.media) && Reaches(s, p, q, route)
    ensures RouteOk(Bound(s, q, route), route)
    ensures Forwarded(s, p, number) == Sent(Bound(s, q, route), p, q, route, Begins(s, q, route) && s.media[route.index].mapping.kind == "video", number)
  {
    hide ParseRewriteable, Sent, Bound, RouteOf, WellFormed;
    ReachedRoute(s, p, q, route);
  }

  /** Forwarding keeps the invariant over everything that can arrive. */
  lemma ForwardedInv(s: State, hs: seq<History>, p: seq<Byte>, number: U16)
    requires Inv(s, hs)
    ensures Inv(Forwarded(s, p, number).state, ForwardedHistories(s, hs, p, number))
  {
    hide ParseRewriteable, Sent, Bound, RouteOf, WellFormed, MediaInvs, BindingsInv, DistinctTargets;
    if ParseRewriteable(p).Ok? {
      var q := ParseRewriteable(p).value;
      var route := RouteOf(s, q);
      if route.Some? && Reaches(s, p, q, route.value) {
        ForwardedIsSent(s, p, q, route.value, number);
        InvShape(s, hs);
        BoundInv(s, hs, q, route.value);
        SentInv(Bound(s, q, route.value), BoundHistories(s, hs, q, route.value), p, q, route.value,
                Begins(s, q, route.value) && s.media[route.value.index].mapping.kind == "video", number);
      }
    }
  }

  lemma InvShape(s: State, hs: seq<History>)
    requires Inv(s, hs)
    ensures |hs| == |s.media| && Configured(s.media) && DistinctTargets(s.media)
  {
  }

  ghost function SourceHistory(s: State, hs: seq<History>, q: Parsed, route: Route): History
    requires route.index < |s.media| == |hs|
  {
    BoundHistories(s, hs, q, route)[route.index]
  }

  /**
   The number and time of a forwarded packet: the next number of its output stream, the source time
   moved by the media's offset. The offset is the previous one unless a source begins, and a source
   that begins after another starts strictly newer than the high-water mark of what was sent.
   */
  lemma ForwardedPacket(s: State, hs: seq<History>, p: seq<Byte>, q: Parsed, route: Route, number: U16)
    requires Inv(s, hs) && Reaches(s, p, q, route) && Forwarded(s, p, number).outcome.Emitted?
    ensures |hs| == |s.media| && |Forwarded(s, p, number).state.media| == |s.media|
    ensures var effect := Forwarded(s, p, number);
            var o, i, rtx := effect.outcome.output, route.index, route.payload.rtx;
            var m, after, h := s.media[i], effect.state.media[i], SourceHistory(s, hs, q, route);
            && o.rtx == rtx && o.targetSsrc == TargetSsrc(m.mapping, rtx) != 0 && o.payloadType == route.payload.target < 128
            && effect.given == Some(Allocation(m.mapping.kind, m.mapping.targetSsrc, rtx, o.sequence))
            && o.sequence == NextNumber(m.mapping, h, rtx)
            && after.sourceAnchor.Some? && o.timestamp == MappedTimestamp(after, q.header.timestamp)
            && (!Begins(s, q, route) ==> after.sourceAnchor == m.sourceAnchor && after.targetAnchor == m.targetAnchor)
            && (Begins(s, q, route) && m.timestampStarted ==> Newer(o.timestamp, m.lastTimestamp))
            && (o.keyframeNeeded <==> Begins(s, q, route) && m.mapping.kind == "video")
            && !Newer(o.timestamp, after.lastTimestamp)
            && o.transportNumber == (if m.mapping.transportCcId != 0 then Some(number) else None)
  {
    hide Inv, ParseRewriteable, MediaInv, WellFormed, InitialSequence, Built, OriginalFor, RouteOf, Bound, Begins, Forwarded, Sent, Allocated, Timed, Newer,
         Configured, Refusal, InspectLayout, SC.Remembered;
    InvParts(s, hs, route.index);
    ForwardedIsSent(s, p, q, route, number);
    BoundInv(s, hs, q, route);
    var b, bs, rtx := Bound(s, q, route), BoundHistories(s, hs, q, route), route.payload.rtx;
    var m := b.media[route.index];
    InvParts(b, bs, route.index);
    RouteTarget(b, route);
    BoundAnchors(s, hs, q, route);
    SentMediaInv(m, bs[route.index], rtx, q.header.timestamp, q.header.sequence);
    HighWaterHolds(Allocated(m, rtx).0, q.header.timestamp);
    var keyframe := Begins(s, q, route) && s.media[route.index].mapping.kind == "video";
    SentOutput(b, p, q, route, keyframe, number);
    TimedWithAnchor(Allocated(m, rtx).0, q.header.timestamp);
  }

  /**
   What becomes of a packet, and why. One that cannot be read, comes without a publisher, belongs nowhere
   or repeats an unknown source leaves everything as it was; the others take a number unless their
   output has no SSRC, or as RTX they are too short or name an unknown original.
   */
  lemma ForwardedIff(s: State, hs: seq<History>, p: seq<Byte>, number: U16)
    requires Inv(s, hs)
    ensures Configured(s.media)
    ensures var effect, q := Forwarded(s, p, number), ParseRewriteable(p);
            && (q.Err? ==> effect == Effect(s, Failed(BadPacket(q.error)), None))
            && (q.Ok? && (!s.available || s.media == []) ==> effect == Effect(s, Dropped(SourceUnavailable), None))
            && (q.Ok? && s.available && s.media != [] && RouteOf(s, q.value).None? ==> effect == Effect(s, Dropped(NoMapping), None))
    ensures ParseRewriteable(p).Ok? && s.available && s.media != [] && RouteOf(s, ParseRewriteable(p).value).Some? ==>
              var effect, q := Forwarded(s, p, number), ParseRewriteable(p).value;
              var route := RouteOf(s, q).value;
              var m := s.media[route.index];
              && (route.payload.rtx && m.primarySsrc.None? ==> effect == Effect(s, Dropped(RtxBeforePrimary), None))
              && (Reaches(s, p, q, route) ==>
                    && (effect.given.None? <==>
                          || TargetSsrc(m.mapping, route.payload.rtx) == 0
                          || (route.payload.rtx && (q.payloadSize < 2 || SC.Find(m.numbers, ReadU16(p, q.payloadOffset)).None?)))
                    && (effect.given.None? <==> effect.outcome.Dropped?)
                    && (effect.outcome == Dropped(NoTargetSsrc) <==> TargetSsrc(m.mapping, route.payload.rtx) == 0)
                    && (effect.outcome == Dropped(RtxTooShort) <==>
                          TargetSsrc(m.mapping, route.payload.rtx) != 0 && route.payload.rtx && q.payloadSize < 2))
  {
    hide Inv, ParseRewriteable, InspectLayout, WellFormed, RouteOf, Bound, Built, Allocated, Timed, SC.Remembered, OriginalFor;
    InvShape(s, hs);
    if ParseRewriteable(p).Ok? && s.available && s.media != [] && RouteOf(s, ParseRewriteable(p).value).Some? {
      var q := ParseRewriteable(p).value;
      var route := RouteOf(s, q).value;
      if Reaches(s, p, q, route) {
        ForwardedIsSent(s, p, q, route, number);
        if route.payload.rtx {
          BoundNumbers(s, q, route);
        }
        SentGives(Bound(s, q, route), p, q, route, Begins(s, q, route) && s.media[route.index].mapping.kind == "video", number);
      }
    }
  }

  lemma SentGives(s: State, p: seq<Byte>, q: Parsed, route: Route, keyframe: bool, number: U16)
    requires ParseRewriteable(p) == Ok(q) && RouteOk(s, route)
    ensures var effect, m, rtx := Sent(s, p, q, route, keyframe, number), s.media[route.index], route.payload.rtx;
            && (effect.given.None? <==>
                  || TargetSsrc(m.mapping, rtx) == 0
                  || (rtx && (q.payloadSize < 2 || SC.Find(m.numbers, ReadU16(p, q.payloadOffset)).None?)))
            && (effect.given.None? <==> effect.outcome.Dropped?)
            && (effect.outcome == Dropped(NoTargetSsrc) <==> TargetSsrc(m.mapping, rtx) == 0)
            && (effect.outcome == Dropped(RtxTooShort) <==> TargetSsrc(m.mapping, rtx) != 0 && rtx && q.payloadSize < 2)
  {
    hide ParseRewriteable, InspectLayout, WellFormed, Built, Allocated, Timed, SC.Remembered, OriginalFor;
  }

  lemma InvParts(s: State, hs: seq<History>, i: nat)
    requires Inv(s, hs) && i < |s.media|
    ensures |hs| == |s.media| && MediaInv(s.media[i], hs[i]) && Configured(s.media)
  {
    hide MediaInv, WellFormed, BindingsInv, DistinctTargets;
  }

  lemma TimedWithAnchor(m: Media, timestamp: U32)
    ensures m.sourceAnchor.Some? ==> Timed(m, timestamp) == Translated(m, timestamp)
  {
  }

  lemma BoundAnchors(s: State, hs: seq<History>, q: Parsed, route: Route)
    requires Inv(s, hs) && route.index < |s.media|
    requires route.payload.rtx ==> s.media[route.index].primarySsrc.Some?
    ensures var m, b := s.media[route.index], Bound(s, q, route).media[route.index];
            && b.sourceAnchor.Some?
            && (!Begins(s, q, route) ==> b.sourceAnchor == m.sourceAnchor && b.targetAnchor == m.targetAnchor)
            && (Begins(s, q, route) && m.timestampStarted ==> Newer(MappedTimestamp(b, q.header.timestamp), m.lastTimestamp))
  {
    BoundInv(s, hs, q, route);
    var m := s.media[route.index];
    if Begins(s, q, route) && m.timestampStarted {
      NewSourceStartsNewer(m, q.header.ssrc, q.header.payloadType, q.header.timestamp, route.payload.clockRate);
    }
    hide Newer, MappedTimestamp, MediaInv, WellFormed, PrimaryBegun;
  }

  lemma SentOutput(s: State, p: seq<Byte>, q: Parsed, route: Route, keyframe: bool, number: U16)
    requires ParseRewriteable(p) == Ok(q) && RouteOk(s, route) && Sent(s, p, q, route, keyframe, number).outcome.Emitted?
    ensures var effect := Sent(s, p, q, route, keyframe, number);
            var o, m, rtx := effect.outcome.output, s.media[route.index], route.payload.rtx;
            var (numbered, sequence) := Allocated(m, rtx);
            var (timed, timestamp) := Timed(numbered, q.header.timestamp);
            && Refusal(m, p, q, rtx).None?
            && o.rtx == rtx && o.keyframeNeeded == keyframe && o.targetSsrc == TargetSsrc(m.mapping, rtx) != 0 && o.payloadType == route.payload.target
            && o.sequence == sequence && o.timestamp == timestamp
            && o.transportNumber == (if m.mapping.transportCcId != 0 then Some(number) else None)
            && effect.given == Some(Allocation(m.mapping.kind, m.mapping.targetSsrc, rtx, o.sequence))
            && |effect.state.media| == |s.media|
            && effect.state.media[route.index].(numbers := timed.numbers) == timed
  {
    hide ParseRewriteable, Timed, Allocated, WellFormed, Built, OriginalFor, SC.Remembered;
  }

  lemma SentBytes(s: State, p: seq<Byte>, q: Parsed, route: Route, keyframe: bool, number: U16)
    requires ParseRewriteable(p) == Ok(q) && RouteOk(s, route) && Sent(s, p, q, route, keyframe, number).outcome.Emitted?
    ensures route.payload.target < 128 && Refusal(s.media[route.index], p, q, route.payload.rtx).None?
    ensures var o := Sent(s, p, q, route, keyframe, number).outcome.output;
            var m, rtx := s.media[route.index], route.payload.rtx;
            var original := OriginalFor(m, p, q, rtx);
            && (original.Some? ==> q.payloadSize >= 2)
            && Built(m.mapping, p, q, o.payloadType, o.targetSsrc, o.sequence, o.timestamp, original, number) == Ok(o.packet)
            && o.payloadType == route.payload.target
  {
    hide ParseRewriteable, Timed, Allocated, WellFormed, Built, SC.Remembered, Refusal, OriginalFor;
    RouteTarget(s, route);
    if Refusal(s.media[route.index], p, q, route.payload.rtx).None? {
      OriginalFits(s.media[route.index], p, q, route.payload.rtx);
    }
  }

  /** The forwarded bytes as a reader of the output stream sees them. */
  ghost predicate ReadsBack(m: Mapping, p: seq<Byte>, q: Parsed, o: Output, original: Option<U16>, number: U16)
    requires original.Some? ==> q.payloadSize >= 2
    requires q.payloadOffset + q.payloadSize <= |p| && FIXED_HEADER <= q.baseSize <= |p|
  {
    RewriteExtensions(m, q.extensions, number).Some? &&
    var es := RewriteExtensions(m, q.extensions, number).value;
    && FitsTwoByte(es) && |BlockPayload(es)| / 4 < 0x1_0000
    && var offset := q.baseSize + |BlockBytes(es)|;
       && offset <= |o.packet|
       && o.packet[FIXED_HEADER..q.baseSize] == p[FIXED_HEADER..q.baseSize]
       && o.packet[offset..] == NewPayload(p[q.payloadOffset..], original)
       && (m.transportCcId != 0 ==> FirstWithId(es, m.transportCcId) == Some(U16Bytes(number)))
       && (MidMapping(m.extensions).Some? ==> FirstWithId(es, MidMapping(m.extensions).value.targetId) == Some(m.targetMid))
       && ParseRewriteable(o.packet) ==
          if q.header.marker && 64 <= o.payloadType <= 95 then Err(IsRtcp)
          else Ok(Parsed(Header(q.header.marker, o.payloadType, o.sequence, o.timestamp, o.targetSsrc), q.padding, q.baseSize, offset, q.payloadSize, es))
  }

  lemma BuiltReadsBack(m: Mapping, p: seq<Byte>, q: Parsed, o: Output, original: Option<U16>, number: U16)
    requires ParseRewriteable(p) == Ok(q) && WellFormed(m) && o.payloadType < 128 && (original.Some? ==> q.payloadSize >= 2)
    requires Built(m, p, q, o.payloadType, o.targetSsrc, o.sequence, o.timestamp, original, number) == Ok(o.packet)
    ensures ReadsBack(m, p, q, o, original, number)
  {
    hide ParseRewriteable, WellFormed, Built, BlockPayload, BlockBytes, FitsTwoByte, FitsOneByte, RewrittenBytes, RewriteExtensions, NewPayload, FirstWithId,
         MidMapping, IncreasingIds, InspectLayout, U16Bytes;
    OnlyTwoByteFails(m, p, q, o.payloadType, o.targetSsrc, o.sequence, o.timestamp, original, number);
    var es := RewriteExtensions(m, q.extensions, number).value;
    RewrittenReadsBack(p, q, es, o.payloadType, o.sequence, o.timestamp, o.targetSsrc, original);
    RewrittenExtensions(m, q.extensions, number);
  }

  /**
   A forwarded packet has the source's CSRCs, marker, padding and payload, the subscriber's extensions
   and header, and, when it is an RTX packet, the number most recently given to the packet it repeats.
   */
  lemma ForwardedReadsBack(s: State, hs: seq<History>, p: seq<Byte>, q: Parsed, route: Route, number: U16)
    requires Inv(s, hs) && Reaches(s, p, q, route) && Forwarded(s, p, number).outcome.Emitted?
    ensures |hs| == |s.media|
    ensures exists original: Option<U16> ::
              && (original.Some? <==> route.payload.rtx)
              && (original.Some? ==> q.payloadSize >= 2 && RtxOriginalIsLatest(SourceHistory(s, hs, q, route), p, q, original.value))
              && ReadsBack(s.media[route.index].mapping, p, q, Forwarded(s, p, number).outcome.output, original, number)
  {
    hide Inv, ParseRewriteable, MediaInv, WellFormed, Built, RouteOf, Bound, Forwarded, Sent, Configured, Refusal, InspectLayout, OriginalFor, ReadsBack,
         RtxOriginalIsLatest;
    InvParts(s, hs, route.index);
    ForwardedIsSent(s, p, q, route, number);
    BoundInv(s, hs, q, route);
    var b, bs, rtx := Bound(s, q, route), BoundHistories(s, hs, q, route), route.payload.rtx;
    InvParts(b, bs, route.index);
    var keyframe := Begins(s, q, route) && s.media[route.index].mapping.kind == "video";
    SentBytes(b, p, q, route, keyframe, number);
    var m := b.media[route.index];
    var original := OriginalFor(m, p, q, rtx);
    if rtx {
      OriginalIsLatest(m, bs[route.index], p, q);
    }
    BuiltReadsBack(m.mapping, p, q, Forwarded(s, p, number).outcome.output, original, number);
  }

  /**
   An RTX packet is dropped for an unknown original exactly when that original is not among the last
   4096 packets forwarded, or was wrapped onto; the latter takes at least 61440 packets that failed
   to build.
   */
  lemma OriginalCachedIff(s: State, hs: seq<History>, p: seq<Byte>, q: Parsed, route: Route, number: U16)
    requires Inv(s, hs) && Reaches(s, p, q, route) && route.payload.rtx
    requires s.media[route.index].mapping.targetRtxSsrc != 0 && q.payloadSize >= 2
    ensures Configured(s.media) && |hs| == |s.media| && |hs[route.index].places| == |hs[route.index].log|
    ensures var h := hs[route.index];
            var latest := SC.Latest(h.log, ReadU16(p, q.payloadOffset));
            && (Forwarded(s, p, number).outcome == Dropped(OriginalNotCached) <==> latest < SC.WindowStart(h.log) || WrappedOnto(h, latest))
            && (latest >= SC.WindowStart(h.log) && WrappedOnto(h, latest) ==> h.lost >= 0x1_0000 - SC.LIMIT)
  {
    hide Inv, ParseRewriteable, InspectLayout, MediaInv, LogNumbered, WellFormed, RouteOf, Forwarded, Configured, Built, Bound, InitialSequence, SC.Remembered,
         Timed, Allocated, WrappedOnto;
    InvParts(s, hs, route.index);
    LogAt(s, hs, route.index);
    CachedIff(s.media[route.index], hs[route.index], ReadU16(p, q.payloadOffset));
    ForwardedIsSent(s, p, q, route, number);
    BoundNumbers(s, q, route);
  }

  /** While fewer than 61440 packets of the source failed to build, exactly the last 4096 forwarded are known. */
  lemma OriginalCachedWithoutLoss(s: State, hs: seq<History>, p: seq<Byte>, q: Parsed, route: Route, number: U16)
    requires Inv(s, hs) && Reaches(s, p, q, route) && route.payload.rtx
    requires s.media[route.index].mapping.targetRtxSsrc != 0 && q.payloadSize >= 2
    requires |hs| == |s.media| && hs[route.index].lost < 0x1_0000 - SC.LIMIT
    ensures Configured(s.media)
    ensures var log, original := hs[route.index].log, ReadU16(p, q.payloadOffset);
            Forwarded(s, p, number).outcome == Dropped(OriginalNotCached) <==> SC.Latest(log, original) < SC.WindowStart(log)
  {
    hide *;
    OriginalCachedIff(s, hs, p, q, route, number);
  }

  lemma LogAt(s: State, hs: seq<History>, i: nat)
    requires Inv(s, hs) && i < |s.media|
    ensures |hs| == |s.media| && LogNumbered(s.media[i].mapping.targetSsrc, hs[i]) && |hs[i].places| == |hs[i].log|
  {
    SamePlaces(s.media[i].mapping.targetSsrc, hs[i]);
    hide MediaInv, LogNumbered, WellFormed, BindingsInv, DistinctTargets;
  }

  lemma BoundNumbers(s: State, q: Parsed, route: Route)
    requires route.index < |s.media| && route.payload.rtx
    ensures Bound(s, q, route).media[route.index].numbers == s.media[route.index].numbers
  {
  }

  // ----- the other operations -----

  lemma RetransmittedInv(s: State, hs: seq<History>, p: seq<Byte>, number: U16)
    requires Inv(s, hs)
    ensures Inv(Retransmitted(s, p, number).state, RetransmittedHistories(s, hs, p, number))
    ensures var given := Retransmitted(s, p, number).given;
            given.Some? ==>
              && ParseRewriteable(p).Ok?
              && var i := MediaFor(s.media, ParseRewriteable(p).value.header.ssrc);
                 && i < |s.media| == |hs|
                 && given == Some(Allocation(s.media[i].mapping.kind, s.media[i].mapping.targetSsrc, true, NextNumber(s.media[i].mapping, hs[i], true)))
  {
    hide ParseRewriteable, MediaInv, WellFormed, BindingsInv, InitialSequence, PrimaryFor, RtxFor, Encapsulated, Numbered, InspectLayout, HeaderOf, LogNumbered;
    if Retransmitted(s, p, number).given.Some? {
      var q := ParseRewriteable(p).value;
      AcceptedHeader(p, q);
      var i := MediaFor(s.media, q.header.ssrc);
      var m := s.media[i];
      AllocatedInv(m, hs[i], true);
      RtxCountedNumbered(m.mapping.targetSsrc, hs[i]);
      SameRecords(s.media, s.bindings, i, Allocated(m, true).0);
      OneMedia(s.media, hs, i, Allocated(m, true).0, Counted(hs[i], true));
    }
  }

  lemma RemappedInv(m: Media, h: History, mapping: Mapping, sameSource: bool)
    requires MediaInv(m, h) && SameTarget(m.mapping, mapping)
    ensures MediaInv(Remapped(m, mapping, sameSource), RemappedHistory(m, h, mapping, sameSource))
  {
    hide SC.Tracks, InitialSequence;
    var moved := m.(mapping := mapping);
    var renumbered := if m.mapping.targetRtxSsrc != mapping.targetRtxSsrc then moved.(rtxStarted := false, nextRtx := 0) else moved;
    var g := if m.mapping.targetRtxSsrc != mapping.targetRtxSsrc then h.(rtxCount := 0) else h;
    assert MediaInv(renumbered, g);
    hide MediaInv;
    SourceClearedInv(renumbered, g);
  }

  lemma {:induction false} BindingsOfInv(media: seq<Media>)
    ensures BindingsInv(media, BindingsOf(media))
  {
    if media != [] {
      var n := |media| - 1;
      BindingsOfInv(media[..n]);
      var before := BindingsOf(media[..n]);
      forall ssrc | ssrc in before
        ensures before[ssrc].index < n && Records(media[before[ssrc].index], ssrc, before[ssrc].rtx)
      {
        assert media[..n][before[ssrc].index] == media[before[ssrc].index];
      }
    }
  }

  /** Rebuilt bindings are complete: every recorded SSRC is bound, to the last media that records it, and there as RTX if it is on record as RTX. */
  lemma {:induction false} BindingsOfAll(media: seq<Media>, ssrc: U32)
    ensures var bindings := BindingsOf(media);
            && (ssrc in bindings <==> exists i :: 0 <= i < |media| && RecordsEither(media[i], ssrc))
            && (ssrc in bindings ==>
                  && bindings[ssrc].index < |media|
                  && RecordsEither(media[bindings[ssrc].index], ssrc)
                  && (bindings[ssrc].rtx <==> media[bindings[ssrc].index].rtxSsrc == Some(ssrc))
                  && forall i :: bindings[ssrc].index < i < |media| ==> !RecordsEither(media[i], ssrc))
  {
    if media != [] {
      var n := |media| - 1;
      BindingsOfAll(media[..n], ssrc);
      assert forall i :: 0 <= i < n ==> media[..n][i] == media[i];
      BoundByIs(BindingsOf(media[..n]), media[n], n, ssrc);
      hide BoundBy, RecordsEither;
    }
  }

  predicate RecordsEither(m: Media, ssrc: U32) {
    m.primarySsrc == Some(ssrc) || m.rtxSsrc == Some(ssrc)
  }

  lemma BoundByIs(bindings: map<U32, SsrcBinding>, m: Media, index: nat, ssrc: U32)
    ensures var n := BoundBy(bindings, m, index);
            if RecordsEither(m, ssrc) then ssrc in n && n[ssrc] == SsrcBinding(index, m.rtxSsrc == Some(ssrc))
            else (ssrc in n <==> ssrc in bindings) && (ssrc in n ==> n[ssrc] == bindings[ssrc])
  {
  }

  lemma ReconfiguredInv(s: State, hs: seq<History>, c: Config)
    requires Inv(s, hs) && ConfigOk(c)
    ensures Inv(Reconfigured(s, c), ReconfiguredHistories(s, hs, c))
  {
    hide MediaInv, WellFormed, BindingsOf, Remapped, RemappedHistory, InitialSequence;
    BindingsOfInv(ConfiguredMedia(s, c));
    hide BindingsInv;
    forall i | 0 <= i < |c.media|
      ensures MediaInv(ConfiguredMedia(s, c)[i], ReconfiguredHistories(s, hs, c)[i]) && ConfiguredMedia(s, c)[i].mapping == c.media[i]
      ensures LogNumbered(c.media[i].targetSsrc, ReconfiguredHistories(s, hs, c)[i])
    {
      var k := Previous(s.media, c.media[i]);
      if k < |s.media| {
        RemappedInv(s.media[k], hs[k], c.media[i], s.available && s.session == c.session);
        RemappedMapping(s.media[k], c.media[i], s.available && s.session == c.session);
        RemappedNumbered(s.media[k], hs[k], c.media[i], s.available && s.session == c.session);
      } else {
        NewMediaInv(c.media[i]);
      }
    }
  }

  lemma RemappedNumbered(m: Media, h: History, mapping: Mapping, sameSource: bool)
    requires LogNumbered(m.mapping.targetSsrc, h) && SameTarget(m.mapping, mapping)
    ensures LogNumbered(mapping.targetSsrc, RemappedHistory(m, h, mapping, sameSource))
  {
    hide InitialSequence;
  }

  lemma RemappedMapping(m: Media, mapping: Mapping, sameSource: bool)
    ensures Remapped(m, mapping, sameSource).mapping == mapping
  {
  }

  lemma ClearedInv(s: State, hs: seq<History>)
    requires Inv(s, hs)
    ensures Inv(Cleared(s), ClearedHistories(hs))
  {
    hide MediaInv, WellFormed;
    forall i | 0 <= i < |s.media|
      ensures MediaInv(Cleared(s).media[i], ClearedHistories(hs)[i])
    {
      SourceClearedInv(s.media[i], hs[i]);
    }
  }
}
