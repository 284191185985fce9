/**
 The output timeline across sources: a media's high-water mark survives cleared sources and new
 configurations, so whatever source begins next starts after everything the mark stands for.
 */
module RewriterTimeline {
  import opened Wire
  import opened RtpPacket
  import SC = SequenceCache
  import opened RewriterMedia
  import opened ExtensionRewriting
  import opened RtpRewriter
  import opened RtxEncapsulation
  import opened RewriterInvariant
  import opened RewriterRuns

  /** The output has sent, and its high-water mark is `mark`. */
  ghost predicate Marked(media: seq<Media>, x: Stream, mark: U32) {
    && (exists i :: 0 <= i < |media| && IsMedia(media[i].mapping, x))
    && forall i :: 0 <= i < |media| && IsMedia(media[i].mapping, x) ==> MarkedAt(media[i], mark)
  }

  predicate MarkedAt(m: Media, mark: U32) {
    m.timestampStarted && m.lastTimestamp == mark
  }

  /** The event is a packet for this output, sent or refused. */
  ghost predicate IsFor(s: State, e: Event, x: Stream) {
    e.Forward? && ParseRewriteable(e.packet).Ok? &&
    var q := ParseRewriteable(e.packet).value;
    RouteOf(s, q).Some? && Reaches(s, e.packet, q, RouteOf(s, q).value) && IsMedia(s.media[RouteOf(s, q).value.index].mapping, x)
  }

  // ----- one step -----

  lemma SentMark(s: State, p: seq<Byte>, q: Parsed, route: Route, keyframe: bool, number: U16)
    requires ParseRewriteable(p) == Ok(q) && RouteOk(s, route) && s.media[route.index].sourceAnchor.Some?
    ensures var m, n := s.media[route.index], Sent(s, p, q, route, keyframe, number).state.media[route.index];
            && (m.timestampStarted ==> n.timestampStarted)
            && (n.lastTimestamp == m.lastTimestamp || Newer(n.lastTimestamp, m.lastTimestamp))
  {
    hide ParseRewriteable, WellFormed, Built, Refusal, OriginalFor, Allocated, Timed, SC.Remembered, Newer;
    AllocatedMark(s.media[route.index], route.payload.rtx, q.header.timestamp);
  }

  lemma AllocatedMark(m: Media, rtx: bool, timestamp: U32)
    requires m.sourceAnchor.Some?
    ensures var n := Timed(Allocated(m, rtx).0, timestamp).0;
            n.timestampStarted == m.timestampStarted && (n.lastTimestamp == m.lastTimestamp || Newer(n.lastTimestamp, m.lastTimestamp))
  {
    hide InitialSequence, Newer;
  }

  lemma BoundMark(s: State, q: Parsed, route: Route)
    requires route.index < |s.media|
    ensures var m, n := s.media[route.index], Bound(s, q, route).media[route.index];
            m.timestampStarted ==> n.timestampStarted && (n.lastTimestamp == m.lastTimestamp || Newer(n.lastTimestamp, m.lastTimestamp))
  {
    hide SourceChanged, Newer, MappedTimestamp, PrimaryBegun;
    var m := s.media[route.index];
    if m.timestampStarted {
      NewSourceStartsNewer(m, q.header.ssrc, q.header.payloadType, q.header.timestamp, route.payload.clockRate);
      BegunStays(m, q, route.payload);
    }
  }

  lemma BegunStays(m: Media, q: Parsed, payload: PayloadMapping)
    ensures Begun(m, q, payload).timestampStarted && Begun(m, q, payload).sourceAnchor.Some?
  {
  }

  /** Forwarding touches the mark of the packet's own media alone, and never turns it back. */
  lemma ForwardMark(s: State, hs: seq<History>, p: seq<Byte>, number: U16, k: nat)
    requires Inv(s, hs) && Configured(s.media) && k < |s.media| && s.media[k].timestampStarted
    ensures |Forwarded(s, p, number).state.media| == |s.media|
    ensures var m, n := s.media[k], Forwarded(s, p, number).state.media[k];
            && n.mapping == m.mapping && n.timestampStarted
            && (n.lastTimestamp == m.lastTimestamp || Newer(n.lastTimestamp, m.lastTimestamp))
            && (n.lastTimestamp != m.lastTimestamp ==>
                  && ParseRewriteable(p).Ok? && RouteOf(s, ParseRewriteable(p).value).Some?
                  && RouteOf(s, ParseRewriteable(p).value).value.index == k
                  && Reaches(s, p, ParseRewriteable(p).value, RouteOf(s, ParseRewriteable(p).value).value))
  {
    hide ParseRewriteable, WellFormed, Sent, Bound, RouteOf, Inv, Begins, Newer;
    if ParseRewriteable(p).Ok? {
      var q := ParseRewriteable(p).value;
      var route := RouteOf(s, q);
      if route.Some? && Reaches(s, p, q, route.value) {
        var i := route.value.index;
        ForwardedIsSent(s, p, q, route.value, number);
        BoundInv(s, hs, q, route.value);
        var b := Bound(s, q, route.value);
        var keyframe := Begins(s, q, route.value) && s.media[i].mapping.kind == "video";
        SentFrame(b, p, q, route.value, keyframe, number);
        BoundMark(s, q, route.value);
        SentMark(b, p, q, route.value, keyframe, number);
        BeginningMark(s, hs, p, q, route.value, keyframe, number);
      }
    }
  }

  /** In one step the mark moves once: a packet that begins a source is itself the new mark. */
  lemma BeginningMark(s: State, hs: seq<History>, p: seq<Byte>, q: Parsed, route: Route, keyframe: bool, number: U16)
    requires Inv(s, hs) && route.index < |s.media|
    requires ParseRewriteable(p) == Ok(q) && RouteOk(Bound(s, q, route), route) && Bound(s, q, route).media[route.index].sourceAnchor.Some?
    requires route.payload.rtx ==> s.media[route.index].primarySsrc.Some?
    ensures var b := Bound(s, q, route);
            b.media[route.index].lastTimestamp != s.media[route.index].lastTimestamp ==>
              Sent(b, p, q, route, keyframe, number).state.media[route.index].lastTimestamp == b.media[route.index].lastTimestamp
  {
    hide Inv, ParseRewriteable, WellFormed, SourceChanged, Newer, Sent;
    var b := Bound(s, q, route);
    if b.media[route.index].lastTimestamp != s.media[route.index].lastTimestamp {
      BegunAtAnchor(s, q, route);
      hide Bound;
      SentAtMark(b, p, q, route, keyframe, number);
    }
  }

  lemma BegunAtAnchor(s: State, q: Parsed, route: Route)
    requires route.index < |s.media| && Bound(s, q, route).media[route.index].lastTimestamp != s.media[route.index].lastTimestamp
    ensures var m := Bound(s, q, route).media[route.index];
            m.sourceAnchor.Some? && MappedTimestamp(m, q.header.timestamp) == m.lastTimestamp
  {
    hide SourceChanged, Begun, MappedTimestamp;
    AnchorIsMark(s.media[route.index], q, route.payload);
  }

  lemma AnchorIsMark(m: Media, q: Parsed, payload: PayloadMapping)
    ensures var b := Begun(m, q, payload); b.sourceAnchor.Some? && MappedTimestamp(b, q.header.timestamp) == b.lastTimestamp
  {
    hide InitialTimestampOffset, TimestampStep;
  }

  lemma SentAtMark(s: State, p: seq<Byte>, q: Parsed, route: Route, keyframe: bool, number: U16)
    requires ParseRewriteable(p) == Ok(q) && RouteOk(s, route) && s.media[route.index].sourceAnchor.Some?
    requires MappedTimestamp(s.media[route.index], q.header.timestamp) == s.media[route.index].lastTimestamp
    ensures Sent(s, p, q, route, keyframe, number).state.media[route.index].lastTimestamp == s.media[route.index].lastTimestamp
  {
    hide ParseRewriteable, WellFormed, Built, Refusal, OriginalFor, Allocated, Timed, SC.Remembered;
    var m := s.media[route.index];
    AllocatedAtMark(m, route.payload.rtx, q.header.timestamp);
  }

  lemma AllocatedAtMark(m: Media, rtx: bool, timestamp: U32)
    requires m.sourceAnchor.Some? && MappedTimestamp(m, timestamp) == m.lastTimestamp
    ensures Timed(Allocated(m, rtx).0, timestamp).0.lastTimestamp == m.lastTimestamp
  {
    hide InitialSequence;
  }

  lemma RetransmitMark(s: State, p: seq<Byte>, number: U16, k: nat)
    requires Configured(s.media) && k < |s.media|
    ensures |Retransmitted(s, p, number).state.media| == |s.media|
    ensures var n := Retransmitted(s, p, number).state.media[k];
            n.mapping == s.media[k].mapping && n.timestampStarted == s.media[k].timestampStarted && n.lastTimestamp == s.media[k].lastTimestamp
  {
    hide ParseRewriteable, WellFormed, InitialSequence, PrimaryFor, RtxFor, Encapsulated, Numbered, InspectLayout;
  }

  lemma ClearMark(s: State, x: Stream, mark: U32)
    requires Marked(s.media, x, mark)
    ensures Marked(Cleared(s).media, x, mark)
  {
    var i :| 0 <= i < |s.media| && IsMedia(s.media[i].mapping, x);
    assert IsMedia(Cleared(s).media[i].mapping, x);
  }

  lemma ConfigureMark(s: State, c: Config, x: Stream, mark: U32)
    requires Marked(s.media, x, mark) && KeepsStream(c, x)
    ensures Marked(Reconfigured(s, c).media, x, mark)
  {
    hide Marked, BindingsOf, MarkedAt;
    var sameSource := s.available && s.session == c.session;
    forall i | 0 <= i < |c.media|
      ensures Reconfigured(s, c).media[i].mapping == c.media[i]
      ensures IsMedia(c.media[i], x) ==> MarkedAt(Reconfigured(s, c).media[i], mark)
    {
      CarriedMark(s.media, c.media[i], sameSource, x, mark);
    }
    var kept :| 0 <= kept < |c.media| && IsMedia(c.media[kept], x);
    MarkedWhen(Reconfigured(s, c).media, x, mark, kept);
  }

  lemma MarkedWhen(media: seq<Media>, x: Stream, mark: U32, kept: nat)
    requires kept < |media| && IsMedia(media[kept].mapping, x)
    requires forall i :: 0 <= i < |media| && IsMedia(media[i].mapping, x) ==> MarkedAt(media[i], mark)
    ensures Marked(media, x, mark)
  {
  }

  lemma CarriedMark(media: seq<Media>, mapping: Mapping, sameSource: bool, x: Stream, mark: U32)
    requires Marked(media, x, mark)
    ensures Carried(media, mapping, sameSource).mapping == mapping
    ensures IsMedia(mapping, x) ==> MarkedAt(Carried(media, mapping, sameSource), mark)
  {
    if IsMedia(mapping, x) {
      var i :| 0 <= i < |media| && IsMedia(media[i].mapping, x);
      assert SameTarget(media[i].mapping, mapping);
      assert IsMedia(media[Previous(media, mapping)].mapping, x);
    }
  }

  /**
   Every event that keeps the output keeps its timeline: once it has sent it always has, the mark moves
   only with a packet for this output, and then only to a newer time.
   */
  lemma NextMark(s: State, hs: seq<History>, e: Event, x: Stream, mark: U32) returns (after: U32)
    requires Inv(s, hs) && Configured(s.media) && Marked(s.media, x, mark) && EventOk(e) && (e.Configure? ==> KeepsStream(e.config, x))
    ensures Marked(Next(s, e).state.media, x, after)
    ensures after == mark || (IsFor(s, e, x) && Newer(after, mark))
  {
    hide Inv, Configured, Forwarded, Retransmitted, Reconfigured, Cleared, Newer, ParseRewriteable, RouteOf, Reaches;
    after := mark;
    var i :| 0 <= i < |s.media| && IsMedia(s.media[i].mapping, x);
    assert MarkedAt(s.media[i], mark);
    match e {
      case Configure(c) => ConfigureMark(s, c, x, mark);
      case ClearSource => ClearMark(s, x, mark);
      case Forward(p, number) =>
        DistinctMedia(s, hs, x, i);
        ForwardMark(s, hs, p, number, i);
        after := Forwarded(s, p, number).state.media[i].lastTimestamp;
        SameMappings(s, hs, p, number);
        OnlyMarked(s.media, Forwarded(s, p, number).state.media, x, i, after);
      case Retransmit(p, number) =>
        DistinctMedia(s, hs, x, i);
        RetransmitMark(s, p, number, i);
        RetransmitShape(s, hs, p, number);
        OnlyMarked(s.media, Retransmitted(s, p, number).state.media, x, i, mark);
    }
  }

  lemma SameMappings(s: State, hs: seq<History>, p: seq<Byte>, number: U16)
    requires Inv(s, hs) && Configured(s.media)
    ensures |Forwarded(s, p, number).state.media| == |s.media|
    ensures forall k :: 0 <= k < |s.media| ==> Forwarded(s, p, number).state.media[k].mapping == s.media[k].mapping
  {
    InvShape(s, hs);
    hide Inv, Forwarded, ForwardedHistories, Configured;
    var i := ForwardShape(s, hs, p, number);
  }

  /** One media has the output. */
  lemma DistinctMedia(s: State, hs: seq<History>, x: Stream, i: nat)
    requires Inv(s, hs) && i < |s.media| && IsMedia(s.media[i].mapping, x)
    ensures |hs| == |s.media| && forall k :: 0 <= k < |s.media| && IsMedia(s.media[k].mapping, x) ==> k == i
  {
    InvShape(s, hs);
    hide Inv;
  }

  lemma OnlyMarked(media: seq<Media>, after: seq<Media>, x: Stream, i: nat, mark: U32)
    requires |after| == |media| && i < |media| && IsMedia(media[i].mapping, x)
    requires forall k :: 0 <= k < |media| && IsMedia(media[k].mapping, x) ==> k == i
    requires forall k :: 0 <= k < |media| ==> after[k].mapping == media[k].mapping
    requires MarkedAt(after[i], mark)
    ensures Marked(after, x, mark)
  {
    assert IsMedia(after[i].mapping, x);
  }

  // ----- runs -----

  ghost predicate NoneFor(s: State, hs: seq<History>, es: seq<Event>, x: Stream)
    requires Inv(s, hs) && RunOk(es, x)
    decreases |es|
  {
    es == [] || (NextInv(s, hs, es[0]); !IsFor(s, es[0], x) && NoneFor(Next(s, es[0]).state, NextHistories(s, hs, es[0]), es[1..], x))
  }

  /** Whatever comes between two packets for an output leaves its mark where it was. */
  lemma {:induction false} MarkOverRun(s: State, hs: seq<History>, es: seq<Event>, x: Stream, mark: U32)
    requires Inv(s, hs) && RunOk(es, x) && Marked(s.media, x, mark) && NoneFor(s, hs, es, x)
    ensures forall i :: 0 <= i < |es| ==> EventOk(es[i])
    ensures Marked(After(s, hs, es).0.media, x, mark)
    decreases |es|
  {
    hide Inv, Marked, IsFor, EventOk, KeepsStream, Next, NextHistories, Configured;
    if es != [] {
      NextInv(s, hs, es[0]);
      var after := NextMark(s, hs, es[0], x, mark);
      MarkOverRun(Next(s, es[0]).state, NextHistories(s, hs, es[0]), es[1..], x, mark);
    }
  }

  /** A packet that came out leaves its output marked, no earlier than itself. */
  lemma ForwardedIsMarked(s: State, hs: seq<History>, p: seq<Byte>, q: Parsed, route: Route, number: U16, x: Stream)
    requires Inv(s, hs) && Reaches(s, p, q, route) && Configured(s.media) && Forwarded(s, p, number).outcome.Emitted?
    requires IsMedia(s.media[route.index].mapping, x)
    ensures |Forwarded(s, p, number).state.media| == |s.media|
    ensures var after := Forwarded(s, p, number).state.media;
            Marked(after, x, after[route.index].lastTimestamp) && !Newer(Forwarded(s, p, number).outcome.output.timestamp, after[route.index].lastTimestamp)
  {
    hide Inv, ParseRewriteable, RouteOf, Forwarded, Configured, Begins, NextNumber, Newer, MappedTimestamp;
    ForwardedPacket(s, hs, p, q, route, number);
    ForwardedInv(s, hs, p, number);
    var n := Forwarded(s, p, number).state;
    InvParts(n, ForwardedHistories(s, hs, p, number), route.index);
    SameMappings(s, hs, p, number);
    DistinctMedia(s, hs, x, route.index);
    AnchoredIsStarted(n.media[route.index], ForwardedHistories(s, hs, p, number)[route.index]);
    OnlyMarked(s.media, n.media, x, route.index, n.media[route.index].lastTimestamp);
  }

  /**
   A source that begins after a packet of the output came out, whatever was cleared, configured,
   forwarded elsewhere or sent again in between, starts strictly newer than the mark that packet left:
   by 10 ms of the media's clock, or one tick of a clock below 100 Hz.
   */
  lemma LaterSourceStartsNewer(s: State, hs: seq<History>, es: seq<Event>, x: Stream, mark: U32, p: seq<Byte>, q: Parsed, route: Route, number: U16)
    requires Inv(s, hs) && RunOk(es, x) && Marked(s.media, x, mark) && NoneFor(s, hs, es, x)
    requires var t := After(s, hs, es).0;
             && Reaches(t, p, q, route) && Begins(t, q, route) && IsMedia(t.media[route.index].mapping, x)
             && Configured(t.media) && Forwarded(t, p, number).outcome.Emitted?
    ensures var o := Forwarded(After(s, hs, es).0, p, number).outcome.output;
            && Newer(o.timestamp, mark)
            && o.timestamp == (mark + TimestampStep(route.payload.clockRate)) % 0x1_0000_0000
  {
    hide Inv, Marked, NoneFor, After, RunOk, Reaches, Begins, Configured, Forwarded, Newer, TimestampStep;
    MarkOverRun(s, hs, es, x, mark);
    var (t, ts) := After(s, hs, es);
    InvShape(t, ts);
    ReachedIndex(t, p, q, route);
    MarkAt(t.media, x, mark, route.index);
    BeginsAtStep(t, ts, p, q, route, number);
  }

  lemma ReachedIndex(s: State, p: seq<Byte>, q: Parsed, route: Route)
    requires Reaches(s, p, q, route)
    ensures route.index < |s.media|
  {
    hide ParseRewriteable, RouteOf;
  }

  lemma MarkAt(media: seq<Media>, x: Stream, mark: U32, i: nat)
    requires Marked(media, x, mark) && i < |media| && IsMedia(media[i].mapping, x)
    ensures media[i].timestampStarted && media[i].lastTimestamp == mark
  {
  }

  lemma BeginsAtStep(s: State, hs: seq<History>, p: seq<Byte>, q: Parsed, route: Route, number: U16)
    requires Inv(s, hs) && Reaches(s, p, q, route) && Begins(s, q, route) && s.media[route.index].timestampStarted
    requires Configured(s.media) && Forwarded(s, p, number).outcome.Emitted?
    ensures var o, m := Forwarded(s, p, number).outcome.output, s.media[route.index];
            && Newer(o.timestamp, m.lastTimestamp)
            && o.timestamp == (m.lastTimestamp + TimestampStep(route.payload.clockRate)) % 0x1_0000_0000
  {
    hide Inv, ParseRewriteable, RouteOf, Forwarded, Configured, NextNumber, Newer, Sent, TimestampStep, WellFormed;
    ForwardedPacket(s, hs, p, q, route, number);
    ForwardedIsSent(s, p, q, route, number);
    BoundInv(s, hs, q, route);
    var b := Bound(s, q, route);
    var keyframe := Begins(s, q, route) && s.media[route.index].mapping.kind == "video";
    SentFrame(b, p, q, route, keyframe, number);
    BegunAnchor(s, q, route);
  }

  lemma BegunAnchor(s: State, q: Parsed, route: Route)
    requires route.index < |s.media| && Begins(s, q, route) && s.media[route.index].timestampStarted
    ensures var m, b := s.media[route.index], Bound(s, q, route).media[route.index];
            b.sourceAnchor == Some(q.header.timestamp) && b.targetAnchor == (m.lastTimestamp + TimestampStep(route.payload.clockRate)) % 0x1_0000_0000
  {
    hide SourceChanged, TimestampStep;
  }

  /** The very first source of an output is moved by the offset that belongs to the output's SSRC. */
  lemma FirstSourceOffset(s: State, hs: seq<History>, p: seq<Byte>, q: Parsed, route: Route, number: U16)
    requires Inv(s, hs) && Reaches(s, p, q, route) && Begins(s, q, route) && !s.media[route.index].timestampStarted
    requires Configured(s.media) && Forwarded(s, p, number).outcome.Emitted?
    ensures Forwarded(s, p, number).outcome.output.timestamp
            == (q.header.timestamp + InitialTimestampOffset(s.media[route.index].mapping.targetSsrc)) % 0x1_0000_0000
  {
    hide Inv, ParseRewriteable, RouteOf, Forwarded, Configured, NextNumber, Newer, Sent, TimestampStep, WellFormed, InitialTimestampOffset;
    ForwardedPacket(s, hs, p, q, route, number);
    ForwardedIsSent(s, p, q, route, number);
    BoundInv(s, hs, q, route);
    var b := Bound(s, q, route);
    var keyframe := Begins(s, q, route) && s.media[route.index].mapping.kind == "video";
    SentFrame(b, p, q, route, keyframe, number);
    FirstAnchor(s, q, route);
  }

  lemma FirstAnchor(s: State, q: Parsed, route: Route)
    requires route.index < |s.media| && Begins(s, q, route) && !s.media[route.index].timestampStarted
    ensures var m, b := s.media[route.index], Bound(s, q, route).media[route.index];
            && b.sourceAnchor == Some(q.header.timestamp)
            && b.targetAnchor == (q.header.timestamp + InitialTimestampOffset(m.mapping.targetSsrc)) % 0x1_0000_0000
  {
    hide SourceChanged, TimestampStep, InitialTimestampOffset;
  }

  // ----- what is recorded of a source -----

  /**
   Of a primary packet that gets as far as its media, source, payload type and clock are on record
   afterwards, and the packet begins a source exactly when they were not on record before; the SSRC is
   bound to that media. Of an RTX packet the SSRC is recorded and bound as the media's RTX source.
   */
  lemma SourceIsRecorded(s: State, hs: seq<History>, p: seq<Byte>, q: Parsed, route: Route, number: U16)
    requires Inv(s, hs) && Reaches(s, p, q, route) && Configured(s.media)
    ensures |Forwarded(s, p, number).state.media| == |s.media|
    ensures var m, after := s.media[route.index], Forwarded(s, p, number).state;
            var n := after.media[route.index];
            && (route.payload.rtx ==>
                  && n.rtxSsrc == Some(q.header.ssrc) && n.primarySsrc == m.primarySsrc
                  && (m.rtxSsrc != Some(q.header.ssrc) ==> q.header.ssrc in after.bindings && after.bindings[q.header.ssrc] == SsrcBinding(route.index, true)))
            && (!route.payload.rtx ==>
                  && n.primarySsrc == Some(q.header.ssrc) && n.primaryPayloadType == Some(q.header.payloadType) && n.clockRate == route.payload.clockRate
                  && (Begins(s, q, route) <==> !(m.primarySsrc == Some(q.header.ssrc) && m.primaryPayloadType == Some(q.header.payloadType)
                                                 && m.clockRate == route.payload.clockRate))
                  && (Begins(s, q, route) ==>
                        && q.header.ssrc in after.bindings && after.bindings[q.header.ssrc] == SsrcBinding(route.index, false)
                        && n.rtxSsrc == None
                        && forall other :: other in after.bindings && other != q.header.ssrc ==> after.bindings[other].index != route.index))
  {
    hide Inv, ParseRewriteable, WellFormed, Sent, RouteOf, Configured, Forwarded, PayloadFor;
    ForwardedIsSent(s, p, q, route, number);
    BoundInv(s, hs, q, route);
    var keyframe := Begins(s, q, route) && s.media[route.index].mapping.kind == "video";
    SentFrame(Bound(s, q, route), p, q, route, keyframe, number);
    BoundRecord(s, q, route);
    hide Bound, Begins;
  }

  lemma BoundRecord(s: State, q: Parsed, route: Route)
    requires route.index < |s.media|
    ensures var m, b := s.media[route.index], Bound(s, q, route);
            var n := b.media[route.index];
            && (route.payload.rtx ==>
                  && n.rtxSsrc == Some(q.header.ssrc) && n.primarySsrc == m.primarySsrc
                  && (m.rtxSsrc != Some(q.header.ssrc) ==> q.header.ssrc in b.bindings && b.bindings[q.header.ssrc] == SsrcBinding(route.index, true)))
            && (!route.payload.rtx ==>
                  && n.primarySsrc == Some(q.header.ssrc) && n.primaryPayloadType == Some(q.header.payloadType) && n.clockRate == route.payload.clockRate
                  && (Begins(s, q, route) <==> !(m.primarySsrc == Some(q.header.ssrc) && m.primaryPayloadType == Some(q.header.payloadType)
                                                 && m.clockRate == route.payload.clockRate))
                  && (Begins(s, q, route) ==>
                        && q.header.ssrc in b.bindings && b.bindings[q.header.ssrc] == SsrcBinding(route.index, false)
                        && n.rtxSsrc == None
                        && forall other :: other in b.bindings && other != q.header.ssrc ==> b.bindings[other].index != route.index))
  {
    hide InitialTimestampOffset;
  }

  /** Clearing and configuring: no source is on record where it ended, and everything is as it was where it goes on. */
  lemma ClearedForgets(s: State, k: nat)
    requires k < |s.media|
    ensures var n := Cleared(s);
            && |n.media| == |s.media| && !n.available && n.bindings == map[]
            && NoSource(n.media[k]) && SameNumbering(s.media[k], n.media[k]) && n.media[k].mapping == s.media[k].mapping
  {
  }

  predicate NoSource(m: Media) {
    m.primarySsrc.None? && m.rtxSsrc.None? && m.primaryPayloadType.None? && m.sourceAnchor.None? && m.numbers == SC.EMPTY
  }

  predicate SameNumbering(m: Media, n: Media) {
    && n.primaryStarted == m.primaryStarted && n.nextPrimary == m.nextPrimary && n.rtxStarted == m.rtxStarted && n.nextRtx == m.nextRtx
    && n.timestampStarted == m.timestampStarted && n.lastTimestamp == m.lastTimestamp
  }

  /**
   A media of the new configuration goes on from the one with its kind and SSRC: with its source while
   publisher and source MID stay, without it otherwise; its RTX numbering starts anew with a new RTX SSRC.
   A media without such a predecessor is new.
   */
  lemma ReconfiguredMedia(s: State, hs: seq<History>, c: Config, i: nat)
    requires Inv(s, hs) && i < |c.media|
    ensures var n := Reconfigured(s, c);
            && n.available && n.session == c.session && |n.media| == |c.media| && n.media[i].mapping == c.media[i]
            && (forall k :: 0 <= k < |s.media| && SameTarget(s.media[k].mapping, c.media[i]) ==>
                  && (if s.available && s.session == c.session && s.media[k].mapping.sourceMid == c.media[i].sourceMid
                      then SameSourceRecord(s.media[k], n.media[i]) else NoSource(n.media[i]))
                  && SamePrimaryNumbering(s.media[k], n.media[i])
                  && (s.media[k].mapping.targetRtxSsrc == c.media[i].targetRtxSsrc ==> SameNumbering(s.media[k], n.media[i]))
                  && (s.media[k].mapping.targetRtxSsrc != c.media[i].targetRtxSsrc ==> !n.media[i].rtxStarted))
            && ((forall k :: 0 <= k < |s.media| ==> !SameTarget(s.media[k].mapping, c.media[i])) ==>
                  NoSource(n.media[i]) && !n.media[i].primaryStarted && !n.media[i].rtxStarted && !n.media[i].timestampStarted)
  {
    hide BindingsOf, Carried, SameSourceRecord, SamePrimaryNumbering, SameNumbering, NoSource;
    InvShape(s, hs);
    hide Inv;
    var sameSource := s.available && s.session == c.session;
    CarriedMapping(s.media, c.media[i], sameSource);
    forall k | 0 <= k < |s.media| && SameTarget(s.media[k].mapping, c.media[i])
      ensures Previous(s.media, c.media[i]) == k
    {
    }
    CarriedFrom(s.media, c.media[i], sameSource);
  }

  lemma CarriedFrom(media: seq<Media>, mapping: Mapping, sameSource: bool)
    ensures var n, k := Carried(media, mapping, sameSource), Previous(media, mapping);
            if k < |media| then
              && (if sameSource && media[k].mapping.sourceMid == mapping.sourceMid then SameSourceRecord(media[k], n) else NoSource(n))
              && SamePrimaryNumbering(media[k], n)
              && (media[k].mapping.targetRtxSsrc == mapping.targetRtxSsrc ==> SameNumbering(media[k], n))
              && (media[k].mapping.targetRtxSsrc != mapping.targetRtxSsrc ==> !n.rtxStarted)
            else NoSource(n) && !n.primaryStarted && !n.rtxStarted && !n.timestampStarted
  {
  }

  predicate SameSourceRecord(m: Media, n: Media) {
    && n.primarySsrc == m.primarySsrc && n.rtxSsrc == m.rtxSsrc && n.primaryPayloadType == m.primaryPayloadType && n.clockRate == m.clockRate
    && n.sourceAnchor == m.sourceAnchor && n.targetAnchor == m.targetAnchor && n.numbers == m.numbers
  }

  predicate SamePrimaryNumbering(m: Media, n: Media) {
    && n.primaryStarted == m.primaryStarted && n.nextPrimary == m.nextPrimary && n.timestampStarted == m.timestampStarted
    && n.lastTimestamp == m.lastTimestamp
  }
}
