/**
 Whole runs of the WHEP RTP rewriter: output numbering over any interleaving of configuration,
 source changes, forwarding and retransmission, the timeline within a source, and the agreement of
 the timestamp query with what was sent.
 */
module RewriterRuns {
  import opened Wire
  import opened HeaderExtensions
  import opened RtpPacket
  import SC = SequenceCache
  import opened RewriterMedia
  import opened ExtensionRewriting
  import opened RewrittenPacket
  import opened RtxEncapsulation
  import opened RtpRewriter
  import opened RewriterInvariant

  datatype Event =
    | Configure(config: Config)
    | ClearSource
    | Forward(packet: seq<Byte>, number: U16)
    | Retransmit(packet: seq<Byte>, number: U16)

  ghost predicate EventOk(e: Event) {
    e.Configure? ==> ConfigOk(e.config)
  }

  function Next(s: State, e: Event): Effect
    requires Configured(s.media)
  {
    match e
    case Configure(c) => Effect(Reconfigured(s, c), Quiet, None)
    case ClearSource => Effect(Cleared(s), Quiet, None)
    case Forward(p, number) => Forwarded(s, p, number)
    case Retransmit(p, number) => Retransmitted(s, p, number)
  }

  ghost function NextHistories(s: State, hs: seq<History>, e: Event): seq<History>
    requires Configured(s.media) && |hs| == |s.media|
  {
    match e
    case Configure(c) => ReconfiguredHistories(s, hs, c)
    case ClearSource => ClearedHistories(hs)
    case Forward(p, number) => ForwardedHistories(s, hs, p, number)
    case Retransmit(p, number) => RetransmittedHistories(s, hs, p, number)
  }

  lemma NextInv(s: State, hs: seq<History>, e: Event)
    requires Inv(s, hs) && EventOk(e)
    ensures Configured(s.media) && |hs| == |s.media|
    ensures Inv(Next(s, e).state, NextHistories(s, hs, e))
  {
    InvShape(s, hs);
    hide Inv, Configured;
    match e
    case Configure(c) => ReconfiguredInv(s, hs, c);
    case ClearSource => ClearedInv(s, hs);
    case Forward(p, number) => ForwardedInv(s, hs, p, number);
    case Retransmit(p, number) => RetransmittedInv(s, hs, p, number);
  }

  lemma FreshInv()
    ensures Inv(FRESH, [])
  {
  }

  // ----- the stream of numbers of one output -----

  /** An output stream: the media key, and for RTX also the SSRC its numbers belong to. */
  datatype Stream = Stream(kind: string, targetSsrc: U32, rtx: bool, ssrc: U32)

  predicate IsMedia(m: Mapping, x: Stream) {
    m.kind == x.kind && m.targetSsrc == x.targetSsrc
  }

  /** The configuration keeps the stream, under the same SSRC. */
  ghost predicate KeepsStream(c: Config, x: Stream) {
    && (exists i :: 0 <= i < |c.media| && IsMedia(c.media[i], x))
    && (forall i :: 0 <= i < |c.media| && IsMedia(c.media[i], x) ==> TargetSsrc(c.media[i], x.rtx) == x.ssrc)
  }

  ghost predicate RunOk(es: seq<Event>, x: Stream) {
    forall i :: 0 <= i < |es| ==> EventOk(es[i]) && (es[i].Configure? ==> KeepsStream(es[i].config, x))
  }

  function NumberGiven(given: Option<Allocation>, x: Stream): seq<U16> {
    if given.Some? && given.value.kind == x.kind && given.value.targetSsrc == x.targetSsrc && given.value.rtx == x.rtx then [given.value.number] else []
  }

  /** Every number the run hands out for the stream, in order. */
  ghost function Numbers(s: State, hs: seq<History>, es: seq<Event>, x: Stream): seq<U16>
    requires Inv(s, hs) && RunOk(es, x)
    decreases |es|
  {
    if es == [] then []
    else
      NextInv(s, hs, es[0]);
      NumberGiven(Next(s, es[0]).given, x) + Numbers(Next(s, es[0]).state, NextHistories(s, hs, es[0]), es[1..], x)
  }

  function Count(h: History, rtx: bool): nat {
    if rtx then h.rtxCount else h.primaryCount
  }

  /** So far the stream was given `n` numbers; before its first configuration it has none. */
  ghost predicate GivenSoFar(media: seq<Media>, hs: seq<History>, x: Stream, n: nat)
    requires |hs| == |media|
  {
    && (forall i :: 0 <= i < |media| && IsMedia(media[i].mapping, x) ==> Count(hs[i], x.rtx) == n && TargetSsrc(media[i].mapping, x.rtx) == x.ssrc)
    && ((forall i :: 0 <= i < |media| ==> !IsMedia(media[i].mapping, x)) ==> n == 0)
  }

  function NthNumber(x: Stream, n: nat): U16 {
    (InitialSequence(x.ssrc) + n) % 0x1_0000
  }

  lemma OneCounted(media: seq<Media>, hs: seq<History>, after: seq<Media>, hs': seq<History>, x: Stream, n: nat, i: nat, rtx: bool)
    requires |hs| == |media| == |after| == |hs'| && DistinctTargets(media) && GivenSoFar(media, hs, x, n) && i < |media|
    requires forall k :: 0 <= k < |media| ==> after[k].mapping == media[k].mapping
    requires forall k :: 0 <= k < |media| ==> forall kind :: Count(hs'[k], kind) == Count(hs[k], kind) + if k == i && kind == rtx then 1 else 0
    ensures GivenSoFar(after, hs', x, if IsMedia(media[i].mapping, x) && rtx == x.rtx then n + 1 else n)
  {
  }

  lemma NoneCounted(media: seq<Media>, hs: seq<History>, after: seq<Media>, hs': seq<History>, x: Stream, n: nat)
    requires |hs| == |media| == |after| == |hs'| && GivenSoFar(media, hs, x, n)
    requires forall k :: 0 <= k < |media| ==> after[k].mapping == media[k].mapping && Count(hs'[k], x.rtx) == Count(hs[k], x.rtx)
    ensures GivenSoFar(after, hs', x, n)
  {
  }

  lemma RetransmitCounts(s: State, hs: seq<History>, p: seq<Byte>, number: U16, x: Stream, n: nat)
    requires Inv(s, hs) && |hs| == |s.media| && Configured(s.media) && GivenSoFar(s.media, hs, x, n)
    ensures var effect := Retransmitted(s, p, number);
            && NumberGiven(effect.given, x) == (if NumberGiven(effect.given, x) == [] then [] else [NthNumber(x, n)])
            && |effect.state.media| == |s.media|
            && GivenSoFar(effect.state.media, RetransmittedHistories(s, hs, p, number), x, n + |NumberGiven(effect.given, x)|)
  {
    hide Inv, Retransmitted, RetransmittedHistories, ParseRewriteable, WellFormed, InitialSequence, GivenSoFar, Counted;
    InvShape(s, hs);
    RetransmittedInv(s, hs, p, number);
    RetransmitShape(s, hs, p, number);
    var effect, hs' := Retransmitted(s, p, number), RetransmittedHistories(s, hs, p, number);
    if effect.given.Some? {
      var i := MediaFor(s.media, ParseRewriteable(p).value.header.ssrc);
      CountedOnce(hs, i, true);
      OneCounted(s.media, hs, effect.state.media, hs', x, n, i, true);
      StreamOf(s.media, hs, x, n, i);
    } else {
      NoneCounted(s.media, hs, effect.state.media, hs', x, n);
    }
  }

  lemma CountedOnce(hs: seq<History>, i: nat, rtx: bool)
    requires i < |hs|
    ensures forall k, kind :: 0 <= k < |hs| ==>
              Count(hs[i := Counted(hs[i], rtx)][k], kind) == Count(hs[k], kind) + if k == i && kind == rtx then 1 else 0
  {
  }

  lemma RetransmitShape(s: State, hs: seq<History>, p: seq<Byte>, number: U16)
    requires |hs| == |s.media| && Configured(s.media)
    ensures var effect, hs' := Retransmitted(s, p, number), RetransmittedHistories(s, hs, p, number);
            && |effect.state.media| == |s.media|
            && (forall k :: 0 <= k < |s.media| ==> effect.state.media[k].mapping == s.media[k].mapping)
            && if effect.given.Some? then
                 && ParseRewriteable(p).Ok? && MediaFor(s.media, ParseRewriteable(p).value.header.ssrc) < |s.media|
                 && hs' == hs[MediaFor(s.media, ParseRewriteable(p).value.header.ssrc) := Counted(hs[MediaFor(s.media, ParseRewriteable(p).value.header.ssrc)], true)]
               else hs' == hs
  {
    hide ParseRewriteable, WellFormed, InitialSequence, PrimaryFor, RtxFor, Encapsulated, Numbered, InspectLayout, HeaderOf;
    if ParseRewriteable(p).Ok? {
      AcceptedHeader(p, ParseRewriteable(p).value);
    }
  }

  lemma StreamOf(media: seq<Media>, hs: seq<History>, x: Stream, n: nat, i: nat)
    requires |hs| == |media| && GivenSoFar(media, hs, x, n) && i < |media|
    ensures IsMedia(media[i].mapping, x) ==> Count(hs[i], x.rtx) == n && TargetSsrc(media[i].mapping, x.rtx) == x.ssrc
  {
  }

  /** What forwarding may do to the counts: one number from the route's media, or none at all. */
  lemma ForwardShape(s: State, hs: seq<History>, p: seq<Byte>, number: U16) returns (i: nat)
    requires Inv(s, hs) && |hs| == |s.media| && Configured(s.media)
    ensures var effect, hs' := Forwarded(s, p, number), ForwardedHistories(s, hs, p, number);
            && |effect.state.media| == |s.media|
            && (forall k :: 0 <= k < |s.media| ==> effect.state.media[k].mapping == s.media[k].mapping)
            && match effect.given
               case None => forall k :: 0 <= k < |hs| ==> Count(hs'[k], true) == Count(hs[k], true) && Count(hs'[k], false) == Count(hs[k], false)
               case Some(a) =>
                 && i < |s.media|
                 && a == Allocation(s.media[i].mapping.kind, s.media[i].mapping.targetSsrc, a.rtx, NextNumber(s.media[i].mapping, hs[i], a.rtx))
                 && forall k :: 0 <= k < |hs| ==> forall kind :: Count(hs'[k], kind) == Count(hs[k], kind) + if k == i && kind == a.rtx then 1 else 0
  {
    hide ParseRewriteable, WellFormed, NextNumber, InspectLayout, Sent, Bound, RouteOf, Inv, Begins, SameSource, SourceChanged;
    i := 0;
    if ParseRewriteable(p).Ok? {
      var q := ParseRewriteable(p).value;
      var route := RouteOf(s, q);
      if route.Some? && Reaches(s, p, q, route.value) {
        i := route.value.index;
        ForwardedIsSent(s, p, q, route.value, number);
        BoundInv(s, hs, q, route.value);
        var b, bs := Bound(s, q, route.value), BoundHistories(s, hs, q, route.value);
        var keyframe := Begins(s, q, route.value) && s.media[i].mapping.kind == "video";
        SentInv(b, bs, p, q, route.value, keyframe, number);
        SentFrame(b, p, q, route.value, keyframe, number);
        SameSourceMapping(b.media[i], Forwarded(s, p, number).state.media[i]);
        SameCounts(s, hs, q, route.value);
      }
    }
  }

  lemma SameSourceMapping(m: Media, n: Media)
    requires SameSource(m, n)
    ensures n.mapping == m.mapping
  {
  }

  /** Binding a source counts nothing. */
  lemma SameCounts(s: State, hs: seq<History>, q: Parsed, route: Route)
    requires route.index < |s.media| == |hs|
    ensures var bs := BoundHistories(s, hs, q, route);
            && (forall k, kind :: 0 <= k < |hs| ==> Count(bs[k], kind) == Count(hs[k], kind))
            && forall m, kind :: NextNumber(m, bs[route.index], kind) == NextNumber(m, hs[route.index], kind)
  {
    hide InitialSequence, SourceChanged;
  }

  lemma ForwardCounts(s: State, hs: seq<History>, p: seq<Byte>, number: U16, x: Stream, n: nat)
    requires Inv(s, hs) && |hs| == |s.media| && Configured(s.media) && GivenSoFar(s.media, hs, x, n)
    ensures var effect := Forwarded(s, p, number);
            && NumberGiven(effect.given, x) == (if NumberGiven(effect.given, x) == [] then [] else [NthNumber(x, n)])
            && |effect.state.media| == |s.media|
            && GivenSoFar(effect.state.media, ForwardedHistories(s, hs, p, number), x, n + |NumberGiven(effect.given, x)|)
  {
    hide Forwarded, ForwardedHistories, GivenSoFar, InitialSequence, WellFormed;
    InvShape(s, hs);
    hide Inv;
    var i := ForwardShape(s, hs, p, number);
    var effect, hs' := Forwarded(s, p, number), ForwardedHistories(s, hs, p, number);
    match effect.given
    case None => NoneCounted(s.media, hs, effect.state.media, hs', x, n);
    case Some(a) =>
      OneCounted(s.media, hs, effect.state.media, hs', x, n, i, a.rtx);
      StreamOf(s.media, hs, x, n, i);
  }

  lemma ClearCounts(s: State, hs: seq<History>, x: Stream, n: nat)
    requires |hs| == |s.media| && GivenSoFar(s.media, hs, x, n)
    ensures GivenSoFar(Cleared(s).media, ClearedHistories(hs), x, n)
  {
    NoneCounted(s.media, hs, Cleared(s).media, ClearedHistories(hs), x, n);
  }

  /** A configuration that keeps the stream carries its count over, whatever else it changes. */
  lemma ConfigureCounts(s: State, hs: seq<History>, c: Config, x: Stream, n: nat)
    requires |hs| == |s.media| && GivenSoFar(s.media, hs, x, n) && KeepsStream(c, x)
    ensures GivenSoFar(Reconfigured(s, c).media, ReconfiguredHistories(s, hs, c), x, n)
  {
    hide GivenSoFar, CarriedHistory, Carried;
    var media, hs' := Reconfigured(s, c).media, ReconfiguredHistories(s, hs, c);
    forall i | 0 <= i < |c.media|
      ensures media[i].mapping == c.media[i] && (IsMedia(c.media[i], x) ==> Count(hs'[i], x.rtx) == n)
    {
      CarriedCount(s.media, hs, c.media[i], s.available && s.session == c.session, x, n);
    }
    var kept :| 0 <= kept < |c.media| && IsMedia(c.media[kept], x);
    assert IsMedia(media[kept].mapping, x);
    GivenWhen(media, hs', x, n, kept);
  }

  lemma GivenWhen(media: seq<Media>, hs: seq<History>, x: Stream, n: nat, kept: nat)
    requires |hs| == |media| && kept < |media| && IsMedia(media[kept].mapping, x)
    requires forall i :: 0 <= i < |media| && IsMedia(media[i].mapping, x) ==> Count(hs[i], x.rtx) == n && TargetSsrc(media[i].mapping, x.rtx) == x.ssrc
    ensures GivenSoFar(media, hs, x, n)
  {
  }

  lemma CarriedMapping(media: seq<Media>, mapping: Mapping, sameSource: bool)
    ensures Carried(media, mapping, sameSource).mapping == mapping
  {
  }

  lemma CarriedCount(media: seq<Media>, hs: seq<History>, mapping: Mapping, sameSource: bool, x: Stream, n: nat)
    requires |hs| == |media| && GivenSoFar(media, hs, x, n)
    requires IsMedia(mapping, x) ==> TargetSsrc(mapping, x.rtx) == x.ssrc
    ensures Carried(media, mapping, sameSource).mapping == mapping
    ensures IsMedia(mapping, x) ==> Count(CarriedHistory(media, hs, mapping, sameSource), x.rtx) == n
  {
    var k := Previous(media, mapping);
    if IsMedia(mapping, x) {
      if k < |media| {
        assert IsMedia(media[k].mapping, x);
      } else {
        assert forall j :: 0 <= j < |media| ==> SameTarget(media[j].mapping, mapping) == IsMedia(media[j].mapping, x);
      }
    }
  }

  lemma NextCounts(s: State, hs: seq<History>, e: Event, x: Stream, n: nat)
    requires Inv(s, hs) && |hs| == |s.media| && Configured(s.media) && GivenSoFar(s.media, hs, x, n)
    requires EventOk(e) && (e.Configure? ==> KeepsStream(e.config, x))
    ensures var effect, hs' := Next(s, e), NextHistories(s, hs, e);
            && |hs'| == |effect.state.media|
            && GivenSoFar(effect.state.media, hs', x, n + |NumberGiven(effect.given, x)|)
            && NumberGiven(effect.given, x) == (if NumberGiven(effect.given, x) == [] then [] else [NthNumber(x, n)])
  {
    hide GivenSoFar, Inv, Configured, KeepsStream, NthNumber, Forwarded, Retransmitted, ForwardedHistories, RetransmittedHistories;
    match e
    case Configure(c) => ConfigureCounts(s, hs, c, x, n);
    case ClearSource => ClearCounts(s, hs, x, n);
    case Forward(p, number) => ForwardCounts(s, hs, p, number, x, n);
    case Retransmit(p, number) => RetransmitCounts(s, hs, p, number, x, n);
  }

  /**
   Over every run whose configurations keep the stream, its numbers are consecutive modulo 2^16: across
   source changes, cleared sources and new configurations, and for RTX over any interleaving of
   forwarded packets and local retransmissions.
   */
  lemma {:induction false} NumbersAreConsecutive(s: State, hs: seq<History>, es: seq<Event>, x: Stream, n: nat)
    requires Inv(s, hs) && RunOk(es, x) && |hs| == |s.media| && GivenSoFar(s.media, hs, x, n)
    ensures var numbers := Numbers(s, hs, es, x);
            forall k :: 0 <= k < |numbers| ==> numbers[k] == NthNumber(x, n + k)
    decreases |es|
  {
    hide GivenSoFar, Inv, KeepsStream, NthNumber, Next, NextHistories, NumberGiven, EventOk;
    if es != [] {
      NextInv(s, hs, es[0]);
      NextCounts(s, hs, es[0], x, n);
      var first := NumberGiven(Next(s, es[0]).given, x);
      var s', hs' := Next(s, es[0]).state, NextHistories(s, hs, es[0]);
      var rest := Numbers(s', hs', es[1..], x);
      NumbersAreConsecutive(s', hs', es[1..], x, n + |first|);
      assert forall k :: 0 <= k < |Numbers(s', hs', es[1..], x)| ==> Numbers(s', hs', es[1..], x)[k] == NthNumber(x, n + |first| + k);
      Appended(first, rest, x, n);
    }
  }

  lemma Appended(first: seq<U16>, rest: seq<U16>, x: Stream, n: nat)
    requires forall k :: 0 <= k < |first| ==> first[k] == NthNumber(x, n + k)
    requires forall k :: 0 <= k < |rest| ==> rest[k] == NthNumber(x, n + |first| + k)
    ensures forall k :: 0 <= k < |first + rest| ==> (first + rest)[k] == NthNumber(x, n + k)
  {
    hide NthNumber;
    forall k | |first| <= k < |first + rest|
      ensures (first + rest)[k] == NthNumber(x, n + k)
    {
      var j := k - |first|;
      assert rest[j] == NthNumber(x, n + |first| + j);
    }
  }

  /** From a fresh rewriter, the k-th number of a stream is its initial number plus k. */
  lemma NumbersFromStart(es: seq<Event>, x: Stream)
    requires RunOk(es, x)
    ensures Inv(FRESH, [])
    ensures var numbers := Numbers(FRESH, [], es, x);
            forall k :: 0 <= k < |numbers| ==> numbers[k] == (InitialSequence(x.ssrc) + k) % 0x1_0000
  {
    FreshInv();
    NumbersAreConsecutive(FRESH, [], es, x, 0);
    hide Numbers, RunOk, InitialSequence;
  }

  // ----- the timeline within one source -----

  ghost predicate EndsSource(s: State, e: Event, targetSsrc: U32) {
    match e
    case Configure(c) =>
      !exists i, k :: 0 <= i < |c.media| && 0 <= k < |s.media| && c.media[i].targetSsrc == targetSsrc && SameTarget(s.media[k].mapping, c.media[i])
                      && s.available && s.session == c.session && s.media[k].mapping.sourceMid == c.media[i].sourceMid
    case ClearSource => true
    case Forward(p, _) =>
      ParseRewriteable(p).Ok? &&
      var q := ParseRewriteable(p).value;
      var route := RouteOf(s, q);
      route.Some? && s.media[route.value.index].mapping.targetSsrc == targetSsrc && Begins(s, q, route.value)
    case Retransmit(_, _) => false
  }

  /** Media `i` outputs on `targetSsrc` with this offset between source and target time. */
  ghost predicate HasOffset(media: seq<Media>, targetSsrc: U32, offset: int) {
    exists i :: 0 <= i < |media| && OffsetAt(media[i], targetSsrc, offset)
  }

  predicate OffsetAt(m: Media, targetSsrc: U32, offset: int) {
    m.mapping.targetSsrc == targetSsrc && m.sourceAnchor.Some? && (m.targetAnchor - m.sourceAnchor.value) % 0x1_0000_0000 == offset
  }

  lemma ForwardKeepsOffset(s: State, hs: seq<History>, p: seq<Byte>, number: U16, targetSsrc: U32, offset: int)
    requires Inv(s, hs) && Configured(s.media) && HasOffset(s.media, targetSsrc, offset) && !EndsSource(s, Forward(p, number), targetSsrc)
    ensures HasOffset(Forwarded(s, p, number).state.media, targetSsrc, offset)
  {
    hide ParseRewriteable, WellFormed, Sent, Bound, RouteOf, Inv, Begins;
    if ParseRewriteable(p).Ok? {
      var q := ParseRewriteable(p).value;
      var route := RouteOf(s, q);
      if route.Some? && Reaches(s, p, q, route.value) {
        var i := route.value.index;
        ForwardedIsSent(s, p, q, route.value, number);
        BoundInv(s, hs, q, route.value);
        BoundAnchors(s, hs, q, route.value);
        var b := Bound(s, q, route.value);
        var keyframe := Begins(s, q, route.value) && s.media[i].mapping.kind == "video";
        SentFrame(b, p, q, route.value, keyframe, number);
        hide HasOffset, EndsSource;
        OffsetPersists(s.media, Forwarded(s, p, number).state.media, i, targetSsrc, offset);
      }
    }
  }

  lemma OffsetPersists(media: seq<Media>, after: seq<Media>, i: nat, targetSsrc: U32, offset: int)
    requires HasOffset(media, targetSsrc, offset) && |after| == |media| && i < |media|
    requires forall k :: 0 <= k < |media| && k != i ==> after[k] == media[k]
    requires after[i].mapping == media[i].mapping
    requires media[i].mapping.targetSsrc == targetSsrc ==> after[i].sourceAnchor == media[i].sourceAnchor && after[i].targetAnchor == media[i].targetAnchor
    ensures HasOffset(after, targetSsrc, offset)
  {
    var k :| 0 <= k < |media| && OffsetAt(media[k], targetSsrc, offset);
    assert OffsetAt(after[k], targetSsrc, offset);
  }

  /** Sending touches only its own media, and there neither mapping, nor sources, nor anchors. */
  lemma SentFrame(s: State, p: seq<Byte>, q: Parsed, route: Route, keyframe: bool, number: U16)
    requires ParseRewriteable(p) == Ok(q) && RouteOk(s, route) && s.media[route.index].sourceAnchor.Some?
    ensures var after := Sent(s, p, q, route, keyframe, number).state.media;
            && |after| == |s.media| && SameSource(s.media[route.index], after[route.index])
            && Sent(s, p, q, route, keyframe, number).state.bindings == s.bindings
            && forall k :: 0 <= k < |s.media| && k != route.index ==> after[k] == s.media[k]
  {
    hide ParseRewriteable, WellFormed, Built, Refusal, OriginalFor, Allocated, Timed, SC.Remembered;
    AllocatedFrame(s.media[route.index], route.payload.rtx, q.header.timestamp);
  }

  predicate SameSource(m: Media, n: Media) {
    && n.mapping == m.mapping && n.primarySsrc == m.primarySsrc && n.primaryPayloadType == m.primaryPayloadType && n.clockRate == m.clockRate
    && n.sourceAnchor == m.sourceAnchor && n.targetAnchor == m.targetAnchor && n.rtxSsrc == m.rtxSsrc
  }

  lemma AllocatedFrame(m: Media, rtx: bool, timestamp: U32)
    requires m.sourceAnchor.Some?
    ensures SameSource(m, Timed(Allocated(m, rtx).0, timestamp).0)
  {
    hide InitialSequence, Newer;
  }

  lemma RetransmitKeepsOffset(s: State, p: seq<Byte>, number: U16, targetSsrc: U32, offset: int)
    requires Configured(s.media) && HasOffset(s.media, targetSsrc, offset)
    ensures HasOffset(Retransmitted(s, p, number).state.media, targetSsrc, offset)
  {
    hide ParseRewriteable, WellFormed, InitialSequence, PrimaryFor, RtxFor, Encapsulated, Numbered, InspectLayout, HasOffset;
    if ParseRewriteable(p).Ok? {
      var i := MediaFor(s.media, ParseRewriteable(p).value.header.ssrc);
      if i < |s.media| {
        OffsetPersists(s.media, s.media[i := Allocated(s.media[i], true).0], i, targetSsrc, offset);
      }
    }
  }

  lemma ConfigureKeepsOffset(s: State, hs: seq<History>, c: Config, targetSsrc: U32, offset: int)
    requires Inv(s, hs) && HasOffset(s.media, targetSsrc, offset) && !EndsSource(s, Configure(c), targetSsrc)
    ensures HasOffset(Reconfigured(s, c).media, targetSsrc, offset)
  {
    hide Inv, Configured, OffsetAt, Remapped, BindingsOf;
    InvShape(s, hs);
    var sameSource := s.available && s.session == c.session;
    var i, k :| 0 <= i < |c.media| && 0 <= k < |s.media| && c.media[i].targetSsrc == targetSsrc && SameTarget(s.media[k].mapping, c.media[i])
                && sameSource && s.media[k].mapping.sourceMid == c.media[i].sourceMid;
    var held :| 0 <= held < |s.media| && OffsetAt(s.media[held], targetSsrc, offset);
    OffsetTarget(s.media[held], targetSsrc, offset);
    assert held == k == Previous(s.media, c.media[i]);
    RemappedOffset(s.media[k], c.media[i], sameSource, targetSsrc, offset);
    assert Reconfigured(s, c).media[i] == Remapped(s.media[k], c.media[i], sameSource);
  }

  lemma OffsetTarget(m: Media, targetSsrc: U32, offset: int)
    requires OffsetAt(m, targetSsrc, offset)
    ensures m.mapping.targetSsrc == targetSsrc
  {
  }

  lemma RemappedOffset(m: Media, mapping: Mapping, sameSource: bool, targetSsrc: U32, offset: int)
    requires OffsetAt(m, targetSsrc, offset) && SameTarget(m.mapping, mapping) && KeepsSource(m.mapping, mapping, sameSource)
    ensures OffsetAt(Remapped(m, mapping, sameSource), targetSsrc, offset)
  {
  }

  ghost predicate RunInSource(s: State, hs: seq<History>, es: seq<Event>, targetSsrc: U32)
    requires Inv(s, hs) && forall i :: 0 <= i < |es| ==> EventOk(es[i])
    decreases |es|
  {
    es == [] ||
    (NextInv(s, hs, es[0]);
     !EndsSource(s, es[0], targetSsrc) && RunInSource(Next(s, es[0]).state, NextHistories(s, hs, es[0]), es[1..], targetSsrc))
  }

  /** The state a run leads to. */
  ghost function After(s: State, hs: seq<History>, es: seq<Event>): (r: (State, seq<History>))
    requires Inv(s, hs) && forall i :: 0 <= i < |es| ==> EventOk(es[i])
    ensures Inv(r.0, r.1)
    decreases |es|
  {
    if es == [] then (s, hs)
    else
      NextInv(s, hs, es[0]);
      After(Next(s, es[0]).state, NextHistories(s, hs, es[0]), es[1..])
  }

  lemma {:induction false} OffsetOverRun(s: State, hs: seq<History>, es: seq<Event>, targetSsrc: U32, offset: int)
    requires Inv(s, hs) && (forall i :: 0 <= i < |es| ==> EventOk(es[i])) && RunInSource(s, hs, es, targetSsrc)
    requires HasOffset(s.media, targetSsrc, offset)
    ensures HasOffset(After(s, hs, es).0.media, targetSsrc, offset)
    decreases |es|
  {
    hide Inv, HasOffset, EndsSource, EventOk, Forwarded, Retransmitted, Reconfigured, NextHistories;
    if es != [] {
      var e := es[0];
      NextInv(s, hs, e);
      match e {
        case Configure(c) => ConfigureKeepsOffset(s, hs, c, targetSsrc, offset);
        case ClearSource => NotKept(s, targetSsrc);
        case Forward(p, number) => ForwardKeepsOffset(s, hs, p, number, targetSsrc, offset);
        case Retransmit(p, number) => RetransmitKeepsOffset(s, p, number, targetSsrc, offset);
      }
      OffsetOverRun(Next(s, e).state, NextHistories(s, hs, e), es[1..], targetSsrc, offset);
    }
  }

  lemma NotKept(s: State, targetSsrc: U32)
    ensures EndsSource(s, ClearSource, targetSsrc)
  {
  }

  /** Within one source every forwarded packet is moved by the same amount, however long the run. */
  lemma TimelineWithinSource(s: State, hs: seq<History>, es: seq<Event>, p: seq<Byte>, q: Parsed, route: Route, number: U16, targetSsrc: U32, offset: int)
    requires Inv(s, hs) && (forall i :: 0 <= i < |es| ==> EventOk(es[i])) && RunInSource(s, hs, es, targetSsrc)
    requires HasOffset(s.media, targetSsrc, offset)
    requires var t := After(s, hs, es).0;
             && Reaches(t, p, q, route) && t.media[route.index].mapping.targetSsrc == targetSsrc && !Begins(t, q, route)
             && Configured(t.media) && Forwarded(t, p, number).outcome.Emitted?
    ensures var o := Forwarded(After(s, hs, es).0, p, number).outcome.output;
            (o.timestamp - q.header.timestamp) % 0x1_0000_0000 == offset
  {
    hide Inv, EventOk, Forwarded, RunInSource, After, Begins, Configured, ParseRewriteable, RouteOf, WellFormed, RewriterMedia.MappedTimestamp;
    OffsetOverRun(s, hs, es, targetSsrc, offset);
    var (t, ts) := After(s, hs, es);
    InvShape(t, ts);
    ForwardedPacket(t, ts, p, q, route, number);
    var i :| 0 <= i < |t.media| && OffsetAt(t.media[i], targetSsrc, offset);
    assert i == route.index;
    OffsetOf(Forwarded(t, p, number).state.media[i], q.header.timestamp);
  }

  // ----- the timestamp query -----

  /** The query maps any time of a source exactly as its packets are mapped, when one media has that source; it fails when none has. */
  lemma QueryIsMapping(s: State, hs: seq<History>, ssrc: U32, timestamp: U32, i: nat)
    requires Inv(s, hs) && ssrc != 0 && i < |s.media| && s.media[i].primarySsrc == Some(ssrc)
    requires forall k :: 0 <= k < |s.media| && k != i ==> s.media[k].primarySsrc != Some(ssrc)
    ensures s.media[i].sourceAnchor.Some?
    ensures MapSourceTimestamp(s, ssrc, timestamp) == Some(MappedTime(s.media[i].mapping.targetSsrc, MappedTimestamp(s.media[i], timestamp)))
  {
    hide Inv, RewriterMedia.MappedTimestamp, MediaInv, Configured;
    InvParts(s, hs, i);
    AnchoredIsStarted(s.media[i], hs[i]);
    var j := FirstIndex(s.media, (m: Media) => m.primarySsrc == Some(ssrc) && m.sourceAnchor.Some? && m.timestampStarted);
    assert j == i;
  }

  lemma QueryFailsWithoutSource(s: State, ssrc: U32, timestamp: U32)
    requires forall k :: 0 <= k < |s.media| ==> s.media[k].primarySsrc != Some(ssrc)
    ensures MapSourceTimestamp(s, ssrc, timestamp).None?
  {
  }

  /** In particular, after a primary packet was forwarded the query gives its timestamp back. */
  lemma QueryAgrees(s: State, hs: seq<History>, p: seq<Byte>, q: Parsed, route: Route, number: U16)
    requires Inv(s, hs) && Reaches(s, p, q, route) && Forwarded(s, p, number).outcome.Emitted? && !route.payload.rtx && q.header.ssrc != 0
    requires forall k :: 0 <= k < |s.media| && k != route.index ==> s.media[k].primarySsrc != Some(q.header.ssrc)
    ensures MapSourceTimestamp(Forwarded(s, p, number).state, q.header.ssrc, q.header.timestamp) ==
            Some(MappedTime(s.media[route.index].mapping.targetSsrc, Forwarded(s, p, number).outcome.output.timestamp))
  {
    hide Inv, Forwarded, Begins, ParseRewriteable, RouteOf, WellFormed, RewriterMedia.MappedTimestamp, MediaInv, Configured, Sent, Bound, MapSourceTimestamp;
    InvParts(s, hs, route.index);
    ForwardedPacket(s, hs, p, q, route, number);
    ForwardedIsSent(s, p, q, route, number);
    BoundRecords(s, q, route);
    BoundInv(s, hs, q, route);
    var keyframe := Begins(s, q, route) && s.media[route.index].mapping.kind == "video";
    SentFrame(Bound(s, q, route), p, q, route, keyframe, number);
    ForwardedInv(s, hs, p, number);
    QueryIsMapping(Forwarded(s, p, number).state, ForwardedHistories(s, hs, p, number), q.header.ssrc, q.header.timestamp, route.index);
  }

  lemma AnchoredIsStarted(m: Media, h: History)
    requires MediaInv(m, h)
    ensures (m.primarySsrc.Some? ==> m.sourceAnchor.Some?) && (m.sourceAnchor.Some? ==> m.timestampStarted)
  {
  }

  lemma BoundRecords(s: State, q: Parsed, route: Route)
    requires route.index < |s.media| && !route.payload.rtx
    ensures Bound(s, q, route).media[route.index].primarySsrc == Some(q.header.ssrc)
  {
  }

  // ----- routing -----

  /** The source `(ssrc, payloadType)` is bound to media `i` and to nothing else. */
  predicate Settled(s: State, ssrc: U32, payloadType: Byte, i: nat) {
    && i < |s.media| && s.available
    && ssrc in s.bindings && s.bindings[ssrc] == SsrcBinding(i, false)
    && SettledMedia(s.media[i], ssrc, payloadType)
    && forall k :: 0 <= k < |s.media| ==> s.media[k].rtxSsrc != Some(ssrc)
  }

  predicate SettledMedia(m: Media, ssrc: U32, payloadType: Byte) {
    && m.primarySsrc == Some(ssrc) && m.primaryPayloadType == Some(payloadType)
    && PayloadFor(m.mapping, payloadType).Some?
    && !PayloadFor(m.mapping, payloadType).value.rtx && m.clockRate == PayloadFor(m.mapping, payloadType).value.clockRate
  }

  /** A settled source's packets go to its media and begin nothing. */
  lemma SettledRoutes(s: State, ssrc: U32, payloadType: Byte, i: nat, q: Parsed)
    requires Settled(s, ssrc, payloadType, i) && q.header.ssrc == ssrc && q.header.payloadType == payloadType
    ensures RouteOf(s, q) == Some(Route(i, PayloadFor(s.media[i].mapping, payloadType).value))
    ensures !Begins(s, q, RouteOf(s, q).value)
  {
    hide PayloadFor, OnlyIndex;
  }

  /** A source that begins is settled, when no RTX stream has its SSRC. */
  lemma BeginningSettles(s: State, hs: seq<History>, p: seq<Byte>, q: Parsed, route: Route, number: U16)
    requires Inv(s, hs) && Reaches(s, p, q, route) && Begins(s, q, route)
    requires forall k :: 0 <= k < |s.media| && k != route.index ==> s.media[k].rtxSsrc != Some(q.header.ssrc)
    ensures Configured(s.media) && Settled(Forwarded(s, p, number).state, q.header.ssrc, q.header.payloadType, route.index)
  {
    hide Inv, ParseRewriteable, InspectLayout, WellFormed, Sent, Configured, PayloadFor, Forwarded, Bound, RouteOf, Begins, Settled;
    InvShape(s, hs);
    BoundInv(s, hs, q, route);
    ForwardedIsSent(s, p, q, route, number);
    var keyframe := Begins(s, q, route) && s.media[route.index].mapping.kind == "video";
    BegunSettled(s, q, route);
    SentSettled(Bound(s, q, route), p, q, route, keyframe, number, q.header.ssrc, q.header.payloadType, route.index);
  }

  lemma BegunSettled(s: State, q: Parsed, route: Route)
    requires s.available && route.index < |s.media| && Begins(s, q, route)
    requires PayloadFor(s.media[route.index].mapping, q.header.payloadType) == Some(route.payload)
    requires forall k :: 0 <= k < |s.media| && k != route.index ==> s.media[k].rtxSsrc != Some(q.header.ssrc)
    ensures Settled(Bound(s, q, route), q.header.ssrc, q.header.payloadType, route.index)
  {
    hide PayloadFor, BindingsElsewhere, InitialTimestampOffset;
  }

  /** Sending keeps a settled source settled. */
  lemma SentSettled(s: State, p: seq<Byte>, q: Parsed, route: Route, keyframe: bool, number: U16, ssrc: U32, payloadType: Byte, i: nat)
    requires ParseRewriteable(p) == Ok(q) && RouteOk(s, route) && s.media[route.index].sourceAnchor.Some? && Settled(s, ssrc, payloadType, i)
    ensures Settled(Sent(s, p, q, route, keyframe, number).state, ssrc, payloadType, i)
  {
    hide ParseRewriteable, InspectLayout, WellFormed, Sent, PayloadFor;
    SentFrame(s, p, q, route, keyframe, number);
    SentAvailable(s, p, q, route, keyframe, number);
  }

  lemma SentAvailable(s: State, p: seq<Byte>, q: Parsed, route: Route, keyframe: bool, number: U16)
    requires ParseRewriteable(p) == Ok(q) && RouteOk(s, route)
    ensures Sent(s, p, q, route, keyframe, number).state.available == s.available
  {
    hide ParseRewriteable, WellFormed, Built, Refusal, OriginalFor, Allocated, Timed;
  }

  /** The packet leaves a settled source alone: it is the source's own, or another SSRC that begins nothing on its media. */
  ghost predicate Spares(s: State, p: seq<Byte>, ssrc: U32, payloadType: Byte, i: nat) {
    ParseRewriteable(p).Ok? ==>
      var q := ParseRewriteable(p).value;
      if q.header.ssrc == ssrc then q.header.payloadType == payloadType
      else RouteOf(s, q).Some? ==> RouteOf(s, q).value.index != i || !Begins(s, q, RouteOf(s, q).value)
  }

  lemma BoundSettled(s: State, hs: seq<History>, p: seq<Byte>, q: Parsed, route: Route, ssrc: U32, payloadType: Byte, i: nat)
    requires Inv(s, hs) && Settled(s, ssrc, payloadType, i) && Reaches(s, p, q, route) && Spares(s, p, ssrc, payloadType, i)
    ensures Settled(Bound(s, q, route), ssrc, payloadType, i)
  {
    hide Inv, ParseRewriteable, InspectLayout, PayloadFor, RouteOf, Bound, Settled, SourceChanged;
    BoundInv(s, hs, q, route);
    if q.header.ssrc == ssrc {
      SettledRoutes(s, ssrc, payloadType, i, q);
      SettledRoute(s, ssrc, payloadType, i);
    }
    if route.payload.rtx {
      RtxBoundSettled(s, q, route, ssrc, payloadType, i);
    } else if Begins(s, q, route) {
      OtherBegunSettled(s, q, route, ssrc, payloadType, i);
    } else {
      UnchangedBound(s, q, route);
    }
  }

  lemma SettledRoute(s: State, ssrc: U32, payloadType: Byte, i: nat)
    requires Settled(s, ssrc, payloadType, i)
    ensures i < |s.media| && PayloadFor(s.media[i].mapping, payloadType).Some? && !PayloadFor(s.media[i].mapping, payloadType).value.rtx
  {
  }

  lemma UnchangedBound(s: State, q: Parsed, route: Route)
    requires route.index < |s.media| && !route.payload.rtx && !Begins(s, q, route) && s.media[route.index].sourceAnchor.Some?
    ensures Bound(s, q, route) == s
  {
  }

  lemma RtxBoundSettled(s: State, q: Parsed, route: Route, ssrc: U32, payloadType: Byte, i: nat)
    requires route.index < |s.media| && route.payload.rtx && q.header.ssrc != ssrc && Settled(s, ssrc, payloadType, i)
    ensures Settled(Bound(s, q, route), ssrc, payloadType, i)
  {
    hide PayloadFor, SourceChanged, Begun;
  }

  lemma OtherBegunSettled(s: State, q: Parsed, route: Route, ssrc: U32, payloadType: Byte, i: nat)
    requires route.index < |s.media| && Begins(s, q, route) && q.header.ssrc != ssrc && route.index != i && Settled(s, ssrc, payloadType, i)
    ensures Settled(Bound(s, q, route), ssrc, payloadType, i)
  {
    hide PayloadFor, InitialTimestampOffset;
  }

  lemma ForwardSettled(s: State, hs: seq<History>, p: seq<Byte>, number: U16, ssrc: U32, payloadType: Byte, i: nat)
    requires Inv(s, hs) && Configured(s.media) && Settled(s, ssrc, payloadType, i) && Spares(s, p, ssrc, payloadType, i)
    ensures Settled(Forwarded(s, p, number).state, ssrc, payloadType, i)
  {
    hide Inv, ParseRewriteable, WellFormed, Sent, Bound, RouteOf, Configured, Begins, Spares, PayloadFor, Settled;
    if ParseRewriteable(p).Ok? {
      var q := ParseRewriteable(p).value;
      var route := RouteOf(s, q);
      if route.Some? && Reaches(s, p, q, route.value) {
        BoundSettled(s, hs, p, q, route.value, ssrc, payloadType, i);
        ForwardedIsSent(s, p, q, route.value, number);
        BoundInv(s, hs, q, route.value);
        var keyframe := Begins(s, q, route.value) && s.media[route.value.index].mapping.kind == "video";
        SentSettled(Bound(s, q, route.value), p, q, route.value, keyframe, number, ssrc, payloadType, i);
      }
    }
  }

  lemma RetransmitSettled(s: State, p: seq<Byte>, number: U16, ssrc: U32, payloadType: Byte, i: nat)
    requires Configured(s.media) && Settled(s, ssrc, payloadType, i)
    ensures Settled(Retransmitted(s, p, number).state, ssrc, payloadType, i)
  {
    hide ParseRewriteable, WellFormed, InitialSequence, PrimaryFor, RtxFor, Encapsulated, Numbered, InspectLayout, PayloadFor;
  }

  /** A run of packets that spares the source throughout. */
  ghost predicate SparingRun(s: State, hs: seq<History>, es: seq<Event>, ssrc: U32, payloadType: Byte, i: nat)
    requires Inv(s, hs)
    decreases |es|
  {
    es == [] ||
    (&& (es[0].Forward? || es[0].Retransmit?) && (es[0].Forward? ==> Spares(s, es[0].packet, ssrc, payloadType, i))
     && (NextInv(s, hs, es[0]); SparingRun(Next(s, es[0]).state, NextHistories(s, hs, es[0]), es[1..], ssrc, payloadType, i)))
  }

  /** Once settled, every further packet of the source reaches the same media and begins nothing, however long the run. */
  lemma {:induction false} SourceStaysSettled(s: State, hs: seq<History>, es: seq<Event>, ssrc: U32, payloadType: Byte, i: nat)
    requires Inv(s, hs) && Settled(s, ssrc, payloadType, i) && SparingRun(s, hs, es, ssrc, payloadType, i)
    ensures (forall k :: 0 <= k < |es| ==> EventOk(es[k])) && Settled(After(s, hs, es).0, ssrc, payloadType, i)
    decreases |es|
  {
    hide Inv, Settled, Spares, Next, NextHistories;
    if es != [] {
      var e := es[0];
      NextInv(s, hs, e);
      InvShape(s, hs);
      NextSettled(s, hs, e, ssrc, payloadType, i);
      SourceStaysSettled(Next(s, e).state, NextHistories(s, hs, e), es[1..], ssrc, payloadType, i);
    }
  }

  lemma NextSettled(s: State, hs: seq<History>, e: Event, ssrc: U32, payloadType: Byte, i: nat)
    requires Inv(s, hs) && Configured(s.media) && Settled(s, ssrc, payloadType, i) && (e.Forward? || e.Retransmit?)
    requires e.Forward? ==> Spares(s, e.packet, ssrc, payloadType, i)
    ensures Settled(Next(s, e).state, ssrc, payloadType, i)
  {
    hide Inv, Settled, Spares, Configured, Forwarded, Retransmitted;
    match e
    case Forward(p, number) => ForwardSettled(s, hs, p, number, ssrc, payloadType, i);
    case Retransmit(p, number) => RetransmitSettled(s, p, number, ssrc, payloadType, i);
  }

  // ----- retransmissions -----

  /** The payload type that repairs another: its own RTX type, when the output has one, and otherwise itself. */
  ghost predicate Repairs(m: Mapping, original: Byte, rtx: bool, sent: Byte) {
    && (rtx <==> m.targetRtxSsrc != 0 && exists r :: r in m.payloadTypes && r.rtx && r.targetAssociated == original)
    && (rtx ==> exists r :: r in m.payloadTypes && r.rtx && r.targetAssociated == original && r.target == sent)
    && (!rtx ==> sent == original)
  }

  lemma RetransmissionRepairs(s: State, p: seq<Byte>, number: U16)
    requires Configured(s.media) && Retransmitted(s, p, number).outcome.Emitted?
    ensures ParseRewriteable(p).Ok?
    ensures var q := ParseRewriteable(p).value;
            var o, i := Retransmitted(s, p, number).outcome.output, MediaFor(s.media, q.header.ssrc);
            && i < |s.media| && s.media[i].mapping.targetSsrc == q.header.ssrc
            && Repairs(s.media[i].mapping, q.header.payloadType, o.rtx, o.payloadType)
            && (exists r :: r in s.media[i].mapping.payloadTypes && !r.rtx && r.target == q.header.payloadType && r.nack)
            && o.timestamp == q.header.timestamp && !o.keyframeNeeded
            && o.transportNumber == (if s.media[i].mapping.transportCcId != 0 then Some(number) else None)
            && (!o.rtx ==> o.sequence == q.header.sequence && o.targetSsrc == q.header.ssrc)
  {
    hide ParseRewriteable, WellFormed, InitialSequence, Encapsulated, TransportWritten, InspectLayout, HeaderOf, Decapsulated, RouteOf, Allocated, FirstIndex;
  }

  /**
   A retransmission is the sent packet with a fresh transport-wide number: as it stands when no RTX is
   negotiated for its payload type, and otherwise encapsulated so that the receiver restores exactly that.
   */
  lemma RetransmissionRestores(s: State, p: seq<Byte>, number: U16)
    requires Configured(s.media) && Retransmitted(s, p, number).outcome.Emitted?
    ensures ParseRewriteable(p).Ok?
    ensures var q := ParseRewriteable(p).value;
            var o, i := Retransmitted(s, p, number).outcome.output, MediaFor(s.media, q.header.ssrc);
            && i < |s.media|
            && Repairs(s.media[i].mapping, q.header.payloadType, o.rtx, o.payloadType)
            && var sent := Numbered(p, s.media[i].mapping.transportCcId, number);
               && sent.Ok?
               && if o.rtx then
                    && |o.packet| == |p| + 2 && o.targetSsrc == s.media[i].mapping.targetRtxSsrc
                    && Decapsulated(o.packet, q.payloadOffset, q.header.payloadType, q.header.ssrc) == sent.value
                  else o.packet == sent.value && o.targetSsrc == q.header.ssrc
  {
    hide ParseRewriteable, WellFormed, InitialSequence, PrimaryFor, Encapsulated, TransportWritten, InspectLayout, HeaderOf, Decapsulated, RouteOf, Allocated;
    RetransmissionRepairs(s, p, number);
    hide Repairs;
    var q := ParseRewriteable(p).value;
    AcceptedHeader(p, q);
    var i := MediaFor(s.media, q.header.ssrc);
    var m := s.media[i].mapping;
    var repair := RtxFor(m, q.header.payloadType);
    if Retransmitted(s, p, number).outcome.output.rtx {
      var sequence := Allocated(s.media[i], true).1;
      RouteTarget(s, Route(i, repair.value));
      EncapsulationReversible(p, q, repair.value.target, sequence, m.targetRtxSsrc);
      RtxReversible(p, q, repair.value.target, sequence, m.targetRtxSsrc, m.transportCcId, number);
    }
  }
}
