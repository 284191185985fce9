/**
 The WHEP RTP rewriter (`media/whep_rtp_rewriter.cpp`): it forwards a publisher's packets under the
 subscriber's own SSRCs, payload types, numbers, timestamps and extensions, across changes of
 publisher and configuration, and builds retransmissions. The operations are functions of the whole
 state; `given` names the number an operation handed out, whether or not a packet came of it.
 */
module RtpRewriter {
  import opened Wire
  import opened HeaderExtensions
  import opened RtpPacket
  import SC = SequenceCache
  import opened RewriterMedia
  import opened ExtensionRewriting
  import opened RewrittenPacket
  import opened RtxEncapsulation

  datatype SsrcBinding = SsrcBinding(index: nat, rtx: bool)

  datatype Config = Config(session: string, media: seq<Mapping>)

  datatype State = State(available: bool, session: string, media: seq<Media>, bindings: map<U32, SsrcBinding>)

  const FRESH: State := State(false, "", [], map[])

  datatype Route = Route(index: nat, payload: PayloadMapping)

  datatype DropReason = SourceUnavailable | NoMapping | RtxBeforePrimary | NoTargetSsrc | RtxTooShort | OriginalNotCached

  datatype Failure =
    | BadPacket(parse: RtpError)
    | ExtensionTooLarge
    | TwoByteNotAllowed
    | BlockTooLarge
    | UnknownTarget
    | NackNotNegotiated
    | TransportNumber(transport: TransportError)

  datatype Output = Output(packet: seq<Byte>, rtx: bool, keyframeNeeded: bool, targetSsrc: U32, payloadType: Byte, sequence: U16,
                           timestamp: U32, transportNumber: Option<U16>)

  datatype Outcome = Quiet | Failed(error: Failure) | Dropped(reason: DropReason) | Emitted(output: Output)

  datatype Allocation = Allocation(kind: string, targetSsrc: U32, rtx: bool, number: U16)

  datatype Effect = Effect(state: State, outcome: Outcome, given: Option<Allocation>)

  // ----- which media a packet belongs to -----

  function PayloadFor(m: Mapping, source: Byte): (r: Option<PayloadMapping>)
    ensures r.Some? ==> r.value in m.payloadTypes && r.value.source == source
    ensures r.None? ==> forall x :: x in m.payloadTypes ==> x.source != source
  {
    var i := FirstIndex(m.payloadTypes, (x: PayloadMapping) => x.source == source);
    if i < |m.payloadTypes| then Some(m.payloadTypes[i]) else None
  }

  predicate MidMatches(m: Mapping, q: Parsed) {
    && PayloadFor(m, q.header.payloadType).Some?
    && MidMapping(m.extensions).Some?
    && FirstWithId(q.extensions, MidMapping(m.extensions).value.sourceId) == Some(m.sourceMid)
  }

  /** The index of the only element that satisfies `p`. */
  function OnlyIndex<T>(s: seq<T>, p: T -> bool): (r: Option<nat>)
    ensures r.Some? ==> r.value < |s| && p(s[r.value]) && forall j :: 0 <= j < |s| && p(s[j]) ==> j == r.value
    ensures r.None? ==> (forall j :: 0 <= j < |s| ==> !p(s[j])) || (exists j, k :: 0 <= j < k < |s| && p(s[j]) && p(s[k]))
  {
    var i := FirstIndex(s, p);
    if i == |s| then None
    else
      var k := FirstIndex(s[i + 1..], p);
      assert forall j :: i < j < |s| ==> s[j] == s[i + 1..][j - i - 1];
      if k < |s[i + 1..]| then
        assert p(s[i]) && p(s[i + 1 + k]);
        None
      else Some(i)
  }

  function RouteTo(media: seq<Media>, i: nat, payloadType: Byte): Option<Route>
    requires i < |media|
  {
    match PayloadFor(media[i].mapping, payloadType)
    case None => None
    case Some(payload) => Some(Route(i, payload))
  }

  /** By SSRC binding, else by a MID that only one media matches, else by a payload type only one media maps. */
  function RouteOf(s: State, q: Parsed): (r: Option<Route>)
    ensures r.Some? ==> r.value.index < |s.media| && PayloadFor(s.media[r.value.index].mapping, q.header.payloadType) == Some(r.value.payload)
  {
    var bound :=
      if q.header.ssrc in s.bindings && s.bindings[q.header.ssrc].index < |s.media| then RouteTo(s.media, s.bindings[q.header.ssrc].index, q.header.payloadType)
      else None;
    if bound.Some? && bound.value.payload.rtx == s.bindings[q.header.ssrc].rtx then bound
    else
      var byMid := OnlyIndex(s.media, (m: Media) => MidMatches(m.mapping, q));
      if byMid.Some? then RouteTo(s.media, byMid.value, q.header.payloadType)
      else
        var byType := OnlyIndex(s.media, (m: Media) => PayloadFor(m.mapping, q.header.payloadType).Some?);
        if byType.Some? then RouteTo(s.media, byType.value, q.header.payloadType) else None
  }

  /** The packet's SSRC is bound to a media that maps its payload type to a stream of the recorded kind. */
  predicate BoundFor(s: State, q: Parsed) {
    && q.header.ssrc in s.bindings && s.bindings[q.header.ssrc].index < |s.media|
    && var found := PayloadFor(s.media[s.bindings[q.header.ssrc].index].mapping, q.header.payloadType);
       found.Some? && found.value.rtx == s.bindings[q.header.ssrc].rtx
  }

  ghost predicate OnlyMid(s: State, q: Parsed, i: nat) {
    i < |s.media| && MidMatches(s.media[i].mapping, q) && forall j :: 0 <= j < |s.media| && MidMatches(s.media[j].mapping, q) ==> j == i
  }

  predicate Maps(m: Mapping, payloadType: Byte) {
    exists k :: 0 <= k < |m.payloadTypes| && m.payloadTypes[k].source == payloadType
  }

  ghost predicate OnlyType(s: State, q: Parsed, i: nat) {
    i < |s.media| && Maps(s.media[i].mapping, q.header.payloadType)
    && forall j :: 0 <= j < |s.media| && Maps(s.media[j].mapping, q.header.payloadType) ==> j == i
  }

  lemma MapsIff(m: Mapping, payloadType: Byte)
    ensures Maps(m, payloadType) <==> PayloadFor(m, payloadType).Some?
  {
    if PayloadFor(m, payloadType).Some? {
      var k :| 0 <= k < |m.payloadTypes| && m.payloadTypes[k] == PayloadFor(m, payloadType).value;
      assert m.payloadTypes[k].source == payloadType;
    }
  }

  /** A MID match carries the media's own MID, under the id its mapping has for MIDs, and a payload type it maps. */
  lemma MidMatchesIff(m: Mapping, q: Parsed)
    ensures MidMatches(m, q) <==>
              && Maps(m, q.header.payloadType) && MidMapping(m.extensions).Some?
              && FirstWithId(q.extensions, MidMapping(m.extensions).value.sourceId) == Some(m.sourceMid)
  {
    MapsIff(m, q.header.payloadType);
    hide PayloadFor;
  }

  /** The order in which a packet finds its media: its binding, else the only MID match, else the only media that maps its payload type. */
  lemma RouteOrder(s: State, q: Parsed)
    ensures BoundFor(s, q) ==> RouteOf(s, q).Some? && RouteOf(s, q).value.index == s.bindings[q.header.ssrc].index
    ensures forall i: nat :: !BoundFor(s, q) && OnlyMid(s, q, i) ==> RouteOf(s, q).Some? && RouteOf(s, q).value.index == i
    ensures forall i: nat :: !BoundFor(s, q) && (forall j: nat :: !OnlyMid(s, q, j)) && OnlyType(s, q, i) ==>
              RouteOf(s, q).Some? && RouteOf(s, q).value.index == i
    ensures !BoundFor(s, q) && (forall j: nat :: !OnlyMid(s, q, j)) && (forall j: nat :: !OnlyType(s, q, j)) ==> RouteOf(s, q).None?
  {
    ByMidIs(s, q);
    ByTypeIs(s, q);
    RoutesThere(s, q);
    hide PayloadFor, MidMatches, Maps, OnlyIndex, OnlyMid, OnlyType, BoundFor, RouteTo;
    RouteCases(s, q);
  }

  /** The branches of the search. */
  lemma RouteCases(s: State, q: Parsed)
    ensures BoundFor(s, q) ==> RouteOf(s, q).Some? && RouteOf(s, q).value.index == s.bindings[q.header.ssrc].index
    ensures !BoundFor(s, q) ==>
              var byMid := OnlyIndex(s.media, (m: Media) => MidMatches(m.mapping, q));
              var byType := OnlyIndex(s.media, (m: Media) => PayloadFor(m.mapping, q.header.payloadType).Some?);
              RouteOf(s, q) ==
              if byMid.Some? then RouteTo(s.media, byMid.value, q.header.payloadType)
              else if byType.Some? then RouteTo(s.media, byType.value, q.header.payloadType)
              else None
  {
    hide PayloadFor, MidMatches, OnlyIndex;
  }

  lemma RoutesThere(s: State, q: Parsed)
    ensures forall i: nat :: OnlyMid(s, q, i) || OnlyType(s, q, i) ==>
              RouteTo(s.media, i, q.header.payloadType).Some? && RouteTo(s.media, i, q.header.payloadType).value.index == i
  {
    forall i: nat | OnlyMid(s, q, i) || OnlyType(s, q, i)
      ensures RouteTo(s.media, i, q.header.payloadType).Some?
    {
      MapsIff(s.media[i].mapping, q.header.payloadType);
      MidMatchesIff(s.media[i].mapping, q);
    }
  }

  lemma ByMidIs(s: State, q: Parsed)
    ensures var found := OnlyIndex(s.media, (m: Media) => MidMatches(m.mapping, q));
            && (found.Some? ==> OnlyMid(s, q, found.value))
            && forall i: nat :: OnlyMid(s, q, i) ==> found == Some(i)
  {
    hide MidMatches;
  }

  lemma ByTypeIs(s: State, q: Parsed)
    ensures var found := OnlyIndex(s.media, (m: Media) => PayloadFor(m.mapping, q.header.payloadType).Some?);
            && (found.Some? ==> OnlyType(s, q, found.value))
            && forall i: nat :: OnlyType(s, q, i) ==> found == Some(i)
  {
    forall i | 0 <= i < |s.media|
      ensures Maps(s.media[i].mapping, q.header.payloadType) <==> PayloadFor(s.media[i].mapping, q.header.payloadType).Some?
    {
      MapsIff(s.media[i].mapping, q.header.payloadType);
    }
    hide PayloadFor, Maps;
  }

  // ----- binding the source -----

  predicate SourceChanged(m: Media, q: Parsed, payload: PayloadMapping) {
    m.primarySsrc != Some(q.header.ssrc) || m.primaryPayloadType != Some(q.header.payloadType) || m.clockRate != payload.clockRate
  }

  function BindingsElsewhere(bindings: map<U32, SsrcBinding>, index: nat): map<U32, SsrcBinding> {
    map ssrc | ssrc in bindings && bindings[ssrc].index != index :: bindings[ssrc]
  }

  function Begun(m: Media, q: Parsed, payload: PayloadMapping): Media {
    PrimaryBegun(m, q.header.ssrc, q.header.payloadType, q.header.timestamp, payload.clockRate)
  }

  function Bound(s: State, q: Parsed, route: Route): (r: State)
    requires route.index < |s.media|
    ensures |r.media| == |s.media|
    ensures forall i :: 0 <= i < |s.media| && i != route.index ==> r.media[i] == s.media[i]
    ensures r.media[route.index].mapping == s.media[route.index].mapping
  {
    var i, m, ssrc := route.index, s.media[route.index], q.header.ssrc;
    if route.payload.rtx then
      if m.rtxSsrc == Some(ssrc) then s
      else
        var kept := if m.rtxSsrc.Some? then s.bindings - {m.rtxSsrc.value} else s.bindings;
        s.(media := s.media[i := m.(rtxSsrc := Some(ssrc))], bindings := kept[ssrc := SsrcBinding(i, true)])
    else if SourceChanged(m, q, route.payload) then
      s.(media := s.media[i := Begun(m, q, route.payload)], bindings := BindingsElsewhere(s.bindings, i)[ssrc := SsrcBinding(i, false)])
    else if m.sourceAnchor.None? then s.(media := s.media[i := Begun(m, q, route.payload)])
    else s
  }

  // ----- sending -----

  function TargetSsrc(m: Mapping, rtx: bool): U32 {
    if rtx then m.targetRtxSsrc else m.targetSsrc
  }

  function Refusal(m: Media, p: seq<Byte>, q: Parsed, rtx: bool): Option<DropReason>
    requires ParseRewriteable(p) == Ok(q)
  {
    if TargetSsrc(m.mapping, rtx) == 0 then Some(NoTargetSsrc)
    else if rtx && q.payloadSize < 2 then Some(RtxTooShort)
    else if rtx && SC.Find(m.numbers, ReadU16(p, q.payloadOffset)).None? then Some(OriginalNotCached)
    else None
  }

  function OriginalFor(m: Media, p: seq<Byte>, q: Parsed, rtx: bool): (r: Option<U16>)
    requires ParseRewriteable(p) == Ok(q)
    requires Refusal(m, p, q, rtx).None?
    ensures r.Some? <==> rtx
  {
    if rtx then SC.Find(m.numbers, ReadU16(p, q.payloadOffset)) else None
  }

  /** The source's own translation, with its fallback for a missing anchor. */
  function Timed(m: Media, timestamp: U32): (Media, U32) {
    var anchored :=
      if m.sourceAnchor.Some? then m
      else PrimaryBegun(m, if m.primarySsrc.Some? then m.primarySsrc.value else 0, if m.primaryPayloadType.Some? then m.primaryPayloadType.value else 0,
                        timestamp, Max(1, m.clockRate));
    Translated(anchored, timestamp)
  }

  function BlockRefusal(es: seq<Extension>, allowMixed: bool): Option<Failure>
    requires FitsTwoByte(es)
  {
    if es != [] && !FitsOneByte(es) && !allowMixed then Some(TwoByteNotAllowed)
    else if |BlockPayload(es)| / 4 > 0xFFFF then Some(BlockTooLarge)
    else None
  }

  function Built(m: Mapping, p: seq<Byte>, q: Parsed, payloadType: Byte, ssrc: U32, sequence: U16, timestamp: U32, original: Option<U16>,
                 number: U16): Result<seq<Byte>, Failure>
    requires ParseRewriteable(p) == Ok(q) && WellFormed(m) && payloadType < 128
    requires original.Some? ==> q.payloadSize >= 2
  {
    match RewriteExtensions(m, q.extensions, number)
    case None => Err(ExtensionTooLarge)
    case Some(es) =>
      RewrittenExtensions(m, q.extensions, number);
      match BlockRefusal(es, m.allowMixed)
      case Some(e) => Err(e)
      case None => Ok(RewrittenBytes(p, q, es, payloadType, sequence, timestamp, ssrc, original))
  }

  ghost predicate RouteOk(s: State, route: Route) {
    && route.index < |s.media|
    && WellFormed(s.media[route.index].mapping)
    && route.payload in s.media[route.index].mapping.payloadTypes
  }

  function Sent(s: State, p: seq<Byte>, q: Parsed, route: Route, keyframe: bool, number: U16): Effect
    requires ParseRewriteable(p) == Ok(q) && RouteOk(s, route)
  {
    var i, m, rtx := route.index, s.media[route.index], route.payload.rtx;
    match Refusal(m, p, q, rtx)
    case Some(reason) => Effect(s, Dropped(reason), None)
    case None =>
      var ssrc := TargetSsrc(m.mapping, rtx);
      var (numbered, sequence) := Allocated(m, rtx);
      var (timed, timestamp) := Timed(numbered, q.header.timestamp);
      var given := Some(Allocation(m.mapping.kind, m.mapping.targetSsrc, rtx, sequence));
      match Built(m.mapping, p, q, route.payload.target, ssrc, sequence, timestamp, OriginalFor(m, p, q, rtx), number)
      case Err(e) => Effect(s.(media := s.media[i := timed]), Failed(e), given)
      case Ok(packet) =>
        var done := if rtx then timed else timed.(numbers := SC.Remembered(timed.numbers, SC.Binding(q.header.sequence, sequence)));
        Effect(s.(media := s.media[i := done]),
               Emitted(Output(packet, rtx, keyframe, ssrc, route.payload.target, sequence, timestamp,
                              if m.mapping.transportCcId != 0 then Some(number) else None)),
               given)
  }

  ghost predicate Configured(media: seq<Media>) {
    forall i :: 0 <= i < |media| ==> WellFormed(media[i].mapping)
  }

  function Forwarded(s: State, p: seq<Byte>, number: U16): Effect
    requires Configured(s.media)
  {
    match ParseRewriteable(p)
    case Err(e) => Effect(s, Failed(BadPacket(e)), None)
    case Ok(q) =>
      if !s.available || s.media == [] then Effect(s, Dropped(SourceUnavailable), None)
      else
        match RouteOf(s, q)
        case None => Effect(s, Dropped(NoMapping), None)
        case Some(route) =>
          var m := s.media[route.index];
          if route.payload.rtx && m.primarySsrc.None? then Effect(s, Dropped(RtxBeforePrimary), None)
          else
            var keyframe := !route.payload.rtx && SourceChanged(m, q, route.payload) && m.mapping.kind == "video";
            Sent(Bound(s, q, route), p, q, route, keyframe, number)
  }

  // ----- retransmitting -----

  function PrimaryFor(m: Mapping, target: Byte): (r: Option<PayloadMapping>)
    ensures r.Some? ==> r.value in m.payloadTypes && !r.value.rtx && r.value.target == target
    ensures r.None? ==> forall x :: x in m.payloadTypes && !x.rtx ==> x.target != target
  {
    var i := FirstIndex(m.payloadTypes, (x: PayloadMapping) => !x.rtx && x.target == target);
    if i < |m.payloadTypes| then Some(m.payloadTypes[i]) else None
  }

  function RtxFor(m: Mapping, target: Byte): (r: Option<PayloadMapping>)
    ensures r.Some? ==> r.value in m.payloadTypes && r.value.rtx && r.value.targetAssociated == target
    ensures r.None? ==> forall x :: x in m.payloadTypes && x.rtx ==> x.targetAssociated != target
  {
    var i := FirstIndex(m.payloadTypes, (x: PayloadMapping) => x.rtx && x.targetAssociated == target);
    if i < |m.payloadTypes| then Some(m.payloadTypes[i]) else None
  }

  function MediaFor(media: seq<Media>, targetSsrc: U32): (i: nat)
    ensures i <= |media| && (i < |media| ==> media[i].mapping.targetSsrc == targetSsrc)
    ensures forall j :: 0 <= j < i ==> media[j].mapping.targetSsrc != targetSsrc
  {
    FirstIndex(media, (m: Media) => m.mapping.targetSsrc == targetSsrc)
  }

  function Numbered(packet: seq<Byte>, id: Byte, number: U16): Result<seq<Byte>, Failure> {
    if id == 0 then Ok(packet)
    else
      match TransportWritten(packet, id, number)
      case Err(e) => Err(TransportNumber(e))
      case Ok(written) => Ok(written)
  }

  function Finished(s: State, packet: seq<Byte>, mapping: Mapping, rtx: bool, ssrc: U32, payloadType: Byte, sequence: U16, timestamp: U32, number: U16,
                    given: Option<Allocation>): Effect
  {
    match Numbered(packet, mapping.transportCcId, number)
    case Err(e) => Effect(s, Failed(e), given)
    case Ok(written) =>
      Effect(s, Emitted(Output(written, rtx, false, ssrc, payloadType, sequence, timestamp, if mapping.transportCcId != 0 then Some(number) else None)), given)
  }

  function Retransmitted(s: State, p: seq<Byte>, number: U16): Effect
    requires Configured(s.media)
  {
    match ParseRewriteable(p)
    case Err(e) => Effect(s, Failed(BadPacket(e)), None)
    case Ok(q) =>
      var i, h := MediaFor(s.media, q.header.ssrc), q.header;
      if i == |s.media| then Effect(s, Failed(UnknownTarget), None)
      else
        var m := s.media[i];
        var primary, repair := PrimaryFor(m.mapping, h.payloadType), RtxFor(m.mapping, h.payloadType);
        if primary.None? || !primary.value.nack then Effect(s, Failed(NackNotNegotiated), None)
        else if repair.None? || m.mapping.targetRtxSsrc == 0 then
          Finished(s, p, m.mapping, false, h.ssrc, h.payloadType, h.sequence, h.timestamp, number, None)
        else
          var (numbered, sequence) := Allocated(m, true);
          var ssrc := m.mapping.targetRtxSsrc;
          Finished(s.(media := s.media[i := numbered]), Encapsulated(p, q, repair.value.target, sequence, ssrc), m.mapping, true, ssrc, repair.value.target,
                   sequence, h.timestamp, number, Some(Allocation(m.mapping.kind, m.mapping.targetSsrc, true, sequence)))
  }

  // ----- configuration -----

  predicate SameTarget(a: Mapping, b: Mapping) {
    a.kind == b.kind && a.targetSsrc == b.targetSsrc
  }

  function Previous(media: seq<Media>, mapping: Mapping): (i: nat)
    ensures i <= |media|
    ensures i < |media| ==> SameTarget(media[i].mapping, mapping)
    ensures forall j :: 0 <= j < i ==> !SameTarget(media[j].mapping, mapping)
  {
    FirstIndex(media, (m: Media) => SameTarget(m.mapping, mapping))
  }

  predicate KeepsSource(before: Mapping, after: Mapping, sameSource: bool) {
    sameSource && before.sourceMid == after.sourceMid
  }

  function Remapped(m: Media, mapping: Mapping, sameSource: bool): Media {
    var moved := m.(mapping := mapping);
    var renumbered := if m.mapping.targetRtxSsrc != mapping.targetRtxSsrc then moved.(rtxStarted := false, nextRtx := 0) else moved;
    if KeepsSource(m.mapping, mapping, sameSource) then renumbered else SourceCleared(renumbered)
  }

  function Carried(media: seq<Media>, mapping: Mapping, sameSource: bool): Media {
    var i := Previous(media, mapping);
    if i < |media| then Remapped(media[i], mapping, sameSource) else NewMedia(mapping)
  }

  function BoundBy(bindings: map<U32, SsrcBinding>, m: Media, index: nat): map<U32, SsrcBinding> {
    var primary := if m.primarySsrc.Some? then bindings[m.primarySsrc.value := SsrcBinding(index, false)] else bindings;
    if m.rtxSsrc.Some? then primary[m.rtxSsrc.value := SsrcBinding(index, true)] else primary
  }

  function BindingsOf(media: seq<Media>): map<U32, SsrcBinding> {
    if media == [] then map[] else BoundBy(BindingsOf(media[..|media| - 1]), media[|media| - 1], |media| - 1)
  }

  function ConfiguredMedia(s: State, c: Config): (r: seq<Media>)
    ensures |r| == |c.media|
  {
    seq(|c.media|, i requires 0 <= i < |c.media| => Carried(s.media, c.media[i], s.available && s.session == c.session))
  }

  function Reconfigured(s: State, c: Config): State {
    var media := ConfiguredMedia(s, c);
    State(true, c.session, media, BindingsOf(media))
  }

  function Cleared(s: State): State {
    State(false, "", seq(|s.media|, i requires 0 <= i < |s.media| => SourceCleared(s.media[i])), map[])
  }

  // ----- reading -----

  datatype MappedTime = MappedTime(targetSsrc: U32, timestamp: U32)

  function MapSourceTimestamp(s: State, ssrc: U32, timestamp: U32): Option<MappedTime> {
    if ssrc == 0 then None
    else
      var i := FirstIndex(s.media, (m: Media) => m.primarySsrc == Some(ssrc) && m.sourceAnchor.Some? && m.timestampStarted);
      if i == |s.media| then None else Some(MappedTime(s.media[i].mapping.targetSsrc, MappedTimestamp(s.media[i], timestamp)))
  }
}
