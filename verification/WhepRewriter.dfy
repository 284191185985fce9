/**
 The rewriter as the object the relay holds (`whep_rtp_rewriter::impl` in
 `media/whep_rtp_rewriter.cpp`): its fields are updated in place, with the loops of the source, and
 each method is proved to be the step that the whole-run results are about.
 */
module WhepRewriter {
  import opened Wire
  import opened HeaderExtensions
  import opened RtpPacket
  import SC = SequenceCache
  import opened RewriterMedia
  import opened ExtensionRewriting
  import opened RewrittenPacket
  import opened RtxEncapsulation
  import opened RtpRewriter
  import opened RewriterInvariant

  // ----- header extensions -----

  /** Copies, adds MID and transport number with a table of used target ids, then sorts. */
  method RewriteHeaderExtensions(m: Mapping, sources: seq<Extension>, number: U16) returns (r: Option<seq<Extension>>)
    ensures r == RewriteExtensions(m, sources, number)
  {
    hide Target, Sorted, MidMapping;
    var es: seq<Extension>, used: set<Byte> := [], {};
    assert sources[0..] == sources;
    CopiedPrefix([], Copied(m, sources, {}));
    for i := 0 to |sources|
      invariant used == IdsOf(es)
      invariant Copied(m, sources, {}) == Onto(es, Copied(m, sources[i..], used))
    {
      assert sources[i..][0] == sources[i] && sources[i..][1..] == sources[i + 1..];
      match Target(m, sources[i]) {
        case None =>
        case Some(e) =>
          if e.id !in used {
            if |e.value| > 255 {
              return None;
            }
            OntoOneMore(es, e, Copied(m, sources[i + 1..], used + {e.id}));
            IdsOfAppended(es, e);
            es, used := es + [e], used + {e.id};
          }
      }
    }
    assert es + [] == es;
    assert Copied(m, sources, {}) == Some(es);
    hide Copied;
    var mid := MidMapping(m.extensions);
    if mid.Some? && mid.value.targetId !in used {
      IdsOfAppended(es, Extension(mid.value.targetId, m.targetMid));
      es, used := es + [Extension(mid.value.targetId, m.targetMid)], used + {mid.value.targetId};
    }
    if m.transportCcId != 0 && m.transportCcId !in used {
      es := es + [Extension(m.transportCcId, U16Bytes(number))];
    }
    return Some(Sorted(es));
  }

  function Onto(done: seq<Extension>, r: Option<seq<Extension>>): Option<seq<Extension>> {
    if r.None? then None else Some(done + r.value)
  }

  lemma CopiedPrefix(done: seq<Extension>, r: Option<seq<Extension>>)
    requires done == []
    ensures Onto(done, r) == r
  {
    if r.Some? {
      assert [] + r.value == r.value;
    }
  }

  lemma OntoOneMore(done: seq<Extension>, e: Extension, r: Option<seq<Extension>>)
    ensures Onto(done, Onto([e], r)) == Onto(done + [e], r)
  {
    if r.Some? {
      assert done + ([e] + r.value) == done + [e] + r.value;
    }
  }

  lemma IdsOfAppended(es: seq<Extension>, e: Extension)
    ensures IdsOf(es + [e]) == IdsOf(es) + {e.id}
  {
    forall x | x in IdsOf(es) + {e.id}
      ensures x in IdsOf(es + [e])
    {
      if x == e.id {
        assert (es + [e])[|es|].id == x;
      } else {
        var i :| 0 <= i < |es| && es[i].id == x;
        assert (es + [e])[i].id == x;
      }
    }
  }

  method BuildBlock(es: seq<Extension>, allowMixed: bool) returns (r: Result<seq<Byte>, Failure>)
    requires FitsTwoByte(es)
    ensures r.Err? ==> BlockRefusal(es, allowMixed) == Some(r.error)
    ensures r.Ok? ==> BlockRefusal(es, allowMixed).None? && |BlockPayload(es)| / 4 < 0x1_0000 && r.value == BlockBytes(es)
  {
    hide FitsOneByte, FitsTwoByte;
    if es == [] {
      EmptyBlock();
      return Ok([]);
    }
    var oneByte := FitsOneByte(es);
    if !oneByte && !allowMixed {
      return Err(TwoByteNotAllowed);
    }
    var payload := BuildPayload(es);
    if |payload| / 4 > 0xFFFF {
      return Err(BlockTooLarge);
    }
    return Ok(U16Bytes(if oneByte then ONE_BYTE_PROFILE else TWO_BYTE_PROFILE) + U16Bytes(|payload| / 4) + payload);
  }

  lemma EmptyBlock()
    ensures FitsTwoByte([]) && |BlockPayload([])| == 0
  {
  }

  // ----- choosing the media -----

  method ResolveByMid(media: seq<Media>, q: Parsed) returns (r: Option<Route>)
    ensures r == var only := OnlyIndex(media, (m: Media) => MidMatches(m.mapping, q));
                 if only.Some? then RouteTo(media, only.value, q.header.payloadType) else None
  {
    hide MidMapping, FirstWithId, PayloadFor;
    ghost var p := (m: Media) => MidMatches(m.mapping, q);
    r := None;
    for i := 0 to |media|
      invariant r.None? ==> forall j :: 0 <= j < i ==> !p(media[j])
      invariant r.Some? ==> r.value.index < i && p(media[r.value.index]) && r == RouteTo(media, r.value.index, q.header.payloadType)
      invariant r.Some? ==> forall j :: 0 <= j < i && j != r.value.index ==> !p(media[j])
    {
      var payload, mid := PayloadFor(media[i].mapping, q.header.payloadType), MidMapping(media[i].mapping.extensions);
      if payload.None? || mid.None? {
        continue;
      }
      var carried := FirstWithId(q.extensions, mid.value.sourceId);
      if carried.None? || carried.value != media[i].mapping.sourceMid {
        continue;
      }
      if r.Some? {
        assert p(media[r.value.index]) && p(media[i]);
        return None;
      }
      r := Some(Route(i, payload.value));
    }
  }

  method ResolveByPayloadType(media: seq<Media>, payloadType: Byte) returns (r: Option<Route>)
    ensures r == var only := OnlyIndex(media, (m: Media) => PayloadFor(m.mapping, payloadType).Some?);
                 if only.Some? then RouteTo(media, only.value, payloadType) else None
  {
    hide PayloadFor;
    ghost var p := (m: Media) => PayloadFor(m.mapping, payloadType).Some?;
    r := None;
    for i := 0 to |media|
      invariant r.None? ==> forall j :: 0 <= j < i ==> !p(media[j])
      invariant r.Some? ==> r.value.index < i && p(media[r.value.index]) && r == RouteTo(media, r.value.index, payloadType)
      invariant r.Some? ==> forall j :: 0 <= j < i && j != r.value.index ==> !p(media[j])
    {
      var payload := PayloadFor(media[i].mapping, payloadType);
      if payload.None? {
        continue;
      }
      if r.Some? {
        assert p(media[r.value.index]) && p(media[i]);
        return None;
      }
      r := Some(Route(i, payload.value));
    }
  }

  method BuildPacket(m: Mapping, p: seq<Byte>, q: Parsed, payloadType: Byte, ssrc: U32, sequence: U16, timestamp: U32, original: Option<U16>, number: U16)
    returns (r: Result<seq<Byte>, Failure>)
    requires ParseRewriteable(p) == Ok(q) && WellFormed(m) && payloadType < 128
    requires original.Some? ==> q.payloadSize >= 2
    ensures r == Built(m, p, q, payloadType, ssrc, sequence, timestamp, original, number)
  {
    hide ParseRewriteable, WellFormed, RewriteExtensions, FitsTwoByte, BlockPayload, BlockBytes, RewrittenBytes, BlockRefusal, FitsOneByte, IncreasingIds,
         FirstWithId, MidMapping, InspectLayout, U16Bytes, Copied;
    var es := RewriteHeaderExtensions(m, q.extensions, number);
    if es.None? {
      return Err(ExtensionTooLarge);
    }
    RewrittenExtensions(m, q.extensions, number);
    var block := BuildBlock(es.value, m.allowMixed);
    if block.Err? {
      return block;
    }
    var packet := BuildRewritten(p, q, es.value, block.value, payloadType, sequence, timestamp, ssrc, original);
    return Ok(packet);
  }

  /** The media of a new configuration, each built on the previous entry for its target. */
  method CarryMedia(previous: seq<Media>, mappings: seq<Mapping>, sameSource: bool) returns (next: seq<Media>)
    ensures |next| == |mappings| && forall k :: 0 <= k < |mappings| ==> next[k] == Carried(previous, mappings[k], sameSource)
  {
    hide NewMedia, SourceCleared;
    next := [];
    for i := 0 to |mappings|
      invariant |next| == i && forall k :: 0 <= k < i ==> next[k] == Carried(previous, mappings[k], sameSource)
    {
      var k := Previous(previous, mappings[i]);
      var state := NewMedia(mappings[i]);
      if k < |previous| {
        state := previous[k].(mapping := mappings[i]);
        if previous[k].mapping.targetRtxSsrc != mappings[i].targetRtxSsrc {
          state := state.(rtxStarted := false, nextRtx := 0);
        }
        if !sameSource || previous[k].mapping.sourceMid != mappings[i].sourceMid {
          state := SourceCleared(state);
        }
      }
      next := next + [state];
    }
  }

  lemma ReconfiguredParts(s: State, c: Config)
    ensures forall media: seq<Media> ::
              |media| == |c.media| && (forall k :: 0 <= k < |c.media| ==> media[k] == Carried(s.media, c.media[k], s.available && s.session == c.session))
              ==> Reconfigured(s, c) == State(true, c.session, media, BindingsOf(media))
  {
    hide Carried, BindingsOf;
    forall media: seq<Media> | |media| == |c.media| && forall k :: 0 <= k < |c.media| ==> media[k] == Carried(s.media, c.media[k], s.available && s.session == c.session)
      ensures Reconfigured(s, c) == State(true, c.session, media, BindingsOf(media))
    {
      assert media == ConfiguredMedia(s, c);
    }
  }

  class Rewriter {
    var available: bool
    var session: string
    var media: seq<Media>
    var bindings: map<U32, SsrcBinding>
    ghost var histories: seq<History>

    function Model(): State
      reads this
    {
      State(available, session, media, bindings)
    }

    ghost predicate Valid()
      reads this
    {
      Inv(Model(), histories)
    }

    constructor ()
      ensures Valid() && Model() == FRESH && histories == []
    {
      available, session, media, bindings := false, "", [], map[];
      histories := [];
    }

    /** Erases every binding of one media while walking the map. */
    method EraseBindings(index: nat)
      modifies this`bindings
      ensures bindings == BindingsElsewhere(old(bindings), index)
    {
      ghost var all := bindings;
      var todo := bindings.Keys;
      while todo != {}
        invariant todo <= all.Keys
        invariant bindings == map ssrc | ssrc in all && (ssrc in todo || all[ssrc].index != index) :: all[ssrc]
        decreases |todo|
      {
        var ssrc :| ssrc in todo;
        todo := todo - {ssrc};
        if bindings[ssrc].index == index {
          bindings := bindings - {ssrc};
        }
      }
    }

    method RebuildBindings()
      modifies this`bindings
      ensures bindings == BindingsOf(media)
    {
      bindings := map[];
      for i := 0 to |media|
        invariant bindings == BindingsOf(media[..i])
      {
        assert media[..i + 1][..i] == media[..i];
        if media[i].primarySsrc.Some? {
          bindings := bindings[media[i].primarySsrc.value := SsrcBinding(i, false)];
        }
        if media[i].rtxSsrc.Some? {
          bindings := bindings[media[i].rtxSsrc.value := SsrcBinding(i, true)];
        }
      }
      assert media[..|media|] == media;
    }

    method SetConfig(c: Config)
      requires Valid() && ConfigOk(c)
      modifies this
      ensures Valid()
      ensures Model() == old(Reconfigured(Model(), c)) && histories == old(ReconfiguredHistories(Model(), histories, c))
    {
      hide Inv, Carried, BindingsOf, Reconfigured, ReconfiguredHistories, ConfigOk;
      InvShape(Model(), histories);
      ReconfiguredInv(Model(), histories, c);
      ReconfiguredParts(Model(), c);
      var next := CarryMedia(media, c.media, available && session == c.session);
      histories := ReconfiguredHistories(Model(), histories, c);
      media := next;
      session := c.session;
      available := true;
      RebuildBindings();
    }

    method ClearSource()
      requires Valid()
      modifies this
      ensures Valid() && Model() == old(Cleared(Model())) && histories == old(ClearedHistories(histories))
    {
      ClearedInv(Model(), histories);
      hide Inv;
      ghost var before := media;
      available, session, bindings := false, "", map[];
      for i := 0 to |media|
        invariant |media| == |before|
        invariant forall k :: 0 <= k < |before| ==> media[k] == if k < i then SourceCleared(before[k]) else before[k]
        invariant (available, session, bindings, histories) == (false, "", map[], old(histories))
      {
        media := media[i := SourceCleared(media[i])];
      }
      histories := ClearedHistories(histories);
      assert media == old(Cleared(Model())).media;
    }

    /** Records the packet's source on its media. */
    method BindSource(q: Parsed, route: Route) returns (keyframe: bool)
      requires route.index < |media|
      requires route.payload.rtx ==> media[route.index].primarySsrc.Some?
      modifies this`media, this`bindings
      ensures Model() == old(Bound(Model(), q, route))
      ensures keyframe == old(Begins(Model(), q, route) && media[route.index].mapping.kind == "video")
    {
      hide PrimaryBegun;
      var i, ssrc := route.index, q.header.ssrc;
      keyframe := false;
      if route.payload.rtx {
        if media[i].rtxSsrc != Some(ssrc) {
          if media[i].rtxSsrc.Some? {
            bindings := bindings - {media[i].rtxSsrc.value};
          }
          media := media[i := media[i].(rtxSsrc := Some(ssrc))];
          bindings := bindings[ssrc := SsrcBinding(i, true)];
        }
      } else if SourceChanged(media[i], q, route.payload) {
        EraseBindings(i);
        media := media[i := Begun(media[i], q, route.payload)];
        bindings := bindings[ssrc := SsrcBinding(i, false)];
        keyframe := media[i].mapping.kind == "video";
        assert media[i].mapping == old(media[i].mapping) by { BegunMapping(old(media[i]), q, route.payload); }
      } else if media[i].sourceAnchor.None? {
        media := media[i := Begun(media[i], q, route.payload)];
      }
    }

    method Resolve(q: Parsed) returns (route: Option<Route>)
      ensures route == RouteOf(Model(), q)
    {
      hide OnlyIndex, MidMatches, PayloadFor;
      if q.header.ssrc in bindings && bindings[q.header.ssrc].index < |media| {
        var bound := RouteTo(media, bindings[q.header.ssrc].index, q.header.payloadType);
        if bound.Some? && bound.value.payload.rtx == bindings[q.header.ssrc].rtx {
          return bound;
        }
      }
      route := ResolveByMid(media, q);
      OnlyRoutes(media, q);
      if route.None? {
        route := ResolveByPayloadType(media, q.header.payloadType);
      }
    }

    /** Numbers, times, builds and remembers one packet. */
    method SendResolved(p: seq<Byte>, q: Parsed, route: Route, keyframe: bool, number: U16, ghost h: History)
      returns (outcome: Outcome, ghost given: Option<Allocation>)
      requires ParseRewriteable(p) == Ok(q) && RouteOk(Model(), route)
      requires MediaInv(media[route.index], h) && media[route.index].sourceAnchor.Some?
      modifies this`media
      ensures Effect(Model(), outcome, given) == old(Sent(Model(), p, q, route, keyframe, number))
    {
      hide ParseRewriteable, WellFormed, Allocated, Timed, RewriteExtensions, FitsTwoByte, BlockPayload, BlockBytes, RewrittenBytes, BlockRefusal,
           FitsOneByte, InspectLayout, MediaInv, SC.Remembered, InitialSequence;
      SentMediaInv(media[route.index], h, route.payload.rtx, q.header.timestamp, q.header.sequence);
      TracksLog(media[route.index], h);
      var i, m, rtx := route.index, media[route.index], route.payload.rtx;
      given := None;
      var ssrc := if rtx then m.mapping.targetRtxSsrc else m.mapping.targetSsrc;
      if ssrc == 0 {
        return Dropped(NoTargetSsrc), given;
      }
      var original: Option<U16> := None;
      if rtx {
        if q.payloadSize < 2 {
          return Dropped(RtxTooShort), given;
        }
        original := SC.Find(m.numbers, ReadU16(p, q.payloadOffset));
        if original.None? {
          return Dropped(OriginalNotCached), given;
        }
      }
      RouteTarget(Model(), route);
      var (numbered, sequence) := Allocated(m, rtx);
      var (timed, timestamp) := Timed(numbered, q.header.timestamp);
      media := media[i := timed];
      given := Some(Allocation(m.mapping.kind, m.mapping.targetSsrc, rtx, sequence));
      var built := BuildPacket(m.mapping, p, q, route.payload.target, ssrc, sequence, timestamp, original, number);
      if built.Err? {
        return Failed(built.error), given;
      }
      if original.None? {
        var numbers := SC.Remember(timed.numbers, SC.Binding(q.header.sequence, sequence), h.log);
        media := media[i := timed.(numbers := numbers)];
      }
      outcome := Emitted(Output(built.value, rtx, keyframe, ssrc, route.payload.target, sequence, timestamp,
                                if m.mapping.transportCcId != 0 then Some(number) else None));
    }

    method Rewrite(p: seq<Byte>, number: U16) returns (outcome: Outcome)
      requires Valid()
      modifies this
      ensures Valid()
      ensures Model() == old(Forwarded(Model(), p, number).state) && outcome == old(Forwarded(Model(), p, number).outcome)
      ensures histories == old(ForwardedHistories(Model(), histories, p, number))
    {
      hide Inv, ParseRewriteable, InspectLayout, RouteOf, Bound, Sent, WellFormed, BoundHistories, SentHistory, SourceChanged;
      InvShape(Model(), histories);
      ForwardedInv(Model(), histories, p, number);
      var parsed := ParseRewriteable(p);
      if parsed.Err? {
        return Failed(BadPacket(parsed.error));
      }
      if !available || media == [] {
        return Dropped(SourceUnavailable);
      }
      var q := parsed.value;
      var route := Resolve(q);
      if route.None? {
        return Dropped(NoMapping);
      }
      if route.value.payload.rtx && media[route.value.index].primarySsrc.None? {
        return Dropped(RtxBeforePrimary);
      }
      ForwardedIsSent(Model(), p, q, route.value, number);
      ghost var after := ForwardedHistories(Model(), histories, p, number);
      ghost var bound := BoundHistories(Model(), histories, q, route.value);
      BoundInv(Model(), histories, q, route.value);
      InvParts(Bound(Model(), q, route.value), bound, route.value.index);
      var keyframe := BindSource(q, route.value);
      ghost var given;
      outcome, given := SendResolved(p, q, route.value, keyframe, number, bound[route.value.index]);
      histories := after;
    }

    method BuildRetransmission(p: seq<Byte>, number: U16) returns (outcome: Outcome)
      requires Valid()
      modifies this
      ensures Valid()
      ensures Model() == old(Retransmitted(Model(), p, number).state) && outcome == old(Retransmitted(Model(), p, number).outcome)
      ensures histories == old(RetransmittedHistories(Model(), histories, p, number))
    {
      hide Inv, ParseRewriteable, InspectLayout, WellFormed, Encapsulated, TransportWritten, Allocated, RetransmittedHistories, MediaFor, PrimaryFor, RtxFor;
      InvShape(Model(), histories);
      RetransmittedInv(Model(), histories, p, number);
      ghost var after := RetransmittedHistories(Model(), histories, p, number);
      ghost var before := Model();
      histories := after;
      var parsed := ParseRewriteable(p);
      if parsed.Err? {
        return Failed(BadPacket(parsed.error));
      }
      var q := parsed.value;
      var i := MediaFor(media, q.header.ssrc);
      if i == |media| {
        return Failed(UnknownTarget);
      }
      var mapping, h := media[i].mapping, q.header;
      var primary, repair := PrimaryFor(mapping, h.payloadType), RtxFor(mapping, h.payloadType);
      if primary.None? || !primary.value.nack {
        return Failed(NackNotNegotiated);
      }
      var packet, rtx, ssrc, payloadType, sequence := p, false, h.ssrc, h.payloadType, h.sequence;
      if repair.Some? && mapping.targetRtxSsrc != 0 {
        RouteTarget(before, Route(i, repair.value));
        var (numbered, next) := Allocated(media[i], true);
        media := media[i := numbered];
        packet := Encapsulate(p, q, repair.value.target, next, mapping.targetRtxSsrc);
        rtx, ssrc, payloadType, sequence := true, mapping.targetRtxSsrc, repair.value.target, next;
      }
      if mapping.transportCcId == 0 {
        return Emitted(Output(packet, rtx, false, ssrc, payloadType, sequence, h.timestamp, None));
      }
      var written := TransportWritten(packet, mapping.transportCcId, number);
      if written.Err? {
        return Failed(TransportNumber(written.error));
      }
      outcome := Emitted(Output(written.value, rtx, false, ssrc, payloadType, sequence, h.timestamp, Some(number)));
    }

    method MapTimestamp(ssrc: U32, timestamp: U32) returns (r: Option<MappedTime>)
      ensures r == MapSourceTimestamp(Model(), ssrc, timestamp)
    {
      hide MappedTimestamp;
      if ssrc == 0 {
        return None;
      }
      for i := 0 to |media|
        invariant forall j :: 0 <= j < i ==> !(media[j].primarySsrc == Some(ssrc) && media[j].sourceAnchor.Some? && media[j].timestampStarted)
      {
        if media[i].primarySsrc != Some(ssrc) || media[i].sourceAnchor.None? || !media[i].timestampStarted {
          continue;
        }
        return Some(MappedTime(media[i].mapping.targetSsrc, MappedTimestamp(media[i], timestamp)));
      }
      return None;
    }
  }

  lemma TracksLog(m: Media, h: History)
    requires MediaInv(m, h)
    ensures SC.Tracks(m.numbers, h.log)
  {
  }

  lemma BegunMapping(m: Media, q: Parsed, payload: PayloadMapping)
    ensures Begun(m, q, payload).mapping == m.mapping
  {
  }

  lemma OnlyRoutes(media: seq<Media>, q: Parsed)
    ensures var only := OnlyIndex(media, (m: Media) => MidMatches(m.mapping, q));
            only.Some? ==> RouteTo(media, only.value, q.header.payloadType).Some?
  {
  }
}
