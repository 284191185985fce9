/**
 Transport-wide numbers in packets: the number a reader finds in what is forwarded or sent again, and
 when a sent packet can be sent again with a fresh one.
 */
module TransportNumbers {
  import opened Wire
  import HE = HeaderExtensions
  import RP = RtpPacket
  import RM = RewriterMedia
  import ER = ExtensionRewriting
  import RX = RtxEncapsulation
  import RewrittenPacket
  import RR = RtpRewriter
  import RI = RewriterInvariant
  import RewriterRuns

  /** A reader of the packet finds the number under this extension id. */
  predicate CarriesUnder(packet: seq<Byte>, id: Byte, number: U16) {
    RP.ParseRewriteable(packet).Ok? && id != 0 && HE.FirstWithId(RP.ParseRewriteable(packet).value.extensions, id) == Some(U16Bytes(number))
  }

  /** The output names the number and carries it under the negotiated id, unless its payload type makes it read as RTCP. */
  ghost predicate NumberWritten(o: RR.Output, id: Byte, number: U16) {
    && o.transportNumber == Some(number)
    && (!(64 <= o.payloadType <= 95) ==> RP.ParseRewriteable(o.packet).Ok?)
    && (RP.ParseRewriteable(o.packet).Ok? ==> CarriesUnder(o.packet, id, number))
  }

  /** The transport-wide id negotiated for the media a source packet belongs to. */
  function ForwardId(s: RR.State, p: seq<Byte>): Byte {
    var q := RP.ParseRewriteable(p);
    if q.Err? then 0
    else
      var route := RR.RouteOf(s, q.value);
      if route.None? then 0 else s.media[route.value.index].mapping.transportCcId
  }

  /** The same for the media a sent packet belongs to. */
  function RetransmitId(s: RR.State, p: seq<Byte>): Byte {
    var q := RP.ParseRewriteable(p);
    if q.Err? then 0
    else
      var i := RR.MediaFor(s.media, q.value.header.ssrc);
      if i == |s.media| then 0 else s.media[i].mapping.transportCcId
  }

  lemma ForwardedCarriesNumber(s: RR.State, hs: seq<RM.History>, p: seq<Byte>, number: U16)
    requires RI.Inv(s, hs) && RR.Configured(s.media)
    requires RR.Forwarded(s, p, number).outcome.Emitted? && RR.Forwarded(s, p, number).outcome.output.transportNumber.Some?
    ensures NumberWritten(RR.Forwarded(s, p, number).outcome.output, ForwardId(s, p), number)
  {
    hide RI.Inv, RP.ParseRewriteable, RR.RouteOf, RR.Bound, RR.Sent, ER.WellFormed, RP.InspectLayout, RI.ReadsBack, RI.RtxOriginalIsLatest, HE.FirstWithId,
         NumberWritten;
    var q := RP.ParseRewriteable(p).value;
    var route := RR.RouteOf(s, q).value;
    RI.ForwardedReadsBack(s, hs, p, q, route, number);
    RI.ForwardedIsSent(s, p, q, route, number);
    SentNumber(RR.Bound(s, q, route), p, q, route, RI.Begins(s, q, route) && s.media[route.index].mapping.kind == "video", number);
    hide RR.Forwarded;
    var original: Option<U16> :|
      && (original.Some? <==> route.payload.rtx)
      && (original.Some? ==> q.payloadSize >= 2 && RI.RtxOriginalIsLatest(RI.SourceHistory(s, hs, q, route), p, q, original.value))
      && RI.ReadsBack(s.media[route.index].mapping, p, q, RR.Forwarded(s, p, number).outcome.output, original, number);
    ReadBackCarries(s.media[route.index].mapping, p, q, RR.Forwarded(s, p, number).outcome.output, original, number);
  }

  lemma SentNumber(s: RR.State, p: seq<Byte>, q: RP.Parsed, route: RR.Route, keyframe: bool, number: U16)
    requires RP.ParseRewriteable(p) == Ok(q) && RR.RouteOk(s, route) && RR.Sent(s, p, q, route, keyframe, number).outcome.Emitted?
    ensures var o := RR.Sent(s, p, q, route, keyframe, number).outcome.output;
            o.transportNumber == if s.media[route.index].mapping.transportCcId != 0 then Some(number) else None
  {
    hide RP.ParseRewriteable, RR.Timed, RM.Allocated, ER.WellFormed, RR.Built, RR.OriginalFor, RR.Refusal;
  }

  lemma ReadBackCarries(m: RM.Mapping, p: seq<Byte>, q: RP.Parsed, o: RR.Output, original: Option<U16>, number: U16)
    requires (original.Some? ==> q.payloadSize >= 2) && q.payloadOffset + q.payloadSize <= |p| && RP.FIXED_HEADER <= q.baseSize <= |p|
    requires RI.ReadsBack(m, p, q, o, original, number) && m.transportCcId != 0 && o.transportNumber == Some(number)
    ensures NumberWritten(o, m.transportCcId, number)
  {
    hide RP.ParseRewriteable, HE.FirstWithId, ER.RewriteExtensions, HE.BlockPayload, RP.BlockBytes, RewrittenPacket.NewPayload, U16Bytes;
  }

  lemma {:induction false} FirstOfWithFirst(es: seq<HE.Extension>, id: Byte, value: seq<Byte>)
    requires HE.FirstWithId(es, id).Some?
    ensures HE.FirstWithId(RX.WithFirst(es, id, value), id) == Some(value)
  {
    if es[0].id != id {
      FirstOfWithFirst(es[1..], id, value);
      assert ([es[0]] + RX.WithFirst(es[1..], id, value))[1..] == RX.WithFirst(es[1..], id, value);
    }
  }

  lemma WrittenCarries(p: seq<Byte>, id: Byte, number: U16)
    requires RP.ParseRewriteable(p).Ok? && RX.TransportWritten(p, id, number).Ok?
    ensures CarriesUnder(RX.TransportWritten(p, id, number).value, id, number)
  {
    hide RP.ParseRewriteable, RP.InspectLayout, HE.FirstWithId, RX.WithFirst, RP.FindExtension, Patched;
    var q := RP.ParseRewriteable(p).value;
    RX.TransportPlace(p, id, number);
    RX.TransportReadsBack(p, q, id, number);
    RP.FinderAgreesWithParser(p, id);
    FirstOfWithFirst(q.extensions, id, U16Bytes(number));
  }

  lemma RetransmittedCarriesNumber(s: RR.State, p: seq<Byte>, number: U16)
    requires RR.Configured(s.media)
    requires RR.Retransmitted(s, p, number).outcome.Emitted? && RR.Retransmitted(s, p, number).outcome.output.transportNumber.Some?
    ensures NumberWritten(RR.Retransmitted(s, p, number).outcome.output, RetransmitId(s, p), number)
  {
    hide RP.ParseRewriteable, RP.InspectLayout, ER.WellFormed, RM.Allocated, RX.Encapsulated, RX.TransportWritten, RR.PrimaryFor, CarriesUnder;
    var q := RP.ParseRewriteable(p).value;
    var i := RR.MediaFor(s.media, q.header.ssrc);
    var m := s.media[i].mapping;
    var o := RR.Retransmitted(s, p, number).outcome.output;
    if o.rtx {
      var repair := RR.RtxFor(m, q.header.payloadType).value;
      RI.RouteTarget(s, RR.Route(i, repair));
      var sequence := RM.Allocated(s.media[i], true).1;
      RX.RtxReadsBack(p, q, repair.target, sequence, m.targetRtxSsrc);
      EncapsulatedCarries(p, q, repair.target, sequence, m.targetRtxSsrc, m.transportCcId, number);
    } else {
      WrittenCarries(p, m.transportCcId, number);
      WrittenParses(p, m.transportCcId, number);
    }
  }

  lemma WrittenParses(p: seq<Byte>, id: Byte, number: U16)
    requires RP.ParseRewriteable(p).Ok? && RX.TransportWritten(p, id, number).Ok?
    ensures RP.ParseRewriteable(RX.TransportWritten(p, id, number).value).Ok?
  {
    hide RP.ParseRewriteable, RX.TransportWritten;
    RX.TransportReadsBack(p, RP.ParseRewriteable(p).value, id, number);
  }

  /** The encapsulated packet carries the number whenever a reader accepts it. */
  lemma EncapsulatedCarries(p: seq<Byte>, q: RP.Parsed, payloadType: Byte, sequence: U16, ssrc: U32, id: Byte, number: U16)
    requires RP.ParseRewriteable(p) == Ok(q) && payloadType < 128
    requires RX.TransportWritten(RX.Encapsulated(p, q, payloadType, sequence, ssrc), id, number).Ok?
    ensures var w := RX.TransportWritten(RX.Encapsulated(p, q, payloadType, sequence, ssrc), id, number).value;
            && (RP.ParseRewriteable(w).Ok? ==> CarriesUnder(w, id, number))
            && (!(64 <= payloadType <= 95) ==> RP.ParseRewriteable(w).Ok?)
  {
    hide RP.ParseRewriteable, RP.InspectLayout, RX.Encapsulated, CarriesUnder;
    var r := RX.Encapsulated(p, q, payloadType, sequence, ssrc);
    RX.RtxReadsBack(p, q, payloadType, sequence, ssrc);
    RX.TransportPlace(r, id, number);
    if RP.ParseRewriteable(r).Ok? {
      WrittenCarries(r, id, number);
      WrittenParses(r, id, number);
    } else {
      StaysRtcp(p, q, payloadType, sequence, ssrc, id, number);
    }
  }

  /** A packet that reads as RTCP still does with two bytes of its extensions overwritten. */
  lemma StaysRtcp(p: seq<Byte>, q: RP.Parsed, payloadType: Byte, sequence: U16, ssrc: U32, id: Byte, number: U16)
    requires RP.ParseRewriteable(p) == Ok(q) && payloadType < 128 && q.header.marker && 64 <= payloadType <= 95
    requires RX.TransportWritten(RX.Encapsulated(p, q, payloadType, sequence, ssrc), id, number).Ok?
    ensures RP.ParseRewriteable(RX.TransportWritten(RX.Encapsulated(p, q, payloadType, sequence, ssrc), id, number).value).Err?
  {
    hide RP.ParseRewriteable, RP.InspectLayout, RX.Encapsulated, RP.FindExtension, RP.HeaderOf, RewrittenPacket.WithPayloadType, Patched, U16Bytes;
    var r := RX.Encapsulated(p, q, payloadType, sequence, ssrc);
    RewrittenPacket.AcceptedHeader(p, q);
    RX.MarkerOf(p);
    RX.FinderUnmoved(p, q, payloadType, sequence, ssrc);
    RX.TransportPlace(r, id, number);
    RP.FinderAgreesWithParser(p, id);
    var (at, size) := RP.FindExtension(p, id).value.value;
    RX.PatchedFrame(r, at, U16Bytes(number));
    RX.RefusedAsRtcp(Patched(r, at, U16Bytes(number)));
  }

  // ----- when a retransmission goes out -----

  /** The packet has an extension under this id that the number can be written into. */
  predicate Writable(packet: seq<Byte>, id: Byte) {
    RX.TransportWritten(packet, id, 0).Ok?
  }

  lemma WritableAnyNumber(packet: seq<Byte>, id: Byte, number: U16)
    ensures RX.TransportWritten(packet, id, number).Ok? <==> Writable(packet, id)
  {
    hide RP.FindExtension, Patched;
  }

  /** What carries one number under an id can be given any other there. */
  lemma CarriedIsWritable(packet: seq<Byte>, id: Byte, number: U16)
    requires CarriesUnder(packet, id, number)
    ensures Writable(packet, id)
  {
    hide RP.ParseRewriteable, HE.FirstWithId, RP.FindExtension, Patched;
    RP.FinderAgreesWithParser(packet, id);
  }

  /** Generic NACK was negotiated for this payload type. */
  predicate NackFor(m: RM.Mapping, payloadType: Byte) {
    RR.PrimaryFor(m, payloadType).Some? && RR.PrimaryFor(m, payloadType).value.nack
  }

  /** The mapping of the output with this SSRC. */
  function MappingFor(s: RR.State, targetSsrc: U32): Option<RM.Mapping> {
    var i := RR.MediaFor(s.media, targetSsrc);
    if i < |s.media| then Some(s.media[i].mapping) else None
  }

  /** The packet is of an output with NACK and has a place for the transport-wide number that output negotiated. */
  predicate Repairable(s: RR.State, p: seq<Byte>) {
    RP.ParseRewriteable(p).Ok? &&
    var h := RP.ParseRewriteable(p).value.header;
    var m := MappingFor(s, h.ssrc);
    m.Some? && NackFor(m.value, h.payloadType) && (m.value.transportCcId != 0 ==> Writable(p, m.value.transportCcId))
  }

  /** A retransmission goes out exactly for such packets, encapsulated or not. */
  lemma RetransmittedIff(s: RR.State, p: seq<Byte>, number: U16)
    requires RR.Configured(s.media)
    ensures RR.Retransmitted(s, p, number).outcome.Emitted? <==> Repairable(s, p)
  {
    hide RP.ParseRewriteable, RP.InspectLayout, ER.WellFormed, RM.Allocated, RX.Encapsulated, RX.TransportWritten, RX.Decapsulated, RR.PrimaryFor;
    if RP.ParseRewriteable(p).Ok? {
      var q := RP.ParseRewriteable(p).value;
      var i := RR.MediaFor(s.media, q.header.ssrc);
      if i < |s.media| {
        var m := s.media[i].mapping;
        WritableAnyNumber(p, m.transportCcId, number);
        var repair := RR.RtxFor(m, q.header.payloadType);
        if repair.Some? {
          RI.RouteTarget(s, RR.Route(i, repair.value));
          RX.RtxReversible(p, q, repair.value.target, RM.Allocated(s.media[i], true).1, m.targetRtxSsrc, m.transportCcId, number);
        }
      }
    }
  }

  // ----- the header of a retransmission -----

  lemma WrittenKeepsHeader(r: seq<Byte>, id: Byte, number: U16)
    requires |r| >= RP.FIXED_HEADER && RX.TransportWritten(r, id, number).Ok?
    requires RP.FindExtension(r, id).Ok? && RP.FindExtension(r, id).value.Some? ==> RP.FindExtension(r, id).value.value.0 >= RP.FIXED_HEADER
    ensures |RX.TransportWritten(r, id, number).value| == |r|
    ensures RP.HeaderOf(RX.TransportWritten(r, id, number).value) == RP.HeaderOf(r)
  {
    hide RP.FindExtension, Patched, U16Bytes;
    RX.TransportPlace(r, id, number);
    var at := RP.FindExtension(r, id).value.value.0;
    RX.PatchedFrame(r, at, U16Bytes(number));
  }

  lemma FoundBehindHeader(p: seq<Byte>, id: Byte)
    requires RP.ParseRewriteable(p).Ok? && id != 0
    ensures RP.FindExtension(p, id).Ok?
    ensures RP.FindExtension(p, id).value.Some? ==> RP.FindExtension(p, id).value.value.0 >= RP.FIXED_HEADER
  {
    hide RP.ParseRewriteable, RP.FindExtension, HE.FirstWithId;
    RP.FinderAgreesWithParser(p, id);
  }

  /** The header bytes of what is sent again are the payload type, number and SSRC it is said to have, and otherwise those of the sent packet. */
  lemma RetransmittedHeader(s: RR.State, p: seq<Byte>, number: U16)
    requires RR.Configured(s.media) && RR.Retransmitted(s, p, number).outcome.Emitted?
    ensures RP.ParseRewriteable(p).Ok? && |RR.Retransmitted(s, p, number).outcome.output.packet| >= RP.FIXED_HEADER
    ensures var o := RR.Retransmitted(s, p, number).outcome.output;
            RP.HeaderOf(o.packet) ==
            RP.ParseRewriteable(p).value.header.(payloadType := o.payloadType, sequence := o.sequence, ssrc := o.targetSsrc)
  {
    hide RP.ParseRewriteable, RP.InspectLayout, ER.WellFormed, RM.Allocated, RX.Encapsulated, RX.TransportWritten, RR.PrimaryFor, RP.HeaderOf, RP.FindExtension;
    var q := RP.ParseRewriteable(p).value;
    RewrittenPacket.AcceptedHeader(p, q);
    var i := RR.MediaFor(s.media, q.header.ssrc);
    var m := s.media[i].mapping;
    if m.transportCcId != 0 {
      FoundBehindHeader(p, m.transportCcId);
    }
    var repair := RR.RtxFor(m, q.header.payloadType);
    if repair.Some? && m.targetRtxSsrc != 0 {
      RI.RouteTarget(s, RR.Route(i, repair.value));
      var sequence := RM.Allocated(s.media[i], true).1;
      var r := RX.Encapsulated(p, q, repair.value.target, sequence, m.targetRtxSsrc);
      RX.FinderUnmoved(p, q, repair.value.target, sequence, m.targetRtxSsrc);
      if m.transportCcId != 0 {
        WrittenKeepsHeader(r, m.transportCcId, number);
      }
    } else if m.transportCcId != 0 {
      WrittenKeepsHeader(p, m.transportCcId, number);
    }
  }

  // ----- what a reader sees of a forwarded packet -----

  predicate SeenAs(h: RP.Header, ssrc: U32, payloadType: Byte, sequence: U16) {
    h.ssrc == ssrc && h.payloadType == payloadType && h.sequence == sequence
  }

  /** The media that forwarded a primary packet is found by the SSRC the packet went out under. */
  lemma ForwardedTo(s: RR.State, hs: seq<RM.History>, p: seq<Byte>, q: RP.Parsed, route: RR.Route, number: U16)
    requires RI.Inv(s, hs) && RI.Reaches(s, p, q, route) && RR.Configured(s.media) && RR.Forwarded(s, p, number).outcome.Emitted?
    ensures var o := RR.Forwarded(s, p, number).outcome.output;
            !o.rtx ==> MappingFor(RR.Forwarded(s, p, number).state, o.targetSsrc) == MappingFor(s, o.targetSsrc) == Some(s.media[route.index].mapping)
  {
    hide RI.Inv, RP.ParseRewriteable, RR.RouteOf, ER.WellFormed, RP.InspectLayout, RI.NextNumber, RI.Begins, RR.Forwarded, RI.ForwardedHistories;
    RI.ForwardedPacket(s, hs, p, q, route, number);
    RI.InvShape(s, hs);
    var i := RewriterRuns.ForwardShape(s, hs, p, number);
    OneOfTargets(s.media, RR.Forwarded(s, p, number).state.media, route.index);
    OneOfTargets(s.media, s.media, route.index);
  }

  lemma OneOfTargets(media: seq<RM.Media>, after: seq<RM.Media>, i: nat)
    requires RI.DistinctTargets(media) && i < |media| == |after| && forall k :: 0 <= k < |media| ==> after[k].mapping == media[k].mapping
    ensures RR.MediaFor(after, media[i].mapping.targetSsrc) == i
  {
  }

  /** A reader sees the output's own header and finds a place for the number. */
  ghost predicate SeenInOutput(o: RR.Output, id: Byte) {
    && o.packet != []
    && (!(64 <= o.payloadType <= 95) ==> RP.ParseRewriteable(o.packet).Ok?)
    && (RP.ParseRewriteable(o.packet).Ok? ==>
          && SeenAs(RP.ParseRewriteable(o.packet).value.header, o.targetSsrc, o.payloadType, o.sequence)
          && (id != 0 ==> Writable(o.packet, id)))
  }

  lemma ReadBackHeader(m: RM.Mapping, p: seq<Byte>, q: RP.Parsed, o: RR.Output, original: Option<U16>, number: U16)
    requires (original.Some? ==> q.payloadSize >= 2) && q.payloadOffset + q.payloadSize <= |p| && RP.FIXED_HEADER <= q.baseSize <= |p|
    requires RI.ReadsBack(m, p, q, o, original, number)
    ensures SeenInOutput(o, m.transportCcId)
  {
    hide RP.ParseRewriteable, HE.FirstWithId, ER.RewriteExtensions, HE.BlockPayload, RP.BlockBytes, RewrittenPacket.NewPayload, U16Bytes, Writable;
    if RP.ParseRewriteable(o.packet).Ok? && m.transportCcId != 0 {
      CarriedIsWritable(o.packet, m.transportCcId, number);
    }
  }

  /** What is forwarded as a primary packet is seen under its own header, with a place for the number its output negotiated. */
  lemma ForwardedIsSeen(s: RR.State, hs: seq<RM.History>, p: seq<Byte>, number: U16)
    requires RI.Inv(s, hs) && RR.Configured(s.media) && RR.Forwarded(s, p, number).outcome.Emitted?
    ensures var o, after := RR.Forwarded(s, p, number).outcome.output, RR.Forwarded(s, p, number).state;
            && o.packet != [] && o.targetSsrc != 0
            && (!o.rtx ==>
                  && MappingFor(after, o.targetSsrc).Some? && MappingFor(s, o.targetSsrc) == MappingFor(after, o.targetSsrc)
                  && MappingFor(s, o.targetSsrc).value.targetSsrc == o.targetSsrc
                  && SeenInOutput(o, MappingFor(s, o.targetSsrc).value.transportCcId))
  {
    hide RI.Inv, RP.ParseRewriteable, RR.RouteOf, RR.Bound, RR.Sent, ER.WellFormed, RP.InspectLayout, RI.ReadsBack, RI.RtxOriginalIsLatest, HE.FirstWithId,
         MappingFor, RI.NextNumber, RI.Begins, SeenInOutput;
    var q := RP.ParseRewriteable(p).value;
    var route := RR.RouteOf(s, q).value;
    RI.ForwardedReadsBack(s, hs, p, q, route, number);
    RI.ForwardedPacket(s, hs, p, q, route, number);
    ForwardedTo(s, hs, p, q, route, number);
    hide RR.Forwarded;
    var m, o := s.media[route.index].mapping, RR.Forwarded(s, p, number).outcome.output;
    var original: Option<U16> :|
      && (original.Some? <==> route.payload.rtx)
      && (original.Some? ==> q.payloadSize >= 2 && RI.RtxOriginalIsLatest(RI.SourceHistory(s, hs, q, route), p, q, original.value))
      && RI.ReadsBack(m, p, q, o, original, number);
    ReadBackHeader(m, p, q, o, original, number);
    SeenNotEmpty(o, m.transportCcId);
  }

  lemma SeenNotEmpty(o: RR.Output, id: Byte)
    requires SeenInOutput(o, id)
    ensures o.packet != []
  {
  }
}
