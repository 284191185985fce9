/**
 Retransmissions of a sent packet (`build_retransmission` in `media/whep_rtp_rewriter.cpp`): the RTX
 encapsulation of section 4 of RFC 4588 and the fresh transport-wide number written in place.
 */
module RtxEncapsulation {
  import opened Wire
  import opened HeaderExtensions
  import opened RtpPacket
  import opened RewrittenPacket

  datatype TransportError = Unreadable(error: RtpError) | MissingTransportExtension

  /** A packet by header fields, everything between fixed header and payload, and payload. */
  function Framed(first: Byte, second: Byte, sequence: U16, timestamp: U32, ssrc: U32, middle: seq<Byte>, payload: seq<Byte>): (p: seq<Byte>)
    ensures |p| == FIXED_HEADER + |middle| + |payload|
  {
    Assemble(first, second, sequence, timestamp, ssrc, middle, [], payload)
  }

  /** The RTX packet: new payload type, number and SSRC, and the original number before the payload. */
  function Encapsulated(p: seq<Byte>, q: Parsed, payloadType: Byte, sequence: U16, ssrc: U32): (r: seq<Byte>)
    requires ParseRewriteable(p) == Ok(q) && payloadType < 128
    ensures |r| == |p| + 2
  {
    Framed(p[0], WithPayloadType(p[1], payloadType), sequence, q.header.timestamp, ssrc,
           p[FIXED_HEADER..q.payloadOffset], U16Bytes(q.header.sequence) + p[q.payloadOffset..])
  }

  /** What a receiver of the RTX stream restores. */
  ghost function Decapsulated(r: seq<Byte>, offset: nat, payloadType: Byte, ssrc: U32): seq<Byte>
    requires FIXED_HEADER <= offset && offset + 2 <= |r| && payloadType < 128
  {
    Framed(r[0], WithPayloadType(r[1], payloadType), ReadU16(r, offset), ReadU32(r, 4), ssrc, r[FIXED_HEADER..offset], r[offset + 2..])
  }

  function TransportWritten(p: seq<Byte>, id: Byte, number: U16): Result<seq<Byte>, TransportError> {
    match FindExtension(p, id)
    case Err(e) => Err(Unreadable(e))
    case Ok(None) => Err(MissingTransportExtension)
    case Ok(Some((at, size))) =>
      if size != 2 || at + 2 > |p| then Err(MissingTransportExtension) else Ok(Patched(p, at, U16Bytes(number)))
  }

  // ----- patching one element -----

  ghost function WithFirst(es: seq<Extension>, id: Byte, value: seq<Byte>): seq<Extension> {
    if es == [] then [] else if es[0].id == id then [Extension(id, value)] + es[1..] else [es[0]] + WithFirst(es[1..], id, value)
  }

  lemma HeadUnchanged(f: Format, p: seq<Byte>, r: seq<Byte>)
    requires p != [] && |p| == |r| && r[0] == p[0]
    requires f.TwoByte? && |p| >= 2 && p[0] != 0 ==> r[1] == p[1]
    ensures Head(f, p) == Head(f, r)
  {
  }

  lemma PatchedSuffix(p: seq<Byte>, at: nat, field: seq<Byte>, step: nat)
    requires at + |field| <= |p| && step <= at
    ensures Patched(p, at, field)[step..] == Patched(p[step..], at - step, field)
  {
  }

  /** Overwriting the value of the first element with an id changes that value and nothing else. */
  lemma {:induction false} PatchedElement(f: Format, p: seq<Byte>, id: Byte, field: seq<Byte>)
    requires Parse(f, p).Ok? && Find(f, p, id).Ok? && Find(f, p, id).value.Some? && Find(f, p, id).value.value.1 == |field|
    ensures Parse(f, Patched(p, Find(f, p, id).value.value.0, field)) == Ok(WithFirst(Parse(f, p).value, id, field))
    decreases |p|
  {
    hide Find, Parse, Head, Patched, WithFirst;
    FindStep(f, p, id);
    ParseStep(f, p);
    var at := Find(f, p, id).value.value.0;
    match Head(f, p)
    case Padding =>
      PatchedElement(f, p[1..], id, field);
      PatchedPadding(f, p, at, field);
    case Bad(_) =>
    case Element(other, headerSize, size) =>
      var next := headerSize + size;
      var rest := Parse(f, p[next..]).value;
      WithFirstOf(Extension(other, p[headerSize..next]), rest, id, field);
      if other == id {
        PatchedHere(f, p, field);
      } else {
        PatchedElement(f, p[next..], id, field);
        PatchedLater(f, p, at, field);
      }
  }

  lemma PatchedPadding(f: Format, p: seq<Byte>, at: nat, field: seq<Byte>)
    requires p != [] && Head(f, p).Padding? && 1 <= at && at + |field| <= |p|
    ensures Parse(f, Patched(p, at, field)) == Parse(f, Patched(p[1..], at - 1, field))
  {
    hide Parse, Head, Patched;
    var r := Patched(p, at, field);
    PatchedFrame(p, at, field);
    HeadFacts(f, p);
    HeadUnchanged(f, p, r);
    ParseStep(f, r);
    PatchedSuffix(p, at, field, 1);
  }

  /** The element at the head is the one that is overwritten. */
  lemma PatchedHere(f: Format, p: seq<Byte>, field: seq<Byte>)
    requires p != [] && Head(f, p).Element? && Head(f, p).size == |field|
    ensures var e := Head(f, p);
            Parse(f, Patched(p, e.headerSize, field)) == Prefixed([Extension(e.id, field)], Parse(f, p[e.headerSize + e.size..]))
  {
    hide Parse, Head, Patched;
    var e := Head(f, p);
    var r := Patched(p, e.headerSize, field);
    PatchedFrame(p, e.headerSize, field);
    HeadFacts(f, p);
    HeadUnchanged(f, p, r);
    ParseStep(f, r);
  }

  /** A later element is overwritten; the one at the head stays. */
  lemma PatchedLater(f: Format, p: seq<Byte>, at: nat, field: seq<Byte>)
    requires p != [] && Head(f, p).Element? && Head(f, p).headerSize + Head(f, p).size <= at && at + |field| <= |p|
    ensures var e := Head(f, p);
            var next := e.headerSize + e.size;
            Parse(f, Patched(p, at, field)) == Prefixed([Extension(e.id, p[e.headerSize..next])], Parse(f, Patched(p[next..], at - next, field)))
  {
    hide Parse, Head, Patched;
    var e := Head(f, p);
    var next := e.headerSize + e.size;
    var r := Patched(p, at, field);
    PatchedFrame(p, at, field);
    HeadFacts(f, p);
    HeadUnchanged(f, p, r);
    ParseStep(f, r);
    PatchedSuffix(p, at, field, next);
    SameSlice(p, r, e.headerSize, next);
  }

  lemma WithFirstOf(e: Extension, rest: seq<Extension>, id: Byte, value: seq<Byte>)
    ensures WithFirst([e] + rest, id, value) == if e.id == id then [Extension(id, value)] + rest else [e] + WithFirst(rest, id, value)
  {
    assert ([e] + rest)[1..] == rest;
  }

  lemma HeadFacts(f: Format, p: seq<Byte>)
    requires p != []
    ensures Head(f, p).Padding? ==> p[0] == 0
    ensures Head(f, p).Element? ==> Head(f, p).headerSize == if f.OneByte? then 1 else 2
  {
  }

  lemma SameSlice(p: seq<Byte>, r: seq<Byte>, from: nat, to: nat)
    requires from <= to <= |p| && to <= |r| && forall i :: from <= i < to ==> r[i] == p[i]
    ensures r[from..to] == p[from..to]
  {
  }

  lemma PatchedFrame(p: seq<Byte>, at: nat, field: seq<Byte>)
    requires at + |field| <= |p|
    ensures var r := Patched(p, at, field);
            && |r| == |p|
            && (forall i :: 0 <= i < at ==> r[i] == p[i])
            && r[at..at + |field|] == field
            && r[at + |field|..] == p[at + |field|..]
            && (forall i :: at + |field| <= i < |p| ==> r[i] == p[i])
  {
  }

  // ----- moving the extension area to another packet -----

  /** Layout and extensions depend only on the first byte and the bytes before the payload. */
  lemma SameArea(p: seq<Byte>, r: seq<Byte>, offset: nat)
    requires |p| >= FIXED_HEADER && |r| >= FIXED_HEADER && p[0] == r[0] && BaseSize(p) <= offset <= |p| && offset <= |r|
    requires p[BaseSize(p)..offset] == r[BaseSize(p)..offset]
    requires PayloadStart(p) == Ok(offset)
    ensures PayloadStart(r) == Ok(offset) && ParsedExtensions(r) == ParsedExtensions(p)
    ensures forall id :: FindExtension(r, id) == FindExtension(p, id)
  {
    hide Valid, Parse, Find;
    if HasExtension(p) {
      var base := BaseSize(p);
      var (profile, start, end) := ExtensionArea(p, base).value;
      assert end == offset;
      assert forall i :: base <= i < offset ==> p[i] == p[base..offset][i - base] == r[base..offset][i - base] == r[i];
      assert ExtensionArea(r, base) == Ok((profile, start, end));
      assert p[start..end] == r[start..end];
    }
  }

  /** The area with one element overwritten in place. */
  lemma PatchedArea(p: seq<Byte>, id: Byte, field: seq<Byte>)
    requires ParseRewriteable(p).Ok? && id != 0
    requires FindExtension(p, id).Ok? && FindExtension(p, id).value.Some? && FindExtension(p, id).value.value.1 == |field|
    ensures var (at, size) := FindExtension(p, id).value.value;
            var q := ParseRewriteable(p).value;
            && BaseSize(p) + 4 <= at && at + size <= q.payloadOffset
            && PayloadStart(Patched(p, at, field)) == Ok(q.payloadOffset)
            && ParsedExtensions(Patched(p, at, field)) == Ok(WithFirst(q.extensions, id, field))
  {
    hide Valid, Parse, Find, Patched, ParseRewriteable, InspectLayout, ProfileFormat, FirstWithId, WithFirst;
    FinderAgreesWithParser(p, id);
    AcceptedHeader(p, ParseRewriteable(p).value);
    AcceptedArea(p, ParseRewriteable(p).value);
    var (at, size) := FindExtension(p, id).value.value;
    var (profile, start, end) := ExtensionArea(p, BaseSize(p)).value;
    var f := ProfileFormat(profile).value;
    var r := Patched(p, at, field);
    PatchedFrame(p, at, field);
    PatchedWithin(p, at, field, start, end);
    PatchedElement(f, p[start..end], id, field);
    ValidatorAgrees(f, r[start..end]);
    SameAreaHeader(p, r, BaseSize(p));
  }

  lemma SameAreaHeader(p: seq<Byte>, r: seq<Byte>, at: nat)
    requires |p| == |r| && at + 4 <= |p| && forall i :: 0 <= i < at + 4 ==> r[i] == p[i]
    ensures ExtensionArea(r, at) == ExtensionArea(p, at)
  {
  }

  lemma PatchedWithin(p: seq<Byte>, at: nat, field: seq<Byte>, start: nat, end: nat)
    requires start <= at && at + |field| <= end <= |p|
    ensures Patched(p, at, field)[start..end] == Patched(p[start..end], at - start, field)
  {
  }

  // ----- frames -----

  lemma FramedParts(first: Byte, second: Byte, sequence: U16, timestamp: U32, ssrc: U32, middle: seq<Byte>, payload: seq<Byte>)
    ensures var p := Framed(first, second, sequence, timestamp, ssrc, middle, payload);
            && p[0] == first && p[1] == second
            && HeaderOf(p) == Header(second / 0x80 == 1, second % 0x80, sequence, timestamp, ssrc)
            && p[FIXED_HEADER..FIXED_HEADER + |middle|] == middle && p[FIXED_HEADER + |middle|..] == payload
  {
    hide Assemble, HeaderOf;
    AssembledParts(first, second, sequence, timestamp, ssrc, middle, [], payload);
  }

  /** A packet is the frame of its own parts. */
  lemma FrameOf(p: seq<Byte>, offset: nat)
    requires FIXED_HEADER <= offset <= |p|
    ensures var h := HeaderOf(p);
            p == Framed(p[0], p[1], h.sequence, h.timestamp, h.ssrc, p[FIXED_HEADER..offset], p[offset..])
  {
    hide U16Bytes, U32Bytes, ReadU16, ReadU32;
    var h := HeaderOf(p);
    ReadU16Slice(p, 2, h.sequence);
    ReadU32Slice(p, 4, h.timestamp);
    ReadU32Slice(p, 8, h.ssrc);
    assert p == [p[0], p[1]] + p[2..4] + p[4..8] + p[8..12] + p[FIXED_HEADER..offset] + [] + p[offset..];
  }

  lemma PatchedFramed(first: Byte, second: Byte, sequence: U16, timestamp: U32, ssrc: U32, middle: seq<Byte>, payload: seq<Byte>, at: nat, field: seq<Byte>)
    requires FIXED_HEADER <= at && at + |field| <= FIXED_HEADER + |middle|
    ensures Patched(Framed(first, second, sequence, timestamp, ssrc, middle, payload), at, field)
            == Framed(first, second, sequence, timestamp, ssrc, Patched(middle, at - FIXED_HEADER, field), payload)
  {
    hide U16Bytes, U32Bytes;
    var head := [first, second] + U16Bytes(sequence) + U32Bytes(timestamp) + U32Bytes(ssrc);
    assert Framed(first, second, sequence, timestamp, ssrc, middle, payload) == head + middle + payload;
    assert Framed(first, second, sequence, timestamp, ssrc, Patched(middle, at - FIXED_HEADER, field), payload)
        == head + Patched(middle, at - FIXED_HEADER, field) + payload;
  }

  lemma PayloadTypeRestored(second: Byte, payloadType: Byte)
    requires payloadType < 128
    ensures WithPayloadType(WithPayloadType(second, payloadType), second % 0x80) == second
  {
  }

  /** Decapsulating a frame that carries the original number first. */
  lemma DecapsulatedFrame(p: seq<Byte>, offset: nat, middle: seq<Byte>, payloadType: Byte, sequence: U16, ssrc: U32)
    requires FIXED_HEADER <= offset <= |p| && |middle| == offset - FIXED_HEADER && payloadType < 128
    ensures var h := HeaderOf(p);
            Decapsulated(Framed(p[0], WithPayloadType(p[1], payloadType), sequence, h.timestamp, ssrc, middle, U16Bytes(h.sequence) + p[offset..]),
                         offset, h.payloadType, h.ssrc)
            == Framed(p[0], p[1], h.sequence, h.timestamp, h.ssrc, middle, p[offset..])
  {
    hide Framed, WithPayloadType, U16Bytes, ReadU16, ReadU32;
    var h := HeaderOf(p);
    var payload := U16Bytes(h.sequence) + p[offset..];
    var second := WithPayloadType(p[1], payloadType);
    var r := Framed(p[0], second, sequence, h.timestamp, ssrc, middle, payload);
    FramedParts(p[0], second, sequence, h.timestamp, ssrc, middle, payload);
    PayloadTypeRestored(p[1], payloadType);
    assert r[offset..offset + 2] == r[offset..][..2] == U16Bytes(h.sequence);
    ReadU16Slice(r, offset, h.sequence);
    assert r[offset + 2..] == r[offset..][2..] == p[offset..];
  }

  /** RTX encapsulation loses nothing: the receiver restores the sent packet byte for byte. */
  lemma EncapsulationReversible(p: seq<Byte>, q: Parsed, payloadType: Byte, sequence: U16, ssrc: U32)
    requires ParseRewriteable(p) == Ok(q) && payloadType < 128
    ensures Decapsulated(Encapsulated(p, q, payloadType, sequence, ssrc), q.payloadOffset, q.header.payloadType, q.header.ssrc) == p
  {
    AcceptedHeader(p, q);
    hide ParseRewriteable, InspectLayout, HeaderOf, Framed, WithPayloadType, Decapsulated;
    FrameOf(p, q.payloadOffset);
    DecapsulatedFrame(p, q.payloadOffset, p[FIXED_HEADER..q.payloadOffset], payloadType, sequence, ssrc);
  }

  /** The finder sees the same element in the RTX packet as in the packet it carries. */
  lemma FinderUnmoved(p: seq<Byte>, q: Parsed, payloadType: Byte, sequence: U16, ssrc: U32)
    requires ParseRewriteable(p) == Ok(q) && payloadType < 128
    ensures var r := Encapsulated(p, q, payloadType, sequence, ssrc);
            && r[0] == p[0] && r[1] == WithPayloadType(p[1], payloadType)
            && HeaderOf(r) == q.header.(payloadType := payloadType, sequence := sequence, ssrc := ssrc)
            && r[q.payloadOffset..] == U16Bytes(q.header.sequence) + p[q.payloadOffset..]
            && PayloadStart(r) == Ok(q.payloadOffset) && ParsedExtensions(r) == Ok(q.extensions)
            && forall id :: FindExtension(r, id) == FindExtension(p, id)
  {
    var r := Encapsulated(p, q, payloadType, sequence, ssrc);
    AcceptedHeader(p, q);
    AcceptedArea(p, q);
    hide ParseRewriteable, InspectLayout, HeaderOf, Framed, WithPayloadType, PayloadStart, ParsedExtensions, FindExtension;
    FramedParts(p[0], WithPayloadType(p[1], payloadType), sequence, q.header.timestamp, ssrc,
                p[FIXED_HEADER..q.payloadOffset], U16Bytes(q.header.sequence) + p[q.payloadOffset..]);
    assert p[q.baseSize..q.payloadOffset] == p[FIXED_HEADER..q.payloadOffset][q.baseSize - FIXED_HEADER..];
    assert r[q.baseSize..q.payloadOffset] == r[FIXED_HEADER..q.payloadOffset][q.baseSize - FIXED_HEADER..];
    SameArea(p, r, q.payloadOffset);
  }

  lemma AcceptedArea(p: seq<Byte>, q: Parsed)
    requires ParseRewriteable(p) == Ok(q)
    ensures PayloadStart(p) == Ok(q.payloadOffset) && ParsedExtensions(p) == Ok(q.extensions)
    ensures PaddingSize(p, |p| - q.payloadOffset) == Ok(|p| - q.payloadOffset - q.payloadSize)
  {
  }

  /**
   With the transport-wide number written, the receiver still restores the sent packet, with the same
   two bytes overwritten there; the write fails exactly when it would fail on the sent packet.
   */
  lemma RtxReversible(p: seq<Byte>, q: Parsed, payloadType: Byte, sequence: U16, ssrc: U32, id: Byte, number: U16)
    requires ParseRewriteable(p) == Ok(q) && payloadType < 128
    ensures var r := TransportWritten(Encapsulated(p, q, payloadType, sequence, ssrc), id, number);
            match TransportWritten(p, id, number)
            case Err(e) => r == Err(e)
            case Ok(v) => r.Ok? && |r.value| == |p| + 2 && Decapsulated(r.value, q.payloadOffset, q.header.payloadType, q.header.ssrc) == v
  {
    FinderUnmoved(p, q, payloadType, sequence, ssrc);
    if TransportWritten(p, id, number).Ok? {
      var (at, size) := FindExtension(p, id).value.value;
      FinderAgreesWithParser(p, id);
      AcceptedHeader(p, q);
      hide ParseRewriteable, InspectLayout, HeaderOf, Framed, WithPayloadType, Decapsulated, PayloadStart, ParsedExtensions, FindExtension, FirstWithId,
           Patched, U16Bytes;
      var offset, middle, field := q.payloadOffset, p[FIXED_HEADER..q.payloadOffset], U16Bytes(number);
      FrameOf(p, offset);
      PatchedFramed(p[0], p[1], q.header.sequence, q.header.timestamp, q.header.ssrc, middle, p[offset..], at, field);
      PatchedFramed(p[0], WithPayloadType(p[1], payloadType), sequence, q.header.timestamp, ssrc, middle,
                    U16Bytes(q.header.sequence) + p[offset..], at, field);
      PatchedFrame(middle, at - FIXED_HEADER, field);
      DecapsulatedFrame(p, offset, Patched(middle, at - FIXED_HEADER, field), payloadType, sequence, ssrc);
    }
  }

  /** The RTX packet reads back with its new header, the same extensions and two more bytes of payload, unless it looks like RTCP. */
  lemma RtxReadsBack(p: seq<Byte>, q: Parsed, payloadType: Byte, sequence: U16, ssrc: U32)
    requires ParseRewriteable(p) == Ok(q) && payloadType < 128
    ensures ParseRewriteable(Encapsulated(p, q, payloadType, sequence, ssrc)) ==
            if q.header.marker && 64 <= payloadType <= 95 then Err(IsRtcp)
            else Ok(q.(header := q.header.(payloadType := payloadType, sequence := sequence, ssrc := ssrc), payloadSize := q.payloadSize + 2))
  {
    hide Encapsulated, PayloadStart, ParsedExtensions, FindExtension, WithPayloadType, ParseRewriteable, InspectLayout, HeaderOf;
    FinderUnmoved(p, q, payloadType, sequence, ssrc);
    AcceptedHeader(p, q);
    AcceptedArea(p, q);
    var r := Encapsulated(p, q, payloadType, sequence, ssrc);
    assert q.header.marker == (p[1] / 0x80 == 1) by {
      MarkerOf(p);
    }
    if q.header.marker && 64 <= payloadType <= 95 {
      RefusedAsRtcp(r);
    } else {
      assert q.payloadOffset < |p| ==> r[|r| - 1] == p[|p| - 1] by {
        if q.payloadOffset < |p| {
          assert r[q.payloadOffset..][|r| - 1 - q.payloadOffset] == r[|r| - 1];
        }
      }
      AcceptedWhen(r, q.payloadOffset, q.extensions);
    }
  }

  lemma MarkerOf(p: seq<Byte>)
    requires |p| >= FIXED_HEADER
    ensures HeaderOf(p).marker == (p[1] / 0x80 == 1)
  {
  }

  lemma RefusedAsRtcp(p: seq<Byte>)
    requires |p| >= FIXED_HEADER && p[0] / 0x40 == 2 && LooksLikeRtcp(p)
    ensures ParseRewriteable(p) == Err(IsRtcp)
  {
  }

  /** Writing the transport-wide number changes that extension's value and nothing else. */
  lemma TransportReadsBack(p: seq<Byte>, q: Parsed, id: Byte, number: U16)
    requires ParseRewriteable(p) == Ok(q) && TransportWritten(p, id, number).Ok?
    ensures ParseRewriteable(TransportWritten(p, id, number).value) == Ok(q.(extensions := WithFirst(q.extensions, id, U16Bytes(number))))
  {
    hide *;
    TransportPlace(p, id, number);
    var (at, size) := FindExtension(p, id).value.value;
    var field := U16Bytes(number);
    PatchedArea(p, id, field);
    PatchedFrame(p, at, field);
    AcceptedHeader(p, q);
    AcceptedArea(p, q);
    var r := Patched(p, at, field);
    assert forall i :: 0 <= i < FIXED_HEADER ==> r[i] == p[i];
    SameStart(p, r, q.payloadOffset);
    AcceptedWhen(r, q.payloadOffset, WithFirst(q.extensions, id, field));
  }

  lemma TransportPlace(p: seq<Byte>, id: Byte, number: U16)
    requires TransportWritten(p, id, number).Ok?
    ensures id != 0 && FindExtension(p, id).Ok? && FindExtension(p, id).value.Some?
    ensures var (at, size) := FindExtension(p, id).value.value;
            size == 2 && at + 2 <= |p| && TransportWritten(p, id, number) == Ok(Patched(p, at, U16Bytes(number)))
  {
    hide Patched, U16Bytes;
  }

  /** Header fields and padding depend only on the fixed header and the last byte. */
  lemma SameStart(p: seq<Byte>, r: seq<Byte>, offset: nat)
    requires FIXED_HEADER <= offset <= |p| == |r|
    requires forall i :: 0 <= i < FIXED_HEADER ==> r[i] == p[i]
    requires offset < |p| ==> r[|p| - 1] == p[|p| - 1]
    ensures HeaderOf(r) == HeaderOf(p) && HasPadding(r) == HasPadding(p) && BaseSize(r) == BaseSize(p) && LooksLikeRtcp(r) == LooksLikeRtcp(p)
    ensures PaddingSize(r, |r| - offset) == PaddingSize(p, |p| - offset)
  {
  }

  lemma AcceptedWhen(r: seq<Byte>, offset: nat, es: seq<Extension>)
    requires |r| >= FIXED_HEADER && r[0] / 0x40 == 2 && !LooksLikeRtcp(r) && BaseSize(r) <= offset <= |r|
    requires PayloadStart(r) == Ok(offset) && ParsedExtensions(r) == Ok(es) && PaddingSize(r, |r| - offset).Ok?
    ensures ParseRewriteable(r) == Ok(Parsed(HeaderOf(r), HasPadding(r), BaseSize(r), offset, |r| - offset - PaddingSize(r, |r| - offset).value, es))
  {
    hide HeaderOf, PayloadStart, ParsedExtensions, PaddingSize;
  }

  /** Insert the original number, then patch payload type, number and SSRC. */
  method Encapsulate(p: seq<Byte>, q: Parsed, payloadType: Byte, sequence: U16, ssrc: U32) returns (r: seq<Byte>)
    requires ParseRewriteable(p) == Ok(q) && payloadType < 128
    ensures r == Encapsulated(p, q, payloadType, sequence, ssrc)
  {
    hide ParseRewriteable, InspectLayout, HeaderOf, WithPayloadType, U16Bytes, U32Bytes, Framed, Patched;
    AcceptedHeader(p, q);
    r := p[..q.payloadOffset] + U16Bytes(q.header.sequence) + p[q.payloadOffset..];
    ghost var tail := U16Bytes(q.header.sequence) + p[q.payloadOffset..];
    r := r[1 := WithPayloadType(r[1], payloadType)];
    EncapsulatedPatches(p, q.payloadOffset, r, tail, payloadType, sequence, ssrc);
    r := Patched(r, 2, U16Bytes(sequence));
    r := Patched(r, 8, U32Bytes(ssrc));
  }

  lemma EncapsulatedPatches(p: seq<Byte>, offset: nat, b: seq<Byte>, tail: seq<Byte>, payloadType: Byte, sequence: U16, ssrc: U32)
    requires FIXED_HEADER <= offset <= |p| && payloadType < 128
    requires b == (p[..offset] + tail)[1 := WithPayloadType(p[1], payloadType)]
    ensures var r := Patched(b, 2, U16Bytes(sequence));
            |r| == |b| && Patched(r, 8, U32Bytes(ssrc)) ==
            Framed(p[0], WithPayloadType(p[1], payloadType), sequence, HeaderOf(p).timestamp, ssrc, p[FIXED_HEADER..offset], tail)
  {
    hide WithPayloadType, U16Bytes, U32Bytes, ReadU32, ReadU16;
    ReadU32Slice(p, 4, ReadU32(p, 4));
    var second := WithPayloadType(p[1], payloadType);
    assert b == [p[0], second] + p[2..4] + p[4..8] + p[8..12] + p[FIXED_HEADER..offset] + tail;
    var r := Patched(b, 2, U16Bytes(sequence));
    assert r == [p[0], second] + U16Bytes(sequence) + p[4..8] + p[8..12] + p[FIXED_HEADER..offset] + tail;
    assert Patched(r, 8, U32Bytes(ssrc)) == [p[0], second] + U16Bytes(sequence) + p[4..8] + U32Bytes(ssrc) + p[FIXED_HEADER..offset] + [] + tail;
  }
}
