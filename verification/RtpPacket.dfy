/**
 RTP packet layout (`rtp/rtp_packet.cpp`), the header-extension finder
 (`rtp/rtp_header_extension.cpp`) and the parser of the WHEP rewriter: what they accept, that they
 agree, and that a packet assembled by the rewriter reads back.
 */
module RtpPacket {
  import opened Wire
  import opened HeaderExtensions

  const FIXED_HEADER: nat := 12
  const ONE_BYTE_PROFILE: U16 := 0xBEDE
  const TWO_BYTE_PROFILE: U16 := 0x1000

  datatype RtpError =
    | TooShort
    | BadVersion
    | IsRtcp
    | TruncatedCsrcs
    | TruncatedExtensionHeader
    | TruncatedExtension
    | BadExtension(error: ExtensionError)
    | UnsupportedProfile
    | PaddingWithoutPayload
    | BadPadding
    | ZeroExtensionId

  datatype Layout = Layout(headerSize: nat, mediaPayloadSize: nat, paddingSize: nat, padding: bool)

  datatype Header = Header(marker: bool, payloadType: Byte, sequence: U16, timestamp: U32, ssrc: U32)

  datatype Parsed = Parsed(header: Header, padding: bool, baseSize: nat, payloadOffset: nat, payloadSize: nat, extensions: seq<Extension>)

  predicate LooksLikeRtcp(p: seq<Byte>) {
    |p| >= 2 && 128 <= p[0] <= 191 && 192 <= p[1] <= 223
  }

  function BaseSize(p: seq<Byte>): nat
    requires p != []
  {
    FIXED_HEADER + 4 * (p[0] % 0x10)
  }

  predicate HasExtension(p: seq<Byte>)
    requires p != []
  {
    p[0] / 0x10 % 2 == 1
  }

  predicate HasPadding(p: seq<Byte>)
    requires p != []
  {
    p[0] / 0x20 % 2 == 1
  }

  function ProfileFormat(profile: U16): Option<Format> {
    if profile == ONE_BYTE_PROFILE then Some(OneByte)
    else if profile / 0x10 * 0x10 == TWO_BYTE_PROFILE then Some(TwoByte)
    else None
  }

  /** The extension area of a packet whose extension flag is set: profile and the bounds of its payload. */
  function ExtensionArea(p: seq<Byte>, at: nat): (r: Result<(U16, nat, nat), RtpError>)
    ensures r.Ok? ==> at + 4 == r.value.1 <= r.value.2 <= |p| && (r.value.2 - r.value.1) % 4 == 0
  {
    if at + 4 > |p| then Err(TruncatedExtensionHeader)
    else
      var end := at + 4 + ReadU16(p, at + 2) * 4;
      if end > |p| then Err(TruncatedExtension) else Ok((ReadU16(p, at), at + 4, end))
  }

  /** Where the payload starts; known extension formats are validated, unknown ones are skipped. */
  function PayloadStart(p: seq<Byte>): (r: Result<nat, RtpError>)
    requires p != [] && BaseSize(p) <= |p|
    ensures r.Ok? ==> BaseSize(p) <= r.value <= |p|
  {
    if !HasExtension(p) then Ok(BaseSize(p))
    else
      match ExtensionArea(p, BaseSize(p))
      case Err(e) => Err(e)
      case Ok((profile, start, end)) =>
        match ProfileFormat(profile)
        case None => Ok(end)
        case Some(f) =>
          match Valid(f, p[start..end])
          case Some(e) => Err(BadExtension(e))
          case None => Ok(end)
  }

  function PaddingSize(p: seq<Byte>, payloadSize: nat): (r: Result<nat, RtpError>)
    requires p != [] && payloadSize <= |p|
    ensures r.Ok? ==> r.value <= payloadSize
  {
    if !HasPadding(p) then Ok(0)
    else if payloadSize == 0 then Err(PaddingWithoutPayload)
    else if p[|p| - 1] == 0 || p[|p| - 1] > payloadSize then Err(BadPadding)
    else Ok(p[|p| - 1])
  }

  function InspectLayout(p: seq<Byte>): (r: Result<Layout, RtpError>)
    ensures r.Ok? ==> |p| >= FIXED_HEADER && BaseSize(p) <= r.value.headerSize && r.value.headerSize + r.value.mediaPayloadSize + r.value.paddingSize == |p|
  {
    if |p| < FIXED_HEADER then Err(TooShort)
    else if p[0] / 0x40 != 2 then Err(BadVersion)
    else if LooksLikeRtcp(p) then Err(IsRtcp)
    else if BaseSize(p) > |p| then Err(TruncatedCsrcs)
    else
      match PayloadStart(p)
      case Err(e) => Err(e)
      case Ok(start) =>
        match PaddingSize(p, |p| - start)
        case Err(e) => Err(e)
        case Ok(padding) => Ok(Layout(start, |p| - start - padding, padding, HasPadding(p)))
  }

  function HeaderOf(p: seq<Byte>): Header
    requires |p| >= FIXED_HEADER
  {
    Header(p[1] / 0x80 == 1, p[1] % 0x80, ReadU16(p, 2), ReadU32(p, 4), ReadU32(p, 8))
  }

  function ParsedExtensions(p: seq<Byte>): Result<seq<Extension>, RtpError>
    requires p != [] && BaseSize(p) <= |p|
  {
    if !HasExtension(p) then Ok([])
    else
      match ExtensionArea(p, BaseSize(p))
      case Err(e) => Err(e)
      case Ok((profile, start, end)) =>
        match ProfileFormat(profile)
        case None => Err(UnsupportedProfile)
        case Some(f) =>
          match Parse(f, p[start..end])
          case Err(e) => Err(BadExtension(e))
          case Ok(es) => Ok(es)
  }

  /** The rewriter's parser: the layout check first, then its own walk over the extensions. */
  function ParseRewriteable(p: seq<Byte>): (r: Result<Parsed, RtpError>)
    ensures r.Ok? ==> FIXED_HEADER <= r.value.baseSize <= r.value.payloadOffset && r.value.payloadOffset + r.value.payloadSize <= |p|
    ensures r.Ok? ==> InspectLayout(p).Ok? && r.value.baseSize == BaseSize(p)
  {
    match InspectLayout(p)
    case Err(e) => Err(e)
    case Ok(layout) =>
      match ParsedExtensions(p)
      case Err(e) => Err(e)
      case Ok(es) => Ok(Parsed(HeaderOf(p), HasPadding(p), BaseSize(p), layout.headerSize, layout.mediaPayloadSize, es))
  }

  /** Absolute position and size of an extension element. */
  function FindExtension(p: seq<Byte>, id: Byte): Result<Option<(nat, nat)>, RtpError> {
    if id == 0 then Err(ZeroExtensionId)
    else if |p| < FIXED_HEADER then Err(TooShort)
    else if p[0] / 0x40 != 2 then Err(BadVersion)
    else if !HasExtension(p) then Ok(None)
    else
      match ExtensionArea(p, BaseSize(p))
      case Err(e) => Err(e)
      case Ok((profile, start, end)) =>
        match ProfileFormat(profile)
        case None => Ok(None)
        case Some(f) =>
          if f.OneByte? && id >= 15 then Ok(None)
          else
            match Find(f, p[start..end], id)
            case Err(e) => Err(BadExtension(e))
            case Ok(found) => Ok(if found.None? then None else Some((start + found.value.0, found.value.1)))
  }

  /**
   What is a valid layout: version 2, not an RTCP packet, room for the contributing sources, an
   extension area inside the packet and without a malformed element when its format is known, and, with
   the padding flag, a last byte that counts itself and stays behind the header.
   */
  lemma LayoutIff(p: seq<Byte>)
    ensures InspectLayout(p).Ok? <==>
              && |p| >= FIXED_HEADER && p[0] / 0x40 == 2 && !LooksLikeRtcp(p) && FIXED_HEADER + 4 * (p[0] % 0x10) <= |p|
              && PayloadStart(p).Ok?
              && (p[0] / 0x20 % 2 == 1 ==> PayloadStart(p).value < |p| && 1 <= p[|p| - 1] <= |p| - PayloadStart(p).value)
    ensures InspectLayout(p).Ok? ==>
              var l := InspectLayout(p).value;
              && l.headerSize == PayloadStart(p).value && l.paddingSize == (if p[0] / 0x20 % 2 == 1 then p[|p| - 1] else 0)
              && l.mediaPayloadSize == |p| - l.headerSize - l.paddingSize
  {
    hide PayloadStart, LooksLikeRtcp;
  }

  /** The payload starts behind the contributing sources, and behind the extension area when there is one. */
  lemma PayloadStartIff(p: seq<Byte>)
    requires |p| >= FIXED_HEADER && BaseSize(p) <= |p|
    ensures p[0] / 0x10 % 2 == 0 ==> PayloadStart(p) == Ok(BaseSize(p))
    ensures p[0] / 0x10 % 2 == 1 ==>
              var at := BaseSize(p);
              (PayloadStart(p).Ok? <==>
                && at + 4 <= |p| && at + 4 + 4 * ReadU16(p, at + 2) <= |p|
                && (ReadU16(p, at) == ONE_BYTE_PROFILE ==> Valid(OneByte, p[at + 4..at + 4 + 4 * ReadU16(p, at + 2)]).None?)
                && (TWO_BYTE_PROFILE <= ReadU16(p, at) <= TWO_BYTE_PROFILE + 15 ==> Valid(TwoByte, p[at + 4..at + 4 + 4 * ReadU16(p, at + 2)]).None?))
              && (PayloadStart(p).Ok? ==> PayloadStart(p) == Ok(at + 4 + 4 * ReadU16(p, at + 2)))
  {
    hide Valid, ReadU16;
  }

  // ----- the readers agree -----

  /** The rewriter accepts exactly the valid layouts whose extension format it knows. */
  lemma RewriteableIff(p: seq<Byte>)
    ensures ParseRewriteable(p).Ok? <==>
            InspectLayout(p).Ok? && (HasExtension(p) ==> ProfileFormat(ReadU16(p, BaseSize(p))).Some?)
  {
    if InspectLayout(p).Ok? && HasExtension(p) {
      var (profile, start, end) := ExtensionArea(p, BaseSize(p)).value;
      if ProfileFormat(profile).Some? {
        ValidatorAgrees(ProfileFormat(profile).value, p[start..end]);
      }
    }
  }

  lemma {:induction false} OneByteIdsAreSmall(p: seq<Byte>, id: Byte)
    requires Parse(OneByte, p).Ok? && id >= 15
    ensures FirstWithId(Parse(OneByte, p).value, id).None?
    decreases |p|
  {
    if p != [] {
      match Head(OneByte, p)
      case Padding => OneByteIdsAreSmall(p[1..], id);
      case Bad(_) =>
      case Element(other, headerSize, size) =>
        var rest := Parse(OneByte, p[headerSize + size..]).value;
        OneByteIdsAreSmall(p[headerSize + size..], id);
        assert ([Extension(other, p[headerSize..headerSize + size])] + rest)[1..] == rest;
    }
  }

  /** On every packet the rewriter accepts, the finder returns the first parsed element with the id. */
  lemma FinderAgreesWithParser(p: seq<Byte>, id: Byte)
    requires ParseRewriteable(p).Ok? && id != 0
    ensures FindExtension(p, id).Ok?
    ensures var found, first := FindExtension(p, id).value, FirstWithId(ParseRewriteable(p).value.extensions, id);
            && (found.None? <==> first.None?)
            && (found.Some? ==>
                  && BaseSize(p) + 4 <= found.value.0 && found.value.0 + found.value.1 <= ParseRewriteable(p).value.payloadOffset
                  && p[found.value.0..found.value.0 + found.value.1] == first.value)
  {
    hide Find, Parse, Valid, PaddingSize;
    if HasExtension(p) {
      var (profile, start, end) := ExtensionArea(p, BaseSize(p)).value;
      var f := ProfileFormat(profile).value;
      FinderAgrees(f, p[start..end], id);
      if f.OneByte? && id >= 15 {
        OneByteIdsAreSmall(p[start..end], id);
      } else {
        var found := Find(f, p[start..end], id).value;
        if found.Some? {
          SliceOfSlice(p, start, end, found.value.0, found.value.0 + found.value.1);
        }
      }
    }
  }

  // ----- assembling -----

  /** An extension block: profile, length in words, padded elements; nothing when there are no elements. */
  function BlockBytes(es: seq<Extension>): (b: seq<Byte>)
    requires FitsTwoByte(es) && |BlockPayload(es)| / 4 < 0x1_0000
    ensures es == [] ==> b == []
    ensures es != [] ==> |b| == 4 + |BlockPayload(es)|
  {
    if es == [] then []
    else
      U16Bytes(if FitsOneByte(es) then ONE_BYTE_PROFILE else TWO_BYTE_PROFILE) + U16Bytes(|BlockPayload(es)| / 4) + BlockPayload(es)
  }

  function Assemble(first: Byte, second: Byte, sequence: U16, timestamp: U32, ssrc: U32,
                    csrcs: seq<Byte>, block: seq<Byte>, payload: seq<Byte>): (p: seq<Byte>)
    ensures |p| == FIXED_HEADER + |csrcs| + |block| + |payload|
  {
    [first, second] + U16Bytes(sequence) + U32Bytes(timestamp) + U32Bytes(ssrc) + csrcs + block + payload
  }

  lemma AssembledParts(first: Byte, second: Byte, sequence: U16, timestamp: U32, ssrc: U32,
                       csrcs: seq<Byte>, block: seq<Byte>, payload: seq<Byte>)
    ensures var p := Assemble(first, second, sequence, timestamp, ssrc, csrcs, block, payload);
            var base := FIXED_HEADER + |csrcs|;
            && p[0] == first && p[1] == second
            && HeaderOf(p) == Header(second / 0x80 == 1, second % 0x80, sequence, timestamp, ssrc)
            && p[FIXED_HEADER..base] == csrcs && p[base..base + |block|] == block && p[base + |block|..] == payload
  {
    var p := Assemble(first, second, sequence, timestamp, ssrc, csrcs, block, payload);
    assert p[2..4] == U16Bytes(sequence);
    assert p[4..8] == U32Bytes(timestamp);
    assert p[8..12] == U32Bytes(ssrc);
    hide U16Bytes, U32Bytes, ReadU16, ReadU32, Assemble;
    ReadU16Slice(p, 2, sequence);
    ReadU32Slice(p, 4, timestamp);
    ReadU32Slice(p, 8, ssrc);
  }

  /** A block that lies in a packet reads back as its elements. */
  lemma BlockReadsBack(p: seq<Byte>, at: nat, es: seq<Extension>)
    requires es != [] && FitsTwoByte(es) && |BlockPayload(es)| / 4 < 0x1_0000
    requires at + |BlockBytes(es)| <= |p| && p[at..at + |BlockBytes(es)|] == BlockBytes(es)
    ensures var profile := if FitsOneByte(es) then ONE_BYTE_PROFILE else TWO_BYTE_PROFILE;
            && ExtensionArea(p, at) == Ok((profile, at + 4, at + |BlockBytes(es)|))
            && ProfileFormat(profile) == Some(FormatFor(es))
            && Parse(FormatFor(es), p[at + 4..at + |BlockBytes(es)|]) == Ok(es)
            && Valid(FormatFor(es), p[at + 4..at + |BlockBytes(es)|]) == None
  {
    hide Parse, Valid, BlockPayload, FitsOneByte, U16Bytes, ReadU16;
    var block := BlockBytes(es);
    var payload := BlockPayload(es);
    var profile := if FitsOneByte(es) then ONE_BYTE_PROFILE else TWO_BYTE_PROFILE;
    assert p[at..at + 2] == U16Bytes(profile) by {
      SliceOfSlice(p, at, at + |block|, 0, 2);
    }
    assert p[at + 2..at + 4] == U16Bytes(|payload| / 4) by {
      SliceOfSlice(p, at, at + |block|, 2, 4);
    }
    assert p[at + 4..at + |block|] == payload by {
      SliceOfSlice(p, at, at + |block|, 4, |block|);
    }
    ReadU16Slice(p, at, profile);
    ReadU16Slice(p, at + 2, |payload| / 4);
    BlockRoundTrip(es);
    ValidatorAgrees(FormatFor(es), payload);
  }

  predicate GoodPadding(first: Byte, payload: seq<Byte>) {
    first / 0x20 % 2 == 1 ==> payload != [] && 1 <= payload[|payload| - 1] <= |payload|
  }

  function PaddingOf(first: Byte, payload: seq<Byte>): (n: nat)
    requires GoodPadding(first, payload)
    ensures n <= |payload|
  {
    if first / 0x20 % 2 == 1 then payload[|payload| - 1] else 0
  }

  /**
   An assembled packet is accepted exactly when its marker and payload type do not look like an RTCP
   packet type (section 4 of RFC 5761), and then every part reads back.
   */
  lemma AssembledReadsBack(first: Byte, second: Byte, sequence: U16, timestamp: U32, ssrc: U32,
                           csrcs: seq<Byte>, es: seq<Extension>, payload: seq<Byte>)
    requires first / 0x40 == 2 && |csrcs| == 4 * (first % 0x10) && (first / 0x10 % 2 == 1 <==> es != [])
    requires FitsTwoByte(es) && |BlockPayload(es)| / 4 < 0x1_0000
    requires GoodPadding(first, payload)
    ensures var p := Assemble(first, second, sequence, timestamp, ssrc, csrcs, BlockBytes(es), payload);
            var base := FIXED_HEADER + |csrcs|;
            if 192 <= second <= 223 then ParseRewriteable(p) == Err(IsRtcp)
            else ParseRewriteable(p) == Ok(Parsed(Header(second / 0x80 == 1, second % 0x80, sequence, timestamp, ssrc), first / 0x20 % 2 == 1,
                                                  base, base + |BlockBytes(es)|, |payload| - PaddingOf(first, payload), es))
  {
    hide Assemble, Parse, Valid, BlockPayload, FitsTwoByte, HeaderOf, FormatFor;
    var block := BlockBytes(es);
    var p := Assemble(first, second, sequence, timestamp, ssrc, csrcs, block, payload);
    var base := FIXED_HEADER + |csrcs|;
    AssembledParts(first, second, sequence, timestamp, ssrc, csrcs, block, payload);
    assert payload != [] ==> p[|p| - 1] == payload[|payload| - 1] by {
      if payload != [] {
        assert p[base + |block|..][|payload| - 1] == p[|p| - 1];
      }
    }
    assert BaseSize(p) == base;
    if es != [] {
      BlockReadsBack(p, base, es);
    }
    hide BlockBytes;
    assert !(192 <= second <= 223) ==> PayloadStart(p) == Ok(base + |block|) && ParsedExtensions(p) == Ok(es);
  }
}
