/**
 The bytes of a forwarded packet (the second half of `rewrite` in `media/whep_rtp_rewriter.cpp`):
 the source's base header and payload around a new extension block, with the fixed fields patched.
 */
module RewrittenPacket {
  import opened Wire
  import opened HeaderExtensions
  import opened RtpPacket

  function WithExtensionBit(first: Byte, on: bool): (b: Byte)
    ensures b / 0x40 == first / 0x40 && b / 0x20 % 2 == first / 0x20 % 2 && b % 0x10 == first % 0x10
    ensures b / 0x10 % 2 == (if on then 1 else 0)
  {
    FlagBits(first / 0x40, first / 0x20 % 2, if on then 1 else 0, first % 0x10);
    0x40 * (first / 0x40) + 0x20 * (first / 0x20 % 2) + 0x10 * (if on then 1 else 0) + first % 0x10
  }

  /** Version, padding flag, extension flag and CSRC count are read back from the first byte. */
  lemma FlagBits(version: nat, padding: nat, extension: nat, count: nat)
    requires version < 4 && padding < 2 && extension < 2 && count < 0x10
    ensures var b := 0x40 * version + 0x20 * padding + 0x10 * extension + count;
            b < 0x100 && b / 0x40 == version && b / 0x20 % 2 == padding && b / 0x10 % 2 == extension && b % 0x10 == count
  {
    var c := 2 * version + padding;
    assert (0x20 * c + 0x10 * extension + count) / 0x20 == c;
    assert (0x10 * (2 * c + extension) + count) / 0x10 == 2 * c + extension;
  }

  function WithPayloadType(second: Byte, payloadType: Byte): (b: Byte)
    requires payloadType < 128
    ensures b / 0x80 == second / 0x80 && b % 0x80 == payloadType
  {
    second / 0x80 * 0x80 + payloadType
  }

  /** The payload, with the original sequence number of an RTX packet replaced. */
  function NewPayload(payload: seq<Byte>, original: Option<U16>): (r: seq<Byte>)
    requires original.Some? ==> |payload| >= 2
    ensures |r| == |payload|
  {
    if original.None? then payload else U16Bytes(original.value) + payload[2..]
  }

  function RewrittenBytes(p: seq<Byte>, q: Parsed, es: seq<Extension>, payloadType: Byte, sequence: U16, timestamp: U32, ssrc: U32,
                          original: Option<U16>): seq<Byte>
    requires ParseRewriteable(p) == Ok(q) && payloadType < 128
    requires FitsTwoByte(es) && |BlockPayload(es)| / 4 < 0x1_0000
    requires original.Some? ==> q.payloadSize >= 2
  {
    Assemble(WithExtensionBit(p[0], es != []), WithPayloadType(p[1], payloadType), sequence, timestamp, ssrc,
             p[FIXED_HEADER..q.baseSize], BlockBytes(es), NewPayload(p[q.payloadOffset..], original))
  }

  lemma OriginalPadding(p: seq<Byte>, q: Parsed, original: Option<U16>)
    requires ParseRewriteable(p) == Ok(q) && (original.Some? ==> q.payloadSize >= 2)
    ensures var payload := NewPayload(p[q.payloadOffset..], original);
            && GoodPadding(p[0], payload)
            && |payload| - PaddingOf(p[0], payload) == q.payloadSize
  {
    hide ParsedExtensions, PayloadStart, ParseRewriteable, InspectLayout, HeaderOf, LooksLikeRtcp;
    AcceptedHeader(p, q);
    AcceptedPadding(p, q);
    hide BaseSize;
    var tail := p[q.payloadOffset..];
    LastByteStays(tail, original);
    if tail != [] {
      assert tail[|tail| - 1] == p[|p| - 1];
    }
  }

  lemma AcceptedPadding(p: seq<Byte>, q: Parsed)
    requires ParseRewriteable(p) == Ok(q)
    ensures p != [] && PaddingSize(p, |p| - q.payloadOffset) == Ok(|p| - q.payloadOffset - q.payloadSize)
  {
    hide PaddingSize, PayloadStart, ParsedExtensions;
  }

  lemma LastByteStays(payload: seq<Byte>, original: Option<U16>)
    requires original.Some? ==> |payload| >= 2
    ensures original.Some? && |payload| > 2 ==> NewPayload(payload, original)[|payload| - 1] == payload[|payload| - 1]
    ensures original.None? ==> NewPayload(payload, original) == payload
  {
  }

  /**
   A rewritten packet is accepted by the same parser unless marker and payload type together look like
   an RTCP packet type, and then it carries the new header, the new extensions, and the source's
   CSRCs, marker, padding and payload, with only an RTX original number replaced.
   */
  lemma RewrittenReadsBack(p: seq<Byte>, q: Parsed, es: seq<Extension>, payloadType: Byte, sequence: U16, timestamp: U32, ssrc: U32,
                           original: Option<U16>)
    requires ParseRewriteable(p) == Ok(q) && payloadType < 128
    requires FitsTwoByte(es) && |BlockPayload(es)| / 4 < 0x1_0000
    requires original.Some? ==> q.payloadSize >= 2
    ensures var r := RewrittenBytes(p, q, es, payloadType, sequence, timestamp, ssrc, original);
            var offset := q.baseSize + |BlockBytes(es)|;
            && offset <= |r|
            && r[FIXED_HEADER..q.baseSize] == p[FIXED_HEADER..q.baseSize]
            && r[offset..] == NewPayload(p[q.payloadOffset..], original)
            && ParseRewriteable(r) ==
               if q.header.marker && 64 <= payloadType <= 95 then Err(IsRtcp)
               else Ok(Parsed(Header(q.header.marker, payloadType, sequence, timestamp, ssrc), q.padding, q.baseSize, offset, q.payloadSize, es))
  {
    hide Assemble, BlockPayload, FitsTwoByte, BlockBytes, ParseRewriteable, InspectLayout, PayloadStart, ParsedExtensions, NewPayload, WithExtensionBit, WithPayloadType;
    AcceptedHeader(p, q);
    OriginalPadding(p, q, original);
    var first, second := WithExtensionBit(p[0], es != []), WithPayloadType(p[1], payloadType);
    var csrcs, payload := p[FIXED_HEADER..q.baseSize], NewPayload(p[q.payloadOffset..], original);
    assert GoodPadding(first, payload) && PaddingOf(first, payload) == PaddingOf(p[0], payload);
    AssembledParts(first, second, sequence, timestamp, ssrc, csrcs, BlockBytes(es), payload);
    AssembledReadsBack(first, second, sequence, timestamp, ssrc, csrcs, es, payload);
  }

  lemma AcceptedHeader(p: seq<Byte>, q: Parsed)
    requires ParseRewriteable(p) == Ok(q)
    ensures |p| >= FIXED_HEADER && p[0] / 0x40 == 2 && !LooksLikeRtcp(p)
    ensures q.baseSize == FIXED_HEADER + 4 * (p[0] % 0x10) <= |p|
    ensures q.header == HeaderOf(p) && q.padding == HasPadding(p) == (p[0] / 0x20 % 2 == 1) && q.baseSize == BaseSize(p)
  {
  }

  /** The rewriter's own steps: copy the base header, set flags, append, then patch the fixed fields. */
  method BuildRewritten(p: seq<Byte>, q: Parsed, es: seq<Extension>, block: seq<Byte>, payloadType: Byte, sequence: U16, timestamp: U32, ssrc: U32,
                        original: Option<U16>) returns (r: seq<Byte>)
    requires ParseRewriteable(p) == Ok(q) && payloadType < 128
    requires FitsTwoByte(es) && |BlockPayload(es)| / 4 < 0x1_0000 && block == BlockBytes(es)
    requires original.Some? ==> q.payloadSize >= 2
    ensures r == RewrittenBytes(p, q, es, payloadType, sequence, timestamp, ssrc, original)
  {
    AcceptedHeader(p, q);
    BlockEmptyIff(es);
    hide BlockBytes, BlockPayload, FitsTwoByte, ParseRewriteable, InspectLayout, PayloadStart, ParsedExtensions, U16Bytes, U32Bytes, Patched, NewPayload,
         WithExtensionBit, WithPayloadType, Assemble;
    var tail := p[q.payloadOffset..];
    ghost var first, second := WithExtensionBit(p[0], es != []), WithPayloadType(p[1], payloadType);
    ghost var csrcs := p[FIXED_HEADER..q.baseSize];
    r := JoinParts(p, q.baseSize, block, tail, payloadType);
    PatchedHeader(r, sequence, timestamp, ssrc);
    r := Patched(r, 2, U16Bytes(sequence));
    r := Patched(r, 4, U32Bytes(timestamp));
    r := Patched(r, 8, U32Bytes(ssrc));
    AssembleHeader(first, second, sequence, timestamp, ssrc, csrcs, block, tail);
    NewPayloadNone(tail);
    if original.Some? {
      PatchedPayload(first, second, sequence, timestamp, ssrc, csrcs, block, tail, original.value);
      r := Patched(r, q.baseSize + |block|, U16Bytes(original.value));
    }
  }

  method JoinParts(p: seq<Byte>, baseSize: nat, block: seq<Byte>, tail: seq<Byte>, payloadType: Byte) returns (r: seq<Byte>)
    requires FIXED_HEADER <= baseSize <= |p| && payloadType < 128
    ensures |r| == baseSize + |block| + |tail|
    ensures r[..2] == [WithExtensionBit(p[0], block != []), WithPayloadType(p[1], payloadType)]
    ensures r[FIXED_HEADER..] == p[FIXED_HEADER..baseSize] + block + tail
  {
    hide WithExtensionBit, WithPayloadType;
    r := p[..baseSize];
    r := r[0 := WithExtensionBit(r[0], block != [])];
    r := r + block + tail;
    r := r[1 := WithPayloadType(r[1], payloadType)];
  }

  lemma NewPayloadNone(payload: seq<Byte>)
    ensures NewPayload(payload, None) == payload
  {
  }

  lemma AssembleHeader(first: Byte, second: Byte, sequence: U16, timestamp: U32, ssrc: U32,
                       csrcs: seq<Byte>, block: seq<Byte>, payload: seq<Byte>)
    ensures Assemble(first, second, sequence, timestamp, ssrc, csrcs, block, payload) ==
            [first, second] + U16Bytes(sequence) + U32Bytes(timestamp) + U32Bytes(ssrc) + (csrcs + block + payload)
  {
    hide U16Bytes, U32Bytes;
  }

  lemma PatchedHeader(b: seq<Byte>, sequence: U16, timestamp: U32, ssrc: U32)
    requires |b| >= FIXED_HEADER
    ensures var r1 := Patched(b, 2, U16Bytes(sequence));
            |r1| == |b| && var r2 := Patched(r1, 4, U32Bytes(timestamp));
            |r2| == |b| && var r3 := Patched(r2, 8, U32Bytes(ssrc));
            |r3| == |b| && r3 == b[..2] + U16Bytes(sequence) + U32Bytes(timestamp) + U32Bytes(ssrc) + b[FIXED_HEADER..]
  {
    hide U16Bytes, U32Bytes;
  }

  lemma PatchedPayload(first: Byte, second: Byte, sequence: U16, timestamp: U32, ssrc: U32,
                       csrcs: seq<Byte>, block: seq<Byte>, payload: seq<Byte>, original: U16)
    requires |payload| >= 2
    ensures var p := Assemble(first, second, sequence, timestamp, ssrc, csrcs, block, payload);
            Patched(p, FIXED_HEADER + |csrcs| + |block|, U16Bytes(original))
            == Assemble(first, second, sequence, timestamp, ssrc, csrcs, block, NewPayload(payload, Some(original)))
  {
    hide U16Bytes, U32Bytes;
    var head := [first, second] + U16Bytes(sequence) + U32Bytes(timestamp) + U32Bytes(ssrc) + csrcs + block;
    assert Assemble(first, second, sequence, timestamp, ssrc, csrcs, block, payload) == head + payload;
  }

  lemma BlockEmptyIff(es: seq<Extension>)
    requires FitsTwoByte(es) && |BlockPayload(es)| / 4 < 0x1_0000
    ensures BlockBytes(es) == [] <==> es == []
  {
  }
}
