/**
 The transport-wide feedback packet: writer, size predictor and parser of
 `rtp/rtcp_transport_feedback.cpp`, and the proof that the parser undoes the writer.
 */
module FeedbackPacket {
  import opened Wire
  import opened StatusChunks

  const HEADER_SIZE: nat := 20
  const MAX_PARSED_STATUSES: nat := 8192

  /** One packet of the reported range: its receive delta in ticks, or nothing when it was lost. */
  type Entry = Option<I16>

  datatype Header = Header(senderSsrc: U32, mediaSsrc: U32, baseSequence: U16, referenceTime: U24, feedbackCount: Byte)

  datatype Status = Status(sequence: U16, received: bool, deltaTicks: Option<I16>)

  datatype Parsed = Parsed(header: Header, statusCount: U16, statuses: seq<Status>)

  datatype ParseError =
    | InvalidSize
    | InvalidHeader
    | SizeMismatch
    | InvalidPadding
    | TooManyStatuses
    | TruncatedChunk
    | InvalidChunk(chunkError: ChunkError)
    | TruncatedSmallDelta
    | TruncatedLargeDelta
    | TrailingData

  // ----- what the writer emits -----

  function SymbolOf(e: Entry): Symbol {
    if e.None? then 0 else if 0 <= e.value <= 255 then 1 else 2
  }

  function SizesOf(es: seq<Entry>): (s: seq<Symbol>)
    ensures |s| == |es|
  {
    seq(|es|, i requires 0 <= i < |es| => SymbolOf(es[i]))
  }

  /** The deltas of the received packets, in order. */
  ghost function DeltasOf(es: seq<Entry>): (d: seq<I16>) {
    if es == [] then []
    else
      var last := es[|es| - 1];
      DeltasOf(es[..|es| - 1]) + if last.Some? then [last.value] else []
  }

  function EntryBytes(e: Entry): (b: seq<Byte>)
    ensures |b| == SymbolOf(e)
  {
    if e.None? then [] else if 0 <= e.value <= 255 then [e.value] else U16Bytes(I16ToU16(e.value))
  }

  ghost function DeltaBytes(es: seq<Entry>): (b: seq<Byte>) {
    if es == [] then [] else DeltaBytes(es[..|es| - 1]) + EntryBytes(es[|es| - 1])
  }

  ghost function ChunkBytes(chunks: seq<U16>): (b: seq<Byte>)
    ensures |b| == 2 * |chunks|
  {
    if chunks == [] then [] else ChunkBytes(chunks[..|chunks| - 1]) + U16Bytes(chunks[|chunks| - 1])
  }

  ghost function Sum(sizes: seq<Symbol>): (n: nat) {
    if sizes == [] then 0 else Sum(sizes[..|sizes| - 1]) + sizes[|sizes| - 1]
  }

  ghost function UnpaddedSize(sizes: seq<Symbol>): nat {
    HEADER_SIZE + 2 * |Chunks(sizes)| + Sum(sizes)
  }

  ghost function PacketSize(sizes: seq<Symbol>): nat {
    RoundUp4(UnpaddedSize(sizes))
  }

  function PaddingBytes(n: nat): (b: seq<Byte>)
    requires n < 4
    ensures |b| == n
  {
    if n == 0 then [] else Repeat(0, n - 1) + [n]
  }

  function HeaderBytes(h: Header, size: nat, padding: bool, count: U16): (b: seq<Byte>)
    requires size % 4 == 0 && 4 <= size <= 0x4_0000
    ensures |b| == HEADER_SIZE
  {
    [0x80 + (if padding then 0x20 else 0) + 15, 205] + U16Bytes(size / 4 - 1) +
    U32Bytes(h.senderSsrc) + U32Bytes(h.mediaSsrc) + U16Bytes(h.baseSequence) + U16Bytes(count) +
    U24Bytes(h.referenceTime) + [h.feedbackCount]
  }

  /** The packet for a range of entries. */
  ghost function Encoded(h: Header, es: seq<Entry>): (b: seq<Byte>)
    requires |es| <= MAX_PARSED_STATUSES
  {
    var sizes := SizesOf(es);
    SizeBounds(sizes);
    var padding := PacketSize(sizes) - UnpaddedSize(sizes);
    HeaderBytes(h, PacketSize(sizes), padding != 0, |es|) + ChunkBytes(Chunks(sizes)) + DeltaBytes(es) + PaddingBytes(padding)
  }

  lemma SizeBounds(sizes: seq<Symbol>)
    requires |sizes| <= MAX_PARSED_STATUSES
    ensures HEADER_SIZE <= PacketSize(sizes) <= 0x4_0000
  {
    ChunkCountBound(sizes);
    SumBound(sizes);
  }

  lemma {:induction false} SumBound(sizes: seq<Symbol>)
    ensures Sum(sizes) <= 2 * |sizes|
  {
    if sizes != [] {
      SumBound(sizes[..|sizes| - 1]);
    }
  }

  lemma {:induction false} DeltaBytesSize(es: seq<Entry>)
    ensures |DeltaBytes(es)| == Sum(SizesOf(es))
  {
    if es != [] {
      DeltaBytesSize(es[..|es| - 1]);
      assert SizesOf(es)[..|es| - 1] == SizesOf(es[..|es| - 1]);
    }
  }

  /** The size predictor is exact: it is the length of the packet that is written. */
  lemma EncodedSize(h: Header, es: seq<Entry>)
    requires |es| <= MAX_PARSED_STATUSES
    ensures |Encoded(h, es)| == PacketSize(SizesOf(es))
  {
    DeltaBytesSize(es);
  }

  // ----- the writer's methods -----

  method EncodedPacketSize(sizes: seq<Symbol>) returns (size: nat)
    ensures size == PacketSize(sizes)
  {
    hide Chunks;
    var chunks := EncodeStatusChunks(sizes);
    size := AddSizes(HEADER_SIZE + |chunks| * 2, sizes);
    size := RoundUp4(size);
  }

  method AddSizes(start: nat, sizes: seq<Symbol>) returns (size: nat)
    ensures size == start + Sum(sizes)
  {
    size := start;
    for i := 0 to |sizes|
      invariant size == start + Sum(sizes[..i])
    {
      assert sizes[..i + 1][..i] == sizes[..i];
      size := size + sizes[i];
    }
    assert sizes[..|sizes|] == sizes;
  }

  /** Writes a field into the fixed-size buffer. */
  method Put(packet: array<Byte>, offset: nat, bytes: seq<Byte>)
    requires offset + |bytes| <= packet.Length
    modifies packet
    ensures packet[..offset + |bytes|] == old(packet[..offset]) + bytes
    ensures forall j :: offset + |bytes| <= j < packet.Length ==> packet[j] == old(packet[j])
  {
    for i := 0 to |bytes|
      invariant packet[..offset + i] == old(packet[..offset]) + bytes[..i]
      invariant forall j :: offset + i <= j < packet.Length ==> packet[j] == old(packet[j])
    {
      packet[offset + i] := bytes[i];
    }
  }

  /**
   Fills the packet buffer: header, chunks, deltas in order of arrival numbers, and padding.
   `es` is the range that `sizes` and `deltas` describe.
   */
  method EncodePacket(h: Header, sizes: seq<Symbol>, deltas: seq<I16>, ghost es: seq<Entry>) returns (bytes: seq<Byte>)
    requires |es| <= MAX_PARSED_STATUSES
    requires sizes == SizesOf(es) && deltas == DeltasOf(es)
    ensures bytes == Encoded(h, es)
  {
    hide Chunks, DeltaBytes, DeltasOf, ChunkBytes, Sum, HeaderBytes, SizesOf, PaddingBytes, RoundUp4;
    SizeBounds(sizes);
    DeltaBytesSize(es);
    var size := EncodedPacketSize(sizes);
    var chunks := EncodeStatusChunks(sizes);
    var unpadded := AddSizes(HEADER_SIZE + |chunks| * 2, sizes);
    var packet := new Byte[size](_ => 0);
    RoundedUp(unpadded, size);
    FillPacket(packet, h, chunks, sizes, deltas, unpadded, es);
    bytes := packet[..];
  }

  lemma RoundedUp(n: nat, size: nat)
    requires size == RoundUp4(n)
    ensures n <= size < n + 4 && size % 4 == 0
  {
  }

  method FillPacket(packet: array<Byte>, h: Header, chunks: seq<U16>, sizes: seq<Symbol>, deltas: seq<I16>, unpadded: nat, ghost es: seq<Entry>)
    requires sizes == SizesOf(es) && deltas == DeltasOf(es) && |es| < 0x1_0000
    requires unpadded == HEADER_SIZE + 2 * |chunks| + |DeltaBytes(es)| <= packet.Length < unpadded + 4
    requires packet.Length % 4 == 0 && packet.Length <= 0x4_0000 && forall j :: 0 <= j < packet.Length ==> packet[j] == 0
    modifies packet
    ensures packet[..] == HeaderBytes(h, packet.Length, packet.Length != unpadded, |es|) + ChunkBytes(chunks) + DeltaBytes(es)
                          + PaddingBytes(packet.Length - unpadded)
  {
    hide DeltaBytes, DeltasOf, ChunkBytes, HeaderBytes, SizesOf, PaddingBytes;
    var padding := packet.Length - unpadded;
    ghost var header := HeaderBytes(h, packet.Length, padding != 0, |sizes|);
    Put(packet, 0, HeaderBytes(h, packet.Length, padding != 0, |sizes|));
    assert packet[..HEADER_SIZE] == [] + header == header;
    PutChunks(packet, chunks);
    PutDeltas(packet, HEADER_SIZE + 2 * |chunks|, sizes, deltas, es);
    assert packet[..unpadded] == header + ChunkBytes(chunks) + DeltaBytes(es);
    PutPadding(packet, unpadded);
  }

  method PutPadding(packet: array<Byte>, unpadded: nat)
    requires unpadded <= packet.Length < unpadded + 4
    requires forall j :: unpadded <= j < packet.Length ==> packet[j] == 0
    modifies packet
    ensures packet[..] == old(packet[..unpadded]) + PaddingBytes(packet.Length - unpadded)
  {
    var padding := packet.Length - unpadded;
    if padding != 0 {
      packet[packet.Length - 1] := padding;
    }
    assert packet[..] == packet[..unpadded] + packet[unpadded..];
    assert packet[unpadded..] == PaddingBytes(padding);
  }

  method PutChunks(packet: array<Byte>, chunks: seq<U16>)
    requires HEADER_SIZE + 2 * |chunks| <= packet.Length
    modifies packet
    ensures packet[..HEADER_SIZE + 2 * |chunks|] == old(packet[..HEADER_SIZE]) + ChunkBytes(chunks)
    ensures forall j :: HEADER_SIZE + 2 * |chunks| <= j < packet.Length ==> packet[j] == old(packet[j])
  {
    var offset := HEADER_SIZE;
    for i := 0 to |chunks|
      invariant offset == HEADER_SIZE + 2 * i
      invariant packet[..offset] == old(packet[..HEADER_SIZE]) + ChunkBytes(chunks[..i])
      invariant forall j :: offset <= j < packet.Length ==> packet[j] == old(packet[j])
    {
      Put(packet, offset, U16Bytes(chunks[i]));
      assert chunks[..i + 1][..i] == chunks[..i];
      offset := offset + 2;
    }
    assert chunks[..|chunks|] == chunks;
  }

  method PutDeltas(packet: array<Byte>, start: nat, sizes: seq<Symbol>, deltas: seq<I16>, ghost es: seq<Entry>)
    requires sizes == SizesOf(es) && deltas == DeltasOf(es)
    requires start + |DeltaBytes(es)| <= packet.Length
    modifies packet
    ensures packet[..start + |DeltaBytes(es)|] == old(packet[..start]) + DeltaBytes(es)
    ensures forall j :: start + |DeltaBytes(es)| <= j < packet.Length ==> packet[j] == old(packet[j])
  {
    var offset, deltaIndex := start, 0;
    ghost var written: seq<Byte> := [];
    assert DeltasOf(es[..0]) == [] && DeltaBytes(es[..0]) == [];
    hide DeltaBytes, DeltasOf;
    for i := 0 to |sizes|
      invariant deltaIndex == |DeltasOf(es[..i])|
      invariant written == DeltaBytes(es[..i])
      invariant offset == start + |written| <= packet.Length
      invariant packet[..offset] == old(packet[..start]) + written
      invariant forall j :: offset <= j < packet.Length ==> packet[j] == old(packet[j])
    {
      hide EntryBytes;
      PrefixStep(es, i);
      PrefixRoom(es, i, start, packet.Length);
      var delta := if sizes[i] != 0 then deltas[deltaIndex] else 0;
      deltaIndex := deltaIndex + if sizes[i] != 0 then 1 else 0;
      JoinedBytes(old(packet[..start]), written, EntryBytes(es[i]));
      offset := PutDelta(packet, offset, sizes[i], delta, es[i]);
      written := written + EntryBytes(es[i]);
    }
    assert es[..|es|] == es;
  }

  lemma JoinedBytes(a: seq<Byte>, b: seq<Byte>, c: seq<Byte>)
    ensures a + b + c == a + (b + c)
  {
  }

  lemma PrefixRoom(es: seq<Entry>, i: nat, start: nat, length: nat)
    requires i < |es| && start + |DeltaBytes(es)| <= length
    ensures start + |DeltaBytes(es[..i])| + |EntryBytes(es[i])| <= length
  {
    hide DeltaBytes, DeltasOf, EntryBytes;
    PrefixStep(es, i);
  }

  method PutDelta(packet: array<Byte>, offset: nat, size: Symbol, delta: I16, ghost e: Entry) returns (next: nat)
    requires size == SymbolOf(e) && (e.Some? ==> delta == e.value)
    requires offset + |EntryBytes(e)| <= packet.Length
    modifies packet
    ensures next == offset + |EntryBytes(e)|
    ensures packet[..next] == old(packet[..offset]) + EntryBytes(e)
    ensures forall j :: next <= j < packet.Length ==> packet[j] == old(packet[j])
  {
    next := offset;
    if size == 1 {
      Put(packet, offset, [delta]);
      next := offset + 1;
    } else if size == 2 {
      Put(packet, offset, U16Bytes(I16ToU16(delta)));
      next := offset + 2;
    }
  }

  /** What one more entry adds to the deltas and to their bytes. */
  lemma PrefixStep(es: seq<Entry>, i: nat)
    requires i < |es|
    ensures DeltasOf(es[..i + 1]) == DeltasOf(es[..i]) + if es[i].Some? then [es[i].value] else []
    ensures DeltaBytes(es[..i + 1]) == DeltaBytes(es[..i]) + EntryBytes(es[i])
    ensures |DeltasOf(es[..i + 1])| <= |DeltasOf(es)| && |DeltaBytes(es[..i + 1])| <= |DeltaBytes(es)|
    ensures es[i].Some? ==> |DeltasOf(es[..i])| < |DeltasOf(es)| && DeltasOf(es)[|DeltasOf(es[..i])|] == es[i].value
  {
    assert es[..i + 1][..i] == es[..i];
    PrefixMonotone(es, i + 1);
  }

  lemma {:induction false} PrefixMonotone(es: seq<Entry>, k: nat)
    requires k <= |es|
    ensures DeltasOf(es[..k]) <= DeltasOf(es)
    ensures DeltaBytes(es[..k]) <= DeltaBytes(es)
  {
    if k < |es| {
      var init := es[..|es| - 1];
      PrefixMonotone(init, k);
      assert init[..k] == es[..k];
    } else {
      assert es[..k] == es;
    }
  }

  // ----- the parser -----

  /** The header checks; on success the size of the packet without its padding. */
  function EffectiveSize(data: seq<Byte>): (r: Result<nat, ParseError>)
    ensures r.Ok? ==> HEADER_SIZE <= r.value <= |data|
  {
    if |data| < HEADER_SIZE || |data| % 4 != 0 then Err(InvalidSize)
    else if data[0] / 0x40 != 2 || data[0] % 0x20 != 15 || data[1] != 205 then Err(InvalidHeader)
    else if (ReadU16(data, 2) + 1) * 4 != |data| then Err(SizeMismatch)
    else if data[0] / 0x20 % 2 == 0 then Ok(|data|)
    else
      var padding := data[|data| - 1];
      if padding == 0 || padding > |data| - HEADER_SIZE then Err(InvalidPadding) else Ok(|data| - padding)
  }

  /** Reads chunks from `offset` until `count` symbols are known. */
  function ParseChunks(data: seq<Byte>, end: nat, count: nat, offset: nat, sizes: seq<Symbol>): (r: Result<(seq<Symbol>, nat), ParseError>)
    requires offset <= end <= |data| && |sizes| <= count
    ensures r.Ok? ==> |r.value.0| == count && offset <= r.value.1 <= end
    decreases count - |sizes|
  {
    if |sizes| == count then Ok((sizes, offset))
    else if offset + 2 > end then Err(TruncatedChunk)
    else
      match DecodeChunk(ReadU16(data, offset), count - |sizes|)
      case Err(e) => Err(InvalidChunk(e))
      case Ok(symbols) => ParseChunks(data, end, count, offset + 2, sizes + symbols)
  }

  /** Reads the receive delta of one packet. */
  function ParseDelta(data: seq<Byte>, end: nat, size: Symbol, offset: nat): (r: Result<(Entry, nat), ParseError>)
    requires offset <= end <= |data|
    ensures r.Ok? ==> offset <= r.value.1 <= end && (r.value.0.Some? <==> size != 0)
  {
    if size == 0 then Ok((None, offset))
    else if size == 1 then
      if offset + 1 > end then Err(TruncatedSmallDelta) else Ok((Some(data[offset]), offset + 1))
    else
      if offset + 2 > end then Err(TruncatedLargeDelta) else Ok((Some(U16ToI16(ReadU16(data, offset))), offset + 2))
  }

  function ParseDeltas(data: seq<Byte>, end: nat, base: U16, sizes: seq<Symbol>, offset: nat, statuses: seq<Status>)
    : (r: Result<(seq<Status>, nat), ParseError>)
    requires offset <= end <= |data| && |statuses| <= |sizes|
    ensures r.Ok? ==> |r.value.0| == |sizes| && offset <= r.value.1 <= end
    decreases |sizes| - |statuses|
  {
    var i := |statuses|;
    if i == |sizes| then Ok((statuses, offset))
    else
      match ParseDelta(data, end, sizes[i], offset)
      case Err(e) => Err(e)
      case Ok((entry, next)) =>
        ParseDeltas(data, end, base, sizes, next, statuses + [Status((base + i) % 0x1_0000, sizes[i] != 0, entry)])
  }

  predicate TrailingZeros(data: seq<Byte>, offset: nat, end: nat)
    requires offset <= end <= |data|
  {
    end - offset <= 3 && forall i :: offset <= i < end ==> data[i] == 0
  }

  function HeaderOf(data: seq<Byte>): Header
    requires |data| >= HEADER_SIZE
  {
    Header(ReadU32(data, 4), ReadU32(data, 8), ReadU16(data, 12), ReadU24(data, 16), data[19])
  }

  function Parse(data: seq<Byte>): (r: Result<Parsed, ParseError>) {
    match EffectiveSize(data)
    case Err(e) => Err(e)
    case Ok(end) =>
      var count := ReadU16(data, 14);
      if count > MAX_PARSED_STATUSES then Err(TooManyStatuses)
      else
        match ParseChunks(data, end, count, HEADER_SIZE, [])
        case Err(e) => Err(e)
        case Ok((sizes, offset)) =>
          match ParseDeltas(data, end, ReadU16(data, 12), sizes, offset, [])
          case Err(e) => Err(e)
          case Ok((statuses, stop)) =>
            if TrailingZeros(data, stop, end) then Ok(Parsed(HeaderOf(data), count, statuses)) else Err(TrailingData)
  }

  /** The parse loops. */
  method ParseFeedback(data: seq<Byte>) returns (r: Result<Parsed, ParseError>)
    ensures r == Parse(data)
  {
    hide DecodeChunk;
    var effective := EffectiveSize(data);
    if effective.Err? {
      return Err(effective.error);
    }
    var end := effective.value;
    var count := ReadU16(data, 14);
    if count > MAX_PARSED_STATUSES {
      return Err(TooManyStatuses);
    }
    var offset, sizes: seq<Symbol> := HEADER_SIZE, [];
    while |sizes| < count
      invariant HEADER_SIZE <= offset <= end && |sizes| <= count
      invariant ParseChunks(data, end, count, offset, sizes) == ParseChunks(data, end, count, HEADER_SIZE, [])
      decreases count - |sizes|
    {
      if offset + 2 > end {
        return Err(TruncatedChunk);
      }
      var symbols := DecodeChunk(ReadU16(data, offset), count - |sizes|);
      if symbols.Err? {
        return Err(InvalidChunk(symbols.error));
      }
      offset, sizes := offset + 2, sizes + symbols.value;
    }
    r := ParseStatuses(data, end, count, offset, sizes);
  }

  method ParseStatuses(data: seq<Byte>, end: nat, count: U16, start: nat, sizes: seq<Symbol>) returns (r: Result<Parsed, ParseError>)
    requires HEADER_SIZE <= start <= end <= |data|
    ensures r == match ParseDeltas(data, end, ReadU16(data, 12), sizes, start, [])
                 case Err(e) => Err(e)
                 case Ok((statuses, stop)) =>
                   if TrailingZeros(data, stop, end) then Ok(Parsed(HeaderOf(data), count, statuses)) else Err(TrailingData)
  {
    var base := ReadU16(data, 12);
    var offset, sequence, statuses: seq<Status> := start, base, [];
    while |statuses| < |sizes|
      invariant start <= offset <= end && |statuses| <= |sizes|
      invariant sequence == (base + |statuses|) % 0x1_0000
      invariant ParseDeltas(data, end, base, sizes, offset, statuses) == ParseDeltas(data, end, base, sizes, start, [])
      decreases |sizes| - |statuses|
    {
      var size := sizes[|statuses|];
      var delta := ParseDelta(data, end, size, offset);
      if delta.Err? {
        return Err(delta.error);
      }
      statuses := statuses + [Status(sequence, size != 0, delta.value.0)];
      offset, sequence := delta.value.1, (sequence + 1) % 0x1_0000;
    }
    if !TrailingZeros(data, offset, end) {
      return Err(TrailingData);
    }
    return Ok(Parsed(HeaderOf(data), count, statuses));
  }

  // ----- the parser undoes the writer -----

  /** The statuses a reader should see for a range of entries starting at `base`. */
  function StatusesOf(base: U16, es: seq<Entry>): (s: seq<Status>)
    ensures |s| == |es|
  {
    seq(|es|, i requires 0 <= i < |es| => Status((base + i) % 0x1_0000, es[i].Some?, es[i]))
  }

  lemma {:induction false} ChunksRoundTrip(data: seq<Byte>, end: nat, offset: nat, done: seq<Symbol>, rest: seq<Symbol>)
    requires offset + 2 * |Chunks(rest)| <= end <= |data|
    requires data[offset..offset + 2 * |Chunks(rest)|] == ChunkBytes(Chunks(rest))
    ensures ParseChunks(data, end, |done| + |rest|, offset, done) == Ok((done + rest, offset + 2 * |Chunks(rest)|))
    decreases |rest|
  {
    hide DecodeChunk, FirstChunk, Chunks, ChunkBytes, ParseChunks, ReadU16, U16Bytes;
    if rest == [] {
      ParseChunksDone(data, end, offset, done);
      assert done + rest == done;
    } else {
      FirstChunkRoundTrip(rest);
      var (chunk, k) := FirstChunk(rest);
      ChunksStep(rest, chunk, k);
      ChunkSlices(data, offset, chunk, Chunks(rest[k..]));
      ParseChunksStep(data, end, |done| + |rest|, offset, done, rest[..k]);
      ChunksRoundTrip(data, end, offset + 2, done + rest[..k], rest[k..]);
      assert done + rest[..k] + rest[k..] == done + rest;
    }
  }

  lemma ParseChunksDone(data: seq<Byte>, end: nat, offset: nat, done: seq<Symbol>)
    requires offset <= end <= |data|
    ensures Chunks([]) == [] && ParseChunks(data, end, |done|, offset, done) == Ok((done, offset))
  {
  }

  lemma ParseChunksStep(data: seq<Byte>, end: nat, count: nat, offset: nat, done: seq<Symbol>, symbols: seq<Symbol>)
    requires offset + 2 <= end <= |data| && |done| < count
    requires DecodeChunk(ReadU16(data, offset), count - |done|) == Ok(symbols)
    ensures |done| + |symbols| <= count
    ensures ParseChunks(data, end, count, offset, done) == ParseChunks(data, end, count, offset + 2, done + symbols)
  {
    hide DecodeChunk;
  }

  lemma ChunkSlices(data: seq<Byte>, offset: nat, chunk: U16, tail: seq<U16>)
    requires offset + 2 + 2 * |tail| <= |data|
    requires data[offset..offset + 2 + 2 * |tail|] == ChunkBytes([chunk] + tail)
    ensures ReadU16(data, offset) == chunk
    ensures data[offset + 2..offset + 2 + 2 * |tail|] == ChunkBytes(tail)
  {
    ChunkBytesCons(chunk, tail);
    hide ChunkBytes, U16Bytes;
    var bytes := data[offset..offset + 2 + 2 * |tail|];
    assert data[offset..offset + 2] == bytes[..2] == U16Bytes(chunk);
    ReadU16Slice(data, offset, chunk);
    assert data[offset + 2..offset + 2 + 2 * |tail|] == bytes[2..] == ChunkBytes(tail);
  }

  lemma {:induction false} ChunkBytesCons(chunk: U16, tail: seq<U16>)
    ensures ChunkBytes([chunk] + tail) == U16Bytes(chunk) + ChunkBytes(tail)
  {
    if tail == [] {
      assert ChunkBytes([chunk]) == ChunkBytes([chunk][..0]) + U16Bytes(chunk);
      assert [chunk] + tail == [chunk];
    } else {
      var init := tail[..|tail| - 1];
      ChunkBytesCons(chunk, init);
      assert ([chunk] + tail)[..|tail|] == [chunk] + init;
    }
  }

  lemma EntryRoundTrip(data: seq<Byte>, end: nat, offset: nat, e: Entry)
    requires offset + |EntryBytes(e)| <= end <= |data|
    requires data[offset..offset + |EntryBytes(e)|] == EntryBytes(e)
    ensures ParseDelta(data, end, SymbolOf(e), offset) == Ok((e, offset + |EntryBytes(e)|))
  {
    if SymbolOf(e) == 1 {
      assert data[offset] == data[offset..offset + 1][0];
    } else if SymbolOf(e) == 2 {
      ReadU16Slice(data, offset, I16ToU16(e.value));
    }
  }

  lemma {:induction false} DeltasRoundTrip(data: seq<Byte>, end: nat, base: U16, start: nat, es: seq<Entry>, k: nat)
    requires k <= |es| && start + |DeltaBytes(es)| <= end <= |data|
    requires data[start..start + |DeltaBytes(es)|] == DeltaBytes(es)
    requires |DeltaBytes(es[..k])| <= |DeltaBytes(es)|
    ensures ParseDeltas(data, end, base, SizesOf(es), start + |DeltaBytes(es[..k])|, StatusesOf(base, es)[..k])
         == Ok((StatusesOf(base, es), start + |DeltaBytes(es)|))
    decreases |es| - k
  {
    hide DeltaBytes, DeltasOf, StatusesOf, SizesOf, EntryBytes, SymbolOf, ParseDelta;
    if k == |es| {
      assert es[..k] == es && StatusesOf(base, es)[..k] == StatusesOf(base, es);
    } else {
      hide ParseDeltas;
      PrefixStep(es, k);
      PrefixMonotone(es, k + 1);
      EntrySlice(data, start, DeltaBytes(es), |DeltaBytes(es[..k])|, EntryBytes(es[k]));
      EntryRoundTrip(data, end, start + |DeltaBytes(es[..k])|, es[k]);
      ParseDeltasStep(data, end, base, es, start + |DeltaBytes(es[..k])|, k);
      DeltasRoundTrip(data, end, base, start, es, k + 1);
    }
  }

  lemma EntrySlice(data: seq<Byte>, start: nat, bytes: seq<Byte>, at: nat, part: seq<Byte>)
    requires start + |bytes| <= |data| && data[start..start + |bytes|] == bytes
    requires at + |part| <= |bytes| && bytes[at..at + |part|] == part
    ensures data[start + at..start + at + |part|] == part
  {
    forall i | 0 <= i < |part|
      ensures data[start + at..start + at + |part|][i] == part[i]
    {
      assert data[start..start + |bytes|][at + i] == bytes[at + i] == bytes[at..at + |part|][i];
    }
  }

  lemma ParseDeltasStep(data: seq<Byte>, end: nat, base: U16, es: seq<Entry>, offset: nat, k: nat)
    requires k < |es| && offset <= end <= |data|
    requires offset + |EntryBytes(es[k])| <= end
    requires ParseDelta(data, end, SymbolOf(es[k]), offset) == Ok((es[k], offset + |EntryBytes(es[k])|))
    ensures ParseDeltas(data, end, base, SizesOf(es), offset, StatusesOf(base, es)[..k])
         == ParseDeltas(data, end, base, SizesOf(es), offset + |EntryBytes(es[k])|, StatusesOf(base, es)[..k + 1])
  {
    hide ParseDelta, EntryBytes;
    var statuses := StatusesOf(base, es);
    assert statuses[..k] + [statuses[k]] == statuses[..k + 1];
  }

  lemma HeaderRoundTrip(h: Header, size: nat, padding: bool, count: U16, rest: seq<Byte>)
    requires size % 4 == 0 && HEADER_SIZE <= size <= 0x4_0000
    ensures var data := HeaderBytes(h, size, padding, count) + rest;
            && data[0] / 0x40 == 2 && data[0] % 0x20 == 15 && data[1] == 205
            && data[0] / 0x20 % 2 == (if padding then 1 else 0)
            && ReadU16(data, 2) == size / 4 - 1 && ReadU16(data, 14) == count
            && HeaderOf(data) == h
  {
    var data := HeaderBytes(h, size, padding, count) + rest;
    assert data[2..4] == U16Bytes(size / 4 - 1);
    assert data[4..8] == U32Bytes(h.senderSsrc);
    assert data[8..12] == U32Bytes(h.mediaSsrc);
    assert data[12..14] == U16Bytes(h.baseSequence);
    assert data[14..16] == U16Bytes(count);
    assert data[16..19] == U24Bytes(h.referenceTime);
    hide U16Bytes, U24Bytes, U32Bytes, HeaderBytes;
    ReadU16Slice(data, 2, size / 4 - 1);
    ReadU32Slice(data, 4, h.senderSsrc);
    ReadU32Slice(data, 8, h.mediaSsrc);
    ReadU16Slice(data, 12, h.baseSequence);
    ReadU16Slice(data, 14, count);
    ReadU24Slice(data, 16, h.referenceTime);
  }

  /** Where the parts of a written packet lie. */
  lemma EncodedLayout(h: Header, es: seq<Entry>)
    requires |es| <= MAX_PARSED_STATUSES
    ensures var data, sizes := Encoded(h, es), SizesOf(es);
            var deltas := HEADER_SIZE + 2 * |Chunks(sizes)|;
            && deltas + |DeltaBytes(es)| == UnpaddedSize(sizes) <= |data|
            && data[HEADER_SIZE..deltas] == ChunkBytes(Chunks(sizes))
            && data[deltas..UnpaddedSize(sizes)] == DeltaBytes(es)
            && EffectiveSize(data) == Ok(UnpaddedSize(sizes))
            && HeaderOf(data) == h && ReadU16(data, 14) == |es|
  {
    hide Chunks, DeltaBytes, ChunkBytes, Sum, HeaderBytes, SizesOf, ReadU16, ReadU32, ReadU24, PaddingBytes, EffectiveSize, HeaderOf;
    var sizes := SizesOf(es);
    SizeBounds(sizes);
    DeltaBytesSize(es);
    var size, padding := PacketSize(sizes), PacketSize(sizes) - UnpaddedSize(sizes);
    var header, chunks, deltas, tail := HeaderBytes(h, size, padding != 0, |es|), ChunkBytes(Chunks(sizes)), DeltaBytes(es), PaddingBytes(padding);
    FourParts(header, chunks, deltas, tail);
    HeaderRoundTrip(h, size, padding != 0, |es|, chunks + deltas + tail);
    assert header + (chunks + deltas + tail) == header + chunks + deltas + tail;
    PaddingEnd(padding);
    EffectiveWhen(Encoded(h, es), padding);
  }

  lemma FourParts(a: seq<Byte>, b: seq<Byte>, c: seq<Byte>, d: seq<Byte>)
    ensures var s := a + b + c + d;
            && s[|a|..|a| + |b|] == b && s[|a| + |b|..|a| + |b| + |c|] == c
            && (d != [] ==> s[|s| - 1] == d[|d| - 1])
  {
  }

  lemma PaddingEnd(n: nat)
    requires 0 <= n < 4
    ensures n > 0 ==> PaddingBytes(n)[n - 1] == n
  {
  }

  lemma EffectiveWhen(data: seq<Byte>, padding: nat)
    requires |data| >= HEADER_SIZE + padding && |data| % 4 == 0 && padding < 4 && ReadU16(data, 2) == |data| / 4 - 1
    requires data[0] / 0x40 == 2 && data[0] % 0x20 == 15 && data[1] == 205 && data[0] / 0x20 % 2 == (if padding != 0 then 1 else 0)
    requires padding != 0 ==> data[|data| - 1] == padding
    ensures EffectiveSize(data) == Ok(|data| - padding)
  {
    hide ReadU16;
  }

  /** Every packet the writer emits is accepted and read back field for field, status for status. */
  lemma RoundTrip(h: Header, es: seq<Entry>)
    requires |es| <= MAX_PARSED_STATUSES
    ensures Parse(Encoded(h, es)) == Ok(Parsed(h, |es|, StatusesOf(h.baseSequence, es)))
  {
    hide Encoded, Chunks, ChunkBytes, SizesOf, StatusesOf, ReadU16, ReadU32, ReadU24, ParseChunks, ParseDeltas, EffectiveSize;
    var data, sizes := Encoded(h, es), SizesOf(es);
    var end := UnpaddedSize(sizes);
    EncodedLayout(h, es);
    ChunksRoundTrip(data, end, HEADER_SIZE, [], sizes);
    assert [] + sizes == sizes;
    var deltas := HEADER_SIZE + 2 * |Chunks(sizes)|;
    assert es[..0] == [];
    DeltasRoundTrip(data, end, h.baseSequence, deltas, es, 0);
    assert StatusesOf(h.baseSequence, es)[..0] == [];
    assert ReadU16(data, 12) == HeaderOf(data).baseSequence;
  }

  // ----- what the parser accepts -----

  lemma {:induction false} SumPrefix(sizes: seq<Symbol>, i: nat)
    requires i <= |sizes|
    ensures Sum(sizes[..i]) <= Sum(sizes)
    ensures i < |sizes| ==> Sum(sizes[..i + 1]) == Sum(sizes[..i]) + sizes[i]
    decreases |sizes| - i
  {
    if i < |sizes| {
      assert sizes[..i + 1][..i] == sizes[..i];
      SumPrefix(sizes, i + 1);
    } else {
      assert sizes[..i] == sizes;
    }
  }

  /** The status that the parser reads for number `i`, with the deltas lying one after the other from `at` on. */
  ghost predicate StatusAt(data: seq<Byte>, base: U16, sizes: seq<Symbol>, at: nat, i: nat, status: Status)
    requires i < |sizes|
  {
    var from := at + Sum(sizes[..i]);
    && from + sizes[i] <= |data|
    && status == Status((base + i) % 0x1_0000, sizes[i] != 0,
                        if sizes[i] == 0 then None else if sizes[i] == 1 then Some(data[from]) else Some(U16ToI16(ReadU16(data, from))))
  }

  lemma {:induction false} DeltasAre(data: seq<Byte>, end: nat, base: U16, sizes: seq<Symbol>, at: nat, statuses: seq<Status>)
    requires |statuses| <= |sizes| && at + Sum(sizes[..|statuses|]) <= end <= |data|
    requires forall i :: 0 <= i < |statuses| ==> StatusAt(data, base, sizes, at, i, statuses[i])
    ensures var r := ParseDeltas(data, end, base, sizes, at + Sum(sizes[..|statuses|]), statuses);
            && (r.Ok? <==> at + Sum(sizes) <= end)
            && (r.Ok? ==> r.value.1 == at + Sum(sizes) && forall i :: 0 <= i < |sizes| ==> StatusAt(data, base, sizes, at, i, r.value.0[i]))
    decreases |sizes| - |statuses|
  {
    hide StatusAt, Sum, ReadU16, ParseDelta;
    var i := |statuses|;
    SumPrefix(sizes, i);
    if i == |sizes| {
      assert sizes[..i] == sizes;
    } else {
      SumPrefix(sizes, i + 1);
      OneStatus(data, end, base, sizes, at, i);
      var one := ParseDelta(data, end, sizes[i], at + Sum(sizes[..i]));
      if one.Ok? {
        DeltasAre(data, end, base, sizes, at, statuses + [Status((base + i) % 0x1_0000, sizes[i] != 0, one.value.0)]);
      }
    }
  }

  lemma OneStatus(data: seq<Byte>, end: nat, base: U16, sizes: seq<Symbol>, at: nat, i: nat)
    requires i < |sizes| && at + Sum(sizes[..i]) <= end <= |data|
    ensures var offset := at + Sum(sizes[..i]);
            var r := ParseDelta(data, end, sizes[i], offset);
            && (r.Ok? <==> offset + sizes[i] <= end)
            && (r.Ok? ==> r.value.1 == offset + sizes[i] && StatusAt(data, base, sizes, at, i, Status((base + i) % 0x1_0000, sizes[i] != 0, r.value.0)))
  {
    hide Sum, ReadU16, U16ToI16;
  }

  /**
   The parser accepts exactly a feedback packet of the declared size whose padding counts itself, with
   complete chunks for the declared number of statuses, complete deltas behind them, and at most three
   zero bytes left; and it reads the statuses where they lie.
   */
  lemma ParsedIff(data: seq<Byte>)
    ensures Parse(data).Ok? <==>
              && EffectiveSize(data).Ok? && ReadU16(data, 14) <= MAX_PARSED_STATUSES
              && var end := EffectiveSize(data).value;
                 var chunks := ParseChunks(data, end, ReadU16(data, 14), HEADER_SIZE, []);
                 && chunks.Ok?
                 && var stop := chunks.value.1 + Sum(chunks.value.0);
                    stop <= end && end - stop <= 3 && forall i :: stop <= i < end ==> data[i] == 0
    ensures Parse(data).Ok? ==>
              var r, (sizes, at) := Parse(data).value, ParseChunks(data, EffectiveSize(data).value, ReadU16(data, 14), HEADER_SIZE, []).value;
              && r.header == HeaderOf(data) && r.statusCount == |r.statuses| == |sizes| == ReadU16(data, 14)
              && forall i :: 0 <= i < |sizes| ==> StatusAt(data, ReadU16(data, 12), sizes, at, i, r.statuses[i])
  {
    hide EffectiveSize, ParseChunks, ParseDeltas, StatusAt, ReadU16, HeaderOf, Sum;
    if EffectiveSize(data).Ok? && ReadU16(data, 14) <= MAX_PARSED_STATUSES {
      var end := EffectiveSize(data).value;
      var chunks := ParseChunks(data, end, ReadU16(data, 14), HEADER_SIZE, []);
      if chunks.Ok? {
        var (sizes, at) := chunks.value;
        assert sizes[..0] == [];
        NothingSummed();
        DeltasAre(data, end, ReadU16(data, 12), sizes, at, []);
      }
    }
  }

  lemma NothingSummed()
    ensures Sum([]) == 0
  {
  }

  /** The frame of a feedback packet: whole words, version 2, format 15 of type 205, the declared size, and padding that leaves the header. */
  lemma FrameIff(data: seq<Byte>)
    ensures EffectiveSize(data).Ok? <==>
              && |data| >= HEADER_SIZE && |data| % 4 == 0 && data[0] / 0x40 == 2 && data[0] % 0x20 == 15 && data[1] == 205
              && (ReadU16(data, 2) + 1) * 4 == |data|
              && (data[0] / 0x20 % 2 == 1 ==> 1 <= data[|data| - 1] <= |data| - HEADER_SIZE)
    ensures EffectiveSize(data).Ok? ==> EffectiveSize(data).value == |data| - (if data[0] / 0x20 % 2 == 1 then data[|data| - 1] else 0)
  {
    hide ReadU16;
  }
}
