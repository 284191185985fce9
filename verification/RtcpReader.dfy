/**
 Reading RTCP: the common header (`rtp/rtp_packet.cpp`), reports (`rtp/rtcp_report.cpp`), feedback
 (`rtp/rtcp_feedback.cpp`), SDES, BYE and the compound packet (`rtp/rtcp_compound_packet.cpp`).
 */
module RtcpReader {
  import opened Wire
  import RtpPacket
  import TF = FeedbackPacket

  const COMMON_HEADER: nat := 4
  const FEEDBACK_HEADER: nat := 12
  const REPORT_BLOCK: nat := 24
  const SENDER_INFO: nat := 20

  const SENDER_REPORT: Byte := 200
  const RECEIVER_REPORT: Byte := 201
  const SDES: Byte := 202
  const BYE: Byte := 203
  const TRANSPORT_FEEDBACK: Byte := 205
  const PAYLOAD_FEEDBACK: Byte := 206

  type I24 = x: int | -0x80_0000 <= x < 0x80_0000

  datatype RtcpError =
    | TooShort | BadVersion | NotRtcp | Truncated | BadPadding | PaddingBeforeEnd | EmptyPacket
    | ReportTooShort | TruncatedSenderInfo | TruncatedReportBlocks | TrailingReportBytes
    | TruncatedChunk | TruncatedItem | BadChunkPadding | MissingEndItem | TrailingChunkBytes
    | TruncatedSsrcs | TruncatedReason | BadReasonPadding
    | FeedbackTooShort | BadNackSize | BadPli | BadFirSize | BadTransportFeedback(error: TF.ParseError) | TruncatedRemb

  datatype Header = Header(padding: bool, count: Byte, packetType: Byte, size: nat, ssrc: Option<U32>)

  datatype SenderInfo = SenderInfo(ntpHigh: U32, ntpLow: U32, rtpTimestamp: U32, packets: U32, octets: U32)

  datatype ReportBlock = ReportBlock(ssrc: U32, fractionLost: Byte, cumulativeLost: int, highest: U32, jitter: U32, lastReport: U32, delay: U32)

  datatype Item = Item(kind: Byte, value: seq<Byte>)

  datatype Chunk = Chunk(ssrc: U32, items: seq<Item>)

  datatype NackEntry = NackEntry(packetId: U16, bitmask: U16)

  datatype FirEntry = FirEntry(mediaSsrc: U32, sequence: Byte)

  datatype Feedback = GenericNack(entries: seq<NackEntry>) | TransportCc(feedback: TF.Parsed) | Pli | Fir(requests: seq<FirEntry>) | Remb(bitrate: nat) | OtherFeedback

  datatype Content =
    | Report(sender: U32, info: Option<SenderInfo>, blocks: seq<ReportBlock>)
    | Description(chunks: seq<Chunk>)
    | Goodbye(ssrcs: seq<U32>, reason: seq<Byte>)
    | FeedbackMessage(from: U32, media: U32, body: Feedback)
    | Unknown

  datatype Block = Block(header: Header, content: Content)

  // ----- common header -----

  function ParseHeader(data: seq<Byte>): (r: Result<Header, RtcpError>)
    ensures r.Ok? ==> COMMON_HEADER <= r.value.size <= |data| && r.value.size % 4 == 0 && PayloadEnd(r.value, data) >= COMMON_HEADER
  {
    if |data| < COMMON_HEADER then Err(TooShort)
    else if data[0] / 0x40 != 2 then Err(BadVersion)
    else if !RtpPacket.LooksLikeRtcp(data) then Err(NotRtcp)
    else
      var padding, size := data[0] / 0x20 % 2 == 1, (ReadU16(data, 2) + 1) * 4;
      if size > |data| then Err(Truncated)
      else if padding && (size <= COMMON_HEADER || data[size - 1] == 0 || data[size - 1] > size - COMMON_HEADER) then Err(BadPadding)
      else Ok(Header(padding, data[0] % 0x20, data[1], size, if size >= 8 then Some(ReadU32(data, 4)) else None))
  }

  /** Where the payload ends; the checks of the header leave no further error. */
  /** An RTCP packet of version 2 with a known type, whole in the data, whose padding, if flagged, counts itself and leaves the header. */
  lemma HeaderIff(data: seq<Byte>)
    ensures ParseHeader(data).Ok? <==>
              && |data| >= COMMON_HEADER && data[0] / 0x40 == 2 && 192 <= data[1] <= 223
              && 4 * (ReadU16(data, 2) + 1) <= |data|
              && (data[0] / 0x20 % 2 == 1 ==>
                    var size := 4 * (ReadU16(data, 2) + 1); size > COMMON_HEADER && 1 <= data[size - 1] <= size - COMMON_HEADER)
    ensures ParseHeader(data).Ok? ==>
              var h := ParseHeader(data).value;
              && h.padding == (data[0] / 0x20 % 2 == 1) && h.count == data[0] % 0x20 && h.packetType == data[1] && h.size == 4 * (ReadU16(data, 2) + 1)
  {
    hide ReadU16, ReadU32;
  }

  function PayloadEnd(h: Header, data: seq<Byte>): int
    requires 0 < h.size <= |data|
  {
    if h.padding then h.size - data[h.size - 1] else h.size
  }

  // ----- reports -----

  function ToI24(v: U24): I24 {
    if v >= 0x80_0000 then v - 0x100_0000 else v
  }

  function ParseReportBlock(data: seq<Byte>, at: nat): ReportBlock
    requires at + REPORT_BLOCK <= |data|
  {
    ReportBlock(ReadU32(data, at), data[at + 4], ToI24(ReadU24(data, at + 5)), ReadU32(data, at + 8), ReadU32(data, at + 12),
                ReadU32(data, at + 16), ReadU32(data, at + 20))
  }

  function ParseSenderInfo(data: seq<Byte>, at: nat): SenderInfo
    requires at + SENDER_INFO <= |data|
  {
    SenderInfo(ReadU32(data, at), ReadU32(data, at + 4), ReadU32(data, at + 8), ReadU32(data, at + 12), ReadU32(data, at + 16))
  }

  function ReportBlocks(data: seq<Byte>, at: nat, count: nat): (r: seq<ReportBlock>)
    requires at + count * 24 <= |data|
    ensures |r| == count
  {
    seq(count, i requires 0 <= i < count => ParseReportBlock(data, at + i * 24))
  }

  function ParseReport(h: Header, data: seq<Byte>, end: nat): Result<Content, RtcpError>
    requires COMMON_HEADER <= end <= |data|
  {
    if end < 8 then Err(ReportTooShort)
    else if h.packetType == SENDER_REPORT && end < 8 + SENDER_INFO then Err(TruncatedSenderInfo)
    else
      var at := if h.packetType == SENDER_REPORT then 8 + SENDER_INFO else 8;
      var blocksEnd := at + h.count * 24;
      if blocksEnd > end then Err(TruncatedReportBlocks)
      else if blocksEnd != end then Err(TrailingReportBytes)
      else
        Ok(Report(ReadU32(data, COMMON_HEADER),
                  if h.packetType == SENDER_REPORT then Some(ParseSenderInfo(data, 8)) else None,
                  ReportBlocks(data, at, h.count)))
  }

  // ----- source descriptions -----

  predicate ZeroBetween(data: seq<Byte>, from: nat, to: nat)
    requires from <= to <= |data|
  {
    forall i :: from <= i < to ==> data[i] == 0
  }

  /** The items of one chunk from `offset`, and where the next chunk starts. */
  function ParseItems(data: seq<Byte>, end: nat, offset: nat, items: seq<Item>): (r: Result<(seq<Item>, nat), RtcpError>)
    requires offset <= end <= |data|
    ensures r.Ok? ==> offset < r.value.1 <= end
    decreases end - offset
  {
    if offset >= end then Err(MissingEndItem)
    else if data[offset] == 0 then
      var aligned := RoundUp4(offset + 1);
      if aligned > end || !ZeroBetween(data, offset + 1, aligned) then Err(BadChunkPadding) else Ok((items, aligned))
    else if offset + 1 >= end || offset + 2 + data[offset + 1] > end then Err(TruncatedItem)
    else
      var next := offset + 2 + data[offset + 1];
      ParseItems(data, end, next, items + [Item(data[offset], data[offset + 2..next])])
  }

  function ParseChunks(data: seq<Byte>, end: nat, count: nat, offset: nat, chunks: seq<Chunk>): Result<Content, RtcpError>
    requires offset <= end <= |data|
    decreases count
  {
    if count == 0 then if offset != end then Err(TrailingChunkBytes) else Ok(Description(chunks))
    else if offset + 4 > end then Err(TruncatedChunk)
    else
      match ParseItems(data, end, offset + 4, [])
      case Err(e) => Err(e)
      case Ok((items, next)) => ParseChunks(data, end, count - 1, next, chunks + [Chunk(ReadU32(data, offset), items)])
  }

  /** The chunk's canonical name: its first CNAME item that is not empty. */
  function CnameOf(items: seq<Item>): seq<Byte> {
    var i := FirstIndex(items, (x: Item) => x.kind == 1 && x.value != []);
    if i < |items| then items[i].value else []
  }

  // ----- goodbye -----

  function ReadSsrcs(data: seq<Byte>, at: nat, count: nat): (r: seq<U32>)
    requires at + 4 * count <= |data|
    ensures |r| == count
  {
    seq(count, i requires 0 <= i < count => ReadU32(data, at + 4 * i))
  }

  function ParseBye(h: Header, data: seq<Byte>, end: nat): Result<Content, RtcpError>
    requires COMMON_HEADER <= end <= |data|
  {
    var at := COMMON_HEADER + 4 * h.count;
    if at > end then Err(TruncatedSsrcs)
    else
      var ssrcs := ReadSsrcs(data, COMMON_HEADER, h.count);
      if at == end then Ok(Goodbye(ssrcs, []))
      else
        var stop := at + 1 + data[at];
        if stop > end then Err(TruncatedReason)
        else if !ZeroBetween(data, stop, end) then Err(BadReasonPadding)
        else Ok(Goodbye(ssrcs, data[at + 1..stop]))
  }

  // ----- feedback -----

  function NackEntries(data: seq<Byte>, count: nat): (r: seq<NackEntry>)
    requires FEEDBACK_HEADER + 4 * count <= |data|
    ensures |r| == count
  {
    seq(count, i requires 0 <= i < count => NackEntry(ReadU16(data, FEEDBACK_HEADER + 4 * i), ReadU16(data, FEEDBACK_HEADER + 4 * i + 2)))
  }

  function FirEntries(data: seq<Byte>, count: nat): (r: seq<FirEntry>)
    requires FEEDBACK_HEADER + 8 * count <= |data|
    ensures |r| == count
  {
    seq(count, i requires 0 <= i < count => FirEntry(ReadU32(data, FEEDBACK_HEADER + 8 * i), data[FEEDBACK_HEADER + 8 * i + 4]))
  }

  /** The bitrate is a 64-bit shift of an 18-bit mantissa; bits shifted out are lost. */
  function ParseRemb(data: seq<Byte>, end: nat): Result<Feedback, RtcpError>
    requires FEEDBACK_HEADER <= end <= |data|
  {
    if end < 16 || data[12..16] != [0x52, 0x45, 0x4D, 0x42] then Ok(OtherFeedback)
    else if end < 20 then Err(TruncatedRemb)
    else if 20 + data[16] * 4 > end then Err(TruncatedRemb)
    else Ok(Remb((data[17] % 4 * 0x1_0000 + data[18] * 0x100 + data[19]) * Pow(2, data[17] / 4) % 0x1_0000_0000_0000_0000))
  }

  function ParseFeedbackBody(h: Header, data: seq<Byte>, end: nat): Result<Feedback, RtcpError>
    requires FEEDBACK_HEADER <= end <= |data|
  {
    var size := end - FEEDBACK_HEADER;
    if h.packetType == TRANSPORT_FEEDBACK then
      if h.count == 1 then if size % 4 != 0 then Err(BadNackSize) else Ok(GenericNack(NackEntries(data, size / 4)))
      else if h.count == 15 then
        match TF.Parse(data)
        case Err(e) => Err(BadTransportFeedback(e))
        case Ok(feedback) => Ok(TransportCc(feedback))
      else Ok(OtherFeedback)
    else if h.count == 1 then if size != 0 then Err(BadPli) else Ok(Pli)
    else if h.count == 4 then if size % 8 != 0 then Err(BadFirSize) else Ok(Fir(FirEntries(data, size / 8)))
    else if h.count == 15 then ParseRemb(data, end)
    else Ok(OtherFeedback)
  }

  function ParseFeedback(h: Header, data: seq<Byte>, end: nat): Result<Content, RtcpError>
    requires COMMON_HEADER <= end <= h.size <= |data|
  {
    if h.size < FEEDBACK_HEADER || end < FEEDBACK_HEADER then Err(FeedbackTooShort)
    else
      match ParseFeedbackBody(h, data, end)
      case Err(e) => Err(e)
      case Ok(body) => Ok(FeedbackMessage(ReadU32(data, 4), ReadU32(data, 8), body))
  }

  // ----- compound packets -----

  predicate IsFeedback(packetType: Byte) {
    packetType == TRANSPORT_FEEDBACK || packetType == PAYLOAD_FEEDBACK
  }

  predicate IsReport(packetType: Byte) {
    packetType == SENDER_REPORT || packetType == RECEIVER_REPORT
  }

  /** One block, given exactly its bytes. */
  function ParseContent(h: Header, data: seq<Byte>): Result<Content, RtcpError>
    requires ParseHeader(data) == Ok(h)
  {
    var end := PayloadEnd(h, data);
    if IsFeedback(h.packetType) then ParseFeedback(h, data, end)
    else if IsReport(h.packetType) then ParseReport(h, data, end)
    else if h.packetType == SDES then ParseChunks(data, end, h.count, COMMON_HEADER, [])
    else if h.packetType == BYE then ParseBye(h, data, end)
    else Ok(Unknown)
  }

  function ParseMember(data: seq<Byte>): Result<Block, RtcpError> {
    match ParseHeader(data)
    case Err(e) => Err(e)
    case Ok(h) =>
      match ParseContent(h, data)
      case Err(e) => Err(e)
      case Ok(content) => Ok(Block(h, content))
  }

  /** The block at the front of the data, cut to its own size. */
  function ParseFront(data: seq<Byte>): (r: Result<Block, RtcpError>)
    ensures r.Ok? ==> COMMON_HEADER <= r.value.header.size <= |data|
  {
    match ParseHeader(data)
    case Err(e) => Err(e)
    case Ok(h) =>
      HeaderOfPrefix(data, h.size);
      if h.padding && h.size != |data| then Err(PaddingBeforeEnd)
      else
        match ParseContent(h, data[..h.size])
        case Err(e) => Err(e)
        case Ok(content) => Ok(Block(h, content))
  }

  /** The header reads the same with or without what follows the block. */
  lemma HeaderOfPrefix(data: seq<Byte>, n: nat)
    requires n <= |data| && ((ParseHeader(data).Ok? && ParseHeader(data).value.size <= n) || ParseHeader(data[..n]).Ok?)
    ensures ParseHeader(data[..n]) == ParseHeader(data)
  {
  }

  function ParseBlocks(data: seq<Byte>): Result<seq<Block>, RtcpError>
    decreases |data|
  {
    if data == [] then Ok([])
    else
      match ParseFront(data)
      case Err(e) => Err(e)
      case Ok(block) =>
        match ParseBlocks(data[block.header.size..])
        case Err(e) => Err(e)
        case Ok(rest) => Ok([block] + rest)
  }

  function ParseCompound(data: seq<Byte>): Result<seq<Block>, RtcpError> {
    if data == [] then Err(EmptyPacket) else ParseBlocks(data)
  }

  // ----- what an accepted packet is made of -----

  function TotalSize(blocks: seq<Block>): nat {
    if blocks == [] then 0 else blocks[0].header.size + TotalSize(blocks[1..])
  }

  /** The blocks of an accepted packet cover it exactly. */
  lemma {:induction false} SizesCoverBuffer(data: seq<Byte>)
    requires ParseBlocks(data).Ok?
    ensures TotalSize(ParseBlocks(data).value) == |data|
    decreases |data|
  {
    hide ParseFront;
    if data != [] {
      var block := ParseFront(data).value;
      SizesCoverBuffer(data[block.header.size..]);
      var rest := ParseBlocks(data[block.header.size..]).value;
      assert ([block] + rest)[1..] == rest;
    }
  }

  // ----- what the readers accept -----

  /** A report is read exactly when sender, sender information and the announced report blocks fill the payload. */
  lemma ReportIff(h: Header, data: seq<Byte>, end: nat)
    requires COMMON_HEADER <= end <= |data|
    ensures ParseReport(h, data, end).Ok? <==> end == (if h.packetType == SENDER_REPORT then 28 else 8) + 24 * h.count
    ensures ParseReport(h, data, end).Ok? ==>
              var r := ParseReport(h, data, end).value;
              && r.Report? && r.sender == ReadU32(data, 4) && |r.blocks| == h.count && (r.info.Some? <==> h.packetType == SENDER_REPORT)
              && forall i :: 0 <= i < h.count ==>
                   r.blocks[i] == ParseReportBlock(data, (if h.packetType == SENDER_REPORT then 28 else 8) + 24 * i)
  {
    hide ParseReportBlock, ParseSenderInfo, ReadU32;
  }

  /** A BYE is read exactly when its SSRCs fit, and a reason, if one is there, fits behind them with nothing but zeros after it. */
  lemma ByeIff(h: Header, data: seq<Byte>, end: nat)
    requires COMMON_HEADER <= end <= |data|
    ensures var at := 4 + 4 * h.count;
            ParseBye(h, data, end).Ok? <==>
            at == end || (at < end && at + 1 + data[at] <= end && forall i :: at + 1 + data[at] <= i < end ==> data[i] == 0)
    ensures ParseBye(h, data, end).Ok? ==>
              var r, at := ParseBye(h, data, end).value, 4 + 4 * h.count;
              && r.Goodbye? && |r.ssrcs| == h.count && (forall i :: 0 <= i < h.count ==> r.ssrcs[i] == ReadU32(data, 4 + 4 * i))
              && r.reason == if at == end then [] else data[at + 1..at + 1 + data[at]]
  {
    hide ReadU32;
  }

  /** These items lie from one offset to another, with an end item and zeros up to the next word behind them. */
  ghost predicate ItemsAt(data: seq<Byte>, from: nat, to: nat, items: seq<Item>)
    decreases |items|
  {
    if items == [] then from < to <= |data| && to == RoundUp4(from + 1) && forall i :: from <= i < to ==> data[i] == 0
    else
      var next := from + 2 + |items[0].value|;
      && next <= |data| && items[0].kind != 0 && data[from] == items[0].kind && data[from + 1] == |items[0].value|
      && data[from + 2..next] == items[0].value && ItemsAt(data, next, to, items[1..])
  }

  /** These chunks fill the bytes from one offset to another. */
  ghost predicate ChunksAt(data: seq<Byte>, from: nat, to: nat, chunks: seq<Chunk>)
    decreases |chunks|
  {
    if chunks == [] then from == to
    else
      from + 4 <= |data| && chunks[0].ssrc == ReadU32(data, from) &&
      exists next: nat :: next <= to && ItemsAt(data, from + 4, next, chunks[0].items) && ChunksAt(data, next, to, chunks[1..])
  }

  /** The item reader reads the items that lie there. */
  lemma {:induction false} ItemsRead(data: seq<Byte>, end: nat, offset: nat, done: seq<Item>) returns (items: seq<Item>)
    requires offset <= end <= |data|
    ensures var r := ParseItems(data, end, offset, done);
            r.Ok? ==> r.value.0 == done + items && ItemsAt(data, offset, r.value.1, items)
    decreases end - offset
  {
    items := [];
    if ParseItems(data, end, offset, done).Ok? {
      if data[offset] == 0 {
        assert done + [] == done;
      } else {
        var next := offset + 2 + data[offset + 1];
        var item := Item(data[offset], data[offset + 2..next]);
        var rest := ItemsRead(data, end, next, done + [item]);
        items := [item] + rest;
        assert done + [item] + rest == done + items;
        assert items[1..] == rest;
      }
    }
  }

  /** And it accepts whatever items lie there. */
  lemma {:induction false} ItemsAccepted(data: seq<Byte>, end: nat, offset: nat, done: seq<Item>, items: seq<Item>, to: nat)
    requires offset <= end <= |data| && to <= end && ItemsAt(data, offset, to, items)
    ensures ParseItems(data, end, offset, done) == Ok((done + items, to))
    decreases |items|
  {
    if items == [] {
      assert done + [] == done;
    } else {
      ItemsEnd(data, offset + 2 + |items[0].value|, to, items[1..]);
      ItemsAccepted(data, end, offset + 2 + |items[0].value|, done + [items[0]], items[1..], to);
      assert done + [items[0]] + items[1..] == done + items;
    }
  }

  lemma {:induction false} ItemsEnd(data: seq<Byte>, from: nat, to: nat, items: seq<Item>)
    requires ItemsAt(data, from, to, items)
    ensures from < to <= |data|
    decreases |items|
  {
    if items != [] {
      ItemsEnd(data, from + 2 + |items[0].value|, to, items[1..]);
    }
  }

  lemma {:induction false} ChunksRead(data: seq<Byte>, end: nat, count: nat, offset: nat, done: seq<Chunk>) returns (chunks: seq<Chunk>)
    requires offset <= end <= |data|
    ensures var r := ParseChunks(data, end, count, offset, done);
            r.Ok? ==> r.value == Description(done + chunks) && |chunks| == count && ChunksAt(data, offset, end, chunks)
    decreases count
  {
    hide ReadU32, ItemsAt, ParseItems;
    chunks := [];
    if ParseChunks(data, end, count, offset, done).Ok? {
      if count == 0 {
        assert done + [] == done;
      } else {
        var (items, next) := ParseItems(data, end, offset + 4, []).value;
        var read := ItemsRead(data, end, offset + 4, []);
        assert [] + read == read;
        var chunk := Chunk(ReadU32(data, offset), items);
        var rest := ChunksRead(data, end, count - 1, next, done + [chunk]);
        chunks := [chunk] + rest;
        assert done + [chunk] + rest == done + chunks;
        assert chunks[1..] == rest;
      }
    }
  }

  lemma {:induction false} ChunksAccepted(data: seq<Byte>, end: nat, offset: nat, done: seq<Chunk>, chunks: seq<Chunk>)
    requires offset <= end <= |data| && ChunksAt(data, offset, end, chunks)
    ensures ParseChunks(data, end, |chunks|, offset, done) == Ok(Description(done + chunks))
    decreases |chunks|
  {
    hide ReadU32, ItemsAt, ParseItems;
    if chunks == [] {
      assert done + [] == done;
    } else {
      var next: nat :| next <= end && ItemsAt(data, offset + 4, next, chunks[0].items) && ChunksAt(data, next, end, chunks[1..]);
      ItemsEnd(data, offset + 4, next, chunks[0].items);
      ItemsAccepted(data, end, offset + 4, [], chunks[0].items, next);
      assert [] + chunks[0].items == chunks[0].items;
      ChunksAccepted(data, end, next, done + [chunks[0]], chunks[1..]);
      assert done + [chunks[0]] + chunks[1..] == done + chunks;
    }
  }

  /** A source description is read exactly as the announced number of chunks that fill the payload. */
  lemma DescriptionIff(data: seq<Byte>, end: nat, count: nat)
    requires COMMON_HEADER <= end <= |data|
    ensures ParseChunks(data, end, count, COMMON_HEADER, []).Ok? <==> exists chunks :: |chunks| == count && ChunksAt(data, COMMON_HEADER, end, chunks)
    ensures forall chunks :: |chunks| == count && ChunksAt(data, COMMON_HEADER, end, chunks) ==>
              ParseChunks(data, end, count, COMMON_HEADER, []) == Ok(Description(chunks))
  {
    hide ParseChunks, ChunksAt;
    var read := ChunksRead(data, end, count, COMMON_HEADER, []);
    forall chunks | |chunks| == count && ChunksAt(data, COMMON_HEADER, end, chunks)
      ensures ParseChunks(data, end, count, COMMON_HEADER, []) == Ok(Description(chunks))
    {
      ChunksAccepted(data, end, COMMON_HEADER, [], chunks);
      assert [] + chunks == chunks;
    }
  }

  /** The canonical name is the first that is not empty. */
  lemma CnameIs(items: seq<Item>, i: nat)
    requires i < |items| && items[i].kind == 1 && items[i].value != []
    requires forall j :: 0 <= j < i ==> items[j].kind != 1 || items[j].value == []
    ensures CnameOf(items) == items[i].value
  {
  }

  lemma NoCname(items: seq<Item>)
    requires forall j :: 0 <= j < |items| ==> items[j].kind != 1 || items[j].value == []
    ensures CnameOf(items) == []
  {
  }

  /** Which feedback is read: whole NACK entries, whole FIR entries, a PLI without a body, and everything of unknown format. */
  lemma FeedbackIff(h: Header, data: seq<Byte>, end: nat)
    requires FEEDBACK_HEADER <= end <= |data|
    ensures var r, size := ParseFeedbackBody(h, data, end), end - FEEDBACK_HEADER;
            && (h.packetType == TRANSPORT_FEEDBACK && h.count == 1 ==> (r.Ok? <==> size % 4 == 0) && (r.Ok? ==> r.value == GenericNack(NackEntries(data, size / 4))))
            && (h.packetType == TRANSPORT_FEEDBACK && h.count == 15 ==> (r.Ok? <==> TF.Parse(data).Ok?) && (r.Ok? ==> r.value == TransportCc(TF.Parse(data).value)))
            && (h.packetType == PAYLOAD_FEEDBACK && h.count == 1 ==> (r.Ok? <==> size == 0) && (r.Ok? ==> r.value == Pli))
            && (h.packetType == PAYLOAD_FEEDBACK && h.count == 4 ==> (r.Ok? <==> size % 8 == 0) && (r.Ok? ==> r.value == Fir(FirEntries(data, size / 8))))
            && (h.packetType == PAYLOAD_FEEDBACK && h.count == 15 ==> r == ParseRemb(data, end))
  {
    hide TF.Parse, NackEntries, FirEntries, ParseRemb;
  }

  /** A REMB is the 18-bit mantissa times a power of two, modulo 2^64, when its SSRCs fit; without the identifier it is other feedback. */
  lemma RembIff(data: seq<Byte>, end: nat)
    requires FEEDBACK_HEADER <= end <= |data|
    ensures var marked := end >= 16 && data[12] == 0x52 && data[13] == 0x45 && data[14] == 0x4D && data[15] == 0x42;
            && (!marked ==> ParseRemb(data, end) == Ok(OtherFeedback))
            && (marked && (end < 20 || 20 + 4 * data[16] > end) ==> ParseRemb(data, end).Err?)
            && (marked && end >= 20 && 20 + 4 * data[16] <= end ==>
                  ParseRemb(data, end) == Ok(Remb(ReadU24(data, 17) % 0x4_0000 * Pow(2, data[17] / 4) % 0x1_0000_0000_0000_0000)))
  {
    if end >= 20 {
      MantissaBits(data);
    }
  }

  lemma MantissaBits(data: seq<Byte>)
    requires |data| >= 20
    ensures ReadU24(data, 17) % 0x4_0000 == (data[17] as int) % 4 * 0x1_0000 + (data[18] as int) * 0x100 + data[19]
  {
  }

  /** Only the last block of a compound may be padded. */
  lemma {:induction false} PaddingIsLast(data: seq<Byte>)
    requires ParseBlocks(data).Ok?
    ensures forall i :: 0 <= i < |ParseBlocks(data).value| - 1 ==> !ParseBlocks(data).value[i].header.padding
    decreases |data|
  {
    hide ParseHeader, ParseContent;
    if data != [] {
      var first := ParseFront(data).value;
      PaddingIsLast(data[first.header.size..]);
      if first.header.padding {
        assert data[first.header.size..] == [];
      }
    }
  }
}
