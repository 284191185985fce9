/**
 Writing RTCP (`rtp/rtcp_packet_builder.cpp`): reports, CNAME, keyframe requests, BYE and compound
 packets. Each packet is first given as the concatenation of its fields; the builders fill a zeroed
 buffer at moving offsets.
 */
module RtcpBuilder {
  import opened Wire
  import opened RtcpReader

  type U64 = x: int | 0 <= x < 0x1_0000_0000_0000_0000

  datatype Message =
    | SenderReport(sender: U32, ntp: U64, rtpTimestamp: U32, packets: U32, octets: U32, reports: seq<ReportBlock>)
    | ReceiverReport(sender: U32, reports: seq<ReportBlock>)
    | CanonicalName(ssrc: U32, cname: seq<Byte>)
    | PictureLoss(sender: U32, media: U32)
    | IntraRequest(sender: U32, firs: seq<FirEntry>)
    | Farewell(ssrcs: seq<U32>, reason: seq<Byte>)

  datatype BuildError =
    | ZeroSsrc | TooManyReports | LostOutOfRange | EmptyCname | CnameTooLong | EmptyList | TooManySsrcs | ReasonTooLong | LengthTooLarge
    | BadMember | NoReportFirst | PaddingInside | TooLarge | NoSdes | NoMembers | MaximumTooSmall | NotFeedback | SenderMismatch

  // ----- fields -----

  function HeaderBytes(count: nat, packetType: Byte, size: nat): (b: seq<Byte>)
    requires count < 32 && size % 4 == 0 && 4 <= size <= 0x4_0000
    ensures |b| == COMMON_HEADER
  {
    [0x80 + count, packetType] + U16Bytes(size / 4 - 1)
  }

  function FromI24(v: int): U24
    requires -0x80_0000 <= v < 0x80_0000
  {
    if v < 0 then v + 0x100_0000 else v
  }

  predicate LossFits(b: ReportBlock) {
    -0x80_0000 <= b.cumulativeLost < 0x80_0000
  }

  function BlockBytes(b: ReportBlock): (r: seq<Byte>)
    requires LossFits(b)
    ensures |r| == REPORT_BLOCK
  {
    U32Bytes(b.ssrc) + [b.fractionLost] + U24Bytes(FromI24(b.cumulativeLost)) + U32Bytes(b.highest) + U32Bytes(b.jitter)
    + U32Bytes(b.lastReport) + U32Bytes(b.delay)
  }

  function AllBlockBytes(bs: seq<ReportBlock>): (r: seq<Byte>)
    requires forall i :: 0 <= i < |bs| ==> LossFits(bs[i])
    ensures |r| == 24 * |bs|
  {
    if bs == [] then [] else AllBlockBytes(bs[..|bs| - 1]) + BlockBytes(bs[|bs| - 1])
  }

  function InfoBytes(i: SenderInfo): (r: seq<Byte>)
    ensures |r| == SENDER_INFO
  {
    U32Bytes(i.ntpHigh) + U32Bytes(i.ntpLow) + U32Bytes(i.rtpTimestamp) + U32Bytes(i.packets) + U32Bytes(i.octets)
  }

  function FirBytes(e: FirEntry): (r: seq<Byte>)
    ensures |r| == 8
  {
    U32Bytes(e.mediaSsrc) + [e.sequence] + Zeros(3)
  }

  function AllFirBytes(es: seq<FirEntry>): (r: seq<Byte>)
    ensures |r| == 8 * |es|
  {
    if es == [] then [] else AllFirBytes(es[..|es| - 1]) + FirBytes(es[|es| - 1])
  }

  function AllSsrcBytes(ssrcs: seq<U32>): (r: seq<Byte>)
    ensures |r| == 4 * |ssrcs|
  {
    if ssrcs == [] then [] else AllSsrcBytes(ssrcs[..|ssrcs| - 1]) + U32Bytes(ssrcs[|ssrcs| - 1])
  }

  // ----- messages -----

  function InfoOf(m: Message): SenderInfo
    requires m.SenderReport?
  {
    SenderInfo(m.ntp / 0x1_0000_0000, m.ntp % 0x1_0000_0000, m.rtpTimestamp, m.packets, m.octets)
  }

  function ReportRefusal(sender: U32, reports: seq<ReportBlock>): Option<BuildError> {
    if sender == 0 then Some(ZeroSsrc)
    else if |reports| > 31 then Some(TooManyReports)
    else if exists i :: 0 <= i < |reports| && !LossFits(reports[i]) then Some(LostOutOfRange)
    else None
  }

  function Refusal(m: Message): Option<BuildError> {
    match m
    case SenderReport(sender, _, _, _, _, reports) => ReportRefusal(sender, reports)
    case ReceiverReport(sender, reports) => ReportRefusal(sender, reports)
    case CanonicalName(ssrc, cname) =>
      if ssrc == 0 then Some(ZeroSsrc) else if cname == [] then Some(EmptyCname) else if |cname| > 255 then Some(CnameTooLong) else None
    case PictureLoss(sender, media) => if sender == 0 || media == 0 then Some(ZeroSsrc) else None
    case IntraRequest(sender, firs) =>
      if sender == 0 then Some(ZeroSsrc)
      else if firs == [] then Some(EmptyList)
      else if FEEDBACK_HEADER + 8 * |firs| > 0x4_0000 then Some(LengthTooLarge)
      else if exists i :: 0 <= i < |firs| && firs[i].mediaSsrc == 0 then Some(ZeroSsrc)
      else None
    case Farewell(ssrcs, reason) =>
      if ssrcs == [] then Some(EmptyList)
      else if |ssrcs| > 31 then Some(TooManySsrcs)
      else if |reason| > 255 then Some(ReasonTooLong)
      else if exists i :: 0 <= i < |ssrcs| && ssrcs[i] == 0 then Some(ZeroSsrc)
      else None
  }

  /** Exactly these messages are refused: an SSRC of 0, an empty or too long list or text, and a loss outside 24 bits. */
  lemma RefusedIff(m: Message)
    ensures Refusal(m).None? <==>
              match m
              case SenderReport(sender, _, _, _, _, reports) =>
                sender != 0 && |reports| <= 31 && forall i :: 0 <= i < |reports| ==> -0x80_0000 <= reports[i].cumulativeLost <= 0x7F_FFFF
              case ReceiverReport(sender, reports) =>
                sender != 0 && |reports| <= 31 && forall i :: 0 <= i < |reports| ==> -0x80_0000 <= reports[i].cumulativeLost <= 0x7F_FFFF
              case CanonicalName(ssrc, cname) => ssrc != 0 && 1 <= |cname| <= 255
              case PictureLoss(sender, media) => sender != 0 && media != 0
              case IntraRequest(sender, firs) =>
                sender != 0 && 1 <= |firs| && 12 + 8 * |firs| <= 0x4_0000 && forall i :: 0 <= i < |firs| ==> firs[i].mediaSsrc != 0
              case Farewell(ssrcs, reason) =>
                1 <= |ssrcs| <= 31 && |reason| <= 255 && forall i :: 0 <= i < |ssrcs| ==> ssrcs[i] != 0
  {
  }

  function TypeOf(m: Message): Byte {
    match m
    case SenderReport(_, _, _, _, _, _) => SENDER_REPORT
    case ReceiverReport(_, _) => RECEIVER_REPORT
    case CanonicalName(_, _) => SDES
    case PictureLoss(_, _) => PAYLOAD_FEEDBACK
    case IntraRequest(_, _) => PAYLOAD_FEEDBACK
    case Farewell(_, _) => BYE
  }

  function CountOf(m: Message): (n: nat)
    requires Refusal(m).None?
    ensures n < 32
  {
    match m
    case SenderReport(_, _, _, _, _, reports) => |reports|
    case ReceiverReport(_, reports) => |reports|
    case CanonicalName(_, _) => 1
    case PictureLoss(_, _) => 1
    case IntraRequest(_, _) => 4
    case Farewell(ssrcs, _) => |ssrcs|
  }

  function CnameBody(ssrc: U32, cname: seq<Byte>): (b: seq<Byte>)
    requires |cname| <= 255
    ensures |b| == RoundUp4(7 + |cname|)
  {
    PadTo4(U32Bytes(ssrc) + [1, |cname|] + cname + [0])
  }

  function ByeBody(ssrcs: seq<U32>, reason: seq<Byte>): (b: seq<Byte>)
    requires |reason| <= 255
    ensures |b| == RoundUp4(4 * |ssrcs| + if reason == [] then 0 else 1 + |reason|)
  {
    if reason == [] then AllSsrcBytes(ssrcs) else PadTo4(AllSsrcBytes(ssrcs) + [|reason|] + reason)
  }

  function BodyOf(m: Message): (b: seq<Byte>)
    requires Refusal(m).None?
    ensures |b| % 4 == 0 && |b| <= 0x3_FFFC
  {
    match m
    case SenderReport(sender, _, _, _, _, reports) => U32Bytes(sender) + InfoBytes(InfoOf(m)) + AllBlockBytes(reports)
    case ReceiverReport(sender, reports) => U32Bytes(sender) + AllBlockBytes(reports)
    case CanonicalName(ssrc, cname) => CnameBody(ssrc, cname)
    case PictureLoss(sender, media) => U32Bytes(sender) + U32Bytes(media)
    case IntraRequest(sender, firs) => U32Bytes(sender) + U32Bytes(0) + AllFirBytes(firs)
    case Farewell(ssrcs, reason) => ByeBody(ssrcs, reason)
  }

  function WithHeader(count: nat, packetType: Byte, body: seq<Byte>): (b: seq<Byte>)
    requires count < 32 && |body| % 4 == 0 && |body| <= 0x3_FFFC
    ensures |b| == COMMON_HEADER + |body|
  {
    HeaderBytes(count, packetType, COMMON_HEADER + |body|) + body
  }

  function Written(m: Message): seq<Byte>
    requires Refusal(m).None?
  {
    hide BodyOf, CountOf, Refusal;
    WithHeader(CountOf(m), TypeOf(m), BodyOf(m))
  }

  /** What a reader should find. */
  function ContentOf(m: Message): Content {
    match m
    case SenderReport(sender, _, _, _, _, reports) => Report(sender, Some(InfoOf(m)), reports)
    case ReceiverReport(sender, reports) => Report(sender, None, reports)
    case CanonicalName(ssrc, cname) => Description([Chunk(ssrc, [Item(1, cname)])])
    case PictureLoss(sender, media) => FeedbackMessage(sender, media, Pli)
    case IntraRequest(sender, firs) => FeedbackMessage(sender, 0, Fir(firs))
    case Farewell(ssrcs, reason) => Goodbye(ssrcs, reason)
  }

  // ----- reading back -----

  lemma HeaderReadsBack(count: nat, packetType: Byte, body: seq<Byte>)
    requires count < 32 && 192 <= packetType <= 223 && |body| % 4 == 0 && |body| <= 0x3_FFFC
    ensures var data := WithHeader(count, packetType, body);
            && ParseHeader(data) == Ok(Header(false, count, packetType, |data|, if |body| >= 4 then Some(ReadU32(body, 0)) else None))
            && data[COMMON_HEADER..] == body
  {
    var data := WithHeader(count, packetType, body);
    assert data[2..4] == U16Bytes((COMMON_HEADER + |body|) / 4 - 1);
    ReadU16Slice(data, 2, (COMMON_HEADER + |body|) / 4 - 1);
    if |body| >= 4 {
      assert data[4..8] == body[0..4];
      ReadU32Slice(data, 4, ReadU32(body, 0));
      ReadU32Slice(body, 0, ReadU32(body, 0));
    }
  }

  lemma FieldAt(data: seq<Byte>, from: nat, part: seq<Byte>, at: nat, v: U32)
    requires from + |part| <= |data| && data[from..from + |part|] == part && at + 4 <= |part| && part[at..at + 4] == U32Bytes(v)
    ensures ReadU32(data, from + at) == v
  {
    SliceOfSlice(data, from, from + |part|, at, at + 4);
    ReadU32Slice(data, from + at, v);
  }

  lemma BodySlice(data: seq<Byte>, from: nat, body: seq<Byte>, a: nat, b: nat)
    requires from <= |data| && data[from..] == body && a <= b <= |body|
    ensures data[from + a..from + b] == body[a..b]
  {
    assert data[from..] == data[from..|data|];
    SliceOfSlice(data, from, |data|, a, b);
  }

  lemma I24RoundTrip(v: int)
    requires -0x80_0000 <= v < 0x80_0000
    ensures ToI24(FromI24(v)) == v
  {
  }

  lemma BlockReadsBack(data: seq<Byte>, at: nat, b: ReportBlock)
    requires LossFits(b) && at + REPORT_BLOCK <= |data| && data[at..at + REPORT_BLOCK] == BlockBytes(b)
    ensures ParseReportBlock(data, at) == b
  {
    hide U32Bytes, U24Bytes, ReadU32, ReadU24, ToI24, FromI24;
    var part := BlockBytes(b);
    FieldAt(data, at, part, 0, b.ssrc);
    FieldAt(data, at, part, 8, b.highest);
    FieldAt(data, at, part, 12, b.jitter);
    FieldAt(data, at, part, 16, b.lastReport);
    FieldAt(data, at, part, 20, b.delay);
    assert data[at + 4] == part[4] == b.fractionLost;
    SliceOfSlice(data, at, at + REPORT_BLOCK, 5, 8);
    assert part[5..8] == U24Bytes(FromI24(b.cumulativeLost));
    ReadU24Slice(data, at + 5, FromI24(b.cumulativeLost));
    I24RoundTrip(b.cumulativeLost);
  }

  lemma {:induction false} BlockPlace(bs: seq<ReportBlock>, i: nat)
    requires (forall k :: 0 <= k < |bs| ==> LossFits(bs[k])) && i < |bs|
    ensures AllBlockBytes(bs)[24 * i..24 * (i + 1)] == BlockBytes(bs[i])
  {
    hide BlockBytes;
    var front := AllBlockBytes(bs[..|bs| - 1]);
    if i < |bs| - 1 {
      BlockPlace(bs[..|bs| - 1], i);
      assert AllBlockBytes(bs)[24 * i..24 * (i + 1)] == front[24 * i..24 * (i + 1)];
    }
  }

  lemma BlocksReadBack(data: seq<Byte>, at: nat, bs: seq<ReportBlock>)
    requires (forall k :: 0 <= k < |bs| ==> LossFits(bs[k])) && at <= |data| && data[at..] == AllBlockBytes(bs)
    ensures ReportBlocks(data, at, |bs|) == bs
  {
    hide BlockBytes, AllBlockBytes, ParseReportBlock, LossFits;
    forall i | 0 <= i < |bs|
      ensures ParseReportBlock(data, at + i * 24) == bs[i]
    {
      BlockAt(data, at, bs, i);
    }
  }

  lemma BlockAt(data: seq<Byte>, at: nat, bs: seq<ReportBlock>, i: nat)
    requires (forall k :: 0 <= k < |bs| ==> LossFits(bs[k])) && at <= |data| && data[at..] == AllBlockBytes(bs) && i < |bs|
    ensures ParseReportBlock(data, at + i * 24) == bs[i]
  {
    hide BlockBytes, AllBlockBytes, ParseReportBlock, LossFits;
    BlockPlace(bs, i);
    SliceOfSlice(data, at, |data|, 24 * i, 24 * (i + 1));
    BlockReadsBack(data, at + i * 24, bs[i]);
  }

  lemma InfoReadsBack(data: seq<Byte>, at: nat, i: SenderInfo)
    requires at + SENDER_INFO <= |data| && data[at..at + SENDER_INFO] == InfoBytes(i)
    ensures ParseSenderInfo(data, at) == i
  {
    hide U32Bytes, ReadU32;
    FieldAt(data, at, InfoBytes(i), 0, i.ntpHigh);
    FieldAt(data, at, InfoBytes(i), 4, i.ntpLow);
    FieldAt(data, at, InfoBytes(i), 8, i.rtpTimestamp);
    FieldAt(data, at, InfoBytes(i), 12, i.packets);
    FieldAt(data, at, InfoBytes(i), 16, i.octets);
  }

  lemma SenderReportReadsBack(h: Header, data: seq<Byte>, m: Message)
    requires m.SenderReport? && Refusal(m).None? && |data| >= COMMON_HEADER && data[COMMON_HEADER..] == BodyOf(m)
    requires h.packetType == SENDER_REPORT && h.count == |m.reports|
    ensures ParseReport(h, data, |data|) == Ok(ContentOf(m))
  {
    hide U32Bytes, ReadU32, InfoBytes, AllBlockBytes, ParseSenderInfo, ReportBlocks, LossFits;
    var body := BodyOf(m);
    BodySlice(data, COMMON_HEADER, body, 0, 4);
    BodySlice(data, COMMON_HEADER, body, 4, 4 + SENDER_INFO);
    BodySlice(data, COMMON_HEADER, body, 4 + SENDER_INFO, |body|);
    assert body[0..4] == U32Bytes(m.sender);
    assert body[4..4 + SENDER_INFO] == InfoBytes(InfoOf(m));
    assert body[4 + SENDER_INFO..|body|] == AllBlockBytes(m.reports);
    ReadU32Slice(data, COMMON_HEADER, m.sender);
    InfoReadsBack(data, 8, InfoOf(m));
    BlocksReadBack(data, 8 + SENDER_INFO, m.reports);
  }

  lemma ReceiverReportReadsBack(h: Header, data: seq<Byte>, m: Message)
    requires m.ReceiverReport? && Refusal(m).None? && |data| >= COMMON_HEADER && data[COMMON_HEADER..] == BodyOf(m)
    requires h.packetType == RECEIVER_REPORT && h.count == |m.reports|
    ensures ParseReport(h, data, |data|) == Ok(ContentOf(m))
  {
    hide U32Bytes, ReadU32, AllBlockBytes, ReportBlocks, LossFits;
    var body := BodyOf(m);
    BodySlice(data, COMMON_HEADER, body, 0, 4);
    BodySlice(data, COMMON_HEADER, body, 4, |body|);
    assert body[0..4] == U32Bytes(m.sender);
    assert body[4..|body|] == AllBlockBytes(m.reports);
    ReadU32Slice(data, COMMON_HEADER, m.sender);
    BlocksReadBack(data, 8, m.reports);
  }

  lemma CnameReadsBack(data: seq<Byte>, m: Message)
    requires m.CanonicalName? && Refusal(m).None? && |data| >= COMMON_HEADER && data[COMMON_HEADER..] == BodyOf(m)
    ensures ParseChunks(data, |data|, 1, COMMON_HEADER, []) == Ok(ContentOf(m))
  {
    hide U32Bytes, ReadU32, ParseItems;
    CnameLayout(data, m);
    var item := [Item(1, m.cname)];
    OneItem(data, m.cname);
    assert [] + [Chunk(m.ssrc, item)] == [Chunk(m.ssrc, item)];
  }

  lemma CnameLayout(data: seq<Byte>, m: Message)
    requires m.CanonicalName? && Refusal(m).None? && |data| >= COMMON_HEADER && data[COMMON_HEADER..] == BodyOf(m)
    ensures var n := |m.cname|;
            && |data| == RoundUp4(11 + n) && ReadU32(data, COMMON_HEADER) == m.ssrc
            && data[8] == 1 && data[9] == n && data[10..10 + n] == m.cname && ZeroBetween(data, 10 + n, |data|)
  {
    hide U32Bytes, ReadU32;
    var body, n := BodyOf(m), |m.cname|;
    assert body[0..4] == U32Bytes(m.ssrc) && body[6..6 + n] == m.cname && body[4] == 1 && body[5] == n && ZeroBetween(body, 6 + n, |body|);
    assert |data| == COMMON_HEADER + |body|;
    hide BodyOf;
    FieldAt(data, COMMON_HEADER, body, 0, m.ssrc);
    BodySlice(data, COMMON_HEADER, body, 6, 6 + n);
    assert forall i :: COMMON_HEADER <= i < |data| ==> data[i] == body[i - COMMON_HEADER];
  }

  lemma OneItem(data: seq<Byte>, cname: seq<Byte>)
    requires |cname| > 0 && |data| == RoundUp4(11 + |cname|) && data[8] == 1 && data[9] == |cname| && data[10..10 + |cname|] == cname
    requires ZeroBetween(data, 10 + |cname|, |data|)
    ensures ParseItems(data, |data|, 8, []) == Ok(([Item(1, cname)], |data|))
  {
    var n, item := |cname|, [Item(1, cname)];
    assert ParseItems(data, |data|, 10 + n, item) == Ok((item, |data|));
    assert [] + item == item;
  }

  lemma {:induction false} SsrcPlace(ssrcs: seq<U32>, i: nat)
    requires i < |ssrcs|
    ensures AllSsrcBytes(ssrcs)[4 * i..4 * i + 4] == U32Bytes(ssrcs[i])
  {
    hide U32Bytes;
    var front := AllSsrcBytes(ssrcs[..|ssrcs| - 1]);
    if i < |ssrcs| - 1 {
      SsrcPlace(ssrcs[..|ssrcs| - 1], i);
      assert AllSsrcBytes(ssrcs)[4 * i..4 * i + 4] == front[4 * i..4 * i + 4];
    }
  }

  lemma SsrcsReadBack(data: seq<Byte>, at: nat, ssrcs: seq<U32>)
    requires at + 4 * |ssrcs| <= |data| && data[at..at + 4 * |ssrcs|] == AllSsrcBytes(ssrcs)
    ensures ReadSsrcs(data, at, |ssrcs|) == ssrcs
  {
    hide AllSsrcBytes, U32Bytes, ReadU32;
    forall i | 0 <= i < |ssrcs|
      ensures ReadU32(data, at + 4 * i) == ssrcs[i]
    {
      SsrcPlace(ssrcs, i);
      FieldAt(data, at, AllSsrcBytes(ssrcs), 4 * i, ssrcs[i]);
    }
  }

  lemma ByeReadsBack(h: Header, data: seq<Byte>, m: Message)
    requires m.Farewell? && Refusal(m).None? && |data| >= COMMON_HEADER && data[COMMON_HEADER..] == BodyOf(m) && h.count == |m.ssrcs|
    ensures ParseBye(h, data, |data|) == Ok(ContentOf(m))
  {
    hide AllSsrcBytes, ReadSsrcs;
    var body, n := BodyOf(m), 4 * |m.ssrcs|;
    assert forall i :: 0 <= i < |body| ==> body[i] == data[COMMON_HEADER + i];
    BodySlice(data, COMMON_HEADER, body, 0, n);
    assert body[0..n] == AllSsrcBytes(m.ssrcs);
    SsrcsReadBack(data, COMMON_HEADER, m.ssrcs);
    if m.reason != [] {
      var k := |m.reason|;
      BodySlice(data, COMMON_HEADER, body, n + 1, n + 1 + k);
      assert body[n + 1..n + 1 + k] == m.reason;
      assert data[COMMON_HEADER + n + 1..COMMON_HEADER + n + 1 + k] == m.reason;
      assert data[COMMON_HEADER + n] == k;
      assert ZeroBetween(data, COMMON_HEADER + n + 1 + k, |data|);
    }
  }

  lemma PliReadsBack(h: Header, data: seq<Byte>, m: Message)
    requires m.PictureLoss? && Refusal(m).None? && |data| >= COMMON_HEADER && data[COMMON_HEADER..] == BodyOf(m)
    requires h.packetType == PAYLOAD_FEEDBACK && h.count == 1 && h.size == |data|
    ensures ParseFeedback(h, data, |data|) == Ok(ContentOf(m))
  {
    hide U32Bytes, ReadU32;
    var body := BodyOf(m);
    assert body[0..4] == U32Bytes(m.sender) && body[4..8] == U32Bytes(m.media);
    FieldAt(data, COMMON_HEADER, body, 0, m.sender);
    FieldAt(data, COMMON_HEADER, body, 4, m.media);
  }

  lemma {:induction false} FirPlace(es: seq<FirEntry>, i: nat)
    requires i < |es|
    ensures AllFirBytes(es)[8 * i..8 * i + 8] == FirBytes(es[i])
  {
    hide FirBytes;
    var front := AllFirBytes(es[..|es| - 1]);
    if i < |es| - 1 {
      FirPlace(es[..|es| - 1], i);
      assert AllFirBytes(es)[8 * i..8 * i + 8] == front[8 * i..8 * i + 8];
    }
  }

  lemma FirsReadBack(data: seq<Byte>, es: seq<FirEntry>)
    requires |data| >= FEEDBACK_HEADER && data[FEEDBACK_HEADER..] == AllFirBytes(es)
    ensures FirEntries(data, |es|) == es
  {
    hide AllFirBytes, FirBytes, ReadU32;
    forall i | 0 <= i < |es|
      ensures FirEntry(ReadU32(data, FEEDBACK_HEADER + 8 * i), data[FEEDBACK_HEADER + 8 * i + 4]) == es[i]
    {
      FirPlace(es, i);
      SliceOfSlice(data, FEEDBACK_HEADER, |data|, 8 * i, 8 * i + 8);
      FirEntryReadsBack(data, FEEDBACK_HEADER + 8 * i, es[i]);
    }
  }

  lemma FirEntryReadsBack(data: seq<Byte>, at: nat, e: FirEntry)
    requires at + 8 <= |data| && data[at..at + 8] == FirBytes(e)
    ensures FirEntry(ReadU32(data, at), data[at + 4]) == e
  {
    hide U32Bytes, ReadU32;
    var part := FirBytes(e);
    assert part[0..4] == U32Bytes(e.mediaSsrc);
    FieldAt(data, at, part, 0, e.mediaSsrc);
    assert data[at..at + 8][4] == part[4] == e.sequence;
  }

  lemma FirReadsBack(h: Header, data: seq<Byte>, m: Message)
    requires m.IntraRequest? && Refusal(m).None? && |data| >= COMMON_HEADER && data[COMMON_HEADER..] == BodyOf(m)
    requires h.packetType == PAYLOAD_FEEDBACK && h.count == 4 && h.size == |data|
    ensures ParseFeedback(h, data, |data|) == Ok(ContentOf(m))
  {
    hide U32Bytes, ReadU32, AllFirBytes, FirEntries;
    var body := BodyOf(m);
    assert body[0..4] == U32Bytes(m.sender) && body[4..8] == U32Bytes(0);
    FieldAt(data, COMMON_HEADER, body, 0, m.sender);
    FieldAt(data, COMMON_HEADER, body, 4, 0);
    BodySlice(data, COMMON_HEADER, body, 8, |body|);
    assert body[8..|body|] == AllFirBytes(m.firs);
    FirsReadBack(data, m.firs);
  }

  ghost function BlockOf(m: Message): Block
    requires Refusal(m).None?
  {
    Block(Header(false, CountOf(m), TypeOf(m), |Written(m)|, if |BodyOf(m)| >= 4 then Some(ReadU32(BodyOf(m), 0)) else None), ContentOf(m))
  }

  /** Every message that is not refused is read back whole. */
  lemma MemberRoundTrip(m: Message)
    requires Refusal(m).None?
    ensures ParseMember(Written(m)) == Ok(BlockOf(m))
    ensures m.CanonicalName? ==> CnameOf(ContentOf(m).chunks[0].items) == m.cname
  {
    if m.CanonicalName? {
      NameRecovered(m.cname, m);
    }
    hide Refusal, BodyOf, WithHeader, ParseHeader, ParseContent, CountOf, TypeOf, ContentOf, CnameOf;
    HeaderReadsBack(CountOf(m), TypeOf(m), BodyOf(m));
    ContentReadsBack(BlockOf(m).header, Written(m), m);
  }

  lemma ContentReadsBack(h: Header, data: seq<Byte>, m: Message)
    requires Refusal(m).None? && ParseHeader(data) == Ok(h) && |data| >= COMMON_HEADER && data[COMMON_HEADER..] == BodyOf(m)
    requires !h.padding && h.count == CountOf(m) && h.packetType == TypeOf(m) && h.size == |data|
    ensures ParseContent(h, data) == Ok(ContentOf(m))
  {
    hide Refusal, BodyOf, ParseHeader, ParseFeedback, ParseReport, ParseChunks, ParseBye, ContentOf;
    match m
    case SenderReport(_, _, _, _, _, _) => SenderReportReadsBack(h, data, m);
    case ReceiverReport(_, _) => ReceiverReportReadsBack(h, data, m);
    case CanonicalName(_, _) => CnameReadsBack(data, m);
    case PictureLoss(_, _) => PliReadsBack(h, data, m);
    case IntraRequest(_, _) => FirReadsBack(h, data, m);
    case Farewell(_, _) => ByeReadsBack(h, data, m);
  }

  lemma NameRecovered(cname: seq<Byte>, m: Message)
    requires Refusal(m).None? && m.CanonicalName? && m.cname == cname
    ensures CnameOf([Item(1, cname)]) == cname
  {
    var items := [Item(1, cname)];
    assert items[0].kind == 1 && items[0].value != [];
  }

  // ----- the builders -----

  function Built(m: Message): Result<seq<Byte>, BuildError> {
    if Refusal(m).Some? then Err(Refusal(m).value) else Ok(Written(m))
  }

  /** A buffer of `size` bytes whose front is already written. */
  function Buffer(done: seq<Byte>, size: nat): (b: seq<Byte>)
    requires |done| <= size
    ensures |b| == size
  {
    done + Zeros(size - |done|)
  }

  lemma BufferFilled(done: seq<Byte>, size: nat, field: seq<Byte>)
    requires |done| + |field| <= size
    ensures Patched(Buffer(done, size), |done|, field) == Buffer(done + field, size)
  {
  }

  lemma TwoFieldsFilled(header: seq<Byte>, size: nat, a: seq<Byte>, b: seq<Byte>)
    requires |header| == COMMON_HEADER && |a| == |b| == 4 && FEEDBACK_HEADER <= size
    ensures var one := Patched(Buffer(header, size), COMMON_HEADER, a);
            |one| == size && Patched(one, 8, b) == Buffer(header + a + b, size) && |header + a + b| == FEEDBACK_HEADER
  {
    hide Buffer, Patched;
    BufferFilled(header, size, a);
    BufferFilled(header + a, size, b);
  }

  lemma BufferFull(done: seq<Byte>)
    ensures Buffer(done, |done|) == done
  {
  }

  method WriteHeader(size: nat, count: nat, packetType: Byte) returns (packet: seq<Byte>)
    requires count < 32 && size % 4 == 0 && 4 <= size <= 0x4_0000
    ensures packet == Buffer(HeaderBytes(count, packetType, size), size)
  {
    hide U16Bytes;
    packet := Zeros(size);
    packet := packet[0 := 0x80 + count][1 := packetType];
    packet := Patched(packet, 2, U16Bytes(size / 4 - 1));
  }

  /** Writes the blocks one after the other; fails at the first loss that does not fit 24 bits. */
  method WriteReportBlocks(packet: seq<Byte>, blocks: seq<ReportBlock>, ghost done: seq<Byte>) returns (r: Result<seq<Byte>, BuildError>)
    requires |done| + 24 * |blocks| == |packet| && packet == Buffer(done, |packet|)
    ensures r.Ok? <==> forall i :: 0 <= i < |blocks| ==> LossFits(blocks[i])
    ensures r.Ok? ==> r.value == done + AllBlockBytes(blocks)
    ensures r.Err? ==> r.error == LostOutOfRange
  {
    hide BlockBytes, Buffer, Patched;
    var bytes, offset := packet, |packet| - 24 * |blocks|;
    assert blocks[..0] == [];
    assert done + [] == done;
    for i := 0 to |blocks|
      invariant forall k :: 0 <= k < i ==> LossFits(blocks[k])
      invariant offset == |done| + 24 * i
      invariant |bytes| == |packet| && bytes == Buffer(done + AllBlockBytes(blocks[..i]), |packet|)
    {
      if !LossFits(blocks[i]) {
        return Err(LostOutOfRange);
      }
      assert blocks[..i + 1][..i] == blocks[..i];
      ghost var so := done + AllBlockBytes(blocks[..i]);
      BufferFilled(so, |packet|, BlockBytes(blocks[i]));
      assert so + BlockBytes(blocks[i]) == done + (AllBlockBytes(blocks[..i]) + BlockBytes(blocks[i]));
      bytes := Patched(bytes, offset, BlockBytes(blocks[i]));
      offset := offset + REPORT_BLOCK;
    }
    assert blocks[..|blocks|] == blocks;
    BufferFull(done + AllBlockBytes(blocks));
    return Ok(bytes);
  }

  method BuildReceiverReport(m: Message) returns (r: Result<seq<Byte>, BuildError>)
    requires m.ReceiverReport?
    ensures r == Built(m)
  {
    hide U32Bytes, Buffer, Patched, AllBlockBytes, LossFits, HeaderBytes;
    if m.sender == 0 {
      return Err(ZeroSsrc);
    }
    if |m.reports| > 31 {
      return Err(TooManyReports);
    }
    var size := 8 + 24 * |m.reports|;
    var packet := WriteHeader(size, |m.reports|, RECEIVER_REPORT);
    ghost var header := HeaderBytes(|m.reports|, RECEIVER_REPORT, size);
    BufferFilled(header, size, U32Bytes(m.sender));
    packet := Patched(packet, 4, U32Bytes(m.sender));
    r := WriteReportBlocks(packet, m.reports, header + U32Bytes(m.sender));
    if r.Ok? {
      assert header + U32Bytes(m.sender) + AllBlockBytes(m.reports) == header + (U32Bytes(m.sender) + AllBlockBytes(m.reports));
    }
  }

  method BuildSenderReport(m: Message) returns (r: Result<seq<Byte>, BuildError>)
    requires m.SenderReport?
    ensures r == Built(m)
  {
    hide U32Bytes, Buffer, Patched, AllBlockBytes, LossFits, HeaderBytes;
    if m.sender == 0 {
      return Err(ZeroSsrc);
    }
    if |m.reports| > 31 {
      return Err(TooManyReports);
    }
    var size := 8 + SENDER_INFO + 24 * |m.reports|;
    var packet := WriteHeader(size, |m.reports|, SENDER_REPORT);
    ghost var header := HeaderBytes(|m.reports|, SENDER_REPORT, size);
    BufferFilled(header, size, U32Bytes(m.sender));
    packet := Patched(packet, 4, U32Bytes(m.sender));
    ghost var done := header + U32Bytes(m.sender);
    packet := WriteInfo(packet, InfoOf(m), done);
    r := WriteReportBlocks(packet, m.reports, done + InfoBytes(InfoOf(m)));
    if r.Ok? {
      hide InfoBytes;
      assert done + InfoBytes(InfoOf(m)) + AllBlockBytes(m.reports) == header + (U32Bytes(m.sender) + InfoBytes(InfoOf(m)) + AllBlockBytes(m.reports));
    }
  }

  method WriteInfo(packet: seq<Byte>, info: SenderInfo, ghost done: seq<Byte>) returns (r: seq<Byte>)
    requires |done| == 8 && 8 + SENDER_INFO <= |packet| && packet == Buffer(done, |packet|)
    ensures r == Buffer(done + InfoBytes(info), |packet|)
  {
    hide U32Bytes, Buffer, Patched;
    ghost var a, b, c, d, e := U32Bytes(info.ntpHigh), U32Bytes(info.ntpLow), U32Bytes(info.rtpTimestamp), U32Bytes(info.packets), U32Bytes(info.octets);
    BufferFilled(done, |packet|, a);
    BufferFilled(done + a, |packet|, b);
    BufferFilled(done + a + b, |packet|, c);
    BufferFilled(done + a + b + c, |packet|, d);
    BufferFilled(done + a + b + c + d, |packet|, e);
    r := Patched(packet, 8, U32Bytes(info.ntpHigh));
    r := Patched(r, 12, U32Bytes(info.ntpLow));
    r := Patched(r, 16, U32Bytes(info.rtpTimestamp));
    r := Patched(r, 20, U32Bytes(info.packets));
    r := Patched(r, 24, U32Bytes(info.octets));
    assert done + a + b + c + d + e == done + (a + b + c + d + e);
  }

  method BuildCname(m: Message) returns (r: Result<seq<Byte>, BuildError>)
    requires m.CanonicalName?
    ensures r == Built(m)
  {
    hide U32Bytes, Buffer, Patched, HeaderBytes;
    if m.ssrc == 0 {
      return Err(ZeroSsrc);
    }
    if m.cname == [] {
      return Err(EmptyCname);
    }
    if |m.cname| > 255 {
      return Err(CnameTooLong);
    }
    var size := RoundUp4(11 + |m.cname|);
    var packet := WriteHeader(size, 1, SDES);
    ghost var header := HeaderBytes(1, SDES, size);
    BufferFilled(header, size, U32Bytes(m.ssrc));
    BufferFilled(header + U32Bytes(m.ssrc), size, [1, |m.cname|]);
    BufferFilled(header + U32Bytes(m.ssrc) + [1, |m.cname|], size, m.cname);
    BufferFilled(header + U32Bytes(m.ssrc) + [1, |m.cname|] + m.cname, size, [0]);
    packet := Patched(packet, 4, U32Bytes(m.ssrc));
    packet := Patched(packet, 8, [1, |m.cname|]);
    packet := Patched(packet, 10, m.cname);
    packet := Patched(packet, 10 + |m.cname|, [0]);
    PaddedBuffer(header, U32Bytes(m.ssrc) + [1, |m.cname|] + m.cname + [0]);
    assert header + U32Bytes(m.ssrc) + [1, |m.cname|] + m.cname + [0] == header + (U32Bytes(m.ssrc) + [1, |m.cname|] + m.cname + [0]);
    return Ok(packet);
  }

  lemma PaddedBuffer(header: seq<Byte>, body: seq<Byte>)
    requires |header| == COMMON_HEADER
    ensures Buffer(header + body, RoundUp4(COMMON_HEADER + |body|)) == header + PadTo4(body)
  {
  }

  method BuildPli(m: Message) returns (r: Result<seq<Byte>, BuildError>)
    requires m.PictureLoss?
    ensures r == Built(m)
  {
    hide U32Bytes, Buffer, Patched, HeaderBytes;
    if m.sender == 0 || m.media == 0 {
      return Err(ZeroSsrc);
    }
    var packet := WriteHeader(FEEDBACK_HEADER, 1, PAYLOAD_FEEDBACK);
    ghost var header := HeaderBytes(1, PAYLOAD_FEEDBACK, FEEDBACK_HEADER);
    BufferFilled(header, FEEDBACK_HEADER, U32Bytes(m.sender));
    BufferFilled(header + U32Bytes(m.sender), FEEDBACK_HEADER, U32Bytes(m.media));
    packet := Patched(packet, 4, U32Bytes(m.sender));
    packet := Patched(packet, 8, U32Bytes(m.media));
    BufferFull(header + U32Bytes(m.sender) + U32Bytes(m.media));
    assert header + U32Bytes(m.sender) + U32Bytes(m.media) == header + (U32Bytes(m.sender) + U32Bytes(m.media));
    return Ok(packet);
  }

  method BuildFir(m: Message) returns (r: Result<seq<Byte>, BuildError>)
    requires m.IntraRequest?
    ensures r == Built(m)
  {
    hide U32Bytes, Buffer, Patched, HeaderBytes, AllFirBytes, Written, Refusal, FirSize;
    FirRefusal(m);
    if m.sender == 0 {
      return Err(ZeroSsrc);
    }
    if m.firs == [] {
      return Err(EmptyList);
    }
    var size := FEEDBACK_HEADER + 8 * |m.firs|;
    FirWords(|m.firs|);
    if size / 4 - 1 > 0xFFFF {
      return Err(LengthTooLarge);
    }
    var packet := WriteHeader(size, 4, PAYLOAD_FEEDBACK);
    ghost var header := HeaderBytes(4, PAYLOAD_FEEDBACK, size);
    TwoFieldsFilled(header, size, U32Bytes(m.sender), U32Bytes(0));
    packet := Patched(packet, 4, U32Bytes(m.sender));
    packet := Patched(packet, 8, U32Bytes(0));
    ghost var done := header + U32Bytes(m.sender) + U32Bytes(0);
    r := WriteFirs(packet, m.firs, done);
    if r.Ok? {
      FirWritten(m);
    }
  }

  lemma FirWords(n: nat)
    ensures (FEEDBACK_HEADER + 8 * n) % 4 == 0 && (FEEDBACK_HEADER + 8 * n) / 4 == 3 + 2 * n
  {
    WholeWords(3 + 2 * n, FEEDBACK_HEADER + 8 * n);
  }

  lemma WholeWords(words: nat, size: nat)
    requires size == 4 * words
    ensures size % 4 == 0 && size / 4 == words
  {
  }

  function FirSize(n: nat): (size: nat)
    ensures size == FEEDBACK_HEADER + 8 * n && size % 4 == 0
  {
    FirWords(n);
    FEEDBACK_HEADER + 8 * n
  }

  lemma FirRefusal(m: Message)
    requires m.IntraRequest?
    ensures m.sender == 0 ==> Refusal(m) == Some(ZeroSsrc)
    ensures m.sender != 0 && m.firs == [] ==> Refusal(m) == Some(EmptyList)
    ensures m.sender != 0 && m.firs != [] && FEEDBACK_HEADER + 8 * |m.firs| > 0x4_0000 ==> Refusal(m) == Some(LengthTooLarge)
    ensures m.sender != 0 && m.firs != [] && FEEDBACK_HEADER + 8 * |m.firs| <= 0x4_0000 ==>
              Refusal(m) == if forall i :: 0 <= i < |m.firs| ==> m.firs[i].mediaSsrc != 0 then None else Some(ZeroSsrc)
  {
  }

  lemma FirWritten(m: Message)
    requires m.IntraRequest? && Refusal(m).None?
    ensures FirSize(|m.firs|) <= 0x4_0000
    ensures Written(m) == HeaderBytes(4, PAYLOAD_FEEDBACK, FirSize(|m.firs|)) + U32Bytes(m.sender) + U32Bytes(0) + AllFirBytes(m.firs)
  {
    FirRefusal(m);
    FirBody(m);
    hide U32Bytes, HeaderBytes, AllFirBytes, Refusal, BodyOf;
    var header, body := HeaderBytes(4, PAYLOAD_FEEDBACK, FirSize(|m.firs|)), BodyOf(m);
    assert Written(m) == header + body;
    Regrouped(header, U32Bytes(m.sender), U32Bytes(0), AllFirBytes(m.firs));
  }

  lemma Regrouped(a: seq<Byte>, b: seq<Byte>, c: seq<Byte>, d: seq<Byte>)
    ensures a + (b + c + d) == a + b + c + d
  {
  }

  lemma FirBody(m: Message)
    requires m.IntraRequest? && Refusal(m).None?
    ensures |BodyOf(m)| == 8 + 8 * |m.firs| && BodyOf(m) == U32Bytes(m.sender) + U32Bytes(0) + AllFirBytes(m.firs)
  {
    hide U32Bytes, AllFirBytes, Refusal;
  }

  /** Writes SSRC and number of each request; the reserved bytes stay zero. */
  method WriteFirs(packet: seq<Byte>, firs: seq<FirEntry>, ghost done: seq<Byte>) returns (r: Result<seq<Byte>, BuildError>)
    requires |done| == FEEDBACK_HEADER && |packet| == FEEDBACK_HEADER + 8 * |firs| && packet == Buffer(done, |packet|)
    ensures r.Ok? <==> forall i :: 0 <= i < |firs| ==> firs[i].mediaSsrc != 0
    ensures r.Ok? ==> r.value == done + AllFirBytes(firs)
    ensures r.Err? ==> r.error == ZeroSsrc
  {
    hide U32Bytes, Buffer, Patched, FirBytes;
    var bytes, offset := packet, FEEDBACK_HEADER;
    assert firs[..0] == [];
    assert done + [] == done;
    for i := 0 to |firs|
      invariant forall k :: 0 <= k < i ==> firs[k].mediaSsrc != 0
      invariant offset == FEEDBACK_HEADER + 8 * i
      invariant |bytes| == |packet| && bytes == Buffer(done + AllFirBytes(firs[..i]), |packet|)
    {
      if firs[i].mediaSsrc == 0 {
        return Err(ZeroSsrc);
      }
      assert firs[..i + 1][..i] == firs[..i];
      ghost var so := done + AllFirBytes(firs[..i]);
      FirFilled(so, |packet|, firs[i]);
      assert so + FirBytes(firs[i]) == done + (AllFirBytes(firs[..i]) + FirBytes(firs[i]));
      bytes := Patched(bytes, offset, U32Bytes(firs[i].mediaSsrc));
      bytes := bytes[offset + 4 := firs[i].sequence];
      offset := offset + 8;
    }
    assert firs[..|firs|] == firs;
    BufferFull(done + AllFirBytes(firs));
    return Ok(bytes);
  }

  lemma FirFilled(done: seq<Byte>, size: nat, e: FirEntry)
    requires |done| + 8 <= size
    ensures var b := Patched(Buffer(done, size), |done|, U32Bytes(e.mediaSsrc));
            |b| == size && b[|done| + 4 := e.sequence] == Buffer(done + FirBytes(e), size)
  {
    hide U32Bytes;
  }

  method BuildBye(m: Message) returns (r: Result<seq<Byte>, BuildError>)
    requires m.Farewell?
    ensures r == Built(m)
  {
    hide Buffer, Patched, HeaderBytes, U32Bytes, AllSsrcBytes, Written, Refusal, ByeBody;
    ByeRefusal(m);
    if m.ssrcs == [] {
      return Err(EmptyList);
    }
    if |m.ssrcs| > 31 {
      return Err(TooManySsrcs);
    }
    if |m.reason| > 255 {
      return Err(ReasonTooLong);
    }
    for i := 0 to |m.ssrcs|
      invariant forall k :: 0 <= k < i ==> m.ssrcs[k] != 0
    {
      if m.ssrcs[i] == 0 {
        return Err(ZeroSsrc);
      }
    }
    var unaligned := COMMON_HEADER + 4 * |m.ssrcs| + if m.reason == [] then 0 else 1 + |m.reason|;
    var size := RoundUp4(unaligned);
    var packet := WriteHeader(size, |m.ssrcs|, BYE);
    ghost var header := HeaderBytes(|m.ssrcs|, BYE, size);
    packet := WriteSsrcs(packet, m.ssrcs, header);
    ghost var done := header + AllSsrcBytes(m.ssrcs);
    if m.reason == [] {
      BufferFull(done);
    } else {
      var offset := COMMON_HEADER + 4 * |m.ssrcs|;
      BufferFilled(done, size, [|m.reason|]);
      BufferFilled(done + [|m.reason|], size, m.reason);
      packet := Patched(packet, offset, [|m.reason|]);
      packet := Patched(packet, offset + 1, m.reason);
      PaddedBuffer(header, AllSsrcBytes(m.ssrcs) + [|m.reason|] + m.reason);
      assert done + [|m.reason|] + m.reason == header + (AllSsrcBytes(m.ssrcs) + [|m.reason|] + m.reason);
    }
    ByeWritten(m);
    return Ok(packet);
  }

  lemma ByeRefusal(m: Message)
    requires m.Farewell?
    ensures m.ssrcs == [] ==> Refusal(m) == Some(EmptyList)
    ensures m.ssrcs != [] && |m.ssrcs| > 31 ==> Refusal(m) == Some(TooManySsrcs)
    ensures m.ssrcs != [] && |m.ssrcs| <= 31 && |m.reason| > 255 ==> Refusal(m) == Some(ReasonTooLong)
    ensures m.ssrcs != [] && |m.ssrcs| <= 31 && |m.reason| <= 255 ==>
              Refusal(m) == if forall i :: 0 <= i < |m.ssrcs| ==> m.ssrcs[i] != 0 then None else Some(ZeroSsrc)
  {
  }

  lemma ByeWritten(m: Message)
    requires m.Farewell? && Refusal(m).None?
    ensures |m.ssrcs| < 32 && |m.reason| <= 255
    ensures var size := RoundUp4(COMMON_HEADER + 4 * |m.ssrcs| + if m.reason == [] then 0 else 1 + |m.reason|);
            && size % 4 == 0 && 4 <= size <= 0x4_0000
            && Written(m) == HeaderBytes(|m.ssrcs|, BYE, size) +
               if m.reason == [] then AllSsrcBytes(m.ssrcs) else PadTo4(AllSsrcBytes(m.ssrcs) + [|m.reason|] + m.reason)
  {
    hide HeaderBytes, AllSsrcBytes, PadTo4, RoundUp4, U32Bytes;
    ByeRefusal(m);
    ByeIsBody(m);
    WordsAfterHeader(4 * |m.ssrcs| + if m.reason == [] then 0 else 1 + |m.reason|);
    hide Refusal, BodyOf, ByeBody;
  }

  lemma ByeIsBody(m: Message)
    requires m.Farewell? && Refusal(m).None?
    ensures BodyOf(m) == if m.reason == [] then AllSsrcBytes(m.ssrcs) else PadTo4(AllSsrcBytes(m.ssrcs) + [|m.reason|] + m.reason)
    ensures |BodyOf(m)| == RoundUp4(4 * |m.ssrcs| + if m.reason == [] then 0 else 1 + |m.reason|)
  {
    hide AllSsrcBytes, PadTo4, RoundUp4, Refusal;
  }

  lemma WordsAfterHeader(n: nat)
    requires n <= 0x3_FFFC
    ensures RoundUp4(COMMON_HEADER + n) == COMMON_HEADER + RoundUp4(n)
    ensures RoundUp4(COMMON_HEADER + n) % 4 == 0 && 4 <= RoundUp4(COMMON_HEADER + n) <= 0x4_0000
  {
  }

  method WriteSsrcs(packet: seq<Byte>, ssrcs: seq<U32>, ghost done: seq<Byte>) returns (bytes: seq<Byte>)
    requires |done| == COMMON_HEADER && COMMON_HEADER + 4 * |ssrcs| <= |packet| && packet == Buffer(done, |packet|)
    ensures bytes == Buffer(done + AllSsrcBytes(ssrcs), |packet|)
  {
    hide U32Bytes, Buffer, Patched;
    var offset := COMMON_HEADER;
    bytes := packet;
    assert ssrcs[..0] == [];
    assert done + [] == done;
    for i := 0 to |ssrcs|
      invariant offset == COMMON_HEADER + 4 * i
      invariant |bytes| == |packet| && bytes == Buffer(done + AllSsrcBytes(ssrcs[..i]), |packet|)
    {
      assert ssrcs[..i + 1][..i] == ssrcs[..i];
      ghost var so := done + AllSsrcBytes(ssrcs[..i]);
      BufferFilled(so, |packet|, U32Bytes(ssrcs[i]));
      assert so + U32Bytes(ssrcs[i]) == done + (AllSsrcBytes(ssrcs[..i]) + U32Bytes(ssrcs[i]));
      bytes := Patched(bytes, offset, U32Bytes(ssrcs[i]));
      offset := offset + 4;
    }
    assert ssrcs[..|ssrcs|] == ssrcs;
  }
}
