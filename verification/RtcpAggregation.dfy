/**
 The loops of the RTCP readers, and what the compound reader gathers over the blocks of a packet
 (`rtp/rtcp_compound_packet.cpp`, `rtp/rtcp_report.cpp`, `rtp/rtcp_feedback.cpp`).
 */
module RtcpAggregation {
  import opened Wire
  import TF = FeedbackPacket
  import opened RtcpReader

  // ----- numbers named by a generic NACK -----

  predicate BitSet(mask: U16, bit: nat) {
    mask / Pow(2, bit) % 2 == 1
  }

  /** The packet itself, then the following packets whose bits are set, up to bit `n`. */
  function NumbersUpTo(e: NackEntry, n: nat): (r: seq<U16>)
    ensures 1 <= |r| <= n + 1
  {
    if n == 0 then [e.packetId]
    else NumbersUpTo(e, n - 1) + if BitSet(e.bitmask, n - 1) then [(e.packetId + n) % 0x1_0000] else []
  }

  function NackNumbers(es: seq<NackEntry>): (r: seq<U16>)
    ensures |r| <= 17 * |es|
  {
    if es == [] then [] else NackNumbers(es[..|es| - 1]) + NumbersUpTo(es[|es| - 1], 16)
  }

  lemma {:induction false} NumbersUpToIff(e: NackEntry, n: nat, number: U16)
    ensures number in NumbersUpTo(e, n) <==>
            number == e.packetId || exists bit: nat :: bit < n && BitSet(e.bitmask, bit) && number == (e.packetId + bit + 1) % 0x1_0000
  {
    hide BitSet;
    if n > 0 {
      NumbersUpToIff(e, n - 1, number);
      if BitSet(e.bitmask, n - 1) && number == (e.packetId + n) % 0x1_0000 {
        assert number == (e.packetId + (n - 1) + 1) % 0x1_0000;
      }
    }
  }

  ghost predicate Named(e: NackEntry, number: U16) {
    number == e.packetId || exists bit: nat :: bit < 16 && BitSet(e.bitmask, bit) && number == (e.packetId + bit + 1) % 0x1_0000
  }

  ghost predicate NamedIn(es: seq<NackEntry>, number: U16) {
    exists i :: 0 <= i < |es| && Named(es[i], number)
  }

  /** A number is asked for exactly when some entry names it. */
  lemma {:induction false} NackNumbersIff(es: seq<NackEntry>, number: U16)
    ensures number in NackNumbers(es) <==> NamedIn(es, number)
  {
    hide NamedIn, Named, NumbersUpTo;
    if es == [] {
      NoneNamed(number);
    } else {
      var front, last := es[..|es| - 1], es[|es| - 1];
      NackNumbersIff(front, number);
      EntryNumbers(last, number);
      NamedEarlier(es, number);
      assert NackNumbers(es) == NackNumbers(front) + NumbersUpTo(last, 16);
    }
  }

  lemma EntryNumbers(e: NackEntry, number: U16)
    ensures number in NumbersUpTo(e, 16) <==> Named(e, number)
  {
    hide BitSet, NumbersUpTo;
    NumbersUpToIff(e, 16, number);
  }

  lemma NoneNamed(number: U16)
    ensures !NamedIn([], number)
  {
  }

  lemma NamedEarlier(es: seq<NackEntry>, number: U16)
    requires es != []
    ensures NamedIn(es, number) <==> NamedIn(es[..|es| - 1], number) || Named(es[|es| - 1], number)
  {
    hide Named;
    var front := es[..|es| - 1];
    if NamedIn(es, number) {
      var i :| 0 <= i < |es| && Named(es[i], number);
      assert i < |front| ==> front[i] == es[i];
    }
    if NamedIn(front, number) {
      var i :| 0 <= i < |front| && Named(front[i], number);
      assert Named(es[i], number);
    }
  }

  method ParseNack(data: seq<Byte>, end: nat) returns (entries: seq<NackEntry>, numbers: seq<U16>)
    requires FEEDBACK_HEADER <= end <= |data| && (end - FEEDBACK_HEADER) % 4 == 0
    ensures entries == NackEntries(data, (end - FEEDBACK_HEADER) / 4) && numbers == NackNumbers(entries)
  {
    hide ReadU16, BitSet, NumbersUpTo;
    entries, numbers := [], [];
    var current := FEEDBACK_HEADER;
    while current < end
      invariant FEEDBACK_HEADER <= current <= end && current == FEEDBACK_HEADER + 4 * |entries|
      invariant entries == NackEntries(data, |entries|) && numbers == NackNumbers(entries)
    {
      var e := NackEntry(ReadU16(data, current), ReadU16(data, current + 2));
      var more := ExpandEntry(e);
      assert (entries + [e])[..|entries|] == entries;
      entries, numbers := entries + [e], numbers + more;
      current := current + 4;
    }
  }

  method ExpandEntry(e: NackEntry) returns (numbers: seq<U16>)
    ensures numbers == NumbersUpTo(e, 16)
  {
    numbers := [e.packetId];
    for bit := 0 to 16
      invariant numbers == NumbersUpTo(e, bit)
    {
      if BitSet(e.bitmask, bit) {
        numbers := numbers + [(e.packetId + bit + 1) % 0x1_0000];
      }
    }
  }

  // ----- the other loops -----

  method ParseFirList(data: seq<Byte>, end: nat) returns (entries: seq<FirEntry>)
    requires FEEDBACK_HEADER <= end <= |data| && (end - FEEDBACK_HEADER) % 8 == 0
    ensures entries == FirEntries(data, (end - FEEDBACK_HEADER) / 8)
  {
    hide ReadU32;
    entries := [];
    var current := FEEDBACK_HEADER;
    while current < end
      invariant FEEDBACK_HEADER <= current <= end && current == FEEDBACK_HEADER + 8 * |entries|
      invariant entries == FirEntries(data, |entries|)
    {
      entries := entries + [FirEntry(ReadU32(data, current), data[current + 4])];
      current := current + 8;
    }
  }

  method ParseReportBlocks(data: seq<Byte>, at: nat, count: nat) returns (blocks: seq<ReportBlock>)
    requires at + count * 24 <= |data|
    ensures blocks == ReportBlocks(data, at, count)
  {
    hide ParseReportBlock;
    blocks := [];
    for i := 0 to count
      invariant |blocks| == i && forall k :: 0 <= k < i ==> blocks[k] == ParseReportBlock(data, at + k * 24)
    {
      blocks := blocks + [ParseReportBlock(data, at + i * 24)];
    }
  }

  method ParseSdesChunks(data: seq<Byte>, end: nat, count: nat) returns (r: Result<Content, RtcpError>)
    requires COMMON_HEADER <= end <= |data|
    ensures r == ParseChunks(data, end, count, COMMON_HEADER, [])
  {
    hide ParseItems;
    var offset: nat, chunks: seq<Chunk> := COMMON_HEADER, [];
    for index := 0 to count
      invariant offset <= end
      invariant ParseChunks(data, end, count - index, offset, chunks) == ParseChunks(data, end, count, COMMON_HEADER, [])
    {
      if offset + 4 > end {
        return Err(TruncatedChunk);
      }
      var ssrc := ReadU32(data, offset);
      var items := ParseChunkItems(data, end, offset + 4);
      if items.Err? {
        return Err(items.error);
      }
      chunks := chunks + [Chunk(ssrc, items.value.0)];
      offset := items.value.1;
    }
    if offset != end {
      return Err(TrailingChunkBytes);
    }
    return Ok(Description(chunks));
  }

  method ParseChunkItems(data: seq<Byte>, end: nat, start: nat) returns (r: Result<(seq<Item>, nat), RtcpError>)
    requires start <= end <= |data|
    ensures r == ParseItems(data, end, start, [])
  {
    var offset, items: seq<Item> := start, [];
    while offset < end
      invariant start <= offset <= end
      invariant ParseItems(data, end, offset, items) == ParseItems(data, end, start, [])
    {
      var kind := data[offset];
      if kind == 0 {
        var aligned := RoundUp4(offset + 1);
        if aligned > end || !ZeroBetween(data, offset + 1, aligned) {
          return Err(BadChunkPadding);
        }
        return Ok((items, aligned));
      }
      if offset + 1 >= end || offset + 2 + data[offset + 1] > end {
        return Err(TruncatedItem);
      }
      var next := offset + 2 + data[offset + 1];
      items := items + [Item(kind, data[offset + 2..next])];
      offset := next;
    }
    return Err(MissingEndItem);
  }

  // ----- what is gathered -----

  datatype Totals = Totals(
    reports: nat, senderReports: nat, receiverReports: nat, reportBlocks: nat, descriptions: nat, goodbyes: nat, feedback: nat, unknown: nat,
    pli: nat, fir: nat, nack: nat, transportCc: nat, remb: nat, other: nat,
    nackCount: nat, firCount: nat, nackNumbers: seq<U16>, firEntries: seq<FirEntry>, keyframes: seq<U32>, bitrate: nat)

  const NOTHING: Totals := Totals(0, 0, 0, 0, 0, 0, 0, 0, 0, 0, 0, 0, 0, 0, 0, 0, [], [], [], 0)

  /** The media a block asks a keyframe for. */
  function KeyframesOf(media: U32, f: Feedback): (r: seq<U32>) {
    match f
    case Pli => if media != 0 then [media] else []
    case Fir(es) => FirSsrcs(es)
    case _ => []
  }

  function FirSsrcs(es: seq<FirEntry>): seq<U32> {
    if es == [] then [] else FirSsrcs(es[..|es| - 1]) + if es[|es| - 1].mediaSsrc != 0 then [es[|es| - 1].mediaSsrc] else []
  }

  /** Appends what is not there yet. */
  function Merged(have: seq<U32>, more: seq<U32>): seq<U32> {
    if more == [] then have
    else
      var front := Merged(have, more[..|more| - 1]);
      if more[|more| - 1] in front then front else front + [more[|more| - 1]]
  }

  /** What a parsed feedback packet leaves in its block: a name and independent flags. */
  datatype Flags = Flags(name: string, nackEntries: seq<NackEntry>, firEntries: seq<FirEntry>, genericNack: bool, transportFeedback: bool, remb: Option<nat>)

  function FormatName(packetType: Byte, format: Byte): string {
    if packetType == TRANSPORT_FEEDBACK then
      match format
      case 1 => "generic_nack"
      case 3 => "tmmbr"
      case 4 => "tmmbn"
      case 15 => "transport_cc"
      case _ => "transport_feedback_unknown"
    else if packetType == PAYLOAD_FEEDBACK then
      match format
      case 1 => "pli"
      case 2 => "sli"
      case 3 => "rpsi"
      case 4 => "fir"
      case 15 => "afb"
      case _ => "payload_feedback_unknown"
    else "unknown"
  }

  function FlagsOf(h: Header, f: Feedback): Flags {
    var remb := if f.Remb? then Some(f.bitrate) else None;
    Flags(if remb.Some? then "remb" else FormatName(h.packetType, h.count),
          if f.GenericNack? then f.entries else [], if f.Fir? then f.requests else [],
          f.GenericNack?, f.TransportCc?, remb)
  }

  /** One feedback block is counted under its name and under each of its flags, and as other when nothing claimed it. */
  function FeedbackGathered(t: Totals, media: U32, f: Feedback, flags: Flags): Totals {
    var classified := flags.name == "pli" || flags.name == "fir" || flags.genericNack || flags.transportFeedback || flags.remb.Some?;
    t.(feedback := t.feedback + 1,
       pli := t.pli + (if flags.name == "pli" then 1 else 0),
       fir := t.fir + (if flags.name != "pli" && flags.name == "fir" then 1 else 0),
       nackCount := t.nackCount + |flags.nackEntries|,
       firCount := t.firCount + |flags.firEntries|,
       nack := t.nack + (if flags.genericNack then 1 else 0),
       transportCc := t.transportCc + (if flags.transportFeedback then 1 else 0),
       remb := t.remb + (if flags.remb.Some? then 1 else 0),
       other := t.other + (if classified then 0 else 1),
       nackNumbers := t.nackNumbers + NackNumbers(flags.nackEntries),
       keyframes := Merged(t.keyframes, KeyframesOf(media, f)),
       firEntries := t.firEntries + flags.firEntries,
       bitrate := Max(t.bitrate, if flags.remb.Some? then flags.remb.value else 0))
  }

  function Gathered(t: Totals, b: Block): Totals {
    match b.content
    case Report(_, info, blocks) =>
      t.(reports := t.reports + 1, reportBlocks := t.reportBlocks + |blocks|,
         senderReports := t.senderReports + (if info.Some? then 1 else 0), receiverReports := t.receiverReports + (if info.Some? then 0 else 1))
    case Description(_) => t.(descriptions := t.descriptions + 1)
    case Goodbye(_, _) => t.(goodbyes := t.goodbyes + 1)
    case Unknown => t.(unknown := t.unknown + 1)
    case FeedbackMessage(_, media, f) => FeedbackGathered(t, media, f, FlagsOf(b.header, f))
  }

  function TotalsOf(blocks: seq<Block>): Totals {
    if blocks == [] then NOTHING else Gathered(TotalsOf(blocks[..|blocks| - 1]), blocks[|blocks| - 1])
  }

  predicate Balanced(t: Totals, n: nat) {
    && t.reports + t.descriptions + t.goodbyes + t.feedback + t.unknown == n
    && t.senderReports + t.receiverReports == t.reports
    && t.pli + t.fir + t.nack + t.transportCc + t.remb + t.other == t.feedback
    && |t.firEntries| == t.firCount && |t.nackNumbers| <= 17 * t.nackCount
  }

  /** The format in the header is the one the body was parsed under. */
  predicate FormatMatches(h: Header, f: Feedback) {
    match f
    case GenericNack(_) => h.packetType == TRANSPORT_FEEDBACK && h.count == 1
    case TransportCc(_) => h.packetType == TRANSPORT_FEEDBACK && h.count == 15
    case Pli => h.packetType == PAYLOAD_FEEDBACK && h.count == 1
    case Fir(_) => h.packetType == PAYLOAD_FEEDBACK && h.count == 4
    case Remb(_) => h.packetType == PAYLOAD_FEEDBACK && h.count == 15
    case OtherFeedback =>
      if h.packetType == TRANSPORT_FEEDBACK then h.count != 1 && h.count != 15
      else h.packetType == PAYLOAD_FEEDBACK && h.count != 1 && h.count != 4
  }

  predicate Consistent(b: Block) {
    b.content.FeedbackMessage? ==> FormatMatches(b.header, b.content.body)
  }

  lemma FrontConsistent(data: seq<Byte>)
    requires ParseFront(data).Ok?
    ensures Consistent(ParseFront(data).value)
  {
    hide ParseHeader, ParseReport, ParseChunks, ParseBye, TF.Parse, NackEntries, FirEntries;
    var h := ParseHeader(data).value;
    HeaderOfPrefix(data, h.size);
    NotFeedback(h, data[..h.size], PayloadEnd(h, data[..h.size]));
  }

  lemma NotFeedback(h: Header, data: seq<Byte>, end: nat)
    requires COMMON_HEADER <= end <= |data|
    ensures ParseReport(h, data, end).Ok? ==> !ParseReport(h, data, end).value.FeedbackMessage?
    ensures ParseBye(h, data, end).Ok? ==> !ParseBye(h, data, end).value.FeedbackMessage?
    ensures ParseChunks(data, end, h.count, COMMON_HEADER, []).Ok? ==> !ParseChunks(data, end, h.count, COMMON_HEADER, []).value.FeedbackMessage?
  {
    hide ParseChunks;
    ChunksAreDescription(data, end, h.count, COMMON_HEADER, []);
  }

  lemma {:induction false} ChunksAreDescription(data: seq<Byte>, end: nat, count: nat, offset: nat, chunks: seq<Chunk>)
    requires offset <= end <= |data|
    ensures ParseChunks(data, end, count, offset, chunks).Ok? ==> ParseChunks(data, end, count, offset, chunks).value.Description?
    decreases count
  {
    hide ParseItems;
    if count > 0 && offset + 4 <= end {
      var items := ParseItems(data, end, offset + 4, []);
      if items.Ok? {
        ChunksAreDescription(data, end, count - 1, items.value.1, chunks + [Chunk(ReadU32(data, offset), items.value.0)]);
      }
    }
  }

  lemma {:induction false} BlocksConsistent(data: seq<Byte>)
    requires ParseBlocks(data).Ok?
    ensures forall i :: 0 <= i < |ParseBlocks(data).value| ==> Consistent(ParseBlocks(data).value[i])
    decreases |data|
  {
    hide ParseFront, Consistent;
    if data != [] {
      FrontConsistent(data);
      BlocksConsistent(data[ParseFront(data).value.header.size..]);
    }
  }

  /** Name and flags of a parsed block say the same thing, and only one thing. */
  lemma FlagsExclusive(h: Header, f: Feedback)
    requires FormatMatches(h, f)
    ensures var flags := FlagsOf(h, f);
            && (flags.name == "pli" <==> f.Pli?) && (flags.name == "fir" <==> f.Fir?)
            && (flags.genericNack <==> f.GenericNack?) && (flags.transportFeedback <==> f.TransportCc?) && (flags.remb.Some? <==> f.Remb?)
  {
  }

  lemma FeedbackBalanced(t: Totals, media: U32, h: Header, f: Feedback, n: nat)
    requires Balanced(t, n) && FormatMatches(h, f)
    ensures Balanced(FeedbackGathered(t, media, f, FlagsOf(h, f)), n + 1)
  {
    hide Merged, NackNumbers, KeyframesOf, FlagsOf, FormatMatches;
    FlagsExclusive(h, f);
  }

  lemma GatheredBalanced(t: Totals, b: Block, n: nat)
    requires Balanced(t, n) && Consistent(b)
    ensures Balanced(Gathered(t, b), n + 1)
  {
    hide FeedbackGathered, FlagsOf, FormatMatches;
    if b.content.FeedbackMessage? {
      FeedbackBalanced(t, b.content.media, b.header, b.content.body, n);
    }
  }

  /** The counters partition the blocks, and the feedback counters partition the feedback. */
  lemma {:induction false} CountersPartition(blocks: seq<Block>)
    requires forall i :: 0 <= i < |blocks| ==> Consistent(blocks[i])
    ensures Balanced(TotalsOf(blocks), |blocks|)
  {
    hide Gathered, Balanced, Consistent;
    if blocks == [] {
      NothingBalanced();
    } else {
      CountersPartition(blocks[..|blocks| - 1]);
      GatheredBalanced(TotalsOf(blocks[..|blocks| - 1]), blocks[|blocks| - 1], |blocks| - 1);
    }
  }

  /** For every accepted packet, name tests and flags together count each block exactly once. */
  lemma PacketCountersPartition(data: seq<Byte>)
    requires ParseCompound(data).Ok?
    ensures Balanced(TotalsOf(ParseCompound(data).value), |ParseCompound(data).value|)
  {
    hide ParseBlocks, TotalsOf, Balanced, Consistent;
    BlocksConsistent(data);
    CountersPartition(ParseBlocks(data).value);
  }

  lemma NothingBalanced()
    ensures Balanced(NOTHING, 0)
  {
  }

  ghost predicate NoDuplicates(s: seq<U32>) {
    forall i, j :: 0 <= i < j < |s| ==> s[i] != s[j]
  }

  lemma {:induction false} MergedFacts(have: seq<U32>, more: seq<U32>)
    requires NoDuplicates(have)
    ensures NoDuplicates(Merged(have, more))
    ensures forall x :: x in Merged(have, more) <==> x in have || x in more
  {
    if more != [] {
      var n := |more| - 1;
      MergedFacts(have, more[..n]);
      assert more == more[..n] + [more[n]];
    }
  }

  /** The block is a PLI for this media, or a FIR with an entry for it. */
  ghost predicate AsksFor(b: Block, ssrc: U32) {
    && b.content.FeedbackMessage? && ssrc != 0
    && ((b.content.body.Pli? && ssrc == b.content.media)
        || (b.content.body.Fir? && exists i :: 0 <= i < |b.content.body.requests| && b.content.body.requests[i].mediaSsrc == ssrc))
  }

  lemma {:induction false} FirSsrcsIff(es: seq<FirEntry>, ssrc: U32)
    ensures ssrc in FirSsrcs(es) <==> ssrc != 0 && exists i :: 0 <= i < |es| && es[i].mediaSsrc == ssrc
  {
    if es != [] {
      var n := |es| - 1;
      FirSsrcsIff(es[..n], ssrc);
      if i :| 0 <= i < |es| && es[i].mediaSsrc == ssrc {
        assert i < n ==> es[..n][i].mediaSsrc == ssrc;
      }
      if i :| 0 <= i < n && es[..n][i].mediaSsrc == ssrc {
        assert es[i].mediaSsrc == ssrc;
      }
    }
  }

  lemma KeyframesOfIff(b: Block, ssrc: U32)
    requires b.content.FeedbackMessage?
    ensures ssrc in KeyframesOf(b.content.media, b.content.body) <==> AsksFor(b, ssrc)
  {
    if b.content.body.Fir? {
      FirSsrcsIff(b.content.body.requests, ssrc);
      hide FirSsrcs;
    }
  }

  ghost predicate AskedIn(blocks: seq<Block>, ssrc: U32) {
    exists i :: 0 <= i < |blocks| && AsksFor(blocks[i], ssrc)
  }

  /** Each media that any block asks a keyframe for is listed once, and nothing else is. */
  lemma {:induction false} KeyframesListedOnce(blocks: seq<Block>)
    ensures NoDuplicates(TotalsOf(blocks).keyframes)
    ensures forall ssrc :: ssrc in TotalsOf(blocks).keyframes <==> AskedIn(blocks, ssrc)
  {
    hide Merged, KeyframesOf, NackNumbers, NoDuplicates;
    if blocks == [] {
      NothingListed();
    } else {
      var n := |blocks| - 1;
      KeyframesListedOnce(blocks[..n]);
      var t, b := TotalsOf(blocks[..n]), blocks[n];
      if b.content.FeedbackMessage? {
        MergedFacts(t.keyframes, KeyframesOf(b.content.media, b.content.body));
      }
      forall ssrc: U32
        ensures ssrc in TotalsOf(blocks).keyframes <==> AskedIn(blocks, ssrc)
      {
        if b.content.FeedbackMessage? {
          KeyframesOfIff(b, ssrc);
        }
        assert ssrc in TotalsOf(blocks).keyframes <==> ssrc in t.keyframes || AsksFor(b, ssrc);
        AskedEarlier(blocks, ssrc);
        hide TotalsOf, AsksFor, AskedIn;
      }
    }
  }

  lemma NothingListed()
    ensures NoDuplicates([])
  {
  }

  lemma AskedEarlier(blocks: seq<Block>, ssrc: U32)
    requires blocks != []
    ensures AskedIn(blocks, ssrc) <==> AskedIn(blocks[..|blocks| - 1], ssrc) || AsksFor(blocks[|blocks| - 1], ssrc)
  {
    hide AsksFor;
    var front := blocks[..|blocks| - 1];
    if AskedIn(blocks, ssrc) {
      var i :| 0 <= i < |blocks| && AsksFor(blocks[i], ssrc);
      assert i < |front| ==> front[i] == blocks[i];
    }
    if AskedIn(front, ssrc) {
      var i :| 0 <= i < |front| && AsksFor(front[i], ssrc);
      assert AsksFor(blocks[i], ssrc);
    }
  }

  // ----- what the totals count -----

  datatype BlockKind =
    | SenderKind | ReceiverKind | DescriptionKind | GoodbyeKind | PliKind | FirKind | NackKind | TransportCcKind | RembKind | OtherKind | UnknownKind

  function KindOf(b: Block): BlockKind {
    match b.content
    case Report(_, info, _) => if info.Some? then SenderKind else ReceiverKind
    case Description(_) => DescriptionKind
    case Goodbye(_, _) => GoodbyeKind
    case Unknown => UnknownKind
    case FeedbackMessage(_, _, f) =>
      match f
      case Pli => PliKind
      case Fir(_) => FirKind
      case GenericNack(_) => NackKind
      case TransportCc(_) => TransportCcKind
      case Remb(_) => RembKind
      case OtherFeedback => OtherKind
  }

  /** The blocks of one kind. */
  ghost function OfKind(blocks: seq<Block>, k: BlockKind): set<nat> {
    set i: nat | i < |blocks| && KindOf(blocks[i]) == k
  }

  function CounterOf(t: Totals, k: BlockKind): nat {
    match k
    case SenderKind => t.senderReports
    case ReceiverKind => t.receiverReports
    case DescriptionKind => t.descriptions
    case GoodbyeKind => t.goodbyes
    case PliKind => t.pli
    case FirKind => t.fir
    case NackKind => t.nack
    case TransportCcKind => t.transportCc
    case RembKind => t.remb
    case OtherKind => t.other
    case UnknownKind => t.unknown
  }

  lemma OfKindMore(blocks: seq<Block>, k: BlockKind)
    requires blocks != []
    ensures |OfKind(blocks, k)| == |OfKind(blocks[..|blocks| - 1], k)| + if KindOf(blocks[|blocks| - 1]) == k then 1 else 0
  {
    OfKindIs(blocks, k);
    var n := |blocks| - 1;
    var front := OfKind(blocks[..n], k);
    hide KindOf, OfKind;
    if KindOf(blocks[n]) == k {
      assert OfKind(blocks, k) == front + {n};
    } else {
      assert OfKind(blocks, k) == front;
    }
  }

  lemma OfKindIs(blocks: seq<Block>, k: BlockKind)
    requires blocks != []
    ensures var n := |blocks| - 1;
            && n !in OfKind(blocks[..n], k)
            && forall i :: i in OfKind(blocks, k) <==> i in OfKind(blocks[..n], k) || (i == n && KindOf(blocks[n]) == k)
  {
    hide KindOf;
    var n := |blocks| - 1;
    assert forall i :: 0 <= i < n ==> blocks[..n][i] == blocks[i];
  }

  lemma CounterMore(t: Totals, b: Block, k: BlockKind)
    requires Consistent(b)
    ensures CounterOf(Gathered(t, b), k) == CounterOf(t, k) + if KindOf(b) == k then 1 else 0
  {
    hide Merged, NackNumbers, KeyframesOf, FlagsOf, FormatMatches;
    if b.content.FeedbackMessage? {
      FlagsExclusive(b.header, b.content.body);
    }
  }

  /** Every counter is the number of blocks of its kind. */
  lemma {:induction false} CountersCount(blocks: seq<Block>, k: BlockKind)
    requires forall i :: 0 <= i < |blocks| ==> Consistent(blocks[i])
    ensures CounterOf(TotalsOf(blocks), k) == |OfKind(blocks, k)|
  {
    hide Gathered, Consistent, KindOf;
    if blocks == [] {
      assert OfKind([], k) == {};
      NothingGathered(k);
    } else {
      CountersCount(blocks[..|blocks| - 1], k);
      CounterMore(TotalsOf(blocks[..|blocks| - 1]), blocks[|blocks| - 1], k);
      OfKindMore(blocks, k);
      hide OfKind, CounterOf;
    }
  }

  lemma NothingGathered(k: BlockKind)
    ensures CounterOf(NOTHING, k) == 0
  {
  }

  /** For every accepted packet, each counter is the number of its blocks of that kind. */
  lemma PacketCountersCount(data: seq<Byte>, k: BlockKind)
    requires ParseCompound(data).Ok?
    ensures CounterOf(TotalsOf(ParseCompound(data).value), k) == |OfKind(ParseCompound(data).value, k)|
  {
    hide ParseBlocks, TotalsOf, Consistent, OfKind, CounterOf;
    BlocksConsistent(data);
    CountersCount(ParseBlocks(data).value, k);
  }

  ghost predicate NackedBy(b: Block, number: U16) {
    KindOf(b) == NackKind && NamedIn(b.content.body.entries, number)
  }

  ghost predicate FirBy(b: Block, e: FirEntry) {
    KindOf(b) == FirKind && e in b.content.body.requests
  }

  ghost predicate Nacked(blocks: seq<Block>, number: U16) {
    exists i :: 0 <= i < |blocks| && NackedBy(blocks[i], number)
  }

  ghost predicate FirAsked(blocks: seq<Block>, e: FirEntry) {
    exists i :: 0 <= i < |blocks| && FirBy(blocks[i], e)
  }

  lemma NackedMore(blocks: seq<Block>, number: U16, e: FirEntry)
    requires blocks != []
    ensures Nacked(blocks, number) <==> Nacked(blocks[..|blocks| - 1], number) || NackedBy(blocks[|blocks| - 1], number)
    ensures FirAsked(blocks, e) <==> FirAsked(blocks[..|blocks| - 1], e) || FirBy(blocks[|blocks| - 1], e)
  {
    hide NackedBy, FirBy;
    var n := |blocks| - 1;
    var front := blocks[..n];
    assert forall i :: 0 <= i < n ==> front[i] == blocks[i];
    if i :| 0 <= i < |front| && NackedBy(front[i], number) {
      assert NackedBy(blocks[i], number);
    }
    if i :| 0 <= i < |blocks| && NackedBy(blocks[i], number) {
      assert i < n ==> NackedBy(front[i], number);
    }
    if i :| 0 <= i < |front| && FirBy(front[i], e) {
      assert FirBy(blocks[i], e);
    }
    if i :| 0 <= i < |blocks| && FirBy(blocks[i], e) {
      assert i < n ==> FirBy(front[i], e);
    }
  }

  lemma GatheredLists(t: Totals, b: Block, number: U16, e: FirEntry)
    requires Consistent(b)
    ensures var n := Gathered(t, b);
            && (number in n.nackNumbers <==> number in t.nackNumbers || NackedBy(b, number))
            && (e in n.firEntries <==> e in t.firEntries || FirBy(b, e))
            && n.bitrate == (if KindOf(b) == RembKind then Max(t.bitrate, b.content.body.bitrate) else t.bitrate)
            && n.reportBlocks == t.reportBlocks + (if b.content.Report? then |b.content.blocks| else 0)
  {
    hide Merged, NackNumbers, KeyframesOf, FormatMatches, NamedIn;
    if KindOf(b) == NackKind {
      NackNumbersIff(b.content.body.entries, number);
    } else {
      NoNacks();
    }
  }

  lemma NoNacks()
    ensures NackNumbers([]) == []
  {
  }

  /**
   The lists of the totals: a number is asked for again exactly when some NACK block names it, a FIR
   entry is listed exactly when some block has it, and the bitrate is the highest any REMB block names.
   */
  lemma {:induction false} ListsGather(blocks: seq<Block>, number: U16, e: FirEntry)
    requires forall i :: 0 <= i < |blocks| ==> Consistent(blocks[i])
    ensures var t := TotalsOf(blocks);
            && (number in t.nackNumbers <==> Nacked(blocks, number))
            && (e in t.firEntries <==> FirAsked(blocks, e))
            && (forall i :: 0 <= i < |blocks| && KindOf(blocks[i]) == RembKind ==> blocks[i].content.body.bitrate <= t.bitrate)
            && (t.bitrate > 0 ==> exists i :: 0 <= i < |blocks| && KindOf(blocks[i]) == RembKind && blocks[i].content.body.bitrate == t.bitrate)
  {
    hide Gathered, Consistent, NackedBy, FirBy;
    if blocks != [] {
      var n := |blocks| - 1;
      var front := blocks[..n];
      ListsGather(front, number, e);
      NackedMore(blocks, number, e);
      hide Nacked, FirAsked;
      GatheredLists(TotalsOf(front), blocks[n], number, e);
      assert forall i :: 0 <= i < n ==> front[i] == blocks[i];
      if TotalsOf(front).bitrate > 0 {
        var i :| 0 <= i < |front| && KindOf(front[i]) == RembKind && front[i].content.body.bitrate == TotalsOf(front).bitrate;
        assert KindOf(blocks[i]) == RembKind;
      }
    }
  }

  // ----- the compound reader -----

  function Onto(done: seq<Block>, r: Result<seq<Block>, RtcpError>): Result<seq<Block>, RtcpError> {
    if r.Ok? then Ok(done + r.value) else r
  }

  lemma OntoStep(done: seq<Block>, data: seq<Byte>)
    requires data != []
    ensures var front := ParseFront(data);
            Onto(done, ParseBlocks(data)) ==
            if front.Err? then Err(front.error) else Onto(done + [front.value], ParseBlocks(data[front.value.header.size..]))
  {
    hide ParseFront;
    var front := ParseFront(data);
    if front.Ok? {
      var rest := ParseBlocks(data[front.value.header.size..]);
      if rest.Ok? {
        assert done + ([front.value] + rest.value) == done + [front.value] + rest.value;
      }
    }
  }

  method ParsePacket(data: seq<Byte>) returns (r: Result<(seq<Block>, Totals), RtcpError>)
    ensures match ParseCompound(data)
            case Err(e) => r == Err(e)
            case Ok(blocks) => r == Ok((blocks, TotalsOf(blocks)))
  {
    hide ParseFront, ParseBlocks, Gathered;
    if data == [] {
      return Err(EmptyPacket);
    }
    var offset, blocks: seq<Block>, totals := 0, [], NOTHING;
    assert data[0..] == data;
    OntoNothing(ParseBlocks(data));
    while offset < |data|
      invariant 0 <= offset <= |data|
      invariant ParseBlocks(data) == Onto(blocks, ParseBlocks(data[offset..]))
      invariant totals == TotalsOf(blocks)
    {
      OntoStep(blocks, data[offset..]);
      var front := ParseFront(data[offset..]);
      if front.Err? {
        return Err(front.error);
      }
      assert (blocks + [front.value])[..|blocks|] == blocks;
      totals := Gathered(totals, front.value);
      blocks := blocks + [front.value];
      assert data[offset..][front.value.header.size..] == data[offset + front.value.header.size..];
      offset := offset + front.value.header.size;
    }
    ParsedNothing(data[offset..]);
    assert blocks + [] == blocks;
    return Ok((blocks, totals));
  }

  lemma OntoNothing(r: Result<seq<Block>, RtcpError>)
    ensures Onto([], r) == r
  {
    if r.Ok? {
      assert [] + r.value == r.value;
    }
  }

  lemma ParsedNothing(data: seq<Byte>)
    requires data == []
    ensures ParseBlocks(data) == Ok([])
  {
  }
}
