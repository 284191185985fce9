/**
 Compound RTCP packets: the builder and the datagrams the relay sends (`rtp/rtcp_packet_builder.cpp`)
 against the compound reader (`rtp/rtcp_compound_packet.cpp`).
 */
module RtcpCompound {
  import opened Wire
  import TF = FeedbackPacket
  import opened RtcpReader
  import opened RtcpBuilder

  predicate ValidMember(p: seq<Byte>) {
    |p| >= COMMON_HEADER && |p| % 4 == 0 && p[0] / 0x40 == 2 && (ReadU16(p, 2) + 1) * 4 == |p|
  }

  predicate HasPadding(p: seq<Byte>) {
    p != [] && p[0] / 0x20 % 2 == 1
  }

  function Flat(ps: seq<seq<Byte>>): seq<Byte> {
    if ps == [] then [] else ps[0] + Flat(ps[1..])
  }

  /** The walk over the members from `i`: whether an SDES was seen, or the first error. */
  function Walk(ps: seq<seq<Byte>>, maximum: nat, i: nat, total: nat, sdes: bool): Result<bool, BuildError>
    requires i <= |ps|
    decreases |ps| - i
  {
    if i == |ps| then Ok(sdes)
    else if !ValidMember(ps[i]) then Err(BadMember)
    else if i == 0 && !IsReport(ps[i][1]) then Err(NoReportFirst)
    else if HasPadding(ps[i]) && i + 1 != |ps| then Err(PaddingInside)
    else if total > maximum || |ps[i]| > maximum - total then Err(TooLarge)
    else Walk(ps, maximum, i + 1, total + |ps[i]|, sdes || ps[i][1] == SDES)
  }

  function Compound(ps: seq<seq<Byte>>, maximum: nat): Result<seq<Byte>, BuildError> {
    if ps == [] then Err(NoMembers)
    else if maximum < COMMON_HEADER then Err(MaximumTooSmall)
    else
      match Walk(ps, maximum, 0, 0, false)
      case Err(e) => Err(e)
      case Ok(sdes) => if sdes then Ok(Flat(ps)) else Err(NoSdes)
  }

  /** What the builder accepts, said without its walk. */
  ghost predicate Acceptable(ps: seq<seq<Byte>>, maximum: nat) {
    && ps != []
    && (forall i :: 0 <= i < |ps| ==> ValidMember(ps[i]))
    && IsReport(ps[0][1])
    && (forall i :: 0 <= i < |ps| - 1 ==> !HasPadding(ps[i]))
    && (exists i :: 0 <= i < |ps| && ps[i][1] == SDES)
    && |Flat(ps)| <= maximum
  }

  ghost predicate AcceptableFrom(ps: seq<seq<Byte>>, maximum: nat, i: nat, total: nat)
    requires i <= |ps|
  {
    && (forall k :: i <= k < |ps| ==> ValidMember(ps[k]))
    && (i == 0 && ps != [] ==> IsReport(ps[0][1]))
    && (forall k :: i <= k < |ps| - 1 ==> !HasPadding(ps[k]))
    && (i < |ps| ==> total + |Flat(ps[i..])| <= maximum)
  }

  lemma {:induction false} WalkIff(ps: seq<seq<Byte>>, maximum: nat, i: nat, total: nat, sdes: bool)
    requires i <= |ps|
    ensures Walk(ps, maximum, i, total, sdes).Ok? <==> AcceptableFrom(ps, maximum, i, total)
    ensures Walk(ps, maximum, i, total, sdes).Ok? ==>
              (Walk(ps, maximum, i, total, sdes).value <==> sdes || exists k :: i <= k < |ps| && ValidMember(ps[k]) && ps[k][1] == SDES)
    decreases |ps| - i
  {
    hide ValidMember;
    if i < |ps| {
      MemberNotEmpty(ps[i]);
      assert ps[i..][1..] == ps[i + 1..];
      assert i + 1 == |ps| ==> ps[i + 1..] == [];
      WalkIff(ps, maximum, i + 1, total + |ps[i]|, sdes || (ps[i] != [] && |ps[i]| > 1 && ps[i][1] == SDES));
      hide HasPadding, IsReport;
    }
  }

  lemma MemberNotEmpty(p: seq<Byte>)
    ensures ValidMember(p) ==> |p| >= COMMON_HEADER
  {
  }

  /** The builder accepts exactly the acceptable lists, and joins them. */
  lemma CompoundIff(ps: seq<seq<Byte>>, maximum: nat)
    ensures Compound(ps, maximum) == Ok(Flat(ps)) <==> Acceptable(ps, maximum)
    ensures Compound(ps, maximum).Ok? <==> Acceptable(ps, maximum)
  {
    hide ValidMember, HasPadding, IsReport, Walk;
    if ps != [] {
      assert ps[0..] == ps;
      WalkIff(ps, maximum, 0, 0, false);
      forall i | 0 <= i < |ps|
        ensures ValidMember(ps[i]) ==> |ps[i]| >= COMMON_HEADER
      {
        MemberNotEmpty(ps[i]);
      }
      if Acceptable(ps, maximum) {
        var k :| 0 <= k < |ps| && ps[k][1] == SDES;
        assert ValidMember(ps[k]);
      }
    }
  }

  method BuildCompound(ps: seq<seq<Byte>>, maximum: nat) returns (r: Result<seq<Byte>, BuildError>)
    ensures r == Compound(ps, maximum)
  {
    hide ValidMember, HasPadding;
    if ps == [] {
      return Err(NoMembers);
    }
    if maximum < COMMON_HEADER {
      return Err(MaximumTooSmall);
    }
    var total: nat, sdes := 0, false;
    for i := 0 to |ps|
      invariant Walk(ps, maximum, i, total, sdes) == Walk(ps, maximum, 0, 0, false)
    {
      MemberNotEmpty(ps[i]);
      if !ValidMember(ps[i]) {
        return Err(BadMember);
      }
      if i == 0 && !IsReport(ps[i][1]) {
        return Err(NoReportFirst);
      }
      if HasPadding(ps[i]) && i + 1 != |ps| {
        return Err(PaddingInside);
      }
      sdes := sdes || ps[i][1] == SDES;
      if total > maximum || |ps[i]| > maximum - total {
        return Err(TooLarge);
      }
      total := total + |ps[i]|;
    }
    if !sdes {
      return Err(NoSdes);
    }
    var joined := Join(ps);
    return Ok(joined);
  }

  method Join(ps: seq<seq<Byte>>) returns (joined: seq<Byte>)
    ensures joined == Flat(ps)
  {
    joined := [];
    assert ps[0..] == ps;
    for i := 0 to |ps|
      invariant joined + Flat(ps[i..]) == Flat(ps)
    {
      assert ps[i..][1..] == ps[i + 1..];
      assert joined + (ps[i] + Flat(ps[i + 1..])) == joined + ps[i] + Flat(ps[i + 1..]);
      joined := joined + ps[i];
    }
  }

  // ----- reading a compound back -----

  lemma FrontOf(p: seq<Byte>, rest: seq<Byte>, block: Block)
    requires ValidMember(p) && ParseMember(p) == Ok(block) && (HasPadding(p) ==> rest == [])
    ensures ParseFront(p + rest) == Ok(block) && block.header.size == |p|
  {
    hide ParseContent;
    var data := p + rest;
    assert data[..|p|] == p;
    HeaderOfPrefix(data, |p|);
  }

  /** Members that read as blocks one by one read as those blocks, in order, when joined. */
  lemma {:induction false} JoinedReadsBack(ps: seq<seq<Byte>>, blocks: seq<Block>)
    requires |ps| == |blocks|
    requires forall i :: 0 <= i < |ps| ==> ValidMember(ps[i]) && ParseMember(ps[i]) == Ok(blocks[i])
    requires forall i :: 0 <= i < |ps| - 1 ==> !HasPadding(ps[i])
    ensures ParseBlocks(Flat(ps)) == Ok(blocks)
    decreases |ps|
  {
    hide ParseMember, ParseFront, HasPadding, ValidMember;
    if ps != [] {
      var rest := Flat(ps[1..]);
      assert |ps| == 1 ==> rest == [];
      FrontOf(ps[0], rest, blocks[0]);
      MemberNotEmpty(ps[0]);
      JoinedReadsBack(ps[1..], blocks[1..]);
      assert (ps[0] + rest)[|ps[0]|..] == rest;
      assert [blocks[0]] + blocks[1..] == blocks;
    }
  }

  /** Whatever the compound builder accepts is read back as one block per member, in order. */
  lemma CompoundRoundTrip(ps: seq<seq<Byte>>, maximum: nat, blocks: seq<Block>)
    requires Compound(ps, maximum).Ok? && |ps| == |blocks|
    requires forall i :: 0 <= i < |ps| ==> ParseMember(ps[i]) == Ok(blocks[i])
    ensures |Compound(ps, maximum).value| <= maximum
    ensures ParseCompound(Compound(ps, maximum).value) == Ok(blocks)
  {
    hide ParseMember, HasPadding, ValidMember, Compound, ParseBlocks;
    CompoundIff(ps, maximum);
    JoinedReadsBack(ps, blocks);
    MemberNotEmpty(ps[0]);
  }

  lemma WrittenIsMember(m: Message)
    requires Refusal(m).None?
    ensures ValidMember(Written(m)) && !HasPadding(Written(m)) && Written(m)[1] == TypeOf(m)
  {
    hide Refusal, BodyOf, CountOf;
    HeaderReadsBack(CountOf(m), TypeOf(m), BodyOf(m));
    hide ReadU32;
  }

  ghost function AllWritten(ms: seq<Message>): (r: seq<seq<Byte>>)
    requires forall i :: 0 <= i < |ms| ==> Refusal(ms[i]).None?
    ensures |r| == |ms|
  {
    seq(|ms|, i requires 0 <= i < |ms| => Written(ms[i]))
  }

  ghost function AllBlocks(ms: seq<Message>): (r: seq<Block>)
    requires forall i :: 0 <= i < |ms| ==> Refusal(ms[i]).None?
    ensures |r| == |ms|
  {
    seq(|ms|, i requires 0 <= i < |ms| => BlockOf(ms[i]))
  }

  /** A compound of the relay's own messages gives every message back. */
  lemma MessagesRoundTrip(ms: seq<Message>, maximum: nat)
    requires (forall i :: 0 <= i < |ms| ==> Refusal(ms[i]).None?) && Compound(AllWritten(ms), maximum).Ok?
    ensures ParseCompound(Compound(AllWritten(ms), maximum).value) == Ok(AllBlocks(ms))
  {
    hide Refusal, Written, BlockOf, Compound, ParseCompound, ParseMember;
    forall i | 0 <= i < |ms|
      ensures ParseMember(AllWritten(ms)[i]) == Ok(AllBlocks(ms)[i])
    {
      MemberRoundTrip(ms[i]);
    }
    CompoundRoundTrip(AllWritten(ms), maximum, AllBlocks(ms));
  }

  // ----- feedback datagrams -----

  function FeedbackRefusal(feedback: seq<Byte>, sender: U32): Option<BuildError> {
    if sender == 0 then Some(ZeroSsrc)
    else if !ValidMember(feedback) then Some(BadMember)
    else if !IsFeedback(feedback[1]) then Some(NotFeedback)
    else if |feedback| < FEEDBACK_HEADER || ReadU32(feedback, 4) != sender then Some(SenderMismatch)
    else None
  }

  /** Feedback is taken over exactly when it is one whole feedback packet of this sender. */
  lemma FeedbackTakenIff(feedback: seq<Byte>, sender: U32)
    ensures FeedbackRefusal(feedback, sender).None? <==>
              && sender != 0 && ValidMember(feedback) && (feedback[1] == TRANSPORT_FEEDBACK || feedback[1] == PAYLOAD_FEEDBACK)
              && |feedback| >= FEEDBACK_HEADER && ReadU32(feedback, 4) == sender
  {
    hide ValidMember, ReadU32;
  }

  function FeedbackDatagram(feedback: seq<Byte>, sender: U32, cname: seq<Byte>, reducedSize: bool, maximum: nat): Result<seq<Byte>, BuildError> {
    match FeedbackRefusal(feedback, sender)
    case Some(e) => Err(e)
    case None =>
      if reducedSize then if |feedback| > maximum then Err(TooLarge) else Ok(feedback)
      else
        var report, name := ReceiverReport(sender, []), CanonicalName(sender, cname);
        if Refusal(report).Some? then Err(Refusal(report).value)
        else if Refusal(name).Some? then Err(Refusal(name).value)
        else Compound([Written(report), Written(name), feedback], maximum)
  }

  /** A reduced-size datagram is the feedback itself, whenever it is taken over and fits. */
  lemma ReducedIff(feedback: seq<Byte>, sender: U32, cname: seq<Byte>, maximum: nat)
    ensures var r := FeedbackDatagram(feedback, sender, cname, true, maximum);
            (r.Ok? <==> FeedbackRefusal(feedback, sender).None? && |feedback| <= maximum) && (r.Ok? ==> r.value == feedback)
  {
    hide FeedbackRefusal;
  }

  function DatagramSize(feedback: seq<Byte>, cname: seq<Byte>): nat {
    8 + RoundUp4(11 + |cname|) + |feedback|
  }

  lemma FlatThree(a: seq<Byte>, b: seq<Byte>, c: seq<Byte>)
    ensures Flat([a, b, c]) == a + b + c
  {
    assert [a, b, c][1..] == [b, c] && [b, c][1..] == [c] && [c][1..] == [];
    assert Flat([c]) == c;
    assert Flat([b, c]) == b + c;
    assert a + (b + c) == a + b + c;
  }

  lemma EmptyReportSize(sender: U32)
    requires sender != 0
    ensures Refusal(ReceiverReport(sender, [])).None? && |Written(ReceiverReport(sender, []))| == 8
  {
  }

  lemma NameSize(sender: U32, cname: seq<Byte>)
    requires Refusal(CanonicalName(sender, cname)).None?
    ensures |Written(CanonicalName(sender, cname))| == RoundUp4(11 + |cname|)
  {
  }

  /** A full feedback datagram is built exactly when the name is usable and the whole fits the maximum. */
  lemma DatagramIff(feedback: seq<Byte>, sender: U32, cname: seq<Byte>, maximum: nat)
    requires FeedbackRefusal(feedback, sender).None?
    ensures FeedbackDatagram(feedback, sender, cname, false, maximum).Ok? <==>
            1 <= |cname| <= 255 && DatagramSize(feedback, cname) <= maximum
  {
    hide Written, Compound, HasPadding, ValidMember, ReadU32;
    var report, name := ReceiverReport(sender, []), CanonicalName(sender, cname);
    EmptyReportSize(sender);
    WrittenIsMember(report);
    if 1 <= |cname| <= 255 {
      NameSize(sender, cname);
      WrittenIsMember(name);
      var ps := [Written(report), Written(name), feedback];
      FlatThree(Written(report), Written(name), feedback);
      CompoundIff(ps, maximum);
      assert ps[1][1] == SDES;
    }
  }

  /** The relay's limits fit: feedback of at most 1000 bytes and a name of at most 181 bytes make a 1200-byte datagram. */
  lemma FeedbackFitsDatagram(feedback: seq<Byte>, sender: U32, cname: seq<Byte>)
    requires FeedbackRefusal(feedback, sender).None? && |feedback| <= 1000 && 1 <= |cname| <= 181
    ensures FeedbackDatagram(feedback, sender, cname, false, 1200).Ok?
  {
    hide FeedbackDatagram, FeedbackRefusal;
    DatagramIff(feedback, sender, cname, 1200);
  }

  lemma LongerNameDoesNotFit(feedback: seq<Byte>, sender: U32, cname: seq<Byte>)
    requires FeedbackRefusal(feedback, sender).None? && |feedback| == 1000 && |cname| > 181
    ensures FeedbackDatagram(feedback, sender, cname, false, 1200).Err?
  {
    hide FeedbackDatagram, FeedbackRefusal;
    DatagramIff(feedback, sender, cname, 1200);
  }

  /** Every transport-wide feedback packet that parses is a feedback member of a compound. */
  lemma TransportFeedbackIsMember(data: seq<Byte>)
    requires TF.Parse(data).Ok?
    ensures var f := TF.Parse(data).value;
            && ValidMember(data) && |data| >= FEEDBACK_HEADER && IsFeedback(data[1])
            && ReadU32(data, 4) == f.header.senderSsrc
            && ParseMember(data).Ok? && ParseMember(data).value.content == FeedbackMessage(f.header.senderSsrc, f.header.mediaSsrc, TransportCc(f))
  {
    hide TF.ParseChunks, TF.ParseDeltas, ReadU32, ReadU16, ReadU24;
  }

  /** From generator to reader: the feedback inside a datagram is the feedback that was written. */
  lemma FeedbackDatagramReadsBack(h: TF.Header, es: seq<TF.Entry>, cname: seq<Byte>)
    requires |es| <= TF.MAX_PARSED_STATUSES && h.senderSsrc != 0 && |TF.Encoded(h, es)| <= 1000 && 1 <= |cname| <= 181
    ensures var datagram := FeedbackDatagram(TF.Encoded(h, es), h.senderSsrc, cname, false, 1200);
            datagram.Ok? && ParseCompound(datagram.value).Ok? &&
            var blocks := ParseCompound(datagram.value).value;
            && |blocks| == 3
            && blocks[0].content == Report(h.senderSsrc, None, [])
            && blocks[1].content == Description([Chunk(h.senderSsrc, [Item(1, cname)])])
            && blocks[2].content == FeedbackMessage(h.senderSsrc, h.mediaSsrc, TransportCc(TF.Parsed(h, |es|, TF.StatusesOf(h.baseSequence, es))))
  {
    hide TF.Encoded, TF.Parse, ParseMember, ParseCompound, Compound, Written, ValidMember, TF.StatusesOf, ReadU32;
    var data := TF.Encoded(h, es);
    TF.RoundTrip(h, es);
    TransportFeedbackIsMember(data);
    FeedbackFitsDatagram(data, h.senderSsrc, cname);
    var report, name := ReceiverReport(h.senderSsrc, []), CanonicalName(h.senderSsrc, cname);
    MemberRoundTrip(report);
    MemberRoundTrip(name);
    CompoundRoundTrip([Written(report), Written(name), data], 1200, [BlockOf(report), BlockOf(name), ParseMember(data).value]);
  }

  method BuildFeedbackDatagram(feedback: seq<Byte>, sender: U32, cname: seq<Byte>, reducedSize: bool, maximum: nat) returns (r: Result<seq<Byte>, BuildError>)
    ensures r == FeedbackDatagram(feedback, sender, cname, reducedSize, maximum)
  {
    hide Written, Compound, ValidMember, Refusal;
    var refusal := FeedbackRefusal(feedback, sender);
    if refusal.Some? {
      return Err(refusal.value);
    }
    if reducedSize {
      if |feedback| > maximum {
        return Err(TooLarge);
      }
      return Ok(feedback);
    }
    var report := BuildReceiverReport(ReceiverReport(sender, []));
    var name := BuildCname(CanonicalName(sender, cname));
    if report.Err? {
      return report;
    }
    if name.Err? {
      return name;
    }
    r := BuildCompound([report.value, name.value, feedback], maximum);
  }

  // ----- goodbye datagrams -----

  function ByeDatagramRefusal(report: seq<Byte>, participant: U32, cname: seq<Byte>): Option<BuildError> {
    if participant == 0 then Some(ZeroSsrc)
    else if cname == [] then Some(EmptyCname)
    else if !ValidMember(report) then Some(BadMember)
    else if !IsReport(report[1]) || |report| < 8 || ReadU32(report, 4) != participant then Some(SenderMismatch)
    else None
  }

  /** A goodbye goes behind exactly a whole report of the participant, who has a name. */
  lemma ByeTakenIff(report: seq<Byte>, participant: U32, cname: seq<Byte>)
    ensures ByeDatagramRefusal(report, participant, cname).None? <==>
              && participant != 0 && cname != [] && ValidMember(report) && (report[1] == SENDER_REPORT || report[1] == RECEIVER_REPORT)
              && |report| >= 8 && ReadU32(report, 4) == participant
  {
    hide ValidMember, ReadU32;
  }

  function ByeDatagram(report: seq<Byte>, participant: U32, cname: seq<Byte>, ssrcs: seq<U32>, reason: seq<Byte>, maximum: nat): Result<seq<Byte>, BuildError> {
    match ByeDatagramRefusal(report, participant, cname)
    case Some(e) => Err(e)
    case None =>
      var name, bye := CanonicalName(participant, cname), Farewell(ssrcs, reason);
      if Refusal(name).Some? then Err(Refusal(name).value)
      else if Refusal(bye).Some? then Err(Refusal(bye).value)
      else Compound([report, Written(name), Written(bye)], maximum)
  }

  method BuildByeDatagram(report: seq<Byte>, participant: U32, cname: seq<Byte>, ssrcs: seq<U32>, reason: seq<Byte>, maximum: nat)
    returns (r: Result<seq<Byte>, BuildError>)
    ensures r == ByeDatagram(report, participant, cname, ssrcs, reason, maximum)
  {
    hide Written, Compound, ValidMember, Refusal;
    var refusal := ByeDatagramRefusal(report, participant, cname);
    if refusal.Some? {
      return Err(refusal.value);
    }
    var name := BuildCname(CanonicalName(participant, cname));
    var bye := BuildBye(Farewell(ssrcs, reason));
    if name.Err? {
      return name;
    }
    if bye.Err? {
      return bye;
    }
    r := BuildCompound([report, name.value, bye.value], maximum);
  }

  /** A goodbye datagram around the relay's own report gives report, name, SSRCs and reason back. */
  lemma ByeDatagramReadsBack(m: Message, cname: seq<Byte>, ssrcs: seq<U32>, reason: seq<Byte>, maximum: nat)
    requires (m.SenderReport? || m.ReceiverReport?) && Refusal(m).None?
    requires ByeDatagram(Written(m), m.sender, cname, ssrcs, reason, maximum).Ok?
    ensures var name, bye := CanonicalName(m.sender, cname), Farewell(ssrcs, reason);
            && Refusal(name).None? && Refusal(bye).None?
            && ParseCompound(ByeDatagram(Written(m), m.sender, cname, ssrcs, reason, maximum).value) == Ok([BlockOf(m), BlockOf(name), BlockOf(bye)])
  {
    hide ParseMember, ParseCompound, Compound, Written, ValidMember, Refusal, BlockOf;
    var name, bye := CanonicalName(m.sender, cname), Farewell(ssrcs, reason);
    MemberRoundTrip(m);
    MemberRoundTrip(name);
    MemberRoundTrip(bye);
    CompoundRoundTrip([Written(m), Written(name), Written(bye)], maximum, [BlockOf(m), BlockOf(name), BlockOf(bye)]);
  }
}
