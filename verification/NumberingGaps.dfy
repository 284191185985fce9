/**
 Two runs with a gap in the numbers that come out: a forwarded packet that needs two-byte extensions
 its subscriber did not allow, and a retransmission of a packet that has no transport-wide extension.
 */
module NumberingGaps {
  import opened Wire
  import HE = HeaderExtensions
  import opened RtpPacket
  import opened RewriterMedia
  import opened ExtensionRewriting
  import opened RewrittenPacket
  import opened RtxEncapsulation
  import opened RtpRewriter
  import opened RewriterInvariant
  import opened RewriterRuns
  import opened EmittedNumbers

  /** A packet without payload. */
  ghost function Plain(payloadType: Byte, ssrc: U32, es: seq<HE.Extension>): seq<Byte>
    requires payloadType < 64 || 96 <= payloadType < 128
    requires HE.FitsTwoByte(es) && |HE.BlockPayload(es)| / 4 < 0x1_0000
  {
    Assemble(if es == [] then 0x80 else 0x90, payloadType, 0, 0, ssrc, [], BlockBytes(es), [])
  }

  lemma PlainParses(payloadType: Byte, ssrc: U32, es: seq<HE.Extension>)
    requires payloadType < 64 || 96 <= payloadType < 128
    requires HE.FitsTwoByte(es) && |HE.BlockPayload(es)| / 4 < 0x1_0000
    ensures ParseRewriteable(Plain(payloadType, ssrc, es)) ==
            Ok(Parsed(Header(false, payloadType, 0, 0, ssrc), false, 12, 12 + |BlockBytes(es)|, 0, es))
  {
    hide ParseRewriteable, Assemble, BlockBytes, HE.BlockPayload, HE.FitsTwoByte;
    AssembledReadsBack(if es == [] then 0x80 else 0x90, payloadType, 0, 0, ssrc, [], es, []);
  }

  lemma OneElementFits(e: HE.Extension)
    requires 1 <= e.id && |e.value| <= 255
    ensures HE.FitsTwoByte([e]) && |HE.BlockPayload([e])| / 4 < 0x1_0000
    ensures HE.FitsTwoByte([]) && |HE.BlockPayload([])| / 4 < 0x1_0000
  {
    hide HE.BlockPayload;
    BlockBound([e]);
    BlockBound([]);
  }

  /** One media and nothing else, `n` numbers given so far. */
  ghost predicate Alone(s: State, hs: seq<History>, m: Mapping, x: Stream, n: nat) {
    && Inv(s, hs) && |hs| == |s.media| == 1 && s.available && s.media[0].mapping == m
    && Configured(s.media) && GivenSoFar(s.media, hs, x, n)
  }

  /** With one media, every packet of a payload type it maps goes there. */
  lemma OneMediaRoutes(s: State, q: Parsed, payload: PayloadMapping)
    requires |s.media| == 1 && PayloadFor(s.media[0].mapping, q.header.payloadType) == Some(payload)
    ensures RouteOf(s, q) == Some(Route(0, payload))
  {
    hide PayloadFor, MidMatches, FirstIndex;
    var byMid := OnlyIndex(s.media, (m: Media) => MidMatches(m.mapping, q));
    var byType := OnlyIndex(s.media, (m: Media) => PayloadFor(m.mapping, q.header.payloadType).Some?);
    assert PayloadFor(s.media[0].mapping, q.header.payloadType).Some?;
    assert byType == Some(0);
  }

  lemma ConfiguredAlone(m: Mapping, session: string, x: Stream)
    requires WellFormed(m) && IsMedia(m, x) && TargetSsrc(m, x.rtx) == x.ssrc
    ensures Inv(FRESH, []) && EventOk(Configure(Config(session, [m]))) && KeepsStream(Config(session, [m]), x)
    ensures var e := Configure(Config(session, [m]));
            Alone(Next(FRESH, e).state, NextHistories(FRESH, [], e), m, x, 0) && Next(FRESH, e).given.None?
  {
    hide WellFormed, GivenSoFar, Inv;
    FreshInv();
    var c := Config(session, [m]);
    var e := Configure(c);
    assert KeepsStream(c, x) by {
      assert IsMedia(c.media[0], x);
    }
    NothingGiven(x);
    NextInv(FRESH, [], e);
    NextCounts(FRESH, [], e, x, 0);
    InvShape(Next(FRESH, e).state, NextHistories(FRESH, [], e));
    CarriedMapping([], m, false);
  }

  lemma NothingGiven(x: Stream)
    ensures GivenSoFar([], [], x, 0)
  {
  }

  /** One forwarded or retransmitted packet of the stream, and what came out. */
  lemma OneAttempt(s: State, hs: seq<History>, e: Event, m: Mapping, x: Stream, n: nat)
    requires Alone(s, hs, m, x, n) && (e.Forward? || e.Retransmit?) && NumberGiven(Next(s, e).given, x) != []
    requires Next(s, e).state.available && |Next(s, e).state.media| == 1 && Next(s, e).state.media[0].mapping == m
    ensures Alone(Next(s, e).state, NextHistories(s, hs, e), m, x, n + 1)
    ensures NumberGiven(Next(s, e).given, x) == [NthNumber(x, n)]
    ensures Next(s, e).outcome.Emitted? <==> !Fails(s, e)
  {
    hide Inv, GivenSoFar, Configured, Next, NextHistories, Fails, NthNumber;
    NextInv(s, hs, e);
    NextCounts(s, hs, e, x, n);
    InvShape(Next(s, e).state, NextHistories(s, hs, e));
    EmitsIff(s, e);
  }

  lemma ProducedStep(s: State, hs: seq<History>, e: Event, rest: seq<Event>, x: Stream)
    requires Inv(s, hs) && RunOk([e] + rest, x) && RunOk(rest, x)
    ensures Configured(s.media) && |hs| == |s.media| && Inv(Next(s, e).state, NextHistories(s, hs, e))
    ensures Produced(s, hs, [e] + rest, x) ==
            (if Next(s, e).outcome.Emitted? then NumberGiven(Next(s, e).given, x) else [])
            + Produced(Next(s, e).state, NextHistories(s, hs, e), rest, x)
  {
    hide Inv, Next, NextHistories, KeepsStream;
    assert ([e] + rest)[1..] == rest && ([e] + rest)[0] == e;
    NextInv(s, hs, e);
  }

  lemma NothingProduced(s: State, hs: seq<History>, x: Stream)
    requires Inv(s, hs)
    ensures RunOk([], x) && Produced(s, hs, [], x) == []
  {
  }

  /** Good, bad, good: the numbers on either side of the failure are two apart. */
  lemma GapBetween(s: State, hs: seq<History>, good: Event, bad: Event, m: Mapping, x: Stream)
    requires Alone(s, hs, m, x, 0) && IsAttempt(good, m, x, true) && IsAttempt(bad, m, x, false)
    ensures RunOk([good] + ([bad] + ([good] + [])), x)
    ensures Produced(s, hs, [good] + ([bad] + ([good] + [])), x) == [NthNumber(x, 0), NthNumber(x, 2)]
  {
    hide Inv, GivenSoFar, Configured, Next, NextHistories, Fails, NthNumber, Alone, IsAttempt, KeepsStream;
    AttemptStep(s, hs, good, m, x, 0, true);
    var s1, h1 := Next(s, good).state, NextHistories(s, hs, good);
    AttemptStep(s1, h1, bad, m, x, 1, false);
    var s2, h2 := Next(s1, bad).state, NextHistories(s1, h1, bad);
    AttemptStep(s2, h2, good, m, x, 2, true);
    var s3, h3 := Next(s2, good).state, NextHistories(s2, h2, good);
    NothingProduced(s3, h3, x);
    assert RunOk([good] + [], x) && RunOk([bad] + ([good] + []), x) && RunOk([good] + ([bad] + ([good] + [])), x);
    hide RunOk, Produced;
    ProducedStep(s2, h2, good, [], x);
    ProducedStep(s1, h1, bad, [good] + [], x);
    ProducedStep(s, hs, good, [bad] + ([good] + []), x);
  }

  /** In this state the event takes a number of the stream, and succeeds or fails as said. */
  ghost predicate Attempted(s: State, e: Event, m: Mapping, x: Stream, succeeds: bool)
    requires Configured(s.media)
  {
    var effect := Next(s, e);
    && NumberGiven(effect.given, x) != [] && (Fails(s, e) <==> !succeeds)
    && effect.state.available && |effect.state.media| == 1 && effect.state.media[0].mapping == m
  }

  /** The same in every state in which the media is alone. */
  ghost predicate IsAttempt(e: Event, m: Mapping, x: Stream, succeeds: bool) {
    && (e.Forward? || e.Retransmit?)
    && forall s, hs, n :: Alone(s, hs, m, x, n) ==> Attempted(s, e, m, x, succeeds)
  }

  lemma AttemptStep(s: State, hs: seq<History>, e: Event, m: Mapping, x: Stream, n: nat, succeeds: bool)
    requires Alone(s, hs, m, x, n) && IsAttempt(e, m, x, succeeds)
    ensures EventOk(e) && !e.Configure? && Inv(s, hs) && |hs| == |s.media| && Configured(s.media)
    ensures Alone(Next(s, e).state, NextHistories(s, hs, e), m, x, n + 1) && Inv(Next(s, e).state, NextHistories(s, hs, e))
    ensures (if Next(s, e).outcome.Emitted? then NumberGiven(Next(s, e).given, x) else []) == if succeeds then [NthNumber(x, n)] else []
  {
    hide Inv, GivenSoFar, Configured, Next, NextHistories, Fails, NthNumber;
    OneAttempt(s, hs, e, m, x, n);
  }

  // ----- a forwarded packet is lost -----

  const AUDIO: PayloadMapping := PayloadMapping(111, 111, 48000, false, false, 0)

  /** One copied extension, one-byte format only. */
  const STRICT: Mapping := Mapping("audio", [], [], 7, 0, false, 0, [AUDIO], [ExtensionMapping(1, 1, OtherUri("level"))])

  const AUDIO_STREAM: Stream := Stream("audio", 7, false, 7)

  lemma StrictIsWellFormed()
    ensures WellFormed(STRICT) && IsMedia(STRICT, AUDIO_STREAM) && TargetSsrc(STRICT, false) == 7
    ensures PayloadFor(STRICT, 111) == Some(AUDIO)
  {
    assert STRICT.payloadTypes[0] == AUDIO;
  }

  /** The value of the only extension is copied, whatever its length. */
  lemma StrictRewrites(value: seq<Byte>)
    requires |value| <= 255
    ensures RewriteExtensions(STRICT, [], 0) == Some([])
    ensures RewriteExtensions(STRICT, [HE.Extension(1, value)], 0) == Some([HE.Extension(1, value)])
  {
    var e := HE.Extension(1, value);
    assert MidMapping(STRICT.extensions[1..]).None?;
    assert MidMapping(STRICT.extensions).None?;
    assert Target(STRICT, e) == Some(e);
    var used: set<Byte> := {};
    assert [e][1..] == [] && Copied(STRICT, [], used + {e.id}) == Some([]);
    assert Copied(STRICT, [e], used) == Some([e] + []);
    assert [e] + [] == [e] && used == {};
    assert Copied(STRICT, [e], {}) == Some([e]);
    assert Sorted([]) == [] && Sorted([e]) == [e];
  }

  lemma StrictNeeds(q: Parsed, value: seq<Byte>)
    requires |value| <= 255 && (q.extensions == [] || q.extensions == [HE.Extension(1, value)])
    ensures NeedsTwoByte(STRICT, q, 0) <==> q.extensions != [] && !(1 <= |value| <= 16)
  {
    StrictRewrites(value);
    hide RewriteExtensions;
    var es := [HE.Extension(1, value)];
    assert HE.FitsOneByte(es) <==> 1 <= es[0].id < 15 && 1 <= |es[0].value| <= 16;
  }

  lemma AudioAttempt(es: seq<HE.Extension>, value: seq<Byte>, succeeds: bool)
    requires |value| <= 255 && (es == [] || es == [HE.Extension(1, value)])
    requires succeeds <==> es == [] || 1 <= |value| <= 16
    ensures HE.FitsTwoByte(es) && |HE.BlockPayload(es)| / 4 < 0x1_0000
    ensures IsAttempt(Forward(Plain(111, 5, es), 0), STRICT, AUDIO_STREAM, succeeds)
  {
    hide HE.BlockPayload, HE.FitsTwoByte, Plain, ParseRewriteable, InspectLayout, NeedsTwoByte, PayloadFor;
    OneElementFits(HE.Extension(1, value));
    PlainParses(111, 5, es);
    StrictIsWellFormed();
    var p := Plain(111, 5, es);
    var q := ParseRewriteable(p).value;
    StrictNeeds(q, value);
    hide Attempted, WellFormed;
    forall s, hs, n | Alone(s, hs, STRICT, AUDIO_STREAM, n)
      ensures Attempted(s, Forward(p, 0), STRICT, AUDIO_STREAM, succeeds)
    {
      AudioAttempted(s, hs, p, q, n, succeeds);
    }
  }

  lemma AudioAttempted(s: State, hs: seq<History>, p: seq<Byte>, q: Parsed, n: nat, succeeds: bool)
    requires Alone(s, hs, STRICT, AUDIO_STREAM, n) && ParseRewriteable(p) == Ok(q) && q.header.payloadType == 111
    requires succeeds <==> !NeedsTwoByte(STRICT, q, 0)
    ensures Attempted(s, Forward(p, 0), STRICT, AUDIO_STREAM, succeeds)
  {
    hide ParseRewriteable, NeedsTwoByte, Forwarded, ForwardFails, Inv, GivenSoFar, WellFormed;
    AudioStep(s, hs, p, q, n);
  }

  lemma AudioStep(s: State, hs: seq<History>, p: seq<Byte>, q: Parsed, n: nat)
    requires Alone(s, hs, STRICT, AUDIO_STREAM, n) && ParseRewriteable(p) == Ok(q) && q.header.payloadType == 111
    ensures var effect := Forwarded(s, p, 0);
            && NumberGiven(effect.given, AUDIO_STREAM) != [] && effect.state.available
            && |effect.state.media| == 1 && effect.state.media[0].mapping == STRICT
    ensures ForwardFails(s, p, 0) <==> NeedsTwoByte(STRICT, q, 0)
  {
    hide ParseRewriteable, InspectLayout, WellFormed, NeedsTwoByte, Inv, GivenSoFar, PayloadFor, RouteOf, Timed, Allocated, Built, OriginalFor, Begun, SourceChanged;
    StrictIsWellFormed();
    OneMediaRoutes(s, q, AUDIO);
    ForwardedIsSent(s, p, q, Route(0, AUDIO), 0);
    TimedMapping(Bound(s, q, Route(0, AUDIO)).media[0], q.header.timestamp);
  }

  lemma TimedMapping(m: Media, timestamp: U32)
    ensures Timed(Allocated(m, false).0, timestamp).0.mapping == m.mapping
  {
    hide InitialSequence;
  }

  /**
   Configured without two-byte extensions, the rewriter forwards a packet, fails on one whose copied
   extension has 17 bytes, and forwards another: the two that come out are two numbers apart.
   */
  lemma ForwardingGap(first: Event, bad: Event, good: Event)
    requires HE.FitsTwoByte([]) && |HE.BlockPayload([])| / 4 < 0x1_0000
    requires HE.FitsTwoByte([HE.Extension(1, Zeros(17))]) && |HE.BlockPayload([HE.Extension(1, Zeros(17))])| / 4 < 0x1_0000
    requires first == Configure(Config("publisher", [STRICT]))
    requires good == Forward(Plain(111, 5, []), 0) && bad == Forward(Plain(111, 5, [HE.Extension(1, Zeros(17))]), 0)
    ensures Inv(FRESH, []) && RunOk([first] + ([good] + ([bad] + ([good] + []))), AUDIO_STREAM)
    ensures var i := InitialSequence(7);
            Produced(FRESH, [], [first] + ([good] + ([bad] + ([good] + []))), AUDIO_STREAM) == [i, (i + 2) % 0x1_0000]
  {
    hide Plain, HE.BlockPayload, HE.FitsTwoByte, Inv, Alone, IsAttempt, Produced, Next, NextHistories, KeepsStream, WellFormed, InitialSequence;
    StrictIsWellFormed();
    AudioAttempt([], [], true);
    AudioAttempt([HE.Extension(1, Zeros(17))], Zeros(17), false);
    ConfiguredAlone(STRICT, "publisher", AUDIO_STREAM);
    GapBetween(Next(FRESH, first).state, NextHistories(FRESH, [], first), good, bad, STRICT, AUDIO_STREAM);
    var rest := [good] + ([bad] + ([good] + []));
    assert RunOk([first] + rest, AUDIO_STREAM);
    hide RunOk;
    ProducedStep(FRESH, [], first, rest, AUDIO_STREAM);
  }

  // ----- a retransmission is lost -----

  const VIDEO: PayloadMapping := PayloadMapping(96, 96, 90000, false, true, 0)
  const REPAIR: PayloadMapping := PayloadMapping(97, 97, 90000, true, false, 96)

  /** RTX and a transport-wide number under id 3. */
  const REPAIRED: Mapping := Mapping("video", [], [], 7, 8, true, 3, [VIDEO, REPAIR], [])

  const RTX_STREAM: Stream := Stream("video", 7, true, 8)

  lemma RepairedIsWellFormed()
    ensures WellFormed(REPAIRED) && IsMedia(REPAIRED, RTX_STREAM) && TargetSsrc(REPAIRED, true) == 8
    ensures PrimaryFor(REPAIRED, 96) == Some(VIDEO) && RtxFor(REPAIRED, 96) == Some(REPAIR)
  {
    assert REPAIRED.payloadTypes[0] == VIDEO && REPAIRED.payloadTypes[1] == REPAIR;
    assert REPAIRED.payloadTypes[1..][0] == REPAIR;
  }

  lemma TransportIff(p: seq<Byte>, q: Parsed)
    requires ParseRewriteable(p) == Ok(q) && (q.extensions == [] || q.extensions == [HE.Extension(3, [0, 0])])
    ensures TransportWritten(p, 3, 0).Err? <==> q.extensions == []
  {
    hide ParseRewriteable, InspectLayout, FindExtension, Patched;
    FinderAgreesWithParser(p, 3);
    assert [HE.Extension(3, [0, 0])][0].id == 3;
  }

  lemma RepairStep(s: State, hs: seq<History>, p: seq<Byte>, q: Parsed, n: nat)
    requires Alone(s, hs, REPAIRED, RTX_STREAM, n) && ParseRewriteable(p) == Ok(q) && q.header.payloadType == 96 && q.header.ssrc == 7
    ensures var effect := Retransmitted(s, p, 0);
            && NumberGiven(effect.given, RTX_STREAM) != [] && effect.state.available
            && |effect.state.media| == 1 && effect.state.media[0].mapping == REPAIRED
    ensures RetransmitFails(s, p, 0) <==> TransportWritten(p, 3, 0).Err?
  {
    hide ParseRewriteable, InspectLayout, WellFormed, Inv, GivenSoFar, PrimaryFor, RtxFor, Encapsulated, TransportWritten, InitialSequence;
    RepairedIsWellFormed();
    assert MediaFor(s.media, 7) == 0;
  }

  lemma RepairAttempt(es: seq<HE.Extension>, succeeds: bool)
    requires (es == [] || es == [HE.Extension(3, [0, 0])]) && (succeeds <==> es != [])
    ensures HE.FitsTwoByte(es) && |HE.BlockPayload(es)| / 4 < 0x1_0000
    ensures IsAttempt(Retransmit(Plain(96, 7, es), 0), REPAIRED, RTX_STREAM, succeeds)
  {
    hide HE.BlockPayload, HE.FitsTwoByte, Plain, ParseRewriteable, InspectLayout, TransportWritten;
    OneElementFits(HE.Extension(3, [0, 0]));
    PlainParses(96, 7, es);
    var p := Plain(96, 7, es);
    var q := ParseRewriteable(p).value;
    TransportIff(p, q);
    hide Attempted, WellFormed;
    forall s, hs, n | Alone(s, hs, REPAIRED, RTX_STREAM, n)
      ensures Attempted(s, Retransmit(p, 0), REPAIRED, RTX_STREAM, succeeds)
    {
      RepairAttempted(s, hs, p, q, n, succeeds);
    }
  }

  lemma RepairAttempted(s: State, hs: seq<History>, p: seq<Byte>, q: Parsed, n: nat, succeeds: bool)
    requires Alone(s, hs, REPAIRED, RTX_STREAM, n) && ParseRewriteable(p) == Ok(q) && q.header.payloadType == 96 && q.header.ssrc == 7
    requires succeeds <==> TransportWritten(p, 3, 0).Ok?
    ensures Attempted(s, Retransmit(p, 0), REPAIRED, RTX_STREAM, succeeds)
  {
    hide ParseRewriteable, TransportWritten, Retransmitted, RetransmitFails, Inv, GivenSoFar, WellFormed;
    RepairStep(s, hs, p, q, n);
  }

  /** The same for RTX: a retransmission whose packet has no transport-wide extension takes a number and yields no packet. */
  lemma RetransmissionGap(first: Event, bad: Event, good: Event)
    requires HE.FitsTwoByte([]) && |HE.BlockPayload([])| / 4 < 0x1_0000
    requires HE.FitsTwoByte([HE.Extension(3, [0, 0])]) && |HE.BlockPayload([HE.Extension(3, [0, 0])])| / 4 < 0x1_0000
    requires first == Configure(Config("publisher", [REPAIRED]))
    requires good == Retransmit(Plain(96, 7, [HE.Extension(3, [0, 0])]), 0) && bad == Retransmit(Plain(96, 7, []), 0)
    ensures Inv(FRESH, []) && RunOk([first] + ([good] + ([bad] + ([good] + []))), RTX_STREAM)
    ensures var i := InitialSequence(8);
            Produced(FRESH, [], [first] + ([good] + ([bad] + ([good] + []))), RTX_STREAM) == [i, (i + 2) % 0x1_0000]
  {
    hide Plain, HE.BlockPayload, HE.FitsTwoByte, Inv, Alone, IsAttempt, Produced, Next, NextHistories, KeepsStream, WellFormed, InitialSequence;
    RepairedIsWellFormed();
    RepairAttempt([], false);
    RepairAttempt([HE.Extension(3, [0, 0])], true);
    ConfiguredAlone(REPAIRED, "publisher", RTX_STREAM);
    GapBetween(Next(FRESH, first).state, NextHistories(FRESH, [], first), good, bad, REPAIRED, RTX_STREAM);
    var rest := [good] + ([bad] + ([good] + []));
    assert RunOk([first] + rest, RTX_STREAM);
    hide RunOk;
    ProducedStep(FRESH, [], first, rest, RTX_STREAM);
  }
}
