/**
 The numbers of the packets that come out of the rewriter. A number goes to a packet before the packet
 is built, so a packet that cannot be built leaves a gap: the emitted numbers of a stream are
 consecutive exactly as far as its operations succeed. A packet that comes out and then cannot be
 protected or sent leaves a gap for the receiver too; that happens after the rewriter.
 */
module EmittedNumbers {
  import opened Wire
  import HE = HeaderExtensions
  import opened RtpPacket
  import opened RewriterMedia
  import opened ExtensionRewriting
  import opened RewrittenPacket
  import opened RtxEncapsulation
  import opened RtpRewriter
  import opened RewriterInvariant
  import opened RewriterRuns

  // ----- when an operation that took a number fails -----

  /** The rewritten extensions do not fit the one-byte format. */
  ghost predicate NeedsTwoByte(m: Mapping, q: Parsed, number: U16) {
    RewriteExtensions(m, q.extensions, number).Some? && !HE.FitsOneByte(RewriteExtensions(m, q.extensions, number).value)
  }

  /** What a caller can see before the call: the guard of the one build error that remains. */
  ghost predicate ForwardFails(s: State, p: seq<Byte>, number: U16) {
    ParseRewriteable(p).Ok? &&
    var q := ParseRewriteable(p).value;
    RouteOf(s, q).Some? &&
    var m := s.media[RouteOf(s, q).value.index].mapping;
    NeedsTwoByte(m, q, number) && !m.allowMixed
  }

  /** The sent packet has no two-byte transport-wide extension to write the fresh number into. */
  ghost predicate RetransmitFails(s: State, p: seq<Byte>, number: U16) {
    ParseRewriteable(p).Ok? &&
    var i := MediaFor(s.media, ParseRewriteable(p).value.header.ssrc);
    i < |s.media| && s.media[i].mapping.transportCcId != 0 && TransportWritten(p, s.media[i].mapping.transportCcId, number).Err?
  }

  ghost predicate Fails(s: State, e: Event) {
    match e
    case Forward(p, number) => ForwardFails(s, p, number)
    case Retransmit(p, number) => RetransmitFails(s, p, number)
    case _ => false
  }

  lemma SentEmitsIff(s: State, p: seq<Byte>, q: Parsed, route: Route, keyframe: bool, number: U16)
    requires ParseRewriteable(p) == Ok(q) && RouteOk(s, route) && Sent(s, p, q, route, keyframe, number).given.Some?
    ensures var m := s.media[route.index].mapping;
            Sent(s, p, q, route, keyframe, number).outcome.Emitted? <==> !(NeedsTwoByte(m, q, number) && !m.allowMixed)
  {
    hide ParseRewriteable, InspectLayout, WellFormed, Timed, Allocated, Built, Refusal, OriginalFor, RewriteExtensions, RewrittenBytes, HE.FitsOneByte,
         HE.FitsTwoByte, HE.BlockPayload;
    var m, rtx := s.media[route.index], route.payload.rtx;
    RouteTarget(s, route);
    OriginalFits(m, p, q, rtx);
    var (numbered, sequence) := Allocated(m, rtx);
    var (timed, timestamp) := Timed(numbered, q.header.timestamp);
    OnlyTwoByteFails(m.mapping, p, q, route.payload.target, TargetSsrc(m.mapping, rtx), sequence, timestamp, OriginalFor(m, p, q, rtx), number);
    NothingFitsOneByte();
  }

  lemma NothingFitsOneByte()
    ensures HE.FitsOneByte([])
  {
  }

  lemma ForwardEmitsIff(s: State, p: seq<Byte>, number: U16)
    requires Configured(s.media) && Forwarded(s, p, number).given.Some?
    ensures Forwarded(s, p, number).outcome.Emitted? <==> !ForwardFails(s, p, number)
  {
    hide ParseRewriteable, InspectLayout, WellFormed, Sent, Bound, RouteOf, NeedsTwoByte, SourceChanged;
    var q := ParseRewriteable(p).value;
    var route := RouteOf(s, q).value;
    ForwardedIsSent(s, p, q, route, number);
    SentEmitsIff(Bound(s, q, route), p, q, route, Begins(s, q, route) && s.media[route.index].mapping.kind == "video", number);
  }

  lemma RetransmitEmitsIff(s: State, p: seq<Byte>, number: U16)
    requires Configured(s.media) && Retransmitted(s, p, number).given.Some?
    ensures Retransmitted(s, p, number).outcome.Emitted? <==> !RetransmitFails(s, p, number)
  {
    hide ParseRewriteable, InspectLayout, WellFormed, Allocated, PrimaryFor, Encapsulated, TransportWritten, Decapsulated;
    var q := ParseRewriteable(p).value;
    var i := MediaFor(s.media, q.header.ssrc);
    var m := s.media[i].mapping;
    var repair := RtxFor(m, q.header.payloadType).value;
    RouteTarget(s, Route(i, repair));
    RtxReversible(p, q, repair.target, Allocated(s.media[i], true).1, m.targetRtxSsrc, m.transportCcId, number);
  }

  /** An operation that took a number emits its packet exactly when its guard lets it. */
  lemma EmitsIff(s: State, e: Event)
    requires Configured(s.media) && Next(s, e).given.Some?
    ensures Next(s, e).outcome.Emitted? <==> !Fails(s, e)
  {
    hide Forwarded, Retransmitted, ForwardFails, RetransmitFails, Configured;
    match e
    case Forward(p, number) => ForwardEmitsIff(s, p, number);
    case Retransmit(p, number) => RetransmitEmitsIff(s, p, number);
    case _ =>
  }

  // ----- attempts of a stream along a run -----

  /** A number taken for the stream, and whether a packet with it came out. */
  datatype Attempt = Attempt(number: U16, emitted: bool)

  ghost function AttemptOf(s: State, e: Event, x: Stream): seq<Attempt>
    requires Configured(s.media)
  {
    if NumberGiven(Next(s, e).given, x) == [] then [] else [Attempt(NumberGiven(Next(s, e).given, x)[0], !Fails(s, e))]
  }

  ghost function Attempts(s: State, hs: seq<History>, es: seq<Event>, x: Stream): seq<Attempt>
    requires Inv(s, hs) && RunOk(es, x)
    decreases |es|
  {
    if es == [] then []
    else
      NextInv(s, hs, es[0]);
      AttemptOf(s, es[0], x) + Attempts(Next(s, es[0]).state, NextHistories(s, hs, es[0]), es[1..], x)
  }

  /** The numbers of the packets that come out, in order. */
  ghost function Produced(s: State, hs: seq<History>, es: seq<Event>, x: Stream): seq<U16>
    requires Inv(s, hs) && RunOk(es, x)
    decreases |es|
  {
    if es == [] then []
    else
      NextInv(s, hs, es[0]);
      var effect := Next(s, es[0]);
      (if effect.outcome.Emitted? then NumberGiven(effect.given, x) else []) + Produced(effect.state, NextHistories(s, hs, es[0]), es[1..], x)
  }

  // ----- gaps in a list of attempts -----

  /** The numbers of the successful attempts. */
  ghost function Out(t: seq<Attempt>): seq<U16> {
    if t == [] then [] else Out(t[..|t| - 1]) + if t[|t| - 1].emitted then [t[|t| - 1].number] else []
  }

  /** Their indices. */
  ghost function Places(t: seq<Attempt>): seq<nat> {
    if t == [] then [] else Places(t[..|t| - 1]) + if t[|t| - 1].emitted then [|t| - 1] else []
  }

  lemma {:induction false} OutAppend(a: seq<Attempt>, b: seq<Attempt>)
    ensures Out(a + b) == Out(a) + Out(b)
  {
    if b == [] {
      assert a + b == a;
    } else {
      var n := |b| - 1;
      assert (a + b)[..|a + b| - 1] == a + b[..n];
      OutAppend(a, b[..n]);
    }
  }

  /** Places are exactly the successful indices, in order, and name the numbers that come out. */
  lemma {:induction false} PlacesFacts(t: seq<Attempt>)
    ensures |Places(t)| == |Out(t)|
    ensures forall k :: 0 <= k < |Places(t)| ==> Places(t)[k] < |t| && t[Places(t)[k]].emitted && Out(t)[k] == t[Places(t)[k]].number
    ensures forall k, l :: 0 <= k < l < |Places(t)| ==> Places(t)[k] < Places(t)[l]
    ensures forall i :: 0 <= i < |t| && t[i].emitted ==> i in Places(t)
  {
    if t != [] {
      var n := |t| - 1;
      PlacesFacts(t[..n]);
      assert forall i :: 0 <= i < n ==> t[..n][i] == t[i];
    }
  }

  /** Between two neighbouring successes every attempt failed. */
  lemma BetweenAllFail(t: seq<Attempt>, k: nat, i: nat)
    requires 0 < k < |Places(t)| && Places(t)[k - 1] < i < Places(t)[k]
    ensures i < |t| && !t[i].emitted
  {
    PlacesFacts(t);
    hide Places, Out;
    assert forall m :: 0 <= m < |Places(t)| ==> Places(t)[m] != i;
  }

  predicate Follows(a: U16, b: U16) {
    b == (a as int + 1) % 0x1_0000
  }

  ghost predicate Consecutive(numbers: seq<U16>) {
    forall k :: 0 < k < |numbers| ==> Follows(numbers[k - 1], numbers[k])
  }

  /** How many attempts failed between a success and the one before it. */
  ghost function FailuresBefore(t: seq<Attempt>, k: nat): nat
    requires 0 < k < |Places(t)|
  {
    PlacesFacts(t);
    Places(t)[k] - Places(t)[k - 1] - 1
  }

  lemma StepIff(base: int, i: nat, j: nat)
    requires i < j
    ensures Follows((base + i) % 0x1_0000, (base + j) % 0x1_0000) <==> (j - i - 1) % 0x1_0000 == 0
  {
  }

  lemma GapIff(t: seq<Attempt>, x: Stream, n: nat, k: nat)
    requires forall i :: 0 <= i < |t| ==> t[i].number == NthNumber(x, n + i)
    requires 0 < k < |Places(t)| == |Out(t)|
    ensures Follows(Out(t)[k - 1], Out(t)[k]) <==> FailuresBefore(t, k) % 0x1_0000 == 0
  {
    hide Places, Out, InitialSequence, Follows;
    PlacesFacts(t);
    StepIff(InitialSequence(x.ssrc) + n, Places(t)[k - 1], Places(t)[k]);
  }

  ghost predicate WholeTurns(t: seq<Attempt>) {
    forall k :: 0 < k < |Places(t)| ==> FailuresBefore(t, k) % 0x1_0000 == 0
  }

  /** Numbers come out consecutive exactly when the failures between neighbours are multiples of 2^16. */
  lemma ConsecutiveIff(t: seq<Attempt>, x: Stream, n: nat)
    requires forall i :: 0 <= i < |t| ==> t[i].number == NthNumber(x, n + i)
    ensures Consecutive(Out(t)) <==> WholeTurns(t)
  {
    PlacesFacts(t);
    hide Places, Out, NthNumber, FailuresBefore, Follows;
    if Consecutive(Out(t)) {
      forall k | 0 < k < |Places(t)|
        ensures FailuresBefore(t, k) % 0x1_0000 == 0
      {
        GapIff(t, x, n, k);
        assert Follows(Out(t)[k - 1], Out(t)[k]);
      }
    }
    if WholeTurns(t) {
      forall k | 0 < k < |Out(t)|
        ensures Follows(Out(t)[k - 1], Out(t)[k])
      {
        GapIff(t, x, n, k);
        assert FailuresBefore(t, k) % 0x1_0000 == 0;
      }
    }
  }

  ghost predicate NoFailureBetween(t: seq<Attempt>) {
    forall i, j, k :: 0 <= i < j < k < |t| && t[i].emitted && t[k].emitted ==> t[j].emitted
  }

  lemma GaplessTurns(t: seq<Attempt>)
    requires NoFailureBetween(t)
    ensures WholeTurns(t)
  {
    PlacesFacts(t);
    hide Places, Out;
    forall k | 0 < k < |Places(t)|
      ensures FailuresBefore(t, k) == 0
    {
      if FailuresBefore(t, k) > 0 {
        var i := Places(t)[k - 1] + 1;
        BetweenAllFail(t, k, i);
        assert false;
      }
    }
  }

  lemma GapTurns(t: seq<Attempt>)
    requires WholeTurns(t) && |t| <= 0x1_0000
    ensures NoFailureBetween(t)
  {
    PlacesFacts(t);
    hide Places, Out;
    forall i, j, k | 0 <= i < j < k < |t| && t[i].emitted && t[k].emitted
      ensures t[j].emitted
    {
      if !t[j].emitted {
        var a := LastBefore(t, j);
        assert false;
      }
    }
  }

  /** With at most 2^16 attempts: whole turns if and only if nothing fails between two packets that come out. */
  lemma GaplessIff(t: seq<Attempt>)
    requires |t| <= 0x1_0000
    ensures WholeTurns(t) <==> NoFailureBetween(t)
  {
    hide WholeTurns, NoFailureBetween;
    if WholeTurns(t) {
      GapTurns(t);
    }
    if NoFailureBetween(t) {
      GaplessTurns(t);
    }
  }

  /** The success just after a failed attempt that has successes on both sides. */
  lemma LastBefore(t: seq<Attempt>, j: nat) returns (a: nat)
    requires j < |t| && !t[j].emitted
    requires (exists i :: 0 <= i < j && t[i].emitted) && exists k :: j < k < |t| && t[k].emitted
    ensures 0 < a < |Places(t)| && 0 < FailuresBefore(t, a) < |t|
  {
    PlacesFacts(t);
    hide Places, Out;
    var i :| 0 <= i < j && t[i].emitted;
    var k :| j < k < |t| && t[k].emitted;
    var pi :| 0 <= pi < |Places(t)| && Places(t)[pi] == i;
    var pk :| 0 <= pk < |Places(t)| && Places(t)[pk] == k;
    assert forall m :: 0 <= m < |Places(t)| ==> Places(t)[m] != j;
    a := Straddle(Places(t), j, pi, pk);
  }

  lemma {:induction false} Straddle(p: seq<nat>, j: nat, low: nat, high: nat) returns (a: nat)
    requires low < high < |p| && p[low] < j < p[high] && forall m :: 0 <= m < |p| ==> p[m] != j
    ensures 0 < a < |p| && p[a - 1] < j < p[a]
    decreases high - low
  {
    if p[low + 1] > j {
      a := low + 1;
    } else {
      a := Straddle(p, j, low + 1, high);
    }
  }

  // ----- the emitted stream over every run -----

  lemma {:induction false} AttemptsAreNumbers(s: State, hs: seq<History>, es: seq<Event>, x: Stream)
    requires Inv(s, hs) && RunOk(es, x)
    ensures |Attempts(s, hs, es, x)| == |Numbers(s, hs, es, x)|
    ensures forall k :: 0 <= k < |Attempts(s, hs, es, x)| ==> Attempts(s, hs, es, x)[k].number == Numbers(s, hs, es, x)[k]
    ensures Out(Attempts(s, hs, es, x)) == Produced(s, hs, es, x)
    decreases |es|
  {
    hide Inv, Next, NextHistories, KeepsStream, EventOk, Fails;
    if es != [] {
      NextInv(s, hs, es[0]);
      var n, ns := Next(s, es[0]).state, NextHistories(s, hs, es[0]);
      AttemptsAreNumbers(n, ns, es[1..], x);
      var first, rest := AttemptOf(s, es[0], x), Attempts(n, ns, es[1..], x);
      OutAppend(first, rest);
      FirstOut(s, es[0], x);
    }
  }

  lemma FirstOut(s: State, e: Event, x: Stream)
    requires Configured(s.media)
    ensures Out(AttemptOf(s, e, x)) == if Next(s, e).outcome.Emitted? then NumberGiven(Next(s, e).given, x) else []
    ensures |AttemptOf(s, e, x)| == |NumberGiven(Next(s, e).given, x)|
    ensures AttemptOf(s, e, x) != [] ==> AttemptOf(s, e, x)[0].number == NumberGiven(Next(s, e).given, x)[0]
  {
    hide Next, Fails, Configured;
    if NumberGiven(Next(s, e).given, x) != [] {
      EmitsIff(s, e);
      var t := AttemptOf(s, e, x);
      assert t[..0] == [];
    }
  }

  /**
   Over every run whose configurations keep the stream, the numbers that come out are consecutive if
   and only if the failures between neighbouring packets are multiples of 2^16 in number.
   */
  lemma OutputContinuousIff(s: State, hs: seq<History>, es: seq<Event>, x: Stream, n: nat)
    requires Inv(s, hs) && RunOk(es, x) && |hs| == |s.media| && GivenSoFar(s.media, hs, x, n)
    ensures var t := Attempts(s, hs, es, x);
            && (Consecutive(Produced(s, hs, es, x)) <==> WholeTurns(t))
            && (|t| <= 0x1_0000 ==> (Consecutive(Produced(s, hs, es, x)) <==> NoFailureBetween(t)))
  {
    hide Inv, RunOk, GivenSoFar, Attempts, Produced, Numbers, NthNumber, Consecutive, WholeTurns, Out, NoFailureBetween;
    AttemptsAreNumbers(s, hs, es, x);
    NumbersAreConsecutive(s, hs, es, x, n);
    var t := Attempts(s, hs, es, x);
    ConsecutiveIff(t, x, n);
    if |t| <= 0x1_0000 {
      GaplessIff(t);
    }
  }

  // ----- streams that never have a gap -----

  /** Two-byte extensions are allowed, and retransmissions write no transport-wide number. */
  predicate NeverFails(m: Mapping, rtx: bool) {
    m.allowMixed && (rtx ==> m.transportCcId == 0)
  }

  ghost predicate StreamNeverFails(ms: seq<Mapping>, x: Stream) {
    forall i :: 0 <= i < |ms| && IsMedia(ms[i], x) ==> NeverFails(ms[i], x.rtx)
  }

  ghost predicate MediaNeverFail(media: seq<Media>, x: Stream) {
    forall i :: 0 <= i < |media| && IsMedia(media[i].mapping, x) ==> NeverFails(media[i].mapping, x.rtx)
  }

  lemma ForwardGivenBy(s: State, p: seq<Byte>, number: U16)
    requires Configured(s.media) && Forwarded(s, p, number).given.Some?
    ensures ParseRewriteable(p).Ok? && RouteOf(s, ParseRewriteable(p).value).Some?
    ensures var a, i := Forwarded(s, p, number).given.value, RouteOf(s, ParseRewriteable(p).value).value.index;
            a.kind == s.media[i].mapping.kind && a.targetSsrc == s.media[i].mapping.targetSsrc
  {
    hide ParseRewriteable, InspectLayout, WellFormed, RouteOf, SourceChanged, Built, Timed, Allocated, Refusal, OriginalFor, Begun;
  }

  lemma AttemptSucceeds(s: State, e: Event, x: Stream)
    requires Configured(s.media) && MediaNeverFail(s.media, x) && NumberGiven(Next(s, e).given, x) != []
    ensures !Fails(s, e)
  {
    hide ParseRewriteable, InspectLayout, WellFormed, RouteOf, Forwarded, Retransmitted, TransportWritten, NeedsTwoByte;
    match e
    case Forward(p, number) => ForwardGivenBy(s, p, number);
    case Retransmit(p, number) => RetransmitGivenBy(s, p, number);
    case _ =>
  }

  lemma RetransmitGivenBy(s: State, p: seq<Byte>, number: U16)
    requires Configured(s.media) && Retransmitted(s, p, number).given.Some?
    ensures ParseRewriteable(p).Ok? && MediaFor(s.media, ParseRewriteable(p).value.header.ssrc) < |s.media|
    ensures var a, i := Retransmitted(s, p, number).given.value, MediaFor(s.media, ParseRewriteable(p).value.header.ssrc);
            a.kind == s.media[i].mapping.kind && a.targetSsrc == s.media[i].mapping.targetSsrc && a.rtx
  {
    hide ParseRewriteable, InspectLayout, WellFormed, Allocated, PrimaryFor, Encapsulated, Numbered;
  }

  lemma NextNeverFails(s: State, hs: seq<History>, e: Event, x: Stream)
    requires Inv(s, hs) && |hs| == |s.media| && Configured(s.media) && MediaNeverFail(s.media, x)
    requires e.Configure? ==> StreamNeverFails(e.config.media, x)
    ensures MediaNeverFail(Next(s, e).state.media, x)
  {
    hide Inv, Configured, Forwarded, Retransmitted, ForwardedHistories, RetransmittedHistories, NextNumber, NeverFails;
    match e
    case Forward(p, number) => var i := ForwardShape(s, hs, p, number);
    case Retransmit(p, number) => RetransmitShape(s, hs, p, number);
    case ClearSource =>
    case Configure(c) =>
      forall i | 0 <= i < |c.media|
        ensures Reconfigured(s, c).media[i].mapping == c.media[i]
      {
        CarriedMapping(s.media, c.media[i], s.available && s.session == c.session);
      }
  }

  lemma {:induction false} EmitsEveryNumber(s: State, hs: seq<History>, es: seq<Event>, x: Stream)
    requires Inv(s, hs) && RunOk(es, x) && MediaNeverFail(s.media, x)
    requires forall i :: 0 <= i < |es| && es[i].Configure? ==> StreamNeverFails(es[i].config.media, x)
    ensures Produced(s, hs, es, x) == Numbers(s, hs, es, x)
    decreases |es|
  {
    hide Inv, Next, NextHistories, KeepsStream, EventOk, Fails, MediaNeverFail, StreamNeverFails;
    if es != [] {
      NextInv(s, hs, es[0]);
      NextNeverFails(s, hs, es[0], x);
      EmitsEveryNumber(Next(s, es[0]).state, NextHistories(s, hs, es[0]), es[1..], x);
      if NumberGiven(Next(s, es[0]).given, x) != [] {
        AttemptSucceeds(s, es[0], x);
        EmitsIff(s, es[0]);
      }
    }
  }

  /**
   From a fresh rewriter, a stream whose configurations all allow the two-byte format (and, for RTX,
   write no transport-wide number) comes out without a gap: the k-th packet has the initial number plus k.
   */
  lemma OutputFromStart(es: seq<Event>, x: Stream)
    requires RunOk(es, x) && forall i :: 0 <= i < |es| && es[i].Configure? ==> StreamNeverFails(es[i].config.media, x)
    ensures Inv(FRESH, [])
    ensures var out := Produced(FRESH, [], es, x);
            forall k :: 0 <= k < |out| ==> out[k] == (InitialSequence(x.ssrc) + k) % 0x1_0000
  {
    FreshInv();
    EmitsEveryNumber(FRESH, [], es, x);
    hide Numbers, Produced, RunOk, InitialSequence, StreamNeverFails;
    NumbersFromStart(es, x);
  }
}
