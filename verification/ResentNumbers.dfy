/**
 Output numbers without gaps while transport-wide numbers are in use: a run that only sends again
 what it has forwarded never fails to write one.
 */
module ResentNumbers {
  import opened Wire
  import opened RtpPacket
  import opened RewriterMedia
  import opened RtpRewriter
  import opened RewriterInvariant
  import opened RewriterRuns
  import opened EmittedNumbers
  import T = TransportNumbers
  import ER = ExtensionRewriting

  // ----- runs that only send again what they forwarded -----

  /** The primary packet that came out of an event. */
  ghost function PrimaryOf(s: State, e: Event): set<seq<Byte>>
    requires Configured(s.media)
  {
    if e.Forward? && Next(s, e).outcome.Emitted? && !Next(s, e).outcome.output.rtx then {Next(s, e).outcome.output.packet} else {}
  }

  /** The primary packets that came out of a run. */
  ghost function Primaries(s: State, hs: seq<History>, es: seq<Event>): set<seq<Byte>>
    requires Inv(s, hs) && forall i :: 0 <= i < |es| ==> EventOk(es[i])
    decreases |es|
  {
    if es == [] then {}
    else
      NextInv(s, hs, es[0]);
      PrimaryOf(s, es[0]) + Primaries(Next(s, es[0]).state, NextHistories(s, hs, es[0]), es[1..])
  }

  /** Every retransmission repeats a primary packet that came out before it, or one of `sent`. */
  ghost predicate OnlyResends(s: State, hs: seq<History>, es: seq<Event>, sent: set<seq<Byte>>)
    requires Inv(s, hs) && forall i :: 0 <= i < |es| ==> EventOk(es[i])
    decreases |es|
  {
    es == [] ||
    (NextInv(s, hs, es[0]);
     && (es[0].Retransmit? ==> es[0].packet in sent)
     && OnlyResends(Next(s, es[0]).state, NextHistories(s, hs, es[0]), es[1..], sent + PrimaryOf(s, es[0])))
  }

  /** A run and one more event. */
  lemma {:induction false} OneMoreEvent(s: State, hs: seq<History>, es: seq<Event>, e: Event, sent: set<seq<Byte>>)
    requires Inv(s, hs) && EventOk(e) && forall i :: 0 <= i < |es| ==> EventOk(es[i])
    ensures forall i :: 0 <= i < |es + [e]| ==> EventOk((es + [e])[i])
    ensures var (after, histories) := After(s, hs, es);
            && Configured(after.media) && |histories| == |after.media|
            && After(s, hs, es + [e]) == (Next(after, e).state, NextHistories(after, histories, e))
            && Primaries(s, hs, es + [e]) == Primaries(s, hs, es) + PrimaryOf(after, e)
            && (OnlyResends(s, hs, es + [e], sent) <==> OnlyResends(s, hs, es, sent) && (e.Retransmit? ==> e.packet in sent + Primaries(s, hs, es)))
    decreases |es|
  {
    hide Inv, Next, NextHistories, EventOk, PrimaryOf, Configured;
    if es == [] {
      NextInv(s, hs, e);
      assert es + [e] == [e] && [e][1..] == [];
    } else {
      NextInv(s, hs, es[0]);
      assert (es + [e])[0] == es[0] && (es + [e])[1..] == es[1..] + [e];
      OneMoreEvent(Next(s, es[0]).state, NextHistories(s, hs, es[0]), es[1..], e, sent + PrimaryOf(s, es[0]));
    }
  }

  ghost predicate EventsOk(es: seq<Event>) {
    forall i :: 0 <= i < |es| ==> EventOk(es[i])
  }

  /** From a fresh rewriter, the run sends again only what it forwarded. */
  ghost predicate RepeatsForwarded(es: seq<Event>) {
    EventsOk(es) && (FreshInv(); OnlyResends(FRESH, [], es, {}))
  }

  ghost function ForwardedBy(es: seq<Event>): set<seq<Byte>>
    requires EventsOk(es)
  {
    FreshInv();
    Primaries(FRESH, [], es)
  }

  ghost predicate WasForwarded(es: seq<Event>, p: seq<Byte>) {
    EventsOk(es) && p in ForwardedBy(es)
  }

  /** The run leads from a fresh rewriter to this state, and these packets came out of it. */
  ghost predicate Leads(es: seq<Event>, s: State, hs: seq<History>, sent: set<seq<Byte>>) {
    EventsOk(es) && (FreshInv(); After(FRESH, [], es) == (s, hs) && sent <= ForwardedBy(es))
  }

  lemma LeadsFresh()
    ensures Leads([], FRESH, [], {}) && RepeatsForwarded([])
  {
    FreshInv();
  }

  /** One more event leads on. */
  lemma LeadsOn(es: seq<Event>, s: State, hs: seq<History>, sent: set<seq<Byte>>, e: Event)
    requires Leads(es, s, hs, sent) && EventOk(e)
    ensures Configured(s.media) && |hs| == |s.media|
    ensures Leads(es + [e], Next(s, e).state, NextHistories(s, hs, e), sent + PrimaryOf(s, e))
    ensures RepeatsForwarded(es + [e]) <==> RepeatsForwarded(es) && (e.Retransmit? ==> WasForwarded(es, e.packet))
  {
    hide Inv, Next, NextHistories, EventOk, PrimaryOf, Configured, After, Primaries, OnlyResends;
    FreshInv();
    OneMoreEvent(FRESH, [], es, e, {});
    assert {} + Primaries(FRESH, [], es) == Primaries(FRESH, [], es);
  }

  // ----- streams under one transport-wide id -----

  /** Two-byte extensions are allowed and transport-wide numbers stand under this id, if it is not 0. */
  predicate Under(m: Mapping, id: Byte) {
    m.allowMixed && m.transportCcId == id
  }

  ghost predicate MediaUnder(media: seq<Media>, x: Stream, id: Byte) {
    forall i :: 0 <= i < |media| && media[i].mapping.targetSsrc == x.targetSsrc ==> Under(media[i].mapping, id)
  }

  ghost predicate ConfigUnder(c: Config, x: Stream, id: Byte) {
    forall i :: 0 <= i < |c.media| && IsMedia(c.media[i], x) ==> Under(c.media[i], id)
  }

  ghost predicate RunUnder(es: seq<Event>, x: Stream, id: Byte) {
    forall i :: 0 <= i < |es| && es[i].Configure? ==> ConfigUnder(es[i].config, x, id)
  }

  /** A packet of the output has a place for a number under the id. */
  ghost predicate HasPlace(p: seq<Byte>, x: Stream, id: Byte) {
    id != 0 && ParseRewriteable(p).Ok? && ParseRewriteable(p).value.header.ssrc == x.targetSsrc ==> T.Writable(p, id)
  }

  ghost predicate AllHavePlace(sent: set<seq<Byte>>, x: Stream, id: Byte) {
    forall p :: p in sent ==> HasPlace(p, x, id)
  }

  lemma MappingUnder(s: State, x: Stream, id: Byte)
    requires MediaUnder(s.media, x, id) && T.MappingFor(s, x.targetSsrc).Some?
    ensures Under(T.MappingFor(s, x.targetSsrc).value, id)
  {
  }

  /** What comes out as a primary packet of the output has a place for the number. */
  lemma PrimaryHasPlace(s: State, hs: seq<History>, e: Event, x: Stream, id: Byte)
    requires Inv(s, hs) && Configured(s.media) && MediaUnder(s.media, x, id)
    ensures AllHavePlace(PrimaryOf(s, e), x, id)
  {
    hide Inv, Configured, ParseRewriteable, Forwarded, T.MappingFor, T.Writable, Under;
    if PrimaryOf(s, e) != {} {
      T.ForwardedIsSeen(s, hs, e.packet, e.number);
      var o := Forwarded(s, e.packet, e.number).outcome.output;
      if o.targetSsrc == x.targetSsrc {
        MappingUnder(s, x, id);
        UnderHas(T.MappingFor(s, x.targetSsrc).value, id);
      }
    }
  }

  lemma UnderHas(m: Mapping, id: Byte)
    requires Under(m, id)
    ensures m.allowMixed && m.transportCcId == id
  {
  }

  lemma NextUnder(s: State, hs: seq<History>, e: Event, x: Stream, id: Byte)
    requires Inv(s, hs) && |hs| == |s.media| && Configured(s.media) && MediaUnder(s.media, x, id)
    requires EventOk(e) && (e.Configure? ==> KeepsStream(e.config, x) && ConfigUnder(e.config, x, id))
    ensures MediaUnder(Next(s, e).state.media, x, id)
  {
    hide Inv, Configured, Forwarded, Retransmitted, ForwardedHistories, RetransmittedHistories, NextNumber, Under, Reconfigured, KeepsStream, ConfigOk,
         ConfigUnder, Count;
    match e
    case Forward(p, number) => var i := ForwardShape(s, hs, p, number);
    case Retransmit(p, number) => RetransmitShape(s, hs, p, number);
    case ClearSource =>
    case Configure(c) => ConfiguredUnder(s, c, x, id);
  }

  lemma ConfiguredUnder(s: State, c: Config, x: Stream, id: Byte)
    requires ConfigOk(c) && KeepsStream(c, x) && ConfigUnder(c, x, id)
    ensures MediaUnder(Reconfigured(s, c).media, x, id)
  {
    hide Under, ER.WellFormed, Carried;
    var kept :| 0 <= kept < |c.media| && IsMedia(c.media[kept], x);
    forall i | 0 <= i < |c.media|
      ensures Reconfigured(s, c).media[i].mapping == c.media[i]
    {
      CarriedMapping(s.media, c.media[i], s.available && s.session == c.session);
    }
    assert forall i :: 0 <= i < |c.media| && c.media[i].targetSsrc == x.targetSsrc ==> i == kept;
  }

  lemma AttemptUnder(s: State, e: Event, x: Stream, id: Byte, sent: set<seq<Byte>>)
    requires Configured(s.media) && MediaUnder(s.media, x, id) && AllHavePlace(sent, x, id) && (e.Retransmit? ==> e.packet in sent)
    requires NumberGiven(Next(s, e).given, x) != []
    ensures !Fails(s, e)
  {
    hide Configured, ParseRewriteable, RouteOf, Forwarded, Retransmitted, NeedsTwoByte;
    match e
    case Forward(p, number) => ForwardGivenBy(s, p, number);
    case Retransmit(p, number) =>
      RetransmitGivenBy(s, p, number);
      assert HasPlace(p, x, id);
      T.WritableAnyNumber(p, id, number);
    case _ =>
  }

  lemma {:induction false} ResendsEveryNumber(s: State, hs: seq<History>, es: seq<Event>, x: Stream, id: Byte, sent: set<seq<Byte>>)
    requires Inv(s, hs) && RunOk(es, x) && RunUnder(es, x, id) && MediaUnder(s.media, x, id) && AllHavePlace(sent, x, id)
    requires OnlyResends(s, hs, es, sent)
    ensures Produced(s, hs, es, x) == Numbers(s, hs, es, x)
    decreases |es|
  {
    hide Inv, Next, NextHistories, KeepsStream, EventOk, Fails, MediaUnder, ConfigUnder, PrimaryOf, HasPlace, Configured;
    if es != [] {
      NextInv(s, hs, es[0]);
      NextUnder(s, hs, es[0], x, id);
      PrimaryHasPlace(s, hs, es[0], x, id);
      ResendsEveryNumber(Next(s, es[0]).state, NextHistories(s, hs, es[0]), es[1..], x, id, sent + PrimaryOf(s, es[0]));
      if NumberGiven(Next(s, es[0]).given, x) != [] {
        AttemptUnder(s, es[0], x, id, sent);
        EmitsIff(s, es[0]);
      }
    }
  }

  /**
   From a fresh rewriter, while every configuration allows two-byte extensions and keeps one id for
   transport-wide numbers, and only forwarded packets are sent again, a stream comes out without a
   gap, RTX or not: the k-th packet has the initial number plus k.
   */
  lemma ResentFromStart(es: seq<Event>, x: Stream, id: Byte)
    requires RunOk(es, x) && RunUnder(es, x, id) && RepeatsForwarded(es)
    ensures Inv(FRESH, [])
    ensures var out := Produced(FRESH, [], es, x);
            forall k :: 0 <= k < |out| ==> out[k] == (InitialSequence(x.ssrc) + k) % 0x1_0000
  {
    FreshInv();
    ResendsEveryNumber(FRESH, [], es, x, id, {});
    hide Numbers, Produced, RunOk, RunUnder, InitialSequence, OnlyResends;
    NumbersFromStart(es, x);
  }
}
