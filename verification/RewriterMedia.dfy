/**
 Per-media state of the WHEP RTP rewriter (`media_runtime_state` in `media/whep_rtp_rewriter.cpp`):
 output numbering, the output timeline and the translation cache. The state is a value that moves
 between configurations; `History` records what its fields must be consistent with.
 */
module RewriterMedia {
  import opened Wire
  import opened SequenceCache

  datatype Uri = MidUri | TransportCcUri | AbsSendTimeUri | RidUri | RepairedRidUri | OtherUri(name: string)

  datatype ExtensionMapping = ExtensionMapping(sourceId: Byte, targetId: Byte, uri: Uri)

  datatype PayloadMapping = PayloadMapping(source: Byte, target: Byte, clockRate: U32, rtx: bool, nack: bool, targetAssociated: Byte)

  datatype Mapping = Mapping(kind: string, sourceMid: seq<Byte>, targetMid: seq<Byte>, targetSsrc: U32, targetRtxSsrc: U32,
                             allowMixed: bool, transportCcId: Byte, payloadTypes: seq<PayloadMapping>, extensions: seq<ExtensionMapping>)

  datatype Media = Media(
    mapping: Mapping,
    primarySsrc: Option<U32>, rtxSsrc: Option<U32>, primaryPayloadType: Option<Byte>, clockRate: U32,
    primaryStarted: bool, rtxStarted: bool, nextPrimary: U16, nextRtx: U16,
    timestampStarted: bool, lastTimestamp: U32, sourceAnchor: Option<U32>, targetAnchor: U32,
    numbers: NumberCache)

  /**
   Writes to the cache since the current source began and which primary number each was (the first
   is number 0), how many numbers were handed out, and how many primary numbers since the source
   began went to packets that could not be built.
   */
  datatype History = History(log: seq<Binding>, places: seq<nat>, primaryCount: nat, rtxCount: nat, lost: nat)

  const START: History := History([], [], 0, 0, 0)

  /** A source begins or ends. */
  function Restarted(h: History): History {
    h.(log := [], places := [], lost := 0)
  }

  /** The number just counted went out in a packet, and is what the source's number stands for. */
  function Logged(h: History, b: Binding): History
    requires h.primaryCount > 0
  {
    h.(log := h.log + [b], places := h.places + [h.primaryCount - 1])
  }

  function Counted(h: History, rtx: bool): History {
    if rtx then h.(rtxCount := h.rtxCount + 1) else h.(primaryCount := h.primaryCount + 1)
  }

  // ----- arithmetic -----

  function InitialSequence(ssrc: U32): U16 {
    (((ssrc / 0x1_0000) as bv16) ^ ((ssrc % 0x1_0000) as bv16)) as int
  }

  function InitialTimestampOffset(ssrc: U32): U32 {
    ssrc * 0x9E37_79B1 % 0x1_0000_0000
  }

  /** Signed 32-bit comparison of timestamps. */
  predicate Newer(value: U32, reference: U32) {
    0 < (value - reference) % 0x1_0000_0000 < 0x8000_0000
  }

  // ----- operations -----

  function NewMedia(mapping: Mapping): Media {
    Media(mapping, None, None, None, 0, false, false, 0, 0, false, 0, None, 0, EMPTY)
  }

  function SourceCleared(m: Media): Media {
    m.(primarySsrc := None, rtxSsrc := None, primaryPayloadType := None, clockRate := 0, sourceAnchor := None, targetAnchor := 0, numbers := EMPTY)
  }

  function TimestampStep(clockRate: U32): (s: U32)
    ensures 1 <= s < 0x8000_0000
    ensures clockRate >= 100 ==> 100 * s <= clockRate < 100 * (s + 1)
  {
    Max(1, clockRate / 100)
  }

  function PrimaryBegun(m: Media, ssrc: U32, payloadType: Byte, timestamp: U32, clockRate: U32): Media {
    var anchor: U32 :=
      if m.timestampStarted then (m.lastTimestamp + TimestampStep(clockRate)) % 0x1_0000_0000
      else (timestamp + InitialTimestampOffset(m.mapping.targetSsrc)) % 0x1_0000_0000;
    m.(primarySsrc := Some(ssrc), rtxSsrc := None, primaryPayloadType := Some(payloadType), clockRate := clockRate,
       numbers := EMPTY, sourceAnchor := Some(timestamp), timestampStarted := true, targetAnchor := anchor, lastTimestamp := anchor)
  }

  function Allocated(m: Media, rtx: bool): (Media, U16) {
    if rtx then
      var value := if m.rtxStarted then m.nextRtx else InitialSequence(m.mapping.targetRtxSsrc);
      (m.(rtxStarted := true, nextRtx := (value + 1) % 0x1_0000), value)
    else
      var value := if m.primaryStarted then m.nextPrimary else InitialSequence(m.mapping.targetSsrc);
      (m.(primaryStarted := true, nextPrimary := (value + 1) % 0x1_0000), value)
  }

  function MappedTimestamp(m: Media, timestamp: U32): U32
    requires m.sourceAnchor.Some?
  {
    (m.targetAnchor + timestamp - m.sourceAnchor.value) % 0x1_0000_0000
  }

  /** With an anchor in place; the fallback that would set one is shown unreachable by `MediaInv`. */
  function Translated(m: Media, timestamp: U32): (Media, U32)
    requires m.sourceAnchor.Some?
  {
    var target := MappedTimestamp(m, timestamp);
    (if Newer(target, m.lastTimestamp) then m.(lastTimestamp := target) else m, target)
  }

  // ----- what every operation keeps -----

  /** Primary SSRC, payload type and anchor are set together, so no packet ever meets a missing anchor. */
  predicate SourceTogether(m: Media) {
    && (m.primarySsrc.Some? <==> m.primaryPayloadType.Some?)
    && (m.primarySsrc.Some? <==> m.sourceAnchor.Some?)
    && (m.rtxSsrc.Some? ==> m.primarySsrc.Some?)
    && (m.sourceAnchor.Some? ==> m.timestampStarted)
  }

  predicate NumberedFrom(started: bool, next: U16, initial: U16, count: nat) {
    if started then count > 0 && next == (initial + count) % 0x1_0000 else count == 0
  }

  ghost predicate MediaInv(m: Media, h: History) {
    && SourceTogether(m)
    && NumberedFrom(m.primaryStarted, m.nextPrimary, InitialSequence(m.mapping.targetSsrc), h.primaryCount)
    && NumberedFrom(m.rtxStarted, m.nextRtx, InitialSequence(m.mapping.targetRtxSsrc), h.rtxCount)
    && Tracks(m.numbers, h.log)
  }

  /** Between two writes, or a write and now, lie the writes in between and at most all lost numbers. */
  ghost predicate Spaced(h: History) {
    && |h.places| == |h.log|
    && (forall i, j :: 0 <= i < j < |h.places| ==> j - i <= h.places[j] - h.places[i] <= j - i + h.lost)
    && (forall i :: 0 <= i < |h.places| ==> |h.log| - i <= h.primaryCount - h.places[i] <= |h.log| - i + h.lost)
  }

  /** Every write has the number of its place in the stream. */
  ghost predicate LogNumbered(ssrc: U32, h: History) {
    Spaced(h) && forall i :: 0 <= i < |h.log| ==> h.log[i].target == (InitialSequence(ssrc) + h.places[i]) % 0x1_0000
  }

  lemma LoggedNumbered(ssrc: U32, h: History, source: U16)
    requires LogNumbered(ssrc, h)
    ensures LogNumbered(ssrc, Logged(Counted(h, false), Binding(source, (InitialSequence(ssrc) + h.primaryCount) % 0x1_0000)))
  {
    hide InitialSequence;
  }

  lemma RtxCountedNumbered(ssrc: U32, h: History)
    requires LogNumbered(ssrc, h)
    ensures LogNumbered(ssrc, Counted(h, true))
  {
    hide InitialSequence;
  }

  lemma LostNumbered(ssrc: U32, h: History)
    requires LogNumbered(ssrc, h)
    ensures LogNumbered(ssrc, Counted(h, false).(lost := h.lost + 1))
  {
    hide InitialSequence;
  }

  /**
   The latest write was forgotten early: a number that has left the window went to a packet with the
   same original number, and a multiple of 2^16 numbers were handed out from there to the latest.
   */
  ghost predicate WrappedOnto(h: History, p: nat)
    requires p < |h.log| == |h.places|
  {
    exists q :: 0 <= q < WindowStart(h.log) && p - LIMIT <= q && h.log[q].source == h.log[p].source && h.places[q] % 0x1_0000 == h.places[p] % 0x1_0000
  }

  lemma ForgottenIff(ssrc: U32, h: History, p: nat)
    requires LogNumbered(ssrc, h) && WindowStart(h.log) <= p < |h.log|
    ensures ForgottenEarly(h.log, p) <==> WrappedOnto(h, p)
  {
    hide InitialSequence;
    forall q | 0 <= q < WindowStart(h.log)
      ensures h.log[q] == h.log[p] <==> h.log[q].source == h.log[p].source && h.places[q] % 0x1_0000 == h.places[p] % 0x1_0000
    {
      SameNumberIff(InitialSequence(ssrc), h.places[q], h.places[p]);
    }
  }

  lemma SamePlaces(ssrc: U32, h: History)
    requires LogNumbered(ssrc, h)
    ensures |h.places| == |h.log|
  {
  }

  lemma SameNumberIff(base: int, a: nat, b: nat)
    ensures (base + a) % 0x1_0000 == (base + b) % 0x1_0000 <==> a % 0x1_0000 == b % 0x1_0000
  {
  }

  lemma WrapTakesLosses(h: History, q: nat, p: nat)
    requires Spaced(h) && q < p < |h.log| && p - q <= LIMIT && h.places[q] % 0x1_0000 == h.places[p] % 0x1_0000
    ensures h.lost >= 0x1_0000 - LIMIT
  {
  }

  /**
   The translation cache knows exactly the originals whose latest write is among the last 4096 and was
   not wrapped onto, and that takes at least 61440 packets of the source that could not be built.
   */
  lemma CachedIff(m: Media, h: History, source: U16)
    requires MediaInv(m, h) && LogNumbered(m.mapping.targetSsrc, h)
    ensures |h.places| == |h.log|
    ensures var p := Latest(h.log, source);
            && (Find(m.numbers, source).Some? <==> p >= WindowStart(h.log) && !WrappedOnto(h, p))
            && (p >= WindowStart(h.log) && WrappedOnto(h, p) ==> h.lost >= 0x1_0000 - LIMIT)
  {
    SamePlaces(m.mapping.targetSsrc, h);
    hide InitialSequence, NumberedFrom, Spaced, ForgottenEarly;
    assert Find(m.numbers, source) == Answer(h.log, source);
    var p := Latest(h.log, source);
    if p >= WindowStart(h.log) {
      ForgottenIff(m.mapping.targetSsrc, h, p);
      if WrappedOnto(h, p) {
        var q :| 0 <= q < WindowStart(h.log) && p - LIMIT <= q && h.log[q].source == h.log[p].source && h.places[q] % 0x1_0000 == h.places[p] % 0x1_0000;
        WrapTakesLosses(h, q, p);
      }
    }
  }

  /** The history after `n` more packets of the source, all with one original number, or all of them lost. */
  ghost function HistoryAfter(ssrc: U32, h: History, source: Option<U16>, n: nat): (r: History)
    requires |h.places| == |h.log|
    ensures r.primaryCount == h.primaryCount + n && |r.places| == |r.log| == |h.log| + if source.Some? then n else 0
    ensures r.lost == h.lost + if source.Some? then 0 else n
    ensures forall i :: 0 <= i < |h.log| ==> r.log[i] == h.log[i] && r.places[i] == h.places[i]
  {
    if n == 0 then h
    else
      var c := Counted(HistoryAfter(ssrc, h, source, n - 1), false);
      if source.None? then c.(lost := c.lost + 1)
      else Logged(c, Binding(source.value, (InitialSequence(ssrc) + c.primaryCount - 1) % 0x1_0000))
  }

  lemma OneMore(ssrc: U32, h: History, x: U16)
    requires |h.places| == |h.log|
    ensures var r := HistoryAfter(ssrc, h, Some(x), 1);
            r.places[|h.log|] == h.primaryCount && r.log[|h.log|].source == x
            && r.log[|h.log|].target == (InitialSequence(ssrc) + h.primaryCount) % 0x1_0000
  {
    hide InitialSequence;
    assert HistoryAfter(ssrc, h, Some(x), 0) == h;
  }

  /** The bound is reached: a number, 4095 others, 61440 lost packets, and the same original again. */
  lemma WrapReached(ssrc: U32, x: U16, y: U16)
    ensures var h := HistoryAfter(ssrc, HistoryAfter(ssrc, HistoryAfter(ssrc, HistoryAfter(ssrc, START, Some(x), 1), Some(y), LIMIT - 1), None, 0x1_0000 - LIMIT), Some(x), 1);
            h.lost == 0x1_0000 - LIMIT && Latest(h.log, x) == LIMIT >= WindowStart(h.log) && WrappedOnto(h, LIMIT)
  {
    hide InitialSequence, Latest;
    var first := HistoryAfter(ssrc, START, Some(x), 1);
    var full := HistoryAfter(ssrc, first, Some(y), LIMIT - 1);
    var lost := HistoryAfter(ssrc, full, None, 0x1_0000 - LIMIT);
    var h := HistoryAfter(ssrc, lost, Some(x), 1);
    OneMore(ssrc, START, x);
    OneMore(ssrc, lost, x);
    hide HistoryAfter;
    assert h.log[0] == lost.log[0] == full.log[0] == first.log[0];
    assert h.places[0] == lost.places[0] == full.places[0] == first.places[0];
    LatestUnique(h.log, x, LIMIT);
  }

  lemma NewMediaInv(mapping: Mapping)
    ensures MediaInv(NewMedia(mapping), START)
  {
    EmptyTracks();
  }

  lemma SourceClearedInv(m: Media, h: History)
    requires MediaInv(m, h)
    ensures MediaInv(SourceCleared(m), Restarted(h))
  {
    EmptyTracks();
    hide Tracks, InitialSequence;
  }

  lemma PrimaryBegunInv(m: Media, h: History, ssrc: U32, payloadType: Byte, timestamp: U32, clockRate: U32)
    requires MediaInv(m, h)
    ensures MediaInv(PrimaryBegun(m, ssrc, payloadType, timestamp, clockRate), Restarted(h))
  {
    EmptyTracks();
    hide Tracks, InitialSequence;
  }

  /** The k-th number handed out is the initial number plus k, modulo 2^16. */
  lemma AllocatedInv(m: Media, h: History, rtx: bool)
    requires MediaInv(m, h)
    ensures var (n, value) := Allocated(m, rtx);
            if rtx then
              value == (InitialSequence(m.mapping.targetRtxSsrc) + h.rtxCount) % 0x1_0000 && MediaInv(n, Counted(h, true))
            else
              value == (InitialSequence(m.mapping.targetSsrc) + h.primaryCount) % 0x1_0000 && MediaInv(n, Counted(h, false))
  {
    hide Tracks, InitialSequence, NumberedFrom;
    NextNumbered(m.primaryStarted, m.nextPrimary, InitialSequence(m.mapping.targetSsrc), h.primaryCount);
    NextNumbered(m.rtxStarted, m.nextRtx, InitialSequence(m.mapping.targetRtxSsrc), h.rtxCount);
  }

  lemma NextNumbered(started: bool, next: U16, initial: U16, count: nat)
    requires NumberedFrom(started, next, initial, count)
    ensures var value := if started then next else initial;
            value == (initial + count) % 0x1_0000 && NumberedFrom(true, (value + 1) % 0x1_0000, initial, count + 1)
  {
  }

  lemma TranslatedInv(m: Media, h: History, timestamp: U32)
    requires MediaInv(m, h) && m.sourceAnchor.Some?
    ensures MediaInv(Translated(m, timestamp).0, h)
  {
    hide Tracks, InitialSequence;
  }

  // ----- the output timeline -----

  /** A new source starts strictly newer than the high-water mark of what was sent before it. */
  lemma NewSourceStartsNewer(m: Media, ssrc: U32, payloadType: Byte, timestamp: U32, clockRate: U32)
    requires m.timestampStarted
    ensures var n := PrimaryBegun(m, ssrc, payloadType, timestamp, clockRate);
            Newer(MappedTimestamp(n, timestamp), m.lastTimestamp) && n.lastTimestamp == MappedTimestamp(n, timestamp)
  {
    var n := PrimaryBegun(m, ssrc, payloadType, timestamp, clockRate);
    assert MappedTimestamp(n, timestamp) == n.targetAnchor;
    var step := TimestampStep(clockRate);
    WrapDifference(m.lastTimestamp, step);
  }

  lemma WrapDifference(a: U32, b: U32)
    ensures ((a + b) % 0x1_0000_0000 - a) % 0x1_0000_0000 == b
  {
  }

  /** Within one source, target minus source timestamp never changes. */
  lemma OffsetIsConstant(m: Media, first: U32, second: U32)
    requires m.sourceAnchor.Some?
    ensures var (n, a) := Translated(m, first);
            var b := Translated(n, second).1;
            (a - first) % 0x1_0000_0000 == (b - second) % 0x1_0000_0000
  {
    var n := Translated(m, first).0;
    assert MappedTimestamp(n, second) == MappedTimestamp(m, second);
    OffsetOf(m, first);
    OffsetOf(m, second);
  }

  lemma OffsetOf(m: Media, timestamp: U32)
    requires m.sourceAnchor.Some?
    ensures (MappedTimestamp(m, timestamp) - timestamp) % 0x1_0000_0000 == (m.targetAnchor - m.sourceAnchor.value) % 0x1_0000_0000
  {
    var x := m.targetAnchor + timestamp - m.sourceAnchor.value;
    assert (x % 0x1_0000_0000 - timestamp) % 0x1_0000_0000 == (x - timestamp) % 0x1_0000_0000;
  }

  /** The high-water mark is never older than what was just sent. */
  lemma HighWaterHolds(m: Media, timestamp: U32)
    requires m.sourceAnchor.Some?
    ensures !Newer(Translated(m, timestamp).1, Translated(m, timestamp).0.lastTimestamp)
  {
  }
}
