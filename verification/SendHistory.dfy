/**
 The sending side of transport-wide feedback: a contiguous queue of sent packets looked up by the
 16-bit numbers that come back in feedback (`transport_feedback_send_history`), and the numbering
 of outgoing packets in `session/whep_session_transport.cpp`. Times are integer microseconds.
 */
module SendHistory {
  import opened Wire
  import opened FeedbackPacket

  const MODULUS: nat := 0x1_0000
  const HALF_RANGE: nat := 0x8000

  datatype Sent = Sent(size: nat, retransmission: bool, sentAt: int)

  datatype Record = Record(extended: nat, packet: Sent)

  /** Records carry consecutive numbers that end just below `next`. */
  ghost predicate Contiguous(records: seq<Record>, next: nat) {
    && |records| <= next
    && forall i :: 0 <= i < |records| ==> records[i].extended == next - |records| + i
  }

  ghost predicate Live(records: seq<Record>, extended: int) {
    exists i :: 0 <= i < |records| && records[i].extended == extended
  }

  function Find(records: seq<Record>, sequence: U16): Option<nat> {
    if records == [] then None
    else
      var newest := records[|records| - 1].extended;
      var candidate := Unwrap(newest, sequence);
      if candidate < 0 || candidate < records[0].extended || candidate > newest then None else Some(candidate)
  }

  /** The lookup answers with the only live record that was sent under this 16-bit number. */
  ghost predicate FindsItsRecord(records: seq<Record>, sequence: U16) {
    var found := Find(records, sequence);
    && (found.Some? ==> Live(records, found.value) && found.value % MODULUS == sequence)
    && (forall e: nat :: Live(records, e) && e % MODULUS == sequence ==> found == Some(e))
  }

  lemma LiveRange(records: seq<Record>, next: nat, e: int)
    requires Contiguous(records, next)
    ensures Live(records, e) <==> next - |records| <= e < next
  {
    if next - |records| <= e < next {
      assert records[e - (next - |records|)].extended == e;
    }
  }

  lemma FindExact(records: seq<Record>, next: nat, sequence: U16)
    requires Contiguous(records, next)
    requires |records| <= HALF_RANGE || (|records| == HALF_RANGE + 1 && (next - 1) % MODULUS >= HALF_RANGE)
    ensures FindsItsRecord(records, sequence)
  {
    hide Unwrap;
    forall e: nat | Live(records, e) && e % MODULUS == sequence
      ensures Find(records, sequence) == Some(e)
    {
      LiveRange(records, next, e);
      CongruentEqual(e, Unwrap(next - 1, sequence));
    }
    var found := Find(records, sequence);
    if found.Some? {
      LiveRange(records, next, found.value);
    }
  }

  /**
   The lookup is right for every 16-bit number exactly while at most 2^15 records are live; one
   more is tolerated only when the newest number lies in the upper half of its 16-bit block.
   */
  lemma FindExactIff(records: seq<Record>, next: nat)
    requires Contiguous(records, next)
    ensures (forall sequence: U16 :: FindsItsRecord(records, sequence)) <==>
            |records| <= HALF_RANGE || (|records| == HALF_RANGE + 1 && (next - 1) % MODULUS >= HALF_RANGE)
  {
    if |records| <= HALF_RANGE || (|records| == HALF_RANGE + 1 && (next - 1) % MODULUS >= HALF_RANGE) {
      forall sequence: U16
        ensures FindsItsRecord(records, sequence)
      {
        FindExact(records, next, sequence);
      }
    } else {
      var missed := MissedRecord(records, next);
    }
  }

  /** Beyond the limit some live record is not found under its own number. */
  lemma MissedRecord(records: seq<Record>, next: nat) returns (sequence: U16)
    requires Contiguous(records, next)
    requires |records| > HALF_RANGE
    requires !(|records| == HALF_RANGE + 1 && (next - 1) % MODULUS >= HALF_RANGE)
    ensures !FindsItsRecord(records, sequence)
  {
    var back := if |records| == HALF_RANGE + 1 then HALF_RANGE else HALF_RANGE + 1;
    var e: nat := next - 1 - back;
    LiveRange(records, next, e);
    sequence := e % MODULUS;
    assert records[|records| - 1].extended == next - 1;
    assert Find(records, sequence) != Some(e);
  }

  // ----- eviction -----

  ghost function AgedCount(records: seq<Record>, now: int, maxAge: int): (n: nat)
    ensures n <= |records|
    ensures forall i :: 0 <= i < n ==> now - records[i].packet.sentAt > maxAge
    ensures n == |records| || now - records[n].packet.sentAt <= maxAge
  {
    if records == [] || now - records[0].packet.sentAt <= maxAge then 0 else 1 + AgedCount(records[1..], now, maxAge)
  }

  /** Records pushed out because more than `maxPackets` remain after the aged ones are gone. */
  ghost function ExcessCount(records: seq<Record>, now: int, maxAge: int, maxPackets: nat): (n: nat)
    ensures AgedCount(records, now, maxAge) + n <= |records|
    ensures |records| - AgedCount(records, now, maxAge) - n <= maxPackets
    ensures n > 0 ==> |records| - AgedCount(records, now, maxAge) - n == maxPackets
  {
    Max(0, |records| - AgedCount(records, now, maxAge) - maxPackets)
  }

  ghost function Retained(records: seq<Record>, now: int, maxAge: int, maxPackets: nat): seq<Record> {
    records[AgedCount(records, now, maxAge) + ExcessCount(records, now, maxAge, maxPackets)..]
  }

  /** While packets were sent in the order of time, what remains is the longest run of latest records that are young enough and within the limit. */
  lemma RetainedIs(records: seq<Record>, now: int, maxAge: int, maxPackets: nat)
    requires forall i, j :: 0 <= i < j < |records| ==> records[i].packet.sentAt <= records[j].packet.sentAt
    ensures var r := Retained(records, now, maxAge, maxPackets);
            var gone := |records| - |r|;
            && |r| <= maxPackets && gone >= 0 && r == records[gone..]
            && (forall i :: gone <= i < |records| ==> now - records[i].packet.sentAt <= maxAge)
            && (gone > 0 ==> now - records[gone - 1].packet.sentAt > maxAge || |r| == maxPackets)
  {
    hide AgedCount;
  }

  /** The records that remain once the `evicted` oldest are gone are still contiguous. */
  lemma DropKeepsContiguous(records: seq<Record>, next: nat, evicted: nat)
    requires Contiguous(records, next) && evicted <= |records|
    ensures Contiguous(records[evicted..], next)
  {
  }

  lemma AppendKeepsContiguous(records: seq<Record>, next: nat, packet: Sent)
    requires Contiguous(records, next)
    ensures Contiguous(records + [Record(next, packet)], next + 1)
  {
  }

  // ----- feedback -----

  datatype Observation = Observation(hits: nat, misses: nat, received: nat, notReceived: nat, receivedBytes: nat, notReceivedBytes: nat,
                                     receivedAgain: nat, notReceivedAgain: nat, maximumDelay: nat)

  const NOTHING: Observation := Observation(0, 0, 0, 0, 0, 0, 0, 0, 0)

  /** Whole milliseconds from sending to feedback. */
  function Delay(packet: Sent, now: int): (d: nat)
    ensures now >= packet.sentAt ==> d * 1000 <= now - packet.sentAt < (d + 1) * 1000
    ensures now < packet.sentAt ==> d == 0
  {
    if now >= packet.sentAt then (now - packet.sentAt) / 1000 else 0
  }

  /** The packet a status speaks of. */
  ghost function Named(records: seq<Record>, next: nat, status: Status): Option<Sent>
    requires Contiguous(records, next)
  {
    var found := Find(records, status.sequence);
    if found.None? then None else Some(records[found.value - records[0].extended].packet)
  }

  function Tally(o: Observation, status: Status, packet: Option<Sent>, now: int): Observation {
    if packet.None? then o.(misses := o.misses + 1)
    else
      var p := packet.value;
      var u := o.(hits := o.hits + 1, maximumDelay := Max(o.maximumDelay, Delay(p, now)));
      var again := if p.retransmission then 1 else 0;
      if status.received then
        u.(received := o.received + 1, receivedBytes := o.receivedBytes + p.size, receivedAgain := o.receivedAgain + again)
      else
        u.(notReceived := o.notReceived + 1, notReceivedBytes := o.notReceivedBytes + p.size, notReceivedAgain := o.notReceivedAgain + again)
  }

  ghost function TallyAll(records: seq<Record>, next: nat, statuses: seq<Status>, now: int): Observation
    requires Contiguous(records, next)
  {
    if statuses == [] then NOTHING
    else
      var last := statuses[|statuses| - 1];
      Tally(TallyAll(records, next, statuses[..|statuses| - 1], now), last, Named(records, next, last), now)
  }

  /** Every status is a hit or a miss, every hit a receipt or a loss, and retransmissions are among them. */
  lemma {:induction false} TallyBalances(records: seq<Record>, next: nat, statuses: seq<Status>, now: int)
    requires Contiguous(records, next)
    ensures var o := TallyAll(records, next, statuses, now);
            && o.hits + o.misses == |statuses| && o.received + o.notReceived == o.hits
            && o.receivedAgain <= o.received && o.notReceivedAgain <= o.notReceived
  {
    hide Named, Delay;
    if statuses != [] {
      TallyBalances(records, next, statuses[..|statuses| - 1], now);
    }
  }

  /** The statuses that found their packet and say `received`. */
  ghost function Found(records: seq<Record>, next: nat, statuses: seq<Status>, received: bool): set<nat>
    requires Contiguous(records, next)
  {
    set i: nat | i < |statuses| && Named(records, next, statuses[i]).Some? && statuses[i].received == received
  }

  ghost function FoundAgain(records: seq<Record>, next: nat, statuses: seq<Status>, received: bool): set<nat>
    requires Contiguous(records, next)
  {
    set i: nat | i < |statuses| && Named(records, next, statuses[i]).Some? && statuses[i].received == received
                 && Named(records, next, statuses[i]).value.retransmission
  }

  ghost function Missed(records: seq<Record>, next: nat, statuses: seq<Status>): set<nat>
    requires Contiguous(records, next)
  {
    set i: nat | i < |statuses| && Named(records, next, statuses[i]).None?
  }

  /** The bytes of the packets that such statuses speak of. */
  ghost function SizeOf(records: seq<Record>, next: nat, statuses: seq<Status>, received: bool): nat
    requires Contiguous(records, next)
  {
    if statuses == [] then 0
    else
      var packet := Named(records, next, statuses[0]);
      (if packet.Some? && statuses[0].received == received then packet.value.size else 0) + SizeOf(records, next, statuses[1..], received)
  }

  lemma {:induction false} SizeOfSnoc(records: seq<Record>, next: nat, statuses: seq<Status>, last: Status, received: bool)
    requires Contiguous(records, next)
    ensures SizeOf(records, next, statuses + [last], received) ==
            SizeOf(records, next, statuses, received) +
            if Named(records, next, last).Some? && last.received == received then Named(records, next, last).value.size else 0
  {
    hide Named, Contiguous;
    if statuses == [] {
      assert statuses + [last] == [last] && [last][1..] == [];
    } else {
      assert (statuses + [last])[1..] == statuses[1..] + [last];
      SizeOfSnoc(records, next, statuses[1..], last, received);
    }
  }

  lemma FoundSnoc(records: seq<Record>, next: nat, statuses: seq<Status>, received: bool)
    requires Contiguous(records, next) && statuses != []
    ensures var n := |statuses| - 1;
            var last := Named(records, next, statuses[n]);
            && Found(records, next, statuses, received) ==
               Found(records, next, statuses[..n], received) + (if last.Some? && statuses[n].received == received then {n} else {})
            && n !in Found(records, next, statuses[..n], received)
            && FoundAgain(records, next, statuses, received) ==
               FoundAgain(records, next, statuses[..n], received)
               + (if last.Some? && statuses[n].received == received && last.value.retransmission then {n} else {})
            && n !in FoundAgain(records, next, statuses[..n], received)
            && Missed(records, next, statuses) == Missed(records, next, statuses[..n]) + (if last.None? then {n} else {})
            && n !in Missed(records, next, statuses[..n])
  {
    hide Named, Contiguous;
  }

  lemma TallyLast(records: seq<Record>, next: nat, statuses: seq<Status>, now: int)
    requires Contiguous(records, next) && statuses != []
    ensures var front, last := statuses[..|statuses| - 1], statuses[|statuses| - 1];
            var o, u, p := TallyAll(records, next, front, now), TallyAll(records, next, statuses, now), Named(records, next, last);
            && u.misses == o.misses + (if p.None? then 1 else 0)
            && u.hits == o.hits + (if p.Some? then 1 else 0)
            && u.received == o.received + (if p.Some? && last.received then 1 else 0)
            && u.notReceived == o.notReceived + (if p.Some? && !last.received then 1 else 0)
            && u.receivedBytes == o.receivedBytes + (if p.Some? && last.received then p.value.size else 0)
            && u.notReceivedBytes == o.notReceivedBytes + (if p.Some? && !last.received then p.value.size else 0)
            && u.receivedAgain == o.receivedAgain + (if p.Some? && last.received && p.value.retransmission then 1 else 0)
            && u.notReceivedAgain == o.notReceivedAgain + (if p.Some? && !last.received && p.value.retransmission then 1 else 0)
  {
    hide Named, Delay, Contiguous;
  }

  lemma OneMoreIndex(a: set<nat>, b: set<nat>, n: nat, more: bool)
    requires n !in a && b == a + (if more then {n} else {})
    ensures |b| == |a| + if more then 1 else 0
  {
    if !more {
      assert b == a;
    }
  }

  lemma FoundSizes(records: seq<Record>, next: nat, statuses: seq<Status>, received: bool)
    requires Contiguous(records, next) && statuses != []
    ensures var n := |statuses| - 1;
            var last, front := Named(records, next, statuses[n]), statuses[..n];
            && |Found(records, next, statuses, received)| ==
               |Found(records, next, front, received)| + (if last.Some? && statuses[n].received == received then 1 else 0)
            && |FoundAgain(records, next, statuses, received)| ==
               |FoundAgain(records, next, front, received)|
               + (if last.Some? && statuses[n].received == received && last.value.retransmission then 1 else 0)
            && |Missed(records, next, statuses)| == |Missed(records, next, front)| + (if last.None? then 1 else 0)
            && SizeOf(records, next, statuses, received) ==
               SizeOf(records, next, front, received) + (if last.Some? && statuses[n].received == received then last.value.size else 0)
  {
    hide Named, Contiguous, Found, FoundAgain, Missed, SizeOf;
    var n := |statuses| - 1;
    var last, front := Named(records, next, statuses[n]), statuses[..n];
    FoundSnoc(records, next, statuses, received);
    var counts := last.Some? && statuses[n].received == received;
    OneMoreIndex(Found(records, next, front, received), Found(records, next, statuses, received), n, counts);
    OneMoreIndex(FoundAgain(records, next, front, received), FoundAgain(records, next, statuses, received), n, counts && last.value.retransmission);
    OneMoreIndex(Missed(records, next, front), Missed(records, next, statuses), n, last.None?);
    assert statuses == front + [statuses[n]];
    SizeOfSnoc(records, next, front, statuses[n], received);
  }

  lemma NothingCounted(records: seq<Record>, next: nat, received: bool)
    requires Contiguous(records, next)
    ensures Found(records, next, [], received) == {} && FoundAgain(records, next, [], received) == {} && Missed(records, next, []) == {}
    ensures SizeOf(records, next, [], received) == 0
  {
  }

  /** The observation counts what it names: receipts and losses of found packets, their bytes and their retransmissions, and the misses. */
  lemma {:induction false} TallyCounts(records: seq<Record>, next: nat, statuses: seq<Status>, now: int)
    requires Contiguous(records, next)
    ensures var o := TallyAll(records, next, statuses, now);
            && o.received == |Found(records, next, statuses, true)| && o.notReceived == |Found(records, next, statuses, false)|
            && o.receivedAgain == |FoundAgain(records, next, statuses, true)| && o.notReceivedAgain == |FoundAgain(records, next, statuses, false)|
            && o.receivedBytes == SizeOf(records, next, statuses, true) && o.notReceivedBytes == SizeOf(records, next, statuses, false)
            && o.misses == |Missed(records, next, statuses)| && o.hits == o.received + o.notReceived
  {
    hide Named, Delay, Contiguous, Tally, Found, FoundAgain, Missed, SizeOf;
    if statuses == [] {
      NothingCounted(records, next, true);
      NothingCounted(records, next, false);
    } else {
      var front := statuses[..|statuses| - 1];
      TallyCounts(records, next, front, now);
      TallyLast(records, next, statuses, now);
      FoundSizes(records, next, statuses, true);
      FoundSizes(records, next, statuses, false);
    }
  }

  /** The reported delay is the longest among the packets that were found. */
  lemma {:induction false} DelayIsLongest(records: seq<Record>, next: nat, statuses: seq<Status>, now: int)
    requires Contiguous(records, next)
    ensures var longest := TallyAll(records, next, statuses, now).maximumDelay;
            && (forall i :: 0 <= i < |statuses| && Named(records, next, statuses[i]).Some? ==> Delay(Named(records, next, statuses[i]).value, now) <= longest)
            && (longest > 0 ==> exists i :: 0 <= i < |statuses| && Named(records, next, statuses[i]).Some?
                                            && Delay(Named(records, next, statuses[i]).value, now) == longest)
  {
    hide Named, Delay, Contiguous;
    if statuses != [] {
      var n := |statuses| - 1;
      var front := statuses[..n];
      DelayIsLongest(records, next, front, now);
      assert forall i :: 0 <= i < n ==> front[i] == statuses[i];
      var longest := TallyAll(records, next, front, now).maximumDelay;
      if longest > 0 {
        var i :| 0 <= i < |front| && Named(records, next, front[i]).Some? && Delay(Named(records, next, front[i]).value, now) == longest;
        assert Named(records, next, statuses[i]).Some?;
      }
      assert Named(records, next, statuses[n]) == Named(records, next, statuses[n]);
    }
  }

  // ----- the 8-bit feedback count -----

  /** The last count seen, and what the counts said about the feedback packets. */
  datatype FeedbackCounts = FeedbackCounts(last: Option<Byte>, duplicates: nat, gaps: nat, reordered: nat)

  const UNCOUNTED: FeedbackCounts := FeedbackCounts(None, 0, 0, 0)

  function CountObserved(f: FeedbackCounts, count: Byte): FeedbackCounts {
    if f.last.None? then f.(last := Some(count))
    else
      var step := (count - f.last.value) % 0x100;
      if step == 0 then f.(duplicates := f.duplicates + 1)
      else if step < 128 then f.(last := Some(count), gaps := f.gaps + step - 1)
      else f.(reordered := f.reordered + 1)
  }

  ghost function AllCounted(f: FeedbackCounts, counts: seq<Byte>): FeedbackCounts {
    if counts == [] then f else CountObserved(AllCounted(f, counts[..|counts| - 1]), counts[|counts| - 1])
  }

  /** The counts of the feedback packets `packets`, numbered from 0 as the receiver built them. */
  ghost function CountsOf(packets: seq<nat>): (counts: seq<Byte>)
    ensures |counts| == |packets|
  {
    seq(|packets|, i requires 0 <= i < |packets| => packets[i] % 0x100)
  }

  /** Each arrives after the one before it, and fewer than 127 in between are lost. */
  ghost predicate InOrder(packets: seq<nat>) {
    forall i :: 0 < i < |packets| ==> 0 < packets[i] - packets[i - 1] < 128
  }

  /** While feedback arrives in order, the gaps are exactly the feedback packets that did not arrive in between. */
  lemma {:induction false} GapsAreLostFeedback(packets: seq<nat>)
    requires packets != [] && InOrder(packets)
    ensures var f, n := AllCounted(UNCOUNTED, CountsOf(packets)), |packets| - 1;
            && f.last == Some(packets[n] % 0x100)
            && f.gaps == packets[n] - packets[0] - n
            && f.duplicates == 0 && f.reordered == 0
  {
    hide CountObserved, InOrder;
    var n := |packets| - 1;
    var front := packets[..n];
    assert CountsOf(packets)[..n] == CountsOf(front);
    if n == 0 {
      FirstCounted(packets[0] % 0x100);
      assert AllCounted(UNCOUNTED, CountsOf(front)) == UNCOUNTED;
    } else {
      InOrderFront(packets);
      GapsAreLostFeedback(front);
      NextCounted(AllCounted(UNCOUNTED, CountsOf(front)), packets[n - 1], packets[n]);
    }
  }

  lemma InOrderFront(packets: seq<nat>)
    requires |packets| >= 2 && InOrder(packets)
    ensures InOrder(packets[..|packets| - 1]) && 0 < packets[|packets| - 1] - packets[|packets| - 2] < 128
  {
  }

  lemma FirstCounted(count: Byte)
    ensures CountObserved(UNCOUNTED, count) == FeedbackCounts(Some(count), 0, 0, 0)
  {
  }

  lemma NextCounted(f: FeedbackCounts, a: nat, b: nat)
    requires f.last == Some(a % 0x100) && 0 < b - a < 128
    ensures CountObserved(f, b % 0x100) == f.(last := Some(b % 0x100), gaps := f.gaps + b - a - 1)
  {
    assert (b % 0x100 - a % 0x100) % 0x100 == b - a;
  }

  class History {
    const maxAge: int
    const maxPackets: nat
    var next: nat
    var records: seq<Record>
    var lastFeedbackCount: Option<Byte>
    var sent: nat
    var evictedAge: nat
    var evictedCapacity: nat
    var feedbackStatuses: nat
    var hits: nat
    var misses: nat
    var duplicates: nat
    var gaps: nat
    var reordered: nat

    function Counts(): FeedbackCounts
      reads this
    {
      FeedbackCounts(lastFeedbackCount, duplicates, gaps, reordered)
    }

    ghost predicate Valid()
      reads this
    {
      && Contiguous(records, next)
      && |records| <= maxPackets
      && sent == |records| + evictedAge + evictedCapacity
      && sent == next
      && hits + misses == feedbackStatuses
    }

    constructor (maxAge: int, maxPackets: nat)
      ensures Valid() && records == [] && next == 0 && Counts() == UNCOUNTED && feedbackStatuses == 0
      ensures this.maxAge == maxAge && this.maxPackets == maxPackets
    {
      this.maxAge := maxAge;
      this.maxPackets := maxPackets;
      next, records, lastFeedbackCount := 0, [], None;
      sent, evictedAge, evictedCapacity := 0, 0, 0;
      feedbackStatuses, hits, misses := 0, 0, 0;
      duplicates, gaps, reordered := 0, 0, 0;
    }

    method Reset()
      modifies this
      ensures Valid() && records == [] && next == 0 && Counts() == UNCOUNTED && feedbackStatuses == 0
    {
      next, records, lastFeedbackCount := 0, [], None;
      sent, evictedAge, evictedCapacity := 0, 0, 0;
      feedbackStatuses, hits, misses := 0, 0, 0;
      duplicates, gaps, reordered := 0, 0, 0;
    }

    method EvictOld(now: int)
      requires Contiguous(records, next)
      modifies this`records, this`evictedAge, this`evictedCapacity
      ensures Contiguous(records, next)
      ensures records == Retained(old(records), now, maxAge, maxPackets)
      ensures evictedAge == old(evictedAge) + AgedCount(old(records), now, maxAge)
      ensures evictedCapacity == old(evictedCapacity) + ExcessCount(old(records), now, maxAge, maxPackets)
    {
      hide Contiguous, AgedCount;
      EvictAged(now);
      EvictExcess();
      DropKeepsContiguous(old(records), next, |old(records)| - |records|);
    }

    method EvictAged(now: int)
      modifies this`records, this`evictedAge
      ensures records == old(records)[AgedCount(old(records), now, maxAge)..]
      ensures evictedAge == old(evictedAge) + AgedCount(old(records), now, maxAge)
    {
      ghost var gone := 0;
      while records != [] && now - records[0].packet.sentAt > maxAge
        invariant gone <= |old(records)| && records == old(records)[gone..]
        invariant AgedCount(old(records), now, maxAge) == gone + AgedCount(records, now, maxAge)
        invariant evictedAge == old(evictedAge) + gone
        decreases |records|
      {
        records := records[1..];
        evictedAge := evictedAge + 1;
        gone := gone + 1;
      }
    }

    method EvictExcess()
      modifies this`records, this`evictedCapacity
      ensures records == old(records)[Max(0, |old(records)| - maxPackets)..]
      ensures evictedCapacity == old(evictedCapacity) + Max(0, |old(records)| - maxPackets)
    {
      ghost var gone := 0;
      while |records| > maxPackets
        invariant gone <= |old(records)| && records == old(records)[gone..]
        invariant gone == 0 || |records| >= maxPackets
        invariant evictedCapacity == old(evictedCapacity) + gone
        decreases |records|
      {
        records := records[1..];
        evictedCapacity := evictedCapacity + 1;
        gone := gone + 1;
      }
    }

    method NextSequenceNumber() returns (n: U16)
      ensures n == next % MODULUS
    {
      n := next % MODULUS;
    }

    method RememberSent(packet: Sent)
      requires Valid()
      modifies this
      ensures Valid() && next == old(next) + 1
      ensures records == Retained(old(records) + [Record(old(next), packet)], packet.sentAt, maxAge, maxPackets)
      ensures maxAge >= 0 && maxPackets > 0 ==> records != [] && records[|records| - 1] == Record(old(next), packet)
      ensures evictedAge == old(evictedAge) + AgedCount(old(records) + [Record(old(next), packet)], packet.sentAt, maxAge)
      ensures Counts() == old(Counts()) && hits == old(hits) && misses == old(misses) && feedbackStatuses == old(feedbackStatuses)
    {
      hide Contiguous, AgedCount;
      AppendKeepsContiguous(records, next, packet);
      records := records + [Record(next, packet)];
      ghost var all := records;
      assert all[|all| - 1] == Record(next, packet);
      next := next + 1;
      sent := sent + 1;
      EvictOld(packet.sentAt);
    }

    /**
     One outgoing packet: the number is written before the packet is protected and sent, and is
     used up only by a packet that carries it and went out.
     */
    method Send(packet: Sent, carriesNumber: bool, delivered: bool) returns (number: U16)
      requires Valid()
      modifies this
      ensures Valid()
      ensures number == old(next) % MODULUS
      ensures next == old(next) + if carriesNumber && delivered then 1 else 0
      ensures records == if carriesNumber && delivered then Retained(old(records) + [Record(old(next), packet)], packet.sentAt, maxAge, maxPackets)
                         else old(records)
      ensures Counts() == old(Counts()) && hits == old(hits) && misses == old(misses) && feedbackStatuses == old(feedbackStatuses)
      ensures carriesNumber && delivered && maxAge >= 0 && 0 < maxPackets <= HALF_RANGE ==>
                && Find(records, number) == Some(old(next))
                && records[|records| - 1].packet == packet
    {
      number := NextSequenceNumber();
      if carriesNumber && delivered {
        RememberSent(packet);
        if maxPackets <= HALF_RANGE {
          FindExact(records, next, number);
          LiveRange(records, next, old(next));
        }
      }
    }

    method ObserveFeedbackCount(count: Byte)
      modifies this`lastFeedbackCount, this`duplicates, this`gaps, this`reordered
      ensures Counts() == CountObserved(old(Counts()), count)
      ensures old(lastFeedbackCount).None? ==>
                lastFeedbackCount == Some(count) && gaps == old(gaps) && duplicates == old(duplicates) && reordered == old(reordered)
      ensures old(lastFeedbackCount).Some? ==>
                var step := (count - old(lastFeedbackCount).value) % 0x100;
                && lastFeedbackCount == (if 0 < step < 128 then Some(count) else old(lastFeedbackCount))
                && duplicates == old(duplicates) + (if step == 0 then 1 else 0)
                && gaps == old(gaps) + (if 0 < step < 128 then step - 1 else 0)
                && reordered == old(reordered) + (if step >= 128 then 1 else 0)
    {
      if lastFeedbackCount.None? {
        lastFeedbackCount := Some(count);
        return;
      }
      var step := (count - lastFeedbackCount.value) % 0x100;
      if step == 0 {
        duplicates := duplicates + 1;
      } else if step < 128 {
        gaps := gaps + step - 1;
        lastFeedbackCount := Some(count);
      } else {
        reordered := reordered + 1;
      }
    }

    method Observe(feedback: Parsed, now: int) returns (o: Observation)
      requires Valid()
      modifies this
      ensures Valid()
      ensures next == old(next) && records == Retained(old(records), now, maxAge, maxPackets)
      ensures o == TallyAll(records, next, feedback.statuses, now)
      ensures o.hits + o.misses == |feedback.statuses| && o.received + o.notReceived == o.hits
      ensures hits == old(hits) + o.hits && misses == old(misses) + o.misses
      ensures feedbackStatuses == old(feedbackStatuses) + |feedback.statuses|
      ensures Counts() == CountObserved(old(Counts()), feedback.header.feedbackCount)
      ensures sent == old(sent) && evictedAge == old(evictedAge) + AgedCount(old(records), now, maxAge)
    {
      hide TallyAll, AgedCount, ExcessCount, Find;
      EvictOld(now);
      ObserveFeedbackCount(feedback.header.feedbackCount);
      o := Account(feedback.statuses, now);
      TallyBalances(records, next, feedback.statuses, now);
      feedbackStatuses := feedbackStatuses + |feedback.statuses|;
      hits := hits + o.hits;
      misses := misses + o.misses;
    }

    method Account(statuses: seq<Status>, now: int) returns (o: Observation)
      requires Contiguous(records, next)
      ensures o == TallyAll(records, next, statuses, now)
    {
      hide Find, Contiguous;
      o := NOTHING;
      for i := 0 to |statuses|
        invariant o == TallyAll(records, next, statuses[..i], now)
      {
        assert statuses[..i + 1][..i] == statuses[..i];
        var packet := Lookup(statuses[i]);
        o := Tally(o, statuses[i], packet, now);
      }
      assert statuses[..|statuses|] == statuses;
    }

    /** The deque index of a found record is always in bounds. */
    method Lookup(status: Status) returns (packet: Option<Sent>)
      requires Contiguous(records, next)
      ensures packet == Named(records, next, status)
    {
      var found := Find(records, status.sequence);
      if found.None? {
        return None;
      }
      packet := Some(records[found.value - records[0].extended].packet);
    }
  }
}
