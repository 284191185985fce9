/**
 The receiving side of transport-wide feedback: unwrapping of 16-bit numbers, the sliding window of
 arrivals, and the packets built from it (`transport_feedback_generator`).
 Times are integer microseconds.
 */
module FeedbackGenerator {
  import opened Wire
  import opened StatusChunks
  import opened FeedbackPacket

  const TICK: int := 250
  const REFERENCE_UNIT: int := 64000
  const MODULUS: int := 0x1_0000
  const MAX_JUMP: int := 4096
  const MAX_STATUSES: int := 4096

  // ----- quantisation -----

  function FloorReferenceTime(arrival: int): (r: int)
    ensures 0 <= arrival - r * REFERENCE_UNIT < REFERENCE_UNIT
  {
    if arrival >= 0 then arrival / REFERENCE_UNIT
    else -((-arrival + REFERENCE_UNIT - 1) / REFERENCE_UNIT)
  }

  /** The nearest tick: rounding never moves a time by more than half a tick. */
  function RoundDeltaTicks(delta: int): (t: int)
    ensures -TICK <= 2 * (delta - t * TICK) <= TICK
    ensures 0 <= delta < REFERENCE_UNIT ==> 0 <= t <= 256
  {
    if delta >= 0 then TruncDiv(delta + TICK / 2, TICK) else TruncDiv(delta - TICK / 2, TICK)
  }

  // ----- the state and its operations as functions -----

  datatype State = State(newest: Option<int>, windowStart: Option<int>, arrivals: map<int, int>, mediaSsrc: U32, feedbackCount: Byte)

  datatype Limits = Limits(maxAge: int, maxPackets: nat)

  const EMPTY: State := State(None, None, map[], 0, 0)

  /** The extended number an observation lands on. */
  function Landing(s: State, sequence: U16): int {
    if s.newest.None? then sequence else Unwrap(s.newest.value, sequence)
  }

  predicate Discontinuity(s: State, sequence: U16) {
    s.newest.Some? && (Landing(s, sequence) - s.newest.value > MAX_JUMP || s.newest.value - Landing(s, sequence) > MAX_JUMP)
  }

  function Unwrapped(s: State, sequence: U16): State {
    var landing := Landing(s, sequence);
    if s.newest.None? then s.(newest := Some(landing))
    else if Discontinuity(s, sequence) then s.(arrivals := map[], windowStart := Some(landing), newest := Some(landing))
    else s.(newest := Some(Max(s.newest.value, landing)))
  }

  function Inserted(s: State, sequence: U16, now: int, ssrc: U32): State {
    var landing, u := Landing(s, sequence), Unwrapped(s, sequence);
    if landing in u.arrivals then u.(mediaSsrc := ssrc)
    else
      u.(mediaSsrc := ssrc,
         arrivals := u.arrivals[landing := now],
         windowStart := if u.windowStart.None? || landing < u.windowStart.value then Some(landing) else u.windowStart)
  }

  lemma {:induction false} FindLeastKey(keys: set<int>) returns (least: int)
    requires keys != {}
    ensures least in keys && forall j :: j in keys ==> least <= j
  {
    least := AnElement(keys);
    var rest := keys - {least};
    if rest != {} {
      var k := FindLeastKey(rest);
      assert keys == rest + {least};
      least := Min(least, k);
    }
  }

  ghost function LeastKey(keys: set<int>): (k: int)
    requires keys != {}
    ensures k in keys && forall j :: j in keys ==> k <= j
  {
    assert exists k :: k in keys && forall j :: j in keys ==> k <= j by {
      var least := FindLeastKey(keys);
    }
    var k :| k in keys && forall j :: j in keys ==> k <= j;
    k
  }

  function Fresh(arrivals: map<int, int>, now: int, maxAge: int): map<int, int> {
    map k | k in arrivals && now - arrivals[k] <= maxAge :: arrivals[k]
  }

  /** The `limit` highest-numbered arrivals. */
  ghost function DropLowest(arrivals: map<int, int>, limit: nat): (r: map<int, int>)
    ensures r.Keys <= arrivals.Keys && forall k :: k in r ==> r[k] == arrivals[k]
    ensures |r| == Min(limit, |arrivals|)
    ensures forall k, j :: k in r && j in arrivals && j !in r ==> j < k
    decreases |arrivals|
  {
    if |arrivals| <= limit then arrivals
    else
      var least := LeastKey(arrivals.Keys);
      var rest := arrivals - {least};
      assert rest.Keys == arrivals.Keys - {least} && |rest| == |arrivals| - 1;
      DropLowest(rest, limit)
  }

  ghost function Retained(s: State, limits: Limits, now: int): map<int, int> {
    DropLowest(Fresh(s.arrivals, now, limits.maxAge), limits.maxPackets)
  }

  ghost function Evicted(s: State, limits: Limits, now: int): State {
    var arrivals := Retained(s, limits, now);
    s.(arrivals := arrivals,
       windowStart :=
         if s.windowStart.None? then None
         else if arrivals == map[] then (if s.newest.Some? then Some(s.newest.value + 1) else None)
         else Some(Max(s.windowStart.value, LeastKey(arrivals.Keys) - (MAX_STATUSES - 1))))
  }

  ghost function Observed(s: State, limits: Limits, sequence: U16, now: int, ssrc: U32): State {
    Evicted(Inserted(s, sequence, now, ssrc), limits, now)
  }

  predicate Pending(s: State) {
    s.windowStart.Some? && s.newest.Some? && s.windowStart.value <= s.newest.value
  }

  function PendingCount(s: State): nat {
    if Pending(s) then s.newest.value - s.windowStart.value + 1 else 0
  }

  predicate CommitAccepted(s: State, begin: int, end: int, count: Byte) {
    s.windowStart == Some(begin) && begin <= end && count == s.feedbackCount
  }

  function Committed(s: State, begin: int, end: int, count: Byte): State {
    if CommitAccepted(s, begin, end, count)
    then s.(windowStart := Some(end + 1), feedbackCount := (s.feedbackCount + 1) % 0x100)
    else s
  }

  // ----- what every step keeps -----

  ghost predicate Inv(s: State) {
    && (s.newest.Some? <==> s.windowStart.Some?)
    && (s.newest.None? ==> s.arrivals == map[])
    && (s.newest.Some? ==>
          && (forall k :: k in s.arrivals ==> k <= s.newest.value)
          && s.windowStart.value <= s.newest.value + 1
          && (s.arrivals == map[] ==> s.windowStart.value == s.newest.value + 1))
  }

  lemma ObservedKeepsInv(s: State, limits: Limits, sequence: U16, now: int, ssrc: U32)
    requires Inv(s)
    ensures Inv(Observed(s, limits, sequence, now, ssrc))
  {
    var i := Inserted(s, sequence, now, ssrc);
    assert i.newest.Some? && i.windowStart.Some? && i.windowStart.value <= i.newest.value + 1;
    assert forall k :: k in i.arrivals ==> k <= i.newest.value;
    EvictedKeepsInv(i, limits, now);
  }

  /** Eviction needs less than the invariant: it also restores the empty-window clause. */
  lemma EvictedKeepsInv(s: State, limits: Limits, now: int)
    requires s.newest.Some? <==> s.windowStart.Some?
    requires s.newest.None? ==> s.arrivals == map[]
    requires s.newest.Some? ==> s.windowStart.value <= s.newest.value + 1
    requires s.newest.Some? ==> forall k :: k in s.arrivals ==> k <= s.newest.value
    ensures Inv(Evicted(s, limits, now))
    ensures s.windowStart.Some? ==> Evicted(s, limits, now).windowStart.value >= s.windowStart.value
  {
    var young := Fresh(s.arrivals, now, limits.maxAge);
    assert young.Keys <= s.arrivals.Keys;
    var r := Retained(s, limits, now);
    if s.newest.Some? && r != map[] {
      assert r.Keys != {};
      var least := LeastKey(r.Keys);
      assert least in s.arrivals;
    }
  }

  /** The pending count is the plain difference of newest and window start, which never goes below zero. */
  lemma PendingNeverUnderflows(s: State)
    requires Inv(s)
    ensures s.newest.Some? ==> s.windowStart.Some? && s.newest.value - s.windowStart.value + 1 == PendingCount(s) >= 0
    ensures s.newest.None? ==> PendingCount(s) == 0
  {
  }

  // ----- runs -----

  datatype Op =
    | Observe(sequence: U16, now: int, ssrc: U32)
    | Expire(now: int)
    | Report(end: int)
    | Reset

  /** A report is a preview followed by its commit; a preview only ever ends inside the pending range. */
  predicate Enabled(s: State, op: Op) {
    op.Report? ==> Pending(s) && s.windowStart.value <= op.end <= Min(s.newest.value, s.windowStart.value + MAX_STATUSES - 1)
  }

  ghost function Apply(s: State, limits: Limits, op: Op): State
    requires Enabled(s, op)
  {
    match op
    case Observe(sequence, now, ssrc) => Observed(s, limits, sequence, now, ssrc)
    case Expire(now) => Evicted(s, limits, now)
    case Report(end) => Committed(s, s.windowStart.value, end, s.feedbackCount)
    case Reset => EMPTY
  }

  ghost predicate IsRun(s: State, limits: Limits, ops: seq<Op>)
    decreases |ops|
  {
    ops == [] || (Enabled(s, ops[0]) && IsRun(Apply(s, limits, ops[0]), limits, ops[1..]))
  }

  ghost function Final(s: State, limits: Limits, ops: seq<Op>): State
    requires IsRun(s, limits, ops)
    decreases |ops|
  {
    if ops == [] then s else Final(Apply(s, limits, ops[0]), limits, ops[1..])
  }

  /** The ranges reported by a run, in order. */
  ghost function Reports(s: State, limits: Limits, ops: seq<Op>): seq<(int, int)>
    requires IsRun(s, limits, ops)
    decreases |ops|
  {
    if ops == [] then []
    else
      (if ops[0].Report? then [(s.windowStart.value, ops[0].end)] else []) + Reports(Apply(s, limits, ops[0]), limits, ops[1..])
  }

  lemma ApplyKeepsInv(s: State, limits: Limits, op: Op)
    requires Inv(s) && Enabled(s, op)
    ensures Inv(Apply(s, limits, op))
  {
    match op
    case Observe(sequence, now, ssrc) => ObservedKeepsInv(s, limits, sequence, now, ssrc);
    case Expire(now) => EvictedKeepsInv(s, limits, now);
    case Report(end) =>
    case Reset =>
  }

  /** The invariant holds after every run that starts from an empty generator. */
  lemma {:induction false} InvOverRuns(s: State, limits: Limits, ops: seq<Op>)
    requires Inv(s) && IsRun(s, limits, ops)
    ensures Inv(Final(s, limits, ops))
    decreases |ops|
  {
    if ops != [] {
      ApplyKeepsInv(s, limits, ops[0]);
      InvOverRuns(Apply(s, limits, ops[0]), limits, ops[1..]);
    }
  }

  /** No observation of the run falls behind the window, and the generator is not reset. */
  ghost predicate Forward(s: State, limits: Limits, ops: seq<Op>)
    requires IsRun(s, limits, ops)
    decreases |ops|
  {
    ops == [] ||
    (&& !ops[0].Reset?
     && (ops[0].Observe? && s.windowStart.Some? ==> Landing(s, ops[0].sequence) >= s.windowStart.value)
     && Forward(Apply(s, limits, ops[0]), limits, ops[1..]))
  }

  lemma WindowAdvances(s: State, limits: Limits, op: Op)
    requires Inv(s) && Enabled(s, op) && s.windowStart.Some? && !op.Reset?
    requires op.Observe? ==> Landing(s, op.sequence) >= s.windowStart.value
    ensures Apply(s, limits, op).windowStart.Some?
    ensures Apply(s, limits, op).windowStart.value >= s.windowStart.value
    ensures op.Report? ==> Apply(s, limits, op).windowStart == Some(op.end + 1)
  {
    if op.Observe? {
      var i := Inserted(s, op.sequence, op.now, op.ssrc);
      assert i.windowStart.value >= s.windowStart.value;
      EvictedKeepsInv(i, limits, op.now);
    } else if op.Expire? {
      EvictedKeepsInv(s, limits, op.now);
    }
  }

  /** Along a forward run the reported ranges follow one another and never overlap. */
  lemma {:induction false} ReportsDoNotOverlap(s: State, limits: Limits, ops: seq<Op>)
    requires Inv(s) && IsRun(s, limits, ops) && Forward(s, limits, ops)
    ensures forall i :: 0 <= i < |Reports(s, limits, ops)| ==>
              var r := Reports(s, limits, ops)[i];
              r.0 <= r.1 && (s.windowStart.Some? ==> s.windowStart.value <= r.0)
    ensures forall i, j :: 0 <= i < j < |Reports(s, limits, ops)| ==> Reports(s, limits, ops)[i].1 < Reports(s, limits, ops)[j].0
    decreases |ops|
  {
    if ops != [] {
      var next := Apply(s, limits, ops[0]);
      ApplyKeepsInv(s, limits, ops[0]);
      ReportsDoNotOverlap(next, limits, ops[1..]);
      if s.windowStart.Some? {
        WindowAdvances(s, limits, ops[0]);
      }
    }
  }

  /** A commit moves the window exactly when it is for the window as it stands, under the current count; any other changes nothing. */
  lemma CommittedIff(s: State, begin: int, end: int, count: Byte)
    ensures var n := Committed(s, begin, end, count);
            if s.windowStart == Some(begin) && begin <= end && count == s.feedbackCount then
              n.windowStart == Some(end + 1) && n == s.(windowStart := n.windowStart, feedbackCount := (count + 1) % 0x100)
            else n == s
  {
  }

  /** Two reports with nothing between them are adjacent. */
  lemma BackToBackReports(s: State, limits: Limits, first: int, second: int)
    requires Inv(s) && IsRun(s, limits, [Report(first), Report(second)])
    ensures Reports(s, limits, [Report(first), Report(second)]) == [(s.windowStart.value, first), (first + 1, second)]
    ensures s.windowStart.value <= first < second
  {
    var ops := [Report(first), Report(second)];
    assert ops[1..] == [Report(second)] && ops[1..][1..] == [];
    var next := Apply(s, limits, ops[0]);
    assert next.windowStart == Some(first + 1);
    assert Reports(next, limits, ops[1..]) == [(first + 1, second)] + Reports(Apply(next, limits, ops[1]), limits, []);
  }

  /** A packet that arrives late, behind the window, pulls the window back to itself: the next report starts there. */
  lemma LateArrivalReopensWindow(s: State, limits: Limits, sequence: U16, now: int, ssrc: U32)
    requires Inv(s) && s.windowStart.Some? && limits.maxAge >= 0
    requires Landing(s, sequence) < s.windowStart.value && !Discontinuity(s, sequence)
    requires Landing(s, sequence) !in s.arrivals
    requires |Fresh(Inserted(s, sequence, now, ssrc).arrivals, now, limits.maxAge)| <= limits.maxPackets
    ensures Observed(s, limits, sequence, now, ssrc).windowStart == Some(Landing(s, sequence))
    ensures Pending(Observed(s, limits, sequence, now, ssrc))
  {
    var i := Inserted(s, sequence, now, ssrc);
    var kept := Retained(i, limits, now);
    assert Landing(s, sequence) in i.arrivals && i.arrivals[Landing(s, sequence)] == now;
    assert Landing(s, sequence) in kept;
  }

  // ----- what is stored -----

  /** An arrival is kept exactly while it is young enough and fewer than the limit of young ones have higher numbers. */
  lemma RetainedIff(s: State, limits: Limits, now: int, k: int)
    ensures k in Retained(s, limits, now) <==>
            k in s.arrivals && now - s.arrivals[k] <= limits.maxAge && |Above(Fresh(s.arrivals, now, limits.maxAge).Keys, k)| < limits.maxPackets
    ensures k in Retained(s, limits, now) ==> Retained(s, limits, now)[k] == s.arrivals[k]
  {
    var young := Fresh(s.arrivals, now, limits.maxAge);
    var kept := DropLowest(young, limits.maxPackets);
    var above := Above(young.Keys, k);
    if k in kept {
      SubsetSize(above + {k}, kept.Keys);
      assert k !in above;
    } else if k in young {
      if |kept| == |young| {
        SubsetEqual(kept.Keys, young.Keys);
        assert false;
      }
      SubsetSize(kept.Keys, above);
    }
  }

  ghost function Above(keys: set<int>, k: int): set<int> {
    set j | j in keys && k < j
  }

  lemma SubsetSize(a: set<int>, b: set<int>)
    requires forall x :: x in a ==> x in b
    ensures |a| <= |b|
    decreases |b|
  {
    if a != {} {
      var x := AnElement(a);
      SubsetSize(a - {x}, b - {x});
    }
  }

  lemma SubsetEqual(a: set<int>, b: set<int>)
    requires (forall x :: x in a ==> x in b) && |a| == |b|
    ensures forall x :: x in b ==> x in a
  {
    forall x | x in b
      ensures x in a
    {
      if x !in a {
        SubsetSize(a, b - {x});
        assert false;
      }
    }
  }

  /** The observation puts the number in: it was not there, or everything there was forgotten. */
  predicate Stores(s: State, sequence: U16, k: int) {
    Landing(s, sequence) == k && (Discontinuity(s, sequence) || k !in s.arrivals)
  }

  /**
   After an observation the number it lands on has the time of now if it was new, and every other number
   that is left has the time it had; a number that was there, a duplicate's included, never gets a later one.
   */
  lemma ObservedTimes(s: State, limits: Limits, sequence: U16, now: int, ssrc: U32)
    ensures var n := Observed(s, limits, sequence, now, ssrc);
            && (forall k :: k in n.arrivals ==>
                  if Stores(s, sequence, k) then n.arrivals[k] == now
                  else k in s.arrivals && !Discontinuity(s, sequence) && n.arrivals[k] == s.arrivals[k])
            && n.newest == Some(if s.newest.None? || Discontinuity(s, sequence) then Landing(s, sequence) else Max(s.newest.value, Landing(s, sequence)))
            && n.mediaSsrc == ssrc && n.feedbackCount == s.feedbackCount
    ensures limits.maxAge >= 0 && limits.maxPackets > 0 && (s.newest.None? ==> s.arrivals == map[])
            && (forall j :: j in s.arrivals ==> s.newest.Some? && j <= s.newest.value) && (s.newest.Some? ==> s.newest.value <= Landing(s, sequence))
            && Stores(s, sequence, Landing(s, sequence)) ==>
              Landing(s, sequence) in Observed(s, limits, sequence, now, ssrc).arrivals
  {
    hide Landing, Discontinuity, Retained, Stores, Inserted;
    var i := Inserted(s, sequence, now, ssrc);
    var n := Observed(s, limits, sequence, now, ssrc);
    InsertedTimes(s, sequence, now, ssrc);
    forall k | k in n.arrivals
      ensures if Stores(s, sequence, k) then n.arrivals[k] == now
              else k in s.arrivals && !Discontinuity(s, sequence) && n.arrivals[k] == s.arrivals[k]
    {
      RetainedIff(i, limits, now, k);
    }
    NewestIsKept(i, limits, now, Landing(s, sequence));
  }

  lemma InsertedTimes(s: State, sequence: U16, now: int, ssrc: U32)
    ensures var n := Inserted(s, sequence, now, ssrc);
            && (forall k :: k in n.arrivals ==>
                  if Stores(s, sequence, k) then n.arrivals[k] == now
                  else k in s.arrivals && !Discontinuity(s, sequence) && n.arrivals[k] == s.arrivals[k])
            && n.newest == Some(if s.newest.None? || Discontinuity(s, sequence) then Landing(s, sequence) else Max(s.newest.value, Landing(s, sequence)))
            && n.mediaSsrc == ssrc && n.feedbackCount == s.feedbackCount
            && Landing(s, sequence) in n.arrivals
            && (forall j :: j in n.arrivals ==> j in s.arrivals || j == Landing(s, sequence))
  {
    hide Landing;
    if Discontinuity(s, sequence) {
      assert s.newest.Some?;
    }
  }

  lemma NewestIsKept(s: State, limits: Limits, now: int, k: int)
    ensures k in s.arrivals && s.arrivals[k] == now && limits.maxAge >= 0 && limits.maxPackets > 0 && (forall j :: j in s.arrivals ==> j <= k) ==>
              k in Retained(s, limits, now)
  {
    RetainedIff(s, limits, now, k);
    var above := Above(Fresh(s.arrivals, now, limits.maxAge).Keys, k);
    if k in s.arrivals && forall j :: j in s.arrivals ==> j <= k {
      if above != {} {
        var x := AnElement(above);
        assert false;
      }
    }
  }

  // ----- overlapping reports -----

  ghost predicate Meet(a: (int, int), b: (int, int)) {
    b.0 <= a.1 && a.0 <= b.1
  }

  /** The state in which a packet arrives after a report that ended at `end`. */
  ghost function Reported(s: State, end: int): State
    requires s.windowStart.Some?
  {
    Committed(s, s.windowStart.value, end, s.feedbackCount)
  }

  /** The window starts at or before `end`. */
  predicate StartsBy(s: State, end: int) {
    s.windowStart.Some? && s.windowStart.value <= end
  }

  /** Eviction leaves the window there: its lowest survivor is not too far on, or nothing survives and the newest lies before `end`. */
  ghost predicate EvictionLeaves(s: State, limits: Limits, now: int, end: int) {
    var kept := Retained(s, limits, now);
    if kept == map[] then s.newest.Some? && s.newest.value + 1 <= end else LeastKey(kept.Keys) - (MAX_STATUSES - 1) <= end
  }

  /**
   The step reopens what was reported up to `end`: an observation lands there as a new number or as a
   discontinuity, and its eviction leaves the window there.
   */
  ghost predicate Reopens(s: State, limits: Limits, op: Op, end: int) {
    && op.Observe?
    && (Discontinuity(s, op.sequence) || Landing(s, op.sequence) !in s.arrivals)
    && Landing(s, op.sequence) <= end
    && EvictionLeaves(Inserted(s, op.sequence, op.now, op.ssrc), limits, op.now, end)
  }

  /** The step leaves a reopened range open: no reset, no jump past it, and its eviction leaves the window there. */
  ghost predicate LeavesOpen(s: State, limits: Limits, op: Op, end: int) {
    match op
    case Observe(sequence, now, ssrc) =>
      (Discontinuity(s, sequence) ==> Landing(s, sequence) <= end) && EvictionLeaves(Inserted(s, sequence, now, ssrc), limits, now, end)
    case Expire(now) => EvictionLeaves(s, limits, now, end)
    case Report(_) => false
    case Reset => false
  }

  lemma InsertedStart(s: State, sequence: U16, now: int, ssrc: U32, end: int)
    requires Inv(s)
    ensures var i := Inserted(s, sequence, now, ssrc);
            && i.newest.Some? && i.windowStart.Some? && i.windowStart.value <= i.newest.value + 1
            && (!StartsBy(s, end) ==>
                  (StartsBy(i, end) <==> (Discontinuity(s, sequence) || Landing(s, sequence) !in s.arrivals) && Landing(s, sequence) <= end))
            && (StartsBy(s, end) ==> (StartsBy(i, end) <==> (Discontinuity(s, sequence) ==> Landing(s, sequence) <= end)))
  {
    hide Landing;
  }

  lemma EvictedStart(s: State, limits: Limits, now: int, end: int)
    requires s.newest.Some? <==> s.windowStart.Some?
    requires s.newest.Some? ==> s.windowStart.value <= s.newest.value + 1
    ensures StartsBy(Evicted(s, limits, now), end) <==> StartsBy(s, end) && EvictionLeaves(s, limits, now, end)
  {
    hide Retained;
  }

  /** One step that is not a report: the window gets to `end` by reopening, and stays by leaving it open. */
  lemma StartAfterStep(s: State, limits: Limits, op: Op, end: int)
    requires Inv(s) && Enabled(s, op) && !op.Report?
    ensures StartsBy(Apply(s, limits, op), end) <==> if StartsBy(s, end) then LeavesOpen(s, limits, op, end) else Reopens(s, limits, op, end)
  {
    hide Inserted, Evicted, EvictionLeaves, Discontinuity, Landing, StartsBy;
    match op
    case Observe(sequence, now, ssrc) =>
      InsertedStart(s, sequence, now, ssrc, end);
      InsertedParts(s, sequence, now, ssrc);
      EvictedStart(Inserted(s, sequence, now, ssrc), limits, now, end);
    case Expire(now) => EvictedStart(s, limits, now, end);
    case Reset => EmptyStart(end);
  }

  lemma InsertedParts(s: State, sequence: U16, now: int, ssrc: U32)
    requires Inv(s)
    ensures var i := Inserted(s, sequence, now, ssrc); i.newest.Some? && i.windowStart.Some? && i.windowStart.value <= i.newest.value + 1
  {
    InsertedStart(s, sequence, now, ssrc, 0);
  }

  lemma EmptyStart(end: int)
    ensures !StartsBy(EMPTY, end)
  {
  }

  lemma ReopensLeaves(s: State, limits: Limits, op: Op, end: int)
    requires Reopens(s, limits, op, end)
    ensures LeavesOpen(s, limits, op, end)
  {
    hide EvictionLeaves, Inserted, Landing, Discontinuity;
  }

  /** Every state along a run. */
  ghost function Trace(s: State, limits: Limits, ops: seq<Op>): (t: seq<State>)
    requires IsRun(s, limits, ops)
    ensures |t| == |ops| + 1 && t[0] == s && t[|ops|] == Final(s, limits, ops)
    ensures forall i :: 0 <= i < |ops| ==> Enabled(t[i], ops[i]) && t[i + 1] == Apply(t[i], limits, ops[i])
    decreases |ops|
  {
    if ops == [] then [s] else [s] + Trace(Apply(s, limits, ops[0]), limits, ops[1..])
  }

  lemma {:induction false} TraceInv(s: State, limits: Limits, ops: seq<Op>)
    requires Inv(s) && IsRun(s, limits, ops)
    ensures forall i :: 0 <= i <= |ops| ==> Inv(Trace(s, limits, ops)[i])
    decreases |ops|
  {
    hide Inv, Apply, Enabled;
    if ops != [] {
      ApplyKeepsInv(s, limits, ops[0]);
      TraceInv(Apply(s, limits, ops[0]), limits, ops[1..]);
    }
  }

  /** Observation `i` of a run put the number in, and it stayed until step `n`. */
  ghost predicate StoredBy(t: seq<State>, ops: seq<Op>, n: nat, i: nat, k: int)
    requires |t| == |ops| + 1 && n <= |ops|
  {
    && i < n && ops[i].Observe? && Stores(t[i], ops[i].sequence, k)
    && (forall j :: i < j <= n ==> k in t[j].arrivals)
    && (forall j :: i < j < n && ops[j].Observe? ==> !Stores(t[j], ops[j].sequence, k))
  }

  /**
   The time stored for a number is that of the first observation that landed on it since it was last
   absent: no duplicate replaces it, over every run from an empty generator.
   */
  lemma {:induction false} FirstArrivalCounts(t: seq<State>, limits: Limits, ops: seq<Op>, n: nat, k: int)
    requires |t| == |ops| + 1 && n <= |ops| && t[0].arrivals == map[]
    requires forall i :: 0 <= i < |ops| ==> Enabled(t[i], ops[i]) && t[i + 1] == Apply(t[i], limits, ops[i])
    requires k in t[n].arrivals
    ensures exists i: nat :: i < |ops| && ops[i].Observe? && StoredBy(t, ops, n, i, k) && t[n].arrivals[k] == ops[i].now
  {
    hide Stores, Apply, Enabled, StoredBy;
    if n > 0 {
      assert t[n - 1 + 1] == Apply(t[n - 1], limits, ops[n - 1]);
      ArrivalsAfter(t[n - 1], limits, ops[n - 1], k);
      if ops[n - 1].Observe? && Stores(t[n - 1], ops[n - 1].sequence, k) {
        StoredNow(t, ops, n, k);
      } else {
        FirstArrivalCounts(t, limits, ops, n - 1, k);
        var i: nat :| i < |ops| && ops[i].Observe? && StoredBy(t, ops, n - 1, i, k) && t[n - 1].arrivals[k] == ops[i].now;
        StillStored(t, ops, n, i, k);
      }
    }
  }

  lemma StoredNow(t: seq<State>, ops: seq<Op>, n: nat, k: int)
    requires |t| == |ops| + 1 && 0 < n <= |ops| && k in t[n].arrivals
    requires ops[n - 1].Observe? && Stores(t[n - 1], ops[n - 1].sequence, k)
    ensures StoredBy(t, ops, n, n - 1, k)
  {
    hide Stores;
  }

  lemma StillStored(t: seq<State>, ops: seq<Op>, n: nat, i: nat, k: int)
    requires |t| == |ops| + 1 && 0 < n <= |ops| && k in t[n].arrivals && StoredBy(t, ops, n - 1, i, k)
    requires !(ops[n - 1].Observe? && Stores(t[n - 1], ops[n - 1].sequence, k))
    ensures StoredBy(t, ops, n, i, k) && i < n - 1
  {
    hide Stores;
  }

  lemma ArrivalsAfter(s: State, limits: Limits, op: Op, k: int)
    requires Enabled(s, op) && k in Apply(s, limits, op).arrivals
    ensures var n := Apply(s, limits, op);
            if op.Observe? && Stores(s, op.sequence, k) then n.arrivals[k] == op.now else k in s.arrivals && n.arrivals[k] == s.arrivals[k]
  {
    hide Stores, Observed, Retained;
    match op
    case Observe(sequence, now, ssrc) => ObservedTimes(s, limits, sequence, now, ssrc);
    case Expire(now) => RetainedIff(s, limits, now, k);
    case Report(end) =>
    case Reset =>
  }

  /** Reports carry consecutive feedback counts modulo 256. */
  lemma {:induction false} CountFollowsReports(s: State, limits: Limits, ops: seq<Op>)
    requires IsRun(s, limits, ops) && (forall i :: 0 <= i < |ops| ==> !ops[i].Reset?)
    ensures Final(s, limits, ops).feedbackCount == (s.feedbackCount + |Reports(s, limits, ops)|) % 0x100
    decreases |ops|
  {
    hide Apply, Enabled;
    if ops != [] {
      CountAfter(s, limits, ops[0]);
      CountFollowsReports(Apply(s, limits, ops[0]), limits, ops[1..]);
    }
  }

  lemma CountAfter(s: State, limits: Limits, op: Op)
    requires Enabled(s, op) && !op.Reset?
    ensures Apply(s, limits, op).feedbackCount == if op.Report? then (s.feedbackCount + 1) % 0x100 else s.feedbackCount
  {
    hide Inserted, Retained;
    if op.Observe? {
      InsertedCount(s, op.sequence, op.now, op.ssrc);
    }
  }

  lemma InsertedCount(s: State, sequence: U16, now: int, ssrc: U32)
    ensures Inserted(s, sequence, now, ssrc).feedbackCount == s.feedbackCount
  {
    hide Landing, Discontinuity;
  }

  /** Step `i` reopens what was reported up to `end`, and no later step before `n` closes it again. */
  ghost predicate ReopenedAt(t: seq<State>, limits: Limits, ops: seq<Op>, n: nat, i: nat, end: int)
    requires |t| == |ops| + 1 && n <= |ops|
  {
    i < n && Reopens(t[i], limits, ops[i], end) && forall j :: i < j < n ==> LeavesOpen(t[j], limits, ops[j], end)
  }

  ghost predicate Reopened(t: seq<State>, limits: Limits, ops: seq<Op>, end: int)
    requires |t| == |ops| + 1
  {
    exists i: nat :: ReopenedAt(t, limits, ops, |ops|, i, end)
  }

  ghost predicate NoReport(ops: seq<Op>) {
    forall i :: 0 <= i < |ops| ==> !ops[i].Report?
  }

  /** The window of a run without reports starts by `end` exactly when a step reopened it and none after closed it. */
  lemma {:induction false} ReopenedIff(t: seq<State>, limits: Limits, ops: seq<Op>, n: nat, end: int)
    requires |t| == |ops| + 1 && n <= |ops| && NoReport(ops) && !StartsBy(t[0], end)
    requires forall i :: 0 <= i <= |ops| ==> Inv(t[i])
    requires forall i :: 0 <= i < |ops| ==> Enabled(t[i], ops[i]) && t[i + 1] == Apply(t[i], limits, ops[i])
    ensures StartsBy(t[n], end) <==> exists i: nat :: ReopenedAt(t, limits, ops, n, i, end)
  {
    hide Inv, Enabled, Apply, StartsBy, Reopens, LeavesOpen;
    if n > 0 {
      ReopenedIff(t, limits, ops, n - 1, end);
      StartAfterStep(t[n - 1], limits, ops[n - 1], end);
      assert t[n - 1 + 1] == Apply(t[n - 1], limits, ops[n - 1]);
      if StartsBy(t[n], end) {
        if StartsBy(t[n - 1], end) {
          var i: nat :| ReopenedAt(t, limits, ops, n - 1, i, end);
          assert ReopenedAt(t, limits, ops, n, i, end);
        } else {
          assert ReopenedAt(t, limits, ops, n, n - 1, end);
        }
      }
      if i: nat :| ReopenedAt(t, limits, ops, n, i, end) {
        if i < n - 1 {
          assert LeavesOpen(t[n - 1], limits, ops[n - 1], end);
          assert ReopenedAt(t, limits, ops, n - 1, i, end);
        } else {
          ReopensLeaves(t[n - 1], limits, ops[n - 1], end);
        }
      }
    }
  }

  /** A report, steps that are none, and the next report. */
  ghost function Between(first: int, ops: seq<Op>, second: int): seq<Op> {
    [Report(first)] + (ops + [Report(second)])
  }

  lemma TwoReports(s: State, limits: Limits, first: int, ops: seq<Op>, second: int)
    requires Inv(s) && NoReport(ops) && IsRun(s, limits, Between(first, ops, second))
    ensures s.windowStart.Some? && Inv(Reported(s, first)) && !StartsBy(Reported(s, first), first) && IsRun(Reported(s, first), limits, ops)
    ensures var last := Final(Reported(s, first), limits, ops);
            last.windowStart.Some? && Reports(s, limits, Between(first, ops, second)) == [(s.windowStart.value, first), (last.windowStart.value, second)]
  {
    hide Inv, StartsBy, Reported, NoReport, Apply;
    var a := Reported(s, first);
    var rest := ops + [Report(second)];
    assert Between(first, ops, second)[0] == Report(first) && Between(first, ops, second)[1..] == rest;
    ApplyKeepsInv(s, limits, Report(first));
    AfterReport(s, limits, first);
    SplitRun(a, limits, ops, [Report(second)]);
    NothingReported(a, limits, ops);
    LastReport(Final(a, limits, ops), limits, second);
  }

  /**
   Two consecutive reports of a run, whatever comes between them, meet exactly when some observation
   reopens the first, nothing after it closes it again, and the second reaches back to the first.
   */
  lemma OverlapIff(s: State, limits: Limits, first: int, ops: seq<Op>, second: int)
    requires Inv(s) && NoReport(ops) && IsRun(s, limits, Between(first, ops, second))
    ensures s.windowStart.Some? && IsRun(Reported(s, first), limits, ops)
    ensures var ranges, t := Reports(s, limits, Between(first, ops, second)), Trace(Reported(s, first), limits, ops);
            && |ranges| == 2 && ranges[0] == (s.windowStart.value, first) && ranges[1].1 == second
            && (Meet(ranges[0], ranges[1]) <==>
                Reopened(t, limits, ops, first) && s.windowStart.value <= second)
  {
    hide Inv, StartsBy, Reopens, LeavesOpen, Reported, NoReport, IsRun, Apply, Enabled, Reports, Final, Between;
    TwoReports(s, limits, first, ops, second);
    var a := Reported(s, first);
    TraceInv(a, limits, ops);
    var t := Trace(a, limits, ops);
    ReopenedIff(t, limits, ops, |ops|, first);
    StartsWhere(t[|ops|], first);
  }

  lemma StartsWhere(s: State, end: int)
    ensures StartsBy(s, end) <==> s.windowStart.Some? && s.windowStart.value <= end
  {
  }

  lemma AfterReport(s: State, limits: Limits, first: int)
    requires Inv(s) && Enabled(s, Report(first))
    ensures s.windowStart.Some? && Apply(s, limits, Report(first)) == Reported(s, first) && !StartsBy(Reported(s, first), first)
  {
  }

  lemma {:induction false} SplitRun(s: State, limits: Limits, ops: seq<Op>, more: seq<Op>)
    requires IsRun(s, limits, ops + more)
    ensures IsRun(s, limits, ops) && IsRun(Final(s, limits, ops), limits, more)
    ensures Reports(s, limits, ops + more) == Reports(s, limits, ops) + Reports(Final(s, limits, ops), limits, more)
    decreases |ops|
  {
    hide Apply, Enabled;
    if ops == [] {
      assert ops + more == more;
    } else {
      assert (ops + more)[0] == ops[0] && (ops + more)[1..] == ops[1..] + more;
      SplitRun(Apply(s, limits, ops[0]), limits, ops[1..], more);
    }
  }

  lemma {:induction false} NothingReported(s: State, limits: Limits, ops: seq<Op>)
    requires IsRun(s, limits, ops) && NoReport(ops)
    ensures Reports(s, limits, ops) == []
    decreases |ops|
  {
    hide Apply, Enabled;
    if ops != [] {
      NothingReported(Apply(s, limits, ops[0]), limits, ops[1..]);
    }
  }

  lemma LastReport(s: State, limits: Limits, second: int)
    requires IsRun(s, limits, [Report(second)])
    ensures s.windowStart.Some? && s.windowStart.value <= second && Reports(s, limits, [Report(second)]) == [(s.windowStart.value, second)]
  {
    assert [Report(second)][1..] == [];
    assert Reports(Apply(s, limits, Report(second)), limits, []) == [];
  }

  lemma NothingEvicted(s: State, limits: Limits, now: int, k: int)
    requires s.newest.Some? && s.windowStart.Some? && k in s.arrivals && k - (MAX_STATUSES - 1) <= s.windowStart.value
    requires |s.arrivals| <= limits.maxPackets && forall j :: j in s.arrivals ==> now - s.arrivals[j] <= limits.maxAge
    ensures Evicted(s, limits, now) == s
  {
    assert Fresh(s.arrivals, now, limits.maxAge) == s.arrivals by {
      if Fresh(s.arrivals, now, limits.maxAge) != s.arrivals {
        var j := MapDifference(Fresh(s.arrivals, now, limits.maxAge), s.arrivals);
      }
    }
  }

  lemma OneStep(s: State, limits: Limits, op: Op, n: State, rest: seq<Op>)
    requires Enabled(s, op) && Apply(s, limits, op) == n && IsRun(n, limits, rest)
    ensures IsRun(s, limits, [op] + rest)
    ensures Reports(s, limits, [op] + rest) == (if op.Report? then [(s.windowStart.value, op.end)] else []) + Reports(n, limits, rest)
  {
    hide Apply, Enabled;
    assert ([op] + rest)[1..] == rest;
  }

  lemma ObserveThenReport(s: State, limits: Limits, o: Op, n: State, r: Op, m: State, rest: seq<Op>)
    requires o.Observe? && r.Report? && Enabled(n, r) && Apply(s, limits, o) == n && Apply(n, limits, r) == m && IsRun(m, limits, rest)
    ensures IsRun(s, limits, [o, r] + rest)
    ensures Reports(s, limits, [o, r] + rest) == [(n.windowStart.value, r.end)] + Reports(m, limits, rest)
  {
    assert Enabled(s, o);
    hide Apply, IsRun, Reports, Enabled;
    OneStep(n, limits, r, m, rest);
    OneStep(s, limits, o, n, [r] + rest);
    assert [o] + ([r] + rest) == [o, r] + rest;
    assert [] + Reports(n, limits, [r] + rest) == Reports(n, limits, [r] + rest);
  }

  const ONE_ARRIVED: State := State(Some(100), Some(100), map[100 := 0], 1, 0)
  const LATE_ARRIVED: State := State(Some(100), Some(99), map[100 := 0, 99 := 0], 1, 1)

  lemma FirstArrives(limits: Limits)
    requires limits == Limits(1000, 16)
    ensures Observed(EMPTY, limits, 100, 0, 1) == ONE_ARRIVED
  {
    hide Evicted;
    NothingEvicted(ONE_ARRIVED, limits, 0, 100);
    assert Inserted(EMPTY, 100, 0, 1) == ONE_ARRIVED;
  }

  lemma LateInserted()
    ensures Inserted(Reported(ONE_ARRIVED, 100), 99, 0, 1) == LATE_ARRIVED
  {
    assert map[100 := 0][99 := 0] == map[100 := 0, 99 := 0];
  }

  lemma LateKept(limits: Limits)
    requires limits == Limits(1000, 16)
    ensures Evicted(LATE_ARRIVED, limits, 0) == LATE_ARRIVED
  {
    hide Evicted;
    assert LATE_ARRIVED.arrivals.Keys == {100, 99};
    assert |LATE_ARRIVED.arrivals| == |LATE_ARRIVED.arrivals.Keys| <= 2;
    NothingEvicted(LATE_ARRIVED, limits, 0, 100);
  }

  lemma LateArrives(limits: Limits)
    requires limits == Limits(1000, 16)
    ensures Observed(Reported(ONE_ARRIVED, 100), limits, 99, 0, 1) == LATE_ARRIVED
  {
    hide Evicted, Inserted, Reported;
    LateInserted();
    LateKept(limits);
  }

  lemma ReportsApply(limits: Limits)
    ensures Enabled(ONE_ARRIVED, Report(100)) && Enabled(LATE_ARRIVED, Report(100))
    ensures Apply(ONE_ARRIVED, limits, Report(100)) == Reported(ONE_ARRIVED, 100)
    ensures Apply(LATE_ARRIVED, limits, Report(100)) == Reported(LATE_ARRIVED, 100)
    ensures ONE_ARRIVED.windowStart == Some(100) && LATE_ARRIVED.windowStart == Some(99)
  {
  }

  lemma ObserveApply(s: State, limits: Limits, sequence: U16)
    ensures Enabled(s, Observe(sequence, 0, 1)) && Apply(s, limits, Observe(sequence, 0, 1)) == Observed(s, limits, sequence, 0, 1)
  {
    hide Observed;
  }

  lemma NothingRun(s: State, limits: Limits)
    ensures IsRun(s, limits, []) && Reports(s, limits, []) == []
  {
  }

  /** 100 arrives and is reported, then 99 arrives late: the reports 100 to 100 and 99 to 100 overlap. */
  lemma LateArrivalIsReportedTwice(limits: Limits)
    requires limits == Limits(1000, 16)
    ensures var ops := [Observe(100, 0, 1), Report(100)] + ([Observe(99, 0, 1), Report(100)] + []);
            IsRun(EMPTY, limits, ops) && Reports(EMPTY, limits, ops) == [(100, 100), (99, 100)]
    ensures Meet((100, 100), (99, 100))
  {
    hide Observed, IsRun, Reports, Enabled, Reported, Committed, Apply;
    var m := Reported(ONE_ARRIVED, 100);
    var last := Reported(LATE_ARRIVED, 100);
    ReportsApply(limits);
    NothingRun(last, limits);
    FirstArrives(limits);
    LateArrives(limits);
    ObserveApply(EMPTY, limits, 100);
    ObserveApply(m, limits, 99);
    ObserveThenReport(m, limits, Observe(99, 0, 1), LATE_ARRIVED, Report(100), last, []);
    ObserveThenReport(EMPTY, limits, Observe(100, 0, 1), ONE_ARRIVED, Report(100), m, [Observe(99, 0, 1), Report(100)] + []);
  }

  // ----- reports -----

  datatype PreviewError = SenderSsrcZero | MaximumSizeTooSmall | NoReceivedPacket

  datatype Built = Built(packet: seq<Byte>, baseSequence: U16, statusCount: U16, mediaSsrc: U32, feedbackCount: Byte,
                         receivedCount: nat, lostCount: nat, begin: int, end: int)

  ghost function TickSum(statuses: seq<Status>): int {
    if statuses == [] then 0
    else
      var last := statuses[|statuses| - 1];
      TickSum(statuses[..|statuses| - 1]) + if last.deltaTicks.Some? then last.deltaTicks.value else 0
  }

  ghost function EntrySum(es: seq<Entry>): int {
    if es == [] then 0
    else
      var last := es[|es| - 1];
      EntrySum(es[..|es| - 1]) + if last.Some? then last.value else 0
  }

  lemma {:induction false} SumsAgree(base: U16, es: seq<Entry>, k: nat)
    requires k <= |es|
    ensures TickSum(StatusesOf(base, es)[..k]) == EntrySum(es[..k])
  {
    if k != 0 {
      SumsAgree(base, es, k - 1);
      assert StatusesOf(base, es)[..k][..k - 1] == StatusesOf(base, es)[..k - 1];
      assert es[..k][..k - 1] == es[..k - 1];
    }
  }

  /** Half a tick: the furthest a reported time may lie from the true arrival. */
  ghost predicate Near(reported: int, arrival: int) {
    -TICK <= 2 * (reported - arrival) <= TICK
  }

  /** The arrival time a reader computes for entry `i`. */
  ghost function ReportedTime(reference: int, es: seq<Entry>, i: nat): int
    requires i < |es|
  {
    reference * REFERENCE_UNIT + TICK * EntrySum(es[..i + 1])
  }

  ghost predicate EntriesMatch(arrivals: map<int, int>, base: int, reference: int, es: seq<Entry>) {
    && (forall i :: 0 <= i < |es| ==> (es[i].Some? <==> base + i in arrivals))
    && (forall i :: 0 <= i < |es| && es[i].Some? ==> Near(ReportedTime(reference, es, i), arrivals[base + i]))
  }

  /** Number of received packets in a range of entries. */
  ghost function CountReceived(es: seq<Entry>): nat {
    if es == [] then 0 else CountReceived(es[..|es| - 1]) + if es[|es| - 1].Some? then 1 else 0
  }

  lemma EntriesExtend(arrivals: map<int, int>, base: int, reference: int, es: seq<Entry>, e: Entry)
    requires EntriesMatch(arrivals, base, reference, es)
    requires e.Some? <==> base + |es| in arrivals
    requires e.Some? ==> e.value == RoundDeltaTicks(arrivals[base + |es|] - (reference * REFERENCE_UNIT + TICK * EntrySum(es)))
    ensures EntriesMatch(arrivals, base, reference, es + [e])
  {
    hide ReportedTime, Near, EntrySum, RoundDeltaTicks;
    var all := es + [e];
    forall i | 0 <= i < |all| && all[i].Some?
      ensures Near(ReportedTime(reference, all, i), arrivals[base + i])
    {
      if i < |es| {
        EarlierTimesStay(reference, es, e, i);
        assert all[i] == es[i];
        assert Near(ReportedTime(reference, es, i), arrivals[base + i]);
      } else {
        LastEntryNear(reference, es, e, arrivals[base + |es|]);
      }
    }
  }

  lemma EarlierTimesStay(reference: int, es: seq<Entry>, e: Entry, i: nat)
    requires i < |es|
    ensures ReportedTime(reference, es + [e], i) == ReportedTime(reference, es, i)
  {
    assert (es + [e])[..i + 1] == es[..i + 1];
  }

  lemma LastEntryNear(reference: int, es: seq<Entry>, e: Entry, arrival: int)
    requires e.Some? && e.value == RoundDeltaTicks(arrival - (reference * REFERENCE_UNIT + TICK * EntrySum(es)))
    ensures Near(ReportedTime(reference, es + [e], |es|), arrival)
  {
    SumsExtend(es, e);
    assert (es + [e])[..|es| + 1] == es + [e];
  }

  lemma SumsExtend(es: seq<Entry>, e: Entry)
    ensures EntrySum(es + [e]) == EntrySum(es) + if e.Some? then e.value else 0
    ensures CountReceived(es + [e]) == CountReceived(es) + if e.Some? then 1 else 0
    ensures SizesOf(es + [e]) == SizesOf(es) + [SymbolOf(e)]
    ensures DeltasOf(es + [e]) == DeltasOf(es) + if e.Some? then [e.value] else []
  {
    assert (es + [e])[..|es|] == es;
  }

  /**
   What a reader of the packet learns: the reported range, which of its packets arrived, and
   arrival times that are off by at most half a tick however long the range is.
   */
  ghost predicate Faithful(s: State, sender: U32, maxSize: nat, b: Built) {
    && Pending(s)
    && b.begin == s.windowStart.value
    && b.begin <= b.end <= LastReportable(s)
    && |b.packet| <= maxSize
    && FirstReceived(s).Some?
    && var reference := FloorReferenceTime(s.arrivals[FirstReceived(s).value]);
       var parsed := Parse(b.packet);
       && parsed.Ok?
       && parsed.value.header == Header(sender, s.mediaSsrc, b.begin % MODULUS, reference % 0x100_0000, s.feedbackCount)
       && |parsed.value.statuses| == parsed.value.statusCount == b.statusCount == b.end - b.begin + 1
       && ReportsArrivals(s.arrivals, b.begin, reference, parsed.value.statuses)
       && b.baseSequence == b.begin % MODULUS && b.mediaSsrc == s.mediaSsrc && b.feedbackCount == s.feedbackCount
       && b.receivedCount == CountReceived(EntriesOf(parsed.value.statuses))
       && b.receivedCount + b.lostCount == b.statusCount
       && (b.end == LastReportable(s) || Blocked(s.arrivals, b.begin, reference, maxSize, EntriesOf(parsed.value.statuses)))
  }

  function EntriesOf(statuses: seq<Status>): seq<Entry> {
    seq(|statuses|, i requires 0 <= i < |statuses| => statuses[i].deltaTicks)
  }

  /** The next packet does not go into this feedback: its delta has no 16-bit form, or it would not fit. */
  ghost predicate Blocked(arrivals: map<int, int>, base: int, reference: int, maxSize: nat, es: seq<Entry>) {
    var next := base + |es|;
    if next !in arrivals then PacketSize(SizesOf(es + [None])) > maxSize
    else
      var ticks := RoundDeltaTicks(arrivals[next] - (reference * REFERENCE_UNIT + TICK * EntrySum(es)));
      !(-0x8000 <= ticks < 0x8000) || PacketSize(SizesOf(es + [Some(ticks)])) > maxSize
  }

  ghost predicate ReportsArrivals(arrivals: map<int, int>, begin: int, reference: int, statuses: seq<Status>) {
    && (forall i :: 0 <= i < |statuses| ==> statuses[i].sequence == (begin + i) % MODULUS)
    && (forall i :: 0 <= i < |statuses| ==> (statuses[i].received <==> begin + i in arrivals))
    && (forall i :: 0 <= i < |statuses| && statuses[i].received ==>
          && statuses[i].deltaTicks.Some?
          && Near(reference * REFERENCE_UNIT + TICK * TickSum(statuses[..i + 1]), arrivals[begin + i]))
  }

  function LastReportable(s: State): int
    requires Pending(s)
  {
    Min(s.newest.value, s.windowStart.value + MAX_STATUSES - 1)
  }

  /** The lowest arrival at or after the window start, when it lies in the reportable range. */
  ghost function FirstReceived(s: State): (k: Option<int>)
    requires Pending(s)
    ensures k.Some? ==> k.value in s.arrivals && s.windowStart.value <= k.value <= LastReportable(s)
    ensures k.Some? ==> forall j :: j in s.arrivals && s.windowStart.value <= j ==> k.value <= j
    ensures k.None? ==> forall j :: j in s.arrivals && s.windowStart.value <= j ==> LastReportable(s) < j
  {
    var keys := set k | k in s.arrivals && s.windowStart.value <= k;
    assert forall j :: j in s.arrivals && s.windowStart.value <= j ==> j in keys;
    if keys == {} then None
    else if LeastKey(keys) > LastReportable(s) then None
    else Some(LeastKey(keys))
  }

  lemma MatchedEntriesAreReported(arrivals: map<int, int>, base: int, reference: int, es: seq<Entry>)
    requires EntriesMatch(arrivals, base, reference, es)
    ensures ReportsArrivals(arrivals, base, reference, StatusesOf(base % MODULUS, es))
    ensures EntriesOf(StatusesOf(base % MODULUS, es)) == es
  {
    var statuses := StatusesOf(base % MODULUS, es);
    assert EntriesOf(statuses) == es;
    hide Near, TickSum, EntrySum;
    forall i | 0 <= i < |statuses|
      ensures statuses[i].sequence == (base + i) % MODULUS
    {
    }
    forall i | 0 <= i < |statuses| && statuses[i].received
      ensures Near(reference * REFERENCE_UNIT + TICK * TickSum(statuses[..i + 1]), arrivals[base + i])
    {
      SumsAgree(base % MODULUS, es, i + 1);
      assert Near(ReportedTime(reference, es, i), arrivals[base + i]);
    }
  }

  /** Committing what a preview returned is a report of the run model, and it moves the window strictly. */
  lemma CommittedPreviewIsReport(s: State, limits: Limits, sender: U32, maxSize: nat, b: Built)
    requires Faithful(s, sender, maxSize, b)
    ensures Enabled(s, Report(b.end))
    ensures Committed(s, b.begin, b.end, b.feedbackCount) == Apply(s, limits, Report(b.end))
    ensures Apply(s, limits, Report(b.end)).windowStart == Some(b.end + 1) && b.end + 1 > s.windowStart.value
  {
    hide Parse;
  }

  class Generator {
    const limits: Limits
    var newest: Option<int>
    var windowStart: Option<int>
    var arrivals: map<int, int>
    var mediaSsrc: U32
    var feedbackCount: Byte

    ghost function Model(): State
      reads this
    {
      State(newest, windowStart, arrivals, mediaSsrc, feedbackCount)
    }

    ghost predicate Valid()
      reads this
    {
      Inv(Model())
    }

    constructor (limits: Limits)
      ensures Model() == EMPTY && this.limits == limits && Valid()
    {
      this.limits := limits;
      newest, windowStart, arrivals, mediaSsrc, feedbackCount := None, None, map[], 0, 0;
    }

    method UnwrapSequence(sequence: U16) returns (landing: int, discontinuity: bool)
      modifies this
      ensures landing == old(Landing(Model(), sequence))
      ensures discontinuity == old(Discontinuity(Model(), sequence))
      ensures Model() == old(Unwrapped(Model(), sequence))
    {
      discontinuity := false;
      if newest.None? {
        newest := Some(sequence);
        return sequence, false;
      }
      landing := Unwrap(newest.value, sequence);
      var distance := if landing >= newest.value then landing - newest.value else newest.value - landing;
      if distance > MAX_JUMP {
        discontinuity := true;
        arrivals := map[];
        windowStart := Some(landing);
        newest := Some(landing);
      } else if landing > newest.value {
        newest := Some(landing);
      }
    }

    method EvictOld(now: int)
      modifies this
      ensures Model() == old(Evicted(Model(), limits, now))
    {
      EvictAged(now);
      EvictLowest();
      if windowStart.Some? {
        if arrivals == map[] {
          windowStart := if newest.Some? then Some(newest.value + 1) else None;
        } else {
          assert arrivals.Keys != {};
          var earliest := LowestKey(arrivals, LeastKey(arrivals.Keys));
          if windowStart.value < earliest - (MAX_STATUSES - 1) {
            windowStart := Some(earliest - (MAX_STATUSES - 1));
          }
        }
      }
    }

    /** First key of the ordered map. */
    static method LowestKey(arrivals: map<int, int>, ghost least: int) returns (k: int)
      requires least in arrivals && forall j :: j in arrivals ==> least <= j
      ensures k == least
    {
      k :| k in arrivals && forall j :: j in arrivals ==> k <= j;
    }

    method EvictAged(now: int)
      modifies this`arrivals
      ensures arrivals == Fresh(old(arrivals), now, limits.maxAge)
    {
      var todo := arrivals.Keys;
      while todo != {}
        invariant todo <= arrivals.Keys <= old(arrivals).Keys
        invariant forall k :: k in arrivals ==> arrivals[k] == old(arrivals)[k]
        invariant forall k :: k in old(arrivals) && k !in todo ==> (k in arrivals <==> now - old(arrivals)[k] <= limits.maxAge)
        decreases todo
      {
        ghost var any := AnElement(todo);
        var k :| k in todo;
        if now - arrivals[k] > limits.maxAge {
          arrivals := arrivals - {k};
        }
        todo := todo - {k};
      }
      if arrivals != Fresh(old(arrivals), now, limits.maxAge) {
        ghost var k := MapDifference(arrivals, Fresh(old(arrivals), now, limits.maxAge));
        assert false;
      }
    }

    method EvictLowest()
      modifies this`arrivals
      ensures arrivals == DropLowest(old(arrivals), limits.maxPackets)
    {
      while |arrivals| > limits.maxPackets
        invariant DropLowest(arrivals, limits.maxPackets) == DropLowest(old(arrivals), limits.maxPackets)
        decreases |arrivals|
      {
        assert arrivals.Keys != {};
        ghost var before := arrivals;
        var lowest := LowestKey(arrivals, LeastKey(arrivals.Keys));
        arrivals := arrivals - {lowest};
        assert arrivals.Keys == before.Keys - {lowest};
      }
    }

    method Observe(sequence: U16, now: int, ssrc: U32) returns (inserted: bool, landing: int, discontinuity: bool)
      modifies this
      ensures Model() == old(Observed(Model(), limits, sequence, now, ssrc))
      ensures landing == old(Landing(Model(), sequence))
      ensures discontinuity == old(Discontinuity(Model(), sequence))
      ensures inserted <==> discontinuity || landing !in old(arrivals)
      ensures old(Valid()) ==> Valid()
    {
      if Valid() {
        ObservedKeepsInv(Model(), limits, sequence, now, ssrc);
      }
      landing, discontinuity := UnwrapSequence(sequence);
      mediaSsrc := ssrc;
      inserted := landing !in arrivals;
      if inserted {
        arrivals := arrivals[landing := now];
        if windowStart.None? || landing < windowStart.value {
          windowStart := Some(landing);
        }
      }
      assert Model() == old(Inserted(Model(), sequence, now, ssrc));
      EvictOld(now);
    }

    method Expire(now: int)
      modifies this
      ensures Model() == old(Evicted(Model(), limits, now))
      ensures old(Valid()) ==> Valid()
    {
      if Valid() {
        EvictedKeepsInv(Model(), limits, now);
      }
      EvictOld(now);
    }

    method Commit(b: Built)
      modifies this
      ensures Model() == old(Committed(Model(), b.begin, b.end, b.feedbackCount))
      ensures old(Valid()) && old(CommitAccepted(Model(), b.begin, b.end, b.feedbackCount)) ==>
                (Valid() <==> b.end <= newest.value && (arrivals == map[] ==> b.end == newest.value))
    {
      if windowStart.None? || b.begin != windowStart.value || b.end < b.begin || b.feedbackCount != feedbackCount {
        return;
      }
      windowStart := Some(b.end + 1);
      feedbackCount := (feedbackCount + 1) % 0x100;
    }

    method Clear()
      modifies this
      ensures Model() == EMPTY && Valid()
    {
      newest, windowStart, arrivals, mediaSsrc, feedbackCount := None, None, map[], 0, 0;
    }

    method LowerBound(from: int) returns (k: Option<int>)
      ensures k.None? ==> forall j :: j in arrivals ==> j < from
      ensures k.Some? ==> k.value in arrivals && from <= k.value && forall j :: j in arrivals && from <= j ==> k.value <= j
    {
      k := None;
      var todo := arrivals.Keys;
      while todo != {}
        invariant todo <= arrivals.Keys
        invariant k.None? ==> forall j :: j in arrivals && j !in todo ==> j < from
        invariant k.Some? ==> k.value in arrivals && from <= k.value
        invariant k.Some? ==> forall j :: j in arrivals && j !in todo && from <= j ==> k.value <= j
        decreases todo
      {
        ghost var any := AnElement(todo);
        var j :| j in todo;
        todo := todo - {j};
        if from <= j && (k.None? || j < k.value) {
          k := Some(j);
        }
      }
    }

    /**
     Builds the next packet without committing it. The errors for an unencodable first delta and for
     a packet that cannot hold any status cannot occur.
     */
    method Preview(sender: U32, maxSize: nat) returns (r: Result<Option<Built>, PreviewError>)
      ensures r == Err(SenderSsrcZero) <==> sender == 0
      ensures r == Err(MaximumSizeTooSmall) <==> sender != 0 && maxSize < HEADER_SIZE + 4
      ensures r == Ok(None) <==> sender != 0 && maxSize >= HEADER_SIZE + 4 && !Pending(Model())
      ensures r == Err(NoReceivedPacket) <==>
                sender != 0 && maxSize >= HEADER_SIZE + 4 && Pending(Model()) && FirstReceived(Model()).None?
      ensures r.Ok? && r.value.Some? ==> Faithful(Model(), sender, maxSize, r.value.value)
    {
      hide Parse, Encoded, PacketSize, FloorReferenceTime, RoundDeltaTicks;
      if sender == 0 {
        return Err(SenderSsrcZero);
      }
      if maxSize < HEADER_SIZE + 4 {
        return Err(MaximumSizeTooSmall);
      }
      if windowStart.None? || newest.None? || windowStart.value > newest.value {
        return Ok(None);
      }
      var base := windowStart.value;
      var maximum := Min(newest.value, base + MAX_STATUSES - 1);
      var first := LowerBound(base);
      if first.None? || first.value > maximum {
        return Err(NoReceivedPacket);
      }
      assert FirstReceived(Model()) == first;
      var reference := FloorReferenceTime(arrivals[first.value]);
      var p, es := Collect(base, maximum, first.value, reference, maxSize);
      var header := Header(sender, mediaSsrc, base % MODULUS, reference % 0x100_0000, feedbackCount);
      var packet := EncodePacket(header, p.sizes, p.deltas, es);
      RoundTrip(header, es);
      EncodedSize(header, es);
      MatchedEntriesAreReported(arrivals, base, reference, es);
      return Ok(Some(Built(packet, base % MODULUS, |p.sizes|, mediaSsrc, feedbackCount, p.received, p.lost, base, base + |p.sizes| - 1)));
    }

    /** The loop of the preview: one status at a time, as long as the packet still fits. */
    method Collect(base: int, maximum: int, first: int, reference: int, maxSize: nat)
      returns (p: Progress, ghost es: seq<Entry>)
      requires maxSize >= HEADER_SIZE + 4
      requires base <= first <= maximum && first in arrivals
      requires forall j :: j in arrivals && base <= j ==> first <= j
      requires reference == FloorReferenceTime(arrivals[first])
      ensures Collecting(arrivals, base, first, reference, es, p)
      ensures 1 <= |es| <= maximum - base + 1
      ensures PacketSize(p.sizes) <= maxSize
      ensures |es| == maximum - base + 1 || Blocked(arrivals, base, reference, maxSize, es)
    {
      hide EntrySum, PacketSize, CountReceived, DeltasOf, SizesOf, RoundDeltaTicks, FloorReferenceTime, SymbolOf, Collecting, Blocked;
      es := [];
      p := Progress([], [], 0, 0, reference * REFERENCE_UNIT);
      CollectingNothing(arrivals, base, first, reference);
      var sequence := base;
      while sequence <= maximum
        invariant base <= sequence == base + |es| <= maximum + 1
        invariant Collecting(arrivals, base, first, reference, es, p)
        invariant es == [] || PacketSize(p.sizes) <= maxSize
      {
        var status := TryStatus(base, first, reference, maxSize, sequence, es, p);
        if status.None? {
          break;
        }
        var e := status.value;
        es := es + [e];
        sequence := sequence + 1;
        p := Advance(p, e);
      }
    }

    /** The next status, or none when the loop stops before it. */
    method TryStatus(base: int, first: int, reference: int, maxSize: nat, sequence: int, ghost es: seq<Entry>, p: Progress)
      returns (status: Option<Entry>)
      requires maxSize >= HEADER_SIZE + 4 && sequence == base + |es|
      requires base <= first && first in arrivals
      requires forall j :: j in arrivals && base <= j ==> first <= j
      requires reference == FloorReferenceTime(arrivals[first])
      requires Collecting(arrivals, base, first, reference, es, p)
      ensures status.None? ==> es != [] && Blocked(arrivals, base, reference, maxSize, es)
      ensures status.Some? ==> Collecting(arrivals, base, first, reference, es + [status.value], Advance(p, status.value))
      ensures status.Some? ==> PacketSize(p.sizes + [SymbolOf(status.value)]) <= maxSize
    {
      hide EntrySum, PacketSize, CountReceived, DeltasOf, SizesOf, RoundDeltaTicks, FloorReferenceTime, SymbolOf, EntriesMatch, Blocked;
      var e: Entry := None;
      if sequence in arrivals {
        if sequence == base {
          FirstDeltaSmall(arrivals, base, first, reference, es, p);
        }
        var ticks := RoundDeltaTicks(arrivals[sequence] - p.last);
        if ticks < -0x8000 || ticks >= 0x8000 {
          if sequence == base {
            assert false;
          }
          DeltaBlocks(arrivals, base, first, reference, maxSize, es, p);
          return None;
        }
        e := Some(ticks);
      }
      CollectingExtends(arrivals, base, first, reference, maxSize, es, p, e);
      var size := EncodedPacketSize(p.sizes + [SymbolOf(e)]);
      if size > maxSize {
        if es == [] {
          assert p.sizes + [SymbolOf(e)] == [SymbolOf(e)];
          SingleStatusSize(SymbolOf(e));
          assert false;
        }
        return None;
      }
      return Some(e);
    }
  }

  /** The variables of the preview loop. */
  datatype Progress = Progress(sizes: seq<Symbol>, deltas: seq<I16>, received: nat, lost: nat, last: int)

  ghost predicate Collecting(arrivals: map<int, int>, base: int, first: int, reference: int, es: seq<Entry>, p: Progress) {
    && p.sizes == SizesOf(es) && p.deltas == DeltasOf(es)
    && p.received + p.lost == |es| && p.received == CountReceived(es)
    && p.last == reference * REFERENCE_UNIT + TICK * EntrySum(es)
    && (base + |es| <= first ==> EntrySum(es) == 0)
    && EntriesMatch(arrivals, base, reference, es)
  }

  lemma CollectingNothing(arrivals: map<int, int>, base: int, first: int, reference: int)
    ensures Collecting(arrivals, base, first, reference, [], Progress([], [], 0, 0, reference * REFERENCE_UNIT))
  {
  }

  function Advance(p: Progress, e: Entry): Progress {
    if e.None? then p.(sizes := p.sizes + [SymbolOf(e)], lost := p.lost + 1)
    else p.(sizes := p.sizes + [SymbolOf(e)], deltas := p.deltas + [e.value], received := p.received + 1, last := p.last + e.value * TICK)
  }

  lemma CollectingExtends(arrivals: map<int, int>, base: int, first: int, reference: int, maxSize: nat, es: seq<Entry>, p: Progress, e: Entry)
    requires Collecting(arrivals, base, first, reference, es, p)
    requires forall j :: j in arrivals && base <= j ==> first <= j
    requires e.Some? <==> base + |es| in arrivals
    requires e.Some? ==> e.value == RoundDeltaTicks(arrivals[base + |es|] - p.last)
    ensures Collecting(arrivals, base, first, reference, es + [e], Advance(p, e))
    ensures p.sizes == SizesOf(es) && Advance(p, e).sizes == SizesOf(es + [e])
    ensures PacketSize(Advance(p, e).sizes) > maxSize ==> Blocked(arrivals, base, reference, maxSize, es)
  {
    hide PacketSize;
    SumsExtend(es, e);
    EntriesExtend(arrivals, base, reference, es, e);
  }

  lemma DeltaBlocks(arrivals: map<int, int>, base: int, first: int, reference: int, maxSize: nat, es: seq<Entry>, p: Progress)
    requires Collecting(arrivals, base, first, reference, es, p) && base + |es| in arrivals
    requires !(-0x8000 <= RoundDeltaTicks(arrivals[base + |es|] - p.last) < 0x8000)
    ensures Blocked(arrivals, base, reference, maxSize, es)
  {
  }

  /** The first received packet lies within one reference unit of the reference time: 0 to 256 ticks. */
  lemma FirstDeltaSmall(arrivals: map<int, int>, base: int, first: int, reference: int, es: seq<Entry>, p: Progress)
    requires Collecting(arrivals, base, first, reference, es, p)
    requires base + |es| == first && first in arrivals && reference == FloorReferenceTime(arrivals[first])
    ensures 0 <= RoundDeltaTicks(arrivals[first] - p.last) <= 256
  {
  }

  lemma SingleStatusSize(symbol: Symbol)
    ensures PacketSize([symbol]) == HEADER_SIZE + 4
  {
    ChunkCountBound([symbol]);
    assert [symbol][..0] == [];
    assert Sum([symbol]) == symbol;
  }
}
