/**
 Reception statistics for receiver reports (`rtp/rtp_receive_statistics.cpp`), after Appendix A.1 and
 A.3 of RFC 3550: sequence validation with probation after a jump, and interval loss.
 */
module ReceiveStatistics {
  import opened Wire

  const SEQUENCE_MODULUS: int := 0x1_0000
  const CYCLES_MODULUS: int := 0x1_0000_0000
  const COUNT_MODULUS: int := 0x1_0000_0000_0000_0000
  const MAX_DROPOUT: int := 3000
  const MAX_MISORDER: int := 100

  datatype State = State(initialized: bool, base: U16, highest: U16, bad: U32, cycles: U32,
                         received: nat, expectedPrior: nat, receivedPrior: nat)

  const FRESH: State := State(false, 0, 0, 0, 0, 0, 0, 0)

  function Initialized(sequence: U16): State {
    State(true, sequence, sequence, 0x1_0001, 0, 0, 0, 0)
  }

  function Delta(s: State, sequence: U16): U16 {
    (sequence - s.highest) % SEQUENCE_MODULUS
  }

  /** The step stays within the dropout window. */
  predicate InOrder(s: State, sequence: U16) {
    s.initialized && Delta(s, sequence) < MAX_DROPOUT
  }

  predicate Jump(s: State, sequence: U16) {
    s.initialized && MAX_DROPOUT <= Delta(s, sequence) <= SEQUENCE_MODULUS - MAX_MISORDER
  }

  /** Two consecutive numbers after a jump restart the sequence. */
  predicate Restarts(s: State, sequence: U16) {
    Jump(s, sequence) && sequence == s.bad
  }

  function Updated(s: State, sequence: U16): (State, bool) {
    if !s.initialized then (Initialized(sequence).(received := 1), true)
    else if InOrder(s, sequence) then
      (s.(cycles := if sequence < s.highest then (s.cycles + SEQUENCE_MODULUS) % CYCLES_MODULUS else s.cycles,
          highest := sequence,
          received := s.received + 1), true)
    else if Restarts(s, sequence) then (Initialized(sequence).(received := 1), true)
    else if Jump(s, sequence) then (s.(bad := (sequence + 1) % SEQUENCE_MODULUS), false)
    else (s.(received := s.received + 1), true)
  }

  function Extended(s: State): int {
    s.cycles + s.highest
  }

  /** Unsigned 64-bit arithmetic, as the source computes it. */
  function Expected(s: State): nat {
    if !s.initialized then 0 else (Extended(s) - s.base + 1) % COUNT_MODULUS
  }

  function Committed(s: State): State {
    s.(expectedPrior := Expected(s), receivedPrior := s.received)
  }

  function Signed64(v: int): int {
    var u := v % COUNT_MODULUS;
    if u >= COUNT_MODULUS / 2 then u - COUNT_MODULUS else u
  }

  function Clamp(v: int, low: int, high: int): int
    requires low <= high
  {
    Max(low, Min(v, high))
  }

  datatype Report = Report(fractionLost: Byte, cumulativeLost: int, extendedHighest: U32, expected: nat, received: nat)

  /** Loss in the interval since the last committed report. */
  function IntervalLost(s: State): int {
    Signed64(Signed64((Expected(s) - s.expectedPrior) % COUNT_MODULUS) - Signed64((s.received - s.receivedPrior) % COUNT_MODULUS))
  }

  function Fraction(lost: int, interval: nat): Byte {
    if interval == 0 || lost <= 0 then 0
    else
      var scaled: nat := lost * 256 % COUNT_MODULUS;
      QuotientNonNegative(scaled, interval);
      Min(scaled / interval, 255)
  }

  lemma QuotientNonNegative(a: nat, b: nat)
    requires b > 0
    ensures a / b >= 0
  {
  }

  function Preview(s: State): Report {
    if !s.initialized then Report(0, 0, 0, 0, 0)
    else
      var interval := (Expected(s) - s.expectedPrior) % COUNT_MODULUS;
      Report(Fraction(IntervalLost(s), interval), Clamp(Signed64(Expected(s) - s.received), -8388608, 8388607),
             Extended(s) % CYCLES_MODULUS, Expected(s), s.received)
  }

  // ----- between restarts -----

  /** Wraps are counted in 32 bits; this one would be the 2^16th and lose them all. */
  predicate CyclesOverflow(s: State, sequence: U16) {
    InOrder(s, sequence) && sequence < s.highest && s.cycles == CYCLES_MODULUS - SEQUENCE_MODULUS
  }

  ghost predicate Inv(s: State) {
    s.initialized ==>
      && s.cycles % SEQUENCE_MODULUS == 0
      && Extended(s) >= s.base
      && 1 <= s.received < COUNT_MODULUS / 4
      && s.expectedPrior <= Expected(s) && s.receivedPrior <= s.received
      && Expected(s) - 1 <= 2999 * (s.received - 1)
      && Expected(s) - s.expectedPrior <= 2999 * (s.received - s.receivedPrior)
  }

  /** The extended highest number grows by exactly the step modulo 2^16, unless the wrap count overflows. */
  lemma ExtendedGrowsByStep(s: State, sequence: U16)
    requires InOrder(s, sequence) && s.cycles % SEQUENCE_MODULUS == 0
    ensures Extended(Updated(s, sequence).0) == Extended(s) + Delta(s, sequence) <==> !CyclesOverflow(s, sequence)
  {
  }

  lemma StepGrows(s: State, sequence: U16)
    requires InOrder(s, sequence) && !CyclesOverflow(s, sequence) && s.cycles % SEQUENCE_MODULUS == 0 && Extended(s) >= s.base
    ensures var n := Updated(s, sequence).0;
            && n.cycles % SEQUENCE_MODULUS == 0 && Extended(n) >= n.base
            && Expected(n) == Expected(s) + Delta(s, sequence)
  {
    ExtendedGrowsByStep(s, sequence);
    var n := Updated(s, sequence).0;
    assert n.cycles % SEQUENCE_MODULUS == 0;
    hide Updated;
  }

  lemma UpdateKeepsInv(s: State, sequence: U16)
    requires Inv(s) && !CyclesOverflow(s, sequence) && s.received + 1 < COUNT_MODULUS / 4
    ensures Inv(Updated(s, sequence).0)
  {
    if InOrder(s, sequence) {
      StepGrows(s, sequence);
      hide Expected, Extended, Delta, CyclesOverflow;
    } else {
      hide Delta, CyclesOverflow;
    }
  }

  lemma CommitKeepsInv(s: State)
    requires Inv(s)
    ensures Inv(Committed(s))
  {
  }

  /**
   The reported fraction is exactly the share of the interval's expected packets that were lost, in
   256ths rounded down. An interval that expects packets has received one, so the cap at 255 never acts.
   */
  lemma FractionIsExact(s: State)
    requires Inv(s) && s.initialized
    ensures var expected, received := Expected(s) - s.expectedPrior, s.received - s.receivedPrior;
            && expected >= 0 && received >= 0 && (expected > 0 ==> received > 0)
            && IntervalLost(s) == expected - received
            && Preview(s).fractionLost == (if expected > 0 && expected > received then (expected - received) * 256 / expected else 0)
            && (expected > 0 && expected > received ==> (expected - received) * 256 / expected < 256)
  {
    IntervalsDoNotUnderflow(s);
    hide Inv, Expected, Signed64, IntervalLost;
    var expected, received := Expected(s) - s.expectedPrior, s.received - s.receivedPrior;
    FractionBelowCap(expected, received);
  }

  lemma IntervalsDoNotUnderflow(s: State)
    requires Inv(s) && s.initialized
    ensures var expected, received := Expected(s) - s.expectedPrior, s.received - s.receivedPrior;
            && 0 <= expected <= CYCLES_MODULUS && 0 <= received && (expected > 0 ==> received > 0)
            && IntervalLost(s) == expected - received
            && expected % COUNT_MODULUS == expected
  {
    var expected, received := Expected(s) - s.expectedPrior, s.received - s.receivedPrior;
    assert 0 <= expected <= CYCLES_MODULUS && 0 <= received < COUNT_MODULUS / 4;
    hide Inv, Expected;
    assert Signed64(expected) == expected && Signed64(received) == received;
  }

  lemma FractionBelowCap(expected: nat, received: nat)
    requires expected <= CYCLES_MODULUS && (expected > 0 ==> received > 0)
    ensures expected > 0 && expected > received ==> (expected - received) * 256 / expected < 256
    ensures Fraction(expected - received, expected) == if expected > 0 && expected > received then (expected - received) * 256 / expected else 0
  {
    if expected > received {
      QuotientBelow((expected - received) * 256, expected, 256);
    }
  }

  lemma QuotientBelow(a: nat, b: nat, c: nat)
    requires b > 0 && a < b * c
    ensures a / b < c
  {
    var q := a / b;
    assert q * b <= a < c * b;
    if q >= c {
      MulMonotone(c, q, b);
    }
  }

  lemma MulMonotone(a: nat, b: nat, c: nat)
    requires a <= b
    ensures a * c <= b * c
  {
  }

  // ----- runs -----

  datatype Op = Packet(sequence: U16) | Commit

  function Apply(s: State, op: Op): State {
    match op
    case Packet(sequence) => Updated(s, sequence).0
    case Commit => Committed(s)
  }

  /** No counter overflows along the run: neither the wrap count nor 2^62 packets; restarts are allowed. */
  predicate Counted(s: State, ops: seq<Op>)
    decreases |ops|
  {
    ops == [] ||
    (&& (ops[0].Packet? ==> !CyclesOverflow(s, ops[0].sequence) && s.received + 1 < COUNT_MODULUS / 4)
     && Counted(Apply(s, ops[0]), ops[1..]))
  }

  /** No jump of the run restarts the sequence: the whole run is one source. */
  predicate OneSource(s: State, ops: seq<Op>)
    decreases |ops|
  {
    ops == [] || ((ops[0].Packet? ==> !Restarts(s, ops[0].sequence)) && OneSource(Apply(s, ops[0]), ops[1..]))
  }

  function Final(s: State, ops: seq<Op>): State
    decreases |ops|
  {
    if ops == [] then s else Final(Apply(s, ops[0]), ops[1..])
  }

  /** The interval losses that were committed, added up. */
  ghost function CommittedLoss(s: State, ops: seq<Op>): int
    decreases |ops|
  {
    if ops == [] then 0 else (if ops[0].Commit? then IntervalLost(s) else 0) + CommittedLoss(Apply(s, ops[0]), ops[1..])
  }

  /** The invariant holds after every run of packets and commits, restarts after a jump included. */
  lemma {:induction false} InvOverRuns(s: State, ops: seq<Op>)
    requires Inv(s) && Counted(s, ops)
    ensures Inv(Final(s, ops))
    decreases |ops|
  {
    if ops != [] {
      if ops[0].Packet? {
        UpdateKeepsInv(s, ops[0].sequence);
      } else {
        CommitKeepsInv(s);
      }
      InvOverRuns(Apply(s, ops[0]), ops[1..]);
    }
  }

  /** Committed interval losses telescope to the cumulative loss at the last commit. */
  lemma {:induction false} LossesTelescope(s: State, ops: seq<Op>)
    requires Inv(s) && s.initialized && Counted(s, ops) && OneSource(s, ops)
    ensures var f := Final(s, ops);
            CommittedLoss(s, ops) == (f.expectedPrior - f.receivedPrior) - (s.expectedPrior - s.receivedPrior)
    decreases |ops|
  {
    if ops != [] {
      if ops[0].Packet? {
        UpdateKeepsInv(s, ops[0].sequence);
      } else {
        CommitKeepsInv(s);
        FractionIsExact(s);
      }
      LossesTelescope(Apply(s, ops[0]), ops[1..]);
    }
  }

  /** A source seen from its first packet: after a final commit the committed losses are the whole cumulative loss. */
  lemma CommittedLossIsCumulative(first: U16, ops: seq<Op>)
    requires Counted(Updated(FRESH, first).0, ops + [Commit]) && OneSource(Updated(FRESH, first).0, ops + [Commit])
    ensures var s := Updated(FRESH, first).0;
            var f := Final(s, ops + [Commit]);
            CommittedLoss(s, ops + [Commit]) == Expected(f) - f.received
  {
    var s := Updated(FRESH, first).0;
    LossesTelescope(s, ops + [Commit]);
    LastCommit(s, ops);
  }

  lemma {:induction false} LastCommit(s: State, ops: seq<Op>)
    ensures var f := Final(s, ops + [Commit]); f.expectedPrior == Expected(f) && f.receivedPrior == f.received
    decreases |ops|
  {
    if ops == [] {
      assert ops + [Commit] == [Commit] && [Commit][1..] == [];
      assert Final(s, [Commit]) == Final(Committed(s), []);
    } else {
      assert (ops + [Commit])[1..] == ops[1..] + [Commit];
      LastCommit(Apply(s, ops[0]), ops[1..]);
    }
  }

  // ----- what a report says of a run -----

  /** The steps within the dropout window, added up. */
  ghost function StepSum(s: State, ops: seq<Op>): nat
    decreases |ops|
  {
    if ops == [] then 0
    else (if ops[0].Packet? && InOrder(s, ops[0].sequence) then Delta(s, ops[0].sequence) else 0) + StepSum(Apply(s, ops[0]), ops[1..])
  }

  /** The packets that are counted: all but those that jump. */
  ghost function Arrived(s: State, ops: seq<Op>): nat
    decreases |ops|
  {
    if ops == [] then 0 else (if ops[0].Packet? && !Jump(s, ops[0].sequence) then 1 else 0) + Arrived(Apply(s, ops[0]), ops[1..])
  }

  lemma OneStep(s: State, op: Op)
    requires Inv(s) && s.initialized && Counted(s, [op]) && OneSource(s, [op])
    ensures var n := Apply(s, op);
            && Inv(n) && n.initialized && n.base == s.base
            && Extended(n) == Extended(s) + (if op.Packet? && InOrder(s, op.sequence) then Delta(s, op.sequence) else 0)
            && n.received == s.received + (if op.Packet? && !Jump(s, op.sequence) then 1 else 0)
  {
    assert [op][0] == op;
    if op.Packet? {
      UpdateKeepsInv(s, op.sequence);
      if InOrder(s, op.sequence) {
        ExtendedGrowsByStep(s, op.sequence);
      }
    } else {
      CommitKeepsInv(s);
    }
  }

  lemma {:induction false} RunTotals(s: State, ops: seq<Op>)
    requires Inv(s) && s.initialized && Counted(s, ops) && OneSource(s, ops)
    ensures var f := Final(s, ops);
            && Inv(f) && f.initialized && f.base == s.base
            && Extended(f) == Extended(s) + StepSum(s, ops) && f.received == s.received + Arrived(s, ops)
    decreases |ops|
  {
    hide Inv, Extended, Delta, Jump, InOrder, Apply, CyclesOverflow, Restarts;
    if ops != [] {
      FirstOp(s, ops);
      OneStep(s, ops[0]);
      RunTotals(Apply(s, ops[0]), ops[1..]);
    }
  }

  lemma FirstOp(s: State, ops: seq<Op>)
    requires ops != [] && Counted(s, ops) && OneSource(s, ops)
    ensures Counted(s, [ops[0]]) && OneSource(s, [ops[0]]) && Counted(Apply(s, ops[0]), ops[1..]) && OneSource(Apply(s, ops[0]), ops[1..])
  {
    hide Apply, CyclesOverflow, Restarts;
    assert [ops[0]][1..] == [];
  }

  /**
   A report on a source seen from its first packet: expected are the first number and all steps since,
   received what arrived, lost the difference, negative when there were duplicates and confined to 24
   bits; and the highest number is the first one moved by all steps.
   */
  lemma ReportOnRun(first: U16, ops: seq<Op>)
    requires Counted(Updated(FRESH, first).0, ops) && OneSource(Updated(FRESH, first).0, ops)
    ensures var s := Updated(FRESH, first).0;
            var r, lost := Preview(Final(s, ops)), StepSum(s, ops) - Arrived(s, ops);
            && r.expected == 1 + StepSum(s, ops) && r.received == 1 + Arrived(s, ops)
            && r.cumulativeLost == (if lost > 0x7F_FFFF then 0x7F_FFFF else if lost < -0x80_0000 then -0x80_0000 else lost)
            && r.extendedHighest == first + StepSum(s, ops)
  {
    var s := Updated(FRESH, first).0;
    RunTotals(s, ops);
    hide StepSum, Arrived, Counted, OneSource, Final;
    ReportOf(Final(s, ops));
  }

  lemma ReportOf(s: State)
    requires Inv(s) && s.initialized
    ensures var r, expected := Preview(s), Extended(s) - s.base + 1;
            && r.expected == expected && r.received == s.received && r.extendedHighest == Extended(s)
            && r.cumulativeLost == Max(-0x80_0000, Min(expected - s.received, 0x7F_FFFF))
  {
    hide Fraction, IntervalLost;
  }

  /** A restart is a new source: nothing of the old one is left. */
  lemma RestartIsFresh(s: State, sequence: U16)
    requires Restarts(s, sequence)
    ensures Updated(s, sequence) == Updated(FRESH, sequence)
  {
  }

  /** A jump is not counted, and the number after it restarts the sequence exactly when it would jump, too. */
  lemma JumpThenNext(s: State, sequence: U16)
    requires Jump(s, sequence) && !Restarts(s, sequence)
    ensures var (n, accepted) := Updated(s, sequence);
            && !accepted && n == s.(bad := n.bad)
            && (Restarts(n, (sequence + 1) % SEQUENCE_MODULUS) <==> Jump(s, (sequence + 1) % SEQUENCE_MODULUS))
  {
  }

  // ----- the wrap count does overflow -----

  /** Packets 2048 numbers apart, 32 to a wrap. */
  function Steady(n: nat): (ops: seq<Op>)
    ensures |ops| == n
  {
    seq(n, k requires 0 <= k < n => Packet(2048 * (k % 32)))
  }

  lemma {:induction false} FinalOneMore(s: State, ops: seq<Op>, op: Op)
    ensures Final(s, ops + [op]) == Apply(Final(s, ops), op)
    decreases |ops|
  {
    if ops == [] {
      assert ops + [op] == [op] && [op][1..] == [];
    } else {
      assert (ops + [op])[1..] == ops[1..] + [op];
      FinalOneMore(Apply(s, ops[0]), ops[1..], op);
    }
  }

  lemma {:induction false} SteadyRun(n: nat)
    requires 1 <= n <= 0x20_0000
    ensures Final(FRESH, Steady(n)) == State(true, 0, 2048 * ((n - 1) % 32), 0x1_0001, SEQUENCE_MODULUS * ((n - 1) / 32), n, 0, 0)
  {
    if n == 1 {
      assert Steady(1) == [] + [Packet(0)];
      FinalOneMore(FRESH, [], Packet(0));
    } else {
      SteadyRun(n - 1);
      var op := Packet(2048 * ((n - 1) % 32));
      assert Steady(n) == Steady(n - 1) + [op];
      FinalOneMore(FRESH, Steady(n - 1), op);
      SteadyStep(n - 2);
    }
  }

  lemma SteadyStep(m: nat)
    requires m < 0x1F_FFFF
    ensures var s := State(true, 0, 2048 * (m % 32), 0x1_0001, SEQUENCE_MODULUS * (m / 32), m + 1, 0, 0);
            Updated(s, 2048 * ((m + 1) % 32)).0 == State(true, 0, 2048 * ((m + 1) % 32), 0x1_0001, SEQUENCE_MODULUS * ((m + 1) / 32), m + 2, 0, 0)
  {
    if m % 32 == 31 {
      assert (m + 1) % 32 == 0 && (m + 1) / 32 == m / 32 + 1;
    } else {
      assert (m + 1) % 32 == m % 32 + 1 && (m + 1) / 32 == m / 32;
    }
  }

  /** After 2^21 steady packets the next one is the 2^16th wrap and throws the extended number back. */
  lemma WrapCountOverflows(n: nat)
    requires n == 0x20_0000
    ensures var s := Final(FRESH, Steady(n));
            CyclesOverflow(s, 0) && Extended(s) == CYCLES_MODULUS - 2048 && Extended(Updated(s, 0).0) == 0
  {
    hide Final, Steady;
    SteadyRun(n);
  }

  // ----- the object -----

  class Statistics {
    var initialized: bool
    var base: U16
    var highest: U16
    var bad: U32
    var cycles: U32
    var received: nat
    var expectedPrior: nat
    var receivedPrior: nat

    ghost function Model(): State
      reads this
    {
      State(initialized, base, highest, bad, cycles, received, expectedPrior, receivedPrior)
    }

    constructor ()
      ensures Model() == FRESH
    {
      initialized, base, highest, bad, cycles := false, 0, 0, 0, 0;
      received, expectedPrior, receivedPrior := 0, 0, 0;
    }

    method InitializeSequence(sequence: U16)
      modifies this
      ensures Model() == Initialized(sequence)
    {
      initialized, base, highest, bad, cycles := true, sequence, sequence, 0x1_0001, 0;
      received, expectedPrior, receivedPrior := 0, 0, 0;
    }

    method UpdateSequence(sequence: U16) returns (accepted: bool)
      modifies this
      ensures (Model(), accepted) == old(Updated(Model(), sequence))
    {
      if !initialized {
        InitializeSequence(sequence);
        received := 1;
        return true;
      }
      var delta := (sequence - highest) % SEQUENCE_MODULUS;
      if delta < MAX_DROPOUT {
        if sequence < highest {
          cycles := (cycles + SEQUENCE_MODULUS) % CYCLES_MODULUS;
        }
        highest := sequence;
      } else if delta <= SEQUENCE_MODULUS - MAX_MISORDER {
        if sequence == bad {
          InitializeSequence(sequence);
        } else {
          bad := (sequence + 1) % SEQUENCE_MODULUS;
          return false;
        }
      }
      received := received + 1;
      return true;
    }

    method PreviewReport() returns (r: Report)
      ensures r == Preview(Model())
    {
      r := Preview(State(initialized, base, highest, bad, cycles, received, expectedPrior, receivedPrior));
    }

    method CommitReport()
      modifies this
      ensures Model() == old(Committed(Model()))
    {
      expectedPrior := Expected(State(initialized, base, highest, bad, cycles, received, expectedPrior, receivedPrior));
      receivedPrior := received;
    }
  }
}
