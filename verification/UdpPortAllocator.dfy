/**
 The cyclic allocator of UDP ports (`net/udp_port_allocator.cpp`).
 */
module UdpPortAllocator {
  import opened Wire

  datatype Range = Range(low: U16, high: U16)

  predicate RangeIsValid(r: Range) {
    r.low != 0 && r.high != 0 && r.low <= r.high
  }

  function Capacity(r: Range): nat
    requires RangeIsValid(r)
  {
    r.high - r.low + 1
  }

  predicate InRange(r: Range, port: int) {
    r.low <= port <= r.high
  }

  /** The port `steps` places after `cursor`, wrapping from the top of the range to its bottom. */
  function Cyclic(r: Range, cursor: U16, steps: nat): (p: U16)
    requires RangeIsValid(r) && InRange(r, cursor)
    ensures InRange(r, p)
  {
    if steps == 0 then cursor else Following(r, Cyclic(r, cursor, steps - 1))
  }

  function Following(r: Range, port: U16): (p: U16)
    requires RangeIsValid(r) && InRange(r, port)
    ensures InRange(r, p)
  {
    if port == r.high then r.low else port + 1
  }

  lemma {:induction false} CyclicValue(r: Range, cursor: U16, steps: nat)
    requires RangeIsValid(r) && InRange(r, cursor) && steps <= Capacity(r)
    ensures Cyclic(r, cursor, steps) == if cursor + steps <= r.high then cursor + steps else cursor + steps - Capacity(r)
  {
    if steps > 0 {
      CyclicValue(r, cursor, steps - 1);
    }
  }

  /** One lap visits every port. */
  lemma LapVisits(r: Range, cursor: U16, port: U16)
    requires RangeIsValid(r) && InRange(r, cursor) && InRange(r, port)
    ensures exists k :: 0 <= k < Capacity(r) && Cyclic(r, cursor, k) == port
  {
    var k := if port >= cursor then port - cursor else port - cursor + Capacity(r);
    CyclicValue(r, cursor, k);
  }

  function Ports(r: Range): set<U16> {
    set p: U16 | r.low <= p <= r.high && InRange(r, p)
  }

  lemma {:induction false} PortCount(r: Range)
    requires r.low <= r.high
    ensures |Ports(r)| == r.high - r.low + 1
    decreases r.high - r.low
  {
    if r.low == r.high {
      assert Ports(r) == {r.low};
    } else {
      var rest := Range(r.low + 1, r.high);
      PortCount(rest);
      assert Ports(r) == Ports(rest) + {r.low};
    }
  }

  lemma {:induction false} SubsetCount(a: set<U16>, b: set<U16>)
    requires a <= b
    ensures |a| <= |b|
    ensures |a| == |b| ==> a == b
  {
    if a != {} {
      var x := AnElement(a);
      SubsetCount(a - {x}, b - {x});
      if |a| == |b| {
        assert a == (a - {x}) + {x} && b == (b - {x}) + {x};
      }
    } else if |b| == 0 {
      assert b == {};
    }
  }

  /** All ports are held exactly when as many are held as the range has. */
  lemma FullIff(r: Range, used: set<U16>)
    requires RangeIsValid(r) && used <= Ports(r)
    ensures |used| >= Capacity(r) <==> used == Ports(r)
  {
    PortCount(r);
    SubsetCount(used, Ports(r));
  }

  class Allocator {
    const range: Range
    var next: U16
    var used: set<U16>

    ghost predicate Valid()
      reads this
    {
      RangeIsValid(range) ==> InRange(range, next) && used <= Ports(range)
    }

    constructor (range: Range)
      ensures Valid() && used == {} && this.range == range && next == range.low
    {
      this.range := range;
      next, used := range.low, {};
    }

    /** The first free port at or after the cursor; none exactly when every port is held. */
    method Acquire() returns (port: Option<U16>)
      requires Valid()
      modifies this
      ensures Valid()
      ensures port.None? <==> range.low == 0 || range.high < range.low || old(used) == Ports(range)
      ensures port.None? ==> used == old(used) && next == old(next)
      ensures port.Some? ==>
                && InRange(range, port.value) && port.value !in old(used)
                && used == old(used) + {port.value} && next == Following(range, port.value)
                && exists k: nat :: Cyclic(range, old(next), k) == port.value && forall j :: 0 <= j < k ==> Cyclic(range, old(next), j) in old(used)
    {
      if !RangeIsValid(range) {
        return None;
      }
      FullIff(range, used);
      var capacity := range.high - range.low + 1;
      if |used| >= capacity {
        return None;
      }
      var candidate := next;
      var attempt := 0;
      while attempt < capacity
        invariant 0 <= attempt <= capacity && candidate == Cyclic(range, next, attempt)
        invariant used == old(used) && next == old(next)
        invariant forall j :: 0 <= j < attempt ==> Cyclic(range, next, j) in used
      {
        if candidate !in used {
          used := used + {candidate};
          next := if candidate == range.high then range.low else candidate + 1;
          return Some(candidate);
        }
        candidate := if candidate == range.high then range.low else candidate + 1;
        attempt := attempt + 1;
      }
      forall p | p in Ports(range)
        ensures p in used
      {
        LapVisits(range, next, p);
      }
      assert false;
    }

    method Release(port: U16)
      requires Valid()
      modifies this
      ensures Valid() && used == old(used) - {port} && next == old(next)
    {
      used := used - {port};
    }
  }
}
