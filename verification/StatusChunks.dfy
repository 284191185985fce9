/**
 Packet status chunks of transport-wide congestion feedback (section 3.1 of
 draft-holmer-rmcat-transport-wide-cc-extensions-01): run-length chunks, one-bit vectors of
 14 symbols and two-bit vectors of 7 symbols, packed into 16 bits.
 */
module StatusChunks {
  import opened Wire

  /** The status symbol is the size of the receive delta: 0 not received, 1 small, 2 large. */
  type Symbol = x: int | 0 <= x <= 2

  const MAX_RUN: nat := 0x1FFF
  const ONE_BIT_SLOTS: nat := 14
  const TWO_BIT_SLOTS: nat := 7

  datatype ChunkError = InvalidRunLength | ReservedSymbol

  // ----- fields inside a 16-bit word -----

  /**
   The symbols `s` in the first of `n` fields, most significant field first. A field takes the
   values below `base`: 2 for one-bit fields, 4 for two-bit fields, so shifting by whole fields is
   multiplying by a power of `base`.
   */
  ghost function Packed(s: seq<Symbol>, base: nat, n: nat): (v: nat)
    requires |s| <= n && base >= 1
  {
    if s == [] then 0 else s[0] * Pow(base, n - 1) + Packed(s[1..], base, n - 1)
  }

  function Field(v: nat, base: nat, n: nat, i: nat): (f: nat)
    requires i < n && base >= 1
    ensures f < base
  {
    v / Pow(base, n - 1 - i) % base
  }

  lemma Associate(a: int, b: int, c: int)
    ensures a * (b * c) == (a * b) * c
  {
  }

  lemma {:induction false} PowAdd(base: nat, a: nat, b: nat)
    requires base >= 1
    ensures Pow(base, a + b) == Pow(base, a) * Pow(base, b)
  {
    if a != 0 {
      PowAdd(base, a - 1, b);
      var p, q := Pow(base, a - 1), Pow(base, b);
      assert Pow(base, a + b) == base * Pow(base, a - 1 + b) && Pow(base, a) == base * p;
      hide Pow;
      Associate(base, p, q);
    }
  }

  lemma DropHigh(h: nat, v: nat, d: nat, b: nat)
    requires d > 0 && b > 0
    ensures (h * b * d + v) / d % b == v / d % b
  {
    DivShift(h * b, v, d);
    DivShift(h, v / d, b);
  }

  /** Adding a multiple of the divisor adds to the quotient alone. */
  lemma DivShift(m: nat, v: nat, d: nat)
    requires d > 0
    ensures (m * d + v) / d == m + v / d
    ensures (m * d + v) % d == v % d
  {
    DivMod(v, d);
    assert m * d + v / d * d == (m + v / d) * d by { Distribute(m, v / d, d); }
    DivUnique(m * d + v, d, m + v / d, v % d);
  }

  lemma Distribute(a: int, b: int, c: int)
    ensures (a + b) * c == a * c + b * c
    ensures (a - b) * c == a * c - b * c
  {
  }

  lemma DivMod(x: nat, d: nat)
    requires d > 0
    ensures x == x / d * d + x % d
  {
  }

  lemma MulAtLeast(k: int, d: int)
    requires k >= 1 && d >= 0
    ensures k * d >= d
  {
  }

  lemma DivUnique(x: nat, d: nat, q: nat, r: nat)
    requires d > 0 && r < d && x == q * d + r
    ensures x / d == q && x % d == r
  {
    var q', r' := x / d, x % d;
    DivMod(x, d);
    Distribute(q, q', d);
    Distribute(q', q, d);
    if q > q' {
      MulAtLeast(q - q', d);
    } else if q < q' {
      MulAtLeast(q' - q, d);
    }
  }

  ghost predicate Fits(s: seq<Symbol>, base: nat) {
    forall i :: 0 <= i < |s| ==> s[i] < base
  }

  lemma {:induction false} PackedBound(s: seq<Symbol>, base: nat, n: nat)
    requires |s| <= n && base >= 1 && Fits(s, base)
    ensures Packed(s, base, n) < Pow(base, n)
  {
    if s != [] {
      PackedBound(s[1..], base, n - 1);
      var p := Pow(base, n - 1);
      Distribute(base, s[0], p);
      MulAtLeast(base - s[0], p);
    }
  }

  /** Whatever stands above the packed fields, each field reads back its own symbol. */
  lemma {:induction false} PackedField(high: nat, s: seq<Symbol>, base: nat, n: nat, i: nat)
    requires i < |s| <= n && base >= 1 && Fits(s, base)
    ensures Field(high * Pow(base, n) + Packed(s, base, n), base, n, i) == s[i]
    decreases n
  {
    HighFieldsIgnored(high, Packed(s, base, n), base, n, i);
    if i == 0 {
      PackedFirstField(s, base, n);
    } else {
      PackedField(s[0], s[1..], base, n - 1, i - 1);
      assert s[1..][i - 1] == s[i];
    }
  }

  lemma PackedFirstField(s: seq<Symbol>, base: nat, n: nat)
    requires s != [] && |s| <= n && base >= 1 && Fits(s, base)
    ensures Field(Packed(s, base, n), base, n, 0) == s[0]
  {
    PackedBound(s[1..], base, n - 1);
    DivUnique(Packed(s, base, n), Pow(base, n - 1), s[0], Packed(s[1..], base, n - 1));
    DivUnique(s[0], base, 0, s[0]);
  }

  lemma HighFieldsIgnored(high: nat, v: nat, base: nat, n: nat, i: nat)
    requires i < n && base >= 1
    ensures Field(high * Pow(base, n) + v, base, n, i) == Field(v, base, n, i)
  {
    var d, h := Pow(base, n - 1 - i), high * Pow(base, i);
    PowAdd(base, i, n - i);
    Reassociate(high, Pow(base, i), base, d);
    DropHigh(h, v, d, base);
  }

  lemma Reassociate(a: int, b: int, c: int, d: int)
    ensures a * (b * (c * d)) == a * b * c * d
  {
    assert b * (c * d) == b * c * d;
    assert a * (b * c * d) == a * (b * c) * d;
    assert a * (b * c) == a * b * c;
  }

  lemma {:induction false} PackedSnoc(s: seq<Symbol>, x: Symbol, base: nat, n: nat)
    requires |s| < n && base >= 1
    ensures Packed(s + [x], base, n) == Packed(s, base, n) + x * Pow(base, n - 1 - |s|)
  {
    if s == [] {
      assert Packed([x][1..], base, n - 1) == 0;
    } else {
      assert (s + [x])[1..] == s[1..] + [x];
      PackedSnoc(s[1..], x, base, n - 1);
    }
  }

  // ----- one chunk -----

  /** Extends a run that already covers `n` symbols equal to the first. */
  function RunFrom(s: seq<Symbol>, n: nat): (r: nat)
    requires 1 <= n <= |s| && n <= MAX_RUN
    requires forall i :: 0 <= i < n ==> s[i] == s[0]
    ensures n <= r <= |s| && r <= MAX_RUN
    ensures forall i :: 0 <= i < r ==> s[i] == s[0]
    ensures r == MAX_RUN || r == |s| || s[r] != s[0]
    decreases |s| - n
  {
    if n < |s| && s[n] == s[0] && n < MAX_RUN then RunFrom(s, n + 1) else n
  }

  predicate OneBitCompatible(s: seq<Symbol>) {
    forall i :: 0 <= i < Min(ONE_BIT_SLOTS, |s|) ==> s[i] <= 1
  }

  /** The first chunk chosen for `s` and how many symbols it carries. */
  ghost function FirstChunk(s: seq<Symbol>): (c: (nat, nat))
    requires s != []
  {
    var run := RunFrom(s, 1);
    if run >= TWO_BIT_SLOTS then (s[0] as int * 0x2000 + run, run)
    else if OneBitCompatible(s) then
      var k := Min(ONE_BIT_SLOTS, |s|);
      (0x8000 + Packed(s[..k], 2, ONE_BIT_SLOTS), k)
    else
      var k := Min(TWO_BIT_SLOTS, |s|);
      (0xC000 + Packed(s[..k], 4, TWO_BIT_SLOTS), k)
  }

  lemma VectorSizes()
    ensures Pow(2, ONE_BIT_SLOTS) == 0x4000 && Pow(4, TWO_BIT_SLOTS) == 0x4000
  {
    assert Pow(2, 7) == 2 * Pow(2, 6) == 128 by {
      assert Pow(2, 3) == 8;
    }
    PowAdd(2, 7, 7);
    assert Pow(4, 3) == 64;
    assert Pow(4, 7) == 256 * Pow(4, 3);
  }

  lemma FirstChunkRange(s: seq<Symbol>)
    requires s != []
    ensures FirstChunk(s).0 < 0x1_0000
    ensures 1 <= FirstChunk(s).1 <= |s|
    ensures FirstChunk(s).0 < 0x8000 <==> RunFrom(s, 1) >= TWO_BIT_SLOTS
    ensures FirstChunk(s).0 < 0xC000 <==> RunFrom(s, 1) >= TWO_BIT_SLOTS || OneBitCompatible(s)
  {
    VectorSizes();
    if RunFrom(s, 1) < TWO_BIT_SLOTS {
      if OneBitCompatible(s) {
        PackedBound(s[..Min(ONE_BIT_SLOTS, |s|)], 2, ONE_BIT_SLOTS);
      } else {
        PackedBound(s[..Min(TWO_BIT_SLOTS, |s|)], 4, TWO_BIT_SLOTS);
      }
    }
  }

  /** What one chunk says about the next `remaining` packets. */
  function DecodeChunk(chunk: U16, remaining: nat): (r: Result<seq<Symbol>, ChunkError>)
    requires remaining > 0
    ensures r.Ok? ==> 1 <= |r.value| <= remaining
  {
    if chunk < 0x8000 then
      var symbol, run := chunk / 0x2000 % 4, chunk % 0x2000;
      if run == 0 || symbol == 3 then Err(InvalidRunLength) else Ok(Repeat(symbol, Min(run, remaining)))
    else if chunk < 0xC000 then
      Ok(seq(Min(ONE_BIT_SLOTS, remaining), i requires 0 <= i < ONE_BIT_SLOTS => Field(chunk, 2, ONE_BIT_SLOTS, i) as Symbol))
    else
      var fields := seq(Min(TWO_BIT_SLOTS, remaining), i requires 0 <= i < TWO_BIT_SLOTS => Field(chunk, 4, TWO_BIT_SLOTS, i));
      if exists i :: 0 <= i < |fields| && fields[i] == 3 then Err(ReservedSymbol)
      else Ok(seq(|fields|, i requires 0 <= i < |fields| => fields[i] as Symbol))
  }

  /** All three formats decode to exactly the symbols they were built from. */
  lemma FirstChunkRoundTrip(s: seq<Symbol>)
    requires s != []
    ensures FirstChunk(s).0 < 0x1_0000 && 1 <= FirstChunk(s).1 <= |s|
    ensures DecodeChunk(FirstChunk(s).0, |s|) == Ok(s[..FirstChunk(s).1])
  {
    FirstChunkRange(s);
    hide DecodeChunk, Packed;
    if RunFrom(s, 1) >= TWO_BIT_SLOTS {
      RunRoundTrip(s, RunFrom(s, 1));
    } else if OneBitCompatible(s) {
      OneBitRoundTrip(s);
    } else {
      TwoBitRoundTrip(s);
    }
  }

  lemma RunRoundTrip(s: seq<Symbol>, run: nat)
    requires 1 <= run <= |s| && run <= MAX_RUN
    requires forall i :: 0 <= i < run ==> s[i] == s[0]
    ensures DecodeChunk(s[0] * 0x2000 + run, |s|) == Ok(s[..run])
  {
    assert DecodeChunk(s[0] * 0x2000 + run, |s|).value == s[..run];
  }

  lemma OneBitRoundTrip(s: seq<Symbol>)
    requires s != [] && OneBitCompatible(s)
    ensures var k := Min(ONE_BIT_SLOTS, |s|);
            var chunk := 0x8000 + Packed(s[..k], 2, ONE_BIT_SLOTS);
            chunk < 0xC000 && DecodeChunk(chunk, |s|) == Ok(s[..k])
  {
    var k := Min(ONE_BIT_SLOTS, |s|);
    VectorSizes();
    PackedBound(s[..k], 2, ONE_BIT_SLOTS);
    VectorFields(s[..k], 2, 2, ONE_BIT_SLOTS);
    assert DecodeChunk(0x8000 + Packed(s[..k], 2, ONE_BIT_SLOTS), |s|).value == s[..k];
  }

  lemma TwoBitRoundTrip(s: seq<Symbol>)
    requires s != []
    ensures var k := Min(TWO_BIT_SLOTS, |s|);
            var chunk := 0xC000 + Packed(s[..k], 4, TWO_BIT_SLOTS);
            chunk < 0x1_0000 && DecodeChunk(chunk, |s|) == Ok(s[..k])
  {
    var k := Min(TWO_BIT_SLOTS, |s|);
    VectorSizes();
    PackedBound(s[..k], 4, TWO_BIT_SLOTS);
    VectorFields(s[..k], 3, 4, TWO_BIT_SLOTS);
    var chunk := 0xC000 + Packed(s[..k], 4, TWO_BIT_SLOTS);
    assert forall i :: 0 <= i < k ==> Field(chunk, 4, TWO_BIT_SLOTS, i) == s[..k][i] <= 2;
    assert DecodeChunk(chunk, |s|).Ok?;
    assert DecodeChunk(chunk, |s|).value == s[..k];
  }

  lemma VectorFields(s: seq<Symbol>, high: nat, base: nat, n: nat)
    requires |s| <= n && base >= 1 && Pow(base, n) == 0x4000 && Fits(s, base)
    ensures forall i :: 0 <= i < |s| ==> Field(high * 0x4000 + Packed(s, base, n), base, n, i) == s[i]
  {
    forall i | 0 <= i < |s|
      ensures Field(high * 0x4000 + Packed(s, base, n), base, n, i) == s[i]
    {
      PackedField(high, s, base, n, i);
    }
  }

  // ----- the whole list -----

  /** The chunk list for `s`, one greedy chunk at a time. */
  ghost function Chunks(s: seq<Symbol>): (c: seq<U16>)
    decreases |s|
  {
    if s == [] then []
    else
      FirstChunkRange(s);
      [FirstChunk(s).0] + Chunks(s[FirstChunk(s).1..])
  }

  lemma ChunksStep(s: seq<Symbol>, chunk: U16, count: nat)
    requires s != [] && (chunk, count) == FirstChunk(s)
    ensures count <= |s| && Chunks(s) == [chunk] + Chunks(s[count..])
  {
    FirstChunkRange(s);
  }

  lemma {:induction false} ChunkCountBound(s: seq<Symbol>)
    ensures |Chunks(s)| <= |s|
    ensures s != [] ==> |Chunks(s)| >= 1
    decreases |s|
  {
    if s != [] {
      FirstChunkRange(s);
      ChunkCountBound(s[FirstChunk(s).1..]);
    }
  }

  method EncodeStatusChunks(symbols: seq<Symbol>) returns (chunks: seq<U16>)
    ensures chunks == Chunks(symbols)
  {
    chunks := [];
    var offset := 0;
    hide FirstChunk;
    ghost var todo := Chunks(symbols);
    assert symbols[0..] == symbols;
    while offset < |symbols|
      invariant 0 <= offset <= |symbols|
      invariant todo == Chunks(symbols[offset..])
      invariant Chunks(symbols) == chunks + todo
    {
      var chunk, count := EncodeChunk(symbols, offset);
      todo := Chunks(symbols[offset + count..]);
      assert chunks + ([chunk] + todo) == (chunks + [chunk]) + todo;
      chunks := chunks + [chunk];
      offset := offset + count;
    }
    assert symbols[offset..] == [];
  }

  method EncodeChunk(symbols: seq<Symbol>, offset: nat) returns (chunk: U16, count: nat)
    requires offset < |symbols|
    ensures 1 <= count <= |symbols| - offset
    ensures Chunks(symbols[offset..]) == [chunk] + Chunks(symbols[offset + count..])
  {
    chunk, count := ChooseChunk(symbols, offset);
    ChunksStep(symbols[offset..], chunk, count);
    FirstChunkRange(symbols[offset..]);
    assert symbols[offset + count..] == symbols[offset..][count..];
  }

  /** One turn of the encoding loop. */
  method ChooseChunk(symbols: seq<Symbol>, offset: nat) returns (chunk: U16, count: nat)
    requires offset < |symbols|
    ensures (chunk, count) == FirstChunk(symbols[offset..])
  {
    ghost var rest := symbols[offset..];
    FirstChunkRange(rest);
    var symbol := symbols[offset];
    var runLength := 1;
    while offset + runLength < |symbols| && symbols[offset + runLength] == symbol && runLength < MAX_RUN
      invariant 1 <= runLength <= |rest| && runLength <= MAX_RUN
      invariant forall i :: 0 <= i < runLength ==> rest[i] == rest[0]
      invariant RunFrom(rest, runLength) == RunFrom(rest, 1)
    {
      assert rest[runLength] == symbols[offset + runLength];
      runLength := runLength + 1;
    }
    if runLength >= TWO_BIT_SLOTS {
      return symbol * 0x2000 + runLength, runLength;
    }

    var oneBitCount := Min(ONE_BIT_SLOTS, |symbols| - offset);
    var index := 0;
    while index < oneBitCount && symbols[offset + index] <= 1
      invariant 0 <= index <= oneBitCount
      invariant forall i :: 0 <= i < index ==> rest[i] <= 1
    {
      assert rest[index] == symbols[offset + index];
      index := index + 1;
    }
    if index == oneBitCount {
      var vector := PackVector(symbols, offset, oneBitCount, 2, ONE_BIT_SLOTS);
      return 0x8000 + vector, oneBitCount;
    }
    assert rest[index] > 1;

    var twoBitCount := Min(TWO_BIT_SLOTS, |symbols| - offset);
    var vector := PackVector(symbols, offset, twoBitCount, 4, TWO_BIT_SLOTS);
    return 0xC000 + vector, twoBitCount;
  }

  /** Shifts `count` symbols into their fields, first symbol in the most significant field. */
  method PackVector(symbols: seq<Symbol>, offset: nat, count: nat, base: nat, n: nat) returns (v: nat)
    requires offset + count <= |symbols| && count <= n && base >= 1
    ensures v == Packed(symbols[offset..][..count], base, n)
  {
    v := 0;
    ghost var rest := symbols[offset..];
    for index := 0 to count
      invariant v == Packed(rest[..index], base, n)
    {
      PackedSnoc(rest[..index], rest[index], base, n);
      assert rest[..index] + [rest[index]] == rest[..index + 1];
      v := v + symbols[offset + index] * Pow(base, n - 1 - index);
    }
  }
}
