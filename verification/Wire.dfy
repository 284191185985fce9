/**
 Network-order integers and the fixed-width arithmetic that every wire format
 of the relay shares. Bytes and wire integers are `int` subset types, so shifts and masks
 appear as division and remainder by powers of two, and wrap-around is written out.
 */
module Wire {

  type Byte = x: int | 0 <= x < 0x100
  type U16 = x: int | 0 <= x < 0x1_0000
  type U24 = x: int | 0 <= x < 0x100_0000
  type U32 = x: int | 0 <= x < 0x1_0000_0000
  type I16 = x: int | -0x8000 <= x < 0x8000

  datatype Option<+T> = None | Some(value: T)

  datatype Result<+T, +E> = Ok(value: T) | Err(error: E)

  function Min(a: int, b: int): (m: int)
    ensures m <= a && m <= b && (m == a || m == b)
  {
    if a <= b then a else b
  }

  function Max(a: int, b: int): (m: int)
    ensures a <= m && b <= m && (m == a || m == b)
  {
    if a >= b then a else b
  }

  /** Division that truncates toward zero, as C++ divides. */
  function TruncDiv(a: int, b: int): int
    requires b > 0
  {
    if a >= 0 then a / b else -((-a) / b)
  }

  function U16Bytes(v: U16): (b: seq<Byte>)
    ensures |b| == 2
  {
    [v / 0x100, v % 0x100]
  }

  function U24Bytes(v: U24): (b: seq<Byte>)
    ensures |b| == 3
  {
    [v / 0x1_0000] + U16Bytes(v % 0x1_0000)
  }

  function U32Bytes(v: U32): (b: seq<Byte>)
    ensures |b| == 4
  {
    U16Bytes(v / 0x1_0000) + U16Bytes(v % 0x1_0000)
  }

  function ReadU16(data: seq<Byte>, offset: nat): (v: U16)
    requires offset + 2 <= |data|
  {
    data[offset] as int * 0x100 + data[offset + 1]
  }

  function ReadU24(data: seq<Byte>, offset: nat): (v: U24)
    requires offset + 3 <= |data|
  {
    data[offset] as int * 0x1_0000 + ReadU16(data, offset + 1)
  }

  function ReadU32(data: seq<Byte>, offset: nat): (v: U32)
    requires offset + 4 <= |data|
  {
    ReadU16(data, offset) as int * 0x1_0000 + ReadU16(data, offset + 2)
  }

  /** A field is read back exactly when the bytes at that place are the field's encoding. */
  lemma ReadU16Slice(data: seq<Byte>, offset: nat, v: U16)
    requires offset + 2 <= |data|
    ensures data[offset..offset + 2] == U16Bytes(v) <==> ReadU16(data, offset) == v
  {
    var s := data[offset..offset + 2];
    assert data[offset] == s[0] && data[offset + 1] == s[1];
    if ReadU16(data, offset) == v {
      assert s == U16Bytes(v);
    }
  }

  lemma ReadU24Slice(data: seq<Byte>, offset: nat, v: U24)
    requires offset + 3 <= |data|
    ensures data[offset..offset + 3] == U24Bytes(v) <==> ReadU24(data, offset) == v
  {
    hide U16Bytes, ReadU16;
    var s := data[offset..offset + 3];
    var rest := data[offset + 1..offset + 3];
    assert s == [data[offset]] + rest;
    ReadU16Slice(data, offset + 1, v % 0x1_0000);
    assert U24Bytes(v)[0] == v / 0x1_0000 && U24Bytes(v)[1..] == U16Bytes(v % 0x1_0000);
    assert s[0] == data[offset] && s[1..] == rest;
    assert ReadU24(data, offset) == v <==> data[offset] == v / 0x1_0000 && ReadU16(data, offset + 1) == v % 0x1_0000 by {
      HighAndLow(data[offset], ReadU16(data, offset + 1), v);
    }
  }

  lemma HighAndLow(high: Byte, low: U16, v: U24)
    ensures high as int * 0x1_0000 + low == v <==> high == v / 0x1_0000 && low == v % 0x1_0000
  {
  }

  lemma ReadU32Slice(data: seq<Byte>, offset: nat, v: U32)
    requires offset + 4 <= |data|
    ensures data[offset..offset + 4] == U32Bytes(v) <==> ReadU32(data, offset) == v
  {
    var s := data[offset..offset + 4];
    assert s == data[offset..offset + 2] + data[offset + 2..offset + 4];
    ReadU16Slice(data, offset, v / 0x1_0000);
    ReadU16Slice(data, offset + 2, v % 0x1_0000);
    if s == U32Bytes(v) {
      assert data[offset..offset + 2] == s[..2] == U16Bytes(v / 0x1_0000);
      assert data[offset + 2..offset + 4] == s[2..] == U16Bytes(v % 0x1_0000);
    }
  }

  /** Two's-complement view of a signed 16-bit value, and back. */
  function I16ToU16(v: I16): U16 {
    if v < 0 then v + 0x1_0000 else v
  }

  function U16ToI16(v: U16): I16 {
    if v >= 0x8000 then v - 0x1_0000 else v
  }

  /**
   The extended number congruent to a 16-bit `sequence`, taken from the 16-bit block of `newest` and
   moved one block when another block holds a nearer one.
   */
  function Unwrap(newest: int, sequence: U16): (candidate: int)
    ensures candidate % 0x1_0000 == sequence
    ensures newest - 0x8000 <= candidate <= newest + 0x8000
    ensures candidate == newest + 0x8000 ==> newest % 0x1_0000 < 0x8000
    ensures candidate == newest - 0x8000 ==> newest % 0x1_0000 >= 0x8000
  {
    var block := newest - newest % 0x1_0000 + sequence;
    if block - newest > 0x8000 then block - 0x1_0000
    else if newest - block > 0x8000 then block + 0x1_0000
    else block
  }

  /** Congruent numbers less than one block apart are equal. */
  lemma CongruentEqual(a: int, b: int)
    requires a % 0x1_0000 == b % 0x1_0000 && -0x1_0000 < a - b < 0x1_0000
    ensures a == b
  {
  }

  /** A slice of a slice. */
  lemma SliceOfSlice<T>(s: seq<T>, from: nat, to: nat, a: nat, b: nat)
    requires from <= to <= |s| && a <= b <= to - from
    ensures s[from..to][a..b] == s[from + a..from + b]
  {
    forall i | 0 <= i < b - a
      ensures s[from..to][a..b][i] == s[from + a..from + b][i]
    {
      assert s[from..to][a + i] == s[from + (a + i)];
    }
  }

  // ----- witnesses for sets and maps, used where equality is shown element by element -----

  lemma AnElement<T>(s: set<T>) returns (x: T)
    requires s != {}
    ensures x in s
  {
    x :| x in s;
  }

  lemma SetDifference<T>(a: set<T>, b: set<T>) returns (x: T)
    requires a != b
    ensures x in a <==> x !in b
  {
    x :| x in a <==> x !in b;
  }

  lemma MapDifference<K, V>(a: map<K, V>, b: map<K, V>) returns (k: K)
    requires a != b
    ensures (k in a <==> k !in b) || (k in a && k in b && a[k] != b[k])
  {
    if a.Keys != b.Keys {
      k := SetDifference(a.Keys, b.Keys);
    } else {
      k :| k in a && a[k] != b[k];
    }
  }

  function Pow(base: nat, n: nat): (p: nat)
    requires base >= 1
    ensures p >= 1
  {
    if n == 0 then 1 else base * Pow(base, n - 1)
  }

  function Repeat<T>(x: T, n: nat): (s: seq<T>)
    ensures |s| == n && forall i :: 0 <= i < n ==> s[i] == x
  {
    seq(n, _ => x)
  }

  function Zeros(n: nat): (b: seq<Byte>)
    ensures |b| == n && forall i :: 0 <= i < n ==> b[i] == 0
  {
    Repeat(0, n)
  }

  /** The next multiple of four: RTP, RTCP and STUN all pad to whole words. */
  function RoundUp4(n: nat): (r: nat)
    ensures n <= r < n + 4 && r % 4 == 0
  {
    (n + 3) / 4 * 4
  }

  function PadTo4(b: seq<Byte>): (r: seq<Byte>)
    ensures |r| == RoundUp4(|b|)
    ensures r[..|b|] == b && forall i :: |b| <= i < |r| ==> r[i] == 0
  {
    b + Zeros(RoundUp4(|b|) - |b|)
  }

  /** Bytes with one field written in place. */
  function Patched(b: seq<Byte>, at: nat, field: seq<Byte>): seq<Byte>
    requires at + |field| <= |b|
  {
    b[..at] + field + b[at + |field|..]
  }

  // ----- searching -----

  /** Index of the first element that satisfies `p`, or the length. */
  function FirstIndex<T>(s: seq<T>, p: T -> bool): (i: nat)
    ensures i <= |s|
    ensures i < |s| ==> p(s[i])
    ensures forall j :: 0 <= j < i ==> !p(s[j])
  {
    if s == [] || p(s[0]) then 0
    else
      assert forall j :: 0 < j < |s| ==> s[j] == s[1..][j - 1];
      1 + FirstIndex(s[1..], p)
  }
}
