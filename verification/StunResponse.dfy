/**
 Binding success responses (`ice/stun_message.cpp`): the writer patches the length field twice, first
 for the message integrity and then for the fingerprint; both verifiers undo exactly that.
 */
module StunResponse {
  import opened Wire
  import opened Stun

  // ----- bits of bytes -----

  /** Exclusive or of the lowest `n` bits. */
  function XorBits(n: nat, a: nat, b: nat): (r: nat)
    ensures r < Pow(2, n)
  {
    if n == 0 then 0 else (if a % 2 == b % 2 then 0 else 1) + 2 * XorBits(n - 1, a / 2, b / 2)
  }

  /** Inclusive or of the lowest `n` bits. */
  function OrBits(n: nat, a: nat, b: nat): (r: nat)
    ensures r < Pow(2, n)
  {
    if n == 0 then 0 else (if a % 2 + b % 2 > 0 then 1 else 0) + 2 * OrBits(n - 1, a / 2, b / 2)
  }

  function XorByte(a: Byte, b: Byte): Byte {
    assert Pow(2, 8) == 0x100;
    XorBits(8, a, b)
  }

  function OrByte(a: Byte, b: Byte): Byte {
    assert Pow(2, 8) == 0x100;
    OrBits(8, a, b)
  }

  lemma Halves(bit: nat, rest: nat)
    requires bit < 2
    ensures (bit + 2 * rest) / 2 == rest && (bit + 2 * rest) % 2 == bit
  {
  }

  lemma SameHalves(a: nat, b: nat)
    ensures a == b <==> a % 2 == b % 2 && a / 2 == b / 2
  {
  }

  lemma {:induction false} XorBitsTwice(n: nat, a: nat, b: nat)
    requires a < Pow(2, n)
    ensures XorBits(n, XorBits(n, a, b), b) == a
  {
    if n > 0 {
      XorBitsTwice(n - 1, a / 2, b / 2);
      var rest := XorBits(n - 1, a / 2, b / 2);
      Halves(if a % 2 == b % 2 then 0 else 1, rest);
    }
  }

  lemma {:induction false} XorBitsZero(n: nat, a: nat, b: nat)
    requires a < Pow(2, n) && b < Pow(2, n)
    ensures XorBits(n, a, b) == 0 <==> a == b
  {
    if n > 0 {
      XorBitsZero(n - 1, a / 2, b / 2);
      SameHalves(a, b);
    }
  }

  lemma {:induction false} OrBitsZero(n: nat, a: nat, b: nat)
    requires a < Pow(2, n) && b < Pow(2, n)
    ensures OrBits(n, a, b) == 0 <==> a == 0 && b == 0
  {
    if n > 0 {
      OrBitsZero(n - 1, a / 2, b / 2);
    }
  }

  lemma DifferenceShows(result: Byte, a: Byte, b: Byte)
    ensures OrByte(result, XorByte(a, b)) == 0 <==> result == 0 && a == b
  {
    assert Pow(2, 8) == 0x100;
    XorBitsZero(8, a, b);
    OrBitsZero(8, result, XorByte(a, b));
    hide XorBits, OrBits;
  }

  /** Comparing without an early exit still decides equality. */
  method ConstantTimeEqual(left: seq<Byte>, right: seq<Byte>) returns (equal: bool)
    ensures equal == (left == right)
  {
    hide XorByte, OrByte;
    if |left| != |right| {
      return false;
    }
    var result: Byte := 0;
    for i := 0 to |left|
      invariant result == 0 <==> left[..i] == right[..i]
    {
      DifferenceShows(result, left[i], right[i]);
      assert left[..i + 1] == left[..i] + [left[i]] && right[..i + 1] == right[..i] + [right[i]];
      result := OrByte(result, XorByte(left[i], right[i]));
    }
    assert left[..|left|] == left && right[..|right|] == right;
    return result == 0;
  }

  // ----- checksum -----

  function CrcBit(crc: bv32): bv32 {
    if crc & 1 != 0 then (crc >> 1) ^ 0xEDB8_8320 else crc >> 1
  }

  function CrcBits(crc: bv32, n: nat): bv32 {
    if n == 0 then crc else CrcBit(CrcBits(crc, n - 1))
  }

  function CrcMix(crc: bv32, b: Byte): bv32 {
    crc ^ (b as bv32)
  }

  /** The CRC register after some bytes. */
  function CrcRegister(data: seq<Byte>): bv32 {
    if data == [] then 0xFFFF_FFFF else CrcBits(CrcMix(CrcRegister(data[..|data| - 1]), data[|data| - 1]), 8)
  }

  function Crc32(data: seq<Byte>): bv32 {
    CrcRegister(data) ^ 0xFFFF_FFFF
  }

  function Masked(crc: bv32): U32 {
    (crc ^ 0x5354_554E) as int
  }

  function FingerprintOf(data: seq<Byte>): U32 {
    Masked(Crc32(data))
  }

  method CalculateCrc32(data: seq<Byte>) returns (r: bv32)
    ensures r == Crc32(data)
  {
    hide CrcBit, CrcMix;
    r := 0xFFFF_FFFF;
    assert data[..0] == [];
    for i := 0 to |data|
      invariant r == CrcRegister(data[..i])
    {
      assert data[..i + 1][..i] == data[..i];
      r := CrcMix(r, data[i]);
      ghost var start := r;
      for bit := 0 to 8
        invariant r == CrcBits(start, bit)
      {
        r := CrcBit(r);
      }
    }
    assert data[..|data|] == data;
    r := r ^ 0xFFFF_FFFF;
  }

  // ----- the mapped address -----

  datatype Ip = V4(bytes4: seq<Byte>) | V6(bytes6: seq<Byte>)

  predicate IpOk(ip: Ip) {
    match ip
    case V4(b) => |b| == 4
    case V6(b) => |b| == 16
  }

  function Xored(bytes: seq<Byte>, mask: seq<Byte>): (r: seq<Byte>)
    requires |bytes| <= |mask|
    ensures |r| == |bytes|
  {
    seq(|bytes|, i requires 0 <= i < |bytes| => XorByte(bytes[i], mask[i]))
  }

  function BytesOf(ip: Ip): seq<Byte> {
    match ip
    case V4(b) => b
    case V6(b) => b
  }

  /** Family, port and address, the latter two under the cookie and transaction id. */
  function AddressValue(ip: Ip, port: U16, id: TransactionId): (v: seq<Byte>)
    requires IpOk(ip)
    ensures |v| == (if ip.V4? then 8 else 20) && v[1] == if ip.V4? then 1 else 2
  {
    [0, if ip.V4? then 1 else 2] + Xored(U16Bytes(port), COOKIE_BYTES) + Xored(BytesOf(ip), COOKIE_BYTES + id)
  }

  lemma XorTwice(a: Byte, b: Byte)
    ensures XorByte(XorByte(a, b), b) == a
  {
    assert Pow(2, 8) == 0x100;
    XorBitsTwice(8, a, b);
    hide XorBits;
  }

  lemma XoredTwice(bytes: seq<Byte>, mask: seq<Byte>)
    requires |bytes| <= |mask|
    ensures Xored(Xored(bytes, mask), mask) == bytes
  {
    hide XorByte;
    forall i | 0 <= i < |bytes|
      ensures XorByte(XorByte(bytes[i], mask[i]), mask[i]) == bytes[i]
    {
      XorTwice(bytes[i], mask[i]);
    }
  }

  /** Section 15.2 of RFC 5389: a client recovers port and address with the same cookie and id. */
  lemma AddressRecovered(ip: Ip, port: U16, id: TransactionId)
    requires IpOk(ip)
    ensures var v := AddressValue(ip, port, id);
            && Xored(v[2..4], COOKIE_BYTES) == U16Bytes(port)
            && Xored(v[4..], COOKIE_BYTES + id) == BytesOf(ip)
            && AddressOk(v)
  {
    hide Xored, U16Bytes;
    XoredTwice(U16Bytes(port), COOKIE_BYTES);
    XoredTwice(BytesOf(ip), COOKIE_BYTES + id);
    var v := AddressValue(ip, port, id);
    assert v[2..4] == Xored(U16Bytes(port), COOKIE_BYTES);
    assert v[4..] == Xored(BytesOf(ip), COOKIE_BYTES + id);
  }

  // ----- the response -----

  function HeaderBytes(kind: U16, length: U16, id: TransactionId): (b: seq<Byte>)
    ensures |b| == HEADER
  {
    U16Bytes(kind) + U16Bytes(length) + U32Bytes(COOKIE) + id
  }

  /** An attribute whose value needs no padding. */
  function AttributeBytes(kind: U16, value: seq<Byte>): (b: seq<Byte>)
    requires |value| < 0x1_0000
    ensures |b| == 4 + |value|
  {
    U16Bytes(kind) + U16Bytes(|value|) + value
  }

  const BINDING: MethodNumber := 1

  function Addressed(length: U16, id: TransactionId, value: seq<Byte>): (b: seq<Byte>)
    requires |value| <= 20
    ensures |b| == HEADER + 4 + |value|
  {
    HeaderBytes(EncodeType(BINDING, SuccessResponse), length, id) + AttributeBytes(XOR_MAPPED_ADDRESS, value)
  }

  /** The digest covers a length field that ends at the integrity attribute. */
  function DigestOf(id: TransactionId, value: seq<Byte>, key: seq<Byte>, hmac: Hmac): Digest
    requires |value| <= 20
  {
    hmac(Addressed(|value| + 28, id, value), key)
  }

  /** The checksum covers the final length field. */
  function Signed(id: TransactionId, value: seq<Byte>, key: seq<Byte>, hmac: Hmac): (b: seq<Byte>)
    requires |value| <= 20
    ensures |b| == HEADER + 28 + |value|
  {
    Addressed(|value| + 36, id, value) + AttributeBytes(MESSAGE_INTEGRITY, DigestOf(id, value, key, hmac))
  }

  function Response(id: TransactionId, value: seq<Byte>, key: seq<Byte>, hmac: Hmac): (b: seq<Byte>)
    requires |value| <= 20
    ensures |b| == HEADER + 36 + |value|
  {
    var signed := Signed(id, value, key, hmac);
    signed + AttributeBytes(FINGERPRINT, U32Bytes(FingerprintOf(signed)))
  }

  function ResponseRefusal(request: Message, ip: string, port: U16, key: seq<Byte>, readIp: string -> Option<Ip>): Option<StunError> {
    if request.method_ != BINDING || request.class_ != Request then Some(NotBindingRequest)
    else if ip == "" then Some(EmptyIp)
    else if port == 0 then Some(ZeroPort)
    else if key == [] then Some(EmptyKey)
    else if readIp(ip).None? then Some(BadIp)
    else None
  }

  /** The writer: append, set the length, digest, append, set the length again, checksum. */
  method WriteResponse(request: Message, ip: string, port: U16, key: seq<Byte>, hmac: Hmac, readIp: string -> Option<Ip>)
    returns (r: Result<seq<Byte>, StunError>)
    requires forall text :: readIp(text).Some? ==> IpOk(readIp(text).value)
    ensures r == match ResponseRefusal(request, ip, port, key, readIp)
                 case Some(e) => Err(e)
                 case None => Ok(Response(request.transactionId, AddressValue(readIp(ip).value, port, request.transactionId), key, hmac))
  {
    hide FingerprintOf, U32Bytes, Xored, HeaderBytes, AttributeBytes, Patched, DigestOf;
    if request.method_ != BINDING || request.class_ != Request {
      return Err(NotBindingRequest);
    }
    if ip == "" {
      return Err(EmptyIp);
    }
    if port == 0 {
      return Err(ZeroPort);
    }
    if key == [] {
      return Err(EmptyKey);
    }
    var address := readIp(ip);
    if address.None? {
      return Err(BadIp);
    }
    var id := request.transactionId;
    var kind := EncodeType(BINDING, SuccessResponse);
    var value := AddressValue(address.value, port, id);
    var packet := HeaderBytes(kind, 0, id) + AttributeBytes(XOR_MAPPED_ADDRESS, value);
    LengthSet(kind, 0, id, AttributeBytes(XOR_MAPPED_ADDRESS, value), |value| + 4);
    packet := Patched(packet, 2, U16Bytes(|value| + 4));
    packet := AppendIntegrity(packet, id, value, key, hmac);
    packet := AppendFingerprint(packet, id, value, key, hmac);
    return Ok(packet);
  }

  lemma LengthSet(kind: U16, before: U16, id: TransactionId, rest: seq<Byte>, after: U16)
    ensures Patched(HeaderBytes(kind, before, id) + rest, 2, U16Bytes(after)) == HeaderBytes(kind, after, id) + rest
  {
    hide U16Bytes, U32Bytes;
  }

  method AppendIntegrity(packet: seq<Byte>, id: TransactionId, value: seq<Byte>, key: seq<Byte>, hmac: Hmac) returns (r: seq<Byte>)
    requires |value| <= 20 && packet == Addressed(|value| + 4, id, value)
    ensures r == Addressed(|value| + 28, id, value) + AttributeBytes(MESSAGE_INTEGRITY, DigestOf(id, value, key, hmac))
  {
    hide HeaderBytes, Patched, U16Bytes;
    ghost var kind := EncodeType(BINDING, SuccessResponse);
    ghost var address := AttributeBytes(XOR_MAPPED_ADDRESS, value);
    var at := |packet|;
    r := packet + U16Bytes(MESSAGE_INTEGRITY) + U16Bytes(20) + Zeros(20);
    ghost var tail := U16Bytes(MESSAGE_INTEGRITY) + U16Bytes(20) + Zeros(20);
    assert r == HeaderBytes(kind, |value| + 4, id) + (address + tail);
    LengthSet(kind, |value| + 4, id, address + tail, |value| + 28);
    r := Patched(r, 2, U16Bytes(|r| - HEADER));
    assert r == Addressed(|value| + 28, id, value) + tail;
    assert r[..at] == Addressed(|value| + 28, id, value);
    var digest := hmac(r[..at], key);
    PatchedLast(Addressed(|value| + 28, id, value) + U16Bytes(MESSAGE_INTEGRITY) + U16Bytes(20), Zeros(20), digest);
    assert r == Addressed(|value| + 28, id, value) + U16Bytes(MESSAGE_INTEGRITY) + U16Bytes(20) + Zeros(20);
    r := Patched(r, at + 4, digest);
  }

  lemma PatchedLast(front: seq<Byte>, old_: seq<Byte>, new_: seq<Byte>)
    requires |old_| == |new_|
    ensures Patched(front + old_, |front|, new_) == front + new_
  {
  }

  method AppendFingerprint(packet: seq<Byte>, ghost id: TransactionId, ghost value: seq<Byte>, ghost key: seq<Byte>, ghost hmac: Hmac) returns (r: seq<Byte>)
    requires |value| <= 20
    requires packet == Addressed(|value| + 28, id, value) + AttributeBytes(MESSAGE_INTEGRITY, DigestOf(id, value, key, hmac))
    ensures r == Response(id, value, key, hmac)
  {
    hide HeaderBytes, Patched, U16Bytes, U32Bytes, DigestOf, Crc32, Masked, EncodeType;
    ghost var kind := EncodeType(BINDING, SuccessResponse);
    ghost var middle := AttributeBytes(XOR_MAPPED_ADDRESS, value) + AttributeBytes(MESSAGE_INTEGRITY, DigestOf(id, value, key, hmac));
    ghost var tail := U16Bytes(FINGERPRINT) + U16Bytes(4) + U32Bytes(0);
    var at := |packet|;
    r := packet + U16Bytes(FINGERPRINT) + U16Bytes(4) + U32Bytes(0);
    assert r == HeaderBytes(kind, |value| + 28, id) + (middle + tail);
    LengthSet(kind, |value| + 28, id, middle + tail, |value| + 36);
    r := Patched(r, 2, U16Bytes(|r| - HEADER));
    ghost var signed := Signed(id, value, key, hmac);
    assert r == signed + tail;
    assert r[..at] == signed;
    var crc := CalculateCrc32(r[..at]);
    PatchedLast(signed + U16Bytes(FINGERPRINT) + U16Bytes(4), U32Bytes(0), U32Bytes(Masked(crc)));
    assert r == signed + U16Bytes(FINGERPRINT) + U16Bytes(4) + U32Bytes(0);
    r := Patched(r, at + 4, U32Bytes(Masked(crc)));
  }

  /** A response is written exactly for a binding request, to a readable address with a port, under a key. */
  lemma RespondsIff(request: Message, ip: string, port: U16, key: seq<Byte>, readIp: string -> Option<Ip>)
    ensures ResponseRefusal(request, ip, port, key, readIp).None? <==>
              request.method_ == BINDING && request.class_ == Request && ip != "" && port != 0 && key != [] && readIp(ip).Some?
  {
  }

  // ----- the verifiers -----

  function FingerprintError(data: seq<Byte>): Option<StunError> {
    if HeaderError(data).Some? then HeaderError(data)
    else
      match FindFingerprint(data, HEADER)
      case Err(e) => Some(e)
      case Ok(at) => if FingerprintOf(data[..at]) == ReadU32(data, at + 4) then None else Some(Mismatch)
  }

  function IntegrityError(data: seq<Byte>, key: seq<Byte>, hmac: Hmac): Option<StunError> {
    if HeaderError(data).Some? then HeaderError(data)
    else if key == [] then Some(EmptyKey)
    else
      match FindIntegrity(data, HEADER)
      case Err(e) => Some(e)
      case Ok(at) =>
        if at + 4 > 0xFFFF then Some(Truncated)
        else if hmac(Patched(data[..at], 2, U16Bytes(at + 4)), key) == data[at + 4..at + 24] then None
        else Some(Mismatch)
  }

  /** The fingerprint verifies exactly when the last attribute holds the checksum of everything before it. */
  lemma FingerprintIff(data: seq<Byte>)
    ensures FingerprintError(data).None? <==>
              && HeaderError(data).None? && FindFingerprint(data, HEADER).Ok?
              && var at := FindFingerprint(data, HEADER).value; FingerprintOf(data[..at]) == ReadU32(data, at + 4)
  {
    hide FingerprintOf, ReadU32, HeaderError;
  }

  /**
   The integrity verifies exactly when the first such attribute holds the digest, under the key, of
   everything before it with the length field set as if the message ended with that attribute.
   */
  lemma IntegrityIff(data: seq<Byte>, key: seq<Byte>, hmac: Hmac)
    ensures IntegrityError(data, key, hmac).None? <==>
              && HeaderError(data).None? && key != [] && FindIntegrity(data, HEADER).Ok?
              && var at := FindIntegrity(data, HEADER).value;
                 at + 4 <= 0xFFFF && hmac(Patched(data[..at], 2, U16Bytes(at + 4)), key) == data[at + 4..at + 24]
  {
    hide Patched, U16Bytes, HeaderError;
  }

  // ----- a written response passes -----

  lemma AttributeAt(data: seq<Byte>, offset: nat, kind: U16, value: seq<Byte>)
    requires |value| < 0x1_0000 && |value| % 4 == 0 && offset + 4 + |value| <= |data|
    requires data[offset..offset + 4 + |value|] == AttributeBytes(kind, value)
    ensures ReadU16(data, offset) == kind && ReadU16(data, offset + 2) == |value|
    ensures Fits(data, offset) && NextOffset(data, offset) == offset + 4 + |value| && ValueAt(data, offset) == value
  {
    hide U16Bytes, ReadU16, AttributeBytes, NextOffset, Fits, ValueAt, PaddingSize;
    AttributeParts(kind, value);
    var end := offset + 4 + |value|;
    SliceOfSlice(data, offset, end, 0, 2);
    SliceOfSlice(data, offset, end, 2, 4);
    SliceOfSlice(data, offset, end, 4, 4 + |value|);
    ReadU16Slice(data, offset, kind);
    ReadU16Slice(data, offset + 2, |value|);
    WholeAttribute(data, offset, |value|);
  }

  lemma AttributeParts(kind: U16, value: seq<Byte>)
    requires |value| < 0x1_0000 && |value| % 4 == 0
    ensures var part := AttributeBytes(kind, value);
            |part| == 4 + |value| && part[0..2] == U16Bytes(kind) && part[2..4] == U16Bytes(|value|) && part[4..4 + |value|] == value
  {
    hide U16Bytes;
  }

  /** An attribute of whole words without padding. */
  lemma WholeAttribute(data: seq<Byte>, offset: nat, size: nat)
    requires offset + 4 + size <= |data| && size % 4 == 0 && ReadU16(data, offset + 2) == size
    ensures Fits(data, offset) && NextOffset(data, offset) == offset + 4 + size && ValueAt(data, offset) == data[offset + 4..offset + 4 + size]
  {
    hide ReadU16;
  }

  /** Where the parts of a response lie. */
  lemma ResponseParts(id: TransactionId, value: seq<Byte>, key: seq<Byte>, hmac: Hmac)
    requires |value| <= 20
    ensures var data, n := Response(id, value, key, hmac), |value|;
            var signed := Signed(id, value, key, hmac);
            && data[..HEADER] == HeaderBytes(EncodeType(BINDING, SuccessResponse), n + 36, id)
            && data[20..24 + n] == AttributeBytes(XOR_MAPPED_ADDRESS, value)
            && data[24 + n..48 + n] == AttributeBytes(MESSAGE_INTEGRITY, DigestOf(id, value, key, hmac))
            && data[48 + n..56 + n] == AttributeBytes(FINGERPRINT, U32Bytes(FingerprintOf(signed)))
            && data[..24 + n] == Addressed(n + 36, id, value)
            && data[..48 + n] == signed
  {
    hide HeaderBytes, AttributeBytes, DigestOf, U32Bytes, FingerprintOf, EncodeType;
  }

  lemma HeaderAccepted(data: seq<Byte>, id: TransactionId)
    requires HEADER <= |data| < 0x1_0000 && |data| % 4 == 0
    requires data[..HEADER] == HeaderBytes(EncodeType(BINDING, SuccessResponse), |data| - HEADER, id)
    ensures HeaderError(data).None? && data[8..20] == id && ReadU16(data, 0) == EncodeType(BINDING, SuccessResponse)
  {
    hide EncodeType, HeaderBytes, ReadU16, ReadU32;
    ResponseType();
    HeaderFields(data, 0x0101, |data| - HEADER, id);
    FirstByte(data);
  }

  lemma ResponseType()
    ensures EncodeType(BINDING, SuccessResponse) == 0x0101
  {
  }

  lemma FirstByte(data: seq<Byte>)
    requires |data| >= 2 && ReadU16(data, 0) == 0x0101
    ensures data[0] == 1
  {
  }

  lemma HeaderFields(data: seq<Byte>, kind: U16, length: U16, id: TransactionId)
    requires |data| >= HEADER && data[..HEADER] == HeaderBytes(kind, length, id)
    ensures ReadU16(data, 0) == kind && ReadU16(data, 2) == length && ReadU32(data, 4) == COOKIE && data[8..20] == id
  {
    hide U16Bytes, U32Bytes, ReadU16, ReadU32;
    var h := HeaderBytes(kind, length, id);
    assert h[0..2] == U16Bytes(kind) && h[2..4] == U16Bytes(length) && h[4..8] == U32Bytes(COOKIE) && h[8..20] == id;
    hide HeaderBytes;
    SliceOfSlice(data, 0, HEADER, 0, 2);
    SliceOfSlice(data, 0, HEADER, 2, 4);
    SliceOfSlice(data, 0, HEADER, 4, 8);
    SliceOfSlice(data, 0, HEADER, 8, 20);
    assert data[..HEADER] == data[0..HEADER];
    ReadU16Slice(data, 0, kind);
    ReadU16Slice(data, 2, length);
    ReadU32Slice(data, 4, COOKIE);
  }

  function Expected(id: TransactionId): Message {
    Message(BINDING, SuccessResponse, id, None, None, false, false, false, true, true)
  }

  /** The walk over the three attributes of a response. */
  lemma ResponseWalk(data: seq<Byte>, value: seq<Byte>, digest: Digest, mark: seq<Byte>, m: Message)
    requires AddressOk(value) && |mark| == 4 && |data| == 56 + |value|
    requires data[20..24 + |value|] == AttributeBytes(XOR_MAPPED_ADDRESS, value)
    requires data[24 + |value|..48 + |value|] == AttributeBytes(MESSAGE_INTEGRITY, digest)
    requires data[48 + |value|..56 + |value|] == AttributeBytes(FINGERPRINT, mark)
    ensures ParseAttributes(data, HEADER, m) == Ok(m.(integrity := true, fingerprint := true))
    ensures FindIntegrity(data, HEADER) == Ok(24 + |value|) && FindFingerprint(data, HEADER) == Ok(48 + |value|)
    ensures data[28 + |value|..48 + |value|] == digest && data[52 + |value|..56 + |value|] == mark
  {
    var n := |value|;
    AttributeAt(data, 20, XOR_MAPPED_ADDRESS, value);
    AttributeAt(data, 24 + n, MESSAGE_INTEGRITY, digest);
    AttributeAt(data, 48 + n, FINGERPRINT, mark);
    hide Fits, NextOffset, AttributeBytes, ReadU16, AddressOk;
    var signed := m.(integrity := true);
    var marked := m.(integrity := true, fingerprint := true);
    assert data[28 + n..48 + n] == digest && data[52 + n..56 + n] == mark by {
      ValueIs(data, 24 + n, digest);
      ValueIs(data, 48 + n, mark);
    }
    hide ValueAt;
    assert ParseAttributes(data, 56 + n, marked) == Ok(marked);
    assert ParseAttributes(data, 48 + n, signed) == Ok(marked);
    assert ParseAttributes(data, 24 + n, m) == Ok(marked);
    assert FindIntegrity(data, 24 + n) == Ok(24 + n);
    assert FindFingerprint(data, 48 + n) == Ok(48 + n);
    assert FindFingerprint(data, 24 + n) == Ok(48 + n);
  }

  lemma ValueIs(data: seq<Byte>, offset: nat, value: seq<Byte>)
    requires Fits(data, offset) && ReadU16(data, offset + 2) == |value| && ValueAt(data, offset) == value
    ensures offset + 4 + |value| <= |data| && data[offset + 4..offset + 4 + |value|] == value
  {
  }

  /**
   Every written response reads back with the request's transaction id and passes both verifiers under
   its key, although the length field changed after the digest was taken.
   */
  lemma ResponseVerifies(id: TransactionId, value: seq<Byte>, key: seq<Byte>, hmac: Hmac)
    requires AddressOk(value) && key != []
    ensures var data := Response(id, value, key, hmac);
            && Parse(data) == Ok(Expected(id))
            && FingerprintError(data).None?
            && IntegrityError(data, key, hmac).None?
  {
    hide *;
    AddressSize(value);
    ResponseFacts(id, value, key, hmac);
    var data, n := Response(id, value, key, hmac), |value|;
    ParsedWhen(data, id);
    MarkedWhen(data, 48 + n, Signed(id, value, key, hmac));
    DigestInput(data, id, value, key, hmac);
    SignedWhen(data, 24 + n, key, hmac);
  }

  lemma AddressSize(value: seq<Byte>)
    requires AddressOk(value)
    ensures |value| == 8 || |value| == 20
  {
  }

  lemma ResponseFacts(id: TransactionId, value: seq<Byte>, key: seq<Byte>, hmac: Hmac)
    requires AddressOk(value)
    ensures var data, n := Response(id, value, key, hmac), |value|;
            var signed := Signed(id, value, key, hmac);
            && |data| == 56 + n && HeaderError(data).None?
            && EmptyMessage(data) == Message(BINDING, SuccessResponse, id, None, None, false, false, false, false, false)
            && ParseAttributes(data, HEADER, EmptyMessage(data)) == Ok(EmptyMessage(data).(integrity := true, fingerprint := true))
            && FindIntegrity(data, HEADER) == Ok(24 + n) && FindFingerprint(data, HEADER) == Ok(48 + n)
            && data[28 + n..48 + n] == DigestOf(id, value, key, hmac) && data[52 + n..56 + n] == U32Bytes(FingerprintOf(signed))
            && data[..48 + n] == signed && data[..24 + n] == Addressed(n + 36, id, value)
  {
    hide Signed, DigestOf, FingerprintOf, HeaderBytes, AttributeBytes, U32Bytes, EncodeType, DecodeMethod, DecodeClass, HeaderError,
         ParseAttributes, FindIntegrity, FindFingerprint, ReadU16, Addressed;
    var data := Response(id, value, key, hmac);
    ResponseParts(id, value, key, hmac);
    TypeRoundTrip(BINDING, SuccessResponse);
    HeaderAccepted(data, id);
    ResponseWalk(data, value, DigestOf(id, value, key, hmac), U32Bytes(FingerprintOf(Signed(id, value, key, hmac))), EmptyMessage(data));
  }

  lemma ParsedWhen(data: seq<Byte>, id: TransactionId)
    requires HeaderError(data).None? && |data| >= HEADER
    requires EmptyMessage(data) == Message(BINDING, SuccessResponse, id, None, None, false, false, false, false, false)
    requires ParseAttributes(data, HEADER, EmptyMessage(data)) == Ok(EmptyMessage(data).(integrity := true, fingerprint := true))
    ensures Parse(data) == Ok(Expected(id))
  {
    hide HeaderError, EmptyMessage, ParseAttributes;
  }

  lemma MarkedWhen(data: seq<Byte>, at: nat, signed: seq<Byte>)
    requires HeaderError(data).None? && HEADER <= |data| && FindFingerprint(data, HEADER) == Ok(at) && at + 8 == |data|
    requires data[..at] == signed && data[at + 4..at + 8] == U32Bytes(FingerprintOf(signed))
    ensures FingerprintError(data).None?
  {
    hide HeaderError, FindFingerprint, FingerprintOf, U32Bytes, ReadU32;
    ReadU32Slice(data, at + 4, FingerprintOf(signed));
  }

  lemma SignedWhen(data: seq<Byte>, at: nat, key: seq<Byte>, hmac: Hmac)
    requires HeaderError(data).None? && HEADER <= |data| && key != [] && FindIntegrity(data, HEADER) == Ok(at) && at + 24 <= |data| && 4 <= at < 0x8000
    requires hmac(Patched(data[..at], 2, U16Bytes(at + 4)), key) == data[at + 4..at + 24]
    ensures IntegrityError(data, key, hmac).None?
  {
    hide HeaderError, FindIntegrity, Patched, U16Bytes;
  }

  /** What the verifier hashes is what the writer hashed. */
  lemma DigestInput(data: seq<Byte>, id: TransactionId, value: seq<Byte>, key: seq<Byte>, hmac: Hmac)
    requires |value| <= 20 && 24 + |value| <= |data| && data[..24 + |value|] == Addressed(|value| + 36, id, value)
    ensures hmac(Patched(data[..24 + |value|], 2, U16Bytes(28 + |value|)), key) == DigestOf(id, value, key, hmac)
  {
    hide HeaderBytes, AttributeBytes, Patched, U16Bytes, EncodeType;
    LengthSet(EncodeType(BINDING, SuccessResponse), |value| + 36, id, AttributeBytes(XOR_MAPPED_ADDRESS, value), |value| + 28);
  }

  /** For every accepted request and address the written response answers it verifiably. */
  lemma AnswerVerifies(request: Message, ip: Ip, port: U16, key: seq<Byte>, hmac: Hmac)
    requires IpOk(ip) && key != []
    ensures var data := Response(request.transactionId, AddressValue(ip, port, request.transactionId), key, hmac);
            && Parse(data) == Ok(Expected(request.transactionId))
            && FingerprintError(data).None?
            && IntegrityError(data, key, hmac).None?
  {
    AddressRecovered(ip, port, request.transactionId);
    ResponseVerifies(request.transactionId, AddressValue(ip, port, request.transactionId), key, hmac);
  }

  // ----- the loops -----

  method ParseMessage(data: seq<Byte>) returns (r: Result<Message, StunError>)
    ensures r == Parse(data)
  {
    hide Decoded, Fits, ValueAt, NextOffset;
    var bad := HeaderError(data);
    if bad.Some? {
      return Err(bad.value);
    }
    var message, offset := EmptyMessage(data), HEADER;
    while offset < |data|
      invariant HEADER <= offset <= |data|
      invariant Parse(data) == ParseAttributes(data, offset, message)
    {
      if !Fits(data, offset) {
        return Err(TruncatedAttribute);
      }
      FitsNext(data, offset);
      var decoded := Decoded(message, ReadU16(data, offset), ValueAt(data, offset));
      if decoded.Err? {
        return decoded;
      }
      message, offset := decoded.value, NextOffset(data, offset);
    }
    return Ok(message);
  }

  lemma FitsNext(data: seq<Byte>, offset: nat)
    requires Fits(data, offset)
    ensures offset + 4 <= |data| && offset < NextOffset(data, offset) <= |data|
  {
  }

  method VerifyFingerprint(data: seq<Byte>) returns (bad: Option<StunError>)
    ensures bad == FingerprintError(data)
  {
    hide Fits, NextOffset, Crc32, Masked, ReadU32, ReadU16;
    bad := HeaderError(data);
    if bad.Some? {
      return;
    }
    var offset := HEADER;
    while offset < |data|
      invariant HEADER <= offset <= |data|
      invariant FindFingerprint(data, HEADER) == FindFingerprint(data, offset)
    {
      if !Fits(data, offset) {
        return Some(TruncatedAttribute);
      }
      FitsNext(data, offset);
      if ReadU16(data, offset) == FINGERPRINT {
        if ReadU16(data, offset + 2) != 4 {
          return Some(BadFingerprintSize);
        }
        if NextOffset(data, offset) != |data| {
          return Some(FingerprintNotLast);
        }
        var crc := CalculateCrc32(data[..offset]);
        return if Masked(crc) != ReadU32(data, offset + 4) then Some(Mismatch) else None;
      }
      offset := NextOffset(data, offset);
    }
    return Some(NotFound);
  }

  method VerifyIntegrity(data: seq<Byte>, key: seq<Byte>, hmac: Hmac) returns (bad: Option<StunError>)
    ensures bad == IntegrityError(data, key, hmac)
  {
    hide Fits, NextOffset, U16Bytes, ReadU16, Patched;
    bad := HeaderError(data);
    if bad.Some? {
      return;
    }
    if key == [] {
      return Some(EmptyKey);
    }
    var offset := HEADER;
    while offset < |data|
      invariant HEADER <= offset <= |data|
      invariant FindIntegrity(data, HEADER) == FindIntegrity(data, offset)
    {
      if !Fits(data, offset) {
        return Some(TruncatedAttribute);
      }
      FitsNext(data, offset);
      if ReadU16(data, offset) == MESSAGE_INTEGRITY {
        if ReadU16(data, offset + 2) != 20 {
          return Some(BadIntegritySize);
        }
        if offset + 4 > 0xFFFF {
          return Some(Truncated);
        }
        var digest := hmac(Patched(data[..offset], 2, U16Bytes(offset + 4)), key);
        var same := ConstantTimeEqual(data[offset + 4..offset + 24], digest);
        return if same then None else Some(Mismatch);
      }
      offset := NextOffset(data, offset);
    }
    return Some(NotFound);
  }
}
