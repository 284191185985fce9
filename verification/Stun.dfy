/**
 STUN (`ice/stun_message.cpp`): message types, the attribute walk of the parser and of the two
 finders, the CRC, and the writer of binding success responses with its two verifiers
 (sections 6, 15.4 and 15.5 of RFC 5389). HMAC-SHA1 and the reading of IP text are parameters.
 */
module Stun {
  import opened Wire

  const HEADER: nat := 20
  const COOKIE: U32 := 0x2112_A442
  const COOKIE_BYTES: seq<Byte> := [0x21, 0x12, 0xA4, 0x42]

  const MAPPED_ADDRESS: U16 := 0x0001
  const USERNAME: U16 := 0x0006
  const MESSAGE_INTEGRITY: U16 := 0x0008
  const XOR_MAPPED_ADDRESS: U16 := 0x0020
  const PRIORITY: U16 := 0x0024
  const USE_CANDIDATE: U16 := 0x0025
  const FINGERPRINT: U16 := 0x8028
  const ICE_CONTROLLED: U16 := 0x8029
  const ICE_CONTROLLING: U16 := 0x802A

  type Digest = d: seq<Byte> | |d| == 20 witness seq(20, _ => 0)
  type TransactionId = t: seq<Byte> | |t| == 12 witness seq(12, _ => 0)
  type Hmac = (seq<Byte>, seq<Byte>) -> Digest

  datatype Class = Request | Indication | SuccessResponse | ErrorResponse

  datatype Message = Message(method_: U16, class_: Class, transactionId: TransactionId, username: Option<seq<Byte>>, priority: Option<U32>,
                             useCandidate: bool, controlling: bool, controlled: bool, integrity: bool, fingerprint: bool)

  datatype StunError =
    | TooShort | BadFirstBits | UnalignedLength | BadCookie | Truncated | TrailingBytes
    | TruncatedAttribute | BadAddress | BadPriority | BadUseCandidate | BadControl | BadIntegritySize | BadFingerprintSize
    | FingerprintNotLast | NotFound | Mismatch | EmptyKey | NotBindingRequest | EmptyIp | ZeroPort | BadIp

  // ----- message types -----

  type MethodNumber = m: int | 0 <= m < 0x1000

  function ClassNumber(c: Class): (n: nat)
    ensures n < 4
  {
    match c
    case Request => 0
    case Indication => 1
    case SuccessResponse => 2
    case ErrorResponse => 3
  }

  /** Method bits around the two class bits. */
  function EncodeType(m: MethodNumber, c: Class): U16 {
    m % 0x10 + m / 0x10 % 8 * 0x20 + m / 0x80 * 0x200 + ClassNumber(c) % 2 * 0x10 + ClassNumber(c) / 2 * 0x100
  }

  function DecodeMethod(raw: U16): MethodNumber {
    raw % 0x10 + raw / 0x20 % 8 * 0x10 + raw / 0x200 % 0x20 * 0x80
  }

  function DecodeClass(raw: U16): Class {
    match raw / 0x10 % 2 + raw / 0x100 % 2 * 2
    case 0 => Request
    case 1 => Indication
    case 2 => SuccessResponse
    case _ => ErrorResponse
  }

  lemma TypeFields(low: nat, n1: nat, mid: nat, n2: nat, high: nat)
    requires low < 0x10 && n1 < 2 && mid < 8 && n2 < 2
    ensures var raw := low + 0x10 * n1 + 0x20 * mid + 0x100 * n2 + 0x200 * high;
            raw % 0x10 == low && raw / 0x10 % 2 == n1 && raw / 0x20 % 8 == mid && raw / 0x100 % 2 == n2 && raw / 0x200 == high
  {
    var c := n2 + 2 * high;
    var b := mid + 8 * c;
    var a := n1 + 2 * b;
    By2(b, n1);
    By8(c, mid);
    By2(high, n2);
    By16(a, low);
    By32(b, low + 0x10 * n1);
    By256(c, low + 0x10 * n1 + 0x20 * mid);
    By512(high, low + 0x10 * n1 + 0x20 * mid + 0x100 * n2);
  }

  lemma By2(q: nat, r: nat)
    requires r < 2
    ensures (r + 2 * q) / 2 == q && (r + 2 * q) % 2 == r
  {
  }

  lemma By8(q: nat, r: nat)
    requires r < 8
    ensures (r + 8 * q) / 8 == q && (r + 8 * q) % 8 == r
  {
  }

  lemma By16(q: nat, r: nat)
    requires r < 16
    ensures (r + 16 * q) / 16 == q && (r + 16 * q) % 16 == r
  {
  }

  lemma By32(q: nat, r: nat)
    requires r < 32
    ensures (r + 32 * q) / 32 == q && (r + 32 * q) % 32 == r
  {
  }

  lemma By256(q: nat, r: nat)
    requires r < 256
    ensures (r + 256 * q) / 256 == q && (r + 256 * q) % 256 == r
  {
  }

  lemma By512(q: nat, r: nat)
    requires r < 512
    ensures (r + 512 * q) / 512 == q && (r + 512 * q) % 512 == r
  {
  }

  lemma MethodParts(m: MethodNumber)
    ensures m == m % 0x10 + 0x10 * (m / 0x10 % 8) + 0x80 * (m / 0x80) && m / 0x80 < 0x20
  {
    var q := m / 0x10;
    assert m == 0x10 * q + m % 0x10;
    assert q == 8 * (q / 8) + q % 8;
    assert q / 8 == m / 0x80;
  }

  lemma RawDecodes(raw: U16, low: nat, n: nat, mid: nat, high: nat, c: Class)
    requires low < 0x10 && mid < 8 && high < 0x20 && n == ClassNumber(c)
    requires raw == low + 0x10 * (n % 2) + 0x20 * mid + 0x100 * (n / 2) + 0x200 * high
    ensures DecodeMethod(raw) == low + 0x10 * mid + 0x80 * high && DecodeClass(raw) == c
  {
    TypeFields(low, n % 2, mid, n / 2, high);
    assert raw / 0x200 == high;
    assert raw / 0x10 % 2 + raw / 0x100 % 2 * 2 == n;
  }

  /** Every method and class survives the type field. */
  lemma TypeRoundTrip(m: MethodNumber, c: Class)
    ensures DecodeMethod(EncodeType(m, c)) == m && DecodeClass(EncodeType(m, c)) == c
  {
    hide DecodeMethod, DecodeClass;
    MethodParts(m);
    RawDecodes(EncodeType(m, c), m % 0x10, ClassNumber(c), m / 0x10 % 8, m / 0x80, c);
  }

  // ----- header -----

  function HeaderError(data: seq<Byte>): (r: Option<StunError>)
    ensures r.None? ==> |data| >= HEADER && |data| == HEADER + ReadU16(data, 2) && |data| % 4 == 0
  {
    if |data| < HEADER then Some(TooShort)
    else if data[0] / 0x40 != 0 then Some(BadFirstBits)
    else if ReadU16(data, 2) % 4 != 0 then Some(UnalignedLength)
    else if ReadU32(data, 4) != COOKIE then Some(BadCookie)
    else if |data| < HEADER + ReadU16(data, 2) then Some(Truncated)
    else if |data| != HEADER + ReadU16(data, 2) then Some(TrailingBytes)
    else None
  }

  // ----- attributes -----

  function PaddingSize(length: nat): (n: nat)
    ensures n < 4 && (length + n) % 4 == 0
  {
    RoundUp4(length) - length
  }

  /** Where the attribute at `offset` ends with its padding. */
  function NextOffset(data: seq<Byte>, offset: nat): (next: nat)
    requires offset + 4 <= |data|
    ensures next >= offset + 4 + ReadU16(data, offset + 2) && (offset % 4 == 0 ==> next % 4 == 0)
  {
    offset + 4 + ReadU16(data, offset + 2) + PaddingSize(ReadU16(data, offset + 2))
  }

  predicate Fits(data: seq<Byte>, offset: nat) {
    offset + 4 <= |data| && NextOffset(data, offset) <= |data|
  }

  function ValueAt(data: seq<Byte>, offset: nat): seq<Byte>
    requires Fits(data, offset)
  {
    data[offset + 4..offset + 4 + ReadU16(data, offset + 2)]
  }

  function AddressOk(value: seq<Byte>): bool {
    |value| >= 4 && ((value[1] == 1 && |value| == 8) || (value[1] == 2 && |value| == 20))
  }

  function Decoded(m: Message, kind: U16, value: seq<Byte>): (r: Result<Message, StunError>)
    ensures r.Ok? ==> (r.value.integrity <==> m.integrity || kind == MESSAGE_INTEGRITY)
    ensures r.Ok? && kind == MESSAGE_INTEGRITY ==> |value| == 20
    ensures r.Ok? ==> (r.value.fingerprint <==> m.fingerprint || kind == FINGERPRINT)
    ensures r.Ok? && kind == FINGERPRINT ==> |value| == 4
  {
    if kind == MAPPED_ADDRESS || kind == XOR_MAPPED_ADDRESS then if AddressOk(value) then Ok(m) else Err(BadAddress)
    else if kind == USERNAME then Ok(m.(username := Some(value)))
    else if kind == PRIORITY then if |value| == 4 then Ok(m.(priority := Some(ReadU32(value, 0)))) else Err(BadPriority)
    else if kind == USE_CANDIDATE then if value == [] then Ok(m.(useCandidate := true)) else Err(BadUseCandidate)
    else if kind == ICE_CONTROLLING then if |value| == 8 then Ok(m.(controlling := true)) else Err(BadControl)
    else if kind == ICE_CONTROLLED then if |value| == 8 then Ok(m.(controlled := true)) else Err(BadControl)
    else if kind == MESSAGE_INTEGRITY then if |value| == 20 then Ok(m.(integrity := true)) else Err(BadIntegritySize)
    else if kind == FINGERPRINT then if |value| == 4 then Ok(m.(fingerprint := true)) else Err(BadFingerprintSize)
    else Ok(m)
  }

  function ParseAttributes(data: seq<Byte>, offset: nat, m: Message): Result<Message, StunError>
    requires offset <= |data|
    decreases |data| - offset
  {
    if offset == |data| then Ok(m)
    else if !Fits(data, offset) then Err(TruncatedAttribute)
    else
      match Decoded(m, ReadU16(data, offset), ValueAt(data, offset))
      case Err(e) => Err(e)
      case Ok(n) => ParseAttributes(data, NextOffset(data, offset), n)
  }

  function EmptyMessage(data: seq<Byte>): Message
    requires |data| >= HEADER
  {
    Message(DecodeMethod(ReadU16(data, 0)), DecodeClass(ReadU16(data, 0)), data[8..20], None, None, false, false, false, false, false)
  }

  function Parse(data: seq<Byte>): Result<Message, StunError> {
    match HeaderError(data)
    case Some(e) => Err(e)
    case None => ParseAttributes(data, HEADER, EmptyMessage(data))
  }

  function FindIntegrity(data: seq<Byte>, offset: nat): (r: Result<nat, StunError>)
    requires offset <= |data|
    ensures r.Ok? ==> offset <= r.value && r.value + 24 <= |data|
    decreases |data| - offset
  {
    if offset == |data| then Err(NotFound)
    else if !Fits(data, offset) then Err(TruncatedAttribute)
    else if ReadU16(data, offset) == MESSAGE_INTEGRITY then
      if ReadU16(data, offset + 2) != 20 then Err(BadIntegritySize) else Ok(offset)
    else FindIntegrity(data, NextOffset(data, offset))
  }

  function FindFingerprint(data: seq<Byte>, offset: nat): (r: Result<nat, StunError>)
    requires offset <= |data|
    ensures r.Ok? ==> offset <= r.value && r.value + 8 == |data|
    decreases |data| - offset
  {
    if offset == |data| then Err(NotFound)
    else if !Fits(data, offset) then Err(TruncatedAttribute)
    else if ReadU16(data, offset) == FINGERPRINT then
      if ReadU16(data, offset + 2) != 4 then Err(BadFingerprintSize)
      else if NextOffset(data, offset) != |data| then Err(FingerprintNotLast)
      else Ok(offset)
    else FindFingerprint(data, NextOffset(data, offset))
  }

  // ----- what the parser reads -----

  datatype Attribute = Attribute(kind: U16, value: seq<Byte>)

  /** The attributes from `offset` on, none if one is cut off. */
  ghost function Attributes(data: seq<Byte>, offset: nat): Option<seq<Attribute>>
    requires offset <= |data|
    decreases |data| - offset
  {
    if offset == |data| then Some([])
    else if !Fits(data, offset) then None
    else
      match Attributes(data, NextOffset(data, offset))
      case None => None
      case Some(rest) => Some([Attribute(ReadU16(data, offset), ValueAt(data, offset))] + rest)
  }

  /** Known attributes have the size their kind asks for; unknown ones may have any. */
  predicate WellSized(a: Attribute) {
    && (a.kind == MAPPED_ADDRESS || a.kind == XOR_MAPPED_ADDRESS ==>
          (|a.value| == 8 && a.value[1] == 1) || (|a.value| == 20 && a.value[1] == 2))
    && (a.kind == PRIORITY ==> |a.value| == 4) && (a.kind == USE_CANDIDATE ==> |a.value| == 0)
    && (a.kind == ICE_CONTROLLING || a.kind == ICE_CONTROLLED ==> |a.value| == 8)
    && (a.kind == MESSAGE_INTEGRITY ==> |a.value| == 20) && (a.kind == FINGERPRINT ==> |a.value| == 4)
  }

  ghost predicate Has(attributes: seq<Attribute>, kind: U16) {
    exists i :: 0 <= i < |attributes| && attributes[i].kind == kind
  }

  /** The value of the last attribute of this kind. */
  ghost function LastOf(attributes: seq<Attribute>, kind: U16): Option<seq<Byte>> {
    if attributes == [] then None
    else
      var later := LastOf(attributes[1..], kind);
      if later.Some? then later else if attributes[0].kind == kind then Some(attributes[0].value) else None
  }

  lemma HasFirst(a: Attribute, rest: seq<Attribute>, kind: U16)
    ensures Has([a] + rest, kind) <==> a.kind == kind || Has(rest, kind)
    ensures LastOf([a] + rest, kind) == if LastOf(rest, kind).Some? then LastOf(rest, kind) else if a.kind == kind then Some(a.value) else None
  {
    var all := [a] + rest;
    assert all[1..] == rest;
    if Has(rest, kind) {
      var i :| 0 <= i < |rest| && rest[i].kind == kind;
      assert all[i + 1].kind == kind;
    }
    if a.kind == kind {
      assert all[0].kind == kind;
    }
    if Has(all, kind) {
      var i :| 0 <= i < |all| && all[i].kind == kind;
      if i > 0 {
        assert rest[i - 1].kind == kind;
      }
    }
  }

  /** What a message gains from its attributes. */
  ghost predicate Gained(m: Message, n: Message, attributes: seq<Attribute>) {
    && n.method_ == m.method_ && n.class_ == m.class_ && n.transactionId == m.transactionId
    && n.username == (if LastOf(attributes, USERNAME).Some? then LastOf(attributes, USERNAME) else m.username)
    && (LastOf(attributes, PRIORITY).Some? ==>
          |LastOf(attributes, PRIORITY).value| == 4 && n.priority == Some(ReadU32(LastOf(attributes, PRIORITY).value, 0)))
    && (LastOf(attributes, PRIORITY).None? ==> n.priority == m.priority)
    && (n.useCandidate <==> m.useCandidate || Has(attributes, USE_CANDIDATE))
    && (n.controlling <==> m.controlling || Has(attributes, ICE_CONTROLLING))
    && (n.controlled <==> m.controlled || Has(attributes, ICE_CONTROLLED))
    && (n.integrity <==> m.integrity || Has(attributes, MESSAGE_INTEGRITY))
    && (n.fingerprint <==> m.fingerprint || Has(attributes, FINGERPRINT))
  }

  ghost predicate AllWellSized(attributes: seq<Attribute>) {
    forall i :: 0 <= i < |attributes| ==> WellSized(attributes[i])
  }

  lemma DecodedIff(m: Message, a: Attribute)
    ensures Decoded(m, a.kind, a.value).Ok? <==> WellSized(a)
  {
  }

  lemma DecodedGains(m: Message, a: Attribute)
    requires Decoded(m, a.kind, a.value).Ok?
    ensures Gained(m, Decoded(m, a.kind, a.value).value, [a])
  {
    assert [a] + [] == [a];
    hide Has, LastOf;
    forall kind: U16
      ensures Has([a], kind) <==> a.kind == kind
      ensures LastOf([a], kind) == if a.kind == kind then Some(a.value) else None
    {
      HasFirst(a, [], kind);
      NothingHas(kind);
    }
  }

  lemma NothingHas(kind: U16)
    ensures !Has([], kind) && LastOf([], kind) == None
  {
  }

  lemma GainedTwice(m: Message, mid: Message, n: Message, a: Attribute, rest: seq<Attribute>)
    requires Gained(m, mid, [a]) && Gained(mid, n, rest)
    ensures Gained(m, n, [a] + rest)
  {
    hide Has, LastOf, ReadU32;
    assert [a] + [] == [a];
    forall kind: U16
      ensures Has([a] + rest, kind) <==> Has([a], kind) || Has(rest, kind)
      ensures LastOf([a] + rest, kind) == if LastOf(rest, kind).Some? then LastOf(rest, kind) else LastOf([a], kind)
    {
      HasFirst(a, rest, kind);
      HasFirst(a, [], kind);
      NothingHas(kind);
    }
  }

  lemma {:induction false} ParsedAttributes(data: seq<Byte>, offset: nat, m: Message)
    requires offset <= |data|
    ensures ParseAttributes(data, offset, m).Ok? <==> Attributes(data, offset).Some? && AllWellSized(Attributes(data, offset).value)
    ensures ParseAttributes(data, offset, m).Ok? ==> Gained(m, ParseAttributes(data, offset, m).value, Attributes(data, offset).value)
    decreases |data| - offset
  {
    hide Decoded, Gained, WellSized, ValueAt;
    if offset == |data| {
      GainedNothing(m);
    } else if Fits(data, offset) {
      var a := Attribute(ReadU16(data, offset), ValueAt(data, offset));
      DecodedIff(m, a);
      var rest := Attributes(data, NextOffset(data, offset));
      if rest.Some? {
        FirstSized(a, rest.value);
      }
      if Decoded(m, a.kind, a.value).Ok? {
        var n := Decoded(m, a.kind, a.value).value;
        ParsedAttributes(data, NextOffset(data, offset), n);
        DecodedGains(m, a);
        if ParseAttributes(data, offset, m).Ok? {
          GainedTwice(m, n, ParseAttributes(data, offset, m).value, a, rest.value);
        }
      }
    }
  }

  lemma GainedNothing(m: Message)
    ensures Gained(m, m, [])
  {
    NothingHas(USERNAME);
    NothingHas(PRIORITY);
  }

  lemma FirstSized(a: Attribute, rest: seq<Attribute>)
    ensures AllWellSized([a] + rest) <==> WellSized(a) && AllWellSized(rest)
  {
    hide WellSized;
    var all := [a] + rest;
    assert all[0] == a && forall i :: 0 <= i < |rest| ==> all[i + 1] == rest[i];
  }

  /**
   The parser accepts exactly a whole STUN header followed by complete attributes of the right sizes,
   and reports method, class, transaction id, the last user name and priority, and each flag exactly
   when an attribute of its kind is there.
   */
  lemma ParsedIff(data: seq<Byte>)
    ensures Parse(data).Ok? <==>
              && |data| >= HEADER && data[0] < 0x40 && ReadU16(data, 2) % 4 == 0 && ReadU32(data, 4) == COOKIE && |data| == HEADER + ReadU16(data, 2)
              && Attributes(data, HEADER).Some? && AllWellSized(Attributes(data, HEADER).value)
    ensures Parse(data).Ok? ==>
              && |data| >= HEADER && Attributes(data, HEADER).Some?
              && Gained(Message(DecodeMethod(ReadU16(data, 0)), DecodeClass(ReadU16(data, 0)), data[8..20], None, None, false, false, false, false, false),
                        Parse(data).value, Attributes(data, HEADER).value)
  {
    hide ParseAttributes, Gained, AllWellSized, Attributes, DecodeMethod, DecodeClass, ReadU16, ReadU32;
    if HeaderError(data).None? {
      ParsedAttributes(data, HEADER, EmptyMessage(data));
    }
  }

  // ----- parser and finders agree -----

  lemma {:induction false} IntegrityFrom(data: seq<Byte>, offset: nat, m: Message)
    requires offset <= |data| && offset % 4 == 0 && ParseAttributes(data, offset, m).Ok?
    ensures ParseAttributes(data, offset, m).value.integrity <==> m.integrity || FindIntegrity(data, offset).Ok?
    ensures FindIntegrity(data, offset).Ok? ==> FindIntegrity(data, offset).value % 4 == 0
    decreases |data| - offset
  {
    if offset < |data| {
      var n := Decoded(m, ReadU16(data, offset), ValueAt(data, offset)).value;
      IntegrityFrom(data, NextOffset(data, offset), n);
      if n.integrity {
        IntegrityStays(data, NextOffset(data, offset), n);
      }
      hide Decoded;
    }
  }

  lemma {:induction false} IntegrityStays(data: seq<Byte>, offset: nat, m: Message)
    requires offset <= |data| && ParseAttributes(data, offset, m).Ok? && m.integrity
    ensures ParseAttributes(data, offset, m).value.integrity
    decreases |data| - offset
  {
    hide Decoded, ValueAt;
    if offset < |data| {
      var n := Decoded(m, ReadU16(data, offset), ValueAt(data, offset)).value;
      IntegrityStays(data, NextOffset(data, offset), n);
    }
  }

  /** On every message the parser accepts, integrity was seen exactly when the finder finds it, aligned and inside the message. */
  lemma IntegrityFound(data: seq<Byte>)
    requires Parse(data).Ok?
    ensures Parse(data).value.integrity <==> FindIntegrity(data, HEADER).Ok?
    ensures Parse(data).value.integrity ==>
              var at := FindIntegrity(data, HEADER).value;
              HEADER <= at && at % 4 == 0 && at + 24 <= |data|
  {
    hide ParseAttributes, FindIntegrity;
    IntegrityFrom(data, HEADER, EmptyMessage(data));
  }

  /** The first fingerprint stands at `at`. */
  ghost predicate FingerprintAt(data: seq<Byte>, offset: nat, at: nat)
    requires offset <= |data|
    decreases |data| - offset
  {
    offset < |data| && Fits(data, offset) &&
    if ReadU16(data, offset) == FINGERPRINT then offset == at else FingerprintAt(data, NextOffset(data, offset), at)
  }

  lemma {:induction false} FingerprintFrom(data: seq<Byte>, offset: nat, m: Message)
    requires offset <= |data| && ParseAttributes(data, offset, m).Ok?
    ensures FindFingerprint(data, offset).Ok? <==> |data| >= 8 && FingerprintAt(data, offset, |data| - 8)
    ensures FindFingerprint(data, offset).Ok? ==> ParseAttributes(data, offset, m).value.fingerprint
    decreases |data| - offset
  {
    if offset < |data| {
      var n := Decoded(m, ReadU16(data, offset), ValueAt(data, offset)).value;
      FingerprintFrom(data, NextOffset(data, offset), n);
      if n.fingerprint {
        FingerprintStays(data, NextOffset(data, offset), n);
      }
      hide Decoded;
    }
  }

  lemma {:induction false} FingerprintStays(data: seq<Byte>, offset: nat, m: Message)
    requires offset <= |data| && ParseAttributes(data, offset, m).Ok? && m.fingerprint
    ensures ParseAttributes(data, offset, m).value.fingerprint
    decreases |data| - offset
  {
    hide Decoded, ValueAt;
    if offset < |data| {
      var n := Decoded(m, ReadU16(data, offset), ValueAt(data, offset)).value;
      FingerprintStays(data, NextOffset(data, offset), n);
    }
  }
}
