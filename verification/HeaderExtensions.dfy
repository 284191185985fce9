/**
 RTP header extension elements in the one-byte and two-byte formats (sections 4.2 and 4.3 of RFC 8285):
 the validator of `rtp/rtp_packet.cpp`, the finder of `rtp/rtp_header_extension.cpp`, and the parser and
 builder of `media/whep_rtp_rewriter.cpp`.
 */
module HeaderExtensions {
  import opened Wire

  datatype Format = OneByte | TwoByte

  datatype Extension = Extension(id: Byte, value: seq<Byte>)

  datatype ExtensionError = ReservedId | TruncatedLength | TruncatedElement

  // ----- reading -----

  /** What stands at the head of an element list. */
  datatype Item = Padding | Element(id: Byte, headerSize: nat, size: nat) | Bad(error: ExtensionError)

  /** The rewriter's parser: its decoding of what stands at the head (`media/whep_rtp_rewriter.cpp`). */
  function Head(f: Format, p: seq<Byte>): (item: Item)
    requires p != []
    ensures item.Element? ==> 1 <= item.headerSize && item.headerSize + item.size <= |p|
  {
    if p[0] == 0 then Padding
    else
      match f
      case OneByte =>
        if p[0] / 0x10 == 15 then Bad(ReservedId)
        else
          var size := p[0] % 0x10 + 1;
          if 1 + size > |p| then Bad(TruncatedElement) else Element(p[0] / 0x10, 1, size)
      case TwoByte =>
        if |p| < 2 then Bad(TruncatedLength)
        else if 2 + p[1] > |p| then Bad(TruncatedElement)
        else Element(p[0], 2, p[1])
  }

  /** The validator's own decoding of the same place (`rtp/rtp_packet.cpp`): it looks before it advances. */
  function ValidatorHead(f: Format, p: seq<Byte>): (item: Item)
    requires p != []
    ensures item.Element? ==> 1 <= item.headerSize && item.headerSize + item.size <= |p|
  {
    match f
    case OneByte =>
      var value := p[0];
      if value == 0 then Padding
      else if value / 0x10 == 15 then Bad(ReservedId)
      else
        var size, offset := value % 0x10 + 1, 1;
        if offset + size > |p| then Bad(TruncatedElement) else Element(value / 0x10, offset, size)
    case TwoByte =>
      var id, offset := p[0], 1;
      if id == 0 then Padding
      else if offset >= |p| then Bad(TruncatedLength)
      else
        var size, after := p[offset], offset + 1;
        if after + size > |p| then Bad(TruncatedElement) else Element(id, after, size)
  }

  /** The finder's own decoding (`rtp/rtp_header_extension.cpp`): it advances past what it reads. */
  function FinderHead(f: Format, p: seq<Byte>): (item: Item)
    requires p != []
    ensures item.Element? ==> 1 <= item.headerSize && item.headerSize + item.size <= |p|
  {
    var value, rest := p[0], p[1..];
    if value == 0 then Padding
    else
      match f
      case OneByte =>
        if value / 0x10 == 15 then Bad(ReservedId)
        else if |rest| < value % 0x10 + 1 then Bad(TruncatedElement)
        else Element(value / 0x10, |p| - |rest|, value % 0x10 + 1)
      case TwoByte =>
        if rest == [] then Bad(TruncatedLength)
        else
          var size, after := rest[0], rest[1..];
          if |after| < size then Bad(TruncatedElement) else Element(value, |p| - |after|, size)
  }

  /** The three decodings agree on every byte string: same padding, same element, same error. */
  lemma HeadsAgree(f: Format, p: seq<Byte>)
    requires p != []
    ensures ValidatorHead(f, p) == Head(f, p) && FinderHead(f, p) == Head(f, p)
  {
  }

  function Valid(f: Format, p: seq<Byte>): Option<ExtensionError>
    decreases |p|
  {
    if p == [] then None
    else
      match ValidatorHead(f, p)
      case Padding => Valid(f, p[1..])
      case Bad(e) => Some(e)
      case Element(_, headerSize, size) => Valid(f, p[headerSize + size..])
  }

  function Parse(f: Format, p: seq<Byte>): Result<seq<Extension>, ExtensionError>
    decreases |p|
  {
    if p == [] then Ok([])
    else
      match Head(f, p)
      case Padding => Parse(f, p[1..])
      case Bad(e) => Err(e)
      case Element(id, headerSize, size) =>
        match Parse(f, p[headerSize + size..])
        case Err(e) => Err(e)
        case Ok(rest) => Ok([Extension(id, p[headerSize..headerSize + size])] + rest)
  }

  /** Position and size of the first element with this id. */
  function Find(f: Format, p: seq<Byte>, id: Byte): (r: Result<Option<(nat, nat)>, ExtensionError>)
    ensures r.Ok? && r.value.Some? ==> r.value.value.0 + r.value.value.1 <= |p|
    decreases |p|
  {
    if p == [] then Ok(None)
    else
      match FinderHead(f, p)
      case Padding => Shift(Find(f, p[1..], id), 1)
      case Bad(e) => Err(e)
      case Element(other, headerSize, size) =>
        if other == id then Ok(Some((headerSize, size)))
        else Shift(Find(f, p[headerSize + size..], id), headerSize + size)
  }

  function Shift(r: Result<Option<(nat, nat)>, ExtensionError>, step: nat): Result<Option<(nat, nat)>, ExtensionError> {
    if r.Ok? && r.value.Some? then Ok(Some((r.value.value.0 + step, r.value.value.1))) else r
  }

  lemma ValidStep(f: Format, p: seq<Byte>)
    ensures Valid(f, p) ==
            if p == [] then None
            else
              match Head(f, p)
              case Padding => Valid(f, p[1..])
              case Bad(e) => Some(e)
              case Element(_, headerSize, size) => Valid(f, p[headerSize + size..])
  {
    if p != [] {
      HeadsAgree(f, p);
    }
    hide Head, ValidatorHead;
  }

  // ----- the six scanners -----

  method ValidateOneByte(packet: seq<Byte>, start: nat, end: nat) returns (error: Option<ExtensionError>)
    requires start <= end <= |packet|
    ensures error == Valid(OneByte, packet[start..end])
  {
    hide Valid;
    var offset := start;
    while offset < end
      invariant start <= offset <= end
      invariant Valid(OneByte, packet[offset..end]) == Valid(OneByte, packet[start..end])
    {
      ghost var at := offset;
      ValidStep(OneByte, packet[at..end]);
      var value := packet[offset];
      if value == 0 {
        assert packet[at..end][1..] == packet[at + 1..end];
        offset := offset + 1;
        continue;
      }
      var id := value / 0x10;
      if id == 15 {
        return Some(ReservedId);
      }
      var size := value % 0x10 + 1;
      offset := offset + 1;
      if offset + size > end {
        return Some(TruncatedElement);
      }
      assert packet[at..end][1 + size..] == packet[at + 1 + size..end];
      offset := offset + size;
    }
    ValidStep(OneByte, packet[offset..end]);
    return None;
  }

  method ValidateTwoByte(packet: seq<Byte>, start: nat, end: nat) returns (error: Option<ExtensionError>)
    requires start <= end <= |packet|
    ensures error == Valid(TwoByte, packet[start..end])
  {
    hide Valid;
    var offset := start;
    while offset < end
      invariant start <= offset <= end
      invariant Valid(TwoByte, packet[offset..end]) == Valid(TwoByte, packet[start..end])
      decreases end - offset
    {
      ghost var at := offset;
      ValidStep(TwoByte, packet[at..end]);
      var id := packet[offset];
      offset := offset + 1;
      if id == 0 {
        assert packet[at..end][1..] == packet[at + 1..end];
        continue;
      }
      if offset >= end {
        return Some(TruncatedLength);
      }
      var size := packet[offset];
      offset := offset + 1;
      if offset + size > end {
        return Some(TruncatedElement);
      }
      assert packet[at..end][2 + size..] == packet[at + 2 + size..end];
      offset := offset + size;
    }
    ValidStep(TwoByte, packet[offset..end]);
    return None;
  }

  method ParseOneByte(packet: seq<Byte>, start: nat, end: nat) returns (r: Result<seq<Extension>, ExtensionError>)
    requires start <= end <= |packet|
    ensures r == Parse(OneByte, packet[start..end])
  {
    hide Parse;
    var offset, extensions: seq<Extension> := start, [];
    PrefixedNothing(Parse(OneByte, packet[start..end]));
    while offset < end
      invariant start <= offset <= end
      invariant Parse(OneByte, packet[start..end]) == Prefixed(extensions, Parse(OneByte, packet[offset..end]))
      decreases end - offset
    {
      ghost var at, rest := offset, packet[offset..end];
      ParseStep(OneByte, rest);
      var header := packet[offset];
      offset := offset + 1;
      if header == 0 {
        assert rest[1..] == packet[at + 1..end];
        continue;
      }
      var id := header / 0x10;
      if id == 15 {
        return Err(ReservedId);
      }
      var size := header % 0x10 + 1;
      if offset + size > end {
        return Err(TruncatedElement);
      }
      var e := Extension(id, packet[offset..offset + size]);
      ElementRead(packet, at, end, 1, size);
      PrefixedOneMore(extensions, e, Parse(OneByte, rest[1 + size..]));
      extensions := extensions + [e];
      offset := offset + size;
    }
    ParseStep(OneByte, packet[offset..end]);
    assert extensions + [] == extensions;
    return Ok(extensions);
  }

  method ParseTwoByte(packet: seq<Byte>, start: nat, end: nat) returns (r: Result<seq<Extension>, ExtensionError>)
    requires start <= end <= |packet|
    ensures r == Parse(TwoByte, packet[start..end])
  {
    hide Parse;
    var offset, extensions: seq<Extension> := start, [];
    PrefixedNothing(Parse(TwoByte, packet[start..end]));
    while offset < end
      invariant start <= offset <= end
      invariant Parse(TwoByte, packet[start..end]) == Prefixed(extensions, Parse(TwoByte, packet[offset..end]))
      decreases end - offset
    {
      ghost var at, rest := offset, packet[offset..end];
      ParseStep(TwoByte, rest);
      var id := packet[offset];
      offset := offset + 1;
      if id == 0 {
        assert rest[1..] == packet[at + 1..end];
        continue;
      }
      if offset >= end {
        return Err(TruncatedLength);
      }
      var size := packet[offset];
      offset := offset + 1;
      if offset + size > end {
        return Err(TruncatedElement);
      }
      var e := Extension(id, packet[offset..offset + size]);
      ElementRead(packet, at, end, 2, size);
      PrefixedOneMore(extensions, e, Parse(TwoByte, rest[2 + size..]));
      extensions := extensions + [e];
      offset := offset + size;
    }
    ParseStep(TwoByte, packet[offset..end]);
    assert extensions + [] == extensions;
    return Ok(extensions);
  }

  lemma ElementRead(packet: seq<Byte>, at: nat, end: nat, headerSize: nat, size: nat)
    requires at + headerSize + size <= end <= |packet|
    ensures packet[at..end][headerSize..headerSize + size] == packet[at + headerSize..at + headerSize + size]
    ensures packet[at..end][headerSize + size..] == packet[at + headerSize + size..end]
  {
    SliceOfSlice(packet, at, end, headerSize, headerSize + size);
  }

  method FindOneByte(payload: seq<Byte>, id: Byte) returns (r: Result<Option<(nat, nat)>, ExtensionError>)
    ensures r == Find(OneByte, payload, id)
  {
    hide Find;
    var offset := 0;
    assert payload[0..] == payload;
    while offset < |payload|
      invariant 0 <= offset <= |payload|
      invariant Find(OneByte, payload, id) == Shift(Find(OneByte, payload[offset..], id), offset)
      decreases |payload| - offset
    {
      ghost var at := offset;
      FindStep(OneByte, payload[at..], id);
      var value := payload[offset];
      offset := offset + 1;
      if value == 0 {
        assert payload[at..][1..] == payload[at + 1..];
        continue;
      }
      var other := value / 0x10;
      if other == 15 {
        return Err(ReservedId);
      }
      var size := value % 0x10 + 1;
      if offset + size > |payload| {
        return Err(TruncatedElement);
      }
      if other == id {
        return Ok(Some((offset, size)));
      }
      assert payload[at..][1 + size..] == payload[at + 1 + size..];
      offset := offset + size;
    }
    FindStep(OneByte, payload[offset..], id);
    return Ok(None);
  }

  method FindTwoByte(payload: seq<Byte>, id: Byte) returns (r: Result<Option<(nat, nat)>, ExtensionError>)
    ensures r == Find(TwoByte, payload, id)
  {
    hide Find;
    var offset := 0;
    assert payload[0..] == payload;
    while offset < |payload|
      invariant 0 <= offset <= |payload|
      invariant Find(TwoByte, payload, id) == Shift(Find(TwoByte, payload[offset..], id), offset)
      decreases |payload| - offset
    {
      ghost var at := offset;
      FindStep(TwoByte, payload[at..], id);
      var other := payload[offset];
      offset := offset + 1;
      if other == 0 {
        assert payload[at..][1..] == payload[at + 1..];
        continue;
      }
      if offset >= |payload| {
        return Err(TruncatedLength);
      }
      var size := payload[offset];
      offset := offset + 1;
      if offset + size > |payload| {
        return Err(TruncatedElement);
      }
      if other == id {
        return Ok(Some((offset, size)));
      }
      assert payload[at..][2 + size..] == payload[at + 2 + size..];
      offset := offset + size;
    }
    FindStep(TwoByte, payload[offset..], id);
    return Ok(None);
  }

  lemma ParseStep(f: Format, p: seq<Byte>)
    ensures Parse(f, p) ==
            if p == [] then Ok([])
            else
              match Head(f, p)
              case Padding => Parse(f, p[1..])
              case Bad(e) => Err(e)
              case Element(id, headerSize, size) =>
                Prefixed([Extension(id, p[headerSize..headerSize + size])], Parse(f, p[headerSize + size..]))
  {
    hide Head;
  }

  function Prefixed(done: seq<Extension>, r: Result<seq<Extension>, ExtensionError>): Result<seq<Extension>, ExtensionError> {
    if r.Ok? then Ok(done + r.value) else r
  }

  lemma PrefixedNothing(r: Result<seq<Extension>, ExtensionError>)
    ensures Prefixed([], r) == r
  {
    if r.Ok? {
      assert [] + r.value == r.value;
    }
  }

  lemma PrefixedOneMore(done: seq<Extension>, e: Extension, r: Result<seq<Extension>, ExtensionError>)
    ensures Prefixed(done, Prefixed([e], r)) == Prefixed(done + [e], r)
  {
    if r.Ok? {
      assert done + ([e] + r.value) == done + [e] + r.value;
    }
  }

  lemma FindStep(f: Format, p: seq<Byte>, id: Byte)
    ensures Find(f, p, id) ==
            if p == [] then Ok(None)
            else
              match Head(f, p)
              case Padding => Shift(Find(f, p[1..], id), 1)
              case Bad(e) => Err(e)
              case Element(other, headerSize, size) =>
                if other == id then Ok(Some((headerSize, size)))
                else Shift(Find(f, p[headerSize + size..], id), headerSize + size)
  {
    if p != [] {
      HeadsAgree(f, p);
    }
    hide Head, FinderHead;
  }

  // ----- the three readers agree -----

  function FirstWithId(es: seq<Extension>, id: Byte): Option<seq<Byte>> {
    if es == [] then None else if es[0].id == id then Some(es[0].value) else FirstWithId(es[1..], id)
  }

  /** The validator accepts exactly what the parser accepts, with the same error otherwise. */
  lemma {:induction false} ValidatorAgrees(f: Format, p: seq<Byte>)
    ensures Valid(f, p) == (match Parse(f, p) case Ok(_) => None case Err(e) => Some(e))
    decreases |p|
  {
    hide Head, Valid;
    ValidStep(f, p);
    if p != [] {
      match Head(f, p)
      case Padding => ValidatorAgrees(f, p[1..]);
      case Bad(_) =>
      case Element(_, headerSize, size) => ValidatorAgrees(f, p[headerSize + size..]);
    }
  }

  ghost predicate FinderMatches(p: seq<Byte>, found: Result<Option<(nat, nat)>, ExtensionError>, first: Option<seq<Byte>>) {
    && found.Ok?
    && (found.value.None? <==> first.None?)
    && (found.value.Some? ==>
          var (at, size) := found.value.value;
          at + size <= |p| && p[at..at + size] == first.value)
  }

  lemma MatchShifts(p: seq<Byte>, step: nat, found: Result<Option<(nat, nat)>, ExtensionError>, first: Option<seq<Byte>>)
    requires step <= |p| && FinderMatches(p[step..], found, first)
    ensures FinderMatches(p, Shift(found, step), first)
  {
    if found.value.Some? {
      var (at, size) := found.value.value;
      SliceOfSlice(p, step, |p|, at, at + size);
    }
  }

  /** On everything the parser accepts, the finder returns the first parsed element with the id. */
  lemma {:induction false} FinderAgrees(f: Format, p: seq<Byte>, id: Byte)
    requires Parse(f, p).Ok?
    ensures FinderMatches(p, Find(f, p, id), FirstWithId(Parse(f, p).value, id))
    decreases |p|
  {
    hide Head, Find, FinderMatches;
    FindStep(f, p, id);
    if p == [] {
      FoundNothing(p);
    } else {
      match Head(f, p)
      case Padding =>
        FinderAgrees(f, p[1..], id);
        MatchShifts(p, 1, Find(f, p[1..], id), FirstWithId(Parse(f, p[1..]).value, id));
      case Bad(_) =>
      case Element(other, headerSize, size) =>
        var rest := Parse(f, p[headerSize + size..]).value;
        var e := Extension(other, p[headerSize..headerSize + size]);
        assert ([e] + rest)[1..] == rest;
        if other == id {
          FoundHere(p, headerSize, size);
        } else {
          FinderAgrees(f, p[headerSize + size..], id);
          MatchShifts(p, headerSize + size, Find(f, p[headerSize + size..], id), FirstWithId(rest, id));
        }
    }
  }

  lemma FoundNothing(p: seq<Byte>)
    ensures FinderMatches(p, Ok(None), None)
  {
  }

  lemma FoundHere(p: seq<Byte>, at: nat, size: nat)
    requires at + size <= |p|
    ensures FinderMatches(p, Ok(Some((at, size))), Some(p[at..at + size]))
  {
  }

  // ----- building -----

  predicate FitsOneByte(es: seq<Extension>) {
    forall i :: 0 <= i < |es| ==> 1 <= es[i].id < 15 && 1 <= |es[i].value| <= 16
  }

  /** Elements any sender may use: ids 1 to 255 and at most 255 bytes. */
  predicate FitsTwoByte(es: seq<Extension>) {
    forall i :: 0 <= i < |es| ==> 1 <= es[i].id && |es[i].value| <= 255
  }

  function FormatFor(es: seq<Extension>): Format {
    if FitsOneByte(es) then OneByte else TwoByte
  }

  predicate Encodable(f: Format, e: Extension) {
    match f
    case OneByte => 1 <= e.id < 15 && 1 <= |e.value| <= 16
    case TwoByte => 1 <= e.id && |e.value| <= 255
  }

  function ElementBytes(f: Format, e: Extension): (b: seq<Byte>)
    requires Encodable(f, e)
  {
    match f
    case OneByte => [e.id * 0x10 + (|e.value| - 1)] + e.value
    case TwoByte => [e.id, |e.value|] + e.value
  }

  function ElementsBytes(f: Format, es: seq<Extension>): (b: seq<Byte>)
    requires forall i :: 0 <= i < |es| ==> Encodable(f, es[i])
  {
    if es == [] then [] else ElementBytes(f, es[0]) + ElementsBytes(f, es[1..])
  }

  lemma HeadOfElement(f: Format, e: Extension, rest: seq<Byte>)
    requires Encodable(f, e)
    ensures var p := ElementBytes(f, e) + rest;
            var headerSize := if f.OneByte? then 1 else 2;
            && Head(f, p) == Element(e.id, headerSize, |e.value|)
            && p[headerSize..headerSize + |e.value|] == e.value
            && p[headerSize + |e.value|..] == rest
  {
  }

  lemma {:induction false} ParsePadding(f: Format, n: nat)
    ensures Parse(f, Zeros(n)) == Ok([])
  {
    if n == 0 {
      assert Zeros(n) == [];
    } else {
      ParsePadding(f, n - 1);
      assert Zeros(n)[1..] == Zeros(n - 1);
    }
  }

  /** Parsing what was built gives back the elements, whatever padding follows. */
  lemma {:induction false} BuildThenParse(f: Format, es: seq<Extension>, padding: nat)
    requires forall i :: 0 <= i < |es| ==> Encodable(f, es[i])
    ensures Parse(f, ElementsBytes(f, es) + Zeros(padding)) == Ok(es)
    decreases |es|
  {
    hide Head, ElementBytes, Encodable;
    if es == [] {
      assert [] + Zeros(padding) == Zeros(padding);
      ParsePadding(f, padding);
    } else {
      var rest := ElementsBytes(f, es[1..]) + Zeros(padding);
      assert ElementsBytes(f, es) + Zeros(padding) == ElementBytes(f, es[0]) + rest;
      HeadOfElement(f, es[0], rest);
      BuildThenParse(f, es[1..], padding);
      assert [es[0]] + es[1..] == es;
    }
  }

  /** The payload of the extension block, padded to whole words. */
  function BlockPayload(es: seq<Extension>): (b: seq<Byte>)
    requires FitsTwoByte(es)
    ensures |b| % 4 == 0
  {
    PadTo4(ElementsBytes(FormatFor(es), es))
  }

  /** Build then parse is the identity in whichever format was chosen. */
  lemma BlockRoundTrip(es: seq<Extension>)
    requires FitsTwoByte(es)
    ensures Parse(FormatFor(es), BlockPayload(es)) == Ok(es)
  {
    hide ElementsBytes, Parse;
    var f := FormatFor(es);
    assert forall i :: 0 <= i < |es| ==> Encodable(f, es[i]);
    BuildThenParse(f, es, (4 - |ElementsBytes(f, es)| % 4) % 4);
  }

  method BuildPayload(es: seq<Extension>) returns (payload: seq<Byte>)
    requires FitsTwoByte(es)
    ensures payload == BlockPayload(es)
  {
    payload := [];
    var f := FormatFor(es);
    assert forall i :: 0 <= i < |es| ==> Encodable(f, es[i]);
    assert es[0..] == es;
    payload := AppendElements(f, es);
    payload := Pad(payload);
  }

  method AppendElements(f: Format, es: seq<Extension>) returns (payload: seq<Byte>)
    requires forall i :: 0 <= i < |es| ==> Encodable(f, es[i])
    ensures payload == ElementsBytes(f, es)
  {
    hide ElementBytes, Encodable;
    payload := [];
    assert es[0..] == es;
    for i := 0 to |es|
      invariant payload + ElementsBytes(f, es[i..]) == ElementsBytes(f, es)
    {
      assert es[i..][1..] == es[i + 1..];
      assert payload + (ElementBytes(f, es[i]) + ElementsBytes(f, es[i + 1..])) == payload + ElementBytes(f, es[i]) + ElementsBytes(f, es[i + 1..]);
      payload := payload + ElementBytes(f, es[i]);
    }
    assert es[|es|..] == [];
  }

  method Pad(unpadded: seq<Byte>) returns (payload: seq<Byte>)
    ensures payload == PadTo4(unpadded)
  {
    payload := unpadded;
    while |payload| % 4 != 0
      invariant |unpadded| <= |payload| <= |PadTo4(unpadded)|
      invariant payload == unpadded + Zeros(|payload| - |unpadded|)
      decreases |PadTo4(unpadded)| - |payload|
    {
      payload := payload + [0];
    }
  }
}
