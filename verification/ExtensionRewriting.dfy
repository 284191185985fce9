/**
 Which header extensions a forwarded packet carries (`rewrite_header_extensions` in
 `media/whep_rtp_rewriter.cpp`): mapped ids, the subscriber's own MID and a fresh transport-wide
 sequence number, sorted by id.
 */
module ExtensionRewriting {
  import opened Wire
  import opened HeaderExtensions
  import opened RewriterMedia

  function MappingFor(ms: seq<ExtensionMapping>, sourceId: Byte): (r: Option<ExtensionMapping>)
    ensures r.Some? ==> r.value in ms && r.value.sourceId == sourceId
    ensures r.None? ==> forall x :: x in ms ==> x.sourceId != sourceId
  {
    if ms == [] then None else if ms[0].sourceId == sourceId then Some(ms[0]) else MappingFor(ms[1..], sourceId)
  }

  function MidMapping(ms: seq<ExtensionMapping>): (r: Option<ExtensionMapping>)
    ensures r.Some? ==> r.value in ms && r.value.uri == MidUri
    ensures r.None? ==> forall x :: x in ms ==> x.uri != MidUri
  {
    if ms == [] then None else if ms[0].uri == MidUri then Some(ms[0]) else MidMapping(ms[1..])
  }

  /** Extensions that describe the source's own sending cannot be copied. */
  predicate Regenerated(uri: Uri) {
    uri == TransportCcUri || uri == AbsSendTimeUri || uri == RidUri || uri == RepairedRidUri
  }

  /** What one source extension becomes. */
  function Target(m: Mapping, e: Extension): (r: Option<Extension>)
    ensures r.Some? ==> r.value.id != 0
  {
    var found := MappingFor(m.extensions, e.id);
    if found.None? || found.value.targetId == 0 || Regenerated(found.value.uri) then None
    else Some(Extension(found.value.targetId, if found.value.uri == MidUri then m.targetMid else e.value))
  }

  /** The copied extensions: first come, first served for each target id. None when a value is too large. */
  function Copied(m: Mapping, sources: seq<Extension>, used: set<Byte>): Option<seq<Extension>>
    decreases |sources|
  {
    if sources == [] then Some([])
    else
      match Target(m, sources[0])
      case None => Copied(m, sources[1..], used)
      case Some(e) =>
        if e.id in used then Copied(m, sources[1..], used)
        else if |e.value| > 255 then None
        else
          match Copied(m, sources[1..], used + {e.id})
          case None => None
          case Some(rest) => Some([e] + rest)
  }

  function IdsOf(es: seq<Extension>): set<Byte> {
    set i | 0 <= i < |es| :: es[i].id
  }

  function WithMid(m: Mapping, es: seq<Extension>): seq<Extension> {
    var mid := MidMapping(m.extensions);
    if mid.None? || mid.value.targetId in IdsOf(es) then es else es + [Extension(mid.value.targetId, m.targetMid)]
  }

  function WithTransportCc(m: Mapping, es: seq<Extension>, number: U16): seq<Extension> {
    if m.transportCcId == 0 || m.transportCcId in IdsOf(es) then es else es + [Extension(m.transportCcId, U16Bytes(number))]
  }

  function Inserted(e: Extension, es: seq<Extension>): seq<Extension> {
    if es == [] || e.id <= es[0].id then [e] + es else [es[0]] + Inserted(e, es[1..])
  }

  function Sorted(es: seq<Extension>): seq<Extension> {
    if es == [] then [] else Inserted(es[0], Sorted(es[1..]))
  }

  function RewriteExtensions(m: Mapping, sources: seq<Extension>, number: U16): Option<seq<Extension>> {
    match Copied(m, sources, {})
    case None => None
    case Some(es) => Some(Sorted(WithTransportCc(m, WithMid(m, es), number)))
  }

  // ----- what comes out -----

  /** A negotiated mapping: target ids are non-zero and distinct, and the MID fits an extension. */
  ghost predicate WellFormed(m: Mapping) {
    && (forall i :: 0 <= i < |m.extensions| ==> m.extensions[i].targetId != 0 && m.extensions[i].targetId != m.transportCcId)
    && (forall i, j :: 0 <= i < j < |m.extensions| ==> m.extensions[i].targetId != m.extensions[j].targetId)
    && |m.targetMid| <= 255
    && (forall i :: 0 <= i < |m.payloadTypes| ==> m.payloadTypes[i].target < 128 && m.payloadTypes[i].clockRate > 0)
  }

  ghost predicate DistinctIds(es: seq<Extension>) {
    forall i, j :: 0 <= i < j < |es| ==> es[i].id != es[j].id
  }

  ghost predicate IdsMapped(m: Mapping, es: seq<Extension>) {
    forall e :: e in es ==> e.id != 0 && |e.value| <= 255 && exists x :: x in m.extensions && x.targetId == e.id && (x.uri == MidUri ==> e.value == m.targetMid)
  }

  lemma {:induction false} CopiedFacts(m: Mapping, sources: seq<Extension>, used: set<Byte>)
    requires Copied(m, sources, used).Some?
    ensures var es := Copied(m, sources, used).value;
            && DistinctIds(es) && IdsMapped(m, es)
            && forall e :: e in es ==> e.id !in used
    decreases |sources|
  {
    if sources != [] {
      var t := Target(m, sources[0]);
      if t.None? || t.value.id in used {
        CopiedFacts(m, sources[1..], used);
      } else {
        CopiedFacts(m, sources[1..], used + {t.value.id});
        var rest := Copied(m, sources[1..], used + {t.value.id}).value;
        var x := MappingFor(m.extensions, sources[0].id).value;
        assert x in m.extensions && x.targetId == t.value.id;
        hide Copied, Target;
        forall e | e in [t.value] + rest
          ensures e == t.value || e in rest
        {
        }
        forall j | 0 <= j < |rest|
          ensures rest[j].id != t.value.id
        {
          assert rest[j] in rest;
        }
      }
    }
  }

  ghost predicate IncreasingIds(es: seq<Extension>) {
    forall i, j :: 0 <= i < j < |es| ==> es[i].id < es[j].id
  }

  lemma {:induction false} InsertedElements(e: Extension, es: seq<Extension>)
    ensures forall x :: x in Inserted(e, es) <==> x == e || x in es
  {
    if es != [] && e.id > es[0].id {
      InsertedElements(e, es[1..]);
      assert forall x :: x in es <==> x == es[0] || x in es[1..];
    }
  }

  lemma {:induction false} InsertedIncreasing(e: Extension, es: seq<Extension>)
    requires IncreasingIds(es) && forall x :: x in es ==> x.id != e.id
    ensures IncreasingIds(Inserted(e, es))
  {
    if es == [] {
    } else if e.id <= es[0].id {
      assert es[0] in es;
    } else {
      InsertedIncreasing(e, es[1..]);
      InsertedElements(e, es[1..]);
      var rest := Inserted(e, es[1..]);
      forall j | 0 <= j < |rest|
        ensures es[0].id < rest[j].id
      {
        assert rest[j] in rest;
        if rest[j] != e {
          var k :| 0 <= k < |es[1..]| && es[1..][k] == rest[j];
          assert es[k + 1] == rest[j];
        }
      }
    }
  }

  /** Sorting keeps the elements and, when ids are distinct, puts them in strictly increasing order. */
  lemma {:induction false} SortedFacts(es: seq<Extension>)
    requires DistinctIds(es)
    ensures forall x :: x in Sorted(es) <==> x in es
    ensures IncreasingIds(Sorted(es))
  {
    if es != [] {
      SortedFacts(es[1..]);
      var rest := Sorted(es[1..]);
      forall x | x in rest
        ensures x.id != es[0].id
      {
        var k :| 0 <= k < |es[1..]| && es[1..][k] == x;
        assert es[k + 1] == x;
      }
      InsertedElements(es[0], rest);
      InsertedIncreasing(es[0], rest);
      assert forall x :: x in es <==> x == es[0] || x in es[1..];
    }
  }

  lemma {:induction false} FirstOfIncreasing(es: seq<Extension>, e: Extension)
    requires IncreasingIds(es) && e in es
    ensures FirstWithId(es, e.id) == Some(e.value)
  {
    if es[0] == e {
    } else {
      assert e in es[1..];
      var k :| 0 <= k < |es[1..]| && es[1..][k] == e;
      assert es[0].id < es[k + 1].id;
      FirstOfIncreasing(es[1..], e);
    }
  }

  /** The list before sorting. */
  ghost function Unsorted(m: Mapping, es: seq<Extension>, number: U16): seq<Extension> {
    WithTransportCc(m, WithMid(m, es), number)
  }

  lemma AppendKeepsDistinct(es: seq<Extension>, e: Extension)
    requires DistinctIds(es) && e.id !in IdsOf(es)
    ensures DistinctIds(es + [e])
    ensures forall x :: x in es + [e] <==> x in es || x == e
  {
    forall i | 0 <= i < |es|
      ensures es[i].id != e.id
    {
      assert es[i].id in IdsOf(es);
    }
  }

  lemma WithMidFacts(m: Mapping, es: seq<Extension>)
    requires WellFormed(m) && DistinctIds(es) && IdsMapped(m, es)
    ensures DistinctIds(WithMid(m, es)) && IdsMapped(m, WithMid(m, es))
    ensures forall x :: x in es ==> x in WithMid(m, es)
    ensures var mid := MidMapping(m.extensions); mid.Some? ==> Extension(mid.value.targetId, m.targetMid) in WithMid(m, es)
  {
    var mid := MidMapping(m.extensions);
    if mid.Some? {
      var e := Extension(mid.value.targetId, m.targetMid);
      if mid.value.targetId in IdsOf(es) {
        var i :| 0 <= i < |es| && es[i].id == mid.value.targetId;
        assert es[i] in es;
        var x :| x in m.extensions && x.targetId == es[i].id && (x.uri == MidUri ==> es[i].value == m.targetMid);
        assert x == mid.value;
        assert es[i] == e;
      } else {
        AppendKeepsDistinct(es, e);
      }
    }
  }

  lemma WithTransportCcFacts(m: Mapping, es: seq<Extension>, number: U16)
    requires WellFormed(m) && DistinctIds(es) && IdsMapped(m, es)
    ensures DistinctIds(WithTransportCc(m, es, number)) && FitsTwoByte(WithTransportCc(m, es, number))
    ensures forall x :: x in WithTransportCc(m, es, number) <==> x in es || (m.transportCcId != 0 && x == Extension(m.transportCcId, U16Bytes(number)))
  {
    assert forall i :: 0 <= i < |es| ==> es[i] in es;
    assert m.transportCcId !in IdsOf(es);
    if m.transportCcId != 0 {
      AppendKeepsDistinct(es, Extension(m.transportCcId, U16Bytes(number)));
    }
  }

  /**
   For a negotiated mapping the rewritten list is strictly sorted and encodable; a reader finds the
   subscriber's MID and the transport-wide number under their ids.
   */
  lemma RewrittenExtensions(m: Mapping, sources: seq<Extension>, number: U16)
    requires WellFormed(m) && RewriteExtensions(m, sources, number).Some?
    ensures var es := RewriteExtensions(m, sources, number).value;
            && IncreasingIds(es) && FitsTwoByte(es)
            && (m.transportCcId != 0 ==> FirstWithId(es, m.transportCcId) == Some(U16Bytes(number)))
            && (MidMapping(m.extensions).Some? ==> FirstWithId(es, MidMapping(m.extensions).value.targetId) == Some(m.targetMid))
            && (forall e :: e in Copied(m, sources, {}).value ==> FirstWithId(es, e.id) == Some(e.value))
  {
    hide Copied, WithMid, WithTransportCc, Sorted, FirstWithId, IdsMapped, MidMapping, DistinctIds, WellFormed;
    var copied := Copied(m, sources, {}).value;
    CopiedFacts(m, sources, {});
    WithMidFacts(m, copied);
    WithTransportCcFacts(m, WithMid(m, copied), number);
    var all := Unsorted(m, copied, number);
    SortedFacts(all);
    SortedFits(all);
    forall e | e in all
      ensures FirstWithId(Sorted(all), e.id) == Some(e.value)
    {
      FirstOfIncreasing(Sorted(all), e);
    }
    assert m.transportCcId != 0 ==> Extension(m.transportCcId, U16Bytes(number)) in all;
  }

  lemma SortedFits(es: seq<Extension>)
    requires FitsTwoByte(es) && DistinctIds(es)
    ensures FitsTwoByte(Sorted(es))
  {
    hide Sorted;
    SortedFacts(es);
    forall i | 0 <= i < |Sorted(es)|
      ensures 1 <= Sorted(es)[i].id && |Sorted(es)[i].value| <= 255
    {
      assert Sorted(es)[i] in Sorted(es);
      var k :| 0 <= k < |es| && es[k] == Sorted(es)[i];
    }
  }

  // ----- what a reader finds under each id -----

  /** The first mapping of the element's id leads to this target id, and the element is not one the subscriber's side makes itself. */
  ghost predicate MapsTo(m: Mapping, e: Extension, id: Byte, k: nat) {
    && k < |m.extensions| && m.extensions[k].sourceId == e.id && (forall j :: 0 <= j < k ==> m.extensions[j].sourceId != e.id)
    && m.extensions[k].targetId == id != 0
    && m.extensions[k].uri !in {TransportCcUri, AbsSendTimeUri, RidUri, RepairedRidUri}
  }

  /** The value of the first source element that maps to the id; a MID is the subscriber's own. */
  ghost predicate FirstMapped(m: Mapping, sources: seq<Extension>, id: Byte, value: seq<Byte>) {
    exists i: nat, k: nat ::
      && i < |sources| && k < |m.extensions| && MapsTo(m, sources[i], id, k)
      && (forall j, l: nat :: 0 <= j < i ==> !MapsTo(m, sources[j], id, l))
      && value == if m.extensions[k].uri == MidUri then m.targetMid else sources[i].value
  }

  ghost predicate NoneMapped(m: Mapping, sources: seq<Extension>, id: Byte) {
    forall j, l: nat :: 0 <= j < |sources| ==> !MapsTo(m, sources[j], id, l)
  }

  lemma {:induction false} MappingForIs(ms: seq<ExtensionMapping>, sourceId: Byte) returns (k: nat)
    ensures k <= |ms| && (forall j :: 0 <= j < k ==> ms[j].sourceId != sourceId)
    ensures if k < |ms| then ms[k].sourceId == sourceId && MappingFor(ms, sourceId) == Some(ms[k]) else MappingFor(ms, sourceId).None?
  {
    if ms == [] || ms[0].sourceId == sourceId {
      k := 0;
    } else {
      var l := MappingForIs(ms[1..], sourceId);
      k := l + 1;
      assert forall j :: 0 < j < k ==> ms[j] == ms[1..][j - 1];
    }
  }

  lemma TargetIff(m: Mapping, e: Extension, id: Byte)
    ensures (exists k: nat :: MapsTo(m, e, id, k)) <==> Target(m, e).Some? && Target(m, e).value.id == id
    ensures forall k: nat :: MapsTo(m, e, id, k) ==>
              Target(m, e) == Some(Extension(id, if m.extensions[k].uri == MidUri then m.targetMid else e.value))
  {
    var l := MappingForIs(m.extensions, e.id);
    hide MappingFor;
    if l < |m.extensions| && MapsTo(m, e, m.extensions[l].targetId, l) {
      assert Target(m, e).Some?;
    }
    forall k: nat | MapsTo(m, e, id, k)
      ensures k == l
    {
    }
  }

  lemma {:induction false} CopiedIs(m: Mapping, sources: seq<Extension>, used: set<Byte>, id: Byte)
    requires Copied(m, sources, used).Some? && id !in used
    ensures var found := FirstWithId(Copied(m, sources, used).value, id);
            if found.Some? then FirstMapped(m, sources, id, found.value) else NoneMapped(m, sources, id)
    decreases |sources|
  {
    hide MapsTo, Target;
    if sources != [] {
      var e, rest := sources[0], sources[1..];
      TargetIff(m, e, id);
      var t := Target(m, e);
      if t.Some? && t.value.id == id {
        var k: nat :| MapsTo(m, e, id, k);
        MappedFirst(m, sources, id, k);
        CopiedTakes(m, sources, used, id);
      } else {
        var more := if t.None? || t.value.id in used then used else used + {t.value.id};
        CopiedSkips(m, sources, used, id);
        CopiedIs(m, rest, more, id);
        var found := FirstWithId(Copied(m, rest, more).value, id);
        MappedLater(m, sources, id, if found.Some? then found.value else []);
      }
    }
  }

  lemma MappedFirst(m: Mapping, sources: seq<Extension>, id: Byte, k: nat)
    requires sources != [] && MapsTo(m, sources[0], id, k)
    ensures FirstMapped(m, sources, id, if m.extensions[k].uri == MidUri then m.targetMid else sources[0].value)
  {
  }

  lemma CopiedTakes(m: Mapping, sources: seq<Extension>, used: set<Byte>, id: Byte)
    requires sources != [] && Copied(m, sources, used).Some? && id !in used && Target(m, sources[0]).Some? && Target(m, sources[0]).value.id == id
    ensures FirstWithId(Copied(m, sources, used).value, id) == Some(Target(m, sources[0]).value.value)
  {
    hide Target;
  }

  lemma CopiedSkips(m: Mapping, sources: seq<Extension>, used: set<Byte>, id: Byte)
    requires sources != [] && Copied(m, sources, used).Some? && !(Target(m, sources[0]).Some? && Target(m, sources[0]).value.id == id)
    ensures var t := Target(m, sources[0]);
            var more := if t.None? || t.value.id in used then used else used + {t.value.id};
            Copied(m, sources[1..], more).Some?
            && FirstWithId(Copied(m, sources, used).value, id) == FirstWithId(Copied(m, sources[1..], more).value, id)
  {
    hide Target;
    var t := Target(m, sources[0]);
    if t.Some? && t.value.id !in used {
      var rest := Copied(m, sources[1..], used + {t.value.id}).value;
      assert ([t.value] + rest)[1..] == rest;
    }
  }

  lemma MappedLater(m: Mapping, sources: seq<Extension>, id: Byte, value: seq<Byte>)
    requires sources != [] && forall k: nat :: !MapsTo(m, sources[0], id, k)
    ensures FirstMapped(m, sources[1..], id, value) ==> FirstMapped(m, sources, id, value)
    ensures NoneMapped(m, sources[1..], id) ==> NoneMapped(m, sources, id)
  {
    hide MapsTo;
    var rest := sources[1..];
    assert forall j :: 0 < j < |sources| ==> sources[j] == rest[j - 1];
    if FirstMapped(m, rest, id, value) {
      var i: nat, k: nat :| i < |rest| && k < |m.extensions| && MapsTo(m, rest[i], id, k)
                            && (forall j, l: nat :: 0 <= j < i ==> !MapsTo(m, rest[j], id, l))
                            && value == if m.extensions[k].uri == MidUri then m.targetMid else rest[i].value;
      forall j, l: nat | 0 <= j < i + 1
        ensures !MapsTo(m, sources[j], id, l)
      {
        if j > 0 {
          assert !MapsTo(m, rest[j - 1], id, l);
        }
      }
      assert MapsTo(m, sources[i + 1], id, k);
    }
  }

  lemma {:induction false} FoundIffMember(es: seq<Extension>, id: Byte)
    ensures var found := FirstWithId(es, id);
            if found.Some? then Extension(id, found.value) in es else forall e :: e in es ==> e.id != id
  {
    if es != [] {
      FoundIffMember(es[1..], id);
      assert forall e :: e in es <==> e == es[0] || e in es[1..];
    }
  }

  /** Adding one element under a new id. */
  lemma {:induction false} FoundInSnoc(es: seq<Extension>, e: Extension, id: Byte)
    ensures FirstWithId(es + [e], id) == if FirstWithId(es, id).Some? then FirstWithId(es, id) else if e.id == id then Some(e.value) else None
  {
    if es == [] {
      assert es + [e] == [e];
    } else {
      assert (es + [e])[1..] == es[1..] + [e];
      FoundInSnoc(es[1..], e, id);
    }
  }

  lemma SameFound(es: seq<Extension>, id: Byte)
    requires DistinctIds(es)
    ensures FirstWithId(Sorted(es), id) == FirstWithId(es, id)
  {
    hide Sorted, FirstWithId;
    SortedFacts(es);
    FoundIffMember(es, id);
    FoundIffMember(Sorted(es), id);
    if FirstWithId(es, id).Some? {
      FirstOfIncreasing(Sorted(es), Extension(id, FirstWithId(es, id).value));
    }
  }

  /**
   What a reader of a forwarded packet finds under each id: the fresh number under the transport-wide
   id, the subscriber's MID under the MID id, and under any other the first source element that maps
   to it, or nothing.
   */
  lemma ReaderFinds(m: Mapping, sources: seq<Extension>, number: U16, id: Byte)
    requires WellFormed(m) && RewriteExtensions(m, sources, number).Some?
    ensures var found, mid := FirstWithId(RewriteExtensions(m, sources, number).value, id), MidMapping(m.extensions);
            if id == m.transportCcId && id != 0 then found == Some(U16Bytes(number))
            else if mid.Some? && mid.value.targetId == id then found == Some(m.targetMid)
            else if found.Some? then FirstMapped(m, sources, id, found.value)
            else NoneMapped(m, sources, id)
  {
    hide Copied, Sorted, IdsMapped, MidMapping, DistinctIds, WellFormed, FirstMapped, NoneMapped, FirstWithId, U16Bytes, FitsTwoByte;
    var copied := Copied(m, sources, {}).value;
    CopiedFacts(m, sources, {});
    WithMidFacts(m, copied);
    WithTransportCcFacts(m, WithMid(m, copied), number);
    RewrittenExtensions(m, sources, number);
    SameFound(Unsorted(m, copied, number), id);
    CopiedIs(m, sources, {}, id);
    var mid := MidMapping(m.extensions);
    if !(id == m.transportCcId && id != 0) && !(mid.Some? && mid.value.targetId == id) {
      FoundUnderOthers(m, copied, number, id);
    }
  }

  lemma FoundUnderOthers(m: Mapping, copied: seq<Extension>, number: U16, id: Byte)
    requires !(id == m.transportCcId && id != 0) && !(MidMapping(m.extensions).Some? && MidMapping(m.extensions).value.targetId == id)
    ensures FirstWithId(Unsorted(m, copied, number), id) == FirstWithId(copied, id)
  {
    hide FirstWithId, MidMapping, U16Bytes;
    var mid := MidMapping(m.extensions);
    if mid.Some? {
      FoundInSnoc(copied, Extension(mid.value.targetId, m.targetMid), id);
    }
    if m.transportCcId != 0 {
      FoundInSnoc(WithMid(m, copied), Extension(m.transportCcId, U16Bytes(number)), id);
    }
  }

  // ----- the size errors cannot happen -----

  ghost predicate ValuesFit(es: seq<Extension>) {
    forall i :: 0 <= i < |es| ==> |es[i].value| <= 255
  }

  lemma {:induction false} ParsedFit(f: Format, p: seq<Byte>)
    requires Parse(f, p).Ok?
    ensures ValuesFit(Parse(f, p).value)
    decreases |p|
  {
    hide Parse, Head;
    ParseStep(f, p);
    if p != [] {
      match Head(f, p)
      case Padding => ParsedFit(f, p[1..]);
      case Bad(_) =>
      case Element(_, headerSize, size) =>
        ElementFits(f, p);
        ParsedFit(f, p[headerSize + size..]);
    }
  }

  lemma ElementFits(f: Format, p: seq<Byte>)
    requires p != [] && Head(f, p).Element?
    ensures Head(f, p).size <= 255
  {
  }

  /** No parsed extension has a value too large to copy. */
  lemma {:induction false} CopiedSucceeds(m: Mapping, sources: seq<Extension>, used: set<Byte>)
    requires |m.targetMid| <= 255 && ValuesFit(sources)
    ensures Copied(m, sources, used).Some?
    decreases |sources|
  {
    if sources != [] {
      var t := Target(m, sources[0]);
      CopiedSucceeds(m, sources[1..], if t.None? || t.value.id in used then used else used + {t.value.id});
    }
  }

  lemma {:induction false} ElementsBound(f: Format, es: seq<Extension>, from: nat)
    requires IncreasingIds(es) && (forall i :: 0 <= i < |es| ==> Encodable(f, es[i]) && from <= es[i].id) && from <= 256
    ensures |ElementsBytes(f, es)| <= 257 * (256 - from)
    decreases |es|
  {
    if es != [] {
      ElementsBound(f, es[1..], es[0].id + 1);
    }
  }

  /** At most 255 distinct ids of at most 257 bytes each: the block always fits its length field. */
  lemma BlockBound(es: seq<Extension>)
    requires IncreasingIds(es) && FitsTwoByte(es)
    ensures |BlockPayload(es)| / 4 < 0x1_0000
  {
    var f := FormatFor(es);
    assert forall i :: 0 <= i < |es| ==> Encodable(f, es[i]);
    ElementsBound(f, es, 1);
  }
}
