/**
 The cache of sent packets that generic NACKs are answered from (`rtp/rtp_retransmission_cache.cpp`):
 a map plus a queue of writes that is cleaned lazily. It behaves as a map whose entries are kept
 in the order of their last write and leave oldest write first. Times are integer microseconds.
 */
module RetransmissionCache {
  import opened Wire

  datatype Packet = Packet(bytes: seq<Byte>, ssrc: U32, payloadType: Byte, sequence: U16, timestamp: U32, payloadSize: nat,
                           sourceGeneration: nat, storedAt: int)

  datatype Entry = Entry(packet: Packet, serial: nat, lastSentAt: Option<int>)

  /** One write: which key, and the serial its entry had. */
  datatype Write = Write(key: nat, serial: nat)

  datatype Config = Config(maxAge: int, maxPackets: nat, maxBytes: nat, minInterval: int)

  function Normalised(c: Config): (r: Config)
    ensures r.maxAge > 0 && r.maxPackets > 0 && r.maxBytes > 0 && r.minInterval >= 0
    ensures (c.maxAge > 0 ==> r.maxAge == c.maxAge) && (c.maxPackets > 0 ==> r.maxPackets == c.maxPackets)
    ensures (c.maxBytes > 0 ==> r.maxBytes == c.maxBytes) && (c.minInterval >= 0 ==> r.minInterval == c.minInterval)
  {
    Config(if c.maxAge <= 0 then 2_000_000 else c.maxAge,
           if c.maxPackets == 0 then 4096 else c.maxPackets,
           if c.maxBytes == 0 then 8 * 1024 * 1024 else c.maxBytes,
           if c.minInterval < 0 then 0 else c.minInterval)
  }

  function MakeKey(ssrc: U32, sequence: U16): nat {
    ssrc * 0x1_0000 + sequence
  }

  lemma KeysAreDistinct(a: U32, b: U16, c: U32, d: U16)
    ensures MakeKey(a, b) == MakeKey(c, d) <==> a == c && b == d
  {
  }

  // ----- the ordered map behind the queue -----

  predicate Current(entries: map<nat, Entry>, w: Write) {
    w.key in entries && entries[w.key].serial == w.serial
  }

  ghost predicate AllIn(keys: seq<nat>, entries: map<nat, Entry>) {
    forall i :: 0 <= i < |keys| ==> keys[i] in entries
  }

  /** Keys in the order of their last write. */
  ghost function Live(entries: map<nat, Entry>, order: seq<Write>): (keys: seq<nat>)
    ensures AllIn(keys, entries)
  {
    if order == [] then []
    else (if Current(entries, order[0]) then [order[0].key] else []) + Live(entries, order[1..])
  }

  ghost function Bytes(entries: map<nat, Entry>, keys: seq<nat>): nat
    requires AllIn(keys, entries)
  {
    if keys == [] then 0 else |entries[keys[0]].packet.bytes| + Bytes(entries, keys[1..])
  }

  ghost function Without(keys: seq<nat>, key: nat): seq<nat> {
    if keys == [] then [] else (if keys[0] == key then [] else [keys[0]]) + Without(keys[1..], key)
  }

  ghost predicate SerialsOrdered(order: seq<Write>, next: nat) {
    && (forall i, j :: 0 <= i < j < |order| ==> order[i].serial < order[j].serial)
    && (forall i :: 0 <= i < |order| ==> order[i].serial < next)
  }

  /** Every entry has the record of its last write in the queue. */
  ghost predicate Recorded(entries: map<nat, Entry>, order: seq<Write>) {
    forall k :: k in entries ==> Write(k, entries[k].serial) in order
  }

  ghost predicate Distinct(keys: seq<nat>) {
    forall i, j :: 0 <= i < j < |keys| ==> keys[i] != keys[j]
  }

  lemma {:induction false} LiveIff(entries: map<nat, Entry>, order: seq<Write>, key: nat)
    ensures key in Live(entries, order) <==> key in entries && Write(key, entries[key].serial) in order
  {
    if order != [] {
      LiveIff(entries, order[1..], key);
      assert forall w :: w in order <==> w == order[0] || w in order[1..];
    }
  }

  lemma {:induction false} LiveDistinct(entries: map<nat, Entry>, order: seq<Write>, next: nat)
    requires SerialsOrdered(order, next)
    ensures Distinct(Live(entries, order))
  {
    if order != [] {
      LiveDistinct(entries, order[1..], next);
      if Current(entries, order[0]) {
        LiveIff(entries, order[1..], order[0].key);
        assert order[0] !in order[1..];
      }
    }
  }

  lemma {:induction false} LiveSnoc(entries: map<nat, Entry>, order: seq<Write>, w: Write)
    ensures Live(entries, order + [w]) == Live(entries, order) + if Current(entries, w) then [w.key] else []
  {
    if order == [] {
      assert order + [w] == [w] && [w][1..] == [];
    } else {
      assert (order + [w])[1..] == order[1..] + [w];
      LiveSnoc(entries, order[1..], w);
    }
  }

  /** A new serial takes the key out of its old place. */
  lemma {:induction false} LiveAfterRewrite(entries: map<nat, Entry>, order: seq<Write>, key: nat, e: Entry)
    requires forall i :: 0 <= i < |order| ==> order[i].serial != e.serial
    ensures Live(entries[key := e], order) == Without(Live(entries, order), key)
  {
    if order != [] {
      LiveAfterRewrite(entries, order[1..], key, e);
      WithoutAppend(if Current(entries, order[0]) then [order[0].key] else [], Live(entries, order[1..]), key);
      assert order[0].serial != e.serial;
    }
  }

  lemma {:induction false} WithoutAppend(a: seq<nat>, b: seq<nat>, key: nat)
    ensures Without(a + b, key) == Without(a, key) + Without(b, key)
  {
    if a == [] {
      assert a + b == b;
    } else {
      assert (a + b)[1..] == a[1..] + b;
      WithoutAppend(a[1..], b, key);
    }
  }

  lemma {:induction false} WithoutElements(keys: seq<nat>, key: nat)
    ensures forall k :: k in Without(keys, key) <==> k in keys && k != key
    ensures key !in keys ==> Without(keys, key) == keys
    ensures |Without(keys, key)| <= |keys|
  {
    if keys != [] {
      WithoutElements(keys[1..], key);
      assert forall k :: k in keys <==> k == keys[0] || k in keys[1..];
      if key !in keys {
        assert key !in keys[1..] && keys == [keys[0]] + keys[1..];
      }
    }
  }

  lemma {:induction false} BytesAppend(entries: map<nat, Entry>, a: seq<nat>, b: seq<nat>)
    requires forall i :: 0 <= i < |a + b| ==> (a + b)[i] in entries
    requires AllIn(a, entries)
    requires AllIn(b, entries)
    ensures Bytes(entries, a + b) == Bytes(entries, a) + Bytes(entries, b)
  {
    if a == [] {
      assert a + b == b;
    } else {
      assert (a + b)[1..] == a[1..] + b;
      BytesAppend(entries, a[1..], b);
    }
  }

  /** Taking one key out takes out its bytes. */
  lemma {:induction false} BytesWithout(entries: map<nat, Entry>, keys: seq<nat>, key: nat)
    requires AllIn(keys, entries)
    requires Distinct(keys)
    ensures AllIn(Without(keys, key), entries)
    ensures Bytes(entries, Without(keys, key)) == Bytes(entries, keys) - if key in keys then |entries[key].packet.bytes| else 0
    ensures |Without(keys, key)| == |keys| - if key in keys then 1 else 0
  {
    WithoutElements(keys, key);
    if keys != [] {
      assert Distinct(keys[1..]);
      BytesWithout(entries, keys[1..], key);
      assert forall k :: k in keys <==> k == keys[0] || k in keys[1..];
      if keys[0] == key {
        assert key !in keys[1..];
        WithoutElements(keys[1..], key);
        assert Without(keys, key) == keys[1..];
      }
    }
  }

  lemma {:induction false} BytesSame(a: map<nat, Entry>, b: map<nat, Entry>, keys: seq<nat>)
    requires forall i :: 0 <= i < |keys| ==> keys[i] in a && keys[i] in b && a[keys[i]].packet == b[keys[i]].packet
    ensures Bytes(a, keys) == Bytes(b, keys)
  {
    if keys != [] {
      BytesSame(a, b, keys[1..]);
    }
  }

  // ----- eviction, stated on the ordered map -----

  predicate Aged(entries: map<nat, Entry>, key: nat, now: int, maxAge: int)
    requires key in entries
  {
    now - entries[key].packet.storedAt > maxAge
  }

  /** Write times never decrease along the queue. */
  ghost predicate TimesOrdered(entries: map<nat, Entry>, keys: seq<nat>, clock: int)
    requires AllIn(keys, entries)
  {
    && (forall i, j :: 0 <= i < j < |keys| ==> entries[keys[i]].packet.storedAt <= entries[keys[j]].packet.storedAt)
    && (forall i :: 0 <= i < |keys| ==> entries[keys[i]].packet.storedAt <= clock)
  }

  /** Removing the entry whose write is at the head of the queue. */
  lemma LiveAfterPop(entries: map<nat, Entry>, order: seq<Write>, next: nat)
    requires order != [] && SerialsOrdered(order, next) && Current(entries, order[0])
    ensures var key := order[0].key;
            && Live(entries, order) == [key] + Live(entries, order[1..])
            && Live(entries - {key}, order[1..]) == Live(entries, order[1..])
  {
    LiveAfterErase(entries, order[1..], order[0].key);
  }

  lemma {:induction false} LiveAfterErase(entries: map<nat, Entry>, order: seq<Write>, key: nat)
    requires key in entries && forall i :: 0 <= i < |order| ==> order[i].serial != entries[key].serial
    ensures Live(entries - {key}, order) == Live(entries, order)
  {
    if order != [] {
      LiveAfterErase(entries, order[1..], key);
      assert order[0].serial != entries[key].serial;
    }
  }

  /** The number of live keys is the size of the map. */
  lemma {:induction false} LiveCount(entries: map<nat, Entry>, keys: seq<nat>)
    requires Distinct(keys) && forall k :: k in entries <==> k in keys
    ensures |entries| == |keys|
  {
    if keys == [] {
      if entries != map[] {
        var k := AnElement(entries.Keys);
        assert false;
      }
    } else {
      var rest := entries - {keys[0]};
      forall k
        ensures k in rest <==> k in keys[1..]
      {
        assert k in keys <==> k == keys[0] || k in keys[1..];
        if k in keys[1..] {
          assert keys[0] !in keys[1..];
        }
      }
      LiveCount(rest, keys[1..]);
      assert rest.Keys == entries.Keys - {keys[0]};
    }
  }

  ghost predicate Core(entries: map<nat, Entry>, order: seq<Write>, next: nat, bytes: nat) {
    SerialsOrdered(order, next) && Recorded(entries, order) && bytes == Bytes(entries, Live(entries, order))
  }

  lemma CoreFacts(entries: map<nat, Entry>, order: seq<Write>, next: nat, bytes: nat)
    requires Core(entries, order, next, bytes)
    ensures Distinct(Live(entries, order))
    ensures forall k :: k in entries <==> k in Live(entries, order)
    ensures |entries| == |Live(entries, order)|
  {
    LiveDistinct(entries, order, next);
    forall k
      ensures k in entries <==> k in Live(entries, order)
    {
      if k in entries {
        LiveIff(entries, order, k);
      }
    }
    LiveCount(entries, Live(entries, order));
  }

  lemma DropStale(entries: map<nat, Entry>, order: seq<Write>, next: nat, bytes: nat)
    requires Core(entries, order, next, bytes) && order != [] && !Current(entries, order[0])
    ensures Core(entries, order[1..], next, bytes) && Live(entries, order[1..]) == Live(entries, order)
  {
    assert forall w :: w in order <==> w == order[0] || w in order[1..];
    assert [] + Live(entries, order[1..]) == Live(entries, order[1..]);
  }

  lemma DropCurrent(entries: map<nat, Entry>, order: seq<Write>, next: nat, bytes: nat)
    requires Core(entries, order, next, bytes) && order != [] && Current(entries, order[0])
    ensures var key := order[0].key;
            var size := |entries[key].packet.bytes|;
            && Live(entries, order) == [key] + Live(entries - {key}, order[1..])
            && size <= bytes && Core(entries - {key}, order[1..], next, bytes - size)
            && |entries - {key}| == |entries| - 1
  {
    var key := order[0].key;
    LiveAfterPop(entries, order, next);
    var rest := Live(entries, order[1..]);
    assert ([key] + rest)[1..] == rest;
    BytesSame(entries, entries - {key}, rest);
    assert forall w :: w in order <==> w == order[0] || w in order[1..];
    assert (entries - {key}).Keys == entries.Keys - {key};
  }

  /** The cache after its `gone` oldest writes were evicted. */
  ghost predicate Evicted(all: map<nat, Entry>, keys: seq<nat>, gone: nat,
                          entries: map<nat, Entry>, order: seq<Write>, next: nat, bytes: nat) {
    && Core(entries, order, next, bytes)
    && gone <= |keys| && Live(entries, order) == keys[gone..]
    && |entries| + gone == |all|
    && SubMap(entries, all)
  }

  ghost predicate SubMap(entries: map<nat, Entry>, all: map<nat, Entry>) {
    entries.Keys <= all.Keys && forall k :: k in entries ==> entries[k] == all[k]
  }

  /** From index `n` on, both maps hold the same entry under each key. */
  ghost predicate Held(all: map<nat, Entry>, keys: seq<nat>, n: nat, entries: map<nat, Entry>) {
    forall i :: n <= i < |keys| ==> keys[i] in entries && keys[i] in all && entries[keys[i]] == all[keys[i]]
  }

  /** Exactly the `aged` oldest writes are too old. */
  ghost predicate AgedIs(all: map<nat, Entry>, keys: seq<nat>, aged: nat, now: int, maxAge: int)
    requires AllIn(keys, all)
  {
    forall i :: 0 <= i < |keys| ==> (i < aged <==> Aged(all, keys[i], now, maxAge))
  }

  ghost predicate Young(entries: map<nat, Entry>, now: int, maxAge: int) {
    forall k :: k in entries ==> now - entries[k].packet.storedAt <= maxAge
  }

  /** Before each of the `n` oldest writes left, a limit was exceeded. */
  ghost predicate OverUpTo(all: map<nat, Entry>, keys: seq<nat>, n: nat, c: Config)
    requires AllIn(keys, all)
  {
    n <= |keys| && forall i :: 0 <= i < n ==> OverLimit(all, keys, i, c)
  }

  lemma EvictNothing(entries: map<nat, Entry>, order: seq<Write>, next: nat, bytes: nat)
    requires Core(entries, order, next, bytes)
    ensures Evicted(entries, Live(entries, order), 0, entries, order, next, bytes)
  {
  }

  lemma SkipStale(all: map<nat, Entry>, keys: seq<nat>, gone: nat, entries: map<nat, Entry>, order: seq<Write>, next: nat, bytes: nat)
    requires Evicted(all, keys, gone, entries, order, next, bytes) && order != [] && !Current(entries, order[0])
    ensures Evicted(all, keys, gone, entries, order[1..], next, bytes)
  {
    DropStale(entries, order, next, bytes);
  }

  lemma EvictOne(all: map<nat, Entry>, keys: seq<nat>, gone: nat, entries: map<nat, Entry>, order: seq<Write>, next: nat, bytes: nat)
    requires Evicted(all, keys, gone, entries, order, next, bytes) && order != [] && Current(entries, order[0])
    ensures var key := order[0].key;
            && gone < |keys| && keys[gone] == key && key in all && entries[key] == all[key]
            && |entries[key].packet.bytes| <= bytes
            && Evicted(all, keys, gone + 1, entries - {key}, order[1..], next, bytes - |entries[key].packet.bytes|)
  {
    DropCurrent(entries, order, next, bytes);
    hide Core, Live;
    var rest := Live(entries - {order[0].key}, order[1..]);
    assert keys[gone..] == [order[0].key] + rest;
    assert keys[gone] == keys[gone..][0];
    assert keys[gone + 1..] == keys[gone..][1..] == rest;
  }

  lemma OverNothing(all: map<nat, Entry>, keys: seq<nat>, c: Config)
    requires AllIn(keys, all)
    ensures OverUpTo(all, keys, 0, c)
  {
  }

  lemma OverOneMore(all: map<nat, Entry>, keys: seq<nat>, gone: nat, entries: map<nat, Entry>, order: seq<Write>, next: nat, bytes: nat, c: Config)
    requires AllIn(keys, all) && Evicted(all, keys, gone, entries, order, next, bytes) && OverUpTo(all, keys, gone, c) && gone < |keys|
    requires |entries| > c.maxPackets || bytes > c.maxBytes
    ensures OverUpTo(all, keys, gone + 1, c)
  {
    hide Live, Bytes;
    EvictedSizes(all, keys, gone, entries, order, next, bytes);
    CoreFacts(entries, order, next, bytes);
    hide Core;
    assert |keys[gone..]| == |keys| - gone;
  }

  lemma EmptyQueue(all: map<nat, Entry>, keys: seq<nat>, gone: nat, entries: map<nat, Entry>, next: nat, bytes: nat)
    requires Evicted(all, keys, gone, entries, [], next, bytes)
    ensures gone == |keys| && |entries| == 0 && bytes == 0
  {
    CoreFacts(entries, [], next, bytes);
  }

  /** Entries hold the last packet written under their key and the last hit since that write. */
  ghost predicate Mirrors(entries: map<nat, Entry>, written: map<nat, Packet>, lastHit: map<nat, int>) {
    && (forall k :: k in entries ==> k in written && entries[k].packet == written[k])
    && (forall k :: k in entries ==> entries[k].lastSentAt == if k in lastHit then Some(lastHit[k]) else None)
  }

  /** The fields of the cache, and what its history says about them. */
  datatype State = State(entries: map<nat, Entry>, order: seq<Write>, byteCount: nat, nextSerial: nat, inserted: nat, evicted: nat)

  datatype Past = Past(clock: int, written: map<nat, Packet>, lastHit: map<nat, int>)

  ghost predicate Inv(s: State, h: Past) {
    && Core(s.entries, s.order, s.nextSerial, s.byteCount)
    && TimesOrdered(s.entries, Live(s.entries, s.order), h.clock)
    && s.inserted == |s.entries| + s.evicted
    && Mirrors(s.entries, h.written, h.lastHit)
  }

  lemma InvParts(s: State, h: Past)
    requires Inv(s, h)
    ensures Core(s.entries, s.order, s.nextSerial, s.byteCount)
    ensures TimesOrdered(s.entries, Live(s.entries, s.order), h.clock)
    ensures s.inserted == |s.entries| + s.evicted
    ensures Mirrors(s.entries, h.written, h.lastHit)
  {
  }

  lemma EmptyInv(h: Past)
    ensures Inv(State(map[], [], 0, 1, 0, 0), h)
  {
  }

  function Inserted(s: State, key: nat, packet: Packet): State {
    var freed := if key in s.entries then |s.entries[key].packet.bytes| else 0;
    State(s.entries[key := Entry(packet, s.nextSerial, None)], s.order + [Write(key, s.nextSerial)],
          Max(0, s.byteCount - freed) + |packet.bytes|, s.nextSerial + 1,
          s.inserted + (if key in s.entries then 0 else 1), s.evicted)
  }

  lemma InsertKeepsInv(s: State, h: Past, key: nat, packet: Packet)
    requires Inv(s, h) && packet.storedAt == h.clock
    ensures key in s.entries ==> |s.entries[key].packet.bytes| <= s.byteCount
    ensures Inv(Inserted(s, key, packet), Past(h.clock, h.written[key := packet], h.lastHit - {key}))
    ensures Live(Inserted(s, key, packet).entries, Inserted(s, key, packet).order) == Without(Live(s.entries, s.order), key) + [key]
  {
    hide Core, Live, TimesOrdered, Without, Mirrors;
    InsertKeepsCore(s.entries, s.order, s.nextSerial, s.byteCount, key, packet);
    InsertKeepsTimes(s.entries, Live(s.entries, s.order), h.clock, key, Entry(packet, s.nextSerial, None));
    InsertKeepsMirror(s.entries, h.written, h.lastHit, key, packet, s.nextSerial);
  }

  lemma HitKeepsInv(s: State, h: Past, key: nat)
    requires Inv(s, h) && key in s.entries
    ensures key in h.written && s.entries[key].packet == h.written[key]
    ensures s.entries[key].lastSentAt == if key in h.lastHit then Some(h.lastHit[key]) else None
    ensures Inv(s.(entries := s.entries[key := s.entries[key].(lastSentAt := Some(h.clock))]), h.(lastHit := h.lastHit[key := h.clock]))
  {
    hide Core, Live, TimesOrdered;
    HitKeepsCore(s.entries, s.order, s.nextSerial, s.byteCount, h.clock, key, Some(h.clock));
  }

  // ----- the cache as an ordered map -----

  /** One cached packet, in the order of last writes. */
  datatype Item = Item(key: nat, packet: Packet, lastHit: Option<int>)

  datatype Lookup = Hit(packet: Packet) | Miss | Suppressed

  ghost function ItemsOf(entries: map<nat, Entry>, keys: seq<nat>): (items: seq<Item>)
    requires AllIn(keys, entries)
    ensures |items| == |keys|
  {
    seq(|keys|, i requires 0 <= i < |keys| => Item(keys[i], entries[keys[i]].packet, entries[keys[i]].lastSentAt))
  }

  ghost function ItemBytes(items: seq<Item>): nat {
    if items == [] then 0 else |items[0].packet.bytes| + ItemBytes(items[1..])
  }

  ghost predicate NoneAged(items: seq<Item>, now: int, maxAge: int) {
    forall i :: 0 <= i < |items| ==> now - items[i].packet.storedAt <= maxAge
  }

  /** Age, count and bytes are all within their limits. */
  ghost predicate Fits(items: seq<Item>, now: int, c: Config) {
    NoneAged(items, now, c.maxAge) && |items| <= c.maxPackets && ItemBytes(items) <= c.maxBytes
  }

  /** What pruning leaves: the longest run of latest writes that fits every limit. */
  ghost function Kept(items: seq<Item>, now: int, c: Config): (r: seq<Item>)
    ensures |r| <= |items| && r == items[|items| - |r|..] && Fits(r, now, c)
    ensures forall i :: 0 <= i <= |items| ==> (Fits(items[i..], now, c) <==> i >= |items| - |r|)
    decreases |items|
  {
    hide Fits;
    if Fits(items, now, c) then
      EverySuffixFits(items, now, c);
      items
    else
      NothingFits(now, c);
      var r := Kept(items[1..], now, c);
      SuffixesOfRest(items, r, now, c);
      r
  }

  lemma NothingFits(now: int, c: Config)
    ensures Fits([], now, c)
  {
  }

  lemma EverySuffixFits(items: seq<Item>, now: int, c: Config)
    requires Fits(items, now, c)
    ensures items[0..] == items && forall i :: 0 <= i <= |items| ==> Fits(items[i..], now, c)
  {
    forall i | 0 <= i <= |items|
      ensures Fits(items[i..], now, c)
    {
      FitsSuffix(items, now, c, i);
    }
  }

  lemma SuffixesOfRest(items: seq<Item>, r: seq<Item>, now: int, c: Config)
    requires items != [] && !Fits(items, now, c) && |r| < |items|
    requires forall i :: 0 <= i <= |items| - 1 ==> (Fits(items[1..][i..], now, c) <==> i >= |items| - 1 - |r|)
    ensures forall i :: 0 <= i <= |items| ==> (Fits(items[i..], now, c) <==> i >= |items| - |r|)
    ensures items[1..][|items| - 1 - |r|..] == items[|items| - |r|..]
  {
    hide Fits;
    forall i | 0 <= i <= |items|
      ensures Fits(items[i..], now, c) <==> i >= |items| - |r|
    {
      if i == 0 {
        assert items[0..] == items;
      } else {
        assert items[1..][i - 1..] == items[i..];
      }
    }
  }

  lemma {:induction false} BytesOfSuffix(items: seq<Item>, i: nat)
    requires i <= |items|
    ensures ItemBytes(items[i..]) <= ItemBytes(items)
  {
    if i > 0 {
      BytesOfSuffix(items[1..], i - 1);
      assert items[1..][i - 1..] == items[i..];
    } else {
      assert items[0..] == items;
    }
  }

  lemma FitsSuffix(items: seq<Item>, now: int, c: Config, i: nat)
    requires Fits(items, now, c) && i <= |items|
    ensures Fits(items[i..], now, c)
  {
    BytesOfSuffix(items, i);
  }

  lemma KeptAt(items: seq<Item>, now: int, c: Config, n: nat)
    requires n <= |items| && Fits(items[n..], now, c)
    requires forall i :: 0 <= i < n ==> !Fits(items[i..], now, c)
    ensures Kept(items, now, c) == items[n..]
  {
    hide Fits;
    var m := |items| - |Kept(items, now, c)|;
    assert Fits(items[m..], now, c);
    assert m == n;
  }

  /** How many of the oldest writes are too old. */
  ghost function AgedCount(items: seq<Item>, now: int, maxAge: int): (n: nat)
    ensures n <= |items| && (forall i :: 0 <= i < n ==> now - items[i].packet.storedAt > maxAge)
    ensures n < |items| ==> now - items[n].packet.storedAt <= maxAge
  {
    if items == [] || now - items[0].packet.storedAt <= maxAge then 0
    else
      var n := AgedCount(items[1..], now, maxAge);
      assert forall i :: 1 <= i < |items| ==> items[i] == items[1..][i - 1];
      n + 1
  }

  ghost function WithoutKey(items: seq<Item>, key: nat): seq<Item> {
    if items == [] then [] else (if items[0].key == key then [] else [items[0]]) + WithoutKey(items[1..], key)
  }

  ghost function WithHit(items: seq<Item>, key: nat, now: int): (r: seq<Item>)
    ensures |r| == |items|
  {
    seq(|items|, i requires 0 <= i < |items| => if items[i].key == key then items[i].(lastHit := Some(now)) else items[i])
  }

  /** Remembering a packet: prune, write it last, prune again. */
  ghost function Written(items: seq<Item>, packet: Packet, now: int, c: Config): seq<Item> {
    var key := MakeKey(packet.ssrc, packet.sequence);
    if packet.bytes == [] || packet.ssrc == 0 then items
    else Kept(WithoutKey(Kept(items, now, c), key) + [Item(key, packet.(storedAt := now), None)], now, c)
  }

  ghost function Place(items: seq<Item>, key: nat): (i: nat)
    ensures i <= |items| && (i < |items| ==> items[i].key == key) && forall j :: 0 <= j < i ==> items[j].key != key
  {
    FirstIndex(items, (x: Item) => x.key == key)
  }

  /** The answer to a retransmission request, given the pruned cache. */
  ghost function Answer(items: seq<Item>, key: nat, now: int, c: Config): Lookup {
    var i := Place(items, key);
    if i == |items| then Miss
    else if items[i].lastHit.Some? && now - items[i].lastHit.value < c.minInterval then Suppressed
    else Hit(items[i].packet)
  }

  ghost function Answered(items: seq<Item>, key: nat, now: int, c: Config): seq<Item> {
    if Answer(items, key, now, c).Hit? then WithHit(items, key, now) else items
  }

  ghost predicate DistinctKeys(items: seq<Item>) {
    forall i, j :: 0 <= i < j < |items| ==> items[i].key != items[j].key
  }

  /** The key was written, and the writes from its last one on fit every limit. */
  ghost predicate Present(items: seq<Item>, key: nat, now: int, c: Config) {
    Place(items, key) < |items| && Fits(items[Place(items, key)..], now, c)
  }

  /** A packet is answered exactly while the writes from it on fit the limits: nothing leaves early. */
  lemma MissIff(items: seq<Item>, key: nat, now: int, c: Config)
    requires DistinctKeys(items)
    ensures Answer(Kept(items, now, c), key, now, c).Miss? <==> !Present(items, key, now, c)
  {
    hide Fits, Kept, FirstIndex;
    var r := Kept(items, now, c);
    PlaceInSuffix(items, |items| - |r|, key);
    assert items[Place(items, key)..] == items[Place(items, key)..];
  }

  lemma PlaceInSuffix(items: seq<Item>, cut: nat, key: nat)
    requires cut <= |items| && DistinctKeys(items)
    ensures Place(items[cut..], key) < |items[cut..]| <==> cut <= Place(items, key) < |items|
  {
    hide FirstIndex;
    var r, p := items[cut..], Place(items, key);
    assert forall i :: 0 <= i < |r| ==> r[i] == items[cut + i];
    if cut <= p < |items| {
      assert r[p - cut].key == key;
    }
    var k := Place(r, key);
    if k < |r| {
      assert items[cut + k].key == key;
      if p < |items| && p != cut + k {
        assert items[p].key == key;
      }
    }
  }

  lemma {:induction false} SameBytesWithHit(items: seq<Item>, key: nat, now: int)
    ensures ItemBytes(WithHit(items, key, now)) == ItemBytes(items)
  {
    if items != [] {
      SameBytesWithHit(items[1..], key, now);
      assert WithHit(items, key, now)[1..] == WithHit(items[1..], key, now);
    }
  }

  lemma SameAgesWithHit(items: seq<Item>, key: nat, now: int, later: int, maxAge: int)
    ensures NoneAged(WithHit(items, key, now), later, maxAge) <==> NoneAged(items, later, maxAge)
  {
    var r := WithHit(items, key, now);
    assert forall i :: 0 <= i < |items| ==> r[i].packet == items[i].packet;
    if NoneAged(r, later, maxAge) {
      forall i | 0 <= i < |items|
        ensures later - items[i].packet.storedAt <= maxAge
      {
        assert r[i].packet == items[i].packet;
      }
    }
  }

  lemma SameFitWithHit(items: seq<Item>, key: nat, now: int, later: int, c: Config, i: nat)
    requires i <= |items|
    ensures Fits(WithHit(items, key, now)[i..], later, c) <==> Fits(items[i..], later, c)
  {
    hide ItemBytes, NoneAged;
    assert WithHit(items, key, now)[i..] == WithHit(items[i..], key, now);
    SameBytesWithHit(items[i..], key, now);
    SameAgesWithHit(items[i..], key, now, later, c.maxAge);
  }

  lemma FitsEarlier(items: seq<Item>, now: int, later: int, c: Config)
    requires Fits(items, later, c) && now <= later
    ensures Fits(items, now, c)
  {
  }

  /** A hit leaves the key where it was, and later it is present exactly when it would have been without the request. */
  lemma PresentAfterHit(items: seq<Item>, key: nat, now: int, later: int, c: Config)
    requires DistinctKeys(items) && now <= later && Present(items, key, now, c)
    ensures var r := WithHit(Kept(items, now, c), key, now);
            && DistinctKeys(r) && Place(r, key) < |r| && r[Place(r, key)] == items[Place(items, key)].(lastHit := Some(now))
            && (Present(r, key, later, c) <==> Present(items, key, later, c))
  {
    hide Fits, FirstIndex, DistinctKeys, Place, Kept;
    var kept, p := Kept(items, now, c), Place(items, key);
    var cut := |items| - |kept|;
    assert cut <= p;
    KeptKeys(items, cut);
    PlaceIs(items, cut, key);
    HitInPlace(kept, p - cut, key, now);
    var r := WithHit(kept, key, now);
    SameFitWithHit(kept, key, now, later, c, p - cut);
    assert kept[p - cut..] == items[p..];
  }

  lemma HitInPlace(items: seq<Item>, i: nat, key: nat, now: int)
    requires DistinctKeys(items) && i < |items| && items[i].key == key
    ensures var r := WithHit(items, key, now); DistinctKeys(r) && Place(r, key) == i && r[i] == items[i].(lastHit := Some(now))
  {
    hide FirstIndex, Place;
    var r := WithHit(items, key, now);
    SameKeys(items, r);
    PlaceAt(r, i, key);
  }

  lemma PlaceAt(items: seq<Item>, i: nat, key: nat)
    requires DistinctKeys(items) && i < |items| && items[i].key == key
    ensures Place(items, key) == i
  {
    hide FirstIndex;
  }

  lemma SameKeys(a: seq<Item>, b: seq<Item>)
    requires DistinctKeys(a) && |a| == |b| && forall i :: 0 <= i < |a| ==> a[i].key == b[i].key
    ensures DistinctKeys(b)
  {
  }

  lemma KeptKeys(items: seq<Item>, cut: nat)
    requires DistinctKeys(items) && cut <= |items|
    ensures DistinctKeys(items[cut..])
  {
  }

  lemma PlaceIs(items: seq<Item>, cut: nat, key: nat)
    requires DistinctKeys(items) && cut <= Place(items, key) < |items|
    ensures Place(items[cut..], key) == Place(items, key) - cut
  {
    hide FirstIndex;
    KeptKeys(items, cut);
    PlaceAt(items[cut..], Place(items, key) - cut, key);
  }

  /** Pruning does not move what it keeps. */
  lemma AnswerPresent(items: seq<Item>, key: nat, now: int, c: Config)
    requires DistinctKeys(items) && Present(items, key, now, c)
    ensures var x := items[Place(items, key)];
            Answer(Kept(items, now, c), key, now, c) ==
            if x.lastHit.Some? && now - x.lastHit.value < c.minInterval then Suppressed else Hit(x.packet)
  {
    hide Fits, FirstIndex, DistinctKeys, Place, Kept;
    var kept, p := Kept(items, now, c), Place(items, key);
    var cut := |items| - |kept|;
    assert cut <= p;
    PlaceIs(items, cut, key);
  }

  /**
   A second request for a packet that was just sent again: missed exactly when the packet no longer
   fits, suppressed exactly within the minimum interval, and otherwise the same packet once more.
   */
  lemma AskedAgain(items: seq<Item>, key: nat, now: int, later: int, c: Config)
    requires DistinctKeys(items) && now <= later && Answer(Kept(items, now, c), key, now, c).Hit?
    ensures var first := Answer(Kept(items, now, c), key, now, c);
            Answer(Kept(Answered(Kept(items, now, c), key, now, c), later, c), key, later, c) ==
            if !Present(items, key, later, c) then Miss else if later - now < c.minInterval then Suppressed else first
  {
    hide Fits, Kept, FirstIndex, DistinctKeys, Answer, Present, Place, WithHit;
    MissIff(items, key, now, c);
    PresentAfterHit(items, key, now, later, c);
    AnswerPresent(items, key, now, c);
    var r := WithHit(Kept(items, now, c), key, now);
    if Present(items, key, later, c) {
      AnswerPresent(r, key, later, c);
    } else {
      MissIff(r, key, later, c);
    }
  }

  /** The packet just remembered is answered with itself exactly when it fits the byte limit on its own. */
  lemma NewestSurvives(items: seq<Item>, packet: Packet, now: int, c: Config)
    requires packet.bytes != [] && packet.ssrc != 0 && c.maxAge >= 0 && c.maxPackets > 0
    ensures var r := Written(items, packet, now, c);
            if |packet.bytes| <= c.maxBytes then
              r != [] && r[|r| - 1] == Item(MakeKey(packet.ssrc, packet.sequence), packet.(storedAt := now), None)
            else r == []
  {
    var key := MakeKey(packet.ssrc, packet.sequence);
    var last := Item(key, packet.(storedAt := now), None);
    var all := WithoutKey(Kept(items, now, c), key) + [last];
    var n := |all| - 1;
    assert all[n..] == [last] && [last][1..] == [];
    assert ItemBytes([last]) == |packet.bytes|;
    assert Fits(all[n..], now, c) <==> |packet.bytes| <= c.maxBytes;
    hide Fits, WithoutKey, ItemBytes;
    var r := Kept(all, now, c);
    if |packet.bytes| <= c.maxBytes {
      assert r[|r| - 1] == all[n];
    }
  }

  // ----- what a write does to the others -----

  lemma {:induction false} WithoutKeyElements(items: seq<Item>, key: nat)
    ensures forall x :: x in WithoutKey(items, key) <==> x in items && x.key != key
  {
    if items != [] {
      WithoutKeyElements(items[1..], key);
      assert forall x :: x in items <==> x == items[0] || x in items[1..];
    }
  }

  lemma {:induction false} WithoutKeyDistinct(items: seq<Item>, key: nat)
    requires DistinctKeys(items)
    ensures DistinctKeys(WithoutKey(items, key))
  {
    if items != [] {
      assert forall i :: 0 <= i < |items| - 1 ==> items[1..][i] == items[i + 1];
      WithoutKeyDistinct(items[1..], key);
      var rest := WithoutKey(items[1..], key);
      WithoutKeyElements(items[1..], key);
      forall j | 0 <= j < |rest|
        ensures rest[j].key != items[0].key
      {
        assert rest[j] in items[1..];
      }
    }
  }

  /** Taking one key out leaves the order of the others: from each of them on, the rest is the rest without the key. */
  lemma {:induction false} WithoutKeyFrom(items: seq<Item>, key: nat, p: nat) returns (q: nat)
    requires p < |items| && items[p].key != key
    ensures var r := WithoutKey(items, key); q < |r| && r[q] == items[p] && r[q..] == WithoutKey(items[p..], key)
  {
    if p == 0 {
      q := 0;
      assert items[0..] == items;
    } else {
      var before := WithoutKeyFrom(items[1..], key, p - 1);
      assert items[1..][p - 1..] == items[p..];
      if items[0].key == key {
        q := before;
        assert WithoutKey(items, key) == WithoutKey(items[1..], key);
      } else {
        q := before + 1;
        assert WithoutKey(items, key) == [items[0]] + WithoutKey(items[1..], key);
      }
    }
  }

  /** The writes from `p` on, with the packet written last. */
  ghost function WithLast(items: seq<Item>, p: nat, packet: Packet, now: int): seq<Item>
    requires p <= |items|
  {
    var key := MakeKey(packet.ssrc, packet.sequence);
    WithoutKey(items[p..], key) + [Item(key, packet.(storedAt := now), None)]
  }

  lemma LastIsDistinct(items: seq<Item>, cut: nat, packet: Packet, now: int)
    requires DistinctKeys(items) && cut <= |items|
    ensures DistinctKeys(WithLast(items, cut, packet, now))
  {
    var key := MakeKey(packet.ssrc, packet.sequence);
    KeptKeys(items, cut);
    WithoutKeyDistinct(items[cut..], key);
    WithoutKeyElements(items[cut..], key);
    var rest := WithoutKey(items[cut..], key);
    forall i | 0 <= i < |rest|
      ensures rest[i].key != key
    {
      assert rest[i] in rest;
    }
  }

  /**
   Another key that was cached is cached after a write exactly when the writes from its own on fit the
   limits both before and with the packet written last; its packet and its last hit are as they were.
   */
  lemma OthersAfterWrite(items: seq<Item>, packet: Packet, now: int, c: Config, other: nat)
    requires DistinctKeys(items) && packet.bytes != [] && packet.ssrc != 0
    requires other != MakeKey(packet.ssrc, packet.sequence) && Place(items, other) < |items|
    ensures var r, p := Written(items, packet, now, c), Place(items, other);
            && (Place(r, other) < |r| <==> Fits(items[p..], now, c) && Fits(WithLast(items, p, packet, now), now, c))
            && (Place(r, other) < |r| ==> r[Place(r, other)] == items[p])
  {
    hide Fits, Kept, FirstIndex, DistinctKeys, Place, MakeKey, WithoutKey;
    var p, key := Place(items, other), MakeKey(packet.ssrc, packet.sequence);
    var cut := |items| - |Kept(items, now, c)|;
    var all := WithLast(items, cut, packet, now);
    LastIsDistinct(items, cut, packet, now);
    KeptKeys(items, cut);
    PlaceInSuffix(items, cut, other);
    if cut <= p {
      var q := WithoutKeyFrom(items[cut..], key, p - cut);
      assert items[cut..][p - cut..] == items[p..];
      assert all[q..] == WithLast(items, p, packet, now);
      PlaceAt(all, q, other);
      var last := |all| - |Kept(all, now, c)|;
      PlaceInSuffix(all, last, other);
      if last <= q {
        PlaceIs(all, last, other);
      }
    } else {
      NotInSuffix(items, cut, other, p);
      WithoutKeyElements(items[cut..], key);
      NotAmong(all, other, WithoutKey(items[cut..], key), key);
      var last := |all| - |Kept(all, now, c)|;
      PlaceInSuffix(all, last, other);
    }
  }

  lemma NotInSuffix(items: seq<Item>, cut: nat, other: nat, p: nat)
    requires DistinctKeys(items) && p < cut <= |items| && items[p].key == other
    ensures forall x :: x in items[cut..] ==> x.key != other
  {
  }

  lemma NotAmong(all: seq<Item>, other: nat, front: seq<Item>, key: nat)
    requires |all| == |front| + 1 && all[..|front|] == front && all[|front|].key == key != other
    requires forall x :: x in front ==> x.key != other
    ensures Place(all, other) == |all|
  {
    hide FirstIndex;
    forall i | 0 <= i < |all|
      ensures all[i].key != other
    {
      if i < |front| {
        assert all[i] == front[i] && front[i] in front;
      }
    }
  }

  // ----- entries and queue represent it -----

  lemma {:induction false} SameBytes(entries: map<nat, Entry>, keys: seq<nat>)
    requires AllIn(keys, entries)
    ensures ItemBytes(ItemsOf(entries, keys)) == Bytes(entries, keys)
  {
    if keys != [] {
      SameBytes(entries, keys[1..]);
      assert ItemsOf(entries, keys)[1..] == ItemsOf(entries, keys[1..]);
    }
  }

  lemma ItemsSuffix(all: map<nat, Entry>, keys: seq<nat>, entries: map<nat, Entry>, n: nat)
    requires n <= |keys| && AllIn(keys, all) && Held(all, keys, n, entries)
    ensures AllIn(keys[n..], entries)
    ensures ItemsOf(entries, keys[n..]) == ItemsOf(all, keys)[n..]
  {
  }

  lemma {:induction false} ItemsWithout(entries: map<nat, Entry>, keys: seq<nat>, key: nat)
    requires AllIn(keys, entries)
    ensures AllIn(Without(keys, key), entries)
    ensures ItemsOf(entries, Without(keys, key)) == WithoutKey(ItemsOf(entries, keys), key)
  {
    hide ItemsOf;
    ItemsFirst(entries, keys);
    if keys != [] {
      ItemsWithout(entries, keys[1..], key);
      var rest := Without(keys[1..], key);
      if keys[0] == key {
        assert Without(keys, key) == rest;
      } else {
        assert Without(keys, key) == [keys[0]] + rest;
        ItemsFirst(entries, [keys[0]] + rest);
      }
    }
  }

  lemma ItemsFirst(entries: map<nat, Entry>, keys: seq<nat>)
    requires AllIn(keys, entries)
    ensures keys == [] ==> ItemsOf(entries, keys) == []
    ensures keys != [] ==>
              && AllIn(keys[1..], entries)
              && ItemsOf(entries, keys)[1..] == ItemsOf(entries, keys[1..])
              && ItemsOf(entries, keys) == [Item(keys[0], entries[keys[0]].packet, entries[keys[0]].lastSentAt)] + ItemsOf(entries, keys[1..])
  {
  }

  lemma ItemsInserted(entries: map<nat, Entry>, keys: seq<nat>, key: nat, e: Entry)
    requires AllIn(keys, entries)
    ensures var after := Without(keys, key) + [key];
            && AllIn(after, entries[key := e])
            && ItemsOf(entries[key := e], after) == WithoutKey(ItemsOf(entries, keys), key) + [Item(key, e.packet, e.lastSentAt)]
  {
    ItemsWithout(entries, keys, key);
    WithoutElements(keys, key);
    var kept := Without(keys, key);
    hide Without, WithoutKey;
    assert forall i :: 0 <= i < |kept| ==> kept[i] in kept;
    assert ItemsOf(entries[key := e], kept + [key]) == ItemsOf(entries, kept) + [Item(key, e.packet, e.lastSentAt)];
  }

  lemma ItemsHit(entries: map<nat, Entry>, keys: seq<nat>, key: nat, now: int)
    requires key in entries && AllIn(keys, entries)
    ensures ItemsOf(entries[key := entries[key].(lastSentAt := Some(now))], keys) == WithHit(ItemsOf(entries, keys), key, now)
  {
  }

  /** A suffix that starts at an aged write does not fit, nor does one that is over a capacity limit. */
  lemma PrunedExactly(all: map<nat, Entry>, keys: seq<nat>, aged: nat, mid: map<nat, Entry>, excess: nat, now: int, c: Config)
    requires aged + excess <= |keys| && AllIn(keys, all)
    requires AgedIs(all, keys, aged, now, c.maxAge) && Held(all, keys, aged, mid)
    requires AllIn(keys[aged..], mid) && OverUpTo(mid, keys[aged..], excess, c)
    requires var n := aged + excess; |keys| - n <= c.maxPackets && Bytes(mid, keys[aged..][excess..]) <= c.maxBytes
    ensures Kept(ItemsOf(all, keys), now, c) == ItemsOf(all, keys)[aged + excess..]
    ensures AgedCount(ItemsOf(all, keys), now, c.maxAge) == aged
  {
    hide Bytes, ItemBytes, Kept, AgedCount;
    var items, n := ItemsOf(all, keys), aged + excess;
    assert forall i :: 0 <= i < |keys| ==> (i < aged <==> now - items[i].packet.storedAt > c.maxAge);
    forall i | 0 <= i < n
      ensures !Fits(items[i..], now, c)
    {
      if i < aged {
        assert Aged(all, keys[i], now, c.maxAge);
        assert items[i..][0] == items[i];
      } else {
        SuffixBytes(all, keys, mid, aged, i - aged);
        assert OverLimit(mid, keys[aged..], i - aged, c);
      }
    }
    SuffixBytes(all, keys, mid, aged, excess);
    assert forall i :: n <= i < |keys| ==> !Aged(all, keys[i], now, c.maxAge);
    KeptAt(items, now, c, n);
    AgedPrefix(items, now, c.maxAge, aged);
  }

  lemma {:induction false} AgedPrefix(items: seq<Item>, now: int, maxAge: int, aged: nat)
    requires aged <= |items| && forall i :: 0 <= i < |items| ==> (i < aged <==> now - items[i].packet.storedAt > maxAge)
    ensures AgedCount(items, now, maxAge) == aged
  {
    if items != [] && aged > 0 {
      AgedPrefix(items[1..], now, maxAge, aged - 1);
    }
  }

  lemma SuffixBytes(all: map<nat, Entry>, keys: seq<nat>, mid: map<nat, Entry>, aged: nat, i: nat)
    requires aged + i <= |keys| && AllIn(keys, all)
    requires Held(all, keys, aged, mid) && AllIn(keys[aged..], mid)
    ensures ItemBytes(ItemsOf(all, keys)[aged + i..]) == Bytes(mid, keys[aged..][i..])
  {
    hide Bytes, ItemBytes;
    assert keys[aged..][i..] == keys[aged + i..];
    ItemsSuffix(all, keys, mid, aged + i);
    SameBytes(mid, keys[aged + i..]);
  }

  class Cache {
    const config: Config
    var entries: map<nat, Entry>
    var order: seq<Write>
    var byteCount: nat
    var nextSerial: nat
    var inserted: nat
    var replaced: nat
    var evictedAge: nat
    var evictedCapacity: nat
    /** The latest time seen, the last packet written under each key, and the last hit since that write. */
    ghost var past: Past

    ghost function Keys(): (keys: seq<nat>)
      reads this
    {
      Live(entries, order)
    }

    /** The cache as the ordered map it stands for. */
    ghost function Items(): (items: seq<Item>)
      reads this
    {
      ItemsOf(entries, Keys())
    }

    ghost function Fields(): State
      reads this
    {
      State(entries, order, byteCount, nextSerial, inserted, evictedAge + evictedCapacity)
    }

    ghost predicate Valid()
      reads this
    {
      config == Normalised(config) && Inv(Fields(), past)
    }

    ghost predicate WithinLimits(now: int)
      reads this
    {
      && |entries| <= config.maxPackets && byteCount <= config.maxBytes
      && Young(entries, now, config.maxAge)
    }

    constructor (c: Config, ghost now: int)
      ensures Valid() && entries == map[] && config == Normalised(c) && past == Past(now, map[], map[])
    {
      hide Inv;
      config := Normalised(c);
      EmptyInv(Past(now, map[], map[]));
      entries, order, byteCount, nextSerial := map[], [], 0, 1;
      inserted, replaced, evictedAge, evictedCapacity := 0, 0, 0, 0;
      past := Past(now, map[], map[]);
    }

    method EraseEntry(key: nat, age: bool)
      requires key in entries ==> |entries[key].packet.bytes| <= byteCount
      modifies this`entries, this`byteCount, this`evictedAge, this`evictedCapacity
      ensures entries == old(entries) - {key}
      ensures key in old(entries) ==>
                && byteCount == old(byteCount) - |old(entries)[key].packet.bytes|
                && evictedAge == old(evictedAge) + (if age then 1 else 0)
                && evictedCapacity == old(evictedCapacity) + (if age then 0 else 1)
      ensures key !in old(entries) ==>
                byteCount == old(byteCount) && evictedAge == old(evictedAge) && evictedCapacity == old(evictedCapacity)
    {
      if key !in entries {
        assert entries - {key} == entries;
        return;
      }
      byteCount := byteCount - |entries[key].packet.bytes|;
      entries := entries - {key};
      if age {
        evictedAge := evictedAge + 1;
      } else {
        evictedCapacity := evictedCapacity + 1;
      }
    }

    /** Aged entries are exactly the oldest writes, and they all go. */
    method PruneAged(now: int) returns (ghost gone: nat)
      requires Core(entries, order, nextSerial, byteCount)
      requires TimesOrdered(entries, Keys(), now)
      modifies this`entries, this`order, this`byteCount, this`evictedAge, this`evictedCapacity
      ensures Evicted(old(entries), old(Keys()), gone, entries, order, nextSerial, byteCount)
      ensures AgedIs(old(entries), old(Keys()), gone, now, config.maxAge)
      ensures evictedAge == old(evictedAge) + gone && evictedCapacity == old(evictedCapacity)
    {
      hide Core, Live, Evicted;
      gone := 0;
      EvictNothing(entries, order, nextSerial, byteCount);
      ghost var all, keys := entries, Keys();
      while order != []
        invariant Evicted(all, keys, gone, entries, order, nextSerial, byteCount)
        invariant gone <= |keys| && forall i :: 0 <= i < gone ==> Aged(all, keys[i], now, config.maxAge)
        invariant evictedAge == old(evictedAge) + gone && evictedCapacity == old(evictedCapacity)
        decreases |order|
      {
        var oldest := order[0];
        if oldest.key !in entries || entries[oldest.key].serial != oldest.serial {
          SkipStale(all, keys, gone, entries, order, nextSerial, byteCount);
          order := order[1..];
          continue;
        }
        EvictOne(all, keys, gone, entries, order, nextSerial, byteCount);
        if now - entries[oldest.key].packet.storedAt <= config.maxAge {
          return;
        }
        order := order[1..];
        EraseEntry(oldest.key, true);
        gone := gone + 1;
      }
      EmptyQueue(all, keys, gone, entries, nextSerial, byteCount);
    }

    /** Evicts oldest writes first, and no more of them than the limits ask for. */
    method PruneExcess() returns (ghost gone: nat)
      requires Core(entries, order, nextSerial, byteCount)
      modifies this`entries, this`order, this`byteCount, this`evictedAge, this`evictedCapacity
      ensures Evicted(old(entries), old(Keys()), gone, entries, order, nextSerial, byteCount)
      ensures |entries| <= config.maxPackets && byteCount <= config.maxBytes
      ensures OverUpTo(old(entries), old(Keys()), gone, config)
      ensures evictedAge == old(evictedAge) && evictedCapacity == old(evictedCapacity) + gone
    {
      hide Core, Live, Evicted, OverUpTo, AllIn;
      gone := 0;
      EvictNothing(entries, order, nextSerial, byteCount);
      ghost var all, keys := entries, Keys();
      OverNothing(all, keys, config);
      while |entries| > config.maxPackets || byteCount > config.maxBytes
        invariant Evicted(all, keys, gone, entries, order, nextSerial, byteCount)
        invariant OverUpTo(all, keys, gone, config)
        invariant evictedAge == old(evictedAge) && evictedCapacity == old(evictedCapacity) + gone
        decreases |order|
      {
        if order == [] {
          EmptyQueue(all, keys, gone, entries, nextSerial, byteCount);
          assert false;
          break;
        }
        var oldest := order[0];
        if oldest.key !in entries || entries[oldest.key].serial != oldest.serial {
          SkipStale(all, keys, gone, entries, order, nextSerial, byteCount);
          order := order[1..];
          continue;
        }
        EvictOne(all, keys, gone, entries, order, nextSerial, byteCount);
        OverOneMore(all, keys, gone, entries, order, nextSerial, byteCount, config);
        order := order[1..];
        EraseEntry(oldest.key, false);
        gone := gone + 1;
      }
    }

    /** Exactly the longest run of latest writes that fits the limits stays; the rest is counted by cause. */
    method Prune(now: int)
      requires Valid() && past.clock <= now
      modifies this
      ensures Valid() && past.clock == now && WithinLimits(now)
      ensures Items() == Kept(old(Items()), now, config)
      ensures evictedAge == old(evictedAge) + AgedCount(old(Items()), now, config.maxAge)
      ensures evictedAge + evictedCapacity == old(evictedAge + evictedCapacity) + |old(Items())| - |Items()|
      ensures SubMap(entries, old(entries))
      ensures past.written == old(past.written) && past.lastHit == old(past.lastHit) && nextSerial == old(nextSerial)
      ensures inserted == old(inserted) && replaced == old(replaced)
    {
      hide Core, Live, Evicted, TimesOrdered, Mirrors, AgedIs, OverUpTo, AllIn, SubMap, Young, ItemsOf, Kept, AgedCount, Inv, Normalised, Fits, Aged, OverLimit;
      InvParts(Fields(), past);
      ghost var all, keys := entries, Keys();
      ClockAdvances(all, keys, past.clock, now);
      past := past.(clock := now);
      var aged := PruneAged(now);
      ghost var mid, midOrder, midBytes := entries, order, byteCount;
      EvictedCore(all, keys, aged, mid, midOrder, nextSerial, midBytes);
      var excess := PruneExcess();
      PruneSummary(all, keys, aged, mid, midOrder, midBytes, excess, entries, order, byteCount, nextSerial, past, config);
      InvFrom(Fields(), past);
    }

    /** Prune, write the packet last, prune again. */
    method Remember(packet: Packet, now: int)
      requires Valid() && past.clock <= now
      modifies this
      ensures Valid()
      ensures Items() == Written(old(Items()), packet, now, config)
      ensures inserted + replaced == old(inserted + replaced) + (if packet.bytes == [] || packet.ssrc == 0 then 0 else 1)
      ensures packet.bytes == [] || packet.ssrc == 0 ==>
                entries == old(entries) && order == old(order) && past.written == old(past.written) && past.lastHit == old(past.lastHit)
      ensures past.clock == if packet.bytes == [] || packet.ssrc == 0 then old(past.clock) else now
      ensures packet.bytes != [] && packet.ssrc != 0 ==>
                var key := MakeKey(packet.ssrc, packet.sequence);
                && WithinLimits(now)
                && past.written == old(past.written)[key := packet.(storedAt := now)] && past.lastHit == old(past.lastHit) - {key}
    {
      hide Inv, Live, Without, ItemsOf, Kept, WithoutKey, Fits, MakeKey, Normalised, Young, SubMap, AllIn, AgedCount;
      if packet.bytes == [] || packet.ssrc == 0 {
        return;
      }
      Prune(now);
      Insert(MakeKey(packet.ssrc, packet.sequence), packet.(storedAt := now));
      Prune(now);
    }

    method Insert(key: nat, packet: Packet)
      requires Valid() && packet.storedAt == past.clock
      modifies this
      ensures Valid() && past.clock == old(past.clock)
      ensures entries == old(entries)[key := Entry(packet, old(nextSerial), None)]
      ensures Items() == WithoutKey(old(Items()), key) + [Item(key, packet, None)]
      ensures past.written == old(past.written)[key := packet] && past.lastHit == old(past.lastHit) - {key}
      ensures evictedAge == old(evictedAge) && evictedCapacity == old(evictedCapacity)
      ensures inserted == old(inserted) + (if key in old(entries) then 0 else 1) && replaced == old(replaced) + (if key in old(entries) then 1 else 0)
    {
      hide Inv, Live, Without, ItemsOf, WithoutKey, Normalised, AllIn;
      InsertKeepsInv(Fields(), past, key, packet);
      ItemsInserted(entries, Keys(), key, Entry(packet, nextSerial, None));
      if key in entries {
        byteCount := byteCount - |entries[key].packet.bytes|;
        replaced := replaced + 1;
      } else {
        inserted := inserted + 1;
      }
      byteCount := byteCount + |packet.bytes|;
      entries := entries[key := Entry(packet, nextSerial, None)];
      order := order + [Write(key, nextSerial)];
      nextSerial := nextSerial + 1;
      past := past.(written := past.written[key := packet], lastHit := past.lastHit - {key});
    }

    /**
     Prunes exactly, then answers. A hit is the last packet remembered under the key, and comes no
     sooner than the minimum interval after the previous hit on the same write.
     */
    method LookupForRetransmission(ssrc: U32, sequence: U16, now: int) returns (r: Lookup)
      requires Valid() && past.clock <= now
      modifies this
      ensures Valid() && WithinLimits(now) && past.clock == now && past.written == old(past.written)
      ensures var key, kept := MakeKey(ssrc, sequence), Kept(old(Items()), now, config);
              r == Answer(kept, key, now, config) && Items() == Answered(kept, key, now, config)
      ensures inserted == old(inserted) && replaced == old(replaced)
      ensures evictedAge == old(evictedAge) + AgedCount(old(Items()), now, config.maxAge)
      ensures r.Miss? <==> !Present(old(Items()), MakeKey(ssrc, sequence), now, config)
      ensures var key := MakeKey(ssrc, sequence);
              && (r.Hit? ==> key in past.written && r.packet == past.written[key] && now - r.packet.storedAt <= config.maxAge)
              && (r.Hit? && key in old(past.lastHit) ==> now - old(past.lastHit)[key] >= config.minInterval)
              && (r.Suppressed? ==> key in old(past.lastHit) && now - old(past.lastHit)[key] < config.minInterval)
              && past.lastHit == if r.Hit? then old(past.lastHit)[key := now] else old(past.lastHit)
    {
      hide Inv, Live, ItemsOf, Kept, Answer, WithHit, Fits, AllIn, SubMap, AgedCount, Young, MakeKey, Normalised, Place, Present, DistinctKeys;
      ItemsAreDistinct(Fields(), past);
      var key := MakeKey(ssrc, sequence);
      MissIff(Items(), key, now, config);
      Prune(now);
      AnswerIs(Fields(), past, key, now, config);
      if key !in entries {
        return Miss;
      }
      HitStep(Fields(), past, key, config.maxAge);
      var cached := entries[key];
      if cached.lastSentAt.Some? && now - cached.lastSentAt.value < config.minInterval {
        return Suppressed;
      }
      entries := entries[key := cached.(lastSentAt := Some(now))];
      past := past.(lastHit := past.lastHit[key := now]);
      return Hit(cached.packet);
    }

    method Clear()
      requires Valid()
      modifies this
      ensures Valid() && entries == map[] && order == [] && byteCount == 0 && inserted == 0 && Items() == []
      ensures past == Past(old(past.clock), map[], map[])
    {
      hide Inv;
      past := Past(past.clock, map[], map[]);
      EmptyInv(past);
      entries, order, byteCount, nextSerial := map[], [], 0, 1;
      inserted, replaced, evictedAge, evictedCapacity := 0, 0, 0, 0;
    }
  }

  /** Without its `i` oldest writes the cache would still exceed a limit. */
  ghost predicate OverLimit(all: map<nat, Entry>, keys: seq<nat>, i: nat, config: Config)
    requires i <= |keys| && AllIn(keys, all)
  {
    |keys| - i > config.maxPackets || Bytes(all, keys[i..]) > config.maxBytes
  }

  lemma InvFrom(s: State, h: Past)
    requires Core(s.entries, s.order, s.nextSerial, s.byteCount) && TimesOrdered(s.entries, Live(s.entries, s.order), h.clock)
    requires s.inserted == |s.entries| + s.evicted && Mirrors(s.entries, h.written, h.lastHit)
    ensures Inv(s, h)
  {
  }

  lemma StayYoung(mid: map<nat, Entry>, keys: seq<nat>, excess: nat, entries: map<nat, Entry>, order: seq<Write>, next: nat, bytes: nat, now: int, maxAge: int)
    requires Evicted(mid, keys, excess, entries, order, next, bytes) && Young(mid, now, maxAge)
    ensures excess <= |keys| && Young(entries, now, maxAge)
  {
    hide Core, Live;
  }

  lemma MiddleFacts(all: map<nat, Entry>, keys: seq<nat>, aged: nat, mid: map<nat, Entry>, order: seq<Write>, next: nat, bytes: nat, now: int, maxAge: int)
    requires AllIn(keys, all)
    requires Evicted(all, keys, aged, mid, order, next, bytes) && TimesOrdered(all, keys, now)
    requires AgedIs(all, keys, aged, now, maxAge)
    ensures Core(mid, order, next, bytes) && aged <= |keys| && Live(mid, order) == keys[aged..]
    ensures TimesOrdered(mid, Live(mid, order), now) && Young(mid, now, maxAge)
  {
    hide Core, Live, Evicted, TimesOrdered, Aged;
    EvictedFacts(all, keys, aged, mid, order, next, bytes, now);
    KeptAreYoung(all, keys, aged, mid, order, next, bytes, now, maxAge);
  }

  lemma EvictedCore(all: map<nat, Entry>, keys: seq<nat>, gone: nat, entries: map<nat, Entry>, order: seq<Write>, next: nat, bytes: nat)
    requires Evicted(all, keys, gone, entries, order, next, bytes)
    ensures Core(entries, order, next, bytes)
  {
  }

  /** Everything the two pruning loops leave behind. */
  lemma PruneSummary(all: map<nat, Entry>, keys: seq<nat>, aged: nat, mid: map<nat, Entry>, midOrder: seq<Write>, midBytes: nat, excess: nat,
                     entries: map<nat, Entry>, order: seq<Write>, bytes: nat, next: nat, h: Past, c: Config)
    requires AllIn(keys, all) && TimesOrdered(all, keys, h.clock) && Mirrors(all, h.written, h.lastHit)
    requires Evicted(all, keys, aged, mid, midOrder, next, midBytes) && Evicted(mid, Live(mid, midOrder), excess, entries, order, next, bytes)
    requires AgedIs(all, keys, aged, h.clock, c.maxAge) && OverUpTo(mid, Live(mid, midOrder), excess, c)
    requires |entries| <= c.maxPackets && bytes <= c.maxBytes
    ensures Core(entries, order, next, bytes) && TimesOrdered(entries, Live(entries, order), h.clock) && Mirrors(entries, h.written, h.lastHit)
    ensures SubMap(entries, all) && Young(entries, h.clock, c.maxAge)
    ensures |entries| + aged + excess == |all| && |Live(entries, order)| + aged + excess == |keys|
    ensures ItemsOf(entries, Live(entries, order)) == Kept(ItemsOf(all, keys), h.clock, c)
    ensures AgedCount(ItemsOf(all, keys), h.clock, c.maxAge) == aged
  {
    hide Core, Live, Evicted, TimesOrdered, Mirrors, AgedIs, OverUpTo, AllIn, SubMap, Young, ItemsOf, Kept, AgedCount;
    MiddleFacts(all, keys, aged, mid, midOrder, next, midBytes, h.clock, c.maxAge);
    EvictedTwice(all, keys, aged, mid, midOrder, midBytes, excess, entries, order, bytes, next);
    EvictedFacts(all, keys, aged + excess, entries, order, next, bytes, h.clock);
    StayYoung(mid, Live(mid, midOrder), excess, entries, order, next, bytes, h.clock, c.maxAge);
    PruneIsExact(all, keys, aged, mid, midOrder, midBytes, excess, entries, order, bytes, next, h.clock, c);
    EvictedKeepsMirror(all, entries, h.written, h.lastHit);
  }

  /** Two evictions in a row. */
  lemma EvictedTwice(all: map<nat, Entry>, keys: seq<nat>, aged: nat, mid: map<nat, Entry>, midOrder: seq<Write>, midBytes: nat, excess: nat,
                     entries: map<nat, Entry>, order: seq<Write>, bytes: nat, next: nat)
    requires Evicted(all, keys, aged, mid, midOrder, next, midBytes) && Evicted(mid, Live(mid, midOrder), excess, entries, order, next, bytes)
    ensures Evicted(all, keys, aged + excess, entries, order, next, bytes) && aged + excess <= |keys|
    ensures Live(mid, midOrder) == keys[aged..] && Live(mid, midOrder)[excess..] == keys[aged + excess..]
  {
    hide Core, Live;
    assert keys[aged..][excess..] == keys[aged + excess..];
  }

  lemma EvictedHeld(all: map<nat, Entry>, keys: seq<nat>, gone: nat, entries: map<nat, Entry>, order: seq<Write>, next: nat, bytes: nat)
    requires Evicted(all, keys, gone, entries, order, next, bytes)
    ensures gone <= |keys| && Held(all, keys, gone, entries)
    ensures Live(entries, order) == keys[gone..]
  {
    hide Core;
    SuffixHeld(all, keys, gone, entries, Live(entries, order));
  }

  /** Both pruning loops together leave exactly the longest run of latest writes that fits. */
  lemma PruneIsExact(all: map<nat, Entry>, keys: seq<nat>, aged: nat, mid: map<nat, Entry>, midOrder: seq<Write>, midBytes: nat, excess: nat,
                     entries: map<nat, Entry>, order: seq<Write>, bytes: nat, next: nat, now: int, c: Config)
    requires AllIn(keys, all)
    requires Evicted(all, keys, aged, mid, midOrder, next, midBytes) && Evicted(mid, Live(mid, midOrder), excess, entries, order, next, bytes)
    requires AgedIs(all, keys, aged, now, c.maxAge) && OverUpTo(mid, Live(mid, midOrder), excess, c)
    requires |entries| <= c.maxPackets && bytes <= c.maxBytes
    ensures ItemsOf(entries, Live(entries, order)) == Kept(ItemsOf(all, keys), now, c)
    ensures AgedCount(ItemsOf(all, keys), now, c.maxAge) == aged
  {
    hide Core, Live, Evicted, AgedIs, OverUpTo, AllIn, Held, Bytes, ItemsOf, Kept, AgedCount;
    EvictedTwice(all, keys, aged, mid, midOrder, midBytes, excess, entries, order, bytes, next);
    EvictedHeld(all, keys, aged, mid, midOrder, next, midBytes);
    EvictedHeld(all, keys, aged + excess, entries, order, next, bytes);
    KeptWithin(mid, Live(mid, midOrder), excess, entries, order, next, bytes, c);
    ItemsSuffix(all, keys, entries, aged + excess);
    PrunedExactly(all, keys, aged, mid, excess, now, c);
  }

  lemma KeptWithin(mid: map<nat, Entry>, keys: seq<nat>, excess: nat, entries: map<nat, Entry>, order: seq<Write>, next: nat, bytes: nat, c: Config)
    requires AllIn(keys, mid) && Evicted(mid, keys, excess, entries, order, next, bytes)
    requires |entries| <= c.maxPackets && bytes <= c.maxBytes
    ensures |keys| - excess <= c.maxPackets && Bytes(mid, keys[excess..]) <= c.maxBytes
  {
    hide Live, Bytes;
    EvictedSizes(mid, keys, excess, entries, order, next, bytes);
    CoreFacts(entries, order, next, bytes);
  }

  lemma SuffixHeld(all: map<nat, Entry>, keys: seq<nat>, n: nat, entries: map<nat, Entry>, rest: seq<nat>)
    requires n <= |keys| && rest == keys[n..] && AllIn(rest, entries)
    requires SubMap(entries, all)
    ensures Held(all, keys, n, entries)
  {
    forall i | n <= i < |keys|
      ensures keys[i] in entries
    {
      assert rest[i - n] == keys[i];
    }
  }

  lemma ItemsAreDistinct(s: State, h: Past)
    requires Inv(s, h)
    ensures DistinctKeys(ItemsOf(s.entries, Live(s.entries, s.order)))
  {
    hide Live;
    InvParts(s, h);
    hide Inv;
    CoreFacts(s.entries, s.order, s.nextSerial, s.byteCount);
  }

  /** The map lookup answers for the ordered map. */
  lemma AnswerIs(s: State, h: Past, key: nat, now: int, c: Config)
    requires Inv(s, h)
    ensures var items := ItemsOf(s.entries, Live(s.entries, s.order));
            Answer(items, key, now, c) ==
            if key !in s.entries then Miss
            else if s.entries[key].lastSentAt.Some? && now - s.entries[key].lastSentAt.value < c.minInterval then Suppressed
            else Hit(s.entries[key].packet)
  {
    hide Live;
    InvParts(s, h);
    hide Inv;
    CoreFacts(s.entries, s.order, s.nextSerial, s.byteCount);
    var keys := Live(s.entries, s.order);
    var items := ItemsOf(s.entries, keys);
    var i := Place(items, key);
    if key in s.entries {
      var k :| 0 <= k < |keys| && keys[k] == key;
      assert items[k].key == key;
    }
    if i < |items| {
      assert keys[i] == key;
    }
  }

  /** Everything a hit does. */
  lemma HitStep(s: State, h: Past, key: nat, maxAge: int)
    requires Inv(s, h) && key in s.entries && Young(s.entries, h.clock, maxAge)
    ensures key in h.written && s.entries[key].packet == h.written[key] && h.clock - s.entries[key].packet.storedAt <= maxAge
    ensures s.entries[key].lastSentAt == if key in h.lastHit then Some(h.lastHit[key]) else None
    ensures var n := s.entries[key := s.entries[key].(lastSentAt := Some(h.clock))];
            && Inv(s.(entries := n), h.(lastHit := h.lastHit[key := h.clock]))
            && ItemsOf(n, Live(n, s.order)) == WithHit(ItemsOf(s.entries, Live(s.entries, s.order)), key, h.clock)
            && |n| == |s.entries| && Young(n, h.clock, maxAge)
  {
    HitKeepsInv(s, h, key);
    hide Inv, Live, ItemsOf, WithHit;
    var n := s.entries[key := s.entries[key].(lastSentAt := Some(h.clock))];
    assert n.Keys == s.entries.Keys;
    ItemsHit(s.entries, Live(s.entries, s.order), key, h.clock);
    HitKeepsLive(s.entries, s.order, key, Some(h.clock));
  }

  /** A hit changes nothing but the time of the last hit. */
  lemma {:induction false} HitKeepsLive(entries: map<nat, Entry>, order: seq<Write>, key: nat, at: Option<int>)
    requires key in entries
    ensures Live(entries[key := entries[key].(lastSentAt := at)], order) == Live(entries, order)
  {
    if order != [] {
      HitKeepsLive(entries, order[1..], key, at);
    }
  }

  lemma HitKeepsCore(entries: map<nat, Entry>, order: seq<Write>, next: nat, bytes: nat, clock: int, key: nat, at: Option<int>)
    requires Core(entries, order, next, bytes) && key in entries && TimesOrdered(entries, Live(entries, order), clock)
    ensures var n := entries[key := entries[key].(lastSentAt := at)];
            && Core(n, order, next, bytes) && TimesOrdered(n, Live(n, order), clock)
            && |n| == |entries| && Live(n, order) == Live(entries, order)
  {
    hide Live;
    var n := entries[key := entries[key].(lastSentAt := at)];
    HitKeepsLive(entries, order, key, at);
    BytesSame(entries, n, Live(entries, order));
    assert n.Keys == entries.Keys;
  }

  lemma InsertKeepsMirror(entries: map<nat, Entry>, written: map<nat, Packet>, lastHit: map<nat, int>, key: nat, packet: Packet, serial: nat)
    requires Mirrors(entries, written, lastHit)
    ensures Mirrors(entries[key := Entry(packet, serial, None)], written[key := packet], lastHit - {key})
  {
  }

  lemma EvictedKeepsMirror(all: map<nat, Entry>, entries: map<nat, Entry>, written: map<nat, Packet>, lastHit: map<nat, int>)
    requires Mirrors(all, written, lastHit)
    requires SubMap(entries, all)
    ensures Mirrors(entries, written, lastHit)
  {
  }

  lemma SingleBytes(entries: map<nat, Entry>, key: nat)
    requires key in entries
    ensures Bytes(entries, [key]) == |entries[key].packet.bytes|
  {
    assert [key][1..] == [];
  }

  lemma {:induction false} BytesAtLeast(entries: map<nat, Entry>, keys: seq<nat>, i: nat)
    requires i < |keys| && AllIn(keys, entries)
    ensures |entries[keys[i]].packet.bytes| <= Bytes(entries, keys)
  {
    if i > 0 {
      BytesAtLeast(entries, keys[1..], i - 1);
    }
  }

  lemma ClockAdvances(entries: map<nat, Entry>, keys: seq<nat>, clock: int, now: int)
    requires AllIn(keys, entries)
    requires TimesOrdered(entries, keys, clock) && clock <= now
    ensures TimesOrdered(entries, keys, now)
  {
  }

  lemma EvictedFacts(all: map<nat, Entry>, keys: seq<nat>, gone: nat, entries: map<nat, Entry>, order: seq<Write>, next: nat, bytes: nat, clock: int)
    requires AllIn(keys, all)
    requires Evicted(all, keys, gone, entries, order, next, bytes) && TimesOrdered(all, keys, clock)
    ensures Core(entries, order, next, bytes)
    ensures gone <= |keys| && Live(entries, order) == keys[gone..] && |entries| + gone == |all|
    ensures SubMap(entries, all) && TimesOrdered(entries, Live(entries, order), clock)
  {
    var rest := Live(entries, order);
    forall i | 0 <= i < |rest|
      ensures rest[i] == keys[gone + i] && entries[rest[i]] == all[keys[gone + i]]
    {
      assert rest[i] == keys[gone..][i];
    }
  }

  lemma KeptAreYoung(all: map<nat, Entry>, keys: seq<nat>, gone: nat, entries: map<nat, Entry>, order: seq<Write>, next: nat, bytes: nat, now: int, maxAge: int)
    requires AllIn(keys, all)
    requires Evicted(all, keys, gone, entries, order, next, bytes)
    requires AgedIs(all, keys, gone, now, maxAge)
    ensures Young(entries, now, maxAge)
  {
    CoreFacts(entries, order, next, bytes);
    forall k | k in entries
      ensures now - entries[k].packet.storedAt <= maxAge
    {
      var i :| 0 <= i < |keys[gone..]| && keys[gone..][i] == k;
      assert keys[gone + i] == k;
    }
  }

  /** A write under a fresh serial moves its key to the end of the write order. */
  lemma InsertMovesKey(entries: map<nat, Entry>, order: seq<Write>, next: nat, key: nat, packet: Packet)
    requires SerialsOrdered(order, next)
    ensures Live(entries[key := Entry(packet, next, None)], order + [Write(key, next)]) == Without(Live(entries, order), key) + [key]
  {
    var e := Entry(packet, next, None);
    LiveAfterRewrite(entries, order, key, e);
    LiveSnoc(entries[key := e], order, Write(key, next));
  }

  lemma InsertBytes(entries: map<nat, Entry>, keys: seq<nat>, key: nat, e: Entry)
    requires Distinct(keys) && AllIn(keys, entries)
    requires key in entries <==> key in keys
    ensures var n, after := entries[key := e], Without(keys, key) + [key];
            && AllIn(after, n)
            && Bytes(n, after) == Bytes(entries, keys) - (if key in entries then |entries[key].packet.bytes| else 0) + |e.packet.bytes|
  {
    var n, kept := entries[key := e], Without(keys, key);
    BytesWithout(entries, keys, key);
    WithoutElements(keys, key);
    hide Without;
    assert forall i :: 0 <= i < |kept| ==> kept[i] in kept;
    BytesSame(entries, n, kept);
    BytesAppend(n, kept, [key]);
    SingleBytes(n, key);
  }

  /** A write under a fresh serial keeps the bookkeeping exact. */
  lemma InsertKeepsCore(entries: map<nat, Entry>, order: seq<Write>, next: nat, bytes: nat, key: nat, packet: Packet)
    requires Core(entries, order, next, bytes)
    ensures var e := Entry(packet, next, None);
            var freed := if key in entries then |entries[key].packet.bytes| else 0;
            && freed <= bytes
            && Core(entries[key := e], order + [Write(key, next)], next + 1, bytes - freed + |packet.bytes|)
            && Live(entries[key := e], order + [Write(key, next)]) == Without(Live(entries, order), key) + [key]
            && |entries[key := e]| == |entries| + (if key in entries then 0 else 1)
  {
    hide Live, Without, SerialsOrdered, Recorded, Bytes;
    var e := Entry(packet, next, None);
    CoreFacts(entries, order, next, bytes);
    InsertMovesKey(entries, order, next, key, packet);
    InsertRecorded(entries, order, next, key, packet);
    var keys := Live(entries, order);
    InsertBytes(entries, keys, key, e);
    if key in entries {
      var i :| 0 <= i < |keys| && keys[i] == key;
      BytesAtLeast(entries, keys, i);
    }
    assert entries[key := e].Keys == entries.Keys + {key};
  }

  lemma InsertRecorded(entries: map<nat, Entry>, order: seq<Write>, next: nat, key: nat, packet: Packet)
    requires SerialsOrdered(order, next) && Recorded(entries, order)
    ensures SerialsOrdered(order + [Write(key, next)], next + 1)
    ensures Recorded(entries[key := Entry(packet, next, None)], order + [Write(key, next)])
  {
    var after := order + [Write(key, next)];
    assert after[|order|] == Write(key, next);
    forall w | w in order
      ensures w in after
    {
      var i :| 0 <= i < |order| && order[i] == w;
      assert after[i] == w;
    }
  }

  lemma {:induction false} WithoutKeepsTimes(entries: map<nat, Entry>, keys: seq<nat>, key: nat, clock: int)
    requires AllIn(keys, entries)
    requires TimesOrdered(entries, keys, clock)
    ensures AllIn(Without(keys, key), entries)
    ensures TimesOrdered(entries, Without(keys, key), clock)
  {
    hide TimesOrdered;
    TimesFirst(entries, keys, clock);
    if keys != [] {
      WithoutKeepsTimes(entries, keys[1..], key, clock);
      WithoutElements(keys[1..], key);
      var rest := Without(keys[1..], key);
      if keys[0] == key {
        assert Without(keys, key) == rest;
      } else {
        assert Without(keys, key) == [keys[0]] + rest;
        hide Without;
        FirstIsOldest(entries, keys, rest, clock);
      }
    }
  }

  lemma TimesFirst(entries: map<nat, Entry>, keys: seq<nat>, clock: int)
    requires AllIn(keys, entries) && TimesOrdered(entries, keys, clock)
    ensures keys != [] ==> AllIn(keys[1..], entries) && TimesOrdered(entries, keys[1..], clock)
    ensures TimesOrdered(entries, [], clock)
  {
  }

  lemma FirstIsOldest(entries: map<nat, Entry>, keys: seq<nat>, rest: seq<nat>, clock: int)
    requires keys != [] && AllIn(keys, entries) && TimesOrdered(entries, keys, clock)
    requires AllIn(rest, entries) && TimesOrdered(entries, rest, clock) && forall k :: k in rest ==> k in keys[1..]
    ensures AllIn([keys[0]] + rest, entries) && TimesOrdered(entries, [keys[0]] + rest, clock)
  {
    forall i | 0 <= i < |rest|
      ensures entries[keys[0]].packet.storedAt <= entries[rest[i]].packet.storedAt
    {
      assert rest[i] in keys[1..];
      var j :| 0 <= j < |keys[1..]| && keys[1..][j] == rest[i];
      assert keys[j + 1] == rest[i];
    }
  }

  lemma InsertKeepsTimes(entries: map<nat, Entry>, keys: seq<nat>, clock: int, key: nat, e: Entry)
    requires AllIn(keys, entries)
    requires TimesOrdered(entries, keys, clock) && e.packet.storedAt == clock
    ensures AllIn(Without(keys, key) + [key], entries[key := e])
    ensures TimesOrdered(entries[key := e], Without(keys, key) + [key], clock)
  {
    WithoutKeepsTimes(entries, keys, key, clock);
    WithoutElements(keys, key);
    hide Without;
    var kept := Without(keys, key);
    assert forall i :: 0 <= i < |kept| ==> kept[i] in kept;
  }

  lemma EvictedSizes(all: map<nat, Entry>, keys: seq<nat>, gone: nat, entries: map<nat, Entry>, order: seq<Write>, next: nat, bytes: nat)
    requires Evicted(all, keys, gone, entries, order, next, bytes)
    ensures |entries| == |all| - gone
    ensures forall i :: gone <= i < |keys| ==> keys[i] in all
    ensures bytes == Bytes(all, keys[gone..])
  {
    BytesSame(entries, all, keys[gone..]);
    forall i | gone <= i < |keys|
      ensures keys[i] in all
    {
      assert keys[i] == keys[gone..][i - gone];
    }
  }
}
