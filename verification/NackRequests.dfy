/**
 All requests of one RTCP packet (`handle_generic_nacks` in `session/whep_session_transport.cpp`): each
 number is looked up once, for primary outputs only, and at most 256 packets are sent again.
 */
module NackRequests {
  import opened Wire
  import opened RetransmissionCache

  const LIMIT: nat := 256

  datatype Request = Request(ssrc: U32, sequence: U16)

  function KeyOf(r: Request): nat {
    MakeKey(r.ssrc, r.sequence)
  }

  /** The request names a primary output. */
  predicate Asks(r: Request, outputs: set<U32>) {
    r.ssrc != 0 && r.ssrc in outputs
  }

  /** The packets to send again with the keys they were asked for under, and what became of the other requests. */
  datatype Batch = Batch(keys: seq<nat>, packets: seq<Packet>, repeated: nat, ignored: nat, limited: nat, missed: nat, suppressed: nat)

  const NO_REQUESTS: Batch := Batch([], [], 0, 0, 0, 0, 0)

  function Added(b: Batch, key: nat, answer: Lookup): Batch {
    match answer
    case Hit(packet) => b.(keys := b.keys + [key], packets := b.packets + [packet])
    case Miss => b.(missed := b.missed + 1)
    case Suppressed => b.(suppressed := b.suppressed + 1)
  }

  /** The batch, with every request answered as if it were the only one. */
  ghost function Gathered(items: seq<Item>, requests: seq<Request>, outputs: set<U32>, now: int, c: Config): (b: Batch)
    ensures |b.keys| == |b.packets| <= LIMIT
  {
    if requests == [] then NO_REQUESTS
    else
      var n := |requests| - 1;
      var b, r := Gathered(items, requests[..n], outputs, now, c), requests[n];
      if r in requests[..n] then b.(repeated := b.repeated + 1)
      else if !Asks(r, outputs) then b.(ignored := b.ignored + 1)
      else if |b.packets| >= LIMIT then b.(limited := b.limited + 1)
      else Added(b, KeyOf(r), Answer(items, KeyOf(r), now, c))
  }

  /** Every hit leaves its time. */
  ghost function Marked(items: seq<Item>, keys: seq<nat>, now: int): (r: seq<Item>)
    ensures |r| == |items|
  {
    if keys == [] then items else WithHit(Marked(items, keys[..|keys| - 1], now), keys[|keys| - 1], now)
  }

  ghost function HitAt(lastHit: map<nat, int>, keys: seq<nat>, now: int): map<nat, int> {
    if keys == [] then lastHit else HitAt(lastHit, keys[..|keys| - 1], now)[keys[|keys| - 1] := now]
  }

  lemma {:induction false} MarkedOneMore(items: seq<Item>, lastHit: map<nat, int>, keys: seq<nat>, key: nat, now: int)
    ensures Marked(items, keys + [key], now) == WithHit(Marked(items, keys, now), key, now)
    ensures HitAt(lastHit, keys + [key], now) == HitAt(lastHit, keys, now)[key := now]
  {
    hide WithHit;
    assert (keys + [key])[..|keys|] == keys;
  }

  lemma AnswerOfOthers(items: seq<Item>, marked: nat, key: nat, now: int, c: Config)
    requires marked != key
    ensures Answer(WithHit(items, marked, now), key, now, c) == Answer(items, key, now, c)
  {
    hide FirstIndex;
    var r := WithHit(items, marked, now);
    assert forall i :: 0 <= i < |items| ==> r[i].key == items[i].key;
    var p, q := Place(items, key), Place(r, key);
    if q < |items| {
      assert items[q].key == key;
    }
    if p < |items| {
      assert r[p].key == key;
    }
    assert p == q;
  }

  /** Hits on other keys change neither the answer for a key nor what fits. */
  lemma {:induction false} MarkedFacts(items: seq<Item>, keys: seq<nat>, key: nat, now: int, c: Config)
    requires key !in keys
    ensures Answer(Marked(items, keys, now), key, now, c) == Answer(items, key, now, c)
    ensures Fits(Marked(items, keys, now), now, c) <==> Fits(items, now, c)
  {
    hide WithHit, Answer, Fits;
    if keys != [] {
      var n := |keys| - 1;
      MarkedFacts(items, keys[..n], key, now, c);
      var front := Marked(items, keys[..n], now);
      AnswerOfOthers(front, keys[n], key, now, c);
      SameFitWithHit(front, keys[n], now, now, c, 0);
      assert WithHit(front, keys[n], now)[0..] == WithHit(front, keys[n], now) && front[0..] == front;
    }
  }

  lemma {:induction false} StillFits(items: seq<Item>, keys: seq<nat>, now: int, c: Config)
    requires Fits(items, now, c)
    ensures Kept(Marked(items, keys, now), now, c) == Marked(items, keys, now)
  {
    hide WithHit, Fits;
    if keys != [] {
      var n := |keys| - 1;
      var front := Marked(items, keys[..n], now);
      StillFits(items, keys[..n], now, c);
      SameFitWithHit(front, keys[n], now, now, c, 0);
      assert WithHit(front, keys[n], now)[0..] == WithHit(front, keys[n], now) && front[0..] == front;
    }
  }

  ghost predicate AnyAsked(requests: seq<Request>, outputs: set<U32>) {
    exists i :: 0 <= i < |requests| && Asks(requests[i], outputs)
  }

  // ----- what a batch is -----

  ghost predicate AmongKeys(key: nat, requests: seq<Request>, outputs: set<U32>) {
    exists i :: 0 <= i < |requests| && KeyOf(requests[i]) == key && requests[i].ssrc != 0 && requests[i].ssrc in outputs
  }

  lemma AmongMore(key: nat, requests: seq<Request>, outputs: set<U32>)
    requires requests != []
    ensures AmongKeys(key, requests, outputs) <==>
            AmongKeys(key, requests[..|requests| - 1], outputs) || (KeyOf(requests[|requests| - 1]) == key && Asks(requests[|requests| - 1], outputs))
  {
    hide KeyOf;
    var n := |requests| - 1;
    assert forall i :: 0 <= i < n ==> requests[..n][i] == requests[i];
    if AmongKeys(key, requests[..n], outputs) {
      var i :| 0 <= i < |requests[..n]| && KeyOf(requests[..n][i]) == key && Asks(requests[..n][i], outputs);
      assert KeyOf(requests[i]) == key;
    }
    if AmongKeys(key, requests, outputs) {
      var i :| 0 <= i < |requests| && KeyOf(requests[i]) == key && Asks(requests[i], outputs);
      if i < n {
        assert KeyOf(requests[..n][i]) == key;
      }
    }
  }

  lemma SameKeySameRequest(r: Request, requests: seq<Request>, outputs: set<U32>)
    requires AmongKeys(KeyOf(r), requests, outputs)
    ensures r in requests
  {
    hide MakeKey;
    var i :| 0 <= i < |requests| && KeyOf(requests[i]) == KeyOf(r) && Asks(requests[i], outputs);
    KeysAreDistinct(requests[i].ssrc, requests[i].sequence, r.ssrc, r.sequence);
  }

  ghost predicate IsHit(items: seq<Item>, key: nat, now: int, c: Config) {
    Answer(items, key, now, c).Hit?
  }

  /**
   What is sent again: no packet twice, each the answer to a request for a primary output, and, unless
   the limit was reached, every such answer. Every request is counted in exactly one way.
   */
  lemma {:induction false} BatchFacts(items: seq<Item>, requests: seq<Request>, outputs: set<U32>, now: int, c: Config)
    ensures var b := Gathered(items, requests, outputs, now, c);
            && (forall i, j :: 0 <= i < j < |b.keys| ==> b.keys[i] != b.keys[j])
            && (forall i :: 0 <= i < |b.keys| ==> AmongKeys(b.keys[i], requests, outputs) && Answer(items, b.keys[i], now, c) == Hit(b.packets[i]))
            && (|b.keys| < LIMIT ==> b.limited == 0)
            && (b.limited == 0 ==> forall key :: AmongKeys(key, requests, outputs) && IsHit(items, key, now, c) ==> key in b.keys)
            && |requests| == |b.keys| + b.repeated + b.ignored + b.limited + b.missed + b.suppressed
  {
    hide Answer, KeyOf, AmongKeys, Asks;
    if requests != [] {
      var n := |requests| - 1;
      var r := requests[n];
      var front := Gathered(items, requests[..n], outputs, now, c);
      var b := Gathered(items, requests, outputs, now, c);
      BatchFacts(items, requests[..n], outputs, now, c);
      forall key
        ensures AmongKeys(key, requests, outputs) <==> AmongKeys(key, requests[..n], outputs) || (KeyOf(r) == key && Asks(r, outputs))
      {
        AmongMore(key, requests, outputs);
      }
      if r in requests[..n] {
        RepeatedKey(r, requests[..n], outputs);
      } else {
        if AmongKeys(KeyOf(r), requests[..n], outputs) {
          SameKeySameRequest(r, requests[..n], outputs);
          assert false;
        }
        KeysStay(front, b, KeyOf(r), items, now, c);
      }
    } else {
      NothingAmong(outputs);
    }
  }

  lemma NothingAmong(outputs: set<U32>)
    ensures forall key :: !AmongKeys(key, [], outputs)
  {
  }

  lemma RepeatedKey(r: Request, requests: seq<Request>, outputs: set<U32>)
    requires r in requests
    ensures Asks(r, outputs) ==> AmongKeys(KeyOf(r), requests, outputs)
  {
    var i :| 0 <= i < |requests| && requests[i] == r;
    assert KeyOf(requests[i]) == KeyOf(r);
  }

  lemma KeysStay(front: Batch, b: Batch, key: nat, items: seq<Item>, now: int, c: Config)
    requires b.keys == front.keys || b.keys == front.keys + [key]
    ensures forall k :: k in front.keys ==> k in b.keys
    ensures b.keys == front.keys + [key] ==> key in b.keys && b.keys[|front.keys|] == key
  {
    if b.keys == front.keys + [key] {
      assert b.keys[|front.keys|] == key;
      forall k | k in front.keys
        ensures k in b.keys
      {
        var i :| 0 <= i < |front.keys| && front.keys[i] == k;
        assert b.keys[i] == k;
      }
    }
  }

  // ----- gathering -----

  /** Each packet is the last one written under its key. */
  ghost predicate LastWritten(b: Batch, written: map<nat, Packet>) {
    |b.keys| == |b.packets| && forall i :: 0 <= i < |b.keys| ==> b.keys[i] in written && b.packets[i] == written[b.keys[i]]
  }

  lemma AddedWritten(b: Batch, written: map<nat, Packet>, key: nat, answer: Lookup)
    requires LastWritten(b, written) && (answer.Hit? ==> key in written && answer.packet == written[key])
    ensures LastWritten(Added(b, key, answer), written)
    ensures Added(b, key, answer).keys == if answer.Hit? then b.keys + [key] else b.keys
  {
  }

  lemma NothingWritten(written: map<nat, Packet>)
    ensures LastWritten(NO_REQUESTS, written)
  {
  }

  lemma SameKeysWritten(b: Batch, d: Batch, written: map<nat, Packet>)
    requires LastWritten(b, written) && b.keys == d.keys && b.packets == d.packets
    ensures LastWritten(d, written)
  {
  }

  lemma NoneMarked(items: seq<Item>, lastHit: map<nat, int>, now: int)
    ensures Marked(items, [], now) == items && HitAt(lastHit, [], now) == lastHit
  {
  }

  lemma NothingGathered(items: seq<Item>, outputs: set<U32>, now: int, c: Config)
    ensures Gathered(items, [], outputs, now, c) == NO_REQUESTS
  {
  }

  lemma GatheredOneMore(items: seq<Item>, requests: seq<Request>, i: nat, outputs: set<U32>, now: int, c: Config)
    requires i < |requests|
    ensures var b, r := Gathered(items, requests[..i], outputs, now, c), requests[i];
            Gathered(items, requests[..i + 1], outputs, now, c) ==
            if r in requests[..i] then b.(repeated := b.repeated + 1)
            else if !Asks(r, outputs) then b.(ignored := b.ignored + 1)
            else if |b.packets| >= LIMIT then b.(limited := b.limited + 1)
            else Added(b, KeyOf(r), Answer(items, KeyOf(r), now, c))
  {
    hide Answer, Added, Asks, KeyOf;
    assert requests[..i + 1][..i] == requests[..i] && requests[..i + 1][i] == requests[i];
  }

  lemma NothingAsked(outputs: set<U32>)
    ensures !AnyAsked([], outputs)
  {
  }

  lemma OneMoreRequest(requests: seq<Request>, i: nat, outputs: set<U32>)
    requires i < |requests|
    ensures AnyAsked(requests[..i + 1], outputs) <==> AnyAsked(requests[..i], outputs) || Asks(requests[i], outputs)
    ensures requests[i] in requests[..i] && Asks(requests[i], outputs) ==> AnyAsked(requests[..i], outputs)
  {
    hide Asks;
    var a, b := requests[..i], requests[..i + 1];
    assert b[i] == requests[i] && forall j :: 0 <= j < i ==> b[j] == a[j];
    if AnyAsked(a, outputs) {
      var j :| 0 <= j < |a| && Asks(a[j], outputs);
      assert Asks(b[j], outputs);
    }
    if AnyAsked(b, outputs) {
      var j :| 0 <= j < |b| && Asks(b[j], outputs);
      if j < i {
        assert Asks(a[j], outputs);
      }
    }
    if Asks(requests[i], outputs) {
      assert Asks(b[i], outputs);
    }
  }

  lemma OneMoreSeen(seen: set<nat>, requests: seq<Request>, i: nat)
    requires i < |requests| && forall r: Request :: KeyOf(r) in seen <==> r in requests[..i]
    ensures forall r: Request :: KeyOf(r) in seen + {KeyOf(requests[i])} <==> r in requests[..i + 1]
    ensures KeyOf(requests[i]) in seen ==> seen + {KeyOf(requests[i])} == seen
  {
    hide MakeKey;
    forall r: Request
      ensures KeyOf(r) == KeyOf(requests[i]) <==> r == requests[i]
    {
      KeysAreDistinct(r.ssrc, r.sequence, requests[i].ssrc, requests[i].sequence);
    }
    assert forall r :: r in requests[..i + 1] <==> r in requests[..i] || r == requests[i];
  }

  /** At the limit something was looked up. */
  lemma PacketsWereAsked(items: seq<Item>, requests: seq<Request>, outputs: set<U32>, now: int, c: Config)
    ensures Gathered(items, requests, outputs, now, c).keys != [] ==> AnyAsked(requests, outputs)
  {
    hide Answer, Gathered, KeyOf;
    BatchFacts(items, requests, outputs, now, c);
    var keys := Gathered(items, requests, outputs, now, c).keys;
    if keys != [] {
      assert AmongKeys(keys[0], requests, outputs);
      var i :| 0 <= i < |requests| && KeyOf(requests[i]) == keys[0] && requests[i].ssrc != 0 && requests[i].ssrc in outputs;
      assert Asks(requests[i], outputs);
    }
  }

  /** A request seen for the first time was not hit before. */
  lemma NotYetAsked(items: seq<Item>, requests: seq<Request>, outputs: set<U32>, now: int, c: Config, r: Request)
    requires r !in requests
    ensures KeyOf(r) !in Gathered(items, requests, outputs, now, c).keys
  {
    hide Answer, Gathered, KeyOf, Asks, AmongKeys;
    BatchFacts(items, requests, outputs, now, c);
    var keys := Gathered(items, requests, outputs, now, c).keys;
    if KeyOf(r) in keys {
      var i :| 0 <= i < |keys| && keys[i] == KeyOf(r);
      SameKeySameRequest(r, requests, outputs);
      assert false;
    }
  }

  lemma AnswerMarks(items: seq<Item>, lastHit: map<nat, int>, keys: seq<nat>, key: nat, now: int, c: Config, after: seq<nat>)
    requires Fits(items, now, c) && key !in keys && after == if Answer(items, key, now, c).Hit? then keys + [key] else keys
    ensures Answered(Marked(items, keys, now), key, now, c) == Marked(items, after, now) == Kept(Marked(items, after, now), now, c)
    ensures HitAt(lastHit, after, now) == if Answer(items, key, now, c).Hit? then HitAt(lastHit, keys, now)[key := now] else HitAt(lastHit, keys, now)
  {
    hide Answer, Fits, Marked, HitAt, WithHit, Kept;
    MarkedFacts(items, keys, key, now, c);
    MarkedOneMore(items, lastHit, keys, key, now);
    StillFits(items, after, now, c);
  }

  /** The loop over the requests, with its set of keys already seen. */
  method Gather(cache: Cache, requests: seq<Request>, outputs: set<U32>, now: int) returns (b: Batch)
    requires cache.Valid() && cache.past.clock <= now
    modifies cache
    ensures cache.Valid() && cache.past.written == old(cache.past.written)
    ensures b == Gathered(Kept(old(cache.Items()), now, cache.config), requests, outputs, now, cache.config)
    ensures cache.Items() ==
            if AnyAsked(requests, outputs) then Marked(Kept(old(cache.Items()), now, cache.config), b.keys, now) else old(cache.Items())
    ensures cache.past.clock == if AnyAsked(requests, outputs) then now else old(cache.past.clock)
    ensures cache.past.lastHit == HitAt(old(cache.past.lastHit), b.keys, now)
    ensures LastWritten(b, cache.past.written)
  {
    hide Inv, ItemsOf, Live, Kept, Answer, Answered, Normalised, MakeKey, Fits, WithHit, Marked, HitAt, Young, Present, AgedCount, LastWritten, AnyAsked, Added, Gathered,
         Current, Core;
    ghost var items, c, hits := Kept(cache.Items(), now, cache.config), cache.config, cache.past.lastHit;
    b := NO_REQUESTS;
    NoneMarked(items, hits, now);
    NothingWritten(cache.past.written);
    NothingAsked(outputs);
    assert Gathered(items, [], outputs, now, c) == b by {
      NothingGathered(items, outputs, now, c);
    }
    assert requests[..0] == [];
    var seen: set<nat> := {};
    for i := 0 to |requests|
      invariant cache.Valid() && cache.past.clock <= now && cache.past.written == old(cache.past.written)
      invariant b == Gathered(items, requests[..i], outputs, now, c)
      invariant forall r: Request :: KeyOf(r) in seen <==> r in requests[..i]
      invariant Kept(cache.Items(), now, c) == Marked(items, b.keys, now)
      invariant cache.Items() == if AnyAsked(requests[..i], outputs) then Marked(items, b.keys, now) else old(cache.Items())
      invariant cache.past.clock == if AnyAsked(requests[..i], outputs) then now else old(cache.past.clock)
      invariant cache.past.lastHit == HitAt(hits, b.keys, now)
      invariant LastWritten(b, cache.past.written)
    {
      var r := requests[i];
      ghost var before := b;
      GatheredOneMore(items, requests, i, outputs, now, c);
      OneMoreRequest(requests, i, outputs);
      OneMoreSeen(seen, requests, i);
      if KeyOf(r) in seen {
        b := b.(repeated := b.repeated + 1);
        SameKeysWritten(before, b, cache.past.written);
        continue;
      }
      seen := seen + {KeyOf(r)};
      if r.ssrc == 0 || r.ssrc !in outputs {
        b := b.(ignored := b.ignored + 1);
        SameKeysWritten(before, b, cache.past.written);
        continue;
      }
      if |b.packets| >= LIMIT {
        b := b.(limited := b.limited + 1);
        PacketsWereAsked(items, requests[..i], outputs, now, c);
        SameKeysWritten(before, b, cache.past.written);
        continue;
      }
      NotYetAsked(items, requests[..i], outputs, now, c, r);
      b := LookUp(cache, r, b, items, hits, now);
    }
    assert requests[..|requests|] == requests;
  }

  /** One lookup of the batch. */
  method LookUp(cache: Cache, r: Request, b: Batch, ghost items: seq<Item>, ghost hits: map<nat, int>, now: int) returns (n: Batch)
    requires cache.Valid() && cache.past.clock <= now && Fits(items, now, cache.config) && KeyOf(r) !in b.keys
    requires Kept(cache.Items(), now, cache.config) == Marked(items, b.keys, now) && cache.past.lastHit == HitAt(hits, b.keys, now)
    requires LastWritten(b, cache.past.written)
    modifies cache
    ensures cache.Valid() && cache.past.clock == now && cache.past.written == old(cache.past.written)
    ensures n == Added(b, KeyOf(r), Answer(items, KeyOf(r), now, cache.config))
    ensures cache.Items() == Marked(items, n.keys, now) == Kept(cache.Items(), now, cache.config)
    ensures cache.past.lastHit == HitAt(hits, n.keys, now) && LastWritten(n, cache.past.written)
  {
    hide Inv, ItemsOf, Live, Kept, Answer, Answered, Normalised, MakeKey, Fits, WithHit, Marked, HitAt, Young, Present, AgedCount, LastWritten, Added;
    MarkedFacts(items, b.keys, KeyOf(r), now, cache.config);
    var found := cache.LookupForRetransmission(r.ssrc, r.sequence, now);
    n := Added(b, KeyOf(r), found);
    AddedWritten(b, cache.past.written, KeyOf(r), found);
    AnswerMarks(items, hits, b.keys, KeyOf(r), now, cache.config, n.keys);
  }
}
