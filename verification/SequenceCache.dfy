/**
 The bounded cache that translates original sequence numbers inside RTX packets
 (`sequence_number_cache` in `media/whep_rtp_rewriter.cpp`): a map with a queue of the last 4096
 writes. What it answers is stated against the full log of writes since the last clear.
 */
module SequenceCache {
  import opened Wire

  const LIMIT: nat := 4096

  datatype Binding = Binding(source: U16, target: U16)

  datatype NumberCache = NumberCache(values: map<U16, U16>, order: seq<Binding>)

  const EMPTY: NumberCache := NumberCache(map[], [])

  function Find(c: NumberCache, source: U16): Option<U16> {
    if source in c.values then Some(c.values[source]) else None
  }

  function Evicted(c: NumberCache): NumberCache
    requires c.order != []
  {
    var oldest := c.order[0];
    NumberCache(if oldest.source in c.values && c.values[oldest.source] == oldest.target then c.values - {oldest.source} else c.values,
          c.order[1..])
  }

  function Remembered(c: NumberCache, b: Binding): NumberCache {
    var grown := NumberCache(c.values[b.source := b.target], c.order + [b]);
    if |grown.order| > LIMIT then Evicted(grown) else grown
  }

  // ----- against the log -----

  /** Position of the latest write for `source`, or -1. */
  ghost function Latest(log: seq<Binding>, source: U16): (p: int)
    ensures -1 <= p < |log|
    ensures p >= 0 ==> log[p].source == source
    ensures forall i :: p < i < |log| ==> log[i].source != source
  {
    if log == [] then -1
    else if log[|log| - 1].source == source then |log| - 1
    else Latest(log[..|log| - 1], source)
  }

  ghost function WindowStart(log: seq<Binding>): nat {
    if |log| <= LIMIT then 0 else |log| - LIMIT
  }

  /**
   The latest write was forgotten early: an equal, older write left the window while the latest was
   already in it.
   */
  ghost predicate ForgottenEarly(log: seq<Binding>, p: nat)
    requires p < |log|
  {
    exists q :: 0 <= q < WindowStart(log) && p - LIMIT <= q && log[q] == log[p]
  }

  /** What the cache answers, as a function of the log alone. */
  ghost function Answer(log: seq<Binding>, source: U16): Option<U16> {
    var p := Latest(log, source);
    if p < WindowStart(log) || ForgottenEarly(log, p) then None else Some(log[p].target)
  }

  ghost predicate Tracks(c: NumberCache, log: seq<Binding>) {
    && c.order == log[WindowStart(log)..]
    && forall source: U16 :: Find(c, source) == Answer(log, source)
  }

  lemma {:induction false} LatestUnique(log: seq<Binding>, source: U16, p: int)
    requires -1 <= p < |log| && (p >= 0 ==> log[p].source == source)
    requires forall i :: p < i < |log| ==> log[i].source != source
    ensures Latest(log, source) == p
  {
  }

  lemma AnswerAfterWrite(log: seq<Binding>, b: Binding)
    ensures Answer(log + [b], b.source) ==
            if |log| >= LIMIT && log[|log| - LIMIT] == b then None else Some(b.target)
  {
    var n := log + [b];
    LatestUnique(n, b.source, |log|);
    if |log| >= LIMIT && log[|log| - LIMIT] == b {
      assert n[|log| - LIMIT] == n[|log|];
    }
  }

  lemma AnswerOfOthers(log: seq<Binding>, b: Binding, source: U16)
    requires source != b.source
    ensures var q := |log| - LIMIT;
            Answer(log + [b], source) ==
            if q >= 0 && log[q].source == source && Answer(log, source) == Some(log[q].target) then None else Answer(log, source)
  {
    var n := log + [b];
    var p := Latest(log, source);
    LatestUnique(n, source, p);
    var q := |log| - LIMIT;
    if p >= 0 {
      assert forall i :: 0 <= i < |log| ==> n[i] == log[i];
      if ForgottenEarly(log, p) {
        var i :| 0 <= i < WindowStart(log) && p - LIMIT <= i && log[i] == log[p];
        assert n[i] == n[p];
      } else if p >= WindowStart(n) && ForgottenEarly(n, p) {
        var i :| 0 <= i < WindowStart(n) && p - LIMIT <= i && n[i] == n[p];
        assert i == q;
      } else if q >= 0 && log[q] == log[p] {
        assert n[q] == n[p];
      }
    }
  }

  /** One write keeps the cache in step with the log. */
  lemma RememberTracks(c: NumberCache, log: seq<Binding>, b: Binding)
    requires Tracks(c, log)
    ensures Tracks(Remembered(c, b), log + [b])
  {
    var r, n := Remembered(c, b), log + [b];
    if |log| >= LIMIT {
      assert c.order[0] == log[|log| - LIMIT];
    }
    assert r.order == n[WindowStart(n)..];
    forall source: U16
      ensures Find(r, source) == Answer(n, source)
    {
      assert Find(c, source) == Answer(log, source);
      if source == b.source {
        AnswerAfterWrite(log, b);
      } else {
        AnswerOfOthers(log, b, source);
      }
      hide Answer;
    }
  }

  lemma EmptyTracks()
    ensures Tracks(EMPTY, [])
  {
  }

  /** An answer is never stale: it is the latest target written for that source number. */
  lemma NeverStale(c: NumberCache, log: seq<Binding>, source: U16)
    requires Tracks(c, log) && Find(c, source).Some?
    ensures Latest(log, source) >= WindowStart(log)
    ensures Find(c, source) == Some(log[Latest(log, source)].target)
  {
    assert Find(c, source) == Answer(log, source);
  }

  ghost predicate DistinctTargets(log: seq<Binding>, from: int) {
    forall i, j :: from <= i < j < |log| && 0 <= i ==> log[i].target != log[j].target
  }

  /** With distinct targets the cache is exactly "the latest write among the last 4096". */
  lemma CompleteWhenDistinct(c: NumberCache, log: seq<Binding>, source: U16)
    requires Tracks(c, log) && DistinctTargets(log, |log| - 2 * LIMIT)
    ensures Find(c, source) == if Latest(log, source) >= WindowStart(log) then Some(log[Latest(log, source)].target) else None
  {
    assert Find(c, source) == Answer(log, source);
    var p := Latest(log, source);
    if p >= WindowStart(log) {
      forall q | 0 <= q < WindowStart(log) && p - LIMIT <= q
        ensures log[q] != log[p]
      {
      }
    }
  }

  /** One binding, 4095 writes of another, and the first again. */
  ghost function Repeated(x: Binding, y: Binding): (log: seq<Binding>)
    ensures |log| == LIMIT + 1
  {
    [x] + Repeat(y, LIMIT - 1) + [x]
  }

  /** The cache after writing a log from empty. */
  ghost function WrittenAll(log: seq<Binding>): (c: NumberCache)
    ensures Tracks(c, log)
  {
    if log == [] then
      EmptyTracks();
      EMPTY
    else
      var front := log[..|log| - 1];
      RememberTracks(WrittenAll(front), front, log[|log| - 1]);
      assert front + [log[|log| - 1]] == log;
      Remembered(WrittenAll(front), log[|log| - 1])
  }

  /** The cache can forget a binding it has just been given: an equal, older one leaves the queue and takes it along. */
  lemma ForgetsTheLatest(x: Binding, y: Binding)
    requires x.source != y.source
    ensures Latest(Repeated(x, y), x.source) == LIMIT && Find(WrittenAll(Repeated(x, y)), x.source).None?
  {
    hide WrittenAll;
    var log := Repeated(x, y);
    LatestUnique(log, x.source, LIMIT);
    assert log[0] == log[LIMIT];
    assert ForgottenEarly(log, LIMIT);
    assert Find(WrittenAll(log), x.source) == Answer(log, x.source);
  }

  method Remember(c: NumberCache, b: Binding, ghost log: seq<Binding>) returns (r: NumberCache)
    requires Tracks(c, log)
    ensures r == Remembered(c, b) && Tracks(r, log + [b])
  {
    RememberTracks(c, log, b);
    hide Tracks;
    var order := c.order + [b];
    var values: map<U16, U16> := c.values[b.source := b.target];
    assert |c.order| <= LIMIT by {
      WindowSize(c, log);
    }
    while |order| > LIMIT
      invariant |order| <= LIMIT + 1
      invariant |order| == LIMIT + 1 ==> Evicted(NumberCache(values, order)) == Remembered(c, b)
      invariant |order| <= LIMIT ==> NumberCache(values, order) == Remembered(c, b)
      decreases |order|
    {
      var oldest := order[0];
      order := order[1..];
      if oldest.source in values && values[oldest.source] == oldest.target {
        values := values - {oldest.source};
      }
    }
    r := NumberCache(values, order);
  }

  lemma WindowSize(c: NumberCache, log: seq<Binding>)
    requires Tracks(c, log)
    ensures |c.order| <= LIMIT
  {
  }
}
