/**
 The media fan-out router: subscriptions, publisher sources and their generations, sender timings,
 and keyframe requests with their retry schedule (`media/media_fanout_router.cpp`).
 A retry timer is the pending wait it holds, named by its request and token; cancelling a timer
 discards its wait.
 */
module FanoutRouter {
  import opened Wire

  type SessionId = string
  type StreamId = string

  const RETRY_DELAYS: nat := 4

  datatype Source = Source(publisher: SessionId, generation: nat)

  /** What a publisher's sender report says about one of its streams. */
  datatype SenderClock = SenderClock(ntp: nat, rtpTimestamp: U32, packets: U32, octets: U32)

  datatype Timing = Timing(publisher: SessionId, generation: nat, ssrc: U32, clock: SenderClock)

  datatype Key = Key(stream: StreamId, publisher: SessionId, generation: nat, ssrc: U32)

  datatype Request = Request(waiters: set<SessionId>, delayIndex: nat, sentCount: nat, token: nat, active: bool)

  datatype State = State(
    next: nat,
    subscriptions: map<SessionId, StreamId>,
    sources: map<StreamId, Source>,
    generations: map<StreamId, nat>,
    timings: map<StreamId, map<U32, Timing>>,
    requests: map<Key, Request>,
    timers: map<Key, nat>)

  const INITIAL: State := State(1, map[], map[], map[], map[], map[], map[])

  // ----- what every operation keeps -----

  predicate IsCurrent(sources: map<StreamId, Source>, stream: StreamId, publisher: SessionId, generation: nat) {
    stream in sources && sources[stream] == Source(publisher, generation)
  }

  /** A live source carries its stream's generation, and every generation was handed out before `next`. */
  ghost predicate GenerationsInv(next: nat, generations: map<StreamId, nat>, sources: map<StreamId, Source>) {
    && next > 0
    && (forall st :: st in generations ==> 0 < generations[st] < next)
    && (forall st :: st in sources ==> st in generations && generations[st] == sources[st].generation)
    && (forall st :: st in sources ==> st != "" && sources[st].publisher != "")
  }

  /** A request names the current source and only waits for subscribers of its stream. */
  ghost predicate RequestOk(subscriptions: map<SessionId, StreamId>, sources: map<StreamId, Source>, k: Key, waiters: set<SessionId>) {
    && IsCurrent(sources, k.stream, k.publisher, k.generation)
    && k.ssrc != 0
    && waiters != {}
    && forall w :: w in waiters ==> w in subscriptions && subscriptions[w] == k.stream
  }

  ghost predicate RequestsInv(subscriptions: map<SessionId, StreamId>, sources: map<StreamId, Source>, requests: map<Key, Request>) {
    forall k :: k in requests ==> RequestOk(subscriptions, sources, k, requests[k].waiters)
  }

  /** A burst is one request and at most four retries; it is active exactly while its timer is pending. */
  predicate BurstOk(q: Request) {
    if q.active then 1 <= q.sentCount == q.delayIndex <= RETRY_DELAYS
    else q.sentCount == RETRY_DELAYS + 1 && q.delayIndex == RETRY_DELAYS
  }

  predicate TimerOk(timers: map<Key, nat>, k: Key, q: Request) {
    && BurstOk(q)
    && (k in timers <==> q.active)
    && (k in timers ==> timers[k] == q.token)
  }

  ghost predicate TimersInv(requests: map<Key, Request>, timers: map<Key, nat>) {
    && (forall k :: k in timers ==> k in requests)
    && (forall k :: k in requests ==> TimerOk(timers, k, requests[k]))
  }

  predicate TimingOk(source: Source, ssrc: U32, timing: Timing) {
    timing.ssrc == ssrc && source == Source(timing.publisher, timing.generation)
  }

  ghost predicate TimingsInv(sources: map<StreamId, Source>, timings: map<StreamId, map<U32, Timing>>) {
    forall st :: st in timings ==>
      && st in sources && timings[st] != map[]
      && forall ssrc :: ssrc in timings[st] ==> TimingOk(sources[st], ssrc, timings[st][ssrc])
  }

  ghost predicate Inv(r: State) {
    && GenerationsInv(r.next, r.generations, r.sources)
    && "" !in r.subscriptions
    && RequestsInv(r.subscriptions, r.sources, r.requests)
    && TimersInv(r.requests, r.timers)
    && TimingsInv(r.sources, r.timings)
  }

  // ----- the operations as functions -----

  function CancelSubscribers(r: State, sessions: set<SessionId>): State {
    var requests := map k | k in r.requests && r.requests[k].waiters - sessions != {}
      :: r.requests[k].(waiters := r.requests[k].waiters - sessions);
    r.(requests := requests, timers := map k | k in r.timers && (k in r.requests ==> k in requests) :: r.timers[k])
  }

  function CancelStream(r: State, stream: StreamId): State {
    r.(requests := map k | k in r.requests && k.stream != stream :: r.requests[k],
       timers := map k | k in r.timers && !(k in r.requests && k.stream == stream) :: r.timers[k])
  }

  function Subscribed(r: State, stream: StreamId, session: SessionId): State {
    if stream == "" || session == "" then r else r.(subscriptions := r.subscriptions[session := stream])
  }

  /** What a new subscriber is told. */
  function CurrentGeneration(r: State, stream: StreamId): nat {
    if stream in r.generations then r.generations[stream] else 0
  }

  function CurrentSource(r: State, stream: StreamId): Option<Source> {
    if stream in r.sources then Some(r.sources[stream]) else None
  }

  function CurrentTimings(r: State, stream: StreamId): map<U32, Timing> {
    if stream in r.timings then r.timings[stream] else map[]
  }

  /** Everything a new subscriber is told at once. */
  datatype Welcome = Welcome(generation: nat, source: Option<Source>, timings: map<U32, Timing>)

  function Welcomed(r: State, stream: StreamId): Welcome {
    Welcome(CurrentGeneration(r, stream), CurrentSource(r, stream), CurrentTimings(r, stream))
  }

  /** Every timing a new subscriber is told belongs to the source it is told. */
  lemma WelcomeIsConsistent(r: State, stream: StreamId)
    requires Inv(r)
    ensures var w := Welcomed(r, stream);
            && (w.source.Some? ==> w.generation == w.source.value.generation)
            && forall ssrc :: ssrc in w.timings ==> w.source.Some? && TimingOk(w.source.value, ssrc, w.timings[ssrc])
  {
    hide RequestsInv, TimersInv;
  }

  function Unsubscribed(r: State, session: SessionId): State {
    if session == "" || session !in r.subscriptions then r
    else CancelSubscribers(r, {session}).(subscriptions := r.subscriptions - {session})
  }

  function SourceSet(r: State, stream: StreamId, publisher: SessionId): State {
    if stream == "" || publisher == "" then r
    else
      CancelStream(r, stream).(
        next := r.next + 1,
        sources := r.sources[stream := Source(publisher, r.next)],
        generations := r.generations[stream := r.next],
        timings := r.timings - {stream})
  }

  function SourceCleared(r: State, stream: StreamId, publisher: SessionId): State {
    if stream == "" || publisher == "" || stream !in r.sources || r.sources[stream].publisher != publisher then r
    else
      CancelStream(r, stream).(
        next := r.next + 1,
        sources := r.sources - {stream},
        generations := r.generations[stream := r.next],
        timings := r.timings - {stream})
  }

  /** The next retry of a burst, or its end. */
  function Scheduled(r: State, key: Key, q: Request): State {
    if q.delayIndex >= RETRY_DELAYS then r.(requests := r.requests[key := q.(active := false)])
    else
      r.(requests := r.requests[key := q.(delayIndex := q.delayIndex + 1, token := q.token + 1)],
         timers := r.timers[key := q.token + 1])
  }

  predicate RequestAccepted(r: State, key: Key, session: SessionId) {
    && key.stream != "" && session != "" && key.publisher != "" && key.generation != 0 && key.ssrc != 0
    && session in r.subscriptions && r.subscriptions[session] == key.stream
    && IsCurrent(r.sources, key.stream, key.publisher, key.generation)
  }

  function Requested(r: State, key: Key, session: SessionId): State {
    if !RequestAccepted(r, key, session) then r
    else
      var before := if key in r.requests then r.requests[key] else Request({}, 0, 0, 0, false);
      var q := before.(waiters := before.waiters + {session});
      if q.active then r.(requests := r.requests[key := q])
      else Scheduled(r, key, q.(active := true, delayIndex := 0, sentCount := 1))
  }

  function Dropped(r: State, key: Key): State {
    r.(requests := r.requests - {key}, timers := r.timers - {key})
  }

  function Completed(r: State, key: Key, session: SessionId): State {
    if key.stream == "" || session == "" || key.publisher == "" || key.generation == 0 || key.ssrc == 0 || key !in r.requests then r
    else
      var waiters := r.requests[key].waiters - {session};
      if waiters == {} then Dropped(r, key)
      else r.(requests := r.requests[key := r.requests[key].(waiters := waiters)])
  }

  predicate PublisherEventAccepted(r: State, key: Key) {
    && key.stream != "" && key.publisher != "" && key.generation != 0 && key.ssrc != 0
    && IsCurrent(r.sources, key.stream, key.publisher, key.generation)
  }

  function ByePublished(r: State, key: Key): State {
    if !PublisherEventAccepted(r, key) then r
    else
      var timings :=
        if key.stream !in r.timings then r.timings
        else
          var rest := r.timings[key.stream] - {key.ssrc};
          if rest == map[] then r.timings - {key.stream} else r.timings[key.stream := rest];
      if key in r.requests then Dropped(r.(timings := timings), key) else r.(timings := timings)
  }

  function TimingPublished(r: State, key: Key, clock: SenderClock): State {
    if !PublisherEventAccepted(r, key) then r
    else
      var timing := Timing(key.publisher, key.generation, key.ssrc, clock);
      var known := if key.stream in r.timings then r.timings[key.stream] else map[];
      r.(timings := r.timings[key.stream := known[key.ssrc := timing]])
  }

  /** A pending wait expires; `retries` says whether the publisher is asked again. */
  function WaitTaken(r: State, key: Key): State {
    r.(timers := r.timers - {key})
  }

  predicate RetryMatches(r: State, key: Key, token: nat) {
    key in r.requests && r.requests[key].token == token && r.requests[key].waiters != {}
  }

  function RetryHandled(r: State, key: Key, token: nat): State {
    if !RetryMatches(r, key, token) then r
    else if !IsCurrent(r.sources, key.stream, key.publisher, key.generation) then Dropped(r, key)
    else
      var q := r.requests[key];
      Scheduled(r, key, q.(sentCount := q.sentCount + 1))
  }

  // ----- preservation -----

  lemma CancelSubscribersKeepsInv(r: State, sessions: set<SessionId>)
    requires Inv(r)
    ensures Inv(CancelSubscribers(r, sessions))
  {
    var c := CancelSubscribers(r, sessions);
    forall k | k in c.requests
      ensures RequestOk(c.subscriptions, c.sources, k, c.requests[k].waiters) && TimerOk(c.timers, k, c.requests[k])
    {
      assert RequestOk(r.subscriptions, r.sources, k, r.requests[k].waiters) && TimerOk(r.timers, k, r.requests[k]);
    }
  }

  lemma CancelStreamKeepsRequests(r: State, r': State, stream: StreamId)
    requires Inv(r)
    requires r'.requests == CancelStream(r, stream).requests && r'.timers == CancelStream(r, stream).timers
    requires r'.subscriptions == r.subscriptions
    requires forall st :: st != stream ==> (st in r'.sources <==> st in r.sources) && (st in r.sources ==> r'.sources[st] == r.sources[st])
    ensures RequestsInv(r'.subscriptions, r'.sources, r'.requests) && TimersInv(r'.requests, r'.timers)
  {
    forall k | k in r'.requests
      ensures RequestOk(r'.subscriptions, r'.sources, k, r'.requests[k].waiters) && TimerOk(r'.timers, k, r'.requests[k])
    {
      assert RequestOk(r.subscriptions, r.sources, k, r.requests[k].waiters) && TimerOk(r.timers, k, r.requests[k]);
    }
  }

  lemma NextGeneration(next: nat, generations: map<StreamId, nat>, sources: map<StreamId, Source>, stream: StreamId, publisher: SessionId)
    requires GenerationsInv(next, generations, sources) && stream != "" && publisher != ""
    ensures GenerationsInv(next + 1, generations[stream := next], sources[stream := Source(publisher, next)])
    ensures GenerationsInv(next + 1, generations[stream := next], sources - {stream})
  {
  }

  lemma TimingsForgotten(sources: map<StreamId, Source>, timings: map<StreamId, map<U32, Timing>>, stream: StreamId, source: Source)
    requires TimingsInv(sources, timings)
    ensures TimingsInv(sources[stream := source], timings - {stream}) && TimingsInv(sources - {stream}, timings - {stream})
  {
    hide TimingOk;
  }

  lemma SourceSetKeepsInv(r: State, stream: StreamId, publisher: SessionId)
    requires Inv(r)
    ensures Inv(SourceSet(r, stream, publisher))
  {
    hide GenerationsInv, TimingsInv, RequestsInv, TimersInv;
    if stream != "" && publisher != "" {
      CancelStreamKeepsRequests(r, SourceSet(r, stream, publisher), stream);
      NextGeneration(r.next, r.generations, r.sources, stream, publisher);
      TimingsForgotten(r.sources, r.timings, stream, Source(publisher, r.next));
    }
  }

  lemma SourceClearedKeepsInv(r: State, stream: StreamId, publisher: SessionId)
    requires Inv(r)
    ensures Inv(SourceCleared(r, stream, publisher))
  {
    hide GenerationsInv, TimingsInv, RequestsInv, TimersInv;
    if stream != "" && publisher != "" && stream in r.sources && r.sources[stream].publisher == publisher {
      CancelStreamKeepsRequests(r, SourceCleared(r, stream, publisher), stream);
      NextGeneration(r.next, r.generations, r.sources, stream, publisher);
      TimingsForgotten(r.sources, r.timings, stream, Source(publisher, r.next));
    }
  }

  lemma UnsubscribedKeepsInv(r: State, session: SessionId)
    requires Inv(r)
    ensures Inv(Unsubscribed(r, session))
    ensures session !in Unsubscribed(r, session).subscriptions
  {
    if session != "" && session in r.subscriptions {
      CancelSubscribersKeepsInv(r, {session});
      var u, c := Unsubscribed(r, session), CancelSubscribers(r, {session});
      forall k | k in u.requests
        ensures RequestOk(u.subscriptions, u.sources, k, u.requests[k].waiters)
      {
        assert RequestOk(c.subscriptions, c.sources, k, c.requests[k].waiters);
      }
    }
  }

  /** Switching streams needs the unsubscription that `set_peer_context` performs first. */
  lemma SubscribedKeepsInv(r: State, stream: StreamId, session: SessionId)
    requires Inv(r) && session !in r.subscriptions
    ensures Inv(Subscribed(r, stream, session))
  {
    hide GenerationsInv, TimersInv, TimingsInv;
    var n := Subscribed(r, stream, session);
    forall k | k in n.requests
      ensures RequestOk(n.subscriptions, n.sources, k, n.requests[k].waiters)
    {
      assert RequestOk(r.subscriptions, r.sources, k, r.requests[k].waiters);
    }
  }

  /** Writing one request, with a timer map that differs at most at its key, keeps the rest in order. */
  lemma PutRequestKeepsInv(r: State, key: Key, q: Request, timers: map<Key, nat>)
    requires Inv(r) && RequestOk(r.subscriptions, r.sources, key, q.waiters) && TimerOk(timers, key, q)
    requires timers - {key} == r.timers - {key}
    ensures Inv(r.(requests := r.requests[key := q], timers := timers))
  {
    var n := r.(requests := r.requests[key := q], timers := timers);
    OtherTimersKept(timers, r.timers, key);
    forall k | k in n.requests
      ensures RequestOk(n.subscriptions, n.sources, k, n.requests[k].waiters) && TimerOk(n.timers, k, n.requests[k])
    {
      if k != key {
        assert RequestOk(r.subscriptions, r.sources, k, r.requests[k].waiters) && TimerOk(r.timers, k, r.requests[k]);
      }
    }
  }

  lemma OtherTimersKept(a: map<Key, nat>, b: map<Key, nat>, key: Key)
    requires a - {key} == b - {key}
    ensures forall k :: k != key ==> (k in a <==> k in b) && (k in a ==> a[k] == b[k])
  {
    forall k | k != key
      ensures (k in a <==> k in b) && (k in a ==> a[k] == b[k])
    {
      assert k in a <==> k in a - {key};
      assert k in b <==> k in b - {key};
    }
  }

  lemma DroppedKeepsInv(r: State, key: Key)
    requires Inv(r)
    ensures Inv(Dropped(r, key))
  {
    var n := Dropped(r, key);
    forall k | k in n.requests
      ensures RequestOk(n.subscriptions, n.sources, k, n.requests[k].waiters) && TimerOk(n.timers, k, n.requests[k])
    {
      assert RequestOk(r.subscriptions, r.sources, k, r.requests[k].waiters) && TimerOk(r.timers, k, r.requests[k]);
    }
  }

  lemma InvAt(r: State, key: Key)
    requires Inv(r) && key in r.requests
    ensures RequestOk(r.subscriptions, r.sources, key, r.requests[key].waiters) && TimerOk(r.timers, key, r.requests[key])
  {
  }

  lemma TimerUntouched(r: State, key: Key)
    requires Inv(r) && key !in r.requests
    ensures key !in r.timers
  {
  }

  /** Scheduling keeps the burst bound: a timer is set while fewer than five requests were sent. */
  lemma ScheduledKeepsInv(r: State, key: Key, q: Request)
    requires Inv(r) && RequestOk(r.subscriptions, r.sources, key, q.waiters)
    requires q.active && q.sentCount == q.delayIndex + 1 <= RETRY_DELAYS + 1
    ensures Inv(Scheduled(WaitTaken(r, key), key, q))
    ensures key in Scheduled(WaitTaken(r, key), key, q).requests
    ensures Scheduled(WaitTaken(r, key), key, q).requests[key].sentCount == q.sentCount
  {
    hide Inv, GenerationsInv, RequestsInv, TimersInv, TimingsInv;
    var t := WaitTaken(r, key);
    if q.delayIndex >= RETRY_DELAYS {
      assert t.timers - {key} == r.timers - {key};
      PutRequestKeepsInv(r, key, q.(active := false), t.timers);
    } else {
      var u := q.(delayIndex := q.delayIndex + 1, token := q.token + 1);
      assert t.timers[key := u.token] - {key} == r.timers - {key};
      PutRequestKeepsInv(r, key, u, t.timers[key := u.token]);
    }
  }

  lemma RequestedKeepsInv(r: State, key: Key, session: SessionId)
    requires Inv(r)
    ensures Inv(Requested(r, key, session))
  {
    hide Inv, GenerationsInv, RequestsInv, TimersInv, TimingsInv;
    if RequestAccepted(r, key, session) {
      var before := if key in r.requests then r.requests[key] else Request({}, 0, 0, 0, false);
      if key in r.requests {
        InvAt(r, key);
      } else {
        TimerUntouched(r, key);
      }
      var q := before.(waiters := before.waiters + {session});
      assert session in q.waiters;
      assert RequestOk(r.subscriptions, r.sources, key, q.waiters);
      if q.active {
        PutRequestKeepsInv(r, key, q, r.timers);
        assert r.(requests := r.requests[key := q], timers := r.timers) == Requested(r, key, session);
      } else {
        assert key !in r.timers && WaitTaken(r, key) == r;
        ScheduledKeepsInv(r, key, q.(active := true, delayIndex := 0, sentCount := 1));
      }
    }
  }

  lemma CompletedKeepsInv(r: State, key: Key, session: SessionId)
    requires Inv(r)
    ensures Inv(Completed(r, key, session))
  {
    if Completed(r, key, session) != r {
      var q := r.requests[key];
      assert RequestOk(r.subscriptions, r.sources, key, q.waiters) && TimerOk(r.timers, key, q);
      var waiters := q.waiters - {session};
      if waiters == {} {
        DroppedKeepsInv(r, key);
      } else {
        PutRequestKeepsInv(r, key, q.(waiters := waiters), r.timers);
        assert r.(requests := r.requests[key := q.(waiters := waiters)], timers := r.timers) == Completed(r, key, session);
      }
    }
  }

  lemma ByePublishedKeepsInv(r: State, key: Key)
    requires Inv(r)
    ensures Inv(ByePublished(r, key))
  {
    hide GenerationsInv, RequestsInv, TimersInv;
    if PublisherEventAccepted(r, key) {
      var n := r.(timings := ByePublished(r, key).timings);
      ByeKeepsTimings(r, key);
      hide TimingsInv;
      if key in r.requests {
        DroppedKeepsInv(n, key);
      }
    }
  }

  lemma ByeKeepsTimings(r: State, key: Key)
    requires TimingsInv(r.sources, r.timings)
    ensures TimingsInv(r.sources, ByePublished(r, key).timings)
  {
    hide TimingOk, PublisherEventAccepted, Dropped;
    DroppedKeepsTimings(r, key);
    if key.stream in r.timings {
      TimingRemoved(r.sources, r.timings, key.stream, key.ssrc);
    }
    hide TimingsInv;
  }

  lemma DroppedKeepsTimings(r: State, key: Key)
    ensures forall timings :: Dropped(r.(timings := timings), key).timings == timings
  {
  }

  lemma TimingRemoved(sources: map<StreamId, Source>, timings: map<StreamId, map<U32, Timing>>, stream: StreamId, ssrc: U32)
    requires TimingsInv(sources, timings) && stream in timings
    ensures var rest := timings[stream] - {ssrc};
            TimingsInv(sources, if rest == map[] then timings - {stream} else timings[stream := rest])
  {
    hide TimingOk;
  }

  lemma TimingPublishedKeepsInv(r: State, key: Key, clock: SenderClock)
    requires Inv(r)
    ensures Inv(TimingPublished(r, key, clock))
  {
    if PublisherEventAccepted(r, key) {
      var n := TimingPublished(r, key, clock);
      assert key.ssrc in n.timings[key.stream];
    }
  }

  /** A pending wait always matches its request and its source, so the handler asks the publisher again. */
  lemma RetryAlwaysMatches(r: State, key: Key)
    requires Inv(r) && key in r.timers
    ensures RetryMatches(r, key, r.timers[key])
    ensures IsCurrent(r.sources, key.stream, key.publisher, key.generation)
    ensures r.requests[key].active && r.requests[key].sentCount <= RETRY_DELAYS
  {
    assert RequestOk(r.subscriptions, r.sources, key, r.requests[key].waiters) && TimerOk(r.timers, key, r.requests[key]);
  }

  lemma RetrySchedules(r: State, key: Key)
    requires Inv(r) && key in r.timers
    ensures key in r.requests
    ensures RetryHandled(WaitTaken(r, key), key, r.timers[key])
         == Scheduled(WaitTaken(r, key), key, r.requests[key].(sentCount := r.requests[key].sentCount + 1))
  {
    hide Scheduled, Inv;
    RetryAlwaysMatches(r, key);
  }

  lemma RetryKeepsInv(r: State, key: Key)
    requires Inv(r) && key in r.timers
    ensures Inv(RetryHandled(WaitTaken(r, key), key, r.timers[key]))
    ensures key in RetryHandled(WaitTaken(r, key), key, r.timers[key]).requests
    ensures RetryHandled(WaitTaken(r, key), key, r.timers[key]).requests[key].sentCount == r.requests[key].sentCount + 1
  {
    hide Inv, RequestOk, Scheduled, RetryHandled, WaitTaken, IsCurrent, RetryMatches;
    RetryAlwaysMatches(r, key);
    RetrySchedules(r, key);
    InvAt(r, key);
    var q := r.requests[key];
    ScheduledKeepsInv(r, key, q.(sentCount := q.sentCount + 1));
  }

  // ----- the router object -----

  class Router {
    var next: nat
    var subscriptions: map<SessionId, StreamId>
    var sources: map<StreamId, Source>
    var generations: map<StreamId, nat>
    var timings: map<StreamId, map<U32, Timing>>
    var requests: map<Key, Request>
    var timers: map<Key, nat>

    ghost function Model(): State
      reads this
    {
      State(next, subscriptions, sources, generations, timings, requests, timers)
    }

    constructor ()
      ensures Model() == INITIAL
    {
      next := 1;
      subscriptions, sources, generations := map[], map[], map[];
      timings, requests, timers := map[], map[], map[];
    }

    method CancelRequestsForSubscriber(session: SessionId)
      modifies this`requests, this`timers
      ensures Model() == old(CancelSubscribers(Model(), {session}))
    {
      var todo := requests.Keys;
      while todo != {}
        invariant todo <= requests.Keys <= old(requests).Keys
        invariant forall k :: k in todo ==> requests[k] == old(requests)[k]
        invariant forall k :: k in old(requests) && k !in todo ==> (k in requests <==> old(requests)[k].waiters - {session} != {})
        invariant forall k :: k in requests && k !in todo ==>
                    requests[k] == old(requests)[k].(waiters := old(requests)[k].waiters - {session})
        invariant forall k :: k in timers <==> k in old(timers) && (k in old(requests) ==> k in requests)
        invariant forall k :: k in timers ==> timers[k] == old(timers)[k]
        decreases todo
      {
        var k :| k in todo;
        var waiters := requests[k].waiters - {session};
        if waiters == {} {
          timers := timers - {k};
          requests := requests - {k};
        } else {
          requests := requests[k := requests[k].(waiters := waiters)];
        }
        todo := todo - {k};
      }
      ghost var expected := old(CancelSubscribers(Model(), {session}));
      assert requests == expected.requests;
      assert timers == expected.timers;
    }

    method CancelStreamRequests(stream: StreamId)
      modifies this`requests, this`timers
      ensures Model() == old(CancelStream(Model(), stream))
    {
      var todo := requests.Keys;
      while todo != {}
        invariant todo <= requests.Keys <= old(requests).Keys
        invariant forall k :: k in requests ==> requests[k] == old(requests)[k]
        invariant forall k :: k in old(requests) && k !in todo ==> (k in requests <==> k.stream != stream)
        invariant forall k :: k in timers <==> k in old(timers) && (k in old(requests) ==> k in requests)
        invariant forall k :: k in timers ==> timers[k] == old(timers)[k]
        decreases todo
      {
        var k :| k in todo;
        if k.stream == stream {
          timers := timers - {k};
          requests := requests - {k};
        }
        todo := todo - {k};
      }
      ghost var expected := old(CancelStream(Model(), stream));
      assert requests == expected.requests;
      assert timers == expected.timers;
    }

    method Subscribe(stream: StreamId, session: SessionId) returns (told: Option<Welcome>)
      modifies this`subscriptions
      ensures Model() == old(Subscribed(Model(), stream, session))
      ensures told == if stream == "" || session == "" then None else Some(Welcomed(Model(), stream))
    {
      if stream == "" || session == "" {
        return None;
      }
      subscriptions := subscriptions[session := stream];
      var generation := if stream in generations then generations[stream] else 0;
      var source := if stream in sources then Some(sources[stream]) else None;
      var known := if stream in timings then timings[stream] else map[];
      return Some(Welcome(generation, source, known));
    }

    method Unsubscribe(session: SessionId)
      modifies this
      ensures Model() == old(Unsubscribed(Model(), session))
    {
      if session == "" || session !in subscriptions {
        return;
      }
      CancelRequestsForSubscriber(session);
      subscriptions := subscriptions - {session};
    }

    method SetPublisherSource(stream: StreamId, publisher: SessionId) returns (generation: nat)
      modifies this
      ensures Model() == old(SourceSet(Model(), stream, publisher))
      ensures generation == if stream == "" || publisher == "" then 0 else old(next)
    {
      if stream == "" || publisher == "" {
        return 0;
      }
      CancelStreamRequests(stream);
      generation := next;
      next := next + 1;
      sources := sources[stream := Source(publisher, generation)];
      generations := generations[stream := generation];
      timings := timings - {stream};
    }

    method ClearPublisherSource(stream: StreamId, publisher: SessionId) returns (generation: Option<nat>)
      modifies this
      ensures Model() == old(SourceCleared(Model(), stream, publisher))
      ensures generation == old(if stream == "" || publisher == "" || stream !in sources || sources[stream].publisher != publisher then None else Some(next))
    {
      if stream == "" || publisher == "" || stream !in sources || sources[stream].publisher != publisher {
        return None;
      }
      CancelStreamRequests(stream);
      generation := Some(next);
      sources := sources - {stream};
      generations := generations[stream := next];
      timings := timings - {stream};
      next := next + 1;
    }

    method ScheduleRetry(key: Key)
      requires key in requests
      modifies this`requests, this`timers
      ensures Model() == old(Scheduled(Model(), key, requests[key]))
    {
      var q := requests[key];
      if q.delayIndex >= RETRY_DELAYS {
        requests := requests[key := q.(active := false)];
        return;
      }
      requests := requests[key := q.(delayIndex := q.delayIndex + 1, token := q.token + 1)];
      timers := timers[key := q.token + 1];
    }

    /** Returns whether the request was accepted and whether the publisher is asked at once. */
    method RequestKeyframe(key: Key, session: SessionId) returns (accepted: bool, asked: bool)
      modifies this`requests, this`timers
      ensures Model() == old(Requested(Model(), key, session))
      ensures accepted == old(RequestAccepted(Model(), key, session))
      ensures asked == (accepted && !(key in old(requests) && old(requests)[key].active))
    {
      if key.stream == "" || session == "" || key.publisher == "" || key.generation == 0 || key.ssrc == 0 {
        return false, false;
      }
      if session !in subscriptions || subscriptions[session] != key.stream {
        return false, false;
      }
      if key.stream !in sources || sources[key.stream] != Source(key.publisher, key.generation) {
        return false, false;
      }
      ghost var before := Model();
      if key !in requests {
        requests := requests[key := Request({}, 0, 0, 0, false)];
      }
      var q := requests[key].(waiters := requests[key].waiters + {session});
      requests := requests[key := q];
      if !q.active {
        requests := requests[key := q.(active := true, delayIndex := 0, sentCount := 1)];
        ScheduleRetry(key);
        assert requests == Requested(before, key, session).requests;
        return true, true;
      }
      return true, false;
    }

    method CompleteKeyframeRequest(key: Key, session: SessionId)
      modifies this`requests, this`timers
      ensures Model() == old(Completed(Model(), key, session))
    {
      if key.stream == "" || session == "" || key.publisher == "" || key.generation == 0 || key.ssrc == 0 || key !in requests {
        return;
      }
      ghost var before := Model();
      requests := requests[key := requests[key].(waiters := requests[key].waiters - {session})];
      if requests[key].waiters == {} {
        timers := timers - {key};
        requests := requests - {key};
        assert requests == before.requests - {key};
      }
    }

    method CancelKeyframeRequests(session: SessionId)
      modifies this`requests, this`timers
      ensures Model() == old(if session == "" then Model() else CancelSubscribers(Model(), {session}))
    {
      if session != "" {
        CancelRequestsForSubscriber(session);
      }
    }

    method PublishSourceBye(key: Key) returns (accepted: bool)
      modifies this
      ensures accepted == old(PublisherEventAccepted(Model(), key))
      ensures Model() == old(ByePublished(Model(), key))
    {
      accepted := PublisherEventAccepted(State(next, subscriptions, sources, generations, timings, requests, timers), key);
      if !accepted {
        return;
      }
      if key.stream in timings {
        var rest := timings[key.stream] - {key.ssrc};
        timings := if rest == map[] then timings - {key.stream} else timings[key.stream := rest];
      }
      if key in requests {
        timers := timers - {key};
        requests := requests - {key};
      }
    }

    method PublishSenderTiming(key: Key, clock: SenderClock) returns (accepted: bool)
      modifies this
      ensures accepted == old(PublisherEventAccepted(Model(), key))
      ensures Model() == old(TimingPublished(Model(), key, clock))
    {
      accepted := PublisherEventAccepted(State(next, subscriptions, sources, generations, timings, requests, timers), key);
      if !accepted {
        return;
      }
      var known := if key.stream in timings then timings[key.stream] else map[];
      timings := timings[key.stream := known[key.ssrc := Timing(key.publisher, key.generation, key.ssrc, clock)]];
    }

    /** A retry callback. Returns whether the publisher is asked again. */
    method HandleKeyframeRetry(key: Key, token: nat) returns (asked: bool)
      modifies this`requests, this`timers
      ensures Model() == old(RetryHandled(Model(), key, token))
      ensures asked == old(RetryMatches(Model(), key, token) && IsCurrent(sources, key.stream, key.publisher, key.generation))
    {
      if key !in requests || requests[key].token != token || requests[key].waiters == {} {
        return false;
      }
      if key.stream !in sources || sources[key.stream] != Source(key.publisher, key.generation) {
        timers := timers - {key};
        requests := requests - {key};
        return false;
      }
      ghost var before := requests;
      requests := requests[key := requests[key].(sentCount := requests[key].sentCount + 1)];
      ScheduleRetry(key);
      assert requests == before[key := requests[key]];
      asked := true;
    }

    /** The pending wait of a request expires: the publisher is always asked again. */
    method FireTimer(key: Key) returns (asked: bool)
      requires Inv(Model()) && key in timers
      modifies this`requests, this`timers
      ensures Model() == old(RetryHandled(WaitTaken(Model(), key), key, timers[key]))
      ensures Inv(Model()) && asked
    {
      RetryAlwaysMatches(Model(), key);
      RetryKeepsInv(Model(), key);
      hide Inv, RetryHandled;
      var token := timers[key];
      timers := timers - {key};
      asked := HandleKeyframeRetry(key, token);
    }
  }
}
