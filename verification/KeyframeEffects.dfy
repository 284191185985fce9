/**
 What the events of the keyframe system achieve, beyond keeping both sides in agreement: who ends up
 waiting, who is served, and when the publisher is asked.
 */
module KeyframeEffects {
  import opened Wire
  import opened FanoutRouter
  import opened KeyframeCoordination

  // ----- what can be observed -----

  /** The publisher was just asked, and a retry is pending. */
  predicate BurstBegun(r: State, key: Key) {
    key in r.requests && r.requests[key].active && r.requests[key].sentCount == 1 && key in r.timers
  }

  predicate InBurst(r: State, key: Key) {
    key in r.requests && r.requests[key].active
  }

  /** The burst goes on as it was, whoever waits. */
  predicate SameBurst(r: State, n: State, key: Key) {
    && key in r.requests && key in n.requests && n.requests[key] == r.requests[key].(waiters := n.requests[key].waiters)
    && (key in r.timers <==> key in n.timers) && (key in r.timers ==> n.timers[key] == r.timers[key])
  }

  /** A request joins a running burst and otherwise begins one. */
  ghost predicate BurstRuns(r: State, n: State, key: Key) {
    if InBurst(r, key) then SameBurst(r, n, key) else BurstBegun(n, key)
  }

  /** Nothing about the other keys changes. */
  ghost predicate SameElsewhere(r: State, n: State, key: Key) {
    forall k :: k != key ==>
      && (k in r.requests <==> k in n.requests) && (k in r.requests ==> r.requests[k] == n.requests[k])
      && (k in r.timers <==> k in n.timers) && (k in r.timers ==> r.timers[k] == n.timers[k])
  }

  ghost predicate SameForOtherTransports(sys: System, n: System, session: SessionId) {
    n.transports.Keys == sys.transports.Keys && forall s :: s in sys.transports && s != session ==> n.transports[s] == sys.transports[s]
  }

  predicate SamePlace(t: Transport, u: Transport) {
    u.stream == t.stream && u.source == t.source && u.generation == t.generation
  }

  /** A live transport: its session's events count. */
  ghost predicate Lives(sys: System, session: SessionId) {
    Agree(sys) && session in sys.transports && sys.transports[session].source.Some?
  }

  // ----- one request at the router -----

  lemma RequestedRuns(r: State, key: Key, session: SessionId)
    requires Inv(r) && RequestAccepted(r, key, session)
    ensures WaitsFor(Requested(r, key, session).requests, session, key)
    ensures BurstRuns(r, Requested(r, key, session), key) && SameElsewhere(r, Requested(r, key, session), key)
  {
    RequestedHere(r, key, session);
    RequestedElsewhere(r, key, session);
    hide Inv, Requested, RequestAccepted, SameElsewhere, SameBurst;
  }

  lemma RequestedHere(r: State, key: Key, session: SessionId)
    requires RequestAccepted(r, key, session)
    ensures var n := Requested(r, key, session);
            && WaitsFor(n.requests, session, key)
            && (InBurst(r, key) ==> SameBurst(r, n, key))
            && (!InBurst(r, key) ==> BurstBegun(n, key))
  {
    hide RequestAccepted, Scheduled;
    if !InBurst(r, key) {
      var before := if key in r.requests then r.requests[key] else Request({}, 0, 0, 0, false);
      BurstStarts(r, key, before.(waiters := before.waiters + {session}, active := true, delayIndex := 0, sentCount := 1));
    }
  }

  lemma BurstStarts(r: State, key: Key, q: Request)
    requires q.active && q.delayIndex == 0 && q.sentCount == 1
    ensures BurstBegun(Scheduled(r, key, q), key) && Scheduled(r, key, q).requests[key].waiters == q.waiters
  {
  }

  lemma RequestedElsewhere(r: State, key: Key, session: SessionId)
    ensures SameElsewhere(r, Requested(r, key, session), key)
  {
    hide RequestAccepted;
  }

  lemma CancelledBurst(r: State, session: SessionId, key: Key)
    requires Inv(r)
    ensures var n := CancelSubscribers(r, {session});
            if key in r.requests && r.requests[key].waiters - {session} != {} then SameBurst(r, n, key)
            else key !in n.requests && key !in n.timers
  {
    hide GenerationsInv, RequestsInv, TimingsInv;
    if key !in r.requests {
      TimerUntouched(r, key);
    }
  }

  // ----- a sent video packet -----

  lemma PreparedOutcome(t: Transport, ssrc: U32, target: U32, force: bool)
    requires t.source.Some? && t.generation != 0 && ssrc != 0 && target != 0 && t.waiting !! t.ready
    ensures var (u, ask) := Prepared(t, t.generation, ssrc, target, force, false);
            && (ask <==> force || (ssrc !in t.waiting && ssrc !in t.ready))
            && u == if ask then t.(waiting := t.waiting + {ssrc}, ready := t.ready - {ssrc}) else t
  {
    var (u, ask) := Prepared(t, t.generation, ssrc, target, force, false);
    if ask && !force {
      assert t.ready - {ssrc} == t.ready;
    }
    if !ask && ssrc in t.waiting {
      assert t.waiting + {ssrc} == t.waiting;
    }
  }

  ghost predicate RequestMade(sys: System, n: System, session: SessionId, ssrc: U32)
    requires session in sys.transports && sys.transports[session].source.Some?
  {
    var t := sys.transports[session];
    && session in n.transports && n.transports == sys.transports[session := t.(waiting := t.waiting + {ssrc}, ready := t.ready - {ssrc})]
    && WaitsFor(n.router.requests, session, KeyOf(t, ssrc))
    && BurstRuns(sys.router, n.router, KeyOf(t, ssrc)) && SameElsewhere(sys.router, n.router, KeyOf(t, ssrc))
    && SameForOthers(sys.router.requests, n.router.requests, session)
  }

  lemma MaybeRequestMade(sys: System, session: SessionId, ssrc: U32, target: U32, force: bool)
    requires Lives(sys, session) && ssrc != 0 && target != 0
    ensures var t := sys.transports[session];
            var n := MaybeRequest(sys, session, t.generation, ssrc, target, force);
            if force || (ssrc !in t.waiting && ssrc !in t.ready) then RequestMade(sys, n, session, ssrc) else n == sys
  {
    hide BurstRuns, SameElsewhere, Requested, Prepared;
    AgreeIffNothingPending(sys, session);
    SourceFacts(sys, session);
    var t := sys.transports[session];
    PreparedOutcome(t, ssrc, target, force);
    var (u, ask) := Prepared(t, t.generation, ssrc, target, force, false);
    hide Inv, SameWaiting;
    if ask {
      var key := KeyOf(t, ssrc);
      assert RequestAccepted(sys.router, key, session);
      RequestedRuns(sys.router, key, session);
      RequestedForOne(sys.router, key, session);
    } else {
      assert sys.transports[session := t] == sys.transports;
    }
  }

  /** The session was waiting for nothing it was not asked to, and the others were left alone. */
  ghost predicate OnlyThis(sys: System, n: System, session: SessionId, ssrc: U32, switched: bool)
    requires session in sys.transports
  {
    && SameForOtherTransports(sys, n, session) && SamePlace(sys.transports[session], n.transports[session])
    && SameForOthers(sys.router.requests, n.router.requests, session)
    && forall x :: x != ssrc ==>
         && (x in n.transports[session].waiting <==> !switched && x in sys.transports[session].waiting)
         && (x in n.transports[session].ready <==> !switched && x in sys.transports[session].ready)
  }

  ghost predicate Completes(sys: System, n: System, session: SessionId, ssrc: U32)
    requires session in sys.transports && sys.transports[session].source.Some?
  {
    && session in n.transports && ssrc in n.transports[session].ready && ssrc !in n.transports[session].waiting
    && !WaitsFor(n.router.requests, session, KeyOf(sys.transports[session], ssrc))
  }

  ghost predicate WaitsOnBothSides(sys: System, n: System, session: SessionId, ssrc: U32)
    requires session in sys.transports && sys.transports[session].source.Some?
  {
    && session in n.transports && ssrc in n.transports[session].waiting && ssrc !in n.transports[session].ready
    && WaitsFor(n.router.requests, session, KeyOf(sys.transports[session], ssrc))
  }

  /** The burst that a sent packet finds: a switch first takes this session out of it. */
  ghost predicate Found(r: State, key: Key, session: SessionId, switched: bool) {
    InBurst(r, key) && (switched ==> r.requests[key].waiters - {session} != {})
  }

  /** The packet makes the session ask: its source switched, a keyframe was cut off, or it neither waits nor is served. */
  predicate Needs(t: Transport, ssrc: U32, switched: bool, seen: Observation) {
    !seen.KeyframeCompleted? && (switched || seen.KeyframeAborted? || (ssrc !in t.waiting && ssrc !in t.ready))
  }

  lemma AgreedWaiting(sys: System, session: SessionId, ssrc: U32)
    requires Lives(sys, session)
    ensures var t := sys.transports[session];
            t.generation != 0 && session != "" && t.waiting !! t.ready && (ssrc in t.waiting <==> WaitsFor(sys.router.requests, session, KeyOf(t, ssrc)))
  {
    AgreeIffNothingPending(sys, session);
    SourceFacts(sys, session);
    hide Inv, WaitsFor;
    assert Waits(sys.router.requests, session, sys.transports[session], ssrc) <==>
           WaitsFor(sys.router.requests, session, KeyOf(sys.transports[session], ssrc));
  }

  lemma CompletionServes(sys: System, session: SessionId, ssrc: U32, target: U32)
    requires Lives(sys, session) && ssrc != 0
    ensures var n := RtpSent(sys, session, sys.transports[session].generation, ssrc, target, false, KeyframeCompleted);
            OnlyThis(sys, n, session, ssrc, false) && Completes(sys, n, session, ssrc)
  {
    var t := sys.transports[session];
    AgreedWaiting(sys, session, ssrc);
    AgreeIffNothingPending(sys, session);
    SourceFacts(sys, session);
    CompletedForOne(sys.router, KeyOf(t, ssrc), session);
    hide Agree, SameWaiting, Agrees, Completed, Inv, AgreeBut;
  }

  /** Without a switch. */
  lemma UnswitchedServes(sys: System, session: SessionId, ssrc: U32, target: U32, seen: Observation)
    requires Lives(sys, session) && ssrc != 0 && target != 0 && !seen.KeyframeCompleted?
    ensures var t := sys.transports[session];
            var n, key := RtpSent(sys, session, t.generation, ssrc, target, false, seen), KeyOf(t, ssrc);
            && OnlyThis(sys, n, session, ssrc, false)
            && (if Needs(t, ssrc, false, seen) then WaitsOnBothSides(sys, n, session, ssrc) && BurstRuns(sys.router, n.router, key) else n == sys)
  {
    hide MaybeRequest, BurstRuns, SameElsewhere, Agree;
    MaybeRequestMade(sys, session, ssrc, target, seen.KeyframeAborted?);
  }

  lemma SwitchCancels(sys: System, session: SessionId, ssrc: U32)
    requires Lives(sys, session)
    ensures var n, key := RecoveryCancelled(sys, session), KeyOf(sys.transports[session], ssrc);
            && Lives(n, session) && SamePlace(sys.transports[session], n.transports[session])
            && n.transports[session].waiting == {} && n.transports[session].ready == {}
            && SameForOtherTransports(sys, n, session) && SameForOthers(sys.router.requests, n.router.requests, session)
            && (InBurst(n.router, key) <==> Found(sys.router, key, session, true))
            && (InBurst(n.router, key) ==> SameBurst(sys.router, n.router, key))
  {
    var key := KeyOf(sys.transports[session], ssrc);
    RecoveryCancelledAgrees(sys, session);
    AgreedWaiting(sys, session, ssrc);
    CancelledBurst(sys.router, session, key);
    CancelledForOne(sys.router, session);
    hide CancelSubscribers, Agree, Inv, WaitsFor;
  }

  lemma SwitchThenSend(sys: System, session: SessionId, generation: nat, ssrc: U32, target: U32, seen: Observation)
    requires session in sys.transports && generation == sys.transports[session].generation && sys.transports[session].source.Some?
    ensures session in RecoveryCancelled(sys, session).transports
    ensures RtpSent(sys, session, generation, ssrc, target, true, seen) == RtpSent(RecoveryCancelled(sys, session), session, generation, ssrc, target, false, seen)
  {
    hide MaybeRequest, RequestCompleted, CancelSubscribers;
  }

  lemma OnlyThisAfterSwitch(sys: System, mid: System, n: System, session: SessionId, ssrc: U32)
    requires session in sys.transports && session in mid.transports
    requires SamePlace(sys.transports[session], mid.transports[session])
    requires mid.transports[session].waiting == {} && mid.transports[session].ready == {}
    requires SameForOtherTransports(sys, mid, session) && SameForOthers(sys.router.requests, mid.router.requests, session)
    requires OnlyThis(mid, n, session, ssrc, false)
    ensures OnlyThis(sys, n, session, ssrc, true)
  {
    hide WaitsFor;
  }

  /**
   A video packet sent to a live session either completes a keyframe, and nothing waits for its source
   any longer, or leaves the session as it was, because it is served or waits already, or leaves it
   waiting on both sides, with the publisher asked unless a burst for that source is running. Nothing
   else changes.
   */
  lemma RtpSentServes(sys: System, session: SessionId, ssrc: U32, target: U32, switched: bool, seen: Observation)
    requires Lives(sys, session) && ssrc != 0 && target != 0
    ensures var t := sys.transports[session];
            var n, key := RtpSent(sys, session, t.generation, ssrc, target, switched, seen), KeyOf(t, ssrc);
            && OnlyThis(sys, n, session, ssrc, switched)
            && (seen.KeyframeCompleted? ==> Completes(sys, n, session, ssrc))
            && (Needs(t, ssrc, switched, seen) ==>
                  && WaitsOnBothSides(sys, n, session, ssrc)
                  && if Found(sys.router, key, session, switched) then SameBurst(sys.router, n.router, key) else BurstBegun(n.router, key))
            && (!seen.KeyframeCompleted? && !Needs(t, ssrc, switched, seen) ==> n == sys)
            && (!seen.KeyframeCompleted? ==> WaitsOnBothSides(sys, n, session, ssrc) || (n == sys && ssrc in t.ready))
  {
    hide Agree, RtpSent, RecoveryCancelled, SamePlace, SameForOtherTransports, SameForOthers;
    AgreedWaiting(sys, session, ssrc);
    if switched {
      var mid := RecoveryCancelled(sys, session);
      SwitchCancels(sys, session, ssrc);
      SwitchThenSend(sys, session, sys.transports[session].generation, ssrc, target, seen);
      PlaceOf(sys.transports[session], mid.transports[session], ssrc);
      SendServes(mid, session, ssrc, target, seen);
      OnlyThisAfterSwitch(sys, mid, RtpSent(mid, session, sys.transports[session].generation, ssrc, target, false, seen), session, ssrc);
    } else {
      SendServes(sys, session, ssrc, target, seen);
    }
  }

  lemma PlaceOf(t: Transport, u: Transport, ssrc: U32)
    requires SamePlace(t, u) && t.source.Some?
    ensures u.source.Some? && u.generation == t.generation && KeyOf(u, ssrc) == KeyOf(t, ssrc)
  {
  }

  lemma SendServes(sys: System, session: SessionId, ssrc: U32, target: U32, seen: Observation)
    requires Lives(sys, session) && ssrc != 0 && target != 0
    ensures var t := sys.transports[session];
            var n, key := RtpSent(sys, session, t.generation, ssrc, target, false, seen), KeyOf(t, ssrc);
            && OnlyThis(sys, n, session, ssrc, false)
            && (seen.KeyframeCompleted? ==> Completes(sys, n, session, ssrc))
            && (!seen.KeyframeCompleted? ==>
                  if Needs(t, ssrc, false, seen) then WaitsOnBothSides(sys, n, session, ssrc) && BurstRuns(sys.router, n.router, key) else n == sys)
  {
    hide Agree, RtpSent, OnlyThis, Completes, WaitsOnBothSides, BurstRuns, Needs;
    if seen.KeyframeCompleted? {
      CompletionServes(sys, session, ssrc, target);
    } else {
      UnswitchedServes(sys, session, ssrc, target, seen);
    }
  }

  /** A packet of an old generation, or for a session without a source, asks for nothing and completes nothing. */
  lemma StaleIsIgnored(sys: System, session: SessionId, generation: nat, ssrc: U32, target: U32, switched: bool, seen: Observation, items: seq<(U32, U32)>)
    requires Agree(sys)
    ensures session !in sys.transports || sys.transports[session].source.None? ==>
              RtpSent(sys, session, generation, ssrc, target, switched, seen) == sys && FeedbackReceived(sys, session, items) == sys
    ensures session in sys.transports && generation != sys.transports[session].generation ==>
              RtpSent(sys, session, generation, ssrc, target, switched, seen) == sys
  {
    hide Agree, MaybeRequest, RequestCompleted, Dispatched;
    if session in sys.transports && sys.transports[session].source.None? {
      NothingPrepared(sys.transports[session], items, {});
      assert sys.transports[session := sys.transports[session]] == sys.transports;
    }
  }

  lemma {:induction false} NothingPrepared(t: Transport, items: seq<(U32, U32)>, seen: set<U32>)
    requires t.source.None?
    ensures FeedbackPrepared(t, items, seen) == (t, [])
    decreases |items|
  {
    if items != [] {
      NothingPrepared(t, items[1..], seen);
      NothingPrepared(t, items[1..], seen + {items[0].0});
    }
  }

  // ----- receiver feedback -----

  /** The first request for this SSRC in the feedback. */
  ghost predicate FirstAt(items: seq<(U32, U32)>, i: nat) {
    i < |items| && forall j :: 0 <= j < i ==> items[j].0 != items[i].0
  }

  /** The SSRCs asked for by a first request that names an output. */
  ghost predicate AskedFor(items: seq<(U32, U32)>, seen: set<U32>, ssrc: U32) {
    ssrc != 0 && ssrc !in seen && exists i: nat :: FirstAt(items, i) && items[i].0 == ssrc && items[i].1 != 0
  }

  lemma AskedForFirst(items: seq<(U32, U32)>, seen: set<U32>, ssrc: U32)
    requires items != []
    ensures AskedFor(items, seen, ssrc) <==>
            if items[0].0 == ssrc then ssrc != 0 && ssrc !in seen && items[0].1 != 0 else AskedFor(items[1..], seen, ssrc)
    ensures items[0].0 != ssrc ==> (AskedFor(items[1..], seen, ssrc) <==> AskedFor(items[1..], seen + {items[0].0}, ssrc))
  {
    var rest := items[1..];
    if items[0].0 == ssrc {
      assert FirstAt(items, 0);
      assert forall i: nat :: FirstAt(items, i) && items[i].0 == ssrc ==> i == 0;
    } else {
      if i: nat :| FirstAt(rest, i) && rest[i].0 == ssrc && rest[i].1 != 0 {
        assert items[i + 1] == rest[i] && forall j :: 0 < j <= i ==> items[j] == rest[j - 1];
        assert FirstAt(items, i + 1);
      }
      if i: nat :| FirstAt(items, i) && items[i].0 == ssrc && items[i].1 != 0 {
        assert items[i] == rest[i - 1] && forall j :: 0 <= j < i - 1 ==> rest[j] == items[j + 1];
        assert FirstAt(rest, i - 1);
      }
    }
  }

  /** Preparing all requests: every SSRC asked for waits, and those that did not before are to be dispatched. */
  lemma {:induction false} FeedbackPreparedSets(t: Transport, items: seq<(U32, U32)>, seen: set<U32>, ssrc: U32)
    requires t.source.Some? && t.generation != 0 && t.waiting !! t.ready
    ensures var (v, contexts) := FeedbackPrepared(t, items, seen);
            && SamePlace(t, v) && v.waiting !! v.ready
            && (ssrc in v.waiting <==> ssrc in t.waiting || AskedFor(items, seen, ssrc))
            && (ssrc in v.ready <==> ssrc in t.ready && !AskedFor(items, seen, ssrc))
            && (ssrc in SsrcsOf(contexts) <==> ssrc !in t.waiting && AskedFor(items, seen, ssrc))
    decreases |items|
  {
    hide AskedFor;
    if items == [] {
      assert !AskedFor(items, seen, ssrc) by {
        NothingAskedFor(seen, ssrc);
      }
    } else {
      var (first, target) := items[0];
      AskedForFirst(items, seen, ssrc);
      if first in seen {
        FeedbackPreparedSets(t, items[1..], seen, ssrc);
        if first == ssrc {
          SeenIsNotAsked(items[1..], seen, ssrc);
        }
      } else {
        var (u, ask) := Prepared(t, t.generation, first, target, true, true);
        FeedbackPreparedSets(u, items[1..], seen + {first}, ssrc);
        SeenIsNotAsked(items[1..], seen + {first}, first);
        var (v, rest) := FeedbackPrepared(u, items[1..], seen + {first});
        if ask {
          var contexts := [Context(t.source.value.publisher, t.generation, first)] + rest;
          assert contexts[1..] == rest;
        }
      }
    }
  }

  lemma NothingAskedFor(seen: set<U32>, ssrc: U32)
    ensures !AskedFor([], seen, ssrc)
  {
  }

  lemma SeenIsNotAsked(items: seq<(U32, U32)>, seen: set<U32>, ssrc: U32)
    requires ssrc in seen
    ensures !AskedFor(items, seen, ssrc)
  {
  }

  /** Dispatching begins or joins a burst for each, and touches no other request. */
  lemma {:induction false} DispatchedAllRuns(sys: System, session: SessionId, contexts: seq<Context>, pending: set<U32>, key: Key)
    requires AgreeBut(sys, session, pending) && GoodContexts(sys.transports[session], contexts)
    requires pending <= SsrcsOf(contexts)
    requires sys.transports[session].source.Some? && key == KeyOf(sys.transports[session], key.ssrc)
    ensures var n := DispatchedAll(sys, session, contexts);
            && n.transports == sys.transports && SameForOthers(sys.router.requests, n.router.requests, session)
            && if key.ssrc in SsrcsOf(contexts) then BurstRuns(sys.router, n.router, key) && WaitsFor(n.router.requests, session, key)
               else SameAt(sys.router, n.router, key)
    decreases |contexts|
  {
    if contexts != [] {
      SourceFacts(sys, session);
      var c := contexts[0];
      var next := Dispatched(sys, session, c);
      var t := sys.transports[session];
      var first := KeyOf(t, c.ssrc);
      assert RequestAccepted(sys.router, first, session);
      assert Inv(sys.router);
      RequestedRuns(sys.router, first, session);
      RequestedForOne(sys.router, first, session);
      hide AgreeBut, BurstRuns, SameElsewhere, Inv, Requested;
      assert next.router == Requested(sys.router, first, session);
      DispatchedAgrees(sys, session, pending, c);
      hide Dispatched;
      DispatchedAllRuns(next, session, contexts[1..], pending - {c.ssrc}, key);
      var n := DispatchedAll(sys, session, contexts);
      if key.ssrc == c.ssrc {
        FirstRuns(sys.router, next.router, n.router, key, session, key.ssrc in SsrcsOf(contexts[1..]));
      } else {
        LaterRuns(sys.router, next.router, n.router, first, key, key.ssrc in SsrcsOf(contexts[1..]));
      }
    }
  }

  /** Nothing about this key changes. */
  predicate SameAt(r: State, n: State, key: Key) {
    && (key in r.requests <==> key in n.requests) && (key in r.requests ==> r.requests[key] == n.requests[key])
    && (key in r.timers <==> key in n.timers) && (key in r.timers ==> r.timers[key] == n.timers[key])
  }

  lemma FirstRuns(r: State, mid: State, n: State, key: Key, session: SessionId, again: bool)
    requires BurstRuns(r, mid, key) && WaitsFor(mid.requests, session, key)
    requires if again then BurstRuns(mid, n, key) && WaitsFor(n.requests, session, key) else SameAt(mid, n, key)
    ensures BurstRuns(r, n, key) && WaitsFor(n.requests, session, key)
  {
  }

  lemma LaterRuns(r: State, mid: State, n: State, first: Key, key: Key, again: bool)
    requires SameElsewhere(r, mid, first) && key != first
    requires if again then BurstRuns(mid, n, key) else SameAt(mid, n, key)
    ensures if again then BurstRuns(r, n, key) else SameAt(r, n, key)
  {
  }

  /**
   Receiver feedback of a live session: every SSRC whose first request names an output ends up waiting
   on both sides, with a burst running, begun by this feedback unless the session waited already or
   others did. Every other SSRC, session and request stays as it was.
   */
  lemma FeedbackServes(sys: System, session: SessionId, items: seq<(U32, U32)>, ssrc: U32)
    requires Lives(sys, session)
    ensures var t := sys.transports[session];
            var n, key := FeedbackReceived(sys, session, items), KeyOf(t, ssrc);
            && SameForOtherTransports(sys, n, session) && SameForOthers(sys.router.requests, n.router.requests, session)
            && SamePlace(t, n.transports[session])
            && (AskedFor(items, {}, ssrc) ==>
                  && WaitsOnBothSides(sys, n, session, ssrc)
                  && if ssrc in t.waiting then SameAt(sys.router, n.router, key) else BurstRuns(sys.router, n.router, key))
            && (!AskedFor(items, {}, ssrc) ==>
                  && (ssrc in n.transports[session].waiting <==> ssrc in t.waiting)
                  && (ssrc in n.transports[session].ready <==> ssrc in t.ready)
                  && SameAt(sys.router, n.router, key))
  {
    var t := sys.transports[session];
    AgreeIffNothingPending(sys, session);
    AgreedWaiting(sys, session, ssrc);
    FeedbackPreparedSets(t, items, {}, ssrc);
    FeedbackPreparedAgrees(sys.router.requests, session, t, items, {}, {});
    var (v, contexts) := FeedbackPrepared(t, items, {});
    OthersStayInAgreement(sys, session, sys.router, v);
    assert {} + SsrcsOf(contexts) == SsrcsOf(contexts);
    var mid := sys.(transports := sys.transports[session := v]);
    hide FeedbackPrepared, SameWaiting, Inv, AskedFor, BurstRuns, Agree;
    assert AgreeBut(mid, session, SsrcsOf(contexts));
    DispatchedAllRuns(mid, session, contexts, SsrcsOf(contexts), KeyOf(t, ssrc));
  }

  // ----- sources, joining and leaving -----

  /** The session knows this source and waits for nothing. */
  ghost predicate ToldOf(sys: System, session: SessionId, stream: StreamId, generation: nat, source: Option<Source>) {
    session in sys.transports && sys.transports[session] == Transport(stream, generation, source, {}, {})
  }

  /** Nothing is asked of any publisher of the stream. */
  ghost predicate NothingAsked(r: State, stream: StreamId) {
    forall k: Key :: k.stream == stream ==> k !in r.requests && k !in r.timers
  }

  ghost predicate SameStream(sys: System, n: System, stream: StreamId) {
    && CurrentSource(n.router, stream) == CurrentSource(sys.router, stream)
    && CurrentGeneration(n.router, stream) == CurrentGeneration(sys.router, stream)
    && CurrentTimings(n.router, stream) == CurrentTimings(sys.router, stream)
    && (forall k: Key :: k.stream == stream ==> SameAt(sys.router, n.router, k))
    && forall s :: s in sys.transports && sys.transports[s].stream == stream ==> s in n.transports && n.transports[s] == sys.transports[s]
  }

  lemma BroadcastReaches(before: System, sys: System, stream: StreamId, source: Option<Source>)
    requires Agree(before) && Inv(sys.router) && sys.transports == before.transports && sys.router.subscriptions == before.router.subscriptions
    requires NothingAsked(sys.router, stream)
    ensures var n := SourceBroadcast(sys, stream, before.router.next, source);
            && n.transports.Keys == sys.transports.Keys && NothingAsked(n.router, stream)
            && SameDirectory(sys.router, n.router) && n.router.timings == sys.router.timings && n.router.next == sys.router.next
            && (forall s :: s in sys.transports && sys.transports[s].stream == stream ==> ToldOf(n, s, stream, before.router.next, source))
            && (forall s :: s in sys.transports && sys.transports[s].stream != stream ==> n.transports[s] == sys.transports[s])
            && forall k: Key :: k.stream != stream ==> SameAt(sys.router, n.router, k)
  {
    hide Inv, CancelSubscribers;
    var receivers := Receivers(sys, stream, before.router.next);
    ReceiversAre(before, sys, stream);
    hide Agree, Receivers;
    CancelledForMany(sys.router, receivers);
    CancelledElsewhere(sys.router, receivers, stream);
    assert forall s :: s in receivers ==> s in sys.transports;
  }

  lemma ReceiversAre(before: System, sys: System, stream: StreamId)
    requires Agree(before) && sys.transports == before.transports && sys.router.subscriptions == before.router.subscriptions
    ensures forall s :: s in Receivers(sys, stream, before.router.next) <==> s in sys.transports && sys.transports[s].stream == stream
    ensures forall s :: s in Receivers(sys, stream, before.router.next) ==> s in sys.router.subscriptions && sys.router.subscriptions[s] == stream
  {
    hide Inv;
    forall s | s in sys.transports
      ensures s in Receivers(sys, stream, before.router.next) <==> sys.transports[s].stream == stream
    {
      OldGenerationsAreSmaller(before, s);
      assert Agrees(before.router, s, before.transports[s]);
    }
  }

  /** Taking subscribers of one stream out of all requests leaves the requests of the others alone. */
  lemma CancelledElsewhere(r: State, sessions: set<SessionId>, stream: StreamId)
    requires Inv(r) && forall s :: s in sessions ==> s in r.subscriptions && r.subscriptions[s] == stream
    ensures var n := CancelSubscribers(r, sessions);
            && n.timings == r.timings && n.next == r.next
            && (NothingAsked(r, stream) ==> NothingAsked(n, stream))
            && forall k: Key :: k.stream != stream ==> SameAt(r, n, k)
  {
    hide Inv;
    forall k: Key | k.stream != stream
      ensures SameAt(r, CancelSubscribers(r, sessions), k)
    {
      if k in r.requests {
        InvAt(r, k);
        assert r.requests[k].waiters - sessions == r.requests[k].waiters;
      }
    }
  }

  /** Router and system forget what concerned the stream's old source; everybody on it hears of the new one. */
  lemma SourceSetTells(sys: System, stream: StreamId, publisher: SessionId)
    requires Agree(sys) && stream != "" && publisher != ""
    ensures var n, generation := SourceSetEverywhere(sys, stream, publisher), sys.router.next;
            && CurrentSource(n.router, stream) == Some(Source(publisher, generation)) && CurrentGeneration(n.router, stream) == generation
            && CurrentTimings(n.router, stream) == map[] && NothingAsked(n.router, stream) && n.router.next == generation + 1
            && n.router.subscriptions == sys.router.subscriptions && n.transports.Keys == sys.transports.Keys
            && (forall s :: s in sys.transports && sys.transports[s].stream == stream ==> ToldOf(n, s, stream, generation, Some(Source(publisher, generation))))
            && forall other: StreamId :: other != stream ==> SameStream(sys, n, other)
  {
    hide SourceBroadcast, Agree, SameAt;
    var mid := sys.(router := SourceSet(sys.router, stream, publisher));
    AgreedInv(sys);
    SourceSetKeepsInv(sys.router, stream, publisher);
    StreamCancelled(sys.router, mid.router, stream);
    hide Inv;
    BroadcastReaches(sys, mid, stream, Some(Source(publisher, sys.router.next)));
    var n := SourceSetEverywhere(sys, stream, publisher);
    forall other: StreamId | other != stream
      ensures SameStream(sys, n, other)
    {
      OtherStream(sys, mid, n, other);
    }
  }

  lemma AgreedInv(sys: System)
    requires Agree(sys)
    ensures Inv(sys.router)
  {
  }

  lemma StreamCancelled(r: State, n: State, stream: StreamId)
    requires Inv(r) && n.requests == CancelStream(r, stream).requests && n.timers == CancelStream(r, stream).timers
    ensures NothingAsked(n, stream) && forall k: Key :: k.stream != stream ==> SameAt(r, n, k)
  {
    hide GenerationsInv, RequestsInv, TimingsInv;
  }

  lemma OtherStream(sys: System, mid: System, n: System, other: StreamId)
    requires mid.transports == sys.transports && n.transports.Keys == sys.transports.Keys
    requires CurrentSource(mid.router, other) == CurrentSource(sys.router, other) && CurrentGeneration(mid.router, other) == CurrentGeneration(sys.router, other)
    requires CurrentTimings(mid.router, other) == CurrentTimings(sys.router, other)
    requires SameDirectory(mid.router, n.router) && n.router.timings == mid.router.timings
    requires forall k: Key :: k.stream == other ==> SameAt(sys.router, mid.router, k) && SameAt(mid.router, n.router, k)
    requires forall s :: s in sys.transports && sys.transports[s].stream == other ==> n.transports[s] == sys.transports[s]
    ensures SameStream(sys, n, other)
  {
  }

  /** The publisher's source ends: nobody has a source, waits, or is asked for; only the own publisher can do it. */
  lemma SourceClearedTells(sys: System, stream: StreamId, publisher: SessionId)
    requires Agree(sys)
    ensures var n, generation := SourceClearedEverywhere(sys, stream, publisher), sys.router.next;
            if CurrentSource(sys.router, stream).Some? && CurrentSource(sys.router, stream).value.publisher == publisher then
              && CurrentSource(n.router, stream) == None && CurrentGeneration(n.router, stream) == generation
              && CurrentTimings(n.router, stream) == map[] && NothingAsked(n.router, stream) && n.router.next == generation + 1
              && n.router.subscriptions == sys.router.subscriptions && n.transports.Keys == sys.transports.Keys
              && (forall s :: s in sys.transports && sys.transports[s].stream == stream ==> ToldOf(n, s, stream, generation, None))
              && forall other: StreamId :: other != stream ==> SameStream(sys, n, other)
            else n == sys
  {
    hide SourceBroadcast, Agree, SameAt;
    AgreedInv(sys);
    NamedSources(sys.router, stream);
    if CurrentSource(sys.router, stream).Some? && CurrentSource(sys.router, stream).value.publisher == publisher {
      var mid := sys.(router := SourceCleared(sys.router, stream, publisher));
      SourceClearedKeepsInv(sys.router, stream, publisher);
      StreamCancelled(sys.router, mid.router, stream);
      hide Inv;
      BroadcastReaches(sys, mid, stream, None);
      var n := SourceClearedEverywhere(sys, stream, publisher);
      forall other: StreamId | other != stream
        ensures SameStream(sys, n, other)
      {
        OtherStream(sys, mid, n, other);
      }
    }
  }

  lemma NamedSources(r: State, stream: StreamId)
    requires Inv(r)
    ensures CurrentSource(r, stream).Some? ==> stream != "" && CurrentSource(r, stream).value.publisher != "" && CurrentSource(r, stream).value.generation != 0
  {
    hide RequestsInv, TimersInv, TimingsInv;
  }

  /** A BYE of the current source: nobody waits for that SSRC or is served it, and its publisher is no longer asked for it. */
  lemma ByeForgets(sys: System, key: Key)
    requires Agree(sys)
    ensures var n := ByeEverywhere(sys, key);
            if CurrentSource(sys.router, key.stream) == Some(Source(key.publisher, key.generation)) && key.ssrc != 0 then
              && key !in n.router.requests && key !in n.router.timers && SameElsewhere(sys.router, n.router, key) && SameDirectory(sys.router, n.router)
              && n.transports.Keys == sys.transports.Keys
              && (forall s :: s in sys.transports ==> SamePlace(sys.transports[s], n.transports[s]))
              && (forall s, x :: s in sys.transports ==>
                    && (x in n.transports[s].waiting <==> x in sys.transports[s].waiting && !(x == key.ssrc && sys.transports[s].stream == key.stream))
                    && (x in n.transports[s].ready <==> x in sys.transports[s].ready && !(x == key.ssrc && sys.transports[s].stream == key.stream)))
              && CurrentTimings(n.router, key.stream) == CurrentTimings(sys.router, key.stream) - {key.ssrc}
              && forall other: StreamId :: other != key.stream ==> CurrentTimings(n.router, other) == CurrentTimings(sys.router, other)
            else n == sys
  {
    AgreedInv(sys);
    NamedSources(sys.router, key.stream);
    if CurrentSource(sys.router, key.stream) == Some(Source(key.publisher, key.generation)) && key.ssrc != 0 {
      ByeAtRouter(sys.router, key);
      hide Inv, ByePublished, SameElsewhere;
      var n := ByeEverywhere(sys, key);
      forall s | s in sys.transports
        ensures n.transports[s] == if sys.transports[s].stream == key.stream then ByeApplied(sys.transports[s], key) else sys.transports[s]
        ensures sys.transports[s].stream == key.stream ==> sys.transports[s].source == Some(Source(key.publisher, key.generation))
                                                           && sys.transports[s].generation == key.generation
      {
        assert Agrees(sys.router, s, sys.transports[s]);
        SourceGeneration(sys, s);
      }
      hide Agree;
    }
  }

  lemma SourceGeneration(sys: System, session: SessionId)
    requires Agree(sys) && session in sys.transports
    ensures var t := sys.transports[session]; t.source.Some? ==> t.source.value.generation == t.generation
  {
    AgreeIffNothingPending(sys, session);
    if sys.transports[session].source.Some? {
      SourceFacts(sys, session);
    }
  }

  lemma ByeAtRouter(r: State, key: Key)
    requires Inv(r) && PublisherEventAccepted(r, key)
    ensures var n := ByePublished(r, key);
            && key !in n.requests && key !in n.timers && SameElsewhere(r, n, key) && SameDirectory(r, n)
            && CurrentTimings(n, key.stream) == CurrentTimings(r, key.stream) - {key.ssrc}
            && forall other: StreamId :: other != key.stream ==> CurrentTimings(n, other) == CurrentTimings(r, other)
  {
    if key !in r.requests {
      TimerUntouched(r, key);
    }
    ByeAtRequests(r, key);
    ByeAtTimings(r, key);
    hide Inv, PublisherEventAccepted, ByePublished, CurrentTimings, SameElsewhere, SameDirectory;
  }

  lemma ByeAtRequests(r: State, key: Key)
    requires PublisherEventAccepted(r, key) && (key in r.timers ==> key in r.requests)
    ensures var n := ByePublished(r, key);
            key !in n.requests && key !in n.timers && SameElsewhere(r, n, key) && SameDirectory(r, n)
  {
    hide PublisherEventAccepted;
  }

  lemma ByeAtTimings(r: State, key: Key)
    requires PublisherEventAccepted(r, key)
    ensures var n := ByePublished(r, key);
            && CurrentTimings(n, key.stream) == CurrentTimings(r, key.stream) - {key.ssrc}
            && forall other: StreamId :: other != key.stream ==> CurrentTimings(n, other) == CurrentTimings(r, other)
  {
    hide PublisherEventAccepted;
    if key.stream !in r.timings {
      assert CurrentTimings(r, key.stream) - {key.ssrc} == map[];
    }
  }

  /** A sender timing of the current source is what the stream's subscribers are told of that SSRC from now on. */
  lemma TimingIsTold(r: State, key: Key, clock: SenderClock)
    requires Inv(r)
    ensures var n := TimingPublished(r, key, clock);
            if CurrentSource(r, key.stream) == Some(Source(key.publisher, key.generation)) && key.ssrc != 0 then
              && key.ssrc in CurrentTimings(n, key.stream)
              && CurrentTimings(n, key.stream)[key.ssrc].clock == clock
              && CurrentTimings(n, key.stream) - {key.ssrc} == CurrentTimings(r, key.stream) - {key.ssrc}
              && (forall other: StreamId :: other != key.stream ==> CurrentTimings(n, other) == CurrentTimings(r, other))
              && n.(timings := r.timings) == r
            else n == r
  {
    NamedSources(r, key.stream);
    hide Inv;
    if CurrentSource(r, key.stream) == Some(Source(key.publisher, key.generation)) && key.ssrc != 0 {
      AcceptedTiming(r, key, clock);
    }
  }

  lemma AcceptedTiming(r: State, key: Key, clock: SenderClock)
    requires PublisherEventAccepted(r, key)
    ensures var n := TimingPublished(r, key, clock);
            && key.ssrc in CurrentTimings(n, key.stream)
            && CurrentTimings(n, key.stream)[key.ssrc].clock == clock
            && CurrentTimings(n, key.stream) - {key.ssrc} == CurrentTimings(r, key.stream) - {key.ssrc}
            && (forall other: StreamId :: other != key.stream ==> CurrentTimings(n, other) == CurrentTimings(r, other))
            && n.(timings := r.timings) == r
  {
    hide PublisherEventAccepted;
  }

  /** A retry: the publisher is asked once more of at most five times, and the wait is armed again, under a new token, until the last. */
  lemma RetryAsks(sys: System, key: Key)
    requires Agree(sys) && key in sys.router.timers
    ensures key in sys.router.requests && key in RetryFired(sys, key).router.requests
    ensures var n, q := RetryFired(sys, key), sys.router.requests[key];
            var u := n.router.requests[key];
            && u.sentCount == q.sentCount + 1 <= RETRY_DELAYS + 1 && u.waiters == q.waiters
            && (u.active <==> u.sentCount <= RETRY_DELAYS) && (key in n.router.timers <==> u.active)
            && (u.active ==> n.router.timers[key] != sys.router.timers[key])
            && SameElsewhere(sys.router, n.router, key) && SameDirectory(sys.router, n.router) && n.transports == sys.transports
  {
    AgreedInv(sys);
    RetryAtRouter(sys.router, key);
    hide Agree, Inv, SameElsewhere, SameDirectory, RetryHandled;
  }

  lemma RetryAtRouter(r: State, key: Key)
    requires Inv(r) && key in r.timers
    ensures var n := RetryHandled(WaitTaken(r, key), key, r.timers[key]);
            && key in r.requests && key in n.requests
            && n.requests[key].sentCount == r.requests[key].sentCount + 1 <= RETRY_DELAYS + 1 && n.requests[key].waiters == r.requests[key].waiters
            && (n.requests[key].active <==> n.requests[key].sentCount <= RETRY_DELAYS) && (key in n.timers <==> n.requests[key].active)
            && (n.requests[key].active ==> n.timers[key] != r.timers[key])
            && SameElsewhere(r, n, key) && SameDirectory(r, n)
  {
    RetrySchedules(r, key);
    InvAt(r, key);
    ScheduledHere(WaitTaken(r, key), key, r.requests[key].(sentCount := r.requests[key].sentCount + 1));
    TakenElsewhere(r, key);
    hide Inv, RetryHandled, Scheduled, RequestOk, WaitTaken, SameElsewhere, SameDirectory;
  }

  lemma TakenElsewhere(r: State, key: Key)
    ensures key !in WaitTaken(r, key).timers && WaitTaken(r, key).requests == r.requests
    ensures forall n :: SameElsewhere(WaitTaken(r, key), n, key) ==> SameElsewhere(r, n, key)
    ensures forall n :: SameDirectory(WaitTaken(r, key), n) ==> SameDirectory(r, n)
  {
  }

  /** Scheduling a burst whose wait is over: the next wait under the next token, or the end after the last. */
  lemma ScheduledHere(r: State, key: Key, q: Request)
    requires key !in r.timers
    ensures var n := Scheduled(r, key, q);
            && key in n.requests && n.requests[key].sentCount == q.sentCount && n.requests[key].waiters == q.waiters
            && (if q.delayIndex < RETRY_DELAYS then
                  && n.requests[key].active == q.active && n.requests[key].delayIndex == q.delayIndex + 1
                  && key in n.timers && n.timers[key] == n.requests[key].token == q.token + 1
                else !n.requests[key].active && key !in n.timers)
            && SameElsewhere(r, n, key) && SameDirectory(r, n)
  {
    ScheduledElsewhere(r, key, q);
    hide SameElsewhere, SameDirectory;
  }

  lemma ScheduledElsewhere(r: State, key: Key, q: Request)
    ensures SameElsewhere(r, Scheduled(r, key, q), key) && SameDirectory(r, Scheduled(r, key, q))
  {
  }

  /** A changed nomination: the session waits for nothing, is served nothing, and asks anew with its next packet. */
  lemma NominationForgets(sys: System, session: SessionId)
    requires Agree(sys) && session in sys.transports
    ensures var n := Nominated(sys, session);
            && n.transports == sys.transports[session := sys.transports[session].(waiting := {}, ready := {})]
            && SameDirectory(sys.router, n.router) && SameForOthers(sys.router.requests, n.router.requests, session)
            && forall k :: !WaitsFor(n.router.requests, session, k)
  {
    CancelledForOne(sys.router, session);
    hide CancelSubscribers;
    assert session != "" by {
      assert session in sys.router.subscriptions;
    }
  }

  /** A session that leaves is gone on both sides, and the others stay as they are. */
  lemma DetachedIsGone(sys: System, session: SessionId)
    requires Agree(sys)
    ensures var n := Detached(sys, session);
            && n.transports == sys.transports - {session} && n.router.subscriptions == sys.router.subscriptions - {session}
            && (forall k :: !WaitsFor(n.router.requests, session, k)) && SameForOthers(sys.router.requests, n.router.requests, session)
            && n.router.sources == sys.router.sources && n.router.generations == sys.router.generations && n.router.timings == sys.router.timings
  {
    NobodyElseWaits(sys.router, session);
    AgreedInv(sys);
    CancelledForOne(sys.router, session);
    hide CancelSubscribers, Agree;
    if session !in sys.router.subscriptions {
      assert sys.router.subscriptions - {session} == sys.router.subscriptions;
    }
  }

  lemma NobodyElseWaits(r: State, session: SessionId)
    ensures Inv(r) && session !in r.subscriptions ==> forall k :: !WaitsFor(r.requests, session, k)
  {
    if Inv(r) && session !in r.subscriptions {
      forall k | k in r.requests
        ensures session !in r.requests[k].waiters
      {
        InvAt(r, k);
      }
    }
  }

  /** A session that joins is subscribed, told the current source and waits for nothing; the others stay as they are. */
  lemma AttachedIsTold(sys: System, session: SessionId, stream: StreamId)
    requires Agree(sys) && session != "" && stream != ""
    ensures var n := Attached(sys, session, stream);
            && n.router.subscriptions == sys.router.subscriptions[session := stream]
            && ToldOf(n, session, stream, CurrentGeneration(sys.router, stream), CurrentSource(sys.router, stream))
            && n.transports - {session} == sys.transports - {session}
            && (forall k :: !WaitsFor(n.router.requests, session, k)) && SameForOthers(sys.router.requests, n.router.requests, session)
            && n.router.sources == sys.router.sources && n.router.generations == sys.router.generations && n.router.timings == sys.router.timings
  {
    DetachedIsGone(sys, session);
    JoinedIsTold(Detached(sys, session), session, stream);
    hide Agree, Detached, Joined, SameForOthers, WaitsFor;
    JoinsOthers(sys.router.requests, Detached(sys, session).router.requests, Attached(sys, session, stream).router.requests, session);
    assert (sys.router.subscriptions - {session})[session := stream] == sys.router.subscriptions[session := stream];
  }

  lemma JoinsOthers(a: map<Key, Request>, b: map<Key, Request>, c: map<Key, Request>, session: SessionId)
    requires SameForOthers(a, b, session) && SameForOthers(b, c, session)
    ensures SameForOthers(a, c, session)
  {
    hide WaitsFor;
  }

  lemma JoinedIsTold(sys: System, session: SessionId, stream: StreamId)
    requires session != "" && stream != ""
    ensures var n := Joined(sys, session, stream);
            && n.router.subscriptions == sys.router.subscriptions[session := stream]
            && ToldOf(n, session, stream, CurrentGeneration(sys.router, stream), CurrentSource(sys.router, stream))
            && n.transports - {session} == sys.transports - {session}
            && (forall k :: !WaitsFor(n.router.requests, session, k)) && SameForOthers(sys.router.requests, n.router.requests, session)
            && n.router.sources == sys.router.sources && n.router.generations == sys.router.generations && n.router.timings == sys.router.timings
  {
    var joined := Subscribed(sys.router, stream, session);
    CancelledForOne(joined, session);
    CancelKeepsTimings(joined, session);
    hide CancelSubscribers, WaitsFor, SameForOthers;
  }

  lemma CancelKeepsTimings(r: State, session: SessionId)
    ensures CancelSubscribers(r, {session}).timings == r.timings
  {
  }
}
