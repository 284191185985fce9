/**
 The router and the WHEP transports as one system. Both sides keep a record of who waits for a
 keyframe of which source: the router in its requests, each transport in its waiting set
 (`media/media_fanout_router.cpp` and the keyframe parts of `session/whep_session_transport.cpp`).
 Every event below runs to completion, handlers included, before the next one starts.
 */
module KeyframeCoordination {
  import opened Wire
  import opened FanoutRouter

  datatype Transport = Transport(stream: StreamId, generation: nat, source: Option<Source>, waiting: set<U32>, ready: set<U32>)

  datatype System = System(router: State, transports: map<SessionId, Transport>)

  const START: System := System(INITIAL, map[])

  function KeyOf(t: Transport, ssrc: U32): Key
    requires t.source.Some?
  {
    Key(t.stream, t.source.value.publisher, t.generation, ssrc)
  }

  // ----- agreement -----

  predicate WaitsFor(requests: map<Key, Request>, session: SessionId, key: Key) {
    key in requests && session in requests[key].waiters
  }

  predicate Waits(requests: map<Key, Request>, session: SessionId, t: Transport, ssrc: U32) {
    t.source.Some? && WaitsFor(requests, session, KeyOf(t, ssrc))
  }

  /** The transport knows the router's source and generation. */
  predicate SameSource(r: State, session: SessionId, t: Transport) {
    && session in r.subscriptions && r.subscriptions[session] == t.stream
    && t.generation == CurrentGeneration(r, t.stream)
    && t.source == CurrentSource(r, t.stream)
  }

  /** The waiting set is what the router records for this session, apart from requests still to be dispatched. */
  ghost predicate SameWaiting(requests: map<Key, Request>, session: SessionId, t: Transport, pending: set<U32>) {
    && t.waiting !! t.ready
    && forall ssrc: U32 :: ssrc in t.waiting <==> Waits(requests, session, t, ssrc) || ssrc in pending
  }

  ghost predicate Agrees(r: State, session: SessionId, t: Transport) {
    SameSource(r, session, t) && SameWaiting(r.requests, session, t, {})
  }

  ghost predicate Agree(sys: System) {
    && Inv(sys.router)
    && sys.transports.Keys == sys.router.subscriptions.Keys
    && forall s :: s in sys.transports ==> Agrees(sys.router, s, sys.transports[s])
  }

  // ----- the transport's side, one session at a time -----

  function RecoveryCancelled(sys: System, session: SessionId): System
    requires session in sys.transports
  {
    System(
      if session == "" then sys.router else CancelSubscribers(sys.router, {session}),
      sys.transports[session := sys.transports[session].(waiting := {}, ready := {})])
  }

  /** A changed ICE nomination: the subscriber's recovery starts over. */
  function Nominated(sys: System, session: SessionId): System {
    if session in sys.transports then RecoveryCancelled(sys, session) else sys
  }

  function Prepared(t: Transport, generation: nat, ssrc: U32, target: U32, force: bool, coalesce: bool): (Transport, bool) {
    if generation == 0 || ssrc == 0 || target == 0 || generation != t.generation || t.source.None? then (t, false)
    else if coalesce && ssrc in t.waiting then (t, false)
    else if !force && ssrc in t.ready then (t, false)
    else
      var u := if force then t.(ready := t.ready - {ssrc}) else t;
      (u.(waiting := u.waiting + {ssrc}), force || ssrc !in t.waiting)
  }

  /** A prepared request remembers the source it was made for. */
  datatype Context = Context(publisher: SessionId, generation: nat, ssrc: U32)

  function Dispatched(sys: System, session: SessionId, c: Context): System
    requires session in sys.transports
  {
    var t := sys.transports[session];
    if c.generation != t.generation || t.source.None? || t.source.value.publisher != c.publisher || c.ssrc !in t.waiting then sys
    else
      var key := Key(t.stream, c.publisher, c.generation, c.ssrc);
      if RequestAccepted(sys.router, key, session) then sys.(router := Requested(sys.router, key, session))
      else sys.(transports := sys.transports[session := t.(waiting := t.waiting - {c.ssrc})])
  }

  function RequestCompleted(sys: System, session: SessionId, c: Context): System
    requires session in sys.transports
  {
    var t := sys.transports[session];
    if c.generation != t.generation || t.source.None? || t.source.value.publisher != c.publisher || c.ssrc !in t.ready then sys
    else sys.(router := Completed(sys.router, Key(t.stream, c.publisher, c.generation, c.ssrc), session))
  }

  /** What the keyframe tracker made of a sent video packet. */
  datatype Observation = Started | KeyframeCompleted | KeyframeAborted | OtherObservation

  function MaybeRequest(sys: System, session: SessionId, generation: nat, ssrc: U32, target: U32, force: bool): System
    requires session in sys.transports
  {
    var t := sys.transports[session];
    var (u, ask) := Prepared(t, generation, ssrc, target, force, false);
    var next := sys.(transports := sys.transports[session := u]);
    if ask && t.source.Some? then Dispatched(next, session, Context(t.source.value.publisher, generation, ssrc)) else next
  }

  /** The keyframe work that follows a video packet sent to one subscriber. */
  function RtpSent(sys: System, session: SessionId, generation: nat, ssrc: U32, target: U32, switched: bool, seen: Observation): System {
    if session !in sys.transports || generation != sys.transports[session].generation || sys.transports[session].source.None? then sys
    else
      var s1 := if switched then RecoveryCancelled(sys, session) else sys;
      var t := s1.transports[session];
      match seen
      case KeyframeCompleted =>
        var became := ssrc !in t.ready;
        var s2 := s1.(transports := s1.transports[session := t.(ready := t.ready + {ssrc}, waiting := t.waiting - {ssrc})]);
        if became then RequestCompleted(s2, session, Context(t.source.value.publisher, generation, ssrc)) else s2
      case KeyframeAborted => MaybeRequest(s1, session, generation, ssrc, target, true)
      case _ => MaybeRequest(s1, session, generation, ssrc, target, false)
  }

  /** Receiver PLI and FIR: first every request is prepared, then every prepared request is dispatched. */
  function FeedbackPrepared(t: Transport, items: seq<(U32, U32)>, seen: set<U32>): (Transport, seq<Context>)
    decreases |items|
  {
    if items == [] then (t, [])
    else
      var (ssrc, target) := items[0];
      if ssrc in seen then FeedbackPrepared(t, items[1..], seen)
      else
        var (u, ask) := Prepared(t, t.generation, ssrc, target, true, true);
        var (v, rest) := FeedbackPrepared(u, items[1..], seen + {ssrc});
        (v, if ask && t.source.Some? then [Context(t.source.value.publisher, t.generation, ssrc)] + rest else rest)
  }

  function DispatchedAll(sys: System, session: SessionId, contexts: seq<Context>): (r: System)
    requires session in sys.transports
    ensures session in r.transports
    decreases |contexts|
  {
    if contexts == [] then sys else DispatchedAll(Dispatched(sys, session, contexts[0]), session, contexts[1..])
  }

  function FeedbackReceived(sys: System, session: SessionId, items: seq<(U32, U32)>): System {
    if session !in sys.transports then sys
    else
      var (t, contexts) := FeedbackPrepared(sys.transports[session], items, {});
      DispatchedAll(sys.(transports := sys.transports[session := t]), session, contexts)
  }

  // ----- events that reach every subscriber of a stream -----

  /** Subscribers of the stream that accept a source update of this generation. */
  function Receivers(sys: System, stream: StreamId, generation: nat): set<SessionId> {
    set s | s in sys.transports && s in sys.router.subscriptions && sys.router.subscriptions[s] == stream && sys.transports[s].generation <= generation
  }

  function SourceBroadcast(sys: System, stream: StreamId, generation: nat, source: Option<Source>): System {
    var receivers := Receivers(sys, stream, generation);
    System(
      CancelSubscribers(sys.router, receivers),
      map s | s in sys.transports ::
        if s in receivers then Transport(sys.transports[s].stream, generation, source, {}, {}) else sys.transports[s])
  }

  function SourceSetEverywhere(sys: System, stream: StreamId, publisher: SessionId): System {
    if stream == "" || publisher == "" then sys
    else
      SourceBroadcast(sys.(router := SourceSet(sys.router, stream, publisher)), stream, sys.router.next, Some(Source(publisher, sys.router.next)))
  }

  function SourceClearedEverywhere(sys: System, stream: StreamId, publisher: SessionId): System {
    if stream == "" || publisher == "" || stream !in sys.router.sources || sys.router.sources[stream].publisher != publisher then sys
    else SourceBroadcast(sys.(router := SourceCleared(sys.router, stream, publisher)), stream, sys.router.next, None)
  }

  function ByeApplied(t: Transport, key: Key): Transport {
    if t.source.None? || key.publisher != t.source.value.publisher || key.generation != t.generation || key.ssrc == 0 then t
    else t.(waiting := t.waiting - {key.ssrc}, ready := t.ready - {key.ssrc})
  }

  function ByeEverywhere(sys: System, key: Key): System {
    if !PublisherEventAccepted(sys.router, key) then sys
    else
      System(
        ByePublished(sys.router, key),
        map s | s in sys.transports ::
          if s in sys.router.subscriptions && sys.router.subscriptions[s] == key.stream then ByeApplied(sys.transports[s], key)
          else sys.transports[s])
  }

  function Detached(sys: System, session: SessionId): System {
    System(Unsubscribed(sys.router, session), sys.transports - {session})
  }

  /** `set_peer_context`: leave the old stream, join the new one, hear of its current source. */
  function Attached(sys: System, session: SessionId, stream: StreamId): System {
    Joined(Detached(sys, session), session, stream)
  }

  function Joined(sys: System, session: SessionId, stream: StreamId): System {
    if stream == "" || session == "" then sys
    else
      var router := Subscribed(sys.router, stream, session);
      System(
        CancelSubscribers(router, {session}),
        sys.transports[session := Transport(stream, CurrentGeneration(router, stream), CurrentSource(router, stream), {}, {})])
  }

  function RetryFired(sys: System, key: Key): System {
    if key in sys.router.timers then sys.(router := RetryHandled(WaitTaken(sys.router, key), key, sys.router.timers[key])) else sys
  }

  datatype Event =
    | Attach(session: SessionId, stream: StreamId)
    | Detach(session: SessionId)
    | SetSource(stream: StreamId, publisher: SessionId)
    | ClearSource(stream: StreamId, publisher: SessionId)
    | Bye(key: Key)
    | SenderTiming(key: Key, clock: SenderClock)
    | Rtp(session: SessionId, generation: nat, ssrc: U32, target: U32, switched: bool, seen: Observation)
    | Feedback(session: SessionId, items: seq<(U32, U32)>)
    | RetryTimer(key: Key)
    | Nominate(session: SessionId)

  function Step(sys: System, e: Event): System {
    match e
    case Attach(session, stream) => Attached(sys, session, stream)
    case Detach(session) => Detached(sys, session)
    case SetSource(stream, publisher) => SourceSetEverywhere(sys, stream, publisher)
    case ClearSource(stream, publisher) => SourceClearedEverywhere(sys, stream, publisher)
    case Bye(key) => ByeEverywhere(sys, key)
    case SenderTiming(key, clock) => sys.(router := TimingPublished(sys.router, key, clock))
    case Rtp(session, generation, ssrc, target, switched, seen) => RtpSent(sys, session, generation, ssrc, target, switched, seen)
    case Feedback(session, items) => FeedbackReceived(sys, session, items)
    case RetryTimer(key) => RetryFired(sys, key)
    case Nominate(session) => Nominated(sys, session)
  }

  // ----- one session's steps -----

  ghost predicate OthersAgree(sys: System, session: SessionId) {
    && sys.transports.Keys == sys.router.subscriptions.Keys
    && forall s :: s in sys.transports && s != session ==> Agrees(sys.router, s, sys.transports[s])
  }

  /** Agreement while `session` still has the requests `pending` to dispatch. */
  ghost predicate AgreeBut(sys: System, session: SessionId, pending: set<U32>) {
    && Inv(sys.router)
    && OthersAgree(sys, session)
    && session in sys.transports
    && SameSource(sys.router, session, sys.transports[session])
    && SameWaiting(sys.router.requests, session, sys.transports[session], pending)
  }

  lemma AgreeIffNothingPending(sys: System, session: SessionId)
    requires session in sys.transports
    ensures Agree(sys) <==> AgreeBut(sys, session, {})
  {
  }

  ghost predicate SameForOthers(before: map<Key, Request>, after: map<Key, Request>, session: SessionId) {
    forall w, k :: w != session ==> (WaitsFor(before, w, k) <==> WaitsFor(after, w, k))
  }

  ghost predicate SameDirectory(r: State, n: State) {
    n.subscriptions == r.subscriptions && n.sources == r.sources && n.generations == r.generations
  }

  /** What one session does to its own requests does not disturb the others. */
  lemma OthersStayInAgreement(sys: System, session: SessionId, router: State, t: Transport)
    requires OthersAgree(sys, session) && session in sys.transports
    requires SameDirectory(sys.router, router) && SameForOthers(sys.router.requests, router.requests, session)
    ensures OthersAgree(System(router, sys.transports[session := t]), session)
  {
    var next := System(router, sys.transports[session := t]);
    assert next.transports.Keys == sys.transports.Keys;
    forall s | s in next.transports && s != session
      ensures Agrees(next.router, s, next.transports[s])
    {
      assert Agrees(sys.router, s, sys.transports[s]);
    }
  }

  lemma RequestedForOne(r: State, key: Key, session: SessionId)
    requires RequestAccepted(r, key, session)
    ensures SameDirectory(r, Requested(r, key, session))
    ensures SameForOthers(r.requests, Requested(r, key, session).requests, session)
    ensures forall k :: WaitsFor(Requested(r, key, session).requests, session, k) <==> WaitsFor(r.requests, session, k) || k == key
  {
  }

  lemma CompletedForOne(r: State, key: Key, session: SessionId)
    requires Inv(r) && key.stream != "" && session != "" && key.publisher != "" && key.generation != 0
    ensures SameDirectory(r, Completed(r, key, session))
    ensures SameForOthers(r.requests, Completed(r, key, session).requests, session)
    ensures forall k :: WaitsFor(Completed(r, key, session).requests, session, k) <==> WaitsFor(r.requests, session, k) && k != key
  {
    hide Inv;
    if key in r.requests {
      InvAt(r, key);
    }
    var n := Completed(r, key, session);
    if key in r.requests && key.ssrc != 0 && r.requests[key].waiters - {session} == {} {
      assert r.requests[key].waiters <= {session};
    }
  }

  lemma CancelledForOne(r: State, session: SessionId)
    ensures SameDirectory(r, CancelSubscribers(r, {session}))
    ensures SameForOthers(r.requests, CancelSubscribers(r, {session}).requests, session)
    ensures forall k :: !WaitsFor(CancelSubscribers(r, {session}).requests, session, k)
  {
    var n := CancelSubscribers(r, {session});
    forall w, k | w != session
      ensures WaitsFor(r.requests, w, k) <==> WaitsFor(n.requests, w, k)
    {
      if WaitsFor(r.requests, w, k) {
        assert w in r.requests[k].waiters - {session};
      }
    }
  }

  lemma RecoveryCancelledAgrees(sys: System, session: SessionId)
    requires Agree(sys) && session in sys.transports
    ensures Agree(RecoveryCancelled(sys, session))
  {
    hide Inv, CancelSubscribers;
    var n := CancelSubscribers(sys.router, {session});
    CancelSubscribersKeepsInv(sys.router, {session});
    CancelledForOne(sys.router, session);
    assert Agrees(sys.router, session, sys.transports[session]);
    OthersStayInAgreement(sys, session, n, sys.transports[session].(waiting := {}, ready := {}));
    AgreeIffNothingPending(RecoveryCancelled(sys, session), session);
  }

  lemma PreparedAgrees(requests: map<Key, Request>, session: SessionId, t: Transport, pending: set<U32>,
                       generation: nat, ssrc: U32, target: U32, force: bool, coalesce: bool)
    requires SameWaiting(requests, session, t, pending)
    ensures var (u, ask) := Prepared(t, generation, ssrc, target, force, coalesce);
            && u == t.(waiting := u.waiting, ready := u.ready) && t.waiting <= u.waiting
            && SameWaiting(requests, session, u, if ask then pending + {ssrc} else pending)
            && (ask ==> ssrc != 0 && ssrc in u.waiting && t.source.Some? && generation == t.generation)
  {
    var (u, ask) := Prepared(t, generation, ssrc, target, force, coalesce);
    if !ask {
      assert u.waiting == t.waiting;
    }
    var p := if ask then pending + {ssrc} else pending;
    forall x: U32
      ensures x in u.waiting <==> Waits(requests, session, u, x) || x in p
    {
      assert x in t.waiting <==> Waits(requests, session, t, x) || x in pending;
    }
  }

  /** A prepared request is always accepted by the router. */
  lemma DispatchedAgrees(sys: System, session: SessionId, pending: set<U32>, c: Context)
    requires AgreeBut(sys, session, pending)
    requires var t := sys.transports[session];
             t.source == Some(Source(c.publisher, c.generation)) && c.ssrc != 0 && c.ssrc in t.waiting
    ensures AgreeBut(Dispatched(sys, session, c), session, pending - {c.ssrc})
    ensures Dispatched(sys, session, c).transports == sys.transports
  {
    hide Inv, Requested;
    var t := sys.transports[session];
    var key := Key(t.stream, c.publisher, c.generation, c.ssrc);
    SourceFacts(sys, session);
    assert RequestAccepted(sys.router, key, session);
    var n := Requested(sys.router, key, session);
    RequestedKeepsInv(sys.router, key, session);
    RequestedForOne(sys.router, key, session);
    OthersStayInAgreement(sys, session, n, t);
    assert sys.transports[session := t] == sys.transports;
    forall x: U32
      ensures x in t.waiting <==> Waits(n.requests, session, t, x) || x in pending - {c.ssrc}
    {
      assert x in t.waiting <==> Waits(sys.router.requests, session, t, x) || x in pending;
    }
  }

  lemma SourceFacts(sys: System, session: SessionId)
    requires Inv(sys.router) && session in sys.transports && SameSource(sys.router, session, sys.transports[session])
    requires sys.transports[session].source.Some?
    ensures var t := sys.transports[session];
            && t.stream != "" && session != "" && t.source.value.publisher != ""
            && t.generation == t.source.value.generation != 0
            && IsCurrent(sys.router.sources, t.stream, t.source.value.publisher, t.generation)
  {
  }

  lemma MaybeRequestAgrees(sys: System, session: SessionId, generation: nat, ssrc: U32, target: U32, force: bool)
    requires Agree(sys) && session in sys.transports && sys.transports[session].source.Some?
    ensures Agree(MaybeRequest(sys, session, generation, ssrc, target, force))
  {
    var t := sys.transports[session];
    var (u, ask) := Prepared(t, generation, ssrc, target, force, false);
    var next := sys.(transports := sys.transports[session := u]);
    AgreeIffNothingPending(sys, session);
    PreparedAgrees(sys.router.requests, session, t, {}, generation, ssrc, target, force, false);
    SourceFacts(sys, session);
    OthersStayInAgreement(sys, session, sys.router, u);
    hide Inv, Prepared, SameWaiting;
    if ask {
      assert {} + {ssrc} == {ssrc};
      assert AgreeBut(next, session, {ssrc});
      var c := Context(t.source.value.publisher, generation, ssrc);
      DispatchedAgrees(next, session, {ssrc}, c);
      assert {ssrc} - {ssrc} == {};
      AgreeIffNothingPending(Dispatched(next, session, c), session);
    } else {
      AgreeIffNothingPending(next, session);
    }
  }

  lemma KeyframeCompletedAgrees(sys: System, session: SessionId, generation: nat, ssrc: U32)
    requires Agree(sys) && session in sys.transports
    requires sys.transports[session].source.Some? && generation == sys.transports[session].generation
    ensures Agree(RtpSent(sys, session, generation, ssrc, 0, false, KeyframeCompleted))
  {
    var t := sys.transports[session];
    var u := t.(ready := t.ready + {ssrc}, waiting := t.waiting - {ssrc});
    AgreeIffNothingPending(sys, session);
    SourceFacts(sys, session);
    var key := KeyOf(t, ssrc);
    if ssrc in t.ready {
      assert u.waiting == t.waiting && u.ready == t.ready;
      assert sys.transports[session := u] == sys.transports;
    } else {
      var n := Completed(sys.router, key, session);
      CompletedKeepsInv(sys.router, key, session);
      CompletedForOne(sys.router, key, session);
      OthersStayInAgreement(sys, session, n, u);
      assert SameWaiting(n.requests, session, u, {}) by {
        hide Completed, Inv;
        forall x: U32
          ensures x in u.waiting <==> Waits(n.requests, session, u, x)
        {
          assert x in t.waiting <==> Waits(sys.router.requests, session, t, x);
        }
      }
      AgreeIffNothingPending(System(n, sys.transports[session := u]), session);
    }
  }

  lemma RtpSentAgrees(sys: System, session: SessionId, generation: nat, ssrc: U32, target: U32, switched: bool, seen: Observation)
    requires Agree(sys)
    ensures Agree(RtpSent(sys, session, generation, ssrc, target, switched, seen))
  {
    hide Agree, Prepared, MaybeRequest, RequestCompleted;
    if session in sys.transports && generation == sys.transports[session].generation && sys.transports[session].source.Some? {
      var s1 := if switched then RecoveryCancelled(sys, session) else sys;
      if switched {
        RecoveryCancelledAgrees(sys, session);
      }
      match seen
      case KeyframeCompleted => KeyframeCompletedAgrees(s1, session, generation, ssrc);
      case KeyframeAborted => MaybeRequestAgrees(s1, session, generation, ssrc, target, true);
      case _ => MaybeRequestAgrees(s1, session, generation, ssrc, target, false);
    }
  }

  // ----- receiver feedback -----

  ghost function SsrcsOf(contexts: seq<Context>): set<U32> {
    if contexts == [] then {} else {contexts[0].ssrc} + SsrcsOf(contexts[1..])
  }

  /** Contexts that were prepared for the transport's current source and are still awaited. */
  ghost predicate GoodContexts(t: Transport, contexts: seq<Context>) {
    forall i :: 0 <= i < |contexts| ==>
      && contexts[i].ssrc != 0 && contexts[i].ssrc in t.waiting
      && t.source.Some? && contexts[i].publisher == t.source.value.publisher && contexts[i].generation == t.generation
  }

  lemma {:induction false} FeedbackPreparedAgrees(requests: map<Key, Request>, session: SessionId, t: Transport, items: seq<(U32, U32)>, seen: set<U32>, pending: set<U32>)
    requires SameWaiting(requests, session, t, pending)
    ensures var (v, contexts) := FeedbackPrepared(t, items, seen);
            && v == t.(waiting := v.waiting, ready := v.ready) && t.waiting <= v.waiting
            && SameWaiting(requests, session, v, pending + SsrcsOf(contexts))
            && GoodContexts(v, contexts)
    decreases |items|
  {
    if items == [] {
      assert pending + {} == pending;
    } else {
      var (ssrc, target) := items[0];
      if ssrc in seen {
        FeedbackPreparedAgrees(requests, session, t, items[1..], seen, pending);
      } else {
        var (u, ask) := Prepared(t, t.generation, ssrc, target, true, true);
        PreparedAgrees(requests, session, t, pending, t.generation, ssrc, target, true, true);
        hide Prepared, SameWaiting;
        var p := if ask then pending + {ssrc} else pending;
        FeedbackPreparedAgrees(requests, session, u, items[1..], seen + {ssrc}, p);
        if ask {
          var (v, rest) := FeedbackPrepared(u, items[1..], seen + {ssrc});
          var contexts := [Context(t.source.value.publisher, t.generation, ssrc)] + rest;
          assert contexts[1..] == rest;
          assert p + SsrcsOf(rest) == pending + SsrcsOf(contexts);
        }
      }
    }
  }

  lemma {:induction false} DispatchedAllAgrees(sys: System, session: SessionId, contexts: seq<Context>, pending: set<U32>)
    requires AgreeBut(sys, session, pending)
    requires GoodContexts(sys.transports[session], contexts) && pending <= SsrcsOf(contexts)
    ensures Agree(DispatchedAll(sys, session, contexts))
    decreases |contexts|
  {
    if contexts == [] {
      assert pending == {};
      AgreeIffNothingPending(sys, session);
    } else {
      SourceFacts(sys, session);
      hide AgreeBut, Dispatched;
      DispatchedAgrees(sys, session, pending, contexts[0]);
      var next := Dispatched(sys, session, contexts[0]);
      DispatchedAllAgrees(next, session, contexts[1..], pending - {contexts[0].ssrc});
    }
  }

  lemma FeedbackReceivedAgrees(sys: System, session: SessionId, items: seq<(U32, U32)>)
    requires Agree(sys)
    ensures Agree(FeedbackReceived(sys, session, items))
  {
    if session in sys.transports {
      AgreeIffNothingPending(sys, session);
      FeedbackPreparedAgrees(sys.router.requests, session, sys.transports[session], items, {}, {});
      var (t, contexts) := FeedbackPrepared(sys.transports[session], items, {});
      OthersStayInAgreement(sys, session, sys.router, t);
      assert {} + SsrcsOf(contexts) == SsrcsOf(contexts);
      var next := sys.(transports := sys.transports[session := t]);
      hide FeedbackPrepared, SameWaiting, Inv;
      assert AgreeBut(next, session, SsrcsOf(contexts));
      DispatchedAllAgrees(next, session, contexts, SsrcsOf(contexts));
    }
  }

  // ----- broadcasts -----

  lemma CancelledForMany(r: State, sessions: set<SessionId>)
    ensures SameDirectory(r, CancelSubscribers(r, sessions))
    ensures forall w, k :: WaitsFor(CancelSubscribers(r, sessions).requests, w, k) <==> WaitsFor(r.requests, w, k) && w !in sessions
  {
    var n := CancelSubscribers(r, sessions);
    forall w, k
      ensures WaitsFor(n.requests, w, k) <==> WaitsFor(r.requests, w, k) && w !in sessions
    {
      if WaitsFor(r.requests, w, k) && w !in sessions {
        assert w in r.requests[k].waiters - sessions;
      }
    }
  }

  /** A session keeps agreeing while nothing it looks at changes. */
  lemma AgreesTransfers(r: State, n: State, session: SessionId, t: Transport)
    requires Agrees(r, session, t) && SameSource(n, session, t)
    requires forall k: Key :: k.stream == t.stream ==> (WaitsFor(n.requests, session, k) <==> WaitsFor(r.requests, session, k))
    ensures Agrees(n, session, t)
  {
    forall x: U32
      ensures x in t.waiting <==> Waits(n.requests, session, t, x)
    {
      assert x in t.waiting <==> Waits(r.requests, session, t, x);
    }
  }

  /** A session with nothing recorded on either side agrees. */
  lemma NothingAwaitedAgrees(r: State, session: SessionId, t: Transport)
    requires SameSource(r, session, t) && t.waiting == {} && t.ready == {}
    requires forall k: Key :: k.stream == t.stream ==> !WaitsFor(r.requests, session, k)
    ensures Agrees(r, session, t)
  {
  }

  /** After a stream got a new generation and lost its requests, telling its subscribers restores agreement. */
  lemma SourceBroadcastAgrees(before: System, sys: System, stream: StreamId)
    requires Agree(before) && Inv(sys.router) && sys.transports == before.transports
    requires sys.router.subscriptions == before.router.subscriptions
    requires stream in sys.router.generations && sys.router.generations[stream] == before.router.next
    requires forall st :: st != stream ==>
               CurrentGeneration(sys.router, st) == CurrentGeneration(before.router, st) && CurrentSource(sys.router, st) == CurrentSource(before.router, st)
    requires forall w, k :: WaitsFor(sys.router.requests, w, k) <==> WaitsFor(before.router.requests, w, k) && k.stream != stream
    ensures Agree(SourceBroadcast(sys, stream, before.router.next, CurrentSource(sys.router, stream)))
  {
    var receivers := Receivers(sys, stream, before.router.next);
    var next := SourceBroadcast(sys, stream, before.router.next, CurrentSource(sys.router, stream));
    CancelSubscribersKeepsInv(sys.router, receivers);
    CancelledForMany(sys.router, receivers);
    hide CancelSubscribers, Inv, SameWaiting, WaitsFor, CurrentSource, CurrentGeneration;
    assert next.transports.Keys == sys.transports.Keys;
    forall s | s in next.transports
      ensures Agrees(next.router, s, next.transports[s])
    {
      var t := before.transports[s];
      assert Agrees(before.router, s, t);
      OldGenerationsAreSmaller(before, s);
      if t.stream == stream {
        assert s in receivers;
        ToldOfNewSource(sys.router, next.router, s, stream, before.router.next);
      } else {
        KeptOldSource(sys.router, next.router, t.stream);
        AgreesTransfers(before.router, next.router, s, t);
      }
    }
  }

  lemma ToldOfNewSource(r: State, n: State, session: SessionId, stream: StreamId, generation: nat)
    requires SameDirectory(r, n) && session in r.subscriptions && r.subscriptions[session] == stream
    requires stream in r.generations && r.generations[stream] == generation
    requires forall k: Key :: k.stream == stream ==> !WaitsFor(n.requests, session, k)
    ensures Agrees(n, session, Transport(stream, generation, CurrentSource(r, stream), {}, {}))
  {
    NothingAwaitedAgrees(n, session, Transport(stream, generation, CurrentSource(r, stream), {}, {}));
  }

  lemma KeptOldSource(r: State, n: State, stream: StreamId)
    requires SameDirectory(r, n)
    ensures CurrentSource(n, stream) == CurrentSource(r, stream) && CurrentGeneration(n, stream) == CurrentGeneration(r, stream)
  {
  }

  lemma OldGenerationsAreSmaller(sys: System, session: SessionId)
    requires Agree(sys) && session in sys.transports
    ensures sys.transports[session].generation < sys.router.next
  {
    assert Agrees(sys.router, session, sys.transports[session]);
  }

  lemma SourceSetAgrees(sys: System, stream: StreamId, publisher: SessionId)
    requires Agree(sys)
    ensures Agree(SourceSetEverywhere(sys, stream, publisher))
  {
    hide Inv, SourceBroadcast;
    if stream != "" && publisher != "" {
      SourceSetKeepsInv(sys.router, stream, publisher);
      var mid := sys.(router := SourceSet(sys.router, stream, publisher));
      SourceBroadcastAgrees(sys, mid, stream);
    }
  }

  lemma SourceClearedAgrees(sys: System, stream: StreamId, publisher: SessionId)
    requires Agree(sys)
    ensures Agree(SourceClearedEverywhere(sys, stream, publisher))
  {
    hide Inv, SourceBroadcast;
    if stream != "" && publisher != "" && stream in sys.router.sources && sys.router.sources[stream].publisher == publisher {
      SourceClearedKeepsInv(sys.router, stream, publisher);
      var mid := sys.(router := SourceCleared(sys.router, stream, publisher));
      SourceBroadcastAgrees(sys, mid, stream);
    }
  }

  lemma ByeAgrees(sys: System, key: Key)
    requires Agree(sys)
    ensures Agree(ByeEverywhere(sys, key))
  {
    if PublisherEventAccepted(sys.router, key) {
      ByePublishedKeepsInv(sys.router, key);
      ByeForAll(sys.router, key);
      assert forall st :: st in sys.router.sources ==> st in sys.router.generations && sys.router.generations[st] == sys.router.sources[st].generation;
      var next := ByeEverywhere(sys, key);
      hide Inv, ByePublished, SameWaiting, WaitsFor, ByeApplied;
      assert next.transports.Keys == sys.transports.Keys;
      forall s | s in next.transports
        ensures Agrees(next.router, s, next.transports[s])
      {
        assert Agrees(sys.router, s, sys.transports[s]);
        if sys.transports[s].stream == key.stream {
          ByeAppliedAgrees(sys.router, next.router, key, s, sys.transports[s]);
        } else {
          AgreesTransfers(sys.router, next.router, s, sys.transports[s]);
        }
      }
    }
  }

  lemma ByeForAll(r: State, key: Key)
    requires PublisherEventAccepted(r, key)
    ensures SameDirectory(r, ByePublished(r, key))
    ensures forall w, k :: WaitsFor(ByePublished(r, key).requests, w, k) <==> WaitsFor(r.requests, w, k) && k != key
  {
  }

  lemma ByeAppliedAgrees(r: State, n: State, key: Key, session: SessionId, t: Transport)
    requires Agrees(r, session, t) && SameDirectory(r, n) && PublisherEventAccepted(r, key) && t.stream == key.stream
    requires forall w, k :: WaitsFor(n.requests, w, k) <==> WaitsFor(r.requests, w, k) && k != key
    requires forall st :: st in r.sources ==> st in r.generations && r.generations[st] == r.sources[st].generation
    ensures Agrees(n, session, ByeApplied(t, key))
  {
    var u := ByeApplied(t, key);
    assert u.waiting == t.waiting - {key.ssrc};
    hide WaitsFor;
    forall x: U32
      ensures x in u.waiting <==> Waits(n.requests, session, u, x)
    {
      assert x in t.waiting <==> Waits(r.requests, session, t, x);
    }
  }

  // ----- joining and leaving -----

  lemma DetachedAgrees(sys: System, session: SessionId)
    requires Agree(sys)
    ensures Agree(Detached(sys, session)) && session !in Detached(sys, session).router.subscriptions
  {
    UnsubscribedKeepsInv(sys.router, session);
    var next := Detached(sys, session);
    CancelledForMany(sys.router, {session});
    assert next.transports.Keys == next.router.subscriptions.Keys;
    hide Inv, CancelSubscribers, WaitsFor, SameWaiting;
    forall s | s in next.transports
      ensures Agrees(next.router, s, next.transports[s])
    {
      assert Agrees(sys.router, s, sys.transports[s]);
      AgreesTransfers(sys.router, next.router, s, sys.transports[s]);
    }
  }

  lemma JoinedAgrees(sys: System, session: SessionId, stream: StreamId)
    requires Agree(sys) && session !in sys.router.subscriptions
    ensures Agree(Joined(sys, session, stream))
  {
    if stream != "" && session != "" {
      var joined := Subscribed(sys.router, stream, session);
      SubscribedKeepsInv(sys.router, stream, session);
      CancelSubscribersKeepsInv(joined, {session});
      CancelledForMany(joined, {session});
      hide Inv, CancelSubscribers, WaitsFor, SameWaiting;
      var next := Joined(sys, session, stream);
      assert next.transports.Keys == next.router.subscriptions.Keys;
      forall s | s in next.transports
        ensures Agrees(next.router, s, next.transports[s])
      {
        if s == session {
          NothingAwaitedAgrees(next.router, s, next.transports[s]);
        } else {
          assert Agrees(sys.router, s, sys.transports[s]);
          AgreesTransfers(sys.router, next.router, s, sys.transports[s]);
        }
      }
    }
  }

  lemma AttachedAgrees(sys: System, session: SessionId, stream: StreamId)
    requires Agree(sys)
    ensures Agree(Attached(sys, session, stream))
  {
    hide Agree, Joined, Detached;
    DetachedAgrees(sys, session);
    JoinedAgrees(Detached(sys, session), session, stream);
  }

  // ----- router-only events -----

  lemma SameWaitersAgree(sys: System, router: State)
    requires Agree(sys) && Inv(router) && SameDirectory(sys.router, router)
    requires forall w, k :: WaitsFor(router.requests, w, k) <==> WaitsFor(sys.router.requests, w, k)
    ensures Agree(sys.(router := router))
  {
    hide Inv, WaitsFor, SameWaiting;
    forall s | s in sys.transports
      ensures Agrees(router, s, sys.transports[s])
    {
      assert Agrees(sys.router, s, sys.transports[s]);
      AgreesTransfers(sys.router, router, s, sys.transports[s]);
    }
  }

  lemma RetryKeepsWaiters(r: State, key: Key, token: nat)
    requires RetryMatches(r, key, token) && IsCurrent(r.sources, key.stream, key.publisher, key.generation)
    ensures SameDirectory(r, RetryHandled(r, key, token))
    ensures forall w, k :: WaitsFor(RetryHandled(r, key, token).requests, w, k) <==> WaitsFor(r.requests, w, k)
  {
  }

  lemma RetryTimerAgrees(sys: System, key: Key)
    requires Agree(sys)
    ensures Agree(RetryFired(sys, key))
  {
    hide Inv, RetryHandled, WaitsFor, IsCurrent;
    if key in sys.router.timers {
      RetryAlwaysMatches(sys.router, key);
      RetryKeepsInv(sys.router, key);
      var taken := WaitTaken(sys.router, key);
      RetryKeepsWaiters(taken, key, sys.router.timers[key]);
      SameWaitersAgree(sys, RetryHandled(WaitTaken(sys.router, key), key, sys.router.timers[key]));
    }
  }

  // ----- every event, every run -----

  /** Router and transports agree after every event. */
  lemma StepAgrees(sys: System, e: Event)
    requires Agree(sys)
    ensures Agree(Step(sys, e))
  {
    hide Agree;
    match e
    case Attach(session, stream) => AttachedAgrees(sys, session, stream);
    case Detach(session) => DetachedAgrees(sys, session);
    case SetSource(stream, publisher) => SourceSetAgrees(sys, stream, publisher);
    case ClearSource(stream, publisher) => SourceClearedAgrees(sys, stream, publisher);
    case Bye(key) => ByeAgrees(sys, key);
    case SenderTiming(key, clock) => SenderTimingAgrees(sys, key, clock);
    case Rtp(session, generation, ssrc, target, switched, seen) => RtpSentAgrees(sys, session, generation, ssrc, target, switched, seen);
    case Feedback(session, items) => FeedbackReceivedAgrees(sys, session, items);
    case RetryTimer(key) => RetryTimerAgrees(sys, key);
    case Nominate(session) => NominatedAgrees(sys, session);
  }

  lemma NominatedAgrees(sys: System, session: SessionId)
    requires Agree(sys)
    ensures Agree(Nominated(sys, session))
  {
    hide Inv, Agree;
    if session in sys.transports {
      RecoveryCancelledAgrees(sys, session);
    }
  }

  lemma SenderTimingAgrees(sys: System, key: Key, clock: SenderClock)
    requires Agree(sys)
    ensures Agree(sys.(router := TimingPublished(sys.router, key, clock)))
  {
    TimingPublishedKeepsInv(sys.router, key, clock);
    hide Inv;
    SameWaitersAgree(sys, TimingPublished(sys.router, key, clock));
  }

  ghost function Run(sys: System, events: seq<Event>): System
    decreases |events|
  {
    if events == [] then sys else Run(Step(sys, events[0]), events[1..])
  }

  /** Router and transports agree in every reachable state. */
  lemma {:induction false} RunAgrees(sys: System, events: seq<Event>)
    requires Agree(sys)
    ensures Agree(Run(sys, events))
    decreases |events|
  {
    if events != [] {
      StepAgrees(sys, events[0]);
      hide Agree, Step;
      RunAgrees(Step(sys, events[0]), events[1..]);
    }
  }

  lemma StartAgrees()
    ensures Agree(START)
  {
  }

  /** From an empty relay, whatever happens, router and transports agree. */
  lemma ReachableAgree(events: seq<Event>)
    ensures Agree(Run(START, events))
  {
    StartAgrees();
    hide Agree, Run;
    RunAgrees(START, events);
  }

  // ----- generations -----

  /** The generations handed out along a run. */
  ghost function HandedOut(sys: System, events: seq<Event>): seq<nat>
    decreases |events|
  {
    if events == [] then []
    else
      var next := Step(sys, events[0]);
      (if next.router.next != sys.router.next then [sys.router.next] else []) + HandedOut(next, events[1..])
  }

  lemma NextNeverFalls(sys: System, e: Event)
    ensures Step(sys, e).router.next >= sys.router.next
  {
    hide RtpSent, FeedbackReceived, RetryHandled, Unsubscribed;
    match e
    case Feedback(session, items) => FeedbackKeepsNext(sys, session, items);
    case Rtp(session, generation, ssrc, target, switched, seen) => RtpKeepsNext(sys, session, generation, ssrc, target, switched, seen);
    case Attach(session, stream) => UnsubscribeKeepsNext(sys.router, session);
    case Detach(session) => UnsubscribeKeepsNext(sys.router, session);
    case RetryTimer(key) =>
      if key in sys.router.timers {
        RetryKeepsNext(WaitTaken(sys.router, key), key, sys.router.timers[key]);
      }
    case Nominate(session) => CancelKeepsNext(sys.router, session);
    case _ =>
  }

  lemma UnsubscribeKeepsNext(r: State, session: SessionId)
    ensures Unsubscribed(r, session).next == r.next
  {
  }

  lemma RetryKeepsNext(r: State, key: Key, token: nat)
    ensures RetryHandled(r, key, token).next == r.next
  {
  }

  lemma RtpKeepsNext(sys: System, session: SessionId, generation: nat, ssrc: U32, target: U32, switched: bool, seen: Observation)
    ensures RtpSent(sys, session, generation, ssrc, target, switched, seen).router.next == sys.router.next
  {
    hide Requested, Completed, CancelSubscribers;
    if session in sys.transports {
      var s1 := RecoveryCancelled(sys, session);
      CancelKeepsNext(sys.router, session);
      CoordinationKeepsNext(sys.router, session);
      CoordinationKeepsNext(s1.router, session);
    }
  }

  lemma CancelKeepsNext(r: State, session: SessionId)
    ensures CancelSubscribers(r, {session}).next == r.next
  {
  }

  lemma CoordinationKeepsNext(r: State, session: SessionId)
    ensures forall k :: Requested(r, k, session).next == r.next
    ensures forall k :: Completed(r, k, session).next == r.next
  {
  }

  lemma FeedbackKeepsNext(sys: System, session: SessionId, items: seq<(U32, U32)>)
    ensures FeedbackReceived(sys, session, items).router.next == sys.router.next
  {
    if session in sys.transports {
      var (t, contexts) := FeedbackPrepared(sys.transports[session], items, {});
      DispatchKeepsNext(sys.(transports := sys.transports[session := t]), session, contexts);
    }
  }

  lemma {:induction false} DispatchKeepsNext(sys: System, session: SessionId, contexts: seq<Context>)
    requires session in sys.transports
    ensures DispatchedAll(sys, session, contexts).router.next == sys.router.next
    decreases |contexts|
  {
    hide Requested;
    if contexts != [] {
      CoordinationKeepsNext(sys.router, session);
      DispatchKeepsNext(Dispatched(sys, session, contexts[0]), session, contexts[1..]);
    }
  }

  /** Along every run the generations handed out strictly increase. */
  lemma {:induction false} GenerationsIncrease(sys: System, events: seq<Event>)
    ensures forall i :: 0 <= i < |HandedOut(sys, events)| ==> HandedOut(sys, events)[i] >= sys.router.next
    ensures forall i, j :: 0 <= i < j < |HandedOut(sys, events)| ==> HandedOut(sys, events)[i] < HandedOut(sys, events)[j]
    decreases |events|
  {
    if events != [] {
      NextNeverFalls(sys, events[0]);
      hide Step;
      GenerationsIncrease(Step(sys, events[0]), events[1..]);
    }
  }
}
