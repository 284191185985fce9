/**
 The router object together with the WHEP transports it calls back. Each public method is one event
 of `KeyframeCoordination`; the loops walk the subscribers that the router collected, in any order.
 */
module MediaPlane {
  import opened Wire
  import opened FanoutRouter
  import opened KeyframeCoordination

  function Accepting(sys: System, told: set<SessionId>, generation: nat): set<SessionId> {
    set s | s in told && s in sys.transports && sys.transports[s].generation <= generation
  }

  /** The system after the subscribers in `told` heard of a source update. */
  function Told(sys: System, told: set<SessionId>, generation: nat, source: Option<Source>): System {
    var accepting := Accepting(sys, told, generation);
    System(
      CancelSubscribers(sys.router, accepting),
      map s | s in sys.transports ::
        if s in accepting then Transport(sys.transports[s].stream, generation, source, {}, {}) else sys.transports[s])
  }

  function HandledSource(sys: System, session: SessionId, generation: nat, source: Option<Source>): System {
    if session !in sys.transports || generation < sys.transports[session].generation then sys
    else
      System(
        CancelSubscribers(sys.router, {session}),
        sys.transports[session := Transport(sys.transports[session].stream, generation, source, {}, {})])
  }

  lemma CancelOneMore(r: State, sessions: set<SessionId>, session: SessionId)
    ensures CancelSubscribers(CancelSubscribers(r, sessions), {session}) == CancelSubscribers(r, sessions + {session})
  {
    var a, b := CancelSubscribers(CancelSubscribers(r, sessions), {session}), CancelSubscribers(r, sessions + {session});
    assert forall k :: k in r.requests ==> r.requests[k].waiters - sessions - {session} == r.requests[k].waiters - (sessions + {session});
    assert a.requests == b.requests;
    assert a.timers == b.timers;
  }

  lemma ToldOneMore(sys: System, told: set<SessionId>, session: SessionId, generation: nat, source: Option<Source>)
    requires session !in told
    ensures HandledSource(Told(sys, told, generation, source), session, generation, source) == Told(sys, told + {session}, generation, source)
  {
    var before, after := Accepting(sys, told, generation), Accepting(sys, told + {session}, generation);
    if session in sys.transports && sys.transports[session].generation <= generation {
      assert after == before + {session};
      CancelOneMore(sys.router, before, session);
      assert HandledSource(Told(sys, told, generation, source), session, generation, source).transports
          == Told(sys, told + {session}, generation, source).transports;
    } else {
      assert after == before;
    }
  }

  lemma CancelNobody(r: State)
    requires Inv(r)
    ensures CancelSubscribers(r, {}) == r
  {
    hide Inv;
    forall k | k in r.requests
      ensures r.requests[k].waiters != {}
    {
      InvAt(r, k);
    }
    SameRequests(r);
    assert CancelSubscribers(r, {}).timers == r.timers;
  }

  lemma SameRequests(r: State)
    requires forall k :: k in r.requests ==> r.requests[k].waiters != {}
    ensures CancelSubscribers(r, {}).requests == r.requests
  {
    assert forall k :: k in r.requests ==> r.requests[k].waiters - {} == r.requests[k].waiters;
  }

  lemma ToldNobody(sys: System, generation: nat, source: Option<Source>)
    requires Inv(sys.router)
    ensures Told(sys, {}, generation, source) == sys
  {
    hide Inv, CancelSubscribers;
    CancelNobody(sys.router);
    assert Accepting(sys, {}, generation) == {};
    assert Told(sys, {}, generation, source).transports == sys.transports;
  }

  class Plane {
    const router: Router
    var transports: map<SessionId, Transport>

    ghost function Model(): System
      reads this, router
    {
      System(router.Model(), transports)
    }

    ghost predicate Valid()
      reads this, router
    {
      Agree(Model())
    }

    constructor ()
      ensures Valid() && Model() == START && fresh(router)
    {
      router := new Router();
      transports := map[];
    }

    method HandlePublisherSource(session: SessionId, generation: nat, source: Option<Source>)
      modifies this, router
      ensures Model() == old(HandledSource(Model(), session, generation, source))
    {
      if session !in transports || generation < transports[session].generation {
        return;
      }
      router.CancelRequestsForSubscriber(session);
      transports := transports[session := Transport(transports[session].stream, generation, source, {}, {})];
    }

    method TellSubscribers(stream: StreamId, generation: nat, source: Option<Source>)
      requires Inv(router.Model())
      modifies this, router
      ensures Model() == old(SourceBroadcast(Model(), stream, generation, source))
    {
      hide CancelSubscribers, HandledSource, Inv;
      var subscribers := set s | s in router.subscriptions && router.subscriptions[s] == stream;
      var todo := subscribers;
      ToldNobody(Model(), generation, source);
      assert subscribers - todo == {};
      while todo != {}
        invariant todo <= subscribers
        invariant Model() == Told(old(Model()), subscribers - todo, generation, source)
        decreases todo
      {
        hide Told;
        var s :| s in todo;
        ToldOneMore(old(Model()), subscribers - todo, s, generation, source);
        HandlePublisherSource(s, generation, source);
        assert subscribers - todo + {s} == subscribers - (todo - {s});
        todo := todo - {s};
      }
      assert subscribers - todo == subscribers;
      ToldAll(old(Model()), subscribers, stream, generation, source);
    }

    method SetPublisherSource(stream: StreamId, publisher: SessionId) returns (generation: nat)
      requires Valid()
      modifies this, router
      ensures Model() == old(SourceSetEverywhere(Model(), stream, publisher))
      ensures generation == if stream == "" || publisher == "" then 0 else old(router.next)
      ensures Valid()
    {
      hide Agree, Inv, SourceBroadcast;
      SourceSetAgrees(Model(), stream, publisher);
      AgreeHasInv(Model());
      SourceSetKeepsInv(router.Model(), stream, publisher);
      generation := router.SetPublisherSource(stream, publisher);
      if generation == 0 {
        SourceSetIgnored(old(Model()), stream, publisher);
        return;
      }
      TellSubscribers(stream, generation, Some(Source(publisher, generation)));
    }

    method ClearPublisherSource(stream: StreamId, publisher: SessionId)
      requires Valid()
      modifies this, router
      ensures Model() == old(SourceClearedEverywhere(Model(), stream, publisher))
      ensures Valid()
    {
      hide Agree, Inv, SourceBroadcast;
      SourceClearedAgrees(Model(), stream, publisher);
      AgreeHasInv(Model());
      SourceClearedKeepsInv(router.Model(), stream, publisher);
      var generation := router.ClearPublisherSource(stream, publisher);
      if generation.None? {
        return;
      }
      TellSubscribers(stream, generation.value, None);
    }

    method PublishSourceBye(key: Key) returns (accepted: bool)
      requires Valid()
      modifies this, router
      ensures Model() == old(ByeEverywhere(Model(), key))
      ensures accepted == old(PublisherEventAccepted(router.Model(), key))
      ensures Valid()
    {
      hide Agree, ByePublished;
      ByeAgrees(Model(), key);
      accepted := router.PublishSourceBye(key);
      if !accepted {
        RejectedByeChangesNothing(old(router.Model()), key);
        return;
      }
      ByeKeepsSubscriptions(old(router.Model()), key);
      ApplyByeToSubscribers(key);
    }

    method PublishSenderTiming(key: Key, clock: SenderClock) returns (accepted: bool)
      requires Valid()
      modifies router
      ensures Model() == old(Model().(router := TimingPublished(router.Model(), key, clock)))
      ensures accepted == old(PublisherEventAccepted(router.Model(), key))
      ensures Valid()
    {
      hide Agree, TimingPublished;
      SenderTimingAgrees(Model(), key, clock);
      accepted := router.PublishSenderTiming(key, clock);
    }

    method ApplyByeToSubscribers(key: Key)
      modifies this`transports
      ensures transports == old(map s | s in transports ::
                if s in router.subscriptions && router.subscriptions[s] == key.stream then ByeApplied(transports[s], key) else transports[s])
    {
      var subscribers := set s | s in router.subscriptions && router.subscriptions[s] == key.stream;
      var todo := subscribers;
      while todo != {}
        invariant todo <= subscribers && transports.Keys == old(transports).Keys
        invariant forall s :: s in transports ==>
                    transports[s] == if s in subscribers && s !in todo then ByeApplied(old(transports)[s], key) else old(transports)[s]
        decreases todo
      {
        hide ByeApplied;
        var s :| s in todo;
        if s in transports {
          transports := transports[s := ByeApplied(transports[s], key)];
        }
        todo := todo - {s};
      }
    }

    method Detach(session: SessionId)
      requires Valid()
      modifies this, router
      ensures Model() == old(Detached(Model(), session))
      ensures Valid()
    {
      hide Agree, Unsubscribed;
      DetachedAgrees(Model(), session);
      router.Unsubscribe(session);
      transports := transports - {session};
    }

    /** `set_peer_context`: unsubscribe, subscribe, and hear of the stream's current source. */
    method Attach(session: SessionId, stream: StreamId)
      requires Valid()
      modifies this, router
      ensures Model() == old(Attached(Model(), session, stream))
      ensures Valid()
    {
      hide Agree, Unsubscribed, HandledSource, Joined, Subscribed;
      AttachedAgrees(Model(), session, stream);
      router.Unsubscribe(session);
      transports := transports - {session};
      ghost var left := Model();
      if stream == "" || session == "" {
        JoinRejected(left, session, stream);
        return;
      }
      JoinSteps(left, session, stream);
      var told := router.Subscribe(stream, session);
      transports := transports[session := Transport(stream, 0, None, {}, {})];
      HandlePublisherSource(session, told.value.generation, told.value.source);
    }

    /** The peer's nominated endpoint changed: waiting and ready start over, on both sides. */
    method NominationChanged(session: SessionId)
      requires Valid()
      modifies this, router
      ensures Model() == old(Nominated(Model(), session))
      ensures Valid()
    {
      hide Agree, CancelSubscribers;
      NominatedAgrees(Model(), session);
      if session !in transports {
        return;
      }
      router.CancelKeyframeRequests(session);
      transports := transports[session := transports[session].(waiting := {}, ready := {})];
    }

    method Dispatch(session: SessionId, c: Context)
      requires session in transports
      modifies this, router
      ensures Model() == old(Dispatched(Model(), session, c))
    {
      hide Requested, RequestAccepted;
      var t := transports[session];
      if c.generation != t.generation || t.source.None? || t.source.value.publisher != c.publisher || c.ssrc !in t.waiting {
        return;
      }
      var key := Key(t.stream, c.publisher, c.generation, c.ssrc);
      var accepted, asked := router.RequestKeyframe(key, session);
      if !accepted {
        RejectedRequestChangesNothing(old(router.Model()), key, session);
        transports := transports[session := t.(waiting := t.waiting - {c.ssrc})];
      }
    }

    method Request(session: SessionId, generation: nat, ssrc: U32, target: U32, force: bool)
      requires session in transports
      modifies this, router
      ensures Model() == old(MaybeRequest(Model(), session, generation, ssrc, target, force))
    {
      hide Dispatched;
      var t := transports[session];
      var (u, ask) := Prepared(t, generation, ssrc, target, force, false);
      transports := transports[session := u];
      if ask && t.source.Some? {
        Dispatch(session, Context(t.source.value.publisher, generation, ssrc));
      }
    }

    /** The keyframe work after a video packet was sent to one subscriber. */
    method VideoPacketSent(session: SessionId, generation: nat, ssrc: U32, target: U32, switched: bool, seen: Observation)
      requires Valid()
      modifies this, router
      ensures Model() == old(RtpSent(Model(), session, generation, ssrc, target, switched, seen))
      ensures Valid()
    {
      hide Agree, MaybeRequest, CancelSubscribers, Completed;
      RtpSentAgrees(Model(), session, generation, ssrc, target, switched, seen);
      if session !in transports || generation != transports[session].generation || transports[session].source.None? {
        return;
      }
      if switched {
        router.CancelKeyframeRequests(session);
        transports := transports[session := transports[session].(waiting := {}, ready := {})];
      }
      var t := transports[session];
      match seen
      case KeyframeCompleted =>
        transports := transports[session := t.(ready := t.ready + {ssrc}, waiting := t.waiting - {ssrc})];
        if ssrc !in t.ready {
          router.CompleteKeyframeRequest(Key(t.stream, t.source.value.publisher, generation, ssrc), session);
        }
      case KeyframeAborted => Request(session, generation, ssrc, target, true);
      case _ => Request(session, generation, ssrc, target, false);
    }

    /** Receiver PLI and FIR: prepare everything, then dispatch everything. */
    method ReceiverFeedback(session: SessionId, items: seq<(U32, U32)>)
      requires Valid()
      modifies this, router
      ensures Model() == old(FeedbackReceived(Model(), session, items))
      ensures Valid()
    {
      hide Agree, DispatchedAll, FeedbackPrepared;
      FeedbackReceivedAgrees(Model(), session, items);
      if session !in transports {
        return;
      }
      var t, contexts := PrepareAll(transports[session], items);
      transports := transports[session := t];
      DispatchAll(session, contexts);
    }

    static method PrepareAll(start: Transport, items: seq<(U32, U32)>) returns (t: Transport, contexts: seq<Context>)
      ensures (t, contexts) == FeedbackPrepared(start, items, {})
    {
      t, contexts := start, [];
      var seen: set<U32> := {};
      ghost var all := FeedbackPrepared(start, items, {});
      ghost var rest := all.1;
      assert items[0..] == items;
      for i := 0 to |items|
        invariant FeedbackPrepared(t, items[i..], seen) == (all.0, rest)
        invariant all.1 == contexts + rest
      {
        hide Prepared;
        assert items[i..][1..] == items[i + 1..];
        var (ssrc, target) := items[i];
        if ssrc !in seen {
          seen := seen + {ssrc};
          var (u, ask) := Prepared(t, t.generation, ssrc, target, true, true);
          if ask && t.source.Some? {
            contexts := contexts + [Context(t.source.value.publisher, t.generation, ssrc)];
            rest := rest[1..];
          }
          t := u;
        }
      }
      assert items[|items|..] == [];
      assert contexts + [] == contexts;
    }

    method DispatchAll(session: SessionId, contexts: seq<Context>)
      requires session in transports
      modifies this, router
      ensures Model() == old(DispatchedAll(Model(), session, contexts))
    {
      hide Dispatched;
      assert contexts[0..] == contexts;
      for i := 0 to |contexts|
        invariant session in transports
        invariant DispatchedAll(Model(), session, contexts[i..]) == old(DispatchedAll(Model(), session, contexts))
      {
        assert contexts[i..][1..] == contexts[i + 1..];
        DispatchKeepsSession(Model(), session, contexts[i]);
        Dispatch(session, contexts[i]);
      }
    }

    method RetryTimerFired(key: Key)
      requires Valid()
      modifies this, router
      ensures Model() == old(RetryFired(Model(), key))
      ensures Valid()
    {
      hide Agree, RetryHandled, Inv;
      RetryTimerAgrees(Model(), key);
      AgreeHasInv(Model());
      if key in router.timers {
        var asked := router.FireTimer(key);
      }
    }
  }

  lemma DispatchKeepsSession(sys: System, session: SessionId, c: Context)
    requires session in sys.transports
    ensures session in Dispatched(sys, session, c).transports
  {
  }

  lemma RejectedRequestChangesNothing(r: State, key: Key, session: SessionId)
    requires !RequestAccepted(r, key, session)
    ensures Requested(r, key, session) == r
  {
  }

  lemma RejectedByeChangesNothing(r: State, key: Key)
    requires !PublisherEventAccepted(r, key)
    ensures ByePublished(r, key) == r
  {
  }

  /** Subscribing and handling the initial update, step by step, is joining. */
  lemma JoinSteps(sys: System, session: SessionId, stream: StreamId)
    requires stream != "" && session != ""
    ensures var router := Subscribed(sys.router, stream, session);
            HandledSource(System(router, sys.transports[session := Transport(stream, 0, None, {}, {})]),
                          session, CurrentGeneration(router, stream), CurrentSource(router, stream))
            == Joined(sys, session, stream)
  {
    hide CancelSubscribers;
    var router := Subscribed(sys.router, stream, session);
    var t, u := Transport(stream, 0, None, {}, {}), Transport(stream, CurrentGeneration(router, stream), CurrentSource(router, stream), {}, {});
    assert sys.transports[session := t][session := u] == sys.transports[session := u];
  }

  lemma JoinRejected(sys: System, session: SessionId, stream: StreamId)
    requires stream == "" || session == ""
    ensures Joined(sys, session, stream) == sys
  {
  }

  lemma ByeKeepsSubscriptions(r: State, key: Key)
    ensures ByePublished(r, key).subscriptions == r.subscriptions
  {
  }

  lemma AgreeHasInv(sys: System)
    requires Agree(sys)
    ensures Inv(sys.router)
  {
  }

  lemma SourceSetIgnored(sys: System, stream: StreamId, publisher: SessionId)
    requires Agree(sys)
    ensures sys.router.next > 0
  {
  }

  lemma ToldAll(sys: System, subscribers: set<SessionId>, stream: StreamId, generation: nat, source: Option<Source>)
    requires subscribers == set s | s in sys.router.subscriptions && sys.router.subscriptions[s] == stream
    ensures Told(sys, subscribers, generation, source) == SourceBroadcast(sys, stream, generation, source)
  {
    hide CancelSubscribers;
    assert Accepting(sys, subscribers, generation) == Receivers(sys, stream, generation);
  }
}
