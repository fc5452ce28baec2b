/** The protocol's guarantees over whole runs, from the empty system on. */
module RpcTheorems {
  import opened Wrappers
  import opened Timestamps
  import opened ScriptOutput
  import opened RpcMessages
  import opened RpcModel
  import opened RpcInvariants
  import opened RpcConservation
  import opened RpcReplies
  import opened RpcRuns
  import opened RpcCalls
  import opened RpcCapacity

  ghost predicate Sound(s: State) {
    && InPlace(s) && Conserved(s.broker) && Answering(s) && Working(s)
    && FuturesExact(s.gateway) && Linked(s) && Bounded(s)
  }

  lemma {:induction false} InitialSound()
    ensures Sound(Initial())
  {
  }

  lemma {:induction false} StepSound(s: State, e: Event)
    requires Sound(s) && Enabled(s, e)
    ensures Sound(Next(s, e))
  {
    hide InPlace, Conserved, Answering, Working, FuturesExact, Linked, Bounded, Enabled, Next;
    StepInPlace(s, e);
    StepConserves(s, e);
    StepAnswering(s, e);
    StepWorking(s, e);
    StepExact(s, e);
    StepLinked(s, e);
    StepBounded(s, e);
  }

  /** Every reachable state satisfies every invariant. */
  lemma {:induction false} RunSound(s: State, events: seq<Event>)
    requires Sound(s) && IsRun(s, events)
    ensures Sound(Run(s, events))
    decreases |events|
  {
    hide Sound, Enabled, Next;
    if events != [] {
      StepSound(s, events[0]);
      RunSound(Next(s, events[0]), events[1..]);
    }
  }

  ghost predicate Reachable(s: State) {
    exists events :: IsRun(Initial(), events) && s == Run(Initial(), events)
  }

  lemma {:induction false} ReachableSound(s: State)
    requires Reachable(s)
    ensures Sound(s)
  {
    hide Sound, Enabled, Next, Initial;
    var events :| IsRun(Initial(), events) && s == Run(Initial(), events);
    InitialSound();
    RunSound(Initial(), events);
  }

  /** End to end: in every reachable state, a call that returned got a worker's reply to its own message,
      under its own request id; and in every continuation that outcome stands. */
  lemma {:induction false} ReturnedIsOwn(s: State, cid: Cid, events: seq<Event>)
    requires Reachable(s) && IsRun(s, events)
    requires cid in s.gateway.calls && s.gateway.calls[cid].phase.Done? && s.gateway.calls[cid].phase.outcome.Returned?
    ensures var c := s.gateway.calls[cid];
      && RepliedTo(s.broker, cid, c.phase.outcome.response)
      && c.phase.outcome.response.requestId == c.request.requestId
      && cid in Run(s, events).gateway.calls
      && Run(s, events).gateway.calls[cid].phase == c.phase
  {
    hide InPlace, Conserved, Answering, Working, FuturesExact, Linked, Bounded;
    hide Enabled, Next, Initial, Reachable, RepliedTo;
    ReachableSound(s);
    ReturnsOwnReply(s, cid);
    FinishedOnce(s, events);
  }

  /** The script ran for the message call `cid` sent, and ended with exit code 0 as `run`. */
  ghost predicate RanFor(b: Broker, cid: Cid, run: Execution) {
    exists n: nat :: n < |b.messages| && b.messages[n].address == Address(Ours, cid)
      && RanBefore(b.history, |b.history|, n, run) && run.Exited? && run.returnCode == 0
  }

  /** Nothing completed is made up: in every reachable state, a call that returned a completed response got
      what a run of the script printed, ended with exit code 0 and started for that call's own message. */
  lemma {:induction false} CompletedIsRun(s: State, cid: Cid)
    requires Reachable(s) && cid in s.gateway.calls
    requires var p := s.gateway.calls[cid].phase;
      p.Done? && p.outcome.Returned? && p.outcome.response.status == Completed
    ensures var c := s.gateway.calls[cid];
      exists run :: RanFor(s.broker, cid, run) && Reports(c.phase.outcome.response, c.request.requestId, run)
  {
    hide InPlace, Conserved, Answering, FuturesExact, Linked, Bounded, Reachable, RanBefore, BuildResponse, Reports;
    ReachableSound(s);
    ReturnsOwnReply(s, cid);
    var b, r := s.broker, s.gateway.calls[cid].phase.outcome.response;
    var n: nat, j: nat :| n < |b.messages| && b.messages[n].address == Address(Ours, cid)
      && j < |b.history| && b.history[j] == Replied(n, r);
    EarnedStays(b.history, b.history, j, n, r);
    var run :| RanBefore(b.history, |b.history|, n, run) && run.Exited? && run.returnCode == 0
      && r == BuildResponse(r.requestId, run);
    BuildReports(r.requestId, run);
    assert RanFor(b, cid, run);
  }

  /** Conservation: every published request is in exactly one place, and an addressed one that was
      acknowledged had been replied to before. */
  lemma {:induction false} RequestsConserved(s: State, n: nat)
    requires Reachable(s) && n < |s.broker.messages|
    ensures Places(s.broker, n) == 1
    ensures forall i | 0 <= i < |s.broker.history| && s.broker.history[i] == Settled(n, Ack)
                       && s.broker.messages[n].address.Address? :: RepliedBefore(s.broker.history, i, n)
  {
    hide InPlace, Answering, Working, FuturesExact, Linked, Bounded, Reachable, RepliedBefore, Places;
    ReachableSound(s);
    forall i | 0 <= i < |s.broker.history| && s.broker.history[i] == Settled(n, Ack)
               && s.broker.messages[n].address.Address?
      ensures RepliedBefore(s.broker.history, i, n)
    {
      SettledMeans(s, i);
    }
  }

  // ----- runs without failed publishes and cancellations -----

  predicate Smooth(e: Event) {
    e.AtGateway? ==> !e.event.PublishRaises? && !e.event.Abort?
  }

  predicate NoneLoose(g: Gateway) {
    forall cid | cid in g.calls && g.calls[cid].phase.Done? ::
      !g.calls[cid].phase.outcome.PublishFailed? && !g.calls[cid].phase.outcome.Aborted?
  }

  lemma {:induction false} StepNoneLoose(s: State, e: Event)
    requires Enabled(s, e) && Smooth(e) && NoneLoose(s.gateway)
    ensures NoneLoose(Next(s, e).gateway)
  {
    hide Begin, SendRaised, ReplyWith, BuildResponse, FailedResponse, Encode, At;
    hide Requeue, Publish, SendReply, Settle, Deliver;
    match e
    case AtGateway(event) =>
    case _ =>
  }

  lemma {:induction false} RunNoneLoose(s: State, events: seq<Event>)
    requires IsRun(s, events) && NoneLoose(s.gateway) && forall e | e in events :: Smooth(e)
    ensures NoneLoose(Run(s, events).gateway)
    decreases |events|
  {
    hide Next, Enabled, NoneLoose, Smooth;
    if events != [] {
      StepNoneLoose(s, events[0]);
      RunNoneLoose(Next(s, events[0]), events[1..]);
    }
  }

  /** In such runs the registered futures belong to unfinished calls only, so the map is empty whenever
      no call is outstanding. */
  lemma {:induction false} FuturesDrain(events: seq<Event>)
    requires IsRun(Initial(), events) && forall e | e in events :: Smooth(e)
    ensures var g := Run(Initial(), events).gateway;
      && (forall cid | cid in g.futures :: cid in g.calls && !g.calls[cid].phase.Done?)
      && ((forall cid | cid in g.calls :: g.calls[cid].phase.Done?) ==> g.futures == {})
  {
    hide Next, Enabled, Smooth, InPlace, Conserved, Answering, Working, Linked, Bounded, CallOk;
    InitialSound();
    RunSound(Initial(), events);
    RunNoneLoose(Initial(), events);
    var g := Run(Initial(), events).gateway;
    forall cid | cid in g.futures ensures cid in g.calls && !g.calls[cid].phase.Done? {
      FuturesAreUnfinished(g, cid);
    }
  }

  // ----- capacity -----

  /** In every reachable state a worker on its first channel has no more processes than handlers that run a
      script, and no more of those than its prefetch. */
  lemma {:induction false} ProcessesBounded(s: State, w: nat)
    requires Reachable(s) && w in s.workers && s.workers[w].channel == 0
    ensures |s.workers[w].active| <= |RunningHandlers(s, w)| <= s.workers[w].prefetch
  {
    hide InPlace, Conserved, Answering, Working, FuturesExact, Linked, Bounded, Reachable, RunningHandlers;
    ReachableSound(s);
    ActiveBound(s, w);
    FirstChannelNotStale(s, w);
  }

  /** A worker on its first channel has room for one more process whenever a handler starts, and refuses
      nothing if its prefetch is within `max_concurrent_tasks`. */
  lemma {:induction false} CapacitySuffices(s: State, d: Delivery, freshId: string, now: DateTime, error: string)
    requires Reachable(s) && d in s.handlers && s.handlers[d].phase.Received? && now.Valid()
    ensures d.worker in s.workers && s.handlers[d].message < |s.broker.messages|
    ensures var w := s.workers[d.worker]; var m := s.broker.messages[s.handlers[d].message];
      w.channel == 0 ==>
        && |w.active| < w.prefetch
        && (w.prefetch <= w.maxTasks && Decode(m.body, freshId, now).Accepted? ==>
              Begin(m, w, freshId, now, error) == Preparing(Decode(m.body, freshId, now).request))
  {
    hide Conserved, Answering, Working, FuturesExact, Linked, Bounded, Reachable, Decode, Begin;
    ReachableSound(s);
    assert HandlerInPlace(s, d);
    if s.workers[d.worker].channel == 0 {
      FirstChannelNotStale(s, d.worker);
      RoomAtEntry(s, d);
      if s.workers[d.worker].prefetch <= s.workers[d.worker].maxTasks {
        assert |Stale(s, d.worker)| == 0;
        NeverRefused(s, d, freshId, now, error);
      }
    }
  }

  /** `reconnect` opens a channel but does not consume: nothing is delivered until a new subscription. */
  lemma {:induction false} SilentUntilSubscribed(s: State, events: seq<Event>, w: nat)
    requires IsRun(s, events) && w in s.workers && !s.workers[w].consuming
    requires Subscribe(w) !in events
    ensures w in Run(s, events).workers && !Run(s, events).workers[w].consuming
    ensures forall e | e in events :: !(e.DeliverTo? && e.worker == w)
    decreases |events|
  {
    hide Next, Enabled;
    if events != [] {
      StepSilent(s, events[0], w);
      SilentUntilSubscribed(Next(s, events[0]), events[1..], w);
      assert events == [events[0]] + events[1..];
    }
  }

  /** Losing the channel is what silences a worker. */
  lemma {:induction false} LostIsSilent(s: State, w: nat, events: seq<Event>)
    requires w in s.workers && IsRun(Next(s, ChannelLoss(w)), events) && Subscribe(w) !in events
    ensures forall e | e in events :: !(e.DeliverTo? && e.worker == w)
  {
    hide Requeue, IsRun;
    SilentUntilSubscribed(Next(s, ChannelLoss(w)), events, w);
  }

  lemma {:induction false} StepSilent(s: State, e: Event, w: nat)
    requires Enabled(s, e) && w in s.workers && !s.workers[w].consuming && e != Subscribe(w)
    ensures w in Next(s, e).workers && !Next(s, e).workers[w].consuming
    ensures !(e.DeliverTo? && e.worker == w)
  {
    hide GatewayNext, GatewayEnabled, OnResponse, Begin, SendRaised, ReplyWith, BuildResponse, FailedResponse, Encode;
    hide Requeue, Publish, SendReply, Settle, Deliver;
    match e
    case _ =>
  }

  // ----- a refusal that is reached -----

  lemma {:induction false} RunExtends(s: State, events: seq<Event>, e: Event)
    requires IsRun(s, events) && Enabled(Run(s, events), e)
    ensures IsRun(s, events + [e]) && Run(s, events + [e]) == Next(Run(s, events), e)
    decreases |events|
  {
    hide Next, Enabled;
    if events == [] {
      assert ([e])[1..] == [];
    } else {
      assert (events + [e])[1..] == events[1..] + [e];
      RunExtends(Next(s, events[0]), events[1..], e);
    }
  }

  lemma {:induction false} ReachNext(s: State, e: Event)
    requires Reachable(s) && Enabled(s, e)
    ensures Reachable(Next(s, e))
  {
    hide Next, Enabled, Initial;
    var events :| IsRun(Initial(), events) && s == Run(Initial(), events);
    RunExtends(Initial(), events, e);
  }

  /** A failed publish leaks: nothing is outstanding, and yet a future is registered. */
  lemma {:induction false} FailedPublishLeaks(r: Request) returns (s: State)
    requires r.Valid()
    ensures Reachable(s) && s.gateway.futures == {0} && s.gateway.calls.Keys == {0}
    ensures s.gateway.calls[0].phase == Done(PublishFailed)
  {
    InitialReachable();
    hide Reachable;
    var s1 := Next(Initial(), AtGateway(StartCall(0, r)));
    ReachNext(Initial(), AtGateway(StartCall(0, r)));
    s := Next(s1, AtGateway(PublishRaises(0)));
    ReachNext(s1, AtGateway(PublishRaises(0)));
  }

  /** A cancellation from outside leaks just the same. */
  lemma {:induction false} CancelledCallLeaks(r: Request) returns (s: State)
    requires r.Valid()
    ensures Reachable(s) && s.gateway.futures == {0} && s.gateway.calls.Keys == {0}
    ensures s.gateway.calls[0].phase == Done(Aborted)
  {
    InitialReachable();
    hide Reachable;
    var s1 := Next(Initial(), AtGateway(StartCall(0, r)));
    ReachNext(Initial(), AtGateway(StartCall(0, r)));
    s := Next(s1, AtGateway(Abort(0)));
    ReachNext(s1, AtGateway(Abort(0)));
  }

  lemma {:induction false} InitialReachable()
    ensures Reachable(Initial())
  {
    assert IsRun(Initial(), []) && Run(Initial(), []) == Initial();
  }

  const FIRST := Delivery(0, 0, 0)
  const SECOND := Delivery(0, 1, 1)

  /** A call that waits, its request published as message 0, with worker 0 at `w` and its `handlers`. */
  function OneCall(r: Request, ready: multiset<nat>, unacked: map<Delivery, nat>, w: Worker,
                   handlers: map<Delivery, Handler>, nextTag: nat): State {
    State(Gateway(map[0 := Call(r, Pending, true, Waiting)], {0}, {}),
          Broker([Message(Address(Ours, 0), Encode(r))], ready, unacked, [], multiset{}),
          map[0 := w], handlers, nextTag)
  }

  lemma {:induction false} QueuedReachable(r: Request)
    requires r.Valid()
    ensures Reachable(OneCall(r, multiset{0}, map[], Worker(1, 1, 0, true, {}), map[], 0))
  {
    hide Encode;
    InitialReachable();
    hide Reachable;
    var s1 := Next(Initial(), Join(0, 1, 1));
    ReachNext(Initial(), Join(0, 1, 1));
    var s2 := Next(s1, AtGateway(StartCall(0, r)));
    ReachNext(s1, AtGateway(StartCall(0, r)));
    var s3 := Next(s2, Send(0));
    ReachNext(s2, Send(0));
    var s4 := Next(s3, AtGateway(PublishReturns(0)));
    ReachNext(s3, AtGateway(PublishReturns(0)));
    var q := OneCall(r, multiset{0}, map[], Worker(1, 1, 0, true, {}), map[], 0);
    assert s4.gateway == q.gateway;
    assert s4.broker == q.broker;
    assert s4.workers == q.workers;
  }

  lemma {:induction false} PreparingReachable(r: Request, now: DateTime)
    requires r.Valid() && now.Valid()
    ensures Reachable(OneCall(r, multiset{}, map[FIRST := 0], Worker(1, 1, 0, true, {}),
                              map[FIRST := Handler(0, Preparing(r))], 1))
  {
    hide Encode, Decode, Reachable;
    QueuedReachable(r);
    var s4 := OneCall(r, multiset{0}, map[], Worker(1, 1, 0, true, {}), map[], 0);
    assert Outstanding(s4.broker, 0, 0) == {};
    var s5 := Next(s4, DeliverTo(0, 0));
    ReachNext(s4, DeliverTo(0, 0));
    DecodeEncode(r, "", now);
    var s6 := Next(s5, BeginHandler(FIRST, "", now, ""));
    ReachNext(s5, BeginHandler(FIRST, "", now, ""));
    assert s6.broker.ready == multiset{};
    assert s6 == OneCall(r, multiset{}, map[FIRST := 0], Worker(1, 1, 0, true, {}),
                         map[FIRST := Handler(0, Preparing(r))], 1);
  }

  /** The result of every run of the script can reach its caller: from the empty system on, call 0 returns the
      response to `run`, a process started for its own message. */
  lemma {:induction false} RunIsReturned(r: Request, now: DateTime, run: Execution) returns (s: State)
    requires r.Valid() && now.Valid()
    ensures Reachable(s) && 0 in s.gateway.calls && s.gateway.calls[0].request == r && s.gateway.futures == {}
    ensures s.gateway.calls[0].phase == Done(Returned(BuildResponse(r.requestId, run)))
    ensures Reports(BuildResponse(r.requestId, run), r.requestId, run)
    ensures s.broker.messages == [Message(Address(Ours, 0), Encode(r))] && Ran(0, run) in s.broker.history
  {
    hide Encode, Reachable, BuildResponse, Reports;
    BuildReports(r.requestId, run);
    var response := BuildResponse(r.requestId, run);
    PreparingReachable(r, now);
    var unacked := map[FIRST := 0 as nat];
    var s6 := OneCall(r, multiset{}, unacked, Worker(1, 1, 0, true, {}), map[FIRST := Handler(0, Preparing(r))], 1);
    var s7 := Next(s6, Spawn(FIRST, "proc"));
    ReachNext(s6, Spawn(FIRST, "proc"));
    var s8 := Next(s7, Exit(FIRST, run));
    ReachNext(s7, Exit(FIRST, run));
    var s9 := Next(s8, Notified(FIRST, None));
    ReachNext(s8, Notified(FIRST, None));
    var s10 := Next(s9, PublishReply(FIRST));
    ReachNext(s9, PublishReply(FIRST));
    assert s10.broker.history == [Ran(0, run), Replied(0, response)];
    assert s10.broker.replies == multiset{Reply(0, response)};
    ReplyIsReturned(s10, 0, response);
    var s11 := Next(s10, Arrive(Reply(0, response)));
    ReachNext(s10, Arrive(Reply(0, response)));
    s := Next(s11, AtGateway(Resume(0)));
    ReachNext(s11, AtGateway(Resume(0)));
  }

  lemma {:induction false} RequeueOne(b: Broker, d: Delivery, n: nat)
    requires b.unacked == map[d := n]
    ensures Requeue(b, d.worker, d.channel) == b.(ready := b.ready + multiset{n}, unacked := map[])
  {
    var back := set x | x in b.unacked && OnChannel(x, d.worker, d.channel) :: b.unacked[x];
    assert d in b.unacked && OnChannel(d, d.worker, d.channel);
    assert back == {n};
  }

  /** The request runs under a delivery whose channel is lost, and is back in the queue. */
  lemma {:induction false} RequeuedReachable(r: Request, now: DateTime)
    requires r.Valid() && now.Valid()
    ensures Reachable(OneCall(r, multiset{0}, map[], Worker(1, 1, 1, true, {"proc"}),
                              map[FIRST := Handler(0, Running(r, "proc"))], 1))
  {
    hide Encode, Reachable;
    var unacked := map[FIRST := 0 as nat];
    PreparingReachable(r, now);
    var s6 := OneCall(r, multiset{}, unacked, Worker(1, 1, 0, true, {}), map[FIRST := Handler(0, Preparing(r))], 1);
    var s7 := Next(s6, Spawn(FIRST, "proc"));
    ReachNext(s6, Spawn(FIRST, "proc"));
    assert s7.workers[0].active == {"proc"};
    var s8 := Next(s7, ChannelLoss(0));
    ReachNext(s7, ChannelLoss(0));
    RequeueOne(s7.broker, FIRST, 0);
    assert s8.broker == Requeue(s7.broker, 0, 0);
    assert multiset{} + multiset{0 as nat} == multiset{0};
    hide Requeue;
    var s9 := Next(s8, Subscribe(0));
    ReachNext(s8, Subscribe(0));
    var q := OneCall(r, multiset{0}, map[], Worker(1, 1, 1, true, {"proc"}),
                     map[FIRST := Handler(0, Running(r, "proc"))], 1);
    assert s9.workers[0] == q.workers[0] && s9.workers == q.workers;
    assert s9.handlers == q.handlers;
    assert s9.broker == q.broker;
  }

  lemma {:induction false} RefusingReachable(r: Request, now: DateTime)
    requires r.Valid() && now.Valid()
    ensures Reachable(OneCall(r, multiset{}, map[SECOND := 0], Worker(1, 1, 1, true, {"proc"}),
                              map[FIRST := Handler(0, Running(r, "proc")),
                                  SECOND := Handler(0, Replying(FailedResponse(r.requestId, CAPACITY_MESSAGE),
                                                                false, false))], 2))
  {
    hide Encode, Decode, Reachable, FailedResponse;
    RequeuedReachable(r, now);
    var s9 := OneCall(r, multiset{0}, map[], Worker(1, 1, 1, true, {"proc"}),
                      map[FIRST := Handler(0, Running(r, "proc"))], 1);
    assert Outstanding(s9.broker, 0, 1) == {};
    var s10 := Next(s9, DeliverTo(0, 0));
    ReachNext(s9, DeliverTo(0, 0));
    DecodeEncode(r, "", now);
    var s11 := Next(s10, BeginHandler(SECOND, "", now, ""));
    ReachNext(s10, BeginHandler(SECOND, "", now, ""));
    var refusing := Handler(0, Replying(FailedResponse(r.requestId, CAPACITY_MESSAGE), false, false));
    assert s11.broker.ready == multiset{};
    assert s11.handlers == map[FIRST := Handler(0, Running(r, "proc")), SECOND := refusing];
    assert s11.gateway == s9.gateway && s11.workers == s9.workers;
  }

  /** The refusal can be reached when a channel is lost while a script runs, even with prefetch 1 and
      max_concurrent_tasks 1: the redelivered request is refused, and the call returns the refusal
      although its own script is still running. */
  lemma {:induction false} RefusalReached(r: Request, now: DateTime) returns (s: State)
    requires r.Valid() && now.Valid()
    ensures Reachable(s) && 0 in s.gateway.calls && 0 in s.workers
    ensures s.gateway.calls[0].phase == Done(Returned(FailedResponse(r.requestId, CAPACITY_MESSAGE)))
    ensures FIRST in s.handlers && s.handlers[FIRST].phase == Running(r, "proc")
    ensures s.workers[0].prefetch == s.workers[0].maxTasks == 1
  {
    hide Encode, Reachable, FailedResponse;
    var refusal := FailedResponse(r.requestId, CAPACITY_MESSAGE);
    RefusingReachable(r, now);
    var s11 := OneCall(r, multiset{}, map[SECOND := 0], Worker(1, 1, 1, true, {"proc"}),
                       map[FIRST := Handler(0, Running(r, "proc")),
                           SECOND := Handler(0, Replying(refusal, false, false))], 2);
    var s12 := Next(s11, PublishReply(SECOND));
    ReachNext(s11, PublishReply(SECOND));
    assert s12.broker.replies == multiset{Reply(0, refusal)};
    var s13 := Next(s12, Arrive(Reply(0, refusal)));
    ReachNext(s12, Arrive(Reply(0, refusal)));
    s := Next(s13, AtGateway(Resume(0)));
    ReachNext(s13, AtGateway(Resume(0)));
  }
}
