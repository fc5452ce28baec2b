/** The gateway's side of the protocol: which futures stay registered, which reply a call returns, and
    that a call ends once. */
module RpcCalls {
  import opened Wrappers
  import opened ScriptOutput
  import opened RpcMessages
  import opened RpcModel
  import opened RpcReplies

  // ----- the futures map -----

  /** Phases whose coroutine has removed its future, or found it removed. */
  predicate Removed(p: Phase) {
    p.Done? && (p.outcome.Returned? || p.outcome.TimedOut? || p.outcome.Raised?)
  }

  ghost predicate CallOk(g: Gateway, cid: Cid)
    requires cid in g.calls
  {
    var c := g.calls[cid];
    && c.request.Valid()
    && (cid in g.futures <==> cid !in g.answered && !Removed(c.phase))
    && (cid in g.answered ==> c.future != Pending)
    && (c.future.Result? || c.future.Excepted? ==> cid in g.answered)
    && (c.phase.Done? && c.phase.outcome.Returned? ==> c.future == Result(c.phase.outcome.response))
    && (c.phase == Publishing ==> c.future != Cancelled)
    && (!c.sent ==> c.phase == Publishing || c.phase == Done(PublishFailed) || c.phase == Done(Aborted))
  }

  /** The keys of `futures` are exactly the calls no reply has reached and no coroutine has removed. */
  ghost predicate FuturesExact(g: Gateway) {
    && g.futures <= g.calls.Keys && g.answered <= g.calls.Keys
    && forall cid | cid in g.calls :: CallOk(g, cid)
  }

  lemma {:induction false} GatewayKeepsExact(g: Gateway, e: GatewayEvent)
    requires FuturesExact(g) && GatewayEnabled(g, e)
    ensures FuturesExact(GatewayNext(g, e))
  {
    var t := GatewayNext(g, e);
    forall cid | cid in t.calls ensures CallOk(t, cid) {
      assert cid in g.calls ==> CallOk(g, cid);
      assert e.cid in g.calls ==> CallOk(g, e.cid);
    }
  }

  lemma {:induction false} ResponseKeepsExact(g: Gateway, cid: Cid, reply: Option<Response>)
    requires FuturesExact(g)
    ensures FuturesExact(OnResponse(g, cid, reply))
  {
    var t := OnResponse(g, cid, reply);
    forall x | x in t.calls ensures CallOk(t, x) {
      assert CallOk(g, x);
    }
  }

  lemma {:induction false} SentKeepsExact(g: Gateway, cid: Cid)
    requires FuturesExact(g) && cid in g.calls
    ensures FuturesExact(g.(calls := g.calls[cid := g.calls[cid].(sent := true)]))
  {
    var t := g.(calls := g.calls[cid := g.calls[cid].(sent := true)]);
    forall x | x in t.calls ensures CallOk(t, x) {
      assert CallOk(g, x);
    }
  }

  lemma {:induction false} StepExact(s: State, e: Event)
    requires FuturesExact(s.gateway) && Enabled(s, e)
    ensures FuturesExact(Next(s, e).gateway)
  {
    hide GatewayNext, GatewayEnabled, OnResponse, Begin, SendRaised, ReplyWith, BuildResponse, FailedResponse, Encode,
         At;
    hide FuturesExact, Requeue, Publish, SendReply, Settle, Deliver;
    match e
    case AtGateway(event) => GatewayKeepsExact(s.gateway, event);
    case Send(cid) => SentKeepsExact(s.gateway, cid);
    case Arrive(reply) => ResponseKeepsExact(s.gateway, reply.cid, Some(reply.response));
    case _ =>
  }

  /** Without failed publishes and cancellations, only unfinished calls have a future registered. */
  lemma {:induction false} FuturesAreUnfinished(g: Gateway, cid: Cid)
    requires FuturesExact(g) && cid in g.futures
    ensures !g.calls[cid].phase.Done? || g.calls[cid].phase.outcome.PublishFailed?
      || g.calls[cid].phase.outcome.Aborted?
  {
    assert CallOk(g, cid);
  }

  /** With no call outstanding the map is empty exactly when every call that failed to publish, or was
      cancelled from outside, has been answered all the same. */
  lemma {:induction false} EmptyWhenIdle(g: Gateway)
    requires FuturesExact(g) && forall cid | cid in g.calls :: g.calls[cid].phase.Done?
    ensures g.futures == {} <==>
      forall cid | cid in g.calls
                   && (g.calls[cid].phase.outcome.PublishFailed? || g.calls[cid].phase.outcome.Aborted?) ::
        cid in g.answered
  {
    forall cid | cid in g.calls ensures CallOk(g, cid) {
    }
    if g.futures != {} {
      var cid :| cid in g.futures;
      assert CallOk(g, cid);
    }
  }

  // ----- a call ends once -----

  /** `t` is a later gateway: settled futures and finished calls are as they were. */
  ghost predicate Later(g: Gateway, t: Gateway) {
    forall cid | cid in g.calls ::
      && cid in t.calls && t.calls[cid].request == g.calls[cid].request
      && (g.calls[cid].sent ==> t.calls[cid].sent)
      && (g.calls[cid].future != Pending ==> t.calls[cid].future == g.calls[cid].future)
      && (g.calls[cid].phase.Done? ==> t.calls[cid].phase == g.calls[cid].phase)
  }

  lemma {:induction false} GatewayLater(g: Gateway, e: GatewayEvent)
    requires GatewayEnabled(g, e)
    ensures Later(g, GatewayNext(g, e))
  {
  }

  lemma {:induction false} ResponseLater(g: Gateway, cid: Cid, reply: Option<Response>)
    ensures Later(g, OnResponse(g, cid, reply))
  {
  }

  lemma {:induction false} StepLater(s: State, e: Event)
    requires Enabled(s, e)
    ensures Later(s.gateway, Next(s, e).gateway)
  {
    hide GatewayNext, GatewayEnabled, OnResponse, Begin, SendRaised, ReplyWith, BuildResponse, FailedResponse, Encode,
         At;
    hide Requeue, Publish, SendReply, Settle, Deliver;
    match e
    case AtGateway(event) => GatewayLater(s.gateway, event);
    case Arrive(reply) => ResponseLater(s.gateway, reply.cid, Some(reply.response));
    case _ =>
  }

  lemma {:induction false} LaterTransitive(g: Gateway, t: Gateway, u: Gateway)
    requires Later(g, t) && Later(t, u)
    ensures Later(g, u)
  {
    forall cid | cid in g.calls
      ensures cid in u.calls && u.calls[cid].request == g.calls[cid].request
      ensures g.calls[cid].sent ==> u.calls[cid].sent
      ensures g.calls[cid].future != Pending ==> u.calls[cid].future == g.calls[cid].future
      ensures g.calls[cid].phase.Done? ==> u.calls[cid].phase == g.calls[cid].phase
    {
      assert cid in t.calls;
    }
  }

  /** In every run each call finishes at most once: result, timeout or error, and never another. */
  lemma {:induction false} FinishedOnce(s: State, events: seq<Event>)
    requires IsRun(s, events)
    ensures Later(s.gateway, Run(s, events).gateway)
    decreases |events|
  {
    hide Next, Enabled, Later;
    if events == [] {
      LaterReflexive(s.gateway);
    } else {
      StepLater(s, events[0]);
      FinishedOnce(Next(s, events[0]), events[1..]);
      LaterTransitive(s.gateway, Next(s, events[0]).gateway, Run(s, events).gateway);
    }
  }

  lemma {:induction false} LaterReflexive(g: Gateway)
    ensures Later(g, g)
  {
  }

  /** A late or duplicate reply does not touch a call that has finished. */
  lemma {:induction false} LateReplyIgnored(g: Gateway, cid: Cid, reply: Option<Response>)
    requires FuturesExact(g) && cid in g.calls && Removed(g.calls[cid].phase)
    ensures OnResponse(g, cid, reply) == g
  {
    assert CallOk(g, cid);
  }

  // ----- what a waiting call ends with -----

  /** Call `cid` waits for its future, which is registered and pending. */
  predicate Awaiting(g: Gateway, cid: Cid) {
    cid in g.calls && cid in g.futures && g.calls[cid].phase == Waiting && g.calls[cid].future == Pending
  }

  /** The one call has ended as `outcome` with its future as `future`, and its entry is gone; no other call has
      changed. */
  ghost predicate EndsAs(g: Gateway, t: Gateway, cid: Cid, future: FutureState, outcome: Outcome) {
    && cid in g.calls && t.calls.Keys == g.calls.Keys && t.futures == g.futures - {cid}
    && t.calls[cid] == Call(g.calls[cid].request, future, g.calls[cid].sent, Done(outcome))
    && forall x | x in g.calls && x != cid :: t.calls[x] == g.calls[x]
  }

  /** A reply that arrives in time is what the call returns, whatever its status. */
  lemma {:induction false} ReplyIsReturned(s: State, cid: Cid, r: Response)
    requires Awaiting(s.gateway, cid) && Reply(cid, r) in s.broker.replies
    ensures Enabled(s, Arrive(Reply(cid, r)))
    ensures var t := Next(s, Arrive(Reply(cid, r)));
      && Enabled(t, AtGateway(Resume(cid)))
      && EndsAs(s.gateway, Next(t, AtGateway(Resume(cid))).gateway, cid, Result(r), Returned(r))
      && Next(t, AtGateway(Resume(cid))).broker == s.broker.(replies := s.broker.replies - multiset{Reply(cid, r)})
  {
  }

  /** Without one the timer ends it, and that is a timeout. */
  lemma {:induction false} SilenceTimesOut(s: State, cid: Cid)
    requires Awaiting(s.gateway, cid)
    ensures Enabled(s, AtGateway(TimerFires(cid)))
    ensures var t := Next(s, AtGateway(TimerFires(cid)));
      && Enabled(t, AtGateway(Resume(cid)))
      && EndsAs(s.gateway, Next(t, AtGateway(Resume(cid))).gateway, cid, Cancelled, TimedOut)
  {
  }

  /** A reply that cannot be read ends it with an error instead. */
  lemma {:induction false} UnreadableReplyRaises(g: Gateway, cid: Cid)
    requires Awaiting(g, cid)
    ensures var t := OnResponse(g, cid, None);
      && GatewayEnabled(t, Resume(cid))
      && EndsAs(g, GatewayNext(t, Resume(cid)), cid, Excepted, Raised)
  {
  }

  /** A call cancelled while it waits keeps its entry, and a reply that comes later only removes it. */
  lemma {:induction false} AbortedTakesNoReply(g: Gateway, cid: Cid, reply: Option<Response>)
    requires Awaiting(g, cid)
    ensures GatewayEnabled(g, Abort(cid))
    ensures var t := GatewayNext(g, Abort(cid));
      && t.futures == g.futures && t.calls[cid] == g.calls[cid].(phase := Done(Aborted), future := Cancelled)
      && OnResponse(t, cid, reply).futures == g.futures - {cid}
      && OnResponse(t, cid, reply).calls == t.calls
  {
  }

  // ----- whose reply it is -----

  /** A worker has published `r` as its reply to the request that call `cid` sent. */
  ghost predicate RepliedTo(b: Broker, cid: Cid, r: Response) {
    exists n: nat, j: nat :: n < |b.messages| && b.messages[n].address == Address(Ours, cid)
      && j < |b.history| && b.history[j] == Replied(n, r)
  }

  /** A message under the id of one of our calls is that call's request. */
  ghost predicate MessageOk(s: State, n: nat)
    requires n < |s.broker.messages|
  {
    var m := s.broker.messages[n];
    m.address.Address? && m.address.queue == Ours && m.address.cid in s.gateway.calls ==>
      var c := s.gateway.calls[m.address.cid];
      c.sent && m.body == Encode(c.request)
  }

  /** No call has two messages. */
  ghost predicate SentOnce(s: State) {
    forall n, k | 0 <= n < k < |s.broker.messages| && s.broker.messages[n].address.Address?
                  && s.broker.messages[n].address.queue == Ours
                  && s.broker.messages[n].address.cid in s.gateway.calls ::
      s.broker.messages[n].address != s.broker.messages[k].address
  }

  ghost predicate Linked(s: State) {
    && (forall n: nat | n < |s.broker.messages| :: MessageOk(s, n))
    && SentOnce(s)
    && (forall reply | reply in s.broker.replies :: RepliedTo(s.broker, reply.cid, reply.response))
    && (forall cid | cid in s.gateway.calls && s.gateway.calls[cid].future.Result? ::
          RepliedTo(s.broker, cid, s.gateway.calls[cid].future.response))
  }

  lemma {:induction false} RepliedToStays(b: Broker, t: Broker, cid: Cid, r: Response)
    requires Grown(b, t) && RepliedTo(b, cid, r)
    ensures RepliedTo(t, cid, r)
  {
    var n: nat, j: nat :| n < |b.messages| && b.messages[n].address == Address(Ours, cid)
      && j < |b.history| && b.history[j] == Replied(n, r);
    assert t.messages[n] == b.messages[n] && t.history[j] == b.history[j];
  }

  /** A call that was not there before starts under an id no message has. */
  lemma {:induction false} NewCalls(s: State, e: Event, cid: Cid)
    requires Enabled(s, e) && cid in Next(s, e).gateway.calls && cid !in s.gateway.calls
    ensures Unused(s.broker, cid) && Next(s, e).broker == s.broker
  {
    hide OnResponse, Begin, SendRaised, ReplyWith, BuildResponse, FailedResponse, At, Encode, Unused;
    hide Requeue, Publish, SendReply, Settle, Deliver;
    match e
    case AtGateway(event) =>
    case Arrive(reply) => ResponseCalls(s.gateway, reply.cid, Some(reply.response));
    case _ =>
  }

  lemma {:induction false} ResponseCalls(g: Gateway, cid: Cid, reply: Option<Response>)
    ensures OnResponse(g, cid, reply).calls.Keys == g.calls.Keys
  {
  }

  lemma {:induction false} MessageStays(s: State, e: Event, n: nat)
    requires Enabled(s, e) && n < |s.broker.messages| && MessageOk(s, n)
    requires s.broker.messages <= Next(s, e).broker.messages
    ensures MessageOk(Next(s, e), n)
  {
    hide Encode, Next, Enabled;
    var t := Next(s, e);
    var m := s.broker.messages[n];
    assert t.broker.messages[n] == m;
    StepLater(s, e);
    if m.address.Address? && m.address.cid in t.gateway.calls && m.address.cid !in s.gateway.calls {
      NewCalls(s, e, m.address.cid);
    }
  }

  /** Each of our calls publishes one message, its own request. */
  lemma {:induction false} StepMessages(s: State, e: Event)
    requires Linked(s) && Enabled(s, e)
    ensures forall n: nat | n < |Next(s, e).broker.messages| :: MessageOk(Next(s, e), n)
    ensures SentOnce(Next(s, e))
  {
    hide Next, Enabled, RepliedTo, MessageOk, SentOnce, Later;
    var t := Next(s, e);
    StepGrows(s, e);
    NewMessage(s, e);
    forall n: nat | n < |t.broker.messages| ensures MessageOk(t, n) {
      if n < |s.broker.messages| {
        MessageStays(s, e, n);
      }
    }
    StepSentOnce(s, e);
  }

  lemma {:induction false} StepSentOnce(s: State, e: Event)
    requires Linked(s) && Enabled(s, e)
    ensures SentOnce(Next(s, e))
  {
    hide Next, Enabled, RepliedTo, MessageOk, Later, Encode;
    var t := Next(s, e);
    StepGrows(s, e);
    NewMessage(s, e);
    forall n, k | 0 <= n < k < |t.broker.messages| && t.broker.messages[n].address.Address?
                  && t.broker.messages[n].address.queue == Ours && t.broker.messages[n].address.cid in t.gateway.calls
      ensures t.broker.messages[n].address != t.broker.messages[k].address
    {
      assert t.broker.messages[n] == s.broker.messages[n] && MessageOk(s, n);
      if t.broker.messages[n].address.cid !in s.gateway.calls {
        NewCalls(s, e, t.broker.messages[n].address.cid);
      } else if k < |s.broker.messages| {
        assert t.broker.messages[k] == s.broker.messages[k];
      }
    }
  }

  /** A message published by this step is a call's request, sent for the first time, or belongs to no call. */
  lemma {:induction false} NewMessage(s: State, e: Event)
    requires Linked(s) && Enabled(s, e)
    ensures var t := Next(s, e); var last := |s.broker.messages|;
      && |t.broker.messages| <= last + 1
      && (|t.broker.messages| == last + 1 ==>
            && MessageOk(t, last)
            && forall n | 0 <= n < last && s.broker.messages[n].address.Address?
                          && s.broker.messages[n].address.queue == Ours
                          && s.broker.messages[n].address.cid in s.gateway.calls ::
                 s.broker.messages[n].address != t.broker.messages[last].address)
  {
    if e.Send? {
      hide RepliedTo, Encode;
      forall n: nat | n < |s.broker.messages| ensures s.broker.messages[n].address != Address(Ours, e.cid) {
        assert MessageOk(s, n);
      }
    } else if !e.ForeignPublish? {
      hide Next, Enabled, MessageOk;
      SameMessages(s, e);
    }
  }

  lemma {:induction false} SameMessages(s: State, e: Event)
    requires Enabled(s, e) && !e.Send? && !e.ForeignPublish?
    ensures Next(s, e).broker.messages == s.broker.messages
  {
    hide GatewayNext, GatewayEnabled, OnResponse, Begin, SendRaised, ReplyWith, BuildResponse, FailedResponse, At,
         Encode;
    match e
    case _ =>
  }

  /** Every reply in our queue was published by a worker for the message it answers. */
  lemma {:induction false} StepReplies(s: State, e: Event)
    requires Linked(s) && Enabled(s, e)
    ensures forall reply | reply in Next(s, e).broker.replies ::
      RepliedTo(Next(s, e).broker, reply.cid, reply.response)
  {
    hide GatewayNext, GatewayEnabled, OnResponse, Begin, SendRaised, ReplyWith, BuildResponse, FailedResponse, Encode;
    hide Requeue, RepliedTo, MessageOk, Grown;
    var t := Next(s, e);
    StepGrows(s, e);
    forall reply | reply in t.broker.replies ensures RepliedTo(t.broker, reply.cid, reply.response) {
      if reply in s.broker.replies {
        RepliedToStays(s.broker, t.broker, reply.cid, reply.response);
      } else {
        PublishedNow(s, e, reply);
      }
    }
  }

  lemma {:induction false} PublishedNow(s: State, e: Event, reply: Reply)
    requires Enabled(s, e) && reply in Next(s, e).broker.replies && reply !in s.broker.replies
    ensures RepliedTo(Next(s, e).broker, reply.cid, reply.response)
  {
    hide GatewayNext, GatewayEnabled, OnResponse, Begin, SendRaised, ReplyWith, BuildResponse, FailedResponse, Encode;
    match e
    case PublishReply(d) =>
      var b := Next(s, e).broker;
      var n := s.handlers[d].message;
      assert b.history[|b.history| - 1] == Replied(n, s.handlers[d].phase.response);
    case _ =>
  }

  /** A future's result is a reply that arrived for that very correlation id. */
  lemma {:induction false} StepResults(s: State, e: Event)
    requires Linked(s) && Enabled(s, e)
    ensures forall cid | cid in Next(s, e).gateway.calls && Next(s, e).gateway.calls[cid].future.Result? ::
      RepliedTo(Next(s, e).broker, cid, Next(s, e).gateway.calls[cid].future.response)
  {
    hide RepliedTo, Grown, MessageOk, Next, Enabled, SentOnce;
    var t := Next(s, e);
    StepGrows(s, e);
    forall cid | cid in t.gateway.calls && t.gateway.calls[cid].future.Result?
      ensures RepliedTo(t.broker, cid, t.gateway.calls[cid].future.response)
    {
      var r := t.gateway.calls[cid].future.response;
      ResultSource(s, e, cid);
      if RepliedTo(s.broker, cid, r) {
        RepliedToStays(s.broker, t.broker, cid, r);
      }
    }
  }

  lemma {:induction false} ResultSource(s: State, e: Event, cid: Cid)
    requires Enabled(s, e) && cid in Next(s, e).gateway.calls && Next(s, e).gateway.calls[cid].future.Result?
    ensures var f := Next(s, e).gateway.calls[cid].future;
      (cid in s.gateway.calls && s.gateway.calls[cid].future == f) || Reply(cid, f.response) in s.broker.replies
  {
    hide Begin, SendRaised, ReplyWith, BuildResponse, FailedResponse, Encode, At;
    hide Requeue, Publish, SendReply, Settle, Deliver;
    match e
    case AtGateway(event) =>
    case _ =>
  }

  lemma {:induction false} StepLinked(s: State, e: Event)
    requires Linked(s) && Enabled(s, e)
    ensures Linked(Next(s, e))
  {
    hide RepliedTo, MessageOk, Next, Enabled, SentOnce;
    StepMessages(s, e);
    StepReplies(s, e);
    StepResults(s, e);
  }

  /** What a call returns is the reply a worker published to the message that call sent, and it carries
      the id of that call's own request. */
  lemma {:induction false} ReturnsOwnReply(s: State, cid: Cid)
    requires FuturesExact(s.gateway) && Linked(s) && Answering(s)
    requires cid in s.gateway.calls && s.gateway.calls[cid].phase.Done? && s.gateway.calls[cid].phase.outcome.Returned?
    ensures var c := s.gateway.calls[cid];
      RepliedTo(s.broker, cid, c.phase.outcome.response) && c.phase.outcome.response.requestId == c.request.requestId
  {
    hide ReplyId, SentOnce;
    assert CallOk(s.gateway, cid);
    var r := s.gateway.calls[cid].phase.outcome.response;
    var n: nat, j: nat :| n < |s.broker.messages| && s.broker.messages[n].address == Address(Ours, cid)
      && j < |s.broker.history| && s.broker.history[j] == Replied(n, r);
    assert EntryOk(s.broker.messages, s.broker.history, j);
    assert MessageOk(s, n);
  }
}
