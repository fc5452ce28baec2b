/** What workers say about a request before they let go of it: no acknowledgement without a reply, no
    reply to what cannot be answered, no reply under another request's id, and what a rejection means. */
module RpcReplies {
  import opened Wrappers
  import opened Timestamps
  import opened ScriptOutput
  import opened RpcMessages
  import opened RpcModel
  import opened RpcInvariants

  /** A reply to request `n` among the first `i` entries. */
  ghost predicate RepliedBefore(history: seq<Entry>, i: int, n: nat)
    requires i <= |history|
  {
    exists j :: 0 <= j < i && history[j].Replied? && history[j].message == n
  }

  /** A request id that fits the one the message carries. */
  predicate Names(m: Message, id: string) {
    m.body.Fields? && m.body.requestId.Text? ==> id == m.body.requestId.text
  }

  ghost predicate VerdictOk(m: Message, replied: bool, v: Verdict) {
    match v
    case Ack => m.address.Address? ==> ReplyId(m.body).Some? && replied
    case Reject(NothingToReply) => m.address.Address? && ReplyId(m.body).None?
    case Reject(SendFailed) => m.address.Address? && ReplyId(m.body).Some?
  }

  ghost predicate EntryOk(messages: seq<Message>, history: seq<Entry>, i: nat)
    requires i < |history|
  {
    && history[i].message < |messages|
    && var m := messages[history[i].message];
       match history[i]
       case Ran(n, run) => true
       case Replied(n, r) => m.address.Address? && ReplyId(m.body).Some? && Names(m, r.requestId)
       case Settled(n, v) => VerdictOk(m, RepliedBefore(history, i, n), v)
  }

  ghost predicate PhaseOk(m: Message, replied: bool, p: HandlerPhase) {
    match p
    case Received => true
    case Preparing(request) => ReplyId(m.body).Some? && Names(m, request.requestId)
    case Running(request, _) => ReplyId(m.body).Some? && Names(m, request.requestId)
    case Notifying(request, _) => ReplyId(m.body).Some? && Names(m, request.requestId)
    case Replying(r, onError, published) =>
      m.address.Address? && ReplyId(m.body).Some? && Names(m, r.requestId) && (published ==> replied)
    case Finishing(v) => VerdictOk(m, replied, v)
  }

  ghost predicate HandlerOk(b: Broker, h: Handler) {
    && h.message < |b.messages|
    && PhaseOk(b.messages[h.message], RepliedBefore(b.history, |b.history|, h.message), h.phase)
  }

  /** The order of replies and settlements is right so far, and every handler will keep it right. */
  ghost predicate Answering(s: State) {
    && (forall i | 0 <= i < |s.broker.history| :: EntryOk(s.broker.messages, s.broker.history, i))
    && (forall d | d in s.handlers :: HandlerOk(s.broker, s.handlers[d]))
  }

  ghost predicate Grown(b: Broker, t: Broker) {
    b.messages <= t.messages && b.history <= t.history
  }

  lemma {:induction false} StepGrows(s: State, e: Event)
    requires Enabled(s, e)
    ensures Grown(s.broker, Next(s, e).broker)
  {
    hide GatewayNext, GatewayEnabled, OnResponse, Begin, SendRaised, ReplyWith, BuildResponse, FailedResponse, Encode,
         At;
    match e
    case _ =>
  }

  lemma {:induction false} EntryStays(b: Broker, t: Broker, i: nat)
    requires Grown(b, t) && i < |b.history| && EntryOk(b.messages, b.history, i)
    ensures EntryOk(t.messages, t.history, i)
  {
    hide ReplyId;
    var n := b.history[i].message;
    assert t.history[i] == b.history[i] && t.messages[n] == b.messages[n];
    if RepliedBefore(b.history, i, n) {
      var j :| 0 <= j < i && b.history[j].Replied? && b.history[j].message == n;
      assert t.history[j] == b.history[j];
    }
  }

  lemma {:induction false} RepliedStays(b: Broker, t: Broker, n: nat)
    requires Grown(b, t) && RepliedBefore(b.history, |b.history|, n)
    ensures RepliedBefore(t.history, |t.history|, n)
  {
    var j :| 0 <= j < |b.history| && b.history[j].Replied? && b.history[j].message == n;
    assert t.history[j] == b.history[j];
  }

  lemma {:induction false} HandlerStays(b: Broker, t: Broker, h: Handler)
    requires Grown(b, t) && HandlerOk(b, h)
    ensures HandlerOk(t, h)
  {
    hide ReplyId, RepliedBefore;
    assert t.messages[h.message] == b.messages[h.message];
    if RepliedBefore(b.history, |b.history|, h.message) {
      RepliedStays(b, t, h.message);
    }
  }

  // ----- the steps of one handler -----

  lemma {:induction false} BeginOk(m: Message, replied: bool, w: Worker, freshId: string, now: DateTime, error: string)
    ensures PhaseOk(m, replied, Begin(m, w, freshId, now, error))
  {
    hide Decode, IsBusy;
    if Decode(m.body, freshId, now).Accepted? {
      AcceptedHasId(m.body, freshId, now);
    }
  }

  lemma {:induction false} SendRaisedOk(m: Message, replied: bool, p: HandlerPhase, error: string)
    requires p.Replying? && PhaseOk(m, replied, p)
    ensures PhaseOk(m, replied, SendRaised(m, p, error))
  {
  }

  lemma {:induction false} ReplyWithOk(m: Message, replied: bool, r: Response)
    requires ReplyId(m.body).Some? && Names(m, r.requestId)
    ensures PhaseOk(m, replied, ReplyWith(m, r))
  {
  }

  /** The answer is for the request; it says completed only for a run with exit code 0, and then it is that run's. */
  lemma {:induction false} AnswerShape(request: Request, run: Execution, raised: Option<string>)
    ensures var r := Answer(request, run, raised);
      && r.requestId == request.requestId
      && (r.status == Completed ==> run.Exited? && run.returnCode == 0 && r == BuildResponse(request.requestId, run))
  {
    ResponseShape(request.requestId, run);
  }

  /** The handler an event belongs to. */
  predicate InHandler(e: Event) {
    e.BeginHandler? || e.Spawn? || e.NotSpawned? || e.Exit? || e.Notified? || e.PublishReply? || e.SendReturns?
      || e.SendRaises?
  }

  lemma {:induction false} HandlerStepOk(s: State, e: Event)
    requires Answering(s) && Enabled(s, e) && InHandler(e)
    ensures e.d in Next(s, e).handlers && HandlerOk(Next(s, e).broker, Next(s, e).handlers[e.d])
  {
    hide GatewayNext, GatewayEnabled, OnResponse, Begin, SendRaised, ReplyWith, BuildResponse, FailedResponse, Encode;
    hide ReplyId, IsBusy;
    var h := s.handlers[e.d];
    assert HandlerOk(s.broker, h);
    var m := s.broker.messages[h.message];
    var replied := RepliedBefore(s.broker.history, |s.broker.history|, h.message);
    match e
    case BeginHandler(d, freshId, now, error) => BeginOk(m, replied, s.workers[d.worker], freshId, now, error);
    case Exit(d, run) =>
      AppendKeepsReplied(s.broker.history, Next(s, e).broker.history, h.message);
    case Notified(d, raised) =>
      AnswerShape(h.phase.request, h.phase.run, raised);
      ReplyWithOk(m, replied, Answer(h.phase.request, h.phase.run, raised));
    case PublishReply(d) =>
      var history := Next(s, e).broker.history;
      assert history[|history| - 1] == Replied(h.message, h.phase.response);
    case SendRaises(d, error) => SendRaisedOk(m, replied, h.phase, error);
    case _ =>
  }

  /** Handlers an event does not belong to stay as they were, or go. */
  lemma {:induction false} OtherHandlers(s: State, e: Event, x: Delivery)
    requires Enabled(s, e) && x in Next(s, e).handlers && !(InHandler(e) && x == e.d)
    ensures (x in s.handlers && Next(s, e).handlers[x] == s.handlers[x])
            || (e.DeliverTo? && Next(s, e).handlers[x] == Handler(e.number, Received))
  {
    hide GatewayNext, GatewayEnabled, OnResponse, Begin, SendRaised, ReplyWith, BuildResponse, FailedResponse, Encode,
         At;
    match e
    case _ =>
  }

  /** At most one entry is added, and it is right. */
  lemma {:induction false} NewEntryOk(s: State, e: Event)
    requires InPlace(s) && Answering(s) && Enabled(s, e)
    ensures var b := Next(s, e).broker;
      && |b.history| <= |s.broker.history| + 1
      && (|b.history| == |s.broker.history| + 1 ==> EntryOk(b.messages, b.history, |s.broker.history|))
  {
    hide GatewayNext, GatewayEnabled, OnResponse, Begin, SendRaised, ReplyWith, BuildResponse, FailedResponse, Encode;
    hide ReplyId;
    match e
    case PublishReply(d) => assert HandlerOk(s.broker, s.handlers[d]);
    case Finish(d) =>
      assert HandlerOk(s.broker, s.handlers[d]);
      if d in s.broker.unacked {
        assert DeliveryInPlace(s, d);
        var n := s.broker.unacked[d];
        var history := Next(s, e).broker.history;
        assert RepliedBefore(s.broker.history, |s.broker.history|, n) ==>
          RepliedBefore(history, |s.broker.history|, n) by { AppendKeepsReplied(s.broker.history, history, n); }
      }
    case _ =>
  }

  lemma {:induction false} AppendKeepsReplied(history: seq<Entry>, longer: seq<Entry>, n: nat)
    requires history <= longer
    ensures RepliedBefore(history, |history|, n) ==> RepliedBefore(longer, |history|, n)
  {
  }

  lemma {:induction false} StepAnswering(s: State, e: Event)
    requires InPlace(s) && Answering(s) && Enabled(s, e)
    ensures Answering(Next(s, e))
  {
    hide Next, Enabled, InPlace, HandlerOk, EntryOk;
    var t := Next(s, e);
    StepGrows(s, e);
    NewEntryOk(s, e);
    forall i | 0 <= i < |t.broker.history| ensures EntryOk(t.broker.messages, t.broker.history, i) {
      if i < |s.broker.history| {
        EntryStays(s.broker, t.broker, i);
      }
    }
    forall x | x in t.handlers ensures HandlerOk(t.broker, t.handlers[x]) {
      if InHandler(e) && x == e.d {
        HandlerStepOk(s, e);
      } else {
        OtherHandlers(s, e, x);
        if x in s.handlers && t.handlers[x] == s.handlers[x] {
          HandlerStays(s.broker, t.broker, s.handlers[x]);
        } else {
          DeliveredOk(s, e);
        }
      }
    }
  }

  lemma {:induction false} DeliveredOk(s: State, e: Event)
    requires InPlace(s) && Enabled(s, e) && e.DeliverTo?
    ensures HandlerOk(Next(s, e).broker, Handler(e.number, Received))
  {
  }

  // ----- what this says about a request -----

  /** An addressed request is acknowledged only after a reply to it was published; it is rejected either
      because nothing could be said, without any reply, or because every send failed. */
  lemma {:induction false} SettledMeans(s: State, i: nat)
    requires Answering(s) && i < |s.broker.history| && s.broker.history[i].Settled?
    ensures var Settled(n, v) := s.broker.history[i];
      n < |s.broker.messages| &&
      (s.broker.messages[n].address.Address? ==>
        && (ReplyId(s.broker.messages[n].body).None? <==> v == Reject(NothingToReply))
        && (v == Ack ==> RepliedBefore(s.broker.history, i, n)))
      && (s.broker.messages[n].address.NoAddress? ==> v == Ack)
  {
    hide ReplyId;
    assert EntryOk(s.broker.messages, s.broker.history, i);
  }

  /** A body that is no JSON object, or has an id that is no string, is never replied to. */
  lemma {:induction false} NeverReplied(s: State, n: nat)
    requires Answering(s) && n < |s.broker.messages| && ReplyId(s.broker.messages[n].body).None?
    ensures !RepliedBefore(s.broker.history, |s.broker.history|, n)
  {
    hide ReplyId;
    forall j | 0 <= j < |s.broker.history| && s.broker.history[j].Replied? ensures s.broker.history[j].message != n {
      assert EntryOk(s.broker.messages, s.broker.history, j);
    }
  }
}
