/** What stands behind a reply that says completed: a run of the script, with exit code 0, started for a delivery
    of the very message it answers. */
module RpcRuns {
  import opened Wrappers
  import opened Timestamps
  import opened ScriptOutput
  import opened RpcMessages
  import opened RpcModel
  import opened RpcReplies

  /** Among the first `i` entries, a run for request `n` that ended as `run`. */
  ghost predicate RanBefore(history: seq<Entry>, i: int, n: nat, run: Execution)
    requires i <= |history|
  {
    exists j :: 0 <= j < i && history[j] == Ran(n, run)
  }

  /** A completed response is the response for such a run. */
  ghost predicate Earned(history: seq<Entry>, i: int, n: nat, r: Response)
    requires i <= |history|
  {
    r.status == Completed ==>
      exists run :: RanBefore(history, i, n, run) && run.Exited? && run.returnCode == 0
        && r == BuildResponse(r.requestId, run)
  }

  ghost predicate WorkOk(history: seq<Entry>, h: Handler) {
    match h.phase
    case Notifying(request, run) => run.Exited? ==> RanBefore(history, |history|, h.message, run)
    case Replying(r, _, _) => Earned(history, |history|, h.message, r)
    case _ => true
  }

  ghost predicate Working(s: State) {
    && (forall i | 0 <= i < |s.broker.history| && s.broker.history[i].Replied? ::
          Earned(s.broker.history, i, s.broker.history[i].message, s.broker.history[i].response))
    && (forall d | d in s.handlers :: WorkOk(s.broker.history, s.handlers[d]))
  }

  lemma {:induction false} RanStays(history: seq<Entry>, longer: seq<Entry>, i: int, n: nat, run: Execution)
    requires history <= longer && i <= |history| && RanBefore(history, i, n, run)
    ensures RanBefore(longer, i, n, run) && RanBefore(longer, |longer|, n, run)
  {
    var j :| 0 <= j < i && history[j] == Ran(n, run);
    assert longer[j] == history[j];
  }

  lemma {:induction false} EarnedStays(history: seq<Entry>, longer: seq<Entry>, i: int, n: nat, r: Response)
    requires history <= longer && i <= |history| && Earned(history, i, n, r)
    ensures Earned(longer, i, n, r) && Earned(longer, |longer|, n, r)
  {
    hide RanBefore, BuildResponse;
    if r.status == Completed {
      var run :| RanBefore(history, i, n, run) && run.Exited? && run.returnCode == 0
        && r == BuildResponse(r.requestId, run);
      RanStays(history, longer, i, n, run);
    }
  }

  lemma {:induction false} WorkStays(history: seq<Entry>, longer: seq<Entry>, h: Handler)
    requires history <= longer && WorkOk(history, h)
    ensures WorkOk(longer, h)
  {
    hide RanBefore, Earned;
    match h.phase
    case Notifying(request, run) =>
      if run.Exited? {
        RanStays(history, longer, |history|, h.message, run);
      }
    case Replying(r, _, _) => EarnedStays(history, longer, |history|, h.message, r);
    case _ =>
  }

  /** Refusals and error replies never say completed. */
  lemma {:induction false} FailureEarned(history: seq<Entry>, n: nat, id: string, error: string)
    ensures Earned(history, |history|, n, FailedResponse(id, error))
  {
  }

  lemma {:induction false} AnswerEarned(history: seq<Entry>, n: nat, request: Request, run: Execution,
                                        raised: Option<string>)
    requires run.Exited? ==> RanBefore(history, |history|, n, run)
    ensures Earned(history, |history|, n, Answer(request, run, raised))
  {
    hide BuildResponse, FailedResponse, Answer, RanBefore;
    AnswerShape(request, run, raised);
  }

  lemma {:induction false} BeginWork(history: seq<Entry>, n: nat, m: Message, w: Worker, freshId: string,
                                     now: DateTime, error: string)
    ensures WorkOk(history, Handler(n, Begin(m, w, freshId, now, error)))
  {
    hide Decode, IsBusy, ReplyId;
  }

  lemma {:induction false} RaisedWork(history: seq<Entry>, n: nat, m: Message, p: HandlerPhase, error: string)
    requires p.Replying?
    ensures WorkOk(history, Handler(n, SendRaised(m, p, error)))
  {
    hide ReplyId;
  }

  lemma {:induction false} HandlerWork(s: State, e: Event)
    requires Working(s) && Enabled(s, e) && InHandler(e)
    ensures e.d in Next(s, e).handlers && WorkOk(Next(s, e).broker.history, Next(s, e).handlers[e.d])
  {
    hide GatewayNext, GatewayEnabled, OnResponse, Begin, SendRaised, BuildResponse, FailedResponse, Encode, Answer,
         Earned, RanBefore;
    var h := s.handlers[e.d];
    var history := s.broker.history;
    assert WorkOk(history, h);
    var after := Next(s, e).broker.history;
    match e
    case BeginHandler(d, freshId, now, error) =>
      BeginWork(history, h.message, MessageOf(s, d), s.workers[d.worker], freshId, now, error);
    case Exit(d, run) => JustRan(history, h.message, run);
    case Notified(d, raised) => AnswerEarned(history, h.message, h.phase.request, h.phase.run, raised);
    case PublishReply(d) => EarnedStays(history, after, |history|, h.message, h.phase.response);
    case SendRaises(d, error) => RaisedWork(history, h.message, MessageOf(s, d), h.phase, error);
    case _ =>
  }

  lemma {:induction false} JustRan(history: seq<Entry>, n: nat, run: Execution)
    ensures RanBefore(history + [Ran(n, run)], |history| + 1, n, run)
  {
    assert (history + [Ran(n, run)])[|history|] == Ran(n, run);
  }

  /** The entry an event adds, if it is a reply, is earned. */
  lemma {:induction false} NewReplyEarned(s: State, e: Event)
    requires Working(s) && Enabled(s, e)
    ensures var history := Next(s, e).broker.history;
      && |history| <= |s.broker.history| + 1
      && (|history| == |s.broker.history| + 1 && history[|s.broker.history|].Replied? ==>
            Earned(history, |s.broker.history|, history[|s.broker.history|].message,
                   history[|s.broker.history|].response))
  {
    hide GatewayNext, GatewayEnabled, OnResponse, Begin, SendRaised, ReplyWith, BuildResponse, FailedResponse, Encode,
         Answer, Earned;
    match e
    case PublishReply(d) =>
      assert WorkOk(s.broker.history, s.handlers[d]);
      EarnedStays(s.broker.history, Next(s, e).broker.history, |s.broker.history|, s.handlers[d].message,
                  s.handlers[d].phase.response);
    case _ =>
  }

  lemma {:induction false} StepWorking(s: State, e: Event)
    requires Working(s) && Enabled(s, e)
    ensures Working(Next(s, e))
  {
    hide Next, Enabled, WorkOk, Earned;
    var t := Next(s, e);
    StepGrows(s, e);
    NewReplyEarned(s, e);
    forall i | 0 <= i < |t.broker.history| && t.broker.history[i].Replied?
      ensures Earned(t.broker.history, i, t.broker.history[i].message, t.broker.history[i].response)
    {
      if i < |s.broker.history| {
        assert t.broker.history[i] == s.broker.history[i];
        EarnedStays(s.broker.history, t.broker.history, i, t.broker.history[i].message, t.broker.history[i].response);
      }
    }
    forall x | x in t.handlers ensures WorkOk(t.broker.history, t.handlers[x]) {
      if InHandler(e) && x == e.d {
        HandlerWork(s, e);
      } else {
        OtherHandlers(s, e, x);
        if x in s.handlers && t.handlers[x] == s.handlers[x] {
          WorkStays(s.broker.history, t.broker.history, s.handlers[x]);
        } else {
          NewHandlerWork(t.broker.history, e);
        }
      }
    }
  }

  lemma {:induction false} NewHandlerWork(history: seq<Entry>, e: Event)
    requires e.DeliverTo?
    ensures WorkOk(history, Handler(e.number, Received))
  {
  }
}
