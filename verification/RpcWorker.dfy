/** A worker handling one message from beginning to end: `_process_message`, `_handle_task` and the
    bookkeeping of `execute_script`, with what the outside world answers given in advance. The method
    is proved against the handler phases of the step system, and that one pass is a run of the system. */
module RpcWorker {
  import opened Wrappers
  import opened Timestamps
  import opened ScriptOutput
  import opened RpcMessages
  import opened RpcModel
  import opened Processes

  /** One `await publish` of a reply: whether it reached the broker, what it raised if it did, and how many
      seconds it took. */
  datatype SendAnswer = SendAnswer(published: bool, raised: Option<string>, takes: real) {
    /** A publish that returns has published. */
    predicate Possible() {
      (raised.None? ==> published) && takes >= 0.0
    }
  }

  /** What happens outside the worker while it handles one message. `preparation` is the time before the
      script can start (counting the task and preparing the script) and `prepared` its failure, if it fails;
      `behaviour` is how the process behaves; `completion` is what publishing the completion event raises, if
      it does, and `completionTakes` how long it takes; `counting` is the time of the last count update. */
  datatype Answers = Answers(freshId: string, now: DateTime, parseError: string,
                             preparation: real, prepared: Option<Execution>, key: string,
                             behaviour: Behaviour, decodeError: string,
                             completion: Option<string>, completionTakes: real, counting: real,
                             first: SendAnswer, second: SendAnswer) {
    predicate Possible() {
      && now.Valid() && (prepared.Some? ==> !prepared.value.Exited?) && preparation >= 0.0
      && completionTakes >= 0.0 && counting >= 0.0
      && behaviour.Possible() && first.Possible() && second.Possible()
    }
  }

  /** Everything one pass does to the outside: the replies it publishes, then its verdict. */
  datatype Pass = Pass(replies: seq<Response>, verdict: Verdict)

  /** From the phase in which the answer is ready to the end. */
  function SendFrom(m: Message, p: HandlerPhase, a: Answers): Pass
    requires p.Replying? || p.Finishing?
    decreases if p.Finishing? then 0 else if p.onError then 1 else 2
  {
    match p
    case Finishing(v) => Pass([], v)
    case Replying(r, onError, _) =>
      var answer := if onError then a.second else a.first;
      var published := if answer.published then [r] else [];
      if answer.raised.None? then Pass(published, Ack)
      else
        var rest := SendFrom(m, SendRaised(m, p, answer.raised.value), a);
        Pass(published + rest.replies, rest.verdict)
  }

  /** How the script run of a request ends. */
  function RunOf(request: Request, processTimeout: nat, a: Answers): Execution
    requires request.task.Valid()
  {
    if a.prepared.Some? then a.prepared.value
    else Ending(a.behaviour, EffectiveTimeout(request.task.timeout, processTimeout), a.decodeError)
  }

  /** The phase in which the answer is ready. */
  function Answered(m: Message, w: Worker, processTimeout: nat, a: Answers): (p: HandlerPhase)
    ensures p.Replying? || p.Finishing?
  {
    match Begin(m, w, a.freshId, a.now, a.parseError)
    case Preparing(request) =>
      ReplyWith(m, Answer(request, RunOf(request, processTimeout, a), a.completion))
    case p => p
  }

  function Handled(m: Message, w: Worker, processTimeout: nat, a: Answers): Pass {
    SendFrom(m, Answered(m, w, processTimeout, a), a)
  }

  /** How the process ended that was started for the message, if one was. */
  function Started(m: Message, w: Worker, processTimeout: nat, a: Answers): Option<Execution> {
    match Begin(m, w, a.freshId, a.now, a.parseError)
    case Preparing(request) => if a.prepared.Some? then None else Some(RunOf(request, processTimeout, a))
    case _ => None
  }

  // ----- and when -----

  /** The seconds `_handle_task` takes. */
  function WorkTime(request: Request, busy: bool, processTimeout: nat, a: Answers): real
    requires request.task.Valid()
  {
    (if busy then 0.0 else RunTime(request, processTimeout, a) + a.completionTakes) + a.counting
  }

  /** The seconds `execute_scraping_request` takes, and the count update before it. */
  function RunTime(request: Request, processTimeout: nat, a: Answers): real
    requires request.task.Valid()
  {
    a.preparation + (if a.prepared.Some? then 0.0
                     else Elapsed(a.behaviour, EffectiveTimeout(request.task.timeout, processTimeout)))
  }

  /** The moments replies are out, from the moment `now` at which the answer is ready. */
  function SendTimes(m: Message, p: HandlerPhase, a: Answers, now: real): seq<real>
    requires p.Replying? || p.Finishing?
    decreases if p.Finishing? then 0 else if p.onError then 1 else 2
  {
    match p
    case Finishing(v) => []
    case Replying(r, onError, _) =>
      var answer := if onError then a.second else a.first;
      var at := now + answer.takes;
      (if answer.published then [at] else [])
      + (if answer.raised.None? then [] else SendTimes(m, SendRaised(m, p, answer.raised.value), a, at))
  }

  /** ... for a message that arrived at `now`. */
  function ReplyTimes(m: Message, w: Worker, processTimeout: nat, a: Answers, now: real): seq<real> {
    var parsed := Decode(m.body, a.freshId, a.now);
    var work := if parsed.Accepted? then WorkTime(parsed.request, IsBusy(w), processTimeout, a) else 0.0;
    SendTimes(m, Answered(m, w, processTimeout, a), a, now + work)
  }

  /** What the `except` clause comes to. */
  lemma {:induction false} AfterException(m: Message, error: string, a: Answers, now: real)
    ensures SendTimes(m, OnException(m, error), a, now) ==
      if m.address.NoAddress? || ReplyId(m.body).None? || !a.second.published then [] else [now + a.second.takes]
    ensures var id := ReplyId(m.body);
      SendFrom(m, OnException(m, error), a) ==
        if m.address.NoAddress? then Pass([], Ack)
        else if id.None? then Pass([], Reject(NothingToReply))
        else Pass(if a.second.published then [FailedResponse(id.value, error)] else [],
                  if a.second.raised.None? then Ack else Reject(SendFailed))
  {
    hide FailedResponse, ReplyId;
    var p := OnException(m, error);
    if p.Replying? && a.second.raised.Some? {
      assert SendFrom(m, SendRaised(m, p, a.second.raised.value), a) == Pass([], Reject(SendFailed));
      assert SendTimes(m, SendRaised(m, p, a.second.raised.value), a, now + a.second.takes) == [];
    }
  }

  /** The response of `_handle_task`. */
  function TaskResponse(request: Request, busy: bool, processTimeout: nat, a: Answers): Response
    requires request.task.Valid()
  {
    if busy then FailedResponse(request.requestId, CAPACITY_MESSAGE)
    else Answer(request, RunOf(request, processTimeout, a), a.completion)
  }

  /** A request that parses: its response is sent, and the `except` clause takes over if that raises. */
  lemma {:induction false} AfterTask(m: Message, w: Worker, processTimeout: nat, a: Answers, now: real)
    requires Decode(m.body, a.freshId, a.now).Accepted?
    ensures var request := Decode(m.body, a.freshId, a.now).request;
      var at := now + WorkTime(request, IsBusy(w), processTimeout, a) + a.first.takes;
      ReplyTimes(m, w, processTimeout, a, now) ==
        if m.address.NoAddress? then []
        else (if a.first.published then [at] else [])
             + (if a.first.raised.None? then [] else SendTimes(m, OnException(m, a.first.raised.value), a, at))
    ensures var r := TaskResponse(Decode(m.body, a.freshId, a.now).request, IsBusy(w), processTimeout, a);
      Handled(m, w, processTimeout, a) ==
        if m.address.NoAddress? then Pass([], Ack)
        else
          var published := if a.first.published then [r] else [];
          if a.first.raised.None? then Pass(published, Ack)
          else
            var rest := SendFrom(m, OnException(m, a.first.raised.value), a);
            Pass(published + rest.replies, rest.verdict)
  {
    hide FailedResponse, BuildResponse, Answer, Decode, OnException;
    var r := TaskResponse(Decode(m.body, a.freshId, a.now).request, IsBusy(w), processTimeout, a);
    assert Answered(m, w, processTimeout, a) == ReplyWith(m, r);
  }

  lemma {:induction false} AfterParseError(m: Message, w: Worker, processTimeout: nat, a: Answers, now: real)
    requires Decode(m.body, a.freshId, a.now).Invalid?
    ensures ReplyTimes(m, w, processTimeout, a, now) == SendTimes(m, OnException(m, a.parseError), a, now)
    ensures Handled(m, w, processTimeout, a) == SendFrom(m, OnException(m, a.parseError), a)
  {
    hide FailedResponse, Decode;
  }

  /** A caller who gives an address waits in vain, with no reply even attempted, exactly if the body is no JSON
      object or its request id is no string; whatever the worker's load and whatever sends raise. */
  lemma {:induction false} DroppedExactly(m: Message, w: Worker, processTimeout: nat, a: Answers)
    requires m.address.Address?
    ensures Handled(m, w, processTimeout, a).verdict == Reject(NothingToReply)
            <==> m.body.NotJson? || m.body.NotObject? || m.body.requestId.OtherType?
    ensures Handled(m, w, processTimeout, a).verdict == Reject(NothingToReply) ==>
      Handled(m, w, processTimeout, a).replies == []
  {
    hide Decode, FailedResponse, BuildResponse, Handled, SendFrom, OnException, TaskResponse;
    if Decode(m.body, a.freshId, a.now).Invalid? {
      AfterParseError(m, w, processTimeout, a, 0.0);
      AfterException(m, a.parseError, a, 0.0);
      UnusableIsInvalid(m.body, a.freshId, a.now);
    } else {
      AfterTask(m, w, processTimeout, a, 0.0);
      AcceptedHasId(m.body, a.freshId, a.now);
      if a.first.raised.Some? {
        AfterException(m, a.first.raised.value, a, 0.0);
      }
    }
  }

  lemma {:induction false} UnusableIsInvalid(body: Body, freshId: string, now: DateTime)
    ensures !body.Fields? || body.requestId.OtherType? ==> Decode(body, freshId, now).Invalid?
  {
  }

  /** No process is counted for longer than it is run. Two runs started in the same microsecond share a key,
      and the first to end takes it away. */
  predicate Kept(key: string, before: map<string, nat>, after: map<string, nat>) {
    after == before || after == before - {key}
  }

  /** What `execute_scraping_request` answers, told from the process alone: completed exactly if it ran, its output
      came in time and decodes, and its return code is 0; what is answered reports the process, or the failure to
      prepare it. */
  ghost predicate Executed(r: Response, request: Request, processTimeout: nat, a: Answers)
    requires request.task.Valid()
  {
    var timeout := EffectiveTimeout(request.task.timeout, processTimeout);
    && (r.status == Completed <==>
          a.prepared.None? && OutputInTime(a.behaviour, timeout) && Decodes(a.behaviour)
          && a.behaviour.output.value.returnCode == 0)
    && exists run ::
         && (if a.prepared.Some? then run == a.prepared.value else Tells(run, a.behaviour, timeout, a.decodeError))
         && Reports(r, request.requestId, run)
  }

  lemma {:induction false} ExecutedMeans(request: Request, processTimeout: nat, a: Answers)
    requires request.task.Valid() && a.Possible()
    ensures Executed(BuildResponse(request.requestId, RunOf(request, processTimeout, a)), request, processTimeout, a)
  {
    hide BuildResponse, Ending;
    var run := RunOf(request, processTimeout, a);
    var timeout := EffectiveTimeout(request.task.timeout, processTimeout);
    BuildReports(request.requestId, run);
    LadderMeans(a.behaviour, timeout, 0.0, a.decodeError);
    var r := BuildResponse(request.requestId, run);
    ReportedStatus(r, request.requestId, run);
    hide Reports, Tells;
    assert (if a.prepared.Some? then run == a.prepared.value else Tells(run, a.behaviour, timeout, a.decodeError))
           && Reports(r, request.requestId, run);
  }

  lemma {:induction false} ReportedStatus(r: Response, requestId: string, run: Execution)
    requires Reports(r, requestId, run)
    ensures r.status == Completed <==> run.Exited? && run.returnCode == 0
  {
    hide IsResultOf, IsErrorOf;
  }

  /** ... and what `_handle_task` answers, in every one of its exits. */
  ghost predicate TaskAnswered(r: Response, request: Request, busy: bool, processTimeout: nat, a: Answers)
    requires request.task.Valid()
  {
    if busy then r == Response(request.requestId, Failed, None, Some("워커가 최대 용량에 도달했습니다"))
    else if a.completion.Some? then r == Response(request.requestId, Failed, None, a.completion)
    else Executed(r, request, processTimeout, a)
  }

  lemma {:induction false} TaskMeans(request: Request, busy: bool, processTimeout: nat, a: Answers)
    requires request.task.Valid() && a.Possible()
    ensures TaskAnswered(TaskResponse(request, busy, processTimeout, a), request, busy, processTimeout, a)
  {
    hide BuildResponse, RunOf, Executed;
    ExecutedMeans(request, processTimeout, a);
  }

  class RabbitMQWorker {
    const maxTasks: nat
    const processTimeout: nat
    const processManager: ProcessManager
    /** Everything published so far and when, and every verdict. */
    var sent: seq<Response>
    var sentAt: seq<real>
    var verdicts: seq<Verdict>

    constructor (maxTasks: nat, processTimeout: nat, processManager: ProcessManager)
      ensures this.maxTasks == maxTasks && this.processTimeout == processTimeout
      ensures this.processManager == processManager && sent == [] && sentAt == [] && verdicts == []
    {
      this.maxTasks := maxTasks;
      this.processTimeout := processTimeout;
      this.processManager := processManager;
      sent, sentAt, verdicts := [], [], [];
    }

    ghost function View(): Worker
      reads processManager
    {
      Worker(maxTasks, 1, 0, true, processManager.activeProcesses.Keys)
    }

    predicate IsBusy()
      reads processManager
    {
      processManager.GetActiveProcessCount() >= maxTasks
    }

    /** `execute_scraping_request`: whatever happens, the process is no longer counted at the end. */
    method Execute(request: Request, a: Answers) returns (response: Response)
      requires request.task.Valid() && a.Possible()
      modifies processManager
      ensures response == BuildResponse(request.requestId, RunOf(request, processTimeout, a))
      ensures Executed(response, request, processTimeout, a)
      ensures processManager.clock == old(processManager.clock) + RunTime(request, processTimeout, a)
      ensures a.prepared.Some? ==> processManager.clock == old(processManager.clock) + a.preparation
      ensures Kept(a.key, old(processManager.activeProcesses), processManager.activeProcesses)
    {
      hide Executed;
      ExecutedMeans(request, processTimeout, a);
      processManager.Wait(a.preparation);
      if a.prepared.Some? {
        return BuildResponse(request.requestId, a.prepared.value);
      }
      var timeout := EffectiveTimeout(request.task.timeout, processTimeout);
      var run := processManager.ExecuteScript(a.key, 0, a.behaviour, timeout, a.decodeError);
      response := BuildResponse(request.requestId, run);
    }

    /** `_handle_task`: refuse when busy, else execute and publish the completion event; if that raises, a
        failure is answered even to a run that completed. */
    method HandleTask(request: Request, a: Answers) returns (response: Response)
      requires request.task.Valid() && a.Possible()
      modifies processManager
      ensures response == TaskResponse(request, old(IsBusy()), processTimeout, a)
      ensures TaskAnswered(response, request, old(IsBusy()), processTimeout, a)
      ensures processManager.clock == old(processManager.clock) + WorkTime(request, old(IsBusy()), processTimeout, a)
      ensures old(IsBusy()) ==> processManager.clock == old(processManager.clock) + a.counting
      ensures Kept(a.key, old(processManager.activeProcesses), processManager.activeProcesses)
    {
      hide TaskAnswered, Executed;
      TaskMeans(request, IsBusy(), processTimeout, a);
      if IsBusy() {
        response := FailedResponse(request.requestId, CAPACITY_MESSAGE);
      } else {
        response := Execute(request, a);
        processManager.Wait(a.completionTakes);
        if a.completion.Some? {
          response := FailedResponse(request.requestId, a.completion.value);
        }
      }
      processManager.Wait(a.counting);
    }

    /** `_send_response`; what it raises is the result. */
    method SendResponse(response: Response, answer: SendAnswer) returns (raised: Option<string>)
      modifies this, processManager`clock
      ensures sent == old(sent) + (if answer.published then [response] else [])
      ensures sentAt == old(sentAt) + (if answer.published then [processManager.clock] else [])
      ensures processManager.clock == old(processManager.clock) + answer.takes
      ensures raised == answer.raised && verdicts == old(verdicts)
    {
      processManager.Wait(answer.takes);
      if answer.published {
        sent := sent + [response];
        sentAt := sentAt + [processManager.clock];
      }
      raised := answer.raised;
    }

    /** `_process_message`. */
    method ProcessMessage(m: Message, a: Answers)
      requires a.Possible()
      modifies this, processManager
      ensures var pass := Handled(m, old(View()), processTimeout, a);
        sent == old(sent) + pass.replies && verdicts == old(verdicts) + [pass.verdict]
      ensures sentAt == old(sentAt) + ReplyTimes(m, old(View()), processTimeout, a, old(processManager.clock))
      ensures Kept(a.key, old(processManager.activeProcesses), processManager.activeProcesses)
    {
      hide BuildResponse, FailedResponse, Decode, ReplyId, OnException, TaskResponse, TaskAnswered, Handled, SendFrom,
           WorkTime, SendTimes, ReplyTimes;
      ghost var view, start := View(), processManager.clock;
      var error := None;
      var parsed := Decode(m.body, a.freshId, a.now);
      match parsed {
        case Invalid(_) =>
          AfterParseError(m, view, processTimeout, a, start);
          error := Some(a.parseError);
        case Accepted(request) =>
          AfterTask(m, view, processTimeout, a, start);
          var response := HandleTask(request, a);
          if m.address.Address? {
            error := SendResponse(response, a.first);
          }
      }
      if error.Some? {
        AfterException(m, error.value, a, processManager.clock);
      }
      var verdict := Ack;
      if error.Some? && m.address.Address? {
        var id := ReplyId(m.body);
        if id.None? {
          verdict := Reject(NothingToReply);
        } else {
          var failed := SendResponse(FailedResponse(id.value, error.value), a.second);
          if failed.Some? {
            verdict := Reject(SendFailed);
          }
        }
      }
      verdicts := verdicts + [verdict];
    }
  }

  // ----- one pass is a run of the step system -----

  /** Handler `d` of request `n` is in phase `p`, its delivery still unacknowledged. */
  predicate Handling(s: State, d: Delivery, n: nat, m: Message, p: HandlerPhase) {
    && d in s.handlers && s.handlers[d] == Handler(n, p) && d.worker in s.workers
    && n < |s.broker.messages| && s.broker.messages[n] == m
    && d in s.broker.unacked && s.broker.unacked[d] == n
    && (p.Replying? ==> m.address.Address?)
  }

  function Log(n: nat, pass: Pass): seq<Entry> {
    seq(|pass.replies|, i requires 0 <= i < |pass.replies| => Replied(n, pass.replies[i])) + [Settled(n, pass.verdict)]
  }

  lemma {:induction false} LogMore(n: nat, first: seq<Response>, rest: Pass)
    requires |first| <= 1
    ensures Log(n, Pass(first + rest.replies, rest.verdict))
            == (if first == [] then [] else [Replied(n, first[0])]) + Log(n, rest)
  {
  }

  lemma {:induction false} PublishStep(s: State, d: Delivery, n: nat, m: Message, p: HandlerPhase)
    requires Handling(s, d, n, m, p) && p.Replying? && !p.published
    ensures Enabled(s, PublishReply(d))
    ensures var t := Next(s, PublishReply(d));
      Handling(t, d, n, m, p.(published := true)) && t.broker.history == s.broker.history + [Replied(n, p.response)]
  {
  }

  lemma {:induction false} ReturnStep(s: State, d: Delivery, n: nat, m: Message, p: HandlerPhase)
    requires Handling(s, d, n, m, p) && p.Replying? && p.published
    ensures Enabled(s, SendReturns(d))
    ensures var t := Next(s, SendReturns(d));
      Handling(t, d, n, m, Finishing(Ack)) && t.broker.history == s.broker.history
  {
  }

  lemma {:induction false} RaiseStep(s: State, d: Delivery, n: nat, m: Message, p: HandlerPhase, error: string)
    requires Handling(s, d, n, m, p) && p.Replying?
    ensures Enabled(s, SendRaises(d, error))
    ensures var t := Next(s, SendRaises(d, error));
      Handling(t, d, n, m, SendRaised(m, p, error)) && t.broker.history == s.broker.history
  {
    hide FailedResponse, ReplyId;
  }

  lemma {:induction false} FinishStep(s: State, d: Delivery, n: nat, m: Message, v: Verdict)
    requires Handling(s, d, n, m, Finishing(v))
    ensures Enabled(s, Finish(d))
    ensures var t := Next(s, Finish(d)); t.broker.history == s.broker.history + [Settled(n, v)] && d !in t.handlers
  {
  }

  lemma {:induction false} RunCons(s: State, e: Event, rest: seq<Event>)
    requires Enabled(s, e) && IsRun(Next(s, e), rest)
    ensures IsRun(s, [e] + rest) && Run(s, [e] + rest) == Run(Next(s, e), rest)
  {
    hide Next, Enabled;
    assert ([e] + rest)[1..] == rest;
  }

  /** The run leaves exactly the log of the pass, and the handler gone. */
  ghost predicate Leaves(s: State, events: seq<Event>, d: Delivery, n: nat, pass: Pass) {
    && IsRun(s, events) && d !in Run(s, events).handlers
    && Run(s, events).broker.history == s.broker.history + Log(n, pass)
  }

  lemma {:induction false} FinishingIsRun(s: State, d: Delivery, n: nat, m: Message, v: Verdict)
      returns (events: seq<Event>)
    requires Handling(s, d, n, m, Finishing(v))
    ensures Leaves(s, events, d, n, Pass([], v))
  {
    FinishStep(s, d, n, m, v);
    hide Next, Enabled;
    RunCons(s, Finish(d), []);
    events := [Finish(d)] + [];
    assert Log(n, Pass([], v)) == [Settled(n, v)];
  }

  lemma {:induction false} LeavesCons(s: State, e: Event, rest: seq<Event>, d: Delivery, n: nat, first: seq<Response>,
                                      pass: Pass)
    requires Enabled(s, e) && Leaves(Next(s, e), rest, d, n, pass) && |first| <= 1
    requires Next(s, e).broker.history == s.broker.history + (if first == [] then [] else [Replied(n, first[0])])
    ensures Leaves(s, [e] + rest, d, n, Pass(first + pass.replies, pass.verdict))
  {
    hide Next, Enabled, Log;
    RunCons(s, e, rest);
    LogMore(n, first, pass);
  }

  lemma {:induction false} NoReplies(pass: Pass)
    ensures Pass([] + pass.replies, pass.verdict) == pass
  {
    assert [] + pass.replies == pass.replies;
  }

  /** A send that has published already, or will not. */
  lemma {:induction false} SentIsRun(s: State, d: Delivery, n: nat, m: Message, p: HandlerPhase, answer: SendAnswer,
                                     a: Answers)
      returns (events: seq<Event>)
    requires Handling(s, d, n, m, p) && p.Replying? && p.published == answer.published
    requires a.Possible() && answer == if p.onError then a.second else a.first
    ensures Leaves(s, events, d, n,
                   if answer.raised.None? then Pass([], Ack) else SendFrom(m, SendRaised(m, p, answer.raised.value), a))
    decreases if p.onError then 1 else 2, 0
  {
    hide Next, Enabled, Handling, FailedResponse, ReplyId, Leaves;
    if answer.raised.None? {
      ReturnStep(s, d, n, m, p);
      var rest := FinishingIsRun(Next(s, SendReturns(d)), d, n, m, Ack);
      LeavesCons(s, SendReturns(d), rest, d, n, [], Pass([], Ack));
      events := [SendReturns(d)] + rest;
      NoReplies(Pass([], Ack));
    } else {
      var e := SendRaises(d, answer.raised.value);
      var q := SendRaised(m, p, answer.raised.value);
      RaiseStep(s, d, n, m, p, answer.raised.value);
      var rest := SendingIsRun(Next(s, e), d, n, m, q, a);
      LeavesCons(s, e, rest, d, n, [], SendFrom(m, q, a));
      events := [e] + rest;
      NoReplies(SendFrom(m, q, a));
    }
  }

  lemma {:induction false} SendingIsRun(s: State, d: Delivery, n: nat, m: Message, p: HandlerPhase, a: Answers)
      returns (events: seq<Event>)
    requires Handling(s, d, n, m, p) && a.Possible() && (p.Finishing? || (p.Replying? && !p.published))
    ensures Leaves(s, events, d, n, SendFrom(m, p, a))
    decreases if p.Finishing? then 0 else if p.onError then 1 else 2, 1
  {
    hide Next, Enabled, Handling, FailedResponse, ReplyId, Leaves;
    if p.Finishing? {
      events := FinishingIsRun(s, d, n, m, p.verdict);
    } else {
      var answer := if p.onError then a.second else a.first;
      var rest;
      if answer.published {
        var q := p.(published := true);
        PublishStep(s, d, n, m, p);
        rest := SentIsRun(Next(s, PublishReply(d)), d, n, m, q, answer, a);
        var pass := if answer.raised.None? then Pass([], Ack)
          else SendFrom(m, SendRaised(m, q, answer.raised.value), a);
        LeavesCons(s, PublishReply(d), rest, d, n, [p.response], pass);
        events := [PublishReply(d)] + rest;
        assert [p.response] + [] == [p.response];
        assert answer.raised.Some? ==>
          SendRaised(m, q, answer.raised.value) == SendRaised(m, p, answer.raised.value);
      } else {
        events := SentIsRun(s, d, n, m, p, answer, a);
        NoReplies(SendFrom(m, SendRaised(m, p, answer.raised.value), a));
      }
    }
  }

  lemma {:induction false} BeginStep(s: State, d: Delivery, n: nat, m: Message, a: Answers)
    requires Handling(s, d, n, m, Received) && a.now.Valid()
    ensures var e := BeginHandler(d, a.freshId, a.now, a.parseError);
      && Enabled(s, e)
      && Handling(Next(s, e), d, n, m, Begin(m, s.workers[d.worker], a.freshId, a.now, a.parseError))
      && Next(s, e).broker.history == s.broker.history
  {
    hide FailedResponse, ReplyId, Decode, IsBusy;
  }

  /** What a process leaves in the history. */
  function RunLog(n: nat, started: Option<Execution>): seq<Entry> {
    if started.Some? then [Ran(n, started.value)] else []
  }

  lemma {:induction false} RunSteps(s: State, d: Delivery, n: nat, m: Message, request: Request, run: Execution,
                                    a: Answers)
      returns (events: seq<Event>)
    requires Handling(s, d, n, m, Preparing(request)) && a.Possible()
    requires a.prepared.Some? ==> run == a.prepared.value
    ensures IsRun(s, events) && Handling(Run(s, events), d, n, m, Notifying(request, run))
    ensures Run(s, events).broker.history == s.broker.history + RunLog(n, if a.prepared.Some? then None else Some(run))
  {
    if a.prepared.Some? {
      var e := NotSpawned(d, run);
      events := [e] + [];
      RunCons(s, e, []);
    } else {
      var t := Next(s, Spawn(d, a.key));
      RunCons(t, Exit(d, run), []);
      RunCons(s, Spawn(d, a.key), [Exit(d, run)] + []);
      events := [Spawn(d, a.key)] + ([Exit(d, run)] + []);
    }
  }

  lemma {:induction false} NotifyStep(s: State, d: Delivery, n: nat, m: Message, request: Request, run: Execution,
                                      raised: Option<string>)
    requires Handling(s, d, n, m, Notifying(request, run))
    ensures Enabled(s, Notified(d, raised))
    ensures var t := Next(s, Notified(d, raised));
      && Handling(t, d, n, m, ReplyWith(m, Answer(request, run, raised)))
      && t.broker.history == s.broker.history
  {
    hide Answer;
  }

  lemma {:induction false} ExecuteSteps(s: State, d: Delivery, n: nat, m: Message, request: Request, run: Execution,
                                        a: Answers)
      returns (events: seq<Event>)
    requires Handling(s, d, n, m, Preparing(request)) && a.Possible()
    requires a.prepared.Some? ==> run == a.prepared.value
    ensures IsRun(s, events) && Handling(Run(s, events), d, n, m, ReplyWith(m, Answer(request, run, a.completion)))
    ensures Run(s, events).broker.history == s.broker.history + RunLog(n, if a.prepared.Some? then None else Some(run))
  {
    hide Next, Enabled, Handling, Answer, ReplyWith, RunLog;
    var steps := RunSteps(s, d, n, m, request, run, a);
    var e := Notified(d, a.completion);
    NotifyStep(Run(s, steps), d, n, m, request, run, a.completion);
    RunCons(Run(s, steps), e, []);
    events := steps + ([e] + []);
    RunConcat(s, steps, [e] + []);
  }

  lemma {:induction false} RunConcat(s: State, xs: seq<Event>, ys: seq<Event>)
    requires IsRun(s, xs) && IsRun(Run(s, xs), ys)
    ensures IsRun(s, xs + ys) && Run(s, xs + ys) == Run(Run(s, xs), ys)
    decreases |xs|
  {
    hide Next, Enabled;
    if xs == [] {
      assert xs + ys == ys;
    } else {
      assert (xs + ys)[1..] == xs[1..] + ys;
      RunConcat(Next(s, xs[0]), xs[1..], ys);
    }
  }

  /** What `ProcessMessage` does in one go is a run of the step system: from a delivery just received to
      its settlement, with the same process run, the same replies published and the same verdict, in order. */
  lemma {:induction false} PassIsRun(s: State, d: Delivery, n: nat, m: Message, processTimeout: nat, a: Answers)
      returns (events: seq<Event>)
    requires Handling(s, d, n, m, Received) && a.Possible()
    ensures IsRun(s, events) && d !in Run(s, events).handlers
    ensures var w := s.workers[d.worker];
      Run(s, events).broker.history
      == s.broker.history + (RunLog(n, Started(m, w, processTimeout, a)) + Log(n, Handled(m, w, processTimeout, a)))
  {
    hide Next, Enabled, Answer, FailedResponse, ReplyId, BuildResponse, Decode, IsBusy, SendFrom, Log, Ending;
    var w := s.workers[d.worker];
    var e := BeginHandler(d, a.freshId, a.now, a.parseError);
    var p := Begin(m, w, a.freshId, a.now, a.parseError);
    BeginStep(s, d, n, m, a);
    var s1 := Next(s, e);
    RunCons(s, e, []);
    events := [e] + [];
    if p.Preparing? {
      var steps := ExecuteSteps(s1, d, n, m, p.request, RunOf(p.request, processTimeout, a), a);
      RunConcat(s, events, steps);
      events := events + steps;
    }
    assert p.Replying? || p.Finishing? ==> Answered(m, w, processTimeout, a) == p;
    var rest := SendingIsRun(Run(s, events), d, n, m, Answered(m, w, processTimeout, a), a);
    RunConcat(s, events, rest);
    events := events + rest;
  }
}
