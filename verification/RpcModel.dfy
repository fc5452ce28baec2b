/** The RPC protocol as one step system: the gateway's calls, the broker's task queue and replies,
    and any number of workers with their handlers. An event is one uninterrupted piece of a program
    (from one `await` to the next), one broker action, or one failure; any enabled event may come next. */
module RpcModel {
  import opened Wrappers
  import opened Timestamps
  import opened ScriptOutput
  import opened RpcMessages

  // ----- the gateway -----

  /** A correlation id; `uuid4` never repeats one. */
  type Cid = nat

  datatype FutureState = Pending | Result(response: Response) | Excepted | Cancelled

  datatype Outcome = Returned(response: Response) | TimedOut | Raised | PublishFailed | Aborted

  /** Where the coroutine of a call stands. */
  datatype Phase = Publishing | Waiting | Done(outcome: Outcome)

  datatype Call = Call(request: Request, future: FutureState, sent: bool, phase: Phase)

  /** `futures` are the keys of `self.futures`; `answered` remembers whose entry a reply has removed. */
  datatype Gateway = Gateway(calls: map<Cid, Call>, futures: set<Cid>, answered: set<Cid>)

  datatype GatewayEvent =
    | StartCall(cid: Cid, request: Request)
    | PublishReturns(cid: Cid)
    | PublishRaises(cid: Cid)
    | TimerFires(cid: Cid)
    | Resume(cid: Cid)
    | Abort(cid: Cid)

  predicate GatewayEnabled(g: Gateway, e: GatewayEvent) {
    match e
    case StartCall(cid, request) => cid !in g.calls && request.Valid()
    case PublishReturns(cid) => cid in g.calls && g.calls[cid].phase == Publishing && g.calls[cid].sent
    case PublishRaises(cid) => cid in g.calls && g.calls[cid].phase == Publishing
    case TimerFires(cid) => cid in g.calls && g.calls[cid].phase == Waiting && g.calls[cid].future == Pending
    case Resume(cid) => cid in g.calls && g.calls[cid].phase == Waiting && g.calls[cid].future != Pending
    case Abort(cid) => cid in g.calls && !g.calls[cid].phase.Done?
  }

  /** How a call ends once its future is settled. */
  function OutcomeOf(f: FutureState): Outcome
    requires f != Pending
  {
    match f
    case Result(r) => Returned(r)
    case Excepted => Raised
    case Cancelled => TimedOut
  }

  /** The gateway's own pieces of `call_async`. The `except` clauses remove the future again; a
      publish that raises and a cancellation from outside are not caught by them. */
  function GatewayNext(g: Gateway, e: GatewayEvent): Gateway
    requires GatewayEnabled(g, e)
  {
    match e
    case StartCall(cid, request) =>
      g.(calls := g.calls[cid := Call(request, Pending, false, Publishing)], futures := g.futures + {cid})
    case PublishReturns(cid) => g.(calls := g.calls[cid := g.calls[cid].(phase := Waiting)])
    case PublishRaises(cid) => g.(calls := g.calls[cid := g.calls[cid].(phase := Done(PublishFailed))])
    case TimerFires(cid) => g.(calls := g.calls[cid := g.calls[cid].(future := Cancelled)])
    case Resume(cid) =>
      var outcome := OutcomeOf(g.calls[cid].future);
      g.(calls := g.calls[cid := g.calls[cid].(phase := Done(outcome))],
         futures := if outcome.Returned? then g.futures else g.futures - {cid})
    case Abort(cid) =>
      var c := g.calls[cid];
      // Only a call that is already waiting for its future takes the future down with it.
      var f := if c.phase == Waiting && c.future == Pending then Cancelled else c.future;
      g.(calls := g.calls[cid := c.(phase := Done(Aborted), future := f)])
  }

  /** `_on_response`; the reply is None when its body cannot be read as a response. */
  function OnResponse(g: Gateway, cid: Cid, reply: Option<Response>): Gateway {
    if cid !in g.futures || cid !in g.calls then g
    else
      var c := g.calls[cid];
      var f := if c.future != Pending then c.future else if reply.Some? then Result(reply.value) else Excepted;
      g.(calls := g.calls[cid := c.(future := f)], futures := g.futures - {cid}, answered := g.answered + {cid})
  }

  // ----- the broker -----

  datatype Queue = Ours | Other

  /** `reply_to` and `correlation_id` of a message, when it has both. */
  datatype Address = NoAddress | Address(queue: Queue, cid: Cid)

  datatype Message = Message(address: Address, body: Body)

  datatype Delivery = Delivery(worker: nat, channel: nat, tag: nat)

  datatype Reason = NothingToReply | SendFailed

  datatype Verdict = Ack | Reject(reason: Reason)

  datatype Entry =
    | Ran(message: nat, run: Execution)
    | Replied(message: nat, response: Response)
    | Settled(message: nat, verdict: Verdict)

  datatype Reply = Reply(cid: Cid, response: Response)

  /** `messages` numbers the requests ever published, `ready` are the queued ones, `history` is what
      workers have run, published and settled, in order, and `replies` is our reply queue. */
  datatype Broker = Broker(messages: seq<Message>, ready: multiset<nat>, unacked: map<Delivery, nat>,
                           history: seq<Entry>, replies: multiset<Reply>)

  function Publish(b: Broker, m: Message): Broker {
    b.(messages := b.messages + [m], ready := b.ready + multiset{|b.messages|})
  }

  function Deliver(b: Broker, d: Delivery, n: nat): Broker {
    b.(ready := b.ready - multiset{n}, unacked := b.unacked[d := n])
  }

  predicate OnChannel(d: Delivery, worker: nat, channel: nat) {
    d.worker == worker && d.channel == channel
  }

  /** Deliveries of a closed channel go back to the queue. */
  function Requeue(b: Broker, worker: nat, channel: nat): Broker {
    b.(ready := b.ready + multiset(set d | d in b.unacked && OnChannel(d, worker, channel) :: b.unacked[d]),
       unacked := map d | d in b.unacked && !OnChannel(d, worker, channel) :: b.unacked[d])
  }

  /** Settling works only on the channel of the delivery. */
  function Settle(b: Broker, d: Delivery, v: Verdict): Broker {
    if d in b.unacked then b.(unacked := b.unacked - {d}, history := b.history + [Settled(b.unacked[d], v)]) else b
  }

  /** A process started for request `n` has ended. */
  function Record(b: Broker, n: nat, run: Execution): Broker {
    b.(history := b.history + [Ran(n, run)])
  }

  function SendReply(b: Broker, n: nat, r: Response): Broker
    requires n < |b.messages| && b.messages[n].address.Address?
  {
    var a := b.messages[n].address;
    b.(history := b.history + [Replied(n, r)],
       replies := if a.queue == Ours then b.replies + multiset{Reply(a.cid, r)} else b.replies)
  }

  // ----- workers -----

  /** `channel` counts the channels opened so far, `active` are the keys of `active_processes`. */
  datatype Worker = Worker(maxTasks: nat, prefetch: nat, channel: nat, consuming: bool, active: set<string>)

  /** Where `_process_message` stands for one delivery. */
  datatype HandlerPhase =
    | Received
    | Preparing(request: Request)
    | Running(request: Request, key: string)
    | Notifying(request: Request, run: Execution)
    | Replying(response: Response, onError: bool, published: bool)
    | Finishing(verdict: Verdict)

  datatype Handler = Handler(message: nat, phase: HandlerPhase)

  const CAPACITY_MESSAGE: string := "워커가 최대 용량에 도달했습니다"

  /** `is_busy`. */
  predicate IsBusy(w: Worker) {
    |w.active| >= w.maxTasks
  }

  /** The end of `_handle_task`: the response for the run, unless publishing the completion event raised. */
  function Answer(request: Request, run: Execution, raised: Option<string>): Response {
    if raised.Some? then FailedResponse(request.requestId, raised.value) else BuildResponse(request.requestId, run)
  }

  /** After the response is built: send it if the message says where to. */
  function ReplyWith(m: Message, r: Response): HandlerPhase {
    if m.address.Address? then Replying(r, false, false) else Finishing(Ack)
  }

  /** The `except` clause of `_process_message`. */
  function OnException(m: Message, error: string): HandlerPhase {
    if m.address.NoAddress? then Finishing(Ack)
    else
      match ReplyId(m.body)
      case None => Finishing(Reject(NothingToReply))
      case Some(id) => Replying(FailedResponse(id, error), true, false)
  }

  /** Parsing and the busy check: they run without a break. */
  function Begin(m: Message, w: Worker, freshId: string, now: DateTime, error: string): (p: HandlerPhase)
    ensures p.Preparing? ==> p.request.task.Valid()
  {
    match Decode(m.body, freshId, now)
    case Invalid(_) => OnException(m, error)
    case Accepted(request) =>
      if IsBusy(w) then ReplyWith(m, FailedResponse(request.requestId, CAPACITY_MESSAGE)) else Preparing(request)
  }

  /** A send that raises: the first time the `except` clause answers, the second time nothing does. */
  function SendRaised(m: Message, p: HandlerPhase, error: string): HandlerPhase
    requires p.Replying?
  {
    if p.onError then Finishing(Reject(SendFailed)) else OnException(m, error)
  }

  // ----- the system -----

  datatype State = State(gateway: Gateway, broker: Broker, workers: map<nat, Worker>, handlers: map<Delivery, Handler>,
                         nextTag: nat)

  datatype Event =
    | AtGateway(event: GatewayEvent)
    | Send(cid: Cid)
    | Arrive(reply: Reply)
    | LoseReply(reply: Reply)
    | ForeignPublish(message: Message)
    | Join(worker: nat, maxTasks: nat, prefetch: nat)
    | DeliverTo(worker: nat, number: nat)
    | BeginHandler(d: Delivery, freshId: string, now: DateTime, error: string)
    | Spawn(d: Delivery, key: string)
    | NotSpawned(d: Delivery, run: Execution)
    | Exit(d: Delivery, run: Execution)
    | Notified(d: Delivery, raised: Option<string>)
    | PublishReply(d: Delivery)
    | SendReturns(d: Delivery)
    | SendRaises(d: Delivery, error: string)
    | Finish(d: Delivery)
    | ChannelLoss(worker: nat)
    | Subscribe(worker: nat)
    | Crash(worker: nat)

  function Outstanding(b: Broker, worker: nat, channel: nat): set<Delivery> {
    set d | d in b.unacked && OnChannel(d, worker, channel)
  }

  predicate At(s: State, d: Delivery) {
    && d in s.handlers && d.worker in s.workers
    && s.handlers[d].message < |s.broker.messages|
  }

  function MessageOf(s: State, d: Delivery): Message
    requires At(s, d)
  {
    s.broker.messages[s.handlers[d].message]
  }

  /** No message asks for its reply in our queue under this id: `uuid4` repeats no id, not even a foreign one. */
  predicate Unused(b: Broker, cid: Cid) {
    forall m | m in b.messages :: m.address != Address(Ours, cid)
  }

  predicate Enabled(s: State, e: Event) {
    match e
    case AtGateway(event) => GatewayEnabled(s.gateway, event) && (event.StartCall? ==> Unused(s.broker, event.cid))
    case Send(cid) => cid in s.gateway.calls && s.gateway.calls[cid].phase == Publishing && !s.gateway.calls[cid].sent
    case Arrive(reply) => reply in s.broker.replies
    case LoseReply(reply) => reply in s.broker.replies
    case ForeignPublish(m) => m.address.Address? && m.address.queue == Ours ==> m.address.cid !in s.gateway.calls
    case Join(w, maxTasks, prefetch) => w !in s.workers && prefetch > 0
    case DeliverTo(w, n) =>
      w in s.workers && s.workers[w].consuming && n in s.broker.ready
      && |Outstanding(s.broker, w, s.workers[w].channel)| < s.workers[w].prefetch
    case BeginHandler(d, freshId, now, error) => At(s, d) && s.handlers[d].phase.Received? && now.Valid()
    case Spawn(d, key) => At(s, d) && s.handlers[d].phase.Preparing?
    case NotSpawned(d, run) => At(s, d) && s.handlers[d].phase.Preparing? && !run.Exited?
    case Exit(d, run) => At(s, d) && s.handlers[d].phase.Running?
    case Notified(d, raised) => At(s, d) && s.handlers[d].phase.Notifying?
    case PublishReply(d) =>
      At(s, d) && s.handlers[d].phase.Replying? && !s.handlers[d].phase.published && MessageOf(s, d).address.Address?
    case SendReturns(d) => At(s, d) && s.handlers[d].phase.Replying? && s.handlers[d].phase.published
    case SendRaises(d, error) => At(s, d) && s.handlers[d].phase.Replying?
    case Finish(d) => At(s, d) && s.handlers[d].phase.Finishing?
    case ChannelLoss(w) => w in s.workers
    case Subscribe(w) => w in s.workers
    case Crash(w) => w in s.workers
  }

  function WithPhase(s: State, d: Delivery, p: HandlerPhase): State
    requires d in s.handlers
  {
    s.(handlers := s.handlers[d := s.handlers[d].(phase := p)])
  }

  /** The channel is gone: its deliveries are requeued, and nothing consumes until something subscribes
      again. Handlers keep running. `reconnect` has this effect too: it opens a new channel only. */
  function LoseChannel(s: State, w: nat): State
    requires w in s.workers
  {
    var channel := s.workers[w].channel;
    s.(broker := Requeue(s.broker, w, channel),
       workers := s.workers[w := s.workers[w].(channel := channel + 1, consuming := false)])
  }

  function Next(s: State, e: Event): State
    requires Enabled(s, e)
  {
    match e
    case AtGateway(event) => s.(gateway := GatewayNext(s.gateway, event))
    case Send(cid) =>
      var c := s.gateway.calls[cid];
      s.(gateway := s.gateway.(calls := s.gateway.calls[cid := c.(sent := true)]),
         broker := Publish(s.broker, Message(Address(Ours, cid), Encode(c.request))))
    case Arrive(reply) =>
      s.(gateway := OnResponse(s.gateway, reply.cid, Some(reply.response)),
         broker := s.broker.(replies := s.broker.replies - multiset{reply}))
    case LoseReply(reply) => s.(broker := s.broker.(replies := s.broker.replies - multiset{reply}))
    case ForeignPublish(m) => s.(broker := Publish(s.broker, m))
    case Join(w, maxTasks, prefetch) => s.(workers := s.workers[w := Worker(maxTasks, prefetch, 0, true, {})])
    case DeliverTo(w, n) =>
      var d := Delivery(w, s.workers[w].channel, s.nextTag);
      s.(broker := Deliver(s.broker, d, n), handlers := s.handlers[d := Handler(n, Received)], nextTag := s.nextTag + 1)
    case BeginHandler(d, freshId, now, error) =>
      WithPhase(s, d, Begin(MessageOf(s, d), s.workers[d.worker], freshId, now, error))
    case Spawn(d, key) =>
      var w := s.workers[d.worker];
      WithPhase(s.(workers := s.workers[d.worker := w.(active := w.active + {key})]), d,
                Running(s.handlers[d].phase.request, key))
    case NotSpawned(d, run) => WithPhase(s, d, Notifying(s.handlers[d].phase.request, run))
    case Exit(d, run) =>
      var w := s.workers[d.worker];
      WithPhase(s.(workers := s.workers[d.worker := w.(active := w.active - {s.handlers[d].phase.key})],
                   broker := Record(s.broker, s.handlers[d].message, run)), d,
                Notifying(s.handlers[d].phase.request, run))
    case Notified(d, raised) =>
      var p := s.handlers[d].phase;
      WithPhase(s, d, ReplyWith(MessageOf(s, d), Answer(p.request, p.run, raised)))
    case PublishReply(d) =>
      var p := s.handlers[d].phase;
      WithPhase(s.(broker := SendReply(s.broker, s.handlers[d].message, p.response)), d, p.(published := true))
    case SendReturns(d) => WithPhase(s, d, Finishing(Ack))
    case SendRaises(d, error) => WithPhase(s, d, SendRaised(MessageOf(s, d), s.handlers[d].phase, error))
    case Finish(d) =>
      s.(broker := Settle(s.broker, d, s.handlers[d].phase.verdict), handlers := s.handlers - {d})
    case ChannelLoss(w) => LoseChannel(s, w)
    case Subscribe(w) => s.(workers := s.workers[w := s.workers[w].(consuming := true)])
    case Crash(w) =>
      var after := LoseChannel(s, w);
      after.(workers := after.workers[w := after.workers[w].(active := {})],
             handlers := map d | d in s.handlers && d.worker != w :: s.handlers[d])
  }

  function Initial(): State {
    State(Gateway(map[], {}, {}), Broker([], multiset{}, map[], [], multiset{}), map[], map[], 0)
  }

  /** A run: each event is enabled where it happens. */
  predicate IsRun(s: State, events: seq<Event>)
    decreases |events|
  {
    events != [] ==> Enabled(s, events[0]) && IsRun(Next(s, events[0]), events[1..])
  }

  function Run(s: State, events: seq<Event>): State
    requires IsRun(s, events)
    decreases |events|
  {
    if events == [] then s else Run(Next(s, events[0]), events[1..])
  }
}
