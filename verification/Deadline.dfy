/** The 30 seconds between the process timeout and the gateway's own. */
module Deadline {
  import opened Wrappers
  import opened RpcMessages
  import opened RpcModel
  import opened Processes
  import opened RpcWorker

  /** What `/scrape` passes to `call_async`. */
  function GatewayTimeout(task: Task): int {
    task.timeout + 30
  }

  /** A request that will be executed and answered: well formed, addressed, to a worker that is not busy. */
  predicate WillRun(m: Message, w: Worker, a: Answers) {
    && Decode(m.body, a.freshId, a.now).Accepted? && m.address.Address?
    && !IsBusy(w) && a.prepared.None? && a.first.raised.None? && a.Possible()
  }

  /** A script that neither ends nor obeys takes the full timeout and the whole grace period. */
  function Stubborn(): (b: Behaviour)
    ensures b.Possible()
  {
    Behaviour(None, None, None)
  }

  /** Every reply to an accepted request is out early enough for the way back. */
  predicate InTime(m: Message, w: Worker, processTimeout: nat, a: Answers, waited: real, transit: real)
    requires Decode(m.body, a.freshId, a.now).Accepted?
  {
    forall t | t in ReplyTimes(m, w, processTimeout, a, waited) ::
      t + transit < GatewayTimeout(Decode(m.body, a.freshId, a.now).request.task) as real
  }

  /** When the one reply of such a request is out. */
  lemma {:induction false} OneReply(m: Message, w: Worker, processTimeout: nat, a: Answers, now: real)
    requires WillRun(m, w, a)
    ensures var request := Decode(m.body, a.freshId, a.now).request;
      ReplyTimes(m, w, processTimeout, a, now) ==
        [now + (RunTime(request, processTimeout, a) + a.completionTakes + a.counting) + a.first.takes]
  {
    hide Decode, IsBusy, ReplyTimes, SendTimes;
    AfterTask(m, w, processTimeout, a, now);
  }

  /** Everything but the run of the script: `waited` from the start of the gateway's timer to the arrival at the
      worker, then preparing, the completion event, the count, sending, and `transit` back. */
  function Overhead(a: Answers, waited: real, transit: real): real {
    waited + a.preparation + a.completionTakes + a.counting + a.first.takes + transit
  }

  /** The reply `_process_message` sends to a request it executes reaches the gateway before its timeout, for
      every behaviour of the script, exactly when everything but the run takes less than 25 seconds: the slack
      of 30 less the 5 of the kill ladder. */
  lemma {:induction false} DeadlineSlack(m: Message, w: Worker, processTimeout: nat, a: Answers, waited: real,
                                         transit: real)
    requires WillRun(m, w, a)
    ensures (forall b: Behaviour | b.Possible() ::
               InTime(m, w, processTimeout, a.(behaviour := b), waited, transit))
            <==> Overhead(a, waited, transit) < 25.0
  {
    hide Decode, IsBusy, ReplyTimes;
    var task := Decode(m.body, a.freshId, a.now).request.task;
    forall b: Behaviour | b.Possible()
      ensures Overhead(a, waited, transit) < 25.0 ==>
        InTime(m, w, processTimeout, a.(behaviour := b), waited, transit)
    {
      OneReply(m, w, processTimeout, a.(behaviour := b), waited);
      LadderMeans(b, task.timeout, 0.0, "");
    }
    var worst := a.(behaviour := Stubborn());
    OneReply(m, w, processTimeout, worst, waited);
    assert Elapsed(Stubborn(), task.timeout) == task.timeout as real + GRACE;
    assert ReplyTimes(m, w, processTimeout, worst, waited)[0] in ReplyTimes(m, w, processTimeout, worst, waited);
    assert InTime(m, w, processTimeout, worst, waited, transit) ==> Overhead(a, waited, transit) < 25.0;
  }

  /** Whatever happens to an accepted request, refusal, failed preparation and a second send included, every
      reply is in time if everything but the run takes less than 25 seconds. */
  lemma {:induction false} AllInTime(m: Message, w: Worker, processTimeout: nat, a: Answers, waited: real,
                                     transit: real)
    requires Decode(m.body, a.freshId, a.now).Accepted? && a.Possible()
    requires Overhead(a, waited, transit) + a.second.takes < 25.0
    ensures InTime(m, w, processTimeout, a, waited, transit)
  {
    hide Decode, IsBusy, ReplyTimes, SendTimes, OnException;
    var request := Decode(m.body, a.freshId, a.now).request;
    AfterTask(m, w, processTimeout, a, waited);
    LadderMeans(a.behaviour, request.task.timeout, 0.0, "");
    if a.first.raised.Some? {
      AfterException(m, a.first.raised.value, a,
                     waited + WorkTime(request, IsBusy(w), processTimeout, a) + a.first.takes);
    }
  }
}
