/** `RabbitMQRPC`: the futures map and the futures it shares with suspended calls, changed in place.
    Each method is one piece of `call_async` or `_on_response` between two awaits, or what `wait_for`
    does when its timer fires; each is one event of the step system. */
module RpcGateway {
  import opened Wrappers
  import opened ScriptOutput
  import opened RpcMessages
  import opened RpcModel

  /** `asyncio.Future`. */
  class Future {
    var state: FutureState

    constructor ()
      ensures state == Pending
    {
      state := Pending;
    }

    predicate Done()
      reads this
    {
      state != Pending
    }

    method SetResult(response: Response)
      requires !Done()
      modifies this
      ensures state == Result(response)
    {
      state := Result(response);
    }

    method SetException()
      requires !Done()
      modifies this
      ensures state == Excepted
    {
      state := Excepted;
    }

    /** Cancelling a future that is done has no effect. */
    method Cancel()
      modifies this
      ensures state == if old(state) == Pending then Cancelled else old(state)
    {
      if state == Pending {
        state := Cancelled;
      }
    }
  }

  /** The local state of one `call_async` coroutine. */
  datatype Frame = Frame(request: Request, future: Future, sent: bool, phase: Phase)

  class RabbitMQRPC {
    var futures: map<Cid, Future>
    var frames: map<Cid, Frame>
    ghost var answered: set<Cid>

    ghost function Shared(): set<Future>
      reads this
    {
      set cid | cid in frames :: frames[cid].future
    }

    /** A registered future is the one its call waits for, and no two calls share one. */
    ghost predicate Valid()
      reads this
    {
      && (forall cid | cid in futures :: cid in frames && futures[cid] == frames[cid].future)
      && (forall a, b | a in frames && b in frames && a != b :: frames[a].future != frames[b].future)
    }

    /** The gateway of the step system that this object stands for. */
    ghost function View(): Gateway
      reads this, Shared()
    {
      Gateway(map cid | cid in frames :: Call(frames[cid].request, frames[cid].future.state, frames[cid].sent,
                                              frames[cid].phase),
              futures.Keys, answered)
    }

    constructor ()
      ensures Valid() && View() == Initial().gateway
    {
      futures, frames, answered := map[], map[], {};
    }

    method Register(cid: Cid, request: Request)
      modifies this`futures, this`frames
      ensures cid in frames && fresh(frames[cid].future) && frames[cid].future.state == Pending
      ensures frames == old(frames)[cid := Frame(request, frames[cid].future, false, Publishing)]
      ensures futures == old(futures)[cid := frames[cid].future]
    {
      var future := new Future();
      futures := futures[cid := future];
      frames := frames[cid := Frame(request, future, false, Publishing)];
    }

    /** `call_async` up to its publish; `cid` is the fresh uuid. */
    method StartCall(cid: Cid, request: Request)
      requires Valid() && cid !in frames && request.Valid()
      modifies this
      ensures Valid() && GatewayEnabled(old(View()), GatewayEvent.StartCall(cid, request))
      ensures View() == GatewayNext(old(View()), GatewayEvent.StartCall(cid, request))
    {
      ghost var before := View();
      Register(cid, request);
      assert View().calls == before.calls[cid := Call(request, Pending, false, Publishing)];
    }

    /** `await publish` has returned: the call goes on to wait. */
    method PublishReturns(cid: Cid)
      requires Valid() && GatewayEnabled(View(), GatewayEvent.PublishReturns(cid))
      modifies this
      ensures Valid() && View() == GatewayNext(old(View()), GatewayEvent.PublishReturns(cid))
    {
      ghost var before := View();
      frames := frames[cid := frames[cid].(phase := Waiting)];
      assert View().calls == before.calls[cid := before.calls[cid].(phase := Waiting)];
    }

    /** `await publish` raises outside the `try`: the call ends and its future stays registered. */
    method PublishRaises(cid: Cid)
      requires Valid() && GatewayEnabled(View(), GatewayEvent.PublishRaises(cid))
      modifies this
      ensures Valid() && View() == GatewayNext(old(View()), GatewayEvent.PublishRaises(cid))
      ensures futures == old(futures)
    {
      ghost var before := View();
      frames := frames[cid := frames[cid].(phase := Done(PublishFailed))];
      assert View().calls == before.calls[cid := before.calls[cid].(phase := Done(PublishFailed))];
    }

    /** `wait_for` cancels the future when its time is up. */
    method TimerFires(cid: Cid)
      requires Valid() && GatewayEnabled(View(), GatewayEvent.TimerFires(cid))
      modifies this, Shared()
      ensures Valid() && View() == GatewayNext(old(View()), GatewayEvent.TimerFires(cid))
    {
      ghost var before := View();
      frames[cid].future.Cancel();
      assert View().calls == before.calls[cid := before.calls[cid].(future := Cancelled)];
    }

    /** The rest of `call_async`, once `wait_for` lets it go on. */
    method Resume(cid: Cid) returns (outcome: Outcome)
      requires Valid() && GatewayEnabled(View(), GatewayEvent.Resume(cid))
      modifies this
      ensures Valid() && View() == GatewayNext(old(View()), GatewayEvent.Resume(cid))
      ensures cid in frames
      ensures match frames[cid].future.state
              case Result(response) => outcome == Returned(response)
              case Cancelled => outcome == TimedOut && cid !in futures
              case Excepted => outcome == Raised && cid !in futures
              case Pending => false
    {
      ghost var before := View();
      match frames[cid].future.state {
        case Result(response) => outcome := Returned(response);
        case Cancelled =>
          futures := futures - {cid};
          outcome := TimedOut;
        case Excepted =>
          futures := futures - {cid};
          outcome := Raised;
      }
      frames := frames[cid := frames[cid].(phase := Done(outcome))];
      assert View().calls == before.calls[cid := before.calls[cid].(phase := Done(outcome))];
    }

    /** The coroutine is cancelled from outside; no `except` clause here catches that. */
    method Abort(cid: Cid)
      requires Valid() && GatewayEnabled(View(), GatewayEvent.Abort(cid))
      modifies this, Shared()
      ensures Valid() && View() == GatewayNext(old(View()), GatewayEvent.Abort(cid))
      ensures futures == old(futures)
    {
      ghost var before := View();
      if frames[cid].phase == Waiting {
        frames[cid].future.Cancel();
      }
      frames := frames[cid := frames[cid].(phase := Done(Aborted))];
      assert View().calls == before.calls[cid := View().calls[cid]];
    }

    /** `_on_response`. */
    method OnResponse(cid: Cid, reply: Option<Response>)
      requires Valid()
      modifies this, Shared()
      ensures Valid() && View() == RpcModel.OnResponse(old(View()), cid, reply)
      ensures cid in old(futures) && old(futures[cid].state) == Pending ==>
        old(futures)[cid].state == (if reply.Some? then Result(reply.value) else Excepted)
    {
      ghost var before := View();
      if cid in futures {
        var future := futures[cid];
        futures := futures - {cid};
        answered := answered + {cid};
        if !future.Done() {
          if reply.Some? {
            future.SetResult(reply.value);
          } else {
            future.SetException();
          }
        }
        assert View().calls == before.calls[cid := before.calls[cid].(future := future.state)];
      }
    }
  }
}
