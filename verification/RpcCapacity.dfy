/** Worker capacity: prefetch bounds the handlers on an open channel, and with them the processes, so
    the "at capacity" refusal needs handlers left over from a lost channel. */
module RpcCapacity {
  import opened Timestamps
  import opened ScriptOutput
  import opened RpcMessages
  import opened RpcModel
  import opened RpcInvariants
  import opened RpcConservation

  function RunningHandlers(s: State, w: nat): set<Delivery> {
    set d | d in s.handlers && d.worker == w && s.handlers[d].phase.Running?
  }

  /** Handlers of `w` whose channel is gone: their requests have been requeued already. */
  function Stale(s: State, w: nat): set<Delivery>
    requires w in s.workers
  {
    set d | d in s.handlers && d.worker == w && d.channel != s.workers[w].channel
  }

  ghost predicate ProcessesAccounted(s: State, w: nat)
    requires w in s.workers
  {
    forall key | key in s.workers[w].active :: exists d :: d in RunningHandlers(s, w) && s.handlers[d].phase.key == key
  }

  ghost predicate WithinPrefetch(s: State, w: nat)
    requires w in s.workers
  {
    |Outstanding(s.broker, w, s.workers[w].channel)| <= s.workers[w].prefetch
  }

  /** Every channel lost leaves at most one prefetch of handlers behind. */
  ghost predicate StaleWithin(s: State, w: nat)
    requires w in s.workers
  {
    |Stale(s, w)| <= s.workers[w].prefetch * s.workers[w].channel
  }

  ghost predicate Bounded(s: State) {
    forall w | w in s.workers :: WithinPrefetch(s, w) && ProcessesAccounted(s, w) && StaleWithin(s, w)
  }

  // ----- what steps keep -----

  lemma {:induction false} StepWithinPrefetch(s: State, e: Event, w: nat)
    requires InPlace(s) && Enabled(s, e) && w in Next(s, e).workers
    requires w in s.workers ==> WithinPrefetch(s, w)
    ensures WithinPrefetch(Next(s, e), w)
  {
    var t := Next(s, e);
    if !Moves(e) {
      hide InPlace, Next, Enabled;
      StaysPut(s, e);
    } else if e.DeliverTo? {
      DeliverWithin(s, e, w);
    } else if e.ChannelLoss? || e.Crash? {
      LoseWithin(s, e, w);
    } else {
      OthersWithin(s, e, w);
    }
  }

  lemma {:induction false} DeliverWithin(s: State, e: Event, w: nat)
    requires InPlace(s) && Enabled(s, e) && e.DeliverTo? && w in Next(s, e).workers
    requires w in s.workers ==> WithinPrefetch(s, w)
    ensures WithinPrefetch(Next(s, e), w)
  {
    hide InPlace, GatewayEnabled, At;
    var t := Next(s, e);
    var d := Delivery(e.worker, s.workers[e.worker].channel, s.nextTag);
    OneMore(s.broker, t.broker, d, e.number, w, s.workers[w].channel);
  }

  lemma {:induction false} OneMore(b: Broker, t: Broker, d: Delivery, n: nat, w: nat, channel: nat)
    requires t.unacked == b.unacked[d := n]
    ensures |Outstanding(t, w, channel)| <= |Outstanding(b, w, channel)| + 1
    ensures d.worker != w ==> Outstanding(t, w, channel) == Outstanding(b, w, channel)
  {
    if OnChannel(d, w, channel) {
      assert Outstanding(t, w, channel) == Outstanding(b, w, channel) + {d};
    } else {
      assert Outstanding(t, w, channel) == Outstanding(b, w, channel) - {d};
      SubsetSize(Outstanding(t, w, channel), Outstanding(b, w, channel));
      assert d.worker != w ==> d !in Outstanding(b, w, channel);
    }
  }

  lemma {:induction false} LoseWithin(s: State, e: Event, w: nat)
    requires InPlace(s) && Enabled(s, e) && (e.ChannelLoss? || e.Crash?) && w in Next(s, e).workers
    requires w in s.workers ==> WithinPrefetch(s, w)
    ensures WithinPrefetch(Next(s, e), w)
  {
    var t := Next(s, e);
    forall d | d in s.broker.unacked ensures DeliveryInPlace(s, d) {
    }
    if w == e.worker {
      assert Outstanding(t.broker, w, t.workers[w].channel) == {};
    } else {
      assert Outstanding(t.broker, w, t.workers[w].channel) == Outstanding(s.broker, w, s.workers[w].channel);
    }
  }

  lemma {:induction false} OthersWithin(s: State, e: Event, w: nat)
    requires InPlace(s) && Enabled(s, e) && (e.Send? || e.ForeignPublish? || e.Join? || e.Finish?)
    requires w in Next(s, e).workers
    requires w in s.workers ==> WithinPrefetch(s, w)
    ensures WithinPrefetch(Next(s, e), w)
  {
    hide Encode;
    var t := Next(s, e);
    if w !in s.workers {
      forall d | d in s.broker.unacked ensures d.worker != w {
        assert DeliveryInPlace(s, d);
      }
      assert Outstanding(t.broker, w, t.workers[w].channel) == {};
    } else {
      var was := Outstanding(s.broker, w, s.workers[w].channel);
      assert Outstanding(t.broker, w, t.workers[w].channel) <= was;
      SubsetSize(Outstanding(t.broker, w, t.workers[w].channel), was);
    }
  }

  lemma {:induction false} StepAccounted(s: State, e: Event, w: nat)
    requires InPlace(s) && Enabled(s, e) && w in Next(s, e).workers
    requires w in s.workers ==> ProcessesAccounted(s, w)
    ensures ProcessesAccounted(Next(s, e), w)
  {
    hide GatewayNext, GatewayEnabled, OnResponse, Begin, SendRaised, ReplyWith, BuildResponse, FailedResponse, Encode;
    hide Requeue, Publish, SendReply, Settle, Deliver;
    var t := Next(s, e);
    forall key | key in t.workers[w].active
      ensures exists d :: d in RunningHandlers(t, w) && t.handlers[d].phase.key == key
    {
      if e.Spawn? && e.d.worker == w && key == e.key {
        assert e.d in RunningHandlers(t, w);
      } else {
        assert key in s.workers[w].active;
        var d :| d in RunningHandlers(s, w) && s.handlers[d].phase.key == key;
        RunsOn(s, e, w, d);
        assert d in RunningHandlers(t, w);
      }
    }
  }

  /** A running handler runs on unless it is its own process that ends, or its worker that dies. */
  lemma {:induction false} RunsOn(s: State, e: Event, w: nat, d: Delivery)
    requires InPlace(s) && Enabled(s, e) && d in RunningHandlers(s, w)
    requires !(e.Exit? && e.d == d) && !(e.Crash? && e.worker == w)
    ensures d in RunningHandlers(Next(s, e), w) && Next(s, e).handlers[d].phase == s.handlers[d].phase
  {
    hide GatewayNext, GatewayEnabled, OnResponse, Begin, SendRaised, ReplyWith, BuildResponse, FailedResponse, Encode;
    hide Requeue, Publish, SendReply, Settle, Deliver;
    assert HandlerInPlace(s, d);
    match e
    case _ =>
  }

  lemma {:induction false} StepStaleWithin(s: State, e: Event, w: nat)
    requires InPlace(s) && Enabled(s, e) && w in Next(s, e).workers
    requires w in s.workers ==> WithinPrefetch(s, w) && StaleWithin(s, w)
    ensures StaleWithin(Next(s, e), w)
  {
    if !Moves(e) {
      hide InPlace, Next, Enabled;
      StaysPut(s, e);
      assert Stale(Next(s, e), w) == Stale(s, w);
    } else if e.ChannelLoss? && e.worker == w {
      LossStale(s, w);
    } else if e.Crash? && e.worker == w {
      CrashStale(s, w);
    } else if e.Join? && e.worker == w {
      JoinStale(s, e);
    } else {
      hide InPlace, WithinPrefetch;
      OthersStale(s, e, w);
    }
  }

  lemma {:induction false} LossStale(s: State, w: nat)
    requires InPlace(s) && w in s.workers && WithinPrefetch(s, w) && StaleWithin(s, w)
    ensures StaleWithin(LoseChannel(s, w), w)
  {
    var t := LoseChannel(s, w);
    var outstanding := Outstanding(s.broker, w, s.workers[w].channel);
    forall d | d in Stale(t, w) ensures d in Stale(s, w) + outstanding {
      assert HandlerInPlace(s, d);
    }
    SubsetSize(Stale(t, w), Stale(s, w) + outstanding);
    var p, c := s.workers[w].prefetch, s.workers[w].channel;
    assert p * (c + 1) == p * c + p;
  }

  lemma {:induction false} CrashStale(s: State, w: nat)
    requires w in s.workers
    ensures StaleWithin(Next(s, Crash(w)), w)
  {
    hide Requeue;
    assert Stale(Next(s, Crash(w)), w) == {};
  }

  lemma {:induction false} JoinStale(s: State, e: Event)
    requires InPlace(s) && Enabled(s, e) && e.Join?
    ensures StaleWithin(Next(s, e), e.worker)
  {
    forall d | d in s.handlers ensures d.worker != e.worker {
      assert HandlerInPlace(s, d);
    }
    assert Stale(Next(s, e), e.worker) == {};
  }

  lemma {:induction false} OthersStale(s: State, e: Event, w: nat)
    requires Enabled(s, e) && Moves(e) && w in Next(s, e).workers && w in s.workers && StaleWithin(s, w)
    requires !((e.ChannelLoss? || e.Crash? || e.Join?) && e.worker == w)
    ensures StaleWithin(Next(s, e), w)
  {
    hide Encode, Requeue, Publish, Deliver, Settle;
    var t := Next(s, e);
    assert t.workers[w].channel == s.workers[w].channel && t.workers[w].prefetch == s.workers[w].prefetch;
    forall d | d in Stale(t, w) ensures d in Stale(s, w) {
    }
    SubsetSize(Stale(t, w), Stale(s, w));
  }

  lemma {:induction false} StepBounded(s: State, e: Event)
    requires InPlace(s) && Bounded(s) && Enabled(s, e)
    ensures Bounded(Next(s, e))
  {
    hide InPlace, Enabled, Next, WithinPrefetch, ProcessesAccounted, StaleWithin;
    var t := Next(s, e);
    forall w | w in t.workers ensures WithinPrefetch(t, w) && ProcessesAccounted(t, w) && StaleWithin(t, w) {
      StepWithinPrefetch(s, e, w);
      StepAccounted(s, e, w);
      StepStaleWithin(s, e, w);
    }
  }

  // ----- what this says about capacity -----

  /** A set of keys, each belonging to one of `ds`, is no larger than `ds`. */
  lemma {:induction false} KeysFewer(handlers: map<Delivery, Handler>, keys: set<string>, ds: set<Delivery>)
    requires forall d | d in ds :: d in handlers && handlers[d].phase.Running?
    requires forall key | key in keys :: exists d :: d in ds && handlers[d].phase.key == key
    ensures |keys| <= |ds|
  {
    if keys != {} {
      var key :| key in keys;
      var d :| d in ds && handlers[d].phase.key == key;
      forall k | k in keys - {key} ensures exists x :: x in ds - {d} && handlers[x].phase.key == k {
        var x :| x in ds && handlers[x].phase.key == k;
        assert x in ds - {d};
      }
      KeysFewer(handlers, keys - {key}, ds - {d});
    }
  }

  /** Never more processes than handlers, and never more handlers than prefetch plus those of lost channels. */
  lemma {:induction false} ActiveBound(s: State, w: nat)
    requires InPlace(s) && Bounded(s) && w in s.workers
    ensures |s.workers[w].active| <= |RunningHandlers(s, w)| <= s.workers[w].prefetch + |Stale(s, w)|
  {
    assert WithinPrefetch(s, w) && ProcessesAccounted(s, w);
    var running, outstanding := RunningHandlers(s, w), Outstanding(s.broker, w, s.workers[w].channel);
    KeysFewer(s.handlers, s.workers[w].active, running);
    forall d | d in running ensures d in outstanding + Stale(s, w) {
      assert HandlerInPlace(s, d);
    }
    SubsetSize(running, outstanding + Stale(s, w));
  }

  /** While a handler is at its entry there is room for one more process. */
  lemma {:induction false} RoomAtEntry(s: State, d: Delivery)
    requires InPlace(s) && Bounded(s) && d in s.handlers && d.worker in s.workers
    requires s.handlers[d].phase.Received?
    ensures |s.workers[d.worker].active| < s.workers[d.worker].prefetch + |Stale(s, d.worker)|
  {
    var w := d.worker;
    assert WithinPrefetch(s, w) && ProcessesAccounted(s, w) && HandlerInPlace(s, d);
    var running, outstanding := RunningHandlers(s, w), Outstanding(s.broker, w, s.workers[w].channel);
    KeysFewer(s.handlers, s.workers[w].active, running);
    forall x | x in running ensures x in outstanding + Stale(s, w) - {d} {
      assert HandlerInPlace(s, x);
    }
    SubsetSize(running, outstanding + Stale(s, w) - {d});
  }

  /** As long as a worker has never lost a channel it has no stale handlers. */
  lemma {:induction false} FirstChannelNotStale(s: State, w: nat)
    requires InPlace(s) && w in s.workers && s.workers[w].channel == 0
    ensures Stale(s, w) == {}
  {
    forall d | d in s.handlers && d.worker == w ensures d.channel == 0 {
      assert HandlerInPlace(s, d);
    }
  }

  /** As long as prefetch and the handlers of lost channels together fit into `max_concurrent_tasks`, nothing is
      refused: every request that parses goes on to be prepared. */
  lemma {:induction false} NeverRefused(s: State, d: Delivery, freshId: string, now: DateTime, error: string)
    requires InPlace(s) && Bounded(s) && d in s.handlers && d.worker in s.workers && now.Valid()
    requires s.handlers[d].phase.Received? && s.handlers[d].message < |s.broker.messages|
    requires s.workers[d.worker].prefetch + |Stale(s, d.worker)| <= s.workers[d.worker].maxTasks
    ensures !IsBusy(s.workers[d.worker])
    ensures var m := s.broker.messages[s.handlers[d].message];
      Decode(m.body, freshId, now).Accepted? ==>
        Begin(m, s.workers[d.worker], freshId, now, error) == Preparing(Decode(m.body, freshId, now).request)
  {
    hide Decode, Bounded, InPlace;
    RoomAtEntry(s, d);
  }

  /** At a handler entry the worker is busy only if the channels it has had, times prefetch, exceed its capacity. */
  lemma {:induction false} BusyNeedsLosses(s: State, d: Delivery)
    requires InPlace(s) && Bounded(s) && d in s.handlers && d.worker in s.workers && s.handlers[d].phase.Received?
    requires IsBusy(s.workers[d.worker])
    ensures var w := s.workers[d.worker]; w.prefetch * (w.channel + 1) > w.maxTasks
  {
    hide InPlace, WithinPrefetch, ProcessesAccounted;
    RoomAtEntry(s, d);
    var w := s.workers[d.worker];
    assert StaleWithin(s, d.worker);
    assert w.prefetch * (w.channel + 1) == w.prefetch * w.channel + w.prefetch;
  }
}
