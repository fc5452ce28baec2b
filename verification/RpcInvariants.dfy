/** What every event of the protocol keeps. Each invariant is a separate predicate with its own lemma. */
module RpcInvariants {
  import opened ScriptOutput
  import opened RpcMessages
  import opened RpcModel

  // ----- deliveries and handlers -----

  ghost predicate HandlerInPlace(s: State, d: Delivery)
    requires d in s.handlers
  {
    && d.worker in s.workers && d.channel <= s.workers[d.worker].channel && d.tag < s.nextTag
    && s.handlers[d].message < |s.broker.messages|
    && (d.channel == s.workers[d.worker].channel ==> d in s.broker.unacked)
  }

  ghost predicate DeliveryInPlace(s: State, d: Delivery)
    requires d in s.broker.unacked
  {
    && d in s.handlers && s.handlers[d].message == s.broker.unacked[d]
    && d.worker in s.workers && d.channel == s.workers[d.worker].channel
  }

  /** Handlers on a worker's current channel are exactly its unacknowledged deliveries. */
  ghost predicate InPlace(s: State) {
    && (forall d | d in s.handlers :: HandlerInPlace(s, d))
    && (forall d | d in s.broker.unacked :: DeliveryInPlace(s, d))
    && (forall n | n in s.broker.ready :: n < |s.broker.messages|)
  }

  /** Events that move requests between the queue and the workers. */
  predicate Moves(e: Event) {
    e.Send? || e.ForeignPublish? || e.Join? || e.DeliverTo? || e.Finish? || e.ChannelLoss? || e.Crash?
  }

  /** Nothing has moved: the same deliveries with the same handlers, perhaps in other phases. */
  ghost predicate SamePlaces(s: State, t: State) {
    && t.broker.messages == s.broker.messages && t.broker.ready == s.broker.ready
    && t.broker.unacked == s.broker.unacked && t.nextTag == s.nextTag
    && t.handlers.Keys == s.handlers.Keys && t.workers.Keys == s.workers.Keys
    && (forall d | d in s.handlers :: t.handlers[d].message == s.handlers[d].message)
    && (forall w | w in s.workers :: t.workers[w].channel == s.workers[w].channel
                                     && t.workers[w].prefetch == s.workers[w].prefetch)
  }

  lemma {:induction false} StaysPut(s: State, e: Event)
    requires Enabled(s, e) && !Moves(e)
    ensures SamePlaces(s, Next(s, e))
  {
    hide GatewayNext, GatewayEnabled, OnResponse, Begin, SendRaised, ReplyWith, BuildResponse, FailedResponse, Encode;
    match e
    case _ =>
  }

  lemma {:induction false} SameInPlace(s: State, t: State)
    requires InPlace(s) && SamePlaces(s, t)
    ensures InPlace(t)
  {
  }

  lemma {:induction false} LoseInPlace(s: State, w: nat)
    requires InPlace(s) && w in s.workers
    ensures InPlace(LoseChannel(s, w))
  {
    var t := LoseChannel(s, w);
    forall d | d in t.handlers ensures HandlerInPlace(t, d) {
      assert HandlerInPlace(s, d);
    }
    forall d | d in t.broker.unacked ensures DeliveryInPlace(t, d) {
      assert DeliveryInPlace(s, d);
    }
    forall n | n in t.broker.ready ensures n < |t.broker.messages| {
      if n !in s.broker.ready {
        var d :| d in s.broker.unacked && OnChannel(d, w, s.workers[w].channel) && n == s.broker.unacked[d];
        assert DeliveryInPlace(s, d) && HandlerInPlace(s, d);
      }
    }
  }

  lemma {:induction false} CrashInPlace(s: State, w: nat)
    requires InPlace(s) && w in s.workers
    ensures InPlace(Next(s, Crash(w)))
  {
    LoseInPlace(s, w);
    hide Requeue;
    var t, u := LoseChannel(s, w), Next(s, Crash(w));
    forall d | d in u.handlers ensures HandlerInPlace(u, d) {
      assert HandlerInPlace(t, d);
    }
    forall d | d in u.broker.unacked ensures DeliveryInPlace(u, d) {
      assert DeliveryInPlace(t, d) && HandlerInPlace(s, d);
    }
  }

  lemma {:induction false} DeliverInPlace(s: State, e: Event)
    requires InPlace(s) && Enabled(s, e) && e.DeliverTo?
    ensures InPlace(Next(s, e))
  {
    var t := Next(s, e);
    forall d | d in t.handlers ensures HandlerInPlace(t, d) {
      assert d in s.handlers ==> HandlerInPlace(s, d);
    }
    forall d | d in t.broker.unacked ensures DeliveryInPlace(t, d) {
      assert d in s.broker.unacked ==> DeliveryInPlace(s, d);
    }
  }

  lemma {:induction false} MoveInPlace(s: State, e: Event)
    requires InPlace(s) && Enabled(s, e) && (e.Send? || e.ForeignPublish? || e.Join? || e.Finish?)
    ensures InPlace(Next(s, e))
  {
    hide Encode;
    var t := Next(s, e);
    forall d | d in t.handlers ensures HandlerInPlace(t, d) {
      assert HandlerInPlace(s, d);
    }
    forall d | d in t.broker.unacked ensures DeliveryInPlace(t, d) {
      assert DeliveryInPlace(s, d);
    }
  }

  lemma {:induction false} StepInPlace(s: State, e: Event)
    requires InPlace(s) && Enabled(s, e)
    ensures InPlace(Next(s, e))
  {
    hide InPlace, SamePlaces;
    match e
    case DeliverTo(w, n) => DeliverInPlace(s, e);
    case ChannelLoss(w) => LoseInPlace(s, w);
    case Crash(w) => CrashInPlace(s, w);
    case _ =>
      hide Next, Enabled;
      if Moves(e) {
        MoveInPlace(s, e);
      } else {
        StaysPut(s, e);
        SameInPlace(s, Next(s, e));
      }
  }
}
