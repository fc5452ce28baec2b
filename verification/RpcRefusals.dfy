/** Exactly when a worker can be found busy at a handler entry, over all configurations: prefetch, capacity
    and the number of channels lost. */
module RpcRefusals {
  import opened Wrappers
  import opened Timestamps
  import Json
  import opened RpcMessages
  import opened RpcModel
  import opened RpcInvariants
  import opened RpcCapacity
  import opened RpcTheorems

  /** A reachable handler entry at which the "at capacity" refusal is due, on the worker's channel number `lost`. */
  ghost predicate BusyEntry(s: State, d: Delivery, prefetch: nat, maxTasks: nat, lost: nat) {
    && Reachable(s) && d in s.handlers && s.handlers[d].phase.Received? && d.worker in s.workers
    && var w := s.workers[d.worker];
       w.prefetch == prefetch && w.maxTasks == maxTasks && w.channel == lost && IsBusy(w)
  }

  // ----- a worker loaded with running scripts -----

  function KeyOf(i: nat): (key: string)
    ensures |key| == i
  {
    seq(i, _ => 'p')
  }

  function Keys(n: nat): set<string> {
    if n == 0 then {} else Keys(n - 1) + {KeyOf(n - 1)}
  }

  lemma {:induction false} KeysSize(n: nat)
    ensures |Keys(n)| == n && forall key | key in Keys(n) :: |key| < n
  {
    if n > 0 {
      KeysSize(n - 1);
      assert KeyOf(n - 1) !in Keys(n - 1);
    }
  }

  /** Worker 0 on channel `lost` with `held` deliveries on it and `running` processes in all. */
  ghost predicate Loaded(s: State, prefetch: nat, maxTasks: nat, lost: nat, held: nat, running: nat) {
    && Reachable(s) && 0 in s.workers
    && s.workers[0] == Worker(maxTasks, prefetch, lost, true, Keys(running))
    && |Outstanding(s.broker, 0, lost)| == held
  }

  function AnyRequest(): (r: Request)
    ensures r.Valid()
  {
    Request("id", Task("script", None, Json.Object([]), 1), DateTime(2024, 1, 1, 0, 0, 0, 0))
  }

  function AnyMessage(): Message {
    Message(Address(Other, 0), Encode(AnyRequest()))
  }

  /** Handler `d` has just got the request, and nothing else has changed about the worker. */
  ghost predicate Entered(s: State, t: State, d: Delivery) {
    && d in t.handlers && d.worker == 0 && t.workers == s.workers
    && t.handlers[d].phase == Received && t.handlers[d].message < |t.broker.messages|
    && t.broker.messages[t.handlers[d].message] == AnyMessage()
  }

  lemma {:induction false} PublishOne(s: State) returns (t: State)
    requires Reachable(s)
    ensures Reachable(t) && t.workers == s.workers && t.broker.unacked == s.broker.unacked
    ensures |t.broker.messages| > 0 && t.broker.messages[|t.broker.messages| - 1] == AnyMessage()
    ensures |t.broker.messages| - 1 in t.broker.ready
  {
    hide Reachable, AnyRequest, Encode;
    t := Next(s, ForeignPublish(AnyMessage()));
    ReachNext(s, ForeignPublish(AnyMessage()));
  }

  lemma {:induction false} DeliverOne(s: State, n: nat) returns (t: State, d: Delivery)
    requires Reachable(s) && 0 in s.workers && s.workers[0].consuming
    requires n < |s.broker.messages| && s.broker.messages[n] == AnyMessage() && n in s.broker.ready
    requires |Outstanding(s.broker, 0, s.workers[0].channel)| < s.workers[0].prefetch
    ensures Reachable(t) && Entered(s, t, d)
    ensures |Outstanding(t.broker, 0, s.workers[0].channel)| == |Outstanding(s.broker, 0, s.workers[0].channel)| + 1
  {
    hide Reachable, AnyMessage;
    var e := DeliverTo(0, n);
    d := Delivery(0, s.workers[0].channel, s.nextTag);
    t := Next(s, e);
    ReachNext(s, e);
    FreshTag(s, d);
    assert Outstanding(t.broker, 0, d.channel) == Outstanding(s.broker, 0, d.channel) + {d};
  }

  lemma {:induction false} FreshTag(s: State, d: Delivery)
    requires Reachable(s) && d.tag == s.nextTag
    ensures d !in s.broker.unacked
  {
    hide Reachable;
    ReachableSound(s);
    forall x | x in s.broker.unacked ensures x.tag < s.nextTag {
      assert DeliveryInPlace(s, x) && HandlerInPlace(s, x);
    }
  }

  lemma {:induction false} EnterOne(s: State, prefetch: nat, maxTasks: nat, lost: nat, held: nat, running: nat)
      returns (t: State, d: Delivery)
    requires Loaded(s, prefetch, maxTasks, lost, held, running) && held < prefetch
    ensures Loaded(t, prefetch, maxTasks, lost, held + 1, running) && Entered(s, t, d)
  {
    hide Reachable, AnyMessage, Keys;
    var u := PublishOne(s);
    assert Outstanding(u.broker, 0, lost) == Outstanding(s.broker, 0, lost);
    t, d := DeliverOne(u, |u.broker.messages| - 1);
  }

  lemma {:induction false} StartOne(s: State, t: State, d: Delivery, running: nat) returns (u: State)
    requires Reachable(t) && Entered(s, t, d) && 0 in t.workers
    requires t.workers[0].active == Keys(running) && running < t.workers[0].maxTasks
    ensures Reachable(u) && 0 in u.workers && u.workers[0] == t.workers[0].(active := Keys(running + 1))
    ensures u.broker == t.broker
  {
    hide Reachable, AnyRequest, Encode, Decode;
    var r := AnyRequest();
    var now := r.createdAt;
    DecodeEncode(r, "", now);
    KeysSize(running);
    var e := BeginHandler(d, "", now, "");
    var v := Next(t, e);
    ReachNext(t, e);
    assert v.handlers[d].phase == Preparing(r);
    u := Next(v, Spawn(d, KeyOf(running)));
    ReachNext(v, Spawn(d, KeyOf(running)));
  }

  lemma {:induction false} LoadOne(s: State, prefetch: nat, maxTasks: nat, lost: nat, held: nat, running: nat)
      returns (u: State)
    requires Loaded(s, prefetch, maxTasks, lost, held, running) && held < prefetch && running < maxTasks
    ensures Loaded(u, prefetch, maxTasks, lost, held + 1, running + 1)
  {
    hide Reachable, AnyMessage, Keys;
    var t, d := EnterOne(s, prefetch, maxTasks, lost, held, running);
    u := StartOne(s, t, d, running);
  }

  lemma {:induction false} LoadMany(s: State, prefetch: nat, maxTasks: nat, lost: nat, held: nat, running: nat,
                                    more: nat)
      returns (u: State)
    requires Loaded(s, prefetch, maxTasks, lost, held, running) && held + more <= prefetch && running + more <= maxTasks
    ensures Loaded(u, prefetch, maxTasks, lost, held + more, running + more)
    decreases more
  {
    hide Loaded;
    if more == 0 {
      u := s;
    } else {
      var t := LoadOne(s, prefetch, maxTasks, lost, held, running);
      u := LoadMany(t, prefetch, maxTasks, lost, held + 1, running + 1, more - 1);
    }
  }

  lemma {:induction false} NothingHeld(s: State, lost: nat)
    requires Reachable(s) && 0 in s.workers && s.workers[0].channel == lost
    ensures Outstanding(LoseChannel(s, 0).broker, 0, lost + 1) == {}
  {
    hide Reachable;
    ReachableSound(s);
    forall d | d in s.broker.unacked ensures DeliveryInPlace(s, d) {
    }
  }

  /** The channel goes; the scripts run on. */
  lemma {:induction false} LoseOne(s: State, prefetch: nat, maxTasks: nat, lost: nat, held: nat, running: nat)
      returns (u: State)
    requires Loaded(s, prefetch, maxTasks, lost, held, running)
    ensures Loaded(u, prefetch, maxTasks, lost + 1, 0, running)
  {
    hide Reachable, Requeue, Keys;
    NothingHeld(s, lost);
    var t := Next(s, ChannelLoss(0));
    ReachNext(s, ChannelLoss(0));
    u := Next(t, Subscribe(0));
    ReachNext(t, Subscribe(0));
    assert Outstanding(u.broker, 0, lost + 1) == Outstanding(t.broker, 0, lost + 1);
  }

  lemma {:induction false} StartWorker(prefetch: nat, maxTasks: nat) returns (s: State)
    requires prefetch > 0
    ensures Loaded(s, prefetch, maxTasks, 0, 0, 0)
  {
    InitialReachable();
    hide Reachable;
    s := Next(Initial(), Join(0, maxTasks, prefetch));
    ReachNext(Initial(), Join(0, maxTasks, prefetch));
    assert Outstanding(s.broker, 0, 0) == {};
  }

  function Least(a: nat, b: nat): nat {
    if a <= b then a else b
  }

  /** After `lost` losses any number of processes up to one prefetch per channel can be running, the earlier
      channels filled first. */
  lemma {:induction false} Fill(prefetch: nat, maxTasks: nat, lost: nat, running: nat) returns (s: State, held: nat)
    requires prefetch > 0 && running <= maxTasks && running <= prefetch * (lost + 1)
    ensures Loaded(s, prefetch, maxTasks, lost, held, running)
    ensures held == running - Least(running, prefetch * lost)
    decreases lost
  {
    hide Loaded;
    assert prefetch * (lost + 1) == prefetch * lost + prefetch;
    var earlier := Least(running, prefetch * lost);
    var t;
    if lost == 0 {
      t := StartWorker(prefetch, maxTasks);
    } else {
      assert prefetch * ((lost - 1) + 1) == prefetch * lost;
      var before, h := Fill(prefetch, maxTasks, lost - 1, earlier);
      t := LoseOne(before, prefetch, maxTasks, lost - 1, h, earlier);
    }
    held := running - earlier;
    s := LoadMany(t, prefetch, maxTasks, lost, 0, earlier, held);
  }

  /** A worker can be found busy at a handler entry exactly if one prefetch for each channel it has had, the
      present one included, is more than `max_concurrent_tasks`. */
  lemma {:induction false} BusyExactly(prefetch: nat, maxTasks: nat, lost: nat)
    requires prefetch > 0
    ensures (exists s, d :: BusyEntry(s, d, prefetch, maxTasks, lost)) <==> prefetch * (lost + 1) > maxTasks
  {
    hide Reachable;
    forall s, d | BusyEntry(s, d, prefetch, maxTasks, lost) ensures prefetch * (lost + 1) > maxTasks {
      BusyIsBounded(s, d);
    }
    if prefetch * (lost + 1) > maxTasks {
      assert prefetch * (lost + 1) == prefetch * lost + prefetch;
      var s, held := Fill(prefetch, maxTasks, lost, maxTasks);
      var t, d := EnterOne(s, prefetch, maxTasks, lost, held, maxTasks);
      KeysSize(maxTasks);
      assert BusyEntry(t, d, prefetch, maxTasks, lost);
    }
  }

  lemma {:induction false} BusyIsBounded(s: State, d: Delivery)
    requires Reachable(s) && d in s.handlers && d.worker in s.workers && s.handlers[d].phase.Received?
    requires IsBusy(s.workers[d.worker])
    ensures var w := s.workers[d.worker]; w.prefetch * (w.channel + 1) > w.maxTasks
  {
    hide Reachable, InPlace, Bounded, IsBusy;
    ReachableSound(s);
    BusyNeedsLosses(s, d);
  }

  /** With prefetch 1 and one concurrent task, as configured: busy entries are reachable from the first lost
      channel on, and never before. */
  lemma {:induction false} AsConfigured(lost: nat)
    ensures (exists s, d :: BusyEntry(s, d, 1, 1, lost)) <==> lost > 0
  {
    hide BusyEntry;
    BusyExactly(1, 1, lost);
  }
}
