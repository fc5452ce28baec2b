/** Conservation at the broker: every published request is queued, held by one delivery, or settled,
    and only one of these, only once. */
module RpcConservation {
  import opened ScriptOutput
  import opened RpcMessages
  import opened RpcModel
  import opened RpcInvariants

  function Holders(unacked: map<Delivery, nat>, n: nat): set<Delivery> {
    set d | d in unacked && unacked[d] == n
  }

  /** How often request `n` has been acknowledged or rejected. */
  function Settlements(history: seq<Entry>, n: nat): nat {
    if history == [] then 0
    else
      var last := history[|history| - 1];
      Settlements(history[..|history| - 1], n) + (if last.Settled? && last.message == n then 1 else 0)
  }

  function Places(b: Broker, n: nat): nat {
    b.ready[n] + |Holders(b.unacked, n)| + Settlements(b.history, n)
  }

  ghost predicate Conserved(b: Broker) {
    forall n: nat :: Places(b, n) == if n < |b.messages| then 1 else 0
  }

  lemma {:induction false} SettlementsMore(history: seq<Entry>, entry: Entry, n: nat)
    ensures Settlements(history + [entry], n)
            == Settlements(history, n) + (if entry.Settled? && entry.message == n then 1 else 0)
  {
    assert (history + [entry])[..|history|] == history;
  }

  lemma {:induction false} PublishConserves(b: Broker, m: Message)
    requires Conserved(b)
    ensures Conserved(Publish(b, m))
  {
    hide Settlements, Holders;
    forall n: nat ensures Places(Publish(b, m), n) == if n < |b.messages| + 1 then 1 else 0 {
      assert Places(b, n) == if n < |b.messages| then 1 else 0;
    }
  }

  lemma {:induction false} DeliverConserves(b: Broker, d: Delivery, n: nat)
    requires Conserved(b) && n in b.ready && d !in b.unacked
    ensures Conserved(Deliver(b, d, n))
  {
    hide Settlements;
    var t := Deliver(b, d, n);
    forall k: nat ensures Places(t, k) == if k < |b.messages| then 1 else 0 {
      assert Places(b, k) == if k < |b.messages| then 1 else 0;
      assert Holders(t.unacked, k) == Holders(b.unacked, k) + (if k == n then {d} else {});
    }
  }

  /** The requests that go back to the queue, and the deliveries that keep theirs. */
  function Lost(b: Broker, w: nat, channel: nat): set<nat> {
    set d | d in b.unacked && OnChannel(d, w, channel) :: b.unacked[d]
  }

  lemma {:induction false} LostHolders(b: Broker, w: nat, channel: nat, n: nat)
    requires |Holders(b.unacked, n)| <= 1
    ensures |Holders(b.unacked, n)| == |Holders(Requeue(b, w, channel).unacked, n)| + multiset(Lost(b, w, channel))[n]
  {
    var all, kept := Holders(b.unacked, n), Holders(Requeue(b, w, channel).unacked, n);
    var dropped := set d | d in all && OnChannel(d, w, channel);
    assert all == kept + dropped && kept !! dropped;
    if n in Lost(b, w, channel) {
      var d :| d in b.unacked && OnChannel(d, w, channel) && b.unacked[d] == n;
      assert d in dropped;
    } else {
      assert dropped == {};
    }
  }

  lemma {:induction false} RequeueConserves(b: Broker, w: nat, channel: nat)
    requires Conserved(b)
    ensures Conserved(Requeue(b, w, channel))
  {
    hide Settlements, Holders;
    var t := Requeue(b, w, channel);
    assert t.ready == b.ready + multiset(Lost(b, w, channel));
    hide Lost, Requeue;
    forall n: nat ensures Places(t, n) == if n < |b.messages| then 1 else 0 {
      assert Places(b, n) == if n < |b.messages| then 1 else 0;
      LostHolders(b, w, channel, n);
    }
  }

  lemma {:induction false} HoldersLess(unacked: map<Delivery, nat>, d: Delivery, n: nat)
    requires d in unacked
    ensures |Holders(unacked, n)| == |Holders(unacked - {d}, n)| + (if unacked[d] == n then 1 else 0)
  {
    assert Holders(unacked - {d}, n) == Holders(unacked, n) - {d};
  }

  lemma {:induction false} SettleConserves(b: Broker, d: Delivery, v: Verdict)
    requires Conserved(b)
    ensures Conserved(Settle(b, d, v))
  {
    hide Settlements, Holders;
    var t := Settle(b, d, v);
    if d in b.unacked {
      forall n: nat ensures Places(t, n) == if n < |b.messages| then 1 else 0 {
        assert Places(b, n) == if n < |b.messages| then 1 else 0;
        HoldersLess(b.unacked, d, n);
        SettlementsMore(b.history, Settled(b.unacked[d], v), n);
      }
    }
  }

  lemma {:induction false} SendReplyConserves(b: Broker, n: nat, r: Response)
    requires Conserved(b) && n < |b.messages| && b.messages[n].address.Address?
    ensures Conserved(SendReply(b, n, r))
  {
    hide Holders, Settlements;
    var t := SendReply(b, n, r);
    forall k: nat ensures Places(t, k) == if k < |b.messages| then 1 else 0 {
      assert Places(b, k) == if k < |b.messages| then 1 else 0;
      SettlementsMore(b.history, Replied(n, r), k);
    }
  }

  lemma {:induction false} RecordConserves(b: Broker, n: nat, run: Execution)
    requires Conserved(b)
    ensures Conserved(Record(b, n, run))
  {
    hide Holders, Settlements;
    var t := Record(b, n, run);
    forall k: nat ensures Places(t, k) == if k < |b.messages| then 1 else 0 {
      assert Places(b, k) == if k < |b.messages| then 1 else 0;
      SettlementsMore(b.history, Ran(n, run), k);
    }
  }

  lemma {:induction false} RepliesAside(b: Broker, t: Broker)
    requires Conserved(b) && t == b.(replies := t.replies)
    ensures Conserved(t)
  {
    hide Settlements, Holders;
    forall n: nat ensures Places(t, n) == if n < |b.messages| then 1 else 0 {
      assert Places(b, n) == if n < |b.messages| then 1 else 0;
    }
  }

  lemma {:induction false} StepConserves(s: State, e: Event)
    requires InPlace(s) && Conserved(s.broker) && Enabled(s, e)
    ensures Conserved(Next(s, e).broker)
  {
    hide GatewayNext, GatewayEnabled, OnResponse, Begin, SendRaised, ReplyWith, BuildResponse, FailedResponse, Encode;
    hide Conserved, Publish, Deliver, Requeue, Settle, SendReply, Record;
    match e
    case Send(cid) => PublishConserves(s.broker, Message(Address(Ours, cid), Encode(s.gateway.calls[cid].request)));
    case ForeignPublish(m) => PublishConserves(s.broker, m);
    case DeliverTo(w, n) =>
      var d := Delivery(w, s.workers[w].channel, s.nextTag);
      assert d in s.handlers ==> HandlerInPlace(s, d);
      assert d in s.broker.unacked ==> DeliveryInPlace(s, d);
      DeliverConserves(s.broker, d, n);
    case Exit(d, run) => RecordConserves(s.broker, s.handlers[d].message, run);
    case PublishReply(d) => SendReplyConserves(s.broker, s.handlers[d].message, s.handlers[d].phase.response);
    case Finish(d) => SettleConserves(s.broker, d, s.handlers[d].phase.verdict);
    case ChannelLoss(w) => RequeueConserves(s.broker, w, s.workers[w].channel);
    case Crash(w) => RequeueConserves(s.broker, w, s.workers[w].channel);
    case Arrive(reply) => RepliesAside(s.broker, Next(s, e).broker);
    case LoseReply(reply) => RepliesAside(s.broker, Next(s, e).broker);
    case _ =>
  }

  lemma {:induction false} SettledCounts(history: seq<Entry>, n: nat, i: nat)
    requires i < |history| && history[i].Settled? && history[i].message == n
    ensures Settlements(history, n) >= 1
    ensures Settlements(history, n) == 1 ==>
      forall j | 0 <= j < |history| && history[j].Settled? && history[j].message == n :: j == i
  {
    var last := |history| - 1;
    if i < last {
      SettledCounts(history[..last], n, i);
    } else if Settlements(history[..last], n) == 0 {
      forall j | 0 <= j < last && history[j].Settled? && history[j].message == n ensures false {
        SettledCounts(history[..last], n, j);
      }
    }
  }

  lemma {:induction false} CountedSettled(history: seq<Entry>, n: nat) returns (i: nat)
    requires Settlements(history, n) > 0
    ensures i < |history| && history[i].Settled? && history[i].message == n
  {
    var last := |history| - 1;
    if history[last].Settled? && history[last].message == n {
      i := last;
    } else {
      i := CountedSettled(history[..last], n);
    }
  }

  /** Request `n` is queued, held, or settled. */
  ghost predicate IsHeld(b: Broker, n: nat) {
    exists d :: d in b.unacked && b.unacked[d] == n
  }

  ghost predicate IsSettled(b: Broker, n: nat, v: Verdict) {
    exists i :: 0 <= i < |b.history| && b.history[i] == Settled(n, v)
  }

  /** Exactly one place: queued once, or unacknowledged under one delivery of one worker, or acknowledged
      once, or rejected once, never two of them. */
  lemma {:induction false} OnePlace(b: Broker, n: nat)
    requires Conserved(b) && n < |b.messages|
    ensures b.ready[n] <= 1
    ensures n in b.ready || IsHeld(b, n) || exists v :: IsSettled(b, n, v)
    ensures n in b.ready ==> !IsHeld(b, n) && forall v :: !IsSettled(b, n, v)
    ensures IsHeld(b, n) ==> forall v :: !IsSettled(b, n, v)
    ensures forall d, d' | d in b.unacked && d' in b.unacked && b.unacked[d] == n == b.unacked[d'] :: d == d'
    ensures forall v, v' | IsSettled(b, n, v) && IsSettled(b, n, v') :: v == v'
  {
    hide Settlements;
    assert Places(b, n) == 1;
    var holders := Holders(b.unacked, n);
    assert forall d :: d in holders <==> d in b.unacked && b.unacked[d] == n;
    forall d, d' | d in b.unacked && d' in b.unacked && b.unacked[d] == n == b.unacked[d'] ensures d == d' {
      if d != d' {
        assert {d, d'} <= holders;
        SubsetSize({d, d'}, holders);
      }
    }
    if holders != {} {
      var d :| d in holders;
      assert IsHeld(b, n);
    }
    if IsHeld(b, n) {
      var d :| d in b.unacked && b.unacked[d] == n;
      assert d in holders;
    }
    forall v | IsSettled(b, n, v) ensures Settlements(b.history, n) == 1 {
      var i :| 0 <= i < |b.history| && b.history[i] == Settled(n, v);
      SettledCounts(b.history, n, i);
    }
    forall v, v' | IsSettled(b, n, v) && IsSettled(b, n, v') ensures v == v' {
      var i :| 0 <= i < |b.history| && b.history[i] == Settled(n, v);
      var j :| 0 <= j < |b.history| && b.history[j] == Settled(n, v');
      SettledCounts(b.history, n, i);
    }
    if n !in b.ready && holders == {} {
      var i := CountedSettled(b.history, n);
      assert IsSettled(b, n, b.history[i].verdict);
    }
  }

  lemma {:induction false} SubsetSize<T>(a: set<T>, b: set<T>)
    requires a <= b
    ensures |a| <= |b|
  {
    assert b == a + (b - a);
    assert |b| == |a| + |b - a|;
  }
}
