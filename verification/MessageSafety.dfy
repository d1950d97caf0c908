/** What every step keeps about messages: each accepted one is in exactly one place, of its own
    type, and a consumer holds at most one unsettled delivery. */
module MessageSafety {
  import opened Text
  import opened Broker
  import opened Protocol
  import Consumer
  import Dto

  /** Place `p` is one for messages of type `kind`. */
  predicate Fits(k: Kitchen, p: Place, kind: string) {
    match p
    case Queue(q) => q == kind
    case Dlq(q) => q == kind
    case Unacked(c) => c in k.subscriptions && k.subscriptions[c].kind == kind
    case Acked => true
  }

  /** Each message is in exactly one place, and that place is one of its type. */
  ghost predicate Placed(ex: Exchange, k: Kitchen) {
    && Conserved(ex.held, |ex.messages|)
    && (forall p, m: nat :: In(ex.held, p, m) ==> Fits(k, p, ex.messages[m].kind))
  }

  /** Where the verdict on a delivery leaves its message. */
  function Final(ex: Exchange, d: Delivery): Place
    requires d.message < |ex.messages|
  {
    if d.phase.Succeeded? then Acked else Dlq(ex.messages[d.message].kind)
  }

  ghost predicate DeliveryOk(ex: Exchange, k: Kitchen, i: nat)
    requires i < |k.deliveries|
  {
    var d := k.deliveries[i];
    && d.consumer in k.subscriptions
    && d.worker == k.subscriptions[d.consumer].worker
    && d.message < |ex.messages|
    && d.number == ex.messages[d.message].number
    && ex.messages[d.message].kind == k.subscriptions[d.consumer].kind
    && (d.settled <==> !(d.consumer in k.busy && k.busy[d.consumer] == i))
    && (!d.settled && !d.lost ==> In(ex.held, Unacked(d.consumer), d.message))
    && (d.settled ==> Finished(d.phase))
    && (d.settled && !d.lost ==> In(ex.held, Final(ex, d), d.message))
    && (d.phase.Failed? ==> d.phase.error != Consumer.NilOrder && d.phase.statuses <= 2)
  }

  /** The loop of each consumer works on at most one delivery, one of its own. */
  ghost predicate Loops(ex: Exchange, k: Kitchen) {
    && (forall c :: c in k.busy ==> k.busy[c] < |k.deliveries| && k.deliveries[k.busy[c]].consumer == c)
    && (forall i: nat :: i < |k.deliveries| ==> DeliveryOk(ex, k, i))
    && (forall c :: c in k.subscriptions ==> k.subscriptions[c].worker in k.processed)
  }

  /** Delivery `i` settled message `m` for good, by success or by failure. */
  predicate SettledBy(k: Kitchen, i: nat, m: nat, success: bool) {
    && i < |k.deliveries|
    && var d := k.deliveries[i];
       d.message == m && d.settled && !d.lost && Finished(d.phase) && d.phase.Succeeded? == success
  }

  ghost predicate Settled(k: Kitchen, m: nat, success: bool) {
    exists i :: SettledBy(k, i, m, success)
  }

  /** No two deliveries settled the same message for good. */
  ghost predicate SettledOnce(ds: seq<Delivery>) {
    forall i, j :: 0 <= i < j < |ds| && ds[i].settled && !ds[i].lost && ds[j].settled && !ds[j].lost ==>
      ds[i].message != ds[j].message
  }

  /** Only a settlement takes a message out of circulation, and only one does. */
  ghost predicate Outcomes(ex: Exchange, k: Kitchen) {
    && SettledOnce(k.deliveries)
    && (forall m: nat :: In(ex.held, Acked, m) ==> Settled(k, m, true))
    && (forall kind, m: nat :: In(ex.held, Dlq(kind), m) ==> Settled(k, m, false))
  }

  ghost predicate MessagesSafe(ex: Exchange, k: Kitchen) {
    Placed(ex, k) && Loops(ex, k) && Outcomes(ex, k)
  }

  /** A settled delivery is never touched again, so its settlement stays. */
  lemma SettledStay(k: Kitchen, k': Kitchen)
    requires |k.deliveries| <= |k'.deliveries|
    requires forall i :: 0 <= i < |k.deliveries| && k.deliveries[i].settled ==> k'.deliveries[i] == k.deliveries[i]
    ensures forall m: nat, ok :: Settled(k, m, ok) ==> Settled(k', m, ok)
  {
    forall m: nat, ok | Settled(k, m, ok)
      ensures Settled(k', m, ok)
    {
      var i :| SettledBy(k, i, m, ok);
      assert SettledBy(k', i, m, ok);
    }
  }

  lemma AcceptKeeps(ex: Exchange, k: Kitchen, message: Dto.Wire)
    requires MessagesSafe(ex, k)
    ensures MessagesSafe(Accept(ex, message), k)
  {
    Accepted(ex.held, |ex.messages|, Queue(message.kind));
    var ex' := Accept(ex, message);
    forall i: nat | i < |k.deliveries|
      ensures DeliveryOk(ex', k, i)
    {
      assert DeliveryOk(ex, k, i);
    }
  }

  lemma SubscribeKeeps(ex: Exchange, k: Kitchen, k': Kitchen, c: nat, sub: Subscription)
    requires MessagesSafe(ex, k) && c !in k.subscriptions
    requires k' == k.(subscriptions := k.subscriptions[c := sub], processed := k'.processed)
    requires k.processed.Keys + {sub.worker} <= k'.processed.Keys
    ensures MessagesSafe(ex, k')
  {
    forall i: nat | i < |k.deliveries|
      ensures DeliveryOk(ex, k', i)
    {
      assert DeliveryOk(ex, k, i);
    }
    SettledStay(k, k');
  }

  lemma PushKeeps(ex: Exchange, k: Kitchen, c: nat, m: nat)
    requires MessagesSafe(ex, k) && c in k.subscriptions
    requires In(ex.held, Queue(k.subscriptions[c].kind), m)
    ensures MessagesSafe(ex.(held := Move(ex.held, Queue(k.subscriptions[c].kind), m, Unacked(c))), k)
  {
    var q := Queue(k.subscriptions[c].kind);
    Moved(ex.held, |ex.messages|, q, m, Unacked(c));
    var ex' := ex.(held := Move(ex.held, q, m, Unacked(c)));
    forall i: nat | i < |k.deliveries|
      ensures DeliveryOk(ex', k, i)
    {
      assert DeliveryOk(ex, k, i);
    }
  }

  lemma TakeKeeps(ex: Exchange, k: Kitchen, k': Kitchen, c: nat, d: Delivery)
    requires MessagesSafe(ex, k) && c in k.subscriptions && c !in k.busy
    requires d.consumer == c && d.worker == k.subscriptions[c].worker
    requires In(ex.held, Unacked(c), d.message) && d.number == ex.messages[d.message].number
    requires d.phase == Taken && !d.lost && !d.settled
    requires k' == k.(deliveries := k.deliveries + [d], busy := k.busy[c := |k.deliveries|])
    ensures MessagesSafe(ex, k')
  {
    forall i: nat | i < |k'.deliveries|
      ensures DeliveryOk(ex, k', i)
    {
      if i < |k.deliveries| {
        assert DeliveryOk(ex, k, i);
      }
    }
    SettledStay(k, k');
  }

  /** A handler's progress moves no message. */
  lemma PhaseKeeps(ex: Exchange, k: Kitchen, k': Kitchen, c: nat, p: Phase)
    requires MessagesSafe(ex, k) && Working(k, c)
    requires p.Failed? ==> p.error != Consumer.NilOrder && p.statuses <= 2
    requires k' == SetPhase(k, c, p).(processed := k'.processed) && k.processed.Keys <= k'.processed.Keys
    ensures MessagesSafe(ex, k')
  {
    var b := k.busy[c];
    assert DeliveryOk(ex, k, b);
    forall i: nat | i < |k'.deliveries|
      ensures DeliveryOk(ex, k', i)
    {
      assert DeliveryOk(ex, k, i);
    }
    SettledStay(k, k');
  }

  /** Losing the delivery at hand keeps the loops; what others hold and what is settled stays. */
  lemma DropLoops(ex: Exchange, k: Kitchen, c: nat, held': Held)
    requires Loops(ex, k)
    requires forall p, m: nat :: p != Unacked(c) && In(ex.held, p, m) ==> In(held', p, m)
    ensures c !in k.busy ==> Loops(ex.(held := held'), k)
    ensures c in k.busy ==>
      Loops(ex.(held := held'),
            k.(deliveries := k.deliveries[k.busy[c] := k.deliveries[k.busy[c]].(lost := true)]))
  {
    var ex' := ex.(held := held');
    var k' := if c in k.busy
              then k.(deliveries := k.deliveries[k.busy[c] := k.deliveries[k.busy[c]].(lost := true)])
              else k;
    forall i: nat | i < |k'.deliveries|
      ensures DeliveryOk(ex', k', i)
    {
      assert DeliveryOk(ex, k, i);
    }
  }

  lemma DropKeeps(s: State, c: nat)
    requires MessagesSafe(s.exchange, s.kitchen) && c in s.kitchen.subscriptions
    ensures var s' := DropConnection(s, c); MessagesSafe(s'.exchange, s'.kitchen)
  {
    var ex, k, s' := s.exchange, s.kitchen, DropConnection(s, c);
    Returned(ex.held, |ex.messages|, c, k.subscriptions[c].kind);
    forall p, m: nat | p != Unacked(c) && In(ex.held, p, m)
      ensures In(s'.exchange.held, p, m)
    {
      assert !In(ex.held, Unacked(c), m);
    }
    DropLoops(ex, k, c, s'.exchange.held);
    if c in k.busy {
      assert DeliveryOk(ex, k, k.busy[c]);
    }
    SettledStay(k, s'.kitchen);
  }

  /** Settling the delivery at hand keeps the loops; `held'` is where the messages end up. */
  lemma SettledLoops(ex: Exchange, k: Kitchen, c: nat, held': Held)
    requires Loops(ex, k) && c in k.busy && Finished(k.deliveries[k.busy[c]].phase)
    requires forall p, m: nat :: p != Unacked(c) && In(ex.held, p, m) ==> In(held', p, m)
    requires var d := k.deliveries[k.busy[c]];
      d.message < |ex.messages| && (!d.lost ==> In(held', Final(ex, d), d.message))
    ensures var d := k.deliveries[k.busy[c]];
      Loops(ex.(held := held'),
            k.(deliveries := k.deliveries[k.busy[c] := d.(settled := true)], busy := k.busy - {c}))
  {
    var b := k.busy[c];
    var d := k.deliveries[b];
    var ex' := ex.(held := held');
    var k' := k.(deliveries := k.deliveries[b := d.(settled := true)], busy := k.busy - {c});
    assert DeliveryOk(ex, k, b);
    forall i: nat | i < |k'.deliveries|
      ensures DeliveryOk(ex', k', i)
    {
      assert DeliveryOk(ex, k, i);
    }
  }

  /** A message now settled for good was settled by nobody before: it was still held. */
  lemma SettlesFirst(ex: Exchange, k: Kitchen, b: nat)
    requires Placed(ex, k) && Loops(ex, k) && SettledOnce(k.deliveries)
    requires b < |k.deliveries| && !k.deliveries[b].settled
    ensures SettledOnce(k.deliveries[b := k.deliveries[b].(settled := true)])
  {
    var ds, d := k.deliveries, k.deliveries[b];
    assert DeliveryOk(ex, k, b);
    forall i: nat | i < |ds| && i != b && ds[i].settled && !ds[i].lost && !d.lost
      ensures ds[i].message != d.message
    {
      assert DeliveryOk(ex, k, i);
      assert In(ex.held, Final(ex, ds[i]), ds[i].message);
    }
  }

  lemma SettleKeeps(s: State, c: nat)
    requires MessagesSafe(s.exchange, s.kitchen) && c in s.kitchen.subscriptions
    requires Working(s.kitchen, c) && Finished(Current(s.kitchen, c).phase)
    ensures var s' := SettleDelivery(s, c); MessagesSafe(s'.exchange, s'.kitchen)
  {
    var ex, k, s' := s.exchange, s.kitchen, SettleDelivery(s, c);
    var b := k.busy[c];
    var d := k.deliveries[b];
    assert DeliveryOk(ex, k, b);
    SettlesFirst(ex, k, b);
    SettledStay(k, s'.kitchen);
    if !d.lost {
      var to := Destination(Verdict(d.phase), k.subscriptions[c].kind);
      assert to == Final(ex, d);
      Moved(ex.held, |ex.messages|, Unacked(c), d.message, to);
      assert SettledBy(s'.kitchen, b, d.message, d.phase.Succeeded?);
    }
    SettledLoops(ex, k, c, s'.exchange.held);
  }

  lemma StartSafe()
    ensures MessagesSafe(Start.exchange, Start.kitchen)
  {}

  /** Every step of the system keeps its messages safe. */
  lemma StepKeepsMessages(cfg: Config, s: State, e: Event)
    requires Enabled(cfg, s, e)
    requires MessagesSafe(s.exchange, s.kitchen)
    ensures var s' := Next(cfg, s, e); MessagesSafe(s'.exchange, s'.kitchen)
  {
    var k := s.kitchen;
    var s' := Next(cfg, s, e);
    match e
    case Publish(i, requestId, _, accepted) =>
      if accepted {
        AcceptKeeps(s.exchange, k, Dto.Encode(s.service.calls[i].req, requestId));
      }
    case Subscribe(c, worker, kind) =>
      SubscribeKeeps(s.exchange, k, s'.kitchen, c, Subscription(worker, kind));
    case Push(c, m) => PushKeeps(s.exchange, k, c, m);
    case Take(c, m) =>
      assert In(s.exchange.held, Unacked(c), m);
      TakeKeeps(s.exchange, k, s'.kitchen, c, s'.kitchen.deliveries[|k.deliveries|]);
    case Drop(c) => DropKeeps(s, c);
    case Settle(c) => SettleKeeps(s, c);
    case Reject(c) => PhaseKeeps(s.exchange, k, s'.kitchen, c, Failed(Consumer.Stopping, 0, 0));
    case Write(c, _, _) =>
      PhaseKeeps(s.exchange, k, s'.kitchen, c, s'.kitchen.deliveries[k.busy[c]].phase);
    case Announce(c, _) =>
      PhaseKeeps(s.exchange, k, s'.kitchen, c, s'.kitchen.deliveries[k.busy[c]].phase);
    case Increment(c, counted) =>
      PhaseKeeps(s.exchange, k, s'.kitchen, c, Succeeded(counted));
    case _ =>
  }
}
