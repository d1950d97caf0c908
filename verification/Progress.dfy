/** What can still happen: from every reachable state each handler can be settled and each call can
    reply, whichever outcomes its transactions and publishes have on the way. */
module Progress {
  import opened Text
  import opened Orders
  import opened Tables
  import opened Broker
  import opened Protocol
  import opened MessageSafety
  import opened ServiceSafety
  import opened QuietRuns
  import opened Runs
  import opened Redelivery
  import opened Steps
  import Consumer
  import KitchenWorker
  import OrderNumber

  // ---- settling ----

  lemma {:induction false} LeadsKeepsMessages(cfg: Config, s: State, end: State, es: seq<Event>)
    requires Leads(cfg, s, end, es) && MessagesSafe(s.exchange, s.kitchen)
    ensures MessagesSafe(end.exchange, end.kitchen)
    decreases |es|
  {
    if es != [] {
      StepKeepsMessages(cfg, s, es[0]);
      LeadsKeepsMessages(cfg, Next(cfg, s, es[0]), end, es[1..]);
    }
  }

  /** Everything but the place of message `m` is where it was. */
  ghost predicate OthersStay(held: Held, held': Held, m: nat) {
    forall p, x: nat :: x != m ==> (In(held', p, x) <==> In(held, p, x))
  }

  /** The consumer settles whatever its handler has finished, acknowledging a success and
      dead-lettering a failure unless the connection was lost, and is free for the next delivery. */
  lemma Settles(cfg: Config, s: State, c: nat) returns (end: State)
    requires MessagesSafe(s.exchange, s.kitchen) && Working(s.kitchen, c) && Finished(Current(s.kitchen, c).phase)
    ensures Enabled(cfg, s, Settle(c)) && end == Next(cfg, s, Settle(c))
    ensures var d := Current(s.kitchen, c);
      && (!d.lost ==>
            d.message < |s.exchange.messages|
            && In(end.exchange.held, if d.phase.Succeeded? then Acked else Dlq(s.exchange.messages[d.message].kind),
                  d.message))
      && (d.lost ==> end.exchange == s.exchange)
      && OthersStay(s.exchange.held, end.exchange.held, d.message)
      && end.exchange.messages == s.exchange.messages
      && end.kitchen.busy == s.kitchen.busy - {c} && end.kitchen.subscriptions == s.kitchen.subscriptions
      && end.kitchen.deliveries == s.kitchen.deliveries[s.kitchen.busy[c] := d.(settled := true)]
      && end.db == s.db && end.notes == s.notes && end.kitchen.processed == s.kitchen.processed
  {
    var d := Current(s.kitchen, c);
    assert DeliveryOk(s.exchange, s.kitchen, s.kitchen.busy[c]);
    end := Next(cfg, s, Settle(c));
    if !d.lost {
      Moved(s.exchange.held, |s.exchange.messages|, Unacked(c), d.message,
            Destination(Verdict(d.phase), s.kitchen.subscriptions[c].kind));
    }
  }

  /** A delivery handled without interruption and settled: the order is ready and its message
      acknowledged. */
  lemma HandledAndAcknowledged(cfg: Config, s: State, c: nat, cookedAt: int, readyAt: int,
                               told: bool, toldAgain: bool, counted: bool) returns (end: State)
    requires MessagesSafe(s.exchange, s.kitchen) && Working(s.kitchen, c)
    requires Current(s.kitchen, c).phase == Taken && Current(s.kitchen, c).number in s.db.orders
    requires counted ==> Current(s.kitchen, c).worker in s.kitchen.processed
    ensures Leads(cfg, s, end,
      KitchenWorker.StatusEvents(c, cookedAt, told) + KitchenWorker.StatusEvents(c, readyAt, toldAgain)
      + [Increment(c, counted)] + [Settle(c)])
    ensures var d := Current(s.kitchen, c);
      && end.db == SetStatus(SetStatus(s.db, d.number, d.worker, Cooking, cookedAt), d.number, d.worker, Ready, readyAt)
      && (!d.lost ==> In(end.exchange.held, Acked, d.message))
      && c !in end.kitchen.busy
  {
    var es := KitchenWorker.StatusEvents(c, cookedAt, told) + KitchenWorker.StatusEvents(c, readyAt, toldAgain)
              + [Increment(c, counted)];
    var done := KitchenWorker.UninterruptedHandler(cfg, s, c, cookedAt, readyAt, told, toldAgain, counted);
    LeadsKeepsMessages(cfg, s, done, es);
    var settled := Settles(cfg, done, c);
    end, es := Later(cfg, s, done, es, Settle(c));
  }

  /** One whose first or second status change fails is dead-lettered. */
  lemma HandledAndDeadLettered(cfg: Config, s: State, c: nat, cookedAt: int, readyAt: int, cooks: bool, told: bool)
    returns (end: State, es: seq<Event>)
    requires MessagesSafe(s.exchange, s.kitchen) && Working(s.kitchen, c)
    requires Current(s.kitchen, c).phase == Taken && Current(s.kitchen, c).number in s.db.orders
    ensures Leads(cfg, s, end, es) && es != [] && es[|es| - 1] == Settle(c)
    ensures var d := Current(s.kitchen, c);
      && end.db == (if cooks then SetStatus(s.db, d.number, d.worker, Cooking, cookedAt) else s.db)
      && d.message < |end.exchange.messages|
      && (!d.lost ==> In(end.exchange.held, Dlq(end.exchange.messages[d.message].kind), d.message))
      && c !in end.kitchen.busy
  {
    var failed;
    failed, es := KitchenWorker.UninterruptedFailure(cfg, s, c, cookedAt, readyAt, cooks, told);
    LeadsKeepsMessages(cfg, s, failed, es);
    assert DeliveryOk(failed.exchange, failed.kitchen, failed.kitchen.busy[c]);
    var settled := Settles(cfg, failed, c);
    end, es := Later(cfg, s, failed, es, Settle(c));
  }

  /** And a stopping worker refuses it: it is dead-lettered with nothing written. */
  lemma RefusedAndDeadLettered(cfg: Config, s: State, c: nat) returns (end: State)
    requires MessagesSafe(s.exchange, s.kitchen) && Working(s.kitchen, c) && Current(s.kitchen, c).phase == Taken
    ensures Leads(cfg, s, end, [Reject(c)] + [Settle(c)])
    ensures var d := Current(s.kitchen, c);
      && end.db == s.db && end.notes == s.notes && end.kitchen.processed == s.kitchen.processed
      && d.message < |end.exchange.messages|
      && (!d.lost ==> In(end.exchange.held, Dlq(end.exchange.messages[d.message].kind), d.message))
      && c !in end.kitchen.busy
  {
    var refused := Next(cfg, s, Reject(c));
    One(cfg, s, Reject(c));
    StepKeepsMessages(cfg, s, Reject(c));
    assert DeliveryOk(refused.exchange, refused.kitchen, refused.kitchen.busy[c]);
    var settled := Settles(cfg, refused, c);
    var es;
    end, es := Later(cfg, s, refused, [Reject(c)], Settle(c));
  }

  // ---- no handler is stuck ----

  /** Steps a handler is away from its end. */
  function Distance(p: Phase): nat {
    match p
    case Taken => 5
    case CookingSet(_) => 4
    case CookingTold => 3
    case ReadySet(_) => 2
    case ReadyTold => 1
    case Succeeded(_) => 0
    case Failed(_, _, _) => 0
  }

  /** Whatever outcome a step of the handler at work may have, it is possible in every reachable
      state in which the handler has come to that step. */
  lemma EveryOutcomePossible(cfg: Config, run: seq<Event>, s: State, c: nat)
    requires Reaches(cfg, run, s) && c in s.kitchen.busy
    ensures Working(s.kitchen, c)
    ensures var p := Current(s.kitchen, c).phase;
      && (p.Taken? ==> Enabled(cfg, s, Reject(c)))
      && (p.Taken? || p.CookingTold? ==> forall o: SqlOutcome, now: int :: Enabled(cfg, s, Write(c, o, now)))
      && (p.CookingSet? || p.ReadySet? ==> forall sent: bool :: Enabled(cfg, s, Announce(c, sent)))
      && (p.ReadyTold? ==> forall counted: bool :: Enabled(cfg, s, Increment(c, counted)))
      && (p.Succeeded? || p.Failed? ==> Enabled(cfg, s, Settle(c)))
  {
    HandlerKnown(cfg, run, s, c);
    OutcomesOpen(cfg, s, c);
  }

  /** A handler at work belongs to a subscription, a stored order and a registered worker. */
  lemma HandlerKnown(cfg: Config, run: seq<Event>, s: State, c: nat)
    requires Reaches(cfg, run, s) && c in s.kitchen.busy
    ensures Working(s.kitchen, c) && c in s.kitchen.subscriptions
    ensures Current(s.kitchen, c).number in s.db.orders && Current(s.kitchen, c).worker in s.kitchen.processed
  {
    ReachableSafe(cfg, run, s);
    MessagesNameStoredOrders(cfg, run, s);
    assert DeliveryOk(s.exchange, s.kitchen, s.kitchen.busy[c]);
    assert Current(s.kitchen, c) in s.kitchen.deliveries;
  }

  lemma OutcomesOpen(cfg: Config, s: State, c: nat)
    requires Working(s.kitchen, c) && c in s.kitchen.subscriptions
    requires Current(s.kitchen, c).number in s.db.orders && Current(s.kitchen, c).worker in s.kitchen.processed
    ensures var p := Current(s.kitchen, c).phase;
      && (p.Taken? ==> Enabled(cfg, s, Reject(c)))
      && (p.Taken? || p.CookingTold? ==> forall o: SqlOutcome, now: int :: Enabled(cfg, s, Write(c, o, now)))
      && (p.CookingSet? || p.ReadySet? ==> forall sent: bool :: Enabled(cfg, s, Announce(c, sent)))
      && (p.ReadyTold? ==> forall counted: bool :: Enabled(cfg, s, Increment(c, counted)))
      && (p.Succeeded? || p.Failed? ==> Enabled(cfg, s, Settle(c)))
  {}

  /** The step that takes a handler on when everything works. */
  function Onward(p: Phase, c: nat, now: int): Event
    requires !Finished(p)
  {
    if p.Taken? || p.CookingTold? then Write(c, Committed, now)
    else if p.CookingSet? || p.ReadySet? then Announce(c, true)
    else Increment(c, true)
  }

  lemma StepsOnward(cfg: Config, run: seq<Event>, s: State, c: nat, now: int) returns (run': seq<Event>, s': State)
    requires Reaches(cfg, run, s) && Working(s.kitchen, c) && !Finished(Current(s.kitchen, c).phase)
    ensures run <= run' && Reaches(cfg, run', s') && s'.exchange == s.exchange
    ensures s'.kitchen.busy == s.kitchen.busy && s'.kitchen.subscriptions == s.kitchen.subscriptions
    ensures Working(s'.kitchen, c)
    ensures var d, d' := Current(s.kitchen, c), Current(s'.kitchen, c);
      d' == d.(phase := d'.phase) && !d'.phase.Failed? && Distance(d'.phase) == Distance(d.phase) - 1
  {
    EveryOutcomePossible(cfg, run, s, c);
    run', s' := Extended(cfg, run, s, Onward(Current(s.kitchen, c).phase, c, now));
  }

  /** In every reachable state a handler at work can still be settled; if it has not failed, as a
      success, and then its message is acknowledged unless its connection was lost. */
  lemma {:induction false} HandlerFinishes(cfg: Config, run: seq<Event>, s: State, c: nat, now: int)
    returns (run': seq<Event>, s': State)
    requires Reaches(cfg, run, s) && Working(s.kitchen, c)
    ensures run <= run' && Reaches(cfg, run', s')
    ensures s'.kitchen.busy == s.kitchen.busy - {c} && s'.kitchen.subscriptions == s.kitchen.subscriptions
    ensures s'.exchange.messages == s.exchange.messages
    ensures var d := Current(s.kitchen, c);
      && OthersStay(s.exchange.held, s'.exchange.held, d.message)
      && (!d.phase.Failed? && !d.lost ==> In(s'.exchange.held, Acked, d.message))
    decreases Distance(Current(s.kitchen, c).phase)
  {
    if Finished(Current(s.kitchen, c).phase) {
      ReachableSafe(cfg, run, s);
      var end := Settles(cfg, s, c);
      run', s' := Extended(cfg, run, s, Settle(c));
    } else {
      run', s' := StepsOnward(cfg, run, s, c, now);
      run', s' := HandlerFinishes(cfg, run', s', c, now);
    }
  }

  /** A run in which a consumer acknowledges a message and goes on to take a second one. */
  lemma AcknowledgesAndGoesOn(req: Request, date: string)
    returns (cfg: Config, run: seq<Event>, s: State)
    requires OrderNumber.IsDate(date) && req.kind in AllOrderTypes
    ensures Reaches(cfg, run, s) && In(s.exchange.held, Acked, 0)
    ensures Working(s.kitchen, 0) && Current(s.kitchen, 0).message == 1 && Current(s.kitchen, 0).phase == Taken
  {
    cfg := Config(1, 2);
    var n;
    run, s, n := OnePublished(cfg, req, date, false);
    run, s := Extended(cfg, run, s, Publish(0, "", true, true));
    assert Waits(s, 0, n, req.kind) && Waits(s, 1, n, req.kind);
    run, s := Hand(cfg, run, s, 0, "cook", 0, n, req.kind);
    run, s := Extended(cfg, run, s, Take(0, 0));
    run, s := HandlerFinishes(cfg, run, s, 0, 2);
    run, s := TakesNext(cfg, run, s, 0, 1);
  }

  /** A free consumer can take any message waiting in the queue of its type. */
  lemma TakesNext(cfg: Config, run: seq<Event>, s: State, c: nat, m: nat) returns (run': seq<Event>, s': State)
    requires Reaches(cfg, run, s) && c in s.kitchen.subscriptions && c !in s.kitchen.busy
    requires In(s.exchange.held, Queue(s.kitchen.subscriptions[c].kind), m)
    ensures run <= run' && Reaches(cfg, run', s')
    ensures Working(s'.kitchen, c) && Current(s'.kitchen, c).message == m && Current(s'.kitchen, c).phase == Taken
    ensures OthersStay(s.exchange.held, s'.exchange.held, m)
  {
    ReachableSafe(cfg, run, s);
    Moved(s.exchange.held, |s.exchange.messages|, Queue(s.kitchen.subscriptions[c].kind), m, Unacked(c));
    run', s' := Extended(cfg, run, s, Push(c, m));
    run', s' := Extended(cfg, run', s', Take(c, m));
  }

  // ---- no call is stuck ----

  /** Whatever outcome a step of a call may have, it is possible in every reachable state in which
      the call has come to that step: a permit while there is one, a stored order while its number
      is free. */
  lemma EveryReplyPossible(cfg: Config, run: seq<Event>, s: State, i: nat)
    requires Reaches(cfg, run, s) && i < |s.service.calls|
    ensures var c := s.service.calls[i];
      && (c.phase == Called ==> Enabled(cfg, s, Refuse(i)))
      && (c.phase == Called ==> (Enabled(cfg, s, Admit(i)) <==> s.service.used < cfg.maxConcurrent))
      && (c.phase == Admitted ==>
            forall o: SqlOutcome, random: nat :: 10000 <= random <= 99999 ==> Enabled(cfg, s, Draw(i, o, random)))
      && (c.phase == Numbered ==>
            forall o: SqlOutcome, now: int ::
              Enabled(cfg, s, Store(i, o, now)) <==>
                o == Aborted || (c.req.number !in s.db.orders && c.req.kind in AllOrderTypes))
      && (c.phase == Stored && cfg.attempts > 0 ==>
            forall id: string, reported: bool, accepted: bool :: Enabled(cfg, s, Publish(i, id, reported, accepted)))
      && (c.phase == Stored && cfg.attempts == 0 ==> Enabled(cfg, s, SkipPublish(i)))
  {
    CallKnown(cfg, run, s, i);
    RepliesOpen(cfg, s, i);
  }

  /** A call between acquire and return has its permit, and while it publishes an attempt left. */
  lemma CallKnown(cfg: Config, run: seq<Event>, s: State, i: nat)
    requires Reaches(cfg, run, s) && i < |s.service.calls|
    ensures var c := s.service.calls[i];
      && (HoldsPermit(c) ==> s.service.used > 0)
      && (c.phase == Stored && cfg.attempts > 0 ==> c.tries < cfg.attempts)
  {
    ReachableSafe(cfg, run, s);
    PermitsBounded(cfg, run, s);
    assert CallOk(cfg, s.service, s.db, s.service.calls[i]);
    assert s.service.calls[i] in s.service.calls;
  }

  lemma RepliesOpen(cfg: Config, s: State, i: nat)
    requires i < |s.service.calls| && (HoldsPermit(s.service.calls[i]) ==> s.service.used > 0)
    requires s.service.calls[i].phase == Stored && cfg.attempts > 0 ==> s.service.calls[i].tries < cfg.attempts
    ensures var c := s.service.calls[i];
      && (c.phase == Called ==> Enabled(cfg, s, Refuse(i)))
      && (c.phase == Called ==> (Enabled(cfg, s, Admit(i)) <==> s.service.used < cfg.maxConcurrent))
      && (c.phase == Admitted ==>
            forall o: SqlOutcome, random: nat :: 10000 <= random <= 99999 ==> Enabled(cfg, s, Draw(i, o, random)))
      && (c.phase == Numbered ==>
            forall o: SqlOutcome, now: int ::
              Enabled(cfg, s, Store(i, o, now)) <==>
                o == Aborted || (c.req.number !in s.db.orders && c.req.kind in AllOrderTypes))
      && (c.phase == Stored && cfg.attempts > 0 ==>
            forall id: string, reported: bool, accepted: bool :: Enabled(cfg, s, Publish(i, id, reported, accepted)))
      && (c.phase == Stored && cfg.attempts == 0 ==> Enabled(cfg, s, SkipPublish(i)))
  {}

  /** The step that brings a call to its reply soonest: a stored order is published, any other call
      is refused or fails. */
  function Quickest(cfg: Config, c: Call, i: nat): Event
    requires !c.phase.Replied?
  {
    match c.phase
    case Called => Refuse(i)
    case Admitted => Draw(i, Aborted, 10000)
    case Numbered => Store(i, Aborted, 0)
    case Stored => if cfg.attempts == 0 then SkipPublish(i) else Publish(i, "", true, true)
  }

  /** In every reachable state a call that has not replied still can, with success once its order
      is stored. */
  lemma CallReplies(cfg: Config, run: seq<Event>, s: State, i: nat) returns (run': seq<Event>, s': State)
    requires Reaches(cfg, run, s) && i < |s.service.calls| && !s.service.calls[i].phase.Replied?
    ensures run <= run' && Reaches(cfg, run', s') && i < |s'.service.calls| && s'.service.calls[i].phase.Replied?
    ensures s.service.calls[i].phase == Stored ==> s'.service.calls[i].phase == Replied(true)
    decreases if s.service.calls[i].phase == Admitted then 1 else 0
  {
    EveryReplyPossible(cfg, run, s, i);
    run', s' := Extended(cfg, run, s, Quickest(cfg, s.service.calls[i], i));
    if s.service.calls[i].phase == Admitted {
      run', s' := CallReplies(cfg, run', s', i);
    }
  }
}
