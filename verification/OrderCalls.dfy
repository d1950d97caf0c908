/** A CreateOrder call that nothing interrupts, as steps of the order protocol: they leave what the
    method CreateOrder leaves. */
module OrderCalls {
  import opened Text
  import opened Orders
  import opened Protocol
  import opened Steps
  import Dto
  import OrderNumber
  import OrderService
  import Tables

  /** One publish attempt: the call replies on success and after its last attempt. */
  lemma PublishStep(cfg: Config, s: State, i: nat, requestId: string, o: OrderService.PublishOutcome)
    returns (end: State, e: Event)
    requires InPhase(s.service, i, Stored) && s.service.used > 0 && s.service.calls[i].tries < cfg.attempts
    ensures Leads(cfg, s, end, [e])
    ensures var c := s.service.calls[i];
      && end == s.(service := end.service, exchange := end.exchange)
      && end.exchange.messages
           == s.exchange.messages + (if o.accepted then [Dto.Encode(c.req, requestId)] else [])
      && end.service
           == var c' := c.(tries := c.tries + 1, oks := c.oks + if o.reported then 1 else 0);
              if o.reported || c.tries + 1 == cfg.attempts
              then Protocol.Return(s.service, i, c', o.reported)
              else s.service.(calls := s.service.calls[i := c'])
  {
    e := Publish(i, requestId, o.reported, o.accepted);
    end := Next(cfg, s, e);
    One(cfg, s, e);
  }

  /** Between `s` and `end`, call `i` made its attempts up to number `k` and replied. */
  ghost predicate Published(s: State, end: State, i: nat, wire: Dto.Wire,
                            outcomes: nat -> OrderService.PublishOutcome, k: nat)
    requires i < |s.service.calls| && s.service.used > 0 && s.service.calls[i].tries < k
  {
    var c, ok := s.service.calls[i], outcomes(k - 1).reported;
    && end == s.(service := end.service, exchange := end.exchange)
    && end.service == Protocol.Return(s.service, i, c.(tries := k, oks := c.oks + if ok then 1 else 0), ok)
    && end.exchange.messages == s.exchange.messages + OrderService.Sent(wire, outcomes, c.tries, k)
  }

  /** A failed attempt before the others. */
  lemma PublishedAfter(s: State, next: State, end: State, i: nat, wire: Dto.Wire,
                       outcomes: nat -> OrderService.PublishOutcome, k: nat)
    requires i < |s.service.calls| && s.service.used > 0
    requires next == s.(service := next.service, exchange := next.exchange)
    requires var c := s.service.calls[i];
      next.service == s.service.(calls := s.service.calls[i := c.(tries := c.tries + 1)])
    requires s.service.calls[i].tries + 1 < k
    requires next.exchange.messages
      == s.exchange.messages + (if outcomes(s.service.calls[i].tries).accepted then [wire] else [])
    requires Published(next, end, i, wire, outcomes, k)
    ensures Published(s, end, i, wire, outcomes, k)
  {
    var c := s.service.calls[i];
    var c' := end.service.calls[i];
    assert next.service.calls[i := c'] == s.service.calls[i := c'];
    OrderService.SentNext(wire, outcomes, c.tries, k);
  }

  /** The attempt that the call replies to. */
  lemma PublishedLast(s: State, end: State, i: nat, wire: Dto.Wire, outcomes: nat -> OrderService.PublishOutcome)
    requires i < |s.service.calls| && s.service.used > 0
    requires end == s.(service := end.service, exchange := end.exchange)
    requires var c := s.service.calls[i];
      var o := outcomes(c.tries);
      && end.service
           == Protocol.Return(s.service, i, c.(tries := c.tries + 1, oks := c.oks + if o.reported then 1 else 0), o.reported)
      && end.exchange.messages == s.exchange.messages + (if o.accepted then [wire] else [])
    ensures Published(s, end, i, wire, outcomes, s.service.calls[i].tries + 1)
  {
    var k := s.service.calls[i].tries;
    OrderService.SentNext(wire, outcomes, k, k + 1);
    assert OrderService.Sent(wire, outcomes, k + 1, k + 1) == [];
  }

  /** The publish attempts of a call that has stored its order, up to its reply. */
  lemma {:induction false} PublishSteps(cfg: Config, s: State, i: nat, requestId: string,
                                        outcomes: nat -> OrderService.PublishOutcome)
    returns (end: State, es: seq<Event>)
    requires InPhase(s.service, i, Stored) && s.service.used > 0 && s.service.calls[i].tries < cfg.attempts
    ensures Leads(cfg, s, end, es)
    ensures var c := s.service.calls[i];
      Published(s, end, i, Dto.Encode(c.req, requestId), outcomes,
                OrderService.Tries(c.tries, cfg.attempts, outcomes))
    decreases cfg.attempts - s.service.calls[i].tries
  {
    var c := s.service.calls[i];
    var o := outcomes(c.tries);
    var wire, k := Dto.Encode(c.req, requestId), OrderService.Tries(c.tries, cfg.attempts, outcomes);
    var next, e := PublishStep(cfg, s, i, requestId, o);
    if o.reported || c.tries + 1 == cfg.attempts {
      end, es := next, [e];
      PublishedLast(s, next, i, wire, outcomes);
    } else {
      var rest;
      end, rest := PublishSteps(cfg, next, i, requestId, outcomes);
      PublishedAfter(s, next, end, i, wire, outcomes, k);
      es := [e] + rest;
      Chain(cfg, s, next, end, [e], rest);
    }
  }

  /** The order as the call prepares it. */
  function Order(s: State, req: Request, date: string, random: nat, draws: bool): Request {
    Prepared(req, date, OrderService.Drawn(s.service.sequences, date, random, draws))
  }

  /** A call that has drawn its number and holds a permit. */
  ghost predicate Drew(s: State, end: State, req: Request, date: string, random: nat, draws: bool) {
    var n := OrderService.Drawn(s.service.sequences, date, random, draws);
    && end == s.(service := end.service)
    && |end.service.calls| == |s.service.calls| + 1
    && end.service.calls[|s.service.calls|]
         == Call(Order(s, req, date, random, draws), date, Numbered, true, !draws, n, false, 0, 0)
    && end.service.used == s.service.used + 1
    && end.service.sequences == if draws then s.service.sequences[date := n] else s.service.sequences
  }

  lemma DrawSteps(cfg: Config, s: State, req: Request, date: string, random: nat, draws: bool)
    returns (end: State, es: seq<Event>)
    requires OrderNumber.IsDate(date) && OrderNumber.IsFallback(random) && s.service.used < cfg.maxConcurrent
    ensures Leads(cfg, s, end, es) && Drew(s, end, req, date, random, draws)
  {
    var i := |s.service.calls|;
    end, es := Later(cfg, s, s, [], Begin(req, date));
    end, es := Later(cfg, s, end, es, Admit(i));
    end, es := Later(cfg, s, end, es, Draw(i, if draws then Committed else Aborted, random));
  }

  /** The steps of a stored order's call from there to its reply. */
  lemma ReplySteps(cfg: Config, s: State, i: nat, requestId: string, outcomes: nat -> OrderService.PublishOutcome)
    returns (end: State, es: seq<Event>)
    requires InPhase(s.service, i, Stored) && s.service.used > 0
    requires s.service.calls[i].tries == s.service.calls[i].oks == 0
    ensures Leads(cfg, s, end, es)
    ensures var c, ok := s.service.calls[i], OrderService.Publishes(cfg.attempts, outcomes);
      && end == s.(service := end.service, exchange := end.exchange)
      && |end.service.calls| == |s.service.calls|
      && end.service.calls[i].req == c.req && end.service.calls[i].phase == Replied(ok)
      && end.service.calls[i].oks == (if ok && cfg.attempts > 0 then 1 else 0)
      && end.service.used == s.service.used - 1 && end.service.sequences == s.service.sequences
      && end.exchange.messages == s.exchange.messages
           + OrderService.Sent(Dto.Encode(c.req, requestId), outcomes, 0, OrderService.Tries(0, cfg.attempts, outcomes))
  {
    if cfg.attempts == 0 {
      end, es := Later(cfg, s, s, [], SkipPublish(i));
    } else {
      OrderService.LastAttempt(0, cfg.attempts, outcomes);
      end, es := PublishSteps(cfg, s, i, requestId, outcomes);
    }
  }

  /** The protocol steps of a CreateOrder call taken one after the other, whatever fails on the way:
      they end as the method CreateOrder does, in number, tables, messages, permit and reply. */
  lemma UninterruptedCall(cfg: Config, s: State, req: Request, date: string, random: nat, requestId: string,
                          now: int, draws: bool, creates: bool, outcomes: nat -> OrderService.PublishOutcome)
    returns (end: State, es: seq<Event>)
    requires OrderNumber.IsDate(date) && OrderNumber.IsFallback(random) && s.service.used < cfg.maxConcurrent
    ensures Leads(cfg, s, end, es)
    ensures var n, order := OrderService.Drawn(s.service.sequences, date, random, draws), Order(s, req, date, random, draws);
      var stores, publishes := creates && Tables.CanCreate(s.db, order), OrderService.Publishes(cfg.attempts, outcomes);
      && |end.service.calls| == |s.service.calls| + 1
      && var c := end.service.calls[|s.service.calls|];
      && c.req == order && c.phase == Replied(stores && publishes)
      && c.oks == (if stores && publishes && cfg.attempts > 0 then 1 else 0)
      && end.service.used == s.service.used
      && end.service.sequences == (if draws then s.service.sequences[date := n] else s.service.sequences)
      && end.db == (if stores then Tables.Create(s.db, order, SERVICE_NAME, now) else s.db)
      && end.exchange.messages == s.exchange.messages
           + (if stores
              then OrderService.Sent(Dto.Encode(order, requestId), outcomes, 0, OrderService.Tries(0, cfg.attempts, outcomes))
              else [])
      && end.kitchen == s.kitchen && end.notes == s.notes
  {
    var i := |s.service.calls|;
    var drew;
    drew, es := DrawSteps(cfg, s, req, date, random, draws);
    if creates && Tables.CanCreate(s.db, Order(s, req, date, random, draws)) {
      var stored;
      stored, es := Later(cfg, s, drew, es, Store(i, Committed, now));
      var more;
      end, more := ReplySteps(cfg, stored, i, requestId, outcomes);
      Chain(cfg, s, stored, end, es, more);
      es := es + more;
    } else {
      end, es := Later(cfg, s, drew, es, Store(i, Aborted, now));
    }
  }
}
