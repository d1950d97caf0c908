/** Exactly when an order's statuses form a single line, the runs in which they do not, and how the protocol's queues are the ones
    the broker's topology routes to. */
module Redelivery {
  import opened Text
  import opened Orders
  import opened Tables
  import opened Broker
  import opened Protocol
  import opened ServiceSafety
  import opened QuietRuns
  import opened Runs
  import Dto
  import OrderNumber
  import OrderTypes
  import Routing

  lemma Extended(cfg: Config, run: seq<Event>, s: State, e: Event) returns (run': seq<Event>, s': State)
    requires Reaches(cfg, run, s) && Enabled(cfg, s, e)
    ensures run' == run + [e] && Reaches(cfg, run', s') && s' == Next(cfg, s, e)
  {
    run', s' := run + [e], Next(cfg, s, e);
    assert run'[..|run|] == run;
  }

  // ---- exactly when an order stays in line ----

  /** The status that a handler must find for its next one to follow in line. */
  function Predecessor(p: Phase): Status {
    if p.Taken? then Received else Cooking
  }

  /** If the step writes a status of order `n`, it finds the status before it. */
  predicate InTurn(s: State, e: Event, n: string) {
    e.Write? && e.written != Aborted && Working(s.kitchen, e.consumer)
      && Current(s.kitchen, e.consumer).number == n && n in s.db.orders ==>
    s.db.orders[n].status == Predecessor(Current(s.kitchen, e.consumer).phase)
  }

  /** Every status written for the order in this run was in turn. */
  ghost predicate AllInTurn(cfg: Config, run: seq<Event>, n: string) {
    run == [] ||
    var before := Exec(cfg, run[..|run| - 1]);
    AllInTurn(cfg, run[..|run| - 1], n) && (before.Some? ==> InTurn(before.value, run[|run| - 1], n))
  }

  lemma LineGrows(rows: seq<LogRow>, row: LogRow)
    ensures InLine(rows + [row]) <==> InLine(rows) && |rows| < 3 && row.status == Line[|rows|]
  {
    var more := rows + [row];
    assert more[|rows|] == row && forall i :: 0 <= i < |rows| ==> more[i] == rows[i];
  }

  /** An order stays in line through a step if and only if it was in line and the step is in turn. */
  lemma StepInLine(cfg: Config, s: State, e: Event, n: string)
    requires Enabled(cfg, s, e) && Consistent(s.db)
    ensures InLine(LogOf(Next(cfg, s, e).db.log, n)) <==> InLine(LogOf(s.db.log, n)) && InTurn(s, e, n)
  {
    var rows := LogOf(s.db.log, n);
    assert OrderConsistent(s.db, n);
    if e.Store? && e.stored != Aborted {
      var row := LogRow(s.service.calls[e.call].req.number, Received, SERVICE_NAME, e.now);
      LogAppend(s.db.log, row, n);
      LineGrows(rows, row);
    } else if e.Write? && e.written != Aborted {
      var d := Current(s.kitchen, e.consumer);
      var row := LogRow(d.number, NextStatus(d.phase), d.worker, e.now);
      LogAppend(s.db.log, row, n);
      LineGrows(rows, row);
    }
  }

  /** After any run, drops and misreported publishes included, an order's statuses are a prefix of
      received, cooking, ready if and only if each write of the run found the status before it. */
  lemma {:induction false} InLineExactlyInTurn(cfg: Config, run: seq<Event>, s: State, n: string)
    requires Reaches(cfg, run, s)
    ensures InLine(LogOf(s.db.log, n)) <==> AllInTurn(cfg, run, n)
  {
    if run != [] {
      var front, e := run[..|run| - 1], run[|run| - 1];
      var before := Exec(cfg, front).value;
      InLineExactlyInTurn(cfg, front, before, n);
      ReachableSafe(cfg, front, before);
      StepInLine(cfg, before, e, n);
    }
  }

  // ---- runs in which an order leaves the line ----

  predicate NoDrops(run: seq<Event>) {
    forall i :: 0 <= i < |run| ==> !run[i].Drop?
  }

  /** A single call that holds a permit and has drawn its number. */
  lemma OneNumbered(cfg: Config, req: Request, date: string) returns (run: seq<Event>, s: State)
    requires OrderNumber.IsDate(date) && cfg.maxConcurrent > 0
    ensures Reaches(cfg, run, s) && NoDrops(run) && InPhase(s.service, 0, Numbered) && s.service.used == 1
    ensures s.service.calls[0].req.kind == req.kind && s.service.calls[0].tries == 0
    ensures s == Start.(service := s.service)
  {
    run, s := [], Start;
    run, s := Extended(cfg, run, s, Begin(req, date));
    run, s := Extended(cfg, run, s, Admit(0));
    run, s := Extended(cfg, run, s, Draw(0, Committed, 10000));
  }

  lemma OneStored(cfg: Config, req: Request, date: string) returns (run: seq<Event>, s: State, n: string)
    requires OrderNumber.IsDate(date) && req.kind in AllOrderTypes && cfg.maxConcurrent > 0
    ensures Reaches(cfg, run, s) && NoDrops(run) && InPhase(s.service, 0, Stored) && s.service.used == 1
    ensures s.service.calls[0].req.kind == req.kind && s.service.calls[0].req.number == n
    ensures s.service.calls[0].tries == 0
    ensures n in s.db.orders && LogOf(s.db.log, n) == s.db.log && |s.db.log| == 1
    ensures s == Start.(service := s.service, db := s.db)
  {
    run, s := OneNumbered(cfg, req, date);
    n := s.service.calls[0].req.number;
    LogAppend([], LogRow(n, Received, SERVICE_NAME, 1), n);
    run, s := Extended(cfg, run, s, Store(0, Committed, 1));
    assert s.db.log == [] + [LogRow(n, Received, SERVICE_NAME, 1)];
  }

  /** Message `m` of order `n` waits in the queue of its type. */
  ghost predicate Waits(s: State, m: nat, n: string, kind: string) {
    && In(s.exchange.held, Queue(kind), m)
    && m < |s.exchange.messages| && s.exchange.messages[m].number == n
  }

  /** A new consumer is handed a waiting message. */
  lemma Hand(cfg: Config, run: seq<Event>, s: State, c: nat, worker: string, m: nat, n: string, kind: string)
    returns (run': seq<Event>, s': State)
    requires Reaches(cfg, run, s) && c !in s.kitchen.subscriptions && Waits(s, m, n, kind)
    ensures Reaches(cfg, run', s') && (NoDrops(run) ==> NoDrops(run'))
    ensures s'.db == s.db && s'.exchange.messages == s.exchange.messages
    ensures s'.kitchen.subscriptions == s.kitchen.subscriptions[c := Subscription(worker, kind)]
    ensures s'.kitchen.busy == s.kitchen.busy && s'.kitchen.deliveries == s.kitchen.deliveries
    ensures In(s'.exchange.held, Unacked(c), m)
    ensures forall x: nat :: x != m && In(s.exchange.held, Queue(kind), x) ==> In(s'.exchange.held, Queue(kind), x)
  {
    ReachableSafe(cfg, run, s);
    Moved(s.exchange.held, |s.exchange.messages|, Queue(kind), m, Unacked(c));
    run', s' := Extended(cfg, run, s, Subscribe(c, worker, kind));
    run', s' := Extended(cfg, run', s', Push(c, m));
  }

  /** A consumer with no delivery at hand takes a message it holds and sets its order cooking. */
  lemma CookHeld(cfg: Config, run: seq<Event>, s: State, c: nat, m: nat, n: string)
    returns (run': seq<Event>, s': State)
    requires Reaches(cfg, run, s) && c in s.kitchen.subscriptions && c !in s.kitchen.busy
    requires In(s.exchange.held, Unacked(c), m) && m < |s.exchange.messages| && s.exchange.messages[m].number == n
    requires n in s.db.orders
    ensures Reaches(cfg, run', s') && (NoDrops(run) ==> NoDrops(run'))
    ensures s'.exchange == s.exchange && s'.kitchen.subscriptions == s.kitchen.subscriptions
    ensures s'.kitchen.busy.Keys == s.kitchen.busy.Keys + {c} && n in s'.db.orders
    ensures s'.db.log == s.db.log + [LogRow(n, Cooking, s.kitchen.subscriptions[c].worker, 2)]
  {
    run', s' := Extended(cfg, run, s, Take(c, m));
    run', s' := Extended(cfg, run', s', Write(c, Committed, 2));
  }

  /** A new consumer takes a waiting message and sets its order cooking. */
  lemma Cook(cfg: Config, run: seq<Event>, s: State, c: nat, worker: string, m: nat, n: string, kind: string)
    returns (run': seq<Event>, s': State)
    requires Reaches(cfg, run, s) && c !in s.kitchen.subscriptions && c !in s.kitchen.busy
    requires n in s.db.orders && Waits(s, m, n, kind) && LogOf(s.db.log, n) == s.db.log
    ensures Reaches(cfg, run', s') && (NoDrops(run) ==> NoDrops(run'))
    ensures s'.kitchen.subscriptions == s.kitchen.subscriptions[c := Subscription(worker, kind)]
    ensures s'.kitchen.busy.Keys == s.kitchen.busy.Keys + {c}
    ensures s'.db.log == s.db.log + [LogRow(n, Cooking, worker, 2)] == LogOf(s'.db.log, n)
    ensures n in s'.db.orders && s'.exchange.messages == s.exchange.messages
    ensures In(s'.exchange.held, Unacked(c), m)
    ensures forall x: nat :: x != m && In(s.exchange.held, Queue(kind), x) ==> In(s'.exchange.held, Queue(kind), x)
  {
    run', s' := Hand(cfg, run, s, c, worker, m, n, kind);
    run', s' := CookHeld(cfg, run', s', c, m, n);
    LogAppend(s.db.log, LogRow(n, Cooking, worker, 2), n);
  }

  /** An order just stored, whose first publish is reported as given and accepted. */
  lemma OnePublished(cfg: Config, req: Request, date: string, reported: bool)
    returns (run: seq<Event>, s: State, n: string)
    requires OrderNumber.IsDate(date) && req.kind in AllOrderTypes && cfg.maxConcurrent > 0
    requires cfg.attempts > 1 || (reported && cfg.attempts > 0)
    ensures Reaches(cfg, run, s) && NoDrops(run) && |s.exchange.messages| == 1 && Waits(s, 0, n, req.kind)
    ensures n in s.db.orders && LogOf(s.db.log, n) == s.db.log && |s.db.log| == 1
    ensures s.kitchen == Start.kitchen
    ensures !reported ==>
      && InPhase(s.service, 0, Stored) && s.service.used == 1 && s.service.calls[0].tries == 1
      && s.service.calls[0].req.kind == req.kind && s.service.calls[0].req.number == n
  {
    run, s, n := OneStored(cfg, req, date);
    run, s := Extended(cfg, run, s, Publish(0, "", reported, true));
  }

  /** The dropped consumer's message waits in its queue again. */
  lemma DropReturns(cfg: Config, run: seq<Event>, s: State, c: nat, m: nat)
    returns (run': seq<Event>, s': State)
    requires Reaches(cfg, run, s) && c in s.kitchen.subscriptions && In(s.exchange.held, Unacked(c), m)
    ensures Reaches(cfg, run', s') && s'.db == s.db && s'.exchange.messages == s.exchange.messages
    ensures In(s'.exchange.held, Queue(s.kitchen.subscriptions[c].kind), m)
    ensures s'.kitchen.subscriptions == s.kitchen.subscriptions && s'.kitchen.busy == s.kitchen.busy
  {
    ReachableSafe(cfg, run, s);
    Returned(s.exchange.held, |s.exchange.messages|, c, s.kitchen.subscriptions[c].kind);
    run', s' := Extended(cfg, run, s, Drop(c));
  }

  /** With a connection drop, an order can be set cooking twice: its log leaves the line of
      received, cooking, ready, though every publish was reported truly. */
  lemma DropCooksTwice(req: Request, date: string) returns (cfg: Config, run: seq<Event>, s: State, n: string)
    requires OrderNumber.IsDate(date) && req.kind in AllOrderTypes
    ensures Reaches(cfg, run, s) && n in s.db.orders && !InLine(LogOf(s.db.log, n))
    ensures |s.exchange.messages| == 1
  {
    cfg := Config(1, 1);
    run, s, n := OnePublished(cfg, req, date, true);
    run, s := Cook(cfg, run, s, 0, "first", 0, n, req.kind);
    run, s := DropReturns(cfg, run, s, 0, 0);
    run, s := Cook(cfg, run, s, 1, "second", 0, n, req.kind);
    assert s.db.log[2].status == Cooking;
  }

  /** Without any drop, a publish that reports an error and yet delivered is tried again, and the
      two messages set the order cooking twice. */
  lemma MisreportCooksTwice(req: Request, date: string) returns (cfg: Config, run: seq<Event>, s: State, n: string)
    requires OrderNumber.IsDate(date) && req.kind in AllOrderTypes
    ensures Reaches(cfg, run, s) && NoDrops(run) && n in s.db.orders && !InLine(LogOf(s.db.log, n))
  {
    cfg := Config(1, 2);
    run, s, n := OnePublished(cfg, req, date, false);
    run, s := Extended(cfg, run, s, Publish(0, "", true, true));
    assert Waits(s, 0, n, req.kind) && Waits(s, 1, n, req.kind);
    run, s := Cook(cfg, run, s, 0, "first", 0, n, req.kind);
    run, s := Cook(cfg, run, s, 1, "second", 1, n, req.kind);
    assert s.db.log[2].status == Cooking;
  }

  // ---- queues and routes ----

  /** In every reachable state, the queue a message was put in is the only one that the declared
      topology routes its key to, and a message dead-lettered from it has one destination. */
  lemma QueuesAreRoutes(cfg: Config, run: seq<Event>, s: State, m: nat, t: Routing.Topology, priority: int)
    requires Reaches(cfg, run, s) && m < |s.exchange.messages|
    requires Routing.DeclaredFor(t, AllOrderTypes)
    ensures var kind := s.exchange.messages[m].kind;
      && Routing.RouteOrder(t, Routing.PublishKey(kind, priority)) == {Routing.QueueName(kind)}
      && Routing.RouteDead(t, Routing.QueueName(kind)) == {Routing.DlqName(Routing.QueueName(kind))}
  {
    ReachableSafe(cfg, run, s);
    var wire := s.exchange.messages[m];
    assert StoredAs(s.db, Dto.Decode(wire));
    assert OrderConsistent(s.db, wire.number);
    forall k | k in AllOrderTypes
      ensures Routing.PlainWord(k)
    {
      OrderTypes.ValidTypesAreWords(k);
      assert |k| > 1;
    }
    Routing.RoutesToOwnQueue(t, AllOrderTypes, wire.kind, priority);
  }
}
