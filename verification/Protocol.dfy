/** The running system as a transition system: any number of CreateOrder calls and kitchen
    consumers over shared tables and a shared broker, one atomic step at a time.

    Premises: a SQL transaction is one atomic step that commits or aborts, and its caller may
    also be told of an error after it committed (Unreported); transactions on one order are
    serialised; a publish may be reported and accepted independently of each other. */
module Protocol {
  import opened Text
  import opened Orders
  import opened Tables
  import opened Broker
  import opened Counting
  import Consumer
  import Dto
  import OrderNumber

  /** Permits of the semaphore and publish attempts per order. */
  datatype Config = Config(maxConcurrent: nat, attempts: nat)

  datatype SqlOutcome = Committed | Aborted | Unreported

  // ---- order service ----

  datatype CallPhase = Called | Admitted | Numbered | Stored | Replied(ok: bool)

  /** One CreateOrder call; `sequence` is the number it drew, from the day's sequence or, when
      `fallback`, at random; `tries` and `oks` count its publish calls. */
  datatype Call = Call(
    req: Request,
    date: string,
    phase: CallPhase,
    numbered: bool,
    fallback: bool,
    sequence: nat,
    stored: bool,
    tries: nat,
    oks: nat)

  /** `issued` lists the (day, value) pairs that the sequence transaction has committed. */
  datatype Service = Service(
    calls: seq<Call>,
    used: nat,
    sequences: map<string, nat>,
    issued: seq<(string, nat)>)

  function LastValue(sequences: map<string, nat>, date: string): nat {
    if date in sequences then sequences[date] else 0
  }

  /** Between a successful acquire and the return. */
  predicate HoldsPermit(c: Call) {
    c.phase == Admitted || c.phase == Numbered || c.phase == Stored
  }

  function Return(sv: Service, i: nat, c: Call, ok: bool): Service
    requires i < |sv.calls| && sv.used > 0
  {
    sv.(calls := sv.calls[i := c.(phase := Replied(ok))], used := sv.used - 1)
  }

  function DrawNumber(sv: Service, i: nat, outcome: SqlOutcome, random: nat): Service
    requires i < |sv.calls|
  {
    var c := sv.calls[i];
    var next := LastValue(sv.sequences, c.date) + 1;
    var fallback := outcome != Committed;
    var n := if fallback then random else next;
    var c' := c.(req := Prepared(c.req, c.date, n), phase := Numbered,
                 numbered := true, fallback := fallback, sequence := n);
    var sv' := sv.(calls := sv.calls[i := c']);
    if outcome == Aborted then sv'
    else sv'.(sequences := sv.sequences[c.date := next], issued := sv.issued + [(c.date, next)])
  }

  function StoreReply(sv: Service, i: nat, outcome: SqlOutcome): Service
    requires i < |sv.calls| && sv.used > 0
  {
    var c := sv.calls[i];
    match outcome
    case Committed => sv.(calls := sv.calls[i := c.(phase := Stored, stored := true)])
    case Aborted => Return(sv, i, c, false)
    case Unreported => Return(sv, i, c.(stored := true), false)
  }

  function PublishReply(cfg: Config, sv: Service, i: nat, reported: bool): Service
    requires i < |sv.calls| && sv.used > 0
  {
    var c := sv.calls[i];
    if reported then Return(sv, i, c.(tries := c.tries + 1, oks := c.oks + 1), true)
    else if c.tries + 1 == cfg.attempts then Return(sv, i, c.(tries := c.tries + 1), false)
    else sv.(calls := sv.calls[i := c.(tries := c.tries + 1)])
  }

  // ---- broker ----

  datatype Exchange = Exchange(messages: seq<Dto.Wire>, held: Held)

  function Accept(ex: Exchange, message: Dto.Wire): Exchange {
    Exchange(ex.messages + [message], Enter(ex.held, |ex.messages|, Queue(message.kind)))
  }

  // ---- kitchen ----

  datatype Subscription = Subscription(worker: string, kind: string)

  /** How far the handler of a delivery has come. `Failed` remembers how many statuses it had
      written and how many of them it had announced. */
  datatype Phase =
    | Taken
    | CookingSet(previous: Status)
    | CookingTold
    | ReadySet(previous: Status)
    | ReadyTold
    | Succeeded(counted: bool)
    | Failed(error: Consumer.HandlerError, statuses: nat, announced: nat)

  /** Statuses written so far. */
  function Wrote(p: Phase): nat {
    match p
    case Taken => 0
    case CookingSet(_) => 1
    case CookingTold => 1
    case ReadySet(_) => 2
    case ReadyTold => 2
    case Succeeded(_) => 2
    case Failed(_, n, _) => n
  }

  /** Status announcements attempted so far. */
  function Told(p: Phase): nat {
    match p
    case Taken => 0
    case CookingSet(_) => 0
    case CookingTold => 1
    case ReadySet(_) => 1
    case ReadyTold => 2
    case Succeeded(_) => 2
    case Failed(_, _, n) => n
  }

  predicate Finished(p: Phase) { p.Succeeded? || p.Failed? }

  /** A message handed to a consumer's handler. `lost` once the connection dropped and the
      broker took the message back; `settled` once the consumer has passed its verdict. */
  datatype Delivery = Delivery(
    consumer: nat,
    worker: string,
    message: nat,
    number: string,
    phase: Phase,
    lost: bool,
    settled: bool)

  /** `busy` maps a consumer to the delivery its loop is working on; `processed` is the
      orders_processed column. */
  datatype Kitchen = Kitchen(
    subscriptions: map<nat, Subscription>,
    deliveries: seq<Delivery>,
    busy: map<nat, nat>,
    processed: map<string, nat>)

  datatype Note = Note(number: string, previous: Status, current: Status, changedBy: string)

  predicate Working(k: Kitchen, c: nat) {
    c in k.busy && k.busy[c] < |k.deliveries|
  }

  function Current(k: Kitchen, c: nat): Delivery
    requires Working(k, c)
  {
    k.deliveries[k.busy[c]]
  }

  function SetPhase(k: Kitchen, c: nat, p: Phase): Kitchen
    requires Working(k, c)
  {
    k.(deliveries := k.deliveries[k.busy[c] := Current(k, c).(phase := p)])
  }

  /** What becomes of a handler that asked for a status change. */
  function AfterStatus(p: Phase, outcome: SqlOutcome, previous: Status): Phase {
    match outcome
    case Committed => if p.Taken? then CookingSet(previous) else ReadySet(previous)
    case Aborted => Failed(Consumer.StatusFailed, Wrote(p), Told(p))
    case Unreported => Failed(Consumer.StatusFailed, Wrote(p) + 1, Told(p))
  }

  function Verdict(p: Phase): Consumer.Verdict
    requires Finished(p)
  {
    Consumer.VerdictFor(if p.Succeeded? then None else Some(p.error))
  }

  /** Where a verdict sends a message of the given type. */
  function Destination(v: Consumer.Verdict, kind: string): Place {
    match v
    case Ack => Acked
    case Requeue => Queue(kind)
    case DeadLetter => Dlq(kind)
  }

  // ---- the whole system ----

  datatype State = State(db: Db, service: Service, exchange: Exchange, kitchen: Kitchen, notes: seq<Note>)

  const Start := State(EmptyDb, Service([], 0, map[], []), Exchange([], map[]),
                       Kitchen(map[], [], map[], map[]), [])

  const SERVICE_NAME := "order-service"

  datatype Event =
    // CreateOrder
    | Begin(req: Request, date: string)
    | Refuse(call: nat)
    | Admit(call: nat)
    | Draw(call: nat, drawn: SqlOutcome, random: nat)
    | Store(call: nat, stored: SqlOutcome, now: int)
    | Publish(call: nat, requestId: string, reported: bool, accepted: bool)
    | SkipPublish(call: nat)
    // broker and consumer loop
    | Subscribe(consumer: nat, worker: string, kind: string)
    | Push(consumer: nat, message: nat)
    | Take(consumer: nat, message: nat)
    | Drop(consumer: nat)
    | Settle(consumer: nat)
    // processOrderWrapper and proccessOrder
    | Reject(consumer: nat)
    | Write(consumer: nat, written: SqlOutcome, now: int)
    | Announce(consumer: nat, sent: bool)
    | Increment(consumer: nat, counted: bool)

  predicate InPhase(sv: Service, i: nat, p: CallPhase) {
    i < |sv.calls| && sv.calls[i].phase == p
  }

  predicate Enabled(cfg: Config, s: State, e: Event) {
    match e
    case Begin(_, date) => OrderNumber.IsDate(date)
    case Refuse(i) => InPhase(s.service, i, Called)
    case Admit(i) => InPhase(s.service, i, Called) && s.service.used < cfg.maxConcurrent
    case Draw(i, _, random) => InPhase(s.service, i, Admitted) && OrderNumber.IsFallback(random)
    case Store(i, outcome, _) =>
      && InPhase(s.service, i, Numbered) && s.service.used > 0
      && (outcome != Aborted ==> CanCreate(s.db, s.service.calls[i].req))
    case Publish(i, _, _, _) =>
      && InPhase(s.service, i, Stored) && s.service.used > 0
      && s.service.calls[i].tries < cfg.attempts
    case SkipPublish(i) => InPhase(s.service, i, Stored) && s.service.used > 0 && cfg.attempts == 0
    case Subscribe(c, _, _) => c !in s.kitchen.subscriptions
    case Push(c, m) =>
      && c in s.kitchen.subscriptions
      && m in At(s.exchange.held, Queue(s.kitchen.subscriptions[c].kind))
    case Take(c, m) =>
      && c in s.kitchen.subscriptions && c !in s.kitchen.busy
      && m in At(s.exchange.held, Unacked(c)) && m < |s.exchange.messages|
    case Drop(c) => c in s.kitchen.subscriptions
    case Settle(c) =>
      && c in s.kitchen.subscriptions
      && Working(s.kitchen, c) && Finished(Current(s.kitchen, c).phase)
    case Reject(c) => Working(s.kitchen, c) && Current(s.kitchen, c).phase.Taken?
    case Write(c, outcome, _) =>
      && Working(s.kitchen, c)
      && (Current(s.kitchen, c).phase.Taken? || Current(s.kitchen, c).phase.CookingTold?)
      && (outcome != Aborted ==> Current(s.kitchen, c).number in s.db.orders)
    case Announce(c, _) =>
      && Working(s.kitchen, c)
      && (Current(s.kitchen, c).phase.CookingSet? || Current(s.kitchen, c).phase.ReadySet?)
    case Increment(c, counted) =>
      && Working(s.kitchen, c) && Current(s.kitchen, c).phase.ReadyTold?
      && (counted ==> Current(s.kitchen, c).worker in s.kitchen.processed)
  }

  /** The status a handler writes next. */
  function NextStatus(p: Phase): Status {
    if p.Taken? then Cooking else Ready
  }

  function DropConnection(s: State, c: nat): State
    requires c in s.kitchen.subscriptions
  {
    var k := s.kitchen;
    var ex := s.exchange.(held := Broker.Return(s.exchange.held, c, k.subscriptions[c].kind));
    var k' := if Working(k, c)
              then k.(deliveries := k.deliveries[k.busy[c] := Current(k, c).(lost := true)])
              else k;
    s.(exchange := ex, kitchen := k')
  }

  function SettleDelivery(s: State, c: nat): State
    requires c in s.kitchen.subscriptions
    requires Working(s.kitchen, c) && Finished(Current(s.kitchen, c).phase)
  {
    var k := s.kitchen;
    var d := Current(k, c);
    var k' := k.(deliveries := k.deliveries[k.busy[c] := d.(settled := true)], busy := k.busy - {c});
    var to := Destination(Verdict(d.phase), k.subscriptions[c].kind);
    var held' := if d.lost then s.exchange.held
                 else Move(s.exchange.held, Unacked(c), d.message, to);
    s.(exchange := s.exchange.(held := held'), kitchen := k')
  }

  function Next(cfg: Config, s: State, e: Event): State
    requires Enabled(cfg, s, e)
  {
    var sv, ex, k := s.service, s.exchange, s.kitchen;
    match e
    case Begin(req, date) =>
      s.(service := sv.(calls := sv.calls + [Call(req, date, Called, false, false, 0, false, 0, 0)]))
    case Refuse(i) =>
      s.(service := sv.(calls := sv.calls[i := sv.calls[i].(phase := Replied(false))]))
    case Admit(i) =>
      s.(service := sv.(calls := sv.calls[i := sv.calls[i].(phase := Admitted)], used := sv.used + 1))
    case Draw(i, outcome, random) =>
      s.(service := DrawNumber(sv, i, outcome, random))
    case Store(i, outcome, now) =>
      var db' := if outcome == Aborted then s.db
                 else Create(s.db, sv.calls[i].req, SERVICE_NAME, now);
      s.(db := db', service := StoreReply(sv, i, outcome))
    case Publish(i, requestId, reported, accepted) =>
      var ex' := if accepted then Accept(ex, Dto.Encode(sv.calls[i].req, requestId)) else ex;
      s.(exchange := ex', service := PublishReply(cfg, sv, i, reported))
    case SkipPublish(i) =>
      s.(service := Return(sv, i, sv.calls[i], true))
    case Subscribe(c, worker, kind) =>
      var processed' := if worker in k.processed then k.processed else k.processed[worker := 0];
      s.(kitchen := k.(subscriptions := k.subscriptions[c := Subscription(worker, kind)],
                       processed := processed'))
    case Push(c, m) =>
      s.(exchange := ex.(held := Move(ex.held, Queue(k.subscriptions[c].kind), m, Unacked(c))))
    case Take(c, m) =>
      var d := Delivery(c, k.subscriptions[c].worker, m, ex.messages[m].number, Taken, false, false);
      s.(kitchen := k.(deliveries := k.deliveries + [d], busy := k.busy[c := |k.deliveries|]))
    case Drop(c) => DropConnection(s, c)
    case Settle(c) => SettleDelivery(s, c)
    case Reject(c) =>
      s.(kitchen := SetPhase(k, c, Failed(Consumer.Stopping, 0, 0)))
    case Write(c, outcome, now) =>
      var d := Current(k, c);
      if outcome == Aborted then
        s.(kitchen := SetPhase(k, c, AfterStatus(d.phase, outcome, Unset)))
      else
        s.(db := SetStatus(s.db, d.number, d.worker, NextStatus(d.phase), now),
           kitchen := SetPhase(k, c, AfterStatus(d.phase, outcome, s.db.orders[d.number].status)))
    case Announce(c, sent) =>
      var d := Current(k, c);
      var current := if d.phase.CookingSet? then Cooking else Ready;
      var note := Note(d.number, d.phase.previous, current, d.worker);
      s.(notes := if sent then s.notes + [note] else s.notes,
         kitchen := SetPhase(k, c, if d.phase.CookingSet? then CookingTold else ReadyTold))
    case Increment(c, counted) =>
      var w := Current(k, c).worker;
      var k' := SetPhase(k, c, Succeeded(counted));
      s.(kitchen := if counted then k'.(processed := k.processed[w := k.processed[w] + 1]) else k')
  }

  /** The state after a run, if every event of it was enabled in its turn. */
  ghost function Exec(cfg: Config, run: seq<Event>): Option<State> {
    if run == [] then Some(Start)
    else
      var before := Exec(cfg, run[..|run| - 1]);
      var e := run[|run| - 1];
      if before.Some? && Enabled(cfg, before.value, e) then Some(Next(cfg, before.value, e)) else None
  }
}
