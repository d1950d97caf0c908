/** Runs without connection drops in which a publish that reports an error delivered nothing:
    each order then has one message, one delivery and one line of statuses. */
module QuietRuns {
  import opened Text
  import opened Orders
  import opened Tables
  import opened Counting
  import opened Broker
  import opened Protocol
  import opened MessageSafety
  import opened ServiceSafety
  import opened KitchenHistory
  import Dto

  predicate Quiet(e: Event) {
    !e.Drop? && (e.Publish? ==> e.accepted ==> e.reported)
  }

  /** Quiet, and every status announcement reached the broker. */
  predicate Faithful(e: Event) {
    Quiet(e) && (e.Announce? ==> e.sent)
  }

  /** The invariants that hold in every run. */
  ghost predicate Safe(cfg: Config, s: State) {
    && MessagesSafe(s.exchange, s.kitchen)
    && ServiceSafe(cfg, s)
    && HistorySafe(s)
  }

  // ---- one message per order ----

  ghost predicate OneMessage(sv: Service, ex: Exchange) {
    && (forall a, b :: 0 <= a < b < |ex.messages| ==> ex.messages[a].number != ex.messages[b].number)
    && (forall m, i :: 0 <= m < |ex.messages| && 0 <= i < |sv.calls| && sv.calls[i].stored
                       && sv.calls[i].req.number == ex.messages[m].number ==>
          sv.calls[i].phase == Replied(true))
  }

  lemma MessageOnce(cfg: Config, sv: Service, db: Db, ex: Exchange, i: nat, requestId: string)
    requires CallsSafe(cfg, sv, db) && OneMessage(sv, ex)
    requires InPhase(sv, i, Stored) && sv.used > 0
    ensures OneMessage(PublishReply(cfg, sv, i, true), Accept(ex, Dto.Encode(sv.calls[i].req, requestId)))
  {
    var sv' := PublishReply(cfg, sv, i, true);
    var ex' := Accept(ex, Dto.Encode(sv.calls[i].req, requestId));
    assert CallOk(cfg, sv, db, sv.calls[i]);
    forall m, j | 0 <= m < |ex'.messages| && 0 <= j < |sv.calls| && sv'.calls[j].stored
                  && sv'.calls[j].req.number == ex'.messages[m].number
      ensures sv'.calls[j].phase == Replied(true)
    {
      if j < i {
        assert Apart(sv.calls[j], sv.calls[i]);
      } else if i < j {
        assert Apart(sv.calls[i], sv.calls[j]);
      }
    }
  }

  /** A call that did not publish before, or has just stored a new number, adds no second message. */
  lemma NoMessage(sv: Service, sv': Service, ex: Exchange, i: nat, c: Call)
    requires OneMessage(sv, ex) && i < |sv.calls| && sv'.calls == sv.calls[i := c]
    requires forall m :: 0 <= m < |ex.messages| && c.stored ==>
      ex.messages[m].number != c.req.number || (sv.calls[i].stored && sv.calls[i].req == c.req && c.phase == sv.calls[i].phase)
    ensures OneMessage(sv', ex)
  {}

  lemma NotPublished(cfg: Config, s: State, i: nat)
    requires CallsSafe(cfg, s.service, s.db) && OneMessage(s.service, s.exchange)
    requires InPhase(s.service, i, Stored)
    ensures forall m :: 0 <= m < |s.exchange.messages| ==>
      s.exchange.messages[m].number != s.service.calls[i].req.number
  {
    assert CallOk(cfg, s.service, s.db, s.service.calls[i]);
  }

  lemma NotStored(s: State, number: string)
    requires MessagesStored(s.exchange, s.db) && number !in s.db.orders
    ensures forall m :: 0 <= m < |s.exchange.messages| ==> s.exchange.messages[m].number != number
  {
    forall m | 0 <= m < |s.exchange.messages|
      ensures s.exchange.messages[m].number != number
    {
      assert StoredAs(s.db, Dto.Decode(s.exchange.messages[m]));
    }
  }

  lemma StepKeepsOneMessage(cfg: Config, s: State, e: Event)
    requires Enabled(cfg, s, e) && Quiet(e)
    requires CallsSafe(cfg, s.service, s.db) && MessagesStored(s.exchange, s.db)
    requires OneMessage(s.service, s.exchange)
    ensures var s' := Next(cfg, s, e); OneMessage(s'.service, s'.exchange)
  {
    var sv, s' := s.service, Next(cfg, s, e);
    match e
    case Publish(i, requestId, reported, accepted) =>
      if accepted {
        MessageOnce(cfg, sv, s.db, s.exchange, i, requestId);
      } else {
        NotPublished(cfg, s, i);
        NoMessage(sv, s'.service, s.exchange, i, s'.service.calls[i]);
      }
    case SkipPublish(i) =>
      NotPublished(cfg, s, i);
      NoMessage(sv, s'.service, s.exchange, i, s'.service.calls[i]);
    case Store(i, outcome, now) =>
      assert CallOk(cfg, sv, s.db, sv.calls[i]);
      if outcome != Aborted {
        NotStored(s, sv.calls[i].req.number);
      }
      NoMessage(sv, s'.service, s.exchange, i, s'.service.calls[i]);
    case Draw(i, _, _) => NothingStored(cfg, s, e);
    case Refuse(i) => NothingStored(cfg, s, e);
    case Admit(i) => NothingStored(cfg, s, e);
    case _ =>
  }

  lemma NothingStored(cfg: Config, s: State, e: Event)
    requires Enabled(cfg, s, e) && (e.Draw? || e.Refuse? || e.Admit?)
    requires CallsSafe(cfg, s.service, s.db) && OneMessage(s.service, s.exchange)
    ensures OneMessage(Next(cfg, s, e).service, s.exchange)
  {
    var sv' := Next(cfg, s, e).service;
    assert CallOk(cfg, s.service, s.db, s.service.calls[e.call]);
    NoMessage(s.service, sv', s.exchange, e.call, sv'.calls[e.call]);
  }

  // ---- one delivery per message ----

  ghost predicate OneDelivery(ds: seq<Delivery>) {
    && (forall i :: 0 <= i < |ds| ==> !ds[i].lost)
    && (forall a, b :: 0 <= a < b < |ds| ==> ds[a].message != ds[b].message)
  }

  /** A message that can be taken is at no other handler and was never settled. */
  lemma TakeOnce(cfg: Config, s: State, c: nat, m: nat)
    requires Enabled(cfg, s, Take(c, m)) && MessagesSafe(s.exchange, s.kitchen)
    requires OneDelivery(s.kitchen.deliveries)
    ensures forall i :: 0 <= i < |s.kitchen.deliveries| ==> s.kitchen.deliveries[i].message != m
  {
    var ex, k := s.exchange, s.kitchen;
    assert In(ex.held, Unacked(c), m);
    forall i: nat | i < |k.deliveries|
      ensures k.deliveries[i].message != m
    {
      assert DeliveryOk(ex, k, i);
    }
  }

  lemma StepKeepsOneDelivery(cfg: Config, s: State, e: Event)
    requires Enabled(cfg, s, e) && Quiet(e) && MessagesSafe(s.exchange, s.kitchen)
    requires OneDelivery(s.kitchen.deliveries)
    ensures OneDelivery(Next(cfg, s, e).kitchen.deliveries)
  {
    if e.Take? {
      TakeOnce(cfg, s, e.consumer, e.message);
    }
  }

  ghost predicate OneHandler(ds: seq<Delivery>) {
    forall a, b :: 0 <= a < b < |ds| ==> ds[a].number != ds[b].number
  }

  /** One message per order and one delivery per message: one handler per order. */
  lemma HandlersApart(s: State)
    requires Loops(s.exchange, s.kitchen) && OneMessage(s.service, s.exchange)
    requires OneDelivery(s.kitchen.deliveries)
    ensures OneHandler(s.kitchen.deliveries)
  {
    var ds := s.kitchen.deliveries;
    forall a: nat, b: nat | a < b < |ds|
      ensures ds[a].number != ds[b].number
    {
      assert DeliveryOk(s.exchange, s.kitchen, a) && DeliveryOk(s.exchange, s.kitchen, b);
      assert ds[a].message != ds[b].message;
    }
  }

  /** What Take hands out is an order that is stored and has no handler yet. */
  predicate Unhandled(db: Db, ds: seq<Delivery>, n: string) {
    n in db.orders && forall i :: 0 <= i < |ds| ==> ds[i].number != n
  }

  lemma TakeUnhandled(cfg: Config, s: State, c: nat, m: nat)
    requires Enabled(cfg, s, Take(c, m)) && MessagesSafe(s.exchange, s.kitchen)
    requires MessagesStored(s.exchange, s.db)
    requires OneMessage(s.service, s.exchange) && OneDelivery(s.kitchen.deliveries)
    ensures Unhandled(s.db, s.kitchen.deliveries, s.exchange.messages[m].number)
  {
    var ds := s.kitchen.deliveries;
    TakeOnce(cfg, s, c, m);
    assert StoredAs(s.db, Dto.Decode(s.exchange.messages[m]));
    forall i: nat | i < |ds|
      ensures ds[i].number != s.exchange.messages[m].number
    {
      assert DeliveryOk(s.exchange, s.kitchen, i);
      assert ds[i].message != m;
    }
  }

  // ---- one line of statuses per order ----

  ghost predicate Handled(ds: seq<Delivery>, n: string) {
    exists i :: 0 <= i < |ds| && ds[i].number == n
  }

  const Line := [Received, Cooking, Ready]

  /** The statuses of an order are a prefix of received, cooking, ready. */
  ghost predicate InLine(rows: seq<LogRow>) {
    |rows| <= 3 && forall i :: 0 <= i < |rows| ==> rows[i].status == Line[i]
  }

  ghost predicate OrderInLine(db: Db, ds: seq<Delivery>, n: string) {
    n in db.orders ==>
      InLine(LogOf(db.log, n)) && (|LogOf(db.log, n)| == 1 || Handled(ds, n))
  }

  ghost predicate HandlerInLine(db: Db, d: Delivery) {
    d.number in db.orders && |LogOf(db.log, d.number)| == 1 + Wrote(d.phase)
  }

  ghost predicate OneLine(db: Db, ds: seq<Delivery>) {
    && (forall n :: OrderInLine(db, ds, n))
    && (forall i :: 0 <= i < |ds| ==> HandlerInLine(db, ds[i]))
  }

  lemma SameHandled(ds: seq<Delivery>, i: nat, d: Delivery)
    requires i < |ds| && d.number == ds[i].number
    ensures forall n :: Handled(ds, n) ==> Handled(ds[i := d], n)
  {
    forall n | Handled(ds, n)
      ensures Handled(ds[i := d], n)
    {
      var j :| 0 <= j < |ds| && ds[j].number == n;
      assert ds[i := d][j].number == n;
    }
  }

  lemma LineIdle(db: Db, ds: seq<Delivery>, i: nat, d: Delivery)
    requires OneLine(db, ds) && i < |ds|
    requires d.number == ds[i].number && Wrote(d.phase) == Wrote(ds[i].phase)
    ensures OneLine(db, ds[i := d])
  {
    SameHandled(ds, i, d);
    assert HandlerInLine(db, ds[i]);
    var ds' := ds[i := d];
    forall n
      ensures OrderInLine(db, ds', n)
    {
      assert OrderInLine(db, ds, n);
    }
  }

  lemma LineStore(db: Db, ds: seq<Delivery>, req: Request, now: int)
    requires OneLine(db, ds) && Consistent(db) && CanCreate(db, req)
    ensures OneLine(Create(db, req, SERVICE_NAME, now), ds)
  {
    var db' := Create(db, req, SERVICE_NAME, now);
    var first := LogRow(req.number, Received, SERVICE_NAME, now);
    forall n
      ensures OrderInLine(db', ds, n)
    {
      LogAppend(db.log, first, n);
      assert OrderConsistent(db, n) && OrderInLine(db, ds, n);
      if n == req.number {
        assert LogOf(db'.log, n) == [first];
      }
    }
    forall i | 0 <= i < |ds|
      ensures HandlerInLine(db', ds[i])
    {
      assert HandlerInLine(db, ds[i]);
      LogAppend(db.log, first, ds[i].number);
    }
  }

  lemma LineTake(db: Db, ds: seq<Delivery>, d: Delivery)
    requires OneLine(db, ds) && Unhandled(db, ds, d.number) && d.phase == Taken
    ensures OneLine(db, ds + [d])
  {
    var ds' := ds + [d];
    forall n
      ensures OrderInLine(db, ds', n)
    {
      assert OrderInLine(db, ds, n);
      if Handled(ds, n) {
        var j :| 0 <= j < |ds| && ds[j].number == n;
        assert ds'[j].number == n;
      }
    }
    assert OrderInLine(db, ds, d.number);
    forall i | 0 <= i < |ds'|
      ensures HandlerInLine(db, ds'[i])
    {
      assert i < |ds| ==> HandlerInLine(db, ds[i]);
    }
  }

  lemma LineWrite(db: Db, ds: seq<Delivery>, b: nat, p: Phase, now: int)
    requires OneLine(db, ds) && OneHandler(ds) && b < |ds| && ds[b].number in db.orders
    requires ds[b].phase.Taken? || ds[b].phase.CookingTold?
    requires Wrote(p) == Wrote(ds[b].phase) + 1
    ensures var d := ds[b];
      OneLine(SetStatus(db, d.number, d.worker, NextStatus(d.phase), now), ds[b := d.(phase := p)])
  {
    var d := ds[b];
    var row := LogRow(d.number, NextStatus(d.phase), d.worker, now);
    var db' := SetStatus(db, d.number, d.worker, NextStatus(d.phase), now);
    var ds' := ds[b := d.(phase := p)];
    assert HandlerInLine(db, d);
    forall n
      ensures OrderInLine(db', ds', n)
    {
      assert OrderInLine(db, ds, n);
      LogAppend(db.log, row, n);
      if n == d.number {
        assert ds'[b].number == n;
      } else {
        SameHandled(ds, b, ds'[b]);
      }
    }
    forall i | 0 <= i < |ds|
      ensures HandlerInLine(db', ds'[i])
    {
      assert HandlerInLine(db, ds[i]);
      LogAppend(db.log, row, ds[i].number);
      assert i != b ==> ds[i].number != d.number;
    }
  }

  /** The handler of one consumer moves on without writing. */
  predicate Idles(e: Event) {
    e.Settle? || e.Reject? || e.Announce? || e.Increment? || (e.Write? && e.written == Aborted)
  }

  lemma StepKeepsOneLine(cfg: Config, s: State, e: Event)
    requires Enabled(cfg, s, e) && Quiet(e) && Consistent(s.db)
    requires OneHandler(s.kitchen.deliveries)
    requires e.Take? ==> Unhandled(s.db, s.kitchen.deliveries, s.exchange.messages[e.message].number)
    requires OneLine(s.db, s.kitchen.deliveries)
    ensures var s' := Next(cfg, s, e); OneLine(s'.db, s'.kitchen.deliveries)
  {
    var k, s' := s.kitchen, Next(cfg, s, e);
    if Idles(e) {
      LineIdle(s.db, k.deliveries, k.busy[e.consumer], s'.kitchen.deliveries[k.busy[e.consumer]]);
    } else {
      match e
      case Store(i, outcome, now) =>
        if outcome != Aborted {
          LineStore(s.db, k.deliveries, s.service.calls[i].req, now);
        }
      case Take(c, _) => LineTake(s.db, k.deliveries, s'.kitchen.deliveries[|k.deliveries|]);
      case Write(c, outcome, now) =>
        LineWrite(s.db, k.deliveries, k.busy[c], s'.kitchen.deliveries[k.busy[c]].phase, now);
      case _ =>
    }
  }

  ghost predicate QuietSafe(s: State) {
    && OneMessage(s.service, s.exchange)
    && OneDelivery(s.kitchen.deliveries)
    && OneLine(s.db, s.kitchen.deliveries)
  }

  // ---- the notifications of an order form a chain ----

  function About(n: string): Note -> bool { (x: Note) => x.number == n }

  function NotesOf(notes: seq<Note>, n: string): seq<Note> {
    Filter(notes, About(n))
  }

  /** The notes of an order are its first status changes, in order. */
  ghost predicate Follows(notes: seq<Note>, rows: seq<LogRow>) {
    forall j :: 0 <= j < |notes| ==>
      ChangeAt(rows, j, notes[j].previous, notes[j].current, notes[j].changedBy)
  }

  ghost predicate TellsNext(log: seq<LogRow>, notes: seq<Note>, d: Delivery) {
    && |NotesOf(notes, d.number)| == Told(d.phase)
    && (d.phase.CookingSet? ==> ChangeAt(LogOf(log, d.number), 0, d.phase.previous, Cooking, d.worker))
    && (d.phase.ReadySet? ==> ChangeAt(LogOf(log, d.number), 1, d.phase.previous, Ready, d.worker))
  }

  ghost predicate OrderChained(log: seq<LogRow>, ds: seq<Delivery>, notes: seq<Note>, n: string) {
    && Follows(NotesOf(notes, n), LogOf(log, n))
    && (NotesOf(notes, n) == [] || Handled(ds, n))
  }

  ghost predicate Chained(log: seq<LogRow>, ds: seq<Delivery>, notes: seq<Note>) {
    && (forall n :: OrderChained(log, ds, notes, n))
    && (forall i :: 0 <= i < |ds| ==> TellsNext(log, notes, ds[i]))
  }

  lemma ChainIdle(log: seq<LogRow>, ds: seq<Delivery>, notes: seq<Note>, i: nat, d: Delivery)
    requires Chained(log, ds, notes) && i < |ds|
    requires d.number == ds[i].number && d.worker == ds[i].worker && Told(d.phase) == Told(ds[i].phase)
    requires d.phase.CookingSet? || d.phase.ReadySet? ==> d.phase == ds[i].phase
    ensures Chained(log, ds[i := d], notes)
  {
    SameHandled(ds, i, d);
    assert TellsNext(log, notes, ds[i]);
    var ds' := ds[i := d];
    forall n
      ensures OrderChained(log, ds', notes, n)
    {
      assert OrderChained(log, ds, notes, n);
    }
  }

  lemma ChainGrows(log: seq<LogRow>, ds: seq<Delivery>, notes: seq<Note>, row: LogRow)
    requires Chained(log, ds, notes)
    ensures Chained(log + [row], ds, notes)
  {
    forall n
      ensures OrderChained(log + [row], ds, notes, n)
    {
      assert OrderChained(log, ds, notes, n);
      LogAppend(log, row, n);
    }
    forall i | 0 <= i < |ds|
      ensures TellsNext(log + [row], notes, ds[i])
    {
      assert TellsNext(log, notes, ds[i]);
      LogAppend(log, row, ds[i].number);
    }
  }

  lemma ChainTake(db: Db, ds: seq<Delivery>, notes: seq<Note>, d: Delivery)
    requires Chained(db.log, ds, notes) && Unhandled(db, ds, d.number) && d.phase == Taken
    ensures Chained(db.log, ds + [d], notes)
  {
    var ds' := ds + [d];
    forall n
      ensures OrderChained(db.log, ds', notes, n)
    {
      assert OrderChained(db.log, ds, notes, n);
      if Handled(ds, n) {
        var j :| 0 <= j < |ds| && ds[j].number == n;
        assert ds'[j].number == n;
      }
    }
    assert OrderChained(db.log, ds, notes, d.number) && !Handled(ds, d.number);
    forall i | 0 <= i < |ds'|
      ensures TellsNext(db.log, notes, ds'[i])
    {
      assert i < |ds| ==> TellsNext(db.log, notes, ds[i]);
    }
  }

  /** The change a handler will announce next is the next one in its order's log. */
  lemma ChainWrite(db: Db, ds: seq<Delivery>, notes: seq<Note>, b: nat, outcome: SqlOutcome, now: int)
    requires Chained(db.log, ds, notes) && b < |ds| && outcome != Aborted
    requires ds[b].phase.Taken? || ds[b].phase.CookingTold?
    requires ds[b].number in db.orders && OrderConsistent(db, ds[b].number)
    requires |LogOf(db.log, ds[b].number)| == 1 + Wrote(ds[b].phase)
    ensures var d := ds[b];
      var p := AfterStatus(d.phase, outcome, db.orders[d.number].status);
      Chained(SetStatus(db, d.number, d.worker, NextStatus(d.phase), now).log, ds[b := d.(phase := p)], notes)
  {
    var d := ds[b];
    var d' := d.(phase := AfterStatus(d.phase, outcome, db.orders[d.number].status));
    var row := LogRow(d.number, NextStatus(d.phase), d.worker, now);
    LogAppend(db.log, row, d.number);
    ChainGrows(db.log, ds, notes, row);
    SameHandled(ds, b, d');
    assert TellsNext(db.log + [row], notes, d);
    assert TellsNext(db.log + [row], notes, d');
    var log', ds' := db.log + [row], ds[b := d'];
    forall n
      ensures OrderChained(log', ds', notes, n)
    {
      assert OrderChained(log', ds, notes, n);
    }
  }

  /** The note a handler sends next, and its phase after it. */
  predicate NextNote(d: Delivery, note: Note, p: Phase) {
    || (d.phase.CookingSet? && note == Note(d.number, d.phase.previous, Cooking, d.worker) && p == CookingTold)
    || (d.phase.ReadySet? && note == Note(d.number, d.phase.previous, Ready, d.worker) && p == ReadyTold)
  }

  lemma FollowsOn(log: seq<LogRow>, notes: seq<Note>, d: Delivery, note: Note, p: Phase)
    requires TellsNext(log, notes, d) && NextNote(d, note, p)
    requires Follows(NotesOf(notes, d.number), LogOf(log, d.number))
    ensures Follows(NotesOf(notes + [note], d.number), LogOf(log, d.number))
    ensures TellsNext(log, notes + [note], d.(phase := p))
  {
    Append(notes, note, About(d.number));
  }

  lemma ChainAnnounce(log: seq<LogRow>, ds: seq<Delivery>, notes: seq<Note>, b: nat, note: Note, p: Phase)
    requires Chained(log, ds, notes) && OneHandler(ds) && b < |ds| && NextNote(ds[b], note, p)
    ensures Chained(log, ds[b := ds[b].(phase := p)], notes + [note])
  {
    var ds' := ds[b := ds[b].(phase := p)];
    var notes' := notes + [note];
    assert TellsNext(log, notes, ds[b]) && OrderChained(log, ds, notes, note.number);
    FollowsOn(log, notes, ds[b], note, p);
    SameHandled(ds, b, ds'[b]);
    forall n
      ensures OrderChained(log, ds', notes', n)
    {
      assert OrderChained(log, ds, notes, n);
      if n == note.number {
        assert ds'[b].number == n;
      } else {
        Append(notes, note, About(n));
      }
    }
    forall i | 0 <= i < |ds|
      ensures TellsNext(log, notes', ds'[i])
    {
      if i != b {
        assert TellsNext(log, notes, ds[i]);
        assert ds[i].number != note.number;
        Append(notes, note, About(ds[i].number));
      }
    }
  }

  lemma StepKeepsChained(cfg: Config, s: State, e: Event)
    requires Enabled(cfg, s, e) && Faithful(e) && Consistent(s.db)
    requires OneHandler(s.kitchen.deliveries) && OneLine(s.db, s.kitchen.deliveries)
    requires e.Take? ==> Unhandled(s.db, s.kitchen.deliveries, s.exchange.messages[e.message].number)
    requires Chained(s.db.log, s.kitchen.deliveries, s.notes)
    ensures var s' := Next(cfg, s, e); Chained(s'.db.log, s'.kitchen.deliveries, s'.notes)
  {
    var k, s' := s.kitchen, Next(cfg, s, e);
    if e.Announce? {
      var b := k.busy[e.consumer];
      ChainAnnounce(s.db.log, k.deliveries, s.notes, b, s'.notes[|s.notes|], s'.kitchen.deliveries[b].phase);
    } else if Idles(e) {
      var b := k.busy[e.consumer];
      ChainIdle(s.db.log, k.deliveries, s.notes, b, s'.kitchen.deliveries[b]);
    } else {
      match e
      case Store(i, outcome, now) =>
        if outcome != Aborted {
          ChainGrows(s.db.log, k.deliveries, s.notes,
                     LogRow(s.service.calls[i].req.number, Received, SERVICE_NAME, now));
        }
      case Take(c, _) => ChainTake(s.db, k.deliveries, s.notes, s'.kitchen.deliveries[|k.deliveries|]);
      case Write(c, outcome, now) =>
        var b := k.busy[c];
        assert OrderConsistent(s.db, k.deliveries[b].number);
        ChainWrite(s.db, k.deliveries, s.notes, b, outcome, now);
      case _ =>
    }
  }
}
