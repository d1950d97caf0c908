/** What every step keeps about CreateOrder calls: permits, numbers, stored orders, published
    messages, and the agreement of the tables among themselves. */
module ServiceSafety {
  import opened Text
  import opened Orders
  import opened Tables
  import opened Counting
  import opened Protocol
  import Dto
  import OrderNumber

  // ---- an order as requested and as stored ----

  /** The tables hold this request: its row and exactly its items. */
  ghost predicate StoredAs(db: Db, req: Request) {
    && req.number in db.orders
    && var row := db.orders[req.number];
       && row.customer == req.customer && row.kind == req.kind
       && row.table == req.table && row.address == req.address
       && row.total == req.total && row.priority == req.priority
       && ItemsOf(db.items, req.number) == req.items
  }

  lemma CreateStores(db: Db, req: Request, changedBy: string, now: int)
    requires Consistent(db) && CanCreate(db, req)
    ensures StoredAs(Create(db, req, changedBy, now), req)
  {
    assert OrderConsistent(db, req.number);
    CreateEffect(db, req, changedBy, now, req.number);
    assert [] + req.items == req.items;
  }

  lemma CreateKeepsStored(db: Db, added: Request, changedBy: string, now: int, req: Request)
    requires CanCreate(db, added) && StoredAs(db, req)
    ensures StoredAs(Create(db, added, changedBy, now), req)
  {
    CreateEffect(db, added, changedBy, now, req.number);
    assert req.items + [] == req.items;
  }

  // ---- the day's sequence ----

  function Upto(n: nat): (r: seq<nat>)
    ensures |r| == n && forall i :: 0 <= i < n ==> r[i] == i + 1
  {
    if n == 0 then [] else Upto(n - 1) + [n]
  }

  /** The values committed for one day, in order. */
  function IssuedOn(issued: seq<(string, nat)>, date: string): seq<nat> {
    if issued == [] then []
    else
      var last := issued[|issued| - 1];
      IssuedOn(issued[..|issued| - 1], date) + if last.0 == date then [last.1] else []
  }

  ghost predicate SequenceExact(sv: Service) {
    forall date :: IssuedOn(sv.issued, date) == Upto(LastValue(sv.sequences, date))
  }

  lemma DrawKeepsSequence(sv: Service, i: nat, outcome: SqlOutcome, random: nat)
    requires i < |sv.calls| && SequenceExact(sv)
    ensures SequenceExact(DrawNumber(sv, i, outcome, random))
  {
    var sv' := DrawNumber(sv, i, outcome, random);
    if outcome != Aborted {
      var day := sv.calls[i].date;
      var next := LastValue(sv.sequences, day) + 1;
      forall date
        ensures IssuedOn(sv'.issued, date) == Upto(LastValue(sv'.sequences, date))
      {
        assert IssuedOn(sv.issued, date) == Upto(LastValue(sv.sequences, date));
        IssuedAppend(sv.issued, day, next, date);
        assert LastValue(sv'.sequences, date) == if date == day then next else LastValue(sv.sequences, date);
      }
    }
  }

  lemma IssuedAppend(issued: seq<(string, nat)>, day: string, value: nat, date: string)
    ensures IssuedOn(issued + [(day, value)], date)
         == IssuedOn(issued, date) + (if day == date then [value] else [])
  {
    assert (issued + [(day, value)])[..|issued|] == issued;
  }

  // ---- calls ----

  function Permit(): Call -> bool { (c: Call) => HoldsPermit(c) }

  ghost predicate PermitsExact(cfg: Config, sv: Service) {
    sv.used == Count(sv.calls, Permit()) && sv.used <= cfg.maxConcurrent
  }

  /** The request of a numbered call is filled in, with a number of its own kind. */
  ghost predicate NumberOk(sequences: map<string, nat>, c: Call) {
    c.numbered ==>
      && c.req.number == OrderNumber.Format(c.date, c.sequence)
      && c.req.total == Total(c.req.items)
      && c.req.priority == PriorityFor(c.req.total)
      && c.req.status == Received
      && if c.fallback then OrderNumber.IsFallback(c.sequence)
         else 1 <= c.sequence <= LastValue(sequences, c.date)
  }

  /** What a call has done is what its phase says. */
  ghost predicate PhaseOk(cfg: Config, c: Call) {
    && OrderNumber.IsDate(c.date)
    && (c.stored ==> c.numbered)
    && c.tries <= cfg.attempts
    && match c.phase
       case Called => !c.numbered && !c.stored && c.tries == 0 && c.oks == 0
       case Admitted => !c.numbered && !c.stored && c.tries == 0 && c.oks == 0
       case Numbered => c.numbered && !c.stored && c.tries == 0 && c.oks == 0
       case Stored => c.stored && c.oks == 0 && (cfg.attempts == 0 || c.tries < cfg.attempts)
       case Replied(ok) => if ok then c.stored && c.oks == (if cfg.attempts == 0 then 0 else 1)
                           else c.oks == 0
  }

  ghost predicate CallOk(cfg: Config, sv: Service, db: Db, c: Call) {
    && NumberOk(sv.sequences, c)
    && PhaseOk(cfg, c)
    && (c.stored ==> StoredAs(db, c.req))
  }

  /** No two calls share a sequence value, and no two stored orders share a number. */
  predicate Apart(a: Call, b: Call) {
    && (a.numbered && b.numbered && !a.fallback && !b.fallback && a.date == b.date ==>
          a.sequence != b.sequence)
    && (a.stored && b.stored ==> a.req.number != b.req.number)
  }

  ghost predicate CallsSafe(cfg: Config, sv: Service, db: Db) {
    && (forall i :: 0 <= i < |sv.calls| ==> CallOk(cfg, sv, db, sv.calls[i]))
    && (forall i, j :: 0 <= i < j < |sv.calls| ==> Apart(sv.calls[i], sv.calls[j]))
  }

  /** Every accepted message decodes to an order that the tables hold. */
  ghost predicate MessagesStored(ex: Exchange, db: Db) {
    forall m :: 0 <= m < |ex.messages| ==> StoredAs(db, Dto.Decode(ex.messages[m]))
  }

  ghost predicate ServiceSafe(cfg: Config, s: State) {
    && Consistent(s.db)
    && PermitsExact(cfg, s.service)
    && SequenceExact(s.service)
    && CallsSafe(cfg, s.service, s.db)
    && MessagesStored(s.exchange, s.db)
  }

  lemma StartServiceSafe(cfg: Config)
    ensures ServiceSafe(cfg, Start)
  {
    EmptyConsistent();
  }

  /** One call changes and stays apart from the others. */
  lemma CallsUpdate(cfg: Config, sv: Service, sv': Service, db: Db, i: nat, c: Call)
    requires CallsSafe(cfg, sv, db) && i < |sv.calls|
    requires sv'.calls == sv.calls[i := c]
    requires CallOk(cfg, sv', db, c)
    requires forall d :: LastValue(sv.sequences, d) <= LastValue(sv'.sequences, d)
    requires forall j :: 0 <= j < |sv.calls| && j != i ==> Apart(sv.calls[j], c)
    ensures CallsSafe(cfg, sv', db)
  {
    forall j | 0 <= j < |sv.calls|
      ensures CallOk(cfg, sv', db, sv'.calls[j])
    {
      assert CallOk(cfg, sv, db, sv.calls[j]);
    }
    forall j, l | 0 <= j < l < |sv.calls|
      ensures Apart(sv'.calls[j], sv'.calls[l])
    {
      assert Apart(sv.calls[j], sv.calls[l]);
    }
  }

  /** A call that only moves on keeps apart from the others. */
  lemma StillApart(cfg: Config, sv: Service, db: Db, i: nat, c: Call)
    requires CallsSafe(cfg, sv, db) && i < |sv.calls|
    requires c.numbered == sv.calls[i].numbered && c.fallback == sv.calls[i].fallback
    requires c.date == sv.calls[i].date && c.sequence == sv.calls[i].sequence
    requires c.stored == sv.calls[i].stored && c.req == sv.calls[i].req
    ensures forall j :: 0 <= j < |sv.calls| && j != i ==> Apart(sv.calls[j], c)
  {
    forall j | 0 <= j < |sv.calls| && j != i
      ensures Apart(sv.calls[j], c)
    {
      if j < i {
        assert Apart(sv.calls[j], sv.calls[i]);
      } else {
        assert Apart(sv.calls[i], sv.calls[j]);
      }
    }
  }

  /** Steps that move one call on without drawing a number or storing. */
  lemma MoveOn(cfg: Config, sv: Service, sv': Service, db: Db, i: nat, c: Call)
    requires CallsSafe(cfg, sv, db) && PermitsExact(cfg, sv) && SequenceExact(sv)
    requires i < |sv.calls| && sv'.calls == sv.calls[i := c]
    requires c == sv.calls[i].(phase := c.phase, tries := c.tries, oks := c.oks)
    requires PhaseOk(cfg, c)
    requires sv'.sequences == sv.sequences && sv'.issued == sv.issued
    requires sv'.used == sv.used - (if HoldsPermit(sv.calls[i]) then 1 else 0)
                                 + (if HoldsPermit(c) then 1 else 0)
    requires sv'.used <= cfg.maxConcurrent
    ensures CallsSafe(cfg, sv', db) && PermitsExact(cfg, sv') && SequenceExact(sv')
  {
    assert CallOk(cfg, sv, db, sv.calls[i]);
    StillApart(cfg, sv, db, i, c);
    CallsUpdate(cfg, sv, sv', db, i, c);
    Update(sv.calls, i, c, Permit());
  }

  lemma BeginKeeps(cfg: Config, s: State, req: Request, date: string)
    requires ServiceSafe(cfg, s) && OrderNumber.IsDate(date)
    ensures ServiceSafe(cfg, Next(cfg, s, Begin(req, date)))
  {
    var sv := s.service;
    var sv' := Next(cfg, s, Begin(req, date)).service;
    var c := sv'.calls[|sv.calls|];
    Append(sv.calls, c, Permit());
    forall i | 0 <= i < |sv'.calls|
      ensures CallOk(cfg, sv', s.db, sv'.calls[i])
    {
      if i < |sv.calls| {
        assert CallOk(cfg, sv, s.db, sv.calls[i]);
      }
    }
    forall i, j | 0 <= i < j < |sv'.calls|
      ensures Apart(sv'.calls[i], sv'.calls[j])
    {
      if j < |sv.calls| {
        assert Apart(sv.calls[i], sv.calls[j]);
      }
    }
  }

  /** A value drawn from the sequence is above all drawn before on that day. */
  lemma DrawKeeps(cfg: Config, sv: Service, db: Db, i: nat, outcome: SqlOutcome, random: nat)
    requires CallsSafe(cfg, sv, db) && PermitsExact(cfg, sv)
    requires InPhase(sv, i, Admitted) && OrderNumber.IsFallback(random)
    ensures var sv' := DrawNumber(sv, i, outcome, random);
      CallsSafe(cfg, sv', db) && PermitsExact(cfg, sv')
  {
    var sv' := DrawNumber(sv, i, outcome, random);
    var c := sv'.calls[i];
    assert CallOk(cfg, sv, db, sv.calls[i]);
    forall j | 0 <= j < |sv.calls| && j != i
      ensures Apart(sv.calls[j], c)
    {
      assert CallOk(cfg, sv, db, sv.calls[j]);
    }
    assert sv'.calls == sv.calls[i := c];
    CallsUpdate(cfg, sv, sv', db, i, c);
    Update(sv.calls, i, c, Permit());
  }

  lemma CreateKeepsCalls(cfg: Config, sv: Service, db: Db, added: Request, now: int)
    requires CallsSafe(cfg, sv, db) && CanCreate(db, added)
    ensures CallsSafe(cfg, sv, Create(db, added, SERVICE_NAME, now))
  {
    var db' := Create(db, added, SERVICE_NAME, now);
    forall j | 0 <= j < |sv.calls|
      ensures CallOk(cfg, sv, db', sv.calls[j])
    {
      assert CallOk(cfg, sv, db, sv.calls[j]);
      if sv.calls[j].stored {
        CreateKeepsStored(db, added, SERVICE_NAME, now, sv.calls[j].req);
      }
    }
  }

  lemma StoreKeeps(cfg: Config, s: State, i: nat, outcome: SqlOutcome, now: int)
    requires ServiceSafe(cfg, s) && Enabled(cfg, s, Store(i, outcome, now))
    requires outcome != Aborted
    ensures ServiceSafe(cfg, Next(cfg, s, Store(i, outcome, now)))
  {
    var sv, db := s.service, s.db;
    var s' := Next(cfg, s, Store(i, outcome, now));
    var c := s'.service.calls[i];
    var req := sv.calls[i].req;
    assert CallOk(cfg, sv, db, sv.calls[i]);
    CreateConsistent(db, req, SERVICE_NAME, now);
    CreateStores(db, req, SERVICE_NAME, now);
    CreateKeepsCalls(cfg, sv, db, req, now);
    forall j | 0 <= j < |sv.calls| && j != i
      ensures Apart(sv.calls[j], c)
    {
      assert CallOk(cfg, sv, db, sv.calls[j]);
      assert if j < i then Apart(sv.calls[j], sv.calls[i]) else Apart(sv.calls[i], sv.calls[j]);
    }
    CallsUpdate(cfg, sv, s'.service, s'.db, i, c);
    Update(sv.calls, i, c, Permit());
    forall m | 0 <= m < |s.exchange.messages|
      ensures StoredAs(s'.db, Dto.Decode(s.exchange.messages[m]))
    {
      CreateKeepsStored(db, req, SERVICE_NAME, now, Dto.Decode(s.exchange.messages[m]));
    }
  }

  lemma PublishKeeps(cfg: Config, s: State, i: nat, requestId: string, reported: bool, accepted: bool)
    requires ServiceSafe(cfg, s) && Enabled(cfg, s, Publish(i, requestId, reported, accepted))
    ensures ServiceSafe(cfg, Next(cfg, s, Publish(i, requestId, reported, accepted)))
  {
    var sv := s.service;
    var s' := Next(cfg, s, Publish(i, requestId, reported, accepted));
    assert CallOk(cfg, sv, s.db, sv.calls[i]);
    MoveOn(cfg, sv, s'.service, s.db, i, s'.service.calls[i]);
    Dto.DecodeEncode(sv.calls[i].req, requestId);
    forall m | 0 <= m < |s'.exchange.messages|
      ensures StoredAs(s.db, Dto.Decode(s'.exchange.messages[m]))
    {
      if m < |s.exchange.messages| {
        assert StoredAs(s.db, Dto.Decode(s.exchange.messages[m]));
      }
    }
  }

  lemma StatusKeeps(cfg: Config, sv: Service, ex: Exchange, db: Db,
                    number: string, worker: string, status: Status, now: int)
    requires Consistent(db) && CallsSafe(cfg, sv, db) && MessagesStored(ex, db)
    requires number in db.orders && (status == Cooking || status == Ready)
    ensures var db' := SetStatus(db, number, worker, status, now);
      Consistent(db') && CallsSafe(cfg, sv, db') && MessagesStored(ex, db')
  {
    var db' := SetStatus(db, number, worker, status, now);
    SetStatusConsistent(db, number, worker, status, now);
    forall j | 0 <= j < |sv.calls|
      ensures CallOk(cfg, sv, db', sv.calls[j])
    {
      assert CallOk(cfg, sv, db, sv.calls[j]);
    }
    forall m | 0 <= m < |ex.messages|
      ensures StoredAs(db', Dto.Decode(ex.messages[m]))
    {
      assert StoredAs(db, Dto.Decode(ex.messages[m]));
    }
  }

  /** Steps of one call that neither draw, store nor publish. */
  lemma CallStepKeeps(cfg: Config, s: State, e: Event)
    requires Enabled(cfg, s, e) && ServiceSafe(cfg, s)
    requires e.Refuse? || e.Admit? || e.SkipPublish? || (e.Store? && e.stored == Aborted)
    ensures ServiceSafe(cfg, Next(cfg, s, e))
  {
    var sv := s.service;
    var sv' := Next(cfg, s, e).service;
    assert CallOk(cfg, sv, s.db, sv.calls[e.call]);
    MoveOn(cfg, sv, sv', s.db, e.call, sv'.calls[e.call]);
  }

  /** Every step of the system keeps calls, tables and sequence in agreement. */
  lemma StepKeepsService(cfg: Config, s: State, e: Event)
    requires Enabled(cfg, s, e)
    requires ServiceSafe(cfg, s)
    ensures ServiceSafe(cfg, Next(cfg, s, e))
  {
    match e
    case Begin(req, date) => BeginKeeps(cfg, s, req, date);
    case Refuse(_) => CallStepKeeps(cfg, s, e);
    case Admit(_) => CallStepKeeps(cfg, s, e);
    case SkipPublish(_) => CallStepKeeps(cfg, s, e);
    case Draw(i, outcome, random) =>
      DrawKeeps(cfg, s.service, s.db, i, outcome, random);
      DrawKeepsSequence(s.service, i, outcome, random);
    case Store(i, outcome, now) =>
      if outcome == Aborted {
        CallStepKeeps(cfg, s, e);
      } else {
        StoreKeeps(cfg, s, i, outcome, now);
      }
    case Publish(i, requestId, reported, accepted) =>
      PublishKeeps(cfg, s, i, requestId, reported, accepted);
    case Write(c, outcome, now) =>
      if outcome != Aborted {
        var d := Current(s.kitchen, c);
        StatusKeeps(cfg, s.service, s.exchange, s.db, d.number, d.worker, NextStatus(d.phase), now);
      }
    case _ =>
  }
}
