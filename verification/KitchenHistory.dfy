/** What every step keeps between the status log, the handlers and the notifications: which
    handler wrote which entry, what was announced, and how many orders each worker finished. */
module KitchenHistory {
  import opened Text
  import opened Orders
  import opened Tables
  import opened Counting
  import opened Protocol

  // ---- counting entries and handlers ----

  /** Entries of one status by one worker on one order. */
  function Entry(n: string, w: string, st: Status): LogRow -> bool {
    (r: LogRow) => r.number == n && r.changedBy == w && r.status == st
  }

  /** Handlers of one order by one worker that have written at least `k` statuses. */
  function Reached(n: string, w: string, k: nat): Delivery -> bool {
    (d: Delivery) => d.number == n && d.worker == w && Wrote(d.phase) >= k
  }

  function EntryBy(w: string, st: Status): LogRow -> bool {
    (r: LogRow) => r.changedBy == w && r.status == st
  }

  function ReachedBy(w: string, k: nat): Delivery -> bool {
    (d: Delivery) => d.worker == w && Wrote(d.phase) >= k
  }

  function CountedBy(w: string): Delivery -> bool {
    (d: Delivery) => d.worker == w && d.phase == Succeeded(true)
  }

  /** Each handler that wrote a status left exactly one entry, and each entry has its handler. */
  ghost predicate EntriesMatched(log: seq<LogRow>, ds: seq<Delivery>) {
    && (forall n, w :: Count(log, Entry(n, w, Cooking)) == Count(ds, Reached(n, w, 1)))
    && (forall n, w :: Count(log, Entry(n, w, Ready)) == Count(ds, Reached(n, w, 2)))
    && (forall w :: Count(log, EntryBy(w, Ready)) == Count(ds, ReachedBy(w, 2)))
  }

  /** At every point of the log, a worker has readied an order no more often than cooked it. */
  ghost predicate CookedFirst(log: seq<LogRow>) {
    forall t, n, w :: 0 <= t <= |log| ==>
      Count(log[..t], Entry(n, w, Ready)) <= Count(log[..t], Entry(n, w, Cooking))
  }

  /** The counter column counts exactly the handlers that incremented it. */
  ghost predicate CounterExact(k: Kitchen) {
    && (forall w :: w in k.processed ==> k.processed[w] == Count(k.deliveries, CountedBy(w)))
    && (forall w :: w !in k.processed ==> Count(k.deliveries, CountedBy(w)) == 0)
  }

  // ---- what the log says of one handler ----

  ghost predicate HasCooking(log: seq<LogRow>, n: string, w: string) {
    exists i :: 0 <= i < |log| && Entry(n, w, Cooking)(log[i])
  }

  /** A cooking entry and a later ready entry, both by `w`. */
  ghost predicate HasPair(log: seq<LogRow>, n: string, w: string) {
    exists i, j :: 0 <= i < j < |log| && Entry(n, w, Cooking)(log[i]) && Entry(n, w, Ready)(log[j])
  }

  /** Two neighbouring entries of an order: status `a`, then status `b` by `w`. */
  predicate ChangeAt(rows: seq<LogRow>, i: nat, a: Status, b: Status, w: string) {
    && i + 1 < |rows| && rows[i].status == a
    && rows[i + 1].status == b && rows[i + 1].changedBy == w
  }

  ghost predicate Changed(log: seq<LogRow>, n: string, a: Status, b: Status, w: string) {
    exists i :: ChangeAt(LogOf(log, n), i, a, b, w)
  }

  ghost predicate HandlerLogged(log: seq<LogRow>, d: Delivery) {
    && (Wrote(d.phase) >= 1 ==> HasCooking(log, d.number, d.worker))
    && (Wrote(d.phase) >= 2 ==> HasPair(log, d.number, d.worker))
    && (d.phase.CookingSet? ==> Changed(log, d.number, d.phase.previous, Cooking, d.worker))
    && (d.phase.ReadySet? ==> Changed(log, d.number, d.phase.previous, Ready, d.worker))
  }

  ghost predicate HandlersLogged(log: seq<LogRow>, ds: seq<Delivery>) {
    forall i :: 0 <= i < |ds| ==> HandlerLogged(log, ds[i])
  }

  ghost predicate NotesTrue(log: seq<LogRow>, notes: seq<Note>) {
    forall i :: 0 <= i < |notes| ==>
      Changed(log, notes[i].number, notes[i].previous, notes[i].current, notes[i].changedBy)
  }

  ghost predicate HistorySafe(s: State) {
    && EntriesMatched(s.db.log, s.kitchen.deliveries)
    && CookedFirst(s.db.log)
    && CounterExact(s.kitchen)
    && HandlersLogged(s.db.log, s.kitchen.deliveries)
    && NotesTrue(s.db.log, s.notes)
  }

  lemma StartHistorySafe()
    ensures HistorySafe(Start)
  {}

  // ---- the log only grows ----

  lemma ChangedGrows(log: seq<LogRow>, row: LogRow, n: string, a: Status, b: Status, w: string)
    requires Changed(log, n, a, b, w)
    ensures Changed(log + [row], n, a, b, w)
  {
    LogAppend(log, row, n);
    var i :| ChangeAt(LogOf(log, n), i, a, b, w);
    assert ChangeAt(LogOf(log + [row], n), i, a, b, w);
  }

  lemma HandlerGrows(log: seq<LogRow>, row: LogRow, d: Delivery)
    requires HandlerLogged(log, d)
    ensures HandlerLogged(log + [row], d)
  {
    var log' := log + [row];
    assert forall i :: 0 <= i < |log| ==> log'[i] == log[i];
    if Wrote(d.phase) >= 1 {
      var i :| 0 <= i < |log| && Entry(d.number, d.worker, Cooking)(log[i]);
      assert Entry(d.number, d.worker, Cooking)(log'[i]);
    }
    if Wrote(d.phase) >= 2 {
      var i, j :| 0 <= i < j < |log| && Entry(d.number, d.worker, Cooking)(log[i])
                  && Entry(d.number, d.worker, Ready)(log[j]);
      assert Entry(d.number, d.worker, Cooking)(log'[i]) && Entry(d.number, d.worker, Ready)(log'[j]);
    }
    if d.phase.CookingSet? {
      ChangedGrows(log, row, d.number, d.phase.previous, Cooking, d.worker);
    }
    if d.phase.ReadySet? {
      ChangedGrows(log, row, d.number, d.phase.previous, Ready, d.worker);
    }
  }

  lemma NotesGrow(log: seq<LogRow>, row: LogRow, notes: seq<Note>)
    requires NotesTrue(log, notes)
    ensures NotesTrue(log + [row], notes)
  {
    forall i | 0 <= i < |notes|
      ensures Changed(log + [row], notes[i].number, notes[i].previous, notes[i].current, notes[i].changedBy)
    {
      ChangedGrows(log, row, notes[i].number, notes[i].previous, notes[i].current, notes[i].changedBy);
    }
  }

  lemma CookedFirstGrows(log: seq<LogRow>, row: LogRow)
    requires CookedFirst(log)
    requires forall n, w ::
      Count(log + [row], Entry(n, w, Ready)) <= Count(log + [row], Entry(n, w, Cooking))
    ensures CookedFirst(log + [row])
  {
    var log' := log + [row];
    forall t, n, w | 0 <= t <= |log'|
      ensures Count(log'[..t], Entry(n, w, Ready)) <= Count(log'[..t], Entry(n, w, Cooking))
    {
      if t <= |log| {
        assert log'[..t] == log[..t];
      } else {
        assert log'[..t] == log';
      }
    }
  }

  lemma {:induction false} FewerReached(ds: seq<Delivery>, n: string, w: string)
    ensures Count(ds, Reached(n, w, 2)) <= Count(ds, Reached(n, w, 1))
  {
    if ds != [] {
      FewerReached(ds[..|ds| - 1], n, w);
    }
  }

  /** An entry and the handler that wrote it are counted together. */
  lemma MatchedWrite(log: seq<LogRow>, ds: seq<Delivery>, i: nat, p: Phase, row: LogRow)
    requires EntriesMatched(log, ds) && i < |ds|
    requires row.number == ds[i].number && row.changedBy == ds[i].worker
    requires Wrote(p) == Wrote(ds[i].phase) + 1
    requires if Wrote(p) == 1 then row.status == Cooking else Wrote(p) == 2 && row.status == Ready
    ensures EntriesMatched(log + [row], ds[i := ds[i].(phase := p)])
  {
    var d := ds[i].(phase := p);
    forall n, w
      ensures Count(log + [row], Entry(n, w, Cooking)) == Count(ds[i := d], Reached(n, w, 1))
      ensures Count(log + [row], Entry(n, w, Ready)) == Count(ds[i := d], Reached(n, w, 2))
    {
      Append(log, row, Entry(n, w, Cooking));
      Append(log, row, Entry(n, w, Ready));
      Update(ds, i, d, Reached(n, w, 1));
      Update(ds, i, d, Reached(n, w, 2));
    }
    forall w
      ensures Count(log + [row], EntryBy(w, Ready)) == Count(ds[i := d], ReachedBy(w, 2))
    {
      Append(log, row, EntryBy(w, Ready));
      Update(ds, i, d, ReachedBy(w, 2));
    }
  }

  /** A handler that changes without writing leaves the counts alone. */
  lemma MatchedIdle(log: seq<LogRow>, ds: seq<Delivery>, i: nat, d: Delivery)
    requires EntriesMatched(log, ds) && i < |ds|
    requires d.number == ds[i].number && d.worker == ds[i].worker
    requires Wrote(d.phase) == Wrote(ds[i].phase)
    ensures EntriesMatched(log, ds[i := d])
  {
    forall n, w
      ensures Count(log, Entry(n, w, Cooking)) == Count(ds[i := d], Reached(n, w, 1))
      ensures Count(log, Entry(n, w, Ready)) == Count(ds[i := d], Reached(n, w, 2))
    {
      Update(ds, i, d, Reached(n, w, 1));
      Update(ds, i, d, Reached(n, w, 2));
    }
    forall w
      ensures Count(log, EntryBy(w, Ready)) == Count(ds[i := d], ReachedBy(w, 2))
    {
      Update(ds, i, d, ReachedBy(w, 2));
    }
  }

  lemma CounterIdle(k: Kitchen, k': Kitchen, i: nat, d: Delivery)
    requires CounterExact(k) && i < |k.deliveries|
    requires k'.deliveries == k.deliveries[i := d] && k'.processed == k.processed
    requires d.worker == k.deliveries[i].worker
    requires d.phase == Succeeded(true) <==> k.deliveries[i].phase == Succeeded(true)
    ensures CounterExact(k')
  {
    forall w
      ensures Count(k'.deliveries, CountedBy(w)) == Count(k.deliveries, CountedBy(w))
    {
      Update(k.deliveries, i, d, CountedBy(w));
    }
  }

  // ---- the steps ----

  /** A handler's delivery changes, the log does not: rejections, failures, announcements,
      settlements and drops. */
  lemma IdleKeeps(s: State, s': State, i: nat, d: Delivery)
    requires HistorySafe(s) && i < |s.kitchen.deliveries|
    requires s'.db.log == s.db.log && s'.notes == s.notes
    requires s'.kitchen.deliveries == s.kitchen.deliveries[i := d]
    requires s'.kitchen.processed == s.kitchen.processed
    requires var was := s.kitchen.deliveries[i];
      && d.number == was.number && d.worker == was.worker
      && Wrote(d.phase) == Wrote(was.phase)
      && (d.phase == Succeeded(true) <==> was.phase == Succeeded(true))
      && (d.phase.CookingSet? || d.phase.ReadySet? ==> d.phase == was.phase)
    ensures HistorySafe(s')
  {
    MatchedIdle(s.db.log, s.kitchen.deliveries, i, d);
    CounterIdle(s.kitchen, s'.kitchen, i, d);
    assert HandlerLogged(s.db.log, s.kitchen.deliveries[i]);
  }

  lemma AnnounceKeeps(cfg: Config, s: State, c: nat, sent: bool)
    requires HistorySafe(s) && Enabled(cfg, s, Announce(c, sent))
    ensures HistorySafe(Next(cfg, s, Announce(c, sent)))
  {
    var s' := Next(cfg, s, Announce(c, sent));
    var i := s.kitchen.busy[c];
    assert HandlerLogged(s.db.log, s.kitchen.deliveries[i]);
    IdleKeeps(s, s'.(notes := s.notes), i, s'.kitchen.deliveries[i]);
  }

  lemma TakeKeeps(cfg: Config, s: State, c: nat, m: nat)
    requires HistorySafe(s) && Enabled(cfg, s, Take(c, m))
    ensures HistorySafe(Next(cfg, s, Take(c, m)))
  {
    var k := s.kitchen;
    var s' := Next(cfg, s, Take(c, m));
    var d := s'.kitchen.deliveries[|k.deliveries|];
    forall n, w
      ensures Count(s'.kitchen.deliveries, Reached(n, w, 1)) == Count(k.deliveries, Reached(n, w, 1))
      ensures Count(s'.kitchen.deliveries, Reached(n, w, 2)) == Count(k.deliveries, Reached(n, w, 2))
    {
      Append(k.deliveries, d, Reached(n, w, 1));
      Append(k.deliveries, d, Reached(n, w, 2));
    }
    forall w
      ensures Count(s'.kitchen.deliveries, ReachedBy(w, 2)) == Count(k.deliveries, ReachedBy(w, 2))
      ensures Count(s'.kitchen.deliveries, CountedBy(w)) == Count(k.deliveries, CountedBy(w))
    {
      Append(k.deliveries, d, ReachedBy(w, 2));
      Append(k.deliveries, d, CountedBy(w));
    }
  }

  lemma IncrementKeeps(cfg: Config, s: State, c: nat, counted: bool)
    requires HistorySafe(s) && Enabled(cfg, s, Increment(c, counted))
    ensures HistorySafe(Next(cfg, s, Increment(c, counted)))
  {
    var k := s.kitchen;
    var s' := Next(cfg, s, Increment(c, counted));
    var i := k.busy[c];
    var d := s'.kitchen.deliveries[i];
    MatchedIdle(s.db.log, k.deliveries, i, d);
    assert HandlerLogged(s.db.log, k.deliveries[i]);
    forall w
      ensures Count(s'.kitchen.deliveries, CountedBy(w))
           == Count(k.deliveries, CountedBy(w)) + (if counted && w == d.worker then 1 else 0)
    {
      Update(k.deliveries, i, d, CountedBy(w));
    }
  }

  /** The entry Create writes is no worker's. */
  lemma StoreKeepsHistory(cfg: Config, s: State, i: nat, outcome: SqlOutcome, now: int)
    requires HistorySafe(s) && Enabled(cfg, s, Store(i, outcome, now)) && outcome != Aborted
    ensures HistorySafe(Next(cfg, s, Store(i, outcome, now)))
  {
    var log, ds := s.db.log, s.kitchen.deliveries;
    var row := LogRow(s.service.calls[i].req.number, Received, SERVICE_NAME, now);
    forall n, w
      ensures Count(log + [row], Entry(n, w, Cooking)) == Count(log, Entry(n, w, Cooking))
      ensures Count(log + [row], Entry(n, w, Ready)) == Count(log, Entry(n, w, Ready))
    {
      Append(log, row, Entry(n, w, Cooking));
      Append(log, row, Entry(n, w, Ready));
      assert log[..|log|] == log;
    }
    forall w
      ensures Count(log + [row], EntryBy(w, Ready)) == Count(log, EntryBy(w, Ready))
    {
      Append(log, row, EntryBy(w, Ready));
    }
    assert forall n, w :: Count(log, Entry(n, w, Ready)) <= Count(log, Entry(n, w, Cooking)) by {
      assert log[..|log|] == log;
    }
    CookedFirstGrows(log, row);
    NotesGrow(log, row, s.notes);
    forall j | 0 <= j < |ds|
      ensures HandlerLogged(log + [row], ds[j])
    {
      HandlerGrows(log, row, ds[j]);
    }
  }

  /** The handler that writes an entry finds it in the log, after the status it read. */
  lemma WriterLogged(db: Db, d: Delivery, d': Delivery, outcome: SqlOutcome, now: int)
    requires Consistent(db) && d.number in db.orders
    requires HandlerLogged(db.log, d) && outcome != Aborted
    requires d.phase.Taken? || d.phase.CookingTold?
    requires d' == d.(phase := AfterStatus(d.phase, outcome, db.orders[d.number].status))
    ensures HandlerLogged(SetStatus(db, d.number, d.worker, NextStatus(d.phase), now).log, d')
  {
    var row := LogRow(d.number, NextStatus(d.phase), d.worker, now);
    var log' := db.log + [row];
    assert OrderConsistent(db, d.number);
    LogAppend(db.log, row, d.number);
    var rows := LogOf(db.log, d.number);
    assert ChangeAt(LogOf(log', d.number), |rows| - 1, db.orders[d.number].status, row.status, d.worker);
    assert log'[|db.log|] == row;
    if d.phase.Taken? {
      assert Entry(d.number, d.worker, Cooking)(log'[|db.log|]);
    } else {
      var i :| 0 <= i < |db.log| && Entry(d.number, d.worker, Cooking)(db.log[i]);
      assert log'[i] == db.log[i];
      assert Entry(d.number, d.worker, Cooking)(log'[i]);
      assert Entry(d.number, d.worker, Ready)(log'[|db.log|]);
    }
  }

  lemma WriteKeeps(cfg: Config, s: State, c: nat, outcome: SqlOutcome, now: int)
    requires HistorySafe(s) && Consistent(s.db)
    requires Enabled(cfg, s, Write(c, outcome, now)) && outcome != Aborted
    ensures HistorySafe(Next(cfg, s, Write(c, outcome, now)))
  {
    var log, k := s.db.log, s.kitchen;
    var s' := Next(cfg, s, Write(c, outcome, now));
    var i := k.busy[c];
    var d, d' := k.deliveries[i], s'.kitchen.deliveries[i];
    var row := LogRow(d.number, NextStatus(d.phase), d.worker, now);
    assert s'.db.log == log + [row];
    MatchedWrite(log, k.deliveries, i, d'.phase, row);
    forall n, w
      ensures Count(log + [row], Entry(n, w, Ready)) <= Count(log + [row], Entry(n, w, Cooking))
    {
      FewerReached(s'.kitchen.deliveries, n, w);
    }
    CookedFirstGrows(log, row);
    CounterIdle(k, s'.kitchen, i, d');
    NotesGrow(log, row, s.notes);
    forall j | 0 <= j < |k.deliveries|
      ensures HandlerLogged(s'.db.log, s'.kitchen.deliveries[j])
    {
      assert HandlerLogged(log, k.deliveries[j]);
      if j == i {
        WriterLogged(s.db, d, d', outcome, now);
      } else {
        HandlerGrows(log, row, k.deliveries[j]);
      }
    }
  }

  /** Every step of the system keeps log, handlers and notifications in agreement. */
  lemma StepKeepsHistory(cfg: Config, s: State, e: Event)
    requires Enabled(cfg, s, e)
    requires HistorySafe(s) && Consistent(s.db)
    ensures HistorySafe(Next(cfg, s, e))
  {
    var k, s' := s.kitchen, Next(cfg, s, e);
    match e
    case Store(i, outcome, now) =>
      if outcome != Aborted {
        StoreKeepsHistory(cfg, s, i, outcome, now);
      }
    case Take(c, m) => TakeKeeps(cfg, s, c, m);
    case Drop(c) =>
      if Working(k, c) {
        IdleKeeps(s, s', k.busy[c], s'.kitchen.deliveries[k.busy[c]]);
      }
    case Settle(c) => IdleKeeps(s, s', k.busy[c], s'.kitchen.deliveries[k.busy[c]]);
    case Reject(c) => IdleKeeps(s, s', k.busy[c], s'.kitchen.deliveries[k.busy[c]]);
    case Write(c, outcome, now) =>
      if outcome == Aborted {
        IdleKeeps(s, s', k.busy[c], s'.kitchen.deliveries[k.busy[c]]);
      } else {
        WriteKeeps(cfg, s, c, outcome, now);
      }
    case Announce(c, sent) => AnnounceKeeps(cfg, s, c, sent);
    case Increment(c, counted) => IncrementKeeps(cfg, s, c, counted);
    case _ =>
  }
}
