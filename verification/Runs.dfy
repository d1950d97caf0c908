/** The main results about runs of the order protocol: statements about every state that any
    interleaving of the system's steps can reach. */
module Runs {
  import opened Text
  import opened Orders
  import opened Tables
  import opened Counting
  import opened Broker
  import opened Protocol
  import opened MessageSafety
  import opened ServiceSafety
  import opened KitchenHistory
  import opened QuietRuns
  import OrderNumber
  import Dto

  ghost predicate Reaches(cfg: Config, run: seq<Event>, s: State) {
    Exec(cfg, run) == Some(s)
  }

  ghost predicate AllQuiet(run: seq<Event>) {
    forall i :: 0 <= i < |run| ==> Quiet(run[i])
  }

  ghost predicate AllFaithful(run: seq<Event>) {
    forall i :: 0 <= i < |run| ==> Faithful(run[i])
  }

  /** Every reachable state satisfies the invariants of every step. */
  lemma {:induction false} ReachableSafe(cfg: Config, run: seq<Event>, s: State)
    requires Reaches(cfg, run, s)
    ensures Safe(cfg, s)
  {
    if run == [] {
      StartSafe();
      StartServiceSafe(cfg);
      StartHistorySafe();
    } else {
      var before := Exec(cfg, run[..|run| - 1]).value;
      var e := run[|run| - 1];
      ReachableSafe(cfg, run[..|run| - 1], before);
      StepKeepsMessages(cfg, before, e);
      StepKeepsService(cfg, before, e);
      StepKeepsHistory(cfg, before, e);
    }
  }

  lemma QuietStep(cfg: Config, s: State, e: Event)
    requires Enabled(cfg, s, e) && Quiet(e) && Safe(cfg, s) && QuietSafe(s)
    ensures QuietSafe(Next(cfg, s, e))
  {
    StepKeepsOneMessage(cfg, s, e);
    StepKeepsOneDelivery(cfg, s, e);
    HandlersApart(s);
    if e.Take? {
      TakeUnhandled(cfg, s, e.consumer, e.message);
    }
    StepKeepsOneLine(cfg, s, e);
  }

  lemma {:induction false} QuietReachable(cfg: Config, run: seq<Event>, s: State)
    requires Reaches(cfg, run, s) && AllQuiet(run)
    ensures QuietSafe(s)
  {
    if run != [] {
      var before := Exec(cfg, run[..|run| - 1]).value;
      QuietReachable(cfg, run[..|run| - 1], before);
      ReachableSafe(cfg, run[..|run| - 1], before);
      QuietStep(cfg, before, run[|run| - 1]);
    }
  }

  lemma ChainedStep(cfg: Config, s: State, e: Event)
    requires Enabled(cfg, s, e) && Faithful(e) && Safe(cfg, s) && QuietSafe(s)
    requires Chained(s.db.log, s.kitchen.deliveries, s.notes)
    ensures var s' := Next(cfg, s, e); Chained(s'.db.log, s'.kitchen.deliveries, s'.notes)
  {
    HandlersApart(s);
    if e.Take? {
      TakeUnhandled(cfg, s, e.consumer, e.message);
    }
    StepKeepsChained(cfg, s, e);
  }

  lemma {:induction false} FaithfulReachable(cfg: Config, run: seq<Event>, s: State)
    requires Reaches(cfg, run, s) && AllFaithful(run)
    ensures Chained(s.db.log, s.kitchen.deliveries, s.notes)
  {
    if run != [] {
      var front := run[..|run| - 1];
      var before := Exec(cfg, front).value;
      FaithfulReachable(cfg, front, before);
      QuietReachable(cfg, front, before);
      ReachableSafe(cfg, front, before);
      ChainedStep(cfg, before, run[|run| - 1]);
    }
  }

  // ---- messages ----

  /** Message `m` occurs once at place `p` and nowhere else. */
  ghost predicate OnlyAt(held: Held, m: nat, p: Place) {
    multiset(At(held, p))[m] == 1 && forall q :: q != p ==> m !in At(held, q)
  }

  lemma {:induction false} OccursOnce(s: seq<nat>, m: nat)
    requires Distinct(s)
    ensures multiset(s)[m] == if m in s then 1 else 0
  {
    if s != [] {
      var front := s[..|s| - 1];
      assert s == front + [s[|s| - 1]];
      assert s[|s| - 1] !in front;
      OccursOnce(front, m);
    }
  }

  /** In every run, each accepted message is in exactly one place, once: its type's queue,
      unacknowledged at one consumer of its type, acknowledged, or in its type's dead-letter
      queue. */
  lemma MessageConservation(cfg: Config, run: seq<Event>, s: State, m: nat)
    requires Reaches(cfg, run, s) && m < |s.exchange.messages|
    ensures exists p :: OnlyAt(s.exchange.held, m, p) && Fits(s.kitchen, p, s.exchange.messages[m].kind)
  {
    ReachableSafe(cfg, run, s);
    var held := s.exchange.held;
    assert Somewhere(held, m);
    var p :| In(held, p, m);
    assert Distinct(At(held, p));
    OccursOnce(At(held, p), m);
    forall q | q != p
      ensures m !in At(held, q)
    {
      assert !In(held, q, m);
    }
    assert OnlyAt(held, m, p);
  }

  /** A consumer has at most one delivery taken and not settled, and has settled no delivery
      whose handler had not finished. */
  lemma OneAtATime(cfg: Config, run: seq<Event>, s: State, i: nat, j: nat)
    requires Reaches(cfg, run, s) && i < |s.kitchen.deliveries| && j < |s.kitchen.deliveries|
    ensures var a, b := s.kitchen.deliveries[i], s.kitchen.deliveries[j];
      && (a.consumer == b.consumer && !a.settled && !b.settled ==> i == j)
      && (a.settled ==> Finished(a.phase))
  {
    ReachableSafe(cfg, run, s);
    assert DeliveryOk(s.exchange, s.kitchen, i) && DeliveryOk(s.exchange, s.kitchen, j);
  }

  /** The delivery that acknowledged a message. */
  lemma Acknowledger(ex: Exchange, k: Kitchen, m: nat) returns (i: nat)
    requires Loops(ex, k) && Outcomes(ex, k) && m < |ex.messages| && In(ex.held, Acked, m)
    ensures SettledBy(k, i, m, true) && k.deliveries[i].number == ex.messages[m].number
  {
    assert Settled(k, m, true);
    i :| SettledBy(k, i, m, true);
    assert DeliveryOk(ex, k, i);
  }

  ghost predicate CookedBy(s: State, i: nat, m: nat)
    requires m < |s.exchange.messages|
  {
    && SettledBy(s.kitchen, i, m, true)
    && HasPair(s.db.log, s.exchange.messages[m].number, s.kitchen.deliveries[i].worker)
  }

  /** A message is acknowledged exactly when a handler that succeeded has settled it, and lies in
      its dead-letter queue exactly when one that failed has; in the first case the worker's
      cooking entry, and later ready entry, are in the log of its order. */
  lemma SettledForCause(cfg: Config, run: seq<Event>, s: State, m: nat)
    requires Reaches(cfg, run, s) && m < |s.exchange.messages|
    ensures In(s.exchange.held, Acked, m) <==> Settled(s.kitchen, m, true)
    ensures In(s.exchange.held, Acked, m) ==> exists i :: CookedBy(s, i, m)
    ensures In(s.exchange.held, Dlq(s.exchange.messages[m].kind), m) <==> Settled(s.kitchen, m, false)
  {
    ReachableSafe(cfg, run, s);
    if In(s.exchange.held, Acked, m) {
      var i := Acknowledger(s.exchange, s.kitchen, m);
      assert HandlerLogged(s.db.log, s.kitchen.deliveries[i]);
      assert CookedBy(s, i, m);
    }
    forall i: nat, success | SettledBy(s.kitchen, i, m, success)
      ensures In(s.exchange.held, if success then Acked else Dlq(s.exchange.messages[m].kind), m)
    {
      assert DeliveryOk(s.exchange, s.kitchen, i);
    }
  }

  /** Of all the deliveries of a message, over every redelivery, at most one settles it. */
  lemma SettledAtMostOnce(cfg: Config, run: seq<Event>, s: State, m: nat, i: nat, j: nat, a: bool, b: bool)
    requires Reaches(cfg, run, s) && SettledBy(s.kitchen, i, m, a) && SettledBy(s.kitchen, j, m, b)
    ensures i == j
  {
    ReachableSafe(cfg, run, s);
  }

  lemma SettlementStays(cfg: Config, s: State, e: Event, i: nat)
    requires Enabled(cfg, s, e) && Loops(s.exchange, s.kitchen)
    requires i < |s.kitchen.deliveries| && s.kitchen.deliveries[i].settled
    ensures var ds' := Next(cfg, s, e).kitchen.deliveries; i < |ds'| && ds'[i] == s.kitchen.deliveries[i]
  {
    assert DeliveryOk(s.exchange, s.kitchen, i);
  }

  /** A message once acknowledged or dead-lettered stays so, whatever happens afterwards. */
  lemma SettledForGood(cfg: Config, run: seq<Event>, s: State, run': seq<Event>, s': State, m: nat)
    requires Reaches(cfg, run, s) && run <= run' && Reaches(cfg, run', s') && m < |s.exchange.messages|
    ensures In(s.exchange.held, Acked, m) ==> In(s'.exchange.held, Acked, m)
    ensures forall kind :: In(s.exchange.held, Dlq(kind), m) ==> In(s'.exchange.held, Dlq(kind), m)
  {
    MessagesStay(cfg, run, s, run', s');
    SettledForCause(cfg, run, s, m);
    SettledForCause(cfg, run', s', m);
    if Settled(s.kitchen, m, true) {
      SettlementsStay(cfg, run, s, run', s', m, true);
    }
    if Settled(s.kitchen, m, false) {
      SettlementsStay(cfg, run, s, run', s', m, false);
    }
    ReachableSafe(cfg, run, s);
    assert forall kind :: In(s.exchange.held, Dlq(kind), m) ==> Fits(s.kitchen, Dlq(kind), s.exchange.messages[m].kind);
  }

  lemma {:induction false} MessagesStay(cfg: Config, run: seq<Event>, s: State, run': seq<Event>, s': State)
    requires Reaches(cfg, run, s) && run <= run' && Reaches(cfg, run', s')
    ensures s.exchange.messages <= s'.exchange.messages
    decreases |run'|
  {
    if run' == run {
      assert s' == s;
    } else {
      var front := run'[..|run'| - 1];
      assert run <= front;
      MessagesStay(cfg, run, s, front, Exec(cfg, front).value);
    }
  }

  lemma {:induction false} SettlementsStay(cfg: Config, run: seq<Event>, s: State,
                                           run': seq<Event>, s': State, m: nat, success: bool)
    requires Reaches(cfg, run, s) && run <= run' && Reaches(cfg, run', s')
    requires Settled(s.kitchen, m, success)
    ensures Settled(s'.kitchen, m, success)
    decreases |run'|
  {
    if run' == run {
      assert s' == s;
    } else {
      var front, e := run'[..|run'| - 1], run'[|run'| - 1];
      assert run <= front;
      var before := Exec(cfg, front).value;
      SettlementsStay(cfg, run, s, front, before, m, success);
      ReachableSafe(cfg, front, before);
      var i :| SettledBy(before.kitchen, i, m, success);
      SettlementStays(cfg, before, e, i);
      assert SettledBy(s'.kitchen, i, m, success);
    }
  }

  /** Without drops and with publish errors meaning nothing was delivered, an order's statuses
      are always a prefix of received, cooking, ready. */
  lemma QuietStatusLine(cfg: Config, run: seq<Event>, s: State, n: string)
    requires Reaches(cfg, run, s) && AllQuiet(run) && n in s.db.orders
    ensures InLine(LogOf(s.db.log, n))
  {
    QuietReachable(cfg, run, s);
    assert OrderInLine(s.db, s.kitchen.deliveries, n);
  }

  /** In such a run, all three statuses are there once the order's message is acknowledged. */
  lemma QuietAcknowledged(cfg: Config, run: seq<Event>, s: State, m: nat)
    requires Reaches(cfg, run, s) && AllQuiet(run)
    requires m < |s.exchange.messages| && In(s.exchange.held, Acked, m)
    ensures |LogOf(s.db.log, s.exchange.messages[m].number)| == 3
  {
    ReachableSafe(cfg, run, s);
    var i := Acknowledger(s.exchange, s.kitchen, m);
    QuietReachable(cfg, run, s);
    assert HandlerInLine(s.db, s.kitchen.deliveries[i]);
  }

  // ---- tables ----

  /** In every reachable state an order's status is that of its last log entry, its log starts
      with its only `received`, completed_at is set exactly when the log has `ready`, and
      processed_by is the author of the last kitchen entry. */
  lemma RowsFollowLog(cfg: Config, run: seq<Event>, s: State, n: string)
    requires Reaches(cfg, run, s) && n in s.db.orders
    ensures var row, log := s.db.orders[n], LogOf(s.db.log, n);
      && log != [] && row.status == log[|log| - 1].status
      && (forall i :: 0 <= i < |log| ==> (log[i].status == Received <==> i == 0))
      && (row.completedAt.Some? <==> exists i :: 0 <= i < |log| && log[i].status == Ready)
      && (forall i :: 0 <= i < |log| && log[i].status == Ready
                      && (forall j :: i < j < |log| ==> log[j].status != Ready) ==>
            row.completedAt == Some(log[i].createdAt))
      && row.processedBy == (if |log| == 1 then None else Some(log[|log| - 1].changedBy))
  {
    ReachableSafe(cfg, run, s);
    assert OrderConsistent(s.db, n);
  }

  /** In every reachable state an order's total is the sum over its own item rows, and its
      priority is the one decided by that total. */
  lemma TotalsFollowItems(cfg: Config, run: seq<Event>, s: State, n: string)
    requires Reaches(cfg, run, s) && n in s.db.orders
    ensures s.db.orders[n].total == Total(ItemsOf(s.db.items, n))
    ensures (forall i :: i in ItemsOf(s.db.items, n) ==> i.quantity >= 0) ==>
      s.db.orders[n].total == Sum(UnitPrices(ItemsOf(s.db.items, n)))
    ensures var row := s.db.orders[n];
      && (row.priority == 10 <==> row.total > 100_00)
      && (row.priority == 5 <==> 50_00 < row.total <= 100_00)
      && (row.priority == 1 <==> row.total <= 50_00)
  {
    TotalFacts(ItemsOf(s.db.items, n));
    ReachableSafe(cfg, run, s);
    assert OrderConsistent(s.db, n);
  }

  // ---- cooking and ready entries ----

  /** A handler between its cooking and its ready entry. */
  function CookingNow(n: string, w: string): Delivery -> bool {
    (d: Delivery) => d.number == n && d.worker == w && (d.phase.CookingSet? || d.phase.CookingTold?)
  }

  function FailedCooking(n: string, w: string): Delivery -> bool {
    (d: Delivery) => d.number == n && d.worker == w && d.phase.Failed? && d.phase.statuses == 1
  }

  function Cooked(n: string, w: string): Delivery -> bool {
    (d: Delivery) => d.number == n && d.worker == w && Wrote(d.phase) == 1
  }

  lemma {:induction false} ReachedDifference(ds: seq<Delivery>, n: string, w: string)
    ensures Count(ds, Reached(n, w, 1)) == Count(ds, Reached(n, w, 2)) + Count(ds, Cooked(n, w))
    ensures Count(ds, Cooked(n, w)) == Count(ds, CookingNow(n, w)) + Count(ds, FailedCooking(n, w))
  {
    SplitCount(ds, Reached(n, w, 1), Reached(n, w, 2), Cooked(n, w));
    SplitCount(ds, Cooked(n, w), CookingNow(n, w), FailedCooking(n, w));
  }

  /** At every point of the log a worker's ready entries on an order never exceed its cooking
      entries; the difference is exactly its handlers now cooking plus those that failed after
      cooking. */
  lemma CookingReadyPairs(cfg: Config, run: seq<Event>, s: State, n: string, w: string)
    requires Reaches(cfg, run, s)
    ensures forall t :: 0 <= t <= |s.db.log| ==>
      Count(s.db.log[..t], Entry(n, w, Ready)) <= Count(s.db.log[..t], Entry(n, w, Cooking))
    ensures Count(s.db.log, Entry(n, w, Cooking)) - Count(s.db.log, Entry(n, w, Ready))
         == Count(s.kitchen.deliveries, CookingNow(n, w)) + Count(s.kitchen.deliveries, FailedCooking(n, w))
  {
    ReachableSafe(cfg, run, s);
    ReachedDifference(s.kitchen.deliveries, n, w);
  }

  /** Handlers of worker `w` whose ready entry stands but which have not (yet) been counted:
      before the increment, after a failed increment, or told that the ready write failed. */
  function BeforeIncrement(w: string): Delivery -> bool {
    (d: Delivery) => d.worker == w && (d.phase.ReadySet? || d.phase.ReadyTold?)
  }

  function FailedIncrement(w: string): Delivery -> bool {
    (d: Delivery) => d.worker == w && d.phase == Succeeded(false)
  }

  function Misreported(w: string): Delivery -> bool {
    (d: Delivery) => d.worker == w && d.phase.Failed? && d.phase.statuses >= 2
  }

  lemma {:induction false} ReadyHandlers(ds: seq<Delivery>, w: string)
    ensures Count(ds, ReachedBy(w, 2)) == Count(ds, CountedBy(w)) + Count(ds, BeforeIncrement(w))
      + Count(ds, FailedIncrement(w)) + Count(ds, Misreported(w))
  {
    if ds != [] {
      ReadyHandlers(ds[..|ds| - 1], w);
    }
  }

  /** orders_processed plus the increments that failed or are still to come equals the worker's
      ready entries over all orders. */
  lemma ProcessedCounter(cfg: Config, run: seq<Event>, s: State, w: string)
    requires Reaches(cfg, run, s) && w in s.kitchen.processed
    ensures var ds := s.kitchen.deliveries;
      s.kitchen.processed[w] + Count(ds, BeforeIncrement(w)) + Count(ds, FailedIncrement(w))
        + Count(ds, Misreported(w)) == Count(s.db.log, EntryBy(w, Ready))
  {
    ReachableSafe(cfg, run, s);
    ReadyHandlers(s.kitchen.deliveries, w);
  }

  // ---- notifications ----

  /** Every notification reports a change between neighbouring entries of its order's log. */
  lemma NotificationsTrue(cfg: Config, run: seq<Event>, s: State, i: nat)
    requires Reaches(cfg, run, s) && i < |s.notes|
    ensures var x := s.notes[i]; Changed(s.db.log, x.number, x.previous, x.current, x.changedBy)
  {
    ReachableSafe(cfg, run, s);
  }

  /** Without drops, misreported or failed publishes, the notifications of an order are its
      first status changes in order, so each old status is the previous new status. */
  lemma NotificationChain(cfg: Config, run: seq<Event>, s: State, n: string)
    requires Reaches(cfg, run, s) && AllFaithful(run)
    ensures Follows(NotesOf(s.notes, n), LogOf(s.db.log, n))
    ensures forall j :: 0 <= j < |NotesOf(s.notes, n)| - 1 ==>
      NotesOf(s.notes, n)[j].current == NotesOf(s.notes, n)[j + 1].previous
  {
    FaithfulReachable(cfg, run, s);
    assert OrderChained(s.db.log, s.kitchen.deliveries, s.notes, n);
    var xs, rows := NotesOf(s.notes, n), LogOf(s.db.log, n);
    forall j | 0 <= j < |xs| - 1
      ensures xs[j].current == xs[j + 1].previous
    {
      assert ChangeAt(rows, j, xs[j].previous, xs[j].current, xs[j].changedBy);
      var l := j + 1;
      assert ChangeAt(rows, l, xs[l].previous, xs[l].current, xs[l].changedBy);
    }
  }

  // ---- order numbers ----

  lemma {:induction false} IssuedMembers(issued: seq<(string, nat)>, date: string)
    ensures forall v: nat :: v in IssuedOn(issued, date) <==> (date, v) in issued
  {
    if issued != [] {
      IssuedMembers(issued[..|issued| - 1], date);
      assert issued == issued[..|issued| - 1] + [issued[|issued| - 1]];
    }
  }

  /** The values the sequence has committed for a day are exactly 1, 2, ..., last_value. */
  lemma SequenceWithoutGaps(cfg: Config, run: seq<Event>, s: State, date: string)
    requires Reaches(cfg, run, s)
    ensures var values, last := IssuedOn(s.service.issued, date), LastValue(s.service.sequences, date);
      |values| == last && forall i :: 0 <= i < last ==> values[i] == i + 1
    ensures forall v: nat :: (date, v) in s.service.issued <==> 1 <= v <= LastValue(s.service.sequences, date)
  {
    ReachableSafe(cfg, run, s);
    IssuedMembers(s.service.issued, date);
    var values := IssuedOn(s.service.issued, date);
    forall v: nat | 1 <= v <= LastValue(s.service.sequences, date)
      ensures v in values
    {
      assert values[v - 1] == v;
    }
  }

  /** Two calls get the same order number only if one of them drew it at random, and a random
      number meets a sequence number only once that day's counter has reached 10000. */
  lemma NumbersCollideOnlyByFallback(cfg: Config, run: seq<Event>, s: State, i: nat, j: nat)
    requires Reaches(cfg, run, s) && i < j < |s.service.calls|
    requires s.service.calls[i].numbered && s.service.calls[j].numbered
    requires s.service.calls[i].req.number == s.service.calls[j].req.number
    ensures var a, b := s.service.calls[i], s.service.calls[j];
      && (a.fallback || b.fallback)
      && a.date == b.date
      && (a.fallback != b.fallback ==> LastValue(s.service.sequences, a.date) >= 10000)
  {
    ReachableSafe(cfg, run, s);
    var a, b := s.service.calls[i], s.service.calls[j];
    assert CallOk(cfg, s.service, s.db, a) && CallOk(cfg, s.service, s.db, b);
    assert Apart(a, b);
    OrderNumber.FormatInjective(a.date, a.sequence, b.date, b.sequence);
  }

  // ---- CreateOrder ----

  /** With at least one publish attempt configured, a successful call has stored its order and
      exactly one of its publish calls succeeded; a failed one stored nothing, or stored its
      order with no publish call succeeding. Its request is stored as prepared. With no
      attempt configured, a successful call has published nothing. */
  lemma CreateOrderOutcome(cfg: Config, run: seq<Event>, s: State, i: nat)
    requires Reaches(cfg, run, s) && i < |s.service.calls| && s.service.calls[i].phase.Replied?
    ensures var c := s.service.calls[i];
      && (c.phase.ok ==> c.stored && c.oks == (if cfg.attempts > 0 then 1 else 0))
      && (!c.phase.ok ==> c.oks == 0)
      && (c.stored ==> StoredAs(s.db, c.req) && s.db.orders[c.req.number].total == Total(c.req.items))
  {
    ReachableSafe(cfg, run, s);
    assert CallOk(cfg, s.service, s.db, s.service.calls[i]);
  }

  /** Every message in the broker decodes to an order whose row and items the tables hold, so
      SetStatus never reports a missing order to a handler. */
  lemma MessagesNameStoredOrders(cfg: Config, run: seq<Event>, s: State)
    requires Reaches(cfg, run, s)
    ensures forall m :: 0 <= m < |s.exchange.messages| ==> StoredAs(s.db, Dto.Decode(s.exchange.messages[m]))
    ensures forall d :: d in s.kitchen.deliveries ==> d.number in s.db.orders
  {
    ReachableSafe(cfg, run, s);
    forall i: nat | i < |s.kitchen.deliveries|
      ensures s.kitchen.deliveries[i].number in s.db.orders
    {
      assert DeliveryOk(s.exchange, s.kitchen, i);
      assert StoredAs(s.db, Dto.Decode(s.exchange.messages[s.kitchen.deliveries[i].message]));
    }
  }

  // ---- permits ----

  /** Permits in use are the calls between a successful acquire and their return; they never
      exceed the maximum, and a call that must release one never blocks. */
  lemma PermitsBounded(cfg: Config, run: seq<Event>, s: State)
    requires Reaches(cfg, run, s)
    ensures s.service.used == Count(s.service.calls, Permit()) <= cfg.maxConcurrent
    ensures forall c :: c in s.service.calls && HoldsPermit(c) ==> s.service.used > 0
  {
    ReachableSafe(cfg, run, s);
    Positive(s.service.calls, Permit());
    forall i | 0 <= i < |s.service.calls| && HoldsPermit(s.service.calls[i])
      ensures s.service.used > 0
    {
      assert Permit()(s.service.calls[i]);
    }
  }
}
