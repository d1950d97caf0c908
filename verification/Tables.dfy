/** The orders, order_items and order_status_log tables, and the two transactions that write
    them. A transaction either takes its whole effect or none; the surrogate order id is
    identified with the unique order number. */
module Tables {
  import opened Text
  import opened Orders
  import opened Counting

  datatype OrderRow = OrderRow(
    number: string,
    customer: string,
    kind: string,
    table: Option<int>,
    address: Option<string>,
    total: int,
    priority: int,
    status: Status,
    processedBy: Option<string>,
    completedAt: Option<int>)

  datatype ItemRow = ItemRow(number: string, item: Item)

  datatype LogRow = LogRow(number: string, status: Status, changedBy: string, createdAt: int)

  datatype Db = Db(orders: map<string, OrderRow>, items: seq<ItemRow>, log: seq<LogRow>)

  function Logged(number: string): LogRow -> bool { (r: LogRow) => r.number == number }

  /** The log rows of one order, oldest first. */
  function LogOf(log: seq<LogRow>, number: string): seq<LogRow> {
    Filter(log, Logged(number))
  }

  /** The items of one order, in insertion order. */
  function ItemsOf(rows: seq<ItemRow>, number: string): seq<Item> {
    if rows == [] then []
    else
      var last := rows[|rows| - 1];
      ItemsOf(rows[..|rows| - 1], number) + if last.number == number then [last.item] else []
  }

  function ItemRows(number: string, items: seq<Item>): (rows: seq<ItemRow>)
    ensures |rows| == |items|
  {
    seq(|items|, i requires 0 <= i < |items| => ItemRow(number, items[i]))
  }

  /** What the unique constraint on the number and the check on the type demand. */
  predicate CanCreate(db: Db, req: Request) {
    req.number !in db.orders && req.kind in AllOrderTypes
  }

  function NewRow(req: Request): OrderRow {
    OrderRow(req.number, req.customer, req.kind, req.table, req.address,
             req.total, req.priority, req.status, None, None)
  }

  function Create(db: Db, req: Request, changedBy: string, now: int): Db
    requires CanCreate(db, req)
  {
    Db(db.orders[req.number := NewRow(req)],
       db.items + ItemRows(req.number, req.items),
       db.log + [LogRow(req.number, Received, changedBy, now)])
  }

  function SetStatus(db: Db, number: string, worker: string, status: Status, now: int): Db
    requires number in db.orders
  {
    var row := db.orders[number];
    var done := if status == Ready then Some(now) else row.completedAt;
    db.(orders := db.orders[number :=
          row.(status := status, processedBy := Some(worker), completedAt := done)],
        log := db.log + [LogRow(number, status, worker, now)])
  }

  /** When the log last says `ready`. */
  function LastReady(log: seq<LogRow>): (t: Option<int>)
    ensures t.Some? <==> exists i :: 0 <= i < |log| && log[i].status == Ready
    ensures forall i :: 0 <= i < |log| && log[i].status == Ready
                        && (forall j :: i < j < |log| ==> log[j].status != Ready) ==>
      t == Some(log[i].createdAt)
  {
    if log == [] then None
    else if log[|log| - 1].status == Ready then
      Some(log[|log| - 1].createdAt)
    else
      var front := log[..|log| - 1];
      assert forall i :: 0 <= i < |front| ==> front[i] == log[i];
      LastReady(front)
  }

  /** The row of an order agrees with its part of the log. */
  ghost predicate RowFollowsLog(row: OrderRow, log: seq<LogRow>) {
    && log != []
    && log[0].status == Received
    && (forall i :: 1 <= i < |log| ==> log[i].status == Cooking || log[i].status == Ready)
    && row.status == log[|log| - 1].status
    && row.completedAt == LastReady(log)
    && row.processedBy == (if |log| == 1 then None else Some(log[|log| - 1].changedBy))
  }

  /** The row of an order agrees with its item rows. */
  ghost predicate RowFollowsItems(row: OrderRow, items: seq<Item>) {
    row.total == Total(items) && row.priority == PriorityFor(row.total)
  }

  ghost predicate OrderConsistent(db: Db, n: string) {
    if n in db.orders then
      && db.orders[n].number == n
      && db.orders[n].kind in AllOrderTypes
      && RowFollowsLog(db.orders[n], LogOf(db.log, n))
      && RowFollowsItems(db.orders[n], ItemsOf(db.items, n))
    else
      LogOf(db.log, n) == [] && ItemsOf(db.items, n) == []
  }

  ghost predicate Consistent(db: Db) {
    forall n :: OrderConsistent(db, n)
  }

  const EmptyDb := Db(map[], [], [])

  lemma EmptyConsistent()
    ensures Consistent(EmptyDb)
  {}

  lemma {:induction false} ItemsAppend(rows: seq<ItemRow>, more: seq<ItemRow>, n: string)
    ensures ItemsOf(rows + more, n) == ItemsOf(rows, n) + ItemsOf(more, n)
  {
    if more == [] {
      assert rows + more == rows;
    } else {
      var front := more[..|more| - 1];
      assert (rows + more)[..|rows + more| - 1] == rows + front;
      ItemsAppend(rows, front, n);
    }
  }

  lemma {:induction false} ItemsOfRows(number: string, items: seq<Item>, n: string)
    ensures ItemsOf(ItemRows(number, items), n) == if n == number then items else []
  {
    if items != [] {
      var front := items[..|items| - 1];
      var rows := ItemRows(number, items);
      assert rows[..|rows| - 1] == ItemRows(number, front);
      ItemsOfRows(number, front, n);
      assert items == front + [items[|items| - 1]];
    }
  }

  /** Every log row appended to the table is appended to its own order's log only. */
  lemma LogAppend(log: seq<LogRow>, row: LogRow, n: string)
    ensures LogOf(log + [row], n) == LogOf(log, n) + (if row.number == n then [row] else [])
  {
    Append(log, row, Logged(n));
  }

  /** What Create adds to the log and to the items, order by order. */
  lemma CreateEffect(db: Db, req: Request, changedBy: string, now: int, n: string)
    requires CanCreate(db, req)
    ensures var db' := Create(db, req, changedBy, now);
      var row := LogRow(req.number, Received, changedBy, now);
      && LogOf(db'.log, n) == LogOf(db.log, n) + (if n == req.number then [row] else [])
      && ItemsOf(db'.items, n) == ItemsOf(db.items, n) + (if n == req.number then req.items else [])
  {
    LogAppend(db.log, LogRow(req.number, Received, changedBy, now), n);
    ItemsAppend(db.items, ItemRows(req.number, req.items), n);
    ItemsOfRows(req.number, req.items, n);
  }

  lemma FirstEntry(row: OrderRow, entry: LogRow)
    requires entry.status == Received == row.status
    requires row.completedAt == None && row.processedBy == None
    ensures RowFollowsLog(row, [entry])
  {
    assert LastReady([entry][..0]) == None;
  }

  /** A stored order starts with its one `received` entry and exactly the requested items. */
  lemma CreateConsistent(db: Db, req: Request, changedBy: string, now: int)
    requires Consistent(db) && CanCreate(db, req)
    requires req.total == Total(req.items) && req.priority == PriorityFor(req.total)
    requires req.status == Received
    ensures Consistent(Create(db, req, changedBy, now))
  {
    var db' := Create(db, req, changedBy, now);
    forall n
      ensures OrderConsistent(db', n)
    {
      assert OrderConsistent(db, n);
      CreateEffect(db, req, changedBy, now, n);
      if n == req.number {
        FirstEntry(NewRow(req), LogRow(req.number, Received, changedBy, now));
        assert LogOf(db'.log, n) == [LogRow(req.number, Received, changedBy, now)];
        assert ItemsOf(db'.items, n) == req.items;
      } else {
        assert LogOf(db'.log, n) == LogOf(db.log, n);
        assert ItemsOf(db'.items, n) == ItemsOf(db.items, n);
      }
    }
  }

  lemma LastReadyAppend(log: seq<LogRow>, row: LogRow)
    ensures LastReady(log + [row])
         == if row.status == Ready then Some(row.createdAt) else LastReady(log)
  {
    assert (log + [row])[..|log|] == log;
  }

  lemma NextEntry(row: OrderRow, log: seq<LogRow>, entry: LogRow)
    requires RowFollowsLog(row, log) && (entry.status == Cooking || entry.status == Ready)
    ensures RowFollowsLog(
      row.(status := entry.status, processedBy := Some(entry.changedBy),
           completedAt := if entry.status == Ready then Some(entry.createdAt) else row.completedAt),
      log + [entry])
  {
    LastReadyAppend(log, entry);
  }

  lemma SetStatusConsistent(db: Db, number: string, worker: string, status: Status, now: int)
    requires Consistent(db) && number in db.orders
    requires status == Cooking || status == Ready
    ensures Consistent(SetStatus(db, number, worker, status, now))
  {
    var db' := SetStatus(db, number, worker, status, now);
    var entry := LogRow(number, status, worker, now);
    forall n
      ensures OrderConsistent(db', n)
    {
      assert OrderConsistent(db, n);
      LogAppend(db.log, entry, n);
      if n == number {
        NextEntry(db.orders[n], LogOf(db.log, n), entry);
      }
    }
  }
}
