/** The tracking views of an order: its current status and its history, as queries on the log. */
module Tracking {
  import opened Text
  import opened Orders
  import opened Tables
  import opened Protocol
  import opened ServiceSafety
  import opened QuietRuns
  import opened Runs

  /** A row that `ORDER BY created_at DESC` may put first among the rows of an order. */
  ghost predicate IsCurrent(log: seq<LogRow>, n: string, r: LogRow) {
    var rows := LogOf(log, n);
    r in rows && forall x :: x in rows ==> x.createdAt <= r.createdAt
  }

  ghost predicate Increasing(rows: seq<LogRow>) {
    forall i, j :: 0 <= i < j < |rows| ==> rows[i].createdAt < rows[j].createdAt
  }

  /** In every reachable state, if an order's log timestamps increase strictly, GetCurrent has
      exactly one row to return: the last entry, whose status is the order's status. */
  lemma CurrentStatusAgrees(cfg: Config, run: seq<Event>, s: State, n: string, r: LogRow)
    requires Reaches(cfg, run, s) && n in s.db.orders && Increasing(LogOf(s.db.log, n))
    ensures var rows := LogOf(s.db.log, n);
      && rows != []
      && (IsCurrent(s.db.log, n, r) <==> r == rows[|rows| - 1])
      && (IsCurrent(s.db.log, n, r) ==> r.status == s.db.orders[n].status)
  {
    RowsFollowLog(cfg, run, s, n);
    var rows := LogOf(s.db.log, n);
    assert rows[|rows| - 1] in rows;
  }

  /** The two queries report a missing order exactly for numbers that are not stored. */
  lemma MissingExactlyWhenNotStored(cfg: Config, run: seq<Event>, s: State, n: string)
    requires Reaches(cfg, run, s)
    ensures LogOf(s.db.log, n) == [] <==> n !in s.db.orders
  {
    ReachableSafe(cfg, run, s);
    assert OrderConsistent(s.db, n);
  }
}
