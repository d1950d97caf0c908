/** The order repository: three transactions over the order tables and the day sequences, each
    statement of which may fail. A transaction works on a copy and commits it at the end. */
module Database {
  import opened Text
  import opened Orders
  import Tables

  datatype StatusResult = Changed(previous: Status) | NotFound | Failed

  class OrderRepository {
    var orders: map<string, Tables.OrderRow>
    var items: seq<Tables.ItemRow>
    var log: seq<Tables.LogRow>
    var sequences: map<string, nat>

    function Contents(): Tables.Db
      reads this
    {
      Tables.Db(orders, items, log)
    }

    constructor ()
      ensures Contents() == Tables.EmptyDb && sequences == map[]
    {
      orders, items, log, sequences := map[], [], [], map[];
    }

    /** Statement k fails when `fails(k)`: the begin, the order, each item, the log entry, the
        commit. */
    method Create(req: Request, changedBy: string, now: int, fails: nat -> bool)
      returns (r: Option<Tables.OrderRow>)
      modifies this
      ensures sequences == old(sequences)
      ensures r.Some? <==>
        (Tables.CanCreate(old(Contents()), req) && forall k: nat :: k <= |req.items| + 3 ==> !fails(k))
      ensures r.Some? ==> r.value == Tables.NewRow(req)
      ensures Contents() == if r.Some? then Tables.Create(old(Contents()), req, changedBy, now)
                            else old(Contents())
    {
      if fails(0) {
        return None;
      }
      if fails(1) || req.number in orders || req.kind !in AllOrderTypes {
        return None;
      }
      var row := Tables.NewRow(req);
      var orders' := orders[req.number := row];
      var items' := items;
      for i := 0 to |req.items|
        invariant items' == items + Tables.ItemRows(req.number, req.items[..i])
        invariant forall k: nat :: k < i + 2 ==> !fails(k)
        invariant Contents() == old(Contents()) && sequences == old(sequences)
      {
        if fails(i + 2) {
          return None;
        }
        items' := items' + [Tables.ItemRow(req.number, req.items[i])];
        assert Tables.ItemRows(req.number, req.items[..i + 1])
            == Tables.ItemRows(req.number, req.items[..i]) + [Tables.ItemRow(req.number, req.items[i])];
      }
      assert req.items[..|req.items|] == req.items;
      if fails(|req.items| + 2) {
        return None;
      }
      var log' := log + [Tables.LogRow(req.number, Received, changedBy, now)];
      if fails(|req.items| + 3) {
        return None;
      }
      orders, items, log := orders', items', log';
      return Some(row);
    }

    method GetAndIncrementSequence(date: string, fails: nat -> bool) returns (r: Option<nat>)
      modifies this
      ensures Contents() == old(Contents())
      ensures r.Some? <==> !fails(0) && !fails(1) && !fails(2)
      ensures r.Some? ==> r.value == 1 + (if date in old(sequences) then old(sequences)[date] else 0)
      ensures sequences == if r.Some? then old(sequences)[date := r.value] else old(sequences)
    {
      if fails(0) || fails(1) {
        return None;
      }
      var next := if date in sequences then sequences[date] + 1 else 1;
      if fails(2) {
        return None;
      }
      sequences := sequences[date := next];
      return Some(next);
    }

    method SetStatus(number: string, worker: string, status: Status, now: int, fails: nat -> bool)
      returns (r: StatusResult)
      modifies this
      ensures sequences == old(sequences)
      ensures r.Changed? <==> number in old(orders) && forall k: nat :: k <= 3 ==> !fails(k)
      ensures r.NotFound? <==> number !in old(orders) && !fails(0) && !fails(1)
      ensures r.Changed? ==> r.previous == old(orders)[number].status
      ensures Contents() == if r.Changed? then Tables.SetStatus(old(Contents()), number, worker, status, now)
                            else old(Contents())
    {
      if fails(0) || fails(1) {
        return Failed;
      }
      if number !in orders {
        return NotFound;
      }
      var row := orders[number];
      var row' := row.(status := status, processedBy := Some(worker));
      if status == Ready {
        row' := row'.(completedAt := Some(now));
      }
      if fails(2) || fails(3) {
        return Failed;
      }
      orders := orders[number := row'];
      log := log + [Tables.LogRow(number, status, worker, now)];
      return Changed(row.status);
    }
  }
}
