/** The workers table: registration as a conditional upsert, heartbeats, the orders_processed
    counter, and the view of it that tracking serves. Times are whole seconds. */
module Workers {
  import opened Text

  datatype Row = Row(kinds: string, online: bool, lastSeen: int, processed: nat)

  /** The guard of the upsert: no row, an offline row, or one not seen for longer than twice the
      claimant's heartbeat. */
  predicate CanClaim(row: Option<Row>, now: int, heartbeat: nat) {
    match row
    case None => true
    case Some(r) => !r.online || r.lastSeen < now - 2 * heartbeat
  }

  /** The row after a successful registration; an existing counter is kept. */
  function Claimed(row: Option<Row>, kinds: string, now: int): Row {
    match row
    case None => Row(kinds, true, now, 0)
    case Some(r) => r.(kinds := kinds, online := true, lastSeen := now)
  }

  function Lookup(rows: map<string, Row>, name: string): Option<Row> {
    if name in rows then Some(rows[name]) else None
  }

  datatype UpdateError = QueryFailed | NoRows | AlreadyOnline

  /** `works` says whether the database executes the statement; a failed one changes nothing. */
  class WorkerTable {
    var rows: map<string, Row>

    constructor ()
      ensures rows == map[]
    {
      rows := map[];
    }

    method MarkOnline(name: string, kinds: string, heartbeat: nat, now: int, works: bool)
      returns (error: Option<UpdateError>)
      modifies this
      ensures error == None <==> works && CanClaim(old(Lookup(rows, name)), now, heartbeat)
      ensures error == Some(AlreadyOnline) ==> name in rows && rows[name].online && now - rows[name].lastSeen <= 2 * heartbeat
      ensures rows == if error == None then old(rows)[name := Claimed(old(Lookup(rows, name)), kinds, now)] else old(rows)
      ensures error == None ==> var r := rows[name];
        && r.kinds == kinds && r.online && r.lastSeen == now
        && r.processed == if name in old(rows) then old(rows)[name].processed else 0
    {
      if !works {
        return Some(QueryFailed);
      }
      if name !in rows {
        rows := rows[name := Row(kinds, true, now, 0)];
        return None;
      }
      var r := rows[name];
      if !r.online || r.lastSeen < now - 2 * heartbeat {
        rows := rows[name := r.(kinds := kinds, online := true, lastSeen := now)];
        return None;
      }
      return Some(AlreadyOnline);
    }

    method UpdateLastSeen(name: string, now: int, works: bool) returns (error: Option<UpdateError>)
      modifies this
      ensures error == None <==> works && name in old(rows)
      ensures rows == if error == None then old(rows)[name := old(rows)[name].(lastSeen := now)] else old(rows)
    {
      if !works {
        return Some(QueryFailed);
      }
      if name !in rows {
        return Some(NoRows);
      }
      rows := rows[name := rows[name].(lastSeen := now)];
      return None;
    }

    method IncrOrdersProcessed(name: string, works: bool) returns (error: Option<UpdateError>)
      modifies this
      ensures error == None <==> works && name in old(rows)
      ensures rows == if error == None
                      then old(rows)[name := old(rows)[name].(processed := old(rows)[name].processed + 1)]
                      else old(rows)
    {
      if !works {
        return Some(QueryFailed);
      }
      if name !in rows {
        return Some(NoRows);
      }
      rows := rows[name := rows[name].(processed := rows[name].processed + 1)];
      return None;
    }

    method MarkOffline(name: string, now: int, works: bool) returns (error: Option<UpdateError>)
      modifies this
      ensures error == None <==> works && name in old(rows)
      ensures rows == if error == None
                      then old(rows)[name := old(rows)[name].(online := false, lastSeen := now)]
                      else old(rows)
      ensures error == None ==> forall t: int, h: nat :: CanClaim(Lookup(rows, name), t, h)
    {
      if !works {
        return Some(QueryFailed);
      }
      if name !in rows {
        return Some(NoRows);
      }
      rows := rows[name := rows[name].(online := false, lastSeen := now)];
      return None;
    }
  }

  /** The staleness rule of ListWorkers. */
  function Shown(r: Row, now: int, threshold: int): Row {
    if now - r.lastSeen > threshold then r.(online := false) else r
  }

  /** ListWorkers over the rows it has fetched. */
  method ListWorkers(workers: array<Row>, now: int, threshold: int)
    modifies workers
    ensures forall i :: 0 <= i < workers.Length ==> workers[i] == Shown(old(workers[i]), now, threshold)
    ensures forall i :: 0 <= i < workers.Length ==>
      && workers[i] == old(workers[i]).(online := workers[i].online)
      && (workers[i].online <==> old(workers[i]).online && now - old(workers[i]).lastSeen <= threshold)
  {
    for i := 0 to workers.Length
      invariant forall k :: 0 <= k < i ==> workers[k] == Shown(old(workers[k]), now, threshold)
      invariant forall k :: i <= k < workers.Length ==> workers[k] == old(workers[k])
    {
      if now - workers[i].lastSeen > threshold {
        workers[i] := workers[i].(online := false);
      }
    }
  }

  /** Tracking and registration agree on who is gone: a worker shown online cannot lose its name
      to any claimant, exactly when the tracking threshold is at most twice the heartbeat. */
  lemma ShownOnlineIsSafe(threshold: int, heartbeat: nat)
    ensures threshold <= 2 * heartbeat <==>
      forall r: Row, now: int :: Shown(r, now, threshold).online ==> !CanClaim(Some(r), now, heartbeat)
  {
    if threshold > 2 * heartbeat {
      var r := Row("", true, 0, 0);
      assert Shown(r, threshold, threshold).online && CanClaim(Some(r), threshold, heartbeat);
    }
  }
}
