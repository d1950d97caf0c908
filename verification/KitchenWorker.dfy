/** A kitchen worker as its methods run when nothing interrupts them, and the agreement of its
    handler with the steps that the order protocol interleaves. */
module KitchenWorker {
  import opened Text
  import opened Orders
  import Consumer
  import Database
  import Lifecycle
  import Protocol
  import Steps
  import Tables
  import Workers

  /** Which foreign calls fail: statements of the two status transactions, the two
      announcements, the increment. */
  datatype Faults = Faults(cooking: nat -> bool, tellCooking: bool, ready: nat -> bool, tellReady: bool, increment: bool)

  predicate Works(fails: nat -> bool) {
    !fails(0) && !fails(1) && !fails(2) && !fails(3)
  }

  /** The time of the last heartbeat that worked, if any. */
  function LastBeat(ticks: seq<(int, bool)>, before: int): int {
    if ticks == [] then before
    else if ticks[|ticks| - 1].1 then ticks[|ticks| - 1].0
    else LastBeat(ticks[..|ticks| - 1], before)
  }

  /** Heartbeat `i` worked and no later one did. */
  predicate WorkedLast(ticks: seq<(int, bool)>, i: int) {
    0 <= i < |ticks| && ticks[i].1 && forall j :: i < j < |ticks| ==> !ticks[j].1
  }

  predicate NoneWorked(ticks: seq<(int, bool)>) {
    forall j :: 0 <= j < |ticks| ==> !ticks[j].1
  }

  /** Heartbeats that fail are passed over: it is the last that works that counts. */
  lemma {:induction false} LastBeatThatWorks(ticks: seq<(int, bool)>, before: int)
    ensures forall i :: WorkedLast(ticks, i) ==> LastBeat(ticks, before) == ticks[i].0
    ensures NoneWorked(ticks) ==> LastBeat(ticks, before) == before
  {
    if ticks != [] && !ticks[|ticks| - 1].1 {
      var front := ticks[..|ticks| - 1];
      LastBeatThatWorks(front, before);
      assert forall i :: 0 <= i < |front| ==> front[i] == ticks[i];
      assert forall i :: WorkedLast(ticks, i) ==> WorkedLast(front, i);
    }
  }

  class KitchenWorker {
    const name: string
    const orderTypes: seq<string>
    const heartbeat: nat
    const repo: Database.OrderRepository
    const table: Workers.WorkerTable
    var notes: seq<Protocol.Note>
    var isWorking: bool
    var stopping: bool      // the channel is closed
    var cancelled: bool     // the context that Work made
    var activeOrders: nat

    constructor (name: string, orderTypes: seq<string>, heartbeat: nat,
                 repo: Database.OrderRepository, table: Workers.WorkerTable)
      ensures this.name == name && this.orderTypes == orderTypes && this.heartbeat == heartbeat
      ensures this.repo == repo && this.table == table
      ensures notes == [] && !isWorking && !stopping && !cancelled && activeOrders == 0
    {
      this.name, this.orderTypes, this.heartbeat := name, orderTypes, heartbeat;
      this.repo, this.table := repo, table;
      notes, isWorking, stopping, cancelled, activeOrders := [], false, false, false, 0;
    }

    /** Registers the worker under its name, unless it is working already. */
    method MarkOnline(now: int, works: bool) returns (error: Option<Workers.UpdateError>)
      modifies this`isWorking, table
      ensures error == None <==>
        !old(isWorking) && works && Workers.CanClaim(old(Workers.Lookup(table.rows, name)), now, heartbeat)
      ensures old(isWorking) ==> error == Some(Workers.AlreadyOnline)
      ensures isWorking == (old(isWorking) || error == None)
      ensures table.rows ==
        if error == None
        then old(table.rows)[name := Workers.Claimed(old(Workers.Lookup(table.rows, name)), Join(orderTypes, ","), now)]
        else old(table.rows)
    {
      if isWorking {
        return Some(Workers.AlreadyOnline);
      }
      error := table.MarkOnline(name, Join(orderTypes, ","), heartbeat, now, works);
      if error == None {
        isWorking := true;
      }
    }

    /** The heartbeats until the context ends: `ticks` are their times and whether the statement
        worked. Afterwards last_seen is the time of the last that did. */
    method HeartbeatLoop(ticks: seq<(int, bool)>)
      modifies table
      ensures table.rows ==
        if name in old(table.rows)
        then old(table.rows)[name := old(table.rows)[name].(lastSeen := LastBeat(ticks, old(table.rows)[name].lastSeen))]
        else old(table.rows)
      ensures name in old(table.rows) ==>
        && (forall i :: WorkedLast(ticks, i) ==> table.rows[name].lastSeen == ticks[i].0)
        && (NoneWorked(ticks) ==> table.rows[name].lastSeen == old(table.rows)[name].lastSeen)
    {
      var was := table.rows;
      for i := 0 to |ticks|
        invariant table.rows ==
          if name in was then was[name := was[name].(lastSeen := LastBeat(ticks[..i], was[name].lastSeen))] else was
      {
        var ignored := table.UpdateLastSeen(name, ticks[i].0, ticks[i].1);
        assert ticks[..i + 1][..i] == ticks[..i];
      }
      assert ticks[..|ticks|] == ticks;
      if name in was {
        LastBeatThatWorks(ticks, was[name].lastSeen);
      }
    }

    /** Stops the worker once no order is active, as Wait sees to. `own`: called with the context
        that it cancels itself. The end is the one that its steps in Lifecycle come to. */
    method Stop(own: bool, now: int, works: bool) returns (end: Lifecycle.StopPc)
      requires isWorking && !stopping ==> activeOrders == 0
      modifies this`isWorking, this`stopping, this`cancelled, table
      ensures end == Lifecycle.StopEnd(old(isWorking), old(stopping), works && !own && name in old(table.rows))
      ensures isWorking == (old(isWorking) && end != Lifecycle.MarkedOffline)
      ensures stopping == (old(stopping) || old(isWorking))
      ensures cancelled == (old(cancelled) || end == Lifecycle.MarkedOffline || end == Lifecycle.OfflineFailed)
      ensures table.rows ==
        if end == Lifecycle.MarkedOffline
        then old(table.rows)[name := old(table.rows)[name].(online := false, lastSeen := now)]
        else old(table.rows)
    {
      if !isWorking {
        return Lifecycle.NothingToDo;
      }
      if stopping {
        return Lifecycle.Panicked;
      }
      stopping := true;
      cancelled := true;
      var error := table.MarkOffline(name, now, works && !(own && cancelled));
      if error != None {
        return Lifecycle.OfflineFailed;
      }
      isWorking := false;
      return Lifecycle.MarkedOffline;
    }

    method Tell(number: string, previous: Status, current: Status, fails: bool)
      modifies this`notes
      ensures notes == old(notes) + (if fails then [] else [Protocol.Note(number, previous, current, name)])
    {
      if !fails {
        notes := notes + [Protocol.Note(number, previous, current, name)];
      }
    }

    /** Cooks an order. A failed status change ends the handler with what was written so far; a
        failed announcement or increment does not. */
    method ProcessOrder(req: Option<Request>, cookedAt: int, readyAt: int, f: Faults)
      returns (error: Option<Consumer.HandlerError>)
      modifies this`notes, repo, table
      ensures req.None? ==>
        error == Some(Consumer.NilOrder) && repo.Contents() == old(repo.Contents()) && notes == old(notes)
      ensures req.Some? ==>
        error == if req.value.number in old(repo.orders) && Works(f.cooking) && Works(f.ready) then None
                 else Some(Consumer.StatusFailed)
      ensures error == None ==> var n, db := req.value.number, old(repo.Contents());
        && repo.Contents() == Tables.SetStatus(Tables.SetStatus(db, n, name, Cooking, cookedAt), n, name, Ready, readyAt)
        && notes == old(notes)
             + (if f.tellCooking then [] else [Protocol.Note(n, db.orders[n].status, Cooking, name)])
             + (if f.tellReady then [] else [Protocol.Note(n, Cooking, Ready, name)])
      ensures req.Some? && error != None ==> var n, db := req.value.number, old(repo.Contents());
        if n in db.orders && Works(f.cooking)
        then
          && repo.Contents() == Tables.SetStatus(db, n, name, Cooking, cookedAt)
          && notes == old(notes)
               + (if f.tellCooking then [] else [Protocol.Note(n, db.orders[n].status, Cooking, name)])
        else repo.Contents() == db && notes == old(notes)
      ensures table.rows ==
        if error == None && !f.increment && name in old(table.rows)
        then old(table.rows)[name := old(table.rows)[name].(processed := old(table.rows)[name].processed + 1)]
        else old(table.rows)
    {
      if req.None? {
        return Some(Consumer.NilOrder);
      }
      var n := req.value.number;
      var cooking := repo.SetStatus(n, name, Cooking, cookedAt, f.cooking);
      if !cooking.Changed? {
        return Some(Consumer.StatusFailed);
      }
      Tell(n, cooking.previous, Cooking, f.tellCooking);
      var ready := repo.SetStatus(n, name, Ready, readyAt, f.ready);
      if !ready.Changed? {
        return Some(Consumer.StatusFailed);
      }
      Tell(n, ready.previous, Ready, f.tellReady);
      var ignored := table.IncrOrdersProcessed(name, !f.increment);
      return None;
    }

    /** Refuses the order once the worker is stopping, without touching anything; otherwise the
        order is counted as active exactly while it is processed. */
    method ProcessOrderWrapper(req: Option<Request>, cookedAt: int, readyAt: int, f: Faults)
      returns (error: Option<Consumer.HandlerError>)
      modifies this, repo, table
      ensures activeOrders == old(activeOrders) && stopping == old(stopping)
      ensures isWorking == old(isWorking) && cancelled == old(cancelled)
      ensures stopping ==>
        && error == Some(Consumer.Stopping) && repo.Contents() == old(repo.Contents())
        && notes == old(notes) && table.rows == old(table.rows)
      ensures error == None <==>
        !stopping && req.Some? && req.value.number in old(repo.orders) && Works(f.cooking) && Works(f.ready)
      ensures error == None ==>
        && repo.log == old(repo.log) + [Tables.LogRow(req.value.number, Cooking, name, cookedAt),
                                        Tables.LogRow(req.value.number, Ready, name, readyAt)]
    {
      if stopping {
        return Some(Consumer.Stopping);
      }
      activeOrders := activeOrders + 1;
      error := ProcessOrder(req, cookedAt, readyAt, f);
      activeOrders := activeOrders - 1;
    }
  }

  /** A status change of a handler and its announcement, uninterrupted. */
  lemma StatusSteps(cfg: Protocol.Config, s: Protocol.State, c: nat, now: int, told: bool) returns (end: Protocol.State)
    requires Protocol.Working(s.kitchen, c) && Protocol.Current(s.kitchen, c).number in s.db.orders
    requires Protocol.Current(s.kitchen, c).phase.Taken? || Protocol.Current(s.kitchen, c).phase.CookingTold?
    ensures var d, p := Protocol.Current(s.kitchen, c), Protocol.Current(s.kitchen, c).phase;
      var status := Protocol.NextStatus(p);
      && end.db == Tables.SetStatus(s.db, d.number, d.worker, status, now)
      && end.notes == s.notes
           + (if told then [Protocol.Note(d.number, s.db.orders[d.number].status, status, d.worker)] else [])
      && end.kitchen.processed == s.kitchen.processed && Protocol.Working(end.kitchen, c)
      && Protocol.Current(end.kitchen, c)
           == d.(phase := if p.Taken? then Protocol.CookingTold else Protocol.ReadyTold)
    ensures Steps.Leads(cfg, s, end, StatusEvents(c, now, told))
  {
    var e1, e2 := Protocol.Write(c, Protocol.Committed, now), Protocol.Announce(c, told);
    var mid := Protocol.Next(cfg, s, e1);
    Steps.One(cfg, s, e1);
    var es;
    end, es := Steps.Later(cfg, s, mid, [e1], e2);
    assert es == StatusEvents(c, now, told);
  }

  function StatusEvents(c: nat, now: int, told: bool): seq<Protocol.Event> {
    [Protocol.Write(c, Protocol.Committed, now), Protocol.Announce(c, told)]
  }

  lemma BothStatuses(cfg: Protocol.Config, s: Protocol.State, c: nat, cookedAt: int, readyAt: int,
                     told: bool, toldAgain: bool) returns (end: Protocol.State)
    requires Protocol.Working(s.kitchen, c) && Protocol.Current(s.kitchen, c).phase == Protocol.Taken
    requires Protocol.Current(s.kitchen, c).number in s.db.orders
    ensures var d := Protocol.Current(s.kitchen, c);
      && end.db == Tables.SetStatus(Tables.SetStatus(s.db, d.number, d.worker, Cooking, cookedAt),
                                    d.number, d.worker, Ready, readyAt)
      && end.notes == s.notes
           + (if told then [Protocol.Note(d.number, s.db.orders[d.number].status, Cooking, d.worker)] else [])
           + (if toldAgain then [Protocol.Note(d.number, Cooking, Ready, d.worker)] else [])
      && end.kitchen.processed == s.kitchen.processed && Protocol.Working(end.kitchen, c)
      && Protocol.Current(end.kitchen, c) == d.(phase := Protocol.ReadyTold)
    ensures Steps.Leads(cfg, s, end, StatusEvents(c, cookedAt, told) + StatusEvents(c, readyAt, toldAgain))
  {
    var cooked := StatusSteps(cfg, s, c, cookedAt, told);
    end := StatusSteps(cfg, cooked, c, readyAt, toldAgain);
    Steps.Chain(cfg, s, cooked, end, StatusEvents(c, cookedAt, told), StatusEvents(c, readyAt, toldAgain));
  }

  /** The five protocol steps of a handler that nothing interrupts, taken one after the other,
      leave the tables, the notifications and the counter that ProcessOrder leaves on success. */
  lemma UninterruptedHandler(cfg: Protocol.Config, s: Protocol.State, c: nat, cookedAt: int, readyAt: int,
                             told: bool, toldAgain: bool, counted: bool) returns (end: Protocol.State)
    requires Protocol.Working(s.kitchen, c) && Protocol.Current(s.kitchen, c).phase == Protocol.Taken
    requires Protocol.Current(s.kitchen, c).number in s.db.orders
    requires counted ==> Protocol.Current(s.kitchen, c).worker in s.kitchen.processed
    ensures var d := Protocol.Current(s.kitchen, c);
      && end.db == Tables.SetStatus(Tables.SetStatus(s.db, d.number, d.worker, Cooking, cookedAt),
                                    d.number, d.worker, Ready, readyAt)
      && end.notes == s.notes
           + (if told then [Protocol.Note(d.number, s.db.orders[d.number].status, Cooking, d.worker)] else [])
           + (if toldAgain then [Protocol.Note(d.number, Cooking, Ready, d.worker)] else [])
      && end.kitchen.processed == (if counted
                                   then s.kitchen.processed[d.worker := s.kitchen.processed[d.worker] + 1]
                                   else s.kitchen.processed)
      && Protocol.Working(end.kitchen, c)
      && Protocol.Current(end.kitchen, c) == d.(phase := Protocol.Succeeded(counted))
    ensures Steps.Leads(cfg, s, end,
      StatusEvents(c, cookedAt, told) + StatusEvents(c, readyAt, toldAgain) + [Protocol.Increment(c, counted)])
  {
    var ready := BothStatuses(cfg, s, c, cookedAt, readyAt, told, toldAgain);
    var es := StatusEvents(c, cookedAt, told) + StatusEvents(c, readyAt, toldAgain);
    end, es := Steps.Later(cfg, s, ready, es, Protocol.Increment(c, counted));
  }

  /** And a handler whose first or second status change fails leaves what ProcessOrder leaves on
      failure: nothing, or the cooking entry and its announcement. */
  lemma UninterruptedFailure(cfg: Protocol.Config, s: Protocol.State, c: nat, cookedAt: int, readyAt: int,
                             cooks: bool, told: bool) returns (end: Protocol.State, es: seq<Protocol.Event>)
    requires Protocol.Working(s.kitchen, c) && Protocol.Current(s.kitchen, c).phase == Protocol.Taken
    requires Protocol.Current(s.kitchen, c).number in s.db.orders
    ensures var d := Protocol.Current(s.kitchen, c);
      && end.db == (if cooks then Tables.SetStatus(s.db, d.number, d.worker, Cooking, cookedAt) else s.db)
      && end.notes == s.notes
           + (if cooks && told then [Protocol.Note(d.number, s.db.orders[d.number].status, Cooking, d.worker)] else [])
      && end.kitchen.processed == s.kitchen.processed && Protocol.Working(end.kitchen, c)
      && Protocol.Current(end.kitchen, c)
           == d.(phase := Protocol.Failed(Consumer.StatusFailed, if cooks then 1 else 0, if cooks then 1 else 0))
    ensures Steps.Leads(cfg, s, end, es)
    ensures es == (if cooks then StatusEvents(c, cookedAt, told) else [])
                  + [Protocol.Write(c, Protocol.Aborted, if cooks then readyAt else cookedAt)]
  {
    if cooks {
      var cooked := StatusSteps(cfg, s, c, cookedAt, told);
      end, es := Steps.Later(cfg, s, cooked, StatusEvents(c, cookedAt, told), Protocol.Write(c, Protocol.Aborted, readyAt));
    } else {
      end, es := Steps.Later(cfg, s, s, [], Protocol.Write(c, Protocol.Aborted, cookedAt));
    }
  }
}
