/** CreateOrder as one call runs it: permit, number, store, publish with retries. */
module OrderService {
  import opened Text
  import opened Orders
  import Tables
  import Dto
  import OrderNumber
  import Database
  import Sem = Semaphore

  /** What a publish call reports, and whether the exchange accepted the message. */
  datatype PublishOutcome = PublishOutcome(reported: bool, accepted: bool)

  class Producer {
    var accepted: seq<Dto.Wire>
    var succeeded: nat

    constructor ()
      ensures accepted == [] && succeeded == 0
    {
      accepted, succeeded := [], 0;
    }

    method PublishCreateOrder(req: Request, requestId: string, outcome: PublishOutcome) returns (ok: bool)
      modifies this
      ensures ok == outcome.reported
      ensures succeeded == old(succeeded) + (if ok then 1 else 0)
      ensures accepted == old(accepted) + (if outcome.accepted then [Dto.Encode(req, requestId)] else [])
    {
      var wire := Dto.FromInternalToPublish(Some(req), requestId);
      Dto.EncodeDecode(wire.value);
      assert wire.value == Dto.Encode(req, requestId) by {
        assert Dto.Encode(Dto.Decode(wire.value), requestId) == Dto.Encode(req, requestId);
      }
      if outcome.accepted {
        accepted := accepted + [wire.value];
      }
      if outcome.reported {
        succeeded := succeeded + 1;
      }
      return outcome.reported;
    }
  }

  /** How many attempts are made in all, once the first `i` have failed. */
  function Tries(i: nat, attempts: int, outcomes: nat -> PublishOutcome): (k: nat)
    ensures i <= k && (k == i <==> i >= attempts)
    decreases attempts - i
  {
    if i >= attempts then i
    else if outcomes(i).reported then i + 1
    else Tries(i + 1, attempts, outcomes)
  }

  /** The retry loop succeeds: some attempt does, or none is configured. */
  ghost predicate Publishes(attempts: int, outcomes: nat -> PublishOutcome) {
    attempts <= 0 || exists i: nat :: i < attempts && outcomes(i).reported
  }

  /** The last attempt made reports success exactly when some attempt would. */
  lemma {:induction false} LastAttempt(i: nat, attempts: int, outcomes: nat -> PublishOutcome)
    requires i < attempts
    ensures outcomes(Tries(i, attempts, outcomes) - 1).reported
       <==> exists j: nat :: i <= j < attempts && outcomes(j).reported
    decreases attempts - i
  {
    if !outcomes(i).reported && i + 1 < attempts {
      LastAttempt(i + 1, attempts, outcomes);
    }
  }

  /** The messages that reach the exchange in attempts `i` to `k - 1`. */
  function Sent(wire: Dto.Wire, outcomes: nat -> PublishOutcome, i: nat, k: nat): seq<Dto.Wire>
    requires i <= k
    decreases k - i
  {
    if i == k then [] else (if outcomes(i).accepted then [wire] else []) + Sent(wire, outcomes, i + 1, k)
  }

  lemma SentNext(wire: Dto.Wire, outcomes: nat -> PublishOutcome, i: nat, k: nat)
    requires i < k
    ensures Sent(wire, outcomes, i, k)
         == (if outcomes(i).accepted then [wire] else []) + Sent(wire, outcomes, i + 1, k)
  {}

  /** When reports are true, one message reaches the exchange if the loop succeeds and none if it
      fails. */
  lemma SentAsReported(wire: Dto.Wire, attempts: int, outcomes: nat -> PublishOutcome)
    requires forall j: nat :: outcomes(j).reported == outcomes(j).accepted
    ensures Sent(wire, outcomes, 0, Tries(0, attempts, outcomes))
         == if attempts > 0 && Publishes(attempts, outcomes) then [wire] else []
  {
    SentFrom(wire, 0, attempts, outcomes);
    if attempts > 0 {
      LastAttempt(0, attempts, outcomes);
    }
  }

  lemma {:induction false} SentFrom(wire: Dto.Wire, i: nat, attempts: int, outcomes: nat -> PublishOutcome)
    requires forall j: nat :: outcomes(j).reported == outcomes(j).accepted
    ensures var k := Tries(i, attempts, outcomes);
      Sent(wire, outcomes, i, k) == if k > i && outcomes(k - 1).reported then [wire] else []
    decreases attempts - i
  {
    if i < attempts && !outcomes(i).reported {
      SentFrom(wire, i + 1, attempts, outcomes);
    }
  }

  /** The publish retry loop: stops at the first success; with no attempt configured it reports
      success without having published. Attempt i has outcome `outcomes(i)`. */
  method PublishWithRetry(p: Producer, req: Request, requestId: string, attempts: int,
                          outcomes: nat -> PublishOutcome) returns (ok: bool)
    modifies p
    ensures ok <==> Publishes(attempts, outcomes)
    ensures p.succeeded == old(p.succeeded) + (if ok && attempts > 0 then 1 else 0)
    ensures p.accepted == old(p.accepted)
      + Sent(Dto.Encode(req, requestId), outcomes, 0, Tries(0, attempts, outcomes))
  {
    ok := true;
    var i := 0;
    ghost var wire, n := Dto.Encode(req, requestId), Tries(0, attempts, outcomes);
    while i < attempts
      invariant 0 <= i && (if attempts > 0 then i <= attempts else i == 0)
      invariant ok == (i == 0)
      invariant forall k: nat :: k < i ==> !outcomes(k).reported
      invariant p.succeeded == old(p.succeeded)
      invariant Tries(i, attempts, outcomes) == n
      invariant p.accepted + Sent(wire, outcomes, i, n) == old(p.accepted) + Sent(wire, outcomes, 0, n)
    {
      SentNext(wire, outcomes, i, n);
      ok := p.PublishCreateOrder(req, requestId, outcomes(i));
      if ok {
        assert Sent(wire, outcomes, n, n) == [];
        return;
      }
      i := i + 1;
    }
  }

  datatype Created = Created(number: string, status: Status, total: int)

  datatype Faults = Faults(sequence: nat -> bool, create: nat -> bool, publish: nat -> PublishOutcome)

  /** The create transaction commits: no statement of it fails and the constraints admit it. */
  ghost predicate Stores(db: Tables.Db, req: Request, fails: nat -> bool) {
    Tables.CanCreate(db, req) && forall k: nat :: k <= |req.items| + 3 ==> !fails(k)
  }

  /** Fills the order in: number, total, priority and status. */
  method Prepare(order: CreateOrder, today: string, number: nat)
    modifies order
    ensures order.Contents() == Prepared(old(order.Contents()), today, number)
  {
    order.SetNumber(today, number);
    order.CalculateTotalAmount();
    order.CalculatePriority();
    order.status := Received;
  }

  /** Stores the order, then publishes it: it succeeds exactly when both work; nothing is published
      for an order that is not stored. */
  method StoreAndPublish(repo: Database.OrderRepository, p: Producer, req: Request, requestId: string,
                         attempts: int, now: int, f: Faults)
    returns (r: Option<Created>)
    modifies repo, p
    ensures r.Some? <==> Stores(old(repo.Contents()), req, f.create) && Publishes(attempts, f.publish)
    ensures r.Some? ==> r.value == Created(req.number, req.status, req.total)
    ensures repo.sequences == old(repo.sequences)
    ensures if Stores(old(repo.Contents()), req, f.create)
      then
        && repo.Contents() == Tables.Create(old(repo.Contents()), req, "order-service", now)
        && p.accepted == old(p.accepted)
             + Sent(Dto.Encode(req, requestId), f.publish, 0, Tries(0, attempts, f.publish))
      else repo.Contents() == old(repo.Contents()) && p.accepted == old(p.accepted)
    ensures p.succeeded == old(p.succeeded) + (if r.Some? && attempts > 0 then 1 else 0)
    ensures forall w :: w in p.accepted && w !in old(p.accepted) ==>
      Dto.Decode(w) == req.(status := Unset) && Stores(old(repo.Contents()), req, f.create)
  {
    SentDecodes(req, requestId, f.publish, 0, Tries(0, attempts, f.publish));
    var row := repo.Create(req, "order-service", now, f.create);
    if row.None? {
      return None;
    }
    var ok := PublishWithRetry(p, req, requestId, attempts, f.publish);
    if !ok {
      return None;
    }
    return Some(Created(row.value.number, row.value.status, row.value.total));
  }

  /** What is sent decodes to the order itself, apart from its status. */
  lemma {:induction false} SentDecodes(req: Request, requestId: string, outcomes: nat -> PublishOutcome, i: nat, k: nat)
    requires i <= k
    ensures forall w :: w in Sent(Dto.Encode(req, requestId), outcomes, i, k) ==>
      Dto.Decode(w) == req.(status := Unset)
    decreases k - i
  {
    Dto.DecodeEncode(req, requestId);
    if i < k {
      SentDecodes(req, requestId, outcomes, i + 1, k);
    }
  }

  /** The sequence transaction commits. */
  predicate Draws(f: Faults) {
    !f.sequence(0) && !f.sequence(1) && !f.sequence(2)
  }

  /** The next value of the day's sequence or, when its transaction fails, the random number. */
  function Drawn(sequences: map<string, nat>, today: string, random: nat, draws: bool): nat {
    if draws then 1 + (if today in sequences then sequences[today] else 0) else random
  }

  /** One uninterrupted CreateOrder call; `random` is the fallback number, used when the sequence
      transaction fails. The permit is back on every path out. A call without a permit touches
      nothing; any other fills the order in, commits what of number, order and messages its
      transactions and publishes let through, and succeeds exactly when order and publish do. */
  method CreateOrder(sem: Sem.Semaphore, repo: Database.OrderRepository, p: Producer, order: CreateOrder,
                     today: string, random: nat, requestId: string, attempts: int, now: int, f: Faults)
    returns (r: Option<Created>)
    requires sem.Valid() && OrderNumber.IsFallback(random)
    modifies sem, repo, p, order
    ensures sem.Valid() && sem.used == old(sem.used)
    ensures old(sem.used) == sem.capacity ==>
      && r.None? && repo.Contents() == old(repo.Contents()) && repo.sequences == old(repo.sequences)
      && p.accepted == old(p.accepted) && order.Contents() == old(order.Contents())
    ensures old(sem.used) < sem.capacity ==>
      var n := Drawn(old(repo.sequences), today, random, Draws(f));
      && order.Contents() == Prepared(old(order.Contents()), today, n)
      && repo.sequences == (if Draws(f) then old(repo.sequences)[today := n] else old(repo.sequences))
      && (r.Some? <==> Stores(old(repo.Contents()), order.Contents(), f.create) && Publishes(attempts, f.publish))
      && if Stores(old(repo.Contents()), order.Contents(), f.create)
         then
           && repo.Contents() == Tables.Create(old(repo.Contents()), order.Contents(), "order-service", now)
           && p.accepted == old(p.accepted)
                + Sent(Dto.Encode(order.Contents(), requestId), f.publish, 0, Tries(0, attempts, f.publish))
         else repo.Contents() == old(repo.Contents()) && p.accepted == old(p.accepted)
    ensures r.Some? ==> r.value == Created(order.number, Received, Total(order.items))
    ensures p.succeeded == old(p.succeeded) + (if r.Some? && attempts > 0 then 1 else 0)
    ensures forall w :: w in p.accepted && w !in old(p.accepted) ==>
      Dto.Decode(w) == order.Contents().(status := Unset) && w.number in repo.orders
  {
    var admitted := sem.TryAcquire();
    if !admitted {
      return None;
    }
    var drawn := repo.GetAndIncrementSequence(today, f.sequence);
    var number := random;
    if drawn.Some? {
      number := drawn.value;
    }
    Prepare(order, today, number);
    var req := Request(order.number, order.customer, order.kind, order.items, order.table,
                       order.address, order.total, order.priority, order.status);
    r := StoreAndPublish(repo, p, req, requestId, attempts, now, f);
    sem.Release();
  }
}
