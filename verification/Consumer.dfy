/** The delivery loop of the order consumer and the verdict it passes on each delivery. */
module Consumer {
  import opened Text
  import opened Counting
  import Dto
  import Orders

  /** Why a handler failed: a nil order, a stopping worker, or a status that could not be set. */
  datatype HandlerError = NilOrder | Stopping | StatusFailed

  datatype Verdict = Ack | Requeue | DeadLetter

  /** isRecoverableError, as coded: only the nil order is put back in the queue. */
  predicate IsRecoverable(error: HandlerError) {
    error == NilOrder
  }

  function VerdictFor(result: Option<HandlerError>): Verdict {
    match result
    case None => Ack
    case Some(e) => if IsRecoverable(e) then Requeue else DeadLetter
  }

  datatype Action = Take(delivery: nat) | Handle(order: Orders.Request) | Settle(delivery: nat, verdict: Verdict)

  /** What the loop does with one delivery whose body did or did not decode. */
  function ActionsFor(i: nat, body: Option<Dto.Wire>, result: Option<HandlerError>): seq<Action> {
    match body
    case None => [Take(i), Settle(i, DeadLetter)]
    case Some(w) => [Take(i), Handle(Dto.Decode(w)), Settle(i, VerdictFor(result))]
  }

  function AllActions(bodies: seq<Option<Dto.Wire>>, results: seq<Option<HandlerError>>): seq<Action>
    requires |bodies| == |results|
  {
    if bodies == [] then []
    else
      var n := |bodies| - 1;
      AllActions(bodies[..n], results[..n]) + ActionsFor(n, bodies[n], results[n])
  }

  /** Consume over the deliveries received before its context ends or its channel closes;
      `results[i]` is what the handler answers to delivery i. */
  method Consume(bodies: seq<Option<Dto.Wire>>, results: seq<Option<HandlerError>>)
    returns (actions: seq<Action>)
    requires |bodies| == |results|
    ensures actions == AllActions(bodies, results)
    ensures forall i :: 0 <= i < |bodies| ==> HasTurn(actions, i, bodies[i], results[i])
    ensures |actions| == 2 * |bodies| + Count(bodies, Decodes())
    ensures Count(actions, IsHandle()) == Count(bodies, Decodes())
  {
    actions := [];
    var i := 0;
    while i < |bodies|
      invariant 0 <= i <= |bodies|
      invariant actions == AllActions(bodies[..i], results[..i])
    {
      assert bodies[..i + 1][..i] == bodies[..i] && results[..i + 1][..i] == results[..i];
      ghost var before := actions;
      actions := actions + [Take(i)];
      if bodies[i].None? {
        actions := actions + [Settle(i, DeadLetter)];
        assert actions == before + ActionsFor(i, bodies[i], results[i]);
        i := i + 1;
        continue;
      }
      var order := Dto.FromPublishToInternal(bodies[i]);
      Dto.DecodeEncode(order.value, bodies[i].value.requestId);
      actions := actions + [Handle(order.value)];
      if results[i].Some? {
        if IsRecoverable(results[i].value) {
          actions := actions + [Settle(i, Requeue)];
        } else {
          actions := actions + [Settle(i, DeadLetter)];
        }
      } else {
        actions := actions + [Settle(i, Ack)];
      }
      assert actions == before + ActionsFor(i, bodies[i], results[i]);
      i := i + 1;
    }
    assert bodies[..i] == bodies && results[..i] == results;
    EveryTurn(bodies, results);
  }

  // ---- every delivery has its turn ----

  function Decodes(): Option<Dto.Wire> -> bool { (b: Option<Dto.Wire>) => b.Some? }

  function IsHandle(): Action -> bool { (a: Action) => a.Handle? }

  /** From action `a` on, delivery `i` is taken, handed to the handler as the order its body says
      if it decodes, and settled: acknowledged if the handler succeeds, put back for a nil order,
      dead-lettered otherwise. */
  predicate Turn(actions: seq<Action>, a: nat, i: nat, body: Option<Dto.Wire>, result: Option<HandlerError>) {
    && a + 1 < |actions| && actions[a] == Take(i)
    && if body.None? then actions[a + 1] == Settle(i, DeadLetter)
       else
         && a + 2 < |actions|
         && actions[a + 1].Handle? && Dto.SameOrder(actions[a + 1].order, body.value)
         && actions[a + 2] == Settle(i, if result.None? then Ack
                                        else if result.value == NilOrder then Requeue
                                        else DeadLetter)
  }

  ghost predicate HasTurn(actions: seq<Action>, i: nat, body: Option<Dto.Wire>, result: Option<HandlerError>) {
    exists a :: Turn(actions, a, i, body, result)
  }

  lemma TurnStays(before: seq<Action>, more: seq<Action>, i: nat, body: Option<Dto.Wire>, result: Option<HandlerError>)
    requires HasTurn(before, i, body, result)
    ensures HasTurn(before + more, i, body, result)
  {
    var a :| Turn(before, a, i, body, result);
    assert Turn(before + more, a, i, body, result);
  }

  lemma OneTurn(before: seq<Action>, i: nat, body: Option<Dto.Wire>, result: Option<HandlerError>)
    ensures HasTurn(before + ActionsFor(i, body, result), i, body, result)
    ensures Count(before + ActionsFor(i, body, result), IsHandle())
         == Count(before, IsHandle()) + if body.Some? then 1 else 0
  {
    var actions := before + ActionsFor(i, body, result);
    assert actions[|before|] == Take(i);
    Append(before, Take(i), IsHandle());
    var a := before + [Take(i)];
    if body.Some? {
      Dto.SameOrderExactly(Dto.Decode(body.value), "", body.value);
      var b := a + [Handle(Dto.Decode(body.value))];
      Append(a, Handle(Dto.Decode(body.value)), IsHandle());
      Append(b, Settle(i, VerdictFor(result)), IsHandle());
      assert actions == b + [Settle(i, VerdictFor(result))];
    } else {
      Append(a, Settle(i, DeadLetter), IsHandle());
      assert actions == a + [Settle(i, DeadLetter)];
    }
    assert Turn(actions, |before|, i, body, result);
  }

  /** Each delivery has its turn, and there are no other actions: as many of them handle an order
      as bodies decode. */
  lemma {:induction false} EveryTurn(bodies: seq<Option<Dto.Wire>>, results: seq<Option<HandlerError>>)
    requires |bodies| == |results|
    ensures var actions := AllActions(bodies, results);
      && (forall i :: 0 <= i < |bodies| ==> HasTurn(actions, i, bodies[i], results[i]))
      && |actions| == 2 * |bodies| + Count(bodies, Decodes())
      && Count(actions, IsHandle()) == Count(bodies, Decodes())
  {
    if bodies != [] {
      var n := |bodies| - 1;
      var before, actions := AllActions(bodies[..n], results[..n]), AllActions(bodies, results);
      EveryTurn(bodies[..n], results[..n]);
      OneTurn(before, n, bodies[n], results[n]);
      forall i | 0 <= i < n
        ensures HasTurn(actions, i, bodies[i], results[i])
      {
        assert HasTurn(before, i, bodies[..n][i], results[..n][i]);
        TurnStays(before, ActionsFor(n, bodies[n], results[n]), i, bodies[i], results[i]);
      }
    }
  }

  /** The delivery being held after some actions: taken and not yet settled. */
  function Holding(actions: seq<Action>): Option<nat> {
    if actions == [] then None
    else
      match actions[|actions| - 1]
      case Take(i) => Some(i)
      case Handle(_) => Holding(actions[..|actions| - 1])
      case Settle(_, _) => None
  }

  /** Every action is legal: a delivery is taken only when none is held, and the delivery
      settled is the one held. */
  ghost predicate WellSettled(actions: seq<Action>) {
    actions == [] ||
    var before := actions[..|actions| - 1];
    && WellSettled(before)
    && match actions[|actions| - 1]
       case Take(_) => Holding(before) == None
       case Handle(_) => Holding(before).Some?
       case Settle(i, _) => Holding(before) == Some(i)
  }

  lemma SettleNext(before: seq<Action>, i: nat, body: Option<Dto.Wire>, result: Option<HandlerError>)
    requires WellSettled(before) && Holding(before) == None
    ensures WellSettled(before + ActionsFor(i, body, result))
    ensures Holding(before + ActionsFor(i, body, result)) == None
  {
    var a := before + [Take(i)];
    assert a[..|before|] == before;
    assert WellSettled(a) && Holding(a) == Some(i);
    if body.Some? {
      var b := a + [Handle(Dto.Decode(body.value))];
      assert b[..|a|] == a;
      assert WellSettled(b) && Holding(b) == Some(i);
      var c := b + [Settle(i, VerdictFor(result))];
      assert c[..|b|] == b;
      assert before + ActionsFor(i, body, result) == c;
    } else {
      var c := a + [Settle(i, DeadLetter)];
      assert c[..|a|] == a;
      assert before + ActionsFor(i, body, result) == c;
    }
  }

  /** Each delivery taken is settled at most once, and before the next one is taken. */
  lemma {:induction false} SettledInTurn(bodies: seq<Option<Dto.Wire>>, results: seq<Option<HandlerError>>)
    requires |bodies| == |results|
    ensures WellSettled(AllActions(bodies, results))
    ensures Holding(AllActions(bodies, results)) == None
  {
    if bodies != [] {
      var n := |bodies| - 1;
      SettledInTurn(bodies[..n], results[..n]);
      SettleNext(AllActions(bodies[..n], results[..n]), n, bodies[n], results[n]);
    }
  }

  /** A message is acknowledged exactly when its body decodes and its handler succeeds, put back in
      the queue exactly when the handler reports a nil order, and dead-lettered otherwise. */
  lemma {:induction false} VerdictsExactly(bodies: seq<Option<Dto.Wire>>, results: seq<Option<HandlerError>>,
                                           i: nat, v: Verdict)
    requires |bodies| == |results|
    requires Settle(i, v) in AllActions(bodies, results)
    ensures i < |bodies|
    ensures v == Ack <==> bodies[i].Some? && results[i].None?
    ensures v == Requeue <==> bodies[i].Some? && results[i] == Some(NilOrder)
    ensures v == DeadLetter <==>
      bodies[i].None? || results[i] == Some(Stopping) || results[i] == Some(StatusFailed)
  {
    var n := |bodies| - 1;
    if Settle(i, v) in AllActions(bodies[..n], results[..n]) {
      VerdictsExactly(bodies[..n], results[..n], i, v);
    }
  }

  /** A decoded body never gives a nil order, so no message is put back: every failure, a stopping
      worker included, dead-letters it. */
  lemma NeverRequeued(bodies: seq<Option<Dto.Wire>>, results: seq<Option<HandlerError>>, i: nat, v: Verdict)
    requires |bodies| == |results|
    requires forall k :: 0 <= k < |bodies| && bodies[k].Some? ==> results[k] != Some(NilOrder)
    requires Settle(i, v) in AllActions(bodies, results)
    ensures i < |bodies|
    ensures v == Ack <==> bodies[i].Some? && results[i].None?
    ensures v != Ack ==> v == DeadLetter
  {
    VerdictsExactly(bodies, results, i, v);
  }
}
