/** Where the broker keeps the order messages it has accepted, and the moves between places. */
module Broker {
  import opened Text

  /** A message waits in the queue of its type, is held unacknowledged by a consumer, was
      acknowledged, or lies in the dead-letter queue of a type. */
  datatype Place = Queue(kind: string) | Unacked(consumer: nat) | Acked | Dlq(kind: string)

  type Held = map<Place, seq<nat>>

  function At(held: Held, p: Place): seq<nat> {
    if p in held then held[p] else []
  }

  ghost predicate In(held: Held, p: Place, m: nat) {
    m in At(held, p)
  }

  ghost predicate Somewhere(held: Held, m: nat) {
    exists p :: In(held, p, m)
  }

  /** Each of the `count` accepted messages is in exactly one place, once. */
  ghost predicate Conserved(held: Held, count: nat) {
    && (forall p :: Distinct(At(held, p)))
    && (forall p, m: nat :: In(held, p, m) ==> m < count)
    && (forall p, q, m: nat :: In(held, p, m) && In(held, q, m) ==> p == q)
    && (forall m: nat :: m < count ==> Somewhere(held, m))
  }

  function Without(s: seq<nat>, m: nat): seq<nat> {
    if s == [] then [] else if s[0] == m then s[1..] else [s[0]] + Without(s[1..], m)
  }

  lemma {:induction false} WithoutDistinct(s: seq<nat>, m: nat)
    requires Distinct(s)
    ensures Distinct(Without(s, m))
    ensures forall x :: x in Without(s, m) <==> x in s && x != m
  {
    if s != [] {
      var rest := s[1..];
      assert s == [s[0]] + rest;
      assert Distinct(rest) by {
        assert forall i :: 0 <= i < |rest| ==> rest[i] == s[i + 1];
      }
      WithoutDistinct(rest, m);
      assert s[0] !in rest;
      var t := Without(rest, m);
      if s[0] != m {
        assert forall i :: 0 <= i < |t| ==> t[i] in t && t[i] in rest;
        assert Without(s, m) == [s[0]] + t;
      }
    }
  }

  function Enter(held: Held, m: nat, q: Place): Held {
    held[q := At(held, q) + [m]]
  }

  function Leave(held: Held, p: Place, m: nat): Held {
    held[p := Without(At(held, p), m)]
  }

  function Move(held: Held, p: Place, m: nat, q: Place): Held {
    Enter(Leave(held, p, m), m, q)
  }

  /** Everything consumer `c` holds goes back in front of the queue it came from. */
  function Return(held: Held, c: nat, kind: string): Held {
    held[Queue(kind) := At(held, Unacked(c)) + At(held, Queue(kind))][Unacked(c) := []]
  }

  lemma EnterIn(held: Held, m: nat, q: Place)
    ensures forall p, x: nat :: In(Enter(held, m, q), p, x) <==> In(held, p, x) || (x == m && p == q)
  {}

  lemma EnterDistinct(held: Held, m: nat, q: Place)
    requires forall p :: Distinct(At(held, p))
    requires !In(held, q, m)
    ensures forall p :: Distinct(At(Enter(held, m, q), p))
  {
    var s := At(held, q);
    assert forall i :: 0 <= i < |s| ==> s[i] in s;
    assert Distinct(s + [m]);
    forall p
      ensures Distinct(At(Enter(held, m, q), p))
    {
      assert Distinct(At(held, p));
    }
  }

  lemma LeaveIn(held: Held, p: Place, m: nat)
    requires forall q :: Distinct(At(held, q))
    ensures forall q :: Distinct(At(Leave(held, p, m), q))
    ensures forall q, x: nat :: In(Leave(held, p, m), q, x) <==> In(held, q, x) && !(x == m && q == p)
  {
    WithoutDistinct(At(held, p), m);
    forall q
      ensures Distinct(At(Leave(held, p, m), q))
    {
      assert Distinct(At(held, q));
    }
  }

  /** An accepted message joins the others, in one place. */
  lemma Accepted(held: Held, count: nat, q: Place)
    requires Conserved(held, count)
    ensures Conserved(Enter(held, count, q), count + 1)
    ensures forall p, x: nat ::
      In(Enter(held, count, q), p, x) <==> In(held, p, x) || (x == count && p == q)
  {
    var held' := Enter(held, count, q);
    EnterIn(held, count, q);
    EnterDistinct(held, count, q);
    forall m: nat | m < count + 1
      ensures Somewhere(held', m)
    {
      if m == count {
        assert In(held', q, m);
      } else {
        assert Somewhere(held, m);
        var p :| In(held, p, m);
        assert In(held', p, m);
      }
    }
  }

  /** A moved message changes its place and no other message does. */
  lemma Moved(held: Held, count: nat, p: Place, m: nat, q: Place)
    requires Conserved(held, count)
    requires In(held, p, m)
    ensures Conserved(Move(held, p, m, q), count)
    ensures forall r, x: nat ::
      In(Move(held, p, m, q), r, x) <==> (x != m && In(held, r, x)) || (x == m && r == q)
  {
    var mid := Leave(held, p, m);
    var held' := Move(held, p, m, q);
    LeaveIn(held, p, m);
    EnterIn(mid, m, q);
    EnterDistinct(mid, m, q);
    forall x: nat | x < count
      ensures Somewhere(held', x)
    {
      assert Somewhere(held, x);
      var r :| In(held, r, x);
      assert In(held', if x == m then q else r, x);
    }
  }

  lemma ReturnIn(held: Held, c: nat, kind: string)
    requires forall p, q, m: nat :: In(held, p, m) && In(held, q, m) ==> p == q
    ensures forall r, x: nat :: In(Return(held, c, kind), r, x) <==>
      (if In(held, Unacked(c), x) then r == Queue(kind) else In(held, r, x))
  {
    var held' := Return(held, c, kind);
    forall r, x: nat
      ensures In(held', r, x) <==>
        (if In(held, Unacked(c), x) then r == Queue(kind) else In(held, r, x))
    {
      assert In(held, r, x) && In(held, Unacked(c), x) ==> r == Unacked(c);
    }
  }

  /** A dropped connection puts each message it held back in its queue. */
  lemma Returned(held: Held, count: nat, c: nat, kind: string)
    requires Conserved(held, count)
    ensures Conserved(Return(held, c, kind), count)
    ensures forall r, x: nat :: In(Return(held, c, kind), r, x) <==>
      (if In(held, Unacked(c), x) then r == Queue(kind) else In(held, r, x))
  {
    var held' := Return(held, c, kind);
    ReturnIn(held, c, kind);
    var a, b := At(held, Unacked(c)), At(held, Queue(kind));
    assert Distinct(a + b) by {
      assert forall i :: 0 <= i < |a| ==> In(held, Unacked(c), a[i]);
      assert forall i :: 0 <= i < |b| ==> In(held, Queue(kind), b[i]);
    }
    forall p
      ensures Distinct(At(held', p))
    {
      assert Distinct(At(held, p));
    }
    forall x: nat | x < count
      ensures Somewhere(held', x)
    {
      assert Somewhere(held, x);
      var r :| In(held, r, x);
      assert In(held', if In(held, Unacked(c), x) then Queue(kind) else r, x);
    }
  }
}
