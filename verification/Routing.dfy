/** Queue names, binding keys and routing keys, under the topic rules of section 3.1.3.3 of
    AMQP 0-9-1: keys are words separated by dots, `*` matches one word, `#` any number. */
module Routing {
  import opened Text

  function QueueName(kind: string): string { "kitchen_" + kind + "_queue" }

  function BindingKey(kind: string): string { "kitchen." + kind + ".*" }

  function PublishKey(kind: string, priority: int): string {
    "kitchen." + kind + "." + DecimalInt(priority)
  }

  function DlqName(queue: string): string { "dlq." + queue }

  function DlqRoutingKey(queue: string): string { "dlq." + queue }

  /** The topic rules on words. */
  predicate WordsMatch(pattern: seq<string>, key: seq<string>)
    decreases |pattern| + |key|
  {
    if pattern == [] then key == []
    else if pattern[0] == "#" then
      WordsMatch(pattern[1..], key) || (key != [] && WordsMatch(pattern, key[1..]))
    else
      key != [] && (pattern[0] == "*" || pattern[0] == key[0]) && WordsMatch(pattern[1..], key[1..])
  }

  /** Without `#`, a pattern matches the keys of as many words, each equal to its own or to `*`. */
  lemma {:induction false} MatchesWordByWord(pattern: seq<string>, key: seq<string>)
    requires "#" !in pattern
    ensures WordsMatch(pattern, key) <==>
      |pattern| == |key| && forall i :: 0 <= i < |key| ==> pattern[i] == "*" || pattern[i] == key[i]
  {
    if pattern != [] && key != [] {
      assert pattern[0] in pattern;
      MatchesWordByWord(pattern[1..], key[1..]);
    }
  }

  /** `#` alone matches every key. */
  lemma {:induction false} HashMatchesAll(key: seq<string>)
    ensures WordsMatch(["#"], key)
  {
    if key == [] {
      assert WordsMatch(["#"][1..], key);
    } else {
      HashMatchesAll(key[1..]);
    }
  }

  predicate Matches(pattern: string, key: string) {
    WordsMatch(Split(pattern, '.'), Split(key, '.'))
  }

  /** The names a type has in the broker. */
  lemma NamesOfDelivery()
    ensures QueueName("delivery") == "kitchen_delivery_queue"
    ensures BindingKey("delivery") == "kitchen.delivery.*"
  {}

  lemma KeyOfDelivery()
    ensures PublishKey("delivery", 5) == "kitchen.delivery.5"
  {
    assert Decimal(5) == [Digit(5)] == "5";
  }

  lemma DlqOfDelivery()
    ensures DlqName("kitchen_delivery_queue") == "dlq.kitchen_delivery_queue" == DlqRoutingKey("kitchen_delivery_queue")
  {}

  /** A word that is neither a wildcard nor several words. */
  predicate PlainWord(kind: string) {
    '.' !in kind && kind != "*" && kind != "#"
  }

  lemma MatchWord(p: string, ps: seq<string>, k: string, ks: seq<string>)
    requires p != "#"
    ensures WordsMatch([p] + ps, [k] + ks) <==> (p == "*" || p == k) && WordsMatch(ps, ks)
  {
    assert ([p] + ps)[1..] == ps && ([k] + ks)[1..] == ks;
  }

  lemma MatchThree(a: string, b: string, x: string, y: string)
    requires a != "#" && b != "#" && b != "*"
    ensures WordsMatch([a, b, "*"], [a, x, y]) <==> b == x
  {
    assert [a, b, "*"] == [a] + [b, "*"] && [a, x, y] == [a] + [x, y];
    MatchWord(a, [b, "*"], a, [x, y]);
    assert [b, "*"] == [b] + ["*"] && [x, y] == [x] + [y];
    MatchWord(b, ["*"], x, [y]);
    assert ["*"] == ["*"] + [] && [y] == [y] + [];
    MatchWord("*", [], y, []);
  }

  lemma DecimalIntHasNoDot(n: int)
    ensures '.' !in DecimalInt(n)
  {
    var d := Decimal(if n < 0 then -n else n);
    assert forall i :: 0 <= i < |d| ==> IsDigit(d[i]);
  }

  lemma KeyWords(kind: string, last: string)
    requires '.' !in kind && '.' !in last
    ensures Split("kitchen." + kind + "." + last, '.') == ["kitchen", kind, last]
  {
    SplitThree("kitchen", kind, last, '.');
    assert "kitchen" + ['.'] == "kitchen.";
    assert ['.'] == ".";
  }

  /** A published key matches a type's binding exactly when the types are equal, whatever the
      priority. */
  lemma BindingMatchesOwnType(bound: string, published: string, priority: int)
    requires PlainWord(bound) && '.' !in published
    ensures Matches(BindingKey(bound), PublishKey(published, priority)) <==> bound == published
  {
    DecimalIntHasNoDot(priority);
    KeyWords(bound, "*");
    assert BindingKey(bound) == "kitchen." + bound + "." + "*" by {
      assert ".*" == "." + "*";
    }
    KeyWords(published, DecimalInt(priority));
    MatchThree("kitchen", bound, published, DecimalInt(priority));
  }

  lemma QueueNameInjective(a: string, b: string)
    ensures QueueName(a) == QueueName(b) <==> a == b
  {
    var q, r := QueueName(a), QueueName(b);
    if q == r {
      assert |a| == |b|;
      assert a == q[8..8 + |a|] && b == r[8..8 + |b|];
    }
  }

  lemma QueueNamePlain(kind: string)
    requires '.' !in kind
    ensures '.' !in QueueName(kind) && QueueName(kind) != "*" && QueueName(kind) != "#"
  {
    var q := QueueName(kind);
    assert q[0] == 'k';
    assert forall i :: 0 <= i < |q| ==> q[i] in "kitchen_" || q[i] in kind || q[i] in "_queue";
  }

  lemma SplitTwo(a: string, b: string)
    requires '.' !in a && '.' !in b
    ensures Split(a + ['.'] + b, '.') == [a, b]
  {
    SplitJoin([a, b], '.');
    assert [a, b][1..] == [b];
    assert Join([a, b], ['.']) == a + ['.'] + b;
  }

  lemma MatchTwo(a: string, b: string, x: string)
    requires a != "#" && b != "#" && b != "*"
    ensures WordsMatch([a, b], [a, x]) <==> b == x
  {
    assert [a, b] == [a] + [b] && [a, x] == [a] + [x];
    MatchWord(a, [b], a, [x]);
    assert [b] == [b] + [] && [x] == [x] + [];
    MatchWord(b, [], x, []);
  }

  /** A dead-lettered message's key matches a dead-letter binding exactly when the queues are of
      the same type. */
  lemma DlqMatchesOwnQueue(bound: string, dead: string)
    requires '.' !in bound && '.' !in dead
    ensures Matches(DlqRoutingKey(QueueName(bound)), DlqName(QueueName(dead))) <==> bound == dead
  {
    QueueNamePlain(bound);
    QueueNamePlain(dead);
    SplitTwo("dlq", QueueName(bound));
    SplitTwo("dlq", QueueName(dead));
    assert DlqRoutingKey(QueueName(bound)) == "dlq" + ['.'] + QueueName(bound);
    assert DlqName(QueueName(dead)) == "dlq" + ['.'] + QueueName(dead);
    MatchTwo("dlq", QueueName(bound), QueueName(dead));
    QueueNameInjective(bound, dead);
  }

  // ---- the declared topology ----

  datatype Binding = Binding(queue: string, key: string)

  /** Declared queues with their dead-letter routing key, if any, and the bindings of the order
      exchange and of the dead-letter exchange. */
  datatype Topology = Topology(
    queues: map<string, Option<string>>,
    orders: set<Binding>,
    dead: set<Binding>)

  /** The queues a message with this key reaches through the order exchange. */
  function RouteOrder(t: Topology, key: string): set<string> {
    set b | b in t.orders && Matches(b.key, key) :: b.queue
  }

  /** The queues a message dead-lettered from `queue` reaches. */
  function RouteDead(t: Topology, queue: string): set<string> {
    if queue in t.queues && t.queues[queue].Some?
    then set b | b in t.dead && Matches(b.key, t.queues[queue].value) :: b.queue
    else {}
  }

  /** The topology declared for these types, and nothing else. */
  ghost predicate DeclaredFor(t: Topology, kinds: seq<string>) {
    && t.orders == (set k | k in kinds :: Binding(QueueName(k), BindingKey(k)))
    && t.dead == (set k | k in kinds :: Binding(DlqName(QueueName(k)), DlqRoutingKey(QueueName(k))))
    && t.queues.Keys == QueueNames(kinds) + DlqNames(kinds)
    && (forall k :: k in kinds ==>
          && t.queues[QueueName(k)] == Some(DlqName(QueueName(k)))
          && t.queues[DlqName(QueueName(k))] == None)
  }

  function QueueNames(kinds: seq<string>): set<string> {
    set k | k in kinds :: QueueName(k)
  }

  function DlqNames(kinds: seq<string>): set<string> {
    set k | k in kinds :: DlqName(QueueName(k))
  }

  ghost predicate Within(t: Topology, kinds: seq<string>) {
    && t.queues.Keys <= QueueNames(kinds) + DlqNames(kinds)
    && t.orders <= (set k | k in kinds :: Binding(QueueName(k), BindingKey(k)))
    && t.dead <= (set k | k in kinds :: Binding(DlqName(QueueName(k)), DlqRoutingKey(QueueName(k))))
  }

  /** The four declarations for one type, the first of which works if `works(first)`. */
  method DeclareType(t: Topology, kind: string, works: nat -> bool, first: nat, ghost kinds: seq<string>)
    returns (ok: bool, t': Topology)
    requires kind in kinds && Within(t, kinds)
    ensures ok <==> forall n: nat :: first <= n < first + 4 ==> works(n)
    ensures ok ==>
      && t'.queues == t.queues[QueueName(kind) := Some(DlqName(QueueName(kind)))][DlqName(QueueName(kind)) := None]
      && t'.orders == t.orders + {Binding(QueueName(kind), BindingKey(kind))}
      && t'.dead == t.dead + {Binding(DlqName(QueueName(kind)), DlqRoutingKey(QueueName(kind)))}
    ensures Within(t', kinds)
  {
    t' := t;
    var queue := QueueName(kind);
    var dlq := DlqName(queue);
    if !works(first) {
      return false, t';
    }
    t' := t'.(queues := t'.queues[queue := Some(dlq)]);
    if !works(first + 1) {
      return false, t';
    }
    t' := t'.(orders := t'.orders + {Binding(queue, BindingKey(kind))});
    if !works(first + 2) {
      return false, t';
    }
    t' := t'.(queues := t'.queues[dlq := None]);
    if !works(first + 3) {
      return false, t';
    }
    t' := t'.(dead := t'.dead + {Binding(dlq, DlqRoutingKey(queue))});
    return true, t';
  }

  /** InitQueuesForOrderTypes on a broker without queues and bindings; the n-th declaration or
      binding works if `works(n)`. It succeeds exactly when all of them do, and never declares or
      binds anything foreign. */
  method InitQueues(kinds: seq<string>, works: nat -> bool) returns (ok: bool, t: Topology)
    ensures ok <==> forall n: nat :: n <= 4 * |kinds| ==> works(n)
    ensures ok ==> DeclaredFor(t, kinds)
    ensures Within(t, kinds)
  {
    t := Topology(map[], {}, {});
    if !works(0) {
      return false, t;
    }
    for i := 0 to |kinds|
      invariant DeclaredFor(t, kinds[..i]) && Within(t, kinds)
      invariant forall n: nat :: n <= 4 * i ==> works(n)
    {
      assert kinds[..i + 1] == kinds[..i] + [kinds[i]];
      ghost var before := t;
      ok, t := DeclareType(t, kinds[i], works, 4 * i + 1, kinds);
      if !ok {
        return;
      }
      StepDeclared(before, t, kinds[..i], kinds[i]);
    }
    assert kinds[..|kinds|] == kinds;
    ok := true;
  }

  /** Queues and dead-letter queues have different names, each type its own. */
  lemma NamesApart(a: string, b: string)
    ensures QueueName(a) != DlqName(QueueName(b))
    ensures QueueName(a) == QueueName(b) <==> a == b
    ensures DlqName(QueueName(a)) == DlqName(QueueName(b)) <==> a == b
  {
    QueueNameInjective(a, b);
    assert QueueName(a)[0] == 'k' && DlqName(QueueName(b))[0] == 'd';
    assert DlqName(QueueName(a))[4..] == QueueName(a) && DlqName(QueueName(b))[4..] == QueueName(b);
  }

  lemma NamesGrow(kinds: seq<string>, kind: string)
    ensures QueueNames(kinds + [kind]) == QueueNames(kinds) + {QueueName(kind)}
    ensures DlqNames(kinds + [kind]) == DlqNames(kinds) + {DlqName(QueueName(kind))}
  {}

  lemma StepDeclared(t: Topology, t': Topology, kinds: seq<string>, kind: string)
    requires DeclaredFor(t, kinds)
    requires t'.queues == t.queues[QueueName(kind) := Some(DlqName(QueueName(kind)))][DlqName(QueueName(kind)) := None]
    requires t'.orders == t.orders + {Binding(QueueName(kind), BindingKey(kind))}
    requires t'.dead == t.dead + {Binding(DlqName(QueueName(kind)), DlqRoutingKey(QueueName(kind)))}
    ensures DeclaredFor(t', kinds + [kind])
  {
    NamesGrow(kinds, kind);
    forall k | k in kinds + [kind]
      ensures t'.queues[QueueName(k)] == Some(DlqName(QueueName(k)))
      ensures t'.queues[DlqName(QueueName(k))] == None
    {
      NamesApart(k, kind);
      NamesApart(kind, k);
    }
  }

  /** Once the queues are declared, an order of a declared type reaches exactly its type's queue,
      and a message dead-lettered from that queue exactly its dead-letter queue. */
  lemma RoutesToOwnQueue(t: Topology, kinds: seq<string>, kind: string, priority: int)
    requires DeclaredFor(t, kinds) && (forall k :: k in kinds ==> PlainWord(k)) && '.' !in kind
    ensures RouteOrder(t, PublishKey(kind, priority)) == if kind in kinds then {QueueName(kind)} else {}
    ensures kind in kinds ==> RouteDead(t, QueueName(kind)) == {DlqName(QueueName(kind))}
  {
    forall k | k in kinds
      ensures Matches(BindingKey(k), PublishKey(kind, priority)) <==> k == kind
      ensures Matches(DlqRoutingKey(QueueName(k)), DlqName(QueueName(kind))) <==> k == kind
    {
      BindingMatchesOwnType(k, kind, priority);
      DlqMatchesOwnQueue(k, kind);
    }
    if kind in kinds {
      assert Binding(QueueName(kind), BindingKey(kind)) in t.orders;
      assert Binding(DlqName(QueueName(kind)), DlqRoutingKey(QueueName(kind))) in t.dead;
    }
  }
}
