/** The order entity: the request that CreateOrder fills in, its total and its priority.
    Money is an exact number of cents. */
module Orders {
  import opened Text
  import OrderNumber

  datatype Status = Unset | Received | Cooking | Ready

  datatype Item = Item(name: string, quantity: int, price: int)

  datatype Request = Request(
    number: string,
    customer: string,
    kind: string,
    items: seq<Item>,
    table: Option<int>,
    address: Option<string>,
    total: int,
    priority: int,
    status: Status)

  const AllOrderTypes := ["dine_in", "takeout", "delivery"]

  /** Sum of quantity times price. */
  function Total(items: seq<Item>): int {
    if items == [] then 0
    else Total(items[..|items| - 1]) + items[|items| - 1].price * items[|items| - 1].quantity
  }

  lemma {:induction false} TotalAppend(a: seq<Item>, b: seq<Item>)
    ensures Total(a + b) == Total(a) + Total(b)
  {
    if b == [] {
      assert a + b == a;
    } else {
      assert (a + b)[..|a + b| - 1] == a + b[..|b| - 1];
      TotalAppend(a, b[..|b| - 1]);
    }
  }

  lemma TotalOne(item: Item)
    ensures Total([item]) == item.quantity * item.price
  {
    assert [item][..0] == [];
  }

  /** The price of every single unit ordered. */
  function UnitPrices(items: seq<Item>): seq<int> {
    if items == [] then []
    else seq(if items[0].quantity < 0 then 0 else items[0].quantity, _ => items[0].price) + UnitPrices(items[1..])
  }

  function Sum(prices: seq<int>): int {
    if prices == [] then 0 else prices[0] + Sum(prices[1..])
  }

  lemma {:induction false} SumRepeated(n: nat, price: int, rest: seq<int>)
    ensures Sum(seq(n, _ => price) + rest) == n * price + Sum(rest)
  {
    if n == 0 {
      assert seq(n, _ => price) + rest == rest;
    } else {
      assert (seq(n, _ => price) + rest)[1..] == seq(n - 1, _ => price) + rest;
      SumRepeated(n - 1, price, rest);
    }
  }

  /** An order costs what its units cost one by one. */
  lemma {:induction false} TotalByUnits(items: seq<Item>)
    requires forall i :: 0 <= i < |items| ==> items[i].quantity >= 0
    ensures Total(items) == Sum(UnitPrices(items))
  {
    if items != [] {
      var first, rest := items[0], items[1..];
      TotalByUnits(rest);
      TotalAppend([first], rest);
      TotalOne(first);
      assert items == [first] + rest;
      SumRepeated(first.quantity, first.price, UnitPrices(rest));
    }
  }

  function PriorityFor(total: int): int {
    if total > 100_00 then 10 else if total > 50_00 then 5 else 1
  }

  lemma TotalFacts(items: seq<Item>)
    ensures |items| == 1 ==> Total(items) == items[0].quantity * items[0].price
    ensures forall k :: 0 <= k <= |items| ==> Total(items) == Total(items[..k]) + Total(items[k..])
    ensures (forall i :: 0 <= i < |items| ==> items[i].quantity >= 0) ==> Total(items) == Sum(UnitPrices(items))
  {
    if |items| == 1 {
      TotalOne(items[0]);
      assert items == [items[0]];
    }
    forall k | 0 <= k <= |items|
      ensures Total(items) == Total(items[..k]) + Total(items[k..])
    {
      assert items == items[..k] + items[k..];
      TotalAppend(items[..k], items[k..]);
    }
    if forall i :: 0 <= i < |items| ==> items[i].quantity >= 0 {
      TotalByUnits(items);
    }
  }

  /** What CreateOrder makes of a request before it stores it. */
  function Prepared(req: Request, date: string, sequence: nat): Request {
    req.(number := OrderNumber.Format(date, sequence),
         total := Total(req.items),
         priority := PriorityFor(Total(req.items)),
         status := Received)
  }

  /** The mutable struct models.CreateOrder. */
  class CreateOrder {
    var number: string
    var customer: string
    var kind: string
    var items: seq<Item>
    var table: Option<int>
    var address: Option<string>
    var total: int
    var priority: int
    var status: Status

    ghost function Contents(): Request
      reads this
    {
      Request(number, customer, kind, items, table, address, total, priority, status)
    }

    constructor (req: Request)
      ensures Contents() == req
    {
      number, customer, kind, items := req.number, req.customer, req.kind, req.items;
      table, address := req.table, req.address;
      total, priority, status := req.total, req.priority, req.status;
    }

    method CalculateTotalAmount()
      modifies this`total
      ensures Contents() == old(Contents()).(total := Total(items))
      ensures |items| == 1 ==> total == items[0].quantity * items[0].price
      ensures forall k :: 0 <= k <= |items| ==> total == Total(items[..k]) + Total(items[k..])
      ensures (forall i :: 0 <= i < |items| ==> items[i].quantity >= 0) ==> total == Sum(UnitPrices(items))
    {
      var sum := 0;
      for i := 0 to |items|
        invariant sum == Total(items[..i])
      {
        assert items[..i + 1][..i] == items[..i];
        sum := sum + items[i].price * items[i].quantity;
      }
      assert items[..|items|] == items;
      TotalFacts(items);
      total := sum;
    }

    method CalculatePriority()
      modifies this`priority
      ensures Contents() == old(Contents()).(priority := PriorityFor(total))
      ensures priority == 10 <==> total > 100_00
      ensures priority == 5 <==> 50_00 < total <= 100_00
      ensures priority == 1 <==> total <= 50_00
    {
      if total > 100_00 {
        priority := 10;
      } else if total > 50_00 {
        priority := 5;
      } else {
        priority := 1;
      }
    }

    method SetNumber(date: string, sequence: nat)
      modifies this`number
      ensures Contents() == old(Contents()).(number := OrderNumber.Format(date, sequence))
      ensures OrderNumber.IsDate(date) ==> OrderNumber.Parse(number) == Some((date, sequence))
    {
      var width := 3;
      if sequence > 999 {
        width := 4;
      }
      if sequence > 9999 {
        width := 5;
      }
      number := "ORD_" + date + "_" + Padded(sequence, width);
      if OrderNumber.IsDate(date) {
        OrderNumber.ParseFormat(date, sequence);
      }
    }
  }
}
