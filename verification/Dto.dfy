/** The published form of an order and the two conversions between it and the request. */
module Dto {
  import opened Text
  import opened Orders

  datatype WireItem = WireItem(name: string, quantity: int, price: int)

  datatype Wire = Wire(
    number: string,
    customer: string,
    kind: string,
    table: Option<int>,
    address: Option<string>,
    items: seq<WireItem>,
    total: int,
    priority: int,
    requestId: string)

  function Encode(req: Request, requestId: string): Wire {
    Wire(req.number, req.customer, req.kind, req.table, req.address,
         seq(|req.items|, i requires 0 <= i < |req.items| =>
           WireItem(req.items[i].name, req.items[i].quantity, req.items[i].price)),
         req.total, req.priority, requestId)
  }

  function Decode(wire: Wire): Request {
    Request(wire.number, wire.customer, wire.kind,
            seq(|wire.items|, i requires 0 <= i < |wire.items| =>
              Item(wire.items[i].name, wire.items[i].quantity, wire.items[i].price)),
            wire.table, wire.address, wire.total, wire.priority, Unset)
  }

  /** Publishing loses the status and nothing else. */
  lemma DecodeEncode(req: Request, requestId: string)
    ensures Decode(Encode(req, requestId)) == req.(status := Unset)
  {
    assert Decode(Encode(req, requestId)).items == req.items;
  }

  /** And the request id is all a second encoding could change. */
  lemma EncodeDecode(wire: Wire)
    ensures Encode(Decode(wire), wire.requestId) == wire
  {
    assert Encode(Decode(wire), wire.requestId).items == wire.items;
  }

  /** The message and the order say the same, field by field. */
  predicate SameOrder(req: Request, wire: Wire) {
    && wire.number == req.number && wire.customer == req.customer && wire.kind == req.kind
    && wire.table == req.table && wire.address == req.address
    && wire.total == req.total && wire.priority == req.priority
    && |wire.items| == |req.items|
    && forall i :: 0 <= i < |req.items| ==>
         && wire.items[i].name == req.items[i].name
         && wire.items[i].quantity == req.items[i].quantity
         && wire.items[i].price == req.items[i].price
  }

  /** A message is the encoding of an order exactly when it says the same under that request id,
      and an order the decoding of a message exactly when it says the same without a status. */
  lemma SameOrderExactly(req: Request, requestId: string, wire: Wire)
    ensures wire == Encode(req, requestId) <==> SameOrder(req, wire) && wire.requestId == requestId
    ensures req == Decode(wire) <==> SameOrder(req, wire) && req.status == Unset
  {
    if SameOrder(req, wire) {
      assert wire.items == Encode(req, requestId).items;
      assert req.items == Decode(wire).items;
    }
  }

  /** FromInternalToPublishOrder; no order in gives no order out. */
  method FromInternalToPublish(req: Option<Request>, requestId: string) returns (r: Option<Wire>)
    ensures r.Some? <==> req.Some?
    ensures r.Some? ==> Decode(r.value) == req.value.(status := Unset)
    ensures r.Some? ==> SameOrder(req.value, r.value) && r.value.requestId == requestId
  {
    if req.None? {
      return None;
    }
    var m := req.value;
    var items := [];
    for i := 0 to |m.items|
      invariant |items| == i
      invariant forall k :: 0 <= k < i ==>
        items[k] == WireItem(m.items[k].name, m.items[k].quantity, m.items[k].price)
    {
      items := items + [WireItem(m.items[i].name, m.items[i].quantity, m.items[i].price)];
    }
    r := Some(Wire(m.number, m.customer, m.kind, m.table, m.address, items,
                   m.total, m.priority, requestId));
    assert Decode(r.value).items == m.items;
  }

  /** FromPublishToInternalOrder: a decoded body is never turned into the nil order. */
  method FromPublishToInternal(wire: Option<Wire>) returns (r: Option<Request>)
    ensures r.Some? <==> wire.Some?
    ensures r.Some? ==> Encode(r.value, wire.value.requestId) == wire.value
    ensures r.Some? ==> SameOrder(r.value, wire.value) && r.value.status == Unset
  {
    if wire.None? {
      return None;
    }
    var m := wire.value;
    var items := [];
    for i := 0 to |m.items|
      invariant |items| == i
      invariant forall k :: 0 <= k < i ==>
        items[k] == Item(m.items[k].name, m.items[k].quantity, m.items[k].price)
    {
      items := items + [Item(m.items[i].name, m.items[i].quantity, m.items[i].price)];
    }
    r := Some(Request(m.number, m.customer, m.kind, items, m.table, m.address,
                      m.total, m.priority, Unset));
    assert Encode(r.value, m.requestId).items == m.items;
  }
}
