/** The validator's error map and the rules for a create-order request. */
module Validation {
  import opened Text
  import opened Counting
  import opened Orders

  /** The keys errors are reported under. */
  datatype Field = CustomerName | OrderType | TableNumber | DeliveryAddress | Items
                 | ItemName | ItemQuantity | ItemPrice

  /** Errors by key; the first error of a key wins. */
  class Validator {
    var errors: map<Field, string>

    constructor ()
      ensures errors == map[]
    {
      errors := map[];
    }

    predicate Valid()
      reads this
    {
      |errors| == 0
    }

    method AddError(key: Field, message: string)
      modifies this
      ensures errors == if key in old(errors) then old(errors) else old(errors)[key := message]
    {
      if key !in errors {
        errors := errors[key := message];
      }
    }

    method Check(ok: bool, key: Field, message: string)
      modifies this
      ensures errors == if ok || key in old(errors) then old(errors) else old(errors)[key := message]
    {
      if !ok {
        AddError(key, message);
      }
    }
  }

  // ---- the rules ----

  /** The characters of the pattern ^[a-zA-Z\s\-']+$. */
  predicate NameChar(c: char) {
    'a' <= c <= 'z' || 'A' <= c <= 'Z' || c == ' ' || c == '\t' || c == '\n' || c as int == 12 || c == '\r'
    || c == '-' || c == '\''
  }

  predicate ValidCustomerName(name: string) {
    1 <= |name| <= 100 && forall i :: 0 <= i < |name| ==> NameChar(name[i])
  }

  predicate ValidItemName(name: string) { 1 <= |name| <= 50 }

  /** len of a Go string: the bytes of its UTF-8 form. */
  function ByteLength(s: string): (n: nat)
    ensures |s| <= n <= 4 * |s|
  {
    if s == [] then 0
    else
      var c := s[|s| - 1] as int;
      ByteLength(s[..|s| - 1])
        + if c < 0x80 then 1 else if c < 0x800 then 2 else if c < 0x1_0000 then 3 else 4
  }

  predicate TableOk(req: Request) {
    if req.kind == "dine_in" then req.table.Some? && 1 <= req.table.value <= 100
    else req.kind == "delivery" || req.kind == "takeout" ==> req.table.None?
  }

  predicate AddressOk(req: Request) {
    if req.kind == "delivery" then req.address.Some? && ByteLength(req.address.value) >= 10
    else req.kind == "dine_in" || req.kind == "takeout" ==> req.address.None?
  }

  predicate QuantityOk(item: Item) { 1 <= item.quantity <= 10 }

  predicate PriceOk(item: Item) { 1 <= item.price <= 999_99 }

  /** What each field demands of a single item. */
  predicate ItemOk(item: Item, key: Field) {
    match key
    case ItemName => ValidItemName(item.name)
    case ItemQuantity => QuantityOk(item)
    case ItemPrice => PriceOk(item)
    case _ => true
  }

  predicate ItemsOk(items: seq<Item>, key: Field) {
    forall i :: 0 <= i < |items| ==> ItemOk(items[i], key)
  }

  /** The rule reported under each key. */
  predicate Rule(req: Request, key: Field) {
    match key
    case CustomerName => ValidCustomerName(req.customer)
    case OrderType => req.kind in AllOrderTypes
    case TableNumber => TableOk(req)
    case DeliveryAddress => AddressOk(req)
    case Items => 1 <= |req.items| <= 20
    case _ => ItemsOk(req.items, key)
  }

  ghost predicate Acceptable(req: Request) {
    forall key :: Rule(req, key)
  }

  function Broken(req: Request): set<Field> {
    set key: Field | !Rule(req, key)
  }

  /** Nothing already reported changes, and exactly the keys in `broken` are added. */
  ghost predicate Reported(before: map<Field, string>, after: map<Field, string>, broken: set<Field>) {
    && after.Keys == before.Keys + broken
    && (forall key :: key in before ==> after[key] == before[key])
  }

  // ---- the checks ----

  /** The two fields whose rule depends on the type of the order. */
  function BrokenForType(req: Request): set<Field> {
    (if TableOk(req) then {} else {TableNumber}) + (if AddressOk(req) then {} else {DeliveryAddress})
  }

  method ValidateOrderType(v: Validator, req: Request)
    modifies v
    ensures Reported(old(v.errors), v.errors, BrokenForType(req))
  {
    if req.kind == "dine_in" {
      v.Check(req.table.Some?, TableNumber, "required for dine_in orders");
      if req.table.Some? {
        v.Check(1 <= req.table.value <= 100, TableNumber, "must be between 1 and 100");
      }
      v.Check(req.address.None?, DeliveryAddress, "must not be present for dine_in orders");
    } else if req.kind == "delivery" {
      v.Check(req.address.Some?, DeliveryAddress, "required for delivery orders");
      if req.address.Some? {
        v.Check(ByteLength(req.address.value) >= 10, DeliveryAddress, "must be at least 10 characters");
      }
      v.Check(req.table.None?, TableNumber, "must not be present for delivery orders");
    } else if req.kind == "takeout" {
      v.Check(req.table.None?, TableNumber, "must not be present for takeout orders");
      v.Check(req.address.None?, DeliveryAddress, "must not be present for takeout orders");
    }
  }

  function BrokenByItem(item: Item): set<Field> {
    set key: Field | !ItemOk(item, key)
  }

  function BrokenByItems(items: seq<Item>): set<Field> {
    set key: Field | !ItemsOk(items, key)
  }

  method ValidateItem(v: Validator, item: Item)
    modifies v
    ensures Reported(old(v.errors), v.errors, BrokenByItem(item))
  {
    v.Check(ValidItemName(item.name), ItemName, "must be between 1-50 characters");
    v.Check(QuantityOk(item), ItemQuantity, "must be between 1 and 10");
    v.Check(PriceOk(item), ItemPrice, "must be between `0.01` and `999.99`");
  }

  lemma OneMoreItem(items: seq<Item>, item: Item)
    ensures BrokenByItems(items + [item]) == BrokenByItems(items) + BrokenByItem(item)
  {
    forall key
      ensures ItemsOk(items + [item], key) <==> ItemsOk(items, key) && ItemOk(item, key)
    {
      var all := items + [item];
      assert all[|items|] == item;
      assert forall i :: 0 <= i < |items| ==> all[i] == items[i];
    }
  }

  method ValidateItems(v: Validator, items: seq<Item>)
    modifies v
    ensures Reported(old(v.errors), v.errors, BrokenByItems(items))
  {
    for n := 0 to |items|
      invariant Reported(old(v.errors), v.errors, BrokenByItems(items[..n]))
    {
      ValidateItem(v, items[n]);
      OneMoreItem(items[..n], items[n]);
      assert items[..n + 1] == items[..n] + [items[n]];
    }
    assert items[..|items|] == items;
  }

  method CheckName(v: Validator, name: string)
    modifies v
    ensures Reported(old(v.errors), v.errors, if ValidCustomerName(name) then {} else {CustomerName})
  {
    v.Check(ValidCustomerName(name), CustomerName,
            "1-100 characters. Must not contain special characters other than spaces, hyphens, and apostrophes.");
  }

  method CheckKind(v: Validator, kind: string)
    modifies v
    ensures Reported(old(v.errors), v.errors, if kind in AllOrderTypes then {} else {OrderType})
  {
    v.Check(kind in AllOrderTypes, OrderType, "must be one of: 'dine_in', 'takeout', or 'delivery'");
  }

  method CheckItemCount(v: Validator, count: nat)
    modifies v
    ensures Reported(old(v.errors), v.errors, if 1 <= count <= 20 then {} else {Items})
  {
    v.Check(1 <= count <= 20, Items, "must contain between 1 and 20 items.");
  }

  lemma BrokenParts(req: Request)
    ensures Broken(req)
         == (if ValidCustomerName(req.customer) then {} else {CustomerName})
          + (if req.kind in AllOrderTypes then {} else {OrderType})
          + BrokenForType(req)
          + (if 1 <= |req.items| <= 20 then {} else {Items})
          + BrokenByItems(req.items)
  {}

  /** A nil request is passed over; any other gets an error under exactly the keys whose rule it
      breaks, so a fresh validator is valid exactly when the request is acceptable. */
  method ValidateCreateOrderRequest(v: Validator, req: Option<Request>)
    modifies v
    ensures req.None? ==> v.errors == old(v.errors)
    ensures req.Some? ==> Reported(old(v.errors), v.errors, Broken(req.value))
    ensures old(v.errors) == map[] && req.Some? ==>
      (v.Valid() <==> FieldsAcceptable(req.value) && TypeAcceptable(req.value))
  {
    if req.None? {
      return;
    }
    ReportBroken(v, req.value);
    if old(v.errors) == map[] {
      ValidExactly(v.errors, req.value);
      AcceptableExactly(req.value);
    }
  }

  method ReportBroken(v: Validator, req: Request)
    modifies v
    ensures Reported(old(v.errors), v.errors, Broken(req))
  {
    ghost var start := v.errors;
    CheckName(v, req.customer);
    ghost var named := v.errors;
    CheckKind(v, req.kind);
    Then(start, named, v.errors, if ValidCustomerName(req.customer) then {} else {CustomerName},
         if req.kind in AllOrderTypes then {} else {OrderType});
    ghost var kinded := v.errors;
    ghost var broken := (if ValidCustomerName(req.customer) then {} else {CustomerName})
                      + (if req.kind in AllOrderTypes then {} else {OrderType});
    ValidateOrderType(v, req);
    Then(start, kinded, v.errors, broken, BrokenForType(req));
    ghost var typed := v.errors;
    CheckItemCount(v, |req.items|);
    Then(start, typed, v.errors, broken + BrokenForType(req), if 1 <= |req.items| <= 20 then {} else {Items});
    ghost var counted := v.errors;
    ValidateItems(v, req.items);
    Then(start, counted, v.errors,
         broken + BrokenForType(req) + (if 1 <= |req.items| <= 20 then {} else {Items}), BrokenByItems(req.items));
    BrokenParts(req);
  }

  lemma Then(a: map<Field, string>, b: map<Field, string>, c: map<Field, string>, p: set<Field>, q: set<Field>)
    requires Reported(a, b, p) && Reported(b, c, q)
    ensures Reported(a, c, p + q)
  {}

  lemma ValidExactly(errors: map<Field, string>, req: Request)
    requires Reported(map[], errors, Broken(req))
    ensures |errors| == 0 <==> Acceptable(req)
  {
    assert |errors| == |errors.Keys|;
    if !Acceptable(req) {
      var key :| !Rule(req, key);
      assert key in Broken(req);
    }
  }

  /** The rules for the fields that every order has, in full. */
  predicate FieldsAcceptable(req: Request) {
    && 1 <= |req.customer| <= 100
    && (forall i :: 0 <= i < |req.customer| ==>
          var c := req.customer[i];
          || 'a' <= c <= 'z' || 'A' <= c <= 'Z' || c == '-' || c == '\''
          || c == ' ' || c as int in {9, 10, 12, 13})
    && 1 <= |req.items| <= 20
    && (forall i :: 0 <= i < |req.items| ==>
          && 1 <= |req.items[i].name| <= 50
          && 1 <= req.items[i].quantity <= 10
          && 1 <= req.items[i].price <= 999_99)
  }

  /** The rules that go by the type of the order, in full. */
  predicate TypeAcceptable(req: Request) {
    || (req.kind == "dine_in" && req.address == None && req.table.Some? && 1 <= req.table.value <= 100)
    || (req.kind == "takeout" && req.address == None && req.table == None)
    || (req.kind == "delivery" && req.table == None && req.address.Some? && ByteLength(req.address.value) >= 10)
  }

  lemma AcceptableExactly(req: Request)
    ensures Acceptable(req) <==> FieldsAcceptable(req) && TypeAcceptable(req)
  {
    var fields := Rule(req, CustomerName) && Rule(req, Items) && Rule(req, ItemName)
                  && Rule(req, ItemQuantity) && Rule(req, ItemPrice);
    var byType := Rule(req, OrderType) && Rule(req, TableNumber) && Rule(req, DeliveryAddress);
    assert Acceptable(req) <==> fields && byType;
    FieldsExactly(req);
    TypeExactly(req);
  }

  lemma FieldsExactly(req: Request)
    ensures (Rule(req, CustomerName) && Rule(req, Items) && Rule(req, ItemName)
             && Rule(req, ItemQuantity) && Rule(req, ItemPrice))
       <==> FieldsAcceptable(req)
  {
    if FieldsAcceptable(req) {
      assert ItemsOk(req.items, ItemName) && ItemsOk(req.items, ItemQuantity) && ItemsOk(req.items, ItemPrice);
    }
    if ItemsOk(req.items, ItemName) && ItemsOk(req.items, ItemQuantity) && ItemsOk(req.items, ItemPrice) {
      forall i | 0 <= i < |req.items|
        ensures ValidItemName(req.items[i].name) && QuantityOk(req.items[i]) && PriceOk(req.items[i])
      {
        assert ItemOk(req.items[i], ItemName) && ItemOk(req.items[i], ItemQuantity) && ItemOk(req.items[i], ItemPrice);
      }
    }
  }

  lemma TypeExactly(req: Request)
    ensures Rule(req, OrderType) && Rule(req, TableNumber) && Rule(req, DeliveryAddress) <==> TypeAcceptable(req)
  {}

  // ---- what acceptance gives ----

  lemma {:induction false} TotalBounds(items: seq<Item>)
    requires forall i :: 0 <= i < |items| ==> QuantityOk(items[i]) && PriceOk(items[i])
    ensures |items| <= Total(items) <= |items| * 999_990
  {
    if items != [] {
      var last := items[|items| - 1];
      TotalBounds(items[..|items| - 1]);
      assert 1 <= last.price * last.quantity <= 999_99 * 10 by {
        assert last.price * 1 <= last.price * last.quantity <= last.price * 10;
      }
    }
  }

  /** Every accepted order has a total between 0.01 and 199998.00, which decimal(10,2) holds, and
      a priority of 1, 5 or 10. */
  lemma AcceptedOrderBounds(req: Request)
    requires Acceptable(req)
    ensures 1 <= Total(req.items) <= 199_998_00 < 10_000_000_000
    ensures PriorityFor(Total(req.items)) in {1, 5, 10}
  {
    assert Rule(req, Items) && Rule(req, ItemQuantity) && Rule(req, ItemPrice);
    forall i | 0 <= i < |req.items|
      ensures QuantityOk(req.items[i]) && PriceOk(req.items[i])
    {
      assert ItemOk(req.items[i], ItemQuantity) && ItemOk(req.items[i], ItemPrice);
    }
    TotalBounds(req.items);
  }

  /** Characters from code point `limit` on. */
  function Beyond(limit: int): char -> bool {
    (c: char) => c as int >= limit
  }

  /** UTF-8 spends a byte on each character and one more from each of three limits on. */
  lemma {:induction false} BytesByLimits(s: string)
    ensures ByteLength(s) ==
      |s| + Count(s, Beyond(0x80)) + Count(s, Beyond(0x800)) + Count(s, Beyond(0x1_0000))
  {
    if s != [] {
      BytesByLimits(s[..|s| - 1]);
    }
  }

  /** The address rule counts bytes: an address is accepted exactly when its characters, with the
      additional bytes of those outside ASCII, come to ten. So it is the documented rule of ten
      characters on exactly the addresses that are long, or too short even with those bytes: among
      them all in ASCII. */
  lemma AddressRuleCountsBytes(req: Request)
    requires req.kind == "delivery" && req.address.Some?
    ensures var s := req.address.value;
      var more := Count(s, Beyond(0x80)) + Count(s, Beyond(0x800)) + Count(s, Beyond(0x1_0000));
      && (AddressOk(req) <==> |s| + more >= 10)
      && ((AddressOk(req) <==> |s| >= 10) <==> |s| >= 10 || |s| + more < 10)
      && (more == 0 <==> forall i :: 0 <= i < |s| ==> s[i] as int < 0x80)
  {
    var s := req.address.value;
    BytesByLimits(s);
    Positive(s, Beyond(0x80));
    Positive(s, Beyond(0x800));
    Positive(s, Beyond(0x1_0000));
  }

  lemma ShortAddressAccepted() returns (req: Request)
    ensures req.kind == "delivery" && req.address.Some? && |req.address.value| == 5 && AddressOk(req)
  {
    var c := '\U{416}';
    var s2, s4 := [c, c], [c, c, c, c];
    assert s2[..1] == [c] && [c][..0] == [];
    assert s4[..3] == [c, c, c] && [c, c, c][..2] == s2;
    assert ByteLength([c]) == 2 && ByteLength(s2) == 4;
    assert ByteLength([c, c, c]) == 6 && ByteLength(s4) == 8;
    var s5 := s4 + [c];
    assert s5[..4] == s4;
    req := Request("", "", "delivery", [], None, Some(s5), 0, 0, Unset);
  }
}
