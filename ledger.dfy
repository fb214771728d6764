/** The inventory ledger: item records, the store they live in, and the
    single-item quantity adjustment (`change_inventory_count`) as one atomic
    read-check-write on the store. */
module Ledger {
  import opened Text

  /** Store-assigned document id; opaque apart from equality. */
  type Id = nat

  /** The `Item` record. `price` is an exact amount in the smallest currency
      unit; `qty` is a plain integer, since nothing in the record type itself
      keeps it non-negative. */
  datatype Item = Item(
    name: string,
    variant: string,
    sku: string,
    qty: int,
    description: string,
    price: int)

  /** The collection, one record per id. */
  type Store = map<Id, Item>

  /** What `change_inventory_count` answers: the pre-adjustment record on
      success, the shortage message when the quantity would go negative, and a
      bare failure when the id is not in the store. */
  datatype AdjustResponse =
    | Adjusted(item: Item)
    | Shortage(error: string)
    | NotFound
  {
    predicate Success() { Adjusted? }
  }

  /** The store after an adjustment together with the response. */
  datatype Adjustment = Adjustment(store: Store, response: AdjustResponse)

  const ShortagePrefix: string := "Not enough inventory. Only "
  const ShortageMiddle: string := " items left for "

  /** The error text of a rejected adjustment: the quantity on hand and the
      item's name. */
  function ShortageMessage(available: int, name: string): string {
    ShortagePrefix + IntToString(available) + ShortageMiddle + name
  }

  /** Recovers (quantity, name) from a shortage message. */
  function ParseShortage(msg: string): Option<(int, string)> {
    if |msg| < |ShortagePrefix| || msg[..|ShortagePrefix|] != ShortagePrefix then None
    else
      var body := msg[|ShortagePrefix|..];
      var k := NumeralSpan(body);
      var rest := body[k..];
      match ParseInt(body[..k])
      case None => None
      case Some(available) =>
        if |rest| < |ShortageMiddle| || rest[..|ShortageMiddle|] != ShortageMiddle then None
        else Some((available, rest[|ShortageMiddle|..]))
  }

  /** Every record's quantity is non-negative. */
  predicate NonNegative(s: Store) {
    forall k :: k in s ==> s[k].qty >= 0
  }

  /** The two records agree on every field except possibly `qty`. */
  predicate SameExceptQty(a: Item, b: Item) {
    a.(qty := b.qty) == b
  }

  /** One atomic `change_inventory_count(id, delta)`: read the record, refuse
      with no write when `qty + delta < 0`, otherwise write the new quantity
      and answer with the record as it was read. */
  function Adjust(s: Store, id: Id, delta: int): (r: Adjustment)
    // nothing is written on a failure path
    ensures !r.response.Success() ==> r.store == s
    ensures r.response.Success() <==> id in s && s[id].qty + delta >= 0
    ensures r.response.Success() ==> r.response.item == s[id] && id in r.store && r.store[id].qty == s[id].qty + delta
    ensures r.response.NotFound? <==> id !in s
  {
    if id in s then
      var item := s[id];
      if item.qty + delta < 0 then
        Adjustment(s, Shortage(ShortageMessage(item.qty, item.name)))
      else
        Adjustment(s[id := item.(qty := item.qty + delta)], Adjusted(item))
    else
      Adjustment(s, NotFound)
  }

  /** An adjustment touches the `qty` of its target and nothing else: no
      record appears or disappears, every other record is unchanged, and the
      non-negativity invariant survives both outcomes. */
  lemma AdjustOnlyChangesQty(s: Store, id: Id, delta: int)
    ensures var r := Adjust(s, id, delta);
            && r.store.Keys == s.Keys
            && (forall k :: k in s && k != id ==> r.store[k] == s[k])
            && (id in s ==> SameExceptQty(r.store[id], s[id]))
            && (NonNegative(s) ==> NonNegative(r.store))
  {
  }

  /** The message is a faithful report: the quantity on hand and the item's
      name can be read back from it exactly. */
  lemma ShortageMessageRoundTrip(available: int, name: string)
    ensures ParseShortage(ShortageMessage(available, name)) == Some((available, name))
  {
    var msg := ShortageMessage(available, name);
    var t := IntToString(available);
    assert msg[..|ShortagePrefix|] == ShortagePrefix;
    var body := msg[|ShortagePrefix|..];
    assert body == t + (ShortageMiddle + name);
    NumeralSpanOfConcat(t, ShortageMiddle + name);
    assert body[..|t|] == t;
    IntToStringRoundTrip(available);
    assert body[|t|..] == ShortageMiddle + name;
  }

  /** A rejected adjustment names the item's current quantity and its name. */
  lemma ShortageReportsStock(s: Store, id: Id, delta: int)
    requires id in s && s[id].qty + delta < 0
    ensures Adjust(s, id, delta).response.Shortage?
    ensures ParseShortage(Adjust(s, id, delta).response.error) == Some((s[id].qty, s[id].name))
  {
    ShortageMessageRoundTrip(s[id].qty, s[id].name);
  }

  /** A successful adjustment by delta is undone exactly by one by -delta,
      provided the quantity started non-negative (a record whose `qty` was set
      below zero by an update can be raised but not lowered back). */
  lemma AdjustUndo(s: Store, id: Id, delta: int)
    requires Adjust(s, id, delta).response.Success()
    requires s[id].qty >= 0
    ensures Adjust(Adjust(s, id, delta).store, id, -delta).response.Success()
    ensures Adjust(Adjust(s, id, delta).store, id, -delta).store == s
  {
    var s1 := Adjust(s, id, delta).store;
    AdjustOnlyChangesQty(s, id, delta);
    assert s1[id := s1[id].(qty := s1[id].qty - delta)] == s;
  }

  /** `remove_inventory_count` called k times in a row (the per-item
      serialization the store transaction gives): the final store and how many
      calls succeeded. */
  function Removals(s: Store, id: Id, k: nat): (Store, nat) {
    if k == 0 then (s, 0)
    else
      var a := Adjust(s, id, -1);
      var (final, count) := Removals(a.store, id, k - 1);
      (final, count + if a.response.Success() then 1 else 0)
  }

  function Min(a: int, b: int): int {
    if a <= b then a else b
  }

  /** k removals against n units in stock: exactly min(k, n) succeed, the rest
      are refused, and the quantity ends at n - min(k, n), never below zero. */
  lemma {:induction false} RemovalsExhaustStock(s: Store, id: Id, k: nat)
    requires id in s && s[id].qty >= 0
    ensures id in Removals(s, id, k).0
    ensures Removals(s, id, k).1 == Min(k, s[id].qty)
    ensures Removals(s, id, k).0[id] == s[id].(qty := s[id].qty - Min(k, s[id].qty))
  {
    if k > 0 {
      var a := Adjust(s, id, -1);
      AdjustOnlyChangesQty(s, id, -1);
      RemovalsExhaustStock(a.store, id, k - 1);
    }
  }
}
