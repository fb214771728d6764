/** The inventory service: the collection as a mutable map, and one method per
    endpoint of server.py's core, each a single atomic step on the map. */
module Server {
  import opened Ledger
  import opened Purchase
  import opened Catalog

  class Inventory {
    /** The collection's records by id. */
    var items: Store
    /** Next id to hand out; stands in for the store's id generator. */
    var nextId: Id

    /** Every id in use was handed out before, so `nextId` is fresh. */
    ghost predicate Valid()
      reads this
    {
      forall k :: k in items ==> k < nextId
    }

    constructor ()
      ensures Valid() && items == map[]
    {
      items := map[];
      nextId := 0;
    }

    /** `create_item`: insert the record under a fresh id and return the id. */
    method CreateItem(item: Item) returns (id: Id)
      requires Valid()
      modifies this
      ensures Valid()
      ensures id !in old(items)
      ensures items == old(items)[id := item]
    {
      id := nextId;
      items := items[id := item];
      nextId := nextId + 1;
    }

    /** `update_item`: replace every field of the record; fails only when the
        id is not in the store. */
    method UpdateItem(id: Id, item: Item) returns (resp: UpdateResponse)
      requires Valid()
      modifies this`items
      ensures Valid()
      ensures items == Replace(old(items), id, item)
      ensures resp == UpdateReport(old(items), id, item)
    {
      if id in items {
        items := items[id := item];
        resp := Updated;
      } else {
        resp := UpdateFailed(ItemNotFound);
      }
    }

    /** `delete_item`: unconditional delete, echoing the id. */
    method DeleteItem(id: Id) returns (echo: Id)
      requires Valid()
      modifies this`items
      ensures Valid()
      ensures echo == id
      ensures items == Delete(old(items), id)
    {
      items := items - {id};
      echo := id;
    }

    /** `change_inventory_count`: read the record, check, write `qty + delta`. */
    method ChangeInventoryCount(id: Id, delta: int) returns (resp: AdjustResponse)
      requires Valid()
      modifies this`items
      ensures Valid()
      ensures Adjustment(items, resp) == Adjust(old(items), id, delta)
    {
      AdjustOnlyChangesQty(items, id, delta);
      if id in items {
        var item := items[id];
        if item.qty + delta < 0 {
          resp := Shortage(ShortageMessage(item.qty, item.name));
          return;
        }
        var newQty := item.qty + delta;
        items := items[id := item.(qty := newQty)];
        resp := Adjusted(item);
      } else {
        resp := NotFound;
      }
    }

    /** `add_inventory_count`: adjust by +1 and drop the record from the answer. */
    method AddInventoryCount(id: Id) returns (resp: CountResponse)
      requires Valid()
      modifies this`items
      ensures Valid()
      ensures items == Adjust(old(items), id, 1).store
      ensures resp == StripItem(Adjust(old(items), id, 1).response)
    {
      var r := ChangeInventoryCount(id, 1);
      resp := StripItem(r);
    }

    /** `remove_inventory_count`: adjust by -1 and drop the record from the answer. */
    method RemoveInventoryCount(id: Id) returns (resp: CountResponse)
      requires Valid()
      modifies this`items
      ensures Valid()
      ensures items == Adjust(old(items), id, -1).store
      ensures resp == StripItem(Adjust(old(items), id, -1).response)
    {
      var r := ChangeInventoryCount(id, -1);
      resp := StripItem(r);
    }

    /** `buy_items`: apply each line in order, stop at the first refusal with
        that line's response (earlier lines stay applied), otherwise answer
        with the total of price × qty. */
    method BuyItems(lines: seq<Line>) returns (resp: BuyResponse)
      requires Valid()
      modifies this`items
      ensures Valid()
      ensures items == Process(old(items), lines).store
      ensures resp == Outcome(Process(old(items), lines))
      ensures lines == [] ==> resp == Bought(0) && items == old(items)
    {
      ghost var start := items;
      var total := 0;
      var i := 0;
      while i < |lines|
        invariant 0 <= i <= |lines|
        invariant Valid()
        invariant Process(start, lines[..i]) == Running(items, total)
      {
        var line := lines[i];
        ghost var before := items;
        var r := ChangeInventoryCount(line.id, -line.qty);
        if !r.Success() {
          ProcessStops(start, lines, i, before, total, Adjustment(items, r));
          resp := Refused(r);
          return;
        }
        ProcessContinues(start, lines, i, before, total, Adjustment(items, r));
        total := total + r.item.price * line.qty;
        i := i + 1;
      }
      assert lines[..i] == lines;
      resp := Bought(total);
    }
  }
}
