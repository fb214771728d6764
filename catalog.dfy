/** The catalog endpoints' store effects and response shapes: full-record
    update, delete, and the `/add` and `/remove` wrappers around the ledger's
    adjustment. Two of the responses as written in server.py differ from what
    their authors evidently meant; both readings are defined here and the
    corrected ones are what the service class uses. */
module Catalog {
  import opened Ledger

  const ItemNotFound: string := "Item not found"

  /** `{"success": True}` or `{"success": False, "error": "Item not found"}`. */
  datatype UpdateResponse = Updated | UpdateFailed(error: string)

  /** The `$set` of all six fields on the record with this id; an id that
      matches nothing leaves the store alone. No field is validated, `qty`
      included. */
  function Replace(s: Store, id: Id, item: Item): (r: Store)
    ensures r.Keys == s.Keys
    ensures id in s ==> r[id] == item
    ensures forall k :: k in s && k != id ==> r[k] == s[k]
  {
    if id in s then s[id := item] else s
  }

  /** The store's `modified_count` for that update: the record must exist and
      the `$set` must actually change one of its fields. */
  function ModifiedCount(s: Store, id: Id, item: Item): (n: nat)
    ensures n <= 1
    ensures n == 1 <==> Replace(s, id, item) != s
  {
    if id in s && s[id] != item then 1 else 0
  }

  /** The response as server.py:46-49 computes it, from `modified_count`. */
  function UpdateReportAsWritten(s: Store, id: Id, item: Item): UpdateResponse {
    if ModifiedCount(s, id, item) == 1 then Updated else UpdateFailed(ItemNotFound)
  }

  /** Saving a record's current fields again reports "Item not found" for an
      id that is in the store. */
  lemma ResaveReportsNotFound(s: Store, id: Id)
    requires id in s
    ensures UpdateReportAsWritten(s, id, s[id]) == UpdateFailed(ItemNotFound)
  {
  }

  /** The intended response: failure exactly when no record has this id. */
  function UpdateReport(s: Store, id: Id, item: Item): (r: UpdateResponse)
    ensures r.Updated? <==> id in s
    ensures r.UpdateFailed? ==> r.error == ItemNotFound && Replace(s, id, item) == s
  {
    if id in s then Updated else UpdateFailed(ItemNotFound)
  }

  /** The two readings disagree exactly when an existing record is saved with
      the fields it already has. */
  lemma UpdateReportsDisagree(s: Store, id: Id, item: Item)
    ensures UpdateReportAsWritten(s, id, item) != UpdateReport(s, id, item) <==> id in s && s[id] == item
  {
  }

  /** An accepted update stores exactly the given record, and repeating it
      changes nothing further. */
  lemma UpdateReadBack(s: Store, id: Id, item: Item)
    requires UpdateReport(s, id, item).Updated?
    ensures Replace(s, id, item)[id] == item
    ensures Replace(Replace(s, id, item), id, item) == Replace(s, id, item)
  {
  }

  /** An update is not checked against the non-negativity the ledger keeps:
      it is accepted with a negative `qty` and leaves the store violating it. */
  lemma UpdateBypassesNonNegative(item: Item)
    requires item.qty < 0
    ensures var s := map[0 := item.(qty := 0)];
            NonNegative(s) && UpdateReport(s, 0, item).Updated? && !NonNegative(Replace(s, 0, item))
  {
    var s := map[0 := item.(qty := 0)];
    assert Replace(s, 0, item)[0].qty < 0;
  }

  /** `delete_one` on the id: gone afterwards, everything else kept. */
  function Delete(s: Store, id: Id): (r: Store)
    ensures r.Keys == s.Keys - {id}
    ensures forall k :: k in r ==> r[k] == s[k]
  {
    s - {id}
  }

  /** Deleting twice is deleting once. */
  lemma DeleteIdempotent(s: Store, id: Id)
    ensures Delete(Delete(s, id), id) == Delete(s, id)
  {
  }

  /** The `/add` and `/remove` answers: the adjustment's response without the
      record, `{"success": True}`, `{"success": False, "error": ...}` or
      `{"success": False}`. */
  datatype CountResponse = CountChanged | CountShortage(error: string) | CountNotFound

  /** A Python exception escaping the handler. */
  datatype KeyError = KeyError(key: string)

  datatype Raised<T> = Returned(value: T) | Raises(error: KeyError)

  /** server.py:55 and :62 as written: `del response["item"]` on a response
      that has no "item" key raises. */
  function StripItemAsWritten(r: AdjustResponse): Raised<CountResponse> {
    match r
    case Adjusted(_) => Returned(CountChanged)
    case Shortage(_) => Raises(KeyError("item"))
    case NotFound => Raises(KeyError("item"))
  }

  /** Removing the last unit's worth from an empty stock raises instead of
      answering with the shortage message; the store is left unchanged. */
  lemma RemoveFromEmptyStockRaises(item: Item)
    requires item.qty == 0
    ensures var a := Adjust(map[0 := item], 0, -1);
            a.store == map[0 := item] && StripItemAsWritten(a.response) == Raises(KeyError("item"))
  {
  }

  /** The intended answer: the record is dropped when present, and a failure
      is passed on as it is. */
  function StripItem(r: AdjustResponse): (c: CountResponse)
    ensures c.CountChanged? <==> r.Success()
    ensures r.Shortage? ==> c == CountShortage(r.error)
    ensures r.NotFound? ==> c == CountNotFound
  {
    match r
    case Adjusted(_) => CountChanged
    case Shortage(msg) => CountShortage(msg)
    case NotFound => CountNotFound
  }

  /** The written code raises exactly on the failure paths and agrees with
      the intended answer everywhere else. */
  lemma StripItemAgreesOnSuccess(r: AdjustResponse)
    ensures StripItemAsWritten(r).Raises? <==> !r.Success()
    ensures r.Success() ==> StripItemAsWritten(r) == Returned(StripItem(r))
  {
  }
}
