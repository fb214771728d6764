# Inventory transaction engine — Dafny model

A model of the inventory service in `server.py`: a catalogue of items, each
with a quantity on hand, kept in one document collection. The collection is
modelled as a map from item id to item record, held in a field of the class
`Server.Inventory`. Each endpoint becomes one method on that class, and each
MongoDB transaction becomes one atomic step on the map:

- `change_inventory_count` reads a record, refuses an adjustment that would make `qty` negative, and otherwise writes `qty + delta`. It answers with the record as it was before the write.
- `buy_items` applies `-qty` for each line, in order. It stops at the first refused line and returns that line's response. Earlier lines are not rolled back. On success it answers with the sum of price × qty.
- `create_item`, `update_item`, `delete_item`, `add_inventory_count` and `remove_inventory_count` make up the catalogue endpoints.

Modules:

- `Text` (text.dfy): decimal rendering of integers as Python's `str` does it, with a parser and a proved round trip.
- `Ledger` (ledger.dfy): the `Item` record, the store, and `Adjust`, the pure specification of one adjustment. Also the shortage message and the lemmas about adjustments.
- `Purchase` (purchase.dfy): `Process`, the purchase loop as a function over prefixes of the line list. Also the reference definitions `Demand`, `Cost` and `Debited`, and the lemmas linking them to `Process`.
- `Catalog` (catalog.dfy): the store effects and response shapes of update, delete and the `/add` and `/remove` wrappers. It also holds the as-written readings for the two findings below.
- `Server` (server.dfy): the class `Inventory`, with imperative methods proved against the functions above. `UpdateItem`, `AddInventoryCount` and `RemoveInventoryCount` implement the corrected readings of the two "## Findings" rows, not the code as written. The as-written readings are `Catalog.UpdateReportAsWritten` and `Catalog.StripItemAsWritten`.

Prices are integers in the smallest currency unit, so a total is an exact sum.
Ids are natural numbers, treated as opaque. A purchase line's `qty` is an integer of any sign, since the source checks neither its sign nor its type. A negative line quantity restocks the item and subtracts from the total.

## Model

| member | source | states |
|---|---|---|
| Ledger.Adjust | server.py:86-103 | A failed adjustment writes nothing. Success holds exactly when the id exists and `qty + delta >= 0`. On success the stored `qty` becomes `qty + delta` and the response carries the pre-adjustment record, original price included. The response is NotFound exactly when the id is missing. |
| Ledger.AdjustOnlyChangesQty | server.py:95-99 | No record appears or disappears, and every other record is unchanged. The target differs from before only in `qty`. A store with every `qty >= 0` stays so after either outcome. |
| Ledger.ShortageMessageRoundTrip | server.py:94 | The refusal text `Not enough inventory. Only <qty> items left for <name>` parses back to exactly that quantity and name. |
| Ledger.ShortageReportsStock | server.py:93-94 | When `qty + delta < 0` the response is a shortage whose text reports the item's current quantity and its name. |
| Ledger.AdjustUndo | server.py:93-101 | Starting from a non-negative quantity, a successful adjustment by `delta` followed by one by `-delta` succeeds and restores the store exactly. |
| Ledger.RemovalsExhaustStock | server.py:59-63 | `k` serialized removals against `n >= 0` units: exactly `min(k, n)` succeed, and the quantity ends at `n - min(k, n)`, never below zero. |
| Text.IntToStringRoundTrip | server.py:94 | `str(qty)` as rendered in the message is read back as the same integer, negative values included. |
| Purchase.ProcessCharacterized | server.py:72-83 | A purchase succeeds exactly when each line, in order, names an existing item whose quantity stays non-negative after the demand of the lines so far. On success every item's `qty` is reduced by the total its lines asked, and the total is the sum over lines of price × qty. |
| Purchase.RefusalLeavesEarlierLines | server.py:75-80 | A refused purchase was refused at some line `k`. Lines before `k` were all applied and remain in the store. Line `k` was refused, and the purchase returns its response unchanged. |
| Purchase.StoppedIsFinal | server.py:79-80 | Once a line is refused, later lines have no effect on the store or on the response. |
| Purchase.ProcessStops | server.py:78-80 | A refused line ends the purchase with that line's response and the store as it stood. |
| Purchase.ProcessKeepsNonNegative | server.py:75-80 | If every quantity is non-negative before a purchase, that still holds after it, whether it succeeds or stops part-way. |
| Purchase.PartialPurchaseExample | server.py:75-80 | With A at 3 and B at 1, buying 2 of A then 5 of B is refused on B with B's shortage message, and A is left at 1. |
| Catalog.Replace | server.py:44-45 | The update's `$set` stores the given record under an existing id. It changes nothing else and leaves the store alone for an unknown id. |
| Catalog.ModifiedCount | server.py:46 | The modified count is at most 1, and it is 1 exactly when the update changes the store. |
| Catalog.ResaveReportsNotFound | server.py:46-49 | As written, saving a record's own fields again answers "Item not found" for an id that exists. |
| Catalog.UpdateReport | server.py:46-49 | The intended answer is success exactly when the id exists. Otherwise the error is "Item not found" and the store is untouched. |
| Catalog.UpdateReportsDisagree | server.py:46-49 | The as-written and intended answers differ exactly when an existing record is saved with the fields it already has. |
| Catalog.UpdateReadBack | server.py:44-47 | After an accepted update the stored record is exactly the one given, and repeating the update changes nothing. |
| Catalog.UpdateBypassesNonNegative | server.py:41-47 | An update with a negative `qty` is accepted and leaves a store that was non-negative violating non-negativity. |
| Catalog.Delete | server.py:68 | The id is absent afterwards, and every other record is kept unchanged. |
| Catalog.DeleteIdempotent | server.py:67-69 | Deleting twice leaves the same store as deleting once. |
| Catalog.StripItem | server.py:53-63 | The `/add` and `/remove` answer reports success exactly when the adjustment succeeded. A shortage message or a not-found failure is passed on unchanged. |
| Catalog.StripItemAgreesOnSuccess | server.py:55 | As written, the handler raises exactly on the failure paths and agrees with the intended answer on success. |
| Catalog.RemoveFromEmptyStockRaises | server.py:62 | As written, `/remove` on an item with no stock raises `KeyError('item')` instead of answering, and the store is unchanged. |
| Server.Inventory.CreateItem | server.py:33-36 | Inserts the record under an id not in use before, changes nothing else, and returns that id. |
| Server.Inventory.UpdateItem | server.py:40-49 | The new store is `Replace` of the old one. The answer is `UpdateReport`, the corrected reading of the server.py:46 "## Findings" row. As written, the answer is `Catalog.UpdateReportAsWritten`, which reports "Item not found" when a record is saved with its current fields. |
| Server.Inventory.DeleteItem | server.py:67-69 | Returns the given id, and the new store is `Delete` of the old one. |
| Server.Inventory.ChangeInventoryCount | server.py:86-103 | The read-check-write leaves exactly the store and response that `Adjust` specifies. |
| Server.Inventory.AddInventoryCount | server.py:53-56 | Adjusts by +1 and answers with `StripItem` of the response, the corrected reading of the server.py:55 "## Findings" row. As written, `Catalog.StripItemAsWritten` raises `KeyError` on both failure paths. |
| Server.Inventory.RemoveInventoryCount | server.py:60-63 | Adjusts by -1 and answers with `StripItem` of the response, the corrected reading of the server.py:55 "## Findings" row. As written (server.py:62), `Catalog.StripItemAsWritten` raises `KeyError` on both failure paths. |
| Server.Inventory.BuyItems | server.py:73-83 | The loop leaves exactly the store and response that `Process` specifies. An empty list gives a total of 0 and an unchanged store. |

## Left out

- HTTP routing, request parsing and JSON responses are transport. The methods take and return typed values.
- The MongoDB connection and the loading of credentials from the environment are I/O and configuration.
- Sessions and transactions are not modelled. Each transaction is one atomic step on the map, with no interleaving, retries or aborts.
- The `/search` endpoint is left out. It relies on MongoDB's full-text index and on BSON serialisation, neither of which is visible here.
- Failures of `ObjectId(item_id)` on a malformed id string are left out. Ids are opaque values.
- Prices are exact integers, not Python floats, so float rounding in `total_price` is not modelled.
- The `_id` field of the record returned on success is not carried. The response holds the six `Item` fields.
- Purchase lines are typed. A list entry without an `id` or `qty` key, which would raise `KeyError` in the source, is not modelled.
- Purchase.Process: line quantities are integers only. The source's `items: list` is untyped, so a float line `qty` such as 0.5 passes the check at server.py:93 and writes a fractional `qty` at server.py:98. A non-numeric one raises `TypeError` at server.py:78 after earlier lines were applied. Neither case is modelled.
- Ledger.Adjust: does not model the signed 64-bit limit on stored integers. The store rejects a write of `qty + delta` outside that range (server.py:96-98) with `OverflowError`, but the model accepts every `qty + delta >= 0`.
- Server.Inventory.CreateItem: does not model the signed 64-bit limit on `qty` either. Inserts (server.py:35) and updates (server.py:44-45, `Server.Inventory.UpdateItem`) of an out-of-range `qty` raise `OverflowError` in the source, and the model accepts any integer.
- The store's id generator is a counter on the class. ObjectId's structure is not modelled, only the freshness of the new id.

## Findings

| source | as written | input that shows it | evidently intended | confidence | as-written member | corrected member |
|---|---|---|---|---|---|---|
| server.py:55 | `del response["item"]` also runs when the adjustment failed, and a failed response has no `item` key, so `/add` and `/remove` raise `KeyError` (an HTTP 500) instead of answering | `/remove` on an item with `qty` 0, or on an id not in the store | pass the failure response on as `{"success": False, ...}`, as the buy endpoint does | high, not executed | Catalog.RemoveFromEmptyStockRaises | Catalog.StripItem |
| server.py:46 | success is decided by `modified_count == 1`, and MongoDB does not count an update that changes no field | `PUT /items/{id}` with the fields the record already has | report "Item not found" only when no record matched the id | medium (depends on the store's modified-count rule), not executed | Catalog.ResaveReportsNotFound | Catalog.UpdateReport |
