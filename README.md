# ToyAPI data layer in Dafny

ToyAPI keeps its inventory in memory, in a small store that works like a
NoSQL database. `DatabaseAdapter` holds a table from a string key to a
record. A record maps field names to values. The adapter offers lookup,
insert, delete and a copy of the whole table. It refuses field names outside
the store's `allowed_keys`, duplicate keys and missing keys.

Three stores are built on the adapter:

- `ItemDatabase`. Its fields are `description`, `count` and `type`. It can
  stock an item (add to `count`) and take from an item. A take larger than the
  stock is refused.
- `OrderDatabase`. Its fields are `contents` and `status`. Every new order is
  `pending`. Cancelling sets the status to `cancelled` and fulfilling sets it
  to `delivered`, whatever the status was before. It can also return an
  order's contents.
- `RequestDatabase`. The same as the order store, without the contents
  accessor.

`utils.py` parses a comma-separated argument string into a list of pieces,
and into a list of integers.

Layout:

- `records.dfy` (module `Records`): values, records, tables, the error kinds
  and the `Applied` / `FieldSet` predicates that describe a state change.
- `keyed_store.dfy` (module `KeyedStore`): the pure effects `Insert` and
  `Remove` and the `Database` class whose methods mutate `data`.
- `items.dfy`, `orders.dfy`, `requests.dfy`: the three stores. Each is a class
  that owns a `KeyedStore.Database` (composition in place of Python
  inheritance). Each mutating method is tied by its `ensures` to a pure
  function of the old table. The lemmas are proved about those functions.
- `comma_lists.dfy` (module `CommaLists`): `str.strip`, `str.split(',')`,
  `','.join` and `int()` on strings, and the two list types.

Every operation reports an outcome. It either succeeds or raises exactly one
error: `ItemNotFound`, `ItemAlreadyExists`, `IllegalKey`,
`InsufficientStock(available)`, or one of the Python runtime errors the
operations can hit. `KeyError(field)` is raised when a record lacks `count`
or `contents`. `TypeError` is raised when `count` is not an integer, or when
a caller passes `status` to an order store's `add_item`. A failed operation
leaves the table unchanged.

`InsufficientStockError` is imported from `DatabaseAdapter.py`
(`ItemDatabase.py:1`, `app.py:5`) but is not defined there
(`DatabaseAdapter.py:1-11`). The model treats it as the fourth database error
kind, which is clearly what `ItemDatabase.py:19` intends.

Cancelling and fulfilling write `cancelled` and `delivered` without looking
at the status they replace. No operation works across two stores.

## Model

| member | source | states |
|---|---|---|
| `KeyedStore.Insert` | DatabaseAdapter.py:46-51 | an unknown field name fails IllegalKey, and is checked before the duplicate key; an existing key then fails ItemAlreadyExists; success iff both checks pass, and then the new table is the old one plus `key` mapped to the fields verbatim (a subset of the allowed fields suffices) |
| `KeyedStore.Remove` | DatabaseAdapter.py:60-63 | succeeds iff the key is present, else ItemNotFound; removes exactly that key and every other record is kept |
| `KeyedStore.InsertThenRemove` | DatabaseAdapter.py:51-63 | inserting under a fresh key and then deleting it restores the original table |
| `KeyedStore.InsertTwice` | DatabaseAdapter.py:48-51 | after a successful insert the record reads back unchanged, and a second insert of allowed fields under the same key fails ItemAlreadyExists |
| `KeyedStore.Database.constructor` | DatabaseAdapter.py:20-22 | a new store is empty and keeps the given allowed field names |
| `KeyedStore.Database.ItemInfo` | DatabaseAdapter.py:24-34 | fails ItemNotFound iff the key is absent, otherwise returns exactly the stored record; the store is not modified |
| `KeyedStore.Database.AddItem` | DatabaseAdapter.py:36-51 | the outcome and the new table are those of `Insert`; on failure the table is unchanged |
| `KeyedStore.Database.DeleteItem` | DatabaseAdapter.py:53-63 | the outcome and the new table are those of `Remove`; on failure the table is unchanged |
| `KeyedStore.Database.GetItemList` | DatabaseAdapter.py:65-70 | returns a table with the same keys and records as the store, which is not modified |
| `Records.SetField` | OrderDatabase.py:14 | overwriting one field of one record changes only that field: same keys, the other fields and records as they were |
| `Records.SetFieldRestore` | ItemDatabase.py:13-21 | writing a field's old value back restores the table |
| `Items.CountOf` | ItemDatabase.py:10-18 | reading an item's count fails ItemNotFound for a missing item, KeyError for a record without `count`, TypeError for a non-integer count, and otherwise gives the stored integer |
| `Items.Stock` | ItemDatabase.py:9-13 | fails exactly when the count cannot be read, with that error; otherwise `count` becomes `count + delta` and every other field and item is unchanged |
| `Items.Take` | ItemDatabase.py:15-21 | a missing item or unreadable count fails as in `CountOf`; `delta > count` fails InsufficientStock carrying the current count; otherwise `count` becomes `count - delta`, which is at least zero, and nothing else changes |
| `Items.StockThenTake` | ItemDatabase.py:13-21 | stocking `delta` then taking `delta` restores the original table when the count was not negative (and is refused with the raised count otherwise) |
| `Items.ApplyKeepsCountsNonNegative` | ItemDatabase.py:13-21 | one take, or one stock of a non-negative amount, keeps every integer count at least zero |
| `Items.RunKeepsCountsNonNegative` | ItemDatabase.py:13-21 | from counts that are all at least zero, any sequence of takes and non-negative stocks keeps them at least zero |
| `Items.Adjust` | app.py:29-39 | a non-negative amount stocks, a negative one takes its absolute value: fails as `CountOf` does, fails InsufficientStock with the current count when a negative amount exceeds it, succeeds exactly otherwise, and then sets `count` to `count + amount` with nothing else changed |
| `Items.AdjustKeepsCountsNonNegative` | app.py:29-39 | the web handler's signed count update (stock a non-negative amount, take the absolute value of a negative one) never makes a count negative |
| `Items.ItemDatabase.constructor` | ItemDatabase.py:7 | the item store starts empty and admits exactly the fields `description`, `count` and `type` |
| `Items.ItemDatabase.StockItem` | ItemDatabase.py:9-13 | the outcome and the new table are those of `Stock` (default amount 1); on failure nothing changes |
| `Items.ItemDatabase.TakeItem` | ItemDatabase.py:15-21 | the outcome and the new table are those of `Take` (default amount 1); on failure nothing changes |
| `Items.ItemDatabase.AdjustCount` | app.py:29-39 | a non-negative amount behaves as `StockItem`, a negative one as `TakeItem` of its absolute value |
| `Orders.Create` | OrderDatabase.py:9-10 | a caller-supplied `status` fails TypeError (keyword given twice); a field other than `contents` fails IllegalKey; an existing id fails ItemAlreadyExists; on success the new record is the caller's fields plus `status: pending`, and every other order is unchanged |
| `Orders.SetStatus` | OrderDatabase.py:12-22 | succeeds iff the id is present, else ItemNotFound; the status is overwritten whatever it was, and nothing else changes |
| `Orders.LastStatusWins` | OrderDatabase.py:12-22 | setting one status and then another equals setting only the second: a delivered order can be cancelled and a cancelled one delivered |
| `Orders.SetStatusIdempotent` | OrderDatabase.py:12-22 | cancelling or fulfilling twice equals doing it once, and the key set does not change |
| `Orders.ApplyKeepsStatuses` | OrderDatabase.py:10-22 | every order request (create, cancel, fulfil, delete) keeps each stored status one of `pending`, `cancelled`, `delivered` |
| `Orders.RunKeepsStatuses` | OrderDatabase.py:10-22 | over any sequence of requests every stored status stays one of `pending`, `cancelled`, `delivered` |
| `Orders.OrderDatabase.constructor` | OrderDatabase.py:7 | the order store starts empty and admits exactly `contents` and `status` |
| `Orders.OrderDatabase.AddItem` | OrderDatabase.py:9-10 | the outcome and the new table are those of `Create`; every stored status stays `pending`, `cancelled` or `delivered` |
| `Orders.OrderDatabase.CancelOrder` | OrderDatabase.py:12-16 | the outcome and the new table are those of `SetStatus` with `cancelled`; every stored status stays one of the three |
| `Orders.OrderDatabase.FulfillOrder` | OrderDatabase.py:18-22 | the outcome and the new table are those of `SetStatus` with `delivered`; every stored status stays one of the three |
| `Orders.OrderDatabase.GetContents` | OrderDatabase.py:24-28 | fails ItemNotFound for an unknown id and KeyError for an order without `contents`; otherwise returns the stored contents |
| `Requests.RequestDatabase.constructor` | RequestDatabase.py:4 | the request store starts empty and admits exactly `contents` and `status` |
| `Requests.RequestDatabase.AddItem` | RequestDatabase.py:6-7 | the outcome and the new table are those of `Orders.Create`: status forced to pending, a caller-supplied status refused; every stored status stays one of the three |
| `Requests.RequestDatabase.CancelOrder` | RequestDatabase.py:9-13 | the outcome and the new table are those of `Orders.SetStatus` with `cancelled`; every stored status stays one of the three |
| `Requests.RequestDatabase.FulfillOrder` | RequestDatabase.py:15-19 | the outcome and the new table are those of `Orders.SetStatus` with `delivered`; every stored status stays one of the three |
| `CommaLists.TrimStart` | utils.py:6 | the result is a suffix of the input; everything removed is whitespace and the result does not start with whitespace |
| `CommaLists.TrimEnd` | utils.py:6 | the result is a prefix of the input; everything removed is whitespace and the result does not end with whitespace |
| `CommaLists.Strip` | utils.py:6 | the stripped string neither starts nor ends with whitespace and is no longer than the input |
| `CommaLists.StripRemovesOnlySpace` | utils.py:6 | the stripped string is a slice of the input, and everything before and after that slice is whitespace |
| `CommaLists.StripIdempotent` | utils.py:6 | stripping twice equals stripping once |
| `CommaLists.Split` | utils.py:6 | a split always has at least one piece, and no piece contains a comma |
| `CommaLists.JoinSplit` | utils.py:6 | joining the pieces of a split with `,` gives back the string that was split |
| `CommaLists.SplitLength` | utils.py:6 | a split has one more piece than the string has commas |
| `CommaLists.SplitJoin` | utils.py:6 | splitting the join of a non-empty list of comma-free pieces gives back the pieces |
| `CommaLists.FromString` | utils.py:5-6 | `values` has one piece more than the stripped input has commas, joins back to the stripped input, and has no piece holding a comma |
| `CommaLists.BlankInput` | utils.py:6 | empty or blank input yields the single empty piece |
| `CommaLists.GetItem` | utils.py:8-9 | indexing succeeds iff `-len <= i < len` and a non-negative index gives `values[i]` |
| `CommaLists.NegativeIndex` | utils.py:8-9 | index `i - len` reaches the same element as index `i` |
| `CommaLists.ParseLiteral` | utils.py:29 | a literal reads as an integer exactly when it is digit groups (digits with single underscores between them), or `+` or `-` followed by digit groups; an accepted literal ends with a digit and holds only digits and underscores after its first character; the empty string is refused |
| `CommaLists.ParseLiteralPlus` | utils.py:29 | `+5` reads as 5 |
| `CommaLists.ParseLiteralUnderscore` | utils.py:29 | `1_0` reads as 10: the underscore is dropped |
| `CommaLists.ParseLiteralBadUnderscores` | utils.py:29 | `1__0` and `1_` are refused |
| `CommaLists.ParseLiteralShape` | utils.py:29 | a literal that reads as `n` is `-` and digit groups worth `-n`, or an optional `+` and digit groups worth `n` with `n` at least zero |
| `CommaLists.ParseInt` | utils.py:29 | a piece that is blank after stripping, or that holds one of U+001C to U+001F anywhere, is refused; otherwise the piece reads as its stripped literal |
| `CommaLists.ParseIntIgnoresSpace` | utils.py:29 | for a piece without U+001C to U+001F, surrounding whitespace does not change what it reads as |
| `CommaLists.InfoSeparatorNotSkipped` | utils.py:29 | `str.strip()` removes U+001C in front of `5`, but `int()` refuses the piece that holds it while reading `5` itself as 5 |
| `CommaLists.ParseShowInt` | utils.py:29 | the decimal literal of any integer reads back as that integer |
| `CommaLists.ParseInts` | utils.py:29 | succeeds iff every piece reads as an integer, and then has the same length with element `i` the value of piece `i` |
| `CommaLists.IntFromString` | utils.py:27-29 | succeeds iff every piece of `CommaSeparatedList(s)` is an integer literal; then it has the same length and element `i` is the value of piece `i` |
| `CommaLists.BlankIntInput` | utils.py:27-29 | empty or blank input is refused, because its single piece is empty |
| `CommaLists.IntListRoundTrip` | utils.py:27-29 | the decimal literals of a non-empty integer list, joined with commas, parse back to that list |

## Left out

- Console output: the `print(self.allowed_keys)` at `DatabaseAdapter.py:45` is not modelled.
- Aliasing: `item_info` returns a live reference to the stored record and `get_item_list` a shallow copy. The model works on value maps, so a caller cannot change the store through a returned record. In Python the reverse also holds: the returned records share their dicts with the store, so later in-place writes by `stock_item`, `take_item`, `cancel_order` or `fulfill_order` show through records that `item_info` or `get_item_list` returned earlier. The model's results are snapshots and do not capture this.
- Error message text: only the error kind is kept, plus the available count for InsufficientStock.
- Keyword clashes with parameter names: a field named `key` or `self` for `add_item`, or `name` for the order and request stores, makes Python raise TypeError before the body runs. The model treats such a field like any other field name (IllegalKey, since none of the schemas allow it).
- Dynamic typing: record values are strings, integers or a contents map. Arguments are typed (`count` is an integer), so Python's TypeError for a non-integer amount is not modelled.
- `CommaLists.IsSpace`: whitespace is Python's `str.isspace` set for the Latin-1 range plus the Unicode space separators listed in the module. Other Unicode subtleties of `str.strip` are not modelled.
- `CommaLists.ParseInt`: accepts an optional sign followed by ASCII digits, with single underscores allowed between digits. Surrounding whitespace is skipped, using the `str.strip()` set without U+001C to U+001F, which `int()` does not skip. Python's `int()` also accepts non-ASCII decimal digits and limits literals to 4300 digits; neither is modelled.
- `CommaLists.GetItem`: only integer indices are modelled. Python's `__getitem__` (`utils.py:8-9`) also accepts a slice and then returns a list; that form is not modelled.
- `__str__` and `__repr__` of `CommaSeparatedList` (`utils.py:17-21`) produce Python's list formatting and are not modelled. Iteration and `len` are the sequence `values` itself.
- Records without `count` or `contents` are admitted by `add_item`, as in the source. The later reads then fail with KeyError instead of being prevented.
- The Flask routing, argument parsing and HTTP responses of `app.py` are not modelled. Only the signed count dispatch of `app.py:29-39` is kept, as `AdjustCount`.
