# Cart store, cart exporter and product filters — a Dafny model

This project models the core of a small storefront written in TypeScript and React. The core has three parts.

- **The cart store** (`contexts/CartContext.tsx`): an ordered list of cart lines `{id, name, price, quantity, image}` and an `isOpen` flag. The operations are `addItem`, `removeItem`, `updateQuantity`, `clearCart`, `openCart` and `closeCart`, and `totalItems`/`totalPrice` are derived from the list.
  - Each list update is a pure function of the previous list: `AddLine`, `RemoveLines` and `SetQuantity`.
  - The provider is the class `CartContext.CartProvider`. Its fields are replaced by methods, as the React setters replace state.
- **The flattener and exporter** (`lib/utils/flattenCart.ts`): `flattenCart` turns a nested value into a flat record from dot-joined paths to scalars. `exportCartData` wraps the items, the filters and freshly computed metadata into a snapshot and flattens it.
  - The recursive `flatten` closure and its two `forEach` loops are the methods of the class `Flatten.Flattener`. Its `result` field is the shared record.
  - These methods are proved against `Flatten.Leaves`, the depth-first list of assignments, replayed into a record by `Flatten.WriteAll`.
- **The product filter pipeline** (`components/filters/ProductFilters.tsx`):
  - the search → category → price filter chain;
  - the sorted, de-duplicated category list;
  - the query string that records the selection in the URL.

  The query string uses the `application/x-www-form-urlencoded` serializer of the WHATWG URL Standard. It is modelled together with the matching parser, because the component reads its initial state back from the URL. Both are in `FormEncoding`.

A JavaScript record (a plain object used as a dictionary, or a `URLSearchParams` list) is an ordered list of entries (`Records`). Assigning an existing key overwrites it in place; a new key is appended.

Where the design description and the code disagree, the model follows the code:

- **Nulls.** The design says null values are skipped entirely. The code skips only a null *root*. A null array element or object field is written as a leaf at its path (`Flatten.RootAndEmptyCases`).
- **Collisions.** The design says paths never collide. The code collides when an object key contains `.`: the later write wins and a value is lost (`Flatten.DottedKeyCollision`). It also collides when an object at the root has an empty key: that entry's nested keys are written without a prefix, beside its siblings, so `{"": {a: 1}, a: 2}` writes `a` twice. The collision-free results (`Flatten.FlattenedSimple`, `Flatten.FlattenedCount`) are therefore stated for values whose keys are non-empty, free of `.` and distinct. The export snapshot has such keys (`CartExport.SnapshotKeysSimple`).

Modules:

- `Strings`: number formatting, ASCII lower-casing, `includes` and the default string sort order.
- `Records`: the JavaScript record.
- `Seqs`: `Array.prototype.filter`.
- `Catalog`: `Product`.
- `CartContext`: the cart store.
- `Flatten`: the flattener.
- `CartExport`: the exporter.
- `FormEncoding`: the query-string format.
- `ProductFilters`: the product filter pipeline.

## Model

| member | source | states |
|---|---|---|
| CartContext.CartProvider.constructor | contexts/CartContext.tsx:30-31 | The cart starts empty and closed. |
| CartContext.CartProvider.AddItem | contexts/CartContext.tsx:50-71 | The new list is `AddLine` of the old one. Ids stay unique; quantities stay positive when the added quantity is positive; `totalItems` grows by the added quantity; `isOpen` is unchanged. |
| CartContext.CartProvider.RemoveItem | contexts/CartContext.tsx:73-75 | The new list is the old one without the id's lines. Ids stay unique and quantities stay positive; `totalItems` drops by the quantity held under the id; `isOpen` is unchanged. |
| CartContext.CartProvider.UpdateQuantity | contexts/CartContext.tsx:77-87 | A quantity ≤ 0 gives exactly what removeItem gives. A positive one gives `SetQuantity`. Ids stay unique, positivity is kept, `isOpen` is unchanged. |
| CartContext.CartProvider.ClearCart | contexts/CartContext.tsx:89-91 | The list becomes empty and both totals are 0. |
| CartContext.CartProvider.OpenCart | contexts/CartContext.tsx:96 | `isOpen` becomes true; the items are unchanged. |
| CartContext.CartProvider.CloseCart | contexts/CartContext.tsx:97 | `isOpen` becomes false; the items are unchanged. |
| CartContext.AddLine | contexts/CartContext.tsx:51-70 | The addItem updater. Afterwards the product has a line; a line is appended only when it had none; the lines already there keep their ids and places. Merging and appending are pinned by `AddItemMerges` and `AddItemAppends`. |
| CartContext.RemoveLines | contexts/CartContext.tsx:74 | The removeItem updater. No line keeps the id, and a line is in the result iff it was in the list and has another id; order is stated by `RemoveItemDrops`. |
| CartContext.SetQuantity | contexts/CartContext.tsx:82-86 | The updateQuantity updater. Same length; the id's lines hold the new quantity; other lines are untouched; no field but the quantity changes. |
| CartContext.TotalItems | contexts/CartContext.tsx:93 | `totalItems`, the sum of the quantities. Its properties are `TotalItemsBound`, `TotalsAppend`, `AddLineTotals`, `RemoveLinesQuantities` and `SetQuantityTotals`. |
| CartContext.TotalItemsBound | contexts/CartContext.tsx:93 | With every quantity positive, `totalItems` is at least the number of lines. |
| CartContext.TotalPrice | contexts/CartContext.tsx:94 | `totalPrice`, the sum of price × quantity. Its properties are `TotalPriceNonNegative`, `TotalsAppend`, `TotalsIncrease` and `AddLineTotals`. |
| CartContext.TotalPriceNonNegative | contexts/CartContext.tsx:94 | With no negative price or quantity, `totalPrice` is never negative. |
| CartContext.AddItemMerges | contexts/CartContext.tsx:52-58 | For an id already present: the same length and order, the matching lines' quantity is old + added, and every other field and line is unchanged. |
| CartContext.AddItemAppends | contexts/CartContext.tsx:60-69 | For an absent id: the earlier lines are untouched and exactly one line `{product.id, product.title, price, quantity, image}` is appended. |
| CartContext.AddLineKeepsInvariants | contexts/CartContext.tsx:50-71 | addItem keeps ids unique, and keeps quantities positive when the added quantity is ≥ 1. |
| CartContext.QuantityOfLine | contexts/CartContext.tsx:6-12 | With unique ids, the quantity held under a line's id is that line's quantity. |
| CartContext.QuantityOfAbsent | contexts/CartContext.tsx:6-12 | An id without a line holds quantity 0. |
| CartContext.AddLineQuantities | contexts/CartContext.tsx:50-71 | addItem raises the product's quantity by the added amount and leaves every other id's quantity alone. |
| CartContext.RepeatedAdds | contexts/CartContext.tsx:50-71 | After n adds of one product, ids are still unique, the product has a line, its quantity is the old one plus the sum of the added amounts, and other ids are unchanged. |
| CartContext.RemoveItemDrops | contexts/CartContext.tsx:73-75 | After removeItem no line has the id; a line survives iff it was there and has another id; the result is a subsequence of the old list (order kept); an absent id changes nothing. |
| CartContext.UniqueIdsCons | contexts/CartContext.tsx:6-12 | A line whose id is new can be put in front without repeating an id. |
| CartContext.RemoveLinesKeepsInvariants | contexts/CartContext.tsx:73-75 | removeItem keeps ids unique and quantities positive. |
| CartContext.RemoveLinesQuantities | contexts/CartContext.tsx:73-75 | After removeItem the id holds 0, every other id's quantity is unchanged, and `totalItems` drops by the removed quantity. |
| CartContext.SetQuantityReplaces | contexts/CartContext.tsx:82-86 | updateQuantity with q > 0 keeps length, order and all other fields, sets only the matching lines' quantity to q, and is a no-op for an absent id. |
| CartContext.SetQuantityKeepsInvariants | contexts/CartContext.tsx:82-86 | updateQuantity keeps ids unique, and keeps quantities positive when q ≥ 1. |
| CartContext.SetQuantityTotals | contexts/CartContext.tsx:82-86 | After setting a present line to q, the id holds q and `totalItems` changes by q minus the old quantity. |
| CartContext.TotalItemsReplaceLine | contexts/CartContext.tsx:93 | With unique ids, replacing one line's quantity changes `totalItems` by the difference. |
| CartContext.TotalsAppend | contexts/CartContext.tsx:93-94 | Both totals add up over a concatenation of lists. |
| CartContext.TotalsIncrease | contexts/CartContext.tsx:54-58 | Merging into an existing line adds the quantity to `totalItems` and price × quantity to `totalPrice`. |
| CartContext.AddLineTotals | contexts/CartContext.tsx:50-71 | addItem raises `totalItems` by the quantity. It raises `totalPrice` by the line's price × quantity, or by the product's price × quantity for a new line. |
| Strings.Digit | lib/utils/flattenCart.ts:14 | One decimal digit as its character. |
| Strings.NatToString | lib/utils/flattenCart.ts:14 | An index is written as a non-empty string of decimal digits that spells it in decimal, most significant digit first, with no leading zero; one digit exactly for 0-9. |
| Strings.NatToStringInjective | lib/utils/flattenCart.ts:14 | Different indices give different path segments. |
| Strings.Lower | components/filters/ProductFilters.tsx:61-63 | Lower-casing keeps the length, maps each character, and leaves no upper-case ASCII letter. |
| Strings.LowerIdempotent | components/filters/ProductFilters.tsx:61-63 | Lower-casing twice is lower-casing once. |
| Strings.IncludesAt | components/filters/ProductFilters.tsx:63 | `includes` holds iff the needle occurs as a block at some position. |
| Strings.Includes | components/filters/ProductFilters.tsx:63 | `includes`: the needle occurs as a block of the text. Its meaning is `IncludesAt`. |
| Strings.StrLeq | components/filters/ProductFilters.tsx:41 | The default sort order. It is total, antisymmetric and transitive: `StrLeqTotal`, `StrLeqAntisymmetric`, `StrLeqTransitive`. |
| Strings.StrLeqTotal | components/filters/ProductFilters.tsx:41 | The sort order compares any two strings. |
| Strings.StrLeqAntisymmetric | components/filters/ProductFilters.tsx:41 | The sort order is antisymmetric. |
| Strings.StrLeqTransitive | components/filters/ProductFilters.tsx:41 | The sort order is transitive. |
| Records.Lookup | components/filters/ProductFilters.tsx:17-20 | A lookup finds nothing iff no entry has the key. |
| Records.Put | lib/utils/flattenCart.ts:18 | After `rec[key] = val` the key reads `val` and every other key reads as before. An existing key keeps the length (its position is `PutInPlace`); a new key is appended. |
| Records.PutInPlace | lib/utils/flattenCart.ts:18 | Assigning a key that is present replaces its entry where it stands: the result is the old record with only that entry changed to `(key, val)`. |
| Records.PutKeepsDistinct | lib/utils/flattenCart.ts:18 | Assigning never creates a repeated key. |
| Records.LookupEntry | lib/utils/flattenCart.ts:18 | In a record with distinct keys, each entry is what its key reads. |
| Records.LookupMember | lib/utils/flattenCart.ts:18 | The same, for an entry known to be in the record. |
| Seqs.Filter | components/filters/ProductFilters.tsx:62 | The result is no longer than the input and every element of it is accepted. |
| Seqs.FilterMembers | components/filters/ProductFilters.tsx:62 | An element is in the result iff it is in the input and accepted. |
| Seqs.FilterIsSubsequence | components/filters/ProductFilters.tsx:62 | The result keeps the input's order. |
| Seqs.FilterAll | components/filters/ProductFilters.tsx:57 | A filter that accepts everything returns its input. |
| Seqs.FilterFuse | components/filters/ProductFilters.tsx:57-86 | Two filters in a row are one filter by the conjunction. |
| Flatten.Flattener.constructor | lib/utils/flattenCart.ts:5 | The result record starts empty. |
| Flatten.Leaves | lib/utils/flattenCart.ts:7-35 | The assignments `flatten` makes, in order: none for null, the scalar at the prefix, each element's or entry's assignments in turn. The Flattener methods make exactly these; their properties are `LeavesShape`, `LeavesDistinct`, `LeavesCount` and `RootAndEmptyCases`. |
| Flatten.Child | lib/utils/flattenCart.ts:15-30 | One element or entry: a container is recursed into at its path, anything else (null included) is assigned there. Properties: `ChildShape`, `ChildDistinct`, `ChildCount`. |
| Flatten.WriteAll | lib/utils/flattenCart.ts:18-33 | The `result[key] = ...` assignments applied in order to the record. Properties: `WriteOne`, `WriteAllConcat`, `WriteAllKeepsDistinct`, `WriteAllLastWins`, `WriteAllFresh`. |
| Flatten.Flattened | lib/utils/flattenCart.ts:4-39 | What `flattenCart` returns; it never holds a path twice. Its shape is stated by `FlattenedSimple`, `FlattenedCount` and `DottedKeyCollision`. |
| Flatten.Flattener.Flatten | lib/utils/flattenCart.ts:7-35 | `flatten(obj, prefix)` leaves the record as the old one with `Leaves(obj, prefix)` written into it in order: null writes nothing; a scalar is written at prefix. |
| Flatten.Flattener.FlattenArray | lib/utils/flattenCart.ts:12-20 | After the loop, element i's leaves are written under `prefix.i` for every i in order; a non-container element (null included) is written at its own path. |
| Flatten.Flattener.FlattenObject | lib/utils/flattenCart.ts:21-31 | After the loop, each entry's leaves are written under `prefix.key` in entry order; a non-container value (null included) is written at its own path. |
| Flatten.FlattenCart | lib/utils/flattenCart.ts:4-39 | The result is `Flattened(cart)` and never repeats a path. With simple keys it is exactly the depth-first list of leaves. |
| Flatten.WriteAllConcat | lib/utils/flattenCart.ts:7-35 | Writing two batches is writing their concatenation. |
| Flatten.WriteOne | lib/utils/flattenCart.ts:18 | One assignment is one Put. |
| Flatten.WriteAllKeepsDistinct | lib/utils/flattenCart.ts:5-35 | The result record never holds a path twice. |
| Flatten.WriteAllLastWins | lib/utils/flattenCart.ts:18 | A path reads the value written there last; an unwritten path keeps its old value. |
| Flatten.WriteAllFresh | lib/utils/flattenCart.ts:18 | Writes to fresh distinct paths only append. |
| Flatten.ElemOrigin | lib/utils/flattenCart.ts:13-19 | Every assignment made for an array comes from one of its elements, under that element's path. |
| Flatten.FieldOrigin | lib/utils/flattenCart.ts:22-30 | Every assignment made for an object comes from one of its entries, under that entry's path. |
| Flatten.LeavesShape | lib/utils/flattenCart.ts:7-35 | Only non-containers are written. For a non-empty prefix, a container's assignments lie strictly below it and a scalar's is at the prefix itself. |
| Flatten.ChildShape | lib/utils/flattenCart.ts:15-19 | A child's assignments are non-containers at its key or below it. |
| Flatten.DropPrefix | lib/utils/flattenCart.ts:23 | A path below `prefix.key` starts with the prefix, and the rest lies below the key. |
| Flatten.SameSegment | lib/utils/flattenCart.ts:23 | A path cannot lie below two different dot-free segments. |
| Flatten.DotAfter | lib/utils/flattenCart.ts:23 | A path below a key has a `.` right after the key. |
| Flatten.SiblingsApart | lib/utils/flattenCart.ts:14 | Two dot-free siblings under one prefix have disjoint path sets. |
| Flatten.DistinctConcat | lib/utils/flattenCart.ts:5 | Two records with disjoint distinct keys concatenate to one with distinct keys. |
| Flatten.LeavesDistinct | lib/utils/flattenCart.ts:4-39 | With simple keys, no path is written twice. |
| Flatten.ChildDistinct | lib/utils/flattenCart.ts:15-19 | With simple keys, one child writes no path twice. |
| Flatten.ElemLeavesDistinct | lib/utils/flattenCart.ts:13-19 | The array elements written so far never share a path. |
| Flatten.FieldLeavesDistinct | lib/utils/flattenCart.ts:22-30 | The object entries written so far never share a path. |
| Flatten.FlattenedSimple | lib/utils/flattenCart.ts:4-39 | With simple keys, the output is the depth-first list of leaves: nothing is overwritten and nothing is lost. |
| Flatten.LeavesCount | lib/utils/flattenCart.ts:7-35 | Without nulls, flatten makes exactly one assignment per string or number. |
| Flatten.ChildCount | lib/utils/flattenCart.ts:15-19 | The same for one child. |
| Flatten.ElemLeavesCount | lib/utils/flattenCart.ts:13-19 | The same for the first n array elements. |
| Flatten.FieldLeavesCount | lib/utils/flattenCart.ts:22-30 | The same for the first n object entries. |
| Flatten.FlattenedCount | lib/utils/flattenCart.ts:4-39 | With simple keys and no nulls, the output has exactly one entry per string or number of the input. |
| Flatten.ElemLeavesInclude | lib/utils/flattenCart.ts:13-19 | Each earlier element's assignments are among those made so far. |
| Flatten.FieldLeavesInclude | lib/utils/flattenCart.ts:22-30 | Each earlier entry's assignments are among those made so far. |
| Flatten.ArrayElementPath | lib/utils/flattenCart.ts:13-19 | Element i of a non-container kind is written at `prefix.i` (`i` at the root); a container element's leaves are written below that path. |
| Flatten.ObjectEntryPath | lib/utils/flattenCart.ts:22-30 | Entry k of a non-container kind is written at `prefix.k` (`k` at the root); a container's leaves are written below that path. |
| Flatten.RootAndEmptyCases | lib/utils/flattenCart.ts:8-18 | A null root gives no keys; a scalar root is written at the empty path; empty arrays and objects contribute nothing; a null child is written at its key. |
| Flatten.DottedKeyCollision | lib/utils/flattenCart.ts:23-29 | Flattening `{"a.b": 1, a: {b: 2}}` gives the single entry `a.b: 2`: the later write wins and the value 1 is lost. |
| Flatten.DottedKeyLeaves | lib/utils/flattenCart.ts:23-29 | The object `{"a.b": 1, a: {b: 2}}` makes two assignments, both at `a.b`. |
| CartExport.ExportCartData | lib/utils/flattenCart.ts:43-58 | The export is the flattened snapshot. It is the item entries, then the filter entries, then exactly the three metadata entries, with no repeated path. |
| CartExport.Snapshot | lib/utils/flattenCart.ts:47-55 | The `cartData` literal: items, `filters \|\| {}` and the metadata. Its keys are simple (`SnapshotKeysSimple`) and it flattens section by section (`SnapshotLayout`). |
| CartExport.SnapshotKeysSimple | lib/utils/flattenCart.ts:47-55 | Every key in the snapshot is non-empty, dot-free and distinct within its object. |
| CartExport.ItemKeysSimple | lib/utils/flattenCart.ts:47-48 | A cart line's five keys are simple. |
| CartExport.ItemsKeysSimple | lib/utils/flattenCart.ts:47-48 | The items array holds only lines with simple keys. |
| CartExport.FiltersKeysSimple | lib/utils/flattenCart.ts:49 | The filters object's keys are simple, whichever fields are set. |
| CartExport.MetadataKeysSimple | lib/utils/flattenCart.ts:50-54 | The metadata object's keys are simple. |
| CartExport.ThreeFields | lib/utils/flattenCart.ts:22-30 | A three-entry object flattens to its three children in order. |
| CartExport.MetadataLeaves | lib/utils/flattenCart.ts:50-54 | The metadata flattens to `metadata.timestamp`, `metadata.totalItems` and `metadata.totalPrice`, in that order. |
| CartExport.SnapshotLayout | lib/utils/flattenCart.ts:47-57 | The snapshot's `items.*` entries precede `filters.*`, which precede the three `metadata.*` entries. |
| CartExport.ExportLookup | lib/utils/flattenCart.ts:47-57 | Every item, filter and metadata entry is found in the export under its own path. |
| CartExport.ExportSections | lib/utils/flattenCart.ts:47-49 | Item paths start with `items.` and filter paths with `filters.`. Empty items give no item entries; omitted filters give no filter entries. |
| CartExport.ExportEmpty | lib/utils/flattenCart.ts:47-57 | Empty items and no filters export exactly the three metadata keys, with both totals 0. |
| CartExport.ItemEntries | lib/utils/flattenCart.ts:47-48 | Line i's five fields are written at `items.i.id`, `.name`, `.price`, `.quantity` and `.image`. |
| CartExport.ExportFields | lib/utils/flattenCart.ts:47-54 | Line i's fields read back at `items.i.*`. `metadata.totalItems` is Σ quantity and `metadata.totalPrice` is Σ price × quantity of the passed items, and `metadata.timestamp` is the given instant. |
| CartExport.ExportFilterFields | lib/utils/flattenCart.ts:49 | Each set filter field reads back at `filters.<name>`. |
| CartExport.ExportScenario | lib/utils/flattenCart.ts:43-58 | Two lines (1, "A", 10, ×2) and (2, "B", 5, ×1) with category "tools" export the expected line fields, `filters.category = tools`, and totals 3 and 25. |
| CartExport.ScenarioPaths | lib/utils/flattenCart.ts:14 | Indices 0 and 1 give the paths `items.0.*` and `items.1.*`. |
| CartExport.ScenarioTotals | lib/utils/flattenCart.ts:52-53 | The scenario's totals are 3 and 25. |
| FormEncoding.Utf8 | components/filters/ProductFilters.tsx:51 | A character encodes to 1-4 bytes, each below 256; ASCII is one byte of the same value. |
| FormEncoding.HexDigit | components/filters/ProductFilters.tsx:51 | A hexadecimal digit is an unreserved character. |
| FormEncoding.HexValue | components/filters/ProductFilters.tsx:17-20 | A hexadecimal digit's value lies in 0-15. |
| FormEncoding.PercentBytes | components/filters/ProductFilters.tsx:51 | Three characters per byte, all from the encoded alphabet; the first byte is written `%` followed by the upper-case hexadecimal digits of its high and low halves. |
| FormEncoding.PercentBytesAt | components/filters/ProductFilters.tsx:51 | Byte i is written as the three characters at 3i: `%`, then the upper-case hexadecimal digits of its high and low halves. |
| FormEncoding.EncodeChar | components/filters/ProductFilters.tsx:51 | A character encodes to a non-empty run of unreserved characters, `%` and `+`. |
| FormEncoding.Encode | components/filters/ProductFilters.tsx:51 | An encoded name or value contains no `=` or `&`, and is empty iff the input is. |
| FormEncoding.Serialize | components/filters/ProductFilters.tsx:51 | The serialized list is empty iff the list is empty. |
| FormEncoding.Split | components/filters/ProductFilters.tsx:17-20 | Splitting always yields at least one piece. |
| FormEncoding.Decode | components/filters/ProductFilters.tsx:17-20 | Percent-decoding with `+` read as a space. It undoes `Encode` on ASCII text (`DecodeEncode`, `DecodeEncodeChar`). |
| FormEncoding.Parse | components/filters/ProductFilters.tsx:17-20 | Reading a query string into a list of pairs. It undoes `Serialize` on ASCII pairs (`ParseSerialize`). |
| FormEncoding.HexRoundTrip | components/filters/ProductFilters.tsx:17-20 | A written hexadecimal digit reads back as its value. |
| FormEncoding.DecodeEncodeChar | components/filters/ProductFilters.tsx:17-20 | Decoding undoes the encoding of one ASCII character. |
| FormEncoding.DecodeEncode | components/filters/ProductFilters.tsx:17-20 | Decoding undoes encoding on ASCII text. |
| FormEncoding.BreakAtJoin | components/filters/ProductFilters.tsx:17-20 | A piece breaks at its first `=` into name and value. |
| FormEncoding.SplitNone | components/filters/ProductFilters.tsx:17-20 | A text without `&` is one piece. |
| FormEncoding.SplitJoin | components/filters/ProductFilters.tsx:17-20 | `a&b` with `&`-free `a` splits into `a` and the pieces of `b`. |
| FormEncoding.PairRoundTrip | components/filters/ProductFilters.tsx:17-20 | An encoded ASCII pair contains no `&` and parses back to itself. |
| FormEncoding.ParseSerialize | components/filters/ProductFilters.tsx:17-20 | Parsing the serialization of ASCII pairs gives the same pairs in the same order. |
| ProductFilters.FilterProducts | components/filters/ProductFilters.tsx:57-86 | The three conditional passes give the products every active filter accepts. A product is kept iff it is in the input and passes search, category and price; the result keeps the input order. |
| ProductFilters.SearchKeeps | components/filters/ProductFilters.tsx:60-64 | The search filter. Its meaning is stated by `SearchMatchPosition` and `SearchIgnoresCase`. |
| ProductFilters.CategoryKeeps | components/filters/ProductFilters.tsx:68-70 | The category filter: off for "all", otherwise an exact match. It is one conjunct of `Keeps`, which `FilterProducts` applies. |
| ProductFilters.InPriceRange | components/filters/ProductFilters.tsx:73-85 | The price switch. `PriceBucketsPartition` states that its buckets cover every price without overlap. |
| ProductFilters.Keeps | components/filters/ProductFilters.tsx:57-86 | A product passes every active filter. `FilterProducts` keeps exactly these products, and `NoFilterKeepsAll` keeps all of them when no filter is active. |
| ProductFilters.NoFilterKeepsAll | components/filters/ProductFilters.tsx:57-86 | An empty search, category "all" and range "all" keep every product. |
| ProductFilters.SearchMatchPosition | components/filters/ProductFilters.tsx:60-64 | A product kept by a non-empty search has the lower-cased query at some position of its lower-cased title. |
| ProductFilters.SearchIgnoresCase | components/filters/ProductFilters.tsx:61-63 | The search gives the same verdict for a query and its lower-cased form. |
| ProductFilters.PriceBucketsPartition | components/filters/ProductFilters.tsx:73-85 | `under-1000` (< 1000), `1000-5000` (1000 to 5000 inclusive) and `over-5000` (> 5000) cover every price without overlap; any other range value keeps every price. |
| ProductFilters.CategoryList | components/filters/ProductFilters.tsx:40 | The mapped list has one category per product, in order. |
| ProductFilters.Dedup | components/filters/ProductFilters.tsx:40 | The de-duplicated list has no repeats and the same members. |
| ProductFilters.Insert | components/filters/ProductFilters.tsx:41 | Inserting into a sorted list keeps it sorted and adds exactly one occurrence of the value. |
| ProductFilters.SortStrings | components/filters/ProductFilters.tsx:41 | The sorted list is sorted and a permutation of the input. |
| ProductFilters.Categories | components/filters/ProductFilters.tsx:39-42 | `categories` is sorted, has no repeats, and holds exactly the categories of the products. |
| ProductFilters.SortedPairwise | components/filters/ProductFilters.tsx:41 | Sorted by adjacent pairs means every earlier element precedes every later one. |
| ProductFilters.StrictlyIncreasing | components/filters/ProductFilters.tsx:39-42 | A sorted list without repeats is strictly increasing. |
| ProductFilters.NoDupsCount | components/filters/ProductFilters.tsx:40 | A list without repeats holds each value at most once. |
| ProductFilters.PermutationKeepsNoDups | components/filters/ProductFilters.tsx:41 | Sorting cannot introduce a repeat. |
| ProductFilters.BuildQuery | components/filters/ProductFilters.tsx:45-51 | The URL carries `search` only when non-empty, then `category` and `priceRange` only when not "all", in that order. The URL is "/" iff no filter is active, otherwise "?" plus the serialized list. |
| ProductFilters.QueryParams | components/filters/ProductFilters.tsx:46-49 | The pairs the URL effect sets, in order. `BuildQuery` serializes them and `ReadParams` reads them back. |
| ProductFilters.InitialState | components/filters/ProductFilters.tsx:17-20 | The filter state read from a URL with the component's fallbacks. `UrlRoundTrip` and `EmptyCategoryReadsAsAll` state what it reads from the URLs the effect writes. |
| ProductFilters.ParamOr | components/filters/ProductFilters.tsx:17-20 | `get(name) \|\| fallback`: a present non-empty value is the result; a missing name or an empty value gives the fallback. |
| ProductFilters.ReadParams | components/filters/ProductFilters.tsx:17-20 | Reading the written pairs back with the component's fallbacks gives the selection, when category and range are non-empty. |
| ProductFilters.UrlRoundTrip | components/filters/ProductFilters.tsx:17-51 | Loading the page at the URL the effect wrote restores the search, category and range. |
| ProductFilters.QueryParamsAscii | components/filters/ProductFilters.tsx:46-49 | ASCII selections give ASCII pairs. |
| ProductFilters.EmptyCategoryReadsAsAll | components/filters/ProductFilters.tsx:19-48 | An empty category is written to the URL as `category=` but reads back as "all". |

## Left out

- Persistence of the cart to `localStorage` and its reload at mount (contexts/CartContext.tsx:33-48): this is browser I/O and JSON parsing. A reloaded list is not checked for unique ids, so `Valid` on the provider states what the operations keep, not what a reload guarantees.
- React plumbing: hooks, memoisation, the context lookup in `useCart` and its error outside a provider, `router.replace`, and the debounced copy of the search text. The filter chain and the URL use the search value they are given.
- `lib/utils/debounce.ts`: timer scheduling, which has no sequential meaning.
- Floating point: prices and totals are exact `real`s, ids and quantities are `int`s, and `toFixed(2)` display is not modelled.
- The export timestamp `new Date().toISOString()` is a string parameter.
- `Flatten.Value` has null, strings, numbers, arrays and objects. Booleans and `undefined` are not separate cases: `undefined` is merged with null, and a filter field that is present but `undefined` is treated as absent.
- JavaScript enumerates integer-like object keys before the others. The record keeps plain insertion order; no key in the export snapshot is integer-like.
- UI files (the cart sidebar with its export download, product cards, header, layout) and the network fetch of products.
- CartExport.ExportCartData: every item is a store line with its five fields, written in the store's field order, and the filters are written in the order category, priceRange, search. The source accepts any objects with at least `{id, name, price, quantity}` and writes whatever fields they have, in their own key order, and the filters in the caller's key order. Its one caller (components/cart/CartSidebar.tsx:14) passes store lines and `{}`, which the model covers. For the same reason `CartExport.ExportScenario` gives its two lines an empty `image`, which the source would not write for four-field items.
- Strings.Lower: lower-cases ASCII letters only, because full Unicode case mapping is locale data outside the model.
- Strings.StrLeq: compares characters by Unicode scalar value. JavaScript compares UTF-16 code units, so the two orders can differ on text with characters outside the Basic Multilingual Plane.
- FormEncoding.Decode: reads each `%XY` escape as the character with that code, so it matches the standard's UTF-8 decoding only for ASCII. For this reason the round trips `FormEncoding.ParseSerialize` and `ProductFilters.UrlRoundTrip` are stated for ASCII text.
- FormEncoding.ParseSerialize: stated for ASCII names and values only, because `FormEncoding.Decode` reads each escape as one character; the standard's parser reads back any list its serializer wrote.
- ProductFilters.UrlRoundTrip: stated for ASCII search, category and range values, for the same reason as `FormEncoding.ParseSerialize`. It also requires a non-empty category and range, because the component reads an empty value back as its default (`ProductFilters.EmptyCategoryReadsAsAll`).
