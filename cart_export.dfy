/** `exportCartData` of lib/utils/flattenCart.ts: the cart snapshot (items,
    filters and freshly computed metadata) handed to the flattener. The
    current instant, `new Date().toISOString()`, is a parameter. */
module CartExport {
  import opened Strings
  import opened Records
  import opened Flatten
  import CartContext

  type CartItem = CartContext.CartItem

  /** The optional filter context; an absent field is left out of the
      snapshot, not written as null. */
  datatype Filters = Filters(category: Option<string>, priceRange: Option<string>, search: Option<string>)

  /** A cart line as an object, fields in the order the store creates them. */
  function ItemValue(item: CartItem): Value
  {
    Obj([("id", Num(item.id as real)), ("name", Str(item.name)), ("price", Num(item.price)),
         ("quantity", Num(item.quantity as real)), ("image", Str(item.image))])
  }

  /** The `items` array of the snapshot. */
  function ItemsValue(items: seq<CartItem>): Value
  {
    Arr(seq(|items|, i requires 0 <= i < |items| => ItemValue(items[i])))
  }

  /** One optional filter field: present only when set. */
  function OptionalField(key: string, value: Option<string>): seq<(string, Value)>
  {
    if value.Some? then [(key, Str(value.value))] else []
  }

  /** `filters || {}`. */
  function FiltersValue(filters: Option<Filters>): Value
  {
    match filters
    case None => Obj([])
    case Some(f) =>
      Obj(OptionalField("category", f.category) + OptionalField("priceRange", f.priceRange)
          + OptionalField("search", f.search))
  }

  /** The `metadata` object: the timestamp and the totals of the passed items. */
  function MetadataValue(items: seq<CartItem>, timestamp: string): Value
  {
    Obj([("timestamp", Str(timestamp)),
         ("totalItems", Num(CartContext.TotalItems(items) as real)),
         ("totalPrice", Num(CartContext.TotalPrice(items)))])
  }

  /** The `cartData` object literal. */
  function Snapshot(items: seq<CartItem>, filters: Option<Filters>, timestamp: string): Value
  {
    Obj([("items", ItemsValue(items)), ("filters", FiltersValue(filters)),
         ("metadata", MetadataValue(items, timestamp))])
  }

  /** The three entries the metadata contributes, in order. */
  function MetadataEntries(items: seq<CartItem>, timestamp: string): seq<Entry>
  {
    [("metadata.timestamp", Str(timestamp)),
     ("metadata.totalItems", Num(CartContext.TotalItems(items) as real)),
     ("metadata.totalPrice", Num(CartContext.TotalPrice(items)))]
  }

  /** `exportCartData(items, filters)`: the item entries, then the filter
      entries, then exactly the three metadata entries. */
  method ExportCartData(items: seq<CartItem>, filters: Option<Filters>, timestamp: string) returns (r: seq<Entry>)
    ensures r == Flattened(Snapshot(items, filters, timestamp))
    ensures r == Leaves(ItemsValue(items), "items") + Leaves(FiltersValue(filters), "filters")
                 + MetadataEntries(items, timestamp)
    ensures DistinctKeys(r)
  {
    var cartData := Snapshot(items, filters, timestamp);
    SnapshotKeysSimple(items, filters, timestamp);
    SnapshotLayout(items, filters, timestamp);
    r := FlattenCart(cartData);
  }

  // ---------------------------------------------------------------------

  /** Every object in the snapshot has plain, distinct keys. */
  lemma SnapshotKeysSimple(items: seq<CartItem>, filters: Option<Filters>, timestamp: string)
    ensures SimpleKeys(Snapshot(items, filters, timestamp))
  {
    ItemsKeysSimple(items);
    FiltersKeysSimple(filters);
    MetadataKeysSimple(items, timestamp);
    var fields := Snapshot(items, filters, timestamp).fields;
    assert fields[0].0 == "items" && fields[1].0 == "filters" && fields[2].0 == "metadata";
    assert PlainSegment("items") && PlainSegment("filters") && PlainSegment("metadata");
  }

  lemma ItemKeysSimple(item: CartItem)
    ensures SimpleKeys(ItemValue(item))
  {
    assert PlainSegment("id") && PlainSegment("name") && PlainSegment("price");
    assert PlainSegment("quantity") && PlainSegment("image");
  }

  lemma ItemsKeysSimple(items: seq<CartItem>)
    ensures SimpleKeys(ItemsValue(items))
  {
    var arr := ItemsValue(items);
    forall i | 0 <= i < |arr.elems| ensures SimpleKeys(arr.elems[i]) {
      ItemKeysSimple(items[i]);
    }
  }

  lemma FiltersKeysSimple(filters: Option<Filters>)
    ensures SimpleKeys(FiltersValue(filters))
  {
    if filters.Some? {
      var f := filters.value;
      var c := OptionalField("category", f.category);
      var p := OptionalField("priceRange", f.priceRange);
      var s := OptionalField("search", f.search);
      var fields := c + p + s;
      assert FiltersValue(filters).fields == fields;
      assert PlainSegment("category") && PlainSegment("priceRange") && PlainSegment("search");
      forall i | 0 <= i < |fields|
        ensures fields[i].0 == (if i < |c| then "category" else if i < |c| + |p| then "priceRange" else "search")
        ensures !IsNested(fields[i].1)
      {
      }
    }
  }

  lemma MetadataKeysSimple(items: seq<CartItem>, timestamp: string)
    ensures SimpleKeys(MetadataValue(items, timestamp))
  {
    assert PlainSegment("timestamp") && PlainSegment("totalItems") && PlainSegment("totalPrice");
  }

  /** An object with three entries flattens to its three children in order. */
  lemma ThreeFields(v: Value, prefix: string)
    requires v.Obj? && |v.fields| == 3
    ensures Leaves(v, prefix) == Child(v.fields[0].1, Join(prefix, v.fields[0].0))
      + Child(v.fields[1].1, Join(prefix, v.fields[1].0)) + Child(v.fields[2].1, Join(prefix, v.fields[2].0))
  {
    assert FieldLeaves(v, prefix, 1) == [] + Child(v.fields[0].1, Join(prefix, v.fields[0].0));
    assert FieldLeaves(v, prefix, 2) == FieldLeaves(v, prefix, 1) + Child(v.fields[1].1, Join(prefix, v.fields[1].0));
    assert FieldLeaves(v, prefix, 3) == FieldLeaves(v, prefix, 2) + Child(v.fields[2].1, Join(prefix, v.fields[2].0));
  }

  /** The metadata object flattens to its three entries, in order. */
  lemma MetadataLeaves(items: seq<CartItem>, timestamp: string)
    ensures Leaves(MetadataValue(items, timestamp), "metadata") == MetadataEntries(items, timestamp)
  {
    ThreeFields(MetadataValue(items, timestamp), "metadata");
    assert Join("metadata", "timestamp") == "metadata.timestamp";
    assert Join("metadata", "totalItems") == "metadata.totalItems";
    assert Join("metadata", "totalPrice") == "metadata.totalPrice";
  }

  /** The snapshot flattens to its items, then its filters, then the three
      metadata entries. */
  lemma SnapshotLayout(items: seq<CartItem>, filters: Option<Filters>, timestamp: string)
    ensures Leaves(Snapshot(items, filters, timestamp), "") ==
      Leaves(ItemsValue(items), "items") + Leaves(FiltersValue(filters), "filters") + MetadataEntries(items, timestamp)
  {
    ThreeFields(Snapshot(items, filters, timestamp), "");
    MetadataLeaves(items, timestamp);
    assert Join("", "items") == "items" && Join("", "filters") == "filters" && Join("", "metadata") == "metadata";
  }

  /** The snapshot flattens without collisions: every entry is found by its
      own path. */
  lemma ExportLookup(items: seq<CartItem>, filters: Option<Filters>, timestamp: string, e: Entry)
    requires e in Leaves(ItemsValue(items), "items") || e in Leaves(FiltersValue(filters), "filters")
             || e in MetadataEntries(items, timestamp)
    ensures Lookup(Flattened(Snapshot(items, filters, timestamp)), e.0) == Some(e.1)
  {
    var snap := Snapshot(items, filters, timestamp);
    SnapshotKeysSimple(items, filters, timestamp);
    FlattenedSimple(snap);
    LeavesDistinct(snap, "");
    SnapshotLayout(items, filters, timestamp);
    LookupMember(Flattened(snap), e);
  }

  /** Item entries all lie under `items.`, filter entries under `filters.`;
      with no filters or no items those sections are empty. */
  lemma ExportSections(items: seq<CartItem>, filters: Option<Filters>)
    ensures forall e | e in Leaves(ItemsValue(items), "items") :: "items." <= e.0
    ensures forall e | e in Leaves(FiltersValue(filters), "filters") :: "filters." <= e.0
    ensures items == [] ==> Leaves(ItemsValue(items), "items") == []
    ensures filters.None? ==> Leaves(FiltersValue(filters), "filters") == []
  {
    forall e | e in Leaves(ItemsValue(items), "items") ensures "items." <= e.0 {
      LeavesShape(ItemsValue(items), "items", e);
    }
    forall e | e in Leaves(FiltersValue(filters), "filters") ensures "filters." <= e.0 {
      LeavesShape(FiltersValue(filters), "filters", e);
    }
  }

  /** Empty items and no filters export exactly the three metadata keys, with
      both totals zero. */
  lemma ExportEmpty(timestamp: string)
    ensures Flattened(Snapshot([], None, timestamp)) ==
      [("metadata.timestamp", Str(timestamp)), ("metadata.totalItems", Num(0.0)), ("metadata.totalPrice", Num(0.0))]
  {
    SnapshotKeysSimple([], None, timestamp);
    FlattenedSimple(Snapshot([], None, timestamp));
    SnapshotLayout([], None, timestamp);
    ExportSections([], None);
  }

  /** The fields of item i are written under `items.i.`. */
  lemma ItemEntries(items: seq<CartItem>, i: nat)
    requires i < |items|
    ensures var at := "items." + NatToString(i) + ".";
      var part := Leaves(ItemsValue(items), "items");
      && (at + "id", Num(items[i].id as real)) in part
      && (at + "name", Str(items[i].name)) in part
      && (at + "price", Num(items[i].price)) in part
      && (at + "quantity", Num(items[i].quantity as real)) in part
      && (at + "image", Str(items[i].image)) in part
  {
    var prefix := Join("items", NatToString(i));
    var at := "items." + NatToString(i) + ".";
    assert prefix + "." == at;
    ArrayElementPath(ItemsValue(items), "items", i);
    var item := ItemValue(items[i]);
    assert ItemsValue(items).elems[i] == item;
    ObjectEntryPath(item, prefix, 0);
    ObjectEntryPath(item, prefix, 1);
    ObjectEntryPath(item, prefix, 2);
    ObjectEntryPath(item, prefix, 3);
    ObjectEntryPath(item, prefix, 4);
  }

  /** Item i is exported field by field under `items.i.`, and the metadata
      carries the totals of the passed items. */
  lemma ExportFields(items: seq<CartItem>, filters: Option<Filters>, timestamp: string, i: nat)
    requires i < |items|
    ensures var r := Flattened(Snapshot(items, filters, timestamp));
      var at := "items." + NatToString(i) + ".";
      && Lookup(r, at + "id") == Some(Num(items[i].id as real))
      && Lookup(r, at + "name") == Some(Str(items[i].name))
      && Lookup(r, at + "price") == Some(Num(items[i].price))
      && Lookup(r, at + "quantity") == Some(Num(items[i].quantity as real))
      && Lookup(r, at + "image") == Some(Str(items[i].image))
      && Lookup(r, "metadata.totalItems") == Some(Num(CartContext.TotalItems(items) as real))
      && Lookup(r, "metadata.totalPrice") == Some(Num(CartContext.TotalPrice(items)))
      && Lookup(r, "metadata.timestamp") == Some(Str(timestamp))
  {
    var at := "items." + NatToString(i) + ".";
    ItemEntries(items, i);
    ExportLookup(items, filters, timestamp, (at + "id", Num(items[i].id as real)));
    ExportLookup(items, filters, timestamp, (at + "name", Str(items[i].name)));
    ExportLookup(items, filters, timestamp, (at + "price", Num(items[i].price)));
    ExportLookup(items, filters, timestamp, (at + "quantity", Num(items[i].quantity as real)));
    ExportLookup(items, filters, timestamp, (at + "image", Str(items[i].image)));
    var meta := MetadataEntries(items, timestamp);
    ExportLookup(items, filters, timestamp, meta[0]);
    ExportLookup(items, filters, timestamp, meta[1]);
    ExportLookup(items, filters, timestamp, meta[2]);
  }

  /** A set filter field is exported at `filters.<name>`. */
  lemma ExportFilterFields(items: seq<CartItem>, f: Filters, timestamp: string)
    ensures var r := Flattened(Snapshot(items, Some(f), timestamp));
      && (f.category.Some? ==> Lookup(r, "filters.category") == Some(Str(f.category.value)))
      && (f.priceRange.Some? ==> Lookup(r, "filters.priceRange") == Some(Str(f.priceRange.value)))
      && (f.search.Some? ==> Lookup(r, "filters.search") == Some(Str(f.search.value)))
  {
    var fv := FiltersValue(Some(f));
    var c := OptionalField("category", f.category);
    var p := OptionalField("priceRange", f.priceRange);
    var s := OptionalField("search", f.search);
    assert fv.fields == c + p + s;
    if f.category.Some? {
      assert fv.fields[0] == ("category", Str(f.category.value));
      assert Join("filters", "category") == "filters.category";
      ObjectEntryPath(fv, "filters", 0);
      ExportLookup(items, Some(f), timestamp, ("filters.category", Str(f.category.value)));
    }
    if f.priceRange.Some? {
      assert fv.fields[|c|] == ("priceRange", Str(f.priceRange.value));
      assert Join("filters", "priceRange") == "filters.priceRange";
      ObjectEntryPath(fv, "filters", |c|);
      ExportLookup(items, Some(f), timestamp, ("filters.priceRange", Str(f.priceRange.value)));
    }
    if f.search.Some? {
      assert fv.fields[|c| + |p|] == ("search", Str(f.search.value));
      assert Join("filters", "search") == "filters.search";
      ObjectEntryPath(fv, "filters", |c| + |p|);
      ExportLookup(items, Some(f), timestamp, ("filters.search", Str(f.search.value)));
    }
  }

  /** Two lines and a category filter: the lines by index, the filter, and
      totals of 3 items and 25 in price. */
  lemma ExportScenario(items: seq<CartItem>, filters: Option<Filters>, timestamp: string)
    requires items == [CartContext.CartItem(1, "A", 10.0, 2, ""), CartContext.CartItem(2, "B", 5.0, 1, "")]
    requires filters == Some(Filters(Some("tools"), None, None))
    ensures var r := Flattened(Snapshot(items, filters, timestamp));
      && Lookup(r, "items.0.id") == Some(Num(1.0))
      && Lookup(r, "items.0.quantity") == Some(Num(2.0))
      && Lookup(r, "items.1.name") == Some(Str("B"))
      && Lookup(r, "items.1.price") == Some(Num(5.0))
      && Lookup(r, "filters.category") == Some(Str("tools"))
      && Lookup(r, "metadata.totalItems") == Some(Num(3.0))
      && Lookup(r, "metadata.totalPrice") == Some(Num(25.0))
  {
    ExportFields(items, filters, timestamp, 0);
    ExportFields(items, filters, timestamp, 1);
    ExportFilterFields(items, filters.value, timestamp);
    ScenarioPaths();
    ScenarioTotals(items);
  }

  lemma ScenarioPaths()
    ensures "items." + NatToString(0) + "." + "id" == "items.0.id"
    ensures "items." + NatToString(0) + "." + "quantity" == "items.0.quantity"
    ensures "items." + NatToString(1) + "." + "name" == "items.1.name"
    ensures "items." + NatToString(1) + "." + "price" == "items.1.price"
  {
    assert NatToString(0) == "0" && NatToString(1) == "1";
  }

  lemma ScenarioTotals(items: seq<CartItem>)
    requires items == [CartContext.CartItem(1, "A", 10.0, 2, ""), CartContext.CartItem(2, "B", 5.0, 1, "")]
    ensures CartContext.TotalItems(items) == 3 && CartContext.TotalPrice(items) == 25.0
  {
    var tail := items[1..];
    assert tail == [items[1]] && tail[1..] == [];
    assert CartContext.TotalItems(tail) == 1 + CartContext.TotalItems(tail[1..]);
    assert CartContext.TotalPrice(tail) == 5.0 + CartContext.TotalPrice(tail[1..]);
  }
}
