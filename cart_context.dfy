/** The cart line-item store of contexts/CartContext.tsx: an ordered list of
    line items and an open/closed flag. Each item updater of the provider is
    a pure function of the previous list; the provider itself is a class
    whose methods replace its fields, as the React setters do. */
module CartContext {
  import opened Catalog
  import opened Seqs

  /** One cart line: a product id, its display data and the quantity. */
  datatype CartItem = CartItem(id: int, name: string, price: real, quantity: int, image: string)

  /** `items.find(item => item.id === id)` finds something. */
  predicate HasLine(items: seq<CartItem>, id: int)
  {
    exists i | 0 <= i < |items| :: items[i].id == id
  }

  /** No two lines carry the same product id. */
  predicate UniqueIds(items: seq<CartItem>)
  {
    forall i, j | 0 <= i < j < |items| :: items[i].id != items[j].id
  }

  /** Every line has a quantity of at least one. */
  predicate AllPositive(items: seq<CartItem>)
  {
    forall i | 0 <= i < |items| :: items[i].quantity >= 1
  }

  /** The line addItem appends for a product not yet in the cart. */
  function NewLine(product: Product, quantity: int): CartItem
  {
    CartItem(product.id, product.title, product.price, quantity, product.image)
  }

  /** The `prevItems.map(...)` of addItem: the matching line's quantity grows. */
  function Increase(items: seq<CartItem>, id: int, quantity: int): seq<CartItem>
  {
    seq(|items|, i requires 0 <= i < |items| =>
      if items[i].id == id then items[i].(quantity := items[i].quantity + quantity) else items[i])
  }

  /** The updater passed to setItems by addItem: afterwards the product has a
      line; a line is appended only when it had none, and the lines already
      there keep their ids and places. */
  function AddLine(items: seq<CartItem>, product: Product, quantity: int): (r: seq<CartItem>)
    ensures HasLine(r, product.id)
    ensures |r| == if HasLine(items, product.id) then |items| else |items| + 1
    ensures forall i | 0 <= i < |items| :: r[i].id == items[i].id
  {
    if HasLine(items, product.id) then
      var r := Increase(items, product.id, quantity);
      assert HasLine(r, product.id) by {
        var k :| 0 <= k < |items| && items[k].id == product.id;
        assert r[k].id == product.id;
      }
      r
    else
      var r := items + [NewLine(product, quantity)];
      assert r[|items|].id == product.id;
      r
  }

  /** The updater passed to setItems by removeItem: no line keeps the id,
      and every line with another id stays. */
  function RemoveLines(items: seq<CartItem>, id: int): (r: seq<CartItem>)
    ensures !HasLine(r, id)
    ensures forall x :: x in r <==> x in items && x.id != id
  {
    var keep := (item: CartItem) => item.id != id;
    forall x ensures x in Filter(items, keep) <==> x in items && x.id != id {
      FilterMembers(items, keep, x);
    }
    Filter(items, keep)
  }

  /** The updater passed to setItems by updateQuantity for a positive
      quantity: the id's lines now hold the quantity, the other lines are
      untouched, and only quantities change. */
  function SetQuantity(items: seq<CartItem>, id: int, quantity: int): (r: seq<CartItem>)
    ensures |r| == |items|
    ensures forall i | 0 <= i < |r| :: r[i].id == id ==> r[i].quantity == quantity
    ensures forall i | 0 <= i < |r| :: r[i].id != id ==> r[i] == items[i]
    ensures forall i | 0 <= i < |r| :: r[i].(quantity := items[i].quantity) == items[i]
  {
    seq(|items|, i requires 0 <= i < |items| =>
      if items[i].id == id then items[i].(quantity := quantity) else items[i])
  }

  /** `totalItems`: the sum of the line quantities. */
  function TotalItems(items: seq<CartItem>): int
  {
    if items == [] then 0 else items[0].quantity + TotalItems(items[1..])
  }

  /** `totalPrice`: the sum of price times quantity over the lines. */
  function TotalPrice(items: seq<CartItem>): real
  {
    if items == [] then 0.0 else items[0].price * items[0].quantity as real + TotalPrice(items[1..])
  }

  /** The quantity the cart holds of one product, over all lines with its id:
      the cart seen as a bag of product ids. */
  function QuantityOf(items: seq<CartItem>, id: int): int
  {
    if items == [] then 0 else (if items[0].id == id then items[0].quantity else 0) + QuantityOf(items[1..], id)
  }

  /** The sum of a list of quantities. */
  function Sum(quantities: seq<int>): int
  {
    if quantities == [] then 0 else quantities[0] + Sum(quantities[1..])
  }

  /** A run of addItem calls for one product, in order. */
  function AddAll(items: seq<CartItem>, product: Product, quantities: seq<int>): seq<CartItem>
    decreases quantities
  {
    if quantities == [] then items
    else AddAll(AddLine(items, product, quantities[0]), product, quantities[1..])
  }

  /** The provider's state and the operations it hands out. */
  class CartProvider {
    var items: seq<CartItem>
    var isOpen: bool

    ghost predicate Valid()
      reads this
    {
      UniqueIds(items)
    }

    constructor ()
      ensures Valid()
      ensures items == [] && !isOpen
    {
      items := [];
      isOpen := false;
    }

    method AddItem(product: Product, quantity: int)
      requires Valid()
      modifies this
      ensures Valid()
      ensures items == AddLine(old(items), product, quantity)
      ensures isOpen == old(isOpen)
      ensures quantity >= 1 && AllPositive(old(items)) ==> AllPositive(items)
      ensures TotalItems(items) == TotalItems(old(items)) + quantity
    {
      AddLineKeepsInvariants(items, product, quantity);
      AddLineTotals(items, product, quantity);
      items := AddLine(items, product, quantity);
    }

    method RemoveItem(id: int)
      requires Valid()
      modifies this
      ensures Valid()
      ensures items == RemoveLines(old(items), id)
      ensures isOpen == old(isOpen)
      ensures AllPositive(old(items)) ==> AllPositive(items)
      ensures TotalItems(items) == TotalItems(old(items)) - QuantityOf(old(items), id)
    {
      RemoveLinesKeepsInvariants(items, id);
      RemoveLinesQuantities(items, id);
      items := RemoveLines(items, id);
    }

    method UpdateQuantity(id: int, quantity: int)
      requires Valid()
      modifies this
      ensures Valid()
      ensures quantity <= 0 ==> items == RemoveLines(old(items), id)
      ensures quantity > 0 ==> items == SetQuantity(old(items), id, quantity)
      ensures isOpen == old(isOpen)
      ensures AllPositive(old(items)) ==> AllPositive(items)
    {
      if quantity <= 0 {
        RemoveItem(id);
        return;
      }
      SetQuantityKeepsInvariants(items, id, quantity);
      items := SetQuantity(items, id, quantity);
    }

    method ClearCart()
      modifies this
      ensures Valid()
      ensures items == [] && isOpen == old(isOpen)
      ensures TotalItems(items) == 0 && TotalPrice(items) == 0.0
    {
      items := [];
    }

    method OpenCart()
      requires Valid()
      modifies this
      ensures Valid()
      ensures isOpen && items == old(items)
    {
      isOpen := true;
    }

    method CloseCart()
      requires Valid()
      modifies this
      ensures Valid()
      ensures !isOpen && items == old(items)
    {
      isOpen := false;
    }
  }

  // ---------------------------------------------------------------------
  // addItem

  /** Adding a product already in the cart grows that line's quantity and
      leaves the length, the order and every other field alone. */
  lemma AddItemMerges(items: seq<CartItem>, product: Product, quantity: int)
    requires HasLine(items, product.id)
    ensures var r := AddLine(items, product, quantity);
      && |r| == |items|
      && (forall i | 0 <= i < |items| ::
            && r[i].id == items[i].id && r[i].name == items[i].name
            && r[i].price == items[i].price && r[i].image == items[i].image
            && r[i].quantity == if items[i].id == product.id then items[i].quantity + quantity else items[i].quantity)
  {
  }

  /** Adding a product not in the cart appends exactly one new line built from
      the product, and the earlier lines are untouched. */
  lemma AddItemAppends(items: seq<CartItem>, product: Product, quantity: int)
    requires !HasLine(items, product.id)
    ensures var r := AddLine(items, product, quantity);
      && |r| == |items| + 1
      && r[..|items|] == items
      && r[|items|] == CartItem(product.id, product.title, product.price, quantity, product.image)
  {
    var r := AddLine(items, product, quantity);
    assert r == items + [NewLine(product, quantity)];
  }

  /** addItem keeps the ids unique, and keeps every quantity positive when
      the added quantity is positive. */
  lemma AddLineKeepsInvariants(items: seq<CartItem>, product: Product, quantity: int)
    ensures UniqueIds(items) ==> UniqueIds(AddLine(items, product, quantity))
    ensures AllPositive(items) && quantity >= 1 ==> AllPositive(AddLine(items, product, quantity))
  {
    var r := AddLine(items, product, quantity);
    if !HasLine(items, product.id) {
      assert r == items + [NewLine(product, quantity)];
      assert forall i | 0 <= i < |items| :: r[i] == items[i];
    }
  }

  /** In a cart with unique ids, QuantityOf is the quantity on the one line. */
  lemma {:induction false} QuantityOfLine(items: seq<CartItem>, k: nat)
    requires UniqueIds(items) && k < |items|
    ensures QuantityOf(items, items[k].id) == items[k].quantity
  {
    if k == 0 {
      QuantityOfAbsent(items[1..], items[0].id);
    } else {
      assert items[1..][k - 1] == items[k];
      QuantityOfLine(items[1..], k - 1);
    }
  }

  /** A product with no line has quantity zero. */
  lemma {:induction false} QuantityOfAbsent(items: seq<CartItem>, id: int)
    requires !HasLine(items, id)
    ensures QuantityOf(items, id) == 0
  {
    if items != [] {
      assert !HasLine(items[1..], id) by {
        forall i | 0 <= i < |items[1..]| ensures items[1..][i].id != id {
          assert items[1..][i] == items[i + 1];
        }
      }
      QuantityOfAbsent(items[1..], id);
    }
  }

  /** addItem grows the added product's quantity by exactly the added amount
      and leaves every other product's quantity alone. */
  lemma AddLineQuantities(items: seq<CartItem>, product: Product, quantity: int)
    requires UniqueIds(items)
    ensures QuantityOf(AddLine(items, product, quantity), product.id) == QuantityOf(items, product.id) + quantity
    ensures forall id | id != product.id ::
      QuantityOf(AddLine(items, product, quantity), id) == QuantityOf(items, id)
  {
    var r := AddLine(items, product, quantity);
    AddLineKeepsInvariants(items, product, quantity);
    assert |r| >= |items|;
    assert forall i | 0 <= i < |items| :: r[i].id == items[i].id;
    if HasLine(items, product.id) {
      var k :| 0 <= k < |items| && items[k].id == product.id;
      QuantityOfLine(items, k);
      QuantityOfLine(r, k);
    } else {
      QuantityOfAbsent(items, product.id);
      QuantityOfLine(r, |items|);
    }
    forall id | id != product.id
      ensures QuantityOf(r, id) == QuantityOf(items, id)
    {
      if HasLine(items, id) {
        var k :| 0 <= k < |items| && items[k].id == id;
        QuantityOfLine(items, k);
        QuantityOfLine(r, k);
      } else {
        QuantityOfAbsent(items, id);
        assert !HasLine(r, id) by {
          if !HasLine(items, product.id) {
            assert r == items + [NewLine(product, quantity)];
          }
        }
        QuantityOfAbsent(r, id);
      }
    }
  }

  /** n adds of one product leave exactly one line for it, whose quantity has
      grown by the sum of the added amounts; other products are unaffected. */
  lemma {:induction false} RepeatedAdds(items: seq<CartItem>, product: Product, quantities: seq<int>)
    requires UniqueIds(items)
    ensures var r := AddAll(items, product, quantities);
      && UniqueIds(r)
      && (quantities != [] ==> HasLine(r, product.id))
      && QuantityOf(r, product.id) == QuantityOf(items, product.id) + Sum(quantities)
      && forall id | id != product.id :: QuantityOf(r, id) == QuantityOf(items, id)
    decreases quantities
  {
    if quantities != [] {
      var next := AddLine(items, product, quantities[0]);
      AddLineKeepsInvariants(items, product, quantities[0]);
      AddLineQuantities(items, product, quantities[0]);
      RepeatedAdds(next, product, quantities[1..]);
      assert HasLine(next, product.id) by {
        if HasLine(items, product.id) {
          var k :| 0 <= k < |items| && items[k].id == product.id;
          assert next[k].id == product.id;
        } else {
          assert next == items + [NewLine(product, quantities[0])];
          assert next[|items|].id == product.id;
        }
      }
      if quantities[1..] == [] {
        assert AddAll(next, product, quantities[1..]) == next;
      } else {
        assert HasLine(AddAll(next, product, quantities[1..]), product.id);
      }
    }
  }

  // ---------------------------------------------------------------------
  // removeItem

  /** removeItem drops every line with the id and keeps the others, in order;
      for an absent id it changes nothing. */
  lemma RemoveItemDrops(items: seq<CartItem>, id: int)
    ensures var r := RemoveLines(items, id);
      && !HasLine(r, id)
      && (forall x :: x in r <==> x in items && x.id != id)
      && IsSubsequence(r, items)
      && (!HasLine(items, id) ==> r == items)
  {
    var keep := (item: CartItem) => item.id != id;
    var r := RemoveLines(items, id);
    forall x ensures x in r <==> x in items && x.id != id {
      FilterMembers(items, keep, x);
    }
    FilterIsSubsequence(items, keep);
    if !HasLine(items, id) {
      FilterAll(items, keep);
    }
  }

  /** A line list with unique ids stays so after prepending a line whose id
      does not occur in it. */
  lemma UniqueIdsCons(x: CartItem, rest: seq<CartItem>)
    requires UniqueIds(rest) && !HasLine(rest, x.id)
    ensures UniqueIds([x] + rest)
  {
    var s := [x] + rest;
    forall i, j | 0 <= i < j < |s| ensures s[i].id != s[j].id {
      assert s[j] == rest[j - 1];
      if i > 0 {
        assert s[i] == rest[i - 1];
      }
    }
  }

  /** removeItem keeps the ids unique and every quantity positive. */
  lemma {:induction false} RemoveLinesKeepsInvariants(items: seq<CartItem>, id: int)
    ensures UniqueIds(items) ==> UniqueIds(RemoveLines(items, id))
    ensures AllPositive(items) ==> AllPositive(RemoveLines(items, id))
  {
    var keep := (item: CartItem) => item.id != id;
    var r := RemoveLines(items, id);
    forall x | x in r ensures x in items {
      FilterMembers(items, keep, x);
    }
    if items != [] && UniqueIds(items) {
      var tail := RemoveLines(items[1..], id);
      assert UniqueIds(items[1..]) by {
        forall i, j | 0 <= i < j < |items[1..]| ensures items[1..][i].id != items[1..][j].id {
          assert items[1..][i] == items[i + 1] && items[1..][j] == items[j + 1];
        }
      }
      RemoveLinesKeepsInvariants(items[1..], id);
      if keep(items[0]) {
        assert r == [items[0]] + tail;
        assert !HasLine(tail, items[0].id) by {
          forall i | 0 <= i < |tail| ensures tail[i].id != items[0].id {
            FilterMembers(items[1..], keep, tail[i]);
            var j :| 0 <= j < |items[1..]| && items[1..][j] == tail[i];
            assert items[j + 1] == tail[i];
          }
        }
        UniqueIdsCons(items[0], tail);
      }
    }
    if AllPositive(items) {
      forall i | 0 <= i < |r| ensures r[i].quantity >= 1 {
        FilterMembers(items, keep, r[i]);
      }
    }
  }

  /** removeItem zeroes the removed product's quantity, keeps every other
      product's quantity, and lowers totalItems by what was removed. */
  lemma {:induction false} RemoveLinesQuantities(items: seq<CartItem>, id: int)
    ensures QuantityOf(RemoveLines(items, id), id) == 0
    ensures forall other | other != id :: QuantityOf(RemoveLines(items, id), other) == QuantityOf(items, other)
    ensures TotalItems(RemoveLines(items, id)) == TotalItems(items) - QuantityOf(items, id)
  {
    if items != [] {
      RemoveLinesQuantities(items[1..], id);
    }
  }

  // ---------------------------------------------------------------------
  // updateQuantity

  /** updateQuantity with a positive quantity sets the matching line's
      quantity and nothing else; for an absent id it changes nothing. */
  lemma SetQuantityReplaces(items: seq<CartItem>, id: int, quantity: int)
    ensures var r := SetQuantity(items, id, quantity);
      && |r| == |items|
      && (forall i | 0 <= i < |items| ::
            && r[i].id == items[i].id && r[i].name == items[i].name
            && r[i].price == items[i].price && r[i].image == items[i].image
            && r[i].quantity == if items[i].id == id then quantity else items[i].quantity)
      && (!HasLine(items, id) ==> r == items)
  {
  }

  /** updateQuantity keeps the ids unique, and keeps every quantity positive
      when the new quantity is positive. */
  lemma SetQuantityKeepsInvariants(items: seq<CartItem>, id: int, quantity: int)
    ensures UniqueIds(items) ==> UniqueIds(SetQuantity(items, id, quantity))
    ensures AllPositive(items) && quantity >= 1 ==> AllPositive(SetQuantity(items, id, quantity))
  {
  }

  /** After updateQuantity with a positive quantity the product's quantity is
      exactly that, and totalItems moves by the difference. */
  lemma {:induction false} SetQuantityTotals(items: seq<CartItem>, id: int, quantity: int)
    requires UniqueIds(items) && HasLine(items, id)
    ensures QuantityOf(SetQuantity(items, id, quantity), id) == quantity
    ensures TotalItems(SetQuantity(items, id, quantity)) == TotalItems(items) - QuantityOf(items, id) + quantity
  {
    var r := SetQuantity(items, id, quantity);
    var k :| 0 <= k < |items| && items[k].id == id;
    QuantityOfLine(items, k);
    QuantityOfLine(r, k);
    TotalItemsReplaceLine(items, id, quantity);
  }

  /** Replacing the quantity of the one line with the id changes the total by
      the difference. */
  lemma {:induction false} TotalItemsReplaceLine(items: seq<CartItem>, id: int, quantity: int)
    requires UniqueIds(items) && HasLine(items, id)
    ensures TotalItems(SetQuantity(items, id, quantity)) == TotalItems(items) - QuantityOf(items, id) + quantity
  {
    var r := SetQuantity(items, id, quantity);
    assert r[1..] == SetQuantity(items[1..], id, quantity);
    if items[0].id == id {
      assert !HasLine(items[1..], id) by {
        forall i | 0 <= i < |items[1..]| ensures items[1..][i].id != id {
          assert items[1..][i] == items[i + 1];
        }
      }
      assert r[1..] == items[1..];
      QuantityOfAbsent(items[1..], id);
    } else {
      var k :| 0 <= k < |items| && items[k].id == id;
      assert items[1..][k - 1] == items[k];
      assert UniqueIds(items[1..]) by {
        forall i, j | 0 <= i < j < |items[1..]| ensures items[1..][i].id != items[1..][j].id {
          assert items[1..][i] == items[i + 1] && items[1..][j] == items[j + 1];
        }
      }
      TotalItemsReplaceLine(items[1..], id, quantity);
    }
  }

  // ---------------------------------------------------------------------
  // totals

  /** The totals of a concatenation add up. */
  lemma {:induction false} TotalsAppend(a: seq<CartItem>, b: seq<CartItem>)
    ensures TotalItems(a + b) == TotalItems(a) + TotalItems(b)
    ensures TotalPrice(a + b) == TotalPrice(a) + TotalPrice(b)
  {
    if a != [] {
      assert (a + b)[0] == a[0];
      assert (a + b)[1..] == a[1..] + b;
      TotalsAppend(a[1..], b);
    } else {
      assert a + b == b;
    }
  }

  /** With every quantity positive, totalItems is at least the number of
      lines, so a non-empty cart shows a positive count. */
  lemma {:induction false} TotalItemsBound(items: seq<CartItem>)
    requires AllPositive(items)
    ensures TotalItems(items) >= |items|
  {
    if items != [] {
      assert AllPositive(items[1..]) by {
        forall i | 0 <= i < |items[1..]| ensures items[1..][i].quantity >= 1 {
          assert items[1..][i] == items[i + 1];
        }
      }
      TotalItemsBound(items[1..]);
    }
  }

  /** With no negative price or quantity, totalPrice is never negative. */
  lemma {:induction false} TotalPriceNonNegative(items: seq<CartItem>)
    requires forall i | 0 <= i < |items| :: items[i].price >= 0.0 && items[i].quantity >= 0
    ensures TotalPrice(items) >= 0.0
  {
    if items != [] {
      assert forall i | 0 <= i < |items[1..]| :: items[1..][i] == items[i + 1];
      TotalPriceNonNegative(items[1..]);
      assert items[0].price * items[0].quantity as real >= 0.0;
    }
  }

  /** Growing the one line with the id raises totalItems by the amount and
      totalPrice by that line's price times the amount. */
  lemma {:induction false} TotalsIncrease(items: seq<CartItem>, k: nat, quantity: int)
    requires UniqueIds(items) && k < |items|
    ensures TotalItems(Increase(items, items[k].id, quantity)) == TotalItems(items) + quantity
    ensures TotalPrice(Increase(items, items[k].id, quantity)) == TotalPrice(items) + items[k].price * quantity as real
  {
    var id := items[k].id;
    var r := Increase(items, id, quantity);
    assert r[1..] == Increase(items[1..], id, quantity);
    if k == 0 {
      assert r[1..] == items[1..] by {
        forall i | 0 <= i < |items[1..]| ensures items[1..][i].id != id {
          assert items[1..][i] == items[i + 1];
        }
      }
      assert r[0].price * r[0].quantity as real
          == items[0].price * items[0].quantity as real + items[0].price * quantity as real;
    } else {
      assert items[1..][k - 1] == items[k];
      assert UniqueIds(items[1..]) by {
        forall i, j | 0 <= i < j < |items[1..]| ensures items[1..][i].id != items[1..][j].id {
          assert items[1..][i] == items[i + 1] && items[1..][j] == items[j + 1];
        }
      }
      TotalsIncrease(items[1..], k - 1, quantity);
    }
  }

  /** addItem raises totalItems by the added quantity, and totalPrice by the
      added quantity times the line's price: the existing line's price when
      the product is already in the cart, the product's price otherwise. */
  lemma {:induction false} AddLineTotals(items: seq<CartItem>, product: Product, quantity: int)
    requires UniqueIds(items)
    ensures TotalItems(AddLine(items, product, quantity)) == TotalItems(items) + quantity
    ensures forall k | 0 <= k < |items| && items[k].id == product.id ::
      TotalPrice(AddLine(items, product, quantity)) == TotalPrice(items) + items[k].price * quantity as real
    ensures !HasLine(items, product.id) ==>
      TotalPrice(AddLine(items, product, quantity)) == TotalPrice(items) + product.price * quantity as real
  {
    if HasLine(items, product.id) {
      var k :| 0 <= k < |items| && items[k].id == product.id;
      TotalsIncrease(items, k, quantity);
      assert AddLine(items, product, quantity) == Increase(items, product.id, quantity);
      forall k' | 0 <= k' < |items| && items[k'].id == product.id ensures items[k'] == items[k] {
      }
    } else {
      var line := NewLine(product, quantity);
      assert AddLine(items, product, quantity) == items + [line];
      TotalsAppend(items, [line]);
      assert TotalPrice([line]) == line.price * line.quantity as real + TotalPrice([]);
      assert TotalItems([line]) == line.quantity + TotalItems([]);
    }
  }
}
