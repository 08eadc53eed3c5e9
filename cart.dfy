/**
 * The cart store of src/hooks/useCart.tsx.
 *
 * The cart is an ordered sequence of lines. Each operation replaces the whole
 * sequence with the result of a pure updater (`AddItem`, `RemoveItem`,
 * `SetQuantity`) and then writes the whole cart to the key-value store.
 * `CartProvider` holds that state; the updaters and the aggregates are
 * functions, and the lemmas below state what they promise.
 */
module Cart {
  import opened Types
  import opened Builtins

  /** The single key under which the cart is persisted. */
  const CartStorageKey: string := "@ecommerce-app:cart"

  /** The key-value store. A stored value is the whole cart; its JSON text is abstracted away. */
  type Storage = map<string, seq<CartItem>>

  // ---------------------------------------------------------------------------
  // Cart invariants

  /** At most one line per product id. */
  ghost predicate UniqueIds(items: seq<CartItem>)
  {
    forall i, j | 0 <= i < j < |items| :: items[i].Id() != items[j].Id()
  }

  /** Every line has quantity at least 1. */
  ghost predicate PositiveQuantities(items: seq<CartItem>)
  {
    forall i | 0 <= i < |items| :: items[i].quantity >= 1
  }

  ghost predicate WellFormed(items: seq<CartItem>)
  {
    UniqueIds(items) && PositiveQuantities(items)
  }

  ghost predicate InCart(items: seq<CartItem>, id: int)
  {
    exists i | 0 <= i < |items| :: items[i].Id() == id
  }

  // ---------------------------------------------------------------------------
  // The updaters passed to setCartItems

  function HasId(id: int): CartItem -> bool
  {
    (item: CartItem) => item.Id() == id
  }

  function LacksId(id: int): CartItem -> bool
  {
    (item: CartItem) => item.Id() != id
  }

  /** The position of the first line whose product has `id`, or -1. */
  function IndexOf(items: seq<CartItem>, id: int): (r: int)
    ensures -1 <= r < |items|
    ensures r == -1 <==> !InCart(items, id)
    ensures 0 <= r ==> items[r].Id() == id && forall j | 0 <= j < r :: items[j].Id() != id
  {
    FindIndex(items, HasId(id))
  }

  /**
   * The updater of `addToCart`: a product already in the cart has its (first)
   * line's quantity raised in place; a new product is appended as a new line.
   * The merged line keeps the product snapshot it was created with.
   */
  function AddItem(items: seq<CartItem>, product: Product, quantity: int): (r: seq<CartItem>)
    ensures !InCart(items, product.id) ==> r == items + [CartItem(product, quantity)]
    ensures InCart(items, product.id) ==>
      var k := IndexOf(items, product.id);
      && |r| == |items|
      && r[k] == CartItem(items[k].product, items[k].quantity + quantity)
      && forall j | 0 <= j < |items| && j != k :: r[j] == items[j]
  {
    var k := IndexOf(items, product.id);
    if k >= 0 then items[k := items[k].(quantity := items[k].quantity + quantity)]
    else items + [CartItem(product, quantity)]
  }

  /** The updater of `removeFromCart`: the lines whose id differs, in their order. */
  function RemoveItem(items: seq<CartItem>, id: int): (r: seq<CartItem>)
    ensures forall i | 0 <= i < |r| :: r[i].Id() != id && r[i] in items
    ensures !InCart(items, id) ==> r == items
  {
    var r := Filter(items, LacksId(id));
    assert !InCart(items, id) ==> r == items by {
      if !InCart(items, id) {
        FilterKeepsAll(items, LacksId(id));
      }
    }
    r
  }

  function WithQuantity(id: int, quantity: int): CartItem -> CartItem
  {
    (item: CartItem) => if item.Id() == id then item.(quantity := quantity) else item
  }

  /** The updater of `updateQuantity` for a positive quantity: the matching lines get `quantity`. */
  function SetQuantity(items: seq<CartItem>, id: int, quantity: int): (r: seq<CartItem>)
    ensures |r| == |items|
    ensures forall i | 0 <= i < |items| ::
      && r[i].product == items[i].product
      && r[i].quantity == if items[i].Id() == id then quantity else items[i].quantity
  {
    Map(items, WithQuantity(id, quantity))
  }

  // ---------------------------------------------------------------------------
  // Aggregates: the two `reduce` calls, folding from the left

  /** The price of the line's product snapshot times its quantity. */
  function LineTotal(item: CartItem): (r: int)
    ensures item.product.price >= 0 && item.quantity >= 0 ==> r >= 0
    ensures item.quantity == 0 ==> r == 0
  {
    item.product.price * item.quantity
  }

  /** The sum of the line totals, folded from the left starting at 0. */
  function Total(items: seq<CartItem>): (r: int)
    ensures (forall i | 0 <= i < |items| :: items[i].product.price >= 0 && items[i].quantity >= 0) ==> r >= 0
  {
    if items == [] then 0 else Total(items[..|items| - 1]) + LineTotal(items[|items| - 1])
  }

  /** The sum of the quantities, folded from the left starting at 0. */
  function ItemCount(items: seq<CartItem>): (r: int)
    ensures (forall i | 0 <= i < |items| :: items[i].quantity >= 0) ==> r >= 0
  {
    if items == [] then 0 else ItemCount(items[..|items| - 1]) + items[|items| - 1].quantity
  }

  // ---------------------------------------------------------------------------
  // Persistence

  /** Writing the cart to storage: the cart key is overwritten with a full snapshot. */
  function Save(stored: Storage, items: seq<CartItem>): (r: Storage)
    ensures Restore(r) == items
    ensures r.Keys == stored.Keys + {CartStorageKey}
    ensures forall key | key in stored && key != CartStorageKey :: r[key] == stored[key]
  {
    stored[CartStorageKey := items]
  }

  /** The cart read back at start-up; a missing (or unreadable, or empty) entry leaves the empty cart. */
  function Restore(stored: Storage): (r: seq<CartItem>)
    ensures CartStorageKey in stored ==> stored[CartStorageKey := r] == stored
    ensures CartStorageKey !in stored ==> r == []
  {
    if CartStorageKey in stored then stored[CartStorageKey] else []
  }

  // ---------------------------------------------------------------------------
  // Lemmas about the updaters

  /** Adding a product that is not in the cart appends one line with the given quantity. */
  lemma {:induction false} AddNewAppends(items: seq<CartItem>, product: Product, quantity: int)
    requires !InCart(items, product.id)
    ensures |AddItem(items, product, quantity)| == |items| + 1
    ensures AddItem(items, product, quantity)[..|items|] == items
    ensures AddItem(items, product, quantity)[|items|] == CartItem(product, quantity)
  {
  }

  /** With one line per id, adding a present product raises exactly that line's quantity. */
  lemma {:induction false} AddExistingMerges(items: seq<CartItem>, product: Product, quantity: int, k: int)
    requires UniqueIds(items)
    requires 0 <= k < |items| && items[k].Id() == product.id
    ensures var r := AddItem(items, product, quantity);
      && |r| == |items|
      && r[k].product == items[k].product
      && r[k].quantity == items[k].quantity + quantity
      && forall j | 0 <= j < |items| && j != k :: r[j] == items[j]
  {
    assert InCart(items, product.id);
  }

  /** Adding keeps one line per id; with a quantity of at least 1 it keeps quantities positive. */
  lemma {:induction false} AddKeepsWellFormed(items: seq<CartItem>, product: Product, quantity: int)
    ensures UniqueIds(items) ==> UniqueIds(AddItem(items, product, quantity))
    ensures PositiveQuantities(items) && quantity >= 1 ==> PositiveQuantities(AddItem(items, product, quantity))
  {
    var r := AddItem(items, product, quantity);
    if InCart(items, product.id) {
      var k := IndexOf(items, product.id);
      assert forall j | 0 <= j < |r| :: r[j].Id() == items[j].Id();
    } else {
      if UniqueIds(items) {
        forall i, j | 0 <= i < j < |r| ensures r[i].Id() != r[j].Id() {
          if j == |items| {
            assert r[i] == items[i];
          }
        }
      }
    }
  }

  lemma {:induction false} RemoveKeepsUnique(items: seq<CartItem>, id: int)
    requires UniqueIds(items)
    ensures UniqueIds(RemoveItem(items, id))
  {
    if items != [] {
      RemoveKeepsUnique(items[1..], id);
      var rest := RemoveItem(items[1..], id);
      var r := RemoveItem(items, id);
      assert r == (if items[0].Id() != id then [items[0]] else []) + rest;
      forall i, j | 0 <= i < j < |r| ensures r[i].Id() != r[j].Id() {
        if items[0].Id() != id && i == 0 {
          assert r[j] in items[1..];
        }
      }
    }
  }

  /** Removing keeps one line per id and keeps quantities positive. */
  lemma {:induction false} RemoveKeepsWellFormed(items: seq<CartItem>, id: int)
    ensures UniqueIds(items) ==> UniqueIds(RemoveItem(items, id))
    ensures PositiveQuantities(items) ==> PositiveQuantities(RemoveItem(items, id))
  {
    if UniqueIds(items) {
      RemoveKeepsUnique(items, id);
    }
  }

  /** Removing is idempotent: a second removal of the same id changes nothing. */
  lemma {:induction false} RemoveIdempotent(items: seq<CartItem>, id: int)
    ensures RemoveItem(RemoveItem(items, id), id) == RemoveItem(items, id)
  {
  }

  /** Every line of the input survives removal unless it carries the removed id; counts included. */
  lemma {:induction false} RemoveCounts(items: seq<CartItem>, id: int, line: CartItem)
    ensures multiset(RemoveItem(items, id))[line] == if line.Id() == id then 0 else multiset(items)[line]
  {
    FilterCounts(items, LacksId(id), line);
  }

  /** With one line per id, removing a present id cuts exactly that line out. */
  lemma {:induction false} RemoveSplices(items: seq<CartItem>, id: int, k: int)
    requires UniqueIds(items)
    requires 0 <= k < |items| && items[k].Id() == id
    ensures RemoveItem(items, id) == items[..k] + items[k + 1..]
  {
    forall i | 0 <= i < |items| && i != k ensures LacksId(id)(items[i]) {
      assert items[i].Id() != items[k].Id();
    }
    FilterSplice(items, LacksId(id), k);
  }

  /** Setting a quantity for an id that is not in the cart changes nothing. */
  lemma {:induction false} SetQuantityAbsent(items: seq<CartItem>, id: int, quantity: int)
    requires !InCart(items, id)
    ensures SetQuantity(items, id, quantity) == items
  {
    var r := SetQuantity(items, id, quantity);
    assert forall i | 0 <= i < |items| :: r[i] == items[i];
  }

  /** With one line per id, setting the quantity of a present id rewrites that one line. */
  lemma {:induction false} SetQuantityAt(items: seq<CartItem>, id: int, quantity: int, k: int)
    requires UniqueIds(items)
    requires 0 <= k < |items| && items[k].Id() == id
    ensures SetQuantity(items, id, quantity) == items[k := items[k].(quantity := quantity)]
  {
  }

  /** Setting a quantity keeps ids and order; with a quantity of at least 1 it keeps quantities positive. */
  lemma {:induction false} SetQuantityKeepsWellFormed(items: seq<CartItem>, id: int, quantity: int)
    ensures UniqueIds(items) ==> UniqueIds(SetQuantity(items, id, quantity))
    ensures PositiveQuantities(items) && quantity >= 1 ==> PositiveQuantities(SetQuantity(items, id, quantity))
  {
  }

  // ---------------------------------------------------------------------------
  // Lemmas about the aggregates

  lemma {:induction false} TotalsAppend(a: seq<CartItem>, b: seq<CartItem>)
    ensures Total(a + b) == Total(a) + Total(b)
    ensures ItemCount(a + b) == ItemCount(a) + ItemCount(b)
  {
    if b != [] {
      var b' := b[..|b| - 1];
      assert (a + b)[..|a + b| - 1] == a + b';
      assert (a + b)[|a + b| - 1] == b[|b| - 1];
      TotalsAppend(a, b');
    } else {
      assert a + b == a;
    }
  }

  /** Replacing one line changes each aggregate by that line's difference. */
  lemma {:induction false} TotalsReplace(items: seq<CartItem>, k: int, line: CartItem)
    requires 0 <= k < |items|
    ensures Total(items[k := line]) == Total(items) - LineTotal(items[k]) + LineTotal(line)
    ensures ItemCount(items[k := line]) == ItemCount(items) - items[k].quantity + line.quantity
  {
    var front, back := items[..k], items[k + 1..];
    assert items == front + [items[k]] + back;
    assert items[k := line] == front + [line] + back;
    TotalsAppend(front + [items[k]], back);
    TotalsAppend(front, [items[k]]);
    TotalsAppend(front + [line], back);
    TotalsAppend(front, [line]);
    assert Total([line]) == LineTotal(line) by { assert [line][..0] == []; }
    assert Total([items[k]]) == LineTotal(items[k]) by { assert [items[k]][..0] == []; }
  }

  /** The item count is the sum of quantities, so with positive quantities it is at least the number of lines. */
  lemma {:induction false} ItemCountAtLeastLines(items: seq<CartItem>)
    requires PositiveQuantities(items)
    ensures ItemCount(items) >= |items|
  {
    if items != [] {
      ItemCountAtLeastLines(items[..|items| - 1]);
    }
  }

  /** Adding `quantity` units raises the item count by `quantity` and the total by that many unit prices of the line. */
  lemma {:induction false} AddItemTotals(items: seq<CartItem>, product: Product, quantity: int)
    ensures ItemCount(AddItem(items, product, quantity)) == ItemCount(items) + quantity
    ensures Total(AddItem(items, product, quantity)) ==
      Total(items) + quantity * (if InCart(items, product.id) then items[IndexOf(items, product.id)].product.price else product.price)
  {
    if InCart(items, product.id) {
      var k := IndexOf(items, product.id);
      var line := items[k].(quantity := items[k].quantity + quantity);
      assert AddItem(items, product, quantity) == items[k := line];
      TotalsReplace(items, k, line);
      var p, q := items[k].product.price, items[k].quantity;
      MulDistributes(p, q, quantity);
    } else {
      TotalsAppend(items, [CartItem(product, quantity)]);
      assert [CartItem(product, quantity)][..0] == [];
    }
  }

  lemma MulDistributes(a: int, b: int, c: int)
    ensures a * (b + c) == a * b + a * c
  {
  }

  /** Removing a present product takes its line's quantity and amount out of the aggregates. */
  lemma {:induction false} RemoveItemTotals(items: seq<CartItem>, id: int, k: int)
    requires UniqueIds(items)
    requires 0 <= k < |items| && items[k].Id() == id
    ensures ItemCount(RemoveItem(items, id)) == ItemCount(items) - items[k].quantity
    ensures Total(RemoveItem(items, id)) == Total(items) - LineTotal(items[k])
  {
    RemoveSplices(items, id, k);
    var front, back := items[..k], items[k + 1..];
    assert items == front + [items[k]] + back;
    TotalsAppend(front + [items[k]], back);
    TotalsAppend(front, [items[k]]);
    TotalsAppend(front, back);
    assert [items[k]][..0] == [];
  }

  /** Setting a present product's quantity to `quantity` moves the aggregates by the difference. */
  lemma {:induction false} SetQuantityTotals(items: seq<CartItem>, id: int, quantity: int, k: int)
    requires UniqueIds(items)
    requires 0 <= k < |items| && items[k].Id() == id
    ensures ItemCount(SetQuantity(items, id, quantity)) == ItemCount(items) + quantity - items[k].quantity
    ensures Total(SetQuantity(items, id, quantity)) == Total(items) + items[k].product.price * (quantity - items[k].quantity)
  {
    var line := items[k].(quantity := quantity);
    SetQuantityAt(items, id, quantity, k);
    assert SetQuantity(items, id, quantity) == items[k := line];
    TotalsReplace(items, k, line);
    var p, q := items[k].product.price, items[k].quantity;
    MulDistributes(p, q, quantity - q);
  }

  // ---------------------------------------------------------------------------
  // The store

  /**
   * `CartProvider`: the cart state and the key-value store it writes through
   * to. Every operation replaces `cartItems` and saves the whole cart, so the
   * store always holds the current cart and a restart restores it.
   */
  class CartProvider {
    var cartItems: seq<CartItem>
    var storage: Storage

    /** The stored snapshot is the current cart. */
    ghost predicate Valid()
      reads this
    {
      CartStorageKey in storage && Restore(storage) == cartItems
    }

    /** Mount: start empty, load the stored cart if there is one, then save. */
    constructor (stored: Storage)
      ensures Valid()
      ensures cartItems == Restore(stored)
      ensures storage == Save(stored, cartItems)
    {
      cartItems := [];
      storage := stored;
      new;
      LoadCart();
      SaveCart();
    }

    /** `loadCart`: a stored cart, when present, replaces the in-memory one. */
    method LoadCart()
      modifies this`cartItems
      ensures cartItems == if CartStorageKey in storage then storage[CartStorageKey] else old(cartItems)
    {
      if CartStorageKey in storage {
        cartItems := storage[CartStorageKey];
      }
    }

    /** `saveCart`: write the full cart under the cart key. */
    method SaveCart()
      modifies this`storage
      ensures storage == Save(old(storage), cartItems)
      ensures Valid()
    {
      storage := Save(storage, cartItems);
    }

    method AddToCart(product: Product, quantity: int)
      requires Valid()
      modifies this
      ensures Valid()
      ensures cartItems == AddItem(old(cartItems), product, quantity)
      ensures storage == Save(old(storage), cartItems)
      ensures WellFormed(old(cartItems)) && quantity >= 1 ==> WellFormed(cartItems)
    {
      AddKeepsWellFormed(cartItems, product, quantity);
      cartItems := AddItem(cartItems, product, quantity);
      SaveCart();
    }

    method RemoveFromCart(productId: int)
      requires Valid()
      modifies this
      ensures Valid()
      ensures cartItems == RemoveItem(old(cartItems), productId)
      ensures storage == Save(old(storage), cartItems)
      ensures WellFormed(old(cartItems)) ==> WellFormed(cartItems)
    {
      RemoveKeepsWellFormed(cartItems, productId);
      cartItems := RemoveItem(cartItems, productId);
      SaveCart();
    }

    /** A quantity of 0 or less removes the line, as `removeFromCart` does. */
    method UpdateQuantity(productId: int, quantity: int)
      requires Valid()
      modifies this
      ensures Valid()
      ensures quantity <= 0 ==> cartItems == RemoveItem(old(cartItems), productId)
      ensures quantity > 0 ==> cartItems == SetQuantity(old(cartItems), productId, quantity)
      ensures storage == Save(old(storage), cartItems)
      ensures WellFormed(old(cartItems)) ==> WellFormed(cartItems)
    {
      if quantity <= 0 {
        RemoveFromCart(productId);
        return;
      }
      SetQuantityKeepsWellFormed(cartItems, productId, quantity);
      cartItems := SetQuantity(cartItems, productId, quantity);
      SaveCart();
    }

    method ClearCart()
      requires Valid()
      modifies this
      ensures Valid()
      ensures cartItems == []
      ensures storage == Save(old(storage), [])
      ensures Total(cartItems) == 0 && ItemCount(cartItems) == 0
    {
      cartItems := [];
      SaveCart();
    }

    /** `getCartTotal`: the running sum of price times quantity over the lines. */
    method GetCartTotal() returns (total: int)
      ensures total == Total(cartItems)
    {
      total := 0;
      for i := 0 to |cartItems|
        invariant total == Total(cartItems[..i])
      {
        assert cartItems[..i + 1][..i] == cartItems[..i];
        total := total + cartItems[i].product.price * cartItems[i].quantity;
      }
      assert cartItems[..|cartItems|] == cartItems;
    }

    /** `getItemCount`: the running sum of quantities over the lines. */
    method GetItemCount() returns (count: int)
      ensures count == ItemCount(cartItems)
    {
      count := 0;
      for i := 0 to |cartItems|
        invariant count == ItemCount(cartItems[..i])
      {
        assert cartItems[..i + 1][..i] == cartItems[..i];
        count := count + cartItems[i].quantity;
      }
      assert cartItems[..|cartItems|] == cartItems;
    }
  }
}
