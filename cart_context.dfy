/**
 * The client cart: a list of items, each a product spread with a quantity,
 * changed only through the provider's updaters, and its two totals.
 */
module CartContext {
  import opened Wrappers
  import Seqs

  /** The fields of a food the pages read; `None` is a missing field. */
  datatype Product = Product(id: string, name: string, price: Option<int>, availableQuantity: Option<int>)

  /** `{ ...foodItem, quantity }`. */
  datatype CartItem = CartItem(product: Product, quantity: int)

  type Cart = seq<CartItem>

  predicate InCart(cart: Cart, id: string) {
    exists i :: 0 <= i < |cart| && cart[i].product.id == id
  }

  /** No two entries share an id. */
  predicate DistinctIds(cart: Cart) {
    forall i, j :: 0 <= i < j < |cart| ==> cart[i].product.id != cart[j].product.id
  }

  /** Entry `k` with one more unit. */
  function Bumped(cart: Cart, k: nat): (r: Cart)
    requires k < |cart|
    ensures |r| == |cart| && r[k].quantity == cart[k].quantity + 1 && r[k].product == cart[k].product
    ensures forall i :: 0 <= i < |cart| && i != k ==> r[i] == cart[i]
  {
    cart[k := cart[k].(quantity := cart[k].quantity + 1)]
  }

  /**
   * `addToCart`: one more unit of every entry with the product's id when
   * there is one, otherwise a new entry of quantity 1 at the end.
   */
  function AddToCart(cart: Cart, p: Product): (r: Cart)
    ensures InCart(r, p.id)
    ensures InCart(cart, p.id) ==> |r| == |cart| && forall i :: 0 <= i < |cart| ==>
      (r[i].product == cart[i].product &&
       r[i].quantity == cart[i].quantity + (if cart[i].product.id == p.id then 1 else 0))
    ensures !InCart(cart, p.id) ==> r == cart + [CartItem(p, 1)]
  {
    if InCart(cart, p.id) then
      var r := seq(|cart|, i requires 0 <= i < |cart| =>
        if cart[i].product.id == p.id then cart[i].(quantity := cart[i].quantity + 1) else cart[i]);
      var k :| 0 <= k < |cart| && cart[k].product.id == p.id;
      assert r[k].product.id == p.id;
      r
    else
      var r := cart + [CartItem(p, 1)];
      assert r[|cart|].product.id == p.id;
      r
  }

  /** `removeFromCart`: every entry with the id goes, the others stay in order. */
  function RemoveFromCart(cart: Cart, id: string): (r: Cart)
    ensures !InCart(r, id)
    ensures forall i :: 0 <= i < |r| ==> r[i] in cart
    ensures forall i :: 0 <= i < |cart| && cart[i].product.id != id ==> cart[i] in r
    ensures Seqs.IsSubsequence(r, cart)
  {
    Seqs.Filter(cart, (item: CartItem) => item.product.id != id)
  }

  /** `updateQuantity`: a quantity of 0 or less removes the product, any other sets it. */
  function UpdateQuantity(cart: Cart, id: string, quantity: int): (r: Cart)
    ensures quantity <= 0 ==> r == RemoveFromCart(cart, id)
    ensures quantity > 0 ==> |r| == |cart| && forall i :: 0 <= i < |cart| ==>
      (r[i].product == cart[i].product &&
       r[i].quantity == if cart[i].product.id == id then quantity else cart[i].quantity)
  {
    if quantity <= 0 then RemoveFromCart(cart, id)
    else
      seq(|cart|, i requires 0 <= i < |cart| =>
        if cart[i].product.id == id then cart[i].(quantity := quantity) else cart[i])
  }

  /** `clearCart`. */
  function ClearCart(): (r: Cart)
    ensures |r| == 0
  {
    []
  }

  /** `getTotalItems`: the sum of the quantities, left to right. */
  function TotalItems(cart: Cart): (r: int)
    ensures (forall i :: 0 <= i < |cart| ==> cart[i].quantity >= 1) ==> r >= |cart|
  {
    if cart == [] then 0 else TotalItems(cart[..|cart| - 1]) + cart[|cart| - 1].quantity
  }

  /** The placeholder price: a missing or zero price counts as 100. */
  function UnitPrice(p: Product): (r: int)
    ensures p.price.Some? && p.price.value != 0 ==> r == p.price.value
    ensures p.price.None? || p.price == Some(0) ==> r == 100
  {
    if p.price.Some? && p.price.value != 0 then p.price.value else 100
  }

  /** `getTotalPrice`: the sum of unit price times quantity, left to right. */
  function TotalPrice(cart: Cart): int {
    if cart == [] then 0
    else TotalPrice(cart[..|cart| - 1]) + UnitPrice(cart[|cart| - 1].product) * cart[|cart| - 1].quantity
  }

  /** With non-negative quantities and unit prices the price total is never negative. */
  lemma {:induction false} TotalPriceNonNegative(cart: Cart)
    requires forall i :: 0 <= i < |cart| ==> cart[i].quantity >= 0 && UnitPrice(cart[i].product) >= 0
    ensures TotalPrice(cart) >= 0
  {
    if cart != [] {
      var n := |cart| - 1;
      assert forall i :: 0 <= i < n ==> cart[..n][i] == cart[i];
      TotalPriceNonNegative(cart[..n]);
      var last := cart[n];
      assert UnitPrice(last.product) * last.quantity >= 0 by {
        var u := UnitPrice(last.product);
        var q := last.quantity;
        assert u >= 0 && q >= 0;
      }
    }
  }

  /** With distinct ids, adding a product already in the cart bumps exactly its entry. */
  lemma AddExisting(cart: Cart, p: Product, k: nat)
    requires DistinctIds(cart) && k < |cart| && cart[k].product.id == p.id
    ensures AddToCart(cart, p) == Bumped(cart, k)
  {
    var r := AddToCart(cart, p);
    assert InCart(cart, p.id);
    forall i | 0 <= i < |cart| ensures r[i] == Bumped(cart, k)[i] {
      if i != k {
        assert cart[i].product.id != p.id;
      }
    }
  }

  lemma {:induction false} TotalItemsBumped(cart: Cart, k: nat)
    requires k < |cart|
    ensures TotalItems(Bumped(cart, k)) == TotalItems(cart) + 1
  {
    var n := |cart| - 1;
    var b := Bumped(cart, k);
    if k == n {
      assert b[..n] == cart[..n];
    } else {
      assert b[..n] == Bumped(cart[..n], k);
      TotalItemsBumped(cart[..n], k);
    }
  }

  lemma {:induction false} TotalPriceBumped(cart: Cart, k: nat)
    requires k < |cart|
    ensures TotalPrice(Bumped(cart, k)) == TotalPrice(cart) + UnitPrice(cart[k].product)
  {
    var n := |cart| - 1;
    var b := Bumped(cart, k);
    if k == n {
      assert b[..n] == cart[..n];
    } else {
      assert b[..n] == Bumped(cart[..n], k);
      TotalPriceBumped(cart[..n], k);
    }
  }

  /**
   * With distinct ids, `addToCart` raises the item count by exactly one and
   * the price by one unit of the product's entry (the entry keeps the price
   * it was first added with).
   */
  lemma AddToCartTotals(cart: Cart, p: Product)
    requires DistinctIds(cart)
    ensures TotalItems(AddToCart(cart, p)) == TotalItems(cart) + 1
    ensures !InCart(cart, p.id) ==> TotalPrice(AddToCart(cart, p)) == TotalPrice(cart) + UnitPrice(p)
    ensures forall k :: 0 <= k < |cart| && cart[k].product.id == p.id ==>
      TotalPrice(AddToCart(cart, p)) == TotalPrice(cart) + UnitPrice(cart[k].product)
  {
    if InCart(cart, p.id) {
      var k :| 0 <= k < |cart| && cart[k].product.id == p.id;
      AddExisting(cart, p, k);
      TotalItemsBumped(cart, k);
      TotalPriceBumped(cart, k);
      forall j | 0 <= j < |cart| && cart[j].product.id == p.id ensures j == k {
      }
    } else {
      var r := cart + [CartItem(p, 1)];
      assert r[..|cart|] == cart;
    }
  }

  /** Each updater keeps the cart's ids pairwise distinct. */
  lemma UpdatersKeepIdsDistinct(cart: Cart, p: Product, id: string, quantity: int)
    requires DistinctIds(cart)
    ensures DistinctIds(AddToCart(cart, p))
    ensures DistinctIds(RemoveFromCart(cart, id))
    ensures DistinctIds(UpdateQuantity(cart, id, quantity))
  {
    if !InCart(cart, p.id) {
      var r := cart + [CartItem(p, 1)];
      forall i, j | 0 <= i < j < |r| ensures r[i].product.id != r[j].product.id {
        if j == |cart| {
          assert r[i] == cart[i];
        }
      }
    }
    RemoveKeepsIdsDistinct(cart, id);
  }

  /** Every entry holds at least one unit. */
  predicate PositiveQuantities(cart: Cart) {
    forall i :: 0 <= i < |cart| ==> cart[i].quantity >= 1
  }

  /**
   * Each updater keeps every quantity at 1 or more (a quantity of 0 or less
   * removes the entry), so the item total is never below the number of entries.
   */
  lemma UpdatersKeepQuantitiesPositive(cart: Cart, p: Product, id: string, quantity: int)
    requires PositiveQuantities(cart)
    ensures PositiveQuantities(AddToCart(cart, p))
    ensures PositiveQuantities(RemoveFromCart(cart, id))
    ensures PositiveQuantities(UpdateQuantity(cart, id, quantity))
  {
    AddKeepsQuantitiesPositive(cart, p);
    RemoveKeepsQuantitiesPositive(cart, id);
  }

  lemma AddKeepsQuantitiesPositive(cart: Cart, p: Product)
    requires PositiveQuantities(cart)
    ensures PositiveQuantities(AddToCart(cart, p))
  {
    if !InCart(cart, p.id) {
      var r := cart + [CartItem(p, 1)];
      assert forall i :: 0 <= i < |cart| ==> r[i] == cart[i];
    }
  }

  lemma RemoveKeepsQuantitiesPositive(cart: Cart, id: string)
    requires PositiveQuantities(cart)
    ensures PositiveQuantities(RemoveFromCart(cart, id))
  {
    var removed := RemoveFromCart(cart, id);
    forall i | 0 <= i < |removed| ensures removed[i].quantity >= 1 {
      var j :| 0 <= j < |cart| && cart[j] == removed[i];
    }
  }

  lemma {:induction false} RemoveKeepsIdsDistinct(cart: Cart, id: string)
    requires DistinctIds(cart)
    ensures DistinctIds(RemoveFromCart(cart, id))
  {
    var f := (item: CartItem) => item.product.id != id;
    if cart != [] {
      RemoveKeepsIdsDistinct(cart[1..], id);
      assert RemoveFromCart(cart[1..], id) == Seqs.Filter(cart[1..], f);
      var rest := Seqs.Filter(cart[1..], f);
      if f(cart[0]) {
        var r := [cart[0]] + rest;
        assert Seqs.Filter(cart, f) == r;
        forall i, j | 0 <= i < j < |r| ensures r[i].product.id != r[j].product.id {
          if i == 0 {
            assert r[j] in cart[1..];
            var m :| 0 <= m < |cart[1..]| && cart[1..][m] == r[j];
            assert cart[m + 1] == r[j];
          } else {
            assert r[i] == rest[i - 1] && r[j] == rest[j - 1];
          }
        }
      }
    }
  }

  /** `removeFromCart` of an id not in the cart changes nothing. */
  lemma RemoveAbsent(cart: Cart, id: string)
    requires !InCart(cart, id)
    ensures RemoveFromCart(cart, id) == cart
  {
    Seqs.FilterAll(cart, (item: CartItem) => item.product.id != id);
  }
}
