/**
 * The product page: the quantity stepper, the add-to-cart and buy-now
 * buttons that add the selected quantity one unit at a time, and the
 * "already in cart" count.
 */
module ProductDetail {
  import opened Wrappers
  import opened CartContext

  /** `product?.availableQuantity || 1`: the stepper's upper bound. */
  function StockBound(product: Option<Product>): (r: int)
    ensures product.Some? && product.value.availableQuantity.Some? && product.value.availableQuantity.value != 0 ==>
      r == product.value.availableQuantity.value
    ensures product.None? || product.value.availableQuantity.None? || product.value.availableQuantity == Some(0) ==> r == 1
  {
    if product.Some? && product.value.availableQuantity.Some? && product.value.availableQuantity.value != 0 then
      product.value.availableQuantity.value
    else 1
  }

  /** `updateQuantity(n)`: the selection moves to `n` only when `1 <= n <= bound`. */
  function SelectQuantity(current: int, requested: int, product: Option<Product>): (r: int)
    ensures 1 <= requested <= StockBound(product) ==> r == requested
    ensures !(1 <= requested <= StockBound(product)) ==> r == current
  {
    if 1 <= requested && requested <= StockBound(product) then requested else current
  }

  /** The selection starts at 1 and never leaves `1 .. max(bound, 1)`. */
  lemma SelectionStaysInRange(current: int, requested: int, product: Option<Product>)
    requires 1 <= current && (current == 1 || current <= StockBound(product))
    ensures var r := SelectQuantity(current, requested, product);
      1 <= r && (r == 1 || r <= StockBound(product))
  {
  }

  /** `currentQuantityInCart`: the first entry with the id, or 0. */
  function QuantityInCart(cart: Cart, id: string): (r: int)
    ensures !InCart(cart, id) ==> r == 0
  {
    if cart == [] then 0
    else if cart[0].product.id == id then cart[0].quantity
    else
      assert InCart(cart[1..], id) ==> InCart(cart, id) by {
        if InCart(cart[1..], id) {
          var k :| 0 <= k < |cart[1..]| && cart[1..][k].product.id == id;
          assert cart[k + 1].product.id == id;
        }
      }
      QuantityInCart(cart[1..], id)
  }

  /** With distinct ids, the count shown is the quantity of the one entry with the id. */
  lemma {:induction false} QuantityAt(cart: Cart, k: nat)
    requires DistinctIds(cart) && k < |cart|
    ensures QuantityInCart(cart, cart[k].product.id) == cart[k].quantity
  {
    if k > 0 {
      assert cart[0].product.id != cart[k].product.id;
      assert DistinctIds(cart[1..]) by {
        forall i, j | 0 <= i < j < |cart[1..]| ensures cart[1..][i].product.id != cart[1..][j].product.id {
          assert cart[1..][i] == cart[i + 1] && cart[1..][j] == cart[j + 1];
        }
      }
      QuantityAt(cart[1..], k - 1);
      assert cart[1..][k - 1] == cart[k];
    }
  }

  /** One `addToCart` raises the count shown for that product by exactly one. */
  lemma AddToCartQuantity(cart: Cart, p: Product)
    requires DistinctIds(cart)
    ensures QuantityInCart(AddToCart(cart, p), p.id) == QuantityInCart(cart, p.id) + 1
  {
    UpdatersKeepIdsDistinct(cart, p, p.id, 0);
    var r := AddToCart(cart, p);
    if InCart(cart, p.id) {
      var k :| 0 <= k < |cart| && cart[k].product.id == p.id;
      AddExisting(cart, p, k);
      QuantityAt(cart, k);
      QuantityAt(r, k);
    } else {
      assert r[|cart|] == CartItem(p, 1);
      QuantityAt(r, |cart|);
    }
  }

  /** The cart after `n` calls of `addToCart(p)`. */
  function AddTimes(cart: Cart, p: Product, n: nat): (r: Cart)
    ensures n > 0 ==> InCart(r, p.id)
    ensures |r| == |cart| + (if n > 0 && !InCart(cart, p.id) then 1 else 0)
  {
    if n == 0 then cart else AddToCart(AddTimes(cart, p, n - 1), p)
  }

  /** `n` adds raise the product's count and the item total by `n` and keep ids distinct. */
  lemma {:induction false} AddTimesEffect(cart: Cart, p: Product, n: nat)
    requires DistinctIds(cart)
    ensures DistinctIds(AddTimes(cart, p, n))
    ensures QuantityInCart(AddTimes(cart, p, n), p.id) == QuantityInCart(cart, p.id) + n
    ensures TotalItems(AddTimes(cart, p, n)) == TotalItems(cart) + n
  {
    if n > 0 {
      AddTimesEffect(cart, p, n - 1);
      var before := AddTimes(cart, p, n - 1);
      UpdatersKeepIdsDistinct(before, p, p.id, 0);
      AddToCartQuantity(before, p);
      AddToCartTotals(before, p);
    }
  }

  /** The loop of `handleAddToCart` and `handleBuyNow`: `quantity` calls of `addToCart`. */
  method AddUnits(cart: Cart, p: Product, quantity: nat) returns (c: Cart)
    ensures c == AddTimes(cart, p, quantity)
  {
    c := cart;
    for i := 0 to quantity
      invariant c == AddTimes(cart, p, i)
    {
      c := AddToCart(c, p);
    }
  }

  /** `handleAddToCart`: nothing without a product or a positive quantity. */
  method HandleAddToCart(cart: Cart, product: Option<Product>, quantity: int) returns (c: Cart)
    ensures product.None? || quantity <= 0 ==> c == cart
    ensures product.Some? && quantity > 0 ==> c == AddTimes(cart, product.value, quantity)
  {
    c := cart;
    if product.Some? && quantity > 0 {
      c := AddUnits(cart, product.value, quantity);
    }
  }

  /** `handleBuyNow`: the same units, then the page moves to the cart. */
  method HandleBuyNow(cart: Cart, product: Option<Product>, quantity: int) returns (c: Cart, toCart: bool)
    ensures toCart <==> product.Some? && quantity > 0
    ensures !toCart ==> c == cart
    ensures toCart ==> c == AddTimes(cart, product.value, quantity)
  {
    c := cart;
    toCart := false;
    if product.Some? && quantity > 0 {
      c := AddUnits(cart, product.value, quantity);
      toCart := true;
    }
  }

  /** `!availableQuantity || availableQuantity <= 0`: the two action buttons are disabled. */
  function ActionsDisabled(product: Product): (r: bool)
    ensures r <==> !(product.availableQuantity.Some? && product.availableQuantity.value > 0)
  {
    product.availableQuantity.None? || product.availableQuantity.value == 0 || product.availableQuantity.value <= 0
  }

  /**
   * The stepper bounds one purchase, not the cart: two full-stock purchases
   * put twice the stock in the cart.
   */
  lemma CartCanExceedStock(p: Product, stock: nat)
    requires p.availableQuantity == Some(stock) && stock > 0
    ensures SelectQuantity(1, stock, Some(p)) == stock
    ensures QuantityInCart(AddTimes(AddTimes([], p, stock), p, stock), p.id) == 2 * stock
  {
    AddTimesEffect([], p, stock);
    AddTimesEffect(AddTimes([], p, stock), p, stock);
  }
}
