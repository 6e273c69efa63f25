/**
 * The order controller: placing an order against the food catalog, the
 * user's and the partner's order lists, and the partner's status update.
 * The catalog and the order collection are the fields of one `Store`.
 */
module OrderService {
  import opened Wrappers
  import opened Models
  import Text
  import Seqs

  /** Orders are numbered in creation order; the number stands for the ObjectId. */
  type OrderId = nat

  /** One request line: the body's `{ food, quantity }` (other fields are ignored). */
  datatype ItemRequest = ItemRequest(food: FoodId, quantity: int)

  /** One stored line: the requested food and quantity and the catalog price at order time. */
  datatype OrderLine = OrderLine(food: FoodId, quantity: int, price: int)

  datatype Order = Order(
    id: OrderId,
    user: UserId,
    items: seq<OrderLine>,
    totalAmount: int,
    deliveryAddress: string,
    status: string,
    createdAt: int)

  const ItemsRequired := "Items are required"
  const AddressRequired := "Delivery address is required"
  const OrderNotFound := "Order not found"
  const NotOwner := "Unauthorized"

  function FoodNotFound(id: FoodId): string {
    "Food item " + id + " not found"
  }

  function InsufficientStock(food: Food): string {
    "Insufficient stock for " + food.name + ". Available: " + Text.IntToString(food.availableQuantity)
  }

  /** The check one request line must pass, made against the stock before the order. */
  function CheckItem(catalog: map<FoodId, Food>, item: ItemRequest): (r: Option<Error>)
    ensures r == None <==> item.food in catalog && catalog[item.food].availableQuantity >= item.quantity
    ensures item.food !in catalog ==> r == Some(NotFound(FoodNotFound(item.food)))
    ensures item.food in catalog && r.Some? ==> r == Some(BadRequest(InsufficientStock(catalog[item.food])))
  {
    if item.food !in catalog then Some(NotFound(FoodNotFound(item.food)))
    else if catalog[item.food].availableQuantity < item.quantity then
      Some(BadRequest(InsufficientStock(catalog[item.food])))
    else None
  }

  /** The validation loop: the rejection of the first failing line, in request order. */
  function FirstRejection(catalog: map<FoodId, Food>, items: seq<ItemRequest>): (r: Option<Error>)
    ensures r == None <==> forall i :: 0 <= i < |items| ==> CheckItem(catalog, items[i]) == None
    ensures r.Some? ==> exists k :: 0 <= k < |items| && r == CheckItem(catalog, items[k]) &&
                                   (forall i :: 0 <= i < k ==> CheckItem(catalog, items[i]) == None)
  {
    if items == [] then None
    else if CheckItem(catalog, items[0]).Some? then CheckItem(catalog, items[0])
    else
      var r := FirstRejection(catalog, items[1..]);
      assert forall i :: 1 <= i < |items| ==> items[i] == items[1..][i - 1];
      r
  }

  /** When every earlier line passed and line `k` fails, line `k`'s rejection is the reply. */
  lemma {:induction false} FirstRejectionAt(catalog: map<FoodId, Food>, items: seq<ItemRequest>, k: nat)
    requires k < |items|
    requires forall i :: 0 <= i < k ==> CheckItem(catalog, items[i]) == None
    requires CheckItem(catalog, items[k]).Some?
    ensures FirstRejection(catalog, items) == CheckItem(catalog, items[k])
  {
    if k > 0 {
      assert CheckItem(catalog, items[0]) == None;
      assert forall i :: 0 <= i < k - 1 ==> items[1..][i] == items[i + 1];
      FirstRejectionAt(catalog, items[1..], k - 1);
    }
  }

  /** Everything `createOrder` checks before writing, first failure wins. */
  function RequestRejection(catalog: map<FoodId, Food>, items: Option<seq<ItemRequest>>, address: Option<string>): (r: Option<Error>)
    ensures r == None <==>
      && items.Some? && |items.value| > 0
      && address.Some? && !Text.AllSpace(address.value)
      && forall i :: 0 <= i < |items.value| ==> CheckItem(catalog, items.value[i]) == None
    ensures items.None? || items.value == [] ==> r == Some(BadRequest(ItemsRequired))
    ensures items.Some? && items.value != [] && (address.None? || Text.AllSpace(address.value)) ==>
      r == Some(BadRequest(AddressRequired))
    ensures items.Some? && items.value != [] && address.Some? && !Text.AllSpace(address.value) ==>
      r == FirstRejection(catalog, items.value)
  {
    if items.None? || |items.value| == 0 then Some(BadRequest(ItemsRequired))
    else if address.None? || Text.Trim(address.value) == "" then Some(BadRequest(AddressRequired))
    else FirstRejection(catalog, items.value)
  }

  function LineFor(catalog: map<FoodId, Food>, item: ItemRequest): OrderLine
    requires item.food in catalog
  {
    OrderLine(item.food, item.quantity, catalog[item.food].price)
  }

  /** The stored lines: one per request line, in request order, priced from the catalog. */
  function PriceLines(catalog: map<FoodId, Food>, items: seq<ItemRequest>): (r: seq<OrderLine>)
    requires forall i :: 0 <= i < |items| ==> items[i].food in catalog
    ensures |r| == |items|
    ensures forall i :: 0 <= i < |items| ==>
      r[i].food == items[i].food && r[i].quantity == items[i].quantity && r[i].price == catalog[items[i].food].price
  {
    seq(|items|, i requires 0 <= i < |items| => LineFor(catalog, items[i]))
  }

  /** Every line of a request that passes validation names a food of the catalog. */
  lemma AcceptedLinesInCatalog(catalog: map<FoodId, Food>, items: seq<ItemRequest>)
    requires FirstRejection(catalog, items) == None
    ensures forall i :: 0 <= i < |items| ==> items[i].food in catalog
    ensures forall i :: 0 <= i < |items| ==> PriceLines(catalog, items)[i].food in catalog
  {
    forall i | 0 <= i < |items| ensures items[i].food in catalog {
      assert CheckItem(catalog, items[i]) == None;
    }
  }

  /** Sum of price times quantity over the lines. */
  function Total(lines: seq<OrderLine>): (r: int)
    ensures (forall i :: 0 <= i < |lines| ==> lines[i].price >= 0 && lines[i].quantity >= 0) ==> r >= 0
  {
    if lines == [] then 0
    else Total(lines[..|lines| - 1]) + lines[|lines| - 1].price * lines[|lines| - 1].quantity
  }

  /** Sum of the quantities of the lines naming `food`. */
  function QuantityFor(lines: seq<OrderLine>, food: FoodId): int {
    if lines == [] then 0
    else QuantityFor(lines[..|lines| - 1], food) + (if lines[|lines| - 1].food == food then lines[|lines| - 1].quantity else 0)
  }

  /** The catalog after the decrement loop: each food's stock lowered by its summed line quantities. */
  function Decremented(catalog: map<FoodId, Food>, lines: seq<OrderLine>): (r: map<FoodId, Food>)
    ensures r.Keys == catalog.Keys
    ensures forall f :: f in catalog ==>
      r[f] == catalog[f].(availableQuantity := catalog[f].availableQuantity - QuantityFor(lines, f))
  {
    map f | f in catalog :: catalog[f].(availableQuantity := catalog[f].availableQuantity - QuantityFor(lines, f))
  }

  /** One `$inc: { availableQuantity: -quantity }` for the line's food. */
  function DecrementOne(catalog: map<FoodId, Food>, line: OrderLine): (r: map<FoodId, Food>)
    requires line.food in catalog
    ensures r.Keys == catalog.Keys
  {
    var f := catalog[line.food];
    catalog[line.food := f.(availableQuantity := f.availableQuantity - line.quantity)]
  }

  /** The catalog after one more line is the catalog so far with that line's decrement applied. */
  lemma DecrementStep(catalog: map<FoodId, Food>, lines: seq<OrderLine>, line: OrderLine)
    requires line.food in catalog
    ensures Decremented(catalog, lines + [line]) == DecrementOne(Decremented(catalog, lines), line)
  {
    assert (lines + [line])[..|lines|] == lines;
  }

  /** A food no line names keeps its stock. */
  lemma {:induction false} UnnamedFoodUntouched(catalog: map<FoodId, Food>, lines: seq<OrderLine>, f: FoodId)
    requires f in catalog
    requires forall i :: 0 <= i < |lines| ==> lines[i].food != f
    ensures Decremented(catalog, lines)[f] == catalog[f]
  {
    QuantityForUnnamed(lines, f);
  }

  lemma {:induction false} QuantityForUnnamed(lines: seq<OrderLine>, f: FoodId)
    requires forall i :: 0 <= i < |lines| ==> lines[i].food != f
    ensures QuantityFor(lines, f) == 0
  {
    if lines != [] {
      QuantityForUnnamed(lines[..|lines| - 1], f);
    }
  }

  /** With pairwise distinct foods, a food's summed quantity is that of its one line. */
  lemma {:induction false} QuantityForDistinct(lines: seq<OrderLine>, k: nat)
    requires k < |lines|
    requires forall i, j :: 0 <= i < j < |lines| ==> lines[i].food != lines[j].food
    ensures QuantityFor(lines, lines[k].food) == lines[k].quantity
  {
    var init := lines[..|lines| - 1];
    if k == |lines| - 1 {
      QuantityForUnnamed(init, lines[k].food);
    } else {
      assert init[k] == lines[k];
      QuantityForDistinct(init, k);
    }
  }

  /**
   * Stock stays non-negative for every food of an accepted request whose food
   * ids are pairwise distinct: each stock check then covers the whole decrement.
   */
  lemma DistinctFoodsKeepStock(catalog: map<FoodId, Food>, items: seq<ItemRequest>, k: nat)
    requires k < |items|
    requires FirstRejection(catalog, items) == None
    requires forall i, j :: 0 <= i < j < |items| ==> items[i].food != items[j].food
    ensures Decremented(catalog, PriceLines(catalog, items))[items[k].food].availableQuantity >= 0
  {
    assert CheckItem(catalog, items[k]) == None;
    var lines := PriceLines(catalog, items);
    QuantityForDistinct(lines, k);
  }

  /**
   * Every line is checked against the stock as it was before the order, so two
   * lines for one food can each pass and together drive its stock negative.
   */
  lemma DuplicateLinesOverdraw(catalog: map<FoodId, Food>, f: FoodId, q: int)
    requires f in catalog
    requires 0 < q <= catalog[f].availableQuantity < 2 * q
    ensures var items := [ItemRequest(f, q), ItemRequest(f, q)];
      && FirstRejection(catalog, items) == None
      && Decremented(catalog, PriceLines(catalog, items))[f].availableQuantity < 0
  {
    var items := [ItemRequest(f, q), ItemRequest(f, q)];
    assert CheckItem(catalog, items[0]) == None && CheckItem(catalog, items[1]) == None;
    var lines := PriceLines(catalog, items);
    assert lines[..1] == [lines[0]] && lines[..1][..0] == [];
    assert QuantityFor(lines[..1], f) == q;
    assert QuantityFor(lines, f) == 2 * q;
  }

  /**
   * Nothing rejects a quantity of zero or less: such a line passes any stock check
   * that a non-negative stock passes, adds a non-positive amount to the total and
   * raises the food's stock.
   */
  lemma NonPositiveQuantityAccepted(catalog: map<FoodId, Food>, f: FoodId, q: int)
    requires f in catalog
    requires q <= 0 <= catalog[f].availableQuantity
    ensures var items := [ItemRequest(f, q)];
      && FirstRejection(catalog, items) == None
      && Total(PriceLines(catalog, items)) == catalog[f].price * q
      && Decremented(catalog, PriceLines(catalog, items))[f].availableQuantity == catalog[f].availableQuantity - q
  {
    var items := [ItemRequest(f, q)];
    var lines := PriceLines(catalog, items);
    assert CheckItem(catalog, items[0]) == None;
    assert lines[..0] == [];
    assert QuantityFor(lines, f) == q;
    assert Total(lines) == catalog[f].price * q;
  }

  /** The sort key of `.sort({ createdAt: -1 })`. */
  function CreatedAt(o: Order): int {
    o.createdAt
  }

  /** Some line's food (as `populate` resolves it) belongs to `partner`. */
  predicate HasPartnerLine(catalog: map<FoodId, Food>, lines: seq<OrderLine>, partner: PartnerId) {
    exists i :: 0 <= i < |lines| && lines[i].food in catalog && catalog[lines[i].food].partner == partner
  }

  /**
   * `order.items.some(item => item.food.foodpartner === partnerId)` over the
   * populated lines: a line whose food is gone has `item.food === null`, and
   * reading its partner throws (a 500) unless an earlier line already matched.
   */
  function OwnsAnyLine(catalog: map<FoodId, Food>, lines: seq<OrderLine>, partner: PartnerId): (r: Result<bool>)
    ensures r == Ok(true) ==> HasPartnerLine(catalog, lines, partner)
    ensures r == Ok(false) <==>
      forall i :: 0 <= i < |lines| ==> lines[i].food in catalog && catalog[lines[i].food].partner != partner
    ensures r.Err? ==> r.error == InternalError && exists i :: 0 <= i < |lines| && lines[i].food !in catalog
    ensures (forall i :: 0 <= i < |lines| ==> lines[i].food in catalog) ==> r == Ok(HasPartnerLine(catalog, lines, partner))
  {
    if lines == [] then Ok(false)
    else if lines[0].food !in catalog then Err(InternalError)
    else if catalog[lines[0].food].partner == partner then Ok(true)
    else
      var r := OwnsAnyLine(catalog, lines[1..], partner);
      assert forall i :: 1 <= i < |lines| ==> lines[i] == lines[1..][i - 1];
      assert HasPartnerLine(catalog, lines[1..], partner) ==> HasPartnerLine(catalog, lines, partner);
      r
  }

  class Store {
    /** The food collection, by id. */
    var catalog: map<FoodId, Food>
    /** The order collection, in creation order. */
    var orders: seq<Order>
    /** The order schema's default status (the schema is not part of this model). */
    const initialStatus: string

    ghost predicate Valid()
      reads this
    {
      forall i :: 0 <= i < |orders| ==> orders[i].id == i
    }

    constructor (catalog: map<FoodId, Food>, initialStatus: string)
      ensures Valid()
      ensures this.catalog == catalog && orders == [] && this.initialStatus == initialStatus
    {
      this.catalog := catalog;
      this.orders := [];
      this.initialStatus := initialStatus;
    }

    /**
     * `createOrder`. On any rejection nothing is written. Otherwise one order is
     * appended whose lines are the request lines priced from the catalog and
     * whose total is their sum, and every food's stock drops by the summed
     * quantity of the lines naming it. `now` is the creation timestamp.
     */
    method CreateOrder(user: UserId, items: Option<seq<ItemRequest>>, deliveryAddress: Option<string>, now: int)
      returns (r: Result<Order>)
      requires Valid()
      modifies this
      ensures Valid()
      ensures RequestRejection(old(catalog), items, deliveryAddress).Some? ==>
        && r == Err(RequestRejection(old(catalog), items, deliveryAddress).value)
        && catalog == old(catalog) && orders == old(orders)
      ensures RequestRejection(old(catalog), items, deliveryAddress) == None ==>
        var lines := PriceLines(old(catalog), items.value);
        && r == Ok(Order(|old(orders)|, user, lines, Total(lines), deliveryAddress.value, initialStatus, now))
        && orders == old(orders) + [r.value]
        && catalog == Decremented(old(catalog), lines)
    {
      if items.None? || |items.value| == 0 {
        return Err(BadRequest(ItemsRequired));
      }
      if deliveryAddress.None? || Text.Trim(deliveryAddress.value) == "" {
        return Err(BadRequest(AddressRequired));
      }
      var rejection, orderItems, totalAmount := ValidateItems(items.value);
      assert RequestRejection(catalog, items, deliveryAddress) == rejection;
      if rejection.Some? {
        return Err(rejection.value);
      }
      AcceptedLinesInCatalog(catalog, items.value);

      var order := Order(|orders|, user, orderItems, totalAmount, deliveryAddress.value, initialStatus, now);
      orders := orders + [order];

      DecrementStock(orderItems);
      r := Ok(order);
    }

    /**
     * The validation loop of `createOrder`: walks the request in order, stops at
     * the first unknown food or short stock, and otherwise prices every line
     * from the catalog and sums the total. It writes nothing.
     */
    method ValidateItems(requested: seq<ItemRequest>) returns (rejection: Option<Error>, orderItems: seq<OrderLine>, totalAmount: int)
      ensures rejection == FirstRejection(catalog, requested)
      ensures rejection == None ==> orderItems == PriceLines(catalog, requested) && totalAmount == Total(orderItems)
    {
      totalAmount := 0;
      orderItems := [];
      for i := 0 to |requested|
        invariant forall j :: 0 <= j < i ==> CheckItem(catalog, requested[j]) == None
        invariant |orderItems| == i
        invariant forall j :: 0 <= j < i ==> orderItems[j] == LineFor(catalog, requested[j])
        invariant totalAmount == Total(orderItems)
      {
        var item := requested[i];
        if item.food !in catalog {
          FirstRejectionAt(catalog, requested, i);
          return Some(NotFound(FoodNotFound(item.food))), orderItems, totalAmount;
        }
        var food := catalog[item.food];
        if food.availableQuantity < item.quantity {
          FirstRejectionAt(catalog, requested, i);
          return Some(BadRequest(InsufficientStock(food))), orderItems, totalAmount;
        }
        var price := food.price;
        assert (orderItems + [OrderLine(item.food, item.quantity, price)])[..i] == orderItems;
        orderItems := orderItems + [OrderLine(item.food, item.quantity, price)];
        totalAmount := totalAmount + price * item.quantity;
      }
      assert orderItems == PriceLines(catalog, requested);
      rejection := None;
    }

    /** The decrement loop of `createOrder`: one `$inc` of `-quantity` per line. */
    method DecrementStock(lines: seq<OrderLine>)
      requires forall i :: 0 <= i < |lines| ==> lines[i].food in catalog
      modifies this
      ensures orders == old(orders)
      ensures catalog == Decremented(old(catalog), lines)
    {
      ghost var start := catalog;
      for j := 0 to |lines|
        invariant orders == old(orders)
        invariant catalog == Decremented(start, lines[..j])
      {
        var line := lines[j];
        assert line.food in catalog;
        DecrementStep(start, lines[..j], line);
        assert lines[..j + 1] == lines[..j] + [line];
        catalog := DecrementOne(catalog, line);
      }
      assert lines[..|lines|] == lines;
    }

    /** `getUserOrders`: exactly the user's orders, newest first. */
    function UserOrders(user: UserId): (r: seq<Order>)
      reads this
      ensures forall o :: o in r <==> o in orders && o.user == user
      ensures forall o :: multiset(r)[o] == if o.user == user then multiset(orders)[o] else 0
      ensures |r| <= |orders|
      ensures forall i, j :: 0 <= i < j < |r| ==> r[i].createdAt >= r[j].createdAt
    {
      var mine := Seqs.Filter(orders, (o: Order) => o.user == user);
      Seqs.SortedFilterCounts(orders, (o: Order) => o.user == user, Seqs.Descending(CreatedAt));
      Seqs.SortByDescending(mine, CreatedAt);
      Seqs.SortByMembers(mine, Seqs.Descending(CreatedAt));
      Seqs.SortBy(mine, Seqs.Descending(CreatedAt))
    }

    /** `getOrderDetails`: the order with that id if the user owns it, otherwise not found. */
    function OrderDetails(orderId: OrderId, user: UserId): (r: Result<Order>)
      reads this
      ensures r.Ok? <==> exists i :: 0 <= i < |orders| && orders[i].id == orderId && orders[i].user == user
      ensures r.Ok? ==> r.value in orders && r.value.id == orderId && r.value.user == user
      ensures r.Err? ==> r.error == NotFound(OrderNotFound)
    {
      var found := Seqs.Filter(orders, (o: Order) => o.id == orderId && o.user == user);
      if found == [] then Err(NotFound(OrderNotFound)) else Ok(found[0])
    }

    /** `getPartnerOrders`: exactly the orders with a line for one of the partner's foods, newest first. */
    function PartnerOrders(partner: PartnerId): (r: seq<Order>)
      reads this
      ensures forall o :: o in r <==> o in orders && HasPartnerLine(catalog, o.items, partner)
      ensures forall o :: multiset(r)[o] == if HasPartnerLine(catalog, o.items, partner) then multiset(orders)[o] else 0
      ensures forall i, j :: 0 <= i < j < |r| ==> r[i].createdAt >= r[j].createdAt
    {
      var cat := catalog;
      var theirs := Seqs.Filter(orders, (o: Order) => HasPartnerLine(cat, o.items, partner));
      Seqs.SortedFilterCounts(orders, (o: Order) => HasPartnerLine(cat, o.items, partner), Seqs.Descending(CreatedAt));
      Seqs.SortByDescending(theirs, CreatedAt);
      Seqs.SortByMembers(theirs, Seqs.Descending(CreatedAt));
      Seqs.SortBy(theirs, Seqs.Descending(CreatedAt))
    }

    /**
     * `updateOrderStatus`: not found for an unknown order, forbidden when no line
     * is the partner's; otherwise the status is overwritten with whatever value
     * was sent (no transition check) and nothing else changes.
     */
    method UpdateOrderStatus(orderId: OrderId, partner: PartnerId, status: string) returns (r: Result<Order>)
      requires Valid()
      modifies this
      ensures Valid() && catalog == old(catalog)
      ensures orderId >= |old(orders)| ==> r == Err(NotFound(OrderNotFound)) && orders == old(orders)
      ensures orderId < |old(orders)| ==> match OwnsAnyLine(catalog, old(orders)[orderId].items, partner)
        case Ok(true) =>
          && r == Ok(old(orders)[orderId].(status := status))
          && orders == old(orders)[orderId := r.value]
        case Ok(false) => r == Err(Forbidden(NotOwner)) && orders == old(orders)
        case Err(e) => r == Err(e) && orders == old(orders)
    {
      if orderId >= |orders| {
        return Err(NotFound(OrderNotFound));
      }
      var order := orders[orderId];
      var owns := OwnsAnyLine(catalog, order.items, partner);
      if owns.Err? {
        return Err(owns.error);
      }
      if !owns.value {
        return Err(Forbidden(NotOwner));
      }
      order := order.(status := status);
      orders := orders[orderId := order];
      r := Ok(order);
    }
  }

  /**
   * The partner's list and the status guard agree: an order the partner may
   * update is in the partner's list, and while every food of an order still
   * exists, an order in the list is one the partner may update.
   */
  lemma PartnerListMatchesGuard(s: Store, partner: PartnerId, k: nat)
    requires k < |s.orders|
    ensures OwnsAnyLine(s.catalog, s.orders[k].items, partner) == Ok(true) ==> s.orders[k] in s.PartnerOrders(partner)
    ensures (forall i :: 0 <= i < |s.orders[k].items| ==> s.orders[k].items[i].food in s.catalog) ==>
      (s.orders[k] in s.PartnerOrders(partner) <==> OwnsAnyLine(s.catalog, s.orders[k].items, partner) == Ok(true))
  {
  }
}
