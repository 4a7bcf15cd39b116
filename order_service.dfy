/**
 * The order serializer's write operations (app/order/serializers.py,
 * class OrderSerializer): `create`, `update`, `delete` and the two loops
 * they share, `_create_order_items` and `_add_quantity_to_product_stock`.
 *
 * Every step writes to the tables at once and nothing is wrapped in a
 * transaction: when a later step fails, what earlier steps wrote stays.
 * Stock is read from the products table as it is at each step (see
 * StaleSnapshots for the copies the source actually reads).
 */
module OrderService {
  import opened Wrappers
  import opened Promotions
  import opened Inventory
  import opened Orders

  datatype Outcome =
    | Saved
    | NotEnoughStock     // {"error": "Not enough stock for product"}
    | InvalidPromoCode   // {"error": "Invalid promo code"}
    | DiscountError      // `update_total_price` raised on a promo code with a missing field

  /** Python truthiness of the optional `coupon_code`: `None` and `""` are false. */
  predicate CouponGiven(coupon: Option<string>)
  {
    coupon.Some? && coupon.value != ""
  }

  /** The promo-code table keyed by its unique `coupon_code` column. */
  predicate KeyedByCode(promos: map<string, PromoCode>)
  {
    forall code :: code in promos ==> promos[code].couponCode == code
  }

  /**
   * The promo code an order carries after the coupon step of `create` and
   * `update`, or `None` for "Invalid promo code". The lookup is an exact
   * match on `coupon_code`.
   */
  function CouponStep(promos: map<string, PromoCode>, coupon: Option<string>, current: Option<PromoCode>): (r: Option<Option<PromoCode>>)
    requires KeyedByCode(promos)
    ensures r.None? <==> CouponGiven(coupon) && coupon.value !in promos
    ensures !CouponGiven(coupon) ==> r == Some(current)
    ensures CouponGiven(coupon) && coupon.value in promos ==> r == Some(Some(promos[coupon.value]))
    ensures CouponGiven(coupon) && r.Some? ==> r.value.Some? && r.value.value.couponCode == coupon.value
  {
    if !CouponGiven(coupon) then Some(current)
    else if coupon.value in promos then Some(Some(promos[coupon.value]))
    else None
  }

  /** `_create_order_items`: reserve stock and create one item per request, stopping at the first short product. */
  method CreateOrderItems(catalog: Catalog, order: Order, reqs: seq<ItemRequest>) returns (ok: bool)
    requires Requestable(catalog.products, reqs)
    modifies catalog, order`items
    ensures var r := ReserveAll(old(catalog.products), reqs);
      ok == r.ok && catalog.products == r.products && order.items == old(order.items) + r.created
  {
    ghost var start := catalog.products;
    ghost var done: seq<OrderItem> := [];
    var i := 0;
    while i < |reqs|
      invariant 0 <= i <= |reqs|
      invariant catalog.products.Keys == start.Keys && Requestable(catalog.products, reqs[i..])
      invariant order.items == old(order.items) + done
      invariant var rest := ReserveAll(catalog.products, reqs[i..]);
        ReserveAll(start, reqs) == Reservation(rest.products, done + rest.created, rest.ok)
    {
      var p, q := reqs[i].product, reqs[i].quantity;
      ghost var rest := ReserveAll(catalog.products, reqs[i..]);
      assert reqs[i..][0] == reqs[i] && reqs[i..][1..] == reqs[i + 1..];
      if q > catalog.products[p].stock {
        assert rest == Reservation(catalog.products, [], false);
        return false;
      }
      var item := LineItem(catalog.products, reqs[i]);
      catalog.products := catalog.products[p := catalog.products[p].(stock := catalog.products[p].stock - q)];
      order.items := order.items + [item];
      ghost var rest' := ReserveAll(catalog.products, reqs[i + 1..]);
      assert rest == Reservation(rest'.products, [item] + rest'.created, rest'.ok);
      assert done + rest.created == (done + [item]) + rest'.created;
      done := done + [item];
      i := i + 1;
    }
    ok := true;
  }

  /** `_add_quantity_to_product_stock`: give every item's quantity back to its product, then delete the items. */
  method AddQuantityToProductStock(catalog: Catalog, order: Order)
    requires Held(catalog.products, order.items)
    modifies catalog, order`items
    ensures catalog.products == ReleaseAll(old(catalog.products), old(order.items))
    ensures order.items == []
  {
    var items := order.items;
    var i := 0;
    while i < |items|
      invariant 0 <= i <= |items|
      invariant catalog.products.Keys == old(catalog.products).Keys
      invariant ReleaseAll(old(catalog.products), items) == ReleaseAll(catalog.products, items[i..])
    {
      var p, q := items[i].product, items[i].quantity;
      assert items[i..][0] == items[i] && items[i..][1..] == items[i + 1..];
      catalog.products := catalog.products[p := catalog.products[p].(stock := catalog.products[p].stock + q)];
      i := i + 1;
    }
    order.items := [];
  }

  /**
   * `OrderSerializer.create`. The order row exists from the start, so it is
   * returned whatever the outcome; reserved stock and created items are kept
   * when the coupon turns out to be unknown.
   */
  method Create(catalog: Catalog, promos: map<string, PromoCode>, user: UserId, reqs: seq<ItemRequest>, coupon: Option<string>)
    returns (order: Order, outcome: Outcome)
    requires Requestable(catalog.products, reqs) && KeyedByCode(promos)
    modifies catalog
    ensures fresh(order) && order.user == user && order.status == Pending
    ensures var r := ReserveAll(old(catalog.products), reqs);
      catalog.products == r.products && order.items == r.created
    ensures var r := ReserveAll(old(catalog.products), reqs);
      var step := CouponStep(promos, coupon, None);
      var t := if step.Some? then Reprice(Subtotal(r.created), step.value, 0.0) else None;
      && (outcome == NotEnoughStock <==> !r.ok)
      && (outcome == InvalidPromoCode <==> r.ok && step.None?)
      && (outcome == DiscountError <==> r.ok && step.Some? && t.None?)
      && (outcome == Saved ==> order.promoCode == step.value &&
                               Totals(order.totalPrice, order.discount) == t.value)
      && (outcome != Saved ==> order.promoCode == None && order.totalPrice == 0.0 && order.discount == 0.0)
  {
    order := new Order(user);
    var ok := CreateOrderItems(catalog, order, reqs);
    if !ok {
      return order, NotEnoughStock;
    }
    if CouponGiven(coupon) {
      if coupon.value !in promos {
        return order, InvalidPromoCode;
      }
      order.promoCode := Some(promos[coupon.value]);
    }
    ok := order.UpdateTotalPrice();
    if !ok {
      // the exception skips save(): the stored row keeps no promo code
      order.promoCode := None;
      return order, DiscountError;
    }
    outcome := Saved;
  }

  /** The item set after `update`: replaced when the request has items, kept otherwise. */
  function ItemsAfterUpdate(products: map<ProductId, Product>, items: seq<OrderItem>, reqs: seq<ItemRequest>): (r: Reservation)
    requires Held(products, items) && Requestable(products, reqs)
    ensures |reqs| == 0 ==> r == Reservation(products, items, true)
  {
    if |reqs| == 0 then Reservation(products, items, true)
    else ReserveAll(ReleaseAll(products, items), reqs)
  }

  /**
   * `OrderSerializer.update`. A non-empty item list releases every current
   * item and then reserves the new ones; an empty or missing one leaves items
   * and stock alone. Without a coupon the current promo code stays.
   */
  method Update(catalog: Catalog, promos: map<string, PromoCode>, order: Order, reqs: seq<ItemRequest>, coupon: Option<string>)
    returns (outcome: Outcome)
    requires Held(catalog.products, order.items) && Requestable(catalog.products, reqs)
    requires KeyedByCode(promos)
    modifies catalog, order`items, order`promoCode, order`discount, order`totalPrice
    ensures var r := ItemsAfterUpdate(old(catalog.products), old(order.items), reqs);
      catalog.products == r.products && order.items == r.created
    ensures var r := ItemsAfterUpdate(old(catalog.products), old(order.items), reqs);
      var step := CouponStep(promos, coupon, old(order.promoCode));
      var t := if step.Some? then Reprice(Subtotal(r.created), step.value, old(order.discount)) else None;
      && (outcome == NotEnoughStock <==> !r.ok)
      && (outcome == InvalidPromoCode <==> r.ok && step.None?)
      && (outcome == DiscountError <==> r.ok && step.Some? && t.None?)
      && (outcome == Saved ==> order.promoCode == step.value &&
                               Totals(order.totalPrice, order.discount) == t.value)
      && (outcome != Saved ==> order.promoCode == old(order.promoCode) &&
                               order.totalPrice == old(order.totalPrice) && order.discount == old(order.discount))
  {
    if |reqs| > 0 {
      AddQuantityToProductStock(catalog, order);
      var ok := CreateOrderItems(catalog, order, reqs);
      if !ok {
        return NotEnoughStock;
      }
    }
    var previous := order.promoCode;
    if CouponGiven(coupon) {
      if coupon.value !in promos {
        return InvalidPromoCode;
      }
      order.promoCode := Some(promos[coupon.value]);
    }
    var ok := order.UpdateTotalPrice();
    if !ok {
      // the exception skips save(): the stored row keeps its promo code
      order.promoCode := previous;
      return DiscountError;
    }
    outcome := Saved;
  }

  /** `OrderSerializer.delete`: stock goes back, then the items (and the row) go. */
  method Delete(catalog: Catalog, order: Order)
    requires Held(catalog.products, order.items)
    modifies catalog, order`items
    ensures catalog.products == ReleaseAll(old(catalog.products), old(order.items))
    ensures order.items == []
  {
    AddQuantityToProductStock(catalog, order);
  }

  /** Replacing an order's items moves each product's stock by what the old
      items held minus what the new requests take: with old item A x 5 and new
      request B x 2, A gains 5 and B loses 2. */
  lemma ReplaceNetChange(products: map<ProductId, Product>, items: seq<OrderItem>, reqs: seq<ItemRequest>, p: ProductId)
    requires Held(products, items) && Requestable(products, reqs) && |reqs| > 0 && p in products
    requires ItemsAfterUpdate(products, items, reqs).ok
    ensures ItemsAfterUpdate(products, items, reqs).products[p].stock + RequestedQty(reqs, p)
            == products[p].stock + HeldQty(items, p)
  {
    StockAfterReservation(ReleaseAll(products, items), reqs, p);
  }
}
