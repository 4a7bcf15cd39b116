/**
 * The item serializer's own create and update (app/order/serializers.py,
 * class OrderItemSerializer). Neither touches stock. The order endpoints do
 * not call them (OrderSerializer creates its items itself), but they encode
 * the same stock check and price rule.
 */
module OrderItemRules {
  import opened Wrappers
  import opened Inventory

  datatype ItemOutcome =
    | Item(item: OrderItem)
    | NotEnoughStock      // {"error": "Not enough stock for product"}
    | QuantityMissing     // `validated_data['quantity']` raises KeyError

  /** `OrderItemSerializer.create`: refuse more than the stock, price the item at unit price times quantity. */
  function CreateItem(req: ItemRequest, product: Product): (r: ItemOutcome)
    ensures r.Item? <==> req.quantity <= product.stock
    ensures !r.Item? ==> r == NotEnoughStock
    ensures r.Item? ==> r.item.product == req.product && r.item.quantity == req.quantity
    ensures r.Item? ==> r.item.price == product.price * req.quantity as real
  {
    if req.quantity > product.stock then NotEnoughStock
    else Item(OrderItem(req.product, req.quantity, product.price * req.quantity as real))
  }

  /** The item serializer accepts exactly what one step of the order's
      reservation loop accepts and creates the same item, but where that loop
      lowers the stock by the quantity, the item serializer leaves it alone. */
  lemma CreateItemMatchesReservation(products: map<ProductId, Product>, req: ItemRequest)
    requires req.product in products
    ensures Requestable(products, [req])
    ensures var r := ReserveAll(products, [req]);
      (CreateItem(req, products[req.product]).Item? <==> r.ok) &&
      (r.ok ==> r.created == [CreateItem(req, products[req.product]).item] &&
                r.products[req.product].stock == products[req.product].stock - req.quantity)
  {
    assert [req][1..] == [];
    if req.quantity <= products[req.product].stock {
      var next := Take(products, req.product, req.quantity);
      assert ReserveAll(next, []).created == [];
      assert ReserveAll(products, [req]).created == [LineItem(products, req)];
      assert CreateItem(req, products[req.product]) == Item(LineItem(products, req));
    }
  }

  /**
   * `OrderItemSerializer.update` as written. With a new product the quantity
   * must be in the request, is checked against that product's stock and the
   * price is recomputed; without one, only the quantity changes and the
   * price stays what it was.
   */
  function UpdateItem(instance: OrderItem, newProduct: Option<(ProductId, Product)>, quantity: Option<nat>): (r: ItemOutcome)
    ensures newProduct.None? ==> r == Item(instance.(quantity := quantity.GetOr(instance.quantity)))
    ensures newProduct.Some? && quantity.None? ==> r == QuantityMissing
    ensures newProduct.Some? && quantity.Some? ==>
      (r.Item? <==> quantity.value <= newProduct.value.1.stock) &&
      (!r.Item? ==> r == NotEnoughStock) &&
      (r.Item? ==> r.item == OrderItem(newProduct.value.0, quantity.value, newProduct.value.1.price * quantity.value as real))
  {
    match newProduct
    case Some((id, product)) =>
      if quantity.None? then QuantityMissing
      else if product.stock < quantity.value then NotEnoughStock
      else Item(OrderItem(id, quantity.value, product.price * quantity.value as real))
    case None =>
      Item(OrderItem(instance.product, quantity.GetOr(instance.quantity), instance.price))
  }

  /** As written, changing only the quantity from 2 to 5 of a product priced
      100 keeps the price 200; the corrected update gives 500. */
  lemma QuantityOnlyUpdateKeepsStalePrice(stock: nat)
    ensures UpdateItem(OrderItem(1, 2, 200.0), None, Some(5)) == Item(OrderItem(1, 5, 200.0))
    ensures UpdateItemRepriced(OrderItem(1, 2, 200.0), Product(100.0, stock), None, Some(5)) == Item(OrderItem(1, 5, 500.0))
  {
  }

  /** The item's price is its unit price times its quantity. */
  predicate PricedAt(item: OrderItem, unitPrice: real)
  {
    item.price == unitPrice * item.quantity as real
  }

  /**
   * Corrected update: when only the quantity changes, the price is
   * recomputed from the item's current product `current`.
   */
  function UpdateItemRepriced(instance: OrderItem, current: Product, newProduct: Option<(ProductId, Product)>, quantity: Option<nat>): (r: ItemOutcome)
    ensures r.Item? && newProduct.Some? ==> PricedAt(r.item, newProduct.value.1.price) && r.item.quantity <= newProduct.value.1.stock
    ensures r.Item? && newProduct.None? ==> PricedAt(r.item, current.price) && r.item.product == instance.product
    ensures r.Item? <==> UpdateItem(instance, newProduct, quantity).Item?
    ensures !r.Item? ==> r == UpdateItem(instance, newProduct, quantity)
    ensures r.Item? ==> r.item == UpdateItem(instance, newProduct, quantity).item.(price := r.item.price)
  {
    match newProduct
    case Some((id, product)) =>
      if quantity.None? then QuantityMissing
      else if product.stock < quantity.value then NotEnoughStock
      else Item(OrderItem(id, quantity.value, product.price * quantity.value as real))
    case None =>
      var q := quantity.GetOr(instance.quantity);
      Item(OrderItem(instance.product, q, current.price * q as real))
  }
}
