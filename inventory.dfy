/**
 * Products, order items and the two stock movements the order serializer
 * performs (app/order/serializers.py): reserving stock for requested items
 * (`_create_order_items`) and giving it back (`_add_quantity_to_product_stock`).
 *
 * The functions here are the specifications of the loops in module
 * OrderService. They read the stock as it currently is in the products table;
 * module StaleSnapshots models how the source instead reads a copy of each
 * product loaded before the loop.
 */
module Inventory {

  type ProductId = nat

  /** A product row: unit price (a 2-place decimal) and stock (a PositiveIntegerField). */
  datatype Product = Product(price: real, stock: nat)

  /** One entry of the request's `items` list. */
  datatype ItemRequest = ItemRequest(product: ProductId, quantity: nat)

  /** An OrderItem row: product, quantity and the price frozen when it was created. */
  datatype OrderItem = OrderItem(product: ProductId, quantity: nat, price: real)

  /** The products table after a reservation pass, the items it created, and
      whether it got through every request (`false`: "Not enough stock for product"). */
  datatype Reservation = Reservation(products: map<ProductId, Product>, created: seq<OrderItem>, ok: bool)

  /** Every requested product exists (the serializer's primary-key field guarantees it). */
  predicate Requestable(products: map<ProductId, Product>, reqs: seq<ItemRequest>)
  {
    forall i :: 0 <= i < |reqs| ==> reqs[i].product in products
  }

  /** Every item's product exists (the foreign key is PROTECTed against deletion). */
  predicate Held(products: map<ProductId, Product>, items: seq<OrderItem>)
  {
    forall i :: 0 <= i < |items| ==> items[i].product in products
  }

  /** The item a request creates: unit price times quantity. */
  function LineItem(products: map<ProductId, Product>, req: ItemRequest): OrderItem
    requires req.product in products
  {
    OrderItem(req.product, req.quantity, products[req.product].price * req.quantity as real)
  }

  /** A line item depends on its product's unit price only. */
  lemma LineItemSamePrice(a: map<ProductId, Product>, b: map<ProductId, Product>, req: ItemRequest)
    requires req.product in a && req.product in b && a[req.product].price == b[req.product].price
    ensures LineItem(a, req) == LineItem(b, req)
  {
  }

  /** Total quantity of `p` held by `items`. */
  function HeldQty(items: seq<OrderItem>, p: ProductId): nat
  {
    if items == [] then 0
    else (if items[0].product == p then items[0].quantity else 0) + HeldQty(items[1..], p)
  }

  /** Total quantity of `p` asked for by `reqs`. */
  function RequestedQty(reqs: seq<ItemRequest>, p: ProductId): nat
  {
    if reqs == [] then 0
    else (if reqs[0].product == p then reqs[0].quantity else 0) + RequestedQty(reqs[1..], p)
  }

  function Take(products: map<ProductId, Product>, p: ProductId, q: nat): map<ProductId, Product>
    requires p in products && q <= products[p].stock
  {
    products[p := products[p].(stock := products[p].stock - q)]
  }

  function Restock(products: map<ProductId, Product>, p: ProductId, q: nat): map<ProductId, Product>
    requires p in products
  {
    products[p := products[p].(stock := products[p].stock + q)]
  }

  /**
   * The reservation loop of `_create_order_items`, request by request: a
   * request for more than the current stock stops the pass with an error and
   * leaves that product untouched; otherwise its stock drops by the quantity
   * and an item priced at unit price times quantity is created. Nothing done
   * for earlier requests is undone when a later one fails.
   */
  function ReserveAll(products: map<ProductId, Product>, reqs: seq<ItemRequest>): (r: Reservation)
    requires Requestable(products, reqs)
    ensures r.products.Keys == products.Keys
    ensures forall p :: p in products ==> r.products[p].price == products[p].price
    ensures |r.created| <= |reqs| && (r.ok <==> |r.created| == |reqs|)
    decreases |reqs|
  {
    if reqs == [] then Reservation(products, [], true)
    else
      var p, q := reqs[0].product, reqs[0].quantity;
      if q > products[p].stock then Reservation(products, [], false)
      else
        var rest := ReserveAll(Take(products, p, q), reqs[1..]);
        Reservation(rest.products, [LineItem(products, reqs[0])] + rest.created, rest.ok)
  }

  /** The k-th created item is the line item of the k-th request, priced with
      the unit price the product had before the pass. */
  lemma {:induction false} CreatedItems(products: map<ProductId, Product>, reqs: seq<ItemRequest>, k: nat)
    requires Requestable(products, reqs) && k < |ReserveAll(products, reqs).created|
    ensures ReserveAll(products, reqs).created[k] == LineItem(products, reqs[k])
    decreases |reqs|
  {
    var r := ReserveAll(products, reqs);
    assert reqs != [];
    var p, q := reqs[0].product, reqs[0].quantity;
    assert q <= products[p].stock;
    var next := Take(products, p, q);
    var rest := ReserveAll(next, reqs[1..]);
    assert r.created == [LineItem(products, reqs[0])] + rest.created;
    if k > 0 {
      CreatedItems(next, reqs[1..], k - 1);
      assert r.created[k] == rest.created[k - 1];
      assert reqs[1..][k - 1] == reqs[k];
      assert next[reqs[k].product].price == products[reqs[k].product].price;
      LineItemSamePrice(next, products, reqs[k]);
    } else {
      assert r.created[0] == LineItem(products, reqs[0]);
    }
  }

  /** The stock that left each product is exactly what the created items hold,
      and on failure the first request not served asked for more than was left. */
  lemma {:induction false} ReserveConsumes(products: map<ProductId, Product>, reqs: seq<ItemRequest>, p: ProductId)
    requires Requestable(products, reqs) && p in products
    ensures var r := ReserveAll(products, reqs);
      r.products[p].stock + HeldQty(r.created, p) == products[p].stock &&
      (!r.ok ==> reqs[|r.created|].quantity > r.products[reqs[|r.created|].product].stock)
    decreases |reqs|
  {
    if reqs != [] {
      var q := reqs[0].quantity;
      if q <= products[reqs[0].product].stock {
        var next := Take(products, reqs[0].product, q);
        ReserveConsumes(next, reqs[1..], p);
        var r := ReserveAll(products, reqs);
        assert r.created[1..] == ReserveAll(next, reqs[1..]).created;
      }
    }
  }

  /**
   * The loop of `_add_quantity_to_product_stock`: each item's quantity goes
   * back to its product, whatever else the order holds.
   */
  function ReleaseAll(products: map<ProductId, Product>, items: seq<OrderItem>): (r: map<ProductId, Product>)
    requires Held(products, items)
    ensures r.Keys == products.Keys
    ensures forall p :: p in products ==> r[p].price == products[p].price
    ensures forall p :: p in products ==> r[p].stock == products[p].stock + HeldQty(items, p)
    decreases |items|
  {
    if items == [] then products
    else ReleaseAll(Restock(products, items[0].product, items[0].quantity), items[1..])
  }

  /** A reservation pass never reaches a request past the first that fails; together
      with ReserveAll's contract: the earlier requests are served and stay served. */
  lemma {:induction false} ReservedPrefix(products: map<ProductId, Product>, reqs: seq<ItemRequest>)
    requires Requestable(products, reqs)
    ensures var r := ReserveAll(products, reqs);
      forall k :: 0 <= k < |r.created| ==> reqs[k].quantity <= ReserveAll(products, reqs[..k]).products[reqs[k].product].stock
    decreases |reqs|
  {
    if reqs != [] {
      var p, q := reqs[0].product, reqs[0].quantity;
      if q <= products[p].stock {
        var next := Take(products, p, q);
        ReservedPrefix(next, reqs[1..]);
        var r := ReserveAll(products, reqs);
        forall k | 0 <= k < |r.created|
          ensures reqs[k].quantity <= ReserveAll(products, reqs[..k]).products[reqs[k].product].stock
        {
          if k > 0 {
            assert reqs[..k][1..] == reqs[1..][..k - 1];
            assert reqs[1..][k - 1] == reqs[k];
          }
        }
      }
    }
  }

  /** Releasing the items a reservation pass created gives back exactly the
      stock it took, whether the pass completed or stopped part-way. */
  lemma ReleaseUndoesReserve(products: map<ProductId, Product>, reqs: seq<ItemRequest>)
    requires Requestable(products, reqs)
    ensures var r := ReserveAll(products, reqs);
      Held(r.products, r.created) && ReleaseAll(r.products, r.created) == products
  {
    var r := ReserveAll(products, reqs);
    assert Held(r.products, r.created) by {
      forall i | 0 <= i < |r.created| ensures r.created[i].product in r.products {
        CreatedItems(products, reqs, i);
      }
    }
    var back := ReleaseAll(r.products, r.created);
    forall p | p in products ensures back[p] == products[p] {
      ReserveConsumes(products, reqs, p);
    }
  }

  /** The items created by a completed pass hold exactly the quantities requested, product by product. */
  lemma {:induction false} HeldMatchesRequested(products: map<ProductId, Product>, reqs: seq<ItemRequest>, p: ProductId)
    requires Requestable(products, reqs)
    requires ReserveAll(products, reqs).ok
    ensures HeldQty(ReserveAll(products, reqs).created, p) == RequestedQty(reqs, p)
    decreases |reqs|
  {
    if reqs != [] {
      var q := reqs[0].quantity;
      var next := Take(products, reqs[0].product, q);
      HeldMatchesRequested(next, reqs[1..], p);
      assert ReserveAll(products, reqs).created[1..] == ReserveAll(next, reqs[1..]).created;
    }
  }

  /** A completed pass: every product's stock drops by the total it was requested for. */
  lemma StockAfterReservation(products: map<ProductId, Product>, reqs: seq<ItemRequest>, p: ProductId)
    requires Requestable(products, reqs) && ReserveAll(products, reqs).ok && p in products
    ensures ReserveAll(products, reqs).products[p].stock + RequestedQty(reqs, p) == products[p].stock
  {
    HeldMatchesRequested(products, reqs, p);
  }

  /** No product appears in two requests. */
  predicate DistinctProducts(reqs: seq<ItemRequest>)
  {
    forall i, j :: 0 <= i < j < |reqs| ==> reqs[i].product != reqs[j].product
  }

  lemma {:induction false} RequestedQtyDistinct(reqs: seq<ItemRequest>, k: nat)
    requires DistinctProducts(reqs) && k < |reqs|
    ensures RequestedQty(reqs, reqs[k].product) == reqs[k].quantity
    decreases |reqs|
  {
    if k == 0 {
      RequestedQtyAbsent(reqs[1..], reqs[0].product);
    } else {
      RequestedQtyDistinct(reqs[1..], k - 1);
    }
  }

  lemma {:induction false} RequestedQtyAbsent(reqs: seq<ItemRequest>, p: ProductId)
    requires forall i :: 0 <= i < |reqs| ==> reqs[i].product != p
    ensures RequestedQty(reqs, p) == 0
    decreases |reqs|
  {
    if reqs != [] {
      RequestedQtyAbsent(reqs[1..], p);
    }
  }

  /** With distinct products, a completed pass lowers each requested product's
      stock by exactly its quantity (for example 10 -> 5 and 50 -> 40). */
  lemma DistinctReservation(products: map<ProductId, Product>, reqs: seq<ItemRequest>, k: nat)
    requires Requestable(products, reqs) && DistinctProducts(reqs) && k < |reqs|
    requires ReserveAll(products, reqs).ok
    ensures ReserveAll(products, reqs).products[reqs[k].product].stock == products[reqs[k].product].stock - reqs[k].quantity
  {
    StockAfterReservation(products, reqs, reqs[k].product);
    RequestedQtyDistinct(reqs, k);
  }

  /** The products table, whose rows the order serializer updates in place. */
  class Catalog {
    var products: map<ProductId, Product>
  }
}
