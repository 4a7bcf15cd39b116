/**
 * `_create_order_items` as written (app/order/serializers.py:123-138).
 *
 * Each entry of the request's `items` carries its own copy of the product,
 * loaded while the request was validated (the primary-key field at
 * serializers.py:38 loads one instance per entry). The loop checks and lowers
 * the stock of that copy and `save()` writes the copy back over the row. When
 * the row changed after the copy was loaded, by an earlier entry for the same
 * product or by `update` releasing the old items first, that change is lost.
 *
 * Module Inventory's ReserveAll, which reads the row as it currently is, is
 * the corrected behaviour the rest of the model uses; the two agree whenever
 * every copy is current and no product is repeated.
 */
module StaleSnapshots {
  import opened Inventory

  /** A request entry with the product copy loaded for it. */
  datatype LoadedRequest = LoadedRequest(product: ProductId, quantity: nat, loaded: Product)

  function Plain(reqs: seq<LoadedRequest>): (r: seq<ItemRequest>)
    ensures |r| == |reqs|
    ensures forall i :: 0 <= i < |reqs| ==> r[i] == ItemRequest(reqs[i].product, reqs[i].quantity)
  {
    if reqs == [] then [] else [ItemRequest(reqs[0].product, reqs[0].quantity)] + Plain(reqs[1..])
  }

  /** The reservation loop as written: check the copy, save the lowered copy over the row. */
  function ReserveAsWritten(products: map<ProductId, Product>, reqs: seq<LoadedRequest>): (r: Reservation)
    ensures products.Keys <= r.products.Keys
    ensures |r.created| <= |reqs| && (r.ok <==> |r.created| == |reqs|)
    decreases |reqs|
  {
    if reqs == [] then Reservation(products, [], true)
    else
      var e := reqs[0];
      if e.quantity > e.loaded.stock then Reservation(products, [], false)
      else
        var rest := ReserveAsWritten(products[e.product := e.loaded.(stock := e.loaded.stock - e.quantity)], reqs[1..]);
        Reservation(rest.products, [CopyItem(e)] + rest.created, rest.ok)
  }

  /** The item an entry creates, priced with its copy's unit price. */
  function CopyItem(e: LoadedRequest): OrderItem
  {
    OrderItem(e.product, e.quantity, e.loaded.price * e.quantity as real)
  }

  /** One served entry of the loop as written. */
  lemma StepAsWritten(products: map<ProductId, Product>, reqs: seq<LoadedRequest>)
    requires reqs != [] && reqs[0].quantity <= reqs[0].loaded.stock
    ensures var e := reqs[0];
      var rest := ReserveAsWritten(products[e.product := e.loaded.(stock := e.loaded.stock - e.quantity)], reqs[1..]);
      ReserveAsWritten(products, reqs) == Reservation(rest.products, [CopyItem(e)] + rest.created, rest.ok)
  {
  }

  /** Every copy equals the row it was loaded from. */
  predicate CurrentCopies(products: map<ProductId, Product>, reqs: seq<LoadedRequest>)
  {
    forall i :: 0 <= i < |reqs| ==> reqs[i].product in products && reqs[i].loaded == products[reqs[i].product]
  }

  /** With current copies and no repeated product, the loop as written does what ReserveAll says. */
  lemma {:induction false} AgreesWhenCurrentAndDistinct(products: map<ProductId, Product>, reqs: seq<LoadedRequest>)
    requires CurrentCopies(products, reqs) && DistinctProducts(Plain(reqs))
    ensures Requestable(products, Plain(reqs))
    ensures ReserveAsWritten(products, reqs) == ReserveAll(products, Plain(reqs))
    decreases |reqs|
  {
    var plain := Plain(reqs);
    assert Requestable(products, plain);
    if reqs != [] {
      var e := reqs[0];
      assert plain[0] == ItemRequest(e.product, e.quantity);
      assert plain[1..] == Plain(reqs[1..]);
      if e.quantity <= e.loaded.stock {
        var next := Take(products, e.product, e.quantity);
        assert products[e.product := e.loaded.(stock := e.loaded.stock - e.quantity)] == next;
        forall i | 0 <= i < |reqs[1..]|
          ensures reqs[1..][i].product in next && reqs[1..][i].loaded == next[reqs[1..][i].product]
        {
          assert plain[0].product != plain[i + 1].product;
        }
        forall i, j | 0 <= i < j < |plain[1..]| ensures plain[1..][i].product != plain[1..][j].product {
          assert plain[i + 1].product != plain[j + 1].product;
        }
        AgreesWhenCurrentAndDistinct(next, reqs[1..]);
        var item := CopyItem(e);
        assert item == LineItem(products, plain[0]);
        var rest := ReserveAsWritten(next, reqs[1..]);
        StepAsWritten(products, reqs);
        assert ReserveAll(products, plain) == Reservation(rest.products, [item] + rest.created, rest.ok);
      }
    }
  }

  /** Two entries for one product (stock 10, quantities 2 then 3): the second
      save overwrites the first, leaving 7 instead of 5. */
  lemma RepeatedProductLosesUpdate()
    ensures var products := map[1 := Product(100.0, 10)];
      var copy := products[1];
      && ReserveAsWritten(products, [LoadedRequest(1, 2, copy), LoadedRequest(1, 3, copy)]).products[1].stock == 7
      && ReserveAll(products, [ItemRequest(1, 2), ItemRequest(1, 3)]).products[1].stock == 5
  {
    var products := map[1 := Product(100.0, 10)];
    var copy := products[1];
    var reqs := [LoadedRequest(1, 2, copy), LoadedRequest(1, 3, copy)];
    var afterFirst := products[1 := Product(100.0, 8)];
    assert reqs[1..] == [LoadedRequest(1, 3, copy)];
    assert ReserveAsWritten(afterFirst, reqs[1..]).products == map[1 := Product(100.0, 7)];
    var plain := [ItemRequest(1, 2), ItemRequest(1, 3)];
    assert plain[1..] == [ItemRequest(1, 3)];
    assert ReserveAll(afterFirst, plain[1..]).products == map[1 := Product(100.0, 5)];
  }

  /** `update` from item A x 5 to A x 3 with 5 left in stock: the copy of A was
      loaded before the old item was released, so saving it erases the release,
      leaving 2 instead of 7. */
  lemma UpdateOverlapLosesRelease()
    ensures var products := map[1 := Product(100.0, 5)];
      var released := ReleaseAll(products, [OrderItem(1, 5, 500.0)]);
      && released[1].stock == 10
      && ReserveAsWritten(released, [LoadedRequest(1, 3, products[1])]).products[1].stock == 2
      && ReserveAll(released, [ItemRequest(1, 3)]).products[1].stock == 7
  {
  }

  /** The same stale copy also refuses A x 8 although 10 are in stock after the release. */
  lemma UpdateOverlapRefusesAvailableStock()
    ensures var products := map[1 := Product(100.0, 5)];
      var released := ReleaseAll(products, [OrderItem(1, 5, 500.0)]);
      && !ReserveAsWritten(released, [LoadedRequest(1, 8, products[1])]).ok
      && ReserveAll(released, [ItemRequest(1, 8)]).ok
  {
  }
}
