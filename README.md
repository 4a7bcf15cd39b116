# Order pricing and stock reconciliation

A Dafny model of the order back end's core: promotion codes (validity and
discount rules), order totals, and the stock bookkeeping the order serializer
does when an order is created, has its items replaced, or is deleted; plus the
two access rules the order endpoints use.

- `Promotions`: `PromoCode.is_valid` with the clock
  reading and the user's order history passed in, and `PromoCode.get_discount`
  (FIXED returns the fixed amount, PERCENTAGE returns
  `min(amount * pct / 100, cap)`, any other type returns 0; a FIXED code
  without its amount gives `None`, so the subtraction in `apply_discount`
  fails, and a PERCENTAGE code missing its percentage or its cap fails
  inside `get_discount`).
- `PromoValidation`: `PromoCodeSerializer.validate`.
- `Inventory`: products, items, the products table (`Catalog`), and the
  specifications `ReserveAll` (the loop of `_create_order_items`) and
  `ReleaseAll` (the loop of `_add_quantity_to_product_stock`).
- `Orders`: the `Order` class with `update_total_price` and `apply_discount`.
  The discount is applied whenever a promo code is attached, because
  `self.promo_code.is_valid` names the method without calling it, and a
  missing promo code leaves the stored discount as it was.
- `OrderService`: `OrderSerializer.create`, `update` and `delete`, with the
  source's sequencing: the order row and every reservation are written as the
  loop goes, and a later failure (short stock, unknown coupon) undoes nothing.
- `StaleSnapshots`: the reservation loop as written, reading the product copy
  loaded for each request entry (see Findings).
- `OrderItemRules`: `OrderItemSerializer.create` and `update`.
- `Permissions`: `IsAdminOrOwner` and `IsAdminOrReadOnly`.

Decimal columns are exact `real`s, stock is `nat`, instants are `int`.

The model follows the code where it departs from what its own documentation
says (the order endpoint's description, app/order/views.py:168, promises the
promo code is applied "if valid"):
create and update do not roll back reservations when a later item or the
coupon fails; the coupon is looked up by exact `coupon_code` and never checked
with `is_valid`; with no promo code the discount is not reset to 0; an empty
`items` list is accepted by create (an order with no items and total 0).

## Model

| member | source | states |
|---|---|---|
| Promotions.IsValid | app/order/models.py:40-46 | valid iff active, `start_at <= now <= ended_at`, and the user has no order of any status that references the code |
| Promotions.AnyOrderUses | app/order/models.py:45 | the history scan is true iff some order in it belongs to the user and references the code |
| Promotions.RedemptionIsPermanent | app/order/models.py:45 | once the user has an order with the code, no extension of the history makes it valid for them again |
| Promotions.GetDiscount | app/order/models.py:48-54 | FIXED gives `fixed_amount`; PERCENTAGE gives the smaller of `amount * pct / 100` and the cap, so never above the cap; other types give 0; defined exactly when the fields the type needs are present |
| Promotions.GetDiscountOptionalCap | app/order/models.py:48-54 | corrected rule: a PERCENTAGE code without a cap gets the uncapped percentage of the amount; defined whenever the type's amount is present; equal to `get_discount` wherever that is defined |
| Promotions.FixedIgnoresAmount | app/order/models.py:50-51 | a FIXED discount is the same for every amount, so it is not capped by the subtotal |
| Promotions.PercentageWithinAmount | app/order/models.py:52-53 | with a percentage in [0, 100] and a non-negative cap and amount, the discount lies between 0 and the amount |
| Promotions.PercentageExamples | app/order/tests/test_order.py:130-136 | 50% capped at 50 gives 45 on 90, as the test expects for 3 x 30; and, as the cap example, 50 on 200 |
| PromoValidation.Validate | app/order/serializers.py:22-34 | accepted iff the amount the type needs is present and both dates are present with `start_at <= ended_at`; a FIXED code without `fixed_amount` and a PERCENTAGE code without `discount_percentage` each get their own error; a missing date fails, and an end before the start is reported, only once the amounts are present |
| PromoValidation.SameInstantAccepted | app/order/serializers.py:26-34 | a code of any type that carries its amount and starts and ends at the same instant is accepted |
| PromoValidation.UncappedPercentageAccepted | app/order/serializers.py:28-34 | a PERCENTAGE code without a cap passes validation and its discount then cannot be computed |
| PromoValidation.AcceptedHasDiscount | app/order/tests/test_promocode.py:51-66 | with the corrected discount rule, every code the check accepts (including a PERCENTAGE code with no cap, as the test creates) has a discount for every amount, at most the percentage of the amount |
| Inventory.ReserveAll | app/order/serializers.py:123-138 | a pass keeps the product set and prices, creates at most one item per request, and succeeds iff it served every request |
| Inventory.CreatedItems | app/order/serializers.py:133-138 | the k-th created item is the k-th request's product and quantity priced at unit price times quantity |
| Inventory.ReserveConsumes | app/order/serializers.py:128-132 | each product's stock drops by exactly what the created items hold; on failure the first unserved request asks for more than is left and its product was not touched |
| Inventory.ReservedPrefix | app/order/serializers.py:124-132 | every served request fitted the stock left by the requests before it; earlier reservations stay when a later one fails |
| Inventory.ReleaseAll | app/order/serializers.py:140-150 | each product's stock rises by the total quantity the items hold; product set and prices unchanged |
| Inventory.ReleaseUndoesReserve | app/order/serializers.py:119-150 | releasing the items a pass created restores the products table exactly, whether the pass completed or stopped part-way (delete after create restores stock) |
| Inventory.HeldMatchesRequested | app/order/serializers.py:124-138 | after a completed pass the items hold, per product, exactly the quantity requested |
| Inventory.StockAfterReservation | app/order/serializers.py:124-132 | after a completed pass each product's stock dropped by the total requested for it |
| Inventory.DistinctReservation | app/order/tests/test_order.py:209-222 | with distinct products each requested product's stock drops by exactly its quantity (10 to 5, 50 to 40) |
| Orders.DiscountedTotals | app/order/models.py:79-83 | stored discount is the promo's unclamped value; the total is `max(0, total - discount)`, never negative |
| Orders.Reprice | app/order/models.py:72-77 | fails iff a promo code is attached whose discount cannot be computed; with no promo code the total is the subtotal and the discount is kept; with one, the discount is `get_discount(subtotal)` and the total is the subtotal minus it, floored at 0 |
| Orders.SubtotalAppend | app/order/models.py:74 | the subtotal of a concatenation is the sum of the subtotals |
| Orders.SubtotalNonNegative | app/order/models.py:74 | non-negative item prices give a non-negative subtotal |
| Orders.TotalNeverNegative | app/order/models.py:72-83 | with non-negative item prices the repriced total is never negative |
| Orders.FixedNotCappedBySubtotal | app/order/models.py:79-83 | FIXED 10 on a subtotal of 5 stores discount 10 and total 0 |
| Orders.DiscountIgnoresValidity | app/order/models.py:75 | an invalid FIXED 10 code still turns 230 into 220 with discount 10 |
| Orders.PercentageRepriceExamples | app/order/tests/test_order.py:130-136 | 50% capped at 50: 90 gives total 45 and discount 45, as the test expects for 3 x 30; as the cap example, 200 gives 150 and 50 |
| Orders.NoPromoKeepsDiscount | app/order/models.py:72-77 | without a promo code the total is the subtotal and the old discount stays |
| Orders.SumPrices | app/order/models.py:74 | the summation loop returns the subtotal of the items |
| Orders.Order.constructor | app/order/models.py:63-67 | a new order is PENDING with no items, no promo code, discount 0 and total 0 |
| Orders.Order.ApplyDiscount | app/order/models.py:79-83 | succeeds iff the discount is computable, then stores the totals of `DiscountedTotals`; otherwise nothing is stored |
| Orders.Order.UpdateTotalPrice | app/order/models.py:72-77 | stores the subtotal, discounted when any promo code is attached; discount untouched without one; nothing stored when the discount cannot be computed |
| OrderService.CouponStep | app/order/serializers.py:89-94 | no or blank coupon keeps the current promo code; otherwise "Invalid promo code" iff the code has no exact match, else the promo code whose `coupon_code` is the coupon |
| OrderService.CreateOrderItems | app/order/serializers.py:123-138 | the loop leaves the products table and the appended items exactly as `ReserveAll` says, and reports its success |
| OrderService.AddQuantityToProductStock | app/order/serializers.py:140-150 | the loop leaves the products table as `ReleaseAll` says and the order with no items |
| OrderService.Create | app/order/serializers.py:82-98 | a new order holds the reserved items whatever happens next; short stock, unknown coupon and an uncomputable discount are reported in that order and leave promo code, total and discount at their defaults; otherwise the totals are the repriced subtotal |
| OrderService.ItemsAfterUpdate | app/order/serializers.py:101-106 | no items in the request: item set and stock unchanged; otherwise release all, then reserve the new ones |
| OrderService.Update | app/order/serializers.py:100-117 | stock and items follow `ItemsAfterUpdate`; without a coupon the promo code stays; on failure promo code, total and discount keep their stored values; on success they are the repriced values, starting from the stored discount |
| OrderService.Delete | app/order/serializers.py:119-121 | every item's quantity goes back to its product and the order has no items |
| OrderService.ReplaceNetChange | app/order/serializers.py:104-106 | after a replace each product's stock changed by what the old items held minus what the new requests took (A gains 5, B loses 2) |
| StaleSnapshots.ReserveAsWritten | app/order/serializers.py:123-138 | the loop as written keeps every existing product and succeeds iff it served every entry |
| StaleSnapshots.AgreesWhenCurrentAndDistinct | app/order/serializers.py:123-138 | with current copies and no repeated product, the loop as written equals `ReserveAll` |
| StaleSnapshots.RepeatedProductLosesUpdate | app/order/serializers.py:128-132 | two entries for one product with stock 10 (2 then 3) leave 7 as written, 5 when reading the row |
| StaleSnapshots.UpdateOverlapLosesRelease | app/order/serializers.py:104-106 | replacing A x 5 by A x 3 with 5 in stock leaves 2 as written, 7 when reading the row |
| StaleSnapshots.UpdateOverlapRefusesAvailableStock | app/order/serializers.py:104-106 | replacing A x 5 by A x 8 with 5 in stock is refused as written though 10 are available after the release |
| OrderItemRules.CreateItem | app/order/serializers.py:45-54 | refused iff the quantity exceeds the stock; otherwise the item is priced at unit price times quantity |
| OrderItemRules.CreateItemMatchesReservation | app/order/serializers.py:45-54 | the item serializer accepts and creates exactly what one reservation step does, but leaves stock alone where the step lowers it by the quantity |
| OrderItemRules.UpdateItem | app/order/serializers.py:56-68 | without a new product only the quantity changes; a new product without a quantity fails with a missing key; with both, refused iff the quantity exceeds the new product's stock, otherwise the item is that product at that quantity priced at its unit price times the quantity |
| OrderItemRules.QuantityOnlyUpdateKeepsStalePrice | app/order/serializers.py:64-65 | changing only the quantity of a 2 x 100 item to 5 keeps the price 200, where the corrected update gives 500 |
| OrderItemRules.UpdateItemRepriced | app/order/serializers.py:56-68 | corrected update: fails exactly as the original does; on success the item equals the original's (same product, a new product when one is given, same quantity) except that the price is always unit price times quantity |
| Permissions.HasObjectPermission | app/order/permissions.py:7-12 | staff or superuser always pass; anyone else passes iff the object has a `user` equal to the caller |
| Permissions.HasPermission | app/order/permissions.py:16-19 | GET, HEAD and OPTIONS always pass; other methods iff the caller is signed in and staff |
| Permissions.SuperuserAloneCannotWrite | app/order/permissions.py:19 | a superuser who is not staff may open objects but not write |
| Permissions.WritersOpenEverything | app/order/permissions.py:8-19 | whoever may write may open every object |
| Permissions.AnonymousReadsOnly | app/order/permissions.py:10-19 | an anonymous caller may only read and never opens an object |

## Left out

- OrderService.Create, OrderService.CreateOrderItems, Inventory.ReserveAll: reserve against the current stock of each product row (the corrected behaviour), not against the copy loaded while the request was validated; the loop as written is `StaleSnapshots.ReserveAsWritten`.
- OrderService.Update: same as Create for the new items, through `CreateOrderItems` and `ReserveAll`. The release loop reads the order's prefetched items, where items sharing a product share one product instance, so `ReleaseAll` follows the code.
- Rounding to two decimal places when a decimal column is saved, the `max_digits` limits (a discount of 1000 or more does not fit its column), and the decimal context's precision: the model computes exactly.
- Product prices are not constrained to be non-negative by the source; `Orders.TotalNeverNegative` assumes it.
- On the path where the discount cannot be computed the source raises before `save()`; the model gives the stored values (total, discount, promo code unchanged), not the half-updated in-memory instance.
- `instance.delete()` on the order row itself: the model has no table of orders, only the order's items and the stock.
- `is_valid`'s `timezone.now()` and order query become the `now` and `history` parameters.
- Orders.Reprice: prices with `get_discount` as written, so an uncapped PERCENTAGE code still ends in `DiscountError` in `Create` and `Update`; the corrected `Promotions.GetDiscountOptionalCap` is proved on its own and not substituted into the order flow, which models the code as it runs.
- Inventory.ReserveAll, OrderService.CreateOrderItems, OrderItemRules.CreateItem: every request entry is assumed to carry a quantity. The item's `quantity` column has a default (app/order/models.py:89), so an entry without one passes validation; `_create_order_items` then raises `KeyError` at app/order/serializers.py:126 with the earlier entries already reserved and saved, and `OrderItemSerializer.create` raises the same at app/order/serializers.py:47. The model's `nat` quantity cannot express the missing key, so these crashes are not modelled.
- Checks done before `create`/`update` run (requested products exist, quantities are non-negative integers) are preconditions, and so is the unique `coupon_code` column (the promo-code table passed in is keyed by each row's own code); the products' foreign key being protected becomes the precondition that every item's product exists.
- `OrderItemSerializer.create` passes no order to `OrderItem.objects.create`; the item's order is not part of the model.
- Names, coupon names and timestamps carry no behaviour and are left out.
- Views (routing, caching, querysets, e-mail dispatch), filters, admin, the user app, and Celery tasks: framework and I/O around the core.
- Transactions, locking and concurrent requests: the code has none; the model is sequential.

## Findings

| source | as written | input that shows it | evidently intended | confidence | as-written member | corrected member |
|---|---|---|---|---|---|---|
| app/order/serializers.py:128-132 | each entry checks and saves its own product copy, so a second entry for the same product overwrites the first one's decrement | product with stock 10, entries of 2 and 3 for it: stock ends at 7 | stock ends at 5 | medium, not executed | StaleSnapshots.RepeatedProductLosesUpdate | Inventory.ReserveAll |
| app/order/serializers.py:104-106 | the new items' product copies are loaded before the old items are released, and saving them erases the release | order holding A x 5, A has 5 in stock, replaced by A x 3: stock ends at 2 | stock ends at 7 | medium, not executed | StaleSnapshots.UpdateOverlapLosesRelease | Inventory.ReserveAll |
| app/order/serializers.py:28-34 | a PERCENTAGE code without `max_discount_amount` is accepted, and `get_discount` then evaluates `min(x, None)`, which raises | PERCENTAGE 10% with no cap, applied to 100 | a missing cap means no cap: app/order/tests/test_promocode.py:51-66 expects such a code to be created, so the fix belongs in `get_discount` (discount 10), not in validation | high, not executed | PromoValidation.UncappedPercentageAccepted | Promotions.GetDiscountOptionalCap |
| app/order/serializers.py:64-65 | updating only the quantity keeps the old price | item 2 x 100 at price 200, quantity changed to 5: price stays 200 | price 500 | medium, not executed | OrderItemRules.QuantityOnlyUpdateKeepsStalePrice | OrderItemRules.UpdateItemRepriced |
