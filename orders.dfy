/**
 * Orders and their totals (app/order/models.py, class Order):
 * `update_total_price` and `apply_discount`.
 *
 * An Order object stands for the stored row together with its item rows.
 * When a promo code's discount cannot be computed (a `None` field, see
 * Promotions.GetDiscount), the source raises before `save()`, so the stored
 * totals keep their previous values; the methods below say exactly that.
 */
module Orders {
  import opened Wrappers
  import opened Promotions
  import opened Inventory

  datatype Status = Pending | Shipped | Delivered | Cancelled

  /** Sum of the item prices (`sum(item.price for item in self.items.all())`). */
  function Subtotal(items: seq<OrderItem>): real
  {
    if items == [] then 0.0 else Subtotal(items[..|items| - 1]) + items[|items| - 1].price
  }

  /** Python's `max(0, x)`. */
  function Max0(x: real): real { if x > 0.0 then x else 0.0 }

  datatype Totals = Totals(totalPrice: real, discount: real)

  /**
   * `apply_discount` on a running total: the stored discount is the promo's
   * value as computed, not clamped to the total; the total is floored at 0.
   */
  function DiscountedTotals(total: real, p: PromoCode): (r: Option<Totals>)
    ensures r.Some? <==> DiscountDefined(p)
    ensures r.Some? ==> r.value.discount == GetDiscount(p, total).value
    ensures r.Some? ==> 0.0 <= r.value.totalPrice && total - r.value.discount <= r.value.totalPrice
    ensures r.Some? ==> r.value.totalPrice == 0.0 || r.value.totalPrice == total - r.value.discount
  {
    match GetDiscount(p, total)
    case None => None
    case Some(d) => Some(Totals(Max0(total - d), d))
  }

  /**
   * `update_total_price` on values: the total becomes the subtotal and, when
   * a promo code is attached, the discount is applied. Attached is enough:
   * the guard `self.promo_code.is_valid` names the method without calling it,
   * so it is always true. With no promo code the discount keeps its old value.
   */
  function Reprice(subtotal: real, promo: Option<PromoCode>, discount: real): (r: Option<Totals>)
    ensures r.None? <==> promo.Some? && !DiscountDefined(promo.value)
    ensures promo.None? ==> r == Some(Totals(subtotal, discount))
    ensures promo.Some? && r.Some? ==>
      r.value.discount == GetDiscount(promo.value, subtotal).value &&
      r.value.totalPrice == Max0(subtotal - r.value.discount)
  {
    match promo
    case None => Some(Totals(subtotal, discount))
    case Some(p) => DiscountedTotals(subtotal, p)
  }

  /** The subtotal does not depend on how the items are split. */
  lemma {:induction false} SubtotalAppend(a: seq<OrderItem>, b: seq<OrderItem>)
    ensures Subtotal(a + b) == Subtotal(a) + Subtotal(b)
    decreases |b|
  {
    if b != [] {
      var b' := b[..|b| - 1];
      assert (a + b)[..|a + b| - 1] == a + b';
      SubtotalAppend(a, b');
    } else {
      assert a + b == a;
    }
  }

  /** Items with non-negative prices have a non-negative subtotal. */
  lemma {:induction false} SubtotalNonNegative(items: seq<OrderItem>)
    requires forall i :: 0 <= i < |items| ==> items[i].price >= 0.0
    ensures Subtotal(items) >= 0.0
    decreases |items|
  {
    if items != [] {
      SubtotalNonNegative(items[..|items| - 1]);
    }
  }

  /** After repricing, the total is never negative (given non-negative item prices). */
  lemma TotalNeverNegative(items: seq<OrderItem>, promo: Option<PromoCode>, discount: real)
    requires forall i :: 0 <= i < |items| ==> items[i].price >= 0.0
    requires Reprice(Subtotal(items), promo, discount).Some?
    ensures Reprice(Subtotal(items), promo, discount).value.totalPrice >= 0.0
  {
    SubtotalNonNegative(items);
  }

  /** A FIXED code larger than the subtotal: total 0, but the stored discount is the full amount. */
  lemma FixedNotCappedBySubtotal(p: PromoCode)
    requires p.kind == Fixed && p.fixedAmount == Some(10.0)
    ensures Reprice(5.0, Some(p), 0.0) == Some(Totals(0.0, 10.0))
  {
  }

  /** The discount is applied whether or not the code is valid: subtotal 230 with
      FIXED 10 gives 220 and 10 even for an inactive, expired, already-used code. */
  lemma DiscountIgnoresValidity(p: PromoCode, user: UserId, now: int, history: seq<OrderRef>)
    requires p.kind == Fixed && p.fixedAmount == Some(10.0)
    requires !IsValid(p, user, now, history)
    ensures Reprice(230.0, Some(p), 0.0) == Some(Totals(220.0, 10.0))
  {
  }

  /** With a PERCENTAGE code of 50% capped at 50: subtotal 90 gives 45 and 45,
      subtotal 200 gives 150 and 50. */
  lemma PercentageRepriceExamples(p: PromoCode)
    requires p.kind == Percentage && p.discountPercentage == Some(50.0) && p.maxDiscountAmount == Some(50.0)
    ensures Reprice(90.0, Some(p), 0.0) == Some(Totals(45.0, 45.0))
    ensures Reprice(200.0, Some(p), 0.0) == Some(Totals(150.0, 50.0))
  {
  }

  /** Without a promo code, repricing sets the total to the subtotal and leaves a stale discount alone. */
  lemma NoPromoKeepsDiscount(items: seq<OrderItem>, discount: real)
    ensures Reprice(Subtotal(items), None, discount) == Some(Totals(Subtotal(items), discount))
  {
  }

  /** The summation loop of `update_total_price`. */
  method SumPrices(items: seq<OrderItem>) returns (total: real)
    ensures total == Subtotal(items)
  {
    total := 0.0;
    var i := 0;
    while i < |items|
      invariant 0 <= i <= |items|
      invariant total == Subtotal(items[..i])
    {
      assert items[..i + 1][..i] == items[..i];
      total := total + items[i].price;
      i := i + 1;
    }
    assert items[..|items|] == items;
  }

  class Order {
    const user: UserId
    var status: Status
    var items: seq<OrderItem>
    var promoCode: Option<PromoCode>
    var discount: real
    var totalPrice: real

    /** `Order.objects.create(user=...)`: the column defaults. */
    constructor (user: UserId)
      ensures this.user == user && status == Pending && items == [] && promoCode == None
      ensures discount == 0.0 && totalPrice == 0.0
    {
      this.user := user;
      status := Pending;
      items := [];
      promoCode := None;
      discount := 0.0;
      totalPrice := 0.0;
    }

    /** `apply_discount`: `ok` is false where the source raises, and then nothing is stored. */
    method ApplyDiscount() returns (ok: bool)
      requires promoCode.Some?
      modifies this`discount, this`totalPrice
      ensures ok <==> DiscountDefined(promoCode.value)
      ensures ok ==> Totals(totalPrice, discount) == DiscountedTotals(old(totalPrice), promoCode.value).value
      ensures !ok ==> totalPrice == old(totalPrice) && discount == old(discount)
    {
      var amount := GetDiscount(promoCode.value, totalPrice);
      if amount.None? {
        return false;
      }
      discount := amount.value;
      totalPrice := Max0(totalPrice - amount.value);
      ok := true;
    }

    /** `update_total_price`: `ok` is false where `apply_discount` raises, and then nothing is stored. */
    method UpdateTotalPrice() returns (ok: bool)
      modifies this`discount, this`totalPrice
      ensures var t := Reprice(Subtotal(items), promoCode, old(discount));
        (ok <==> t.Some?) &&
        (ok ==> totalPrice == t.value.totalPrice && discount == t.value.discount) &&
        (!ok ==> totalPrice == old(totalPrice) && discount == old(discount))
    {
      var previous := totalPrice;
      totalPrice := SumPrices(items);
      ok := true;
      if promoCode.Some? {
        ok := ApplyDiscount();
        if !ok {
          // the exception skips save(): the stored total keeps its value
          totalPrice := previous;
        }
      }
    }
  }
}
