/**
 * Promotion codes (app/order/models.py, class PromoCode): the redemption
 * predicate `is_valid` and the discount rule `get_discount`.
 *
 * Decimal fields are modelled as exact `real`s; nullable decimal fields as
 * `Option<real>`. Instants (`start_at`, `ended_at`, `now`) are integers.
 */
module Promotions {
  import opened Wrappers

  type PromoId = nat
  type UserId = nat

  /** The `type` column. Its choices are FIXED and PERCENTAGE, but the model
      class does not enforce them, and `get_discount` has a branch for any other value. */
  datatype PromoKind = Fixed | Percentage | OtherKind

  datatype PromoCode = PromoCode(
    id: PromoId,
    couponCode: string,
    kind: PromoKind,
    startAt: int,
    endedAt: int,
    fixedAmount: Option<real>,
    discountPercentage: Option<real>,
    maxDiscountAmount: Option<real>,
    isActive: bool)

  /** What `is_valid` needs to know about one existing order: its owner and
      the promo code it references (if any). Its status plays no part. */
  datatype OrderRef = OrderRef(user: UserId, promo: Option<PromoId>)

  /** The user already has an order, of any status, that references `p`. */
  ghost predicate Redeemed(p: PromoCode, user: UserId, history: seq<OrderRef>)
  {
    exists i :: 0 <= i < |history| && history[i].user == user && history[i].promo == Some(p.id)
  }

  /** `PromoCode.is_valid(user)`, with the clock reading and the orders table
      passed in. The history is scanned as the ORM's `exists()` query does. */
  function IsValid(p: PromoCode, user: UserId, now: int, history: seq<OrderRef>): (r: bool)
    ensures r <==> p.isActive && p.startAt <= now <= p.endedAt && !Redeemed(p, user, history)
  {
    p.isActive && p.startAt <= now <= p.endedAt && !AnyOrderUses(p.id, user, history)
  }

  function AnyOrderUses(id: PromoId, user: UserId, history: seq<OrderRef>): (r: bool)
    ensures r <==> exists i :: 0 <= i < |history| && history[i].user == user && history[i].promo == Some(id)
  {
    if history == [] then false
    else (history[0].user == user && history[0].promo == Some(id)) || AnyOrderUses(id, user, history[1..])
  }

  /** Once a user has an order with the code, no later history makes it valid for that user again. */
  lemma {:induction false} RedemptionIsPermanent(p: PromoCode, user: UserId, now: int, history: seq<OrderRef>, later: seq<OrderRef>)
    requires Redeemed(p, user, history)
    ensures !IsValid(p, user, now, history + later)
  {
    var i :| 0 <= i < |history| && history[i].user == user && history[i].promo == Some(p.id);
    assert (history + later)[i] == history[i];
  }

  /** The fields that `get_discount` uses are present (no arithmetic or
      comparison with `None`, which raises `TypeError` in Python 3). */
  predicate DiscountDefined(p: PromoCode)
  {
    match p.kind
    case Fixed => p.fixedAmount.Some?
    case Percentage => p.discountPercentage.Some? && p.maxDiscountAmount.Some?
    case OtherKind => true
  }

  function Min(a: real, b: real): real { if a <= b then a else b }

  /**
   * `PromoCode.get_discount(amount)`. `None` stands for the cases where the
   * source yields `None` (a FIXED code without `fixed_amount`) or raises on a
   * `None` operand (a PERCENTAGE code missing its percentage or its cap);
   * either way the caller `apply_discount` cannot complete.
   */
  function GetDiscount(p: PromoCode, amount: real): (r: Option<real>)
    ensures r.Some? <==> DiscountDefined(p)
    ensures p.kind == Fixed ==> r == p.fixedAmount
    ensures p.kind == Percentage && r.Some? ==>
      r.value <= p.maxDiscountAmount.value &&
      r.value <= amount * p.discountPercentage.value / 100.0 &&
      (r.value == p.maxDiscountAmount.value || r.value == amount * p.discountPercentage.value / 100.0)
    ensures p.kind == OtherKind ==> r == Some(0.0)
  {
    match p.kind
    case Fixed => p.fixedAmount
    case Percentage =>
      if p.discountPercentage.None? || p.maxDiscountAmount.None? then None
      else Some(Min(amount * p.discountPercentage.value / 100.0, p.maxDiscountAmount.value))
    case OtherKind => Some(0.0)
  }

  /**
   * Corrected `get_discount`: a PERCENTAGE code without `max_discount_amount`
   * is not capped, instead of failing on `min(x, None)`. Wherever the original
   * is defined the two agree.
   */
  function GetDiscountOptionalCap(p: PromoCode, amount: real): (r: Option<real>)
    ensures r.Some? <==> (p.kind == Fixed ==> p.fixedAmount.Some?) && (p.kind == Percentage ==> p.discountPercentage.Some?)
    ensures DiscountDefined(p) ==> r == GetDiscount(p, amount)
    ensures p.kind == Percentage && r.Some? ==>
      r.value <= amount * p.discountPercentage.value / 100.0 &&
      (p.maxDiscountAmount.None? ==> r.value == amount * p.discountPercentage.value / 100.0)
  {
    if p.kind == Percentage && p.discountPercentage.Some? && p.maxDiscountAmount.None? then
      Some(amount * p.discountPercentage.value / 100.0)
    else GetDiscount(p, amount)
  }

  /** A FIXED discount does not depend on the amount: it is not capped by the subtotal. */
  lemma FixedIgnoresAmount(p: PromoCode, a: real, b: real)
    requires p.kind == Fixed
    ensures GetDiscount(p, a) == GetDiscount(p, b) == p.fixedAmount
  {
  }

  /** With a percentage in [0, 100], a non-negative cap and a non-negative
      amount, a PERCENTAGE discount lies between 0 and the amount. */
  lemma PercentageWithinAmount(p: PromoCode, amount: real)
    requires p.kind == Percentage && DiscountDefined(p)
    requires 0.0 <= p.discountPercentage.value <= 100.0
    requires 0.0 <= p.maxDiscountAmount.value && 0.0 <= amount
    ensures 0.0 <= GetDiscount(p, amount).value <= amount
  {
    var pct := p.discountPercentage.value;
    assert 0.0 <= amount * (100.0 - pct);
    assert 0.0 <= amount * pct;
    assert amount * pct / 100.0 <= amount;
  }

  /** The case the tests check: 50% of 90 with cap 50 is 45, and 50% of 200 with cap 50 is the cap. */
  lemma PercentageExamples(p: PromoCode)
    requires p.kind == Percentage && p.discountPercentage == Some(50.0) && p.maxDiscountAmount == Some(50.0)
    ensures GetDiscount(p, 90.0) == Some(45.0)
    ensures GetDiscount(p, 200.0) == Some(50.0)
  {
  }
}
