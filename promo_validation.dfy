/**
 * Input checks for promotion codes (app/order/serializers.py,
 * `PromoCodeSerializer.validate`). The check lets a PERCENTAGE code through
 * without its cap; the corrected discount rule `GetDiscountOptionalCap`
 * treats a missing cap as no cap.
 */
module PromoValidation {
  import opened Wrappers
  import opened Promotions

  /** The validated data; a field left out of a (partial) request is `None`. */
  datatype PromoInput = PromoInput(
    kind: Option<PromoKind>,
    fixedAmount: Option<real>,
    discountPercentage: Option<real>,
    maxDiscountAmount: Option<real>,
    startAt: Option<int>,
    endedAt: Option<int>)

  datatype Verdict =
    | Accepted
    | FixedAmountRequired          // {"fixed_amount": ...}
    | DiscountPercentageRequired   // {"discount_percentage": ...}
    | EndBeforeStart               // {"ended_at": ...}
    | DateMissing                  // comparing None with `>` raises TypeError

  /** The amount the code's type calls for is present. */
  predicate AmountPresent(d: PromoInput)
  {
    (d.kind == Some(Fixed) ==> d.fixedAmount.Some?) &&
    (d.kind == Some(Percentage) ==> d.discountPercentage.Some?)
  }

  /** `PromoCodeSerializer.validate`, checks in the source's order. */
  function Validate(d: PromoInput): (r: Verdict)
    ensures r == Accepted <==>
      AmountPresent(d) && d.startAt.Some? && d.endedAt.Some? && d.startAt.value <= d.endedAt.value
    ensures r == FixedAmountRequired <==> d.kind == Some(Fixed) && d.fixedAmount.None?
    ensures r == DiscountPercentageRequired <==> d.kind == Some(Percentage) && d.discountPercentage.None?
    ensures r == DateMissing <==> AmountPresent(d) && (d.startAt.None? || d.endedAt.None?)
    ensures r == EndBeforeStart <==>
      AmountPresent(d) && d.startAt.Some? && d.endedAt.Some? && d.startAt.value > d.endedAt.value
  {
    if d.kind == Some(Fixed) && d.fixedAmount.None? then FixedAmountRequired
    else if d.kind == Some(Percentage) && d.discountPercentage.None? then DiscountPercentageRequired
    else if d.startAt.None? || d.endedAt.None? then DateMissing
    else if d.startAt.value > d.endedAt.value then EndBeforeStart
    else Accepted
  }

  /** A code of any type that has its amount and starts and ends at the same instant is accepted. */
  lemma SameInstantAccepted(d: PromoInput)
    requires AmountPresent(d) && d.startAt.Some? && d.startAt == d.endedAt
    ensures Validate(d) == Accepted
  {
  }

  /** The stored row made from accepted data. */
  function ToPromo(d: PromoInput, id: PromoId, code: string, active: bool): (p: PromoCode)
    requires d.kind.Some? && d.startAt.Some? && d.endedAt.Some?
    ensures Validate(d) == Accepted ==> p.startAt <= p.endedAt && (p.kind == Fixed ==> DiscountDefined(p))
  {
    PromoCode(id, code, d.kind.value, d.startAt.value, d.endedAt.value,
              d.fixedAmount, d.discountPercentage, d.maxDiscountAmount, active)
  }

  /** As written, a PERCENTAGE code without `max_discount_amount` passes the
      check, and `get_discount` on it then fails (`min` with `None`). */
  lemma UncappedPercentageAccepted()
    ensures var d := PromoInput(Some(Percentage), None, Some(10.0), None, Some(0), Some(10));
            Validate(d) == Accepted && GetDiscount(ToPromo(d, 1, "TEN", true), 100.0) == None
  {
  }

  /** With the corrected discount rule every accepted code has a discount
      for every amount, and a PERCENTAGE discount never exceeds the
      percentage of the amount, cap or no cap. */
  lemma AcceptedHasDiscount(d: PromoInput, id: PromoId, code: string, active: bool, amount: real)
    requires d.kind.Some? && Validate(d) == Accepted
    ensures var r := GetDiscountOptionalCap(ToPromo(d, id, code, active), amount);
      r.Some? && (d.kind == Some(Percentage) ==> r.value <= amount * d.discountPercentage.value / 100.0)
  {
  }
}
