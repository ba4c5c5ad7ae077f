/** The billing arithmetic of app/featues/table_session/usecase/open_table.go:
    played time, the one-hour minimum, promotion discounts, the grand total
    and the balance left to pay. */
module Billing {

  import opened Base
  import opened Entities

  const FREE_HOURS := "FREE_HOURS"
  const DISCOUNT_PCT := "DISCOUNT_PCT"
  const DISCOUNT_AMT := "DISCOUNT_AMT"

  /** The three promotion types are different strings. */
  lemma PromotionTypesDistinct()
    ensures FREE_HOURS != DISCOUNT_PCT && FREE_HOURS != DISCOUNT_AMT && DISCOUNT_PCT != DISCOUNT_AMT
  {
    assert |FREE_HOURS| == 10 && |DISCOUNT_PCT| == 12;
    assert DISCOUNT_PCT[9] != DISCOUNT_AMT[9];
  }

  /** Every session is billed for at least this many minutes. */
  const MinimumBillableMins := 60.0

  /** `totalMins`: minutes since the start less the paused minutes, floored
      at zero. A pause still in progress is not subtracted. */
  function PlayedMinutes(startTime: real, totalPausedMins: real, now: real): (m: real)
    ensures m >= 0.0 && m >= now - startTime - totalPausedMins
    ensures m == 0.0 || m == now - startTime - totalPausedMins
  {
    ClampAtZero(now - startTime - totalPausedMins)
  }

  /** `billableMins`: the played minutes, but never less than an hour. */
  function BillableMinutes(totalMins: real): (b: real)
    ensures b >= MinimumBillableMins && b >= totalMins
    ensures b == totalMins || b == MinimumBillableMins
  {
    if totalMins < MinimumBillableMins then MinimumBillableMins else totalMins
  }

  /** `TableCharge`: billable hours times the hourly rate, rounded to cents.
      A non-negative rate is always charged at least one full hour. */
  function TableCharge(totalMins: real, rate: real): (c: real)
    ensures rate >= 0.0 ==> c >= 0.0
    ensures rate <= 0.0 ==> c <= 0.0
  {
    Round2(HoursCharge(BillableMinutes(totalMins), rate))
  }

  /** Minutes charged at an hourly rate, before rounding. */
  function HoursCharge(mins: real, rate: real): real {
    mins / MinutesPerHour * rate
  }

  lemma TableChargeAtLeastOneHour(totalMins: real, rate: real)
    requires rate >= 0.0
    ensures TableCharge(totalMins, rate) >= Round2(rate)
  {
    ChargeForAtLeastRate(BillableMinutes(totalMins), rate);
  }

  /** At least an hour's worth of minutes costs at least the hourly rate,
      once both are rounded to cents. */
  lemma ChargeForAtLeastRate(mins: real, rate: real)
    requires mins >= MinimumBillableMins && rate >= 0.0
    ensures Round2(HoursCharge(mins, rate)) >= Round2(rate)
  {
    assert mins / MinutesPerHour >= 1.0;
    ScaleUp(1.0, mins / MinutesPerHour, rate);
    Round2Monotone(rate, HoursCharge(mins, rate));
  }

  lemma BilledAmountMonotone(m1: real, m2: real, rate: real)
    requires m1 <= m2 && rate >= 0.0
    ensures HoursCharge(BillableMinutes(m1), rate) <= HoursCharge(BillableMinutes(m2), rate)
  {
    assert BillableMinutes(m1) / MinutesPerHour <= BillableMinutes(m2) / MinutesPerHour;
    ScaleUp(BillableMinutes(m1) / MinutesPerHour, BillableMinutes(m2) / MinutesPerHour, rate);
  }

  lemma ScaleUp(a: real, b: real, c: real)
    requires a <= b && c >= 0.0
    ensures a * c <= b * c
  {
  }

  /** Playing longer never costs less. */
  lemma TableChargeMonotone(m1: real, m2: real, rate: real)
    requires m1 <= m2 && rate >= 0.0
    ensures TableCharge(m1, rate) <= TableCharge(m2, rate)
  {
    BilledAmountMonotone(m1, m2, rate);
    Round2Monotone(HoursCharge(BillableMinutes(m1), rate), HoursCharge(BillableMinutes(m2), rate));
  }

  /** Anything up to an hour costs exactly one hour. */
  lemma FirstHourIsFlat(totalMins: real, rate: real)
    requires totalMins <= MinimumBillableMins
    ensures TableCharge(totalMins, rate) == Round2(rate)
  {
    assert HoursCharge(BillableMinutes(totalMins), rate) == rate;
  }

  /** The raw promotion discount before rounding. `pctBase` is the charge a
      percentage applies to: the billed table charge at close, the unrounded
      charge for the played time in the preview. Unknown types give nothing. */
  function PromotionAmount(p: Promotion, totalMins: real, rate: real, pctBase: real): (a: real)
    ensures p.Type == FREE_HOURS ==>
              (a == if p.PlayHours > 0.0 && totalMins >= p.PlayHours * MinutesPerHour then p.FreeHours * rate else 0.0)
    ensures p.Type == DISCOUNT_AMT ==> a == p.DiscountAmt
    ensures p.Type != FREE_HOURS && p.Type != DISCOUNT_PCT && p.Type != DISCOUNT_AMT ==> a == 0.0
  {
    if p.Type == FREE_HOURS then
      if p.PlayHours > 0.0 && totalMins / MinutesPerHour >= p.PlayHours then p.FreeHours * rate else 0.0
    else if p.Type == DISCOUNT_PCT then
      PercentOf(pctBase, p.DiscountPct)
    else if p.Type == DISCOUNT_AMT then
      p.DiscountAmt
    else
      0.0
  }

  /** The promotion discount `CloseTable` recomputes, in cents. */
  function CloseDiscount(p: Promotion, totalMins: real, rate: real): (d: real)
    ensures p.Type == FREE_HOURS && totalMins < p.PlayHours * MinutesPerHour ==> d == 0.0
    ensures p.Type == FREE_HOURS && p.PlayHours > 0.0 && totalMins >= p.PlayHours * MinutesPerHour ==>
              d == Round2(p.FreeHours * rate)
    ensures p.Type == DISCOUNT_AMT ==> d == Round2(p.DiscountAmt)
    ensures p.Type != FREE_HOURS && p.Type != DISCOUNT_PCT && p.Type != DISCOUNT_AMT ==> d == 0.0
  {
    Round2(PromotionAmount(p, totalMins, rate, TableCharge(totalMins, rate)))
  }

  /** The promotion discount `ApplyPromotionToSession` stores: the same
      formulas on the played time so far, the percentage taken of the plain
      played-hours charge. */
  function PreviewDiscount(p: Promotion, elapsed: real, rate: real): (d: real)
    ensures p.Type == FREE_HOURS && elapsed < p.PlayHours * MinutesPerHour ==> d == 0.0
    ensures p.Type == FREE_HOURS && p.PlayHours > 0.0 && elapsed >= p.PlayHours * MinutesPerHour ==>
              d == Round2(p.FreeHours * rate)
    ensures p.Type == DISCOUNT_AMT ==> d == Round2(p.DiscountAmt)
    ensures p.Type != FREE_HOURS && p.Type != DISCOUNT_PCT && p.Type != DISCOUNT_AMT ==> d == 0.0
  {
    Round2(PromotionAmount(p, elapsed, rate, HoursCharge(elapsed, rate)))
  }

  /** The percentage branch of `PromotionAmount`. */
  lemma PercentBranch(p: Promotion, totalMins: real, rate: real, pctBase: real)
    requires p.Type == DISCOUNT_PCT
    ensures PromotionAmount(p, totalMins, rate, pctBase) == PercentOf(pctBase, p.DiscountPct)
  {
    PromotionTypesDistinct();
  }

  /** A percentage discount is `DiscountPct` percent of the billed table
      charge, taken in cents once: the second rounding changes nothing. */
  lemma CloseDiscountPercent(p: Promotion, totalMins: real, rate: real)
    requires p.Type == DISCOUNT_PCT
    ensures CloseDiscount(p, totalMins, rate) == PercentOf(TableCharge(totalMins, rate), p.DiscountPct)
  {
    var charge := TableCharge(totalMins, rate);
    PercentBranch(p, totalMins, rate, charge);
    PercentOfInCents(charge, p.DiscountPct);
  }

  /** The preview's percentage has no one-hour minimum: it is taken of the
      played hours times the rate, so a short visit previews a smaller
      discount than the one billed at close. */
  lemma PreviewDiscountPercent(p: Promotion, elapsed: real, rate: real)
    requires p.Type == DISCOUNT_PCT
    ensures PreviewDiscount(p, elapsed, rate) == PercentOf(HoursCharge(elapsed, rate), p.DiscountPct)
  {
    var charge := HoursCharge(elapsed, rate);
    PercentBranch(p, elapsed, rate, charge);
    PercentOfInCents(charge, p.DiscountPct);
  }

  /** Outside the percentage case, the preview and the close compute the
      same discount for the same played time. */
  lemma PreviewAgreesWithCloseOutsidePercent(p: Promotion, mins: real, rate: real)
    requires p.Type != DISCOUNT_PCT
    ensures PreviewDiscount(p, mins, rate) == CloseDiscount(p, mins, rate)
  {
  }

  /** A percentage between 0 and 100 of a non-negative charge never takes off
      more than the charge itself. */
  lemma PercentDiscountWithinCharge(p: Promotion, totalMins: real, rate: real)
    requires p.Type == DISCOUNT_PCT && 0.0 <= p.DiscountPct <= 100.0 && rate >= 0.0
    ensures 0.0 <= CloseDiscount(p, totalMins, rate) <= TableCharge(totalMins, rate)
  {
    var charge := TableCharge(totalMins, rate);
    CloseDiscountPercent(p, totalMins, rate);
    TableChargeAtLeastOneHour(totalMins, rate);
    Round2Idempotent(HoursCharge(BillableMinutes(totalMins), rate));
    PercentOfWithin(charge, p.DiscountPct);
  }

  /** `GrandTotal`: table charge plus food, less both discounts, floored at
      zero. */
  function GrandTotal(tableCharge: real, foodTotal: real, discount: real, promotionDiscount: real): (g: real)
    ensures g >= 0.0 && g >= tableCharge + foodTotal - discount - promotionDiscount
    ensures g == 0.0 || g == tableCharge + foodTotal - discount - promotionDiscount
  {
    ClampAtZero(tableCharge + foodTotal - discount - promotionDiscount)
  }

  /** `remaining`: the grand total less what was already paid, in cents. */
  function Remaining(grandTotal: real, paidTotal: real): (r: real)
    ensures grandTotal - paidTotal - 0.005 <= r <= grandTotal - paidTotal + 0.005
  {
    Round2(grandTotal - paidTotal)
  }

  /** A session already paid in full has nothing left to pay. */
  lemma PaidInFullLeavesNothing(grandTotal: real, paidTotal: real)
    requires grandTotal <= paidTotal
    ensures Remaining(grandTotal, paidTotal) <= 0.0
  {
    Round2Monotone(grandTotal - paidTotal, 0.0);
    assert Round2(0.0) == 0.0;
  }

  /** After the final payment the payments cover the grand total to within
      half a cent; an overpayment is never refunded. */
  lemma FinalPaymentSettles(grandTotal: real, paidTotal: real)
    ensures var r := Remaining(grandTotal, paidTotal);
            var paid := if r > 0.0 then paidTotal + r else paidTotal;
            paid >= grandTotal - 0.005 && (r > 0.0 ==> paid <= grandTotal + 0.005)
  {
  }

  /** A 90-minute visit with a 30-minute pause plays 60 minutes and, at 100 an
      hour, is charged 100.00. */
  lemma PausedVisitExample()
    ensures PlayedMinutes(0.0, 30.0, 90.0) == 60.0
    ensures Round2(PlayedMinutes(0.0, 30.0, 90.0)) == 60.0
    ensures TableCharge(60.0, 100.0) == 100.0
  {
    assert PlayedMinutes(0.0, 30.0, 90.0) * 100.0 == 6000.0;
    RoundHalfAwayOfInt(6000);
    assert HoursCharge(60.0, 100.0) * 100.0 == 10000.0;
    RoundHalfAwayOfInt(10000);
  }

  /** A table closed the moment it opened is charged one hour. */
  lemma ImmediateCloseChargesOneHour(startTime: real, rate: real)
    ensures TableCharge(PlayedMinutes(startTime, 0.0, startTime), rate) == Round2(rate)
  {
    FirstHourIsFlat(0.0, rate);
  }

  /** "Play 2 hours, get 1 free" at 100 an hour: 119 minutes earn nothing,
      120 minutes earn 100.00. */
  lemma FreeHoursThresholdExample(p: Promotion)
    requires p.Type == FREE_HOURS && p.PlayHours == 2.0 && p.FreeHours == 1.0
    ensures CloseDiscount(p, 119.0, 100.0) == 0.0
    ensures CloseDiscount(p, 120.0, 100.0) == 100.0
  {
    assert Round2(0.0) == 0.0;
    assert 1.0 * 100.0 * 100.0 == 10000.0;
    RoundHalfAwayOfInt(10000);
  }
}
