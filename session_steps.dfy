/** What each session handler of
    app/featues/table_session/usecase/open_table.go does to the session it
    loaded, as pure functions of that session and the handler's inputs. */
module SessionSteps {

  import opened Base
  import opened Entities
  import opened Billing
  import opened SessionRepo

  const CASH := "CASH"

  /** `OpenTable`'s new session: `ACTIVE` from now, with a snapshot of the
      table's name, type and hourly rate; every other field is zero. */
  function OpenedSession(table: Table, now: real, user: string): (s: TableSession)
    ensures s.TableId == table.Id && s.TableName == table.Name
    ensures s.TableType == table.Type && s.RatePerHour == table.RatePerHour
    ensures s.Status == Active && s.StartTime == now && s.CreatedBy == user
    ensures s.PausedAt == None && s.TotalPausedMins == 0.0 && s.EndTime == None && s.PromotionId == None
  {
    TableSession(
      Id := NilId, TableId := table.Id, TableName := table.Name, TableType := table.Type,
      RatePerHour := table.RatePerHour, Status := Active, StartTime := now,
      EndTime := None, PausedAt := None, TotalPausedMins := 0.0, DurationMins := 0.0,
      TableCharge := 0.0, FoodTotal := 0.0, Discount := 0.0, PromotionId := None,
      PromotionName := "", PromotionDiscount := 0.0, GrandTotal := 0.0, Note := "",
      CreatedBy := user, CreatedDate := ZeroTime, UpdatedBy := "", UpdatedDate := ZeroTime)
  }

  /** `PauseTable`: the pause starts now; the paused total, the bill and
      the snapshot are left alone. */
  function PausedSession(s: TableSession, now: real): (r: TableSession)
    ensures r.Status == Paused && r.IsOpen() && r.PausedAt == Some(now)
    ensures r.(Status := s.Status, PausedAt := s.PausedAt) == s
  {
    s.(PausedAt := Some(now), Status := Paused)
  }

  /** `ResumeTable`: the minutes since the pause began join the paused
      total. */
  function ResumedSession(s: TableSession, now: real): (r: TableSession)
    requires s.PausedAt.Some?
    ensures r.Status == Active && r.IsOpen() && r.PausedAt == None
    ensures r.TotalPausedMins - s.TotalPausedMins == now - s.PausedAt.value
    ensures r.(Status := s.Status, PausedAt := s.PausedAt, TotalPausedMins := s.TotalPausedMins) == s
  {
    s.(TotalPausedMins := s.TotalPausedMins + (now - s.PausedAt.value), PausedAt := None, Status := Active)
  }

  /** Pausing and resuming adds exactly the length of the pause to the
      paused total, and changes nothing else. */
  lemma PauseThenResume(s: TableSession, t1: real, t2: real)
    requires s.Status == Active && s.PausedAt == None
    ensures ResumedSession(PausedSession(s, t1), t2) == s.(TotalPausedMins := s.TotalPausedMins + (t2 - t1))
  {
  }

  /** Resuming at or after the pause began never lowers the paused total. */
  lemma ResumeNeverLowersPausedTotal(s: TableSession, now: real)
    requires s.PausedAt.Some? && s.PausedAt.value <= now
    ensures ResumedSession(s, now).TotalPausedMins >= s.TotalPausedMins
  {
  }

  /** A pause never makes the table cost more at close. */
  lemma PauseNeverRaisesCharge(start: real, paused: real, pause: real, now: real, rate: real)
    requires pause >= 0.0 && rate >= 0.0
    ensures TableCharge(PlayedMinutes(start, paused + pause, now), rate) <= TableCharge(PlayedMinutes(start, paused, now), rate)
  {
    TableChargeMonotone(PlayedMinutes(start, paused + pause, now), PlayedMinutes(start, paused, now), rate);
  }

  /** `TransferTable`'s change to the loaded session: the new table's id,
      name, type and rate, and the caller as updater. */
  function ReboundSession(s: TableSession, table: Table, user: string): (r: TableSession)
    ensures r.TableId == table.Id && r.TableName == table.Name
    ensures r.TableType == table.Type && r.RatePerHour == table.RatePerHour && r.UpdatedBy == user
    ensures r.Status == s.Status && r.StartTime == s.StartTime && r.PausedAt == s.PausedAt
    ensures r.TotalPausedMins == s.TotalPausedMins && r.PromotionId == s.PromotionId
    ensures r.PromotionDiscount == s.PromotionDiscount && r.Id == s.Id
  {
    s.(TableId := table.Id, TableName := table.Name, TableType := table.Type,
       RatePerHour := table.RatePerHour, UpdatedBy := user)
  }

  /** `ApplyPromotionToSession`'s change: the promotion's id and name, and the
      discount previewed on the minutes played so far (a pause in progress
      still counts). */
  function PromotedSession(s: TableSession, promoId: Id, promo: Promotion, now: real, user: string): (r: TableSession)
    ensures r.PromotionId == Some(promoId) && r.PromotionName == promo.Name && r.UpdatedBy == user
    ensures r.PromotionDiscount == PreviewDiscount(promo, PlayedMinutes(s.StartTime, s.TotalPausedMins, now), s.RatePerHour)
    ensures r.Status == s.Status && r.PausedAt == s.PausedAt && r.TotalPausedMins == s.TotalPausedMins
    ensures SameSnapshot(s, r) && r.TableId == s.TableId && r.GrandTotal == s.GrandTotal
    ensures promo.Type == DISCOUNT_AMT ==> r.PromotionDiscount == Round2(promo.DiscountAmt)
    ensures promo.Type == FREE_HOURS && PlayedMinutes(s.StartTime, s.TotalPausedMins, now) < promo.PlayHours * MinutesPerHour ==>
              r.PromotionDiscount == 0.0
  {
    var elapsed := PlayedMinutes(s.StartTime, s.TotalPausedMins, now);
    s.(PromotionId := Some(promoId), PromotionName := promo.Name,
       PromotionDiscount := PreviewDiscount(promo, elapsed, s.RatePerHour), UpdatedBy := user)
  }

  /** `CloseTable`'s bill. `req` is the close body when it bound; `promo` is
      the session's promotion when it has one and the lookup finds it;
      `foodTotal` is the sum of its orders. */
  function BilledSession(s: TableSession, req: Option<CloseRequest>, promo: Option<Promotion>,
                         foodTotal: real, now: real, user: string): (b: TableSession)
    ensures b.Status == Closed && b.EndTime == Some(now) && b.UpdatedBy == user
    ensures b.DurationMins == Round2(PlayedMinutes(s.StartTime, s.TotalPausedMins, now)) && b.DurationMins >= 0.0
    ensures b.FoodTotal == foodTotal && b.TableCharge == TableCharge(PlayedMinutes(s.StartTime, s.TotalPausedMins, now), s.RatePerHour)
    ensures b.GrandTotal == GrandTotal(b.TableCharge, foodTotal, b.Discount, b.PromotionDiscount)
    ensures promo.Some? ==> b.PromotionDiscount == CloseDiscount(promo.value, PlayedMinutes(s.StartTime, s.TotalPausedMins, now), s.RatePerHour)
    ensures b.PausedAt == s.PausedAt && b.TotalPausedMins == s.TotalPausedMins && b.TableId == s.TableId
  {
    var s1 := if req.Some? then s.(Discount := req.value.Discount, Note := req.value.Note) else s;
    var mins := PlayedMinutes(s.StartTime, s.TotalPausedMins, now);
    var charge := TableCharge(mins, s.RatePerHour);
    var promoDiscount := if promo.Some? then CloseDiscount(promo.value, mins, s.RatePerHour) else s.PromotionDiscount;
    s1.(EndTime := Some(now), DurationMins := Round2(mins), TableCharge := charge,
        PromotionDiscount := promoDiscount, FoodTotal := foodTotal,
        GrandTotal := GrandTotal(charge, foodTotal, s1.Discount, promoDiscount),
        Status := Closed, UpdatedBy := user)
  }

  /** The bill charges at least one hour at the snapshotted rate, never
      totals below zero, keeps the previous promotion discount when no
      promotion is found, and changes no field the session store keeps. */
  lemma BillProperties(s: TableSession, req: Option<CloseRequest>, promo: Option<Promotion>,
                       foodTotal: real, now: real, user: string)
    requires s.RatePerHour >= 0.0
    ensures var b := BilledSession(s, req, promo, foodTotal, now, user);
            && b.Status == Closed && b.EndTime == Some(now)
            && b.TableCharge >= Round2(s.RatePerHour) >= 0.0
            && b.GrandTotal >= 0.0
            && b.GrandTotal >= b.TableCharge + foodTotal - b.Discount - b.PromotionDiscount
            && (promo.None? ==> b.PromotionDiscount == s.PromotionDiscount)
            && (req.None? ==> b.Discount == s.Discount && b.Note == s.Note)
            && (req.Some? ==> b.Discount == req.value.Discount && b.Note == req.value.Note)
            && SameSnapshot(s, b)
  {
    TableChargeAtLeastOneHour(PlayedMinutes(s.StartTime, s.TotalPausedMins, now), s.RatePerHour);
  }

  /** The payment type of the final payment: the requested one, `CASH` when
      none was given. */
  function PayType(req: Option<CloseRequest>): (t: string)
    ensures req.None? || req.value.PaymentType == "" ==> t == CASH
    ensures req.Some? && req.value.PaymentType != "" ==> t == req.value.PaymentType
  {
    var requested := if req.Some? then req.value.PaymentType else "";
    if requested == "" then CASH else requested
  }

  /** The payment `CloseTable` records for what is left to pay, if anything
      is. */
  function FinalPayment(sessionId: Id, grandTotal: real, paidTotal: real, req: Option<CloseRequest>,
                        now: real, user: string): (p: Option<Payment>)
    ensures p.Some? <==> Remaining(grandTotal, paidTotal) > 0.0
    ensures p.Some? ==> p.value.Amount == Remaining(grandTotal, paidTotal) && p.value.SessionId == sessionId
                        && p.value.Type == PayType(req) && p.value.CreatedDate == now
    ensures p.Some? ==> p.value.Note == (if req.Some? then req.value.PaymentNote else "") && p.value.CreatedBy == user
  {
    var remaining := Remaining(grandTotal, paidTotal);
    if remaining > 0.0 then
      var note := if req.Some? then req.value.PaymentNote else "";
      Some(Payment(NilId, sessionId, PayType(req), remaining, note, user, now))
    else
      None
  }

  /** With the final payment, what was paid covers the bill to within half
      a cent; without it, the bill was already covered. */
  lemma FinalPaymentCoversBill(sessionId: Id, grandTotal: real, paidTotal: real, req: Option<CloseRequest>,
                               now: real, user: string)
    ensures var p := FinalPayment(sessionId, grandTotal, paidTotal, req, now, user);
            var paid := paidTotal + (if p.Some? then p.value.Amount else 0.0);
            grandTotal - 0.005 <= paid && (p.Some? ==> paid <= grandTotal + 0.005)
  {
    FinalPaymentSettles(grandTotal, paidTotal);
  }
}
