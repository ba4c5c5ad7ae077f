/** The credit ledger: an `OUTSTANDING` payment opens a creditor record
    (app/featues/payment/api.go) and `POST /creditors/:creditorId/pay`
    repays it in parts (app/featues/creditor/api.go). */
module CreditorApi {

  import opened Base
  import opened Entities
  import opened ErrCode
  import opened Ledgers

  const PENDING := "PENDING"
  const PAID := "PAID"

  /** A creditor whose books add up: what was paid and what remains make up
      the amount owed, neither is negative, and a `PAID` one owes nothing. */
  predicate Balanced(c: Creditor) {
    0.0 <= c.PaidAmount <= c.Amount && 0.0 <= c.Remaining
    && c.PaidAmount + c.Remaining == c.Amount
    && (c.Status == PAID ==> c.Remaining == 0.0)
  }

  ghost predicate AllBalanced(creditors: map<Id, Creditor>) {
    forall k | k in creditors :: Balanced(creditors[k])
  }

  /** The creditor the payment handler opens for an `OUTSTANDING` payment:
      the customer's name is the payment's note, nothing is paid yet. */
  function NewCreditor(sessionId: Id, req: PaymentRequest, user: string): (c: Creditor)
    ensures c.SessionId == sessionId && c.CustomerName == req.Note && c.Status == PENDING
    ensures c.Amount == req.Amount && c.Remaining == req.Amount && c.PaidAmount == 0.0
    ensures req.Amount >= 0.0 <==> Balanced(c)
  {
    Creditor(NilId, sessionId, req.Note, "", req.Amount, 0.0, req.Amount, PENDING, "", None, user, ZeroTime, "", ZeroTime)
  }

  /** The guards of the repay handler on the amount, in their order. */
  function AmountError(c: Creditor, amount: real): (e: Option<string>)
    ensures e.None? <==> 0.0 < amount <= c.Remaining
  {
    if amount <= 0.0 then Some("amount must be greater than 0")
    else if amount > c.Remaining then Some("amount exceeds remaining balance")
    else None
  }

  /** The creditor after an accepted repayment: the amount is added to what
      was paid, the rest is what remains, and a creditor that owes nothing
      more is `PAID`. */
  function Repaid(c: Creditor, amount: real, user: string): (r: Creditor)
    ensures r.Amount == c.Amount && r.PaidAmount == c.PaidAmount + amount && r.UpdatedBy == user
    ensures r.Remaining >= 0.0 && r.Remaining >= c.Amount - r.PaidAmount
    ensures r.Remaining == 0.0 || r.Remaining == c.Amount - r.PaidAmount
    ensures r.Status == (if r.PaidAmount >= c.Amount then PAID else c.Status)
    ensures r.(PaidAmount := c.PaidAmount, Remaining := c.Remaining, Status := c.Status, UpdatedBy := c.UpdatedBy) == c
  {
    var paid := c.PaidAmount + amount;
    var rest := c.Amount - paid;
    if rest <= 0.0 then c.(PaidAmount := paid, Remaining := 0.0, Status := PAID, UpdatedBy := user)
    else c.(PaidAmount := paid, Remaining := rest, UpdatedBy := user)
  }

  /** An accepted repayment keeps the books balanced, lowers what remains by
      exactly the amount, and marks the creditor `PAID` exactly when nothing
      remains. */
  lemma RepayKeepsBalance(c: Creditor, amount: real, user: string)
    requires Balanced(c) && AmountError(c, amount).None?
    ensures var r := Repaid(c, amount, user);
            Balanced(r) && r.Amount == c.Amount && r.Remaining == c.Remaining - amount
            && r.PaidAmount == c.PaidAmount + amount
            && (r.Remaining == 0.0 ==> r.Status == PAID)
            && (r.Remaining > 0.0 ==> r.Status == c.Status)
  {
  }

  /** A `PAID` creditor turns away every repayment. */
  lemma PaidCreditorRefusesRepayment(c: Creditor, amount: real)
    requires Balanced(c) && c.Status == PAID
    ensures AmountError(c, amount).Some?
  {
  }

  /** A creditor after a run of repay requests, refused ones leaving it as
      it was. */
  function RepayAll(c: Creditor, amounts: seq<real>, user: string): Creditor {
    if |amounts| == 0 then c
    else
      var before := RepayAll(c, amounts[..|amounts| - 1], user);
      var amount := amounts[|amounts| - 1];
      if AmountError(before, amount).None? then Repaid(before, amount, user) else before
  }

  /** What the accepted requests of a run add up to. */
  function AcceptedTotal(c: Creditor, amounts: seq<real>, user: string): real {
    if |amounts| == 0 then 0.0
    else
      var before := RepayAll(c, amounts[..|amounts| - 1], user);
      var amount := amounts[|amounts| - 1];
      AcceptedTotal(c, amounts[..|amounts| - 1], user) + (if AmountError(before, amount).None? then amount else 0.0)
  }

  /** Any run of repay requests keeps a balanced creditor balanced; what it
      paid grows by exactly the accepted amounts, so the accepted total
      never exceeds what was owed. */
  lemma {:induction false} RepayAllKeepsBalance(c: Creditor, amounts: seq<real>, user: string)
    requires Balanced(c)
    ensures var r := RepayAll(c, amounts, user);
            Balanced(r) && r.Amount == c.Amount
            && r.PaidAmount == c.PaidAmount + AcceptedTotal(c, amounts, user)
            && AcceptedTotal(c, amounts, user) <= c.Remaining
  {
    if |amounts| > 0 {
      var prefix := amounts[..|amounts| - 1];
      RepayAllKeepsBalance(c, prefix, user);
      var before := RepayAll(c, prefix, user);
      var amount := amounts[|amounts| - 1];
      if AmountError(before, amount).None? {
        RepayKeepsBalance(before, amount, user);
      }
    }
  }

  /** `POST /:creditorId/pay`. The repayment record is written before the
      creditor; a failed creditor update is ignored, and the handler answers
      with the repaid creditor either way. */
  method Repay(creditors: CreditorRepository, creditorId: IdArg, body: Body<CreditorPaymentRequest>,
               user: string, now: real, insertFault: Option<string>, updateFault: Option<string>)
    returns (res: Result<Creditor>)
    requires creditors.Valid()
    modifies creditors
    ensures creditors.Valid()
    ensures old(AllBalanced(creditors.creditors)) ==> AllBalanced(creditors.creditors)
    ensures creditorId.None? ==> res == BadRequest(CR_BAD_REQUEST_001, "invalid creditorId")
    ensures creditorId.Some? && body.Unbound? ==> res == BadRequest(CR_BAD_REQUEST_001, body.reason)
    ensures creditorId.Some? && body.Bound? && creditorId.value !in old(creditors.creditors) ==>
              res == BadRequest(CR_BAD_REQUEST_002, "creditor not found")
    ensures creditorId.Some? && body.Bound? && creditorId.value in old(creditors.creditors)
            && AmountError(old(creditors.creditors)[creditorId.value], body.value.Amount).Some? ==>
              res == BadRequest(CR_BAD_REQUEST_001, AmountError(old(creditors.creditors)[creditorId.value], body.value.Amount).value)
    ensures res.Err? ==> creditors.creditors == old(creditors.creditors) && creditors.repayments == old(creditors.repayments)
    ensures creditorId.Some? && body.Bound? && creditorId.value in old(creditors.creditors)
            && AmountError(old(creditors.creditors)[creditorId.value], body.value.Amount).None? ==>
              var id := creditorId.value;
              var c := old(creditors.creditors)[id];
              var p := CreditorPayment(old(creditors.nextRepaymentId), id, body.value.Amount, body.value.Type,
                                       body.value.Note, user, now);
              (insertFault.Some? ==> res == BadRequest(CR_BAD_REQUEST_002, insertFault.value))
              && (insertFault.None? ==>
                    res == Ok(Repaid(c, body.value.Amount, user))
                    && creditors.repayments == old(creditors.repayments)[p.Id := p]
                    && (updateFault.None? ==> creditors.creditors == old(creditors.creditors)[id := OverwriteCreditor(c, Repaid(c, body.value.Amount, user), now)])
                    && (updateFault.Some? ==> creditors.creditors == old(creditors.creditors)))
  {
    if creditorId.None? {
      return BadRequest(CR_BAD_REQUEST_001, "invalid creditorId");
    }
    if body.Unbound? {
      return BadRequest(CR_BAD_REQUEST_001, body.reason);
    }
    var id := creditorId.value;
    var req := body.value;
    var record := creditors.GetCreditorById(id);
    if record.None? {
      return BadRequest(CR_BAD_REQUEST_002, "creditor not found");
    }
    var c := record.value;
    if req.Amount <= 0.0 {
      return BadRequest(CR_BAD_REQUEST_001, "amount must be greater than 0");
    }
    if req.Amount > c.Remaining {
      return BadRequest(CR_BAD_REQUEST_001, "amount exceeds remaining balance");
    }
    var payment := CreditorPayment(NilId, id, req.Amount, req.Type, req.Note, user, ZeroTime);
    var _, err := creditors.CreateCreditorPayment(payment, now, insertFault);
    if err.Some? {
      return BadRequest(CR_BAD_REQUEST_002, err.value);
    }
    var repaid := Repaid(c, req.Amount, user);
    if AllBalanced(creditors.creditors) {
      RepayKeepsBalance(c, req.Amount, user);
      assert Balanced(OverwriteCreditor(c, repaid, now));
    }
    var _ := creditors.UpdateCreditor(id, repaid, now, updateFault);
    res := Ok(repaid);
  }
}
