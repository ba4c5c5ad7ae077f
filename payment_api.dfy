/** The payment handlers of app/featues/payment/api.go. */
module PaymentApi {

  import opened Base
  import opened Entities
  import opened ErrCode
  import opened Ledgers
  import opened CreditorApi

  const OUTSTANDING := "OUTSTANDING"
  const SUCCESS := "success"

  /** The payment the POST handler records: the request's session (the zero
      id when it does not parse), type, amount and note. */
  function PaymentOf(req: PaymentRequest, user: string): (p: Payment)
    ensures p.SessionId == req.SessionId.GetOr(NilId) && p.Type == req.Type
    ensures p.Amount == req.Amount && p.Note == req.Note && p.CreatedBy == user
  {
    Payment(NilId, req.SessionId.GetOr(NilId), req.Type, req.Amount, req.Note, user, ZeroTime)
  }

  /** Whether the POST handler opens a creditor: an `OUTSTANDING` payment
      for a session the lookup finds. */
  predicate OpensCreditor(req: PaymentRequest, sessions: map<Id, TableSession>) {
    req.Type == OUTSTANDING && req.SessionId.GetOr(NilId) in sessions
  }

  /** POST: record a payment, opening a creditor first for an `OUTSTANDING`
      one. A failed creditor insert is ignored; a failed payment insert
      leaves the creditor in place. The books of every creditor stay
      balanced unless an outstanding amount is negative. The binder's
      `required` tag refuses a zero amount, so a bound body holds a non-zero
      one. `sessions` is the session store's map, where no session has the
      zero id. */
  method PostPayment(payments: PaymentRepository, sessions: map<Id, TableSession>, creditors: CreditorRepository,
                     body: Body<PaymentRequest>, user: string, now: real,
                     creditorFault: Option<string>, paymentFault: Option<string>)
    returns (res: Result<Payment>)
    requires payments.Valid() && creditors.Valid()
    requires body.Bound? ==> body.value.Amount != 0.0
    requires NilId !in sessions
    modifies payments, creditors
    ensures payments.Valid() && creditors.Valid()
    ensures creditors.repayments == old(creditors.repayments)
    ensures body.Unbound? ==> res == BadRequest(PY_BAD_REQUEST_001, body.reason)
                              && payments.payments == old(payments.payments) && creditors.creditors == old(creditors.creditors)
    ensures body.Bound? ==>
              var req := body.value;
              var c := NewCreditor(req.SessionId.GetOr(NilId), req, user).(Id := old(creditors.nextId), CreatedDate := now, UpdatedDate := now);
              var p := PaymentOf(req, user).(Id := old(payments.nextId), CreatedDate := now);
              (OpensCreditor(req, sessions) && creditorFault.None? ==>
                 c.Id !in old(creditors.creditors) && creditors.creditors == old(creditors.creditors)[c.Id := c])
              && (!OpensCreditor(req, sessions) || creditorFault.Some? ==> creditors.creditors == old(creditors.creditors))
              && (paymentFault.Some? ==> res == BadRequest(PY_BAD_REQUEST_002, paymentFault.value)
                                         && payments.payments == old(payments.payments))
              && (paymentFault.None? ==> res == Ok(p) && payments.payments == old(payments.payments)[p.Id := p])
    ensures AllBalanced(old(creditors.creditors)) && (body.Bound? ==> body.value.Amount >= 0.0) ==>
              AllBalanced(creditors.creditors)
  {
    if body.Unbound? {
      return BadRequest(PY_BAD_REQUEST_001, body.reason);
    }
    var req := body.value;
    var sessionId := req.SessionId.GetOr(NilId);
    var payment := PaymentOf(req, user);
    if req.Type == OUTSTANDING {
      if sessionId in sessions {
        var _, _ := creditors.CreateCreditor(NewCreditor(sessionId, req, user), now, creditorFault);
      }
    }
    var created, err := payments.CreatePayment(payment, now, paymentFault);
    if err.Some? {
      return BadRequest(PY_BAD_REQUEST_002, err.value);
    }
    res := Ok(created);
  }

  /** DELETE: remove that payment only; no session total or creditor is
      touched, and an id that matches nothing is still a success. */
  method DeletePayment(payments: PaymentRepository, paymentId: IdArg, fault: Option<string>) returns (res: Result<string>)
    requires payments.Valid()
    modifies payments
    ensures payments.Valid()
    ensures paymentId.None? ==> res == BadRequest(PY_BAD_REQUEST_001, "invalid paymentId")
    ensures paymentId.Some? && fault.Some? ==> res == BadRequest(PY_BAD_REQUEST_002, fault.value)
    ensures res.Err? ==> payments.payments == old(payments.payments)
    ensures paymentId.Some? && fault.None? ==> res == Ok(SUCCESS) && payments.payments == old(payments.payments) - {paymentId.value}
  {
    if paymentId.None? {
      return BadRequest(PY_BAD_REQUEST_001, "invalid paymentId");
    }
    var err := payments.DeletePayment(paymentId.value, fault);
    if err.Some? {
      return BadRequest(PY_BAD_REQUEST_002, err.value);
    }
    res := Ok(SUCCESS);
  }
}
