/** `CloseTable` of app/featues/table_session/usecase/open_table.go: bill the
    session, record a final payment for whatever is still owed, close the
    session and free its table. */
module SessionClose {

  import opened Base
  import opened Entities
  import opened ErrCode
  import opened Listing
  import opened Billing
  import opened TableRepo
  import opened SessionRepo
  import opened PromotionRepo
  import opened Ledgers
  import opened SessionSteps
  import opened Occupancy
  import opened SessionUsecase

  function OrderTotal(o: TableOrder): real { o.Total }

  function PaymentAmount(p: Payment): real { p.Amount }

  /** The running sum of the handler's `for ... range` loops: `f` added up
      over `s` from the first element to the last. */
  method AddUp<T>(s: seq<T>, f: T -> real) returns (total: real)
    ensures total == SumSeq(s, f)
  {
    total := 0.0;
    var i := 0;
    while i < |s|
      invariant 0 <= i <= |s|
      invariant total == SumSeq(s[..i], f)
    {
      assert s[..i + 1][..i] == s[..i];
      total := total + f(s[i]);
      i := i + 1;
    }
    assert s[..i] == s;
  }

  /** The promotion the close recomputes the discount from: the session's
      own, when it has one and it is still stored. */
  function ClosePromotion(s: TableSession, promotions: map<Id, Promotion>): (r: Option<Promotion>)
    ensures r.Some? <==> s.PromotionId.Some? && s.PromotionId.value in promotions
    ensures r.Some? ==> r.value == promotions[s.PromotionId.value]
  {
    if s.PromotionId.Some? && s.PromotionId.value in promotions then Some(promotions[s.PromotionId.value]) else None
  }

  /** The bill and what was already paid: the promotion lookup, the sum of
      the session's orders and the sum of its payments, read from the
      stores. */
  method ComputeBill(orders: OrderRepository, payments: PaymentRepository, promotions: PromotionRepository,
                     id: Id, s: TableSession, req: Option<CloseRequest>, now: real, user: string)
    returns (bill: TableSession, paidTotal: real)
    requires orders.Valid() && payments.Valid()
    ensures bill == BilledSession(s, req, ClosePromotion(s, promotions.promotions),
                                  SumMap(orders.orders, OrderOfSession(id), OrderTotal), now, user)
    ensures paidTotal == SumMap(payments.payments, PaymentOfSession(id), PaymentAmount)
  {
    var promo := None;
    if s.PromotionId.Some? {
      promo := promotions.GetPromotionById(s.PromotionId.value);
    }
    var orderList := orders.GetOrdersBySessionId(id);
    var foodTotal := AddUp(orderList, OrderTotal);
    ListingSum(orderList, orders.orders, OrderOfSession(id), OrderTotal);
    bill := BilledSession(s, req, promo, foodTotal, now, user);

    var paymentList := payments.GetPaymentsBySessionId(id);
    paidTotal := AddUp(paymentList, PaymentAmount);
    ListingSum(paymentList, payments.payments, PaymentOfSession(id), PaymentAmount);
  }

  /** Inserts the final payment, if there is one. */
  method RecordFinalPayment(payments: PaymentRepository, finalPayment: Option<Payment>, now: real, fault: Option<string>)
    returns (err: Option<string>)
    requires payments.Valid()
    modifies payments
    ensures payments.Valid()
    ensures finalPayment.None? ==> err.None? && payments.payments == old(payments.payments)
    ensures finalPayment.Some? ==> err == fault
    ensures finalPayment.Some? && fault.Some? ==> payments.payments == old(payments.payments)
    ensures finalPayment.Some? && fault.None? ==>
              payments.payments == old(payments.payments)[old(payments.nextId) := finalPayment.value.(Id := old(payments.nextId), CreatedDate := now)]
  {
    err := None;
    if finalPayment.Some? {
      var _, payErr := payments.CreatePayment(finalPayment.value, now, fault);
      err := payErr;
    }
  }

  /** The last steps of `CloseTable`: write the closed session and free its
      table; a failed write changes nothing. */
  method StoreClosed(tables: TableRepository, sessions: TableSessionRepository, id: Id, s: TableSession,
                     bill: TableSession, now: real, fault: Option<string>) returns (res: Result<TableSession>)
    requires tables.Valid() && sessions.Valid() && now >= sessions.clock
    requires id in sessions.sessions && sessions.sessions[id] == s && s.IsOpen()
    requires bill.Status == Closed && bill.TableId == s.TableId && SameSnapshot(s, bill)
    modifies tables, sessions
    ensures tables.Valid() && sessions.Valid()
    ensures old(Occupied(tables.tables, sessions.sessions)) ==> Occupied(tables.tables, sessions.sessions)
    ensures old(PauseBookkeeping(sessions.sessions, sessions.clock)) ==> PauseBookkeeping(sessions.sessions, sessions.clock)
    ensures fault.Some? ==> res == BadRequest(TS_BAD_REQUEST_002, fault.value)
                            && tables.tables == old(tables.tables) && sessions.sessions == old(sessions.sessions)
    ensures fault.None? ==> res == Ok(bill)
                            && sessions.sessions == old(sessions.sessions)[id := bill.(UpdatedDate := now)]
                            && tables.tables == SetStatus(old(tables.tables), s.TableId, Available)
  {
    OverwriteStoresExactlyWhenSnapshotKept(s, bill, now);
    if Occupied(tables.tables, sessions.sessions) {
      CloseKeepsOccupancy(tables.tables, sessions.sessions, id, bill.(UpdatedDate := now));
    }
    var err := sessions.UpdateTableSession(id, bill, now, fault);
    if err.Some? {
      if PauseBookkeeping(old(sessions.sessions), old(sessions.clock)) {
        BookkeepingKeptAsClockAdvances(old(sessions.sessions), old(sessions.clock), now);
      }
      return BadRequest(TS_BAD_REQUEST_002, err.value);
    }
    var _ := tables.UpdateTableStatus(s.TableId, AVAILABLE, None);
    res := Ok(bill);
  }

  /** `CloseTable` past its guards, on the open session `s` stored under
      `id`: bill it, record the final payment, then store the closed session
      and free its table. */
  method CloseOpenSession(tables: TableRepository, sessions: TableSessionRepository, orders: OrderRepository,
                          payments: PaymentRepository, promotions: PromotionRepository, id: Id, s: TableSession,
                          req: Option<CloseRequest>, user: string, now: real,
                          payFault: Option<string>, updateFault: Option<string>)
    returns (res: Result<TableSession>)
    requires tables.Valid() && sessions.Valid() && orders.Valid() && payments.Valid() && now >= sessions.clock
    requires id in sessions.sessions && sessions.sessions[id] == s && s.IsOpen()
    modifies tables, sessions, payments
    ensures tables.Valid() && sessions.Valid() && payments.Valid()
    ensures old(Occupied(tables.tables, sessions.sessions)) ==> Occupied(tables.tables, sessions.sessions)
    ensures old(PauseBookkeeping(sessions.sessions, sessions.clock)) ==> PauseBookkeeping(sessions.sessions, sessions.clock)
    ensures res.Err? ==> tables.tables == old(tables.tables) && sessions.sessions == old(sessions.sessions)
    ensures var food := SumMap(orders.orders, OrderOfSession(id), OrderTotal);
            var paid := SumMap(old(payments.payments), PaymentOfSession(id), PaymentAmount);
            var bill := BilledSession(s, req, ClosePromotion(s, promotions.promotions), food, now, user);
            var fp := FinalPayment(id, bill.GrandTotal, paid, req, now, user);
            (fp.None? ==> payments.payments == old(payments.payments))
            && (fp.Some? && payFault.Some? ==>
                  payments.payments == old(payments.payments)
                  && res == BadRequest(TS_BAD_REQUEST_002, "failed to create payment: " + payFault.value))
            && (fp.Some? && payFault.None? ==>
                  payments.payments == old(payments.payments)[old(payments.nextId) := fp.value.(Id := old(payments.nextId))])
            && (fp.None? || payFault.None? ==>
                  (updateFault.Some? ==> res == BadRequest(TS_BAD_REQUEST_002, updateFault.value))
                  && (updateFault.None? ==> res == Ok(bill)
                                            && sessions.sessions == old(sessions.sessions)[id := bill.(UpdatedDate := now)]
                                            && tables.tables == SetStatus(old(tables.tables), s.TableId, Available)))
  {
    var bill, paidTotal := ComputeBill(orders, payments, promotions, id, s, req, now, user);
    var finalPayment := FinalPayment(id, bill.GrandTotal, paidTotal, req, now, user);
    var payErr := RecordFinalPayment(payments, finalPayment, now, payFault);
    if payErr.Some? {
      return BadRequest(TS_BAD_REQUEST_002, "failed to create payment: " + payErr.value);
    }
    res := StoreClosed(tables, sessions, id, s, bill, now, updateFault);
  }

  /** `CloseTable`. `req` is the close body when it binds. A failed payment
      insert stops the close; a failed session update stops it after the
      payment was recorded. */
  method CloseTable(tables: TableRepository, sessions: TableSessionRepository, orders: OrderRepository,
                    payments: PaymentRepository, promotions: PromotionRepository, sessionId: IdArg,
                    req: Option<CloseRequest>, user: string, now: real,
                    payFault: Option<string>, updateFault: Option<string>)
    returns (res: Result<TableSession>)
    requires tables.Valid() && sessions.Valid() && orders.Valid() && payments.Valid() && now >= sessions.clock
    modifies tables, sessions, payments
    ensures tables.Valid() && sessions.Valid() && payments.Valid()
    ensures old(Occupied(tables.tables, sessions.sessions)) ==> Occupied(tables.tables, sessions.sessions)
    ensures old(PauseBookkeeping(sessions.sessions, sessions.clock)) ==> PauseBookkeeping(sessions.sessions, sessions.clock)
    ensures sessionId.None? ==> res == BadRequest(TS_BAD_REQUEST_001, "invalid sessionId")
    ensures sessionId.Some? && Loaded(old(sessions.sessions), sessionId).None? ==>
              res == BadRequest(TS_BAD_REQUEST_002, "session not found")
    ensures Loaded(old(sessions.sessions), sessionId).Some? && Loaded(old(sessions.sessions), sessionId).value.Status == Closed ==>
              res == BadRequest(TS_BAD_REQUEST_002, "session already closed")
    ensures res.Err? ==> tables.tables == old(tables.tables) && sessions.sessions == old(sessions.sessions)
    ensures Loaded(old(sessions.sessions), sessionId).None? || Loaded(old(sessions.sessions), sessionId).value.Status == Closed ==>
              payments.payments == old(payments.payments)
    ensures Loaded(old(sessions.sessions), sessionId).Some? && Loaded(old(sessions.sessions), sessionId).value.IsOpen() ==>
              var id := sessionId.value;
              var s := Loaded(old(sessions.sessions), sessionId).value;
              var food := SumMap(orders.orders, OrderOfSession(id), OrderTotal);
              var paid := SumMap(old(payments.payments), PaymentOfSession(id), PaymentAmount);
              var bill := BilledSession(s, req, ClosePromotion(s, promotions.promotions), food, now, user);
              var fp := FinalPayment(id, bill.GrandTotal, paid, req, now, user);
              (fp.None? ==> payments.payments == old(payments.payments))
              && (fp.Some? && payFault.Some? ==>
                    payments.payments == old(payments.payments)
                    && res == BadRequest(TS_BAD_REQUEST_002, "failed to create payment: " + payFault.value))
              && (fp.Some? && payFault.None? ==>
                    payments.payments == old(payments.payments)[old(payments.nextId) := fp.value.(Id := old(payments.nextId))])
              && (fp.None? || payFault.None? ==>
                    (updateFault.Some? ==> res == BadRequest(TS_BAD_REQUEST_002, updateFault.value))
                    && (updateFault.None? ==> res == Ok(bill)
                                              && sessions.sessions == old(sessions.sessions)[id := bill.(UpdatedDate := now)]
                                              && tables.tables == SetStatus(old(tables.tables), s.TableId, Available)))
  {
    if sessionId.None? {
      return BadRequest(TS_BAD_REQUEST_001, "invalid sessionId");
    }
    var id := sessionId.value;
    var session := sessions.GetTableSessionById(id);
    if session.None? {
      return BadRequest(TS_BAD_REQUEST_002, "session not found");
    }
    if session.value.Status == Closed {
      return BadRequest(TS_BAD_REQUEST_002, "session already closed");
    }
    res := CloseOpenSession(tables, sessions, orders, payments, promotions, id, session.value, req, user, now, payFault, updateFault);
  }
}
