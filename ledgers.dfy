/** The insert-and-list collections the handlers write: `table_orders`,
    `payments`, `creditors` and `creditor_payments`
    (app/data/repositories/table_order.go, payment.go, creditor.go). */
module Ledgers {

  import opened Base
  import opened Entities
  import opened Listing

  /** The `sessionId` filter of the per-session queries. */
  function OrderOfSession(sessionId: Id): TableOrder -> bool {
    (o: TableOrder) => o.SessionId == sessionId
  }

  function PaymentOfSession(sessionId: Id): Payment -> bool {
    (p: Payment) => p.SessionId == sessionId
  }

  /** The `createdDate: -1` sorts. */
  function OrdersNewestFirst(): (TableOrder, TableOrder) -> bool {
    ByReal((o: TableOrder) => o.CreatedDate, false)
  }

  function PaymentsNewestFirst(): (Payment, Payment) -> bool {
    ByReal((p: Payment) => p.CreatedDate, false)
  }

  /** `UpdateCreditor`'s `$set`: what a repayment changes (paid amount,
      remaining balance, status, note, update stamp); the debt itself, the
      customer and the creation stamp are kept. */
  function OverwriteCreditor(stored: Creditor, c: Creditor, now: real): (r: Creditor)
    ensures r.Id == stored.Id && r.SessionId == stored.SessionId && r.Amount == stored.Amount
    ensures r.CustomerName == stored.CustomerName && r.CustomerPhone == stored.CustomerPhone
    ensures r.DueDate == stored.DueDate && r.CreatedBy == stored.CreatedBy && r.CreatedDate == stored.CreatedDate
    ensures r.PaidAmount == c.PaidAmount && r.Remaining == c.Remaining && r.Status == c.Status
    ensures r.Note == c.Note && r.UpdatedBy == c.UpdatedBy && r.UpdatedDate == now
  {
    stored.(PaidAmount := c.PaidAmount, Remaining := c.Remaining, Status := c.Status,
            Note := c.Note, UpdatedBy := c.UpdatedBy, UpdatedDate := now)
  }

  class OrderRepository {
    var orders: map<Id, TableOrder>
    /** The id the next insert receives. */
    var nextId: Id

    ghost predicate Valid()
      reads this
    {
      nextId >= 1 && forall k | k in orders :: orders[k].Id == k && 1 <= k < nextId
    }

    constructor()
      ensures Valid() && orders == map[]
    {
      orders := map[];
      nextId := 1;
    }

    /** `GetTableOrderById`: the stored order, or not found. */
    function GetTableOrderById(id: Id): (r: Option<TableOrder>)
      reads this
      ensures r.Some? <==> id in orders
      ensures r.Some? ==> r.value == orders[id]
    {
      if id in orders then Some(orders[id]) else None
    }

    /** `GetOrdersBySessionId`: the session's orders, newest first. */
    method GetOrdersBySessionId(sessionId: Id) returns (r: seq<TableOrder>)
      requires Valid()
      ensures SortedBy(r, OrdersNewestFirst())
      ensures ListsExactly(r, orders, OrderOfSession(sessionId))
    {
      ByRealIsTotalPreorder((o: TableOrder) => o.CreatedDate, false);
      r := SelectSorted(orders, OrderOfSession(sessionId), OrdersNewestFirst());
    }

    /** `CreateTableOrder`: a fresh id and the creation date set to now. A
        failed insert stores nothing. */
    method CreateTableOrder(o: TableOrder, now: real, fault: Option<string>) returns (created: TableOrder, err: Option<string>)
      requires Valid()
      modifies this
      ensures Valid() && err == fault
      ensures created == o.(Id := old(nextId), CreatedDate := now)
      ensures created.Id !in old(orders)
      ensures fault.None? ==> orders == old(orders)[created.Id := created]
      ensures fault.Some? ==> orders == old(orders)
    {
      created := o.(Id := nextId, CreatedDate := now);
      err := fault;
      if fault.None? {
        orders := orders[created.Id := created];
      }
      nextId := nextId + 1;
    }

    /** `DeleteTableOrder`: removes the order with that id only. */
    method DeleteTableOrder(id: Id, fault: Option<string>) returns (err: Option<string>)
      requires Valid()
      modifies this
      ensures Valid() && nextId == old(nextId) && err == fault
      ensures fault.None? ==> orders == old(orders) - {id}
      ensures fault.Some? ==> orders == old(orders)
    {
      err := fault;
      if fault.None? {
        orders := orders - {id};
      }
    }
  }

  class PaymentRepository {
    var payments: map<Id, Payment>
    /** The id the next insert receives. */
    var nextId: Id

    ghost predicate Valid()
      reads this
    {
      nextId >= 1 && forall k | k in payments :: payments[k].Id == k && 1 <= k < nextId
    }

    constructor()
      ensures Valid() && payments == map[]
    {
      payments := map[];
      nextId := 1;
    }

    /** `GetPaymentsBySessionId`: the session's payments, newest first. */
    method GetPaymentsBySessionId(sessionId: Id) returns (r: seq<Payment>)
      requires Valid()
      ensures SortedBy(r, PaymentsNewestFirst())
      ensures ListsExactly(r, payments, PaymentOfSession(sessionId))
    {
      ByRealIsTotalPreorder((p: Payment) => p.CreatedDate, false);
      r := SelectSorted(payments, PaymentOfSession(sessionId), PaymentsNewestFirst());
    }

    /** `CreatePayment`: a fresh id, and the creation date set to now
        whatever the caller gave. A failed insert stores nothing. */
    method CreatePayment(p: Payment, now: real, fault: Option<string>) returns (created: Payment, err: Option<string>)
      requires Valid()
      modifies this
      ensures Valid() && err == fault
      ensures created == p.(Id := old(nextId), CreatedDate := now)
      ensures created.Id !in old(payments)
      ensures fault.None? ==> payments == old(payments)[created.Id := created]
      ensures fault.Some? ==> payments == old(payments)
    {
      created := p.(Id := nextId, CreatedDate := now);
      err := fault;
      if fault.None? {
        payments := payments[created.Id := created];
      }
      nextId := nextId + 1;
    }

    /** `DeletePayment`: removes the payment with that id only. */
    method DeletePayment(id: Id, fault: Option<string>) returns (err: Option<string>)
      requires Valid()
      modifies this
      ensures Valid() && nextId == old(nextId) && err == fault
      ensures fault.None? ==> payments == old(payments) - {id}
      ensures fault.Some? ==> payments == old(payments)
    {
      err := fault;
      if fault.None? {
        payments := payments - {id};
      }
    }
  }

  /** The `creditors` collection and its `creditor_payments` companion. */
  class CreditorRepository {
    var creditors: map<Id, Creditor>
    var repayments: map<Id, CreditorPayment>
    /** The ids the next inserts receive. */
    var nextId: Id
    var nextRepaymentId: Id

    ghost predicate Valid()
      reads this
    {
      nextId >= 1 && nextRepaymentId >= 1
      && (forall k | k in creditors :: creditors[k].Id == k && 1 <= k < nextId)
      && (forall k | k in repayments :: repayments[k].Id == k && 1 <= k < nextRepaymentId)
    }

    constructor()
      ensures Valid() && creditors == map[] && repayments == map[]
    {
      creditors := map[];
      repayments := map[];
      nextId := 1;
      nextRepaymentId := 1;
    }

    /** `GetCreditorById`: the stored creditor, or not found. */
    function GetCreditorById(id: Id): (r: Option<Creditor>)
      reads this
      ensures r.Some? <==> id in creditors
      ensures r.Some? ==> r.value == creditors[id]
    {
      if id in creditors then Some(creditors[id]) else None
    }

    /** `CreateCreditor`: a fresh id, both dates set to now. A failed insert
        stores nothing. */
    method CreateCreditor(c: Creditor, now: real, fault: Option<string>) returns (created: Creditor, err: Option<string>)
      requires Valid()
      modifies this
      ensures Valid() && err == fault && repayments == old(repayments) && nextRepaymentId == old(nextRepaymentId)
      ensures created == c.(Id := old(nextId), CreatedDate := now, UpdatedDate := now)
      ensures created.Id !in old(creditors)
      ensures fault.None? ==> creditors == old(creditors)[created.Id := created]
      ensures fault.Some? ==> creditors == old(creditors)
    {
      created := c.(Id := nextId, CreatedDate := now, UpdatedDate := now);
      err := fault;
      if fault.None? {
        creditors := creditors[created.Id := created];
      }
      nextId := nextId + 1;
    }

    /** `UpdateCreditor`: the `$set` of `OverwriteCreditor` on the creditor
        with that id; an id that matches nothing changes nothing. */
    method UpdateCreditor(id: Id, c: Creditor, now: real, fault: Option<string>) returns (err: Option<string>)
      requires Valid()
      modifies this
      ensures Valid() && err == fault && nextId == old(nextId)
      ensures repayments == old(repayments) && nextRepaymentId == old(nextRepaymentId)
      ensures fault.None? && id in old(creditors) ==> creditors == old(creditors)[id := OverwriteCreditor(old(creditors)[id], c, now)]
      ensures fault.Some? || id !in old(creditors) ==> creditors == old(creditors)
    {
      err := fault;
      if fault.None? && id in creditors {
        creditors := creditors[id := OverwriteCreditor(creditors[id], c, now)];
      }
    }

    /** `CreateCreditorPayment`: a fresh id and the creation date set to
        now. A failed insert stores nothing. */
    method CreateCreditorPayment(p: CreditorPayment, now: real, fault: Option<string>)
      returns (created: CreditorPayment, err: Option<string>)
      requires Valid()
      modifies this
      ensures Valid() && err == fault && creditors == old(creditors) && nextId == old(nextId)
      ensures created == p.(Id := old(nextRepaymentId), CreatedDate := now)
      ensures created.Id !in old(repayments)
      ensures fault.None? ==> repayments == old(repayments)[created.Id := created]
      ensures fault.Some? ==> repayments == old(repayments)
    {
      created := p.(Id := nextRepaymentId, CreatedDate := now);
      err := fault;
      if fault.None? {
        repayments := repayments[created.Id := created];
      }
      nextRepaymentId := nextRepaymentId + 1;
    }
  }
}
