/** The stored records (app/data/entities) and the request bodies
    (app/domain/request) the core reads. Times are real numbers of minutes
    since the Unix epoch; money is real. */
module Entities {

  import opened Base

  /** A table's status. The session handlers only ever write `AVAILABLE` and
      `IN_USE`; the admin status endpoint stores any string, kept verbatim in
      `OtherStatus`. */
  datatype TableStatus = Available | InUse | OtherStatus(name: string)

  const AVAILABLE := "AVAILABLE"
  const IN_USE := "IN_USE"

  /** The status a stored status string denotes. */
  function TableStatusOf(s: string): (st: TableStatus)
    ensures st == Available <==> s == AVAILABLE
    ensures st == InUse <==> s == IN_USE
    ensures st.OtherStatus? ==> st.name == s
  {
    if s == AVAILABLE then Available
    else if s == IN_USE then InUse
    else OtherStatus(s)
  }

  /** The string stored for a status. */
  function TableStatusName(st: TableStatus): string {
    match st
    case Available => AVAILABLE
    case InUse => IN_USE
    case OtherStatus(n) => n
  }

  /** Reading back a stored status string gives the same string. */
  lemma TableStatusRoundTrip(s: string)
    ensures TableStatusName(TableStatusOf(s)) == s
  {
  }

  datatype Table = Table(
    Id: Id,
    Name: string,
    Type: string,
    Status: TableStatus,
    RatePerHour: real,
    Description: string,
    CreatedBy: string,
    CreatedDate: real,
    UpdatedBy: string,
    UpdatedDate: real)

  /** A session's status. Only the session handlers write it, and only with
      these three values. */
  datatype SessionStatus = Active | Paused | Closed

  datatype TableSession = TableSession(
    Id: Id,
    TableId: Id,
    TableName: string,
    TableType: string,
    RatePerHour: real,
    Status: SessionStatus,
    StartTime: real,
    EndTime: Option<real>,
    PausedAt: Option<real>,
    TotalPausedMins: real,
    DurationMins: real,
    TableCharge: real,
    FoodTotal: real,
    Discount: real,
    PromotionId: Option<Id>,
    PromotionName: string,
    PromotionDiscount: real,
    GrandTotal: real,
    Note: string,
    CreatedBy: string,
    CreatedDate: real,
    UpdatedBy: string,
    UpdatedDate: real)
  {
    /** Not yet closed: `ACTIVE` or `PAUSED`. */
    predicate IsOpen() { Status != Closed }
  }

  /** `SessionSummary`: count and sums over the closed sessions of a range. */
  datatype SessionSummary = SessionSummary(
    TotalSessions: int,
    TotalRevenue: real,
    TotalTable: real,
    TotalFood: real)

  datatype MenuItem = MenuItem(
    Id: Id,
    Name: string,
    Category: string,
    Price: real,
    CostPrice: real,
    Quantity: int,
    Unit: string,
    Status: string,
    ImageUrl: string,
    CreatedBy: string,
    CreatedDate: real,
    UpdatedBy: string,
    UpdatedDate: real)

  /** `LowStockMenuItem`: the projection the low-stock query returns. */
  datatype LowStockMenuItem = LowStockMenuItem(
    Id: Id,
    Name: string,
    Category: string,
    Quantity: int,
    Unit: string)

  datatype TableOrder = TableOrder(
    Id: Id,
    SessionId: Id,
    MenuItemId: Id,
    Name: string,
    Price: real,
    CostPrice: real,
    Quantity: int,
    Discount: real,
    Total: real,
    CreatedBy: string,
    CreatedDate: real)

  datatype Payment = Payment(
    Id: Id,
    SessionId: Id,
    Type: string,
    Amount: real,
    Note: string,
    CreatedBy: string,
    CreatedDate: real)

  datatype Creditor = Creditor(
    Id: Id,
    SessionId: Id,
    CustomerName: string,
    CustomerPhone: string,
    Amount: real,
    PaidAmount: real,
    Remaining: real,
    Status: string,
    Note: string,
    DueDate: Option<real>,
    CreatedBy: string,
    CreatedDate: real,
    UpdatedBy: string,
    UpdatedDate: real)

  datatype CreditorPayment = CreditorPayment(
    Id: Id,
    CreditorId: Id,
    Amount: real,
    Type: string,
    Note: string,
    CreatedBy: string,
    CreatedDate: real)

  /** `TableTypes` is `None` when the stored field is absent or null. */
  datatype Promotion = Promotion(
    Id: Id,
    Name: string,
    Description: string,
    Type: string,
    PlayHours: real,
    FreeHours: real,
    DiscountPct: real,
    DiscountAmt: real,
    TableTypes: Option<seq<string>>,
    StartDate: real,
    EndDate: real,
    Status: string,
    CreatedBy: string,
    CreatedDate: real,
    UpdatedBy: string,
    UpdatedDate: real)

  datatype Expense = Expense(
    Id: Id,
    Category: string,
    Description: string,
    Amount: real,
    Date: real)

  /** The outcome of binding a JSON body: the bound value, or the binder's
      error text. */
  datatype Body<T> = Unbound(reason: string) | Bound(value: T)

  /** An id given as a hex string: `None` when it does not parse. */
  type IdArg = Option<Id>

  /** `request.Table`. */
  datatype TableRequest = TableRequest(Name: string, Type: string, RatePerHour: real, Description: string)

  /** The close body as the handler reads it: `Discount` and `Note` from
      `request.CloseTable`, plus the payment type and note the handler also
      reads. */
  datatype CloseRequest = CloseRequest(Discount: real, Note: string, PaymentType: string, PaymentNote: string)

  /** `request.TableOrder`. */
  datatype OrderRequest = OrderRequest(SessionId: IdArg, MenuItemId: IdArg, Quantity: int, Discount: real)

  /** `request.Payment`. */
  datatype PaymentRequest = PaymentRequest(SessionId: IdArg, Type: string, Amount: real, Note: string)

  /** `request.CreditorPayment`. */
  datatype CreditorPaymentRequest = CreditorPaymentRequest(Amount: real, Type: string, Note: string)
}
