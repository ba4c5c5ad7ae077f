/** The revenue reports of app/featues/report/api.go: totals over the
    sessions started in a date range, and one table's sessions in a range. */
module ReportApi {

  import opened Base
  import opened Entities
  import opened ErrCode
  import opened Listing
  import opened SessionRepo

  const MinutesPerDay := 1440.0
  /** One nanosecond, in minutes. */
  const Nanosecond := 1.0 / 60000000000.0

  /** A `YYYY-MM-DD` query parameter: its text, and the midnight it denotes
      when the text parses. */
  datatype DateQuery = DateQuery(text: string, parsed: Option<real>)

  /** `time.Parse` with the error dropped: an unparsable date is Go's zero
      time. */
  function ParsedOrZero(d: DateQuery): real {
    d.parsed.GetOr(ZeroTime)
  }

  /** The last nanosecond of the day that starts at `day`. */
  function EndOfDay(day: real): (e: real)
    ensures day < e < day + MinutesPerDay
  {
    day + MinutesPerDay - Nanosecond
  }

  datatype RevenueReport = RevenueReport(
    StartDate: string,
    EndDate: string,
    TotalSessions: nat,
    TotalIncome: real,
    TotalTableCharge: real,
    TotalFoodIncome: real,
    TotalExpense: real,
    NetProfit: real,
    Sessions: seq<TableSession>,
    Expenses: seq<Expense>)

  function IsClosed(s: TableSession): bool { s.Status == Closed }

  function ExpenseAmount(e: Expense): real { e.Amount }

  /** The `/revenue` loop over the sessions: the closed ones' grand totals,
      table charges and food totals. */
  method SumClosed(sessions: seq<TableSession>) returns (income: real, tableCharge: real, food: real)
    ensures income == SumSeq(sessions, Masked(IsClosed, GrandTotalOf))
    ensures tableCharge == SumSeq(sessions, Masked(IsClosed, TableChargeOf))
    ensures food == SumSeq(sessions, Masked(IsClosed, FoodTotalOf))
  {
    income, tableCharge, food := 0.0, 0.0, 0.0;
    var i := 0;
    while i < |sessions|
      invariant 0 <= i <= |sessions|
      invariant income == SumSeq(sessions[..i], Masked(IsClosed, GrandTotalOf))
      invariant tableCharge == SumSeq(sessions[..i], Masked(IsClosed, TableChargeOf))
      invariant food == SumSeq(sessions[..i], Masked(IsClosed, FoodTotalOf))
    {
      assert sessions[..i + 1][..i] == sessions[..i];
      var s := sessions[i];
      var income', tableCharge', food' := Masked(IsClosed, GrandTotalOf), Masked(IsClosed, TableChargeOf), Masked(IsClosed, FoodTotalOf);
      assert income'(s) == if IsClosed(s) then GrandTotalOf(s) else 0.0;
      assert tableCharge'(s) == if IsClosed(s) then TableChargeOf(s) else 0.0;
      assert food'(s) == if IsClosed(s) then FoodTotalOf(s) else 0.0;
      if s.Status == Closed {
        income := income + s.GrandTotal;
        tableCharge := tableCharge + s.TableCharge;
        food := food + s.FoodTotal;
      }
      i := i + 1;
    }
    assert sessions[..i] == sessions;
  }

  /** The `/revenue` loop over the expenses. */
  method SumExpenses(expenses: seq<Expense>) returns (total: real)
    ensures total == SumSeq(expenses, ExpenseAmount)
  {
    total := 0.0;
    var i := 0;
    while i < |expenses|
      invariant 0 <= i <= |expenses|
      invariant total == SumSeq(expenses[..i], ExpenseAmount)
    {
      assert expenses[..i + 1][..i] == expenses[..i];
      total := total + expenses[i].Amount;
      i := i + 1;
    }
    assert expenses[..i] == expenses;
  }

  /** Summing a closed-only amount over the listing of a window is summing
      the amount over the window's closed sessions. */
  lemma ClosedOnlySum(listed: seq<TableSession>, store: map<Id, TableSession>, start: real, end: real,
                      f: TableSession -> real)
    requires Injective(store) && ListsExactly(listed, store, StartedIn(start, end))
    ensures SumSeq(listed, Masked(IsClosed, f)) == SumMap(store, ClosedStartedIn(start, end), f)
  {
    ListingSum(listed, store, StartedIn(start, end), Masked(IsClosed, f));
    SumMapMasked(store, StartedIn(start, end), IsClosed, f);
    SumMapSameFilter(store, Both(StartedIn(start, end), IsClosed), ClosedStartedIn(start, end), f);
  }

  /** `GET /reports/revenue`. Unparsable dates are not refused: they count
      as the zero time. `expensesIn` is the expense store's range query. */
  method Revenue(sessions: TableSessionRepository, expensesIn: (real, real) -> seq<Expense>,
                 startDate: DateQuery, endDate: DateQuery) returns (res: Result<RevenueReport>)
    requires sessions.Valid()
    ensures startDate.text == "" || endDate.text == "" ==>
              res == BadRequest(RP_BAD_REQUEST_001, "startDate and endDate required")
    ensures startDate.text != "" && endDate.text != "" ==>
              var start := ParsedOrZero(startDate);
              var end := EndOfDay(ParsedOrZero(endDate));
              res.Ok? && res.value.StartDate == startDate.text && res.value.EndDate == endDate.text
              && SortedBy(res.value.Sessions, NewestFirst())
              && ListsExactly(res.value.Sessions, sessions.sessions, StartedIn(start, end))
              && res.value.TotalSessions == CountMap(sessions.sessions, StartedIn(start, end))
              && res.value.TotalIncome == SumMap(sessions.sessions, ClosedStartedIn(start, end), GrandTotalOf)
              && res.value.TotalTableCharge == SumMap(sessions.sessions, ClosedStartedIn(start, end), TableChargeOf)
              && res.value.TotalFoodIncome == SumMap(sessions.sessions, ClosedStartedIn(start, end), FoodTotalOf)
              && res.value.Expenses == expensesIn(start, end)
              && res.value.TotalExpense == SumSeq(res.value.Expenses, ExpenseAmount)
              && res.value.NetProfit == res.value.TotalIncome - res.value.TotalExpense
  {
    if startDate.text == "" || endDate.text == "" {
      return BadRequest(RP_BAD_REQUEST_001, "startDate and endDate required");
    }
    var start := ParsedOrZero(startDate);
    var end := EndOfDay(ParsedOrZero(endDate));
    var listed := sessions.GetTableSessions(start, end);
    var expenses := expensesIn(start, end);
    var income, tableCharge, food := SumClosed(listed);
    ClosedOnlySum(listed, sessions.sessions, start, end, GrandTotalOf);
    ClosedOnlySum(listed, sessions.sessions, start, end, TableChargeOf);
    ClosedOnlySum(listed, sessions.sessions, start, end, FoodTotalOf);
    ListingCount(listed, sessions.sessions, StartedIn(start, end));
    var totalExpense := SumExpenses(expenses);
    res := Ok(RevenueReport(startDate.text, endDate.text, |listed|, income, tableCharge, food,
                            totalExpense, income - totalExpense, listed, expenses));
  }

  /** The report's income, table and food totals are the session store's own
      summary of the same window, while its session count also counts the
      sessions that are not closed. */
  method RevenueAgreesWithSummary(sessions: TableSessionRepository, expensesIn: (real, real) -> seq<Expense>,
                                  startDate: DateQuery, endDate: DateQuery)
    returns (report: Result<RevenueReport>, summary: SessionSummary)
    requires sessions.Valid() && startDate.text != "" && endDate.text != ""
    ensures report.Ok?
    ensures report.value.TotalIncome == summary.TotalRevenue
    ensures report.value.TotalTableCharge == summary.TotalTable
    ensures report.value.TotalFoodIncome == summary.TotalFood
    ensures report.value.TotalSessions == CountMap(sessions.sessions, StartedIn(ParsedOrZero(startDate), EndOfDay(ParsedOrZero(endDate))))
    ensures summary.TotalSessions == CountMap(sessions.sessions, ClosedStartedIn(ParsedOrZero(startDate), EndOfDay(ParsedOrZero(endDate))))
  {
    report := Revenue(sessions, expensesIn, startDate, endDate);
    summary := sessions.GetSessionSummary(ParsedOrZero(startDate), EndOfDay(ParsedOrZero(endDate)));
  }

  /** `GET /reports/revenue/by-table/:tableId`: unlike `/revenue`, dates
      that do not parse are refused. */
  method RevenueByTable(sessions: TableSessionRepository, tableId: IdArg, startDate: DateQuery, endDate: DateQuery)
    returns (res: Result<seq<TableSession>>)
    requires sessions.Valid()
    ensures tableId.None? ==> res == BadRequest(RP_BAD_REQUEST_001, "invalid tableId")
    ensures tableId.Some? && (startDate.text == "" || endDate.text == "") ==>
              res == BadRequest(RP_BAD_REQUEST_001, "startDate and endDate required")
    ensures tableId.Some? && startDate.text != "" && endDate.text != "" && startDate.parsed.None? ==>
              res == BadRequest(RP_BAD_REQUEST_001, "invalid startDate format")
    ensures tableId.Some? && startDate.text != "" && endDate.text != "" && startDate.parsed.Some? && endDate.parsed.None? ==>
              res == BadRequest(RP_BAD_REQUEST_001, "invalid endDate format")
    ensures tableId.Some? && startDate.text != "" && endDate.text != "" && startDate.parsed.Some? && endDate.parsed.Some? ==>
              res.Ok? && SortedBy(res.value, NewestFirst())
              && ListsExactly(res.value, sessions.sessions,
                              OfTableStartedIn(tableId.value, startDate.parsed.value, EndOfDay(endDate.parsed.value)))
  {
    if tableId.None? {
      return BadRequest(RP_BAD_REQUEST_001, "invalid tableId");
    }
    if startDate.text == "" || endDate.text == "" {
      return BadRequest(RP_BAD_REQUEST_001, "startDate and endDate required");
    }
    if startDate.parsed.None? {
      return BadRequest(RP_BAD_REQUEST_001, "invalid startDate format");
    }
    if endDate.parsed.None? {
      return BadRequest(RP_BAD_REQUEST_001, "invalid endDate format");
    }
    var listed := sessions.GetSessionsByTableId(tableId.value, startDate.parsed.value, EndOfDay(endDate.parsed.value));
    res := Ok(listed);
  }
}
