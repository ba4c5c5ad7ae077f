/** The `table_sessions` collection (app/data/repositories/table_session.go). */
module SessionRepo {

  import opened Base
  import opened Entities
  import opened Listing

  /** `UpdateTableSession`'s `$set`: the seventeen listed fields are written
      from `s` (the update date from the clock); the id, table type, hourly
      rate, start time and creation stamp stay as stored. */
  function Overwrite(stored: TableSession, s: TableSession, now: real): (r: TableSession)
    ensures r.Id == stored.Id && r.TableType == stored.TableType && r.RatePerHour == stored.RatePerHour
    ensures r.StartTime == stored.StartTime && r.CreatedBy == stored.CreatedBy && r.CreatedDate == stored.CreatedDate
    ensures r.Status == s.Status && r.EndTime == s.EndTime && r.PausedAt == s.PausedAt
    ensures r.TotalPausedMins == s.TotalPausedMins && r.DurationMins == s.DurationMins
    ensures r.TableCharge == s.TableCharge && r.FoodTotal == s.FoodTotal && r.Discount == s.Discount
    ensures r.PromotionId == s.PromotionId && r.PromotionName == s.PromotionName
    ensures r.PromotionDiscount == s.PromotionDiscount && r.GrandTotal == s.GrandTotal && r.Note == s.Note
    ensures r.TableId == s.TableId && r.TableName == s.TableName
    ensures r.UpdatedBy == s.UpdatedBy && r.UpdatedDate == now
  {
    stored.(Status := s.Status, EndTime := s.EndTime, PausedAt := s.PausedAt,
            TotalPausedMins := s.TotalPausedMins, DurationMins := s.DurationMins,
            TableCharge := s.TableCharge, FoodTotal := s.FoodTotal, Discount := s.Discount,
            PromotionId := s.PromotionId, PromotionName := s.PromotionName,
            PromotionDiscount := s.PromotionDiscount, GrandTotal := s.GrandTotal, Note := s.Note,
            TableId := s.TableId, TableName := s.TableName,
            UpdatedBy := s.UpdatedBy, UpdatedDate := now)
  }

  /** The `$set` a transfer needs: `Overwrite` plus the table type and the
      hourly rate, so that the new table's rate is the one billed at close. */
  function OverwriteWithTable(stored: TableSession, s: TableSession, now: real): (r: TableSession)
    ensures r.TableType == s.TableType && r.RatePerHour == s.RatePerHour
    ensures r.Id == stored.Id && r.StartTime == stored.StartTime
    ensures r.CreatedBy == stored.CreatedBy && r.CreatedDate == stored.CreatedDate
    ensures r.(TableType := stored.TableType, RatePerHour := stored.RatePerHour) == Overwrite(stored, s, now)
  {
    Overwrite(stored, s, now).(TableType := s.TableType, RatePerHour := s.RatePerHour)
  }

  /** The fields the update never writes. */
  predicate SameSnapshot(a: TableSession, b: TableSession) {
    a.Id == b.Id && a.TableType == b.TableType && a.RatePerHour == b.RatePerHour
    && a.StartTime == b.StartTime && a.CreatedBy == b.CreatedBy && a.CreatedDate == b.CreatedDate
  }

  /** A session that was read from the store and changed only in written
      fields is stored exactly as changed, with the new update date; a change
      to any unwritten field is lost. */
  lemma OverwriteStoresExactlyWhenSnapshotKept(stored: TableSession, s: TableSession, now: real)
    ensures Overwrite(stored, s, now) == s.(UpdatedDate := now) <==> SameSnapshot(stored, s)
  {
    if Overwrite(stored, s, now) == s.(UpdatedDate := now) {
      assert Overwrite(stored, s, now).RatePerHour == s.RatePerHour;
    }
  }

  /** The `startTime` window of the date-range queries, both ends inclusive. */
  function StartedIn(start: real, end: real): TableSession -> bool {
    (s: TableSession) => start <= s.StartTime <= end
  }

  /** The by-table query's filter: that table and the `startTime` window. */
  function OfTableStartedIn(tableId: Id, start: real, end: real): TableSession -> bool {
    (s: TableSession) => s.TableId == tableId && start <= s.StartTime <= end
  }

  /** The summary's `$match`: closed sessions in the `startTime` window. */
  function ClosedStartedIn(start: real, end: real): TableSession -> bool {
    (s: TableSession) => s.Status == Closed && start <= s.StartTime <= end
  }

  /** The amounts the summary adds up. */
  function GrandTotalOf(s: TableSession): real { s.GrandTotal }
  function TableChargeOf(s: TableSession): real { s.TableCharge }
  function FoodTotalOf(s: TableSession): real { s.FoodTotal }

  /** Newest first: the `startTime: -1` sort. */
  function NewestFirst(): (TableSession, TableSession) -> bool {
    ByReal((s: TableSession) => s.StartTime, false)
  }

  class TableSessionRepository {
    var sessions: map<Id, TableSession>
    /** The id the next insert receives. */
    var nextId: Id
    /** The latest time any write happened at. */
    var clock: real

    ghost predicate Valid()
      reads this
    {
      nextId >= 1 && forall k | k in sessions :: sessions[k].Id == k && 1 <= k < nextId
    }

    constructor(now: real)
      ensures Valid() && sessions == map[] && clock == now
    {
      sessions := map[];
      nextId := 1;
      clock := now;
    }

    /** `GetTableSessionById`: the stored session, or not found. */
    function GetTableSessionById(id: Id): (r: Option<TableSession>)
      reads this
      ensures r.Some? <==> id in sessions
      ensures r.Some? ==> r.value == sessions[id]
    {
      if id in sessions then Some(sessions[id]) else None
    }

    /** `GetActiveSessionByTableId`: some `ACTIVE` or `PAUSED` session of
        that table, if there is one. */
    method GetActiveSessionByTableId(tableId: Id) returns (r: Option<TableSession>)
      ensures r.Some? ==> r.value in sessions.Values && r.value.TableId == tableId && r.value.IsOpen()
      ensures r.None? ==> forall k | k in sessions :: !(sessions[k].TableId == tableId && sessions[k].IsOpen())
    {
      if exists k | k in sessions :: sessions[k].TableId == tableId && sessions[k].IsOpen() {
        var k :| k in sessions && sessions[k].TableId == tableId && sessions[k].IsOpen();
        r := Some(sessions[k]);
      } else {
        r := None;
      }
    }

    /** `GetTableSessions`: the sessions started in `[start, end]`, newest
        first. */
    method GetTableSessions(start: real, end: real) returns (r: seq<TableSession>)
      requires Valid()
      ensures SortedBy(r, NewestFirst())
      ensures ListsExactly(r, sessions, StartedIn(start, end))
    {
      ByRealIsTotalPreorder((s: TableSession) => s.StartTime, false);
      r := SelectSorted(sessions, StartedIn(start, end), NewestFirst());
    }

    /** `GetSessionsByTableId`: the same window, restricted to one table. */
    method GetSessionsByTableId(tableId: Id, start: real, end: real) returns (r: seq<TableSession>)
      requires Valid()
      ensures SortedBy(r, NewestFirst())
      ensures ListsExactly(r, sessions, OfTableStartedIn(tableId, start, end))
    {
      ByRealIsTotalPreorder((s: TableSession) => s.StartTime, false);
      r := SelectSorted(sessions, OfTableStartedIn(tableId, start, end), NewestFirst());
    }

    /** `GetSessionSummary`: count, revenue, table charges and food totals of
        the closed sessions started in `[start, end]`; all zero when there
        are none. */
    method GetSessionSummary(start: real, end: real) returns (r: SessionSummary)
      requires Valid()
      ensures r.TotalSessions == CountMap(sessions, ClosedStartedIn(start, end))
      ensures r.TotalRevenue == SumMap(sessions, ClosedStartedIn(start, end), GrandTotalOf)
      ensures r.TotalTable == SumMap(sessions, ClosedStartedIn(start, end), TableChargeOf)
      ensures r.TotalFood == SumMap(sessions, ClosedStartedIn(start, end), FoodTotalOf)
    {
      ByRealIsTotalPreorder((s: TableSession) => s.StartTime, false);
      var matched := SelectSorted(sessions, ClosedStartedIn(start, end), NewestFirst());
      ListingCount(matched, sessions, ClosedStartedIn(start, end));
      ListingSum(matched, sessions, ClosedStartedIn(start, end), GrandTotalOf);
      ListingSum(matched, sessions, ClosedStartedIn(start, end), TableChargeOf);
      ListingSum(matched, sessions, ClosedStartedIn(start, end), FoodTotalOf);
      r := SessionSummary(|matched|,
                          SumSeq(matched, GrandTotalOf),
                          SumSeq(matched, TableChargeOf),
                          SumSeq(matched, FoodTotalOf));
    }

    /** `CreateTableSession`: a fresh id, both dates set to now, the rest as
        given. A failed insert stores nothing. */
    method CreateTableSession(s: TableSession, now: real, fault: Option<string>)
      returns (created: TableSession, err: Option<string>)
      requires Valid() && now >= clock
      modifies this
      ensures Valid() && clock == now && err == fault
      ensures created == s.(Id := old(nextId), CreatedDate := now, UpdatedDate := now)
      ensures created.Id !in old(sessions)
      ensures fault.None? ==> sessions == old(sessions)[created.Id := created]
      ensures fault.Some? ==> sessions == old(sessions)
    {
      created := s.(Id := nextId, CreatedDate := now, UpdatedDate := now);
      err := fault;
      if fault.None? {
        sessions := sessions[created.Id := created];
      }
      nextId := nextId + 1;
      clock := now;
    }

    /** `UpdateTableSession`: the `$set` of `Overwrite` on the session with
        that id; an id that matches nothing changes nothing. */
    method UpdateTableSession(id: Id, s: TableSession, now: real, fault: Option<string>) returns (err: Option<string>)
      requires Valid() && now >= clock
      modifies this
      ensures Valid() && nextId == old(nextId) && clock == now && err == fault
      ensures fault.None? && id in old(sessions) ==> sessions == old(sessions)[id := Overwrite(old(sessions)[id], s, now)]
      ensures fault.Some? || id !in old(sessions) ==> sessions == old(sessions)
    {
      err := fault;
      if fault.None? && id in sessions {
        sessions := sessions[id := Overwrite(sessions[id], s, now)];
      }
      clock := now;
    }
  }
}
