/** The session handlers of app/featues/table_session/usecase/open_table.go
    other than closing: open, pause, resume, transfer and apply a promotion.
    Each loads what it needs, checks its guards in the source's order, and
    writes through the repositories; `now` is the request's clock reading. */
module SessionUsecase {

  import opened Base
  import opened Entities
  import opened ErrCode
  import opened Billing
  import opened TableRepo
  import opened SessionRepo
  import opened PromotionRepo
  import opened SessionSteps
  import opened Occupancy

  /** The pause bookkeeping of the open sessions: `PAUSED` exactly when a
      pause start is recorded, never a negative paused total, and no pause
      starting after the last write. */
  ghost predicate PauseBookkeeping(sessions: map<Id, TableSession>, clock: real) {
    forall k | k in sessions && sessions[k].IsOpen() ::
      (sessions[k].Status == Paused <==> sessions[k].PausedAt.Some?)
      && sessions[k].TotalPausedMins >= 0.0
      && (sessions[k].PausedAt.Some? ==> sessions[k].PausedAt.value <= clock)
  }

  /** Bookkeeping about past pauses stays true as the clock moves on. */
  lemma BookkeepingKeptAsClockAdvances(sessions: map<Id, TableSession>, clock: real, now: real)
    requires PauseBookkeeping(sessions, clock) && clock <= now
    ensures PauseBookkeeping(sessions, now)
  {
  }

  /** Rewriting a session without touching its status or pause fields keeps
      the bookkeeping. */
  lemma BookkeepingKeptWhenPauseFieldsKept(sessions: map<Id, TableSession>, clock: real, now: real, sid: Id, s: TableSession)
    requires PauseBookkeeping(sessions, clock) && clock <= now && sid in sessions
    requires s.Status == sessions[sid].Status && s.PausedAt == sessions[sid].PausedAt
    requires s.TotalPausedMins == sessions[sid].TotalPausedMins
    ensures PauseBookkeeping(sessions[sid := s], now)
  {
  }

  /** The id a path parameter or body names, when it binds and parses. */
  function BoundId(body: Body<IdArg>): Option<Id> {
    if body.Bound? then body.value else None
  }

  /** `OpenTable`. */
  method OpenTable(tables: TableRepository, sessions: TableSessionRepository, body: Body<IdArg>,
                   user: string, now: real, fault: Option<string>) returns (res: Result<TableSession>)
    requires tables.Valid() && sessions.Valid() && now >= sessions.clock
    modifies tables, sessions
    ensures tables.Valid() && sessions.Valid()
    ensures old(Occupied(tables.tables, sessions.sessions)) ==> Occupied(tables.tables, sessions.sessions)
    ensures old(PauseBookkeeping(sessions.sessions, sessions.clock)) ==> PauseBookkeeping(sessions.sessions, sessions.clock)
    ensures body.Unbound? ==> res == BadRequest(TS_BAD_REQUEST_001, body.reason)
    ensures body.Bound? && body.value.None? ==> res == BadRequest(TS_BAD_REQUEST_001, "invalid tableId")
    ensures BoundId(body).Some? && BoundId(body).value !in old(tables.tables) ==>
              res == BadRequest(TS_BAD_REQUEST_002, "table not found")
    ensures BoundId(body).Some? && BoundId(body).value in old(tables.tables)
            && old(tables.tables)[BoundId(body).value].Status != Available ==>
              res == BadRequest(TS_BAD_REQUEST_002, "table is not available")
    ensures res.Err? ==> tables.tables == old(tables.tables) && sessions.sessions == old(sessions.sessions)
    ensures res.Ok? ==> BoundId(body).Some? && fault.None?
    ensures BoundId(body).Some? && BoundId(body).value in old(tables.tables)
            && old(tables.tables)[BoundId(body).value].Status == Available ==>
              var tid := BoundId(body).value;
              var s := OpenedSession(old(tables.tables)[tid], now, user).(Id := old(sessions.nextId), CreatedDate := now, UpdatedDate := now);
              (fault.Some? ==> res == BadRequest(TS_BAD_REQUEST_002, fault.value))
              && (fault.None? ==> res == Ok(s)
                                  && sessions.sessions == old(sessions.sessions)[s.Id := s]
                                  && tables.tables == SetStatus(old(tables.tables), tid, InUse))
  {
    if body.Unbound? {
      return BadRequest(TS_BAD_REQUEST_001, body.reason);
    }
    if body.value.None? {
      return BadRequest(TS_BAD_REQUEST_001, "invalid tableId");
    }
    var tableId := body.value.value;
    var table := tables.GetTableById(tableId);
    if table.None? {
      return BadRequest(TS_BAD_REQUEST_002, "table not found");
    }
    if table.value.Status != Available {
      return BadRequest(TS_BAD_REQUEST_002, "table is not available");
    }
    var session := OpenedSession(table.value, now, user);
    ghost var before := sessions.sessions;
    var created, err := sessions.CreateTableSession(session, now, fault);
    if err.Some? {
      return BadRequest(TS_BAD_REQUEST_002, err.value);
    }
    if Occupied(tables.tables, before) {
      OpenKeepsOccupancy(tables.tables, before, created.Id, created);
    }
    var _ := tables.UpdateTableStatus(tableId, IN_USE, None);
    res := Ok(created);
  }

  /** The session a path id names, when it parses and is stored. */
  function Loaded(sessions: map<Id, TableSession>, sessionId: IdArg): Option<TableSession> {
    if sessionId.Some? && sessionId.value in sessions then Some(sessions[sessionId.value]) else None
  }

  /** `PauseTable`. */
  method PauseTable(tables: TableRepository, sessions: TableSessionRepository, sessionId: IdArg,
                    now: real, fault: Option<string>) returns (res: Result<TableSession>)
    requires sessions.Valid() && now >= sessions.clock
    modifies sessions
    ensures sessions.Valid()
    ensures old(Occupied(tables.tables, sessions.sessions)) ==> Occupied(tables.tables, sessions.sessions)
    ensures old(PauseBookkeeping(sessions.sessions, sessions.clock)) ==> PauseBookkeeping(sessions.sessions, sessions.clock)
    ensures sessionId.None? ==> res == BadRequest(TS_BAD_REQUEST_001, "invalid sessionId")
    ensures sessionId.Some? && Loaded(old(sessions.sessions), sessionId).None? ==>
              res == BadRequest(TS_BAD_REQUEST_002, "session not found")
    ensures Loaded(old(sessions.sessions), sessionId).Some? && Loaded(old(sessions.sessions), sessionId).value.Status != Active ==>
              res == BadRequest(TS_BAD_REQUEST_002, "session is not active")
    ensures res.Err? ==> sessions.sessions == old(sessions.sessions)
    ensures Loaded(old(sessions.sessions), sessionId).Some? && Loaded(old(sessions.sessions), sessionId).value.Status == Active ==>
              var paused := PausedSession(Loaded(old(sessions.sessions), sessionId).value, now);
              (fault.Some? ==> res == BadRequest(TS_BAD_REQUEST_002, fault.value))
              && (fault.None? ==> res == Ok(paused)
                                  && sessions.sessions == old(sessions.sessions)[sessionId.value := paused.(UpdatedDate := now)])
  {
    if sessionId.None? {
      return BadRequest(TS_BAD_REQUEST_001, "invalid sessionId");
    }
    var id := sessionId.value;
    var session := sessions.GetTableSessionById(id);
    if session.None? {
      return BadRequest(TS_BAD_REQUEST_002, "session not found");
    }
    if session.value.Status != Active {
      return BadRequest(TS_BAD_REQUEST_002, "session is not active");
    }
    var paused := PausedSession(session.value, now);
    OverwriteStoresExactlyWhenSnapshotKept(session.value, paused, now);
    if Occupied(tables.tables, sessions.sessions) {
      RewriteKeepsOccupancy(tables.tables, sessions.sessions, id, paused.(UpdatedDate := now));
    }
    var err := sessions.UpdateTableSession(id, paused, now, fault);
    if err.Some? {
      return BadRequest(TS_BAD_REQUEST_002, err.value);
    }
    res := Ok(paused);
  }

  /** `ResumeTable`. */
  method ResumeTable(tables: TableRepository, sessions: TableSessionRepository, sessionId: IdArg,
                     now: real, fault: Option<string>) returns (res: Result<TableSession>)
    requires sessions.Valid() && now >= sessions.clock
    modifies sessions
    ensures sessions.Valid()
    ensures old(Occupied(tables.tables, sessions.sessions)) ==> Occupied(tables.tables, sessions.sessions)
    ensures old(PauseBookkeeping(sessions.sessions, sessions.clock)) ==> PauseBookkeeping(sessions.sessions, sessions.clock)
    ensures sessionId.None? ==> res == BadRequest(TS_BAD_REQUEST_001, "invalid sessionId")
    ensures sessionId.Some? && Loaded(old(sessions.sessions), sessionId).None? ==>
              res == BadRequest(TS_BAD_REQUEST_002, "session not found")
    ensures Loaded(old(sessions.sessions), sessionId).Some?
            && (Loaded(old(sessions.sessions), sessionId).value.Status != Paused
                || Loaded(old(sessions.sessions), sessionId).value.PausedAt.None?) ==>
              res == BadRequest(TS_BAD_REQUEST_002, "session is not paused")
    ensures res.Err? ==> sessions.sessions == old(sessions.sessions)
    ensures Loaded(old(sessions.sessions), sessionId).Some? && Loaded(old(sessions.sessions), sessionId).value.Status == Paused
            && Loaded(old(sessions.sessions), sessionId).value.PausedAt.Some? ==>
              var resumed := ResumedSession(Loaded(old(sessions.sessions), sessionId).value, now);
              (Loaded(old(sessions.sessions), sessionId).value.PausedAt.value <= now ==>
                 resumed.TotalPausedMins >= Loaded(old(sessions.sessions), sessionId).value.TotalPausedMins)
              && (fault.Some? ==> res == BadRequest(TS_BAD_REQUEST_002, fault.value))
              && (fault.None? ==> res == Ok(resumed)
                                  && sessions.sessions == old(sessions.sessions)[sessionId.value := resumed.(UpdatedDate := now)])
  {
    if sessionId.None? {
      return BadRequest(TS_BAD_REQUEST_001, "invalid sessionId");
    }
    var id := sessionId.value;
    var session := sessions.GetTableSessionById(id);
    if session.None? {
      return BadRequest(TS_BAD_REQUEST_002, "session not found");
    }
    if session.value.Status != Paused || session.value.PausedAt.None? {
      return BadRequest(TS_BAD_REQUEST_002, "session is not paused");
    }
    var resumed := ResumedSession(session.value, now);
    if session.value.PausedAt.value <= now {
      ResumeNeverLowersPausedTotal(session.value, now);
    }
    OverwriteStoresExactlyWhenSnapshotKept(session.value, resumed, now);
    if Occupied(tables.tables, sessions.sessions) {
      RewriteKeepsOccupancy(tables.tables, sessions.sessions, id, resumed.(UpdatedDate := now));
    }
    var err := sessions.UpdateTableSession(id, resumed, now, fault);
    if err.Some? {
      return BadRequest(TS_BAD_REQUEST_002, err.value);
    }
    res := Ok(resumed);
  }

  /** `TransferTable`: no check of the session's status. The stored session
      takes the new table's id and name but, because the session store does
      not write them, keeps its old type and hourly rate; the response
      carries the new ones. */
  method TransferTable(tables: TableRepository, sessions: TableSessionRepository, sessionId: IdArg,
                       body: Body<IdArg>, user: string, now: real, fault: Option<string>)
    returns (res: Result<TableSession>)
    requires tables.Valid() && sessions.Valid() && now >= sessions.clock
    modifies tables, sessions
    ensures tables.Valid() && sessions.Valid()
    ensures old(PauseBookkeeping(sessions.sessions, sessions.clock)) ==> PauseBookkeeping(sessions.sessions, sessions.clock)
    ensures old(Occupied(tables.tables, sessions.sessions))
            && (res.Err? || (Loaded(old(sessions.sessions), sessionId).Some? && Loaded(old(sessions.sessions), sessionId).value.IsOpen())) ==>
              Occupied(tables.tables, sessions.sessions)
    ensures sessionId.None? ==> res == BadRequest(TS_BAD_REQUEST_001, "invalid sessionId")
    ensures sessionId.Some? && body.Unbound? ==> res == BadRequest(TS_BAD_REQUEST_001, body.reason)
    ensures sessionId.Some? && body.Bound? && body.value.None? ==> res == BadRequest(TS_BAD_REQUEST_001, "invalid newTableId")
    ensures sessionId.Some? && BoundId(body).Some? && Loaded(old(sessions.sessions), sessionId).None? ==>
              res == BadRequest(TS_BAD_REQUEST_002, "session not found")
    ensures Loaded(old(sessions.sessions), sessionId).Some? && BoundId(body).Some? && BoundId(body).value !in old(tables.tables) ==>
              res == BadRequest(TS_BAD_REQUEST_002, "new table not found")
    ensures Loaded(old(sessions.sessions), sessionId).Some? && BoundId(body).Some? && BoundId(body).value in old(tables.tables)
            && old(tables.tables)[BoundId(body).value].Status != Available ==>
              res == BadRequest(TS_BAD_REQUEST_002, "new table is not available")
    ensures res.Err? ==> tables.tables == old(tables.tables) && sessions.sessions == old(sessions.sessions)
    ensures Loaded(old(sessions.sessions), sessionId).Some? && BoundId(body).Some? && BoundId(body).value in old(tables.tables)
            && old(tables.tables)[BoundId(body).value].Status == Available ==>
              var loaded := Loaded(old(sessions.sessions), sessionId).value;
              var newTable := old(tables.tables)[BoundId(body).value];
              var rebound := ReboundSession(loaded, newTable, user);
              (fault.Some? ==> res == BadRequest(TS_BAD_REQUEST_002, fault.value))
              && (fault.None? ==> res == Ok(rebound)
                                  && sessions.sessions == old(sessions.sessions)[sessionId.value := Overwrite(loaded, rebound, now)]
                                  && tables.tables == SetStatus(SetStatus(old(tables.tables), loaded.TableId, Available), newTable.Id, InUse))
  {
    if sessionId.None? {
      return BadRequest(TS_BAD_REQUEST_001, "invalid sessionId");
    }
    if body.Unbound? {
      return BadRequest(TS_BAD_REQUEST_001, body.reason);
    }
    if body.value.None? {
      return BadRequest(TS_BAD_REQUEST_001, "invalid newTableId");
    }
    var id := sessionId.value;
    var newTableId := body.value.value;
    var session := sessions.GetTableSessionById(id);
    if session.None? {
      return BadRequest(TS_BAD_REQUEST_002, "session not found");
    }
    var newTable := tables.GetTableById(newTableId);
    if newTable.None? {
      return BadRequest(TS_BAD_REQUEST_002, "new table not found");
    }
    if newTable.value.Status != Available {
      return BadRequest(TS_BAD_REQUEST_002, "new table is not available");
    }
    var oldTableId := session.value.TableId;
    var rebound := ReboundSession(session.value, newTable.value, user);
    ghost var tables0, sessions0 := tables.tables, sessions.sessions;
    ghost var stored := Overwrite(session.value, rebound, now);
    if PauseBookkeeping(sessions0, sessions.clock) {
      BookkeepingKeptWhenPauseFieldsKept(sessions0, sessions.clock, now, id, stored);
    }
    if session.value.IsOpen() && Occupied(tables0, sessions0) {
      TransferKeepsOccupancy(tables0, sessions0, id, stored);
    }
    var err := sessions.UpdateTableSession(id, rebound, now, fault);
    if err.Some? {
      if PauseBookkeeping(sessions0, old(sessions.clock)) {
        BookkeepingKeptAsClockAdvances(sessions0, old(sessions.clock), now);
      }
      return BadRequest(TS_BAD_REQUEST_002, err.value);
    }
    assert sessions.sessions == sessions0[id := stored];
    var _ := tables.UpdateTableStatus(oldTableId, AVAILABLE, None);
    assert tables.tables == SetStatus(tables0, oldTableId, Available);
    var _ := tables.UpdateTableStatus(newTableId, IN_USE, None);
    assert tables.tables == SetStatus(SetStatus(tables0, oldTableId, Available), newTableId, InUse);
    res := Ok(rebound);
  }

  /** `ApplyPromotionToSession`: any stored promotion is accepted, whatever
      its status, dates or table types. */
  method ApplyPromotionToSession(tables: TableRepository, sessions: TableSessionRepository, promotions: PromotionRepository,
                                 sessionId: IdArg, body: Body<IdArg>, user: string, now: real, fault: Option<string>)
    returns (res: Result<TableSession>)
    requires sessions.Valid() && now >= sessions.clock
    modifies sessions
    ensures sessions.Valid()
    ensures old(Occupied(tables.tables, sessions.sessions)) ==> Occupied(tables.tables, sessions.sessions)
    ensures old(PauseBookkeeping(sessions.sessions, sessions.clock)) ==> PauseBookkeeping(sessions.sessions, sessions.clock)
    ensures sessionId.None? ==> res == BadRequest(TS_BAD_REQUEST_001, "invalid sessionId")
    ensures sessionId.Some? && body.Unbound? ==> res == BadRequest(TS_BAD_REQUEST_001, body.reason)
    ensures sessionId.Some? && body.Bound? && body.value.None? ==> res == BadRequest(TS_BAD_REQUEST_001, "invalid promotionId")
    ensures sessionId.Some? && BoundId(body).Some? && Loaded(old(sessions.sessions), sessionId).None? ==>
              res == BadRequest(TS_BAD_REQUEST_002, "session not found")
    ensures BoundId(body).Some? && Loaded(old(sessions.sessions), sessionId).Some?
            && Loaded(old(sessions.sessions), sessionId).value.Status == Closed ==>
              res == BadRequest(TS_BAD_REQUEST_002, "session already closed")
    ensures BoundId(body).Some? && Loaded(old(sessions.sessions), sessionId).Some?
            && Loaded(old(sessions.sessions), sessionId).value.IsOpen() && BoundId(body).value !in promotions.promotions ==>
              res == BadRequest(TS_BAD_REQUEST_002, "promotion not found")
    ensures res.Err? ==> sessions.sessions == old(sessions.sessions)
    ensures BoundId(body).Some? && Loaded(old(sessions.sessions), sessionId).Some?
            && Loaded(old(sessions.sessions), sessionId).value.IsOpen() && BoundId(body).value in promotions.promotions ==>
              var promoted := PromotedSession(Loaded(old(sessions.sessions), sessionId).value, BoundId(body).value,
                                              promotions.promotions[BoundId(body).value], now, user);
              (fault.Some? ==> res == BadRequest(TS_BAD_REQUEST_002, fault.value))
              && (fault.None? ==> res == Ok(promoted)
                                  && sessions.sessions == old(sessions.sessions)[sessionId.value := promoted.(UpdatedDate := now)])
  {
    if sessionId.None? {
      return BadRequest(TS_BAD_REQUEST_001, "invalid sessionId");
    }
    if body.Unbound? {
      return BadRequest(TS_BAD_REQUEST_001, body.reason);
    }
    if body.value.None? {
      return BadRequest(TS_BAD_REQUEST_001, "invalid promotionId");
    }
    var id := sessionId.value;
    var promotionId := body.value.value;
    var session := sessions.GetTableSessionById(id);
    if session.None? {
      return BadRequest(TS_BAD_REQUEST_002, "session not found");
    }
    if session.value.Status == Closed {
      return BadRequest(TS_BAD_REQUEST_002, "session already closed");
    }
    var promo := promotions.GetPromotionById(promotionId);
    if promo.None? {
      return BadRequest(TS_BAD_REQUEST_002, "promotion not found");
    }
    var promoted := PromotedSession(session.value, promotionId, promo.value, now, user);
    OverwriteStoresExactlyWhenSnapshotKept(session.value, promoted, now);
    if Occupied(tables.tables, sessions.sessions) {
      RewriteKeepsOccupancy(tables.tables, sessions.sessions, id, promoted.(UpdatedDate := now));
    }
    var err := sessions.UpdateTableSession(id, promoted, now, fault);
    if err.Some? {
      return BadRequest(TS_BAD_REQUEST_002, err.value);
    }
    res := Ok(promoted);
  }

  /** As written, a transfer to a table with a different rate stores the
      session with the old table's rate and type, so closing it later bills
      the old rate for the whole visit. */
  lemma TransferKeepsOldRate(loaded: TableSession, newTable: Table, user: string, now: real, mins: real)
    requires newTable.RatePerHour != loaded.RatePerHour
    ensures var stored := Overwrite(loaded, ReboundSession(loaded, newTable, user), now);
            stored.TableId == newTable.Id && stored.RatePerHour == loaded.RatePerHour
            && stored.RatePerHour != ReboundSession(loaded, newTable, user).RatePerHour
            && TableCharge(mins, stored.RatePerHour) == TableCharge(mins, loaded.RatePerHour)
  {
  }

  /** With the type and rate written as well, the stored session is exactly
      the rebound one the handler returns, billed at the new table's rate. */
  lemma CorrectedTransferStoresNewRate(loaded: TableSession, newTable: Table, user: string, now: real, mins: real)
    ensures var stored := OverwriteWithTable(loaded, ReboundSession(loaded, newTable, user), now);
            stored == ReboundSession(loaded, newTable, user).(UpdatedDate := now)
            && TableCharge(mins, stored.RatePerHour) == TableCharge(mins, newTable.RatePerHour)
  {
  }
}
