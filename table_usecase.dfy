/** The table handlers of app/featues/table/usecase: create, update, set
    the status of, and delete a table. */
module TableUsecase {

  import opened Base
  import opened Entities
  import opened ErrCode
  import opened TableRepo
  import opened Occupancy

  const SUCCESS := "success"

  /** `CreateTable`: a new `AVAILABLE` table from the body. */
  method CreateTable(tables: TableRepository, sessions: map<Id, TableSession>, body: Body<TableRequest>,
                     user: string, now: real, fault: Option<string>) returns (res: Result<Table>)
    requires tables.Valid()
    modifies tables
    ensures tables.Valid()
    ensures old(Occupied(tables.tables, sessions)) ==> Occupied(tables.tables, sessions)
    ensures body.Unbound? ==> res == BadRequest(TB_BAD_REQUEST_001, body.reason) && tables.tables == old(tables.tables)
    ensures body.Bound? && fault.Some? ==> res == BadRequest(TB_BAD_REQUEST_002, fault.value) && tables.tables == old(tables.tables)
    ensures body.Bound? && fault.None? ==>
              var t := Table(old(tables.nextId), body.value.Name, body.value.Type, Available, body.value.RatePerHour,
                             body.value.Description, user, now, "", now);
              t.Id !in old(tables.tables) && res == Ok(t) && tables.tables == old(tables.tables)[t.Id := t]
  {
    if body.Unbound? {
      return BadRequest(TB_BAD_REQUEST_001, body.reason);
    }
    var req := body.value;
    var table := Table(NilId, req.Name, req.Type, Available, req.RatePerHour, req.Description, user, ZeroTime, "", ZeroTime);
    if Occupied(tables.tables, sessions) {
      CreateTableKeepsOccupancy(tables.tables, sessions, tables.nextId, table.(Id := tables.nextId, CreatedDate := now, UpdatedDate := now));
    }
    var created, err := tables.CreateTable(table, now, fault);
    if err.Some? {
      return BadRequest(TB_BAD_REQUEST_002, err.value);
    }
    res := Ok(created);
  }

  /** `UpdateTableById`: rewrites name, type, rate and description; the
      status is never touched, and an id that matches no table is still a
      success. */
  method UpdateTableById(tables: TableRepository, sessions: map<Id, TableSession>, tableId: IdArg,
                         body: Body<TableRequest>, user: string, now: real, fault: Option<string>)
    returns (res: Result<string>)
    requires tables.Valid()
    modifies tables
    ensures tables.Valid()
    ensures old(Occupied(tables.tables, sessions)) ==> Occupied(tables.tables, sessions)
    ensures tableId.None? ==> res == BadRequest(TB_BAD_REQUEST_001, "invalid tableId")
    ensures tableId.Some? && body.Unbound? ==> res == BadRequest(TB_BAD_REQUEST_001, body.reason)
    ensures tableId.Some? && body.Bound? && fault.Some? ==> res == BadRequest(TB_BAD_REQUEST_002, fault.value)
    ensures res.Err? ==> tables.tables == old(tables.tables)
    ensures tableId.Some? && body.Bound? && fault.None? ==>
              var t := Table(NilId, body.value.Name, body.value.Type, Available, body.value.RatePerHour,
                             body.value.Description, "", ZeroTime, user, ZeroTime);
              res == Ok(SUCCESS)
              && (tableId.value in old(tables.tables) ==>
                    tables.tables == old(tables.tables)[tableId.value := OverwriteTable(old(tables.tables)[tableId.value], t, now)])
              && (tableId.value !in old(tables.tables) ==> tables.tables == old(tables.tables))
  {
    if tableId.None? {
      return BadRequest(TB_BAD_REQUEST_001, "invalid tableId");
    }
    if body.Unbound? {
      return BadRequest(TB_BAD_REQUEST_001, body.reason);
    }
    var req := body.value;
    var table := Table(NilId, req.Name, req.Type, Available, req.RatePerHour, req.Description, "", ZeroTime, user, ZeroTime);
    if tableId.value in tables.tables && Occupied(tables.tables, sessions) {
      UpdateTableKeepsOccupancy(tables.tables, sessions, tableId.value, table, now);
    }
    var err := tables.UpdateTableById(tableId.value, table, now, fault);
    if err.Some? {
      return BadRequest(TB_BAD_REQUEST_002, err.value);
    }
    res := Ok(SUCCESS);
  }

  /** `UpdateTableStatus`: stores whatever status string the body carries,
      with no check against the table's sessions. The binder's `required`
      tag refuses an empty status, so a bound body holds a non-empty one. */
  method UpdateTableStatus(tables: TableRepository, tableId: IdArg, body: Body<string>, fault: Option<string>)
    returns (res: Result<string>)
    requires tables.Valid()
    requires body.Bound? ==> body.value != ""
    modifies tables
    ensures tables.Valid()
    ensures tableId.None? ==> res == BadRequest(TB_BAD_REQUEST_001, "invalid tableId")
    ensures tableId.Some? && body.Unbound? ==> res == BadRequest(TB_BAD_REQUEST_001, body.reason)
    ensures tableId.Some? && body.Bound? && fault.Some? ==> res == BadRequest(TB_BAD_REQUEST_002, fault.value)
    ensures res.Err? ==> tables.tables == old(tables.tables)
    ensures tableId.Some? && body.Bound? && fault.None? ==>
              res == Ok(SUCCESS) && tables.tables == SetStatus(old(tables.tables), tableId.value, TableStatusOf(body.value))
  {
    if tableId.None? {
      return BadRequest(TB_BAD_REQUEST_001, "invalid tableId");
    }
    if body.Unbound? {
      return BadRequest(TB_BAD_REQUEST_001, body.reason);
    }
    var err := tables.UpdateTableStatus(tableId.value, body.value, fault);
    if err.Some? {
      return BadRequest(TB_BAD_REQUEST_002, err.value);
    }
    res := Ok(SUCCESS);
  }

  /** `DeleteTableById`: refuses a missing table and a table `IN_USE`. */
  method DeleteTableById(tables: TableRepository, sessions: map<Id, TableSession>, tableId: IdArg, fault: Option<string>)
    returns (res: Result<string>)
    requires tables.Valid()
    modifies tables
    ensures tables.Valid()
    ensures old(Occupied(tables.tables, sessions)) ==> Occupied(tables.tables, sessions)
    ensures tableId.None? ==> res == BadRequest(TB_BAD_REQUEST_001, "invalid tableId")
    ensures tableId.Some? && tableId.value !in old(tables.tables) ==> res == BadRequest(TB_BAD_REQUEST_002, "table not found")
    ensures tableId.Some? && tableId.value in old(tables.tables) && old(tables.tables)[tableId.value].Status == InUse ==>
              res == BadRequest(TB_BAD_REQUEST_002, "cannot delete table while in use")
    ensures res.Err? ==> tables.tables == old(tables.tables)
    ensures tableId.Some? && tableId.value in old(tables.tables) && old(tables.tables)[tableId.value].Status != InUse ==>
              (fault.Some? ==> res == BadRequest(TB_BAD_REQUEST_002, fault.value))
              && (fault.None? ==> res == Ok(SUCCESS) && tables.tables == old(tables.tables) - {tableId.value})
  {
    if tableId.None? {
      return BadRequest(TB_BAD_REQUEST_001, "invalid tableId");
    }
    var table := tables.GetTableById(tableId.value);
    if table.None? {
      return BadRequest(TB_BAD_REQUEST_002, "table not found");
    }
    if table.value.Status == InUse {
      return BadRequest(TB_BAD_REQUEST_002, "cannot delete table while in use");
    }
    if Occupied(tables.tables, sessions) {
      DeleteTableKeepsOccupancy(tables.tables, sessions, tableId.value);
    }
    var err := tables.DeleteTableById(tableId.value, fault);
    if err.Some? {
      return BadRequest(TB_BAD_REQUEST_002, err.value);
    }
    res := Ok(SUCCESS);
  }

  /** Any status the endpoint stores that moves the table into or out of
      `IN_USE` breaks occupancy, since no session is opened or closed. */
  lemma StatusChangeAcrossInUseBreaksOccupancy(tables: map<Id, Table>, sessions: map<Id, TableSession>, id: Id, status: string)
    requires Occupied(tables, sessions) && id in tables
    ensures (tables[id].Status == InUse) != (status == IN_USE) ==>
              !Occupied(SetStatus(tables, id, TableStatusOf(status)), sessions)
  {
    if tables[id].Status == InUse && status != IN_USE {
      StatusEndpointCanFreeOccupiedTable(tables, sessions, id, TableStatusOf(status));
    } else if tables[id].Status != InUse && status == IN_USE {
      StatusEndpointCanOccupyFreeTable(tables, sessions, id);
    }
  }
}
