/** The table/session consistency the session handlers keep: a table is
    `IN_USE` exactly when one open (`ACTIVE` or `PAUSED`) session is on it. */
module Occupancy {

  import opened Base
  import opened Entities
  import opened TableRepo

  /** Every open session is on a stored table that is `IN_USE`. */
  ghost predicate OpenSessionsOnInUseTables(tables: map<Id, Table>, sessions: map<Id, TableSession>) {
    forall k | k in sessions && sessions[k].IsOpen() ::
      sessions[k].TableId in tables && tables[sessions[k].TableId].Status == InUse
  }

  /** No table carries two open sessions. */
  ghost predicate OneOpenSessionPerTable(sessions: map<Id, TableSession>) {
    forall k1, k2 | k1 in sessions && k2 in sessions && sessions[k1].IsOpen() && sessions[k2].IsOpen()
                    && sessions[k1].TableId == sessions[k2].TableId :: k1 == k2
  }

  /** Some session is open on the table. */
  ghost predicate HasOpenSession(sessions: map<Id, TableSession>, t: Id) {
    exists k :: k in sessions && sessions[k].IsOpen() && sessions[k].TableId == t
  }

  /** Every `IN_USE` table has an open session. */
  ghost predicate InUseTablesOccupied(tables: map<Id, Table>, sessions: map<Id, TableSession>) {
    forall t | t in tables && tables[t].Status == InUse :: HasOpenSession(sessions, t)
  }

  ghost predicate Occupied(tables: map<Id, Table>, sessions: map<Id, TableSession>) {
    OpenSessionsOnInUseTables(tables, sessions)
    && OneOpenSessionPerTable(sessions)
    && InUseTablesOccupied(tables, sessions)
  }

  /** What `UpdateTableStatus` does to the stored tables. */
  function SetStatus(tables: map<Id, Table>, id: Id, st: TableStatus): (r: map<Id, Table>)
    ensures r.Keys == tables.Keys
    ensures forall t | t in r :: r[t] == if t == id then tables[t].(Status := st) else tables[t]
  {
    if id in tables then tables[id := tables[id].(Status := st)] else tables
  }

  /** An `AVAILABLE` table has no open session. */
  lemma AvailableTableIsFree(tables: map<Id, Table>, sessions: map<Id, TableSession>, t: Id)
    requires Occupied(tables, sessions) && t in tables && tables[t].Status != InUse
    ensures !HasOpenSession(sessions, t)
  {
    forall k | k in sessions && sessions[k].IsOpen() ensures sessions[k].TableId != t {
      assert tables[sessions[k].TableId].Status == InUse;
    }
  }

  /** Opening: a new open session on an `AVAILABLE` table, which becomes
      `IN_USE`. */
  lemma OpenKeepsOccupancy(tables: map<Id, Table>, sessions: map<Id, TableSession>, sid: Id, s: TableSession)
    requires Occupied(tables, sessions)
    requires s.TableId in tables && tables[s.TableId].Status == Available
    requires sid !in sessions && s.IsOpen()
    ensures Occupied(SetStatus(tables, s.TableId, InUse), sessions[sid := s])
  {
    AvailableTableIsFree(tables, sessions, s.TableId);
    var tables' := SetStatus(tables, s.TableId, InUse);
    var sessions' := sessions[sid := s];
    forall t | t in tables' && tables'[t].Status == InUse ensures HasOpenSession(sessions', t) {
      if t == s.TableId {
        assert sessions'[sid] == s;
      } else {
        var k :| k in sessions && sessions[k].IsOpen() && sessions[k].TableId == t;
        assert sessions'[k] == sessions[k];
      }
    }
  }

  /** Rewriting a session without changing its table or whether it is open
      (pause, resume, applying a promotion). */
  lemma RewriteKeepsOccupancy(tables: map<Id, Table>, sessions: map<Id, TableSession>, sid: Id, s: TableSession)
    requires Occupied(tables, sessions) && sid in sessions
    requires s.TableId == sessions[sid].TableId && s.IsOpen() == sessions[sid].IsOpen()
    ensures Occupied(tables, sessions[sid := s])
  {
    var sessions' := sessions[sid := s];
    forall t | t in tables && tables[t].Status == InUse ensures HasOpenSession(sessions', t) {
      var k :| k in sessions && sessions[k].IsOpen() && sessions[k].TableId == t;
      assert sessions'[k].IsOpen() && sessions'[k].TableId == t;
    }
  }

  /** Closing: the open session becomes closed and its table `AVAILABLE`. */
  lemma CloseKeepsOccupancy(tables: map<Id, Table>, sessions: map<Id, TableSession>, sid: Id, s: TableSession)
    requires Occupied(tables, sessions) && sid in sessions && sessions[sid].IsOpen()
    requires s.TableId == sessions[sid].TableId && !s.IsOpen()
    ensures Occupied(SetStatus(tables, s.TableId, Available), sessions[sid := s])
  {
    var tables' := SetStatus(tables, s.TableId, Available);
    var sessions' := sessions[sid := s];
    forall t | t in tables' && tables'[t].Status == InUse ensures HasOpenSession(sessions', t) {
      var k :| k in sessions && sessions[k].IsOpen() && sessions[k].TableId == t;
      assert k != sid;
      assert sessions'[k] == sessions[k];
    }
  }

  /** Transferring an open session to an `AVAILABLE` table: the old table
      becomes `AVAILABLE`, the new one `IN_USE`. */
  lemma TransferKeepsOccupancy(tables: map<Id, Table>, sessions: map<Id, TableSession>, sid: Id, s: TableSession)
    requires Occupied(tables, sessions) && sid in sessions && sessions[sid].IsOpen()
    requires s.TableId in tables && tables[s.TableId].Status == Available && s.IsOpen()
    ensures Occupied(SetStatus(SetStatus(tables, sessions[sid].TableId, Available), s.TableId, InUse), sessions[sid := s])
  {
    var from := sessions[sid].TableId;
    AvailableTableIsFree(tables, sessions, s.TableId);
    assert from != s.TableId;
    var tables' := SetStatus(SetStatus(tables, from, Available), s.TableId, InUse);
    var sessions' := sessions[sid := s];
    forall t | t in tables' && tables'[t].Status == InUse ensures HasOpenSession(sessions', t) {
      if t == s.TableId {
        assert sessions'[sid] == s;
      } else {
        var k :| k in sessions && sessions[k].IsOpen() && sessions[k].TableId == t;
        assert k != sid;
        assert sessions'[k] == sessions[k];
      }
    }
  }

  /** Transferring a closed session breaks the invariant, whatever the
      state: the new table is marked `IN_USE` with no open session on it. */
  lemma TransferOfClosedSessionBreaksOccupancy(tables: map<Id, Table>, sessions: map<Id, TableSession>, sid: Id, s: TableSession)
    requires Occupied(tables, sessions) && sid in sessions && !sessions[sid].IsOpen()
    requires s.TableId in tables && tables[s.TableId].Status == Available && !s.IsOpen()
    ensures !Occupied(SetStatus(SetStatus(tables, sessions[sid].TableId, Available), s.TableId, InUse), sessions[sid := s])
  {
    var t := s.TableId;
    var tables' := SetStatus(SetStatus(tables, sessions[sid].TableId, Available), t, InUse);
    var sessions' := sessions[sid := s];
    AvailableTableIsFree(tables, sessions, t);
    assert tables'[t].Status == InUse;
    forall k | k in sessions' && sessions'[k].IsOpen() ensures sessions'[k].TableId != t {
      assert k != sid;
      assert sessions'[k] == sessions[k];
    }
  }

  /** Creating a table: a fresh id with status `AVAILABLE`. */
  lemma CreateTableKeepsOccupancy(tables: map<Id, Table>, sessions: map<Id, TableSession>, id: Id, t: Table)
    requires Occupied(tables, sessions) && id !in tables && t.Status == Available
    ensures Occupied(tables[id := t], sessions)
  {
    var tables' := tables[id := t];
    forall u | u in tables' && tables'[u].Status == InUse ensures HasOpenSession(sessions, u) {
      assert u != id && u in tables;
    }
  }

  /** Rewriting a table's descriptive fields leaves its status alone. */
  lemma UpdateTableKeepsOccupancy(tables: map<Id, Table>, sessions: map<Id, TableSession>, id: Id, t: Table, now: real)
    requires Occupied(tables, sessions) && id in tables
    ensures Occupied(tables[id := OverwriteTable(tables[id], t, now)], sessions)
  {
    var tables' := tables[id := OverwriteTable(tables[id], t, now)];
    forall u | u in tables' && tables'[u].Status == InUse ensures HasOpenSession(sessions, u) {
      assert tables[u].Status == InUse;
    }
  }

  /** Deleting a table that is not `IN_USE` leaves no open session without
      its table. */
  lemma DeleteTableKeepsOccupancy(tables: map<Id, Table>, sessions: map<Id, TableSession>, id: Id)
    requires Occupied(tables, sessions) && id in tables && tables[id].Status != InUse
    ensures Occupied(tables - {id}, sessions)
  {
    AvailableTableIsFree(tables, sessions, id);
    forall k | k in sessions && sessions[k].IsOpen()
      ensures sessions[k].TableId in tables - {id} && (tables - {id})[sessions[k].TableId].Status == InUse
    {
      assert sessions[k].TableId != id;
    }
  }

  /** The admin status endpoint can break the invariant: taking an `IN_USE`
      table out of use leaves its open session on a table that is not in
      use. */
  lemma StatusEndpointCanFreeOccupiedTable(tables: map<Id, Table>, sessions: map<Id, TableSession>, id: Id, st: TableStatus)
    requires Occupied(tables, sessions) && id in tables && tables[id].Status == InUse && st != InUse
    ensures !Occupied(SetStatus(tables, id, st), sessions)
  {
    var k :| k in sessions && sessions[k].IsOpen() && sessions[k].TableId == id;
    assert SetStatus(tables, id, st)[id].Status == st;
  }

  /** ... and marking a free table `IN_USE` leaves an `IN_USE` table with no
      session. */
  lemma StatusEndpointCanOccupyFreeTable(tables: map<Id, Table>, sessions: map<Id, TableSession>, id: Id)
    requires Occupied(tables, sessions) && id in tables && tables[id].Status != InUse
    ensures !Occupied(SetStatus(tables, id, InUse), sessions)
  {
    AvailableTableIsFree(tables, sessions, id);
    assert SetStatus(tables, id, InUse)[id].Status == InUse;
  }
}
