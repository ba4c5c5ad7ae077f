/** The `tables` collection (app/data/repositories/table.go). */
module TableRepo {

  import opened Base
  import opened Entities
  import opened Listing

  /** `UpdateTableById`'s `$set`: name, type, rate, description and the
      update stamp are written; the id, status and creation stamp are kept. */
  function OverwriteTable(stored: Table, t: Table, now: real): (r: Table)
    ensures r.Id == stored.Id && r.Status == stored.Status
    ensures r.CreatedBy == stored.CreatedBy && r.CreatedDate == stored.CreatedDate
    ensures r.Name == t.Name && r.Type == t.Type && r.RatePerHour == t.RatePerHour
    ensures r.Description == t.Description && r.UpdatedBy == t.UpdatedBy && r.UpdatedDate == now
  {
    stored.(Name := t.Name, Type := t.Type, RatePerHour := t.RatePerHour,
            Description := t.Description, UpdatedBy := t.UpdatedBy, UpdatedDate := now)
  }

  class TableRepository {
    var tables: map<Id, Table>
    /** The id the next insert receives. */
    var nextId: Id

    ghost predicate Valid()
      reads this
    {
      nextId >= 1 && forall k | k in tables :: tables[k].Id == k && 1 <= k < nextId
    }

    constructor()
      ensures Valid() && tables == map[]
    {
      tables := map[];
      nextId := 1;
    }

    /** `GetTableById`: the stored table, or not found. */
    function GetTableById(id: Id): (r: Option<Table>)
      reads this
      ensures r.Some? <==> id in tables
      ensures r.Some? ==> r.value == tables[id]
    {
      if id in tables then Some(tables[id]) else None
    }

    /** `GetTables`: every table, by name ascending. */
    method GetTables() returns (r: seq<Table>)
      requires Valid()
      ensures SortedBy(r, ByString((t: Table) => t.Name))
      ensures ListsExactly(r, tables, (t: Table) => true)
    {
      ByStringIsTotalPreorder((t: Table) => t.Name);
      r := SelectSorted(tables, (t: Table) => true, ByString((t: Table) => t.Name));
    }

    /** `CreateTable`: a fresh id, both dates set to now, the rest as given.
        A failed insert stores nothing; the table is returned either way. */
    method CreateTable(t: Table, now: real, fault: Option<string>) returns (created: Table, err: Option<string>)
      requires Valid()
      modifies this
      ensures Valid()
      ensures created == t.(Id := old(nextId), CreatedDate := now, UpdatedDate := now)
      ensures created.Id !in old(tables)
      ensures err == fault
      ensures fault.None? ==> tables == old(tables)[created.Id := created]
      ensures fault.Some? ==> tables == old(tables)
    {
      created := t.(Id := nextId, CreatedDate := now, UpdatedDate := now);
      err := fault;
      if fault.None? {
        tables := tables[created.Id := created];
      }
      nextId := nextId + 1;
    }

    /** `UpdateTableById`: rewrites the `$set` fields of the table with that
        id; an id that matches nothing changes nothing and is no error. */
    method UpdateTableById(id: Id, t: Table, now: real, fault: Option<string>) returns (err: Option<string>)
      requires Valid()
      modifies this
      ensures Valid() && nextId == old(nextId) && err == fault
      ensures fault.None? && id in old(tables) ==> tables == old(tables)[id := OverwriteTable(old(tables)[id], t, now)]
      ensures fault.Some? || id !in old(tables) ==> tables == old(tables)
    {
      err := fault;
      if fault.None? && id in tables {
        tables := tables[id := OverwriteTable(tables[id], t, now)];
      }
    }

    /** `UpdateTableStatus`: writes only the status, whatever the string. */
    method UpdateTableStatus(id: Id, status: string, fault: Option<string>) returns (err: Option<string>)
      requires Valid()
      modifies this
      ensures Valid() && nextId == old(nextId) && err == fault
      ensures fault.None? && id in old(tables) ==> tables == old(tables)[id := old(tables)[id].(Status := TableStatusOf(status))]
      ensures fault.Some? || id !in old(tables) ==> tables == old(tables)
    {
      err := fault;
      if fault.None? && id in tables {
        tables := tables[id := tables[id].(Status := TableStatusOf(status))];
      }
    }

    /** `DeleteTableById`: removes the table with that id and nothing else. */
    method DeleteTableById(id: Id, fault: Option<string>) returns (err: Option<string>)
      requires Valid()
      modifies this
      ensures Valid() && nextId == old(nextId) && err == fault
      ensures fault.None? ==> tables == old(tables) - {id}
      ensures fault.Some? ==> tables == old(tables)
    {
      err := fault;
      if fault.None? {
        tables := tables - {id};
      }
    }
  }
}
