/** The `menu_items` collection (app/data/repositories/menu_item.go): the
    stock that orders reserve and release. */
module MenuRepo {

  import opened Base
  import opened Entities
  import opened Listing

  const ACTIVE := "ACTIVE"

  /** `UpdateMenuItemQuantity`'s `$inc`: the signed delta is added to the
      stored quantity, with no lower bound; nothing else changes. */
  function AddStock(item: MenuItem, delta: int): (r: MenuItem)
    ensures r.Quantity == item.Quantity + delta
    ensures r.(Quantity := item.Quantity) == item
  {
    item.(Quantity := item.Quantity + delta)
  }

  /** Taking stock out and putting the same amount back restores the item. */
  lemma AddStockUndone(item: MenuItem, delta: int)
    ensures AddStock(AddStock(item, delta), -delta) == item
  {
  }

  /** Two increments add up. */
  lemma AddStockCombines(item: MenuItem, d1: int, d2: int)
    ensures AddStock(AddStock(item, d1), d2) == AddStock(item, d1 + d2)
  {
  }

  /** `UpdateMenuItemById`'s `$set`: every descriptive field, including the
      quantity and status, is written absolutely; the id and creation stamp
      are kept. */
  function OverwriteMenuItem(stored: MenuItem, item: MenuItem, now: real): (r: MenuItem)
    ensures r == item.(Id := stored.Id, CreatedBy := stored.CreatedBy, CreatedDate := stored.CreatedDate, UpdatedDate := now)
  {
    stored.(Name := item.Name, Category := item.Category, Price := item.Price,
            CostPrice := item.CostPrice, Quantity := item.Quantity, Unit := item.Unit,
            Status := item.Status, ImageUrl := item.ImageUrl,
            UpdatedBy := item.UpdatedBy, UpdatedDate := now)
  }

  /** The menu query's filter: the category, when one is given. */
  function InCategory(category: string): MenuItem -> bool {
    (m: MenuItem) => category == "" || m.Category == category
  }

  /** The low-stock query's filter: active items at or below the threshold. */
  function LowStockAt(threshold: int): MenuItem -> bool {
    (m: MenuItem) => m.Status == ACTIVE && m.Quantity <= threshold
  }

  function ByName(): (MenuItem, MenuItem) -> bool {
    ByString((m: MenuItem) => m.Name)
  }

  function ByQuantity(): (MenuItem, MenuItem) -> bool {
    ByReal((m: MenuItem) => m.Quantity as real, true)
  }

  /** The fields the low-stock query decodes. */
  function LowStockOf(m: MenuItem): LowStockMenuItem {
    LowStockMenuItem(m.Id, m.Name, m.Category, m.Quantity, m.Unit)
  }

  /** Each listed item decoded as its low-stock fields, in order. */
  function DecodeLowStock(found: seq<MenuItem>): (r: seq<LowStockMenuItem>)
    ensures |r| == |found| && forall i :: 0 <= i < |r| ==> r[i] == LowStockOf(found[i])
  {
    seq(|found|, i requires 0 <= i < |found| => LowStockOf(found[i]))
  }

  /** Decoding a sorted low-stock listing keeps its order and decodes exactly
      the low-stock items. */
  lemma LowStockDecoded(items: map<Id, MenuItem>, threshold: int, found: seq<MenuItem>)
    requires SortedBy(found, ByQuantity()) && ListsExactly(found, items, LowStockAt(threshold))
    ensures var r := DecodeLowStock(found);
            (forall i, j :: 0 <= i < j < |r| ==> r[i].Quantity <= r[j].Quantity)
            && (forall x :: x in r <==> exists k :: k in items && LowStockAt(threshold)(items[k]) && x == LowStockOf(items[k]))
            && (forall x :: x in r ==> x.Quantity <= threshold)
  {
    var r := DecodeLowStock(found);
    forall i, j | 0 <= i < j < |r| ensures r[i].Quantity <= r[j].Quantity {
      assert ByQuantity()(found[i], found[j]);
    }
    forall x ensures x in r <==> exists k :: k in items && LowStockAt(threshold)(items[k]) && x == LowStockOf(items[k]) {
      if x in r {
        var i :| 0 <= i < |r| && r[i] == x;
        assert found[i] in found;
        var k :| k in items && items[k] == found[i];
        assert LowStockAt(threshold)(items[k]);
      }
      if exists k :: k in items && LowStockAt(threshold)(items[k]) && x == LowStockOf(items[k]) {
        var k :| k in items && LowStockAt(threshold)(items[k]) && x == LowStockOf(items[k]);
        assert items[k] in items.Values;
        var i :| 0 <= i < |found| && found[i] == items[k];
        assert r[i] == x;
      }
    }
    forall x | x in r ensures x.Quantity <= threshold {
      var i :| 0 <= i < |r| && r[i] == x;
      assert found[i] in found;
    }
  }

  class MenuItemRepository {
    var items: map<Id, MenuItem>
    /** The id the next insert receives. */
    var nextId: Id

    ghost predicate Valid()
      reads this
    {
      nextId >= 1 && forall k | k in items :: items[k].Id == k && 1 <= k < nextId
    }

    constructor()
      ensures Valid() && items == map[]
    {
      items := map[];
      nextId := 1;
    }

    /** `GetMenuItemById`: the stored item, or not found. */
    function GetMenuItemById(id: Id): (r: Option<MenuItem>)
      reads this
      ensures r.Some? <==> id in items
      ensures r.Some? ==> r.value == items[id]
    {
      if id in items then Some(items[id]) else None
    }

    /** `GetMenuItems`: the items of the category (all items for an empty
        category), by name ascending. */
    method GetMenuItems(category: string) returns (r: seq<MenuItem>)
      requires Valid()
      ensures SortedBy(r, ByName())
      ensures ListsExactly(r, items, InCategory(category))
      ensures category == "" ==> forall m :: m in r <==> m in items.Values
    {
      ByStringIsTotalPreorder((m: MenuItem) => m.Name);
      r := SelectSorted(items, InCategory(category), ByName());
    }

    /** `GetLowStockMenuItems`: the active items with at most `threshold` in
        stock, fewest first, each decoded as its low-stock fields. */
    method GetLowStockMenuItems(threshold: int) returns (r: seq<LowStockMenuItem>)
      requires Valid()
      ensures forall i, j :: 0 <= i < j < |r| ==> r[i].Quantity <= r[j].Quantity
      ensures forall x :: x in r <==> exists k :: k in items && LowStockAt(threshold)(items[k]) && x == LowStockOf(items[k])
      ensures forall x :: x in r ==> x.Quantity <= threshold
      ensures |r| == CountMap(items, LowStockAt(threshold))
    {
      ByRealIsTotalPreorder((m: MenuItem) => m.Quantity as real, true);
      var found := SelectSorted(items, LowStockAt(threshold), ByQuantity());
      ListingCount(found, items, LowStockAt(threshold));
      r := DecodeLowStock(found);
      LowStockDecoded(items, threshold, found);
    }

    /** `CreateMenuItem`: a fresh id, both dates set to now, the rest as
        given. A failed insert stores nothing. */
    method CreateMenuItem(item: MenuItem, now: real, fault: Option<string>) returns (created: MenuItem, err: Option<string>)
      requires Valid()
      modifies this
      ensures Valid() && err == fault
      ensures created == item.(Id := old(nextId), CreatedDate := now, UpdatedDate := now)
      ensures created.Id !in old(items)
      ensures fault.None? ==> items == old(items)[created.Id := created]
      ensures fault.Some? ==> items == old(items)
    {
      created := item.(Id := nextId, CreatedDate := now, UpdatedDate := now);
      err := fault;
      if fault.None? {
        items := items[created.Id := created];
      }
      nextId := nextId + 1;
    }

    /** `UpdateMenuItemById`: rewrites the item with that id; an id that
        matches nothing changes nothing. */
    method UpdateMenuItemById(id: Id, item: MenuItem, now: real, fault: Option<string>) returns (err: Option<string>)
      requires Valid()
      modifies this
      ensures Valid() && nextId == old(nextId) && err == fault
      ensures fault.None? && id in old(items) ==> items == old(items)[id := OverwriteMenuItem(old(items)[id], item, now)]
      ensures fault.Some? || id !in old(items) ==> items == old(items)
    {
      err := fault;
      if fault.None? && id in items {
        items := items[id := OverwriteMenuItem(items[id], item, now)];
      }
    }

    /** `DeleteMenuItemById`: removes the item with that id only. */
    method DeleteMenuItemById(id: Id, fault: Option<string>) returns (err: Option<string>)
      requires Valid()
      modifies this
      ensures Valid() && nextId == old(nextId) && err == fault
      ensures fault.None? ==> items == old(items) - {id}
      ensures fault.Some? ==> items == old(items)
    {
      err := fault;
      if fault.None? {
        items := items - {id};
      }
    }

    /** `UpdateMenuItemQuantity`: adds `delta` to the stock of the item with
        that id; an id that matches nothing changes nothing. */
    method UpdateMenuItemQuantity(id: Id, delta: int, fault: Option<string>) returns (err: Option<string>)
      requires Valid()
      modifies this
      ensures Valid() && nextId == old(nextId) && err == fault
      ensures fault.None? && id in old(items) ==> items == old(items)[id := AddStock(old(items)[id], delta)]
      ensures fault.Some? || id !in old(items) ==> items == old(items)
    {
      err := fault;
      if fault.None? && id in items {
        items := items[id := AddStock(items[id], delta)];
      }
    }
  }
}
