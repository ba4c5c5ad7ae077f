/** The order handlers of app/featues/table_order/api.go: placing an order
    reserves stock from its menu item, deleting it releases the stock. */
module OrderApi {

  import opened Base
  import opened Entities
  import opened ErrCode
  import opened MenuRepo
  import opened Ledgers

  const SUCCESS := "success"

  /** `ObjectIDFromHex` with its error dropped: a malformed id becomes the
      zero id, which no stored record carries. */
  function IdOrNil(arg: IdArg): Id {
    arg.GetOr(NilId)
  }

  /** The order the POST handler builds: the menu item's name, price and cost
      price as they are now, and the line total `price × qty − discount`
      floored at zero. */
  function OrderLine(item: MenuItem, req: OrderRequest, user: string): (o: TableOrder)
    ensures o.SessionId == IdOrNil(req.SessionId) && o.MenuItemId == IdOrNil(req.MenuItemId)
    ensures o.Name == item.Name && o.Price == item.Price && o.CostPrice == item.CostPrice
    ensures o.Quantity == req.Quantity && o.Discount == req.Discount && o.CreatedBy == user
    ensures o.Total >= 0.0 && o.Total >= item.Price * req.Quantity as real - req.Discount
    ensures o.Total == 0.0 || o.Total == item.Price * req.Quantity as real - req.Discount
  {
    TableOrder(NilId, IdOrNil(req.SessionId), IdOrNil(req.MenuItemId), item.Name, item.Price, item.CostPrice,
               req.Quantity, req.Discount, ClampAtZero(item.Price * req.Quantity as real - req.Discount), user, ZeroTime)
  }

  /** POST: place an order. Neither the session nor the menu item's status
      is checked; the stock is taken only once the order is stored, and a
      placed order never leaves its item with negative stock. */
  method PlaceOrder(orders: OrderRepository, menu: MenuItemRepository, body: Body<OrderRequest>,
                    user: string, now: real, fault: Option<string>) returns (res: Result<TableOrder>)
    requires orders.Valid() && menu.Valid()
    modifies orders, menu
    ensures orders.Valid() && menu.Valid()
    ensures body.Unbound? ==> res == BadRequest(TO_BAD_REQUEST_001, body.reason)
    ensures body.Bound? && IdOrNil(body.value.MenuItemId) !in old(menu.items) ==>
              res == BadRequest(TO_BAD_REQUEST_002, "menu item not found")
    ensures body.Bound? && IdOrNil(body.value.MenuItemId) in old(menu.items)
            && old(menu.items)[IdOrNil(body.value.MenuItemId)].Quantity < body.value.Quantity ==>
              res == BadRequest(TO_BAD_REQUEST_002, "insufficient stock")
    ensures res.Err? ==> orders.orders == old(orders.orders) && menu.items == old(menu.items)
    ensures body.Bound? && IdOrNil(body.value.MenuItemId) in old(menu.items)
            && old(menu.items)[IdOrNil(body.value.MenuItemId)].Quantity >= body.value.Quantity ==>
              var mid := IdOrNil(body.value.MenuItemId);
              var o := OrderLine(old(menu.items)[mid], body.value, user).(Id := old(orders.nextId), CreatedDate := now);
              (fault.Some? ==> res == BadRequest(TO_BAD_REQUEST_002, fault.value))
              && (fault.None? ==> res == Ok(o) && o.Id !in old(orders.orders)
                                  && orders.orders == old(orders.orders)[o.Id := o]
                                  && menu.items == old(menu.items)[mid := AddStock(old(menu.items)[mid], -body.value.Quantity)]
                                  && menu.items[mid].Quantity >= 0)
  {
    if body.Unbound? {
      return BadRequest(TO_BAD_REQUEST_001, body.reason);
    }
    var req := body.value;
    var menuItemId := IdOrNil(req.MenuItemId);
    var menuItem := menu.GetMenuItemById(menuItemId);
    if menuItem.None? {
      return BadRequest(TO_BAD_REQUEST_002, "menu item not found");
    }
    if menuItem.value.Quantity < req.Quantity {
      return BadRequest(TO_BAD_REQUEST_002, "insufficient stock");
    }
    var order := OrderLine(menuItem.value, req, user);
    var created, err := orders.CreateTableOrder(order, now, fault);
    if err.Some? {
      return BadRequest(TO_BAD_REQUEST_002, err.value);
    }
    var _ := menu.UpdateMenuItemQuantity(menuItemId, -req.Quantity, None);
    res := Ok(created);
  }

  /** DELETE: remove an order and give its quantity back to its menu item
      (if that item is still stored). */
  method DeleteOrder(orders: OrderRepository, menu: MenuItemRepository, orderId: IdArg, fault: Option<string>)
    returns (res: Result<string>)
    requires orders.Valid() && menu.Valid()
    modifies orders, menu
    ensures orders.Valid() && menu.Valid()
    ensures orderId.None? ==> res == BadRequest(TO_BAD_REQUEST_001, "invalid orderId")
    ensures orderId.Some? && orderId.value !in old(orders.orders) ==> res == BadRequest(TO_BAD_REQUEST_002, "order not found")
    ensures res.Err? ==> orders.orders == old(orders.orders) && menu.items == old(menu.items)
    ensures orderId.Some? && orderId.value in old(orders.orders) ==>
              var o := old(orders.orders)[orderId.value];
              (fault.Some? ==> res == BadRequest(TO_BAD_REQUEST_002, fault.value))
              && (fault.None? ==> res == Ok(SUCCESS) && orders.orders == old(orders.orders) - {orderId.value}
                                  && (o.MenuItemId in old(menu.items) ==>
                                        menu.items == old(menu.items)[o.MenuItemId := AddStock(old(menu.items)[o.MenuItemId], o.Quantity)])
                                  && (o.MenuItemId !in old(menu.items) ==> menu.items == old(menu.items)))
  {
    if orderId.None? {
      return BadRequest(TO_BAD_REQUEST_001, "invalid orderId");
    }
    var order := orders.GetTableOrderById(orderId.value);
    if order.None? {
      return BadRequest(TO_BAD_REQUEST_002, "order not found");
    }
    var err := orders.DeleteTableOrder(orderId.value, fault);
    if err.Some? {
      return BadRequest(TO_BAD_REQUEST_002, err.value);
    }
    var _ := menu.UpdateMenuItemQuantity(order.value.MenuItemId, order.value.Quantity, None);
    res := Ok(SUCCESS);
  }

  /** Placing an order and then deleting it leaves the orders and the stock
      exactly as they were. */
  method PlaceThenDelete(orders: OrderRepository, menu: MenuItemRepository, req: OrderRequest, user: string, now: real)
    returns (placed: Result<TableOrder>, deleted: Result<string>)
    requires orders.Valid() && menu.Valid()
    requires IdOrNil(req.MenuItemId) in menu.items && menu.items[IdOrNil(req.MenuItemId)].Quantity >= req.Quantity
    modifies orders, menu
    ensures placed.Ok? && deleted == Ok(SUCCESS)
    ensures orders.orders == old(orders.orders) && menu.items == old(menu.items)
  {
    ghost var stock := menu.items[IdOrNil(req.MenuItemId)];
    placed := PlaceOrder(orders, menu, Bound(req), user, now, None);
    AddStockUndone(stock, -req.Quantity);
    deleted := DeleteOrder(orders, menu, Some(placed.value.Id), None);
  }
}
