/**
 * The point-of-sale screen (project/src/components/POS/POSSystem.tsx). Its three pieces
 * of session state become the fields of `PosSession`; the handlers become methods that
 * replace them. The global store is the value `AppState`: `completeOrder` receives it and
 * returns the state after its dispatches, applied through `AppContext.Reduce`.
 * The order id (`Date.now().toString()`) and the clock (`new Date()`) are parameters.
 */
module POSSystem {
  import opened Wrappers
  import opened Domain
  import opened OrderLines
  import OrderSummary
  import AppContext

  /** The table record `completeOrder` dispatches: available again, with no current order. */
  function Released(t: Table): (r: Table)
    ensures r.status == Available && r.currentOrder.None?
    ensures r.id == t.id && r.number == t.number && r.zone == t.zone && r.seats == t.seats
  {
    t.(status := Available, currentOrder := None)
  }

  /** The table id the order records: `selectedTable?.id`. */
  function TableRef(table: Option<Table>): (r: Option<Id>)
    ensures r.Some? <==> table.Some?
    ensures table.Some? ==> r.value == table.value.id
  {
    match table
    case None => None
    case Some(t) => Some(t.id)
  }

  /**
   * The order record built by `completeOrder`: the draft's lines, the subtotal as the sum
   * of line totals, VAT at 10 % of it, the two summed, status completed, the waiter taken
   * from the signed-in user, and both dates from the same clock reading.
   */
  function BuildOrder(draft: seq<OrderItem>, table: Option<Table>, zone: Zone, waiter: User,
                      orderId: Id, now: Timestamp): (o: Order)
    ensures o.id == orderId && o.items == draft && o.status == Completed
    ensures o.tableId == TableRef(table) && o.zone == zone
    ensures o.waiterId == waiter.id && o.waiterName == waiter.name
    ensures o.createdAt == now && o.completedAt == Some(now)
  {
    var subtotal := OrderSummary.Subtotal(draft);
    var vatAmount := subtotal * OrderSummary.VatRate;
    Order(orderId, TableRef(table), zone, draft, subtotal, vatAmount, subtotal + vatAmount,
          Completed, waiter.id, waiter.name, now, Some(now))
  }

  /** The figures `completeOrder` stores are the ones the order summary panel displays. */
  lemma StoredTotalsAreDisplayed(draft: seq<OrderItem>, table: Option<Table>, zone: Zone, waiter: User,
                                 orderId: Id, now: Timestamp)
    ensures var o := BuildOrder(draft, table, zone, waiter, orderId, now);
            OrderSummary.Totals(o.subtotal, o.vatAmount, o.total) == OrderSummary.ComputeTotals(draft)
  {
  }

  /**
   * The store after `completeOrder`'s dispatches: nothing for an empty draft; otherwise
   * `ADD_ORDER` with the built order, then `UPDATE_TABLE` with the released table when one
   * is selected.
   */
  function Finalize(store: AppContext.AppState, draft: seq<OrderItem>, table: Option<Table>, zone: Zone,
                    orderId: Id, now: Timestamp): AppContext.AppState
    requires store.currentUser.Some?
  {
    if draft == [] then store
    else
      var order := BuildOrder(draft, table, zone, store.currentUser.value, orderId, now);
      var added := AppContext.Reduce(store, AppContext.AddOrder(order));
      if table.Some? then AppContext.Reduce(added, AppContext.UpdateTable(Released(table.value)))
      else added
  }

  /** Completing an empty draft dispatches nothing. */
  lemma FinalizeEmptyDraft(store: AppContext.AppState, table: Option<Table>, zone: Zone,
                           orderId: Id, now: Timestamp)
    requires store.currentUser.Some?
    ensures Finalize(store, [], table, zone, orderId, now) == store
  {
  }

  /**
   * Completing a non-empty draft appends exactly one order at the end of the order list:
   * a completed order holding the draft, with the displayed totals, the table, the zone and
   * the signed-in waiter; the earlier orders are unchanged.
   */
  lemma FinalizeAppendsOrder(store: AppContext.AppState, draft: seq<OrderItem>, table: Option<Table>,
                             zone: Zone, orderId: Id, now: Timestamp)
    requires store.currentUser.Some? && draft != []
    ensures var next := Finalize(store, draft, table, zone, orderId, now);
            var o := next.orders[|next.orders| - 1];
            && |next.orders| == |store.orders| + 1
            && next.orders[..|store.orders|] == store.orders
            && o.id == orderId && o.items == draft && o.status == Completed
            && OrderSummary.Totals(o.subtotal, o.vatAmount, o.total) == OrderSummary.ComputeTotals(draft)
            && o.tableId == TableRef(table) && o.zone == zone
            && o.waiterId == store.currentUser.value.id && o.waiterName == store.currentUser.value.name
  {
    var order := BuildOrder(draft, table, zone, store.currentUser.value, orderId, now);
    var added := AppContext.Reduce(store, AppContext.AddOrder(order));
    AppContext.AddAppends(store, AppContext.AddOrder(order));
    StoredTotalsAreDisplayed(draft, table, zone, store.currentUser.value, orderId, now);
    if table.Some? {
      var next := AppContext.Reduce(added, AppContext.UpdateTable(Released(table.value)));
      assert next.orders == added.orders by {
        assert !AppContext.Writes(AppContext.UpdateTable(Released(table.value)), AppContext.OrdersField);
      }
    }
  }

  /**
   * Completing a non-empty draft with a selected table releases it: every store table with
   * that id becomes the released copy of the selected table, every other one is unchanged.
   * Without a selected table the table list is untouched.
   */
  lemma FinalizeReleasesTable(store: AppContext.AppState, draft: seq<OrderItem>, table: Option<Table>,
                              zone: Zone, orderId: Id, now: Timestamp)
    requires store.currentUser.Some? && draft != []
    ensures var next := Finalize(store, draft, table, zone, orderId, now);
            && |next.tables| == |store.tables|
            && (table.None? ==> next.tables == store.tables)
            && (table.Some? ==> forall i :: 0 <= i < |store.tables| ==>
                  next.tables[i] == if store.tables[i].id == table.value.id
                                    then Released(table.value) else store.tables[i])
  {
    var order := BuildOrder(draft, table, zone, store.currentUser.value, orderId, now);
    var added := AppContext.Reduce(store, AppContext.AddOrder(order));
    assert added.tables == store.tables;
    if table.Some? {
      AppContext.UpdateReplaces(added, AppContext.UpdateTable(Released(table.value)));
    }
  }

  /** Completing an order touches only the order and table lists of the store. */
  lemma FinalizeFrame(store: AppContext.AppState, draft: seq<OrderItem>, table: Option<Table>,
                      zone: Zone, orderId: Id, now: Timestamp)
    requires store.currentUser.Some?
    ensures var next := Finalize(store, draft, table, zone, orderId, now);
            && next.currentUser == store.currentUser && next.products == store.products
            && next.categories == store.categories && next.users == store.users
  {
  }

  /** The POS screen's session state. */
  class PosSession {
    var currentOrder: seq<OrderItem>
    var selectedTable: Option<Table>
    var activeZone: Zone

    /** The draft invariant every handler keeps. */
    ghost predicate Valid()
      reads this
    {
      WellFormed(currentOrder)
    }

    /** An empty draft, no table, the terrace zone. */
    constructor()
      ensures currentOrder == [] && selectedTable.None? && activeZone == Terraza
      ensures Valid()
    {
      currentOrder := [];
      selectedTable := None;
      activeZone := Terraza;
    }

    /** `addToOrder(productId)`, as the product selector's tile click calls it. */
    method AddToOrder(catalog: seq<Product>, productId: Id)
      requires Valid()
      modifies this
      ensures currentOrder == OrderLines.AddToOrder(catalog, old(currentOrder), productId)
      ensures selectedTable == old(selectedTable) && activeZone == old(activeZone)
      ensures Valid()
    {
      AddToOrderWellFormed(catalog, currentOrder, productId);
      currentOrder := OrderLines.AddToOrder(catalog, currentOrder, productId);
    }

    /** `updateQuantity(productId, quantity)`, as the order summary's buttons call it. */
    method UpdateQuantity(productId: Id, quantity: int)
      requires Valid()
      modifies this
      ensures currentOrder == OrderLines.UpdateQuantity(old(currentOrder), productId, quantity)
      ensures selectedTable == old(selectedTable) && activeZone == old(activeZone)
      ensures Valid()
    {
      UpdateQuantityWellFormed(currentOrder, productId, quantity);
      currentOrder := OrderLines.UpdateQuantity(currentOrder, productId, quantity);
    }

    /** `setSelectedTable`, which the table view calls with the clicked table. */
    method SelectTable(table: Table)
      requires Valid()
      modifies this
      ensures selectedTable == Some(table)
      ensures currentOrder == old(currentOrder) && activeZone == old(activeZone)
      ensures Valid()
    {
      selectedTable := Some(table);
    }

    /** The two zone buttons: `setActiveZone('terraza')` and `setActiveZone('barra')`. */
    method SetZone(zone: Zone)
      requires Valid()
      modifies this
      ensures activeZone == zone
      ensures currentOrder == old(currentOrder) && selectedTable == old(selectedTable)
      ensures Valid()
    {
      activeZone := zone;
    }

    /**
     * `completeOrder()`: with an empty draft nothing happens; otherwise the order is
     * stored, the selected table released, and the draft and table selection cleared.
     * The signed-in user is non-null whenever the POS screen is shown.
     */
    method CompleteOrder(store: AppContext.AppState, orderId: Id, now: Timestamp)
      returns (next: AppContext.AppState)
      requires Valid() && store.currentUser.Some?
      modifies this
      ensures next == Finalize(store, old(currentOrder), old(selectedTable), old(activeZone), orderId, now)
      ensures old(currentOrder) == [] ==>
                currentOrder == [] && selectedTable == old(selectedTable) && next == store
      ensures old(currentOrder) != [] ==> currentOrder == [] && selectedTable.None?
      ensures activeZone == old(activeZone)
      ensures Valid()
    {
      if |currentOrder| == 0 {
        return store;
      }
      var order := BuildOrder(currentOrder, selectedTable, activeZone, store.currentUser.value, orderId, now);
      next := AppContext.Reduce(store, AppContext.AddOrder(order));
      if selectedTable.Some? {
        next := AppContext.Reduce(next, AppContext.UpdateTable(Released(selectedTable.value)));
      }
      currentOrder := [];
      selectedTable := None;
    }
  }
}
