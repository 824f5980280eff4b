/**
 * An inventory row: how many units of one product or product item are in
 * stock and how many of those are reserved for pending orders, with the
 * derived available stock and the two stock predicates.
 */
module Inventory {
  /** `InventoryActionType`. */
  datatype ActionType = StockIn | StockOut | Adjustment | Transfer | Damaged | Returned

  /** The `inventory` table's row; `itemType`/`itemId` are `inventoriable_type`/`inventoriable_id`. */
  datatype InventoryRow = InventoryRow(id: nat, itemType: string, itemId: string, quantity: int, reserved: int)

  /** The table's three check constraints. */
  predicate CheckConstraints(r: InventoryRow)
  {
    r.quantity >= 0 && r.reserved >= 0 && r.reserved <= r.quantity
  }

  /** `available_stock`. */
  function AvailableStock(r: InventoryRow): (n: int)
    ensures n + r.reserved == r.quantity
    ensures CheckConstraints(r) ==> 0 <= n <= r.quantity
  {
    r.quantity - r.reserved
  }

  /** `can_reserve`. */
  function CanReserve(r: InventoryRow, quantity: int): (b: bool)
    ensures CheckConstraints(r) && quantity >= 0 ==> (b <==> CheckConstraints(r.(reserved := r.reserved + quantity)))
  {
    AvailableStock(r) >= quantity
  }

  /** `is_in_stock`. */
  function IsInStock(r: InventoryRow): (b: bool)
    ensures b <==> CanReserve(r, 1)
    ensures CheckConstraints(r) && b ==> r.quantity > r.reserved >= 0
  {
    AvailableStock(r) > 0
  }

  /** A row that meets the check constraints has between none and all of its stock available. */
  lemma AvailableBounds(r: InventoryRow)
    requires CheckConstraints(r)
    ensures 0 <= AvailableStock(r) <= r.quantity
    ensures AvailableStock(r) + r.reserved == r.quantity
  {
  }

  /** Being in stock is being able to reserve one unit. */
  lemma InStockIsOneReservable(r: InventoryRow)
    ensures IsInStock(r) <==> CanReserve(r, 1)
  {
  }

  /** Reserving a non-negative quantity the row can reserve keeps the check constraints. */
  lemma ReserveKeepsConstraints(r: InventoryRow, q: int)
    requires CheckConstraints(r) && q >= 0 && CanReserve(r, q)
    ensures CheckConstraints(r.(reserved := r.reserved + q))
    ensures AvailableStock(r.(reserved := r.reserved + q)) == AvailableStock(r) - q
  {
  }
}
