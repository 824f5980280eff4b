/**
 * The inventory service over an in-memory `inventory` table and an action
 * log. Each stock operation runs in a transaction: it either commits all of
 * its changes or, when anything raises (a rule of the service, a schema
 * validation, a table check constraint at flush), rolls all of them back.
 *
 * The lookup by item is the AND of type and id; see `ItemLookupAsWritten`
 * for the lookup the repository actually performs.
 */
module InventoryService {
  import opened Wrappers
  import opened Inventory

  datatype InventoryError =
    | AlreadyExists          // create_inventory: the item already has an inventory
    | InsufficientStock      // adjust_stock: the quantity would fall below zero
    | NotFound               // reserve/release: the item has no inventory
    | InsufficientAvailable  // reserve_stock: can_reserve fails
    | CannotReleaseMore      // release_stock: the reserved stock would fall below zero
    | ValidationError        // a schema rejected a value (ge=0 stock, gt=0 action quantity)
    | IntegrityError         // a check constraint failed at flush
    | MultipleResultsFound   // one_or_none met more than one row

  /** `InventoryAction`. */
  datatype InventoryAction = InventoryAction(inventoryId: nat, actionType: ActionType, quantity: int, reason: Option<string>)

  /** The two tables and the next free row id. */
  datatype Db = Db(rows: seq<InventoryRow>, actions: seq<InventoryAction>, nextId: nat)

  /** Every row meets the check constraints, the `uq_inventory_item` constraint holds and ids are distinct and taken. */
  predicate ValidDb(db: Db)
  {
    (forall i :: 0 <= i < |db.rows| ==> CheckConstraints(db.rows[i]) && db.rows[i].id < db.nextId)
    && (forall i, j :: 0 <= i < j < |db.rows| ==>
          db.rows[i].id != db.rows[j].id && !IsItem(db.rows[j], db.rows[i].itemType, db.rows[i].itemId))
  }

  /**
   * Whether a row answers a lookup by item: with `anyField` the conditions on
   * type and id are OR-ed (`find_one_by_or_none`), otherwise AND-ed.
   */
  predicate Selects(r: InventoryRow, itemType: string, itemId: string, anyField: bool)
  {
    if anyField then r.itemType == itemType || r.itemId == itemId
    else r.itemType == itemType && r.itemId == itemId
  }

  /** The positions of the rows a lookup selects, in table order. */
  function MatchIndices(rows: seq<InventoryRow>, itemType: string, itemId: string, anyField: bool): (m: seq<nat>)
    ensures forall k :: 0 <= k < |m| ==> m[k] < |rows| && Selects(rows[m[k]], itemType, itemId, anyField)
    ensures forall i :: 0 <= i < |rows| && Selects(rows[i], itemType, itemId, anyField) ==> i in m
    ensures forall a, b :: 0 <= a < b < |m| ==> m[a] < m[b]
  {
    if rows == [] then []
    else
      var init := MatchIndices(rows[..|rows| - 1], itemType, itemId, anyField);
      assert forall i :: 0 <= i < |rows| - 1 ==> rows[..|rows| - 1][i] == rows[i];
      init + (if Selects(rows[|rows| - 1], itemType, itemId, anyField) then [|rows| - 1] else [])
  }

  /** `result.one_or_none()`. */
  function OneOrNone(m: seq<nat>): (r: Result<Option<nat>, InventoryError>)
    ensures r == Ok(None) <==> m == []
    ensures r.Err? <==> |m| > 1
    ensures |m| == 1 ==> r == Ok(Some(m[0]))
  {
    if m == [] then Ok(None) else if |m| == 1 then Ok(Some(m[0])) else Err(MultipleResultsFound)
  }

  predicate IsItem(r: InventoryRow, itemType: string, itemId: string)
  {
    r.itemType == itemType && r.itemId == itemId
  }

  /** `get_by_item`: the one row of the item, if any. */
  function ItemLookup(rows: seq<InventoryRow>, itemType: string, itemId: string): (r: Result<Option<nat>, InventoryError>)
    ensures r.Ok? && r.value.Some? ==> r.value.value < |rows| && IsItem(rows[r.value.value], itemType, itemId)
  {
    OneOrNone(MatchIndices(rows, itemType, itemId, false))
  }

  /**
   * The lookup `get_by_item` performs as written: `find_one_by_or_none` ORs
   * the type condition with the id condition.
   */
  function ItemLookupAsWritten(rows: seq<InventoryRow>, itemType: string, itemId: string): (r: Result<Option<nat>, InventoryError>)
    ensures r == Ok(None) <==> forall i :: 0 <= i < |rows| ==> rows[i].itemType != itemType && rows[i].itemId != itemId
    ensures r.Ok? && r.value.Some? ==>
      r.value.value < |rows| && (rows[r.value.value].itemType == itemType || rows[r.value.value].itemId == itemId)
  {
    var m := MatchIndices(rows, itemType, itemId, true);
    assert m != [] ==> Selects(rows[m[0]], itemType, itemId, true);
    OneOrNone(m)
  }

  /** As written, an item without inventory is handed another item's inventory of the same type. */
  lemma OrLookupFindsOtherItem()
    ensures var rows := [InventoryRow(0, "Product", "A", 5, 0)];
      ItemLookupAsWritten(rows, "Product", "B") == Ok(Some(0))
      && !IsItem(rows[0], "Product", "B")
      && ItemLookup(rows, "Product", "B") == Ok(None)
  {
    var rows := [InventoryRow(0, "Product", "A", 5, 0)];
    assert rows[..0] == [];
    assert "A"[0] != "B"[0];
  }

  /** In a valid table the lookup never fails, and finds exactly the row of the item. */
  lemma ItemLookupExact(db: Db, itemType: string, itemId: string)
    requires ValidDb(db)
    ensures ItemLookup(db.rows, itemType, itemId).Ok?
    ensures var found := ItemLookup(db.rows, itemType, itemId).value;
      (found.Some? ==> found.value < |db.rows| && IsItem(db.rows[found.value], itemType, itemId))
      && (found.None? ==> forall i :: 0 <= i < |db.rows| ==> !IsItem(db.rows[i], itemType, itemId))
  {
    var m := MatchIndices(db.rows, itemType, itemId, false);
    FirstTwo(m);
    if |m| > 1 {
      assert false;
    }
  }

  /** Names the first two elements of a sequence that has them. */
  lemma FirstTwo(m: seq<nat>)
    ensures |m| > 1 ==> m[0] in m && m[1] in m
  {
  }

  /** The row after `update(id, {quantity_in_stock, reserved_stock})`. */
  function WithStock(r: InventoryRow, quantity: int, reserved: int): InventoryRow
  {
    r.(quantity := quantity, reserved := reserved)
  }

  /** Writing new stock levels to row `i`, as the update's flush does: both levels pass `ge=0`, then the check constraints. */
  function WriteStock(db: Db, i: nat, quantity: int, reserved: int): (r: Result<Db, InventoryError>)
    requires i < |db.rows|
  {
    if quantity < 0 || reserved < 0 then Err(ValidationError)
    else if !CheckConstraints(WithStock(db.rows[i], quantity, reserved)) then Err(IntegrityError)
    else Ok(db.(rows := db.rows[i := WithStock(db.rows[i], quantity, reserved)]))
  }

  /** `inventory_repository.create`: the new row goes at the end of the table, subject to the check constraints. */
  function InsertRow(db: Db, itemType: string, itemId: string, quantity: int, reserved: int): (r: Result<(Db, nat), InventoryError>)
  {
    var row := InventoryRow(db.nextId, itemType, itemId, quantity, reserved);
    if !CheckConstraints(row) then Err(IntegrityError)
    else Ok((Db(db.rows + [row], db.actions, db.nextId + 1), |db.rows|))
  }

  /** `create_inventory`: refuses an item that already has an inventory. */
  function CreateStep(db: Db, itemType: string, itemId: string, quantity: int, reserved: int): (Result<InventoryRow, InventoryError>, Db)
    requires quantity >= 0 && reserved >= 0
  {
    match ItemLookup(db.rows, itemType, itemId)
    case Err(e) => (Err(e), db)
    case Ok(found) =>
      if found.Some? then (Err(AlreadyExists), db)
      else match InsertRow(db, itemType, itemId, quantity, reserved)
        case Err(e) => (Err(e), db)
        case Ok((db', i)) => (Ok(db'.rows[i]), db')
  }

  /** Python's `abs`. */
  function Abs(n: int): nat { if n < 0 then -n else n }

  /**
   * `adjust_stock`: finds the inventory (creating an empty one when the item
   * has none), changes its quantity by `change`, keeps its reservations, and
   * logs one action of `|change|` units. Any failure rolls back to `db`.
   */
  function AdjustStep(db: Db, itemType: string, itemId: string, change: int, actionType: ActionType, reason: Option<string>): (Result<InventoryRow, InventoryError>, Db)
  {
    match ItemLookup(db.rows, itemType, itemId)
    case Err(e) => (Err(e), db)
    case Ok(found) =>
      if found.Some? then AdjustAt(db, db, found.value, change, actionType, reason)
      else AdjustAt(db, WithEmptyRow(db, itemType, itemId), |db.rows|, change, actionType, reason)
  }

  /** The rest of `adjust_stock` once row `i` of `db1` is the item's inventory; a failure rolls back to `db`. */
  function AdjustAt(db: Db, db1: Db, i: nat, change: int, actionType: ActionType, reason: Option<string>): (Result<InventoryRow, InventoryError>, Db)
    requires i < |db1.rows|
  {
      var row := db1.rows[i];
      var newQuantity := row.quantity + change;
      if newQuantity < 0 then (Err(InsufficientStock), db)
      else match WriteStock(db1, i, newQuantity, row.reserved)
        case Err(e) => (Err(e), db)
        case Ok(db2) =>
          if Abs(change) == 0 then (Err(ValidationError), db)
          else (Ok(db2.rows[i]), db2.(actions := db2.actions + [InventoryAction(row.id, actionType, Abs(change), reason)]))
  }

  /** The table after `create_inventory` has added a zero-stock row for the item. */
  function WithEmptyRow(db: Db, itemType: string, itemId: string): Db
  {
    Db(db.rows + [InventoryRow(db.nextId, itemType, itemId, 0, 0)], db.actions, db.nextId + 1)
  }

  /** For an item without inventory, `create_inventory` with zero stock yields exactly that table. */
  lemma EmptyRowIsCreated(db: Db, itemType: string, itemId: string)
    requires ItemLookup(db.rows, itemType, itemId) == Ok(None)
    ensures CreateStep(db, itemType, itemId, 0, 0).1 == WithEmptyRow(db, itemType, itemId)
    ensures CreateStep(db, itemType, itemId, 0, 0).0 == Ok(InventoryRow(db.nextId, itemType, itemId, 0, 0))
  {
  }

  /** `reserve_stock`: adds `q` to the reservations when `can_reserve(q)`; the quantity is unchanged. */
  function ReserveStep(db: Db, itemType: string, itemId: string, q: int): (Result<InventoryRow, InventoryError>, Db)
  {
    match ItemLookup(db.rows, itemType, itemId)
    case Err(e) => (Err(e), db)
    case Ok(found) =>
      if found.None? then (Err(NotFound), db)
      else
        var i := found.value;
        var row := db.rows[i];
        if !CanReserve(row, q) then (Err(InsufficientAvailable), db)
        else match WriteStock(db, i, row.quantity, row.reserved + q)
          case Err(e) => (Err(e), db)
          case Ok(db') => (Ok(db'.rows[i]), db')
  }

  /** `release_stock`: takes `q` off the reservations, refusing to go below zero; the quantity is unchanged. */
  function ReleaseStep(db: Db, itemType: string, itemId: string, q: int): (Result<InventoryRow, InventoryError>, Db)
  {
    match ItemLookup(db.rows, itemType, itemId)
    case Err(e) => (Err(e), db)
    case Ok(found) =>
      if found.None? then (Err(NotFound), db)
      else
        var i := found.value;
        var row := db.rows[i];
        var newReserved := row.reserved - q;
        if newReserved < 0 then (Err(CannotReleaseMore), db)
        else match WriteStock(db, i, row.quantity, newReserved)
          case Err(e) => (Err(e), db)
          case Ok(db') => (Ok(db'.rows[i]), db')
  }

  /** `InventoryService` with its two repositories' tables. */
  class InventoryStore {
    var rows: seq<InventoryRow>
    var actions: seq<InventoryAction>
    var nextId: nat

    function State(): Db
      reads this
    {
      Db(rows, actions, nextId)
    }

    /** The tables meet their constraints. */
    predicate Valid()
      reads this
    {
      ValidDb(State())
    }

    constructor ()
      ensures State() == Db([], [], 0) && Valid()
    {
      rows := [];
      actions := [];
      nextId := 0;
    }

    /** Brings the tables back to `db`, as a rollback does. */
    method Restore(db: Db)
      requires ValidDb(db)
      modifies this
      ensures State() == db && Valid()
    {
      rows, actions, nextId := db.rows, db.actions, db.nextId;
    }

    /** `create_inventory`. */
    method CreateInventory(itemType: string, itemId: string, quantity: int, reserved: int) returns (r: Result<InventoryRow, InventoryError>)
      requires Valid()
      requires quantity >= 0 && reserved >= 0
      modifies this
      ensures (r, State()) == CreateStep(old(State()), itemType, itemId, quantity, reserved)
      ensures Valid()
    {
      CreateKeepsValid(State(), itemType, itemId, quantity, reserved);
      var found := ItemLookup(rows, itemType, itemId);
      if found.Err? {
        return Err(found.error);
      }
      if found.value.Some? {
        return Err(AlreadyExists);
      }
      var row := InventoryRow(nextId, itemType, itemId, quantity, reserved);
      if !CheckConstraints(row) {
        return Err(IntegrityError);
      }
      rows := rows + [row];
      nextId := nextId + 1;
      return Ok(row);
    }

    /** `adjust_stock`. */
    method AdjustStock(itemType: string, itemId: string, change: int, actionType: ActionType, reason: Option<string>) returns (r: Result<InventoryRow, InventoryError>)
      requires Valid()
      modifies this
      ensures (r, State()) == AdjustStep(old(State()), itemType, itemId, change, actionType, reason)
      ensures Valid()
    {
      var start := State();
      AdjustKeepsValid(start, itemType, itemId, change, actionType, reason);
      var found := ItemLookup(rows, itemType, itemId);
      if found.Err? {
        return Err(found.error);
      }
      var i: nat;
      if found.value.None? {
        var created := CreateInventory(itemType, itemId, 0, 0);
        EmptyRowIsCreated(start, itemType, itemId);
        i := |start.rows|;
      } else {
        i := found.value.value;
      }
      r := AdjustRowAt(start, i, change, actionType, reason);
    }

    /** The part of `adjust_stock` after the inventory row is found or created. */
    method AdjustRowAt(start: Db, i: nat, change: int, actionType: ActionType, reason: Option<string>) returns (r: Result<InventoryRow, InventoryError>)
      requires Valid() && ValidDb(start)
      requires i < |rows|
      modifies this
      ensures (r, State()) == AdjustAt(start, old(State()), i, change, actionType, reason)
      ensures Valid()
    {
      AdjustAtValid(start, State(), i, change, actionType, reason);
      var row := rows[i];
      var newQuantity := row.quantity + change;
      if newQuantity < 0 {
        Restore(start);
        return Err(InsufficientStock);
      }
      var written := WriteStock(State(), i, newQuantity, row.reserved);
      if written.Err? {
        Restore(start);
        return Err(written.error);
      }
      rows := written.value.rows;
      if Abs(change) == 0 {
        Restore(start);
        return Err(ValidationError);
      }
      actions := actions + [InventoryAction(row.id, actionType, Abs(change), reason)];
      return Ok(rows[i]);
    }

    /** `reserve_stock`. */
    method ReserveStock(itemType: string, itemId: string, q: int) returns (r: Result<InventoryRow, InventoryError>)
      requires Valid()
      modifies this
      ensures (r, State()) == ReserveStep(old(State()), itemType, itemId, q)
      ensures Valid()
    {
      ReserveKeepsValid(State(), itemType, itemId, q);
      var found := ItemLookup(rows, itemType, itemId);
      if found.Err? {
        return Err(found.error);
      }
      if found.value.None? {
        return Err(NotFound);
      }
      var i := found.value.value;
      var row := rows[i];
      if !CanReserve(row, q) {
        return Err(InsufficientAvailable);
      }
      var written := WriteStock(State(), i, row.quantity, row.reserved + q);
      if written.Err? {
        return Err(written.error);
      }
      rows := written.value.rows;
      return Ok(rows[i]);
    }

    /** `release_stock`. */
    method ReleaseStock(itemType: string, itemId: string, q: int) returns (r: Result<InventoryRow, InventoryError>)
      requires Valid()
      modifies this
      ensures (r, State()) == ReleaseStep(old(State()), itemType, itemId, q)
      ensures Valid()
    {
      ReleaseKeepsValid(State(), itemType, itemId, q);
      var found := ItemLookup(rows, itemType, itemId);
      if found.Err? {
        return Err(found.error);
      }
      if found.value.None? {
        return Err(NotFound);
      }
      var i := found.value.value;
      var row := rows[i];
      var newReserved := row.reserved - q;
      if newReserved < 0 {
        return Err(CannotReleaseMore);
      }
      var written := WriteStock(State(), i, row.quantity, newReserved);
      if written.Err? {
        return Err(written.error);
      }
      rows := written.value.rows;
      return Ok(rows[i]);
    }
  }

  /** A write that passes the constraints keeps the table valid. */
  lemma WriteStockValid(db: Db, i: nat, quantity: int, reserved: int)
    requires ValidDb(db) && i < |db.rows|
    ensures WriteStock(db, i, quantity, reserved).Ok? ==> ValidDb(WriteStock(db, i, quantity, reserved).value)
  {
  }

  /** Adding the empty row of an item that has none keeps the table valid. */
  lemma EmptyRowValid(db: Db, itemType: string, itemId: string)
    requires ValidDb(db) && ItemLookup(db.rows, itemType, itemId) == Ok(None)
    ensures ValidDb(WithEmptyRow(db, itemType, itemId))
  {
    ItemLookupExact(db, itemType, itemId);
  }

  /** `create_inventory` keeps the check constraints, the one-inventory-per-item rule and distinct ids. */
  lemma CreateKeepsValid(db: Db, itemType: string, itemId: string, q: int, reserved: int)
    requires ValidDb(db) && q >= 0 && reserved >= 0
    ensures ValidDb(CreateStep(db, itemType, itemId, q, reserved).1)
  {
    ItemLookupExact(db, itemType, itemId);
  }

  /** `adjust_stock` keeps the table valid. */
  lemma AdjustKeepsValid(db: Db, itemType: string, itemId: string, change: int, actionType: ActionType, reason: Option<string>)
    requires ValidDb(db)
    ensures ValidDb(AdjustStep(db, itemType, itemId, change, actionType, reason).1)
  {
    ItemLookupExact(db, itemType, itemId);
    var found := ItemLookup(db.rows, itemType, itemId);
    if found == Ok(None) {
      EmptyRowValid(db, itemType, itemId);
      AdjustAtValid(db, WithEmptyRow(db, itemType, itemId), |db.rows|, change, actionType, reason);
    } else {
      AdjustAtValid(db, db, found.value.value, change, actionType, reason);
    }
  }

  lemma AdjustAtValid(db: Db, db1: Db, i: nat, change: int, actionType: ActionType, reason: Option<string>)
    requires ValidDb(db) && ValidDb(db1) && i < |db1.rows|
    ensures ValidDb(AdjustAt(db, db1, i, change, actionType, reason).1)
  {
    WriteStockValid(db1, i, db1.rows[i].quantity + change, db1.rows[i].reserved);
  }

  /** `reserve_stock` keeps the table valid. */
  lemma ReserveKeepsValid(db: Db, itemType: string, itemId: string, q: int)
    requires ValidDb(db)
    ensures ValidDb(ReserveStep(db, itemType, itemId, q).1)
  {
    var found := ItemLookup(db.rows, itemType, itemId);
    if found.Ok? && found.value.Some? {
      var i := found.value.value;
      WriteStockValid(db, i, db.rows[i].quantity, db.rows[i].reserved + q);
    }
  }

  /** `release_stock` keeps the table valid. */
  lemma ReleaseKeepsValid(db: Db, itemType: string, itemId: string, q: int)
    requires ValidDb(db)
    ensures ValidDb(ReleaseStep(db, itemType, itemId, q).1)
  {
    var found := ItemLookup(db.rows, itemType, itemId);
    if found.Ok? && found.value.Some? {
      var i := found.value.value;
      WriteStockValid(db, i, db.rows[i].quantity, db.rows[i].reserved - q);
    }
  }

  /**
   * For an item that has an inventory, `adjust_stock` succeeds exactly when
   * the new quantity is non-negative and still covers the reservations and the
   * change is non-zero; it then sets the quantity, keeps the reservations and
   * logs one action of `|change|` units. Otherwise nothing changes.
   */
  lemma AdjustExisting(db: Db, itemType: string, itemId: string, change: int, actionType: ActionType, reason: Option<string>, i: nat)
    requires ValidDb(db) && ItemLookup(db.rows, itemType, itemId) == Ok(Some(i))
    ensures var (r, db') := AdjustStep(db, itemType, itemId, change, actionType, reason);
      var row := db.rows[i];
      (r.Ok? <==> row.quantity + change >= row.reserved && change != 0)
      && (row.quantity + change < 0 ==> r == Err(InsufficientStock))
      && (r.Ok? ==>
            r.value == row.(quantity := row.quantity + change)
            && db'.rows == db.rows[i := r.value]
            && db'.actions == db.actions + [InventoryAction(row.id, actionType, Abs(change), reason)]
            && db'.nextId == db.nextId)
      && (r.Err? ==> db' == db)
  {
  }

  /** For an item without inventory, `adjust_stock` by a positive amount creates it with that quantity and nothing reserved. */
  lemma AdjustCreates(db: Db, itemType: string, itemId: string, change: int, actionType: ActionType, reason: Option<string>)
    requires ItemLookup(db.rows, itemType, itemId) == Ok(None) && change > 0
    ensures var (r, db') := AdjustStep(db, itemType, itemId, change, actionType, reason);
      r == Ok(InventoryRow(db.nextId, itemType, itemId, change, 0))
      && db'.rows == db.rows + [InventoryRow(db.nextId, itemType, itemId, change, 0)]
      && db'.actions == db.actions + [InventoryAction(db.nextId, actionType, change, reason)]
  {
    var db1 := WithEmptyRow(db, itemType, itemId);
    assert db1.rows[|db.rows| := InventoryRow(db.nextId, itemType, itemId, change, 0)]
      == db.rows + [InventoryRow(db.nextId, itemType, itemId, change, 0)];
  }

  /**
   * `reserve_stock` on an existing inventory succeeds exactly when the stock
   * can be reserved and the reservations stay non-negative; it adds `q` to the
   * reservations and leaves the quantity alone. Otherwise nothing changes.
   */
  lemma ReserveExisting(db: Db, itemType: string, itemId: string, q: int, i: nat)
    requires ValidDb(db) && ItemLookup(db.rows, itemType, itemId) == Ok(Some(i))
    ensures var (r, db') := ReserveStep(db, itemType, itemId, q);
      var row := db.rows[i];
      (r.Ok? <==> CanReserve(row, q) && row.reserved + q >= 0)
      && (r.Ok? ==> r.value == row.(reserved := row.reserved + q) && db' == db.(rows := db.rows[i := r.value]))
      && (r.Err? ==> db' == db)
  {
  }

  /**
   * `release_stock` on an existing inventory succeeds exactly when the
   * reservations stay non-negative and within the quantity; it takes `q` off
   * the reservations. Otherwise nothing changes.
   */
  lemma ReleaseExisting(db: Db, itemType: string, itemId: string, q: int, i: nat)
    requires ValidDb(db) && ItemLookup(db.rows, itemType, itemId) == Ok(Some(i))
    ensures var (r, db') := ReleaseStep(db, itemType, itemId, q);
      var row := db.rows[i];
      (r.Ok? <==> 0 <= row.reserved - q <= row.quantity)
      && (row.reserved - q < 0 ==> r == Err(CannotReleaseMore))
      && (r.Ok? ==> r.value == row.(reserved := row.reserved - q) && db' == db.(rows := db.rows[i := r.value]))
      && (r.Err? ==> db' == db)
  {
  }

  /** Releasing what was just reserved succeeds and restores the table. */
  lemma ReserveThenRelease(db: Db, itemType: string, itemId: string, q: int)
    requires ValidDb(db) && ReserveStep(db, itemType, itemId, q).0.Ok?
    ensures var db1 := ReserveStep(db, itemType, itemId, q).1;
      ReleaseStep(db1, itemType, itemId, q).0.Ok? && ReleaseStep(db1, itemType, itemId, q).1 == db
  {
    ItemLookupExact(db, itemType, itemId);
    var i := ItemLookup(db.rows, itemType, itemId).value.value;
    var db1 := ReserveStep(db, itemType, itemId, q).1;
    ReserveKeepsValid(db, itemType, itemId, q);
    SameItemsSameLookup(db.rows, db1.rows, itemType, itemId);
    assert db1.rows[i := db.rows[i]] == db.rows;
  }

  /** Tables whose rows agree on type and id answer every lookup alike. */
  lemma {:induction false} SameItemsSameLookup(a: seq<InventoryRow>, b: seq<InventoryRow>, itemType: string, itemId: string)
    requires |a| == |b|
    requires forall i :: 0 <= i < |a| ==> a[i].itemType == b[i].itemType && a[i].itemId == b[i].itemId
    ensures MatchIndices(a, itemType, itemId, false) == MatchIndices(b, itemType, itemId, false)
  {
    if a != [] {
      SameItemsSameLookup(a[..|a| - 1], b[..|b| - 1], itemType, itemId);
    }
  }

  /** `create_inventory` refuses a second inventory for the same item. */
  lemma CreateTwiceRejected(db: Db, itemType: string, itemId: string, q: int, q': int)
    requires q >= 0 && q' >= 0 && CreateStep(db, itemType, itemId, q, 0).0.Ok?
    ensures var db1 := CreateStep(db, itemType, itemId, q, 0).1;
      CreateStep(db1, itemType, itemId, q', 0) == (Err(AlreadyExists), db1)
  {
    var db1 := CreateStep(db, itemType, itemId, q, 0).1;
    var n := |db.rows|;
    assert db1.rows[..n] == db.rows;
    assert MatchIndices(db1.rows, itemType, itemId, false) == [n];
  }
}
