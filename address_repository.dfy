/**
 * `AddressRepository`: addresses attached to an entity (`addressable_type`,
 * `addressable_id`), at most one of which should be the entity's default.
 *
 * Creating or updating an address with `is_default` first clears the flag
 * on the entity's other addresses. Two methods are modelled twice: as
 * written (`...AsWritten`), and as evidently intended. As written,
 * `create_address_for_entity` always raises `TypeError`, and the update and
 * delete methods look the address up with an OR of its key and its owner,
 * so they can touch another entity's address.
 */
module AddressRepository {
  import opened Wrappers
  import opened BaseRepository

  const Columns: set<string> :=
    {"id", "addressable_type", "addressable_id", "country_id", "phone_number", "address", "city", "state", "postal_code", "is_default"}
  /** `is_default` defaults to false; optional fields to None; required ones are always supplied. */
  const Defaults: Record := map[
    "addressable_type" := VText(""), "addressable_id" := VNull, "country_id" := VNull, "phone_number" := VNull,
    "address" := VText(""), "city" := VText(""), "state" := VText(""), "postal_code" := VNull, "is_default" := VBool(false)]

  /** The fields an `AddressUpdate` can carry. */
  const UpdateFields: set<string> := {"country_id", "phone_number", "address", "city", "state", "postal_code", "is_default"}

  /** `{"is_default": False}`. */
  const NotDefault: Record := map["is_default" := VBool(false)]

  datatype AddressError =
    | DatabaseError   // an SQLAlchemyError, re-raised as errors.DatabaseError
    | TypeError       // a keyword argument passed twice

  /** The address belongs to the entity. */
  predicate Owned(row: Record, kind: string, owner: Value)
  {
    "addressable_type" in row && row["addressable_type"] == VText(kind) && "addressable_id" in row && row["addressable_id"] == owner
  }

  /** `if address.is_default`. */
  predicate IsDefault(row: Record)
  {
    "is_default" in row && !Falsy(row["is_default"])
  }

  /** Two addresses belong to the same entity. */
  predicate SameOwner(a: Record, b: Record)
  {
    "addressable_type" in a && "addressable_type" in b && "addressable_id" in a && "addressable_id" in b
    && a["addressable_type"] == b["addressable_type"] && a["addressable_id"] == b["addressable_id"]
  }

  /** Each entity has at most one default address. */
  predicate SingleDefault(rows: seq<Record>)
  {
    forall i, j :: 0 <= i < j < |rows| && SameOwner(rows[i], rows[j]) ==> !(IsDefault(rows[i]) && IsDefault(rows[j]))
  }

  /** `get_addresses_for_entity`: the entity's addresses (the ORDER BY is not modelled; table order is kept). */
  function EntityAddresses(rows: seq<Record>, kind: string, owner: Value): (r: seq<Record>)
    ensures forall x :: x in r <==> x in rows && Owned(x, kind, owner)
  {
    if rows == [] then []
    else (if Owned(rows[0], kind, owner) then [rows[0]] else []) + EntityAddresses(rows[1..], kind, owner)
  }

  /** The table after the default flag is cleared on the rows in `done` that are defaults. */
  function ClearedAmong(rows: seq<Record>, done: seq<Record>): (r: seq<Record>)
    ensures |r| == |rows|
  {
    seq(|rows|, k requires 0 <= k < |rows| => if rows[k] in done && IsDefault(rows[k]) then Merge(rows[k], NotDefault) else rows[k])
  }

  /** The table after `clear_default_addresses_for_entity`. */
  function ClearedDefaults(rows: seq<Record>, kind: string, owner: Value): (r: seq<Record>)
    ensures |r| == |rows|
    ensures forall k :: 0 <= k < |rows| && Owned(rows[k], kind, owner) ==> !IsDefault(r[k])
    ensures forall k :: 0 <= k < |rows| && Owned(rows[k], kind, owner) && IsDefault(rows[k]) ==> r[k] == Merge(rows[k], NotDefault)
    ensures forall k :: 0 <= k < |rows| && !Owned(rows[k], kind, owner) ==> r[k] == rows[k]
  {
    ClearedAmong(rows, EntityAddresses(rows, kind, owner))
  }

  /** The values `create` receives: the supplied data, with the entity's type and id. */
  function WithOwner(data: Record, kind: string, owner: Value): (v: Record)
    ensures Owned(v, kind, owner)
    ensures forall c :: c in data && c != "addressable_type" && c != "addressable_id" ==> c in v && v[c] == data[c]
  {
    data + map["addressable_type" := VText(kind), "addressable_id" := owner]
  }

  class AddressRepository {
    const base: Repository

    /** The base table invariant, for the address columns; every key is a GUID, so none is falsy. */
    ghost predicate Valid()
      reads this, base
    {
      base.Valid() && base.columns == Columns && base.uniques == {} && base.defaults == Defaults
      && IdsTruthy(base.rows)
    }

    constructor()
      ensures Valid() && fresh(base) && base.rows == []
    {
      base := new Repository(Columns, {}, Defaults);
    }

    /**
     * `clear_default_addresses_for_entity`: `update(id, {"is_default": False})`
     * on each of the entity's addresses that is a default; nothing else changes.
     */
    method ClearDefaultAddressesForEntity(kind: string, owner: Value)
      requires Valid()
      modifies base
      ensures Valid()
      ensures base.rows == ClearedDefaults(old(base.rows), kind, owner)
    {
      ghost var rows0 := base.rows;
      var addresses := EntityAddresses(base.rows, kind, owner);
      var i := 0;
      while i < |addresses|
        invariant 0 <= i <= |addresses|
        invariant Valid()
        invariant base.rows == ClearedAmong(rows0, addresses[..i])
      {
        var address := addresses[i];
        assert addresses[..i + 1] == addresses[..i] + [address];
        assert address in addresses;
        if IsDefault(address) {
          ghost var p :| 0 <= p < |rows0| && rows0[p] == address;
          ClearOne(address, rows0, addresses[..i], p);
        } else {
          SkipStep(rows0, addresses[..i], address);
        }
        i := i + 1;
      }
      assert addresses[..i] == addresses;
    }

    /** `update(id, {"is_default": False})` on one default address the clearing reaches. */
    method ClearOne(address: Record, ghost rows0: seq<Record>, ghost done: seq<Record>, ghost p: nat)
      requires Valid() && base.rows == ClearedAmong(rows0, done)
      requires IdsTruthy(rows0) && Distinct(rows0, "id")
      requires p < |rows0| && rows0[p] == address && IsDefault(address)
      modifies base
      ensures Valid() && base.rows == ClearedAmong(rows0, done + [address])
    {
      ClearedKeepsKeys(rows0, done, p);
      LookupAt(base.rows, address["id"], p);
      NotDefaultColumns();
      var _ := base.Update(address["id"], NotDefault);
      ClearStep(rows0, done, p);
      ClearedTruthy(rows0, done + [rows0[p]]);
    }

    /**
     * `create_address_for_entity` as written: the defaults are cleared when
     * the new address is a default, and then building
     * `AddressCreate(addressable_type=..., addressable_id=..., **address_data.model_dump())`
     * raises `TypeError`, because the dump already holds both keys.
     */
    method CreateAddressForEntityAsWritten(kind: string, owner: Value, data: Record, newId: Value) returns (r: Result<Record, AddressError>)
      requires Valid()
      requires "addressable_type" in data && "addressable_id" in data
      modifies base
      ensures Valid()
      ensures r == Err(TypeError)
      ensures base.rows == if IsDefault(data) then ClearedDefaults(old(base.rows), kind, owner) else old(base.rows)
    {
      if IsDefault(data) {
        ClearDefaultAddressesForEntity(kind, owner);
      }
      assert DuplicateKeyword(data);
      r := Err(TypeError);
    }

    /** `create(...)` of the entity's new address: owned, with the generated key, a default iff the data is. */
    method CreateOwned(kind: string, owner: Value, data: Record, newId: Value) returns (r: Result<Record, DbError>)
      requires Valid()
      requires data.Keys <= Columns - {"id"}
      requires !Falsy(newId)
      modifies base
      ensures Valid()
      ensures Lookup(old(base.rows), newId).Some? ==> r.Err? && base.rows == old(base.rows)
      ensures Lookup(old(base.rows), newId).None? ==>
        r.Ok? && Owned(r.value, kind, owner) && HasId(r.value, newId) && base.rows == old(base.rows) + [r.value]
        && (IsDefault(r.value) <==> IsDefault(data))
    {
      WithOwnerColumns(data, kind, owner);
      r := base.Create(WithOwner(data, kind, owner), newId);
      if r.Ok? {
        AppendTruthy(old(base.rows), r.value, newId);
        NewDefault(data, kind, owner, r.value);
      }
    }

    /**
     * `create_address_for_entity` as intended: clear the entity's defaults
     * when the new address is a default, then create it for that entity.
     */
    method CreateAddressForEntity(kind: string, owner: Value, data: Record, newId: Value) returns (r: Result<Record, AddressError>)
      requires Valid()
      requires data.Keys <= Columns - {"id"}
      requires !Falsy(newId)
      modifies base
      ensures Valid()
      ensures var cleared := if IsDefault(data) then ClearedDefaults(old(base.rows), kind, owner) else old(base.rows);
        if Lookup(old(base.rows), newId).Some? then r == Err(DatabaseError) && base.rows == cleared
        else (r.Ok? && Owned(r.value, kind, owner) && HasId(r.value, newId) && base.rows == cleared + [r.value]
          && (IsDefault(r.value) <==> IsDefault(data)))
      ensures r.Ok? && old(SingleDefault(base.rows)) ==> SingleDefault(base.rows)
    {
      ghost var rows0 := base.rows;
      if IsDefault(data) {
        ClearDefaultAddressesForEntity(kind, owner);
      }
      ghost var cleared := base.rows;
      ClearedKeys(rows0, cleared, kind, owner, data, newId);
      var created := CreateOwned(kind, owner, data, newId);
      if created.Err? {
        return Err(DatabaseError);
      }
      r := Ok(created.value);
      if SingleDefault(rows0) {
        AppendSingle(rows0, cleared, kind, owner, data, created.value);
      }
    }

    /**
     * `update_address_for_entity` as written: the address is looked up with
     * `find_one_by_or_none(id=..., addressable_type=..., addressable_id=...)`,
     * which selects any row matching ONE of the three.
     */
    method UpdateAddressForEntityAsWritten(id: Value, kind: string, owner: Value, data: Record) returns (r: Result<Option<Record>, AddressError>)
      requires Valid()
      requires data.Keys <= UpdateFields
      modifies base
      ensures Valid()
      ensures var found := old(base.FindOneByOr(OwnerKeywords(id, kind, owner)));
        if found.Err? then r == Err(DatabaseError) && base.rows == old(base.rows)
        else if found.value.None? then r == Ok(None) && base.rows == old(base.rows)
        else
          var cleared := if IsDefault(data) then ClearedDefaults(old(base.rows), kind, owner) else old(base.rows);
          var target := Lookup(cleared, id);
          base.rows == UpdatedRows(cleared, id, data)
          && r == if Falsy(id) || target.None? then Ok(None) else if data == map[] then Ok(target) else Ok(Some(Merge(target.value, data)))
    {
      var found := base.FindOneByOr(OwnerKeywords(id, kind, owner));
      if found.Err? {
        return Err(DatabaseError);
      }
      if found.value.None? {
        return Ok(None);
      }
      if IsDefault(data) {
        ClearDefaultAddressesForEntity(kind, owner);
      }
      var updated := ApplyUpdate(id, data);
      return Ok(updated.value);
    }

    /** `update(id, data)` on the address table, which never clashes, since no column is unique. */
    method ApplyUpdate(id: Value, data: Record) returns (r: Result<Option<Record>, DbError>)
      requires Valid()
      requires data.Keys <= UpdateFields
      modifies base
      ensures Valid()
      ensures base.rows == UpdatedRows(old(base.rows), id, data)
      ensures var found := Lookup(old(base.rows), id);
        r == if Falsy(id) || found.None? then Ok(None) else if data == map[] then Ok(found) else Ok(Some(Merge(found.value, data)))
    {
      NoClash(base.rows, id, data);
      UpdateFieldsAreColumns(data);
      r := base.Update(id, data);
      UpdatedTruthy(old(base.rows), id, data);
    }

    /**
     * `update_address_for_entity` as intended: the address must have that key
     * AND belong to the entity; only then are the entity's defaults cleared
     * and the address updated.
     */
    method UpdateAddressForEntity(id: Value, kind: string, owner: Value, data: Record) returns (r: Result<Option<Record>, AddressError>)
      requires Valid()
      requires data.Keys <= UpdateFields
      modifies base
      ensures Valid()
      ensures r.Ok?
      ensures !OwnsKey(old(base.rows), id, kind, owner) ==> r == Ok(None) && base.rows == old(base.rows)
      ensures OwnsKey(old(base.rows), id, kind, owner) ==>
        var cleared := if IsDefault(data) then ClearedDefaults(old(base.rows), kind, owner) else old(base.rows);
        base.rows == UpdatedRows(cleared, id, data) && r.value.Some? && Owned(r.value.value, kind, owner)
      ensures old(SingleDefault(base.rows)) ==> SingleDefault(base.rows)
    {
      var found := base.FindOneByAnd(OwnerKeywords(id, kind, owner));
      OwnLookup(base, id, kind, owner);
      if found.value.None? {
        return Ok(None);
      }
      ghost var rows0 := base.rows;
      if IsDefault(data) {
        ClearDefaultAddressesForEntity(kind, owner);
      }
      ghost var cleared := base.rows;
      ghost var p :| 0 <= p < |rows0| && rows0[p] == found.value.value;
      ClearedPosition(rows0, cleared, kind, owner, data, p);
      LookupAt(cleared, id, p);
      UpdateKeepsOwner(cleared[p], data, kind, owner);
      var updated := ApplyUpdate(id, data);
      r := Ok(updated.value);
      UpdatedPosition(cleared, id, data, p);
      if SingleDefault(rows0) {
        UpdateSingle(rows0, cleared, id, kind, owner, data, p);
      }
    }

    /**
     * `delete_address_for_entity` as written: the row the OR lookup finds is
     * deleted, whatever its key and owner.
     */
    method DeleteAddressForEntityAsWritten(id: Value, kind: string, owner: Value) returns (r: Result<bool, AddressError>)
      requires Valid()
      modifies base
      ensures Valid()
      ensures var found := old(base.FindOneByOr(OwnerKeywords(id, kind, owner)));
        if found.Err? then r == Err(DatabaseError) && base.rows == old(base.rows)
        else if found.value.None? then r == Ok(false) && base.rows == old(base.rows)
        else r == Ok(true) && base.rows == Without(old(base.rows), found.value.value["id"])
    {
      var found := base.FindOneByOr(OwnerKeywords(id, kind, owner));
      if found.Err? {
        return Err(DatabaseError);
      }
      if found.value.None? {
        return Ok(false);
      }
      var victim := found.value.value;
      var _ := base.Delete(victim["id"]);
      WithoutKeepsIds(old(base.rows), victim["id"]);
      return Ok(true);
    }

    /** `delete_address_for_entity` as intended: only the entity's own address with that key is deleted. */
    method DeleteAddressForEntity(id: Value, kind: string, owner: Value) returns (r: Result<bool, AddressError>)
      requires Valid()
      modifies base
      ensures Valid()
      ensures r == Ok(OwnsKey(old(base.rows), id, kind, owner))
      ensures base.rows == if OwnsKey(old(base.rows), id, kind, owner) then Without(old(base.rows), id) else old(base.rows)
      ensures forall x :: x in old(base.rows) && !Owned(x, kind, owner) ==> x in base.rows
    {
      var found := base.FindOneByAnd(OwnerKeywords(id, kind, owner));
      OwnLookup(base, id, kind, owner);
      if found.value.None? {
        return Ok(false);
      }
      var _ := base.Delete(id);
      DeleteOwn(old(base.rows), id, kind, owner);
      return Ok(true);
    }
  }

  /** An `AddressUpdate` names only columns, and never the key. */
  lemma UpdateFieldsAreColumns(data: Record)
    requires data.Keys <= UpdateFields
    ensures data.Keys <= Columns - {"id"}
  {
    forall c | c in data ensures c in Columns - {"id"} {
      assert c in UpdateFields;
    }
  }

  /** The flag the clearing writes is a column, not the key. */
  lemma NotDefaultColumns()
    ensures NotDefault.Keys <= Columns - {"id"}
  {
    assert "is_default" in Columns;
  }

  /** Adding the owner columns to data that names only columns other than the key keeps it so. */
  lemma WithOwnerColumns(data: Record, kind: string, owner: Value)
    requires data.Keys <= Columns - {"id"}
    ensures WithOwner(data, kind, owner).Keys <= Columns - {"id"}
  {
    assert "addressable_type" in Columns && "addressable_id" in Columns;
  }

  /** No key is falsy. */
  predicate IdsTruthy(rows: seq<Record>)
  {
    forall k :: 0 <= k < |rows| ==> "id" in rows[k] && !Falsy(rows[k]["id"])
  }

  /** Whether `**address_data.model_dump()` repeats a keyword the call already passes. */
  predicate DuplicateKeyword(data: Record)
  {
    "addressable_type" in data || "addressable_id" in data
  }

  /** The keywords `id=..., addressable_type=..., addressable_id=...`. */
  function OwnerKeywords(id: Value, kind: string, owner: Value): (kw: Record)
    ensures kw.Keys == {"id", "addressable_type", "addressable_id"}
  {
    map["id" := id, "addressable_type" := VText(kind), "addressable_id" := owner]
  }

  /** Some row has key `id` and belongs to the entity. */
  predicate OwnsKey(rows: seq<Record>, id: Value, kind: string, owner: Value)
  {
    exists k :: 0 <= k < |rows| && HasId(rows[k], id) && Owned(rows[k], kind, owner)
  }

  /** The table after `update(id, data)` on a row that exists and has a truthy key. */
  function UpdatedRows(rows: seq<Record>, id: Value, data: Record): (r: seq<Record>)
  {
    if data == map[] || Falsy(id) || Lookup(rows, id).None? then rows else Replace(rows, id, data)
  }

  /** Clearing flags keeps every key. */
  lemma ClearedTruthy(rows0: seq<Record>, done: seq<Record>)
    requires IdsTruthy(rows0)
    ensures IdsTruthy(ClearedAmong(rows0, done))
    ensures forall k :: 0 <= k < |rows0| ==> ClearedAmong(rows0, done)[k]["id"] == rows0[k]["id"]
  {
  }

  lemma ClearedKeepsKeys(rows0: seq<Record>, done: seq<Record>, p: nat)
    requires p < |rows0| && "id" in rows0[p]
    ensures HasId(ClearedAmong(rows0, done)[p], rows0[p]["id"])
  {
  }

  /** One step of the clearing loop on a default address. */
  lemma ClearStep(rows0: seq<Record>, done: seq<Record>, p: nat)
    requires p < |rows0| && IsDefault(rows0[p])
    requires Distinct(rows0, "id") && forall k :: 0 <= k < |rows0| ==> "id" in rows0[k]
    ensures Replace(ClearedAmong(rows0, done), rows0[p]["id"], NotDefault) == ClearedAmong(rows0, done + [rows0[p]])
  {
    var before := ClearedAmong(rows0, done);
    var after := Replace(before, rows0[p]["id"], NotDefault);
    var want := ClearedAmong(rows0, done + [rows0[p]]);
    forall k | 0 <= k < |rows0| ensures after[k] == want[k] {
      if k == p {
      } else {
        assert rows0[k]["id"] != rows0[p]["id"] by {
          if k < p { } else { }
        }
        assert rows0[k] != rows0[p];
      }
    }
  }

  /** One step of the clearing loop on an address that is not a default. */
  lemma SkipStep(rows0: seq<Record>, done: seq<Record>, x: Record)
    requires !IsDefault(x)
    ensures ClearedAmong(rows0, done) == ClearedAmong(rows0, done + [x])
  {
  }

  /** Clearing the defaults, or not, keeps every key where it was. */
  lemma ClearedKeys(rows0: seq<Record>, cleared: seq<Record>, kind: string, owner: Value, data: Record, id: Value)
    requires IdsTruthy(rows0)
    requires cleared == if IsDefault(data) then ClearedDefaults(rows0, kind, owner) else rows0
    ensures Lookup(cleared, id).Some? <==> Lookup(rows0, id).Some?
  {
    ClearedTruthy(rows0, EntityAddresses(rows0, kind, owner));
    assert |cleared| == |rows0|;
    assert forall k :: 0 <= k < |rows0| ==> (HasId(cleared[k], id) <==> HasId(rows0[k], id));
  }

  /** Appending a row with a truthy key keeps every key truthy. */
  lemma AppendTruthy(rows: seq<Record>, row: Record, id: Value)
    requires IdsTruthy(rows) && HasId(row, id) && !Falsy(id)
    ensures IdsTruthy(rows + [row])
  {
  }

  /** The created row is a default iff the data asks for one. */
  lemma NewDefault(data: Record, kind: string, owner: Value, row: Record)
    requires forall c :: c in WithOwner(data, kind, owner) ==> c in row && row[c] == WithOwner(data, kind, owner)[c]
    requires forall c :: c in Defaults && c !in WithOwner(data, kind, owner) ==> c in row && row[c] == Defaults[c]
    ensures IsDefault(row) <==> IsDefault(data)
  {
    assert "is_default" in Defaults;
  }

  /** Appending an address after clearing the entity's defaults keeps one default per entity. */
  lemma AppendSingle(rows0: seq<Record>, cleared: seq<Record>, kind: string, owner: Value, data: Record, row: Record)
    requires SingleDefault(rows0)
    requires cleared == if IsDefault(data) then ClearedDefaults(rows0, kind, owner) else rows0
    requires Owned(row, kind, owner) && (IsDefault(row) <==> IsDefault(data))
    ensures SingleDefault(cleared + [row])
  {
    var all := cleared + [row];
    forall i, j | 0 <= i < j < |all| && SameOwner(all[i], all[j])
      ensures !(IsDefault(all[i]) && IsDefault(all[j]))
    {
      if j == |cleared| && IsDefault(data) {
        assert Owned(rows0[i], kind, owner);
      } else if j < |cleared| && IsDefault(data) {
        if !Owned(rows0[i], kind, owner) && !Owned(rows0[j], kind, owner) {
          assert all[i] == rows0[i] && all[j] == rows0[j];
        }
      }
    }
  }

  /** On a valid table, the AND lookup of key and owner never fails, and finds exactly the owned row with that key. */
  lemma OwnLookup(base: Repository, id: Value, kind: string, owner: Value)
    requires base.Valid() && base.columns == Columns
    ensures base.FindOneByAnd(OwnerKeywords(id, kind, owner)).Ok?
    ensures base.FindOneByAnd(OwnerKeywords(id, kind, owner)).value.Some? <==> OwnsKey(base.rows, id, kind, owner)
    ensures base.FindOneByAnd(OwnerKeywords(id, kind, owner)).value.Some? ==>
      var row := base.FindOneByAnd(OwnerKeywords(id, kind, owner)).value.value;
      HasId(row, id) && Owned(row, kind, owner)
  {
    var kw := OwnerKeywords(id, kind, owner);
    forall k | 0 <= k < |base.rows| ensures AllMatch(base.rows[k], Columns, kw) <==> HasId(base.rows[k], id) && Owned(base.rows[k], kind, owner) {
      OwnerMatch(base.rows[k], id, kind, owner);
    }
    AndLookupFails(base, kw);
    forall i, j | 0 <= i < j < |base.rows|
      ensures !(AllMatch(base.rows[i], Columns, kw) && AllMatch(base.rows[j], Columns, kw))
    {
      OwnerMatch(base.rows[i], id, kind, owner);
      OwnerMatch(base.rows[j], id, kind, owner);
    }
  }

  /** A full address row matches the owner keywords iff it has the key and belongs to the entity. */
  lemma OwnerMatch(row: Record, id: Value, kind: string, owner: Value)
    requires row.Keys == Columns
    ensures AllMatch(row, Columns, OwnerKeywords(id, kind, owner)) <==> HasId(row, id) && Owned(row, kind, owner)
  {
    var kw := OwnerKeywords(id, kind, owner);
    assert "id" in Columns && "addressable_type" in Columns && "addressable_id" in Columns;
    assert kw["id"] == id && kw["addressable_type"] == VText(kind) && kw["addressable_id"] == owner;
  }

  lemma ClearedPosition(rows0: seq<Record>, cleared: seq<Record>, kind: string, owner: Value, data: Record, p: nat)
    requires p < |rows0| && forall k :: 0 <= k < |rows0| ==> "id" in rows0[k]
    requires cleared == if IsDefault(data) then ClearedDefaults(rows0, kind, owner) else rows0
    ensures |cleared| == |rows0| && HasId(cleared[p], rows0[p]["id"])
    ensures Distinct(rows0, "id") ==> Distinct(cleared, "id")
    ensures Owned(rows0[p], kind, owner) ==> Owned(cleared[p], kind, owner)
  {
  }

  /** An update of `AddressUpdate` fields keeps the owner. */
  lemma UpdateKeepsOwner(row: Record, data: Record, kind: string, owner: Value)
    requires Owned(row, kind, owner) && data.Keys <= UpdateFields
    ensures Owned(Merge(row, data), kind, owner)
  {
  }

  lemma UpdatedPosition(rows: seq<Record>, id: Value, data: Record, p: nat)
    requires p < |rows| && HasId(rows[p], id)
    ensures |UpdatedRows(rows, id, data)| == |rows|
  {
  }

  /** A table without unique columns has no clash. */
  lemma NoClash(rows: seq<Record>, id: Value, row: Record)
    ensures !Clashes(rows, {}, id, row)
  {
  }

  /** Updating columns other than the key keeps every key truthy. */
  lemma UpdatedTruthy(rows: seq<Record>, id: Value, data: Record)
    requires IdsTruthy(rows) && "id" !in data
    ensures IdsTruthy(UpdatedRows(rows, id, data))
  {
  }

  /**
   * Updating the entity's own address after clearing its defaults (when the
   * update sets one) keeps one default per entity.
   */
  lemma UpdateSingle(rows0: seq<Record>, cleared: seq<Record>, id: Value, kind: string, owner: Value, data: Record, p: nat)
    requires SingleDefault(rows0) && Distinct(rows0, "id") && forall k :: 0 <= k < |rows0| ==> "id" in rows0[k]
    requires data.Keys <= UpdateFields
    requires p < |rows0| && HasId(rows0[p], id) && Owned(rows0[p], kind, owner)
    requires cleared == if IsDefault(data) then ClearedDefaults(rows0, kind, owner) else rows0
    ensures SingleDefault(UpdatedRows(cleared, id, data))
  {
    var after := UpdatedRows(cleared, id, data);
    UpdatedOwn(rows0, cleared, id, kind, owner, data, p);
    forall k | 0 <= k < |rows0| && k != p
      ensures SameOwnerKept(rows0[k], after[k]) && (IsDefault(after[k]) ==> IsDefault(rows0[k]))
      ensures IsDefault(data) && SameOwner(rows0[k], rows0[p]) ==> !IsDefault(after[k])
    {
      UpdatedOther(rows0, cleared, id, kind, owner, data, p, k);
    }
    forall i, j | 0 <= i < j < |after| && SameOwner(after[i], after[j])
      ensures !(IsDefault(after[i]) && IsDefault(after[j]))
    {
      assert SameOwner(rows0[i], rows0[j]);
    }
  }

  /** The update leaves every other row as the clearing left it. */
  lemma UpdatedOther(rows0: seq<Record>, cleared: seq<Record>, id: Value, kind: string, owner: Value, data: Record, p: nat, k: nat)
    requires Distinct(rows0, "id") && forall k :: 0 <= k < |rows0| ==> "id" in rows0[k]
    requires p < |rows0| && k < |rows0| && k != p && HasId(rows0[p], id) && Owned(rows0[p], kind, owner)
    requires cleared == if IsDefault(data) then ClearedDefaults(rows0, kind, owner) else rows0
    ensures |UpdatedRows(cleared, id, data)| == |rows0| && UpdatedRows(cleared, id, data)[k] == cleared[k]
    ensures SameOwnerKept(rows0[k], cleared[k])
    ensures IsDefault(cleared[k]) ==> IsDefault(rows0[k])
    ensures IsDefault(data) && SameOwner(rows0[k], rows0[p]) ==> !IsDefault(cleared[k])
  {
    ClearedPosition(rows0, cleared, kind, owner, data, k);
    assert rows0[k]["id"] != rows0[p]["id"] by {
      if k < p { } else { }
    }
  }

  /** The updated row keeps its owner, and is a default as the data says or, when the flag or a truthy key is missing, as before. */
  lemma UpdatedOwn(rows0: seq<Record>, cleared: seq<Record>, id: Value, kind: string, owner: Value, data: Record, p: nat)
    requires forall k :: 0 <= k < |rows0| ==> "id" in rows0[k]
    requires data.Keys <= UpdateFields
    requires p < |rows0| && HasId(rows0[p], id) && Owned(rows0[p], kind, owner)
    requires cleared == if IsDefault(data) then ClearedDefaults(rows0, kind, owner) else rows0
    ensures |UpdatedRows(cleared, id, data)| == |rows0|
    ensures SameOwnerKept(rows0[p], UpdatedRows(cleared, id, data)[p])
    ensures "is_default" in data && !Falsy(id) ==> (IsDefault(UpdatedRows(cleared, id, data)[p]) <==> IsDefault(data))
    ensures "is_default" !in data || Falsy(id) ==> (IsDefault(UpdatedRows(cleared, id, data)[p]) <==> IsDefault(cleared[p]))
  {
    ClearedPosition(rows0, cleared, kind, owner, data, p);
    assert "addressable_type" !in UpdateFields && "addressable_id" !in UpdateFields;
    assert Lookup(cleared, id).Some?;
  }

  /** The owner columns of a row are kept. */
  predicate SameOwnerKept(before: Record, after: Record)
  {
    ("addressable_type" in before <==> "addressable_type" in after)
    && ("addressable_id" in before <==> "addressable_id" in after)
    && ("addressable_type" in before ==> after["addressable_type"] == before["addressable_type"])
    && ("addressable_id" in before ==> after["addressable_id"] == before["addressable_id"])
  }

  /** Removing rows keeps the remaining keys truthy. */
  lemma WithoutKeepsIds(rows: seq<Record>, id: Value)
    requires IdsTruthy(rows)
    ensures IdsTruthy(Without(rows, id))
  {
    var w := Without(rows, id);
    forall k | 0 <= k < |w| ensures "id" in w[k] && !Falsy(w[k]["id"]) {
      assert w[k] in rows;
    }
  }

  /** Deleting the entity's own address with key `id` keeps every address of other entities. */
  lemma DeleteOwn(rows: seq<Record>, id: Value, kind: string, owner: Value)
    requires IdsTruthy(rows) && Distinct(rows, "id")
    requires OwnsKey(rows, id, kind, owner)
    ensures IdsTruthy(Without(rows, id))
    ensures forall x :: x in rows && !Owned(x, kind, owner) ==> x in Without(rows, id)
  {
    WithoutKeepsIds(rows, id);
    var p :| 0 <= p < |rows| && HasId(rows[p], id) && Owned(rows[p], kind, owner);
    forall x | x in rows && !Owned(x, kind, owner) ensures x in Without(rows, id) {
      var k :| 0 <= k < |rows| && rows[k] == x;
      assert k != p;
      if k < p { assert rows[k]["id"] != rows[p]["id"]; } else { assert rows[p]["id"] != rows[k]["id"]; }
    }
  }

  /** An address row reduced to the columns the lookups and the default rule read. */
  function Sample(id: string, kind: string, owner: string, isDefault: bool): (row: Record)
    ensures HasId(row, VText(id)) && Owned(row, kind, VText(owner)) && (IsDefault(row) <==> isDefault)
  {
    map["id" := VText(id), "addressable_type" := VText(kind), "addressable_id" := VText(owner), "is_default" := VBool(isDefault)]
  }

  /**
   * As written, `update_address_for_entity("b", "Order", "e1", {is_default: True})`
   * finds address "b" of entity ("Account", "e2") through the OR lookup, and
   * makes it a second default of that entity; the AND lookup finds nothing.
   */
  lemma AsWrittenUpdateFindsForeign(repo: Repository)
    requires repo.columns == Columns
    requires repo.rows == [Sample("d", "Account", "e2", true), Sample("b", "Account", "e2", false)]
    ensures repo.FindOneByOr(OwnerKeywords(VText("b"), "Order", VText("e1"))) == Ok(Some(repo.rows[1]))
    ensures !OwnsKey(repo.rows, VText("b"), "Order", VText("e1"))
  {
    var rows := repo.rows;
    var kw := OwnerKeywords(VText("b"), "Order", VText("e1"));
    OwnerKeywordsKnown(VText("b"), "Order", VText("e1"));
    SampleOrMatch("d", "Account", "e2", true, "b", "Order", "e1");
    SampleOrMatch("b", "Account", "e2", false, "b", "Order", "e1");
    OrFindsOnly(repo, kw, 1);
  }

  /** The OR lookup of key and owner selects a sample row iff the key, the type or the owner id agrees. */
  lemma SampleOrMatch(id: string, kind: string, owner: string, isDefault: bool, id2: string, kind2: string, owner2: string)
    ensures AnyMatch(Sample(id, kind, owner, isDefault), Columns, OwnerKeywords(VText(id2), kind2, VText(owner2)))
      <==> id == id2 || kind == kind2 || owner == owner2
  {
    var row := Sample(id, kind, owner, isDefault);
    var kw := OwnerKeywords(VText(id2), kind2, VText(owner2));
    assert "id" in Columns && "addressable_type" in Columns && "addressable_id" in Columns;
    if AnyMatch(row, Columns, kw) {
      var f :| f in kw && f in Columns && f in row && row[f] == kw[f];
      assert f == "id" || f == "addressable_type" || f == "addressable_id";
    }
  }

  /** The owner keywords all name columns. */
  lemma OwnerKeywordsKnown(id: Value, kind: string, owner: Value)
    ensures Known(Columns, OwnerKeywords(id, kind, owner)) != map[]
  {
    assert "id" in Columns;
    assert "id" in Known(Columns, OwnerKeywords(id, kind, owner));
  }

  /** ... and the update that follows makes "b" a second default of ("Account", "e2"). */
  lemma AsWrittenUpdateBreaksSingleDefault(rows: seq<Record>)
    requires rows == [Sample("d", "Account", "e2", true), Sample("b", "Account", "e2", false)]
    ensures SingleDefault(rows)
    ensures !SingleDefault(UpdatedRows(ClearedDefaults(rows, "Order", VText("e1")), VText("b"), map["is_default" := VBool(true)]))
  {
    var d, b := rows[0], rows[1];
    var flag := map["is_default" := VBool(true)];
    assert ClearedDefaults(rows, "Order", VText("e1")) == rows by {
      assert !Owned(d, "Order", VText("e1")) && !Owned(b, "Order", VText("e1"));
    }
    assert Lookup(rows, VText("b")) == Some(b) by {
      assert !HasId(d, VText("b")) && HasId(b, VText("b"));
    }
    var after := Replace(rows, VText("b"), flag);
    assert after[0] == d && after[1] == Merge(b, flag);
    assert SameOwner(after[0], after[1]) && IsDefault(after[0]) && IsDefault(after[1]);
    assert SingleDefault(rows) by {
      assert !IsDefault(b);
    }
  }

  /**
   * As written, `delete_address_for_entity("b", "Order", "e1")` deletes
   * address "b" of entity ("Account", "e2"); the AND lookup finds nothing
   * and the table is kept.
   */
  lemma AsWrittenDeleteRemovesForeign(repo: Repository)
    requires repo.columns == Columns
    requires repo.rows == [Sample("b", "Account", "e2", false)]
    ensures repo.FindOneByOr(OwnerKeywords(VText("b"), "Order", VText("e1"))) == Ok(Some(repo.rows[0]))
    ensures Without(repo.rows, VText("b")) == []
    ensures !OwnsKey(repo.rows, VText("b"), "Order", VText("e1"))
  {
    var kw := OwnerKeywords(VText("b"), "Order", VText("e1"));
    OwnerKeywordsKnown(VText("b"), "Order", VText("e1"));
    SampleOrMatch("b", "Account", "e2", false, "b", "Order", "e1");
    OrFindsOnly(repo, kw, 0);
    assert Without(repo.rows, VText("b")) == [] by {
      assert HasId(repo.rows[0], VText("b"));
      assert repo.rows[1..] == [];
    }
  }
}
