/**
 * `TokenRepository`: the `token` table (`id`, `token`, `revoked`,
 * `deleted_datetime`) on top of the base repository. The `token` column is
 * unique, so a lookup by token finds at most one row.
 */
module TokenRepository {
  import opened Wrappers
  import opened BaseRepository

  const Columns: set<string> := {"id", "token", "revoked", "deleted_datetime"}
  const Uniques: set<string> := {"token"}
  /** `revoked` defaults to false and `deleted_datetime` to None; `token` has no default and is always supplied. */
  const Defaults: Record := map["token" := VText(""), "revoked" := VBool(false), "deleted_datetime" := VNull]

  /** The row has the token string `token`. */
  predicate HasToken(row: Record, token: string)
  {
    "token" in row && row["token"] == VText(token)
  }

  /** `TokenCreate(token=token)`: the values `create` receives. */
  function CreateValues(token: string): (v: Record)
    ensures v.Keys == {"token"} && HasToken(v, token)
  {
    map["token" := VText(token)]
  }

  class TokenRepository {
    const base: Repository

    ghost predicate Valid()
      reads this, base
    {
      base.Valid() && base.columns == Columns && base.uniques == Uniques && base.defaults == Defaults
    }

    constructor()
      ensures Valid() && fresh(base) && base.rows == []
    {
      base := new Repository(Columns, Uniques, Defaults);
    }

    /** `find_by_token`: the row with that token; it never fails, since the column is unique. */
    function FindByToken(token: string): (r: Result<Option<Record>, DbError>)
      reads this, base
      requires Valid()
      ensures r.Ok?
      ensures r.value.Some? <==> exists k :: 0 <= k < |base.rows| && HasToken(base.rows[k], token)
      ensures r.value.Some? ==> r.value.value in base.rows && HasToken(r.value.value, token)
      ensures r.value.Some? ==> forall k :: 0 <= k < |base.rows| && HasToken(base.rows[k], token) ==> base.rows[k] == r.value.value
    {
      var kw := map["token" := VText(token)];
      assert forall row: Record :: AllMatch(row, Columns, kw) <==> HasToken(row, token);
      AndLookupFails(base, kw);
      forall i, j | 0 <= i < j < |base.rows|
        ensures !(HasToken(base.rows[i], token) && HasToken(base.rows[j], token))
      {
        assert Distinct(base.rows, "token");
        assert "token" in base.rows[i];
      }
      base.FindOneByAnd(kw)
    }

    /**
     * `revoke_token`: false and no change when the token is missing;
     * otherwise `update(id, {"revoked": True})`, whose result decides.
     */
    method RevokeToken(token: string) returns (r: bool)
      requires Valid()
      modifies base
      ensures Valid()
      ensures old(FindByToken(token)).value.None? ==> !r && base.rows == old(base.rows)
      ensures old(FindByToken(token)).value.Some? ==>
        var id := old(FindByToken(token)).value.value["id"];
        (r <==> !Falsy(id))
        && base.rows == if Falsy(id) then old(base.rows) else Replace(old(base.rows), id, RevokedField)
      ensures r ==> FindByToken(token).value.Some? && FindByToken(token).value.value["revoked"] == VBool(true)
    {
      var found := FindByToken(token);
      if found.value.None? {
        return false;
      }
      var row := found.value.value;
      var k :| 0 <= k < |base.rows| && base.rows[k] == row;
      var id := row["id"];
      LookupAt(base.rows, id, k);
      var updated := base.Update(id, RevokedField);
      assert !Clashes(old(base.rows), Uniques, id, Merge(row, RevokedField)) by {
        RevokeNoClash(old(base.rows), id, row);
      }
      r := updated.Ok? && updated.value.Some?;
      if r {
        RevokedRowKept(old(base.rows), id, k, token);
      }
    }

    /** `create_if_not_exists`: the existing row, unchanged table, when the token is present; otherwise `create`. */
    method CreateIfNotExists(token: string, newId: Value) returns (r: Result<Record, DbError>)
      requires Valid()
      modifies base
      ensures Valid()
      ensures old(FindByToken(token)).value.Some? ==> r == Ok(old(FindByToken(token)).value.value) && base.rows == old(base.rows)
      ensures old(FindByToken(token)).value.None? ==>
        if old(base.Exists(newId)) then r == Err(IntegrityError) && base.rows == old(base.rows)
        else r.Ok? && base.rows == old(base.rows) + [r.value] && r.value == old(base.NewRow(CreateValues(token), newId))
      ensures r.Ok? ==> HasToken(r.value, token) && r.value in base.rows && base.rows[..|old(base.rows)|] == old(base.rows)
      ensures r.Ok? ==> CountToken(base.rows, token) == 1
    {
      var existing := FindByToken(token);
      if existing.value.Some? {
        TokenColumn(token);
        CountOne(base.rows, token);
        return Ok(existing.value.value);
      }
      r := CreateNew(token, newId);
    }

    /** `create(TokenCreate(token=token))` for a token the table does not hold. */
    method CreateNew(token: string, newId: Value) returns (r: Result<Record, DbError>)
      requires Valid()
      requires forall k :: 0 <= k < |base.rows| ==> !HasToken(base.rows[k], token)
      modifies base
      ensures Valid()
      ensures old(base.Exists(newId)) ==> r == Err(IntegrityError) && base.rows == old(base.rows)
      ensures !old(base.Exists(newId)) ==>
        r.Ok? && base.rows == old(base.rows) + [r.value] && r.value == old(base.NewRow(CreateValues(token), newId))
      ensures r.Ok? ==> HasToken(r.value, token) && r.value in base.rows && base.rows[..|old(base.rows)|] == old(base.rows)
      ensures r.Ok? ==> CountToken(base.rows, token) == 1
    {
      TokenColumn(token);
      NewTokenNoCollision(base.rows, token, base.NewRow(CreateValues(token), newId));
      r := base.Create(CreateValues(token), newId);
      if r.Ok? {
        assert base.rows[|old(base.rows)|] == r.value;
        assert base.rows[..|old(base.rows)|] == old(base.rows);
        CountOne(base.rows, token);
      }
    }

    /** `create_if_not_exists` as the bulk loop sees it: the table only grows, and a success holds the token. */
    method CreateOne(token: string, newId: Value) returns (r: Result<Record, DbError>)
      requires Valid()
      modifies base
      ensures Valid()
      ensures |old(base.rows)| <= |base.rows| && base.rows[..|old(base.rows)|] == old(base.rows)
      ensures r.Ok? ==> HasToken(r.value, token) && r.value in base.rows
    {
      r := CreateIfNotExists(token, newId);
    }

    /**
     * `bulk_create_if_not_exists`: `create_if_not_exists` for each schema in
     * turn; one result per input, in order, unless a creation raises, which
     * stops the loop and keeps the rows created so far.
     */
    method BulkCreateIfNotExists(tokens: seq<string>, newIds: seq<Value>) returns (r: Result<seq<Record>, DbError>)
      requires Valid()
      requires |newIds| == |tokens|
      modifies base
      ensures Valid()
      ensures |old(base.rows)| <= |base.rows| && base.rows[..|old(base.rows)|] == old(base.rows)
      ensures r.Ok? ==> |r.value| == |tokens|
      ensures r.Ok? ==> forall i :: 0 <= i < |tokens| ==> HasToken(r.value[i], tokens[i]) && r.value[i] in base.rows
      ensures r.Ok? ==> forall i :: 0 <= i < |tokens| ==> CountToken(base.rows, tokens[i]) == 1
    {
      var results: seq<Record> := [];
      var i := 0;
      while i < |tokens|
        invariant 0 <= i <= |tokens|
        invariant Valid()
        invariant |old(base.rows)| <= |base.rows| && base.rows[..|old(base.rows)|] == old(base.rows)
        invariant |results| == i
        invariant forall k :: 0 <= k < i ==> HasToken(results[k], tokens[k]) && results[k] in base.rows
      {
        ghost var before := base.rows;
        var one := CreateOne(tokens[i], newIds[i]);
        if one.Err? {
          return Err(one.error);
        }
        Grown(old(base.rows), before, base.rows, results);
        results := results + [one.value];
        i := i + 1;
      }
      AllOnce(base.rows, tokens, results);
      return Ok(results);
    }
  }

  /** `{"revoked": True}`. */
  const RevokedField: Record := map["revoked" := VBool(true)]

  /** The number of rows with that token. */
  function CountToken(rows: seq<Record>, token: string): (n: nat)
    ensures n <= |rows|
    ensures n == 0 <==> forall k :: 0 <= k < |rows| ==> !HasToken(rows[k], token)
  {
    if rows == [] then 0
    else (if HasToken(rows[0], token) then 1 else 0) + CountToken(rows[1..], token)
  }

  /** The token is a unique column and not the key. */
  lemma TokenColumn(token: string)
    ensures "token" in Uniques
    ensures CreateValues(token).Keys <= Columns - {"id"}
  {
    assert "token" in Columns;
  }

  /** On a table where tokens are distinct, a token that is present is present once. */
  lemma {:induction false} CountOne(rows: seq<Record>, token: string)
    requires Distinct(rows, "token")
    requires exists k :: 0 <= k < |rows| && HasToken(rows[k], token)
    ensures CountToken(rows, token) == 1
  {
    var tail := rows[1..];
    assert Distinct(tail, "token") by {
      forall a, b | 0 <= a < b < |tail| && "token" in tail[a] && "token" in tail[b]
        ensures tail[a]["token"] != tail[b]["token"]
      {
        assert tail[a] == rows[a + 1] && tail[b] == rows[b + 1];
      }
    }
    if HasToken(rows[0], token) {
      forall k | 0 <= k < |tail| ensures !HasToken(tail[k], token) {
        assert tail[k] == rows[k + 1];
      }
    } else {
      var k :| 0 <= k < |rows| && HasToken(rows[k], token);
      assert HasToken(tail[k - 1], token);
      CountOne(tail, token);
    }
  }

  /** Every token whose row is in a table with distinct tokens is there once. */
  lemma AllOnce(rows: seq<Record>, tokens: seq<string>, found: seq<Record>)
    requires Distinct(rows, "token") && |found| == |tokens|
    requires forall k :: 0 <= k < |tokens| ==> HasToken(found[k], tokens[k]) && found[k] in rows
    ensures forall k :: 0 <= k < |tokens| ==> CountToken(rows, tokens[k]) == 1
  {
    forall k | 0 <= k < |tokens| ensures CountToken(rows, tokens[k]) == 1 {
      var j :| 0 <= j < |rows| && rows[j] == found[k];
      CountOne(rows, tokens[k]);
    }
  }

  /** Rows kept by a table that only grows at the end stay in it. */
  lemma Grown(first: seq<Record>, before: seq<Record>, after: seq<Record>, kept: seq<Record>)
    requires |first| <= |before| && before[..|first|] == first
    requires |before| <= |after| && after[..|before|] == before
    requires forall k :: 0 <= k < |kept| ==> kept[k] in before
    ensures |first| <= |after| && after[..|first|] == first
    ensures forall k :: 0 <= k < |kept| ==> kept[k] in after
  {
    forall k | 0 <= k < |kept| ensures kept[k] in after {
      var j :| 0 <= j < |before| && before[j] == kept[k];
      assert after[j] == kept[k];
    }
    assert after[..|first|] == after[..|before|][..|first|];
  }

  /** Setting `revoked` cannot break the uniqueness of `token`. */
  lemma RevokeNoClash(rows: seq<Record>, id: Value, row: Record)
    requires forall k :: 0 <= k < |rows| ==> rows[k].Keys == Columns
    requires Distinct(rows, "token")
    requires row in rows && HasId(row, id) && Distinct(rows, "id")
    ensures !Clashes(rows, Uniques, id, Merge(row, RevokedField))
  {
    var m := Merge(row, RevokedField);
    var i :| 0 <= i < |rows| && rows[i] == row;
    forall k | 0 <= k < |rows| && !HasId(rows[k], id)
      ensures rows[k]["token"] != m["token"]
    {
      assert k != i;
    }
  }

  /** After the revoking update, the token's row is still found and is revoked. */
  lemma RevokedRowKept(rows: seq<Record>, id: Value, i: nat, token: string)
    requires i < |rows| && HasId(rows[i], id) && HasToken(rows[i], token)
    ensures var after := Replace(rows, id, RevokedField);
      HasToken(after[i], token) && after[i]["revoked"] == VBool(true)
  {
  }

  /** A token not yet in the table collides with no row. */
  lemma NewTokenNoCollision(rows: seq<Record>, token: string, row: Record)
    requires forall k :: 0 <= k < |rows| ==> !HasToken(rows[k], token)
    requires HasToken(row, token)
    ensures !Collides(rows, Uniques, row)
  {
  }
}
