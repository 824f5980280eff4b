/**
 * `BaseRepository`: the CRUD operations every repository inherits, over an
 * in-memory table. A row is a map from column name to value; the table keeps
 * its rows in insertion order. The database guarantees a primary key `id`
 * and, for the columns in `uniques`, unique values; a write that would break
 * either fails with `IntegrityError` and changes nothing.
 */
module BaseRepository {
  import opened Wrappers

  /** A column value: the Python values the models store. */
  datatype Value = VInt(i: int) | VText(s: string) | VBool(b: bool) | VNull

  type Record = map<string, Value>

  datatype DbError =
    | MultipleResultsFound   // one_or_none met more than one row
    | IntegrityError         // a primary key or unique constraint failed at flush

  /** Python truthiness: `0`, `""`, `False` and `None` are false. */
  predicate Falsy(v: Value)
  {
    v == VInt(0) || v == VText("") || v == VBool(false) || v == VNull
  }

  /** `col(field) == value` for every keyword naming a column (`hasattr`); other keywords are ignored. */
  predicate AllMatch(row: Record, columns: set<string>, kwargs: Record)
  {
    forall f :: f in kwargs && f in columns ==> f in row && row[f] == kwargs[f]
  }

  /** `or_(...)` over the keywords naming a column. */
  predicate AnyMatch(row: Record, columns: set<string>, kwargs: Record)
  {
    exists f :: f in kwargs && f in columns && f in row && row[f] == kwargs[f]
  }

  /** The keywords that name a column. */
  function Known(columns: set<string>, kwargs: Record): (k: Record)
    ensures k.Keys == kwargs.Keys * columns
    ensures forall f :: f in k ==> k[f] == kwargs[f]
  {
    map f | f in kwargs && f in columns :: kwargs[f]
  }

  /** The positions of the rows a lookup selects (AND when `any` is false, OR when true), in table order. */
  function MatchIndices(rows: seq<Record>, columns: set<string>, kwargs: Record, any: bool): (m: seq<nat>)
    ensures forall k :: 0 <= k < |m| ==> m[k] < |rows|
    ensures forall k :: 0 <= k < |m| ==> Selects(rows[m[k]], columns, kwargs, any)
    ensures forall i :: 0 <= i < |rows| && Selects(rows[i], columns, kwargs, any) ==> i in m
    ensures forall a, b :: 0 <= a < b < |m| ==> m[a] < m[b]
  {
    if rows == [] then []
    else
      var init := MatchIndices(rows[..|rows| - 1], columns, kwargs, any);
      assert forall i :: 0 <= i < |rows| - 1 ==> rows[..|rows| - 1][i] == rows[i];
      init + (if Selects(rows[|rows| - 1], columns, kwargs, any) then [|rows| - 1] else [])
  }

  predicate Selects(row: Record, columns: set<string>, kwargs: Record, any: bool)
  {
    if any then AnyMatch(row, columns, kwargs) else AllMatch(row, columns, kwargs)
  }

  /** A lookup selects no position exactly when no row is selected. */
  lemma NoMatchIndices(rows: seq<Record>, columns: set<string>, kwargs: Record, any: bool)
    ensures MatchIndices(rows, columns, kwargs, any) == [] <==> forall i :: 0 <= i < |rows| ==> !Selects(rows[i], columns, kwargs, any)
  {
    var m := MatchIndices(rows, columns, kwargs, any);
    if m != [] {
      assert Selects(rows[m[0]], columns, kwargs, any);
    }
  }

  /** `result.one_or_none()`: no row, the one row, or `MultipleResultsFound`. */
  function OneOrNone(rows: seq<Record>, m: seq<nat>): (r: Result<Option<Record>, DbError>)
    requires forall k :: 0 <= k < |m| ==> m[k] < |rows|
    ensures r == Ok(None) <==> m == []
    ensures r.Err? <==> |m| >= 2
    ensures r.Ok? && r.value.Some? ==> r.value.value == rows[m[0]]
  {
    if m == [] then Ok(None)
    else if |m| == 1 then Ok(Some(rows[m[0]]))
    else Err(MultipleResultsFound)
  }

  /** The first row whose `id` is `id`. */
  function Lookup(rows: seq<Record>, id: Value): (r: Option<Record>)
    ensures r.Some? ==> r.value in rows && "id" in r.value && r.value["id"] == id
    ensures r.None? <==> forall k :: 0 <= k < |rows| ==> !HasId(rows[k], id)
  {
    if rows == [] then None
    else if HasId(rows[0], id) then Some(rows[0])
    else
      var r := Lookup(rows[1..], id);
      assert forall k :: 1 <= k < |rows| ==> rows[1..][k - 1] == rows[k];
      r
  }

  predicate HasId(row: Record, id: Value)
  {
    "id" in row && row["id"] == id
  }

  /** `sqlmodel_update`: the supplied fields override, every other column keeps its value. */
  function Merge(row: Record, fields: Record): (m: Record)
    ensures m.Keys == row.Keys + fields.Keys
    ensures forall k :: k in fields ==> m[k] == fields[k]
    ensures forall k :: k in row && k !in fields ==> m[k] == row[k]
  {
    row + fields
  }

  /** The table after the row with `id` is updated with `fields`. */
  function Replace(rows: seq<Record>, id: Value, fields: Record): (r: seq<Record>)
    ensures |r| == |rows|
  {
    seq(|rows|, k requires 0 <= k < |rows| => if HasId(rows[k], id) then Merge(rows[k], fields) else rows[k])
  }

  /** The table without the rows whose `id` is `id`. */
  function Without(rows: seq<Record>, id: Value): (r: seq<Record>)
    ensures forall x :: x in r <==> x in rows && !HasId(x, id)
  {
    if rows == [] then []
    else (if HasId(rows[0], id) then [] else [rows[0]]) + Without(rows[1..], id)
  }

  /** No two rows agree on the column `c`. */
  predicate Distinct(rows: seq<Record>, c: string)
  {
    forall i, j :: 0 <= i < j < |rows| && c in rows[i] && c in rows[j] ==> rows[i][c] != rows[j][c]
  }

  /** Whether `row` agrees on a unique column with some row other than the one whose `id` is `self`. */
  predicate Clashes(rows: seq<Record>, uniques: set<string>, self: Value, row: Record)
  {
    exists k, c :: 0 <= k < |rows| && c in uniques && !HasId(rows[k], self) && c in rows[k] && c in row && rows[k][c] == row[c]
  }

  /** Whether `row` agrees on a unique column with some row of the table. */
  predicate Collides(rows: seq<Record>, uniques: set<string>, row: Record)
  {
    exists k, c :: 0 <= k < |rows| && c in uniques && c in rows[k] && c in row && rows[k][c] == row[c]
  }

  /** A table: the columns of the model, its unique constraints, the column defaults, and the rows. */
  class Repository {
    const columns: set<string>
    const uniques: set<string>
    const defaults: Record
    var rows: seq<Record>

    /** Every row has exactly the model's columns; `id` and each unique column are distinct. */
    ghost predicate Valid()
      reads this
    {
      Schema(columns, uniques, defaults)
      && (forall k :: 0 <= k < |rows| ==> rows[k].Keys == columns)
      && Distinct(rows, "id")
      && (forall c :: c in uniques ==> Distinct(rows, c))
    }

    static predicate Schema(columns: set<string>, uniques: set<string>, defaults: Record)
    {
      "id" in columns && uniques <= columns && "id" !in uniques && defaults.Keys == columns - {"id"}
    }

    constructor(columns: set<string>, uniques: set<string>, defaults: Record)
      requires Schema(columns, uniques, defaults)
      ensures this.columns == columns && this.uniques == uniques && this.defaults == defaults
      ensures rows == []
      ensures Valid()
    {
      this.columns := columns;
      this.uniques := uniques;
      this.defaults := defaults;
      rows := [];
    }

    /** `find_one_by_and_none`: the one row matching every known keyword; unknown keywords are ignored. */
    function FindOneByAnd(kwargs: Record): (r: Result<Option<Record>, DbError>)
      reads this
      ensures r == Ok(None) <==> forall i :: 0 <= i < |rows| ==> !AllMatch(rows[i], columns, kwargs)
      ensures r.Ok? && r.value.Some? ==> r.value.value in rows && AllMatch(r.value.value, columns, kwargs)
    {
      NoMatchIndices(rows, columns, kwargs, false);
      OneOrNone(rows, MatchIndices(rows, columns, kwargs, false))
    }

    /** `find_one_by_or_none`: `None` when no keyword names a column, else the one row matching some keyword. */
    function FindOneByOr(kwargs: Record): (r: Result<Option<Record>, DbError>)
      reads this
      ensures Known(columns, kwargs) == map[] ==> r == Ok(None)
      ensures r == Ok(None) <==> forall i :: 0 <= i < |rows| ==> !AnyMatch(rows[i], columns, kwargs)
      ensures r.Ok? && r.value.Some? ==> r.value.value in rows && AnyMatch(r.value.value, columns, kwargs)
    {
      if Known(columns, kwargs) == map[] then
        assert forall f :: f in kwargs && f in columns ==> f in Known(columns, kwargs);
        Ok(None)
      else OneOrNone(rows, MatchIndices(rows, columns, kwargs, true))
    }

    /** `find_one_by(id)` without query parameters: a falsy id finds nothing; otherwise the row with that key. */
    function FindOneBy(id: Value): (r: Option<Record>)
      reads this
      requires Valid()
      ensures Falsy(id) ==> r == None
      ensures !Falsy(id) ==> r == Lookup(rows, id)
    {
      if Falsy(id) then None else Lookup(rows, id)
    }

    /** `exists(id)`: whether some row has that key. */
    function Exists(id: Value): (r: bool)
      reads this
      ensures r <==> exists k :: 0 <= k < |rows| && HasId(rows[k], id)
    {
      Lookup(rows, id).Some?
    }

    /** The position of the row whose key is `id`, if any. */
    method Position(id: Value) returns (p: Option<nat>)
      ensures p.None? <==> Lookup(rows, id).None?
      ensures p.Some? ==> p.value < |rows| && HasId(rows[p.value], id)
    {
      var i := 0;
      while i < |rows|
        invariant 0 <= i <= |rows|
        invariant forall k :: 0 <= k < i ==> !HasId(rows[k], id)
      {
        if HasId(rows[i], id) {
          return Some(i);
        }
        i := i + 1;
      }
      return None;
    }

    /**
     * `update(id, fields)`: `None` when `find_one_by` finds nothing; the row
     * unchanged when there is nothing to update; otherwise the row with the
     * supplied fields overriding, unless that breaks a unique constraint.
     */
    method Update(id: Value, fields: Record) returns (r: Result<Option<Record>, DbError>)
      requires Valid()
      requires fields.Keys <= columns - {"id"}
      modifies this
      ensures Valid()
      ensures old(FindOneBy(id)).None? ==> r == Ok(None) && rows == old(rows)
      ensures old(FindOneBy(id)).Some? && fields == map[] ==> r == Ok(old(FindOneBy(id))) && rows == old(rows)
      ensures old(FindOneBy(id)).Some? && fields != map[] ==>
        var merged := Merge(old(FindOneBy(id)).value, fields);
        if Clashes(old(rows), uniques, id, merged) then r == Err(IntegrityError) && rows == old(rows)
        else r == Ok(Some(merged)) && rows == Replace(old(rows), id, fields)
      ensures r.Ok? && r.value.Some? ==> FindOneBy(id) == r.value
    {
      var existing := FindOneBy(id);
      if existing.None? {
        return Ok(None);
      }
      if fields == map[] {
        return Ok(existing);
      }
      var merged := Merge(existing.value, fields);
      if Clashes(rows, uniques, id, merged) {
        return Err(IntegrityError);
      }
      var p := Position(id);
      var i := p.value;
      LookupAt(rows, id, i);
      UpdateKeepsValid(id, fields, i);
      rows := Replace(rows, id, fields);
      LookupAt(rows, id, i);
      return Ok(Some(merged));
    }

    lemma UpdateKeepsValid(id: Value, fields: Record, i: nat)
      requires Valid()
      requires fields.Keys <= columns - {"id"}
      requires i < |rows| && HasId(rows[i], id)
      requires !Clashes(rows, uniques, id, Merge(rows[i], fields))
      ensures var after := Replace(rows, id, fields);
        (forall k :: 0 <= k < |after| ==> after[k].Keys == columns)
        && Distinct(after, "id")
        && (forall c :: c in uniques ==> Distinct(after, c))
    {
      var after := Replace(rows, id, fields);
      forall k | 0 <= k < |rows|
        ensures after[k] == if k == i then Merge(rows[i], fields) else rows[k]
        ensures "id" in after[k] && after[k]["id"] == rows[k]["id"]
      {
        if k < i {
          assert rows[k]["id"] != rows[i]["id"];
        } else if k > i {
          assert rows[i]["id"] != rows[k]["id"];
        }
      }
      forall c | c in uniques ensures Distinct(after, c) {
        forall a, b | 0 <= a < b < |after| && c in after[a] && c in after[b]
          ensures after[a][c] != after[b][c]
        {
          if a == i {
            assert !HasId(rows[b], id);
          } else if b == i {
            assert !HasId(rows[a], id);
          }
        }
      }
    }

    /** `delete(id)`: true iff a row had that key (no falsy check), and that row is gone. */
    method Delete(id: Value) returns (r: bool)
      requires Valid()
      modifies this
      ensures Valid()
      ensures r <==> old(Exists(id))
      ensures rows == Without(old(rows), id)
      ensures !Exists(id)
      ensures r ==> |rows| == |old(rows)| - 1
    {
      var p := Position(id);
      if p.None? {
        NoneWithout(rows, id);
        return false;
      }
      var i := p.value;
      RemoveAt(rows, id, i);
      RemoveKeepsValid(i);
      rows := rows[..i] + rows[i + 1..];
      return true;
    }

    lemma RemoveKeepsValid(i: nat)
      requires Valid() && i < |rows|
      ensures var after := rows[..i] + rows[i + 1..];
        (forall k :: 0 <= k < |after| ==> after[k].Keys == columns)
        && Distinct(after, "id")
        && (forall c :: c in uniques ==> Distinct(after, c))
    {
      var after := rows[..i] + rows[i + 1..];
      assert forall k :: 0 <= k < |after| ==> after[k] == rows[if k < i then k else k + 1];
    }

    /**
     * `create(values)`: a new row from the column defaults, the supplied
     * values and the generated key `newId`, appended unless it breaks the
     * primary key or a unique constraint.
     */
    method Create(values: Record, newId: Value) returns (r: Result<Record, DbError>)
      requires Valid()
      requires values.Keys <= columns - {"id"}
      modifies this
      ensures Valid()
      ensures var row := old(NewRow(values, newId));
        if old(Exists(newId)) || Collides(old(rows), uniques, row) then r == Err(IntegrityError) && rows == old(rows)
        else r == Ok(row) && rows == old(rows) + [row]
    {
      var row := NewRow(values, newId);
      if Exists(newId) || Collides(rows, uniques, row) {
        return Err(IntegrityError);
      }
      CreateKeepsValid(row, newId);
      rows := rows + [row];
      return Ok(row);
    }

    /** The row `create` builds: defaults, then the supplied values, then the generated key. */
    function NewRow(values: Record, newId: Value): (row: Record)
      reads this
      requires Valid()
      requires values.Keys <= columns - {"id"}
      ensures row.Keys == columns
      ensures HasId(row, newId)
      ensures forall c :: c in values ==> row[c] == values[c]
      ensures forall c :: c in defaults && c !in values ==> row[c] == defaults[c]
    {
      defaults + values + map["id" := newId]
    }

    lemma CreateKeepsValid(row: Record, newId: Value)
      requires Valid()
      requires row.Keys == columns && HasId(row, newId)
      requires !Exists(newId) && !Collides(rows, uniques, row)
      ensures var after := rows + [row];
        (forall k :: 0 <= k < |after| ==> after[k].Keys == columns)
        && Distinct(after, "id")
        && (forall c :: c in uniques ==> Distinct(after, c))
    {
      var after := rows + [row];
      forall a, b | 0 <= a < b < |after| && "id" in after[a] && "id" in after[b]
        ensures after[a]["id"] != after[b]["id"]
      {
        if b == |rows| {
          assert !HasId(rows[a], newId);
        }
      }
    }
  }

  lemma LookupAt(rows: seq<Record>, id: Value, i: nat)
    requires i < |rows| && HasId(rows[i], id) && Distinct(rows, "id")
    ensures Lookup(rows, id) == Some(rows[i])
  {
    var r := Lookup(rows, id);
    var j :| 0 <= j < |rows| && rows[j] == r.value;
    if j != i {
      assert rows[j]["id"] == rows[i]["id"];
    }
  }

  lemma NoneWithout(rows: seq<Record>, id: Value)
    requires forall k :: 0 <= k < |rows| ==> !HasId(rows[k], id)
    ensures Without(rows, id) == rows
  {
    if rows != [] {
      NoneWithout(rows[1..], id);
    }
  }

  /** With distinct keys, removing the row at `i` is removing every row with its key. */
  lemma {:induction false} RemoveAt(rows: seq<Record>, id: Value, i: nat)
    requires i < |rows| && HasId(rows[i], id) && Distinct(rows, "id")
    requires forall k :: 0 <= k < |rows| ==> "id" in rows[k]
    ensures Without(rows, id) == rows[..i] + rows[i + 1..]
  {
    if i == 0 {
      NoneWithout(rows[1..], id);
      assert rows[..0] + rows[1..] == rows[1..];
    } else {
      assert !HasId(rows[0], id) by {
        assert rows[0]["id"] != rows[i]["id"];
      }
      var tail := rows[1..];
      assert Distinct(tail, "id") by {
        forall a, b | 0 <= a < b < |tail| && "id" in tail[a] && "id" in tail[b]
          ensures tail[a]["id"] != tail[b]["id"]
        {
          assert tail[a] == rows[a + 1] && tail[b] == rows[b + 1];
        }
      }
      RemoveAt(tail, id, i - 1);
      assert rows[..i] + rows[i + 1..] == [rows[0]] + (tail[..i - 1] + tail[i..]);
    }
  }

  /** Two different rows are selected. */
  predicate SelectsTwo(rows: seq<Record>, columns: set<string>, kwargs: Record, any: bool)
  {
    exists i, j :: 0 <= i < j < |rows| && Selects(rows[i], columns, kwargs, any) && Selects(rows[j], columns, kwargs, any)
  }

  /** `one_or_none` fails exactly when two rows are selected. */
  lemma MatchTwice(rows: seq<Record>, columns: set<string>, kwargs: Record, any: bool)
    ensures |MatchIndices(rows, columns, kwargs, any)| >= 2 <==> SelectsTwo(rows, columns, kwargs, any)
  {
    var m := MatchIndices(rows, columns, kwargs, any);
    if |m| >= 2 {
      TwoIndices(rows, columns, kwargs, any, m);
    }
    if SelectsTwo(rows, columns, kwargs, any) {
      var i, j :| 0 <= i < j < |rows| && Selects(rows[i], columns, kwargs, any) && Selects(rows[j], columns, kwargs, any);
      TwoSelected(rows, columns, kwargs, any, m, i, j);
    }
  }

  lemma TwoIndices(rows: seq<Record>, columns: set<string>, kwargs: Record, any: bool, m: seq<nat>)
    requires m == MatchIndices(rows, columns, kwargs, any) && |m| >= 2
    ensures SelectsTwo(rows, columns, kwargs, any)
  {
    assert m[0] < m[1];
    assert Selects(rows[m[0]], columns, kwargs, any) && Selects(rows[m[1]], columns, kwargs, any);
  }

  lemma TwoSelected(rows: seq<Record>, columns: set<string>, kwargs: Record, any: bool, m: seq<nat>, i: nat, j: nat)
    requires m == MatchIndices(rows, columns, kwargs, any)
    requires i < j < |rows| && Selects(rows[i], columns, kwargs, any) && Selects(rows[j], columns, kwargs, any)
    ensures |m| >= 2
  {
    assert i in m && j in m;
    var a :| 0 <= a < |m| && m[a] == i;
    var b :| 0 <= b < |m| && m[b] == j;
    assert a != b;
  }

  /** Two keyword sets that select the same rows give the same lookup. */
  lemma {:induction false} SameSelection(rows: seq<Record>, columns: set<string>, k1: Record, k2: Record, any: bool)
    requires forall i :: 0 <= i < |rows| ==> Selects(rows[i], columns, k1, any) == Selects(rows[i], columns, k2, any)
    ensures MatchIndices(rows, columns, k1, any) == MatchIndices(rows, columns, k2, any)
  {
    if rows != [] {
      var init := rows[..|rows| - 1];
      assert forall i :: 0 <= i < |init| ==> init[i] == rows[i];
      SameSelection(init, columns, k1, k2, any);
    }
  }

  /** `find_one_by_and_none` ignores a keyword that names no column. */
  lemma UnknownKeywordsIgnored(repo: Repository, kwargs: Record)
    ensures repo.FindOneByAnd(kwargs) == repo.FindOneByAnd(Known(repo.columns, kwargs))
    ensures repo.FindOneByOr(kwargs) == repo.FindOneByOr(Known(repo.columns, kwargs))
  {
    var known := Known(repo.columns, kwargs);
    forall row: Record ensures AllMatch(row, repo.columns, kwargs) == AllMatch(row, repo.columns, known)
      && AnyMatch(row, repo.columns, kwargs) == AnyMatch(row, repo.columns, known)
    {
      if AnyMatch(row, repo.columns, kwargs) {
        var f :| f in kwargs && f in repo.columns && f in row && row[f] == kwargs[f];
        assert f in known;
      }
    }
    SameSelection(repo.rows, repo.columns, kwargs, known, false);
    SameSelection(repo.rows, repo.columns, kwargs, known, true);
    assert Known(repo.columns, known) == known;
  }

  /** `find_one_by_and_none` fails iff two rows match every known keyword. */
  lemma AndLookupFails(repo: Repository, kwargs: Record)
    ensures repo.FindOneByAnd(kwargs).Err? <==>
      exists i, j :: 0 <= i < j < |repo.rows| && AllMatch(repo.rows[i], repo.columns, kwargs) && AllMatch(repo.rows[j], repo.columns, kwargs)
  {
    MatchTwice(repo.rows, repo.columns, kwargs, false);
    assert SelectsTwo(repo.rows, repo.columns, kwargs, false) <==>
      exists i, j :: 0 <= i < j < |repo.rows| && AllMatch(repo.rows[i], repo.columns, kwargs) && AllMatch(repo.rows[j], repo.columns, kwargs);
  }

  /** `find_one_by_or_none` fails iff some keyword names a column and two rows each match some keyword. */
  lemma OrLookupFails(repo: Repository, kwargs: Record)
    ensures repo.FindOneByOr(kwargs).Err? <==>
      Known(repo.columns, kwargs) != map[]
      && exists i, j :: 0 <= i < j < |repo.rows| && AnyMatch(repo.rows[i], repo.columns, kwargs) && AnyMatch(repo.rows[j], repo.columns, kwargs)
  {
    MatchTwice(repo.rows, repo.columns, kwargs, true);
    assert SelectsTwo(repo.rows, repo.columns, kwargs, true) <==>
      exists i, j :: 0 <= i < j < |repo.rows| && AnyMatch(repo.rows[i], repo.columns, kwargs) && AnyMatch(repo.rows[j], repo.columns, kwargs);
  }

  /** When exactly one row matches some known keyword, `find_one_by_or_none` returns that row. */
  lemma OrFindsOnly(repo: Repository, kwargs: Record, p: nat)
    requires Known(repo.columns, kwargs) != map[]
    requires p < |repo.rows| && AnyMatch(repo.rows[p], repo.columns, kwargs)
    requires forall i :: 0 <= i < |repo.rows| && i != p ==> !AnyMatch(repo.rows[i], repo.columns, kwargs)
    ensures repo.FindOneByOr(kwargs) == Ok(Some(repo.rows[p]))
  {
    var m := MatchIndices(repo.rows, repo.columns, kwargs, true);
    assert Selects(repo.rows[p], repo.columns, kwargs, true);
    assert p in m;
    assert forall k :: 0 <= k < |m| ==> m[k] == p;
    assert m[0] == m[|m| - 1];
    assert |m| == 1;
  }

  /** On a valid table, looking a key up by keyword never fails and agrees with `find_one_by`. */
  lemma KeyLookup(repo: Repository, id: Value)
    requires repo.Valid()
    requires !Falsy(id)
    ensures repo.FindOneByAnd(map["id" := id]) == Ok(repo.FindOneBy(id))
  {
    var kw := map["id" := id];
    var rows := repo.rows;
    forall i | 0 <= i < |rows| ensures AllMatch(rows[i], repo.columns, kw) <==> HasId(rows[i], id) {
      assert "id" in rows[i];
    }
    MatchTwice(rows, repo.columns, kw, false);
    forall i, j | 0 <= i < j < |rows|
      ensures !(AllMatch(rows[i], repo.columns, kw) && AllMatch(rows[j], repo.columns, kw))
    {
      assert rows[i]["id"] != rows[j]["id"];
    }
    var r := repo.FindOneByAnd(kw);
    if r.Ok? && r.value.Some? {
      var k :| 0 <= k < |rows| && rows[k] == r.value.value;
      LookupAt(rows, id, k);
    }
  }
}
