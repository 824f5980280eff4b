/**
 * Keyset pagination clauses: the WHERE clause that keeps the rows after (or,
 * reversed, before) a cursor in the sort order, the ORDER BY clause, the
 * cursor taken from a row, and the unique tie-breaker appended to the sort.
 * A model class is reduced to the set of its column names (`getattr` on
 * anything else is an `AttributeError`), a row to a map from column names to
 * values, and the database's ordering of values to a parameter `less`.
 */
module Keyset {
  import opened Wrappers
  import opened QuerySchemas

  /** `getattr` on a name the model or row does not have. */
  datatype KeysetError = AttributeError

  datatype CmpOp = Eq | Gt | Lt

  /** The SQL expressions the builder produces: comparisons, `and_` and `or_`. */
  datatype Clause = Compare(column: string, op: CmpOp, value: Value) | All(parts: seq<Clause>) | AnyOf(parts: seq<Clause>)

  type Row = map<string, Value>

  // ---------------------------------------------------------------------------
  // Semantics

  /** A clause evaluated on a row, with `less` the column ordering. */
  predicate Holds(c: Clause, row: Row, less: (Value, Value) -> bool)
  {
    match c
    case Compare(col, op, v) =>
      col in row &&
      (match op
       case Eq => row[col] == v
       case Gt => less(v, row[col])
       case Lt => less(row[col], v))
    case All(parts) => forall i :: 0 <= i < |parts| ==> Holds(parts[i], row, less)
    case AnyOf(parts) => exists i :: 0 <= i < |parts| && Holds(parts[i], row, less)
  }

  /** The row carries the cursor field's value. */
  predicate Matches(row: Row, f: KeysetField)
  {
    f.name in row && row[f.name] == f.value
  }

  /** The row is strictly past the cursor field in its direction, or before it when reversed. */
  predicate Beyond(row: Row, f: KeysetField, reverse: bool, less: (Value, Value) -> bool)
  {
    f.name in row &&
    if (f.direction == Asc) != reverse then less(f.value, row[f.name]) else less(row[f.name], f.value)
  }

  /** Lexicographic "after the cursor": beyond on the first field, or equal on it and after on the rest. */
  predicate After(row: Row, fields: seq<KeysetField>, reverse: bool, less: (Value, Value) -> bool)
  {
    fields != [] &&
    (Beyond(row, fields[0], reverse, less) || (Matches(row, fields[0]) && After(row, fields[1..], reverse, less)))
  }

  // ---------------------------------------------------------------------------
  // build_where_clause

  /** ASC compares with ">" and DESC with "<"; `reverse` swaps the two. */
  function StrictOp(d: SortDirection, reverse: bool): (op: CmpOp)
    ensures !op.Eq?
    ensures op.Gt? <==> ((d.Asc? && !reverse) || (d.Desc? && reverse))
  {
    if d == Asc then (if reverse then Lt else Gt) else (if reverse then Gt else Lt)
  }

  /** The equalities on the first `j` cursor fields. */
  function Equalities(fields: seq<KeysetField>, j: nat): (r: seq<Clause>)
    requires j <= |fields|
    ensures |r| == j
    ensures forall k :: 0 <= k < j ==> r[k] == Compare(fields[k].name, Eq, fields[k].value)
  {
    if j == 0 then [] else Equalities(fields, j - 1) + [Compare(fields[j - 1].name, Eq, fields[j - 1].value)]
  }

  /** Level `i`: the fields before `i` equal and field `i` strictly beyond. */
  function Level(fields: seq<KeysetField>, i: nat, reverse: bool): Clause
    requires i < |fields|
  {
    All(Equalities(fields, i) + [Compare(fields[i].name, StrictOp(fields[i].direction, reverse), fields[i].value)])
  }

  /** The first `n` levels. */
  function Levels(fields: seq<KeysetField>, n: nat, reverse: bool): (r: seq<Clause>)
    requires n <= |fields|
    ensures |r| == n
    ensures forall i :: 0 <= i < n ==> r[i] == Level(fields, i, reverse)
  {
    if n == 0 then [] else Levels(fields, n - 1, reverse) + [Level(fields, n - 1, reverse)]
  }

  predicate AllKnown(columns: set<string>, fields: seq<KeysetField>)
  {
    forall k :: 0 <= k < |fields| ==> fields[k].name in columns
  }

  /** `build_where_clause` as a value: no clause for an empty cursor, else the OR of the levels. */
  function WhereClause(columns: set<string>, cursor: KeysetCursor, reverse: bool): Result<Option<Clause>, KeysetError>
  {
    if cursor.fields == [] then Ok(None)
    else if !AllKnown(columns, cursor.fields) then Err(AttributeError)
    else Ok(Some(AnyOf(Levels(cursor.fields, |cursor.fields|, reverse))))
  }

  /** `build_where_clause`: for each level, the equalities on the earlier fields and then the strict comparison. */
  method BuildWhereClause(columns: set<string>, cursor: KeysetCursor, reverse: bool) returns (r: Result<Option<Clause>, KeysetError>)
    ensures r == WhereClause(columns, cursor, reverse)
  {
    var fields := cursor.fields;
    if fields == [] {
      return Ok(None);
    }
    var conditions: seq<Clause> := [];
    for i := 0 to |fields|
      invariant conditions == Levels(fields, i, reverse)
      invariant forall k :: 0 <= k < i ==> fields[k].name in columns
    {
      var level: seq<Clause> := [];
      for j := 0 to i
        invariant level == Equalities(fields, j)
      {
        level := level + [Compare(fields[j].name, Eq, fields[j].value)];
      }
      if fields[i].name !in columns {
        return Err(AttributeError);
      }
      var op: CmpOp;
      if fields[i].direction == Asc {
        op := if reverse then Lt else Gt;
      } else {
        op := if reverse then Gt else Lt;
      }
      level := level + [Compare(fields[i].name, op, fields[i].value)];
      conditions := conditions + [All(level)];
    }
    return Ok(Some(AnyOf(conditions)));
  }

  // ---------------------------------------------------------------------------
  // What the WHERE clause means

  /** Level `i` holds: every earlier field matches and field `i` is beyond. */
  predicate LevelHolds(row: Row, fields: seq<KeysetField>, i: nat, reverse: bool, less: (Value, Value) -> bool)
    requires i < |fields|
  {
    (forall j :: 0 <= j < i ==> Matches(row, fields[j])) && Beyond(row, fields[i], reverse, less)
  }

  lemma LevelMeaning(row: Row, fields: seq<KeysetField>, i: nat, reverse: bool, less: (Value, Value) -> bool)
    requires i < |fields|
    ensures Holds(Level(fields, i, reverse), row, less) <==> LevelHolds(row, fields, i, reverse, less)
  {
    var parts := Equalities(fields, i) + [Compare(fields[i].name, StrictOp(fields[i].direction, reverse), fields[i].value)];
    assert parts[i] == Compare(fields[i].name, StrictOp(fields[i].direction, reverse), fields[i].value);
    assert forall j :: 0 <= j < i ==> parts[j] == Compare(fields[j].name, Eq, fields[j].value);
  }

  lemma {:induction false} LevelsMeaning(row: Row, fields: seq<KeysetField>, n: nat, reverse: bool, less: (Value, Value) -> bool)
    requires n <= |fields|
    ensures Holds(AnyOf(Levels(fields, n, reverse)), row, less) <==> exists i :: 0 <= i < n && LevelHolds(row, fields, i, reverse, less)
  {
    var ls := Levels(fields, n, reverse);
    forall i | 0 <= i < n
      ensures Holds(ls[i], row, less) <==> LevelHolds(row, fields, i, reverse, less)
    {
      LevelMeaning(row, fields, i, reverse, less);
    }
  }

  /** Level `i + 1` of the fields is the first field matching and level `i` of the rest. */
  lemma LevelShift(row: Row, fields: seq<KeysetField>, i: nat, reverse: bool, less: (Value, Value) -> bool)
    requires i + 1 < |fields|
    ensures LevelHolds(row, fields, i + 1, reverse, less) <==> Matches(row, fields[0]) && LevelHolds(row, fields[1..], i, reverse, less)
  {
    var rest := fields[1..];
    assert forall j :: 0 <= j < i ==> rest[j] == fields[j + 1];
    if Matches(row, fields[0]) && LevelHolds(row, rest, i, reverse, less) {
      forall j | 0 <= j < i + 1
        ensures Matches(row, fields[j])
      {
        if j > 0 {
          assert fields[j] == rest[j - 1];
        }
      }
    }
  }

  lemma {:induction false} AfterIsSomeLevel(row: Row, fields: seq<KeysetField>, reverse: bool, less: (Value, Value) -> bool)
    ensures After(row, fields, reverse, less) <==> exists i :: 0 <= i < |fields| && LevelHolds(row, fields, i, reverse, less)
    decreases |fields|
  {
    if fields != [] {
      var rest := fields[1..];
      AfterIsSomeLevel(row, rest, reverse, less);
      forall i | 0 <= i < |rest|
        ensures LevelHolds(row, fields, i + 1, reverse, less) <==> Matches(row, fields[0]) && LevelHolds(row, rest, i, reverse, less)
      {
        LevelShift(row, fields, i, reverse, less);
      }
      if Beyond(row, fields[0], reverse, less) {
        assert LevelHolds(row, fields, 0, reverse, less);
      }
      if After(row, fields, reverse, less) && !Beyond(row, fields[0], reverse, less) {
        var i :| 0 <= i < |rest| && LevelHolds(row, rest, i, reverse, less);
        assert LevelHolds(row, fields, i + 1, reverse, less);
      }
      if exists i :: 0 <= i < |fields| && LevelHolds(row, fields, i, reverse, less) {
        var i :| 0 <= i < |fields| && LevelHolds(row, fields, i, reverse, less);
        if i > 0 {
          assert LevelHolds(row, rest, i - 1, reverse, less) && Matches(row, fields[0]);
          assert After(row, rest, reverse, less);
        }
      }
    }
  }

  /**
   * The OR of the levels is exactly the lexicographic "after the cursor" (or
   * "before", reversed): the row is kept iff on the first field where it
   * differs from the cursor it lies beyond the cursor's value.
   */
  lemma WhereMeansAfter(columns: set<string>, cursor: KeysetCursor, reverse: bool, row: Row, less: (Value, Value) -> bool)
    requires WhereClause(columns, cursor, reverse) == Ok(Some(AnyOf(Levels(cursor.fields, |cursor.fields|, reverse))))
    ensures Holds(AnyOf(Levels(cursor.fields, |cursor.fields|, reverse)), row, less) <==> After(row, cursor.fields, reverse, less)
  {
    LevelsMeaning(row, cursor.fields, |cursor.fields|, reverse, less);
    AfterIsSomeLevel(row, cursor.fields, reverse, less);
  }

  /** The where clause is built exactly for a non-empty cursor naming only model columns. */
  lemma WhereClauseCases(columns: set<string>, cursor: KeysetCursor, reverse: bool)
    ensures WhereClause(columns, cursor, reverse) == Ok(None) <==> cursor.fields == []
    ensures WhereClause(columns, cursor, reverse).Err? <==> cursor.fields != [] && exists k :: 0 <= k < |cursor.fields| && cursor.fields[k].name !in columns
  {
  }

  /** The cursor's fields with every direction flipped. */
  function FlipFields(fields: seq<KeysetField>): (r: seq<KeysetField>)
    ensures |r| == |fields|
    ensures forall i :: 0 <= i < |fields| ==> r[i] == fields[i].(direction := Flip(fields[i].direction))
  {
    if fields == [] then [] else [fields[0].(direction := Flip(fields[0].direction))] + FlipFields(fields[1..])
  }

  /** Reversing the where clause is the same as flipping every direction of the cursor. */
  lemma {:induction false} ReverseIsFlip(row: Row, fields: seq<KeysetField>, less: (Value, Value) -> bool)
    ensures After(row, fields, true, less) <==> After(row, FlipFields(fields), false, less)
    decreases |fields|
  {
    if fields != [] {
      ReverseIsFlip(row, fields[1..], less);
      assert FlipFields(fields)[1..] == FlipFields(fields[1..]);
    }
  }

  /** With an irreflexive ordering, the row a cursor was taken from is never after it. */
  lemma {:induction false} CursorRowNotAfter(row: Row, fields: seq<KeysetField>, reverse: bool, less: (Value, Value) -> bool)
    requires forall v :: !less(v, v)
    requires forall k :: 0 <= k < |fields| ==> Matches(row, fields[k])
    ensures !After(row, fields, reverse, less)
    decreases |fields|
  {
    if fields != [] {
      assert Matches(row, fields[0]);
      CursorRowNotAfter(row, fields[1..], reverse, less);
    }
  }

  // ---------------------------------------------------------------------------
  // build_order_clause

  /** `build_order_clause` as a value: one column per sort field, each direction flipped when reversed. */
  function OrderClause(columns: set<string>, sortFields: seq<SortField>, reverse: bool): (r: Result<seq<SortField>, KeysetError>)
    ensures r.Ok? <==> forall k :: 0 <= k < |sortFields| ==> sortFields[k].0 in columns
    ensures r.Ok? ==> |r.value| == |sortFields|
    ensures r.Ok? ==> forall k :: 0 <= k < |sortFields| ==>
      r.value[k].0 == sortFields[k].0 && r.value[k].1 == (if reverse then Flip(sortFields[k].1) else sortFields[k].1)
  {
    if sortFields == [] then Ok([])
    else
      match OrderClause(columns, sortFields[..|sortFields| - 1], reverse)
      case Err(_) => Err(AttributeError)
      case Ok(prefix) =>
        var (name, d) := sortFields[|sortFields| - 1];
        if name !in columns then Err(AttributeError)
        else Ok(prefix + [(name, if reverse then Flip(d) else d)])
  }

  /** `build_order_clause`: the loop over the sort fields. */
  method BuildOrderClause(columns: set<string>, sortFields: seq<SortField>, reverse: bool) returns (r: Result<seq<SortField>, KeysetError>)
    ensures r == OrderClause(columns, sortFields, reverse)
  {
    var clauses: seq<SortField> := [];
    for i := 0 to |sortFields|
      invariant OrderClause(columns, sortFields[..i], reverse) == Ok(clauses)
    {
      assert sortFields[..i + 1][..i] == sortFields[..i];
      var (name, direction) := sortFields[i];
      if name !in columns {
        assert OrderClause(columns, sortFields, reverse).Err?;
        return Err(AttributeError);
      }
      var actual := if reverse then (if direction == Asc then Desc else Asc) else direction;
      clauses := clauses + [(name, actual)];
    }
    assert sortFields[..|sortFields|] == sortFields;
    return Ok(clauses);
  }

  // ---------------------------------------------------------------------------
  // create_cursor_from_row

  /** `create_cursor_from_row` as a value. */
  function CursorFromRow(row: Row, sortFields: seq<SortField>): (r: Result<KeysetCursor, KeysetError>)
    ensures r.Ok? <==> forall k :: 0 <= k < |sortFields| ==> sortFields[k].0 in row
    ensures r.Ok? ==> |r.value.fields| == |sortFields|
    ensures r.Ok? ==> forall k :: 0 <= k < |sortFields| ==>
      r.value.fields[k] == KeysetField(sortFields[k].0, row[sortFields[k].0], sortFields[k].1)
  {
    if sortFields == [] then Ok(KeysetCursor([]))
    else
      match CursorFromRow(row, sortFields[..|sortFields| - 1])
      case Err(_) => Err(AttributeError)
      case Ok(prefix) =>
        var (name, d) := sortFields[|sortFields| - 1];
        if name !in row then Err(AttributeError)
        else Ok(KeysetCursor(prefix.fields + [KeysetField(name, row[name], d)]))
  }

  /** `create_cursor_from_row`: one field per sort field, in order, holding the row's value. */
  method CreateCursorFromRow(row: Row, sortFields: seq<SortField>) returns (r: Result<KeysetCursor, KeysetError>)
    ensures r == CursorFromRow(row, sortFields)
  {
    var fields: seq<KeysetField> := [];
    for i := 0 to |sortFields|
      invariant CursorFromRow(row, sortFields[..i]) == Ok(KeysetCursor(fields))
    {
      assert sortFields[..i + 1][..i] == sortFields[..i];
      var (name, direction) := sortFields[i];
      if name !in row {
        assert CursorFromRow(row, sortFields).Err?;
        return Err(AttributeError);
      }
      fields := fields + [KeysetField(name, row[name], direction)];
    }
    assert sortFields[..|sortFields|] == sortFields;
    return Ok(KeysetCursor(fields));
  }

  /** The next page never repeats the row the cursor was taken from. */
  lemma NextPageSkipsCursorRow(row: Row, sortFields: seq<SortField>, reverse: bool, less: (Value, Value) -> bool)
    requires forall v :: !less(v, v)
    requires CursorFromRow(row, sortFields).Ok?
    ensures !After(row, CursorFromRow(row, sortFields).value.fields, reverse, less)
  {
    CursorRowNotAfter(row, CursorFromRow(row, sortFields).value.fields, reverse, less);
  }

  // ---------------------------------------------------------------------------
  // ensure_unique_sort

  predicate HasName(sortFields: seq<SortField>, name: string)
  {
    exists k :: 0 <= k < |sortFields| && sortFields[k].0 == name
  }

  /** `ensure_unique_sort`: append "id" in the first field's direction (ascending when there is none) when it is missing and the model has it. */
  function UniqueSort(columns: set<string>, sortFields: seq<SortField>): (r: seq<SortField>)
    ensures HasName(sortFields, "id") || "id" !in columns ==> r == sortFields
    ensures !HasName(sortFields, "id") && "id" in columns ==>
      r == sortFields + [("id", if sortFields == [] then Asc else sortFields[0].1)]
  {
    if !HasName(sortFields, "id") && "id" in columns then
      sortFields + [("id", if sortFields == [] then Asc else sortFields[0].1)]
    else sortFields
  }

  /** After `ensure_unique_sort` the sort names "id" whenever the model has it, and the original fields lead. */
  lemma UniqueSortHasId(columns: set<string>, sortFields: seq<SortField>)
    ensures var r := UniqueSort(columns, sortFields);
      r[..|sortFields|] == sortFields && ("id" in columns ==> HasName(r, "id"))
  {
    var r := UniqueSort(columns, sortFields);
    if !HasName(sortFields, "id") && "id" in columns {
      assert r[|sortFields|].0 == "id";
    }
  }

  /** `ensure_unique_sort` is idempotent. */
  lemma UniqueSortIdempotent(columns: set<string>, sortFields: seq<SortField>)
    ensures UniqueSort(columns, UniqueSort(columns, sortFields)) == UniqueSort(columns, sortFields)
  {
    UniqueSortHasId(columns, sortFields);
  }
}
