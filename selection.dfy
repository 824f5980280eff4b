/**
 * Field selection for queries: the comma-separated `fields` parameter is
 * checked against the model's selectable fields, and either a column list,
 * "all columns", or an `InvalidFieldError` naming the rejected fields results.
 * A model is reduced to its attribute names, its optional `SELECTABLE_FIELDS`
 * constant and its declared field names.
 */
module Selection {
  import opened Wrappers
  import Text

  datatype Model = Model(attributes: set<string>, selectableConst: Option<seq<string>>, declaredFields: seq<string>)

  /** `InvalidFieldError(invalid_fields, valid_fields)`. */
  datatype InvalidFieldError = InvalidFieldError(invalidFields: seq<string>, validFields: seq<string>)

  /** The SELECT a query starts from: the whole model or the listed columns. */
  datatype SelectQuery = SelectModel | SelectColumns(columns: seq<string>)

  /** `get_selectable_fields`: the model's `SELECTABLE_FIELDS` when it has one, else its declared fields. */
  function SelectableFields(m: Model): (r: seq<string>)
    ensures m.selectableConst.Some? ==> r == m.selectableConst.value
    ensures m.selectableConst.None? ==> r == m.declaredFields
  {
    if m.selectableConst.Some? then m.selectableConst.value else m.declaredFields
  }

  /** No field list, an empty one or "*" means every field. */
  predicate SelectsAll(selectFields: Option<string>)
  {
    selectFields.None? || selectFields.value == [] || Text.Strip(selectFields.value, Text.Whitespace) == "*"
  }

  /** The non-empty entries, in order. */
  function NonBlank(parts: seq<string>): (r: seq<string>)
    ensures forall x :: x in r <==> x in parts && x != []
  {
    if parts == [] then []
    else
      var rest := NonBlank(parts[1..]);
      assert forall x :: x in parts <==> x == parts[0] || x in parts[1..];
      if parts[0] != [] then [parts[0]] + rest else rest
  }

  /** `[f.strip() for f in s.split(",") if f.strip()]`. */
  function FieldNames(selectFields: string): seq<string>
  {
    NonBlank(Text.StripAll(Text.Split(selectFields, ',')))
  }

  /** A requested field may be selected: not a relationship path, an attribute of the model, and selectable. */
  predicate ValidField(m: Model, name: string)
  {
    '.' !in name && name in m.attributes && name in SelectableFields(m)
  }

  /** `_validate_and_get_columns` as a value: the invalid names and the valid columns, each in request order. */
  function Partition(m: Model, names: seq<string>): (r: (seq<string>, seq<string>))
    ensures forall x :: x in r.0 <==> x in names && !ValidField(m, x)
    ensures forall x :: x in r.1 <==> x in names && ValidField(m, x)
    ensures |r.0| + |r.1| == |names|
  {
    if names == [] then ([], [])
    else
      var (inv, cols) := Partition(m, names[..|names| - 1]);
      var n := names[|names| - 1];
      assert forall x :: x in names <==> x in names[..|names| - 1] || x == n;
      if '.' in n then (inv + [n], cols)
      else if n in m.attributes && n in SelectableFields(m) then (inv, cols + [n])
      else (inv + [n], cols)
  }

  /** `_validate_and_get_columns`: one pass over the names, each going to exactly one of the two lists. */
  method ValidateAndGetColumns(m: Model, names: seq<string>) returns (invalid: seq<string>, columns: seq<string>)
    ensures (invalid, columns) == Partition(m, names)
  {
    invalid := [];
    columns := [];
    var selectable := SelectableFields(m);
    for i := 0 to |names|
      invariant (invalid, columns) == Partition(m, names[..i])
    {
      assert names[..i + 1][..i] == names[..i];
      var name := names[i];
      if '.' in name {
        invalid := invalid + [name];
        continue;
      }
      if name in m.attributes && name in selectable {
        columns := columns + [name];
      } else {
        invalid := invalid + [name];
      }
    }
    assert names[..|names|] == names;
  }

  /** `validate_fields`: raises exactly when a requested field is invalid. */
  function ValidateFields(m: Model, selectFields: Option<string>): (r: Result<(), InvalidFieldError>)
    ensures SelectsAll(selectFields) ==> r.Ok?
    ensures !SelectsAll(selectFields) ==>
      (r.Ok? <==> forall x :: x in FieldNames(selectFields.value) ==> ValidField(m, x))
    ensures r.Err? ==> r.error.validFields == SelectableFields(m) && r.error.invalidFields != []
  {
    if SelectsAll(selectFields) then Ok(())
    else
      var names := FieldNames(selectFields.value);
      var (invalid, _) := Partition(m, names);
      PartitionNoneInvalid(m, names);
      if invalid != [] then Err(InvalidFieldError(invalid, SelectableFields(m))) else Ok(())
  }

  /** Nothing is invalid exactly when every name is valid. */
  lemma PartitionNoneInvalid(m: Model, names: seq<string>)
    ensures Partition(m, names).0 == [] <==> forall x :: x in names ==> ValidField(m, x)
  {
    var inv := Partition(m, names).0;
    if inv != [] {
      assert inv[0] in inv;
    }
  }

  /** `get_selected_fields`: the requested names that are selectable attributes, or every selectable field when none is. */
  function SelectedFields(m: Model, selectFields: Option<string>): (r: seq<string>)
    ensures SelectsAll(selectFields) ==> r == SelectableFields(m)
  {
    if SelectsAll(selectFields) then SelectableFields(m)
    else
      var valid := Keep(m, FieldNames(selectFields.value));
      if valid != [] then valid else SelectableFields(m)
  }

  /** The comprehension's filter: selectable and an attribute, dotted or not. */
  function Keep(m: Model, names: seq<string>): (r: seq<string>)
    ensures forall x :: x in r <==> x in names && x in SelectableFields(m) && x in m.attributes
    ensures (forall x :: x in names ==> x in SelectableFields(m) && x in m.attributes) ==> r == names
  {
    if names == [] then []
    else
      var rest := Keep(m, names[1..]);
      assert forall x :: x in names <==> x == names[0] || x in names[1..];
      if names[0] in SelectableFields(m) && names[0] in m.attributes then [names[0]] + rest else rest
  }

  /** Every name `get_selected_fields` returns is selectable; it falls back to all of them when no requested name is. */
  lemma SelectedFieldsFallback(m: Model, selectFields: Option<string>)
    requires !SelectsAll(selectFields)
    requires forall x :: x in FieldNames(selectFields.value) ==> x !in SelectableFields(m) || x !in m.attributes
    ensures SelectedFields(m, selectFields) == SelectableFields(m)
  {
    var names := FieldNames(selectFields.value);
    KeepNone(m, names);
  }

  lemma KeepNone(m: Model, names: seq<string>)
    requires forall x :: x in names ==> x !in SelectableFields(m) || x !in m.attributes
    ensures Keep(m, names) == []
  {
  }

  /** A field list that passes validation is selected exactly as requested. */
  lemma ValidatedFieldsSelected(m: Model, selectFields: Option<string>)
    requires !SelectsAll(selectFields) && ValidateFields(m, selectFields).Ok?
    requires FieldNames(selectFields.value) != []
    ensures SelectedFields(m, selectFields) == FieldNames(selectFields.value)
  {
    var names := FieldNames(selectFields.value);
    PartitionNoneInvalid(m, names);
  }

  /** `build_select_query`: the whole model for "all", else the validated columns, or the error. */
  function BuildSelectQuery(m: Model, selectFields: Option<string>): (r: Result<SelectQuery, InvalidFieldError>)
    ensures r.Err? <==> ValidateFields(m, selectFields).Err?
    ensures r.Err? ==> r == Err(ValidateFields(m, selectFields).error)
    ensures selectFields.Some? && r.Ok? && r.value.SelectColumns? ==> r.value.columns == FieldNames(selectFields.value) && r.value.columns != []
  {
    if SelectsAll(selectFields) then Ok(SelectModel)
    else
      var names := FieldNames(selectFields.value);
      if names == [] then Ok(SelectModel)
      else
        var (invalid, columns) := Partition(m, names);
        if invalid != [] then Err(InvalidFieldError(invalid, SelectableFields(m)))
        else if columns == [] then Ok(SelectModel)
        else
          assert columns == names by {
            PartitionAllValid(m, names);
          }
          Ok(SelectColumns(columns))
  }

  /** When nothing is invalid, the columns are the names themselves. */
  lemma {:induction false} PartitionAllValid(m: Model, names: seq<string>)
    requires Partition(m, names).0 == []
    ensures Partition(m, names).1 == names
  {
    if names != [] {
      var init := names[..|names| - 1];
      PartitionAllValid(m, init);
      assert names == init + [names[|names| - 1]];
    }
  }

  /** A relationship path such as "account.display_name" is never a valid selection. */
  lemma DottedFieldInvalid(m: Model, selectFields: string)
    requires !SelectsAll(Some(selectFields))
    requires exists x :: x in FieldNames(selectFields) && '.' in x
    ensures ValidateFields(m, Some(selectFields)).Err?
  {
  }
}
