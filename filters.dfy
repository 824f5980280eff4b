/**
 * Filter conditions of the query engine. A filter key such as
 * "account.first_name__or__account.email__ilike" is split on "__" into
 * field names, logical tokens (or, and, not) and an operator; each field
 * with the operator becomes a comparison on a column of the model or of a
 * related model, and the comparisons are combined. The SQL expressions are
 * modelled as a `Condition` tree; a model is reduced to its attribute names
 * and, for each relationship, the attribute names of its target model.
 *
 * The parser recognises operator tokens that the operator table does not
 * know ("le", "ge", "notin") and the table knows operators the parser does
 * not recognise ("gte", "lte", "not_in", ...). `ParseAsWritten` models the
 * code as written; `Parse` uses one vocabulary for both.
 */
module Filters {
  import opened Wrappers
  import Text

  datatype Schema = Schema(attributes: set<string>, relations: map<string, set<string>>)

  /** Relationships are attributes of the model. */
  predicate ValidSchema(s: Schema)
  {
    forall r :: r in s.relations ==> r in s.attributes
  }

  /** A filter value: a scalar or a list (or tuple). */
  datatype FilterValue = Scalar(text: string) | Items(items: seq<FilterValue>)

  datatype Column = Own(name: string) | Related(relation: string, name: string)

  /** A LIKE pattern: the value with an optional `%` before and after. */
  datatype Pattern = Pattern(anyBefore: bool, value: FilterValue, anyAfter: bool)

  datatype Test =
    | Eq(v: FilterValue) | Ne(v: FilterValue) | Gt(v: FilterValue) | Ge(v: FilterValue) | Lt(v: FilterValue) | Le(v: FilterValue)
    | Like(pattern: Pattern) | ILike(pattern: Pattern) | Contains(v: FilterValue)
    | InList(vs: seq<FilterValue>) | NotInList(vs: seq<FilterValue>)
    | IsNull | IsNotNull | Between(low: FilterValue, high: FilterValue) | Search(v: FilterValue)

  datatype Condition = Check(column: Column, test: Test) | AllOf(parts: seq<Condition>) | AnyOf(parts: seq<Condition>) | Negation(c: Condition)

  // ---------------------------------------------------------------------------
  // Operators

  datatype Operator =
    | OpEq | OpNe | OpGt | OpGte | OpLt | OpLte | OpLike | OpILike | OpStartsWith | OpEndsWith | OpContains
    | OpIn | OpNotIn | OpIsNull | OpIsNotNull | OpBetween | OpSearch

  /** The operator names `_apply_operator` knows. */
  function OperatorName(o: Operator): string
  {
    match o
    case OpEq => "eq" case OpNe => "ne" case OpGt => "gt" case OpGte => "gte" case OpLt => "lt" case OpLte => "lte"
    case OpLike => "like" case OpILike => "ilike" case OpStartsWith => "startswith" case OpEndsWith => "endswith"
    case OpContains => "contains" case OpIn => "in" case OpNotIn => "not_in" case OpIsNull => "is_null"
    case OpIsNotNull => "is_not_null" case OpBetween => "between" case OpSearch => "search"
  }

  /** `_apply_operator`'s dispatch on the name; any other name gives no condition. */
  function OperatorNamed(name: string): (r: Option<Operator>)
    ensures r.Some? ==> OperatorName(r.value) == name
  {
    if name == "eq" then Some(OpEq) else if name == "ne" then Some(OpNe)
    else if name == "gt" then Some(OpGt) else if name == "gte" then Some(OpGte)
    else if name == "lt" then Some(OpLt) else if name == "lte" then Some(OpLte)
    else if name == "like" then Some(OpLike) else if name == "ilike" then Some(OpILike)
    else if name == "startswith" then Some(OpStartsWith) else if name == "endswith" then Some(OpEndsWith)
    else if name == "contains" then Some(OpContains) else if name == "in" then Some(OpIn)
    else if name == "not_in" then Some(OpNotIn) else if name == "is_null" then Some(OpIsNull)
    else if name == "is_not_null" then Some(OpIsNotNull) else if name == "between" then Some(OpBetween)
    else if name == "search" then Some(OpSearch) else None
  }

  /** Every operator is dispatched on its own name. */
  lemma OperatorNameRoundTrip(o: Operator)
    ensures OperatorNamed(OperatorName(o)) == Some(o)
  {
  }

  /** `in` and `not_in` take a list as is and wrap a single value. */
  function AsList(v: FilterValue): (r: seq<FilterValue>)
    ensures v.Items? ==> r == v.items
    ensures v.Scalar? ==> r == [v]
  {
    if v.Items? then v.items else [v]
  }

  /** The test an operator builds from the value; `between` needs a pair. */
  function Apply(o: Operator, v: FilterValue): (r: Option<Test>)
    ensures r.None? <==> o == OpBetween && !(v.Items? && |v.items| == 2)
  {
    match o
    case OpEq => Some(Eq(v)) case OpNe => Some(Ne(v)) case OpGt => Some(Gt(v)) case OpGte => Some(Ge(v))
    case OpLt => Some(Lt(v)) case OpLte => Some(Le(v))
    case OpLike => Some(Like(Pattern(true, v, true))) case OpILike => Some(ILike(Pattern(true, v, true)))
    case OpStartsWith => Some(Like(Pattern(false, v, true))) case OpEndsWith => Some(Like(Pattern(true, v, false)))
    case OpContains => Some(Contains(v))
    case OpIn => Some(InList(AsList(v))) case OpNotIn => Some(NotInList(AsList(v)))
    case OpIsNull => Some(IsNull) case OpIsNotNull => Some(IsNotNull)
    case OpBetween => if v.Items? && |v.items| == 2 then Some(Between(v.items[0], v.items[1])) else None
    case OpSearch => Some(Search(v))
  }

  /** `_apply_operator`: a condition for a known operator name, none otherwise. */
  function ApplyOperator(c: Column, name: string, v: FilterValue): (r: Option<Condition>)
    ensures OperatorNamed(name).None? ==> r.None?
    ensures r.Some? ==> r.value.Check? && r.value.column == c
  {
    match OperatorNamed(name)
    case None => None
    case Some(o) =>
      match Apply(o, v)
      case None => None
      case Some(t) => Some(Check(c, t))
  }

  // ---------------------------------------------------------------------------
  // Fields

  /** `_build_simple_condition`: a field of the model or, as "relation.field", of a related model. */
  function SimpleCondition(s: Schema, path: string, op: Option<string>, v: FilterValue): (r: Option<Condition>)
    ensures r.Some? ==> op.Some? && r.value.Check?
    ensures r.Some? && '.' !in path ==> path in s.attributes && r.value.column == Own(path)
    ensures r.Some? && '.' in path ==> r.value.column.Related? && r.value.column.relation in s.relations
    ensures r.Some? && '.' in path ==> r.value.column.name in s.relations[r.value.column.relation]
    ensures r.Some? && '.' in path ==> [r.value.column.relation, r.value.column.name] == Text.Split(path, '.')
  {
    if op.None? then None
    else if '.' in path then
      var p := Text.Split(path, '.');
      if |p| == 2 && p[0] in s.relations && p[1] in s.relations[p[0]] then ApplyOperator(Related(p[0], p[1]), op.value, v) else None
    else if path in s.attributes then ApplyOperator(Own(path), op.value, v)
    else None
  }

  /** The conditions the fields give, in order, skipping the fields that give none. */
  function FieldConditions(s: Schema, fields: seq<string>, op: Option<string>, v: FilterValue): (r: seq<Condition>)
    ensures |r| <= |fields|
    ensures forall c :: c in r ==> exists f :: f in fields && SimpleCondition(s, f, op, v) == Some(c)
    ensures (forall f :: f in fields ==> SimpleCondition(s, f, op, v).Some?) ==> |r| == |fields|
  {
    if fields == [] then []
    else
      var init := FieldConditions(s, fields[..|fields| - 1], op, v);
      var last := fields[|fields| - 1];
      assert forall f :: f in fields[..|fields| - 1] ==> f in fields;
      match SimpleCondition(s, last, op, v)
      case None => init
      case Some(c) => init + [c]
  }

  /** `_build_logical_condition`: OR when "or" occurs, else AND; negated when "not" occurs. */
  function LogicalCondition(s: Schema, fields: seq<string>, logical: seq<string>, op: Option<string>, v: FilterValue): (r: Option<Condition>)
    ensures r.None? <==> FieldConditions(s, fields, op, v) == []
    ensures r.Some? && "not" in logical ==> r.value.Negation?
    ensures r.Some? && "not" !in logical ==> (r.value.AnyOf? <==> "or" in logical)
  {
    var conditions := FieldConditions(s, fields, op, v);
    if conditions == [] then None
    else
      var combined := if "or" in logical then AnyOf(conditions) else AllOf(conditions);
      if "not" in logical then Some(Negation(combined)) else Some(combined)
  }

  // ---------------------------------------------------------------------------
  // Keys

  /** A "__" separator starts at `j`. */
  predicate SepAt(s: string, j: int)
  {
    0 <= j && j + 1 < |s| && s[j] == '_' && s[j + 1] == '_'
  }

  /** The first separator at or after `from`, or `|s|`. */
  function FindSep(s: string, from: nat): (k: nat)
    requires from <= |s|
    ensures from <= k <= |s|
    ensures k < |s| ==> SepAt(s, k)
    ensures forall j :: from <= j < k ==> !SepAt(s, j)
    decreases |s| - from
  {
    if from + 1 >= |s| then |s| else if SepAt(s, from) then from else FindSep(s, from + 1)
  }

  /** `key.split("__")`. */
  function SplitKey(s: string): (parts: seq<string>)
    ensures |parts| >= 1
    ensures |parts| >= 2 <==> FindSep(s, 0) < |s|
    decreases |s|
  {
    var k := FindSep(s, 0);
    if k == |s| then [s] else [s[..k]] + SplitKey(s[k + 2..])
  }

  /** A key segment: non-empty, without "__", not ending in '_' (so that "__" after it is a separator). */
  predicate Segment(f: string)
  {
    f != [] && f[|f| - 1] != '_' && forall j :: 0 <= j < |f| - 1 ==> !(f[j] == '_' && f[j + 1] == '_')
  }

  /** A segment followed by "__" splits off as the first part. */
  lemma SplitSegment(f: string, rest: string)
    requires Segment(f)
    ensures SplitKey(f + "__" + rest) == [f] + SplitKey(rest)
  {
    var s := f + "__" + rest;
    forall j | 0 <= j < |f|
      ensures !SepAt(s, j)
    {
      if j < |f| - 1 {
        assert s[j] == f[j] && s[j + 1] == f[j + 1];
      } else {
        assert s[j] == f[|f| - 1];
      }
    }
    assert SepAt(s, |f|);
    assert FindSep(s, 0) == |f|;
    assert s[..|f|] == f && s[|f| + 2..] == rest;
  }

  /** A segment alone is one part. */
  lemma SplitWhole(f: string)
    requires Segment(f)
    ensures SplitKey(f) == [f]
  {
    assert forall j :: 0 <= j ==> !SepAt(f, j);
  }

  /** A segment holds no separator, so a key made of one has none. */
  lemma SegmentNoSep(f: string)
    requires Segment(f)
    ensures FindSep(f, 0) == |f|
  {
    SplitWhole(f);
  }

  const LogicalTokens: set<string> := {"or", "and", "not"}

  /** The operator tokens the key parser recognises. */
  const ParserTokens: set<string> := {"eq", "ne", "lt", "le", "gt", "ge", "like", "ilike", "in", "notin", "is_null", "is_not_null"}

  /** The scanner's state: logical tokens, completed fields, the field being built, the operator. */
  datatype ScanState = ScanState(logical: seq<string>, fields: seq<string>, current: string, op: Option<string>)

  /** One iteration of the scanning loop; nothing changes once an operator was found (the loop breaks). */
  function Step(st: ScanState, part: string, tokens: set<string>): (r: ScanState)
    ensures st.op.Some? ==> r == st
    ensures |r.logical| <= |st.logical| + 1 && |r.fields| <= |st.fields| + 1
  {
    if st.op.Some? then st
    else if part in LogicalTokens then
      ScanState(st.logical + [part], if st.current != [] then st.fields + [st.current] else st.fields, [], None)
    else if part in tokens then
      ScanState(st.logical, if st.current != [] then st.fields + [st.current] else st.fields, st.current, Some(part))
    else
      ScanState(st.logical, st.fields, if st.current != [] then st.current + "." + part else part, None)
  }

  /** The state after the first `n` parts. */
  function Scan(parts: seq<string>, n: nat, tokens: set<string>): (r: ScanState)
    requires n <= |parts|
    ensures r.op.Some? ==> r.op.value in tokens
    ensures |r.fields| <= n
  {
    if n == 0 then ScanState([], [], [], None) else Step(Scan(parts, n - 1, tokens), parts[n - 1], tokens)
  }

  /** Once an operator is found, the remaining parts change nothing. */
  lemma {:induction false} ScanStops(parts: seq<string>, i: nat, n: nat, tokens: set<string>)
    requires i <= n <= |parts| && Scan(parts, i, tokens).op.Some?
    ensures Scan(parts, n, tokens) == Scan(parts, i, tokens)
    decreases n - i
  {
    if i < n {
      ScanStops(parts, i, n - 1, tokens);
    }
  }

  /** `_parse_filter_condition` as written. */
  function ParseAsWritten(s: Schema, key: string, v: FilterValue): (r: Option<Condition>)
    ensures FindSep(key, 0) == |key| ==> r == SimpleCondition(s, key, Some("eq"), v)
  {
    if FindSep(key, 0) == |key| then SimpleCondition(s, key, Some("eq"), v) else PartsAsWritten(s, SplitKey(key), v)
  }

  /** The parts of a key with a separator, as written. */
  function PartsAsWritten(s: Schema, parts: seq<string>, v: FilterValue): (r: Option<Condition>)
    requires parts != []
    ensures Scan(parts, |parts|, ParserTokens).logical == [] ==>
      r == SimpleCondition(s, Text.Join(parts[..|parts| - 1], "__"), Some(parts[|parts| - 1]), v)
  {
    var st := Scan(parts, |parts|, ParserTokens);
    var fields := if st.current != [] && st.op.Some? then st.fields + [st.current] else st.fields;
    if st.logical != [] && |fields| > 1 then LogicalCondition(s, fields, st.logical, st.op, v)
    else SimpleCondition(s, Text.Join(parts[..|parts| - 1], "__"), Some(parts[|parts| - 1]), v)
  }

  /** The parser's spellings of `lte`, `gte` and `not_in`. */
  function Canonical(token: string): (r: string)
    ensures token !in {"le", "ge", "notin"} ==> r == token
  {
    if token == "le" then "lte" else if token == "ge" then "gte" else if token == "notin" then "not_in" else token
  }

  /** One vocabulary: every operator name and the parser's aliases. */
  const OperatorTokens: set<string> := ParserTokens + {"gte", "lte", "startswith", "endswith", "contains", "not_in", "between", "search"}

  /** Every token the corrected parser accepts names an operator. */
  lemma TokensAreOperators(t: string)
    requires t in OperatorTokens
    ensures OperatorNamed(Canonical(t)).Some?
  {
  }

  /** Every operator can be written in a key. */
  lemma OperatorsAreTokens(o: Operator)
    ensures OperatorName(o) in OperatorTokens && Canonical(OperatorName(o)) == OperatorName(o)
  {
  }

  /** As written, the parser accepts a token that names no operator. */
  lemma ParserTokenUnknown()
    ensures "ge" in ParserTokens && OperatorNamed("ge").None?
  {
  }

  /**
   * `_parse_filter_condition` with one operator vocabulary: a key with
   * logical tokens and at least one field before its operator is a logical
   * condition, and the operator's alias is resolved.
   */
  function Parse(s: Schema, key: string, v: FilterValue): (r: Option<Condition>)
    ensures FindSep(key, 0) == |key| ==> r == ParseAsWritten(s, key, v)
  {
    if FindSep(key, 0) == |key| then SimpleCondition(s, key, Some("eq"), v) else ParseParts(s, SplitKey(key), v)
  }

  /** The parts of a key with a separator. */
  function ParseParts(s: Schema, parts: seq<string>, v: FilterValue): Option<Condition>
    requires parts != []
  {
    var st := Scan(parts, |parts|, OperatorTokens);
    if st.logical != [] && st.fields != [] && st.op.Some? then
      LogicalCondition(s, st.fields, st.logical, Some(Canonical(st.op.value)), v)
    else SimpleCondition(s, Text.Join(parts[..|parts| - 1], "__"), Some(Canonical(parts[|parts| - 1])), v)
  }

  /** A plain field name of a key: a segment that is not a token. */
  predicate FieldSegment(f: string)
  {
    Segment(f) && f !in LogicalTokens && f !in OperatorTokens
  }

  /** Tokens are key segments. */
  lemma TokenSegment(t: string)
    requires t in OperatorTokens || t in LogicalTokens
    ensures Segment(t)
  {
  }

  /** The scanning step at a logical token. */
  lemma ScanLogicalStep(parts: seq<string>, n: nat, tokens: set<string>)
    requires 0 < n <= |parts| && Scan(parts, n - 1, tokens).op.None?
    requires parts[n - 1] in LogicalTokens
    ensures var prev := Scan(parts, n - 1, tokens);
      Scan(parts, n, tokens) ==
        ScanState(prev.logical + [parts[n - 1]], if prev.current != [] then prev.fields + [prev.current] else prev.fields, [], None)
  {
  }

  /** The scanning step at an operator token. */
  lemma ScanOperatorStep(parts: seq<string>, n: nat, tokens: set<string>)
    requires 0 < n <= |parts| && Scan(parts, n - 1, tokens).op.None?
    requires parts[n - 1] in tokens && parts[n - 1] !in LogicalTokens
    ensures var prev := Scan(parts, n - 1, tokens);
      Scan(parts, n, tokens) ==
        ScanState(prev.logical, if prev.current != [] then prev.fields + [prev.current] else prev.fields, prev.current, Some(parts[n - 1]))
  {
  }

  /** The scanning step at a field name. */
  lemma ScanFieldStep(parts: seq<string>, n: nat, tokens: set<string>)
    requires 0 < n <= |parts| && Scan(parts, n - 1, tokens).op.None?
    requires parts[n - 1] !in tokens && parts[n - 1] !in LogicalTokens
    ensures var prev := Scan(parts, n - 1, tokens);
      Scan(parts, n, tokens) ==
        ScanState(prev.logical, prev.fields, if prev.current != [] then prev.current + "." + parts[n - 1] else parts[n - 1], None)
  {
  }

  /** No operator token is a logical token. */
  lemma TokenNotLogical(t: string)
    requires t in OperatorTokens
    ensures t !in LogicalTokens
  {
  }

  /** The conditions of a single field. */
  lemma FieldConditionsOne(s: Schema, f: string, op: Option<string>, v: FilterValue)
    ensures FieldConditions(s, [f], op, v) == if SimpleCondition(s, f, op, v).Some? then [SimpleCondition(s, f, op, v).value] else []
  {
    assert [f][..0] == [];
  }

  /** The parts of "a__b". */
  lemma SplitTwo(a: string, b: string)
    requires Segment(a) && Segment(b)
    ensures SplitKey(a + "__" + b) == [a, b] && FindSep(a + "__" + b, 0) < |a + "__" + b|
  {
    SplitSegment(a, b);
    SplitWhole(b);
  }

  /** "a__b__c" is "a__" followed by "b__c". */
  lemma Regroup3(a: string, b: string, c: string)
    ensures a + "__" + b + "__" + c == a + "__" + (b + "__" + c)
  {
  }

  /** "a__b__c__d" is "a__" followed by "b__c__d". */
  lemma Regroup4(a: string, b: string, c: string, d: string)
    ensures a + "__" + b + "__" + c + "__" + d == a + "__" + (b + "__" + c + "__" + d)
  {
    Regroup3(b, c, d);
  }

  /** The parts of "a__b__c". */
  lemma SplitThree(a: string, b: string, c: string)
    requires Segment(a) && Segment(b) && Segment(c)
    ensures SplitKey(a + "__" + b + "__" + c) == [a, b, c] && FindSep(a + "__" + b + "__" + c, 0) < |a + "__" + b + "__" + c|
  {
    Regroup3(a, b, c);
    SplitSegment(a, b + "__" + c);
    SplitTwo(b, c);
  }

  /** The parts of "a__b__c__d". */
  lemma SplitFour(a: string, b: string, c: string, d: string)
    requires Segment(a) && Segment(b) && Segment(c) && Segment(d)
    ensures var key := a + "__" + b + "__" + c + "__" + d;
      SplitKey(key) == [a, b, c, d] && FindSep(key, 0) < |key|
  {
    Regroup4(a, b, c, d);
    SplitSegment(a, b + "__" + c + "__" + d);
    SplitThree(b, c, d);
  }

  /** A key with a separator is read from its parts. */
  lemma ParseOfParts(s: Schema, key: string, v: FilterValue, parts: seq<string>)
    requires FindSep(key, 0) < |key| && SplitKey(key) == parts
    ensures parts != []
    ensures Parse(s, key, v) == ParseParts(s, parts, v)
  {
  }

  /** The same for the parser as written. */
  lemma ParseOfPartsAsWritten(s: Schema, key: string, v: FilterValue, parts: seq<string>)
    requires FindSep(key, 0) < |key| && SplitKey(key) == parts
    ensures parts != []
    ensures ParseAsWritten(s, key, v) == PartsAsWritten(s, parts, v)
  {
  }

  /** Parts scanned to logical tokens, fields and an operator form a logical condition. */
  lemma LogicalParts(s: Schema, parts: seq<string>, v: FilterValue, st: ScanState)
    requires parts != [] && Scan(parts, |parts|, OperatorTokens) == st
    requires st.logical != [] && st.fields != [] && st.op.Some?
    ensures ParseParts(s, parts, v) == LogicalCondition(s, st.fields, st.logical, Some(Canonical(st.op.value)), v)
  {
  }

  /** Any other parts: the last one is the operator and the others join into the field path. */
  lemma SimpleParts(s: Schema, parts: seq<string>, v: FilterValue, st: ScanState)
    requires parts != [] && Scan(parts, |parts|, OperatorTokens) == st
    requires !(st.logical != [] && st.fields != [] && st.op.Some?)
    ensures ParseParts(s, parts, v) == SimpleCondition(s, Text.Join(parts[..|parts| - 1], "__"), Some(Canonical(parts[|parts| - 1])), v)
  {
  }

  /** As written, parts scanned without a logical token are a simple condition on the joined prefix. */
  lemma NoLogicalAsWritten(s: Schema, parts: seq<string>, v: FilterValue, st: ScanState)
    requires parts != [] && Scan(parts, |parts|, ParserTokens) == st && st.logical == []
    ensures PartsAsWritten(s, parts, v) == SimpleCondition(s, Text.Join(parts[..|parts| - 1], "__"), Some(parts[|parts| - 1]), v)
  {
  }

  /** As written, parts scanned to at most one field are a simple condition on the joined prefix too. */
  lemma OneFieldAsWritten(s: Schema, parts: seq<string>, v: FilterValue, st: ScanState)
    requires parts != [] && Scan(parts, |parts|, ParserTokens) == st
    requires (st.current == [] || st.op.None?) && |st.fields| <= 1
    ensures PartsAsWritten(s, parts, v) == SimpleCondition(s, Text.Join(parts[..|parts| - 1], "__"), Some(parts[|parts| - 1]), v)
  {
  }

  /** An operator name `_apply_operator` does not know gives no condition. */
  lemma UnknownOperatorName(s: Schema, path: string, name: string, v: FilterValue)
    requires OperatorNamed(name).None?
    ensures SimpleCondition(s, path, Some(name), v) == None
  {
  }

  /** The parser's aliases are not operator names. */
  lemma AliasesUnknown(t: string)
    requires t in {"le", "ge", "notin"}
    ensures OperatorNamed(t).None?
  {
  }

  /** "field__not" as one path. */
  lemma JoinNot(f: string)
    ensures Text.Join([f, "not"], "__") == f + "__not"
  {
  }

  /** "a__b__c" as one path. */
  lemma JoinThree(a: string, b: string, c: string)
    ensures Text.Join([a, b, c], "__") == a + "__" + b + "__" + c
  {
    assert [a, b, c][1..] == [b, c];
    assert Text.Join([b, c], "__") == b + "__" + c;
  }

  /** Joining dotless segments with "__" gives a dotless path. */
  lemma NoDotJoined(a: string, b: string, c: string)
    requires '.' !in a && '.' !in b && '.' !in c
    ensures '.' !in a + "__" + b + "__" + c
  {
  }

  /** A field name with no dot and not an attribute gives no condition. */
  lemma UnknownAttribute(s: Schema, path: string, op: Option<string>, v: FilterValue)
    requires '.' !in path && path !in s.attributes
    ensures SimpleCondition(s, path, op, v) == None
  {
  }

  /** Scanning "field__op". */
  lemma ScanFieldOperator(f: string, t: string, tokens: set<string>)
    requires f != [] && f !in LogicalTokens && f !in tokens && t in tokens && t !in LogicalTokens
    ensures Scan([f, t], 2, tokens) == ScanState([], [f], f, Some(t))
  {
    assert Scan([f, t], 1, tokens) == ScanState([], [], f, None);
  }

  /** Scanning "field__not__op". */
  lemma ScanNegatedOperator(f: string, t: string, tokens: set<string>)
    requires f != [] && f !in LogicalTokens && f !in tokens && t in tokens && t !in LogicalTokens
    ensures Scan([f, "not", t], 3, tokens) == ScanState(["not"], [f], [], Some(t))
  {
    ScanNegatedPrefix([f, "not", t], tokens);
    ScanOperatorStep([f, "not", t], 3, tokens);
  }

  /** Scanning "field1__l__field2__t", where `t` is an operator token. */
  lemma ScanLogicalOperator(f1: string, l: string, f2: string, t: string, tokens: set<string>)
    requires f1 != [] && f1 !in LogicalTokens && f1 !in tokens && l in LogicalTokens
    requires f2 != [] && f2 !in LogicalTokens && f2 !in tokens
    requires t in tokens && t !in LogicalTokens
    ensures Scan([f1, l, f2, t], 4, tokens) == ScanState([l], [f1, f2], f2, Some(t))
  {
    ScanLogicalPrefix([f1, l, f2, t], tokens);
    ScanOperatorStep([f1, l, f2, t], 4, tokens);
  }

  /** Scanning "field1__l__field2__t", where `t` is read as a field name. */
  lemma ScanLogicalField(f1: string, l: string, f2: string, t: string, tokens: set<string>)
    requires f1 != [] && f1 !in LogicalTokens && f1 !in tokens && l in LogicalTokens
    requires f2 != [] && f2 !in LogicalTokens && f2 !in tokens
    requires t !in tokens && t !in LogicalTokens
    ensures Scan([f1, l, f2, t], 4, tokens) == ScanState([l], [f1], f2 + "." + t, None)
  {
    ScanLogicalPrefix([f1, l, f2, t], tokens);
    ScanFieldStep([f1, l, f2, t], 4, tokens);
  }

  /** The facts about a token that the parse lemmas need. */
  lemma TokenFacts(t: string)
    requires t in OperatorTokens
    ensures Segment(t) && t !in LogicalTokens && '.' !in t
  {
    TokenSegment(t);
    TokenNotLogical(t);
    TokenNoDot(t);
  }

  /** The facts about a logical token that the parse lemmas need. */
  lemma LogicalFacts(l: string)
    requires l in LogicalTokens
    ensures Segment(l) && l !in OperatorTokens && '.' !in l
  {
    TokenSegment(l);
  }

  /** "field__op" is the operator applied to the field. */
  lemma ParseFieldOperator(s: Schema, f: string, t: string, v: FilterValue)
    requires FieldSegment(f) && t in OperatorTokens
    ensures Parse(s, f + "__" + t, v) == SimpleCondition(s, f, Some(Canonical(t)), v)
  {
    TokenFacts(t);
    SplitTwo(f, t);
    ParseOfParts(s, f + "__" + t, v, [f, t]);
    ScanFieldOperator(f, t, OperatorTokens);
    SimpleParts(s, [f, t], v, ScanState([], [f], f, Some(t)));
    assert [f, t][..1] == [f];
  }

  /** Scanning "field1__l__field2": one logical token between two fields. */
  lemma ScanLogicalPrefix(parts: seq<string>, tokens: set<string>)
    requires |parts| >= 3 && parts[1] in LogicalTokens
    requires parts[0] != [] && parts[0] !in LogicalTokens && parts[0] !in tokens
    requires parts[2] != [] && parts[2] !in LogicalTokens && parts[2] !in tokens
    ensures Scan(parts, 3, tokens) == ScanState([parts[1]], [parts[0]], parts[2], None)
  {
    assert Scan(parts, 0, tokens) == ScanState([], [], [], None);
    assert Scan(parts, 1, tokens) == ScanState([], [], parts[0], None);
    assert Scan(parts, 2, tokens) == ScanState([parts[1]], [parts[0]], [], None);
  }

  /** Scanning "field__not": the negation token after one field. */
  lemma ScanNegatedPrefix(parts: seq<string>, tokens: set<string>)
    requires |parts| >= 2 && parts[1] == "not"
    requires parts[0] != [] && parts[0] !in LogicalTokens && parts[0] !in tokens
    ensures Scan(parts, 2, tokens) == ScanState(["not"], [parts[0]], [], None)
  {
    assert Scan(parts, 0, tokens) == ScanState([], [], [], None);
    assert Scan(parts, 1, tokens) == ScanState([], [], parts[0], None);
  }

  /** "field1__or__field2__op" (or "and") is the logical combination of the two fields under the operator. */
  lemma ParseLogical(s: Schema, f1: string, l: string, f2: string, t: string, v: FilterValue)
    requires FieldSegment(f1) && FieldSegment(f2) && l in {"or", "and"} && t in OperatorTokens
    ensures Parse(s, f1 + "__" + l + "__" + f2 + "__" + t, v) == LogicalCondition(s, [f1, f2], [l], Some(Canonical(t)), v)
  {
    LogicalFacts(l);
    TokenFacts(t);
    SplitFour(f1, l, f2, t);
    ParseOfParts(s, f1 + "__" + l + "__" + f2 + "__" + t, v, [f1, l, f2, t]);
    ScanLogicalOperator(f1, l, f2, t, OperatorTokens);
    LogicalParts(s, [f1, l, f2, t], v, ScanState([l], [f1, f2], f2, Some(t)));
  }

  /** "field__not__op" is "field__" "not" "__op". */
  lemma NegatedKey(f: string, t: string)
    ensures f + "__not__" + t == f + "__" + "not" + "__" + t
  {
  }

  /** "field__not__op" is the negated comparison. */
  lemma ParseNegated(s: Schema, f: string, t: string, v: FilterValue)
    requires FieldSegment(f) && t in OperatorTokens
    ensures Parse(s, f + "__not__" + t, v) == LogicalCondition(s, [f], ["not"], Some(Canonical(t)), v)
    ensures SimpleCondition(s, f, Some(Canonical(t)), v).Some? ==>
      Parse(s, f + "__not__" + t, v) == Some(Negation(AllOf([SimpleCondition(s, f, Some(Canonical(t)), v).value])))
  {
    LogicalFacts("not");
    TokenFacts(t);
    SplitThree(f, "not", t);
    NegatedKey(f, t);
    ParseOfParts(s, f + "__not__" + t, v, [f, "not", t]);
    ScanNegatedOperator(f, t, OperatorTokens);
    LogicalParts(s, [f, "not", t], v, ScanState(["not"], [f], [], Some(t)));
    NegationOfOne(s, f, Some(Canonical(t)), v);
  }

  /** The negated logical condition of one field that gives a condition. */
  lemma NegationOfOne(s: Schema, f: string, op: Option<string>, v: FilterValue)
    ensures SimpleCondition(s, f, op, v).Some? ==>
      LogicalCondition(s, [f], ["not"], op, v) == Some(Negation(AllOf([SimpleCondition(s, f, op, v).value])))
  {
    FieldConditionsOne(s, f, op, v);
  }

  /** As written, "field__ge" (or "le", "notin") gives no condition: the parser accepts the token, the operator table does not. */
  lemma AsWrittenAliasDropped(s: Schema, f: string, t: string, v: FilterValue)
    requires FieldSegment(f) && t in {"le", "ge", "notin"}
    ensures ParseAsWritten(s, f + "__" + t, v) == None
    ensures f in s.attributes && '.' !in f ==> Parse(s, f + "__" + t, v).Some?
  {
    TokenFacts(t);
    SplitTwo(f, t);
    ParseOfPartsAsWritten(s, f + "__" + t, v, [f, t]);
    AliasPartsDropped(s, f, t, v);
    ParseFieldOperator(s, f, t, v);
  }

  /** The parts of such a key: a simple field with the unknown operator name. */
  lemma AliasPartsDropped(s: Schema, f: string, t: string, v: FilterValue)
    requires FieldSegment(f) && t in {"le", "ge", "notin"}
    ensures PartsAsWritten(s, [f, t], v) == None
  {
    AliasPartsSimple(s, f, t, v);
    AliasesUnknown(t);
    UnknownOperatorName(s, f, t, v);
  }

  /** "field__t" is read as the field under the name `t`. */
  lemma AliasPartsSimple(s: Schema, f: string, t: string, v: FilterValue)
    requires f != [] && f !in LogicalTokens && f !in ParserTokens && t in ParserTokens && t !in LogicalTokens
    ensures PartsAsWritten(s, [f, t], v) == SimpleCondition(s, f, Some(t), v)
  {
    ScanFieldOperator(f, t, ParserTokens);
    NoLogicalAsWritten(s, [f, t], v, ScanState([], [f], f, Some(t)));
    assert [f, t][..1] == [f];
  }

  /** As written, "field__not__op" looks up an attribute named "field__not" and so gives no condition. */
  lemma AsWrittenNegationDropped(s: Schema, f: string, t: string, v: FilterValue)
    requires FieldSegment(f) && '.' !in f && t in ParserTokens && f + "__not" !in s.attributes
    ensures ParseAsWritten(s, f + "__not__" + t, v) == None
  {
    LogicalFacts("not");
    TokenFacts(t);
    SplitThree(f, "not", t);
    NegatedKey(f, t);
    ParseOfPartsAsWritten(s, f + "__not__" + t, v, [f, "not", t]);
    NegationPartsDropped(s, f, t, v);
  }

  /** The parts of such a key: one field, so the whole prefix is read as an attribute. */
  lemma NegationPartsDropped(s: Schema, f: string, t: string, v: FilterValue)
    requires FieldSegment(f) && '.' !in f && t in ParserTokens && f + "__not" !in s.attributes
    ensures PartsAsWritten(s, [f, "not", t], v) == None
  {
    TokenFacts(t);
    NegationPartsSimple(s, f, t, v);
    assert '.' !in f + "__not";
    UnknownAttribute(s, f + "__not", Some(t), v);
  }

  /** "field__not__t" is read as the path "field__not" under the name `t`. */
  lemma NegationPartsSimple(s: Schema, f: string, t: string, v: FilterValue)
    requires f != [] && f !in LogicalTokens && f !in ParserTokens && t in ParserTokens && t !in LogicalTokens
    ensures PartsAsWritten(s, [f, "not", t], v) == SimpleCondition(s, f + "__not", Some(t), v)
  {
    ScanNegatedOperator(f, t, ParserTokens);
    OneFieldAsWritten(s, [f, "not", t], v, ScanState(["not"], [f], [], Some(t)));
    assert [f, "not", t][..2] == [f, "not"];
    JoinNot(f);
  }

  /** As written, a logical key ending in an operator the parser does not know ("gte", "between", ...) gives no condition. */
  lemma AsWrittenLogicalDropped(s: Schema, f1: string, l: string, f2: string, t: string, v: FilterValue)
    requires FieldSegment(f1) && FieldSegment(f2) && '.' !in f1 && '.' !in f2 && l in {"or", "and"}
    requires t in OperatorTokens - ParserTokens && f1 + "__" + l + "__" + f2 !in s.attributes
    ensures ParseAsWritten(s, f1 + "__" + l + "__" + f2 + "__" + t, v) == None
  {
    LogicalFacts(l);
    TokenFacts(t);
    SplitFour(f1, l, f2, t);
    ParseOfPartsAsWritten(s, f1 + "__" + l + "__" + f2 + "__" + t, v, [f1, l, f2, t]);
    LogicalPartsDropped(s, f1, l, f2, t, v);
  }

  /** The parts of such a key: the operator is read as a field name, and the whole prefix as an attribute. */
  lemma LogicalPartsDropped(s: Schema, f1: string, l: string, f2: string, t: string, v: FilterValue)
    requires FieldSegment(f1) && FieldSegment(f2) && '.' !in f1 && '.' !in f2 && l in {"or", "and"}
    requires t in OperatorTokens - ParserTokens && f1 + "__" + l + "__" + f2 !in s.attributes
    ensures PartsAsWritten(s, [f1, l, f2, t], v) == None
  {
    LogicalFacts(l);
    TokenFacts(t);
    LogicalPartsSimple(s, f1, l, f2, t, v);
    NoDotJoined(f1, l, f2);
    UnknownAttribute(s, f1 + "__" + l + "__" + f2, Some(t), v);
  }

  /** "field1__l__field2__t", with `t` not a parser token, is read as the path "field1__l__field2" under the name `t`. */
  lemma LogicalPartsSimple(s: Schema, f1: string, l: string, f2: string, t: string, v: FilterValue)
    requires f1 != [] && f1 !in LogicalTokens && f1 !in ParserTokens && l in LogicalTokens
    requires f2 != [] && f2 !in LogicalTokens && f2 !in ParserTokens
    requires t !in ParserTokens && t !in LogicalTokens
    ensures PartsAsWritten(s, [f1, l, f2, t], v) == SimpleCondition(s, f1 + "__" + l + "__" + f2, Some(t), v)
  {
    ScanLogicalField(f1, l, f2, t, ParserTokens);
    OneFieldAsWritten(s, [f1, l, f2, t], v, ScanState([l], [f1], f2 + "." + t, None));
    assert [f1, l, f2, t][..3] == [f1, l, f2];
    JoinThree(f1, l, f2);
  }


  // ---------------------------------------------------------------------------
  // The imperative builders

  /** `_build_logical_condition`: the fields' conditions collected in a loop, then combined. */
  method BuildLogicalCondition(s: Schema, fields: seq<string>, logical: seq<string>, op: Option<string>, v: FilterValue)
    returns (r: Option<Condition>)
    ensures r == LogicalCondition(s, fields, logical, op, v)
  {
    var conditions: seq<Condition> := [];
    for i := 0 to |fields|
      invariant conditions == FieldConditions(s, fields[..i], op, v)
    {
      assert fields[..i + 1][..i] == fields[..i];
      var condition := SimpleCondition(s, fields[i], op, v);
      if condition.Some? {
        conditions := conditions + [condition.value];
      }
    }
    assert fields[..|fields|] == fields;
    if conditions == [] {
      return None;
    }
    var result := if "or" in logical then AnyOf(conditions) else AllOf(conditions);
    if "not" in logical {
      result := Negation(result);
    }
    return Some(result);
  }

  /** The scanning loop of `_parse_filter_condition` over an operator vocabulary: it stops at the first operator token. */
  method ScanParts(parts: seq<string>, tokens: set<string>) returns (logical: seq<string>, fields: seq<string>, current: string, operator: Option<string>)
    ensures ScanState(logical, fields, current, operator) == Scan(parts, |parts|, tokens)
  {
    logical := [];
    fields := [];
    operator := None;
    current := [];
    var i := 0;
    while i < |parts|
      invariant 0 <= i <= |parts|
      invariant operator.None? && Scan(parts, i, tokens) == ScanState(logical, fields, current, None)
    {
      var part := parts[i];
      if part in LogicalTokens {
        LogicalStepAt(parts, i, tokens, logical, fields, current);
        if current != [] {
          fields := fields + [current];
          current := [];
        }
        logical := logical + [part];
      } else if part in tokens {
        OperatorStepAt(parts, i, tokens, logical, fields, current);
        ScanStops(parts, i + 1, |parts|, tokens);
        operator := Some(part);
        if current != [] {
          fields := fields + [current];
        }
        break;
      } else {
        FieldStepAt(parts, i, tokens, logical, fields, current);
        current := if current != [] then current + "." + part else part;
      }
      i := i + 1;
    }
  }

  /** The loop's step at a logical token. */
  lemma LogicalStepAt(parts: seq<string>, i: nat, tokens: set<string>, logical: seq<string>, fields: seq<string>, current: string)
    requires i < |parts| && Scan(parts, i, tokens) == ScanState(logical, fields, current, None)
    requires parts[i] in LogicalTokens
    ensures Scan(parts, i + 1, tokens) == ScanState(logical + [parts[i]], if current != [] then fields + [current] else fields, [], None)
  {
    ScanLogicalStep(parts, i + 1, tokens);
  }

  /** The loop's step at the first operator token. */
  lemma OperatorStepAt(parts: seq<string>, i: nat, tokens: set<string>, logical: seq<string>, fields: seq<string>, current: string)
    requires i < |parts| && Scan(parts, i, tokens) == ScanState(logical, fields, current, None)
    requires parts[i] in tokens && parts[i] !in LogicalTokens
    ensures Scan(parts, i + 1, tokens) == ScanState(logical, if current != [] then fields + [current] else fields, current, Some(parts[i]))
  {
    ScanOperatorStep(parts, i + 1, tokens);
  }

  /** The loop's step at a field name. */
  lemma FieldStepAt(parts: seq<string>, i: nat, tokens: set<string>, logical: seq<string>, fields: seq<string>, current: string)
    requires i < |parts| && Scan(parts, i, tokens) == ScanState(logical, fields, current, None)
    requires parts[i] !in tokens && parts[i] !in LogicalTokens
    ensures Scan(parts, i + 1, tokens) == ScanState(logical, fields, if current != [] then current + "." + parts[i] else parts[i], None)
  {
    ScanFieldStep(parts, i + 1, tokens);
  }

  /** `_parse_filter_condition`: a key without "__" compares for equality; otherwise the scanned parts decide. */
  method ParseFilterCondition(s: Schema, key: string, v: FilterValue) returns (r: Option<Condition>)
    ensures r == Parse(s, key, v)
  {
    if FindSep(key, 0) == |key| {
      return SimpleCondition(s, key, Some("eq"), v);
    }
    var parts := SplitKey(key);
    var logical, fields, current, operator := ScanParts(parts, OperatorTokens);
    assert ScanState(logical, fields, current, operator) == Scan(parts, |parts|, OperatorTokens);
    if logical != [] && fields != [] && operator.Some? {
      r := BuildLogicalCondition(s, fields, logical, Some(Canonical(operator.value)), v);
      return r;
    }
    var fieldPath := Text.Join(parts[..|parts| - 1], "__");
    return SimpleCondition(s, fieldPath, Some(Canonical(parts[|parts| - 1])), v);
  }

  /** The values present in a sequence of options, in order. */
  function Present<T>(xs: seq<Option<T>>): (r: seq<T>)
    ensures |r| <= |xs|
    ensures r == [] <==> forall k :: 0 <= k < |xs| ==> xs[k].None?
  {
    if xs == [] then []
    else
      var n := |xs| - 1;
      assert forall k :: 0 <= k < n ==> xs[..n][k] == xs[k];
      if xs[n].Some? then Present(xs[..n]) + [xs[n].value] else Present(xs[..n])
  }

  /** Each filter parsed on its own. */
  function ParseEach(s: Schema, filters: seq<(string, FilterValue)>): (r: seq<Option<Condition>>)
    ensures |r| == |filters|
    ensures forall k :: 0 <= k < |filters| ==> r[k] == Parse(s, filters[k].0, filters[k].1)
  {
    seq(|filters|, k requires 0 <= k < |filters| => Parse(s, filters[k].0, filters[k].1))
  }

  /** `build_filter_conditions`: no condition, the only one, or all of them combined with AND. */
  function FilterCondition(s: Schema, filters: seq<(string, FilterValue)>): (r: Option<Condition>)
    ensures r.None? <==> forall k :: 0 <= k < |filters| ==> Parse(s, filters[k].0, filters[k].1).None?
    ensures var cs := Present(ParseEach(s, filters)); r.Some? && |cs| == 1 ==> r.value == cs[0]
    ensures var cs := Present(ParseEach(s, filters)); r.Some? && |cs| > 1 ==> r.value == AllOf(cs)
  {
    var conditions := Present(ParseEach(s, filters));
    if conditions == [] then None
    else if |conditions| == 1 then Some(conditions[0])
    else Some(AllOf(conditions))
  }

  /** `build_filter_conditions`: one pass over the filters in insertion order. */
  method BuildFilterConditions(s: Schema, filters: seq<(string, FilterValue)>) returns (r: Option<Condition>)
    ensures r == FilterCondition(s, filters)
  {
    if filters == [] {
      return None;
    }
    ghost var parsed := ParseEach(s, filters);
    var conditions: seq<Condition> := [];
    for i := 0 to |filters|
      invariant conditions == Present(parsed[..i])
    {
      assert parsed[..i + 1][..i] == parsed[..i];
      var condition := ParseFilterCondition(s, filters[i].0, filters[i].1);
      assert condition == parsed[..i + 1][i];
      if condition.Some? {
        conditions := conditions + [condition.value];
      }
    }
    assert parsed[..|filters|] == parsed;
    if conditions == [] {
      return None;
    }
    return if |conditions| > 1 then Some(AllOf(conditions)) else Some(conditions[0]);
  }

  // ---------------------------------------------------------------------------
  // Joins

  /** The relationship a key part such as "account.email" refers to, when its first name is an attribute. */
  function PartRelation(s: Schema, part: string): (r: Option<string>)
    ensures r.Some? ==> r.value in s.attributes && '.' in part
  {
    if '.' in part then
      var names := Text.Split(part, '.');
      if |names| >= 2 && names[0] in s.attributes then Some(names[0]) else None
    else None
  }

  /** The relationships the parts of one key refer to. */
  function PartJoins(s: Schema, parts: seq<string>): (r: set<string>)
    ensures forall x :: x in r <==> exists j :: 0 <= j < |parts| && PartRelation(s, parts[j]) == Some(x)
  {
    if parts == [] then {}
    else
      var n := |parts| - 1;
      var init := PartJoins(s, parts[..n]);
      assert forall j :: 0 <= j < n ==> parts[..n][j] == parts[j];
      match PartRelation(s, parts[n])
      case None => init
      case Some(x) => init + {x}
  }

  /** The relationships one key refers to; only keys holding a '.' are looked at. */
  function KeyJoins(s: Schema, key: string): set<string>
  {
    if '.' in key then PartJoins(s, SplitKey(key)) else {}
  }

  /** The union of a sequence of sets. */
  function UnionOf(sets: seq<set<string>>): (r: set<string>)
    ensures forall x :: x in r <==> exists k :: 0 <= k < |sets| && x in sets[k]
  {
    if sets == [] then {}
    else
      var n := |sets| - 1;
      assert forall k :: 0 <= k < n ==> sets[..n][k] == sets[k];
      UnionOf(sets[..n]) + sets[n]
  }

  /** The relationships of each key. */
  function JoinsEach(s: Schema, keys: seq<string>): (r: seq<set<string>>)
    ensures |r| == |keys|
    ensures forall k :: 0 <= k < |keys| ==> r[k] == KeyJoins(s, keys[k])
  {
    seq(|keys|, k requires 0 <= k < |keys| => KeyJoins(s, keys[k]))
  }

  /** `get_required_joins` as a set (the order of `list(set)` is unspecified). */
  function RequiredJoins(s: Schema, keys: seq<string>): set<string>
  {
    UnionOf(JoinsEach(s, keys))
  }

  /** Every join is an attribute of the model, and exactly the relationships some key refers to are joined. */
  lemma RequiredJoinsMeaning(s: Schema, keys: seq<string>, x: string)
    ensures x in RequiredJoins(s, keys) <==> exists k :: 0 <= k < |keys| && '.' in keys[k] && x in PartJoins(s, SplitKey(keys[k]))
    ensures x in RequiredJoins(s, keys) ==> x in s.attributes
  {
    if x in RequiredJoins(s, keys) {
      var k :| 0 <= k < |keys| && x in JoinsEach(s, keys)[k];
      assert x in KeyJoins(s, keys[k]);
    }
  }

  /** `get_required_joins`: nested loops over the keys and their parts. */
  method GetRequiredJoins(s: Schema, keys: seq<string>) returns (joins: set<string>)
    ensures joins == RequiredJoins(s, keys)
  {
    ghost var each := JoinsEach(s, keys);
    joins := {};
    for i := 0 to |keys|
      invariant joins == UnionOf(each[..i])
    {
      assert each[..i + 1][..i] == each[..i];
      var key := keys[i];
      if '.' in key {
        var parts := SplitKey(key);
        for j := 0 to |parts|
          invariant joins == UnionOf(each[..i]) + PartJoins(s, parts[..j])
        {
          assert parts[..j + 1][..j] == parts[..j];
          var names := Text.Split(parts[j], '.');
          if '.' in parts[j] && |names| >= 2 && names[0] in s.attributes {
            joins := joins + {names[0]};
          }
        }
        assert parts[..|parts|] == parts;
      }
      assert each[..i + 1][i] == KeyJoins(s, key);
    }
    assert each[..|keys|] == each;
  }

  /** No token holds a '.'. */
  lemma TokenNoDot(t: string)
    requires t in OperatorTokens || t in LogicalTokens
    ensures '.' !in t
  {
  }

  /** "relation.name" splits into the relation and the name. */
  lemma DottedField(relation: string, name: string)
    requires '.' !in relation && '.' !in name
    ensures var f := relation + "." + name; '.' in f && Text.Split(f, '.') == [relation, name]
    ensures var f := relation + "." + name; f !in OperatorTokens && f !in LogicalTokens
  {
    var f := relation + "." + name;
    assert f[|relation|] == '.';
    Text.SplitCons(relation, '.', name);
    Text.SplitNone(name, '.');
    if f in OperatorTokens || f in LogicalTokens {
      TokenNoDot(f);
    }
  }

  /** A filter on "relation.name" applies the operator to the related model's column. */
  lemma DottedFilterColumn(s: Schema, relation: string, name: string, t: string, v: FilterValue)
    requires relation in s.relations && name in s.relations[relation]
    requires Segment(relation + "." + name) && '.' !in relation && '.' !in name && t in OperatorTokens
    ensures Parse(s, relation + "." + name + "__" + t, v) == ApplyOperator(Related(relation, name), Canonical(t), v)
  {
    var f := relation + "." + name;
    DottedField(relation, name);
    ParseFieldOperator(s, f, t, v);
    DottedSimple(s, relation, name, Canonical(t), v);
  }

  lemma DottedSimple(s: Schema, relation: string, name: string, op: string, v: FilterValue)
    requires relation in s.relations && name in s.relations[relation]
    requires '.' in relation + "." + name && Text.Split(relation + "." + name, '.') == [relation, name]
    ensures SimpleCondition(s, relation + "." + name, Some(op), v) == ApplyOperator(Related(relation, name), op, v)
  {
  }


  /** A filter on "relation.name" joins the relation. */
  lemma DottedFilterJoined(s: Schema, relation: string, name: string, t: string)
    requires ValidSchema(s) && relation in s.relations
    requires Segment(relation + "." + name) && '.' !in relation && '.' !in name && t in OperatorTokens
    ensures relation in RequiredJoins(s, [relation + "." + name + "__" + t])
  {
    var f := relation + "." + name;
    var key := f + "__" + t;
    DottedField(relation, name);
    TokenSegment(t);
    SplitTwo(f, t);
    assert key[|relation|] == '.';
    assert PartRelation(s, f) == Some(relation);
    assert relation in PartJoins(s, [f, t]);
    assert relation in JoinsEach(s, [key])[0];
  }
}
