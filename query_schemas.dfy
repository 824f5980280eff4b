/**
 * The query engine's request and response schemas: sort-field parsing from
 * `order_by`, the offset/page arithmetic of offset requests, the keyset cursor
 * and its text codec, and the dictionary a general pagination response is
 * flattened into. Base64 and the JSON text format are opaque: a cursor is
 * carried through its JSON document, and the text layer is a pair of
 * parameters.
 */
module QuerySchemas {
  import opened Wrappers
  import Text

  // ---------------------------------------------------------------------------
  // Sort fields

  datatype SortDirection = Asc | Desc
  datatype PaginationType = Keyset | Offset

  type SortField = (string, SortDirection)

  /** The other direction. */
  function Flip(d: SortDirection): (r: SortDirection)
    ensures r != d
  {
    if d == Asc then Desc else Asc
  }

  /** One `order_by` entry: a leading "-" sorts descending on the rest of the name. */
  function ParseSortField(entry: string): SortField
  {
    if Text.StartsWith(entry, "-") then (entry[1..], Desc) else (entry, Asc)
  }

  /** The `order_by` spelling of a sort field. */
  function RenderSortField(f: SortField): string
  {
    if f.1 == Desc then "-" + f.0 else f.0
  }

  /** `get_sort_fields` as a value: one parsed field per entry, in order. */
  function SortFields(orderBy: seq<string>): (r: seq<SortField>)
    ensures |r| == |orderBy|
    ensures forall i :: 0 <= i < |r| ==> r[i] == ParseSortField(orderBy[i])
  {
    if orderBy == [] then [] else SortFields(orderBy[..|orderBy| - 1]) + [ParseSortField(orderBy[|orderBy| - 1])]
  }

  /** `get_sort_fields` (and the identical `_parse_sort_fields`): the loop appending one field per entry. */
  method GetSortFields(orderBy: seq<string>) returns (fields: seq<SortField>)
    ensures fields == SortFields(orderBy)
  {
    fields := [];
    for i := 0 to |orderBy|
      invariant fields == SortFields(orderBy[..i])
    {
      assert orderBy[..i + 1][..i] == orderBy[..i];
      if Text.StartsWith(orderBy[i], "-") {
        fields := fields + [(orderBy[i][1..], Desc)];
      } else {
        fields := fields + [(orderBy[i], Asc)];
      }
    }
    assert orderBy[..|orderBy|] == orderBy;
  }

  /** Rendering a parsed entry gives the entry back, for every entry. */
  lemma RenderParse(entry: string)
    ensures RenderSortField(ParseSortField(entry)) == entry
  {
    if Text.StartsWith(entry, "-") {
      assert entry == "-" + entry[1..];
    }
  }

  /** Parsing a rendered field gives it back, unless an ascending name itself starts with "-". */
  lemma ParseRender(f: SortField)
    ensures ParseSortField(RenderSortField(f)) == f <==> f.1 == Desc || !Text.StartsWith(f.0, "-")
  {
    if f.1 == Desc {
      assert Text.StartsWith("-" + f.0, "-");
      assert ("-" + f.0)[1..] == f.0;
    }
  }

  /** The parsed sort fields render back to `order_by`, entry by entry. */
  lemma SortFieldsRender(orderBy: seq<string>)
    ensures forall i :: 0 <= i < |orderBy| ==> RenderSortField(SortFields(orderBy)[i]) == orderBy[i]
  {
    forall i | 0 <= i < |orderBy|
      ensures RenderSortField(SortFields(orderBy)[i]) == orderBy[i]
    {
      RenderParse(orderBy[i]);
    }
  }

  // ---------------------------------------------------------------------------
  // Offset requests

  const MinLimit := 1
  const MaxLimit := 100
  const DefaultLimit := 20

  /** Pydantic's `ValidationError` for a field outside its bounds. */
  datatype RequestError = LimitOutOfRange | NegativeOffset | PageBelowOne

  /** The numeric part of `OffsetPaginationRequest`. */
  datatype OffsetRequest = OffsetRequest(limit: int, offset: int, page: Option<int>)

  /** The field bounds: limit in [1, 100], offset at least 0, page at least 1. */
  predicate ValidOffsetRequest(r: OffsetRequest)
  {
    MinLimit <= r.limit <= MaxLimit && r.offset >= 0 && (r.page.Some? ==> r.page.value >= 1)
  }

  /** Constructing the request: the field validators in declaration order. */
  function MakeOffsetRequest(limit: int, offset: int, page: Option<int>): (r: Result<OffsetRequest, RequestError>)
    ensures r.Ok? <==> ValidOffsetRequest(OffsetRequest(limit, offset, page))
    ensures r.Ok? ==> r.value == OffsetRequest(limit, offset, page)
  {
    if !(MinLimit <= limit <= MaxLimit) then Err(LimitOutOfRange)
    else if offset < 0 then Err(NegativeOffset)
    else if page.Some? && page.value < 1 then Err(PageBelowOne)
    else Ok(OffsetRequest(limit, offset, page))
  }

  /** `get_offset`: a page number wins over the raw offset. */
  function GetOffset(r: OffsetRequest): (o: int)
    requires r.limit >= 1 && r.offset >= 0 && (r.page.Some? ==> r.page.value >= 1)
    ensures o >= 0
    ensures r.page.Some? ==> o == (r.page.value - 1) * r.limit
    ensures r.page.None? ==> o == r.offset
  {
    if r.page.Some? then (r.page.value - 1) * r.limit else r.offset
  }

  /** `get_page`: the page number, or the page holding the offset. */
  function GetPage(r: OffsetRequest): (p: int)
    requires r.limit >= 1 && r.offset >= 0 && (r.page.Some? ==> r.page.value >= 1)
    ensures p >= 1
  {
    if r.page.Some? then r.page.value else r.offset / r.limit + 1
  }

  /** An offset at the start of page `p` is read back as page `p`. */
  lemma PageOfPageStart(limit: int, p: int)
    requires limit >= 1 && p >= 1
    ensures GetPage(OffsetRequest(limit, (p - 1) * limit, None)) == p
  {
    DivExact(p - 1, limit);
  }

  lemma DivExact(q: int, m: int)
    requires m >= 1
    ensures (q * m) / m == q
  {
    var d := (q * m) / m;
    var r := (q * m) % m;
    assert q * m == d * m + r;
    assert (q - d) * m == r;
    if q - d >= 1 {
      assert false;
    } else if q - d <= -1 {
      assert false;
    }
  }

  /** Without a page number, the offset lies on the page `get_page` reports. */
  lemma OffsetWithinPage(r: OffsetRequest)
    requires r.limit >= 1 && r.offset >= 0 && r.page.None?
    ensures var start := GetOffset(r.(page := Some(GetPage(r))));
      start <= r.offset < start + r.limit
  {
  }

  /** With a page number, the two views agree: the page is kept and the offset is where it starts. */
  lemma PageRoundTrip(r: OffsetRequest)
    requires r.limit >= 1 && r.offset >= 0 && r.page.Some? && r.page.value >= 1
    ensures GetPage(r.(offset := GetOffset(r), page := None)) == GetPage(r)
  {
    PageOfPageStart(r.limit, r.page.value);
  }

  // ---------------------------------------------------------------------------
  // Keyset cursors

  /** A JSON document, as `json.loads` returns it (integers only; no floats). */
  datatype Json =
    | JNull
    | JBool(b: bool)
    | JInt(i: int)
    | JStr(s: string)
    | JList(items: seq<Json>)
    | JObject(members: seq<(string, Json)>)

  /** A cursor value: a plain JSON value, a UUID or a datetime, each with its `str()` text. */
  datatype Value = Plain(json: Json) | Uuid(text: string) | DateTime(text: string)

  datatype KeysetField = KeysetField(name: string, value: Value, direction: SortDirection)
  datatype KeysetCursor = KeysetCursor(fields: seq<KeysetField>)

  /** The wire spelling of a direction; the enumeration's values are taken to be "asc" and "desc". */
  function DirectionText(d: SortDirection): string
  {
    if d == Asc then "asc" else "desc"
  }

  /** `SortDirection(text)`: only the two spellings are accepted. */
  function ParseDirection(j: Json): (r: Option<SortDirection>)
    ensures r.Some? ==> j == JStr(DirectionText(r.value))
    ensures forall d :: j == JStr(DirectionText(d)) ==> r == Some(d)
  {
    if j == JStr("asc") then Some(Asc) else if j == JStr("desc") then Some(Desc) else None
  }

  /** UUIDs serialise as their text, datetimes through `default=str`. */
  function ValueToJson(v: Value): (j: Json)
    ensures v.Plain? ==> j == v.json
    ensures !v.Plain? ==> j == JStr(v.text)
  {
    match v
    case Plain(x) => x
    case Uuid(t) => JStr(t)
    case DateTime(t) => JStr(t)
  }

  /** One field's dictionary, with the keys in `sort_keys=True` order. */
  function FieldToJson(f: KeysetField): Json
  {
    JObject([("direction", JStr(DirectionText(f.direction))), ("name", JStr(f.name)), ("value", ValueToJson(f.value))])
  }

  function FieldsToJson(fs: seq<KeysetField>): (r: seq<Json>)
    ensures |r| == |fs|
    ensures forall i :: 0 <= i < |fs| ==> r[i] == FieldToJson(fs[i])
  {
    if fs == [] then [] else [FieldToJson(fs[0])] + FieldsToJson(fs[1..])
  }

  /** The document `to_base64` serialises. */
  function CursorToJson(c: KeysetCursor): Json
  {
    JObject([("fields", JList(FieldsToJson(c.fields)))])
  }

  /** `to_base64`: `encodeText` stands for `json.dumps`, UTF-8 and base64. */
  function ToBase64(c: KeysetCursor, encodeText: Json -> string): string
  {
    encodeText(CursorToJson(c))
  }

  /** `d[key]` on a parsed object: a later duplicate key wins. */
  function Member(members: seq<(string, Json)>, key: string): (r: Option<Json>)
    ensures r.Some? <==> exists i :: 0 <= i < |members| && members[i].0 == key
    ensures r.Some? ==> exists i :: 0 <= i < |members| && members[i] == (key, r.value)
  {
    if members == [] then None
    else
      var last := members[|members| - 1];
      if last.0 == key then Some(last.1) else Member(members[..|members| - 1], key)
  }

  /** Iterating a parsed value: a list yields its items, a string its characters, an object its keys. */
  function Elements(j: Json): (r: Option<seq<Json>>)
    ensures j.JList? ==> r == Some(j.items)
    ensures j.JNull? || j.JBool? || j.JInt? ==> r.None?
  {
    match j
    case JList(xs) => Some(xs)
    case JStr(s) => Some(seq(|s|, i requires 0 <= i < |s| => JStr([s[i]])))
    case JObject(ms) => Some(seq(|ms|, i requires 0 <= i < |ms| => JStr(ms[i].0)))
    case _ => None
  }

  /**
   * A decoded string becomes a UUID, else a datetime, else stays text;
   * `classify` stands for those two parsers.
   */
  function DecodeValue(j: Json, classify: string -> Value): Value
  {
    if j.JStr? then classify(j.s) else Plain(j)
  }

  /** One field: an object with a "value", a string "name" and a known "direction". */
  function DecodeField(j: Json, classify: string -> Value): (r: Option<KeysetField>)
    ensures r.Some? ==> j.JObject?
  {
    if !j.JObject? then None
    else
      match (Member(j.members, "value"), Member(j.members, "name"), Member(j.members, "direction"))
      case (Some(v), Some(JStr(n)), Some(d)) =>
        (match ParseDirection(d)
         case Some(dir) => Some(KeysetField(n, DecodeValue(v, classify), dir))
         case None => None)
      case _ => None
  }

  function DecodeFields(items: seq<Json>, classify: string -> Value): (r: Option<seq<KeysetField>>)
    ensures r.Some? ==> |r.value| == |items|
    ensures r.Some? ==> forall i :: 0 <= i < |items| ==> DecodeField(items[i], classify) == Some(r.value[i])
    ensures r.None? ==> exists i :: 0 <= i < |items| && DecodeField(items[i], classify).None?
  {
    if items == [] then Some([])
    else
      match (DecodeField(items[0], classify), DecodeFields(items[1..], classify))
      case (Some(f), Some(fs)) => Some([f] + fs)
      case (None, _) => None
      case (_, None) => None
  }

  /** Every failure surfaces as one `ValueError("Invalid cursor format")`. */
  datatype CursorError = InvalidCursorFormat

  /** The document part of `from_base64`. */
  function DecodeCursor(j: Json, classify: string -> Value): (r: Result<KeysetCursor, CursorError>)
    ensures !j.JObject? ==> r.Err?
  {
    if !j.JObject? then Err(InvalidCursorFormat)
    else
      match Member(j.members, "fields")
      case None => Err(InvalidCursorFormat)
      case Some(fs) =>
        match Elements(fs)
        case None => Err(InvalidCursorFormat)
        case Some(items) =>
          match DecodeFields(items, classify)
          case None => Err(InvalidCursorFormat)
          case Some(fields) => Ok(KeysetCursor(fields))
  }

  /** `from_base64`: `decodeText` stands for base64, UTF-8 and `json.loads`, `None` when one of them fails. */
  function FromBase64(text: string, decodeText: string -> Option<Json>, classify: string -> Value): (r: Result<KeysetCursor, CursorError>)
    ensures decodeText(text).None? ==> r.Err?
  {
    match decodeText(text)
    case None => Err(InvalidCursorFormat)
    case Some(j) => DecodeCursor(j, classify)
  }

  /** A field decodes from its own dictionary, its value passing through the string classification. */
  lemma FieldRoundTrip(f: KeysetField, classify: string -> Value)
    ensures DecodeField(FieldToJson(f), classify) == Some(KeysetField(f.name, DecodeValue(ValueToJson(f.value), classify), f.direction))
  {
    var ms := FieldToJson(f).members;
    assert Member(ms, "value") == Some(ValueToJson(f.value));
    assert Member(ms, "name") == Some(JStr(f.name)) by {
      assert ms[..2][..1] == [ms[0]];
    }
    assert Member(ms, "direction") == Some(JStr(DirectionText(f.direction))) by {
      assert ms[..2][..1] == [ms[0]];
      assert ms[..2][..1][..0] == [];
    }
  }

  /**
   * Decoding what `to_base64` wrote keeps every field's name and direction, in
   * order; a value comes back as the classification of its text when it was
   * written as a string, and unchanged otherwise.
   */
  lemma CursorRoundTrip(c: KeysetCursor, encodeText: Json -> string, decodeText: string -> Option<Json>, classify: string -> Value)
    requires decodeText(encodeText(CursorToJson(c))) == Some(CursorToJson(c))
    ensures var r := FromBase64(ToBase64(c, encodeText), decodeText, classify);
      r.Ok? && |r.value.fields| == |c.fields| &&
      forall i :: 0 <= i < |c.fields| ==>
        r.value.fields[i].name == c.fields[i].name &&
        r.value.fields[i].direction == c.fields[i].direction &&
        r.value.fields[i].value == DecodeValue(ValueToJson(c.fields[i].value), classify)
  {
    FieldsRoundTrip(c.fields, classify);
  }

  /** The field list decodes entry by entry, each field keeping its name and direction. */
  lemma FieldsRoundTrip(fs: seq<KeysetField>, classify: string -> Value)
    ensures var d := DecodeFields(FieldsToJson(fs), classify);
      d.Some? && |d.value| == |fs| &&
      forall i :: 0 <= i < |fs| ==> d.value[i] == KeysetField(fs[i].name, DecodeValue(ValueToJson(fs[i].value), classify), fs[i].direction)
  {
    var items := FieldsToJson(fs);
    forall i | 0 <= i < |items|
      ensures DecodeField(items[i], classify).Some?
    {
      FieldRoundTrip(fs[i], classify);
    }
    var d := DecodeFields(items, classify);
    assert d.Some?;
    forall i | 0 <= i < |fs|
      ensures d.value[i] == KeysetField(fs[i].name, DecodeValue(ValueToJson(fs[i].value), classify), fs[i].direction)
    {
      FieldRoundTrip(fs[i], classify);
    }
  }

  /** A classification that gives back the value each text was written from makes the round trip exact. */
  lemma CursorRoundTripExact(c: KeysetCursor, encodeText: Json -> string, decodeText: string -> Option<Json>, classify: string -> Value)
    requires decodeText(encodeText(CursorToJson(c))) == Some(CursorToJson(c))
    requires forall i :: 0 <= i < |c.fields| ==> DecodeValue(ValueToJson(c.fields[i].value), classify) == c.fields[i].value
    ensures FromBase64(ToBase64(c, encodeText), decodeText, classify) == Ok(c)
  {
    CursorRoundTrip(c, encodeText, decodeText, classify);
    var r := FromBase64(ToBase64(c, encodeText), decodeText, classify);
    assert r.value.fields == c.fields;
  }

  /** A document whose "fields" entry is a number, a boolean or null is malformed. */
  lemma ScalarFieldsRejected(members: seq<(string, Json)>, classify: string -> Value)
    requires Member(members, "fields").Some?
    requires var fs := Member(members, "fields").value; fs.JNull? || fs.JBool? || fs.JInt?
    ensures DecodeCursor(JObject(members), classify) == Err(InvalidCursorFormat)
  {
  }

  /** A field entry that is not an object, such as a character of a string, is malformed. */
  lemma NonObjectFieldRejected(fs: Json, classify: string -> Value)
    requires Elements(fs).Some? && Elements(fs).value != [] && !Elements(fs).value[0].JObject?
    ensures DecodeCursor(JObject([("fields", fs)]), classify) == Err(InvalidCursorFormat)
  {
    var items := Elements(fs).value;
    assert DecodeField(items[0], classify).None?;
  }

  // ---------------------------------------------------------------------------
  // Responses

  /** `KeysetPaginationResponse`. */
  datatype KeysetResponse<T> = KeysetResponse(
    items: seq<T>, hasNext: bool, hasPrevious: bool,
    nextCursor: Option<string>, previousCursor: Option<string>,
    totalCount: Option<int>, limit: Option<int>)

  /** `OffsetPaginationResponse`. */
  datatype OffsetResponse<T> = OffsetResponse(
    items: seq<T>, totalCount: int, page: int, perPage: int, totalPages: int,
    hasNext: bool, hasPrevious: bool)

  /** `GeneralPaginationResponse`: the offset fields and the keyset fields are all optional. */
  datatype GeneralResponse<T> = GeneralResponse(
    items: seq<T>, hasNext: bool, hasPrevious: bool, paginationType: PaginationType,
    page: Option<int>, perPage: Option<int>, totalPages: Option<int>, totalCount: Option<int>,
    nextCursor: Option<string>, previousCursor: Option<string>, limit: Option<int>)

  /** `from_existing_response` on an offset response. */
  function FromOffsetResponse<T>(r: OffsetResponse<T>): (g: GeneralResponse<T>)
    ensures g.paginationType == Offset && g.items == r.items
    ensures g.page == Some(r.page) && g.perPage == Some(r.perPage) && g.totalPages == Some(r.totalPages)
    ensures g.totalCount == Some(r.totalCount) && g.hasNext == r.hasNext && g.hasPrevious == r.hasPrevious
    ensures g.nextCursor.None? && g.previousCursor.None? && g.limit.None?
  {
    GeneralResponse(r.items, r.hasNext, r.hasPrevious, Offset,
      Some(r.page), Some(r.perPage), Some(r.totalPages), Some(r.totalCount), None, None, None)
  }

  /** `from_existing_response` on a keyset response. */
  function FromKeysetResponse<T>(r: KeysetResponse<T>): (g: GeneralResponse<T>)
    ensures g.paginationType == Keyset && g.items == r.items
    ensures g.nextCursor == r.nextCursor && g.previousCursor == r.previousCursor
    ensures g.limit == r.limit && g.totalCount == r.totalCount
    ensures g.hasNext == r.hasNext && g.hasPrevious == r.hasPrevious
    ensures g.page.None? && g.perPage.None? && g.totalPages.None?
  {
    GeneralResponse(r.items, r.hasNext, r.hasPrevious, Keyset,
      None, None, None, r.totalCount, r.nextCursor, r.previousCursor, r.limit)
  }

  /** A value of the flattened dictionary. */
  datatype DictValue<T> = DBool(b: bool) | DInt(i: int) | DStr(s: string) | DItems(items: seq<T>)

  /** The keys `to_dict` can emit. */
  datatype DictKey = HasNext | HasPrevious | Items | Page | PerPage | TotalPages | TotalCount | NextCursor | PreviousCursor | Limit

  /** The key's spelling in the dictionary. */
  function KeyName(k: DictKey): string
  {
    match k
    case HasNext => "has_next"
    case HasPrevious => "has_previous"
    case Items => "items"
    case Page => "page"
    case PerPage => "per_page"
    case TotalPages => "total_pages"
    case TotalCount => "total_count"
    case NextCursor => "next_cursor"
    case PreviousCursor => "previous_cursor"
    case Limit => "limit"
  }

  function OptInt<T>(o: Option<int>): Option<DictValue<T>>
  {
    if o.Some? then Some(DInt(o.value)) else None
  }

  function OptStr<T>(o: Option<string>): Option<DictValue<T>>
  {
    if o.Some? then Some(DStr(o.value)) else None
  }

  /** The dictionary before the `None` values are dropped. */
  function RawDict<T>(r: GeneralResponse<T>): seq<(DictKey, Option<DictValue<T>>)>
  {
    var base := [(HasNext, Some(DBool(r.hasNext))), (HasPrevious, Some(DBool(r.hasPrevious))), (Items, Some(DItems(r.items)))];
    if r.paginationType == Offset then
      base + [(Page, OptInt(r.page)), (PerPage, OptInt(r.perPage)), (TotalPages, OptInt(r.totalPages)), (TotalCount, OptInt(r.totalCount))]
    else
      base + [(NextCursor, OptStr(r.nextCursor)), (PreviousCursor, OptStr(r.previousCursor)), (Limit, OptInt(r.limit)), (TotalCount, OptInt(r.totalCount))]
  }

  /** The comprehension keeping the entries whose value is not `None`. */
  function DropNone<T>(d: seq<(DictKey, Option<DictValue<T>>)>): (r: seq<(DictKey, DictValue<T>)>)
    ensures forall i :: 0 <= i < |r| ==> (r[i].0, Some(r[i].1)) in d
    ensures forall i :: 0 <= i < |d| && d[i].1.Some? ==> (d[i].0, d[i].1.value) in r
  {
    if d == [] then []
    else
      var rest := DropNone(d[1..]);
      if d[0].1.Some? then [(d[0].0, d[0].1.value)] + rest else rest
  }

  /** `to_dict`. */
  function ToDict<T>(r: GeneralResponse<T>): seq<(DictKey, DictValue<T>)>
  {
    DropNone(RawDict(r))
  }

  predicate HasKey<T>(d: seq<(DictKey, DictValue<T>)>, k: DictKey)
  {
    exists i :: 0 <= i < |d| && d[i].0 == k
  }

  /** A key survives `DropNone` exactly when one of its entries has a value. */
  lemma KeysDropNone<T>(raw: seq<(DictKey, Option<DictValue<T>>)>, k: DictKey)
    ensures HasKey(DropNone(raw), k) <==> exists i :: 0 <= i < |raw| && raw[i].0 == k && raw[i].1.Some?
  {
    var d := DropNone(raw);
    if HasKey(d, k) {
      var i :| 0 <= i < |d| && d[i].0 == k;
      assert (k, Some(d[i].1)) in raw;
    }
    if exists i :: 0 <= i < |raw| && raw[i].0 == k && raw[i].1.Some? {
      var i :| 0 <= i < |raw| && raw[i].0 == k && raw[i].1.Some?;
      assert (raw[i].0, raw[i].1.value) in d;
    }
  }

  /** Whether `to_dict` emits key `k`, read off the response. */
  predicate Emits<T>(r: GeneralResponse<T>, k: DictKey)
  {
    match k
    case HasNext => true
    case HasPrevious => true
    case Items => true
    case Page => r.paginationType == Offset && r.page.Some?
    case PerPage => r.paginationType == Offset && r.perPage.Some?
    case TotalPages => r.paginationType == Offset && r.totalPages.Some?
    case TotalCount => r.totalCount.Some?
    case NextCursor => r.paginationType == Keyset && r.nextCursor.Some?
    case PreviousCursor => r.paginationType == Keyset && r.previousCursor.Some?
    case Limit => r.paginationType == Keyset && r.limit.Some?
  }

  /**
   * The flags and the items are always present; page keys appear only for
   * offset responses and cursor keys only for keyset responses, each exactly
   * when its field is set; no value is `None`.
   */
  lemma ToDictKeys<T>(r: GeneralResponse<T>, k: DictKey)
    ensures HasKey(ToDict(r), k) <==> Emits(r, k)
  {
    KeysDropNone(RawDict(r), k);
    RawKeys(r, k);
  }

  /** A key has a value in the raw dictionary exactly when `to_dict` is to emit it. */
  lemma RawKeys<T>(r: GeneralResponse<T>, k: DictKey)
    ensures (exists i :: 0 <= i < |RawDict(r)| && RawDict(r)[i].0 == k && RawDict(r)[i].1.Some?) <==> Emits(r, k)
  {
    var raw := RawDict(r);
    assert |raw| == 7;
    forall i | 0 <= i < 7 && raw[i].0 == k ensures i == KeyIndex(k) {
    }
    if Emits(r, k) {
      assert raw[KeyIndex(k)].0 == k && raw[KeyIndex(k)].1.Some?;
    }
  }

  /** The position of a key in the raw dictionary of either kind. */
  function KeyIndex(k: DictKey): nat
  {
    match k
    case HasNext => 0
    case HasPrevious => 1
    case Items => 2
    case Page => 3
    case PerPage => 4
    case TotalPages => 5
    case TotalCount => 6
    case NextCursor => 3
    case PreviousCursor => 4
    case Limit => 5
  }

  /** An offset response flattens with its four page keys and no cursor key. */
  lemma OffsetDictKeys<T>(r: OffsetResponse<T>)
    ensures var d := ToDict(FromOffsetResponse(r));
      HasKey(d, Page) && HasKey(d, PerPage) && HasKey(d, TotalPages) && HasKey(d, TotalCount) &&
      !HasKey(d, NextCursor) && !HasKey(d, PreviousCursor) && !HasKey(d, Limit)
  {
    var g := FromOffsetResponse(r);
    ToDictKeys(g, Page);
    ToDictKeys(g, PerPage);
    ToDictKeys(g, TotalPages);
    ToDictKeys(g, TotalCount);
    ToDictKeys(g, NextCursor);
    ToDictKeys(g, PreviousCursor);
    ToDictKeys(g, Limit);
  }
}
