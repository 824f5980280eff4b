/**
 * The query engine's pagination decisions. The database is reduced to the
 * rows the filtered base query returns, already in the order the ORDER BY
 * clause gives them; a keyset WHERE clause keeps the rows it holds on, and
 * LIMIT takes a prefix. Keyset pagination reads one row more than the limit
 * to decide whether there is a next page.
 *
 * Keyset pagination as written reads and assigns `is_previous` on a cursor
 * type that does not declare it; `KeysetAsWritten` models that code, and the
 * rest of this module models the cursor carrying the flag through its
 * encoding, which is what the surrounding code relies on.
 */
module QueryService {
  import opened Wrappers
  import opened QuerySchemas
  import Keyset
  import OffsetPagination
  import Selection

  /** The limit the service caps a request at. */
  const ServedLimit := 20

  datatype ServiceError = AttributeError | ValueError | InvalidField(error: Selection.InvalidFieldError)

  /** The opaque text layer of cursors and the string classification of their values. */
  datatype Codec = Codec(encodeText: Json -> string, decodeText: string -> Option<Json>, classify: string -> Value)

  type Row = Keyset.Row

  function Min(a: int, b: int): (m: int)
    ensures m <= a && m <= b && (m == a || m == b)
  {
    if a <= b then a else b
  }

  /** `LIMIT n`: the first `n` rows. */
  function Take<T>(s: seq<T>, n: nat): (r: seq<T>)
    ensures |r| == Min(|s|, n) && r == s[..|r|]
  {
    if |s| <= n then s else s[..n]
  }

  /** The rows a WHERE clause holds on, in order. */
  function Where(rows: seq<Row>, c: Keyset.Clause, less: (Value, Value) -> bool): (r: seq<Row>)
    ensures |r| <= |rows|
    ensures forall x :: x in r <==> x in rows && Keyset.Holds(c, x, less)
  {
    if rows == [] then []
    else
      var rest := Where(rows[1..], c, less);
      assert forall x :: x in rows <==> x == rows[0] || x in rows[1..];
      if Keyset.Holds(c, rows[0], less) then [rows[0]] + rest else rest
  }

  /** Dropping the extra row: `items[:-1]` when it was fetched. */
  function Trim<T>(fetched: seq<T>, extra: bool): (items: seq<T>)
    requires extra ==> fetched != []
  {
    if extra then fetched[..|fetched| - 1] else fetched
  }

  // ---------------------------------------------------------------------------
  // Keyset pagination as written

  /**
   * `_paginate_keyset` as written: reading `cursor.is_previous` on a decoded
   * cursor raises `AttributeError`, which the `except ValueError` does not
   * catch; assigning it on a previous cursor raises `ValueError`.
   */
  function KeysetAsWritten(limit: nat, cursorText: Option<string>, orderBy: seq<string>, includeTotalCount: bool,
                           columns: set<string>, rows: seq<Row>, codec: Codec): (r: Result<KeysetResponse<Row>, ServiceError>)
    ensures cursorText.Some? && cursorText.value != [] && FromBase64(cursorText.value, codec.decodeText, codec.classify).Ok? ==>
      r == Err(AttributeError)
    ensures r.Ok? ==> |r.value.items| <= limit
    ensures r.Ok? && cursorText.Some? ==> r.value.items == []
  {
    var sortFields := Keyset.UniqueSort(columns, SortFields(orderBy));
    if cursorText.Some? && cursorText.value != [] && FromBase64(cursorText.value, codec.decodeText, codec.classify).Ok? then
      Err(AttributeError)
    else if Keyset.OrderClause(columns, sortFields, false).Err? then Err(AttributeError)
    else
      var fetched := Take(rows, limit + 1);
      var hasNext := |fetched| > limit;
      AssembleAsWritten(Trim(fetched, hasNext), hasNext, cursorText.Some?, sortFields,
                        if includeTotalCount then Some(|rows|) else None, codec)
  }

  /**
   * The response as written: the next cursor is encoded without a flag, and
   * building a previous cursor ends in `ValueError` on the assignment of
   * `is_previous`.
   */
  function AssembleAsWritten(items: seq<Row>, hasNext: bool, hasPrevious: bool, sortFields: seq<SortField>,
                             total: Option<int>, codec: Codec): (r: Result<KeysetResponse<Row>, ServiceError>)
    ensures r.Ok? ==> !(hasPrevious && items != [])
    ensures r.Ok? ==> r.value.items == items && r.value.hasNext == hasNext && r.value.hasPrevious == hasPrevious
    ensures r.Ok? && hasNext && items != [] ==> Keyset.CursorFromRow(items[|items| - 1], sortFields).Ok?
    ensures r.Ok? && hasNext && items != [] ==>
      r.value.nextCursor == Some(ToBase64(Keyset.CursorFromRow(items[|items| - 1], sortFields).value, codec.encodeText))
    ensures r.Ok? ==> (r.value.nextCursor.Some? <==> hasNext && items != [])
  {
    var next := if hasNext && items != [] then Keyset.CursorFromRow(items[|items| - 1], sortFields) else Ok(KeysetCursor([]));
    if next.Err? then Err(AttributeError)
    else if hasPrevious && items != [] then
      (if Keyset.CursorFromRow(items[0], sortFields).Err? then Err(AttributeError) else Err(ValueError))
    else
      Ok(KeysetResponse(items, hasNext, hasPrevious,
        if hasNext && items != [] then Some(ToBase64(next.value, codec.encodeText)) else None,
        None, total, None))
  }

  /** As written, any request carrying a cursor fails once the page has a row, whether the cursor decodes or not. */
  lemma AsWrittenCursorFails(limit: nat, text: string, orderBy: seq<string>, includeTotalCount: bool,
                             columns: set<string>, rows: seq<Row>, codec: Codec)
    requires limit >= 1 && rows != []
    ensures KeysetAsWritten(limit, Some(text), orderBy, includeTotalCount, columns, rows, codec).Err?
  {
    var fetched := Take(rows, limit + 1);
    assert |fetched| >= 1;
  }

  /** The next cursor of a first page, as written, is the encoding of the last row's cursor. */
  lemma AsWrittenNextCursor(limit: nat, orderBy: seq<string>, columns: set<string>, rows: seq<Row>, codec: Codec)
    returns (c: KeysetCursor)
    requires var first := KeysetAsWritten(limit, None, orderBy, false, columns, rows, codec);
      first.Ok? && first.value.nextCursor.Some?
    ensures KeysetAsWritten(limit, None, orderBy, false, columns, rows, codec).value.nextCursor == Some(ToBase64(c, codec.encodeText))
  {
    var sortFields := Keyset.UniqueSort(columns, SortFields(orderBy));
    var fetched := Take(rows, limit + 1);
    var hasNext := |fetched| > limit;
    var items := Trim(fetched, hasNext);
    AsWrittenFirstPage(limit, orderBy, columns, rows, codec);
    c := AssembledNextCursor(items, hasNext, sortFields, codec);
  }

  /** A next cursor in an assembled page is the encoding of the cursor of the page's last row. */
  lemma AssembledNextCursor(items: seq<Row>, hasNext: bool, sortFields: seq<SortField>, codec: Codec) returns (c: KeysetCursor)
    requires AssembleAsWritten(items, hasNext, false, sortFields, None, codec).Ok?
    requires AssembleAsWritten(items, hasNext, false, sortFields, None, codec).value.nextCursor.Some?
    ensures AssembleAsWritten(items, hasNext, false, sortFields, None, codec).value.nextCursor == Some(ToBase64(c, codec.encodeText))
  {
    c := Keyset.CursorFromRow(items[|items| - 1], sortFields).value;
  }

  /** Without a cursor, the request as written fails only on the ORDER BY clause, and otherwise assembles the first rows. */
  lemma AsWrittenFirstPage(limit: nat, orderBy: seq<string>, columns: set<string>, rows: seq<Row>, codec: Codec)
    ensures var sortFields := Keyset.UniqueSort(columns, SortFields(orderBy));
      var fetched := Take(rows, limit + 1);
      var hasNext := |fetched| > limit;
      KeysetAsWritten(limit, None, orderBy, false, columns, rows, codec) ==
        if Keyset.OrderClause(columns, sortFields, false).Err? then Err(AttributeError)
        else AssembleAsWritten(Trim(fetched, hasNext), hasNext, false, sortFields, None, codec)
  {
  }

  /** As written, a cursor text that decodes makes the request fail with `AttributeError`. */
  lemma AsWrittenDecodedCursorFails(limit: nat, text: string, orderBy: seq<string>, includeTotalCount: bool,
                                    columns: set<string>, rows: seq<Row>, codec: Codec)
    requires text != [] && FromBase64(text, codec.decodeText, codec.classify).Ok?
    ensures KeysetAsWritten(limit, Some(text), orderBy, includeTotalCount, columns, rows, codec) == Err(AttributeError)
  {
  }

  /**
   * As written, the cursor a first page hands out cannot be used: asking for
   * the next page with it raises `AttributeError`.
   */
  lemma {:induction false} AsWrittenNextPageFails(limit: nat, orderBy: seq<string>, columns: set<string>, rows: seq<Row>, codec: Codec)
    requires var first := KeysetAsWritten(limit, None, orderBy, false, columns, rows, codec);
      first.Ok? && first.value.nextCursor.Some?
    requires forall j :: codec.decodeText(codec.encodeText(j)) == Some(j) && codec.encodeText(j) != []
    ensures var first := KeysetAsWritten(limit, None, orderBy, false, columns, rows, codec);
      KeysetAsWritten(limit, first.value.nextCursor, orderBy, false, columns, rows, codec) == Err(AttributeError)
  {
    var c := AsWrittenNextCursor(limit, orderBy, columns, rows, codec);
    var text := ToBase64(c, codec.encodeText);
    CursorRoundTrip(c, codec.encodeText, codec.decodeText, codec.classify);
    AsWrittenDecodedCursorFails(limit, text, orderBy, false, columns, rows, codec);
  }

  // ---------------------------------------------------------------------------
  // Cursors carrying their direction

  /** The cursor document with the `is_previous` flag beside the fields. */
  function DirectedToJson(c: KeysetCursor, isPrevious: bool): Json
  {
    JObject([("fields", JList(FieldsToJson(c.fields))), ("is_previous", JBool(isPrevious))])
  }

  function EncodeDirected(c: KeysetCursor, isPrevious: bool, codec: Codec): string
  {
    codec.encodeText(DirectedToJson(c, isPrevious))
  }

  /** Decoding: the fields as `from_base64` reads them, and the flag, false when absent. */
  function DecodeDirected(text: string, codec: Codec): (r: Result<(KeysetCursor, bool), CursorError>)
    ensures r.Ok? ==> FromBase64(text, codec.decodeText, codec.classify) == Ok(r.value.0)
    ensures FromBase64(text, codec.decodeText, codec.classify).Err? ==> r.Err?
  {
    match FromBase64(text, codec.decodeText, codec.classify)
    case Err(e) => Err(e)
    case Ok(c) =>
      var j := codec.decodeText(text).value;
      Ok((c, Member(j.members, "is_previous") == Some(JBool(true))))
  }

  /** A directed cursor decodes to its own flag and to fields with the same names and directions. */
  lemma DirectedRoundTrip(c: KeysetCursor, isPrevious: bool, codec: Codec)
    requires codec.decodeText(EncodeDirected(c, isPrevious, codec)) == Some(DirectedToJson(c, isPrevious))
    ensures var r := DecodeDirected(EncodeDirected(c, isPrevious, codec), codec);
      r.Ok? && r.value.1 == isPrevious && |r.value.0.fields| == |c.fields| &&
      forall i :: 0 <= i < |c.fields| ==>
        r.value.0.fields[i].name == c.fields[i].name && r.value.0.fields[i].direction == c.fields[i].direction
  {
    var text := EncodeDirected(c, isPrevious, codec);
    DirectedMembers(c, isPrevious);
    FieldsRoundTrip(c.fields, codec.classify);
    var d := DecodeFields(FieldsToJson(c.fields), codec.classify);
    assert DecodeCursor(DirectedToJson(c, isPrevious), codec.classify) == Ok(KeysetCursor(d.value));
    assert DecodeDirected(text, codec) == Ok((KeysetCursor(d.value), isPrevious));
  }

  /** The directed document holds the field list and the flag under their own keys. */
  lemma DirectedMembers(c: KeysetCursor, isPrevious: bool)
    ensures Member(DirectedToJson(c, isPrevious).members, "fields") == Some(JList(FieldsToJson(c.fields)))
    ensures Member(DirectedToJson(c, isPrevious).members, "is_previous") == Some(JBool(isPrevious))
  {
    var ms := DirectedToJson(c, isPrevious).members;
    assert ms[..1] == [ms[0]];
  }

  // ---------------------------------------------------------------------------
  // Keyset pagination

  /** The cursor the request carries, when its text is non-empty and decodes. */
  function RequestCursor(cursorText: Option<string>, codec: Codec): Option<(KeysetCursor, bool)>
  {
    if cursorText.Some? && cursorText.value != [] then
      match DecodeDirected(cursorText.value, codec)
      case Ok(x) => Some(x)
      case Err(_) => None
    else None
  }

  /** The rows the keyset query selects before LIMIT: all of them, or those the cursor's WHERE clause keeps. */
  function Selected(cursor: Option<(KeysetCursor, bool)>, columns: set<string>, rows: seq<Row>, less: (Value, Value) -> bool): Result<seq<Row>, ServiceError>
  {
    if cursor.None? then Ok(rows)
    else
      match Keyset.WhereClause(columns, cursor.value.0, cursor.value.1)
      case Err(_) => Err(AttributeError)
      case Ok(None) => Ok(rows)
      case Ok(Some(c)) => Ok(Where(rows, c, less))
  }

  /** A page's cursor: the row's values under the sort fields, encoded with the direction flag. */
  function PageCursor(row: Row, sortFields: seq<SortField>, isPrevious: bool, codec: Codec): Result<string, ServiceError>
  {
    match Keyset.CursorFromRow(row, sortFields)
    case Err(_) => Err(AttributeError)
    case Ok(c) => Ok(EncodeDirected(c, isPrevious, codec))
  }

  /** The response for a page: a next cursor from its last row and a previous cursor from its first, when flagged. */
  function Assemble(items: seq<Row>, hasNext: bool, hasPrevious: bool, sortFields: seq<SortField>,
                    total: Option<int>, codec: Codec): (r: Result<KeysetResponse<Row>, ServiceError>)
    ensures r.Ok? ==> r.value.items == items && r.value.hasNext == hasNext && r.value.hasPrevious == hasPrevious
    ensures r.Ok? ==> r.value.totalCount == total && r.value.limit.None?
    ensures r.Ok? ==> (r.value.nextCursor.Some? <==> hasNext && items != [])
    ensures r.Ok? ==> (r.value.previousCursor.Some? <==> hasPrevious && items != [])
    ensures r.Err? <==> items != [] && ((hasNext && PageCursor(items[|items| - 1], sortFields, false, codec).Err?) ||
                                        (hasPrevious && PageCursor(items[0], sortFields, true, codec).Err?))
  {
    var next := if hasNext && items != [] then PageCursor(items[|items| - 1], sortFields, false, codec) else Ok([]);
    var prev := if hasPrevious && items != [] then PageCursor(items[0], sortFields, true, codec) else Ok([]);
    if next.Err? || prev.Err? then Err(AttributeError)
    else
      Ok(KeysetResponse(items, hasNext, hasPrevious,
        if hasNext && items != [] then Some(next.value) else None,
        if hasPrevious && items != [] then Some(prev.value) else None,
        total, None))
  }

  /** `_paginate_keyset` with the cursor carrying its direction. */
  function KeysetPage(limit: nat, cursorText: Option<string>, orderBy: seq<string>, includeTotalCount: bool,
                      columns: set<string>, rows: seq<Row>, less: (Value, Value) -> bool, codec: Codec): (r: Result<KeysetResponse<Row>, ServiceError>)
    ensures r.Ok? ==> |r.value.items| <= limit && r.value.limit.None?
    ensures r.Ok? ==> (r.value.nextCursor.Some? <==> r.value.hasNext && r.value.items != [])
    ensures r.Ok? ==> (r.value.previousCursor.Some? <==> r.value.hasPrevious && r.value.items != [])
    ensures r.Ok? ==> (r.value.totalCount.Some? <==> includeTotalCount)
  {
    var sortFields := Keyset.UniqueSort(columns, SortFields(orderBy));
    var cursor := RequestCursor(cursorText, codec);
    match Selected(cursor, columns, rows, less)
    case Err(e) => Err(e)
    case Ok(selected) =>
      if Keyset.OrderClause(columns, sortFields, false).Err? then Err(AttributeError)
      else
        var fetched := Take(selected, limit + 1);
        var more := |fetched| > limit;
        var backward := cursor.Some? && cursor.value.1;
        Assemble(Trim(fetched, more), if backward then true else more, if backward then more else cursorText.Some?,
                 sortFields, if includeTotalCount then Some(|rows|) else None, codec)
  }

  /**
   * Going forward, the page is the first `limit` selected rows; there is a
   * next page iff more than `limit` rows were selected, and a previous page
   * iff a cursor string was supplied.
   */
  lemma ForwardPage(limit: nat, cursorText: Option<string>, orderBy: seq<string>, includeTotalCount: bool,
                    columns: set<string>, rows: seq<Row>, less: (Value, Value) -> bool, codec: Codec)
    requires var c := RequestCursor(cursorText, codec); c.None? || !c.value.1
    requires KeysetPage(limit, cursorText, orderBy, includeTotalCount, columns, rows, less, codec).Ok?
    ensures var r := KeysetPage(limit, cursorText, orderBy, includeTotalCount, columns, rows, less, codec).value;
      var selected := Selected(RequestCursor(cursorText, codec), columns, rows, less).value;
      r.items == Take(selected, limit) &&
      (r.hasNext <==> |selected| > limit) &&
      (r.hasPrevious <==> cursorText.Some?)
  {
  }

  /** Going backward, there is always a next page, and a previous one iff more than `limit` rows lie before the cursor. */
  lemma BackwardPage(limit: nat, cursorText: Option<string>, orderBy: seq<string>, includeTotalCount: bool,
                     columns: set<string>, rows: seq<Row>, less: (Value, Value) -> bool, codec: Codec)
    requires var c := RequestCursor(cursorText, codec); c.Some? && c.value.1
    requires KeysetPage(limit, cursorText, orderBy, includeTotalCount, columns, rows, less, codec).Ok?
    ensures var r := KeysetPage(limit, cursorText, orderBy, includeTotalCount, columns, rows, less, codec).value;
      var selected := Selected(RequestCursor(cursorText, codec), columns, rows, less).value;
      r.items == Take(selected, limit) && r.hasNext &&
      (r.hasPrevious <==> |selected| > limit)
  {
  }

  /**
   * A cursor that does not decode is ignored: the scan starts from the first
   * row, as without a cursor (only the previous-page flag differs).
   */
  lemma UndecodableCursorIgnored(limit: nat, text: string, orderBy: seq<string>, includeTotalCount: bool,
                                 columns: set<string>, rows: seq<Row>, less: (Value, Value) -> bool, codec: Codec)
    requires DecodeDirected(text, codec).Err?
    ensures var withCursor := KeysetPage(limit, Some(text), orderBy, includeTotalCount, columns, rows, less, codec);
      var without := KeysetPage(limit, None, orderBy, includeTotalCount, columns, rows, less, codec);
      withCursor.Ok? ==> without.Ok? && withCursor.value.items == without.value.items && withCursor.value.hasNext == without.value.hasNext
  {
    assert RequestCursor(Some(text), codec) == None;
    PageWithoutCursor(limit, Some(text), orderBy, includeTotalCount, columns, rows, less, codec);
    PageWithoutCursor(limit, None, orderBy, includeTotalCount, columns, rows, less, codec);
  }

  /** With no usable cursor, the page is assembled from the first rows of the whole table. */
  lemma PageWithoutCursor(limit: nat, cursorText: Option<string>, orderBy: seq<string>, includeTotalCount: bool,
                          columns: set<string>, rows: seq<Row>, less: (Value, Value) -> bool, codec: Codec)
    requires RequestCursor(cursorText, codec).None?
    ensures var sortFields := Keyset.UniqueSort(columns, SortFields(orderBy));
      var fetched := Take(rows, limit + 1);
      var more := |fetched| > limit;
      KeysetPage(limit, cursorText, orderBy, includeTotalCount, columns, rows, less, codec) ==
        if Keyset.OrderClause(columns, sortFields, false).Err? then Err(AttributeError)
        else Assemble(Trim(fetched, more), more, cursorText.Some?, sortFields, if includeTotalCount then Some(|rows|) else None, codec)
  {
  }

  /**
   * Going forward from a cursor, every row on the page lies after the
   * cursor in the sort order, so the row the cursor was taken from is not
   * repeated.
   */
  lemma ForwardPageAfterCursor(limit: nat, text: string, orderBy: seq<string>, includeTotalCount: bool,
                               columns: set<string>, rows: seq<Row>, less: (Value, Value) -> bool, codec: Codec)
    requires var c := RequestCursor(Some(text), codec); c.Some? && !c.value.1 && c.value.0.fields != []
    requires KeysetPage(limit, Some(text), orderBy, includeTotalCount, columns, rows, less, codec).Ok?
    ensures var r := KeysetPage(limit, Some(text), orderBy, includeTotalCount, columns, rows, less, codec).value;
      var c := RequestCursor(Some(text), codec).value.0;
      forall x :: x in r.items ==> x in rows && Keyset.After(x, c.fields, false, less)
  {
    var c := RequestCursor(Some(text), codec).value.0;
    var w := Keyset.WhereClause(columns, c, false);
    assert w.Ok? && w.value.Some?;
    var selected := Where(rows, w.value.value, less);
    var r := KeysetPage(limit, Some(text), orderBy, includeTotalCount, columns, rows, less, codec).value;
    forall x | x in r.items
      ensures x in rows && Keyset.After(x, c.fields, false, less)
    {
      assert x in selected;
      Keyset.WhereMeansAfter(columns, c, false, x, less);
    }
  }

  /** The limit the service stores back into the request: at most 20. */
  function ServedLimitOf(limit: int): (l: int)
    ensures l <= ServedLimit && l <= limit
    ensures limit <= ServedLimit ==> l == limit
  {
    Min(limit, ServedLimit)
  }

  /** A keyset pagination request; its `limit` is reassigned by the service. */
  class KeysetPaginationRequest {
    var limit: int
    const cursor: Option<string>
    const orderBy: seq<string>
    const includeTotalCount: bool

    /** Construction succeeds only within the limit bounds. */
    constructor(limit: int, cursor: Option<string>, orderBy: seq<string>, includeTotalCount: bool)
      requires MinLimit <= limit <= MaxLimit
      ensures this.limit == limit && this.cursor == cursor && this.orderBy == orderBy && this.includeTotalCount == includeTotalCount
    {
      this.limit := limit;
      this.cursor := cursor;
      this.orderBy := orderBy;
      this.includeTotalCount := includeTotalCount;
    }
  }

  /** Attaching the cursors to a page, one after the other. */
  method AttachCursors(items: seq<Row>, hasNext: bool, hasPrevious: bool, sortFields: seq<SortField>,
                       total: Option<int>, codec: Codec) returns (r: Result<KeysetResponse<Row>, ServiceError>)
    ensures r == Assemble(items, hasNext, hasPrevious, sortFields, total, codec)
  {
    var response := KeysetResponse(items, hasNext, hasPrevious, None, None, total, None);
    if hasNext && items != [] {
      var next := Keyset.CreateCursorFromRow(items[|items| - 1], sortFields);
      if next.Err? {
        return Err(AttributeError);
      }
      response := response.(nextCursor := Some(EncodeDirected(next.value, false, codec)));
    }
    if hasPrevious && items != [] {
      var previous := Keyset.CreateCursorFromRow(items[0], sortFields);
      if previous.Err? {
        return Err(AttributeError);
      }
      response := response.(previousCursor := Some(EncodeDirected(previous.value, true, codec)));
    }
    return Ok(response);
  }

  /** `KeysetPage` in terms of the selected rows, once the WHERE and ORDER BY clauses are built. */
  lemma KeysetPageSteps(limit: nat, cursorText: Option<string>, orderBy: seq<string>, includeTotalCount: bool,
                        columns: set<string>, rows: seq<Row>, less: (Value, Value) -> bool, codec: Codec, selected: seq<Row>)
    requires Selected(RequestCursor(cursorText, codec), columns, rows, less) == Ok(selected)
    requires Keyset.OrderClause(columns, Keyset.UniqueSort(columns, SortFields(orderBy)), false).Ok?
    ensures var fetched := Take(selected, limit + 1);
      var more := |fetched| > limit;
      var cursor := RequestCursor(cursorText, codec);
      var backward := cursor.Some? && cursor.value.1;
      KeysetPage(limit, cursorText, orderBy, includeTotalCount, columns, rows, less, codec) ==
        Assemble(Trim(fetched, more), if backward then true else more, if backward then more else cursorText.Some?,
                 Keyset.UniqueSort(columns, SortFields(orderBy)), if includeTotalCount then Some(|rows|) else None, codec)
  {
  }

  /** The keyset WHERE clause applied to the rows, when there is a cursor. */
  method SelectRows(cursor: Option<(KeysetCursor, bool)>, columns: set<string>, rows: seq<Row>, less: (Value, Value) -> bool)
    returns (r: Result<seq<Row>, ServiceError>)
    ensures r == Selected(cursor, columns, rows, less)
  {
    if cursor.None? {
      return Ok(rows);
    }
    var w := Keyset.BuildWhereClause(columns, cursor.value.0, cursor.value.1);
    if w.Err? {
      return Err(AttributeError);
    }
    if w.value.None? {
      return Ok(rows);
    }
    return Ok(Where(rows, w.value.value, less));
  }

  /**
   * `_paginate_keyset`: the page is computed with the request's limit, and
   * only afterwards is the request's limit capped at 20.
   */
  method PaginateKeyset(req: KeysetPaginationRequest, columns: set<string>, rows: seq<Row>, less: (Value, Value) -> bool, codec: Codec)
    returns (r: Result<KeysetResponse<Row>, ServiceError>)
    requires req.limit >= 1
    modifies req
    ensures r == KeysetPage(old(req.limit), req.cursor, req.orderBy, req.includeTotalCount, columns, rows, less, codec)
    ensures req.limit == if r.Ok? then ServedLimitOf(old(req.limit)) else old(req.limit)
  {
    var limit := req.limit;
    var sortFields := Keyset.UniqueSort(columns, SortFields(req.orderBy));
    var cursor := RequestCursor(req.cursor, codec);
    var s := SelectRows(cursor, columns, rows, less);
    if s.Err? {
      return Err(s.error);
    }
    var selected := s.value;
    var order := Keyset.BuildOrderClause(columns, sortFields, false);
    if order.Err? {
      return Err(AttributeError);
    }
    var fetched := Take(selected, limit + 1);
    var items := fetched;
    var more := |items| > limit;
    var hasNext: bool;
    var hasPrevious: bool;
    if cursor.Some? && cursor.value.1 {
      hasNext := true;
      hasPrevious := more;
    } else {
      hasNext := more;
      hasPrevious := req.cursor.Some?;
    }
    if more {
      items := items[..|items| - 1];
    }
    var total: Option<int> := None;
    if req.includeTotalCount {
      total := Some(|rows|);
    }
    assert items == Trim(fetched, more);
    KeysetPageSteps(limit, req.cursor, req.orderBy, req.includeTotalCount, columns, rows, less, codec, selected);
    r := AttachCursors(items, hasNext, hasPrevious, sortFields, total, codec);
    if r.Ok? {
      req.limit := Min(req.limit, ServedLimit);
    }
  }

  // ---------------------------------------------------------------------------
  // Offset pagination

  /** An offset pagination request; its `limit` is reassigned by the service. */
  class OffsetPaginationRequest {
    var limit: int
    const offset: int
    const page: Option<int>
    const includeTotalCount: bool

    /** Construction succeeds only within the field bounds. */
    constructor(limit: int, offset: int, page: Option<int>, includeTotalCount: bool)
      requires ValidOffsetRequest(OffsetRequest(limit, offset, page))
      ensures this.limit == limit && this.offset == offset && this.page == page && this.includeTotalCount == includeTotalCount
    {
      this.limit := limit;
      this.offset := offset;
      this.page := page;
      this.includeTotalCount := includeTotalCount;
    }
  }

  /** `_paginate_offset` as a value: the count when requested, the limit capped at 20, then the provider. */
  function OffsetPage(limit: int, offset: int, page: Option<int>, includeTotalCount: bool, rows: seq<Row>): (r: OffsetResponse<Row>)
    requires ValidOffsetRequest(OffsetRequest(limit, offset, page))
    ensures r.perPage == ServedLimitOf(limit) && 1 <= r.perPage <= ServedLimit
    ensures |r.items| <= ServedLimit
  {
    var total := if includeTotalCount then Some(|rows|) else None;
    OffsetPagination.Paginate(rows, OffsetRequest(ServedLimitOf(limit), offset, page), includeTotalCount, total)
  }

  /** `_paginate_offset`: the request's limit is capped at 20 before the page is taken. */
  method PaginateOffset(req: OffsetPaginationRequest, rows: seq<Row>) returns (r: OffsetResponse<Row>)
    requires ValidOffsetRequest(OffsetRequest(req.limit, req.offset, req.page))
    modifies req
    ensures r == OffsetPage(old(req.limit), req.offset, req.page, req.includeTotalCount, rows)
    ensures req.limit == ServedLimitOf(old(req.limit))
  {
    var total: Option<int> := None;
    if req.includeTotalCount {
      total := Some(|rows|);
    }
    req.limit := Min(req.limit, ServedLimit);
    r := OffsetPagination.Paginate(rows, OffsetRequest(req.limit, req.offset, req.page), req.includeTotalCount, total);
  }

  /** A page number past what a capped limit covers still starts at (page - 1) times the capped limit. */
  lemma OffsetPageStart(limit: int, p: int, includeTotalCount: bool, rows: seq<Row>)
    requires ValidOffsetRequest(OffsetRequest(limit, 0, Some(p)))
    ensures OffsetPage(limit, 0, Some(p), includeTotalCount, rows).items ==
      OffsetPagination.Window(rows, (p - 1) * ServedLimitOf(limit), ServedLimitOf(limit))
    ensures OffsetPage(limit, 0, Some(p), includeTotalCount, rows).page == p
  {
  }

  // ---------------------------------------------------------------------------
  // paginate

  /** A general request, reduced to what the decisions read. */
  datatype GeneralRequest = GeneralRequest(
    paginationType: PaginationType, limit: int, cursor: Option<string>, offset: int, page: Option<int>,
    orderBy: seq<string>, includeTotalCount: bool, fields: Option<string>)

  predicate ValidGeneralRequest(g: GeneralRequest)
  {
    ValidOffsetRequest(OffsetRequest(g.limit, g.offset, g.page))
  }

  /** `paginate`: the field list is validated, then the request goes to the keyset or the offset path. */
  function Paginate(g: GeneralRequest, m: Selection.Model, columns: set<string>, rows: seq<Row>,
                    less: (Value, Value) -> bool, codec: Codec): (r: Result<GeneralResponse<Row>, ServiceError>)
    requires ValidGeneralRequest(g)
    ensures Selection.ValidateFields(m, g.fields).Err? ==> r == Err(InvalidField(Selection.ValidateFields(m, g.fields).error))
    ensures r.Ok? ==> r.value.paginationType == g.paginationType
  {
    match Selection.ValidateFields(m, g.fields)
    case Err(e) => Err(InvalidField(e))
    case Ok(_) =>
      if g.paginationType == Keyset then
        match KeysetPage(g.limit, g.cursor, g.orderBy, g.includeTotalCount, columns, rows, less, codec)
        case Err(e) => Err(e)
        case Ok(k) => Ok(FromKeysetResponse(k))
      else
        Ok(FromOffsetResponse(OffsetPage(g.limit, g.offset, g.page, g.includeTotalCount, rows)))
  }

  /** An offset page flattens with its page keys and never with a cursor key. */
  lemma OffsetResponseKeys(g: GeneralRequest, m: Selection.Model, columns: set<string>, rows: seq<Row>,
                           less: (Value, Value) -> bool, codec: Codec)
    requires ValidGeneralRequest(g) && g.paginationType == Offset
    requires Paginate(g, m, columns, rows, less, codec).Ok?
    ensures var d := ToDict(Paginate(g, m, columns, rows, less, codec).value);
      HasKey(d, Page) && HasKey(d, PerPage) && HasKey(d, TotalPages) && !HasKey(d, NextCursor) && !HasKey(d, Limit)
  {
    var o := OffsetPage(g.limit, g.offset, g.page, g.includeTotalCount, rows);
    OffsetDictKeys(o);
  }
}
