/**
 * Request helpers: the friendly-id shape test, nested query parameters,
 * client-IP selection from proxy headers and the `X-Bloom-Client` header
 * parser. Request objects are reduced to the data the helpers read: the
 * header list, the query-parameter dictionary and the client host.
 */
module Request {
  import opened Wrappers
  import Text
  import Friendly
  import OrderedDict
  import ClientInfo

  // ---------------------------------------------------------------------------
  // is_friendly_id

  /** `is_friendly_id`: two characters or more, prefix "i" or "u", the rest digits of the friendly alphabet. */
  function IsFriendlyId(value: string): (b: bool)
    ensures b ==> |value| >= 2 && forall k :: 1 <= k < |value| ==> value[k] in Friendly.Alphabet
    ensures |value| > 0 && value[0] !in {'i', 'u'} ==> !b
    ensures |value| >= 2 && value[0] in {'i', 'u'} && (forall k :: 1 <= k < |value| ==> value[k] in Friendly.Alphabet) ==> b
  {
    |value| >= 2 && value[0] in {'i', 'u'} && Friendly.AllInAlphabet(value[1..])
  }

  /** An integer id that was not hashed down is recognised. */
  lemma IntFriendlyIdRecognised(n: int, c: Friendly.Codecs)
    requires |Friendly.Untruncated(Friendly.Abs(n))| <= Friendly.MaxLength - 1
    ensures Friendly.ToFriendlyId(Friendly.IntId(n), c).Ok?
    ensures IsFriendlyId(Friendly.ToFriendlyId(Friendly.IntId(n), c).value)
  {
    var e := Friendly.EncodeIntSpec(n, c.md5Hex);
    assert e == Friendly.Untruncated(Friendly.Abs(n));
    Friendly.UntruncatedInAlphabet(Friendly.Abs(n));
    PrefixedFriendly('i', e);
  }

  /** Every UUID id is recognised. */
  lemma UuidFriendlyIdRecognised(u: Uuid, c: Friendly.Codecs)
    ensures Friendly.ToFriendlyId(Friendly.UuidId(u), c).Ok?
    ensures IsFriendlyId(Friendly.ToFriendlyId(Friendly.UuidId(u), c).value)
  {
    var e := Friendly.EncodeUuidSpec(u, c.b64Url);
    Friendly.EncodeUuidSpecInAlphabet(u, c.b64Url);
    PrefixedFriendly('u', e);
  }

  /** A prefix "i" or "u" before digits of the friendly alphabet makes a recognised id. */
  lemma PrefixedFriendly(prefix: char, e: string)
    requires prefix in {'i', 'u'} && e != []
    requires Friendly.AllInAlphabet(e)
    ensures IsFriendlyId([prefix] + e)
  {
    assert ([prefix] + e)[1..] == e;
  }

  /** Ids of string and GUID values carry the prefix "s", which is never recognised. */
  lemma StrFriendlyIdRejected(id: Friendly.IdValue, c: Friendly.Codecs)
    requires id.StrId? || id.GuidId?
    ensures Friendly.ToFriendlyId(id, c).Ok?
    ensures !IsFriendlyId(Friendly.ToFriendlyId(id, c).value)
  {
  }

  // ---------------------------------------------------------------------------
  // parse_nested_query_params

  /** A value of the parsed dictionary: the raw value, a group of child keys, or a list. */
  datatype QueryValue = Scalar(s: string) | Group(entries: seq<(string, string)>) | Items(values: seq<string>)

  /** Item assignment on a plain value, Python's `TypeError`. */
  datatype QueryError = ItemAssignment(parent: string)

  type Parsed = seq<(string, QueryValue)>

  /** The full match of `^([^[]+)\[([^]]+)\]` against the whole of `k`. */
  function MatchBrackets(k: string): (r: Option<(string, string)>)
    ensures r.Some? ==> var (p, c) := r.value;
      p != [] && '[' !in p && c != [] && ']' !in c && k == p + "[" + c + "]"
  {
    var i := Text.IndexOf(k, '[');
    if i == 0 || i + 3 > |k| || k[|k| - 1] != ']' then None
    else
      var child := k[i + 1..|k| - 1];
      if ']' in child then None
      else
        assert k == k[..i] + "[" + child + "]";
        Some((k[..i], child))
  }

  /**
   * `re.match(r"^([^[]+)\[([^]]+)\]$", key)`: the parent and child keys. Python's
   * `$` also matches in front of one final newline.
   */
  function MatchNested(key: string): (r: Option<(string, string)>)
    ensures r.Some? ==> var (p, c) := r.value;
      p != [] && '[' !in p && c != [] && ']' !in c &&
      (key == p + "[" + c + "]" || key == p + "[" + c + "]" + "\n")
  {
    if MatchBrackets(key).Some? then MatchBrackets(key)
    else if key != [] && key[|key| - 1] == '\n' then
      assert key == key[..|key| - 1] + "\n";
      MatchBrackets(key[..|key| - 1])
    else None
  }

  /** Every key of the form `parent[child]` matches, with its own parent and child. */
  lemma MatchNestedOf(p: string, c: string)
    requires p != [] && '[' !in p && c != [] && ']' !in c
    ensures MatchNested(p + "[" + c + "]") == Some((p, c))
  {
    var k := p + "[" + c + "]";
    Text.IndexOfAfter(p, '[', c + "]");
    assert k == p + ['['] + (c + "]");
    assert k[..|p|] == p && k[|p| + 1..|k| - 1] == c;
  }

  /** One iteration of the grouping loop. */
  function GroupStep(parsed: Parsed, key: string, value: string): Result<Parsed, QueryError>
  {
    match MatchNested(key)
    case None => Ok(OrderedDict.Put(parsed, key, Scalar(value)))
    case Some((p, c)) =>
      var current: Option<QueryValue> := OrderedDict.Find(parsed, p);
      match current
      case None => Ok(OrderedDict.Put(parsed, p, Group([(c, value)])))
      case Some(Group(es)) => Ok(OrderedDict.Put(parsed, p, Group(OrderedDict.Put(es, c, value))))
      case Some(_) => Err(ItemAssignment(p))
  }

  /** The first loop of `parse_nested_query_params` over the parameters in order. */
  function GroupParams(params: seq<(string, string)>): Result<Parsed, QueryError>
  {
    if params == [] then Ok([])
    else
      match GroupParams(params[..|params| - 1])
      case Err(e) => Err(e)
      case Ok(d) => GroupStep(d, params[|params| - 1].0, params[|params| - 1].1)
  }

  /** `int(k)` for the digit keys the second loop sorts by. */
  function NumKey(k: string): nat
  {
    if forall i :: 0 <= i < |k| ==> Text.IsDigit(k[i]) then Text.ParseNat(k) else 0
  }

  predicate DigitKeys(es: seq<(string, string)>)
  {
    forall i :: 0 <= i < |es| ==> Text.AllDigits(es[i].0)
  }

  predicate SortedByKey(es: seq<(string, string)>)
  {
    forall i, j :: 0 <= i < j < |es| ==> NumKey(es[i].0) <= NumKey(es[j].0)
  }

  /** Insertion after every entry whose key is not larger, which keeps equal keys in arrival order. */
  function InsertByKey(x: (string, string), s: seq<(string, string)>): (r: seq<(string, string)>)
    ensures multiset(r) == multiset(s) + multiset{x}
  {
    if s == [] then [x]
    else if NumKey(x.0) < NumKey(s[0].0) then [x] + s
    else
      assert s == [s[0]] + s[1..];
      [s[0]] + InsertByKey(x, s[1..])
  }

  /** `sorted(items, key=lambda x: int(x[0]))`, stable. */
  function SortByKey(es: seq<(string, string)>): (r: seq<(string, string)>)
    ensures multiset(r) == multiset(es)
  {
    if es == [] then []
    else
      assert es == es[..|es| - 1] + [es[|es| - 1]];
      InsertByKey(es[|es| - 1], SortByKey(es[..|es| - 1]))
  }

  lemma {:induction false} InsertByKeySorted(x: (string, string), s: seq<(string, string)>)
    requires SortedByKey(s)
    ensures SortedByKey(InsertByKey(x, s))
  {
    if s == [] {
    } else if NumKey(x.0) >= NumKey(s[0].0) {
      SortedTail(s);
      InsertByKeySorted(x, s[1..]);
      InsertByKeyMembers(x, s[1..]);
      SortedHead(s);
      ConsSorted(s[0], InsertByKey(x, s[1..]));
    } else {
      SortedHead(s);
      assert s == [s[0]] + s[1..];
      ConsSorted(x, s);
    }
  }

  /** Inserting brings in `x` and nothing else. */
  lemma InsertByKeyMembers(x: (string, string), s: seq<(string, string)>)
    ensures forall e :: e in InsertByKey(x, s) ==> e == x || e in s
  {
    var r := InsertByKey(x, s);
    forall e | e in r
      ensures e == x || e in s
    {
      assert e in multiset(r);
    }
  }

  lemma SortedTail(s: seq<(string, string)>)
    requires SortedByKey(s) && s != []
    ensures SortedByKey(s[1..])
  {
    forall i, j | 0 <= i < j < |s[1..]|
      ensures NumKey(s[1..][i].0) <= NumKey(s[1..][j].0)
    {
      assert s[1..][i] == s[i + 1] && s[1..][j] == s[j + 1];
    }
  }

  /** In a sorted list no later entry has a smaller key than the first. */
  lemma SortedHead(s: seq<(string, string)>)
    requires SortedByKey(s) && s != []
    ensures forall e :: e in s[1..] ==> NumKey(s[0].0) <= NumKey(e.0)
  {
    forall e | e in s[1..]
      ensures NumKey(s[0].0) <= NumKey(e.0)
    {
      var j :| 0 <= j < |s[1..]| && s[1..][j] == e;
      assert s[j + 1] == e;
    }
  }

  /** An entry whose key is not larger than any key of a sorted list can go in front of it. */
  lemma ConsSorted(h: (string, string), tail: seq<(string, string)>)
    requires SortedByKey(tail)
    requires forall e :: e in tail ==> NumKey(h.0) <= NumKey(e.0)
    ensures SortedByKey([h] + tail)
  {
    var r := [h] + tail;
    forall i, j | 0 <= i < j < |r|
      ensures NumKey(r[i].0) <= NumKey(r[j].0)
    {
      assert r[j] == tail[j - 1];
      if i == 0 {
        assert r[j] in tail;
      } else {
        assert r[i] == tail[i - 1];
      }
    }
  }

  lemma {:induction false} SortByKeySorted(es: seq<(string, string)>)
    ensures SortedByKey(SortByKey(es))
  {
    if es != [] {
      SortByKeySorted(es[..|es| - 1]);
      InsertByKeySorted(es[|es| - 1], SortByKey(es[..|es| - 1]));
    }
  }

  function ValuesOf(es: seq<(string, string)>): (r: seq<string>)
    ensures |r| == |es| && forall i :: 0 <= i < |es| ==> r[i] == es[i].1
  {
    seq(|es|, i requires 0 <= i < |es| => es[i].1)
  }

  /** The second loop's treatment of one value: a group with digit keys becomes a list. */
  function ListifyValue(v: QueryValue): QueryValue
  {
    if v.Group? && DigitKeys(v.entries) then Items(ValuesOf(SortByKey(v.entries))) else v
  }

  function Listify(d: Parsed): (r: Parsed)
    ensures |r| == |d|
    ensures forall i :: 0 <= i < |d| ==> r[i] == (d[i].0, ListifyValue(d[i].1))
  {
    seq(|d|, i requires 0 <= i < |d| => (d[i].0, ListifyValue(d[i].1)))
  }

  /** `parse_nested_query_params` as a function of the parameter list. */
  function ParseNestedSpec(params: seq<(string, string)>): Result<Parsed, QueryError>
  {
    match GroupParams(params)
    case Err(e) => Err(e)
    case Ok(d) => Ok(Listify(d))
  }

  lemma {:induction false} GroupErrorPersists(params: seq<(string, string)>, n: nat)
    requires n <= |params| && GroupParams(params[..n]).Err?
    ensures GroupParams(params) == GroupParams(params[..n])
    decreases |params| - n
  {
    if n < |params| {
      assert params[..n + 1][..n] == params[..n];
      GroupErrorPersists(params, n + 1);
    } else {
      assert params[..n] == params;
    }
  }

  /** The grouping of one more parameter is one more step. */
  lemma GroupPrefixStep(params: seq<(string, string)>, i: nat, parsed: Parsed)
    requires i < |params| && GroupParams(params[..i]) == Ok(parsed)
    ensures GroupParams(params[..i + 1]) == GroupStep(parsed, params[i].0, params[i].1)
  {
    assert params[..i + 1][..i] == params[..i];
  }

  /** `parse_nested_query_params`: the grouping loop, then the list-making loop. */
  method ParseNestedQueryParams(params: seq<(string, string)>) returns (r: Result<Parsed, QueryError>)
    ensures r == ParseNestedSpec(params)
  {
    var grouped := GroupLoop(params);
    if grouped.Err? {
      return Err(grouped.error);
    }
    var parsed := ListifyLoop(grouped.value);
    r := Ok(parsed);
  }

  /** The first loop of `parse_nested_query_params`: values grouped under their parent keys. */
  method GroupLoop(params: seq<(string, string)>) returns (r: Result<Parsed, QueryError>)
    ensures r == GroupParams(params)
  {
    var parsed: Parsed := [];
    for i := 0 to |params|
      invariant GroupParams(params[..i]) == Ok(parsed)
    {
      var (key, value) := params[i];
      ghost var step := GroupStep(parsed, key, value);
      GroupPrefixStep(params, i, parsed);
      var m := MatchNested(key);
      if m.Some? {
        var (p, c) := m.value;
        var current := OrderedDict.Find(parsed, p);
        if current.Some? && !current.value.Group? {
          assert step == Err(ItemAssignment(p));
          GroupErrorPersists(params, i + 1);
          return Err(ItemAssignment(p));
        }
        var entries := if current.None? then [] else current.value.entries;
        parsed := OrderedDict.Put(parsed, p, Group(OrderedDict.Put(entries, c, value)));
        assert step == Ok(parsed);
      } else {
        parsed := OrderedDict.Put(parsed, key, Scalar(value));
      }
    }
    assert params[..|params|] == params;
    r := Ok(parsed);
  }

  /** The second loop of `parse_nested_query_params`: each group with digit keys replaced in place by its list. */
  method ListifyLoop(grouped: Parsed) returns (parsed: Parsed)
    ensures parsed == Listify(grouped)
  {
    parsed := grouped;
    for j := 0 to |parsed|
      invariant |parsed| == |grouped|
      invariant forall k :: 0 <= k < j ==> parsed[k] == (grouped[k].0, ListifyValue(grouped[k].1))
      invariant forall k :: j <= k < |parsed| ==> parsed[k] == grouped[k]
    {
      var (key, value) := parsed[j];
      if value.Group? && DigitKeys(value.entries) {
        parsed := parsed[j := (key, Items(ValuesOf(SortByKey(value.entries))))];
      }
    }
  }

  /** The child value stored under `parent[child]`, if the parent holds a group. */
  function ChildOf(d: Parsed, p: string, c: string): Option<string>
  {
    var current: Option<QueryValue> := OrderedDict.Find(d, p);
    match current
    case Some(Group(es)) => OrderedDict.Find(es, c)
    case _ => None
  }

  /**
   * A key `p[c]` lands in the group under `p` with its value, as long as no other
   * key names `p` itself or the same child.
   */
  lemma {:induction false} NestedValueGrouped(params: seq<(string, string)>, k: nat, p: string, c: string)
    requires k < |params| && MatchNested(params[k].0) == Some((p, c))
    requires forall j :: 0 <= j < |params| && j != k ==> params[j].0 != p && MatchNested(params[j].0) != Some((p, c))
    requires GroupParams(params).Ok?
    ensures ChildOf(GroupParams(params).value, p, c) == Some(params[k].1)
  {
    var init := params[..|params| - 1];
    var (key, v) := params[|params| - 1];
    assert GroupParams(init).Ok?;
    var d := GroupParams(init).value;
    assert GroupParams(params) == GroupStep(d, key, v);
    if k == |params| - 1 {
      GroupStepStores(d, key, v, p, c);
    } else {
      forall j | 0 <= j < |init| && j != k ensures init[j].0 != p && MatchNested(init[j].0) != Some((p, c)) {
        assert init[j] == params[j];
      }
      NestedValueGrouped(init, k, p, c);
      GroupStepKeeps(d, key, v, p, c);
    }
  }

  /** A step on the key `p[c]` stores its value as child `c` of `p`. */
  lemma GroupStepStores(d: Parsed, key: string, v: string, p: string, c: string)
    requires MatchNested(key) == Some((p, c)) && GroupStep(d, key, v).Ok?
    ensures ChildOf(GroupStep(d, key, v).value, p, c) == Some(v)
  {
    var current: Option<QueryValue> := OrderedDict.Find(d, p);
    match current
    case None =>
      OrderedDict.FindPut(d, p, Group([(c, v)]), p);
    case Some(Group(es)) =>
      OrderedDict.FindPut(d, p, Group(OrderedDict.Put(es, c, v)), p);
      OrderedDict.FindPut(es, c, v, c);
    case Some(_) =>
  }

  /** A step on any other key leaves child `c` of `p` as it was. */
  lemma GroupStepKeeps(d: Parsed, key: string, v: string, p: string, c: string)
    requires key != p && MatchNested(key) != Some((p, c)) && GroupStep(d, key, v).Ok?
    ensures ChildOf(GroupStep(d, key, v).value, p, c) == ChildOf(d, p, c)
  {
    match MatchNested(key)
    case None =>
      OrderedDict.FindPut(d, key, Scalar(v), p);
    case Some((p', c')) =>
      var current: Option<QueryValue> := OrderedDict.Find(d, p');
      match current
      case None =>
        OrderedDict.FindPut(d, p', Group([(c', v)]), p);
      case Some(Group(es)) =>
        OrderedDict.FindPut(d, p', Group(OrderedDict.Put(es, c', v)), p);
        if p' == p {
          OrderedDict.FindPut(es, c', v, c);
        }
      case Some(_) =>
  }

  /**
   * A group whose keys are all digits becomes the list of its values, ordered by
   * the numeric key, holding exactly the group's entries.
   */
  lemma DigitGroupBecomesList(es: seq<(string, string)>)
    requires DigitKeys(es)
    ensures ListifyValue(Group(es)) == Items(ValuesOf(SortByKey(es)))
    ensures SortedByKey(SortByKey(es)) && multiset(SortByKey(es)) == multiset(es)
    ensures |ListifyValue(Group(es)).values| == |es|
  {
    SortByKeySorted(es);
    assert |SortByKey(es)| == |multiset(SortByKey(es))| == |es|;
  }

  /** Groups with a non-digit key and plain values pass through the second loop unchanged. */
  lemma OtherValuesKept(v: QueryValue)
    requires !v.Group? || !DigitKeys(v.entries)
    ensures ListifyValue(v) == v
  {
  }

  // ---------------------------------------------------------------------------
  // get_client_ip

  const ForwardedFor: string := "X-Forwarded-For"

  /** `DEFAULT_PROXY_HEADERS`. */
  const DefaultProxyHeaders: seq<string> :=
    ["X-Forwarded-For", "X-Real-IP", "CF-Connecting-IP", "True-Client-IP", "X-Client-IP", "Fastly-Client-IP", "X-Azure-ClientIP"]

  /** `DEFAULT_PROXY_COUNT`. */
  const DefaultProxyCount: int := 1

  /** `ips[idx]` raising `IndexError`. */
  datatype IpError = IndexError

  /** Header names compare without regard to ASCII case. */
  predicate SameName(a: string, b: string)
  {
    |a| == |b| && forall i :: 0 <= i < |a| ==> Text.LowerChar(a[i]) == Text.LowerChar(b[i])
  }

  /** `request.headers[name]`: the first header whose name matches without regard to case. */
  function HeaderValue(headers: seq<(string, string)>, name: string): Option<string>
  {
    if headers == [] then None
    else if SameName(headers[0].0, name) then Some(headers[0].1)
    else HeaderValue(headers[1..], name)
  }

  /** Python's `s[idx]`, negative indices counting from the end; None where it raises. */
  function PyIndex(s: seq<string>, idx: int): (r: Option<string>)
    ensures r.Some? <==> -|s| <= idx < |s|
  {
    if 0 <= idx < |s| then Some(s[idx]) else if -|s| <= idx < 0 then Some(s[|s| + idx]) else None
  }

  /** What one present header decides: an answer, or go on with the next header. */
  datatype Decision = Answer(r: Result<Option<string>, IpError>) | Continue

  /** `[ip.strip() for ip in header_value.split(",")]` */
  function ForwardedIps(v: string): (ips: seq<string>)
    ensures |ips| >= 1
  {
    Text.StripAll(Text.Split(v, ','))
  }

  /** The body of the header loop for a header `name` that is present with value `v`. */
  function HeaderDecision(name: string, v: string, trusted: seq<string>, count: int): Decision
  {
    if name == ForwardedFor && ',' in v then
      var ips := ForwardedIps(v);
      if trusted != [] then
        if ips[|ips| - 1] in trusted && Friendly.Abs(-1 - count) <= |ips| then
          match PyIndex(ips, -1 - count)
          case Some(ip) => Answer(Ok(Some(ip)))
          case None => Answer(Err(IndexError))
        else Continue
      else Answer(Ok(Some(ips[0])))
    else Answer(Ok(Some(v)))
  }

  /** The loop of `get_client_ip` from header `names[0]` on, then the client host. */
  function ClientIpFrom(headers: seq<(string, string)>, names: seq<string>, trusted: seq<string>, count: int, host: Option<string>)
    : Result<Option<string>, IpError>
  {
    if names == [] then Ok(host)
    else
      match HeaderValue(headers, names[0])
      case None => ClientIpFrom(headers, names[1..], trusted, count, host)
      case Some(v) =>
        match HeaderDecision(names[0], v, trusted, count)
        case Answer(r) => r
        case Continue => ClientIpFrom(headers, names[1..], trusted, count, host)
  }

  /** `proxy_headers or DEFAULT_PROXY_HEADERS`. */
  function EffectiveHeaders(proxyHeaders: Option<seq<string>>): seq<string>
  {
    if proxyHeaders.None? || proxyHeaders.value == [] then DefaultProxyHeaders else proxyHeaders.value
  }

  /** `proxy_count or DEFAULT_PROXY_COUNT`. */
  function EffectiveCount(proxyCount: Option<int>): int
  {
    if proxyCount.None? || proxyCount.value == 0 then DefaultProxyCount else proxyCount.value
  }

  function EffectiveTrusted(trustedProxies: Option<seq<string>>): seq<string>
  {
    if trustedProxies.None? then [] else trustedProxies.value
  }

  /** `get_client_ip`: the header loop over the effective header names, trusted proxies and proxy count. */
  method GetClientIp(headers: seq<(string, string)>, proxyHeaders: Option<seq<string>>, trustedProxies: Option<seq<string>>,
                     proxyCount: Option<int>, clientHost: Option<string>)
    returns (r: Result<Option<string>, IpError>)
    ensures r == ClientIpFrom(headers, EffectiveHeaders(proxyHeaders), EffectiveTrusted(trustedProxies), EffectiveCount(proxyCount), clientHost)
  {
    r := HeaderLoop(headers, EffectiveHeaders(proxyHeaders), EffectiveTrusted(trustedProxies), EffectiveCount(proxyCount), clientHost);
  }

  /** The header loop of `get_client_ip`, then the client host. */
  method HeaderLoop(headers: seq<(string, string)>, names: seq<string>, trusted: seq<string>, count: int, clientHost: Option<string>)
    returns (r: Result<Option<string>, IpError>)
    ensures r == ClientIpFrom(headers, names, trusted, count, clientHost)
  {
    for i := 0 to |names|
      invariant ClientIpFrom(headers, names, trusted, count, clientHost) == ClientIpFrom(headers, names[i..], trusted, count, clientHost)
    {
      var found := HeaderValue(headers, names[i]);
      if found.Some? {
        var decision := HeaderDecision(names[i], found.value, trusted, count);
        if decision.Answer? {
          ClientIpAnswered(headers, names, i, trusted, count, clientHost);
          return decision.r;
        }
      }
      ClientIpNext(headers, names, i, trusted, count, clientHost);
    }
    r := Ok(clientHost);
  }

  /** A present header that decides ends the loop with its answer. */
  lemma ClientIpAnswered(headers: seq<(string, string)>, names: seq<string>, i: nat, trusted: seq<string>, count: int, host: Option<string>)
    requires i < |names| && HeaderValue(headers, names[i]).Some?
    requires HeaderDecision(names[i], HeaderValue(headers, names[i]).value, trusted, count).Answer?
    ensures ClientIpFrom(headers, names[i..], trusted, count, host) == HeaderDecision(names[i], HeaderValue(headers, names[i]).value, trusted, count).r
  {
    assert names[i..][0] == names[i];
  }

  /** A missing header, or one that does not decide, passes on to the next name. */
  lemma ClientIpNext(headers: seq<(string, string)>, names: seq<string>, i: nat, trusted: seq<string>, count: int, host: Option<string>)
    requires i < |names|
    requires HeaderValue(headers, names[i]).Some? ==> HeaderDecision(names[i], HeaderValue(headers, names[i]).value, trusted, count).Continue?
    ensures ClientIpFrom(headers, names[i..], trusted, count, host) == ClientIpFrom(headers, names[i + 1..], trusted, count, host)
  {
    assert names[i..][0] == names[i];
    assert names[i..][1..] == names[i + 1..];
  }

  /** The first listed header that is present decides, unless it is a forwarded-for list. */
  lemma {:induction false} FirstHeaderWins(headers: seq<(string, string)>, names: seq<string>, trusted: seq<string>, count: int,
                                           host: Option<string>, i: nat, v: string)
    requires i < |names| && forall j :: 0 <= j < i ==> HeaderValue(headers, names[j]).None?
    requires HeaderValue(headers, names[i]) == Some(v)
    requires names[i] != ForwardedFor || ',' !in v
    ensures ClientIpFrom(headers, names, trusted, count, host) == Ok(Some(v))
  {
    if i > 0 {
      FirstHeaderWins(headers, names[1..], trusted, count, host, i - 1, v);
    }
  }

  /** Without trusted proxies, a forwarded-for list yields its first entry, stripped. */
  lemma {:induction false} UntrustedForwardedFor(headers: seq<(string, string)>, names: seq<string>, count: int,
                                                 host: Option<string>, i: nat, v: string)
    requires i < |names| && forall j :: 0 <= j < i ==> HeaderValue(headers, names[j]).None?
    requires HeaderValue(headers, names[i]) == Some(v)
    requires names[i] == ForwardedFor && ',' in v
    ensures ClientIpFrom(headers, names, [], count, host) == Ok(Some(Text.Strip(Text.Split(v, ',')[0], Text.Whitespace)))
  {
    if i > 0 {
      UntrustedForwardedFor(headers, names[1..], count, host, i - 1, v);
    }
  }

  /** With none of the headers present, the client host (or None) is returned. */
  lemma {:induction false} FallbackToClientHost(headers: seq<(string, string)>, names: seq<string>, trusted: seq<string>, count: int,
                                                host: Option<string>)
    requires forall j :: 0 <= j < |names| ==> HeaderValue(headers, names[j]).None?
    ensures ClientIpFrom(headers, names, trusted, count, host) == Ok(host)
  {
    if names != [] {
      FallbackToClientHost(headers, names[1..], trusted, count, host);
    }
  }

  /** With a non-negative proxy count the trusted-proxy index is always in range. */
  lemma {:induction false} NoIndexError(headers: seq<(string, string)>, names: seq<string>, trusted: seq<string>, count: int,
                                        host: Option<string>)
    requires count >= 0
    ensures ClientIpFrom(headers, names, trusted, count, host).Ok?
  {
    if names != [] {
      NoIndexError(headers, names[1..], trusted, count, host);
      var found := HeaderValue(headers, names[0]);
      if found.Some? {
        var d := HeaderDecision(names[0], found.value, trusted, count);
        DecisionInRange(names[0], found.value, trusted, count);
        assert d.Answer? ==> d.r.Ok?;
      }
    }
  }

  lemma DecisionInRange(name: string, v: string, trusted: seq<string>, count: int)
    requires count >= 0
    ensures HeaderDecision(name, v, trusted, count) != Answer(Err(IndexError))
  {
  }

  // ---------------------------------------------------------------------------
  // parse_bloom_client_header

  /** The detail of an `InvalidClientTypeError`. */
  datatype HeaderProblem =
    | PairWithoutEquals(pair: string)
    | EmptyKeyOrValue(pair: string)
    | MissingFields(fields: seq<string>)
    | BadVersion(version: string)
    | BadBuild(build: string)

  datatype ClientHeaderError =
    | InvalidClientType(problem: HeaderProblem)
    | UnsupportedPlatform(platform: string)
    | UnsupportedApp(app: string)

  /** `pair.split("=", 1)` with both halves stripped; a pair without '=' gives an empty value. */
  function SplitPair(pair: string): (kv: (string, string))
  {
    var k := Text.IndexOf(pair, '=');
    if k < |pair| then (Text.Strip(pair[..k], Text.Whitespace), Text.Strip(pair[k + 1..], Text.Whitespace))
    else (Text.Strip(pair, Text.Whitespace), "")
  }

  /** The pair loop of `parse_bloom_client_header`, over the stripped pairs in order. */
  function ParsePairs(pairs: seq<string>): (r: Result<seq<(string, string)>, ClientHeaderError>)
    ensures r.Err? ==> r.error.InvalidClientType? && (r.error.problem.PairWithoutEquals? || r.error.problem.EmptyKeyOrValue?)
  {
    if pairs == [] then Ok([])
    else
      match ParsePairs(pairs[..|pairs| - 1])
      case Err(e) => Err(e)
      case Ok(d) =>
        var pair := pairs[|pairs| - 1];
        if '=' !in pair then Err(InvalidClientType(PairWithoutEquals(pair)))
        else if SplitPair(pair).0 == [] || SplitPair(pair).1 == [] then Err(InvalidClientType(EmptyKeyOrValue(pair)))
        else Ok(OrderedDict.Put(d, SplitPair(pair).0, SplitPair(pair).1))
  }

  function LeadingDigits(s: string): (n: nat)
    ensures n <= |s| && forall i :: 0 <= i < n ==> Text.IsDigit(s[i])
    ensures n < |s| ==> !Text.IsDigit(s[n])
  {
    if s != [] && Text.IsDigit(s[0]) then 1 + LeadingDigits(s[1..]) else 0
  }

  function LeadingWord(s: string): (n: nat)
    ensures n <= |s| && forall i :: 0 <= i < n ==> Text.IsWordChar(s[i])
    ensures n < |s| ==> !Text.IsWordChar(s[n])
  {
    if s != [] && Text.IsWordChar(s[0]) then 1 + LeadingWord(s[1..]) else 0
  }

  /** The regular-expression anchor `$`: the end, or a final newline. */
  predicate AtEnd(s: string) { s == [] || s == "\n" }

  /** `(?:[-+]\w+)?$` */
  predicate VersionSuffix(s: string)
  {
    AtEnd(s) || (|s| >= 2 && s[0] in {'-', '+'} && 0 < LeadingWord(s[1..]) && AtEnd(s[1 + LeadingWord(s[1..])..]))
  }

  /** `re.match(r"^\d+\.\d+\.\d+(?:[-+]\w+)?$", v)`: major number and '.', then the rest. */
  predicate VersionOk(v: string)
  {
    var a := LeadingDigits(v);
    0 < a < |v| && v[a] == '.' && MinorOk(v[a + 1..])
  }

  /** `\d+\.\d+(?:[-+]\w+)?$` */
  predicate MinorOk(v: string)
  {
    var b := LeadingDigits(v);
    0 < b < |v| && v[b] == '.' && PatchOk(v[b + 1..])
  }

  /** `\d+(?:[-+]\w+)?$` */
  predicate PatchOk(v: string)
  {
    var c := LeadingDigits(v);
    0 < c && VersionSuffix(v[c..])
  }

  /** The required fields that are absent, in the order platform, version, app. */
  function MissingOf(d: seq<(string, string)>): (missing: seq<string>)
    ensures missing == [] <==>
      OrderedDict.Find(d, "platform").Some? && OrderedDict.Find(d, "version").Some? && OrderedDict.Find(d, "app").Some?
  {
    (if OrderedDict.Find(d, "platform").None? then ["platform"] else [])
    + (if OrderedDict.Find(d, "version").None? then ["version"] else [])
    + (if OrderedDict.Find(d, "app").None? then ["app"] else [])
  }

  /** What `parse_bloom_client_header` does with the parsed pairs. */
  function FromFields(d: seq<(string, string)>): (r: Result<ClientInfo.BloomClientInfo, ClientHeaderError>)
    ensures r.Ok? ==> OrderedDict.Find(d, "platform") == Some(ClientInfo.PlatformValue(r.value.platform))
    ensures r.Ok? ==> OrderedDict.Find(d, "app") == Some(ClientInfo.AppValue(r.value.app))
    ensures r.Ok? ==> OrderedDict.Find(d, "version") == Some(r.value.version) && VersionOk(r.value.version)
    ensures r.Ok? ==> r.value.build == OrderedDict.Find(d, "build") && (r.value.build.Some? ==> Text.AllDigits(r.value.build.value))
    ensures MissingOf(d) != [] ==> r == Err(InvalidClientType(MissingFields(MissingOf(d))))
  {
    var missing := MissingOf(d);
    if missing != [] then Err(InvalidClientType(MissingFields(missing)))
    else
      var platform := OrderedDict.Find(d, "platform").value;
      var version := OrderedDict.Find(d, "version").value;
      var app := OrderedDict.Find(d, "app").value;
      match ClientInfo.ParsePlatform(platform)
      case None => Err(UnsupportedPlatform(platform))
      case Some(pl) =>
        match ClientInfo.ParseApp(app)
        case None => Err(UnsupportedApp(app))
        case Some(ap) =>
          if !VersionOk(version) then Err(InvalidClientType(BadVersion(version)))
          else
            match OrderedDict.Find(d, "build")
            case None => Ok(ClientInfo.BloomClientInfo(pl, version, ap, None))
            case Some(b) =>
              if !Text.AllDigits(b) then Err(InvalidClientType(BadBuild(b)))
              else Ok(ClientInfo.BloomClientInfo(pl, version, ap, Some(b)))
  }

  /** `[pair.strip() for pair in x_bloom_client.split(";")]` */
  function HeaderPairs(header: string): seq<string>
  {
    Text.StripAll(Text.Split(header, ';'))
  }

  /** `parse_bloom_client_header` as a function of the header text. */
  function HeaderSpec(header: string): Result<ClientInfo.BloomClientInfo, ClientHeaderError>
  {
    match ParsePairs(HeaderPairs(header))
    case Err(e) => Err(e)
    case Ok(d) => FromFields(d)
  }

  lemma HeaderSpecOfPairs(header: string, d: seq<(string, string)>)
    requires ParsePairs(HeaderPairs(header)) == Ok(d)
    ensures HeaderSpec(header) == FromFields(d)
  {
  }

  lemma PairRejectedAt(pairs: seq<string>, i: nat, d: seq<(string, string)>)
    requires i < |pairs| && ParsePairs(pairs[..i]) == Ok(d)
    requires '=' !in pairs[i] || SplitPair(pairs[i]).0 == [] || SplitPair(pairs[i]).1 == []
    ensures ParsePairs(pairs) == Err(InvalidClientType(
      if '=' !in pairs[i] then PairWithoutEquals(pairs[i]) else EmptyKeyOrValue(pairs[i])))
  {
    assert pairs[..i + 1][..i] == pairs[..i];
    PairsErrorPersists(pairs, i + 1);
  }

  lemma {:induction false} PairsErrorPersists(pairs: seq<string>, n: nat)
    requires n <= |pairs| && ParsePairs(pairs[..n]).Err?
    ensures ParsePairs(pairs) == ParsePairs(pairs[..n])
    decreases |pairs| - n
  {
    if n < |pairs| {
      assert pairs[..n + 1][..n] == pairs[..n];
      PairsErrorPersists(pairs, n + 1);
    } else {
      assert pairs[..n] == pairs;
    }
  }

  /** `parse_bloom_client_header`, with its loop over the pairs. */
  method ParseBloomClientHeader(header: string) returns (r: Result<ClientInfo.BloomClientInfo, ClientHeaderError>)
    ensures r == HeaderSpec(header)
  {
    var pairs := HeaderPairs(header);
    var parsed: seq<(string, string)> := [];
    for i := 0 to |pairs|
      invariant ParsePairs(pairs[..i]) == Ok(parsed)
    {
      assert pairs[..i + 1][..i] == pairs[..i];
      var pair := pairs[i];
      if '=' !in pair {
        PairRejectedAt(pairs, i, parsed);
        return Err(InvalidClientType(PairWithoutEquals(pair)));
      }
      var (key, value) := SplitPair(pair);
      if key == [] || value == [] {
        PairRejectedAt(pairs, i, parsed);
        return Err(InvalidClientType(EmptyKeyOrValue(pair)));
      }
      PairsStep(pairs, i, parsed);
      parsed := OrderedDict.Put(parsed, key, value);
    }
    assert pairs[..|pairs|] == pairs;
    HeaderSpecOfPairs(header, parsed);
    r := FromFields(parsed);
  }

  /** A pair without '=' or with an empty key or value makes the whole header invalid. */
  lemma {:induction false} MalformedPairRejected(pairs: seq<string>, i: nat)
    requires i < |pairs|
    requires '=' !in pairs[i] || SplitPair(pairs[i]).0 == [] || SplitPair(pairs[i]).1 == []
    ensures ParsePairs(pairs).Err?
  {
    if i < |pairs| - 1 {
      assert pairs[..|pairs| - 1][i] == pairs[i];
      MalformedPairRejected(pairs[..|pairs| - 1], i);
    }
  }

  /** The value kept for a key is the one of the last pair with that key. */
  lemma {:induction false} LastPairWins(pairs: seq<string>, i: nat)
    requires i < |pairs| && ParsePairs(pairs).Ok?
    requires forall j :: i < j < |pairs| ==> SplitPair(pairs[j]).0 != SplitPair(pairs[i]).0
    ensures OrderedDict.Find(ParsePairs(pairs).value, SplitPair(pairs[i]).0) == Some(SplitPair(pairs[i]).1)
  {
    var init := pairs[..|pairs| - 1];
    PairsLast(pairs);
    var d := ParsePairs(init).value;
    var last := SplitPair(pairs[|pairs| - 1]);
    OrderedDict.FindPut(d, last.0, last.1, SplitPair(pairs[i]).0);
    if i < |pairs| - 1 {
      PrefixKeysDiffer(pairs, i);
      LastPairWins(init, i);
    }
  }

  /** A parse that succeeds is the parse of all pairs but the last, with the last one assigned. */
  lemma PairsLast(pairs: seq<string>)
    requires pairs != [] && ParsePairs(pairs).Ok?
    ensures ParsePairs(pairs[..|pairs| - 1]).Ok?
    ensures ParsePairs(pairs).value ==
      OrderedDict.Put(ParsePairs(pairs[..|pairs| - 1]).value, SplitPair(pairs[|pairs| - 1]).0, SplitPair(pairs[|pairs| - 1]).1)
  {
  }

  lemma PrefixKeysDiffer(pairs: seq<string>, i: nat)
    requires i < |pairs| - 1
    requires forall j :: i < j < |pairs| ==> SplitPair(pairs[j]).0 != SplitPair(pairs[i]).0
    ensures var init := pairs[..|pairs| - 1];
      i < |init| && init[i] == pairs[i] && forall j :: i < j < |init| ==> SplitPair(init[j]).0 != SplitPair(init[i]).0
  {
    var init := pairs[..|pairs| - 1];
    forall j | i < j < |init| ensures SplitPair(init[j]).0 != SplitPair(init[i]).0 {
      assert init[j] == pairs[j];
    }
  }

  // The formatter and the parser agree.

  /** The segments of `__str__` after splitting on ';': the later ones keep their leading space. */
  function Spaced(parts: seq<string>): (r: seq<string>)
    ensures |r| == |parts| && forall i :: 0 <= i < |parts| ==> r[i] == " " + parts[i]
  {
    seq(|parts|, i requires 0 <= i < |parts| => " " + parts[i])
  }

  lemma {:induction false} SplitJoined(pre: string, parts: seq<string>)
    requires |parts| >= 1 && ';' !in pre
    requires forall i :: 0 <= i < |parts| ==> ';' !in parts[i]
    ensures Text.Split(pre + Text.Join(parts, "; "), ';') == [pre + parts[0]] + Spaced(parts[1..])
    decreases |parts|
  {
    if |parts| == 1 {
      Text.SplitNone(pre + parts[0], ';');
    } else {
      var rest := Text.Join(parts[1..], "; ");
      JoinCons(pre, parts);
      Text.SplitCons(pre + parts[0], ';', " " + rest);
      SplitJoined(" ", parts[1..]);
      SpacedCons(parts);
    }
  }

  lemma JoinCons(pre: string, parts: seq<string>)
    requires |parts| >= 2
    ensures pre + Text.Join(parts, "; ") == (pre + parts[0]) + [';'] + (" " + Text.Join(parts[1..], "; "))
  {
  }

  lemma SpacedCons(parts: seq<string>)
    requires |parts| >= 2
    ensures Spaced(parts[1..]) == [" " + parts[1]] + Spaced(parts[1..][1..])
  {
  }

  /** The text a dictionary of fields is written as: `key=value` per entry. */
  function PairTexts(fields: seq<(string, string)>): (r: seq<string>)
    ensures |r| == |fields| && forall i :: 0 <= i < |fields| ==> r[i] == fields[i].0 + "=" + fields[i].1
  {
    seq(|fields|, i requires 0 <= i < |fields| => fields[i].0 + "=" + fields[i].1)
  }

  /** A field that survives `key=value` formatting and the pair parser unchanged. */
  predicate CleanField(f: (string, string))
  {
    f.0 != [] && '=' !in f.0 && f.0[0] !in Text.Whitespace && f.0[|f.0| - 1] !in Text.Whitespace &&
    f.1 != [] && f.1[0] !in Text.Whitespace && f.1[|f.1| - 1] !in Text.Whitespace
  }

  lemma SplitPairOf(f: (string, string))
    requires CleanField(f)
    ensures SplitPair(f.0 + "=" + f.1) == f
  {
    Text.IndexOfAfter(f.0, '=', f.1);
    var s := f.0 + "=" + f.1;
    assert s == f.0 + ['='] + f.1;
    assert s[..|f.0|] == f.0 && s[|f.0| + 1..] == f.1;
  }

  /** Clean fields with distinct keys are read back as the same dictionary. */
  lemma {:induction false} ParsePairTexts(fields: seq<(string, string)>)
    requires OrderedDict.DistinctKeys(fields) && forall i :: 0 <= i < |fields| ==> CleanField(fields[i])
    ensures ParsePairs(PairTexts(fields)) == Ok(fields)
  {
    if fields != [] {
      var init, f := fields[..|fields| - 1], fields[|fields| - 1];
      assert init + [f] == fields;
      PrefixClean(fields);
      ParsePairTexts(init);
      LastKeyFresh(fields);
      PairTextLast(init, f);
    }
  }

  lemma PrefixClean(fields: seq<(string, string)>)
    requires fields != []
    requires OrderedDict.DistinctKeys(fields) && forall i :: 0 <= i < |fields| ==> CleanField(fields[i])
    ensures var init := fields[..|fields| - 1];
      OrderedDict.DistinctKeys(init) && forall i :: 0 <= i < |init| ==> CleanField(init[i])
  {
    var init := fields[..|fields| - 1];
    assert forall i :: 0 <= i < |init| ==> init[i] == fields[i];
  }

  /** Reading one more clean field with a new key, after the others, adds exactly that field. */
  lemma PairTextLast(init: seq<(string, string)>, f: (string, string))
    requires CleanField(f) && OrderedDict.Find(init, f.0).None?
    requires ParsePairs(PairTexts(init)) == Ok(init)
    ensures ParsePairs(PairTexts(init + [f])) == Ok(init + [f])
  {
    var texts := PairTexts(init + [f]);
    PairTextsAppend(init, f);
    PairStepFresh(texts, |init|, init, f);
    assert texts[..|init| + 1] == texts;
  }

  lemma PairTextsAppend(init: seq<(string, string)>, f: (string, string))
    ensures PairTexts(init + [f])[..|init|] == PairTexts(init)
  {
    var texts := PairTexts(init + [f]);
    forall i | 0 <= i < |init|
      ensures texts[i] == PairTexts(init)[i]
    {
      assert (init + [f])[i] == init[i];
    }
  }

  /** The text of a clean field with a new key adds that field at the end. */
  lemma PairStepFresh(texts: seq<string>, i: nat, d: seq<(string, string)>, f: (string, string))
    requires i < |texts| && ParsePairs(texts[..i]) == Ok(d)
    requires texts[i] == f.0 + "=" + f.1 && CleanField(f) && OrderedDict.Find(d, f.0).None?
    ensures ParsePairs(texts[..i + 1]) == Ok(d + [f])
  {
    SplitPairOf(f);
    assert texts[i][|f.0|] == '=';
    PairsStep(texts, i, d);
  }

  /** With distinct keys, the last key is not among the earlier ones. */
  lemma LastKeyFresh<V>(fields: seq<(string, V)>)
    requires fields != [] && OrderedDict.DistinctKeys(fields)
    ensures OrderedDict.Find(fields[..|fields| - 1], fields[|fields| - 1].0).None?
  {
  }

  lemma PairsStep(pairs: seq<string>, i: nat, d: seq<(string, string)>)
    requires i < |pairs| && ParsePairs(pairs[..i]) == Ok(d)
    requires '=' in pairs[i] && SplitPair(pairs[i]).0 != [] && SplitPair(pairs[i]).1 != []
    ensures ParsePairs(pairs[..i + 1]) == Ok(OrderedDict.Put(d, SplitPair(pairs[i]).0, SplitPair(pairs[i]).1))
  {
    assert pairs[..i + 1][..i] == pairs[..i];
  }

  predicate VersionChar(ch: char)
  {
    Text.IsWordChar(ch) || ch in {'.', '-', '+', '\n'}
  }

  lemma SuffixChars(s: string)
    requires VersionSuffix(s)
    ensures forall i :: 0 <= i < |s| ==> VersionChar(s[i])
    ensures s != [] && '\n' !in s ==> Text.IsWordChar(s[|s| - 1])
  {
    if !AtEnd(s) {
      var w := LeadingWord(s[1..]);
      assert s == [s[0]] + s[1..][..w] + s[1 + w..];
      if '\n' !in s {
        assert s[1 + w..] == [];
        assert s[|s| - 1] == s[1..][w - 1];
      }
    }
  }

  lemma PatchChars(v: string)
    requires PatchOk(v)
    ensures Text.IsDigit(v[0]) && forall i :: 0 <= i < |v| ==> VersionChar(v[i])
    ensures '\n' !in v ==> Text.IsWordChar(v[|v| - 1])
  {
    var c := LeadingDigits(v);
    SuffixChars(v[c..]);
    assert v == v[..c] + v[c..];
    if '\n' !in v && v[c..] == [] {
      assert v[|v| - 1] == v[c - 1];
    }
  }

  lemma {:induction false} DottedChars(v: string, tail: string)
    requires 0 < LeadingDigits(v) < |v| && v[LeadingDigits(v)] == '.' && tail == v[LeadingDigits(v) + 1..] && tail != []
    requires Text.IsDigit(tail[0]) && forall i :: 0 <= i < |tail| ==> VersionChar(tail[i])
    requires '\n' !in tail ==> Text.IsWordChar(tail[|tail| - 1])
    ensures Text.IsDigit(v[0]) && forall i :: 0 <= i < |v| ==> VersionChar(v[i])
    ensures '\n' !in v ==> Text.IsWordChar(v[|v| - 1])
  {
    var a := LeadingDigits(v);
    forall i | a < i < |v| ensures VersionChar(v[i]) {
      assert v[i] == tail[i - a - 1];
    }
    if '\n' !in v {
      assert forall i :: 0 <= i < |tail| ==> tail[i] == v[a + 1 + i];
      assert v[|v| - 1] == tail[|tail| - 1];
    }
  }

  /** A version the parser accepts starts with a digit and is made of digits, word characters, '.', '-', '+' and newlines. */
  lemma VersionChars(v: string)
    requires VersionOk(v)
    ensures Text.IsDigit(v[0]) && forall i :: 0 <= i < |v| ==> VersionChar(v[i])
    ensures '\n' !in v ==> Text.IsWordChar(v[|v| - 1])
  {
    var v1 := v[LeadingDigits(v) + 1..];
    var v2 := v1[LeadingDigits(v1) + 1..];
    PatchChars(v2);
    DottedChars(v1, v2);
    DottedChars(v, v1);
  }

  /** A client as the dictionary its header text holds. */
  function ClientFields(info: ClientInfo.BloomClientInfo): seq<(string, string)>
  {
    var base := [("platform", ClientInfo.PlatformValue(info.platform)), ("version", info.version), ("app", ClientInfo.AppValue(info.app))];
    if info.build.Some? && info.build.value != "" then base + [("build", info.build.value)] else base
  }

  lemma SegmentsArePairTexts(info: ClientInfo.BloomClientInfo)
    ensures ClientInfo.Segments(info) == PairTexts(ClientFields(info))
  {
    var parts, texts := ClientInfo.Segments(info), PairTexts(ClientFields(info));
    assert "platform" + "=" == "platform=" && "version" + "=" == "version=";
    assert "app" + "=" == "app=" && "build" + "=" == "build=";
    forall i | 0 <= i < |parts| ensures parts[i] == texts[i] {
      if i == 0 {
        assert texts[0] == "platform" + "=" + ClientInfo.PlatformValue(info.platform);
      } else if i == 1 {
        assert texts[1] == "version" + "=" + info.version;
      } else if i == 2 {
        assert texts[2] == "app" + "=" + ClientInfo.AppValue(info.app);
      } else {
        assert texts[3] == "build" + "=" + info.build.value;
      }
    }
  }

  lemma ClientFieldsDistinct(info: ClientInfo.BloomClientInfo)
    ensures OrderedDict.DistinctKeys(ClientFields(info))
    ensures forall i :: 0 <= i < |ClientFields(info)| ==> ';' !in ClientFields(info)[i].0
  {
    assert "platform"[0] != "version"[0] && "platform"[0] != "app"[0] && "version"[0] != "app"[0];
    assert "build"[0] != "platform"[0] && "build"[0] != "version"[0] && "build"[0] != "app"[0];
  }

  lemma EnumValuesClean(info: ClientInfo.BloomClientInfo)
    ensures CleanField(("platform", ClientInfo.PlatformValue(info.platform))) && ';' !in ClientInfo.PlatformValue(info.platform)
    ensures CleanField(("app", ClientInfo.AppValue(info.app))) && ';' !in ClientInfo.AppValue(info.app)
  {
  }

  lemma VersionClean(v: string)
    requires VersionOk(v) && '\n' !in v
    ensures CleanField(("version", v)) && ';' !in v
  {
    VersionChars(v);
    assert v[|v| - 1] !in Text.Whitespace;
    assert forall k :: 0 <= k < |v| ==> v[k] != ';';
  }

  lemma ClientFieldsClean(info: ClientInfo.BloomClientInfo)
    requires VersionOk(info.version) && '\n' !in info.version
    requires info.build.None? || Text.AllDigits(info.build.value)
    ensures forall i :: 0 <= i < |ClientFields(info)| ==> CleanField(ClientFields(info)[i]) && ';' !in ClientFields(info)[i].1
  {
    var fields := ClientFields(info);
    EnumValuesClean(info);
    VersionClean(info.version);
    var base := [("platform", ClientInfo.PlatformValue(info.platform)), ("version", info.version), ("app", ClientInfo.AppValue(info.app))];
    if info.build.Some? && info.build.value != "" {
      BuildClean(info.build.value);
      assert fields == base + [("build", info.build.value)];
    } else {
      assert fields == base;
    }
  }

  lemma BuildClean(b: string)
    requires b != [] && Text.AllDigits(b)
    ensures CleanField(("build", b)) && ';' !in b
  {
    assert !Text.IsDigit(';') && forall k :: 0 <= k < |b| ==> b[k] != ';';
  }

  lemma PairTextsNoSemicolon(fields: seq<(string, string)>)
    requires forall i :: 0 <= i < |fields| ==> ';' !in fields[i].0 && ';' !in fields[i].1
    ensures forall i :: 0 <= i < |fields| ==> ';' !in PairTexts(fields)[i]
  {
  }

  /** A segment with neither leading nor trailing whitespace. */
  predicate KeptEnds(x: string)
  {
    x != [] && x[0] !in Text.Whitespace && x[|x| - 1] !in Text.Whitespace
  }

  lemma PairTextsEnds(fields: seq<(string, string)>)
    requires forall i :: 0 <= i < |fields| ==> CleanField(fields[i])
    ensures forall i :: 0 <= i < |fields| ==> KeptEnds(PairTexts(fields)[i])
  {
    forall i | 0 <= i < |fields| ensures KeptEnds(PairTexts(fields)[i]) {
      var t := PairTexts(fields)[i];
      assert t[0] == fields[i].0[0];
      assert t[|t| - 1] == fields[i].1[|fields[i].1| - 1];
    }
  }

  lemma StripSpaced(parts: seq<string>)
    requires |parts| >= 1
    requires forall i :: 0 <= i < |parts| ==> KeptEnds(parts[i])
    ensures Text.StripAll([parts[0]] + Spaced(parts[1..])) == parts
  {
    Text.StripAllCons(parts[0], Spaced(parts[1..]));
    assert KeptEnds(parts[0]);
    StripAllSpaced(parts[1..]);
    assert parts == [parts[0]] + parts[1..];
  }

  /** Stripping the segments after the first gives back the parts they were made from. */
  lemma {:induction false} StripAllSpaced(ps: seq<string>)
    requires forall i :: 0 <= i < |ps| ==> KeptEnds(ps[i])
    ensures Text.StripAll(Spaced(ps)) == ps
  {
    if ps != [] {
      assert forall i :: 0 <= i < |ps[1..]| ==> ps[1..][i] == ps[i + 1];
      StripAllSpaced(ps[1..]);
      assert KeptEnds(ps[0]);
      Text.StripSpacePrefixed(ps[0]);
      assert Spaced(ps) == [" " + ps[0]] + Spaced(ps[1..]);
      Text.StripAllCons(" " + ps[0], Spaced(ps[1..]));
      assert ps == [ps[0]] + ps[1..];
    }
  }

  lemma FromClientFields(info: ClientInfo.BloomClientInfo)
    requires VersionOk(info.version)
    requires info.build.None? || Text.AllDigits(info.build.value)
    ensures FromFields(ClientFields(info)) == Ok(info)
  {
    var fields := ClientFields(info);
    ClientFieldsDistinct(info);
    OrderedDict.FindAt(fields, 0);
    OrderedDict.FindAt(fields, 1);
    OrderedDict.FindAt(fields, 2);
    if |fields| == 4 {
      OrderedDict.FindAt(fields, 3);
    } else {
      assert "build"[0] != "platform"[0] && "build"[0] != "version"[0] && "build"[0] != "app"[0];
      assert OrderedDict.Find(fields, "build").None?;
    }
    ClientInfo.PlatformRoundTrip(info.platform);
    ClientInfo.AppRoundTrip(info.app);
  }

  /**
   * Formatting a client and parsing the text back gives the same client, when the
   * version has the accepted form and the build, if any, is all digits.
   */
  lemma HeaderRoundTrip(info: ClientInfo.BloomClientInfo)
    requires VersionOk(info.version) && '\n' !in info.version
    requires info.build.None? || Text.AllDigits(info.build.value)
    ensures HeaderSpec(ClientInfo.ToString(info)) == Ok(info)
  {
    var fields := ClientFields(info);
    HeaderPairsOfClient(info);
    ClientFieldsDistinct(info);
    ClientFieldsClean(info);
    ParsePairTexts(fields);
    FromClientFields(info);
  }

  /** The stripped pairs of a client's header text are the `key=value` texts of its fields. */
  lemma HeaderPairsOfClient(info: ClientInfo.BloomClientInfo)
    requires VersionOk(info.version) && '\n' !in info.version
    requires info.build.None? || Text.AllDigits(info.build.value)
    ensures HeaderPairs(ClientInfo.ToString(info)) == PairTexts(ClientFields(info))
  {
    var fields := ClientFields(info);
    var parts := ClientInfo.Segments(info);
    SegmentsArePairTexts(info);
    ClientFieldsDistinct(info);
    ClientFieldsClean(info);
    PairTextsNoSemicolon(fields);
    SplitJoined([], parts);
    var text := ClientInfo.ToString(info);
    assert text == [] + Text.Join(parts, "; ");
    assert [] + parts[0] == parts[0];
    assert Text.Split(text, ';') == [parts[0]] + Spaced(parts[1..]);
    PairTextsEnds(fields);
    StripSpaced(parts);
  }
}
