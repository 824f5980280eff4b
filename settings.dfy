/**
 * The logic in the application settings: the two list parsers applied to
 * environment values, the refusal of the placeholder secret "changethis",
 * and the derived server port and URL.
 */
module Settings {
  import opened Wrappers
  import opened Text

  /** A raw setting as the validators receive it: a string, a list of strings, or anything else. */
  datatype Raw = RawText(s: string) | RawList(items: seq<string>) | RawOther

  /** `ValueError(...)` with its message. */
  datatype ValueError = ValueError(message: string)

  /** The `ENVIRONMENT` literal. */
  datatype Environment = Local | Staging | Production

  /**
   * `parse_cors`: a string not starting with "[" is split on ',' and each
   * part stripped; a list is kept; a string starting with "[" becomes a
   * one-element list; anything else raises.
   */
  function ParseCors(v: Raw): (r: Result<seq<string>, ValueError>)
    ensures v.RawOther? <==> r.Err?
    ensures v.RawList? ==> r == Ok(v.items)
    ensures v.RawText? && StartsWith(v.s, "[") ==> r == Ok([v.s])
    ensures v.RawText? && !StartsWith(v.s, "[") ==>
      r.Ok? && |r.value| == Count(v.s, ',') + 1 && r.value == StripAll(Split(v.s, ','))
  {
    match v
    case RawText(s) =>
      if !StartsWith(s, "[") then
        SplitCount(s, ',');
        Ok(StripAll(Split(s, ',')))
      else Ok([s])
    case RawList(items) => Ok(items)
    case RawOther => Err(ValueError("invalid CORS origins"))
  }

  /** Joining parts that hold no separator and splitting again gives the parts back. */
  lemma {:induction false} JoinSplit(parts: seq<string>, sep: char)
    requires |parts| >= 1
    requires forall i :: 0 <= i < |parts| ==> sep !in parts[i]
    ensures Split(Join(parts, [sep]), sep) == parts
  {
    if |parts| == 1 {
      SplitNone(parts[0], sep);
    } else {
      JoinSplit(parts[1..], sep);
      assert Join(parts, [sep]) == parts[0] + [sep] + Join(parts[1..], [sep]);
      SplitCons(parts[0], sep, Join(parts[1..], [sep]));
      assert parts == [parts[0]] + parts[1..];
    }
  }

  /** A part `parse_cors` keeps as it is: no comma, and nothing around it to strip. */
  predicate CleanOrigin(p: string)
  {
    ',' !in p && (p == [] || (p[0] !in Whitespace && p[|p| - 1] !in Whitespace))
  }

  /** Origins written comma-separated, the first not starting with "[", are parsed back exactly. */
  lemma CorsRoundTrip(origins: seq<string>)
    requires |origins| >= 1 && !StartsWith(origins[0], "[")
    requires forall i :: 0 <= i < |origins| ==> CleanOrigin(origins[i])
    ensures ParseCors(RawText(Join(origins, ","))) == Ok(origins)
  {
    var s := Join(origins, ",");
    JoinSplit(origins, ',');
    CleanUnstripped(origins);
    JoinedStart(origins);
    assert ParseCors(RawText(s)) == Ok(StripAll(Split(s, ',')));
  }

  /** Stripping clean origins changes nothing. */
  lemma CleanUnstripped(origins: seq<string>)
    requires forall i :: 0 <= i < |origins| ==> CleanOrigin(origins[i])
    ensures StripAll(origins) == origins
  {
    forall i | 0 <= i < |origins| ensures Strip(origins[i], Whitespace) == origins[i] {
      assert CleanOrigin(origins[i]);
    }
  }

  /** The joined text starts with "[" only if the first origin does. */
  lemma JoinedStart(origins: seq<string>)
    requires |origins| >= 1 && !StartsWith(origins[0], "[") && ',' !in origins[0]
    ensures !StartsWith(Join(origins, ","), "[")
  {
    var s := Join(origins, ",");
    if |origins| > 1 {
      assert s == origins[0] + "," + Join(origins[1..], ",");
      if origins[0] == [] {
        assert s[0] == ',';
      } else {
        assert s[0] == origins[0][0];
      }
    }
  }

  /** `s.replace(c, "")`. */
  function Remove(s: string, c: char): (r: string)
    ensures c !in r && |r| <= |s|
    ensures forall x :: x != c ==> (x in r <==> x in s)
  {
    if s == [] then []
    else (if s[0] == c then [] else [s[0]]) + Remove(s[1..], c)
  }

  /**
   * `parse_string_separated_list`: a list is kept; a string loses every '['
   * and ']' and is split on ','; anything else raises.
   */
  function ParseStringSeparatedList(v: Raw): (r: Result<seq<string>, ValueError>)
    ensures v.RawOther? <==> r.Err?
    ensures v.RawList? ==> r == Ok(v.items)
    ensures v.RawText? ==> r == Ok(Split(Remove(Remove(v.s, '['), ']'), ','))
    ensures v.RawText? ==> forall i :: 0 <= i < |r.value| ==> '[' !in r.value[i] && ']' !in r.value[i] && ',' !in r.value[i]
    ensures v.RawText? ==> Join(r.value, ",") == Remove(Remove(v.s, '['), ']')
  {
    match v
    case RawList(items) => Ok(items)
    case RawOther => Err(ValueError("expected to be list or string separated list"))
    case RawText(s) =>
      var cleaned := Remove(Remove(s, '['), ']');
      SplitJoin(cleaned, ',');
      SplitParts(cleaned, ',');
      Ok(Split(cleaned, ','))
  }

  /** Every part of a split is a piece of the string, so holds none of the characters the string lacks. */
  lemma {:induction false} SplitParts(s: string, sep: char)
    ensures forall p, x :: p in Split(s, sep) && x !in s ==> x !in p
    decreases |s|
  {
    var k := IndexOf(s, sep);
    if k < |s| {
      SplitParts(s[k + 1..], sep);
      assert s == s[..k] + [s[k]] + s[k + 1..];
    }
  }

  /** A list written in brackets and the same list written bare parse alike. */
  lemma BracketsIgnored(s: string)
    requires '[' !in s && ']' !in s
    ensures ParseStringSeparatedList(RawText("[" + s + "]")) == ParseStringSeparatedList(RawText(s))
  {
    RemoveAppend("[" + s, "]", '[');
    RemoveAppend("[", s, '[');
    RemoveAbsent(s, '[');
    assert Remove("[", '[') == [] && Remove("]", '[') == "]";
    assert Remove("[" + s + "]", '[') == s + "]";
    RemoveAppend(s, "]", ']');
    RemoveAbsent(s, ']');
    assert Remove("]", ']') == [];
    assert Remove(s + "]", ']') == s;
    assert Remove(Remove(s, '['), ']') == s;
  }

  /** Removing a character the string lacks changes nothing. */
  lemma {:induction false} RemoveAbsent(s: string, c: char)
    requires c !in s
    ensures Remove(s, c) == s
  {
    if s != [] {
      RemoveAbsent(s[1..], c);
    }
  }

  /** Removal works piece by piece. */
  lemma {:induction false} RemoveAppend(a: string, b: string, c: char)
    ensures Remove(a + b, c) == Remove(a, c) + Remove(b, c)
  {
    if a == [] {
      assert a + b == b;
    } else {
      var head: string := if a[0] == c then [] else [a[0]];
      assert (a + b)[0] == a[0] && (a + b)[1..] == a[1..] + b;
      assert Remove(a + b, c) == head + Remove(a[1..] + b, c);
      RemoveAppend(a[1..], b, c);
      assert Remove(a, c) == head + Remove(a[1..], c);
    }
  }

  /** The placeholder the secrets must not keep. */
  const Placeholder: string := "changethis"

  /** How `_check_default_secret` ends. */
  datatype SecretCheck = Silent | Warned(message: string) | Raised(error: ValueError)

  function SecretMessage(varName: string): string
  {
    "The value of " + varName + " is \"changethis\", for security, please change it, at least for deployments."
  }

  /** `_check_default_secret`: the placeholder warns in local and staging and raises in production. */
  function CheckDefaultSecret(env: Environment, varName: string, value: Option<string>): (r: SecretCheck)
    ensures value != Some(Placeholder) <==> r == Silent
    ensures value == Some(Placeholder) && env != Production ==> r == Warned(SecretMessage(varName))
    ensures value == Some(Placeholder) && env == Production ==> r == Raised(ValueError(SecretMessage(varName)))
  {
    if value != Some(Placeholder) then Silent
    else if env != Production then Warned(SecretMessage(varName))
    else Raised(ValueError(SecretMessage(varName)))
  }

  /**
   * `_enforce_non_default_secrets`: the three secrets checked in turn; the
   * warnings so far, or the first error.
   */
  function EnforceNonDefaultSecrets(env: Environment, authSecret: string, postgresPassword: string, openapiPassword: string): (r: Result<seq<string>, ValueError>)
    ensures env == Production ==> (r.Err? <==> Placeholder in [authSecret, postgresPassword, openapiPassword])
    ensures env != Production ==> r.Ok? && |r.value| == Placeholders([authSecret, postgresPassword, openapiPassword])
  {
    Enforce(env, ["AUTH_SECRET_KEY", "POSTGRES_PASSWORD", "OPENAPI_PASSWORD"], [authSecret, postgresPassword, openapiPassword])
  }

  /** The number of values that are the placeholder. */
  function Placeholders(values: seq<string>): (n: nat)
    ensures n <= |values|
    ensures n == 0 <==> Placeholder !in values
  {
    if values == [] then 0 else (if values[0] == Placeholder then 1 else 0) + Placeholders(values[1..])
  }

  /** `_check_default_secret` on each named value in turn: the warnings, or the first error. */
  function Enforce(env: Environment, names: seq<string>, values: seq<string>): (r: Result<seq<string>, ValueError>)
    requires |names| == |values|
    ensures env == Production ==> (r.Err? <==> Placeholder in values) && (r.Ok? ==> r.value == [])
    ensures env != Production ==> r.Ok? && |r.value| == Placeholders(values)
  {
    if values == [] then Ok([])
    else
      assert Placeholder in values <==> values[0] == Placeholder || Placeholder in values[1..] by {
        assert values == [values[0]] + values[1..];
      }
      var rest := Enforce(env, names[1..], values[1..]);
      var check := CheckDefaultSecret(env, names[0], Some(values[0]));
      if check.Raised? then Err(check.error)
      else if check.Warned? then (if rest.Ok? then Ok([check.message] + rest.value) else rest)
      else rest
  }

  /**
   * `SERVER_PORT`: `int(PORT)` in local, which raises for a value that is
   * not an integer, else 443 in production and 80 in staging.
   */
  function ServerPort(env: Environment, port: string): (r: Result<int, ValueError>)
    ensures env == Production ==> r == Ok(443)
    ensures env == Staging ==> r == Ok(80)
    ensures env == Local ==> (r.Ok? <==> IsIntLiteral(port))
    ensures env == Local && AllDigits(port) ==> r == Ok(ParseNat(port))
  {
    match env
    case Production => Ok(443)
    case Staging => Ok(80)
    case Local => ParseInt(port)
  }

  /** What `int()` accepts here: surrounding whitespace, an optional sign, then ASCII digits. */
  predicate IsIntLiteral(s: string)
  {
    var t := Strip(s, Whitespace);
    AllDigits(t) || (|t| >= 2 && (t[0] == '+' || t[0] == '-') && AllDigits(t[1..]))
  }

  /** `int(s)` on such a literal. */
  function ParseInt(s: string): (r: Result<int, ValueError>)
    ensures r.Ok? <==> IsIntLiteral(s)
    ensures AllDigits(s) ==> r == Ok(ParseNat(s))
  {
    var t := Strip(s, Whitespace);
    assert AllDigits(s) ==> t == s;
    if AllDigits(t) then Ok(ParseNat(t))
    else if |t| >= 2 && (t[0] == '+' || t[0] == '-') && AllDigits(t[1..]) then
      var n: int := ParseNat(t[1..]);
      Ok(if t[0] == '-' then -n else n)
    else Err(ValueError("invalid literal for int()"))
  }

  /** `SERVER_URL`: plain HTTP with the port in local, HTTPS on the bare domain elsewhere. */
  function ServerUrl(env: Environment, domain: string, port: string): (r: string)
    ensures env == Local ==> r == "http://" + domain + ":" + port
    ensures env != Local ==> StartsWith(r, "https://") && r[8..] == domain
  {
    if env == Local then "http://" + domain + ":" + port else "https://" + domain
  }
}
