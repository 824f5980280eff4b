/**
 * Rails-like friendly identifiers (the `FriendlyMixin` of the database layer):
 * a one-letter type prefix followed by a base-54 rendering of the record's id,
 * and URL slugs of the form "id-name".
 *
 * MD5, URL-safe base64 and UTF-8 encoding are library calls whose internals are
 * not modelled; they are passed in as the functions of a `Codecs` value.
 */
module Friendly {
  import opened Wrappers
  import Text

  /** The mixin's `_ALPHABET`: 54 characters, without 0, 1, i, l, o, I, L and O. */
  const Alphabet: string := "23456789" + "abcdefghjkmn" + "pqrstuvwxyz" + "ABCDEFGHJKMN" + "PQRSTUVWXYZ"
  const Base: nat := 54
  /** `_MIN_LENGTH` and `_MAX_LENGTH` count the one-letter prefix. */
  const MinLength: nat := 6
  const MaxLength: nat := 12
  /** Class-level switches; a model class may override them (see `FriendlyRecord`). */
  const EnableFriendlyIdDefault: bool := true
  const EnableFriendlySlugDefault: bool := false
  const MaxSlugLength: nat := 100

  /** The Python types `to_friendly_id` and `to_slug` dispatch on. */
  datatype IdValue =
    | IntId(n: int)                           // `int`; a `bool` id is not modelled
    | UuidId(u: Uuid)
    | StrId(s: string)
    | GuidId(g: string)                       // the `str` subclass `GUID`
    | OtherId(typeName: string, text: string) // any other type; `text` is its `str()`

  datatype FriendlyError = TypeError(typeName: string) | MissingId | SlugDisabled | MissingName

  /** The library functions the mixin calls. */
  datatype Codecs = Codecs(
    md5Hex: string -> HexDigest,   // hashlib.md5(s.encode()).hexdigest()
    b64Url: seq<byte> -> string,   // base64.urlsafe_b64encode(b).decode("ascii")
    utf8: string -> seq<byte>)     // s.encode("utf-8")

  // ---------------------------------------------------------------------------
  // Base-54 digits

  /** Position of `c` in `Alphabet`, or 54 for a character outside it. */
  function DigitValue(c: char): (d: nat)
    ensures d <= Base
  {
    if '2' <= c <= '9' then c as int - '2' as int
    else if 'a' <= c <= 'h' then c as int - 'a' as int + 8
    else if 'j' <= c <= 'k' then c as int - 'j' as int + 16
    else if 'm' <= c <= 'n' then c as int - 'm' as int + 18
    else if 'p' <= c <= 'z' then c as int - 'p' as int + 20
    else if 'A' <= c <= 'H' then c as int - 'A' as int + 31
    else if 'J' <= c <= 'K' then c as int - 'J' as int + 39
    else if 'M' <= c <= 'N' then c as int - 'M' as int + 41
    else if 'P' <= c <= 'Z' then c as int - 'P' as int + 43
    else Base
  }

  /** The five runs of consecutive characters in `Alphabet` get consecutive digits. */
  lemma RunDigits1(k: nat)
    requires k < 8
    ensures DigitValue("23456789"[k]) == k
  {
  }

  lemma RunDigits2(k: nat)
    requires k < 12
    ensures DigitValue("abcdefghjkmn"[k]) == 8 + k
  {
  }

  lemma RunDigits3(k: nat)
    requires k < 11
    ensures DigitValue("pqrstuvwxyz"[k]) == 20 + k
  {
  }

  lemma RunDigits4(k: nat)
    requires k < 12
    ensures DigitValue("ABCDEFGHJKMN"[k]) == 31 + k
  {
  }

  lemma RunDigits5(k: nat)
    requires k < 11
    ensures DigitValue("PQRSTUVWXYZ"[k]) == 43 + k
  {
  }

  /** The alphabet has 54 distinct characters: the i-th one is digit i. */
  lemma AlphabetDigit(i: nat)
    requires i < Base
    ensures |Alphabet| == Base && DigitValue(Alphabet[i]) == i
  {
    var g1, g2, g3, g4, g5 := "23456789", "abcdefghjkmn", "pqrstuvwxyz", "ABCDEFGHJKMN", "PQRSTUVWXYZ";
    assert Alphabet == g1 + g2 + g3 + g4 + g5;
    if i < 8 {
      assert Alphabet[i] == g1[i];
      RunDigits1(i);
    } else if i < 20 {
      assert Alphabet[i] == g2[i - 8];
      RunDigits2(i - 8);
    } else if i < 31 {
      assert Alphabet[i] == g3[i - 20];
      RunDigits3(i - 20);
    } else if i < 43 {
      assert Alphabet[i] == g4[i - 31];
      RunDigits4(i - 31);
    } else {
      assert Alphabet[i] == g5[i - 43];
      RunDigits5(i - 43);
    }
  }

  /** Every character of `s` is a digit of `Alphabet`. */
  predicate AllInAlphabet(s: string)
  {
    forall k :: 0 <= k < |s| ==> s[k] in Alphabet
  }

  /** Digits still to emit while fewer than `MinLength - 1` characters exist. */
  function Pad(emitted: nat): nat
  {
    if emitted < MinLength - 1 then MinLength - 1 - emitted else 0
  }

  /**
   * The digits `_encode_int`'s loop appends, least significant first: it goes on
   * while the value is non-zero or fewer than `pad` digits have been produced.
   */
  function DigitsLE(v: nat, pad: nat): (ds: seq<nat>)
    ensures |ds| >= pad
    ensures v > 0 ==> |ds| > 0
    ensures forall k :: 0 <= k < |ds| ==> ds[k] < Base
    decreases v, pad
  {
    if v == 0 && pad == 0 then [] else [v % Base] + DigitsLE(v / Base, if pad > 0 then pad - 1 else 0)
  }

  /** Value of a least-significant-first digit list. */
  function ValueLE(ds: seq<nat>): nat
  {
    if ds == [] then 0 else ds[0] + Base * ValueLE(ds[1..])
  }

  /** Reading a numeral over `Alphabet`, most significant character first. */
  function Base54Value(s: string): nat
  {
    if s == [] then 0 else Base54Value(s[..|s| - 1]) * Base + DigitValue(s[|s| - 1])
  }

  function Render(ds: seq<nat>): (r: string)
    requires forall k :: 0 <= k < |ds| ==> ds[k] < Base
    ensures |r| == |ds|
  {
    if ds == [] then [] else [Alphabet[ds[0]]] + Render(ds[1..])
  }

  function Reverse(s: string): (r: string)
    ensures |r| == |s|
  {
    if s == [] then [] else Reverse(s[1..]) + [s[0]]
  }

  /** The string `_encode_int` builds before its length check. */
  function Untruncated(n: nat): (r: string)
    ensures |r| >= MinLength - 1
  {
    Reverse(Render(DigitsLE(n, MinLength - 1)))
  }

  function Abs(x: int): nat { if x < 0 then -x else x }

  function Min(a: nat, b: nat): nat { if a < b then a else b }

  /** `_encode_int`: base-54 numeral of |value|; over 11 characters, 6 of them and 5 hash digits. */
  function EncodeIntSpec(value: int, md5Hex: string -> HexDigest): string
  {
    var full := Untruncated(Abs(value));
    if |full| > MaxLength - 1 then full[..MaxLength - 6] + md5Hex(full)[..5] else full
  }

  /** `_encode_int`: the digits of |value|, reversed, and the length check. */
  method EncodeInt(value: int, md5Hex: string -> HexDigest) returns (r: string)
    ensures r == EncodeIntSpec(value, md5Hex)
    ensures MinLength - 1 <= |r| <= MaxLength - 1
  {
    var chars := DigitChars(Abs(value));
    var result := Reverse(chars);
    if |result| > MaxLength - 1 {
      var prefixLen := MaxLength - 6;
      var hashPart := md5Hex(result)[..5];
      result := result[..prefixLen] + hashPart;
    }
    r := result;
  }

  /** The digit loop of `_encode_int`: characters of `Alphabet`, least significant first, at least five. */
  method DigitChars(n: nat) returns (chars: string)
    ensures chars == Render(DigitsLE(n, MinLength - 1))
  {
    var v: nat := n;
    chars := [];
    while v > 0 || |chars| < MinLength - 1
      invariant Render(DigitsLE(n, MinLength - 1)) == chars + Render(DigitsLE(v, Pad(|chars|)))
      decreases v, Pad(|chars|)
    {
      DigitStep(n, chars, v);
      chars := chars + [Alphabet[v % Base]];
      v := v / Base;
      if v == 0 && |chars| >= MinLength - 1 {
        break;
      }
    }
    assert DigitsLE(v, Pad(|chars|)) == [];
  }

  /** The digit loop's invariant survives one iteration. */
  lemma DigitStep(n: nat, chars: string, v: nat)
    requires v > 0 || |chars| < MinLength - 1
    requires Render(DigitsLE(n, MinLength - 1)) == chars + Render(DigitsLE(v, Pad(|chars|)))
    ensures Render(DigitsLE(n, MinLength - 1)) == (chars + [Alphabet[v % Base]]) + Render(DigitsLE(v / Base, Pad(|chars| + 1)))
  {
    RenderStep(v, |chars|);
    var tail := Render(DigitsLE(v / Base, Pad(|chars| + 1)));
    assert chars + ([Alphabet[v % Base]] + tail) == (chars + [Alphabet[v % Base]]) + tail;
  }

  /** One iteration of the digit loop emits the lowest digit. */
  lemma RenderStep(v: nat, emitted: nat)
    requires v > 0 || emitted < MinLength - 1
    ensures Render(DigitsLE(v, Pad(emitted))) == [Alphabet[v % Base]] + Render(DigitsLE(v / Base, Pad(emitted + 1)))
  {
    var rest := DigitsLE(v / Base, Pad(emitted + 1));
    assert DigitsLE(v, Pad(emitted)) == [v % Base] + rest;
  }

  lemma {:induction false} DigitsValue(v: nat, pad: nat)
    ensures ValueLE(DigitsLE(v, pad)) == v
    decreases v, pad
  {
    if !(v == 0 && pad == 0) {
      DigitsValue(v / Base, if pad > 0 then pad - 1 else 0);
    }
  }

  lemma Base54ValueSnoc(s: string, c: char)
    ensures Base54Value(s + [c]) == Base54Value(s) * Base + DigitValue(c)
  {
    assert (s + [c])[..|s|] == s;
  }

  lemma {:induction false} RenderedValue(ds: seq<nat>)
    requires forall k :: 0 <= k < |ds| ==> ds[k] < Base
    ensures Base54Value(Reverse(Render(ds))) == ValueLE(ds)
  {
    if ds != [] {
      var rest := Render(ds[1..]);
      assert Render(ds) == [Alphabet[ds[0]]] + rest;
      assert Render(ds)[1..] == rest;
      RenderedValue(ds[1..]);
      Base54ValueSnoc(Reverse(rest), Alphabet[ds[0]]);
      AlphabetDigit(ds[0]);
    }
  }

  /** An untruncated friendly number reads back, as base-54 digits, as |value|. */
  lemma EncodeIntValue(value: int, md5Hex: string -> HexDigest)
    requires |Untruncated(Abs(value))| <= MaxLength - 1
    ensures Base54Value(EncodeIntSpec(value, md5Hex)) == Abs(value)
  {
    RenderedValue(DigitsLE(Abs(value), MinLength - 1));
    DigitsValue(Abs(value), MinLength - 1);
  }

  /** The sign is dropped: n and -n get the same friendly number. */
  lemma EncodeIntSign(value: int, md5Hex: string -> HexDigest)
    ensures EncodeIntSpec(value, md5Hex) == EncodeIntSpec(-value, md5Hex)
  {
  }

  /** Zero is padded to five zero digits. */
  lemma EncodeIntZero(md5Hex: string -> HexDigest)
    ensures EncodeIntSpec(0, md5Hex) == "22222"
  {
    ZeroDigits();
    ZeroRendered();
    assert Reverse("22222") == "22222";
  }

  lemma ZeroDigits()
    ensures DigitsLE(0, MinLength - 1) == [0, 0, 0, 0, 0]
  {
    assert DigitsLE(0, 0) == [];
    assert DigitsLE(0, 1) == [0];
    assert DigitsLE(0, 2) == [0, 0];
    assert DigitsLE(0, 3) == [0, 0, 0];
    assert DigitsLE(0, 4) == [0, 0, 0, 0];
  }

  lemma ZeroRendered()
    ensures Render([0, 0, 0, 0, 0]) == "22222"
  {
    assert Alphabet[0] == '2' by { AlphabetDigit(0); }
    assert Render([0]) == "2";
    assert Render([0, 0]) == "22";
    assert Render([0, 0, 0]) == "222";
    assert Render([0, 0, 0, 0]) == "2222";
  }

  /** Each character of the rendering is a character of `Alphabet`. */
  lemma {:induction false} RenderInAlphabet(ds: seq<nat>)
    requires forall k :: 0 <= k < |ds| ==> ds[k] < Base
    ensures forall c :: c in Render(ds) ==> c in Alphabet
  {
    if ds != [] {
      RenderInAlphabet(ds[1..]);
      AlphabetDigit(ds[0]);
    }
  }

  lemma {:induction false} ReverseMembers(s: string)
    ensures forall c :: c in Reverse(s) <==> c in s
  {
    if s != [] {
      ReverseMembers(s[1..]);
      assert s == [s[0]] + s[1..];
    }
  }

  /** Every character of the untruncated numeral is a digit of `Alphabet`. */
  lemma UntruncatedInAlphabet(n: nat)
    ensures forall k :: 0 <= k < |Untruncated(n)| ==> Untruncated(n)[k] in Alphabet
  {
    var ds := DigitsLE(n, MinLength - 1);
    RenderInAlphabet(ds);
    ReverseMembers(Render(ds));
  }

  // ---------------------------------------------------------------------------
  // UUIDs and strings

  /** Each base64 character `c` is replaced by `_ALPHABET[ord(c) % 54]`. */
  function UuidChars(encoded: string): (r: string)
    ensures |r| == |encoded|
    ensures forall k :: 0 <= k < |r| ==> r[k] == Alphabet[encoded[k] as int % Base]
  {
    AlphabetDigit(0);
    seq(|encoded|, k requires 0 <= k < |encoded| => Alphabet[encoded[k] as int % Base])
  }

  /** `_encode_uuid`: the first 8 bytes in URL-safe base64 without '=', mapped, padded to 5, cut to 11. */
  function EncodeUuidSpec(u: Uuid, b64Url: seq<byte> -> string): string
  {
    var mapped := UuidChars(Text.TrimRight(b64Url(u[..8]), {'='}));
    var padded := if |mapped| < MinLength - 1 then mapped + seq(MinLength - 1 - |mapped|, _ => '2') else mapped;
    if |padded| > MaxLength - 1 then padded[..MaxLength - 1] else padded
  }

  /** `_encode_uuid`, with its padding loop. */
  method EncodeUuid(u: Uuid, b64Url: seq<byte> -> string) returns (r: string)
    ensures r == EncodeUuidSpec(u, b64Url)
    ensures MinLength - 1 <= |r| <= MaxLength - 1
    ensures forall k :: 0 <= k < |r| ==> r[k] in Alphabet
  {
    AlphabetDigit(0);
    var encoded := Text.TrimRight(b64Url(u[..8]), {'='});
    var result := UuidChars(encoded);
    ghost var mapped := result;
    while |result| < MinLength - 1
      invariant |mapped| <= |result|
      invariant |mapped| < MinLength - 1 ==> |result| <= MinLength - 1
      invariant |mapped| >= MinLength - 1 ==> result == mapped
      invariant result == mapped + seq(|result| - |mapped|, _ => '2')
    {
      result := result + [Alphabet[0]];
    }
    assert |mapped| < MinLength - 1 ==> result == mapped + seq(MinLength - 1 - |mapped|, _ => '2');
    assert |mapped| >= MinLength - 1 ==> result == mapped;
    if |result| > MaxLength - 1 {
      result := result[..MaxLength - 1];
    }
    forall k | 0 <= k < |result| ensures result[k] in Alphabet {
      if k < |mapped| {
        AlphabetDigit(encoded[k] as int % Base);
      }
    }
    r := result;
  }

  /** Every character `_encode_uuid` emits is a digit of `Alphabet`. */
  lemma EncodeUuidSpecInAlphabet(u: Uuid, b64Url: seq<byte> -> string)
    ensures forall k :: 0 <= k < |EncodeUuidSpec(u, b64Url)| ==> EncodeUuidSpec(u, b64Url)[k] in Alphabet
  {
    AlphabetDigit(0);
    var encoded := Text.TrimRight(b64Url(u[..8]), {'='});
    var mapped := UuidChars(encoded);
    var r := EncodeUuidSpec(u, b64Url);
    forall k | 0 <= k < |r| ensures r[k] in Alphabet {
      if k < |mapped| {
        AlphabetDigit(encoded[k] as int % Base);
      }
    }
  }

  /** `int.from_bytes(b, "big")`. */
  function BigEndian(b: seq<byte>): nat
  {
    if b == [] then 0 else BigEndian(b[..|b| - 1]) * 256 + b[|b| - 1] as nat
  }

  /** `_encode_str`: the UTF-8 bytes read as a big-endian integer, then `_encode_int`. */
  method EncodeStr(value: string, c: Codecs) returns (r: string)
    ensures r == EncodeIntSpec(BigEndian(c.utf8(value)), c.md5Hex)
    ensures MinLength - 1 <= |r| <= MaxLength - 1
  {
    r := EncodeInt(BigEndian(c.utf8(value)), c.md5Hex);
  }

  // ---------------------------------------------------------------------------
  // to_friendly_id

  /**
   * `to_friendly_id`: "i" for an int, "u" for a UUID, "s" for a str or GUID;
   * any other type is a TypeError.
   */
  function ToFriendlyId(id: IdValue, c: Codecs): (r: Result<string, FriendlyError>)
    ensures r.Err? <==> id.OtherId?
    ensures r.Err? ==> r.error == TypeError(id.typeName)
    ensures r.Ok? ==> MinLength <= |r.value| <= MaxLength
    ensures id.IntId? ==> r.Ok? && r.value == "i" + EncodeIntSpec(id.n, c.md5Hex)
    ensures id.UuidId? ==> r.Ok? && r.value == "u" + EncodeUuidSpec(id.u, c.b64Url)
    ensures id.StrId? ==> r.Ok? && r.value == "s" + EncodeIntSpec(BigEndian(c.utf8(id.s)), c.md5Hex)
    ensures id.GuidId? ==> r.Ok? && r.value == "s" + EncodeIntSpec(BigEndian(c.utf8(id.g)), c.md5Hex)
  {
    match id
    case IntId(n) => Ok("i" + EncodeIntSpec(n, c.md5Hex))
    case UuidId(u) => Ok("u" + EncodeUuidSpec(u, c.b64Url))
    case StrId(s) => Ok("s" + EncodeIntSpec(BigEndian(c.utf8(s)), c.md5Hex))
    case GuidId(g) => Ok("s" + EncodeIntSpec(BigEndian(c.utf8(g)), c.md5Hex))
    case OtherId(t, _) => Err(TypeError(t))
  }

  lemma EncodeIntSpecLength(value: int, md5Hex: string -> HexDigest)
    ensures MinLength - 1 <= |EncodeIntSpec(value, md5Hex)| <= MaxLength - 1
  {
  }

  // ---------------------------------------------------------------------------
  // Slugs

  const HexDigits: string := "0123456789abcdef"

  /** Lower-case hex of some bytes, two characters per byte. */
  function Hex(b: seq<byte>): (r: string)
    ensures |r| == 2 * |b|
  {
    if b == [] then [] else [HexDigits[b[0] as int / 16], HexDigits[b[0] as int % 16]] + Hex(b[1..])
  }

  /** `str(n)` for a natural number. */
  function DecimalNat(n: nat): (r: string)
    ensures |r| >= 1
    ensures forall k :: 0 <= k < |r| ==> Text.IsDigit(r[k])
  {
    var d := "0123456789"[n % 10];
    if n < 10 then [d] else DecimalNat(n / 10) + [d]
  }

  /** `str(n)`. */
  function Decimal(n: int): string
  {
    if n < 0 then "-" + DecimalNat(-n) else DecimalNat(n)
  }

  function Last(parts: seq<string>): string
    requires |parts| > 0
  {
    parts[|parts| - 1]
  }

  /**
   * The id part of a slug: the first 8 hex digits of a UUID (the dashes of
   * `str(uuid)` come later), the text after the last '/' of a GUID, else `str(id)`.
   */
  function IdText(id: IdValue): string
  {
    match id
    case UuidId(u) => Hex(u[..4])
    case GuidId(g) => Last(Text.Split(g, '/'))
    case IntId(n) => Decimal(n)
    case StrId(s) => s
    case OtherId(_, text) => text
  }

  predicate IsAsciiAlnum(c: char) { Text.IsDigit(c) || Text.IsUpper(c) || Text.IsLower(c) }

  /** A character `[^a-zA-Z0-9\s-]` does not match. */
  predicate IsKept(c: char) { IsAsciiAlnum(c) || c in Text.Whitespace || c == '-' }

  /** Removes what `[^a-zA-Z0-9\s-]` matches. */
  function KeepSlugChars(s: string): (r: string)
    ensures forall k :: 0 <= k < |r| ==> IsKept(r[k])
    ensures (forall k :: 0 <= k < |s| ==> IsKept(s[k])) ==> r == s
    ensures |r| <= |s|
  {
    if s == [] then []
    else if IsKept(s[0]) then [s[0]] + KeepSlugChars(s[1..])
    else KeepSlugChars(s[1..])
  }

  /** Replaces each run of whitespace by a single '-' (`re.sub(r"\s+", "-", s)`). */
  function HyphenateRuns(s: string): (r: string)
    requires forall k :: 0 <= k < |s| ==> IsKept(s[k])
    ensures forall k :: 0 <= k < |r| ==> IsAsciiAlnum(r[k]) || r[k] == '-'
    ensures (forall k :: 0 <= k < |s| ==> s[k] !in Text.Whitespace) ==> r == s
    ensures |r| <= |s|
    decreases |s|
  {
    if s == [] then []
    else if s[0] in Text.Whitespace then
      Text.TrimLeftFacts(s, Text.Whitespace);
      "-" + HyphenateRuns(Text.TrimLeft(s, Text.Whitespace))
    else
      assert IsKept(s[0]);
      var rest := HyphenateRuns(s[1..]);
      assert forall k :: 1 <= k < |rest| + 1 ==> ([s[0]] + rest)[k] == rest[k - 1];
      [s[0]] + rest
  }

  predicate IsSlugChar(c: char) { Text.IsLower(c) || Text.IsDigit(c) || c == '-' }

  /** The name part of a slug: `name` filtered, hyphenated, lower-cased and stripped of '-'. */
  function CleanName(name: string): string
  {
    var stripped := Text.Strip(KeepSlugChars(name), Text.Whitespace);
    Text.StripSlice(KeepSlugChars(name), Text.Whitespace);
    assert forall k :: 0 <= k < |stripped| ==> IsKept(stripped[k]);
    Text.Strip(Text.Lower(HyphenateRuns(stripped)), {'-'})
  }

  /** A cleaned name holds only lower-case letters, digits and '-', and neither starts nor ends with '-'. */
  lemma CleanNameShape(name: string)
    ensures forall k :: 0 <= k < |CleanName(name)| ==> IsSlugChar(CleanName(name)[k])
    ensures CleanName(name) != [] ==> CleanName(name)[0] != '-' && CleanName(name)[|CleanName(name)| - 1] != '-'
  {
    CleanNameChars(name);
  }

  /** Every character of a cleaned name is a lower-case letter, a digit or '-'. */
  lemma CleanNameChars(name: string)
    ensures forall k :: 0 <= k < |CleanName(name)| ==> IsSlugChar(CleanName(name)[k])
  {
    var stripped := Text.Strip(KeepSlugChars(name), Text.Whitespace);
    StrippedKept(KeepSlugChars(name));
    var lowered := Text.Lower(HyphenateRuns(stripped));
    LoweredSlug(HyphenateRuns(stripped));
    StrippedSlug(lowered);
  }

  lemma StrippedKept(s: string)
    requires forall k :: 0 <= k < |s| ==> IsKept(s[k])
    ensures forall k :: 0 <= k < |Text.Strip(s, Text.Whitespace)| ==> IsKept(Text.Strip(s, Text.Whitespace)[k])
  {
    Text.StripIndex(s, Text.Whitespace);
  }

  lemma LoweredSlug(s: string)
    requires forall k :: 0 <= k < |s| ==> IsAsciiAlnum(s[k]) || s[k] == '-'
    ensures forall k :: 0 <= k < |Text.Lower(s)| ==> IsSlugChar(Text.Lower(s)[k])
  {
  }

  lemma StrippedSlug(s: string)
    requires forall k :: 0 <= k < |s| ==> IsSlugChar(s[k])
    ensures forall k :: 0 <= k < |Text.Strip(s, {'-'})| ==> IsSlugChar(Text.Strip(s, {'-'})[k])
  {
    Text.StripIndex(s, {'-'});
  }

  /**
   * `to_slug`: "id-name", at most 100 characters; a long name is cut to fit and
   * an id of 99 characters or more is cut to 100 characters with no name.
   */
  function ToSlug(id: IdValue, name: string): (r: string)
    ensures |r| <= MaxSlugLength
  {
    var idStr := IdText(id);
    var cleaned := CleanName(name);
    var slug := idStr + "-" + cleaned;
    if |slug| > MaxSlugLength then
      var available := MaxSlugLength - |idStr| - 1;
      if available > 0 then idStr + "-" + cleaned[..available]
      else idStr[..Min(|idStr|, MaxSlugLength)]
    else slug
  }

  /**
   * A slug is the id text, then (when the id leaves room) "-" and a prefix of the
   * cleaned name, the whole of it when it fits in 100 characters.
   */
  lemma SlugShape(id: IdValue, name: string)
    ensures var idStr, cleaned, r := IdText(id), CleanName(name), ToSlug(id, name);
      && (|idStr| + 1 + |cleaned| <= MaxSlugLength ==> r == idStr + "-" + cleaned)
      && (|idStr| + 1 < MaxSlugLength ==>
            |idStr| + 1 <= |r| && r[..|idStr| + 1] == idStr + "-" && Text.StartsWith(cleaned, r[|idStr| + 1..]))
      && (|idStr| + 1 >= MaxSlugLength && |idStr| + 1 + |cleaned| > MaxSlugLength ==> r == idStr[..Min(|idStr|, MaxSlugLength)])
  {
    var idStr, cleaned, r := IdText(id), CleanName(name), ToSlug(id, name);
    if |idStr| + 1 + |cleaned| > MaxSlugLength && |idStr| + 1 < MaxSlugLength {
      var available := MaxSlugLength - |idStr| - 1;
      assert r == idStr + "-" + cleaned[..available];
      assert r[|idStr| + 1..] == cleaned[..available];
    } else if |idStr| + 1 < MaxSlugLength {
      assert r[|idStr| + 1..] == cleaned;
    }
  }

  // ---------------------------------------------------------------------------
  // The mixin's instance methods

  /** A model instance using the mixin: its id, its name or title, and the two stored fields. */
  class FriendlyRecord {
    const enableFriendlyId: bool
    const enableFriendlySlug: bool
    var id: Option<IdValue>
    var name: Option<string>
    var title: Option<string>
    var friendlyId: Option<string>
    var friendlySlug: Option<string>

    constructor (id: Option<IdValue>, name: Option<string>, title: Option<string>, enableFriendlyId: bool, enableFriendlySlug: bool)
      ensures this.id == id && this.name == name && this.title == title
      ensures this.enableFriendlyId == enableFriendlyId && this.enableFriendlySlug == enableFriendlySlug
      ensures friendlyId.None? && friendlySlug.None?
    {
      this.id := id;
      this.name := name;
      this.title := title;
      this.enableFriendlyId := enableFriendlyId;
      this.enableFriendlySlug := enableFriendlySlug;
      friendlyId := None;
      friendlySlug := None;
    }

    /** `get_friendly_id`: a ValueError without an id. */
    function GetFriendlyId(c: Codecs): (r: Result<string, FriendlyError>)
      reads this
      ensures id.None? ==> r == Err(MissingId)
      ensures id.Some? ==> r == ToFriendlyId(id.value, c)
    {
      if id.None? then Err(MissingId) else ToFriendlyId(id.value, c)
    }

    /** `set_friendly_id`: "" and no change when disabled; an error leaves the field as it was. */
    method SetFriendlyId(c: Codecs) returns (r: Result<string, FriendlyError>)
      modifies this`friendlyId
      ensures !enableFriendlyId ==> r == Ok("") && friendlyId == old(friendlyId)
      ensures enableFriendlyId ==> r == old(GetFriendlyId(c))
      ensures enableFriendlyId && r.Ok? ==> friendlyId == Some(r.value)
      ensures r.Err? ==> friendlyId == old(friendlyId)
    {
      if !enableFriendlyId {
        return Ok("");
      }
      r := GetFriendlyId(c);
      if r.Ok? {
        friendlyId := Some(r.value);
      }
    }

    /** The truthy one of `name` and `title` (`name or title`). */
    function NameValue(): (r: Option<string>)
      reads this
      ensures name.Some? && name.value != "" ==> r == name
      ensures !(name.Some? && name.value != "") ==> r == title
    {
      if name.Some? && name.value != "" then name else title
    }

    /** `get_slug`: errors when slugs are disabled, without an id, or without a name or title. */
    function GetSlug(): (r: Result<string, FriendlyError>)
      reads this
      ensures !enableFriendlySlug ==> r == Err(SlugDisabled)
      ensures enableFriendlySlug && id.None? ==> r == Err(MissingId)
      ensures enableFriendlySlug && id.Some? && NameValue().None? ==> r == Err(MissingName)
      ensures r.Ok? ==> id.Some? && NameValue().Some? && r.value == ToSlug(id.value, NameValue().value)
    {
      if !enableFriendlySlug then Err(SlugDisabled)
      else if id.None? then Err(MissingId)
      else if NameValue().None? then Err(MissingName)
      else Ok(ToSlug(id.value, NameValue().value))
    }

    /** `set_slug`: "" and no change when disabled. */
    method SetSlug() returns (r: Result<string, FriendlyError>)
      modifies this`friendlySlug
      ensures !enableFriendlySlug ==> r == Ok("") && friendlySlug == old(friendlySlug)
      ensures enableFriendlySlug ==> r == old(GetSlug())
      ensures enableFriendlySlug && r.Ok? ==> friendlySlug == Some(r.value)
      ensures r.Err? ==> friendlySlug == old(friendlySlug)
    {
      if !enableFriendlySlug {
        return Ok("");
      }
      r := GetSlug();
      if r.Ok? {
        friendlySlug := Some(r.value);
      }
    }

    /** `save_friendly_fields`: sets each enabled field; the first error is raised. */
    method SaveFriendlyFields(c: Codecs) returns (r: Result<(), FriendlyError>)
      modifies this`friendlyId, this`friendlySlug
      ensures enableFriendlyId && old(GetFriendlyId(c)).Ok? ==> friendlyId == Some(old(GetFriendlyId(c)).value)
      ensures !enableFriendlyId || old(GetFriendlyId(c)).Err? ==> friendlyId == old(friendlyId)
      ensures enableFriendlyId && old(GetFriendlyId(c)).Err? ==> r == Err(old(GetFriendlyId(c)).error) && friendlySlug == old(friendlySlug)
      ensures !enableFriendlySlug ==> friendlySlug == old(friendlySlug)
      ensures enableFriendlySlug && (!enableFriendlyId || old(GetFriendlyId(c)).Ok?) && old(GetSlug()).Ok? ==>
        friendlySlug == Some(old(GetSlug()).value)
      ensures enableFriendlySlug && (!enableFriendlyId || old(GetFriendlyId(c)).Ok?) && old(GetSlug()).Err? ==>
        r == Err(old(GetSlug()).error) && friendlySlug == old(friendlySlug)
      ensures r.Ok? <==> (!enableFriendlyId || old(GetFriendlyId(c)).Ok?) && (!enableFriendlySlug || old(GetSlug()).Ok?)
    {
      if enableFriendlyId {
        var x := SetFriendlyId(c);
        if x.Err? {
          return Err(x.error);
        }
      }
      if enableFriendlySlug {
        var y := SetSlug();
        if y.Err? {
          return Err(y.error);
        }
      }
      r := Ok(());
    }
  }
}
