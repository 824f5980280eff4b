/**
 * Global ids of the form `gid://bloom/{ResourceType}/{base64 id}` (the `GUID`
 * string type): building one from a 128-bit UUID, splitting one into its three
 * parts, and recovering the UUID.
 *
 * Standard base64 is a library call: encoding and decoding are passed in.
 */
module Guid {
  import opened Wrappers
  import Text
  import Friendly

  const AppName: string := "bloom"
  const Scheme: string := "gid://"
  const ModelSuffix: string := "Model"
  const TwoTo64: nat := 0x1_0000_0000_0000_0000
  const TwoTo128: nat := TwoTo64 * TwoTo64

  datatype GuidParts = GuidParts(appName: string, resourceType: string, encodedId: string)

  /** The `ValueError` messages of `decode_guid` and `extract_internal_id`, and the validation errors. */
  datatype GuidError = NotAString | Empty | BadScheme | WrongPartCount | EmptyPart | CannotDecode

  /** What `validate` raises: a validation error listing every problem, or an `AttributeError`. */
  datatype ValidateError = ValidationError(errors: seq<GuidError>) | AttributeError

  /** A value handed to `validate`: a string or anything else. */
  datatype Input = Str(s: string) | NonStr

  /** The text `encode_guid` formats. */
  function Format(app: string, resourceType: string, encodedId: string): string
  {
    Scheme + app + "/" + resourceType + "/" + encodedId
  }

  /** `decode_guid`: "gid://", then exactly three non-empty '/'-separated parts. */
  function Decode(guid: string): (r: Result<GuidParts, GuidError>)
    ensures !Text.StartsWith(guid, Scheme) ==> r == Err(BadScheme)
    ensures Text.StartsWith(guid, Scheme) && |Text.Split(guid[|Scheme|..], '/')| != 3 ==> r == Err(WrongPartCount)
    ensures r.Ok? ==> r.value.appName != [] && r.value.resourceType != [] && r.value.encodedId != []
  {
    if !Text.StartsWith(guid, Scheme) then Err(BadScheme)
    else
      var parts := Text.Split(guid[|Scheme|..], '/');
      if |parts| != 3 then Err(WrongPartCount)
      else if parts[0] == [] || parts[1] == [] || parts[2] == [] then Err(EmptyPart)
      else Ok(GuidParts(parts[0], parts[1], parts[2]))
  }

  /** A decoded GUID is exactly its three parts, none holding '/', formatted back together. */
  lemma DecodeParts(guid: string)
    requires Decode(guid).Ok?
    ensures var p := Decode(guid).value;
      guid == Format(p.appName, p.resourceType, p.encodedId) &&
      '/' !in p.appName && '/' !in p.resourceType && '/' !in p.encodedId
  {
    var rest := guid[|Scheme|..];
    var parts := Text.Split(rest, '/');
    ThreeParts(rest);
    assert guid == Scheme + rest;
    AppendAssoc5(Scheme, parts[0], "/", parts[1], "/", parts[2]);
  }

  /** A text that splits into three parts is those parts joined by '/', none holding '/'. */
  lemma ThreeParts(rest: string)
    requires |Text.Split(rest, '/')| == 3
    ensures var parts := Text.Split(rest, '/');
      rest == parts[0] + "/" + (parts[1] + "/" + parts[2]) &&
      '/' !in parts[0] && '/' !in parts[1] && '/' !in parts[2]
  {
    var parts := Text.Split(rest, '/');
    assert parts[0] in parts && parts[1] in parts && parts[2] in parts;
    Text.SplitJoin(rest, '/');
    assert parts[1..][1..] == [parts[2]];
    assert Text.Join(parts[1..], "/") == parts[1] + "/" + parts[2];
  }

  lemma AppendAssoc5(a: string, b: string, c: string, d: string, e: string, f: string)
    ensures a + b + c + d + e + f == a + (b + c + (d + e + f))
  {
    assert a + b + c + d + e + f == a + (b + c + d + e + f);
    assert b + c + d + e + f == b + c + (d + e + f);
  }

  lemma SplitThree(a: string, b: string, c: string)
    requires '/' !in a && '/' !in b && '/' !in c
    ensures Text.Split(a + "/" + b + "/" + c, '/') == [a, b, c]
  {
    Text.SplitNone(c, '/');
    Text.SplitCons(b, '/', c);
    assert a + "/" + b + "/" + c == a + ['/'] + (b + ['/'] + c);
    Text.SplitCons(a, '/', b + ['/'] + c);
  }

  /** Formatting three non-empty parts without '/' and decoding gives the parts back. */
  lemma DecodeFormat(app: string, resourceType: string, encodedId: string)
    requires app != [] && resourceType != [] && encodedId != []
    requires '/' !in app && '/' !in resourceType && '/' !in encodedId
    ensures Decode(Format(app, resourceType, encodedId)) == Ok(GuidParts(app, resourceType, encodedId))
  {
    var g := Format(app, resourceType, encodedId);
    assert g[..|Scheme|] == Scheme;
    assert g[|Scheme|..] == app + "/" + resourceType + "/" + encodedId;
    SplitThree(app, resourceType, encodedId);
  }

  /**
   * Standard base64 may emit '/': such an id makes four or more parts, and the
   * GUID that `encode_guid` produced is rejected by `decode_guid`.
   */
  lemma SlashInIdRejected(app: string, resourceType: string, encodedId: string)
    requires '/' !in app && '/' !in resourceType && '/' in encodedId
    ensures Decode(Format(app, resourceType, encodedId)) == Err(WrongPartCount)
  {
    var g := Format(app, resourceType, encodedId);
    var rest := app + "/" + resourceType + "/" + encodedId;
    assert g[..|Scheme|] == Scheme;
    assert g[|Scheme|..] == rest;
    Text.SplitCount(rest, '/');
    Text.CountAppend(app + "/" + resourceType + "/", encodedId, '/');
    Text.CountAppend(app + "/" + resourceType, "/", '/');
    Text.CountAppend(app + "/", resourceType, '/');
    Text.CountAppend(app, "/", '/');
    assert Text.Count("/", '/') == 1;
  }

  // ---------------------------------------------------------------------------
  // The 128-bit id

  /** `int_id >> 64` and `int_id & 0xFFFFFFFFFFFFFFFF`. */
  function High(n: nat): nat { n / TwoTo64 }
  function Low(n: nat): nat { n % TwoTo64 }

  /** `(high << 64) | low`; the two operands share no bit when `low < 2**64`, so `|` is `+`. */
  function Combine(high: nat, low: nat): nat { high * TwoTo64 + low }

  /** Splitting a 128-bit id into two 64-bit halves and recombining them gives it back. */
  lemma SplitCombine(n: nat)
    requires n < TwoTo128
    ensures High(n) < TwoTo64 && Low(n) < TwoTo64
    ensures Combine(High(n), Low(n)) == n
  {
  }

  /** `k` big-endian bytes of `n` (one `Q` of `struct.pack` when k = 8). */
  function PackBE(n: nat, k: nat): (b: seq<byte>)
    ensures |b| == k
  {
    if k == 0 then [] else PackBE(n / 256, k - 1) + [(n % 256) as byte]
  }

  function Pow256(k: nat): (p: nat)
    ensures p >= 1
  {
    if k == 0 then 1 else 256 * Pow256(k - 1)
  }

  /** Unpacking what was packed gives the number back when it fits. */
  lemma {:induction false} PackUnpack(n: nat, k: nat)
    requires n < Pow256(k)
    ensures Friendly.BigEndian(PackBE(n, k)) == n
  {
    if k > 0 {
      PackUnpack(n / 256, k - 1);
      var b := PackBE(n, k);
      assert b[..|b| - 1] == PackBE(n / 256, k - 1);
    }
  }

  lemma Pow256Of8()
    ensures Pow256(8) == TwoTo64
  {
  }

  /** `struct.pack(">QQ", n >> 64, n & 0xFFFFFFFFFFFFFFFF)`. */
  function PackId(n: nat): (b: seq<byte>)
    ensures |b| == 16
  {
    PackBE(High(n), 8) + PackBE(Low(n), 8)
  }

  /** `struct.unpack(">QQ", b)` followed by `(high << 64) | low`. */
  function UnpackId(b: seq<byte>): nat
    requires |b| == 16
  {
    Combine(Friendly.BigEndian(b[..8]), Friendly.BigEndian(b[8..]))
  }

  /** Packing and unpacking a 128-bit id is the identity. */
  lemma PackUnpackId(n: nat)
    requires n < TwoTo128
    ensures UnpackId(PackId(n)) == n
  {
    Pow256Of8();
    var b := PackId(n);
    assert b[..8] == PackBE(High(n), 8);
    assert b[8..] == PackBE(Low(n), 8);
    PackUnpack(High(n), 8);
    PackUnpack(Low(n), 8);
  }

  // ---------------------------------------------------------------------------
  // encode_guid, extract_internal_id, validate

  /** The resource type with one trailing "Model" removed. */
  function ResourceName(resourceType: string): (r: string)
    ensures Text.EndsWith(resourceType, ModelSuffix) ==> resourceType == r + ModelSuffix
    ensures !Text.EndsWith(resourceType, ModelSuffix) ==> r == resourceType
  {
    if Text.EndsWith(resourceType, ModelSuffix) then resourceType[..|resourceType| - |ModelSuffix|] else resourceType
  }

  /** The id part of `encode_guid`: standard base64 of the packed id, without '='. */
  function EncodedId(uuidInt: nat, b64: seq<byte> -> string): string
  {
    Text.TrimRight(b64(PackId(uuidInt)), {'='})
  }

  /** `encode_guid`, with the fresh `uuid4().int` passed in. */
  function EncodeGuid(resourceType: string, uuidInt: nat, b64: seq<byte> -> string): (g: string)
    ensures Text.StartsWith(g, Scheme + AppName + "/" + ResourceName(resourceType) + "/")
    ensures g == Format(AppName, ResourceName(resourceType), EncodedId(uuidInt, b64))
  {
    var g := Format(AppName, ResourceName(resourceType), EncodedId(uuidInt, b64));
    assert g[..|Scheme + AppName + "/" + ResourceName(resourceType) + "/"|] == Scheme + AppName + "/" + ResourceName(resourceType) + "/";
    g
  }

  /** Appends '=' until the length is a multiple of 4 (`padding = 4 - len % 4`). */
  function PadBase64(s: string): (r: string)
    ensures |r| % 4 == 0 && |s| <= |r| < |s| + 4
    ensures r[..|s|] == s && forall i :: |s| <= i < |r| ==> r[i] == '='
  {
    var padding := 4 - |s| % 4;
    if padding != 4 then s + seq(padding, _ => '=') else s
  }

  /** `extract_internal_id`, with `base64.b64decode` passed in (None when it raises). */
  function ExtractInternalId(guid: string, b64decode: string -> Option<seq<byte>>): (r: Result<nat, GuidError>)
    ensures Decode(guid).Err? ==> r == Err(Decode(guid).error)
    ensures r.Ok? ==> r.value < TwoTo128
    ensures r.Ok? ==> var b := b64decode(PadBase64(Decode(guid).value.encodedId));
      b.Some? && |b.value| == 16 && r.value == UnpackId(b.value)
    ensures Decode(guid).Ok? && r.Err? ==> r.error == CannotDecode
  {
    match Decode(guid)
    case Err(e) => Err(e)
    case Ok(parts) =>
      match b64decode(PadBase64(parts.encodedId))
      case None => Err(CannotDecode)
      case Some(b) =>
        if |b| != 16 then Err(CannotDecode)
        else
          Pow256Of8();
          BigEndianBound(b[..8]);
          BigEndianBound(b[8..]);
          Ok(UnpackId(b))
  }

  lemma {:induction false} BigEndianBound(b: seq<byte>)
    ensures Friendly.BigEndian(b) < Pow256(|b|)
  {
    if b != [] {
      BigEndianBound(b[..|b| - 1]);
    }
  }

  /**
   * An id made by `encode_guid` is recovered by `extract_internal_id` whenever
   * base64 decoding inverts the encoding and the encoding has no '/'.
   */
  lemma EncodeExtract(resourceType: string, uuidInt: nat, b64: seq<byte> -> string, b64decode: string -> Option<seq<byte>>)
    requires uuidInt < TwoTo128
    requires ResourceName(resourceType) != [] && '/' !in ResourceName(resourceType)
    requires EncodedId(uuidInt, b64) != [] && '/' !in EncodedId(uuidInt, b64)
    requires b64decode(PadBase64(EncodedId(uuidInt, b64))) == Some(PackId(uuidInt))
    ensures ExtractInternalId(EncodeGuid(resourceType, uuidInt, b64), b64decode) == Ok(uuidInt)
  {
    assert '/' !in AppName;
    DecodeFormat(AppName, ResourceName(resourceType), EncodedId(uuidInt, b64));
    PackUnpackId(uuidInt);
  }

  /** `validate`: a blank string is "cannot be empty"; otherwise every `decode_guid` error is reported. */
  function Validate(value: Input): (r: Result<string, ValidateError>)
    ensures value.NonStr? ==> r == Err(AttributeError)
    ensures value.Str? && Text.Strip(value.s, Text.Whitespace) == [] ==> r == Err(ValidationError([Empty]))
    ensures value.Str? && Text.Strip(value.s, Text.Whitespace) != [] ==>
      (r.Ok? <==> Decode(value.s).Ok?) && (r.Ok? ==> r.value == value.s)
    ensures r.Err? && value.Str? && Text.Strip(value.s, Text.Whitespace) != [] ==>
      r.error == ValidationError([Decode(value.s).error])
  {
    match value
    // a non-string is recorded, then `decode_guid` calls `startswith` on it and raises
    case NonStr => Err(AttributeError)
    case Str(s) =>
      if Text.Strip(s, Text.Whitespace) == [] then Err(ValidationError([Empty]))
      else match Decode(s)
        case Err(e) => Err(ValidationError([e]))
        case Ok(_) => Ok(s)
  }

  /** The empty string and blank strings are never valid GUIDs. */
  lemma BlankRejected(s: string)
    requires forall i :: 0 <= i < |s| ==> s[i] in Text.Whitespace
    ensures Validate(Str(s)) == Err(ValidationError([Empty]))
  {
    assert Text.Strip(s, Text.Whitespace) == [] by {
      var l := Text.TrimLeft(s, Text.Whitespace);
      Text.TrimLeftFacts(s, Text.Whitespace);
      assert l == [];
    }
  }
}
