/**
 * The parsed `X-Bloom-Client` header (`BloomClientInfo`) and the two string
 * enumerations its fields take values from. The Pydantic model is frozen, so it
 * is a value here.
 */
module ClientInfo {
  import opened Wrappers
  import Text

  /** `Platform` (a `StrEnum`). */
  datatype Platform = Web | Ios | Android

  /** `AppName` (a `StrEnum`). */
  datatype AppName = BloomMain | BloomSupplier | BloomBusiness | BloomAdmin

  function PlatformValue(p: Platform): string
  {
    match p
    case Web => "web"
    case Ios => "ios"
    case Android => "android"
  }

  function AppValue(a: AppName): string
  {
    match a
    case BloomMain => "bloom-main"
    case BloomSupplier => "bloom-supplier"
    case BloomBusiness => "bloom-business"
    case BloomAdmin => "bloom-admin"
  }

  /** `Platform(s)`: the member whose value is `s`; None where Python raises ValueError. */
  function ParsePlatform(s: string): (r: Option<Platform>)
    ensures r.Some? ==> PlatformValue(r.value) == s
    ensures r.None? ==> forall p: Platform :: PlatformValue(p) != s
  {
    if s == "web" then Some(Web) else if s == "ios" then Some(Ios) else if s == "android" then Some(Android) else None
  }

  /** `AppName(s)`. */
  function ParseApp(s: string): (r: Option<AppName>)
    ensures r.Some? ==> AppValue(r.value) == s
    ensures r.None? ==> forall a: AppName :: AppValue(a) != s
  {
    if s == "bloom-main" then Some(BloomMain)
    else if s == "bloom-supplier" then Some(BloomSupplier)
    else if s == "bloom-business" then Some(BloomBusiness)
    else if s == "bloom-admin" then Some(BloomAdmin)
    else None
  }

  /** Every platform is recovered from its value. */
  lemma PlatformRoundTrip(p: Platform)
    ensures ParsePlatform(PlatformValue(p)) == Some(p)
  {
    assert "ios"[0] != "web"[0];
    assert "android" != "web" && "android" != "ios";
  }

  /** Every app name is recovered from its value. */
  lemma AppRoundTrip(a: AppName)
    ensures ParseApp(AppValue(a)) == Some(a)
  {
    assert "bloom-supplier"[6] != "bloom-main"[6];
    assert "bloom-business"[6] != "bloom-supplier"[6] && "bloom-business"[6] != "bloom-main"[6];
    assert "bloom-admin"[6] != "bloom-main"[6] && |"bloom-admin"| != |"bloom-supplier"|;
  }

  datatype BloomClientInfo = BloomClientInfo(platform: Platform, version: string, app: AppName, build: Option<string>)

  /** The segments of `__str__`: platform, version and app, then build when it is non-empty. */
  function Segments(info: BloomClientInfo): (parts: seq<string>)
    ensures |parts| == (if info.build.Some? && info.build.value != "" then 4 else 3)
    ensures parts[0] == "platform=" + PlatformValue(info.platform)
    ensures parts[1] == "version=" + info.version
    ensures parts[2] == "app=" + AppValue(info.app)
    ensures |parts| == 4 ==> parts[3] == "build=" + info.build.value
  {
    var base := ["platform=" + PlatformValue(info.platform), "version=" + info.version, "app=" + AppValue(info.app)];
    if info.build.Some? && info.build.value != "" then base + ["build=" + info.build.value] else base
  }

  /** `__str__`: the segments joined by "; ". */
  function ToString(info: BloomClientInfo): (s: string)
    ensures var parts := Segments(info); Text.StartsWith(s, parts[0] + "; " + parts[1] + "; " + parts[2])
  {
    var parts := Segments(info);
    var head := parts[0] + "; " + parts[1] + "; " + parts[2];
    var s := Text.Join(parts, "; ");
    JoinSegments(parts);
    assert s[..|head|] == head by {
      if |parts| == 4 {
        assert s == head + "; " + parts[3];
      }
    }
    s
  }

  lemma JoinSegments(parts: seq<string>)
    requires |parts| == 3 || |parts| == 4
    ensures |parts| == 3 ==> Text.Join(parts, "; ") == parts[0] + "; " + parts[1] + "; " + parts[2]
    ensures |parts| == 4 ==> Text.Join(parts, "; ") == parts[0] + "; " + parts[1] + "; " + parts[2] + "; " + parts[3]
  {
    assert parts[1..][1..] == parts[2..];
    if |parts| == 4 {
      assert parts[2..][1..] == [parts[3]];
    } else {
      assert parts[2..] == [parts[2]];
    }
  }

  /** The build segment is present exactly when the build is non-empty. */
  lemma BuildSegment(info: BloomClientInfo)
    ensures info.build.Some? && info.build.value != "" ==>
      ToString(info) == "platform=" + PlatformValue(info.platform) + "; " + "version=" + info.version + "; " + "app=" + AppValue(info.app) + "; " + "build=" + info.build.value
    ensures !(info.build.Some? && info.build.value != "") ==>
      ToString(info) == "platform=" + PlatformValue(info.platform) + "; " + "version=" + info.version + "; " + "app=" + AppValue(info.app)
  {
    var parts := Segments(info);
    JoinSegments(parts);
    var p, v, a := "platform=" + PlatformValue(info.platform), "version=" + info.version, "app=" + AppValue(info.app);
    assert p + "; " + v == "platform=" + PlatformValue(info.platform) + "; " + "version=" + info.version;
    assert p + "; " + v + "; " + a == "platform=" + PlatformValue(info.platform) + "; " + "version=" + info.version + "; " + "app=" + AppValue(info.app);
  }
}
