/**
 * The storage helpers: the object key a stored file gets, the facts read
 * from an upload (MIME type, extension, size), and the image guard in
 * front of thumbnail and preview rendering. The MIME-type guess, base64,
 * MD5, the clock and image rendering are inputs.
 */
module StorageUtils {
  import opened Wrappers
  import opened Text

  /** Index of the last occurrence of `c`, or `|s|` when there is none. */
  function LastIndexOf(s: string, c: char): (k: nat)
    ensures k <= |s|
    ensures k < |s| ==> s[k] == c
    ensures forall i :: k < i < |s| ==> s[i] != c
    ensures k == |s| ==> c !in s
  {
    if s == [] then 0
    else if s[|s| - 1] == c then |s| - 1
    else
      var k := LastIndexOf(s[..|s| - 1], c);
      assert s == s[..|s| - 1] + [s[|s| - 1]];
      if k == |s| - 1 then |s| else k
  }

  /** `s.rpartition(sep)`: before the last `sep`, the separator, after it; `("", "", s)` when `sep` is absent. */
  function RPartition(s: string, sep: char): (r: (string, string, string))
    ensures sep in s ==> r.0 + r.1 + r.2 == s && r.1 == [sep] && sep !in r.2
    ensures sep !in s ==> r == ("", "", s)
  {
    var k := LastIndexOf(s, sep);
    if k == |s| then ("", "", s)
    else
      assert s == s[..k] + [sep] + s[k + 1..];
      (s[..k], [sep], s[k + 1..])
  }

  /**
   * `generate_file_key` as written. `digest` is the first 8 hexadecimal
   * digits of the MD5 of the name, id and timestamp, and `idHex` is the
   * base64 of the id. With no '.' in the name `rpartition` returns the
   * whole name as the extension and an empty stem.
   */
  function GenerateFileKeyAsWritten(filename: string, attachableType: string, idHex: string, digest: string): (key: string)
    ensures StartsWith(key, attachableType + "/")
  {
    var (stem, _, ext) := RPartition(filename, '.');
    if ext != "" then attachableType + "/" + idHex + "/" + stem + "_" + digest + "." + ext
    else attachableType + "/" + idHex + "/" + stem + "_" + digest
  }

  /**
   * `generate_file_key` as its two branches intend: the stem is the text
   * before the last '.', and a name without one has no extension.
   */
  function GenerateFileKey(filename: string, attachableType: string, idHex: string, digest: string): (key: string)
    ensures StartsWith(key, attachableType + "/")
    ensures '.' !in filename ==> key == attachableType + "/" + idHex + "/" + filename + "_" + digest
    ensures '.' in filename ==> key == GenerateFileKeyAsWritten(filename, attachableType, idHex, digest)
  {
    if '.' !in filename then attachableType + "/" + idHex + "/" + filename + "_" + digest
    else GenerateFileKeyAsWritten(filename, attachableType, idHex, digest)
  }

  /** For a name with a non-empty extension the key ends in that same extension, in both versions. */
  lemma FileKeyKeepsExtension(filename: string, attachableType: string, idHex: string, digest: string, stem: string, ext: string)
    requires filename == stem + "." + ext && ext != "" && '.' !in ext
    ensures EndsWith(GenerateFileKey(filename, attachableType, idHex, digest), "_" + digest + "." + ext)
  {
    var k := LastIndexOf(filename, '.');
    assert filename[|stem|] == '.';
    assert forall i :: |stem| < i < |filename| ==> filename[i] == ext[i - |stem| - 1];
    assert k == |stem|;
    assert filename[k + 1..] == ext;
  }

  /**
   * A name without a '.', such as "README": the written key loses the name
   * as stem and carries it as the extension.
   */
  lemma AsWrittenDotlessName(filename: string, attachableType: string, idHex: string, digest: string)
    requires filename != "" && '.' !in filename
    ensures GenerateFileKeyAsWritten(filename, attachableType, idHex, digest) == attachableType + "/" + idHex + "/_" + digest + "." + filename
    ensures GenerateFileKey(filename, attachableType, idHex, digest) == attachableType + "/" + idHex + "/" + filename + "_" + digest
  {
    assert RPartition(filename, '.') == ("", "", filename);
    assert attachableType + "/" + idHex + "/" + "" + "_" + digest == attachableType + "/" + idHex + "/_" + digest;
  }

  /** `mimetypes.guess_type` fallback. */
  const OctetStream: string := "application/octet-stream"

  /** What `get_file_info` returns: MIME type, extension, size in bytes. */
  datatype FileInfo = FileInfo(mimeType: string, extension: Option<string>, size: nat)

  /** The text after the last '.' of a name that has one. */
  function LastPart(s: string): (r: string)
    ensures |r| <= |s| && '.' !in r
    ensures '.' in s ==> |r| < |s| && s[|s| - |r| - 1] == '.' && r == s[|s| - |r|..]
  {
    var parts := Split(s, '.');
    SplitLast(s, '.');
    assert '.' in s ==> IndexOf(s, '.') < |s|;
    parts[|parts| - 1]
  }

  /** The last part of `s.split(sep)` is what follows the last separator, or `s` itself. */
  lemma SplitLast(s: string, sep: char)
    ensures var parts := Split(s, sep); var last := parts[|parts| - 1];
      |last| <= |s| && last == s[|s| - |last|..]
    ensures var parts := Split(s, sep); var last := parts[|parts| - 1];
      IndexOf(s, sep) < |s| ==> |last| < |s| && s[|s| - |last| - 1] == sep
    ensures var parts := Split(s, sep);
      IndexOf(s, sep) == |s| ==> parts[|parts| - 1] == s
  {
    SplitLastSuffix(s, sep);
    SplitLastSep(s, sep);
  }

  /** The last part of a split is a suffix of the string. */
  lemma {:induction false} SplitLastSuffix(s: string, sep: char)
    ensures var parts := Split(s, sep); var last := parts[|parts| - 1];
      |last| <= |s| && last == s[|s| - |last|..]
    decreases |s|
  {
    var k := IndexOf(s, sep);
    if k < |s| {
      var rest := s[k + 1..];
      SplitLastSuffix(rest, sep);
      var parts := Split(s, sep);
      assert parts == [s[..k]] + Split(rest, sep);
      var last := Split(rest, sep)[|Split(rest, sep)| - 1];
      assert parts[|parts| - 1] == last;
      assert s[|s| - |last|..] == rest[|rest| - |last|..];
    }
  }

  /** When the string holds the separator, the last part follows one. */
  lemma {:induction false} SplitLastSep(s: string, sep: char)
    ensures var parts := Split(s, sep); var last := parts[|parts| - 1];
      IndexOf(s, sep) < |s| ==> |last| < |s| && s[|s| - |last| - 1] == sep
    decreases |s|
  {
    var k := IndexOf(s, sep);
    if k < |s| {
      var rest := s[k + 1..];
      SplitLastSep(rest, sep);
      SplitLastSuffix(rest, sep);
      var parts := Split(s, sep);
      assert parts == [s[..k]] + Split(rest, sep);
      var last := Split(rest, sep)[|Split(rest, sep)| - 1];
      assert parts[|parts| - 1] == last;
      if IndexOf(rest, sep) == |rest| {
        assert last == rest;
        assert |s| - |last| - 1 == k;
      } else {
        assert s[|s| - |last| - 1] == rest[|rest| - |last| - 1];
      }
    }
  }

  /**
   * `get_file_info`: the guessed MIME type or `application/octet-stream`,
   * the lower-cased text after the last '.' when the name has one, and the
   * number of bytes.
   */
  function GetFileInfo(content: seq<byte>, filename: string, guessType: string -> Option<string>): (r: FileInfo)
    ensures r.size == |content|
    ensures guessType(filename).None? ==> r.mimeType == OctetStream
    ensures guessType(filename).Some? ==> r.mimeType == guessType(filename).value
    ensures r.extension.None? <==> '.' !in filename
    ensures r.extension.Some? ==> '.' !in r.extension.value
    ensures r.extension.Some? ==>
      exists k :: 0 <= k < |filename| && filename[k] == '.' && r.extension.value == Lower(filename[k + 1..])
  {
    var mime := if guessType(filename).None? then OctetStream else guessType(filename).value;
    var ext := if '.' in filename then Some(Lower(LastPart(filename))) else None;
    ExtensionAfterDot(filename);
    FileInfo(mime, ext, |content|)
  }

  /** The extension `get_file_info` reports is the lower-cased text after some '.' of the name. */
  lemma ExtensionAfterDot(filename: string)
    ensures '.' in filename ==>
      exists k :: 0 <= k < |filename| && filename[k] == '.' && Lower(LastPart(filename)) == Lower(filename[k + 1..])
  {
    if '.' in filename {
      var last := LastPart(filename);
      var k := |filename| - |last| - 1;
      assert filename[k + 1..] == last;
    }
  }

  /** `is_image`. */
  function IsImage(mimeType: string): (b: bool)
    ensures b <==> |mimeType| >= 6 && mimeType == "image/" + mimeType[6..]
  {
    StartsWith(mimeType, "image/")
  }

  const ThumbnailSize: (int, int) := (200, 200)
  const PreviewSize: (int, int) := (800, 600)

  /**
   * `generate_thumbnail`: `None` for a non-image type; otherwise what the
   * image library renders at that size, `None` when it raises.
   */
  function GenerateThumbnail(content: seq<byte>, mimeType: string, size: (int, int),
                             render: (seq<byte>, (int, int)) -> Option<seq<byte>>): (r: Option<seq<byte>>)
    ensures !IsImage(mimeType) ==> r == None
    ensures IsImage(mimeType) ==> r == render(content, size)
  {
    if !IsImage(mimeType) then None else render(content, size)
  }

  /** `generate_preview`: the same steps as `generate_thumbnail`, at the preview size by default. */
  function GeneratePreview(content: seq<byte>, mimeType: string, size: (int, int),
                           render: (seq<byte>, (int, int)) -> Option<seq<byte>>): (r: Option<seq<byte>>)
    ensures r.Some? ==> IsImage(mimeType)
    ensures r == GenerateThumbnail(content, mimeType, size, render)
  {
    GenerateThumbnail(content, mimeType, size, render)
  }

  /** Whatever a thumbnail was made from had an image type; no renderer can change that. */
  lemma ThumbnailOnlyForImages(content: seq<byte>, mimeType: string, size: (int, int),
                               render: (seq<byte>, (int, int)) -> Option<seq<byte>>)
    ensures GenerateThumbnail(content, mimeType, size, render).Some? ==> IsImage(mimeType)
  {
  }
}
