/**
 * Cache key rules shared by every cache provider: the stored key is the
 * configured prefix, a colon and the caller's key, and the caller's key must be
 * non-empty, at most 250 characters and free of blanks and line breaks.
 */
module CacheKey {
  import opened Wrappers
  import Text

  const MaxKeyLength: nat := 250

  /** The characters a key may not contain. */
  const InvalidChars: set<char> := {' ', '\n', '\r', '\t'}

  datatype CacheKeyError = EmptyKey | KeyTooLong | InvalidCharacter

  /** `_build_key`: `"{prefix}:{key}"`. */
  function BuildKey(prefix: string, key: string): (full: string)
    ensures |full| == |prefix| + 1 + |key|
    ensures Text.StartsWith(full, prefix + ":")
    ensures full[|prefix| + 1..] == key
  {
    prefix + ":" + key
  }

  /** Under one prefix, different keys never share a stored key. */
  lemma BuildKeyInjective(prefix: string, a: string, b: string)
    requires BuildKey(prefix, a) == BuildKey(prefix, b)
    ensures a == b
  {
    assert a == BuildKey(prefix, a)[|prefix| + 1..];
  }

  predicate HasInvalidChar(key: string)
  {
    exists i :: 0 <= i < |key| && key[i] in InvalidChars
  }

  /** `_validate_key`: an empty key, then an overlong one, then a forbidden character, each reported in that order. */
  function ValidateKey(key: string): (r: Result<(), CacheKeyError>)
    ensures r.Ok? <==> key != [] && |key| <= MaxKeyLength && !HasInvalidChar(key)
    ensures key == [] ==> r == Err(EmptyKey)
    ensures key != [] && |key| > MaxKeyLength ==> r == Err(KeyTooLong)
  {
    if key == [] then Err(EmptyKey)
    else if |key| > MaxKeyLength then Err(KeyTooLong)
    else if HasInvalidChar(key) then Err(InvalidCharacter)
    else Ok(())
  }

  /** A key holding a space, newline, carriage return or tab is refused. */
  lemma InvalidCharRejected(key: string, i: nat)
    requires i < |key| && key[i] in InvalidChars
    ensures ValidateKey(key).Err?
  {
  }
}
