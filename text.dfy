/**
 * The handful of Python `str` operations the core relies on, over `seq<char>`:
 * `strip`, `split` with a one-character separator, `join`, `startswith`,
 * `in` on substrings, `lower` and `isdigit`, restricted to ASCII.
 */
module Text {
  /** ASCII characters Python's `str.isspace` accepts. */
  const Whitespace: set<char> := {' ', '\t', '\n', '\r', '\U{000B}', '\U{000C}', '\U{001C}', '\U{001D}', '\U{001E}', '\U{001F}'}

  predicate IsDigit(c: char) { '0' <= c <= '9' }
  predicate IsUpper(c: char) { 'A' <= c <= 'Z' }
  predicate IsLower(c: char) { 'a' <= c <= 'z' }
  /** A character of the regular-expression class `\w`, restricted to ASCII. */
  predicate IsWordChar(c: char) { IsDigit(c) || IsUpper(c) || IsLower(c) || c == '_' }

  /** `s.isdigit()`: non-empty and every character a digit. */
  predicate AllDigits(s: string) { |s| > 0 && forall i :: 0 <= i < |s| ==> IsDigit(s[i]) }

  function LowerChar(c: char): (r: char)
    ensures IsUpper(c) ==> IsLower(r) && r as int - c as int == 32
    ensures !IsUpper(c) ==> r == c
  {
    if IsUpper(c) then (c as int + 32) as char else c
  }

  /** `s.lower()` on ASCII letters. */
  function Lower(s: string): (r: string)
    ensures |r| == |s|
    ensures forall i :: 0 <= i < |s| ==> r[i] == LowerChar(s[i])
  {
    if s == [] then [] else [LowerChar(s[0])] + Lower(s[1..])
  }

  predicate StartsWith(s: string, prefix: string) { |prefix| <= |s| && s[..|prefix|] == prefix }
  predicate EndsWith(s: string, suffix: string) { |suffix| <= |s| && s[|s| - |suffix|..] == suffix }

  /** `sub in s`. */
  predicate Contains(s: string, sub: string)
    decreases |s|
  {
    StartsWith(s, sub) || (s != [] && Contains(s[1..], sub))
  }

  /** `s.lstrip(chars)`. */
  function TrimLeft(s: string, chars: set<char>): (r: string)
    ensures |r| <= |s|
    ensures r != [] ==> r[0] !in chars
  {
    if s != [] && s[0] in chars then TrimLeft(s[1..], chars) else s
  }

  /** What `lstrip` removes is a prefix made of stripped characters. */
  lemma {:induction false} TrimLeftFacts(s: string, chars: set<char>)
    ensures TrimLeft(s, chars) == s[|s| - |TrimLeft(s, chars)|..]
    ensures forall i :: 0 <= i < |s| - |TrimLeft(s, chars)| ==> s[i] in chars
  {
    if s != [] && s[0] in chars {
      TrimLeftFacts(s[1..], chars);
    }
  }

  /** `s.rstrip(chars)`. */
  function TrimRight(s: string, chars: set<char>): (r: string)
    ensures |r| <= |s|
    ensures r != [] ==> r[|r| - 1] !in chars
  {
    if s != [] && s[|s| - 1] in chars then TrimRight(s[..|s| - 1], chars) else s
  }

  /** What `rstrip` removes is a suffix made of stripped characters. */
  lemma {:induction false} TrimRightFacts(s: string, chars: set<char>)
    ensures TrimRight(s, chars) == s[..|TrimRight(s, chars)|]
    ensures forall i :: |TrimRight(s, chars)| <= i < |s| ==> s[i] in chars
  {
    if s != [] && s[|s| - 1] in chars {
      TrimRightFacts(s[..|s| - 1], chars);
    }
  }

  /** `s.strip(chars)`; `Strip(s, Whitespace)` is `s.strip()`. */
  function Strip(s: string, chars: set<char>): (r: string)
    ensures r != [] ==> r[0] !in chars && r[|r| - 1] !in chars
    ensures s == [] || (s[0] !in chars && s[|s| - 1] !in chars) ==> r == s
  {
    var l := TrimLeft(s, chars);
    var r := TrimRight(l, chars);
    TrimRightFacts(l, chars);
    assert r != [] ==> r[0] == l[0];
    r
  }

  /** `[p.strip() for p in parts]`. */
  function StripAll(parts: seq<string>): (r: seq<string>)
    ensures |r| == |parts|
    ensures forall i :: 0 <= i < |r| ==> r[i] == Strip(parts[i], Whitespace)
  {
    seq(|parts|, i requires 0 <= i < |parts| => Strip(parts[i], Whitespace))
  }

  /** Stripping a list is stripping its head, then the rest. */
  lemma StripAllCons(a: string, rest: seq<string>)
    ensures StripAll([a] + rest) == [Strip(a, Whitespace)] + StripAll(rest)
  {
    var l, r := StripAll([a] + rest), [Strip(a, Whitespace)] + StripAll(rest);
    forall i | 0 <= i < |l|
      ensures l[i] == r[i]
    {
      if i > 0 {
        assert ([a] + rest)[i] == rest[i - 1];
      }
    }
  }

  /** Stripping a string with kept ends after one space gives the string back. */
  lemma StripSpacePrefixed(x: string)
    requires x != [] && x[0] !in Whitespace && x[|x| - 1] !in Whitespace
    ensures Strip(" " + x, Whitespace) == x
  {
    StripPadded(" ", x, Whitespace);
  }

  /** Stripping removes exactly a leading run of stripped characters from a string with kept ends. */
  lemma {:induction false} StripPadded(pre: string, x: string, chars: set<char>)
    requires forall i :: 0 <= i < |pre| ==> pre[i] in chars
    requires x != [] && x[0] !in chars && x[|x| - 1] !in chars
    ensures Strip(pre + x, chars) == x
  {
    TrimLeftPadded(pre, x, chars);
  }

  lemma {:induction false} TrimLeftPadded(pre: string, x: string, chars: set<char>)
    requires forall i :: 0 <= i < |pre| ==> pre[i] in chars
    requires x != [] && x[0] !in chars
    ensures TrimLeft(pre + x, chars) == x
  {
    if pre == [] {
      assert pre + x == x;
    } else {
      assert (pre + x)[1..] == pre[1..] + x;
      TrimLeftPadded(pre[1..], x, chars);
    }
  }

  /** `Strip` keeps a contiguous middle part of its input. */
  lemma StripSlice(s: string, chars: set<char>)
    ensures var off := |s| - |TrimLeft(s, chars)|;
      off + |Strip(s, chars)| <= |s| && Strip(s, chars) == s[off..off + |Strip(s, chars)|]
  {
    var l := TrimLeft(s, chars);
    var r := TrimRight(l, chars);
    var off := |s| - |l|;
    TrimLeftFacts(s, chars);
    TrimRightFacts(l, chars);
    assert r == l[..|r|] && l == s[off..];
    assert r == s[off..off + |r|];
  }

  /** The k-th character of `s.strip(chars)` is the character of `s` that many places after the stripped prefix. */
  lemma StripIndex(s: string, chars: set<char>)
    ensures forall k :: 0 <= k < |Strip(s, chars)| ==> Strip(s, chars)[k] == s[|s| - |TrimLeft(s, chars)| + k]
  {
    StripSlice(s, chars);
  }

  /** Index of the first occurrence of `c`, or `|s|` when there is none. */
  function IndexOf(s: string, c: char): (k: nat)
    ensures k <= |s|
    ensures k < |s| ==> s[k] == c
    ensures forall i :: 0 <= i < k ==> s[i] != c
  {
    if s == [] then 0 else if s[0] == c then 0 else 1 + IndexOf(s[1..], c)
  }

  /** `s.split(sep)` for a one-character separator: never empty, no part holds `sep`. */
  function Split(s: string, sep: char): (parts: seq<string>)
    ensures |parts| >= 1
    ensures forall p :: p in parts ==> sep !in p
    decreases |s|
  {
    var k := IndexOf(s, sep);
    if k == |s| then [s] else [s[..k]] + Split(s[k + 1..], sep)
  }

  /** `sep.join(parts)`. */
  function Join(parts: seq<string>, sep: string): (r: string)
    ensures |parts| == 1 ==> r == parts[0]
  {
    if parts == [] then [] else if |parts| == 1 then parts[0] else parts[0] + sep + Join(parts[1..], sep)
  }

  lemma {:induction false} IndexOfAfter(a: string, c: char, rest: string)
    requires c !in a
    ensures IndexOf(a + [c] + rest, c) == |a|
  {
    if a != [] {
      assert (a + [c] + rest)[1..] == a[1..] + [c] + rest;
      IndexOfAfter(a[1..], c, rest);
    }
  }

  lemma {:induction false} IndexOfAbsent(a: string, c: char)
    requires c !in a
    ensures IndexOf(a, c) == |a|
  {
    if a != [] {
      IndexOfAbsent(a[1..], c);
    }
  }

  /** A part without the separator, then the separator, splits off as the first part. */
  lemma SplitCons(a: string, sep: char, rest: string)
    requires sep !in a
    ensures Split(a + [sep] + rest, sep) == [a] + Split(rest, sep)
  {
    var s := a + [sep] + rest;
    IndexOfAfter(a, sep, rest);
    assert s[..|a|] == a && s[|a| + 1..] == rest;
  }

  /** A string without the separator is one part. */
  lemma SplitNone(a: string, sep: char)
    requires sep !in a
    ensures Split(a, sep) == [a]
  {
    IndexOfAbsent(a, sep);
  }

  /** Splitting and joining back on the same separator gives the input back. */
  lemma {:induction false} SplitJoin(s: string, sep: char)
    ensures Join(Split(s, sep), [sep]) == s
    decreases |s|
  {
    var k := IndexOf(s, sep);
    if k < |s| {
      SplitJoin(s[k + 1..], sep);
      assert s == s[..k] + [sep] + s[k + 1..];
    }
  }

  /** `int(s)` for a string of ASCII digits. */
  function ParseNat(s: string): (n: nat)
    requires forall i :: 0 <= i < |s| ==> IsDigit(s[i])
  {
    if s == [] then 0
    else
      assert IsDigit(s[|s| - 1]);
      ParseNat(s[..|s| - 1]) * 10 + (s[|s| - 1] as int - '0' as int)
  }

  /** The number of parts is one more than the number of separators. */
  function Count(s: string, c: char): (n: nat)
    ensures n <= |s|
    ensures n == 0 <==> c !in s
  {
    if s == [] then 0 else (if s[0] == c then 1 else 0) + Count(s[1..], c)
  }

  lemma CountAppend(a: string, b: string, c: char)
    ensures Count(a + b, c) == Count(a, c) + Count(b, c)
  {
    if a != [] {
      assert (a + b)[1..] == a[1..] + b;
      CountAppend(a[1..], b, c);
    } else {
      assert a + b == b;
    }
  }

  /** The parts of `s.split(sep)` are one more than the separators in `s`. */
  lemma {:induction false} SplitCount(s: string, sep: char)
    ensures |Split(s, sep)| == Count(s, sep) + 1
    decreases |s|
  {
    var k := IndexOf(s, sep);
    if k < |s| {
      SplitCount(s[k + 1..], sep);
      CountAt(s, k, sep);
    }
  }

  /** The count of `c` at its first occurrence `k`: one, plus those after it. */
  lemma CountAt(s: string, k: nat, c: char)
    requires k < |s| && s[k] == c && forall i :: 0 <= i < k ==> s[i] != c
    ensures Count(s, c) == 1 + Count(s[k + 1..], c)
  {
    assert s == s[..k] + ([c] + s[k + 1..]);
    CountAppend(s[..k], [c] + s[k + 1..], c);
    assert c !in s[..k];
    assert ([c] + s[k + 1..])[1..] == s[k + 1..];
  }
}
