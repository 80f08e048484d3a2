/** Results, options and the few string operations of Go's standard library that the provider uses.
    Case folding is ASCII only. */
module Strings {

  datatype Option<+T> = None | Some(value: T)

  datatype Result<+T, +E> = Ok(value: T) | Err(error: E)

  const QUOTE: char := '\"'

  /** `\s` of Go's regexp package. */
  predicate IsSpace(c: char) {
    c == ' ' || c == '\t' || c == '\n' || c == '\r' || c == 12 as char
  }

  /** unicode.IsSpace, which strings.TrimSpace uses; it accepts more than `\s` does. */
  predicate IsUnicodeSpace(c: char) {
    var n := c as int;
    IsSpace(c) || n in {0x0B, 0x85, 0xA0, 0x1680, 0x2028, 0x2029, 0x202F, 0x205F, 0x3000} || 0x2000 <= n <= 0x200A
  }

  predicate IsLetter(c: char) {
    'A' <= c <= 'Z' || 'a' <= c <= 'z'
  }

  predicate IsWord(c: char) {
    IsLetter(c) || '0' <= c <= '9' || c == '_'
  }

  predicate AllSpace(s: string) {
    forall i | 0 <= i < |s| :: IsSpace(s[i])
  }

  predicate NoSpace(s: string) {
    forall i | 0 <= i < |s| :: !IsSpace(s[i])
  }

  function UpperChar(c: char): char {
    if 'a' <= c <= 'z' then (c as int - 32) as char else c
  }

  function Upper(s: string): (r: string)
    ensures |r| == |s|
    ensures forall i | 0 <= i < |s| :: r[i] == UpperChar(s[i])
  {
    if s == "" then "" else [UpperChar(s[0])] + Upper(s[1..])
  }

  predicate HasPrefix(s: string, p: string) {
    p <= s
  }

  predicate HasSuffix(s: string, p: string) {
    |p| <= |s| && s[|s| - |p|..] == p
  }

  predicate Contains(s: string, p: string) {
    exists i | 0 <= i <= |s| - |p| :: s[i..][..|p|] == p
  }

  /** strings.TrimSpace. */
  function TrimSpace(s: string): string
    decreases |s|
  {
    if s == "" then ""
    else if IsUnicodeSpace(s[0]) then TrimSpace(s[1..])
    else if IsUnicodeSpace(s[|s| - 1]) then TrimSpace(s[..|s| - 1])
    else s
  }

  lemma {:induction false} TrimSpaceIff(s: string)
    requires s != ""
    ensures TrimSpace(s) == s <==> !IsUnicodeSpace(s[0]) && !IsUnicodeSpace(s[|s| - 1])
    ensures TrimSpace(s) == s || |TrimSpace(s)| < |s|
    decreases |s|
  {
    hide IsUnicodeSpace;
    if IsUnicodeSpace(s[0]) {
      TrimSpaceShrinks(s[1..]);
    } else if IsUnicodeSpace(s[|s| - 1]) {
      TrimSpaceShrinks(s[..|s| - 1]);
    }
  }

  lemma {:induction false} TrimSpaceShrinks(s: string)
    ensures |TrimSpace(s)| <= |s|
    decreases |s|
  {
    hide IsUnicodeSpace;
    if s != "" {
      if IsUnicodeSpace(s[0]) {
        TrimSpaceShrinks(s[1..]);
      } else if IsUnicodeSpace(s[|s| - 1]) {
        TrimSpaceShrinks(s[..|s| - 1]);
      }
    }
  }

  /** strings.Count for a character. */
  function Count(s: string, c: char): nat {
    if s == "" then 0 else (if s[0] == c then 1 else 0) + Count(s[1..], c)
  }

  lemma {:induction false} CountAppend(a: string, b: string, c: char)
    ensures Count(a + b, c) == Count(a, c) + Count(b, c)
    decreases |a|
  {
    if a == "" {
      assert a + b == b;
    } else {
      assert (a + b)[1..] == a[1..] + b;
      CountAppend(a[1..], b, c);
    }
  }

  /** strings.Join. */
  function Join(parts: seq<string>, sep: string): string {
    if parts == [] then ""
    else if |parts| == 1 then parts[0]
    else parts[0] + sep + Join(parts[1..], sep)
  }
}
