/** The string functions of Go's standard library that the playlist code is built on. A string is a sequence of
    characters; lengths count characters. */
module Text {

  /** unicode.IsSpace. */
  predicate IsSpace(c: char) {
    || '\t' <= c <= '\r' || c == ' ' || c == '\U{85}' || c == '\U{A0}' || c == '\U{1680}'
    || '\U{2000}' <= c <= '\U{200A}' || c == '\U{2028}' || c == '\U{2029}' || c == '\U{202F}'
    || c == '\U{205F}' || c == '\U{3000}'
  }

  function TrimLeft(s: string): (r: string)
    ensures |r| <= |s| && (r == "" || !IsSpace(r[0]))
    ensures s != "" && !IsSpace(s[0]) ==> r == s
  {
    if s != "" && IsSpace(s[0]) then TrimLeft(s[1..]) else s
  }

  function TrimRight(s: string): (r: string)
    ensures r <= s && (r == "" || !IsSpace(r[|r| - 1]))
    ensures forall i :: |r| <= i < |s| ==> IsSpace(s[i])
  {
    if s != "" && IsSpace(s[|s| - 1]) then TrimRight(s[..|s| - 1]) else s
  }

  /** strings.TrimSpace. */
  function Trim(s: string): (r: string)
    ensures |r| <= |s|
    ensures r == "" || (!IsSpace(r[0]) && !IsSpace(r[|r| - 1]))
  {
    TrimRight(TrimLeft(s))
  }

  /** Nothing to trim. */
  predicate Trimmed(s: string) {
    s == "" || (!IsSpace(s[0]) && !IsSpace(s[|s| - 1]))
  }

  lemma TrimKeeps(s: string)
    requires Trimmed(s)
    ensures Trim(s) == s
  {
  }

  /** strings.IndexByte, for an ASCII character. */
  function Index(s: string, c: char): (n: int)
    ensures -1 <= n < |s|
    ensures n >= 0 ==> s[n] == c
    ensures forall i :: 0 <= i < |s| && (n < 0 || i < n) ==> s[i] != c
  {
    if s == "" then -1
    else if s[0] == c then 0
    else
      var n := Index(s[1..], c);
      if n < 0 then -1 else n + 1
  }

  /** strings.LastIndex, for one character. */
  function LastIndex(s: string, c: char): (n: int)
    ensures -1 <= n < |s|
    ensures n >= 0 ==> s[n] == c
    ensures forall i :: n < i < |s| ==> s[i] != c
  {
    if s == "" then -1
    else if s[|s| - 1] == c then |s| - 1
    else LastIndex(s[..|s| - 1], c)
  }

  /** In l, then c, then rest, the first c ends l, if l has none. */
  lemma {:induction false} IndexBetween(l: string, c: char, rest: string)
    requires c !in l
    ensures Index(l + [c] + rest, c) == |l|
  {
    assert (l + [c] + rest)[|l|] == c;
  }

  lemma {:induction false} LastIndexBetween(l: string, c: char, rest: string)
    requires c !in rest
    ensures LastIndex(l + [c] + rest, c) == |l|
  {
    assert (l + [c] + rest)[|l|] == c;
  }

  /** strings.HasSuffix of the lower-cased string, for an ASCII suffix in lower case. */
  predicate HasSuffixFold(s: string, suffix: string) {
    && |suffix| <= |s|
    && forall i :: 0 <= i < |suffix| ==> Lower(s[|s| - |suffix| + i]) == suffix[i]
  }

  function Lower(c: char): char {
    if 'A' <= c <= 'Z' then c - 'A' + 'a' else c
  }

  /** The end of a line that bufio.ScanLines drops. */
  function DropCr(s: string): string {
    if s != "" && s[|s| - 1] == '\r' then s[..|s| - 1] else s
  }

  /** What a bufio.Scanner with this buffer limit reads line by line: a line that does not fit ends the scan. */
  function Lines(s: string, limit: nat): seq<string>
    decreases |s|
  {
    if s == "" then []
    else
      var n := Index(s, '\n');
      var length := if n < 0 then |s| else n;
      if length >= limit then []
      else [DropCr(s[..length])] + (if n < 0 then [] else Lines(s[n + 1..], limit))
  }

  predicate IsLine(l: string, limit: nat) {
    '\n' !in l && |l| < limit && DropCr(l) == l
  }

  lemma {:induction false} LinesCons(l: string, rest: string, limit: nat)
    requires IsLine(l, limit)
    ensures Lines(l + "\n" + rest, limit) == [l] + Lines(rest, limit)
  {
    var s := l + "\n" + rest;
    assert s[..|l|] == l;
    IndexBetween(l, '\n', rest);
    assert s[|l| + 1..] == rest;
  }
}
