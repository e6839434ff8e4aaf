/**
 * The string primitives the application calls: `String.prototype.trim`,
 * the `\s` class of its regular expressions, `toLowerCase`/`toUpperCase`
 * and splitting on runs of whitespace.
 */
module Text {

  /**
   * JavaScript's WhiteSpace and LineTerminator characters, which both `trim`
   * and the regular-expression class `\s` use.
   */
  predicate IsSpace(c: char) {
    || c == ' ' || c == '\t' || c == '\n' || c == '\r'
    || c == '\U{000B}' || c == '\U{000C}' || c == '\U{00A0}' || c == '\U{1680}'
    || ('\U{2000}' <= c <= '\U{200A}')
    || c == '\U{2028}' || c == '\U{2029}' || c == '\U{202F}' || c == '\U{205F}'
    || c == '\U{3000}' || c == '\U{FEFF}'
  }

  predicate AllSpace(s: string) {
    forall i :: 0 <= i < |s| ==> IsSpace(s[i])
  }

  predicate NoSpace(s: string) {
    forall i :: 0 <= i < |s| ==> !IsSpace(s[i])
  }

  /** The number of whitespace characters `s` starts with. */
  function LeadingSpaces(s: string): (n: nat)
    ensures n <= |s|
    ensures AllSpace(s[..n])
    ensures n == |s| || !IsSpace(s[n])
    decreases |s|
  {
    if s == [] || !IsSpace(s[0]) then 0
    else
      var m := LeadingSpaces(s[1..]);
      assert s[1..][..m] == s[1..m + 1];
      1 + m
  }

  /** The number of whitespace characters `s` ends with. */
  function TrailingSpaces(s: string): (n: nat)
    ensures n <= |s|
    ensures AllSpace(s[|s| - n..])
    ensures n == |s| || !IsSpace(s[|s| - n - 1])
    decreases |s|
  {
    if s == [] || !IsSpace(s[|s| - 1]) then 0
    else
      var m := TrailingSpaces(s[..|s| - 1]);
      assert s[|s| - (1 + m)..] == s[..|s| - 1][|s| - 1 - m..] + [s[|s| - 1]];
      1 + m
  }

  /** `s.trimStart()` */
  function TrimStart(s: string): (r: string)
    ensures r == s[LeadingSpaces(s)..]
    ensures r == [] || !IsSpace(r[0])
  {
    s[LeadingSpaces(s)..]
  }

  /** `s.trim()`: the part of `s` between its leading and its trailing whitespace. */
  function Trim(s: string): (r: string)
    ensures LeadingSpaces(s) + |r| <= |s|
    ensures r == s[LeadingSpaces(s)..LeadingSpaces(s) + |r|]
    ensures AllSpace(s[..LeadingSpaces(s)]) && AllSpace(s[LeadingSpaces(s) + |r|..])
    ensures r == [] || (!IsSpace(r[0]) && !IsSpace(r[|r| - 1]))
  {
    var t := TrimStart(s);
    var n := TrailingSpaces(t);
    var r := t[..|t| - n];
    assert s[LeadingSpaces(s) + |r|..] == t[|t| - n..];
    r
  }

  /** Trimming a string that `trim` already returned changes nothing. */
  lemma TrimIdempotent(s: string)
    ensures Trim(Trim(s)) == Trim(s)
  {
    var r := Trim(s);
    assert LeadingSpaces(r) == 0;
    assert TrimStart(r) == r;
    assert TrailingSpaces(r) == 0;
    assert r[..|r|] == r;
  }

  /** `toLowerCase` on a character; only the ASCII letters are mapped. */
  function LowerChar(c: char): (d: char)
    ensures 'A' <= c <= 'Z' ==> 'a' <= d <= 'z'
    ensures !('A' <= c <= 'Z') ==> d == c
  {
    if 'A' <= c <= 'Z' then (c as int + 32) as char else c
  }

  /** `toUpperCase` on a character; only the ASCII letters are mapped. */
  function UpperChar(c: char): (d: char)
    ensures 'a' <= c <= 'z' ==> 'A' <= d <= 'Z'
    ensures !('a' <= c <= 'z') ==> d == c
  {
    if 'a' <= c <= 'z' then (c as int - 32) as char else c
  }

  /** `s.toLowerCase()` */
  function ToLower(s: string): (r: string)
    ensures |r| == |s|
    ensures forall i :: 0 <= i < |s| ==> r[i] == LowerChar(s[i])
  {
    seq(|s|, i requires 0 <= i < |s| => LowerChar(s[i]))
  }

  lemma ToLowerIdempotent(s: string)
    ensures ToLower(ToLower(s)) == ToLower(s)
  {
  }

  /** The length of the run of non-whitespace characters `s` starts with. */
  function WordLength(s: string): (n: nat)
    ensures n <= |s|
    ensures NoSpace(s[..n])
    ensures n == |s| || IsSpace(s[n])
    decreases |s|
  {
    if s == [] || IsSpace(s[0]) then 0
    else
      var m := WordLength(s[1..]);
      assert s[1..][..m] == s[1..m + 1];
      1 + m
  }

  /**
   * The maximal runs of non-whitespace characters of `s`, in order: what
   * `s.trim().split(/\s+/)` returns for a string with a non-whitespace character.
   */
  function Words(s: string): (ws: seq<string>)
    ensures forall i :: 0 <= i < |ws| ==> |ws[i]| >= 1 && NoSpace(ws[i])
    ensures ws == [] <==> AllSpace(s)
    decreases |s|
  {
    var k := LeadingSpaces(s);
    if k == |s| then
      assert s == s[..k];
      []
    else
      var u := s[k..];
      var n := WordLength(u);
      SpaceAt(s, k);
      [u[..n]] + Words(u[n..])
  }

  /** A string with a non-whitespace character is not all whitespace. */
  lemma SpaceAt(s: string, k: int)
    requires 0 <= k < |s| && !IsSpace(s[k])
    ensures !AllSpace(s)
  {
  }
}
