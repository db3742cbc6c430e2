/**
 * The string helpers the modelled code leans on (String.trim, toUpperCase,
 * toLowerCase, equalsIgnoreCase, StringUtils.isBlank), restricted to ASCII:
 * letters outside 'a'..'z' and 'A'..'Z' have no case here.
 */
module Ascii {
  import opened Wrappers

  /** Character.isWhitespace on the ASCII range: space, tab to carriage return, and the four separators. */
  predicate IsWhitespace(c: char) {
    var n := c as int;
    n == 32 || 9 <= n <= 13 || 28 <= n <= 31
  }

  /** String.trim cuts every character whose code is at most that of the space. */
  predicate IsTrimmable(c: char) {
    c as int <= 32
  }

  function TrimStart(s: string): (r: string)
    ensures |r| <= |s| && r == s[|s| - |r|..]
    ensures forall i :: 0 <= i < |s| - |r| ==> IsTrimmable(s[i])
    ensures r == [] || !IsTrimmable(r[0])
  {
    if s != [] && IsTrimmable(s[0]) then TrimStart(s[1..]) else s
  }

  function TrimEnd(s: string): (r: string)
    ensures |r| <= |s| && r == s[..|r|]
    ensures forall i :: |r| <= i < |s| ==> IsTrimmable(s[i])
    ensures r == [] || !IsTrimmable(r[|r| - 1])
  {
    if s != [] && IsTrimmable(s[|s| - 1]) then TrimEnd(s[..|s| - 1]) else s
  }

  /** `r` is `s[i..j]`, and everything cut off on either side is trimmable. */
  predicate TrimmedSlice(s: string, r: string, i: int, j: int) {
    && 0 <= i <= j <= |s|
    && r == s[i..j]
    && (forall k :: 0 <= k < i ==> IsTrimmable(s[k]))
    && (forall k :: j <= k < |s| ==> IsTrimmable(s[k]))
  }

  /** String.trim: the longest inner slice that neither starts nor ends with a trimmable character. */
  function Trim(s: string): (r: string)
    ensures |r| <= |s|
    ensures r == [] || (!IsTrimmable(r[0]) && !IsTrimmable(r[|r| - 1]))
    ensures s == [] || (!IsTrimmable(s[0]) && !IsTrimmable(s[|s| - 1])) ==> r == s
    ensures exists i, j :: TrimmedSlice(s, r, i, j)
  {
    var t := TrimStart(s);
    var r := TrimEnd(t);
    var i := |s| - |t|;
    assert r == s[i..i + |r|];
    assert forall k :: i + |r| <= k < |s| ==> s[k] == t[k - i];
    assert TrimmedSlice(s, r, i, i + |r|);
    r
  }

  function UpperChar(c: char): char {
    if 'a' <= c <= 'z' then (c as int - 32) as char else c
  }

  function LowerChar(c: char): char {
    if 'A' <= c <= 'Z' then (c as int + 32) as char else c
  }

  function ToUpper(s: string): (r: string)
    ensures |r| == |s| && forall i :: 0 <= i < |s| ==> r[i] == UpperChar(s[i])
  {
    seq(|s|, i requires 0 <= i < |s| => UpperChar(s[i]))
  }

  function ToLower(s: string): (r: string)
    ensures |r| == |s| && forall i :: 0 <= i < |s| ==> r[i] == LowerChar(s[i])
  {
    seq(|s|, i requires 0 <= i < |s| => LowerChar(s[i]))
  }

  /** A string with no upper-case letter. */
  predicate IsLowerCase(s: string) {
    forall i :: 0 <= i < |s| ==> LowerChar(s[i]) == s[i]
  }

  /** StringUtils.isBlank: null, empty, or whitespace only. */
  predicate IsBlank(s: Option<string>) {
    s.None? || forall i :: 0 <= i < |s.value| ==> IsWhitespace(s.value[i])
  }

  /** String.equalsIgnoreCase: false against null, otherwise equal length and equal letters up to case. */
  predicate EqualsIgnoreCase(a: string, b: Option<string>) {
    && b.Some?
    && |a| == |b.value|
    && forall i :: 0 <= i < |a| ==> LowerChar(a[i]) == LowerChar(b.value[i])
  }

  /** Against a lower-case string, comparing ignoring case is comparing the lower-cased other side. */
  lemma EqualsIgnoreCaseLower(a: string, b: string)
    requires IsLowerCase(a)
    ensures EqualsIgnoreCase(a, Some(b)) <==> ToLower(b) == a
  {
    if ToLower(b) == a {
      forall i | 0 <= i < |a| ensures LowerChar(a[i]) == LowerChar(b[i]) {
        assert a[i] == LowerChar(b[i]);
      }
    }
  }
}
