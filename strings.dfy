/** Character classes and string tests of JavaScript, restricted to what the
    source uses: `trim`, `\s`, `\w`, ASCII `toUpperCase`/`toLowerCase`,
    `includes` and `startsWith`. */
module Strings {

  /** `\s` of a JavaScript regular expression, which is also the set `trim`
      removes: WhiteSpace and LineTerminator code points. */
  predicate IsSpace(c: char) {
    var n := c as int;
    (0x09 <= n <= 0x0D) || n == 0x20 || n == 0xA0 || n == 0x1680
    || (0x2000 <= n <= 0x200A) || n == 0x2028 || n == 0x2029 || n == 0x202F
    || n == 0x205F || n == 0x3000 || n == 0xFEFF
  }

  predicate IsAsciiUpper(c: char) { 'A' <= c <= 'Z' }

  predicate IsAsciiLower(c: char) { 'a' <= c <= 'z' }

  predicate IsDigit(c: char) { '0' <= c <= '9' }

  /** `\w` (without the `u` flag): `[A-Za-z0-9_]`. */
  predicate IsWordChar(c: char) {
    'A' <= c <= 'Z' || 'a' <= c <= 'z' || '0' <= c <= '9' || c == '_'
  }

  function UpperChar(c: char): (u: char)
    ensures IsAsciiLower(c) ==> IsAsciiUpper(u) && u as int == c as int - 32
    ensures !IsAsciiLower(c) ==> u == c
  {
    if IsAsciiLower(c) then (c as int - 32) as char else c
  }

  function LowerChar(c: char): (l: char)
    ensures IsAsciiUpper(c) ==> IsAsciiLower(l) && l as int == c as int + 32
    ensures !IsAsciiUpper(c) ==> l == c
  {
    if IsAsciiUpper(c) then (c as int + 32) as char else c
  }

  /** `toUpperCase` on ASCII letters; every other character is kept. */
  function ToUpper(s: string): (r: string)
    ensures |r| == |s|
    ensures forall i :: 0 <= i < |s| ==> r[i] == UpperChar(s[i])
  {
    if |s| == 0 then [] else [UpperChar(s[0])] + ToUpper(s[1..])
  }

  lemma ToUpperConcat(x: string, y: string)
    ensures ToUpper(x + y) == ToUpper(x) + ToUpper(y)
  {
  }

  /** `toLowerCase` on ASCII letters; every other character is kept. */
  function ToLower(s: string): (r: string)
    ensures |r| == |s|
    ensures forall i :: 0 <= i < |s| ==> r[i] == LowerChar(s[i])
  {
    if |s| == 0 then [] else [LowerChar(s[0])] + ToLower(s[1..])
  }

  function TrimStart(s: string): (r: string)
    ensures |r| <= |s|
  {
    if |s| > 0 && IsSpace(s[0]) then TrimStart(s[1..]) else s
  }

  function TrimEnd(s: string): (r: string)
    ensures |r| <= |s|
  {
    if |s| > 0 && IsSpace(s[|s| - 1]) then TrimEnd(s[..|s| - 1]) else s
  }

  /** `trim`: drop leading and trailing white space. */
  function Trim(s: string): string {
    TrimEnd(TrimStart(s))
  }

  /** `trim` removes a prefix and a suffix made only of white space, and
      what remains neither starts nor ends with white space. */
  lemma TrimSplits(s: string) returns (a: nat, b: nat)
    ensures a <= b <= |s| && Trim(s) == s[a..b]
    ensures forall i :: 0 <= i < a ==> IsSpace(s[i])
    ensures forall i :: b <= i < |s| ==> IsSpace(s[i])
    ensures a < b ==> !IsSpace(s[a]) && !IsSpace(s[b - 1])
  {
    a := TrimStartLength(s);
    var mid := s[a..];
    var m := TrimEndLength(mid);
    b := a + m;
    assert s[a..b] == mid[..m];
    assert forall i :: b <= i < |s| ==> s[i] == mid[i - a];
  }

  lemma {:induction false} TrimStartLength(s: string) returns (a: nat)
    ensures a <= |s| && TrimStart(s) == s[a..]
    ensures forall i :: 0 <= i < a ==> IsSpace(s[i])
    ensures a < |s| ==> !IsSpace(s[a])
  {
    if |s| > 0 && IsSpace(s[0]) {
      var a' := TrimStartLength(s[1..]);
      a := a' + 1;
      assert s[1..][a'..] == s[a..];
    } else {
      a := 0;
    }
  }

  lemma {:induction false} TrimEndLength(s: string) returns (b: nat)
    ensures b <= |s| && TrimEnd(s) == s[..b]
    ensures forall i :: b <= i < |s| ==> IsSpace(s[i])
    ensures b > 0 ==> !IsSpace(s[b - 1])
  {
    if |s| > 0 && IsSpace(s[|s| - 1]) {
      b := TrimEndLength(s[..|s| - 1]);
      assert s[..|s| - 1][..b] == s[..b];
    } else {
      b := |s|;
    }
  }

  /** `t` occurs in `s` starting at index `i`. */
  predicate OccursAt(s: string, t: string, i: nat) {
    i + |t| <= |s| && s[i..i + |t|] == t
  }

  /** `s.includes(t)`. */
  predicate Contains(s: string, t: string) {
    exists i: nat | i <= |s| :: OccursAt(s, t, i)
  }

  /** `s.startsWith(t)`. */
  predicate StartsWith(s: string, t: string) {
    |t| <= |s| && s[..|t|] == t
  }

  /** Every string includes the empty string. */
  lemma ContainsEmpty(s: string)
    ensures Contains(s, "")
  {
    assert OccursAt(s, "", 0);
  }

  /** A string includes whatever occurs in it at some index. */
  lemma ContainsAt(s: string, t: string, i: nat)
    requires OccursAt(s, t, i)
    ensures Contains(s, t)
  {
  }

  /** `a + t + b` includes `t`. */
  lemma ContainsInfix(a: string, t: string, b: string)
    ensures Contains(a + t + b, t)
  {
    assert OccursAt(a + t + b, t, |a|);
  }

  /** A string including `t` includes every character of `t`. */
  lemma ContainsChars(s: string, t: string, c: char)
    requires Contains(s, t) && c in t
    ensures c in s
  {
    var i: nat :| i <= |s| && OccursAt(s, t, i);
    var k :| 0 <= k < |t| && t[k] == c;
    assert s[i + k] == s[i..i + |t|][k];
  }

  /** The usual way to show `!s.includes(t)`: some character of `t` is missing from `s`. */
  lemma NotContainsChar(s: string, t: string, c: char)
    requires c in t && c !in s
    ensures !Contains(s, t)
  {
    if Contains(s, t) {
      ContainsChars(s, t, c);
    }
  }

  /** Only strings at least as long as `t` include it. */
  lemma ContainsLength(s: string, t: string)
    requires Contains(s, t)
    ensures |t| <= |s|
  {
  }
}
