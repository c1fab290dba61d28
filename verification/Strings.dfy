/** The string functions the service uses, on single-byte characters. */
module Strings {

  predicate IsSpace(c: char) {
    c in {' ', '\t', '\n', '\r', 11 as char, 12 as char}
  }

  function TrimLeft(s: string): string {
    if s != [] && IsSpace(s[0]) then TrimLeft(s[1..]) else s
  }

  function TrimRight(s: string): string {
    if s != [] && IsSpace(s[|s| - 1]) then TrimRight(s[..|s| - 1]) else s
  }

  function TrimSpace(s: string): string {
    TrimRight(TrimLeft(s))
  }

  function Upper(c: char): char {
    if 'a' <= c <= 'z' then ((c as int) - 32) as char else c
  }

  function Lower(c: char): char {
    if 'A' <= c <= 'Z' then ((c as int) + 32) as char else c
  }

  function ToUpper(s: string): string {
    seq(|s|, i requires 0 <= i < |s| => Upper(s[i]))
  }

  function ToLower(s: string): string {
    seq(|s|, i requires 0 <= i < |s| => Lower(s[i]))
  }

  predicate IsDigit(c: char) {
    '0' <= c <= '9'
  }

  /** Six digits; anything else is taken for a backup code. */
  predicate IsTOTPShape(code: string) {
    |code| == 6 && forall i :: 0 <= i < 6 ==> IsDigit(code[i])
  }

  // ---- What they promise ----

  /** A space, or one of the five control characters from tab to carriage return. */
  predicate IsBlank(c: char) {
    c == ' ' || 9 <= c as int <= 13
  }

  predicate AllBlank(s: string) {
    forall i :: 0 <= i < |s| ==> IsBlank(s[i])
  }

  /** `s` cut at both ends, and no further than its white space reaches. */
  predicate TrimmedTo(s: string, a: nat, b: nat) {
    a <= b <= |s| && AllBlank(s[..a]) && AllBlank(s[b..]) && (a < b ==> !IsBlank(s[a]) && !IsBlank(s[b - 1]))
  }

  lemma {:induction false} LeftTrimmed(s: string) returns (a: nat)
    ensures a <= |s| && TrimLeft(s) == s[a..] && AllBlank(s[..a]) && (a < |s| ==> !IsBlank(s[a]))
  {
    if s != [] && IsSpace(s[0]) {
      a := LeftTrimmed(s[1..]);
      a := a + 1;
      assert s[..a] == [s[0]] + s[1..][..a - 1];
    } else {
      a := 0;
    }
  }

  lemma {:induction false} RightTrimmed(s: string) returns (b: nat)
    ensures b <= |s| && TrimRight(s) == s[..b] && AllBlank(s[b..]) && (0 < b ==> !IsBlank(s[b - 1]))
  {
    if s != [] && IsSpace(s[|s| - 1]) {
      b := RightTrimmed(s[..|s| - 1]);
      assert s[b..] == s[..|s| - 1][b..] + [s[|s| - 1]];
    } else {
      b := |s|;
    }
  }

  /** Trimming takes away the white space at both ends and nothing else. */
  lemma TrimSpaceIsExact(s: string) returns (a: nat, b: nat)
    ensures TrimmedTo(s, a, b) && TrimSpace(s) == s[a..b]
  {
    a := LeftTrimmed(s);
    b := RightTrimmed(s[a..]);
    b := a + b;
    assert s[a..][..b - a] == s[a..b] && s[a..][b - a..] == s[b..];
  }

  /** Upper and lower case differ by 32, for the 26 letters, and other characters have none. */
  lemma CaseIsExact(s: string, i: nat)
    requires i < |s|
    ensures |ToLower(s)| == |ToUpper(s)| == |s|
    ensures ToLower(s)[i] as int == s[i] as int + if 65 <= s[i] as int <= 90 then 32 else 0
    ensures ToUpper(s)[i] as int == s[i] as int - if 97 <= s[i] as int <= 122 then 32 else 0
  {
  }
}
