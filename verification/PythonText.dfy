/** White space and suffixes as Python's string methods know them. */
module PythonText {

  predicate IsSpace(c: char) {
    || '\t' <= c <= '\r' || '\U{1c}' <= c <= ' ' || c == '\U{85}' || c == '\U{a0}' || c == '\U{1680}'
    || '\U{2000}' <= c <= '\U{200a}' || c == '\U{2028}' || c == '\U{2029}' || c == '\U{202f}'
    || c == '\U{205f}' || c == '\U{3000}'
  }

  predicate Blank(s: string) {
    forall i :: 0 <= i < |s| ==> IsSpace(s[i])
  }

  predicate EndsWith(s: string, suffix: string) {
    |suffix| <= |s| && s[|s| - |suffix|..] == suffix
  }

  function TrimLeft(s: string): string {
    if s != "" && IsSpace(s[0]) then TrimLeft(s[1..]) else s
  }

  function TrimRight(s: string): string {
    if s != "" && IsSpace(s[|s| - 1]) then TrimRight(s[..|s| - 1]) else s
  }

  function Strip(s: string): string { TrimRight(TrimLeft(s)) }

  lemma {:induction false} TrimLeftMeaning(s: string) returns (k: nat)
    ensures k <= |s| && Blank(s[..k]) && TrimLeft(s) == s[k..]
    ensures k < |s| ==> !IsSpace(s[k])
  {
    k := 0;
    if s != "" && IsSpace(s[0]) {
      k := TrimLeftMeaning(s[1..]);
      assert s[1..][k..] == s[k + 1..];
      assert forall i :: 0 < i < k + 1 ==> s[i] == s[1..][..k][i - 1];
      k := k + 1;
    }
  }

  lemma {:induction false} TrimRightMeaning(s: string) returns (k: nat)
    ensures k <= |s| && Blank(s[k..]) && TrimRight(s) == s[..k]
    ensures k > 0 ==> !IsSpace(s[k - 1])
    decreases |s|
  {
    k := |s|;
    if s != "" && IsSpace(s[|s| - 1]) {
      var n := |s| - 1;
      k := TrimRightMeaning(s[..n]);
      assert s[..n][..k] == s[..k];
      BlankLonger(s, k);
    }
  }

  lemma BlankLonger(s: string, k: nat)
    requires s != "" && k < |s| && Blank(s[..|s| - 1][k..]) && IsSpace(s[|s| - 1])
    ensures Blank(s[k..])
  {
    var t := s[..|s| - 1][k..];
    assert forall i :: 0 <= i < |t| ==> s[k..][i] == t[i];
  }

  /** Stripping removes white space at both ends, and nothing else. */
  lemma StripMeaning(s: string) returns (a: nat, b: nat)
    ensures a <= b <= |s| && Blank(s[..a]) && Blank(s[b..]) && Strip(s) == s[a..b]
    ensures a < b ==> !IsSpace(s[a]) && !IsSpace(s[b - 1])
  {
    a := TrimLeftMeaning(s);
    var k := TrimRightMeaning(s[a..]);
    b := a + k;
    assert s[a..][k..] == s[b..] && s[a..][..k] == s[a..b];
  }
}
