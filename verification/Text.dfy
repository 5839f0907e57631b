/**
 Strings as the Rust standard library treats them: white space, trimming, prefixes, lower
 case, replacement, and splitting into lines.
 */
module Text {
  import opened Wrappers

  /** `char::is_whitespace`. */
  predicate IsSpace(c: char) {
    || '\t' <= c <= '\r' || c == ' ' || c == '\U{85}' || c == '\U{A0}' || c == '\U{1680}'
    || '\U{2000}' <= c <= '\U{200A}' || c == '\U{2028}' || c == '\U{2029}' || c == '\U{202F}'
    || c == '\U{205F}' || c == '\U{3000}'
  }

  /** The first position from i on that holds no white space, or |s|. */
  function Lead(s: string, i: nat): (n: nat)
    requires i <= |s|
    ensures i <= n <= |s| && (n < |s| ==> !IsSpace(s[n]))
    ensures forall j :: i <= j < n ==> IsSpace(s[j])
    decreases |s| - i
  {
    if i == |s| || !IsSpace(s[i]) then i else Lead(s, i + 1)
  }

  /** The end of what is left of s[..i] without trailing white space. */
  function Trail(s: string, i: nat): (n: nat)
    requires i <= |s|
    ensures n <= i && (n > 0 ==> !IsSpace(s[n - 1]))
    ensures forall j :: n <= j < i ==> IsSpace(s[j])
  {
    if i == 0 || !IsSpace(s[i - 1]) then i else Trail(s, i - 1)
  }

  function TrimStart(s: string): string {
    s[Lead(s, 0)..]
  }

  function TrimEnd(s: string): string {
    s[..Trail(s, |s|)]
  }

  function Trim(s: string): string {
    TrimEnd(TrimStart(s))
  }

  predicate StartsWith(s: string, p: string) {
    p <= s
  }

  predicate EndsWith(s: string, p: string) {
    |p| <= |s| && s[|s| - |p|..] == p
  }

  /** Lower case of the ASCII letters. */
  function Lower(s: string): string {
    seq(|s|, i requires 0 <= i < |s| => if 'A' <= s[i] <= 'Z' then s[i] + 32 as char else s[i])
  }

  /** The position of the first c in s, or |s|. */
  function Find(s: string, c: char): (i: nat)
    ensures i <= |s| && (i < |s| ==> s[i] == c)
    ensures forall j :: 0 <= j < i ==> s[j] != c
    ensures c in s <==> i < |s|
  {
    if s == "" || s[0] == c then 0
    else
      assert s == [s[0]] + s[1..];
      Find(s[1..], c) + 1
  }

  /** Trimming stops at the first character that is no white space. */
  lemma TrimStartIs(s: string, n: nat)
    requires n <= |s| && (forall i :: 0 <= i < n ==> IsSpace(s[i])) && (n < |s| ==> !IsSpace(s[n]))
    ensures TrimStart(s) == s[n..]
  {
    hide IsSpace;
    assert Lead(s, 0) == n;
  }

  lemma TrimEndIs(s: string, n: nat)
    requires n <= |s| && (forall i :: n <= i < |s| ==> IsSpace(s[i])) && (n > 0 ==> !IsSpace(s[n - 1]))
    ensures TrimEnd(s) == s[..n]
  {
    hide IsSpace;
    assert Trail(s, |s|) == n;
  }

  /** What trimming takes away and what it leaves. */
  lemma TrimStartFacts(s: string)
    ensures var t := TrimStart(s); var n := |s| - |t|;
            && n >= 0 && t == s[n..] && (t != "" ==> !IsSpace(t[0]))
            && forall i :: 0 <= i < n ==> IsSpace(s[i])
  {
  }

  lemma TrimEndFacts(s: string)
    ensures var t := TrimEnd(s);
            && |t| <= |s| && t == s[..|t|] && (t != "" ==> !IsSpace(t[|t| - 1]))
            && forall i :: |t| <= i < |s| ==> IsSpace(s[i])
  {
  }
}
