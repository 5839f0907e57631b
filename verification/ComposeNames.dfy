/**
 What renaming does to a line: replacing one instance name by another keeps the indentation, the
 first and last character classes, and turns a line that names the source into one that names the
 destination.
 */
module ComposeNames {
  import opened Wrappers
  import opened Text
  import opened Compose
  import opened ComposeEdits
  import opened ComposeClone

  predicate IsIdent(c: char) {
    'a' <= c <= 'z' || 'A' <= c <= 'Z' || '0' <= c <= '9' || c == '_' || c == '-' || c == '.'
  }

  predicate IsName(s: string) {
    s != "" && forall i :: 0 <= i < |s| ==> IsIdent(s[i])
  }

  /** No character of s can be part of a name. */
  predicate Foreign(s: string) {
    forall i :: 0 <= i < |s| ==> !IsIdent(s[i])
  }

  lemma SpacesAreForeign(s: string)
    requires forall i :: 0 <= i < |s| ==> IsSpace(s[i])
    ensures Foreign(s)
  {
  }

  lemma IdentIsNoSpace(c: char)
    requires IsIdent(c)
    ensures !IsSpace(c) && c != ':' && c != '#' && c != '"' && c != '\'' && c != '/' && c != ' '
  {
  }

  // ---------------------------------------------------------------------------------------
  // Replacing
  // ---------------------------------------------------------------------------------------

  /** No occurrence of p starts in the first n characters of s. */
  predicate NoMatch(s: string, n: nat, p: string) {
    forall i :: 0 <= i < n && i <= |s| ==> !StartsWith(s[i..], p)
  }

  lemma NoMatchTail(s: string, n: nat, p: string)
    requires s != "" && NoMatch(s, n + 1, p)
    ensures !StartsWith(s, p) && NoMatch(s[1..], n, p)
  {
    hide StartsWith;
    assert s[0..] == s;
    forall i | 0 <= i < n && i <= |s[1..]|
      ensures !StartsWith(s[1..][i..], p)
    {
      assert s[1..][i..] == s[i + 1..];
    }
  }

  lemma ReplaceStep(s: string, p: string, q: string)
    requires s != "" && p != "" && !StartsWith(s, p)
    ensures Replace(s, p, q) == [s[0]] + Replace(s[1..], p, q)
  {
  }

  /** Text where no occurrence starts is copied. */
  lemma {:induction false} ReplaceSkip(a: string, b: string, p: string, q: string)
    requires p != "" && NoMatch(a + b, |a|, p)
    ensures Replace(a + b, p, q) == a + Replace(b, p, q)
  {
    hide StartsWith, Replace, NoMatch;
    var s := a + b;
    if a == "" {
      assert s == b;
    } else {
      NoMatchTail(s, |a| - 1, p);
      ReplaceStep(s, p, q);
      assert s[1..] == a[1..] + b;
      ReplaceSkip(a[1..], b, p, q);
      assert a == [s[0]] + a[1..];
    }
  }

  lemma ForeignFront(a: string, b: string, p: string, q: string)
    requires IsName(p) && Foreign(a)
    ensures Replace(a + b, p, q) == a + Replace(b, p, q)
  {
    hide Replace, IsIdent;
    forall i | 0 <= i < |a|
      ensures !StartsWith((a + b)[i..], p)
    {
      assert (a + b)[i..][0] == a[i];
      assert !IsIdent(a[i]) && IsIdent(p[0]);
    }
    ReplaceSkip(a, b, p, q);
  }

  /** A name cannot match into text that is foreign to names. */
  lemma MatchInside(s: string, b: string, p: string)
    requires IsName(p) && Foreign(b)
    ensures StartsWith(s + b, p) <==> StartsWith(s, p)
  {
    hide IsIdent;
    var t := s + b;
    assert forall i :: 0 <= i < |b| ==> t[|s| + i] == b[i];
    assert |s| >= |t| || t[|s|] == b[0];
    if StartsWith(t, p) {
      assert p == t[..|p|];
      assert |p| <= |s|;
      assert t[..|p|] == s[..|p|];
    }
  }

  lemma {:induction false} ForeignTail(s: string, b: string, p: string, q: string)
    requires IsName(p) && Foreign(b)
    ensures Replace(s + b, p, q) == Replace(s, p, q) + b
    decreases |s|
  {
    hide IsIdent, IsName, Foreign, StartsWith;
    var t := s + b;
    MatchInside(s, b, p);
    NameNotEmpty(p);
    if s == "" {
      ForeignFront(b, "", p, q);
      assert b + "" == b && t == b;
    } else if StartsWith(t, p) {
      assert t[|p|..] == s[|p|..] + b by { MatchLength(s, p); }
      ForeignTail(s[|p|..], b, p, q);
    } else {
      assert t[1..] == s[1..] + b;
      ForeignTail(s[1..], b, p, q);
    }
  }

  lemma NameNotEmpty(p: string)
    requires IsName(p)
    ensures p != "" && IsIdent(p[0])
  {
  }

  lemma MatchLength(s: string, p: string)
    requires StartsWith(s, p)
    ensures |p| <= |s|
  {
  }

  /** The ends of a text after replacing names. */
  lemma {:induction false} ReplaceEnds(s: string, p: string, q: string)
    requires s != "" && IsName(p) && IsName(q)
    ensures var r := Replace(s, p, q);
            && r != ""
            && (r[0] == s[0] || (r[0] == q[0] && s[0] == p[0]))
            && (r[|r| - 1] == s[|s| - 1] || (IsIdent(r[|r| - 1]) && IsIdent(s[|s| - 1])))
    decreases |s|
  {
    hide IsIdent;
    if StartsWith(s, p) {
      var rest := s[|p|..];
      assert s == p + rest;
      if rest != "" {
        ReplaceEnds(rest, p, q);
      }
    } else if |s| > 1 {
      ReplaceEnds(s[1..], p, q);
    }
  }

  lemma TrimStartReplace(l: string, p: string, q: string)
    requires IsName(p) && IsName(q)
    ensures TrimStart(Replace(l, p, q)) == Replace(TrimStart(l), p, q) && Indent(Replace(l, p, q)) == Indent(l)
    ensures Replace(l, p, q)[..Indent(l)] == l[..Indent(l)]
  {
    hide IsSpace, IsIdent, Replace;
    var n := Indent(l);
    var u := l[n..];
    assert l == l[..n] + u;
    SpacesAreForeign(l[..n]);
    ForeignFront(l[..n], u, p, q);
    var r := Replace(l, p, q);
    var v := Replace(u, p, q);
    assert r == l[..n] + v;
    assert forall i :: 0 <= i < n ==> r[i] == l[i];
    if u != "" {
      ReplaceEnds(u, p, q);
      IdentIsNoSpace(q[0]);
      assert r[n] == v[0];
      assert !IsSpace(u[0]);
    } else {
      EmptyReplace(p, q);
    }
    TrimStartIs(r, n);
    assert r[n..] == v;
  }

  lemma EmptyReplace(p: string, q: string)
    requires p != ""
    ensures Replace("", p, q) == ""
  {
  }

  lemma TrimEndReplace(l: string, p: string, q: string)
    requires IsName(p) && IsName(q)
    ensures TrimEnd(Replace(l, p, q)) == Replace(TrimEnd(l), p, q)
  {
    hide IsSpace, IsIdent, Replace, TrimEnd, IsName;
    TrimEndFacts(l);
    var u := TrimEnd(l);
    var b := l[|u|..];
    assert l == u + b;
    SpacesAreForeign(b);
    ForeignTail(u, b, p, q);
    var v := Replace(u, p, q);
    if u != "" {
      ReplaceEnds(u, p, q);
      LastIsNoSpace(v[|v| - 1], u[|u| - 1]);
    } else {
      NameNotEmpty(p);
      EmptyReplace(p, q);
    }
    assert forall i :: |v| <= i < |v + b| ==> (v + b)[i] == b[i - |v|];
    TrimEndIs(v + b, |v|);
  }

  lemma LastIsNoSpace(c: char, d: char)
    requires (c == d || IsIdent(c)) && !IsSpace(d)
    ensures !IsSpace(c)
  {
  }

  lemma EndsReplace(l: string, p: string, q: string)
    requires IsName(p) && IsName(q)
    ensures EndsWithColon(Replace(l, p, q)) == EndsWithColon(l)
  {
    hide IsSpace, IsIdent, Replace, TrimEnd, IsName;
    TrimEndReplace(l, p, q);
    var u := TrimEnd(l);
    var v := Replace(u, p, q);
    NameNotEmpty(p);
    EmptyReplace(p, q);
    if u != "" {
      ReplaceEnds(u, p, q);
      if IsIdent(v[|v| - 1]) && IsIdent(u[|u| - 1]) {
        IdentIsNoSpace(v[|v| - 1]);
        IdentIsNoSpace(u[|u| - 1]);
      }
    }
  }

  /** Renaming makes no line a header or a section, if the old name does not start with a dash. */
  lemma RenamedShape(l: string, p: string, q: string)
    requires IsName(p) && IsName(q) && p[0] != '-'
    ensures var r := Replace(l, p, q);
            && (IsHeader(r) ==> IsHeader(l)) && (IsServiceHeader(r) ==> IsServiceHeader(l))
            && (IsTopLevel(r) ==> IsTopLevel(l))
  {
    hide IsSpace, IsIdent, Replace, EndsWithColon;
    var r := Replace(l, p, q);
    TrimStartReplace(l, p, q);
    EndsReplace(l, p, q);
    var n := Indent(l);
    var u := TrimStart(l);
    SpacesAreSpace();
    TrimStartFacts(l);
    TrimStartFacts(r);
    assert |l| - |u| == n && |r| - |TrimStart(r)| == n;
    assert forall i :: 0 <= i < n ==> r[i] == r[..n][i] == l[..n][i] == l[i];
    if u != "" {
      ReplaceEnds(u, p, q);
      IdentIsNoSpace(q[0]);
      IdentIsNoSpace(p[0]);
      assert l[n] == u[0] && r[n] == TrimStart(r)[0];
    } else {
      EmptyReplace(p, q);
      assert r == l[..n] && l == l[..n];
    }
  }

  // ---------------------------------------------------------------------------------------
  // Name lines
  // ---------------------------------------------------------------------------------------

  predicate All(s: string, c: char) {
    forall i :: 0 <= i < |s| ==> s[i] == c
  }

  predicate AllSpace(s: string) {
    forall i :: 0 <= i < |s| ==> IsSpace(s[i])
  }

  function Keys(k: nat): string {
    if k == 0 then "" else NAME_KEY + Keys(k - 1)
  }

  /** The parts of a name line around the name. */
  datatype Parts = Parts(indent: string, keys: nat, gap: string, dq: string, sq: string, sq': string, dq': string,
    rest: string)

  predicate GoodParts(p: Parts) {
    && AllSpace(p.indent) && p.keys > 0 && AllSpace(p.gap) && AllSpace(p.rest)
    && All(p.dq, '"') && All(p.sq, '\'') && All(p.sq', '\'') && All(p.dq', '"')
  }

  function Quoted(p: Parts, name: string): string {
    p.dq + (p.sq + name + p.sq') + p.dq'
  }

  function LineOfParts(p: Parts, name: string): string {
    p.indent + (Keys(p.keys) + (p.gap + Quoted(p, name))) + p.rest
  }

  lemma TrimParts(s: string) returns (a: string, b: string)
    ensures s == a + Trim(s) + b && AllSpace(a) && AllSpace(b)
  {
    hide IsSpace;
    TrimStartFacts(s);
    var t := TrimStart(s);
    TrimEndFacts(t);
    a := s[..|s| - |t|];
    b := t[|Trim(s)|..];
  }

  lemma {:induction false} DropLeftParts(s: string, c: char) returns (a: string)
    ensures s == a + DropLeft(s, c) && All(a, c)
  {
    if s != "" && s[0] == c {
      a := DropLeftParts(s[1..], c);
      a := [c] + a;
    } else {
      a := "";
    }
  }

  lemma {:induction false} DropRightParts(s: string, c: char) returns (b: string)
    ensures s == DropRight(s, c) + b && All(b, c)
  {
    if s != "" && s[|s| - 1] == c {
      b := DropRightParts(s[..|s| - 1], c);
      b := b + [c];
    } else {
      b := "";
    }
  }

  lemma UnquoteParts(s: string, c: char) returns (a: string, b: string)
    ensures s == a + Unquote(s, c) + b && All(a, c) && All(b, c)
  {
    hide DropLeft, DropRight;
    a := DropLeftParts(s, c);
    b := DropRightParts(DropLeft(s, c), c);
  }

  lemma {:induction false} StripParts(s: string) returns (k: nat)
    ensures s == Keys(k) + StripKey(s) && (StartsWith(s, NAME_KEY) ==> k > 0)
  {
    if StartsWith(s, NAME_KEY) {
      var m := StripParts(s[|NAME_KEY|..]);
      k := m + 1;
      assert s == NAME_KEY + s[|NAME_KEY|..];
    } else {
      k := 0;
    }
  }

  /** A line that names an instance has these parts. */
  lemma NamePartsOf(l: string, name: string) returns (p: Parts)
    requires NameOf(l) == Some(name)
    ensures GoodParts(p) && l == LineOfParts(p, name)
  {
    hide IsSpace, Trim, StripKey, Unquote, Keys, All, AllSpace;
    var a, b := TrimParts(l);
    var t := Trim(l);
    var k := StripParts(t);
    var s := StripKey(t);
    var g, g' := TrimParts(s);
    var v := Trim(s);
    var dq, dq' := UnquoteParts(v, '"');
    var w := Unquote(v, '"');
    var sq, sq' := UnquoteParts(w, '\'');
    p := Parts(a, k, g, dq, sq, sq', dq', g' + b);
    assert v == Quoted(p, name);
    assert s == g + v + g';
    assert l == a + (Keys(k) + (g + v + g')) + b;
    assert l == a + (Keys(k) + (g + v)) + (g' + b);
    AllSpaceAppend(g', b);
  }

  lemma AllSpaceAppend(a: string, b: string)
    requires AllSpace(a) && AllSpace(b)
    ensures AllSpace(a + b)
  {
  }

  lemma {:induction false} StripKeys(k: nat, s: string)
    ensures StripKey(Keys(k) + s) == StripKey(s)
  {
    if k > 0 {
      assert Keys(k) + s == NAME_KEY + (Keys(k - 1) + s);
      StripKeys(k - 1, s);
    } else {
      assert Keys(k) + s == s;
    }
  }

  /** The value of a name line does not start with the key again. */
  lemma NoKeyInValue(p: Parts, name: string)
    requires GoodParts(p) && IsName(name)
    ensures !StartsWith(p.gap + Quoted(p, name), NAME_KEY)
  {
    hide IsSpace;
    var v := p.gap + Quoted(p, name);
    var front := p.gap + p.dq + p.sq;
    assert v == front + name + (p.sq' + p.dq');
    assert !IsSpace('n') by { QuotesAreNoSpace(); }
    assert NAME_KEY[0] == 'n' && NAME_KEY[8] == ':';
    if front != "" {
      assert v[0] == front[0];
    } else {
      assert forall i :: 0 <= i < |name| ==> v[i] == name[i];
      assert forall i :: |name| <= i < |v| ==> v[i] == (p.sq' + p.dq')[i - |name|];
      assert ':' !in v;
    }
  }

  lemma {:induction false} DropLeftIs(a: string, s: string, c: char)
    requires All(a, c) && (s == "" || s[0] != c)
    ensures DropLeft(a + s, c) == s
  {
    if a == "" {
      assert a + s == s;
    } else {
      assert (a + s)[1..] == a[1..] + s;
      DropLeftIs(a[1..], s, c);
    }
  }

  lemma {:induction false} DropRightIs(s: string, b: string, c: char)
    requires All(b, c) && (s == "" || s[|s| - 1] != c)
    ensures DropRight(s + b, c) == s
  {
    if b == "" {
      assert s + b == s;
    } else {
      var t := s + b;
      assert t[..|t| - 1] == s + b[..|b| - 1];
      DropRightIs(s, b[..|b| - 1], c);
    }
  }

  lemma UnquoteIs(a: string, s: string, b: string, c: char)
    requires All(a, c) && All(b, c) && s != "" && s[0] != c && s[|s| - 1] != c
    ensures Unquote(a + s + b, c) == s
  {
    hide DropLeft, DropRight, All;
    assert a + s + b == a + (s + b);
    DropLeftIs(a, s + b, c);
    DropRightIs(s, b, c);
  }

  lemma TrimIs(a: string, s: string, b: string)
    requires AllSpace(a) && AllSpace(b) && s != "" && !IsSpace(s[0]) && !IsSpace(s[|s| - 1])
    ensures Trim(a + s + b) == s
  {
    hide IsSpace, TrimStart, TrimEnd;
    var t := a + s + b;
    assert forall i :: 0 <= i < |a| ==> t[i] == a[i];
    assert t[|a|] == s[0];
    TrimStartIs(t, |a|);
    assert t[|a|..] == s + b;
    assert forall i :: |s| <= i < |s + b| ==> (s + b)[i] == b[i - |s|];
    TrimEndIs(s + b, |s|);
  }

  /** The quoted name is neither blank at its ends nor does unquoting take more than the quotes. */
  lemma QuotedIs(p: Parts, name: string)
    requires GoodParts(p) && IsName(name)
    ensures var v := Quoted(p, name);
            && v != "" && !IsSpace(v[0]) && !IsSpace(v[|v| - 1]) && v[|v| - 1] != ':'
            && Unquote(Unquote(v, '"'), '\'') == name
  {
    hide IsSpace, IsIdent, Unquote;
    IdentIsNoSpace(name[0]);
    IdentIsNoSpace(name[|name| - 1]);
    assert !IsSpace('"') && !IsSpace('\'') by { QuotesAreNoSpace(); }
    var u := p.sq + name + p.sq';
    UnquoteIs(p.sq, name, p.sq', '\'');
    assert u[0] == if p.sq == "" then name[0] else p.sq[0];
    assert u[|u| - 1] == if p.sq' == "" then name[|name| - 1] else p.sq'[|p.sq'| - 1];
    UnquoteIs(p.dq, u, p.dq', '"');
    var v := Quoted(p, name);
    assert v[0] == if p.dq == "" then u[0] else p.dq[0];
    assert v[|v| - 1] == if p.dq' == "" then u[|u| - 1] else p.dq'[|p.dq'| - 1];
  }

  lemma QuotesAreNoSpace()
    ensures !IsSpace('"') && !IsSpace('\'') && !IsSpace('n')
  {
  }

  lemma KeysStart(k: nat, s: string)
    requires k > 0
    ensures StartsWith(Keys(k) + s, NAME_KEY)
  {
    assert Keys(k) + s == NAME_KEY + (Keys(k - 1) + s);
  }

  /** A line with the parts of a name line names the instance, and ends in no colon. */
  lemma PartsNameIt(p: Parts, name: string)
    requires GoodParts(p) && IsName(name)
    ensures NameOf(LineOfParts(p, name)) == Some(name) && !EndsWithColon(LineOfParts(p, name))
  {
    hide IsSpace, IsIdent, Trim, StripKey, Unquote, Keys, Quoted, TrimEnd;
    QuotesAreNoSpace();
    QuotedIs(p, name);
    NoKeyInValue(p, name);
    var v := Quoted(p, name);
    var r := p.gap + v;
    var t := Keys(p.keys) + r;
    KeysStart(p.keys, r);
    assert t[0] == NAME_KEY[0];
    assert t[|t| - 1] == v[|v| - 1];
    TrimIs(p.indent, t, p.rest);
    StripKeys(p.keys, r);
    assert StripKey(r) == r by { NoStrip(r); }
    assert r == p.gap + v + "";
    TrimIs(p.gap, v, "");
    var l := LineOfParts(p, name);
    var n := |p.indent| + |t|;
    assert l[n - 1] == t[|t| - 1];
    assert forall i :: n <= i < |l| ==> l[i] == p.rest[i - n];
    TrimEndIs(l, n);
  }

  lemma NoStrip(s: string)
    requires !StartsWith(s, NAME_KEY)
    ensures StripKey(s) == s
  {
  }

  // ---------------------------------------------------------------------------------------
  // Renaming a name line
  // ---------------------------------------------------------------------------------------

  /** The name is no part of the key itself. */
  predicate OutsideKey(name: string) {
    !Contains("nkr_name", name)
  }

  /** A match that starts in the key lies within its letters. */
  lemma MatchInKey(s: string, name: string, i: nat)
    requires IsName(name) && i < |NAME_KEY|
    ensures StartsWith((NAME_KEY + s)[i..], name) ==> Contains("nkr_name", name)
  {
    hide IsIdent;
    var t := NAME_KEY + s;
    ColonIsForeign();
    if StartsWith(t[i..], name) {
      assert forall m :: i <= m < i + |name| ==> t[m] == t[i..][m - i] == name[m - i];
      assert t[8] == ':';
      assert i + |name| <= 8;
      assert "nkr_name"[i..][..|name|] == name;
    }
  }

  lemma KeyHasNoMatch(s: string, name: string)
    requires IsName(name) && OutsideKey(name)
    ensures NoMatch(NAME_KEY + s, |NAME_KEY|, name)
  {
    hide IsIdent, StartsWith, Contains;
    forall i | 0 <= i < |NAME_KEY|
      ensures !StartsWith((NAME_KEY + s)[i..], name)
    {
      MatchInKey(s, name, i);
    }
  }

  lemma ColonIsForeign()
    ensures !IsIdent(':') && !IsIdent('"') && !IsIdent('\'')
  {
  }

  lemma {:induction false} ReplaceKeys(k: nat, s: string, name: string, q: string)
    requires IsName(name) && OutsideKey(name)
    ensures Replace(Keys(k) + s, name, q) == Keys(k) + Replace(s, name, q)
  {
    hide Replace, IsName, OutsideKey, NoMatch;
    if k == 0 {
      assert Keys(k) + s == s;
    } else {
      var t := Keys(k - 1) + s;
      assert Keys(k) + s == NAME_KEY + t;
      KeyHasNoMatch(t, name);
      NameNotEmpty(name);
      ReplaceSkip(NAME_KEY, t, name, q);
      ReplaceKeys(k - 1, s, name, q);
    }
  }

  lemma ReplaceItself(p: string, b: string, q: string)
    requires IsName(p) && Foreign(b)
    ensures Replace(p + b, p, q) == q + b
  {
    hide IsIdent;
    assert (p + b)[|p|..] == b;
    ForeignFront(b, "", p, q);
    assert b + "" == b;
    assert Replace(p + b, p, q) == q + Replace(b, p, q);
    EmptyReplace(p, q);
  }

  lemma ForeignParts(p: Parts)
    requires GoodParts(p)
    ensures Foreign(p.indent) && Foreign(p.gap + p.dq + p.sq) && Foreign(p.sq' + p.dq' + p.rest)
  {
    hide IsIdent, IsSpace;
    ColonIsForeign();
    SpacesAreForeign(p.indent);
    SpacesAreForeign(p.gap);
    SpacesAreForeign(p.rest);
  }

  /** Renaming a name line gives the line of the new name. */
  lemma RenameName(p: Parts, src: string, dst: string)
    requires GoodParts(p) && IsName(src) && OutsideKey(src)
    ensures Replace(LineOfParts(p, src), src, dst) == LineOfParts(p, dst)
  {
    hide IsName, Foreign, Replace, Keys, OutsideKey;
    ForeignParts(p);
    var a, b := p.gap + p.dq + p.sq, p.sq' + p.dq' + p.rest;
    assert LineOfParts(p, src) == p.indent + (Keys(p.keys) + (a + (src + b)));
    ForeignFront(p.indent, Keys(p.keys) + (a + (src + b)), src, dst);
    ReplaceKeys(p.keys, a + (src + b), src, dst);
    ForeignFront(a, src + b, src, dst);
    ReplaceItself(src, b, dst);
    assert LineOfParts(p, dst) == p.indent + (Keys(p.keys) + (a + (dst + b)));
  }

  /** The line that names the source becomes the line that names the destination. */
  lemma RenamedName(l: string, src: string, dst: string)
    requires NameOf(l) == Some(src) && IsName(src) && IsName(dst) && OutsideKey(src)
    ensures NameOf(Replace(l, src, dst)) == Some(dst)
    ensures !EndsWithColon(l)
  {
    hide NameOf, EndsWithColon, LineOfParts, GoodParts, IsName, OutsideKey, Replace;
    var p := NamePartsOf(l, src);
    PartsNameIt(p, src);
    PartsNameIt(p, dst);
    RenameName(p, src, dst);
  }
}
