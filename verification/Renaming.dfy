/**
 What replacing one instance name by another does to a text: the pieces between the occurrences stay,
 lines stay lines, and a configuration file reads as before with its values renamed.
 */
module Renaming {
  import opened Wrappers
  import opened Text
  import opened ComposeClone
  import opened ComposeNames
  import L = Lines
  import Conf
  import CR = ConfRoundTrip
  import CT = ConfText

  // ---------------------------------------------------------------------------------------
  // Pieces
  // ---------------------------------------------------------------------------------------

  /** Pieces with a text between them. */
  function Glued(ps: seq<string>, sep: string): string {
    if ps == [] then "" else if |ps| == 1 then ps[0] else ps[0] + sep + Glued(ps[1..], sep)
  }

  lemma GluedFirst(a: string, ps: seq<string>, sep: string)
    requires ps != []
    ensures Glued([a + ps[0]] + ps[1..], sep) == a + Glued(ps, sep)
    ensures Glued([a] + ps, sep) == a + sep + Glued(ps, sep)
  {
    var bs := [a + ps[0]] + ps[1..];
    assert bs[1..] == ps[1..];
    if |ps| > 1 {
      assert a + ps[0] + sep + Glued(ps[1..], sep) == a + (ps[0] + sep + Glued(ps[1..], sep));
    }
    assert ([a] + ps)[1..] == ps;
  }

  /** A text falls into pieces between occurrences of p; replacing puts q between them instead. */
  lemma {:induction false} RenamedPieces(s: string, p: string, q: string) returns (ps: seq<string>)
    requires p != ""
    ensures ps != [] && s == Glued(ps, p) && Replace(s, p, q) == Glued(ps, q)
    ensures forall i :: 0 <= i < |ps| ==> !Contains(ps[i], p)
    ensures StartsWith(s, ps[0])
    decreases |s|
  {
    hide Contains, Glued, Replace;
    if s == "" {
      ps := [""];
      GluedOne("");
      EmptyReplace(p, q);
      assert !Contains("", p) by { NothingContained(p); }
    } else if StartsWith(s, p) {
      var rest := RenamedPieces(s[|p|..], p, q);
      ps := [""] + rest;
      PieceHere(s, rest, p, q);
      assert !Contains("", p) by { NothingContained(p); }
    } else {
      var rest := RenamedPieces(s[1..], p, q);
      ps := [[s[0]] + rest[0]] + rest[1..];
      PieceGrows(s, rest, p, q);
    }
  }

  lemma PieceHere(s: string, rest: seq<string>, p: string, q: string)
    requires p != "" && StartsWith(s, p) && rest != []
    requires s[|p|..] == Glued(rest, p) && Replace(s[|p|..], p, q) == Glued(rest, q)
    ensures s == Glued([""] + rest, p) && Replace(s, p, q) == Glued([""] + rest, q)
  {
    hide Glued, Replace, StartsWith;
    assert |p| <= |s| && s == p + s[|p|..] by { CutPrefix(s, p); }
    ReplaceHere(s, p, q);
    GluedFirst("", rest, p);
    GluedFirst("", rest, q);
    EmptyFront(p, s[|p|..]);
    EmptyFront(q, Glued(rest, q));
  }

  lemma CutPrefix(s: string, p: string)
    requires StartsWith(s, p)
    ensures |p| <= |s| && s == p + s[|p|..]
  {
  }

  lemma EmptyFront(a: string, b: string)
    ensures "" + a + b == a + b
  {
  }

  lemma PieceGrows(s: string, rest: seq<string>, p: string, q: string)
    requires s != "" && p != "" && !StartsWith(s, p) && rest != [] && StartsWith(s[1..], rest[0])
             && !Contains(rest[0], p)
    requires s[1..] == Glued(rest, p) && Replace(s[1..], p, q) == Glued(rest, q)
    ensures var ps := [[s[0]] + rest[0]] + rest[1..];
            s == Glued(ps, p) && Replace(s, p, q) == Glued(ps, q) && StartsWith(s, ps[0]) && !Contains(ps[0], p)
  {
    hide Glued, Contains;
    var first := [s[0]] + rest[0];
    GluedFirst([s[0]], rest, p);
    GluedFirst([s[0]], rest, q);
    assert s == [s[0]] + s[1..];
    assert StartsWith(s, first) by {
      assert s[..|first|] == [s[0]] + s[1..][..|rest[0]|];
    }
    NotAtFront(s, first, rest[0], p);
  }

  lemma GluedOne(a: string)
    ensures forall sep :: Glued([a], sep) == a
  {
  }

  lemma NothingContained(p: string)
    requires p != ""
    ensures !Contains("", p)
  {
  }

  lemma NotAtFront(s: string, a: string, b: string, p: string)
    requires a != "" && a[1..] == b && StartsWith(s, a) && !StartsWith(s, p) && !Contains(b, p)
    ensures !Contains(a, p)
  {
    forall i | 0 <= i <= |a|
      ensures !StartsWith(a[i..], p)
    {
      if i == 0 {
        assert a[0..] == a;
        assert |p| <= |a| ==> s[..|p|] == a[..|p|];
      } else {
        assert a[i..] == b[i - 1..];
      }
    }
  }

  // ---------------------------------------------------------------------------------------
  // When the old name is gone
  // ---------------------------------------------------------------------------------------

  /** q cannot bring back p: neither is part of the other, and none ends as the other begins. */
  ghost predicate Unmixed(p: string, q: string) {
    && !Contains(p, q) && !Contains(q, p)
    && (forall k :: 0 < k < |p| ==> !StartsWith(q, p[k..]))
    && (forall k :: 0 < k < |q| ==> !StartsWith(p, q[k..]))
  }

  lemma NotContainedAt(s: string, p: string, i: nat)
    requires i + |p| <= |s| && !Contains(s, p)
    ensures s[i..i + |p|] != p
  {
    assert !StartsWith(s[i..], p);
    assert s[i..][..|p|] == s[i..i + |p|];
  }

  /** p does not stand anywhere in a + q + r before r. */
  lemma NotInFront(a: string, q: string, r: string, p: string, i: nat)
    requires p != "" && q != "" && Unmixed(p, q) && !Contains(a, p)
    requires i < |a| + |q| && i + |p| <= |a + q + r|
    ensures (a + q + r)[i..i + |p|] != p
  {
    hide Contains;
    var s := a + q + r;
    var x := s[i..i + |p|];
    if i + |p| <= |a| {
      assert x == a[i..i + |p|];
      NotContainedAt(a, p, i);
    } else if i < |a| {
      var k := |a| - i;
      assert x[k..] == s[|a|..i + |p|];
      if i + |p| <= |a| + |q| {
        assert x[k..] == q[..|p| - k];
        assert !StartsWith(q, p[k..]);
      } else {
        assert x[k..k + |q|] == s[|a|..|a| + |q|] == q;
        NotContainedAt(p, q, k);
      }
    } else {
      var o := i - |a|;
      if i + |p| <= |a| + |q| {
        assert x == q[o..o + |p|];
        NotContainedAt(q, p, o);
      } else {
        assert x[..|q| - o] == s[i..|a| + |q|] == q[o..];
        if o == 0 {
          NotContainedAt(p, q, 0);
        } else {
          assert !StartsWith(p, q[o..]);
        }
      }
    }
  }

  lemma {:induction false} GluedHolds(ps: seq<string>, p: string, q: string)
    requires p != "" && q != "" && Unmixed(p, q) && ps != [] && forall i :: 0 <= i < |ps| ==> !Contains(ps[i], p)
    ensures !Contains(Glued(ps, q), p)
    decreases |ps|
  {
    hide Unmixed;
    if |ps| > 1 {
      var rest := Glued(ps[1..], q);
      GluedHolds(ps[1..], p, q);
      var s := Glued(ps, q);
      assert s == ps[0] + q + rest;
      forall i | 0 <= i <= |s|
        ensures !StartsWith(s[i..], p)
      {
        var n := |ps[0]| + |q|;
        if i >= n {
          assert rest[i - n..] == s[i..];
        } else if i + |p| <= |s| {
          NotInFront(ps[0], q, rest, p, i);
          assert s[i..][..|p|] == s[i..i + |p|];
        }
      }
    }
  }

  /** After a renaming the old name is nowhere in the text, if the new one cannot bring it back. */
  lemma OldNameIsGone(s: string, p: string, q: string)
    requires p != "" && q != "" && Unmixed(p, q)
    ensures !Contains(Replace(s, p, q), p)
  {
    hide Unmixed, Contains, Replace;
    var ps := RenamedPieces(s, p, q);
    GluedHolds(ps, p, q);
  }

  // ---------------------------------------------------------------------------------------
  // Around characters that no name holds
  // ---------------------------------------------------------------------------------------

  lemma MatchBefore(a: string, f: string, b: string, p: string)
    requires IsName(p) && Foreign(f) && f != ""
    ensures StartsWith(a + f + b, p) <==> StartsWith(a, p)
  {
    hide IsIdent;
    var t := a + f + b;
    assert t[|a|] == f[0] && !IsIdent(f[0]);
    if StartsWith(t, p) {
      assert p == t[..|p|];
      assert |p| <= |a|;
      assert t[..|p|] == a[..|p|];
    }
    if StartsWith(a, p) {
      assert t[..|p|] == a[..|p|];
    }
  }

  lemma ReplaceHere(s: string, p: string, q: string)
    requires p != "" && StartsWith(s, p)
    ensures |p| <= |s| && Replace(s, p, q) == q + Replace(s[|p|..], p, q)
  {
  }

  lemma {:induction false} ForeignMiddle(a: string, f: string, b: string, p: string, q: string)
    requires IsName(p) && Foreign(f) && f != ""
    ensures Replace(a + f + b, p, q) == Replace(a, p, q) + f + Replace(b, p, q)
    decreases |a|
  {
    hide IsName, Foreign, StartsWith, Replace;
    var t := a + f + b;
    MatchBefore(a, f, b, p);
    NameNotEmpty(p);
    if a == "" {
      assert t == f + b;
      ForeignFront(f, b, p, q);
      EmptyReplace(p, q);
    } else if StartsWith(t, p) {
      MatchLength(a, p);
      var c := a[|p|..];
      assert t[|p|..] == c + f + b;
      ForeignMiddle(c, f, b, p, q);
      ReplaceHere(t, p, q);
      ReplaceHere(a, p, q);
      assert q + (Replace(c, p, q) + f + Replace(b, p, q)) == (q + Replace(c, p, q)) + f + Replace(b, p, q);
    } else {
      var c := a[1..];
      assert t[1..] == c + f + b;
      ForeignMiddle(c, f, b, p, q);
      ReplaceStep(t, p, q);
      ReplaceStep(a, p, q);
      assert [a[0]] + (Replace(c, p, q) + f + Replace(b, p, q)) == ([a[0]] + Replace(c, p, q)) + f + Replace(b, p, q);
    }
  }

  lemma {:induction false} ForeignCharStays(s: string, p: string, q: string, c: char)
    requires IsName(p) && IsName(q) && !IsIdent(c)
    ensures c in Replace(s, p, q) <==> c in s
    decreases |s|
  {
    hide IsIdent;
    assert c !in p && c !in q;
    if s == "" {
    } else if StartsWith(s, p) {
      ForeignCharStays(s[|p|..], p, q, c);
      assert s == p + s[|p|..];
    } else {
      ForeignCharStays(s[1..], p, q, c);
      assert s == [s[0]] + s[1..];
    }
  }

  // ---------------------------------------------------------------------------------------
  // Words without a dash
  // ---------------------------------------------------------------------------------------

  /** Instance names hold a dash: the program puts the name of the cell and a dash in front. */
  predicate Dashed(p: string) {
    IsName(p) && '-' in p
  }

  lemma {:induction false} DashStays(s: string, p: string, q: string)
    requires Dashed(p) && Dashed(q)
    ensures '-' in Replace(s, p, q) <==> '-' in s
    ensures '-' !in s ==> Replace(s, p, q) == s
    decreases |s|
  {
    hide IsIdent;
    if s == "" {
    } else if StartsWith(s, p) {
      var i :| 0 <= i < |p| && p[i] == '-';
      assert s[i] == '-';
    } else {
      DashStays(s[1..], p, q);
      assert s == [s[0]] + s[1..];
    }
  }

  /** A word without a dash comes only from itself. */
  lemma WordStays(s: string, k: string, p: string, q: string)
    requires Dashed(p) && Dashed(q) && '-' !in k
    ensures Replace(s, p, q) == k <==> s == k
  {
    DashStays(s, p, q);
  }

  // ---------------------------------------------------------------------------------------
  // Lines
  // ---------------------------------------------------------------------------------------

  function RenamedLines(ls: seq<string>, p: string, q: string): seq<string> {
    seq(|ls|, i requires 0 <= i < |ls| => Replace(ls[i], p, q))
  }

  lemma EndsForeign()
    ensures !IsIdent('\n') && !IsIdent('\r') && Foreign("\n") && Foreign("\r") && Foreign("=")
    ensures !IsIdent('=') && !IsIdent('[') && !IsIdent(']') && !IsIdent('#') && !IsIdent(';')
  {
  }

  lemma ChompRenamed(l: string, p: string, q: string)
    requires IsName(p) && IsName(q)
    ensures L.Chomp(Replace(l, p, q), '\r') == Replace(L.Chomp(l, '\r'), p, q)
  {
    hide Replace, IsIdent;
    EndsForeign();
    NameNotEmpty(p);
    EmptyReplace(p, q);
    if l != "" {
      ReplaceEnds(l, p, q);
      if l[|l| - 1] == '\r' {
        assert l == l[..|l| - 1] + "\r";
        ForeignTail(l[..|l| - 1], "\r", p, q);
      }
    }
  }

  lemma FirstLine(a: string, b: string)
    requires '\n' !in a
    ensures CT.LinesOf(a + "\n" + b) == [L.Chomp(a, '\r')] + CT.LinesOf(b)
  {
    var t := a + "\n" + b;
    assert t[|a|] == '\n' && t[..|a|] == a && t[|a| + 1..] == b;
    assert forall k :: 0 <= k < |a| ==> t[k] == a[k];
    L.IndexFound(t, |a|, '\n');
  }

  lemma OnlyLine(a: string)
    requires '\n' !in a
    ensures CT.LinesOf(a) == if a == "" then [] else [a]
  {
    assert L.IndexOf(a, '\n') == |a|;
  }

  lemma {:induction false} LinesRenamed(text: string, p: string, q: string)
    requires IsName(p) && IsName(q)
    ensures CT.LinesOf(Replace(text, p, q)) == RenamedLines(CT.LinesOf(text), p, q)
    decreases |text|
  {
    hide Replace, IsName, CT.LinesOf, Foreign;
    EndsForeign();
    ForeignCharStays(text, p, q, '\n');
    if '\n' !in text {
      TrimRenamed(text, p, q);
      OnlyLine(text);
      OnlyLine(Replace(text, p, q));
    } else {
      var i := Find(text, '\n');
      FindIs(text, '\n');
      var a, b := text[..i], text[i + 1..];
      assert text == a + "\n" + b;
      ForeignMiddle(a, "\n", b, p, q);
      ForeignCharStays(a, p, q, '\n');
      FirstLine(a, b);
      FirstLine(Replace(a, p, q), Replace(b, p, q));
      ChompRenamed(a, p, q);
      LinesRenamed(b, p, q);
      assert RenamedLines([L.Chomp(a, '\r')] + CT.LinesOf(b), p, q) ==
             [Replace(L.Chomp(a, '\r'), p, q)] + RenamedLines(CT.LinesOf(b), p, q);
    }
  }

  // ---------------------------------------------------------------------------------------
  // Reading a configuration
  // ---------------------------------------------------------------------------------------

  function RenamedValue(v: Option<string>, p: string, q: string): Option<string> {
    match v case None => None case Some(s) => Some(Replace(s, p, q))
  }

  /** A line assigns to what stands before its first '='. */
  lemma AssignsIff(t: string, key: string)
    requires CR.GoodKey(key)
    ensures var i := Find(t, '=');
            && (CR.Assigns(t, key) <==> i < |t| && TrimEnd(t[..i]) == key)
            && (CR.Assigns(t, key) ==> TrimStart(t[|key|..]) == t[i..])
  {
    hide TrimStart, TrimEnd, Find, CR.GoodKey;
    var i := Find(t, '=');
    if CR.Assigns(t, key) {
      CR.AssignsKey(t, key);
      FirstEquals(t, key);
      TrimStartFacts(t[|key|..]);
      assert i < |t| by { HasRest(t, key); }
    }
    if i < |t| && TrimEnd(t[..i]) == key {
      KeyAssigns(t, key);
    }
  }

  lemma HasRest(t: string, key: string)
    requires CR.Assigns(t, key)
    ensures |t| - |TrimStart(t[|key|..])| < |t|
  {
  }

  lemma ValueIfAssigned(t: string, key: string)
    ensures Conf.ValueOf(t, key) ==
            if CR.Assigns(t, key)
              && Trim(TrimStart(t[|key|..])[1..]) != "" then Some(Trim(TrimStart(t[|key|..])[1..])) else None
  {
    hide TrimStart, Trim;
  }

  /** Where a line gives a value to a key. */
  lemma ValueAt(t: string, key: string)
    requires CR.GoodKey(key)
    ensures var i := Find(t, '=');
            Conf.ValueOf(t, key) ==
              if i < |t| && TrimEnd(t[..i]) == key && Trim(t[i + 1..]) != "" then Some(Trim(t[i + 1..])) else None
  {
    hide Trim, TrimStart, TrimEnd, Find, CR.GoodKey, Conf.ValueOf, CR.Assigns;
    AssignsIff(t, key);
    ValueIfAssigned(t, key);
    var i := Find(t, '=');
    assert i < |t| ==> t[i..][1..] == t[i + 1..];
  }

  lemma FirstEquals(t: string, key: string)
    requires CR.GoodKey(key) && CR.Assigns(t, key)
    ensures Find(t, '=') == |t| - |TrimStart(t[|key|..])|
  {
    hide IsSpace, TrimStart;
    TrimStartFacts(t[|key|..]);
    var rest := TrimStart(t[|key|..]);
    var i := |t| - |rest|;
    CR.SpaceFacts();
    assert t[i] == rest[0] == '=';
    assert forall j :: |key| <= j < i ==> t[j] == t[|key|..][j - |key|];
    assert forall j :: 0 <= j < |key| ==> t[j] == key[j];
  }

  lemma KeyAssigns(t: string, key: string)
    requires CR.GoodKey(key) && Find(t, '=') < |t| && TrimEnd(t[..Find(t, '=')]) == key
    ensures CR.Assigns(t, key)
  {
    hide IsSpace, TrimStart, TrimEnd, Find, CR.GoodKey;
    var i := Find(t, '=');
    TrimEndFacts(t[..i]);
    assert t[i] == '=';
    SpacesThenEquals(t, |key|, i);
    assert t[..|key|] == t[..i][..|key|];
  }

  lemma SpacesThenEquals(t: string, m: nat, i: nat)
    requires m <= i < |t| && t[i] == '=' && forall j :: m <= j < i ==> IsSpace(t[..i][j])
    ensures TrimStart(t[m..]) == t[i..]
  {
    hide IsSpace, TrimStart;
    var u := t[m..];
    CR.SpaceFacts();
    assert forall j :: 0 <= j < i - m ==> u[j] == t[..i][m + j];
    assert u[i - m] == t[i];
    TrimStartIs(u, i - m);
    assert u[i - m..] == t[i..];
  }

  lemma TrimRenamed(s: string, p: string, q: string)
    requires IsName(p) && IsName(q)
    ensures Trim(Replace(s, p, q)) == Replace(Trim(s), p, q)
    ensures Replace(s, p, q) == "" <==> s == ""
  {
    hide Replace, TrimStart, TrimEnd, IsName;
    TrimStartReplace(s, p, q);
    TrimEndReplace(TrimStart(s), p, q);
    NameNotEmpty(p);
    EmptyReplace(p, q);
    if s != "" {
      ReplaceEnds(s, p, q);
    }
  }

  lemma ValueRenamed(t: string, key: string, p: string, q: string)
    requires Dashed(p) && Dashed(q) && CR.GoodKey(key) && '-' !in key
    ensures Conf.ValueOf(Replace(t, p, q), key) == RenamedValue(Conf.ValueOf(t, key), p, q)
  {
    hide Replace, TrimStart, TrimEnd, IsName, IsSpace, Find, Conf.ValueOf, Trim, CR.GoodKey;
    var r := Replace(t, p, q);
    EndsForeign();
    ForeignCharStays(t, p, q, '=');
    ValueAt(t, key);
    ValueAt(r, key);
    var i := Find(t, '=');
    assert i < |t| <==> '=' in t by { FindIs(t, '='); }
    assert Find(r, '=') < |r| <==> '=' in r by { FindIs(r, '='); }
    if i < |t| {
      var a, b := t[..i], t[i + 1..];
      assert t == a + "=" + b && '=' !in a by { FindIs(t, '='); }
      ForeignMiddle(a, "=", b, p, q);
      ForeignCharStays(a, p, q, '=');
      var j := |Replace(a, p, q)|;
      assert r[..j] == Replace(a, p, q) && r[j] == '=' && r[j + 1..] == Replace(b, p, q);
      assert Find(r, '=') == j by { FindAt(r, '=', j); }
      TrimEndReplace(a, p, q);
      WordStays(TrimEnd(a), key, p, q);
      TrimRenamed(b, p, q);
      TrimRenamed(Trim(b), p, q);
    }
  }

  lemma FindIs(s: string, c: char)
    ensures Find(s, c) < |s| <==> c in s
    ensures Find(s, c) < |s| ==> s == s[..Find(s, c)] + [c] + s[Find(s, c) + 1..] && c !in s[..Find(s, c)]
  {
    var i := Find(s, c);
    if i < |s| {
      assert s[i] == c;
    }
  }

  lemma FindAt(s: string, c: char, i: nat)
    requires i < |s| && s[i] == c && c !in s[..i]
    ensures Find(s, c) == i
  {
    assert forall j :: 0 <= j < i ==> s[j] == s[..i][j];
  }

  /** One turn of the reader on a renamed line. */
  lemma StepRenamed(l: string, inSection: bool, section: string, key: string, p: string, q: string)
    requires Dashed(p) && Dashed(q) && CR.GoodKey(key) && '-' !in key && '-' !in section
    ensures var (b, v) := Conf.Step(l, inSection, section, key);
            Conf.Step(Replace(l, p, q), inSection, section, key) == (b, RenamedValue(v, p, q))
  {
    hide Replace, TrimStart, TrimEnd, IsSpace, Conf.ValueOf, IsName, CR.GoodKey;
    TrimStartReplace(l, p, q);
    var t := TrimStart(l);
    var r := Replace(t, p, q);
    assert TrimStart(Replace(l, p, q)) == r;
    EndsForeign();
    KindRenamed(t, p, q);
    ForeignCharStays(t, p, q, ']');
    assert Conf.IsComment(r) <==> Conf.IsComment(t);
    assert Conf.IsSection(r) <==> Conf.IsSection(t);
    TrimEndReplace(t, p, q);
    assert '-' !in Conf.Header(section);
    WordStays(TrimEnd(t), Conf.Header(section), p, q);
    ValueRenamed(t, key, p, q);
  }

  lemma KindRenamed(t: string, p: string, q: string)
    requires IsName(p) && IsName(q)
    ensures var r := Replace(t, p, q);
            && (r == "" <==> t == "")
            && (t != "" ==> (r[0] == '#' <==> t[0] == '#') && (r[0] == ';' <==> t[0] == ';') && (r[0] == '[' <==> t[0] == '['))
  {
    hide Replace;
    EmptyReplace(p, q);
    if t != "" {
      ReplaceEnds(t, p, q);
    }
  }

  lemma {:induction false} ScanRenamed(ls: seq<string>, inSection: bool, section: string, key: string, p: string,
    q: string)
    requires Dashed(p) && Dashed(q) && CR.GoodKey(key) && '-' !in key && '-' !in section
    ensures Conf.Scan(RenamedLines(ls, p, q), inSection, section, key) ==
            RenamedValue(Conf.Scan(ls, inSection, section, key), p, q)
    decreases |ls|
  {
    hide Replace, Conf.Step, Dashed, CR.GoodKey;
    if ls != [] {
      StepRenamed(ls[0], inSection, section, key, p, q);
      assert RenamedLines(ls, p, q)[1..] == RenamedLines(ls[1..], p, q);
      ScanRenamed(ls[1..], Conf.Step(ls[0], inSection, section, key).0, section, key, p, q);
    }
  }

  /** A renamed configuration gives every key, in every section, the value it had, renamed; for keys and
      sections without a dash. */
  lemma ReadRenamed(text: string, section: string, key: string, p: string, q: string)
    requires Dashed(p) && Dashed(q) && CR.GoodKey(key) && '-' !in key && '-' !in section
    ensures CT.ReadText(Replace(text, p, q), section, key) == RenamedValue(CT.ReadText(text, section, key), p, q)
  {
    hide Replace, Conf.Scan, CR.GoodKey, CT.LinesOf;
    LinesRenamed(text, p, q);
    ScanRenamed(CT.LinesOf(text), false, section, key, p, q);
  }
}
