/**
 Removing a cloned block gives back the original lines and one blank line, exactly when the clone
 has kept a header.
 */
module ComposeRoundTrip {
  import opened Wrappers
  import opened Text
  import opened Compose
  import opened ComposeEdits
  import opened ComposePatch
  import opened ComposeClone
  import opened ComposeNames

  // ---------------------------------------------------------------------------------------
  // Lines of a new block
  // ---------------------------------------------------------------------------------------

  /** No header, not even in a comment, and no new section. */
  predicate Plain(l: string) {
    !IsHeader(l) && !IsTopLevel(l)
  }

  /** A line that does not end the block it stands in. */
  predicate Quiet(l: string) {
    !EndsBlock(l)
  }

  ghost predicate AllPlain(ls: File) {
    forall i :: 0 <= i < |ls| ==> Plain(ls[i])
  }

  ghost predicate AllQuiet(ls: File) {
    forall i :: 0 <= i < |ls| ==> Quiet(ls[i])
  }

  /** YAML indents with spaces only. */
  predicate SpaceIndented(l: string) {
    forall i :: 0 <= i < Indent(l) ==> l[i] == ' '
  }

  /** The lines name the instance, with no header before the name. */
  ghost predicate Named(ls: File, name: string) {
    exists n :: 0 <= n < |ls| && NameOf(ls[n]) == Some(name) && AllPlain(ls[..n + 1])
  }

  lemma PlainIsQuiet(l: string)
    requires Plain(l)
    ensures Quiet(l)
  {
  }

  /** The names a caller may use; the name of the source must not be part of the key itself. */
  predicate GoodNames(c: Clone) {
    && IsName(c.src) && IsName(c.dst) && c.src[0] != '-' && OutsideKey(c.src)
    && Short(c) != "" && Short(c)[0] != '-' && !IsEnvKey(c.env, "nkr_name")
  }

  lemma ShortIsName(c: Clone)
    requires GoodNames(c)
    ensures IsName(Short(c))
  {
  }

  lemma RenamedQuiet(c: Clone, l: string)
    requires GoodNames(c) && Quiet(l)
    ensures Quiet(Renamed(c, l)) && (Plain(l) ==> Plain(Renamed(c, l)))
  {
    hide EndsBlock, IsHeader, IsTopLevel, Replace, WithValue, HasKey, IsServiceHeader;
    if HasKey(l, ID) {
      assert PlainKey(ID) by { IdIsPlain(); }
      InteriorKey(l, ID);
      PatchedShape(l, ID, c.vmId);
      InertIsPlain(Renamed(c, l));
    } else {
      RenamedShape(l, c.src, c.dst);
      EndsBlockIs(l);
      EndsBlockIs(Replace(l, c.src, c.dst));
    }
  }

  lemma EndsBlockIs(l: string)
    ensures EndsBlock(l) == (IsServiceHeader(l) || IsTopLevel(l))
  {
  }

  lemma IdIsPlain()
    ensures PlainKey(ID) && !IsSpace('i')
  {
  }

  lemma InertIsPlain(l: string)
    ensures Inert(l) ==> Plain(l)
  {
  }

  /** A line with a key, other than a comment, is indented unless it starts a section. */
  lemma IndentPositive(c: Clone, l: string, key: string)
    requires GoodNames(c) && !IsTopLevel(l) && HasKey(Renamed(c, l), key) && key != "" && !IsSpace(key[0])
             && key[0] != '#'
    ensures Indent(l) > 0
  {
    hide IsSpace, Replace, IsName, IsEnvKey, OutsideKey, Short;
    SpacesAreSpace();
    if l == "" {
      NameNotEmpty(c.src);
      EmptyReplace(c.src, c.dst);
    } else if l[0] == '#' {
      assert TrimStart(l) == l by { TrimStartIs(l, 0); }
      TrimStartReplace(l, c.src, c.dst);
      ReplaceEnds(l, c.src, c.dst);
      HashIsForeign(c.src);
    }
  }

  lemma HashIsForeign(name: string)
    requires IsName(name)
    ensures name[0] != '#'
  {
  }

  /** Only a comment that the line had can make its override end in a colon. */
  lemma OverrideColon(l: string, key: string, n: nat)
    ensures EndsWithColon(Override(l, key, n)) ==> HasKey(l, key) && EndsWithColon(l)
  {
    hide IsSpace, EndsWithColon, Decimal, Comment, TrimStart;
    var rest := if HasKey(l, key) then TrimStart(l)[|key|..] else "";
    var head := Spaces(Indent(l)) + key + " ";
    EndsInDigit(head, n);
    NoComment();
    TrimStartFacts(l);
    var k := |l| - |rest|;
    assert l == l[..k] + rest;
    if Comment(rest) != "" {
      CommentEnds(head + Decimal(n), l[..k], rest);
    } else {
      assert Override(l, key, n) == head + Decimal(n);
    }
  }

  lemma OverridePlain(l: string, key: string, n: nat)
    requires PlainKey(key) && SpaceIndented(l) && Quiet(l) && Indent(l) > 0
    ensures Plain(Override(l, key, n))
  {
    hide IsSpace, EndsWithColon, NameOf, Decimal, Comment, TrimStart, HasKey;
    SpacesAreSpace();
    var m := Indent(l);
    var o := Override(l, key, n);
    assert o[m] == key[0];
    FirstCharacter(o, m);
    OverrideColon(l, key, n);
    if HasKey(l, key) {
      InteriorKey(l, key);
      assert TwoSpaces(o) ==> TwoSpaces(l);
    }
  }

  lemma SpacedPlain(n: nat, text: string)
    requires n > 0 && text != "" && !IsSpace(text[0]) && text[0] != '-' && text[0] != '#'
    requires !IsSpace(text[|text| - 1]) && text[|text| - 1] != ':'
    ensures Plain(Spaces(n) + text)
  {
    hide IsSpace;
    SpacesAreSpace();
    var l := Spaces(n) + text;
    assert l[|l| - 1] == text[|text| - 1];
    TrimEndIs(l, |l|);
  }

  lemma DeepPlain(l: string)
    requires |l| >= 3 && l[0] == l[1] == l[2] == ' '
    ensures Plain(l)
  {
  }

  lemma FlagLinesPlain(l: string, disabled: bool)
    requires Indent(l) > 0
    ensures Plain(WarmupLine(l)) && Plain(DisabledLine(l, disabled))
  {
    hide IsSpace, Plain;
    assert !IsSpace('s') && !IsSpace('d') && !IsSpace('e') by { FlagLetters(); }
    var w, d := WARMUP + " true", DISABLED + (if disabled then " true" else " false");
    SpacedPlain(Indent(l), w);
    SpacedPlain(Indent(l), d);
    assert WarmupLine(l) == Spaces(Indent(l)) + w;
    assert DisabledLine(l, disabled) == Spaces(Indent(l)) + d;
  }

  lemma FlagLetters()
    ensures !IsSpace('s') && !IsSpace('d') && !IsSpace('e') && !IsSpace('i') && !IsSpace('r') && !IsSpace('-')
  {
  }

  lemma EnvLinesPlain(indent: nat, env: seq<(string, string)>)
    requires indent >= 3
    ensures AllPlain(EnvLines(indent, env))
  {
    hide Plain;
    var ls := EnvLines(indent, env);
    forall i | 0 <= i < |ls|
      ensures Plain(ls[i])
    {
      DeepPlain(ls[i]);
    }
  }

  // ---------------------------------------------------------------------------------------
  // Copying one line
  // ---------------------------------------------------------------------------------------

  ghost predicate ShareOk(st: Copying) {
    st.share.Some? ==> Plain(st.share.value)
  }

  /** What a line adds to the copy: quiet lines, and plain ones if it was plain. */
  ghost predicate Extends(st: Copying, r: Copying, plain: bool) {
    && |st.out| <= |r.out| && r.out[..|st.out|] == st.out && ShareOk(r)
    && AllQuiet(r.out[|st.out|..]) && (plain ==> AllPlain(r.out[|st.out|..]))
  }

  lemma PushExtends(st: Copying, r: Copying, ls: File, plain: bool)
    requires r.out == st.out + ls && ShareOk(r) && AllQuiet(ls) && (plain ==> AllPlain(ls))
    ensures Extends(st, r, plain)
  {
    hide Plain, Quiet;
  }

  lemma PushPlain(st: Copying, r: Copying, ls: File, plain: bool)
    requires r.out == st.out + ls && ShareOk(r) && AllPlain(ls)
    ensures Extends(st, r, plain)
  {
    hide Plain, Quiet;
    forall i | 0 <= i < |ls|
      ensures Quiet(ls[i])
    {
      PlainIsQuiet(ls[i]);
    }
    PushExtends(st, r, ls, plain);
  }

  lemma KeyRulePlain(c: Clone, l: string)
    requires GoodNames(c) && Quiet(l) && SpaceIndented(l) && KeyRule(c, l, Renamed(c, l)).Some?
    ensures Plain(KeyRule(c, l, Renamed(c, l)).value)
  {
    hide HasKey, Plain, GoodNames, Renamed, Override, WarmupLine, DisabledLine, IsServiceHeader, IsTopLevel,
      SpaceIndented, IsSpace;
    var s := Renamed(c, l);
    SpacesAreSpace();
    FlagLetters();
    EndsBlockIs(l);
    forall key | key in [RAM, BALLOON, CHRS, WARMUP, DISABLED] && HasKey(s, key)
      ensures Indent(l) > 0
    {
      IndentPositive(c, l, key);
    }
    assert [RAM, BALLOON, CHRS, WARMUP, DISABLED][0] == RAM && [RAM, BALLOON, CHRS, WARMUP, DISABLED][1] == BALLOON
        && [RAM, BALLOON, CHRS, WARMUP, DISABLED][2] == CHRS && [RAM, BALLOON, CHRS, WARMUP, DISABLED][3] == WARMUP
        && [RAM, BALLOON, CHRS, WARMUP, DISABLED][4] == DISABLED;
    assert Indent(l) > 0;
    if c.want.ram.Some? { OverridePlain(l, RAM, c.want.ram.value); }
    if c.want.balloon.Some? { OverridePlain(l, BALLOON, c.want.balloon.value); }
    if c.want.chrs.Some? { OverridePlain(l, CHRS, c.want.chrs.value); }
    FlagLinesPlain(l, c.disabled);
  }

  /** A share made of an addons volume is an indented list item. */
  lemma LegacySharePlain(s: string)
    requires IsLegacyShare(s) && !IsTopLevel(s)
    ensures Plain(TrimEnd(s) + ":rw")
  {
    hide IsSpace, Contains;
    SpacesAreSpace();
    FlagLetters();
    TrimStartFacts(s);
    TrimEndFacts(s);
    var n := |s| - |TrimStart(s)|;
    assert s[n] == TrimStart(s)[0] == '-';
    var r := TrimEnd(s) + ":rw";
    assert n < |TrimEnd(s)|;
    assert forall i :: 0 <= i <= n ==> r[i] == s[i];
    FirstCharacter(r, n);
  }

  lemma KeepRuleExtends(c: Clone, st: Copying, s: string, plain: bool)
    requires Quiet(s) && (plain ==> Plain(s)) && ShareOk(st)
    ensures Extends(st, KeepRule(c, st, s), plain)
  {
    hide Plain, Quiet, HasKey, IsLegacyShare, IsEnterprise, Extends;
    var r := KeepRule(c, st, s);
    if HasKey(s, HEALTHCHECK) {
      PushExtends(st, r, [s], plain);
    } else if IsLegacyShare(s) {
      assert !IsTopLevel(s) by { QuietIsInner(s); }
      LegacySharePlain(s);
      PushExtends(st, r, [], plain);
    } else if !c.enterprise && IsEnterprise(s) {
      PushExtends(st, r, [], plain);
    } else {
      PushExtends(st, r, [s], plain);
    }
  }

  lemma QuietIsInner(s: string)
    requires Quiet(s)
    ensures !IsTopLevel(s)
  {
  }

  lemma HealthPlain(s: string)
    requires HealthRule(s).Some?
    ensures Plain(HealthRule(s).value)
  {
    hide HasKey, Plain;
    DeepPlain(HealthRule(s).value);
  }

  lemma SectionRuleExtends(c: Clone, st: Copying, l: string, s: string, plain: bool)
    requires Quiet(s) && (plain ==> Plain(s)) && ShareOk(st)
    ensures Extends(st, SectionRule(c, st, l, s), plain)
  {
    hide Plain, Quiet, HasKey, KeepRule, Extends, IsEnvKey, KeyOf, HealthRule;
    var deep := Indent(l) > 4;
    var r := SectionRule(c, st, l, s);
    if st.inEnv && deep && IsEnvKey(c.env, KeyOf(s)) {
      PushExtends(st, r, [], plain);
    } else if st.inHealth && deep && HealthRule(s).Some? {
      HealthPlain(s);
      PushPlain(st, r, [HealthRule(s).value], plain);
    } else {
      var t := st.(inEnv := st.inEnv && deep, inHealth := st.inHealth && deep);
      KeepRuleExtends(c, t, s, plain);
      ExtendsSame(t, st, r, plain);
    }
  }

  lemma ExtendsSame(t: Copying, st: Copying, r: Copying, plain: bool)
    requires t.out == st.out && Extends(t, r, plain)
    ensures Extends(st, r, plain)
  {
  }

  lemma CopyLineExtends(c: Clone, st: Copying, l: string)
    requires GoodNames(c) && Quiet(l) && SpaceIndented(l) && ShareOk(st)
    ensures Extends(st, CopyLine(c, st, l, Renamed(c, l)), Plain(l))
  {
    hide GoodNames, Plain, Quiet, HasKey, KeyRule, SectionRule, Extends, Renamed, SpaceIndented, IsSpace;
    var s := Renamed(c, l);
    var r := CopyLine(c, st, l, s);
    RenamedQuiet(c, l);
    var t := st.(seen := SeeKeys(st.seen, s));
    if KeyRule(c, l, s).Some? {
      KeyRulePlain(c, l);
      PushPlain(st, r, [KeyRule(c, l, s).value], Plain(l));
    } else if HasKey(s, ENVIRONMENT) {
      FlagLetters();
      SpacesAreSpace();
      QuietIsInner(l);
      IndentPositive(c, l, ENVIRONMENT);
      EnvLinesPlain(Indent(l) + 2, c.env);
      EnvExtends(st, r, s, EnvLines(Indent(l) + 2, c.env), Plain(l));
    } else {
      SectionRuleExtends(c, t, l, s, Plain(l));
      ExtendsSame(t, st, r, Plain(l));
    }
  }

  lemma EnvExtends(st: Copying, r: Copying, s: string, env: File, plain: bool)
    requires r.out == st.out + ([s] + env) && ShareOk(r) && Quiet(s) && (plain ==> Plain(s)) && AllPlain(env)
    ensures Extends(st, r, plain)
  {
    hide Plain, Quiet;
    forall i | 0 <= i < |env|
      ensures Quiet(env[i])
    {
      PlainIsQuiet(env[i]);
    }
    PushExtends(st, r, [s] + env, plain);
  }

  // ---------------------------------------------------------------------------------------
  // Copying the lines
  // ---------------------------------------------------------------------------------------

  lemma ExtendsThrough(a: Copying, b: Copying, d: Copying, plain: bool)
    requires Extends(a, b, plain) && Extends(b, d, plain)
    ensures Extends(a, d, plain)
  {
    hide Plain, Quiet;
    assert d.out[|a.out|..] == b.out[|a.out|..] + d.out[|b.out|..];
    assert d.out[..|a.out|] == b.out[..|a.out|];
  }

  lemma ExtendsWeakly(a: Copying, b: Copying, plain: bool, weaker: bool)
    requires Extends(a, b, plain) && (weaker ==> plain)
    ensures Extends(a, b, weaker) && ShareOk(b)
  {
  }

  ghost predicate GoodLines(ls: File) {
    forall i :: 0 <= i < |ls| ==> Quiet(ls[i]) && SpaceIndented(ls[i])
  }

  lemma {:induction false} CopyLinesExtends(c: Clone, st: Copying, ls: File, plain: bool)
    requires GoodNames(c) && GoodLines(ls) && ShareOk(st) && (plain ==> AllPlain(ls))
    ensures Extends(st, CopyLines(c, st, ls), plain)
    decreases |ls|
  {
    hide GoodNames, Plain, Quiet, Extends, SpaceIndented, CopyLine, Renamed, ShareOk;
    if ls == [] {
      PushExtends(st, st, [], plain);
    } else {
      var l := ls[0];
      var t := CopyLine(c, st, l, Renamed(c, l));
      CopyLineExtends(c, st, l);
      ExtendsWeakly(st, t, Plain(l), plain);
      CopyLinesExtends(c, t, ls[1..], plain);
      ExtendsThrough(st, t, CopyLines(c, t, ls[1..]), plain);
    }
  }

  lemma {:induction false} CopyLinesSplit(c: Clone, st: Copying, a: File, b: File)
    ensures CopyLines(c, st, a + b) == CopyLines(c, CopyLines(c, st, a), b)
    decreases |a|
  {
    hide CopyLine, Renamed;
    if a == [] {
      assert a + b == b;
    } else {
      assert (a + b)[1..] == a[1..] + b;
      CopyLinesSplit(c, CopyLine(c, st, a[0], Renamed(c, a[0])), a[1..], b);
    }
  }

  // ---------------------------------------------------------------------------------------
  // The line with the name
  // ---------------------------------------------------------------------------------------

  lemma NoSlash(s: string, name: string)
    requires NameOf(s) == Some(name) && IsName(name)
    ensures '/' !in s
  {
    hide NameOf, IsName, Keys;
    var p := NamePartsOf(s, name);
    SlashIsNoPart(name);
    KeysHaveNoSlash(p.keys);
  }

  lemma SlashIsNoPart(name: string)
    requires IsName(name)
    ensures '/' !in name && !IsSpace('/')
  {
  }

  lemma {:induction false} KeysHaveNoSlash(k: nat)
    ensures '/' !in Keys(k)
  {
    if k > 0 {
      KeysHaveNoSlash(k - 1);
    }
  }

  lemma ContainsNeeds(s: string, p: string, i: nat)
    requires i < |p| && p[i] !in s
    ensures !Contains(s, p)
  {
    hide StartsWith;
    forall j | 0 <= j <= |s|
      ensures !StartsWith(s[j..], p)
    {
      assert p[i] !in s[j..];
      PrefixHas(s[j..], p, i);
    }
  }

  lemma PrefixHas(s: string, p: string, i: nat)
    requires i < |p|
    ensures StartsWith(s, p) ==> p[i] in s
  {
    if StartsWith(s, p) {
      assert s[i] == p[i];
    }
  }

  lemma NameLineHead(s: string, name: string)
    requires NameOf(s) == Some(name) && IsName(name)
    ensures StartsWith(TrimStart(s), NAME_KEY) && '/' !in TrimStart(s)
  {
    hide IsSpace, IsName, StripKey, Unquote, TrimStart, TrimEnd;
    NoSlash(s, name);
    TrimEndFacts(TrimStart(s));
    TrimStartFacts(s);
  }

  lemma NoOtherKey(s: string, key: string)
    requires StartsWith(TrimStart(s), NAME_KEY) && key != "" && key[0] != 'n'
    ensures !HasKey(s, key)
  {
    hide TrimStart;
    var t := TrimStart(s);
    assert t[0] == NAME_KEY[0];
  }

  /** A name line is subject to none of the rules. */
  lemma NameLineRules(c: Clone, s: string, name: string)
    requires NameOf(s) == Some(name) && IsName(name)
    ensures forall l :: KeyRule(c, l, s).None?
    ensures !HasKey(s, ENVIRONMENT) && HealthRule(s).None? && KeyOf(s) == "nkr_name"
    ensures !HasKey(s, HEALTHCHECK) && !IsLegacyShare(s) && !IsEnterprise(s) && !HasKey(s, ID)
  {
    hide NameOf, IsName, Contains, TrimStart, HasKey;
    NameLineHead(s, name);
    var t := TrimStart(s);
    NoOtherKey(s, RAM);
    NoOtherKey(s, BALLOON);
    NoOtherKey(s, CHRS);
    NoOtherKey(s, WARMUP);
    NoOtherKey(s, DISABLED);
    NoOtherKey(s, ENVIRONMENT);
    NoOtherKey(s, HEALTHCHECK);
    NoOtherKey(s, ID);
    NoOtherKey(s, "initial_delay:");
    NoOtherKey(s, "interval:");
    NoOtherKey(s, "retries:");
    NameLineKey(t);
    assert ":/mnt/extra-enterprise"[1] == '/';
    ContainsNeeds(t, ":/mnt/extra-enterprise", 1);
  }

  lemma NameLineKey(t: string)
    requires StartsWith(t, NAME_KEY)
    ensures Find(t, ':') == 8 && t[..8] == "nkr_name" && !StartsWith(t, "- ")
  {
    hide Find;
    assert forall i :: 0 <= i < 9 ==> t[i] == NAME_KEY[i];
    assert NAME_KEY[0] == 'n' && NAME_KEY[8] == ':' && "- "[0] == '-';
    assert ':' !in "nkr_name";
    assert forall i :: 0 <= i < 8 ==> NAME_KEY[i] == "nkr_name"[i];
  }

  lemma CopyName(c: Clone, st: Copying, l: string)
    requires GoodNames(c) && NameOf(l) == Some(c.src)
    ensures var r := CopyLine(c, st, l, Renamed(c, l));
            r.out == st.out + [Replace(l, c.src, c.dst)] && NameOf(Replace(l, c.src, c.dst)) == Some(c.dst)
    ensures !HasKey(l, ID)
  {
    hide NameOf, HasKey, KeyRule, HealthRule, KeyOf, IsLegacyShare, IsEnterprise, Short, Replace, IsName, OutsideKey;
    NameLineRules(c, l, c.src);
    RenamedName(l, c.src, c.dst);
    NameLineRules(c, Replace(l, c.src, c.dst), c.dst);
  }

  lemma CopyUpToName(c: Clone, st: Copying, a: File, l: string)
    requires GoodNames(c) && GoodLines(a) && GoodLines([l]) && ShareOk(st)
    requires AllPlain(a) && Plain(l) && NameOf(l) == Some(c.src)
    ensures var r := CopyLines(c, st, a + [l]);
            && Extends(st, r, true) && ShareOk(r)
            && |st.out| < |r.out| && NameOf(r.out[|r.out| - 1]) == Some(c.dst)
  {
    hide GoodNames, Plain, Quiet, NameOf, GoodLines, ShareOk, CopyLine, Extends, Renamed;
    var r1 := CopyLines(c, st, a);
    var r2 := CopyLine(c, r1, l, Renamed(c, l));
    OneGoodLine(l);
    CopyLinesExtends(c, st, a, true);
    ExtendsWeakly(st, r1, true, true);
    CopyLineExtends(c, r1, l);
    ExtendsWeakly(r1, r2, Plain(l), true);
    ExtendsThrough(st, r1, r2, true);
    ExtendsLength(st, r1, true);
    CopyName(c, r1, l);
    CopyLinesSplit(c, st, a, [l]);
    CopyOneLine(c, r1, l);
  }

  lemma ExtendsLength(a: Copying, b: Copying, plain: bool)
    requires Extends(a, b, plain)
    ensures |a.out| <= |b.out|
  {
  }

  /** The lines up to and from the one that names the source give a block that names the clone. */
  lemma CopyNamed(c: Clone, st: Copying, a: File, l: string, b: File)
    requires GoodNames(c) && GoodLines(a) && GoodLines([l]) && GoodLines(b) && ShareOk(st)
    requires AllPlain(a) && Plain(l) && NameOf(l) == Some(c.src)
    ensures var r := CopyLines(c, st, a + [l] + b);
            Extends(st, r, false) && ShareOk(r) && |st.out| <= |r.out| && Named(r.out[|st.out|..], c.dst)
  {
    hide GoodNames, Plain, Quiet, NameOf, GoodLines, ShareOk, Extends, CopyLines, Named;
    var r2 := CopyLines(c, st, a + [l]);
    CopyUpToName(c, st, a, l);
    CopyLinesExtends(c, r2, b, false);
    CopyLinesSplit(c, st, a + [l], b);
    NamedThrough(st, r2, CopyLines(c, r2, b), c.dst);
  }

  lemma OneGoodLine(l: string)
    requires GoodLines([l])
    ensures Quiet(l) && SpaceIndented(l)
  {
    assert [l][0] == l;
  }

  lemma CopyOneLine(c: Clone, st: Copying, l: string)
    ensures CopyLines(c, st, [l]) == CopyLine(c, st, l, Renamed(c, l))
  {
    hide CopyLine, Renamed;
    assert [l][1..] == [];
  }

  lemma NamedThrough(st: Copying, r2: Copying, r: Copying, name: string)
    requires Extends(st, r2, true) && Extends(r2, r, false) && |st.out| < |r2.out|
             && NameOf(r2.out[|r2.out| - 1]) == Some(name)
    ensures Extends(st, r, false) && ShareOk(r) && |st.out| <= |r.out| && Named(r.out[|st.out|..], name)
  {
    hide Plain, Quiet, NameOf;
    ExtendsWeakly(st, r2, true, false);
    ExtendsThrough(st, r2, r, false);
    var tail := r.out[|st.out|..];
    var n := |r2.out| - |st.out| - 1;
    assert tail[..n + 1] == r2.out[|st.out|..];
    assert tail[n] == r2.out[|r2.out| - 1];
  }

  // ---------------------------------------------------------------------------------------
  // The header
  // ---------------------------------------------------------------------------------------

  predicate Overridden(c: Clone, key: string) {
    || (key == "ram" && c.want.ram.Some?)
    || (key == "chrs" && c.want.chrs.Some?)
    || (key == "balloon_mb" && c.want.balloon.Some?)
  }

  /** The new service name is not mistaken for one of the keys that are rewritten. For an overridden
      resource it may be, if the source service has the same name and a comment in its header. */
  predicate HeaderKept(c: Clone, h: string) {
    && Short(c) != "skip_warmup" && Short(c) != "disabled"
    && (Overridden(c, Short(c)) ==> HasKey(h, Short(c) + ":") && '#' in h)
  }

  /** The line that stands for the header. */
  function FirstLine(c: Clone, h: string): string {
    if KeyRule(c, h, Header(c)).Some? then KeyRule(c, h, Header(c)).value else Header(c)
  }

  lemma HeaderFacts(c: Clone)
    requires GoodNames(c)
    ensures var h := Header(c);
            && TrimStart(h) == Short(c) + ":" && IsHeader(h) && !IsLegacyShare(h) && !IsEnterprise(h)
  {
    hide IsSpace, IsIdent, Contains;
    ShortIsName(c);
    var n := Short(c);
    var h := Header(c);
    IdentIsNoSpace(n[0]);
    SpacesAreSpace();
    assert h[2] == n[0];
    FirstCharacter(h, 2);
    assert h[2..] == n + ":";
    assert !IsSpace(':') by { ColonIsNoSpace(); }
    TrimEndIs(h, |h|);
    SlashIsNoPart(n);
    assert ":/mnt/extra-enterprise"[1] == '/';
    ContainsNeeds(n + ":", ":/mnt/extra-enterprise", 1);
    assert "- "[0] == '-';
  }

  lemma ColonIsNoSpace()
    ensures !IsSpace(':')
  {
  }

  /** A name is a key of the header exactly if it is the service's name. */
  lemma HeaderKey(c: Clone, name: string)
    requires GoodNames(c) && ':' !in name
    ensures HasKey(Header(c), name + ":") <==> Short(c) == name
  {
    hide IsIdent;
    ShortIsName(c);
    HeaderFacts(c);
    var n := Short(c);
    var t := n + ":";
    assert ':' !in n by { NoColonInName(n); }
    var k := name + ":";
    if StartsWith(t, k) {
      assert t[|name|] == k[|name|] == ':';
      assert |name| == |n|;
      assert n == t[..|n|] == k[..|n|] == name;
    }
  }

  lemma NoColonInName(n: string)
    requires IsName(n)
    ensures ':' !in n
  {
  }

  lemma HeaderIndent(h: string)
    requires IsHeader(h) && SpaceIndented(h)
    ensures Indent(h) == 2
  {
    SpacesAreSpace();
  }

  lemma OverrideEnds(h: string, key: string, n: nat)
    requires key != "" && '#' !in key && EndsWithColon(h) && Indent(h) == 2 && h[..2] == "  "
    ensures EndsWithColon(Override(h, key, n)) <==> HasKey(h, key) && '#' in h
  {
    hide IsSpace, EndsWithColon, Decimal, TrimStart, Comment;
    var rest := if HasKey(h, key) then TrimStart(h)[|key|..] else "";
    var head := Spaces(2) + key + " ";
    EndsInDigit(head, n);
    assert Comment(rest) == "" ==> Override(h, key, n) == head + Decimal(n);
    NoComment();
    TrimStartFacts(h);
    assert h[2..] == TrimStart(h) by { IndentIs(h); }
    assert HasKey(h, key) ==> h == "  " + key + rest;
    CommentIs(rest);
    if Comment(rest) != "" {
      CommentEnds(head + Decimal(n), "  " + key, rest);
    }
  }

  lemma IndentIs(l: string)
    ensures TrimStart(l) == l[Indent(l)..]
  {
  }

  /** An overridden header is one if it had the key and a comment. */
  lemma OverrideHeader(h: string, key: string, n: nat)
    requires PlainKey(key) && '#' !in key && IsHeader(h) && SpaceIndented(h)
    ensures var o := Override(h, key, n);
            !IsTopLevel(o) && (IsHeader(o) <==> HasKey(h, key) && '#' in h)
  {
    hide IsSpace, EndsWithColon, NameOf, Decimal, TrimStart, Comment, HasKey;
    SpacesAreSpace();
    HeaderIndent(h);
    var o := Override(h, key, n);
    assert o[2] == key[0];
    FirstCharacter(o, 2);
    OverrideEnds(h, key, n);
  }

  lemma CommentIs(rest: string)
    ensures Comment(rest) != "" <==> '#' in rest
  {
    hide IsSpace;
    SpacesAreSpace();
    TrimStartFacts(rest);
    var t := TrimStart(rest);
    var n := |rest| - |t|;
    assert rest == rest[..n] + t;
    assert forall i :: 0 <= i < n ==> rest[..n][i] == rest[i];
  }

  /** The first line of the clone is a header exactly if the header was kept. */
  lemma FirstLineIs(c: Clone, h: string)
    requires GoodNames(c) && IsHeader(h) && SpaceIndented(h)
    ensures IsHeader(FirstLine(c, h)) <==> HeaderKept(c, h)
    ensures !IsTopLevel(FirstLine(c, h))
  {
    hide IsSpace, IsHeader, GoodNames, HasKey, Override, Short, SpaceIndented, WarmupLine, DisabledLine, Header;
    SpacesAreSpace();
    HeaderFacts(c);
    HeaderKey(c, "ram");
    HeaderKey(c, "balloon_mb");
    HeaderKey(c, "chrs");
    HeaderKey(c, "skip_warmup");
    HeaderKey(c, "disabled");
    assert "ram" + ":" == RAM && "balloon_mb" + ":" == BALLOON && "chrs" + ":" == CHRS
        && "skip_warmup" + ":" == WARMUP && "disabled" + ":" == DISABLED;
    if c.want.ram.Some? { OverrideHeader(h, RAM, c.want.ram.value); }
    if c.want.balloon.Some? { OverrideHeader(h, BALLOON, c.want.balloon.value); }
    if c.want.chrs.Some? { OverrideHeader(h, CHRS, c.want.chrs.value); }
    HeaderIndent(h);
    FlagLinesPlain(h, c.disabled);
    HeaderIsInner(c);
  }

  lemma HeaderIsInner(c: Clone)
    ensures !IsTopLevel(Header(c))
  {
  }

  lemma CopyHeader(c: Clone, h: string)
    requires GoodNames(c) && IsHeader(h) && SpaceIndented(h)
    ensures var r := CopyLine(c, START, h, Header(c));
            && ShareOk(r) && |r.out| >= 2 && r.out[0] == "" && r.out[1] == FirstLine(c, h) && AllPlain(r.out[2..])
  {
    hide GoodNames, IsHeader, HasKey, KeyRule, IsLegacyShare, IsEnterprise, SpaceIndented, Header, Plain, EnvLines;
    HeaderFacts(c);
    HeaderIndent(h);
    EnvLinesPlain(Indent(h) + 2, c.env);
  }

  // ---------------------------------------------------------------------------------------
  // What is added to the block
  // ---------------------------------------------------------------------------------------

  /** A new block: a blank line, the line o, and lines that name the clone and end nothing. */
  ghost predicate Shaped(b: File, o: string, name: string) {
    |b| >= 2 && b[0] == "" && b[1] == o && AllQuiet(b[2..]) && Named(b[2..], name)
  }

  lemma NamedInserted(ls: File, i: nat, l: string, name: string)
    requires i <= |ls| && Plain(l) && AllQuiet(ls) && Named(ls, name)
    ensures AllQuiet(InsertAt(ls, i, l)) && Named(InsertAt(ls, i, l), name)
  {
    hide Plain, Quiet, NameOf;
    PlainIsQuiet(l);
    var g := InsertAt(ls, i, l);
    var n :| 0 <= n < |ls| && NameOf(ls[n]) == Some(name) && AllPlain(ls[..n + 1]);
    var m := if n < i then n else n + 1;
    assert g[m] == ls[n];
    var top := g[..m + 1];
    forall j | 0 <= j < |top|
      ensures Plain(top[j])
    {
      assert j < i ==> top[j] == ls[j] == ls[..n + 1][j];
      assert j > i ==> top[j] == ls[j - 1] == ls[..n + 1][j - 1];
    }
  }

  lemma ShapedInserted(b: File, i: nat, l: string, o: string, name: string)
    requires Shaped(b, o, name) && 2 <= i <= |b| && Plain(l)
    ensures Shaped(InsertAt(b, i, l), o, name)
  {
    hide Plain, AllQuiet, Named;
    assert InsertAt(b, i, l)[2..] == InsertAt(b[2..], i - 2, l);
    NamedInserted(b[2..], i - 2, l, name);
  }

  lemma ShapedPushed(b: File, l: string, o: string, name: string)
    requires Shaped(b, o, name) && Plain(l)
    ensures Shaped(b + [l], o, name)
  {
    hide Shaped, Plain;
    ShapedLength(b, o, name);
    ShapedInserted(b, |b|, l, o, name);
    assert InsertAt(b, |b|, l) == b + [l];
  }

  lemma ShapedLength(b: File, o: string, name: string)
    requires Shaped(b, o, name)
    ensures |b| >= 2 && b[0] == ""
  {
  }

  lemma {:induction false} ShapedAppended(b: File, ls: File, o: string, name: string)
    requires Shaped(b, o, name) && AllPlain(ls)
    ensures Shaped(b + ls, o, name)
    decreases |ls|
  {
    hide Shaped, Plain;
    if ls == [] {
      assert b + ls == b;
    } else {
      ShapedPushed(b, ls[0], o, name);
      assert b + ls == (b + [ls[0]]) + ls[1..];
      ShapedAppended(b + [ls[0]], ls[1..], o, name);
    }
  }

  lemma ShapedHead(b: File, l: string, o: string, name: string)
    requires Shaped(b, o, name) && Plain(l)
    ensures Shaped(InsertHead(b, l), o, name)
  {
    hide Shaped, Plain;
    ShapedLength(b, o, name);
    ShapedInserted(b, 2, l, o, name);
  }

  lemma NewLinePlain(key: string, n: nat)
    ensures Plain(NewLine(key, n))
  {
    hide Plain;
    DeepPlain(NewLine(key, n));
  }

  lemma ShapedIdle(c: Clone, b: File, o: string)
    requires Shaped(b, o, c.dst)
    ensures Shaped(AddIdle(c, b), o, c.dst)
  {
    hide Shaped, Plain, NewLine;
    ShapedLength(b, o, c.dst);
    if c.idle.Some? {
      NewLinePlain(IDLE, c.idle.value);
      ShapedInserted(b, 2, NewLine(IDLE, c.idle.value), o, c.dst);
      if c.decay.Some? {
        NewLinePlain(DECAY, c.decay.value);
        ShapedInserted(InsertAt(b, 2, NewLine(IDLE, c.idle.value)), 3, NewLine(DECAY, c.decay.value), o, c.dst);
      }
    }
  }

  lemma ShapedResources(c: Clone, seen: Seen, b: File, o: string)
    requires Shaped(b, o, c.dst)
    ensures Shaped(AddBalloon(c, seen, AddChrs(c, seen, AddRam(c, seen, AddWarmup(c, seen, b)))), o, c.dst)
  {
    hide Shaped, Plain, NewLine, InsertHead, Or;
    DeepPlain("    skip_warmup: true");
    ShapedHead(b, "    skip_warmup: true", o, c.dst);
    var b1 := AddWarmup(c, seen, b);
    if c.want.ram.Some? {
      NewLinePlain(RAM, c.want.ram.value);
      ShapedHead(b1, NewLine(RAM, c.want.ram.value), o, c.dst);
    }
    var b2 := AddRam(c, seen, b1);
    if c.want.chrs.Some? {
      NewLinePlain(CHRS, c.want.chrs.value);
      ShapedHead(b2, NewLine(CHRS, c.want.chrs.value), o, c.dst);
    }
    var b3 := AddChrs(c, seen, b2);
    NewLinePlain(BALLOON, Or(c.want.balloon, 128));
    ShapedHead(b3, NewLine(BALLOON, Or(c.want.balloon, 128)), o, c.dst);
  }

  lemma ShapedEnv(c: Clone, seen: Seen, b: File, o: string)
    requires Shaped(b, o, c.dst)
    ensures Shaped(AddEnv(c, seen, b), o, c.dst)
  {
    hide Shaped, Plain, EnvLines;
    DeepPlain("    environment:");
    ShapedPushed(b, "    environment:", o, c.dst);
    EnvLinesPlain(6, c.env);
    ShapedAppended(b + ["    environment:"], EnvLines(6, c.env), o, c.dst);
  }

  lemma ShapedShare(b: File, l: string, o: string, name: string)
    requires Shaped(b, o, name) && Plain(l)
    ensures Shaped(AddShare(b, l), o, name)
  {
    hide Shaped, Plain, Trim;
    ShapedLength(b, o, name);
    var i := SharesAt(b, 0);
    assert i >= 1 by { BlankIsNoShares(); }
    if i < |b| {
      ShapedInserted(b, i + 1, l, o, name);
    } else {
      DeepPlain("    shares:");
      ShapedPushed(b, "    shares:", o, name);
      ShapedPushed(b + ["    shares:"], l, o, name);
    }
  }

  lemma BlankIsNoShares()
    ensures Trim("") != SHARES
  {
  }

  lemma ShapedFinish(c: Clone, st: Copying, o: string)
    requires Shaped(st.out, o, c.dst) && ShareOk(st)
    ensures Shaped(Finish(c, st), o, c.dst)
  {
    hide Shaped, Plain, AddWarmup, AddRam, AddChrs, AddBalloon, AddIdle, AddEnv, AddShare, HasSystemouts, ShareLine;
    ShapedResources(c, st.seen, st.out, o);
    var b := AddBalloon(c, st.seen, AddChrs(c, st.seen, AddRam(c, st.seen, AddWarmup(c, st.seen, st.out))));
    ShapedIdle(c, b, o);
    ShapedEnv(c, st.seen, AddIdle(c, b), o);
    var d := AddEnv(c, st.seen, AddIdle(c, b));
    if st.share.Some? {
      ShapedShare(d, st.share.value, o, c.dst);
    }
    ShareLinePlain(c);
    ShapedShare(AddLegacy(st.share, d), ShareLine(c), o, c.dst);
  }

  lemma ShareLinePlain(c: Clone)
    ensures Plain(ShareLine(c))
  {
    hide Plain;
    DeepPlain(ShareLine(c));
  }

  // ---------------------------------------------------------------------------------------
  // The round trip
  // ---------------------------------------------------------------------------------------

  /** The source has a block that holds its name and is indented with spaces; the new name is free. */
  ghost predicate Clonable(f: File, c: Clone) {
    && GoodNames(c) && Locate(f, c.src).Some? && FindName(f, c.dst, 0) == |f|
    && (var b := Locate(f, c.src).value;
        && FindName(f, c.src, 0) < b.end
        && forall i :: b.start <= i < b.end ==> SpaceIndented(f[i]))
  }

  /** The parts of a located block around the line with the name. */
  lemma BlockParts(f: File, name: string) returns (a: File, l: string, d: File)
    requires Locate(f, name).Some? && FindName(f, name, 0) < Locate(f, name).value.end && IsName(name)
             && OutsideKey(name)
    ensures var b := Locate(f, name).value;
            && IsHeader(f[b.start]) && f[b.start + 1..b.end] == a + [l] + d
            && AllPlain(a) && Plain(l) && AllQuiet(d) && NameOf(l) == Some(name)
  {
    hide NameOf, IsHeader, EndsBlock, FindName, HeaderBefore, BlockEnd, IsTopLevel, OutsideKey, IsName;
    var i := FindName(f, name, 0);
    var b := Locate(f, name).value;
    RenamedName(f[i], name, name);
    HeaderEnds(f[b.start]);
    assert b.start < i;
    a, l, d := f[b.start + 1..i], f[i], f[i + 1..b.end];
    assert f[b.start + 1..b.end] == a + [l] + d;
    forall j | b.start < j < b.end
      ensures Quiet(f[j]) && (j <= i ==> Plain(f[j]))
    {
      EndsBlockIs(f[j]);
    }
  }

  lemma HeaderEnds(l: string)
    requires IsHeader(l)
    ensures EndsWithColon(l)
  {
  }

  lemma CloneIsShaped(f: File, c: Clone)
    requires Clonable(f, c)
    ensures var b := Locate(f, c.src).value;
            && SpaceIndented(f[b.start]) && IsHeader(f[b.start])
            && Shaped(NewBlock(c, f[b.start..b.end]), FirstLine(c, f[b.start]), c.dst)
  {
    hide NameOf, IsHeader, EndsBlock, FindName, Locate, Plain, Quiet, SpaceIndented, FirstLine, Extends, Named,
      GoodNames;
    hide CopyLine, CopyLines, Header, Finish, Shaped, ShareOk;
    LocateBounds(f, c.src);
    var b := Locate(f, c.src).value;
    var h := f[b.start];
    assert IsName(c.src) && OutsideKey(c.src) by { SourceName(c); }
    var a, l, d := BlockParts(f, c.src);
    var st := CopyLine(c, START, h, Header(c));
    CopyHeader(c, h);
    PartsIndented(f, b, a, l, d);
    CopyNamed(c, st, a, l, d);
    var r := CopyLines(c, st, a + [l] + d);
    assert f[b.start..b.end][0] == h && f[b.start..b.end][1..] == a + [l] + d;
    CopyShaped(st, r, FirstLine(c, h), c.dst);
    ShapedFinish(c, r, FirstLine(c, h));
  }

  lemma SourceName(c: Clone)
    requires GoodNames(c)
    ensures IsName(c.src) && OutsideKey(c.src)
  {
  }

  lemma PartsIndented(f: File, b: Block, a: File, l: string, d: File)
    requires b.start < b.end <= |f| && f[b.start + 1..b.end] == a + [l] + d
    requires forall i :: b.start <= i < b.end ==> SpaceIndented(f[i])
    requires AllPlain(a) && Plain(l) && AllQuiet(d)
    ensures GoodLines(a) && GoodLines([l]) && GoodLines(d)
  {
    hide Plain, Quiet, SpaceIndented;
    var ls := a + [l] + d;
    forall i | 0 <= i < |ls|
      ensures SpaceIndented(ls[i])
    {
      assert f[b.start + 1..b.end][i] == f[b.start + 1 + i];
    }
    assert forall i :: 0 <= i < |a| ==> a[i] == ls[i];
    assert l == ls[|a|];
    assert forall i :: 0 <= i < |d| ==> d[i] == ls[|a| + 1 + i];
    forall k | Plain(k)
      ensures Quiet(k)
    {
      PlainIsQuiet(k);
    }
  }

  lemma CopyShaped(st: Copying, r: Copying, o: string, name: string)
    requires |st.out| >= 2 && st.out[0] == "" && st.out[1] == o && AllPlain(st.out[2..])
    requires Extends(st, r, false) && |st.out| <= |r.out| && Named(r.out[|st.out|..], name)
    ensures Shaped(r.out, o, name)
  {
    hide Plain, Quiet, NameOf;
    var front, tail := st.out[2..], r.out[|st.out|..];
    assert r.out == st.out + tail;
    assert r.out[2..] == front + tail;
    var n :| 0 <= n < |tail| && NameOf(tail[n]) == Some(name) && AllPlain(tail[..n + 1]);
    assert (front + tail)[..|front| + n + 1] == front + tail[..n + 1];
    assert (front + tail)[|front| + n] == tail[n];
    forall k | Plain(k)
      ensures Quiet(k)
    {
      PlainIsQuiet(k);
    }
  }

  /** The first line with the name is in the new block, with no header between. */
  lemma NameInClone(f: File, nb: File, o: string, name: string)
    requires FindName(f, name, 0) == |f| && Shaped(nb, o, name) && NameOf(o) != Some(name)
    ensures var i := FindName(f + nb, name, 0);
            |f| + 2 <= i < |f + nb| && forall j :: |f| + 1 < j <= i ==> Plain((f + nb)[j])
  {
    hide NameOf, Plain, Quiet, FindName;
    var g := f + nb;
    var i := FindName(g, name, 0);
    var n :| 0 <= n < |nb[2..]| && NameOf(nb[2..][n]) == Some(name) && AllPlain(nb[2..][..n + 1]);
    assert g[|f| + 2 + n] == nb[2..][n];
    assert i <= |f| + 2 + n;
    assert forall j :: 0 <= j < |f| ==> g[j] == f[j];
    assert g[|f|] == "" && g[|f| + 1] == o;
    BlankIsNoName();
    forall j | |f| + 1 < j <= i
      ensures Plain(g[j])
    {
      assert g[j] == nb[2..][..n + 1][j - |f| - 2];
    }
  }

  lemma BlankIsNoName()
    ensures NameOf("") == None && Plain("")
  {
  }

  /** Neither a new header nor a rewritten one names an instance. */
  lemma FirstLineNamesNone(c: Clone, h: string)
    requires GoodNames(c)
    ensures NameOf(FirstLine(c, h)).None? || FirstLine(c, h) == Header(c)
  {
    hide IsSpace, NameOf, Decimal, Comment, HasKey, Header;
    var n := Indent(h);
    SpacesAreSpace();
    FlagLetters();
    var o := FirstLine(c, h);
    if KeyRule(c, h, Header(c)).Some? {
      assert o[n] in ['r', 'b', 'c', 's', 'd'];
      FirstCharacter(o, n);
    }
  }

  lemma HeaderNamesNone(c: Clone)
    requires GoodNames(c)
    ensures NameOf(Header(c)) != Some(c.dst)
  {
    hide NameOf, OutsideKey;
    HeaderFacts(c);
    HeaderEnds(Header(c));
    if NameOf(Header(c)) == Some(c.dst) {
      var p := NamePartsOf(Header(c), c.dst);
      PartsNameIt(p, c.dst);
    }
  }

  lemma FirstLineIsNoName(c: Clone, h: string)
    requires GoodNames(c)
    ensures NameOf(FirstLine(c, h)) != Some(c.dst)
  {
    hide NameOf, GoodNames, FirstLine, Header;
    FirstLineNamesNone(c, h);
    HeaderNamesNone(c);
  }

  /** With a header the new block is located as it was appended. */
  lemma LocateClone(f: File, nb: File, o: string, name: string)
    requires FindName(f, name, 0) == |f| && Shaped(nb, o, name) && NameOf(o) != Some(name) && IsHeader(o)
    ensures Locate(f + nb, name) == Some(Block(|f| + 1, |f + nb|))
  {
    hide NameOf, IsHeader, EndsBlock, FindName, HeaderBefore, BlockEnd, IsTopLevel;
    NameInClone(f, nb, o, name);
    var g := f + nb;
    var i := FindName(g, name, 0);
    assert g[|f| + 1] == o;
    assert HeaderBefore(g, i) == Some(|f| + 1);
    forall j | |f| + 2 <= j < |g|
      ensures !EndsBlock(g[j])
    {
      assert g[j] == nb[2..][j - |f| - 2];
    }
    assert BlockEnd(g, |f| + 2) == |g|;
  }

  lemma NoEndInside(f: File, nb: File, o: string, name: string)
    requires Shaped(nb, o, name) && !IsHeader(o) && !IsTopLevel(o)
    ensures forall j :: |f| <= j < |f + nb| ==> !EndsBlock((f + nb)[j])
  {
    hide NameOf, IsHeader, IsTopLevel, Named;
    BlankIsNoName();
    forall j | |f| <= j < |f + nb|
      ensures !EndsBlock((f + nb)[j])
    {
      assert (f + nb)[j] == nb[j - |f|];
      assert j - |f| >= 2 ==> nb[j - |f|] == nb[2..][j - |f| - 2];
    }
  }

  /** Without a header the located block, if any, starts in the original lines. */
  lemma LocateElsewhere(f: File, nb: File, o: string, name: string)
    requires FindName(f, name, 0) == |f| && Shaped(nb, o, name) && NameOf(o) != Some(name)
    requires !IsHeader(o) && !IsTopLevel(o)
    ensures match Locate(f + nb, name)
            case None => true
            case Some(b) => b.start < |f| && (b.end <= |f| || b.end == |f + nb|)
  {
    hide NameOf, IsHeader, EndsBlock, FindName, HeaderBefore, BlockEnd, IsTopLevel, Shaped;
    NameInClone(f, nb, o, name);
    NoEndInside(f, nb, o, name);
    ShapedLength(nb, o, name);
    BlankIsNoName();
    var g := f + nb;
    assert g[|f|] == "" && g[|f| + 1] == o by { ShapedFront(nb, o, name); }
    assert forall j :: |f| <= j <= FindName(g, name, 0) ==> !IsHeader(g[j]);
  }

  lemma ShapedFront(nb: File, o: string, name: string)
    requires Shaped(nb, o, name)
    ensures |nb| >= 2 && nb[0] == "" && nb[1] == o
  {
  }

  /** Without a header a removal does not give back the original lines. */
  lemma RemoveMisses(f: File, nb: File, o: string, name: string)
    requires FindName(f, name, 0) == |f| && Shaped(nb, o, name) && NameOf(o) != Some(name)
    requires !IsHeader(o) && !IsTopLevel(o)
    ensures Remove(f + nb, name) != f + [""]
  {
    hide NameOf, IsHeader, FindName, Locate, IsTopLevel, Shaped;
    NameInClone(f, nb, o, name);
    LocateElsewhere(f, nb, o, name);
    var g := f + nb;
    LocateBounds(g, name);
    var i := FindName(g, name, 0);
    if Locate(g, name).Some? {
      var b := Locate(g, name).value;
      var r := g[..b.start] + g[b.end..];
      if b.end <= |f| {
        assert r[i - (b.end - b.start)] == g[i];
        NamesDiffer(f, r, i - (b.end - b.start), name);
      }
    } else {
      NamesDiffer(f, g, i, name);
    }
  }

  lemma NamesDiffer(f: File, r: File, i: nat, name: string)
    requires FindName(f, name, 0) == |f| && i < |r| && NameOf(r[i]) == Some(name)
    ensures r != f + [""]
  {
    hide NameOf, FindName;
    BlankIsNoName();
    assert forall j :: 0 <= j < |f| + 1 ==> NameOf((f + [""])[j]) != Some(name);
  }

  /** Removing what a clone appended gives back the original lines and one blank line, exactly if
      the new service name was kept as a header. The original lines are in front in either case. */
  lemma RemoveUndoesAppend(f: File, c: Clone)
    requires Clonable(f, c)
    ensures Append(f, c).Some? && f <= Append(f, c).value
    ensures Remove(Append(f, c).value, c.dst) == f + [""] <==> HeaderKept(c, f[Locate(f, c.src).value.start])
  {
    hide NameOf, IsHeader, IsTopLevel, FindName, Locate, Shaped, GoodNames, HeaderKept, FirstLine, NewBlock,
      SpaceIndented;
    LocateBounds(f, c.src);
    var b := Locate(f, c.src).value;
    var h := f[b.start];
    var nb := NewBlock(c, f[b.start..b.end]);
    var o := FirstLine(c, h);
    CloneIsShaped(f, c);
    FirstLineIs(c, h);
    FirstLineIsNoName(c, h);
    if IsHeader(o) {
      LocateClone(f, nb, o, c.dst);
      ShapedLength(nb, o, c.dst);
      assert (f + nb)[..|f| + 1] == f + [""];
    } else {
      RemoveMisses(f, nb, o, c.dst);
    }
  }

  /** The first line of the clone ends the block before it exactly if it is a header. */
  lemma FirstLineEnds(c: Clone, h: string)
    requires GoodNames(c) && IsHeader(h) && SpaceIndented(h) && HeaderKept(c, h)
    ensures EndsBlock(FirstLine(c, h))
  {
    hide IsSpace, NameOf, Decimal, Comment, HasKey, Header, GoodNames, EndsWithColon, IsTopLevel;
    var n := Indent(h);
    SpacesAreSpace();
    FlagLetters();
    FirstLineIs(c, h);
    var o := FirstLine(c, h);
    if KeyRule(c, h, Header(c)).Some? {
      assert o[n] in ['r', 'b', 'c', 's', 'd'];
      FirstCharacter(o, n);
    } else {
      HeaderFacts(c);
      ShortIsName(c);
      IdentIsNoSpace(Short(c)[0]);
      NameIsNoComment(c);
    }
  }

  lemma NameIsNoComment(c: Clone)
    requires GoodNames(c) && TrimStart(Header(c)) == Short(c) + ":"
    ensures !FirstIs(Header(c), '#')
  {
    ShortIsName(c);
  }

  /** Every other instance is located as before; only a block at the end of the file gets the blank
      line in addition. */
  lemma AppendKeepsOthers(f: File, c: Clone, other: string)
    requires Clonable(f, c) && HeaderKept(c, f[Locate(f, c.src).value.start]) && Locate(f, other).Some?
    ensures var b := Locate(f, other).value;
            Locate(Append(f, c).value, other) == Some(Block(b.start, if b.end < |f| then b.end else |f| + 1))
  {
    hide NameOf, IsHeader, IsTopLevel, FindName, Locate, Shaped, GoodNames, HeaderKept, FirstLine, NewBlock,
      SpaceIndented, EndsBlock;
    LocateBounds(f, c.src);
    var b := Locate(f, c.src).value;
    var h := f[b.start];
    var nb := NewBlock(c, f[b.start..b.end]);
    CloneIsShaped(f, c);
    FirstLineEnds(c, h);
    ShapedFront(nb, FirstLine(c, h), c.dst);
    LocateInFront(f, nb, other);
  }

  lemma LocateInFront(f: File, nb: File, other: string)
    requires |nb| >= 2 && nb[0] == "" && EndsBlock(nb[1]) && Locate(f, other).Some?
    ensures var b := Locate(f, other).value;
            Locate(f + nb, other) == Some(Block(b.start, if b.end < |f| then b.end else |f| + 1))
  {
    hide NameOf, IsHeader, IsTopLevel, EndsBlock, FindName, HeaderBefore, BlockEnd;
    var g := f + nb;
    BlankEndsNothing();
    assert forall j :: 0 <= j < |f| ==> g[j] == f[j];
    assert g[|f|] == "" && g[|f| + 1] == nb[1];
    var i := FindName(f, other, 0);
    assert FindName(g, other, 0) == i;
    assert HeaderBefore(g, i) == HeaderBefore(f, i);
    var s := HeaderBefore(f, i).value;
    var e := BlockEnd(f, s + 1);
    assert BlockEnd(g, s + 1) == if e < |f| then e else |f| + 1;
  }

  lemma BlankEndsNothing()
    ensures !EndsBlock("")
  {
  }

  // ---------------------------------------------------------------------------------------
  // A header that is lost
  // ---------------------------------------------------------------------------------------

  const SMALL: File := ["  t:", "    nkr_name: s"]

  lemma SmallLines()
    ensures IsHeader(SMALL[0]) && NameOf(SMALL[0]).None? && SpaceIndented(SMALL[0])
    ensures NameOf(SMALL[1]) == Some("s") && !IsHeader(SMALL[1]) && !EndsBlock(SMALL[1]) && SpaceIndented(SMALL[1])
  {
    hide IsSpace, NameOf, Trim, TrimStart, TrimEnd, LineOfParts;
    SpacesAreSpace();
    ColonIsNoSpace();
    assert !IsSpace('t') && !IsSpace('n') by { SmallLetters(); }
    FirstCharacter(SMALL[0], 2);
    TrimEndIs(SMALL[0], 4);
    FirstCharacter(SMALL[1], 4);
    var p := Parts("    ", 1, " ", "", "", "", "", "");
    SmallParts(p);
    PartsNameIt(p, "s");
  }

  lemma SmallLetters()
    ensures !IsSpace('t') && !IsSpace('n') && IsName("s") && IsName("disabled")
  {
  }

  lemma SmallParts(p: Parts)
    requires p == Parts("    ", 1, " ", "", "", "", "", "")
    ensures GoodParts(p) && IsName("s") && LineOfParts(p, "s") == "    nkr_name: s"
  {
    SmallLetters();
    assert Keys(1) == NAME_KEY;
    assert NAME_KEY == "nkr_name:";
  }

  /** A clone that cannot be removed: a service named "disabled" loses its header to the rule for the
      key of that name. */
  lemma HeaderIsLost() returns (f: File, c: Clone)
    ensures Clonable(f, c) && Append(f, c).Some? && Remove(Append(f, c).value, c.dst) != f + [""]
  {
    hide NameOf, IsHeader, EndsBlock, SpaceIndented, IsIdent, Contains;
    f := SMALL;
    c := Clone("s", "disabled", "c", 2, [], Resources(None, None, None), None, None, false, false, "");
    SmallLines();
    SmallLetters();
    ContainsNeeds("nkr_name", "s", 0);
    assert "disabled"[0] == 'd' && ("c" + "-")[0] == 'c' && "s"[0] == 's';
    assert !StartsWith("disabled", "c" + "-");
    assert "s" != "disabled";
    assert FindName(f, "s", 0) == 1 && FindName(f, "disabled", 0) == 2;
    assert HeaderBefore(f, 1) == Some(0);
    assert BlockEnd(f, 1) == 2;
    assert Clonable(f, c);
    hide Clonable, Append, Remove, Locate;
    RemoveUndoesAppend(f, c);
  }
}
