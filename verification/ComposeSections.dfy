/**
 Environment sections of a cloned block: under each of them stand all injected variables.
 */
module ComposeSections {
  import opened Wrappers
  import opened Text
  import opened Compose
  import opened ComposeEdits
  import opened ComposePatch
  import opened ComposeClone
  import opened ComposeNames
  import opened ComposeRoundTrip
  import opened ComposeEnv
  import opened ComposeValues
  import opened ComposeContent
  import opened ComposeLines
  import opened ComposeCounts

  lemma RenamedIndent(c: Clone, l: string)
    requires IsName(c.src) && IsName(c.dst)
    ensures Indent(Renamed(c, l)) == Indent(l)
  {
    hide IsName, WithValue, Replace, HasKey, Remark;
    KeyNames();
    DecidedFacts("id");
    if HasKey(l, ID) {
      WithValueKeeps(l, "id", c.vmId);
    } else {
      TrimStartReplace(l, c.src, c.dst);
    }
  }

  // ---------------------------------------------------------------------------------------
  // Variables
  // ---------------------------------------------------------------------------------------

  /** The injected variables, each with its value in quotes, under a section line with the indent n. */
  function Given(env: seq<(string, string)>, n: nat): (b: File)
    ensures |b| == |env|
  {
    seq(|env|, k requires 0 <= k < |env| => Spaces(n + 2) + (env[k].0 + ": \"" + env[k].1 + "\""))
  }

  /** They follow line i. */
  ghost predicate VariablesFollow(c: Clone, b: File, i: nat)
    requires i < |b|
  {
    i + |c.env| < |b| && b[i + 1..i + 1 + |c.env|] == Given(c.env, Indent(b[i]))
  }

  ghost predicate IsSection(l: string) {
    Field(l, "environment").Some?
  }

  /** They follow every environment line behind the header. */
  ghost predicate VariablesOk(c: Clone, b: File) {
    forall i :: 2 <= i < |b| && IsSection(b[i]) ==> VariablesFollow(c, b, i)
  }

  lemma PushedOk(c: Clone, b: File, x: File)
    requires VariablesOk(c, b) && forall k :: 0 <= k < |x| ==> !IsSection(x[k])
    ensures VariablesOk(c, b + x)
  {
    hide IsSection, Indent, Given;
    var d := b + x;
    forall i | |b| <= i < |d|
      ensures !IsSection(d[i])
    {
      assert d[i] == x[i - |b|];
    }
    forall i | 2 <= i < |b| && IsSection(b[i])
      ensures d[i] == b[i] && VariablesFollow(c, d, i)
    {
      assert VariablesFollow(c, b, i);
      assert d[i + 1..i + 1 + |c.env|] == b[i + 1..i + 1 + |c.env|];
    }
    assert forall i :: 0 <= i < |b| ==> d[i] == b[i];
  }

  lemma EnvLinesGiven(n: nat, env: seq<(string, string)>)
    ensures EnvLines(n + 2, env) == Given(env, n)
  {
    forall k | 0 <= k < |env|
      ensures EnvLines(n + 2, env)[k] == Given(env, n)[k]
    {
      assert EnvLine(n + 2, env[k]) == Spaces(n + 2) + (env[k].0 + ": \"" + env[k].1 + "\"");
    }
  }

  lemma EnvIsNoSection(c: Clone, n: nat)
    requires EnvApart(c, "environment")
    ensures forall k :: 0 <= k < |c.env| ==> !IsSection(EnvLine(n, c.env[k]))
  {
    hide IsName, KeyOf, Field, EnvLine;
    EnvironmentIsReserved("x");
    forall k | 0 <= k < |c.env|
      ensures !IsSection(EnvLine(n, c.env[k]))
    {
      EnvLineKey(n, c.env[k]);
      EnvironmentColon();
      OtherFits(EnvLine(n, c.env[k]), "environment", "");
    }
  }

  lemma EnvironmentColon()
    ensures ':' !in "environment" && ENVIRONMENT == "environment" + ":" && HEALTHCHECK == "healthcheck" + ":"
            && ':' !in "healthcheck"
  {
  }

  lemma SectionPushed(c: Clone, b: File, s: string, n: nat)
    requires VariablesOk(c, b) && EnvApart(c, "environment") && n == Indent(s) + 2
    ensures VariablesOk(c, b + ([s] + EnvLines(n, c.env)))
  {
    hide IsSection, Indent, EnvLine, Given;
    var env := EnvLines(n, c.env);
    var d := b + ([s] + env);
    EnvIsNoSection(c, n);
    EnvLinesGiven(Indent(s), c.env);
    forall i | |b| < i < |d|
      ensures !IsSection(d[i])
    {
      assert d[i] == env[i - |b| - 1];
    }
    forall i | 2 <= i < |b| && IsSection(b[i])
      ensures d[i] == b[i] && VariablesFollow(c, d, i)
    {
      assert VariablesFollow(c, b, i);
      assert d[i + 1..i + 1 + |c.env|] == b[i + 1..i + 1 + |c.env|];
    }
    assert d[|b|] == s && d[|b| + 1..|b| + 1 + |c.env|] == env;
    assert VariablesFollow(c, d, |b|);
    assert forall i :: 0 <= i < |b| ==> d[i] == b[i];
  }

  lemma NoSectionIn(c: Clone, l: string, s: string)
    requires !HasKey(s, ENVIRONMENT)
    ensures !IsSection(s)
    ensures HealthRule(s).Some? ==> !IsSection(HealthRule(s).value)
  {
    hide HasKey, Field, HealthRule;
    EnvironmentColon();
    FieldIsKey(s, "environment");
    if HealthRule(s).Some? {
      HealthKeepsKey(s, "environment");
    }
  }

  lemma CopyLineVariables(c: Clone, st: Copying, l: string, s: string)
    requires VariablesOk(c, st.out) && EnvApart(c, "environment") && (Indent(s) == Indent(l) || st.out == [""])
    ensures VariablesOk(c, CopyLine(c, st, l, s).out)
  {
    hide IsSection, Indent, HasKey, KeyRule, HealthRule, CopyLine, IsLegacyShare, IsEnterprise, IsEnvKey, EnvLines,
      TrimEnd, KeyOf, EnvApart, VariablesOk;
    var x := AddedAre(c, st, l, s);
    if KeyRule(c, l, s).Some? {
      RulesDiffer(c, l, s);
      NoSectionIn(c, l, s);
      EnvironmentColon();
      RuleKeepsKey(c, l, s, "environment");
      assert !IsSection(x[0]) by { SectionIs(x[0], s); }
      PushedOk(c, st.out, x);
    } else if HasKey(s, ENVIRONMENT) {
      if st.out == [""] {
        FirstSection(c, s, Indent(l) + 2);
      } else {
        SectionPushed(c, st.out, s, Indent(l) + 2);
      }
    } else {
      NoSectionIn(c, l, s);
      PushedOk(c, st.out, x);
    }
  }

  lemma SectionIs(x: string, s: string)
    requires (Field(x, "environment").Some? <==> Field(s, "environment").Some?) && !IsSection(s)
    ensures !IsSection(x)
  {
  }

  /** A header called `environment` is not looked at. */
  lemma FirstSection(c: Clone, s: string, n: nat)
    requires EnvApart(c, "environment")
    ensures VariablesOk(c, [""] + ([s] + EnvLines(n, c.env)))
  {
    hide IsSection, EnvLine, Indent;
    EnvIsNoSection(c, n);
    var d := [""] + ([s] + EnvLines(n, c.env));
    forall i | 2 <= i < |d|
      ensures !IsSection(d[i])
    {
      assert d[i] == EnvLine(n, c.env[i - 2]);
    }
  }

  lemma {:induction false} CopyLinesVariables(c: Clone, st: Copying, ls: File)
    requires VariablesOk(c, st.out) && EnvApart(c, "environment") && IsName(c.src) && IsName(c.dst)
    ensures VariablesOk(c, CopyLines(c, st, ls).out)
    decreases |ls|
  {
    hide CopyLine, Renamed, EnvApart, VariablesOk, IsName, Indent;
    if ls != [] {
      RenamedIndent(c, ls[0]);
      CopyLineVariables(c, st, ls[0], Renamed(c, ls[0]));
      CopyLinesVariables(c, CopyLine(c, st, ls[0], Renamed(c, ls[0])), ls[1..]);
    }
  }

  /** Nothing is inserted between a section line and its variables. */
  ghost predicate Apart(c: Clone, b: File, at: nat)
    requires at <= |b|
  {
    forall i :: 2 <= i < at && IsSection(b[i]) ==> i + |c.env| < at
  }

  lemma InsertedVariables(c: Clone, b: File, at: nat, l: string)
    requires VariablesOk(c, b) && 2 <= at <= |b| && !IsSection(l) && Apart(c, b, at)
    ensures VariablesOk(c, InsertAt(b, at, l))
  {
    hide IsSection, Indent, Given;
    var m := |c.env|;
    var d := InsertAt(b, at, l);
    assert d[at] == l;
    forall i | 2 <= i < at && IsSection(b[i])
      ensures d[i] == b[i] && VariablesFollow(c, d, i)
    {
      assert VariablesFollow(c, b, i);
      assert d[i + 1..i + 1 + m] == b[i + 1..i + 1 + m];
    }
    forall i | at <= i < |b| && IsSection(b[i])
      ensures VariablesFollow(c, d, i + 1)
    {
      assert VariablesFollow(c, b, i);
      assert d[i + 2..i + 2 + m] == b[i + 1..i + 1 + m];
    }
    assert forall i :: 0 <= i < at ==> d[i] == b[i];
    forall i | at < i < |d| && IsSection(d[i])
      ensures VariablesFollow(c, d, i)
    {
      assert d[i] == b[i - 1];
    }
  }

  /** A block behind its blank line. */
  ghost predicate Standing(c: Clone, b: File) {
    VariablesOk(c, b) && 2 <= |b| && b[0] == ""
  }

  lemma InsertedStands(c: Clone, b: File, at: nat, l: string)
    requires Standing(c, b) && 2 <= at <= |b| && !IsSection(l) && Apart(c, b, at)
    ensures Standing(c, InsertAt(b, at, l)) && |InsertAt(b, at, l)| == |b| + 1 && InsertAt(b, at, l)[at] == l
  {
    hide IsSection, VariablesOk;
    InsertedVariables(c, b, at, l);
  }

  lemma PushedStands(c: Clone, b: File, x: File)
    requires Standing(c, b) && VariablesOk(c, b + x)
    ensures Standing(c, b + x)
  {
  }

  lemma HeadVariables(c: Clone, b: File, l: string)
    requires Standing(c, b) && !IsSection(l)
    ensures Standing(c, InsertHead(b, l))
  {
    hide IsSection, VariablesOk, InsertAt;
    assert Apart(c, b, 2);
    InsertedStands(c, b, 2, l);
  }

  lemma NewLineIsNoSection(k: string, n: nat)
    requires IsKey(k) && ':' !in k && k != "environment"
    ensures !IsSection(NewLine(k + ":", n))
  {
    hide Field, NewLine;
    EnvironmentColon();
    NewLineTimes([], k, n, "environment");
  }

  lemma ResourceVariables(c: Clone, seen: Seen, b: File)
    requires Standing(c, b)
    ensures Standing(c, AddBalloon(c, seen, AddChrs(c, seen, AddRam(c, seen, AddWarmup(c, seen, b)))))
  {
    hide IsSection, Standing, InsertHead, NewLine, Or;
    ResourceKeys();
    IdleKeys();
    NoEnvironment();
    HeadVariables(c, b, "    skip_warmup: true");
    var b1 := AddWarmup(c, seen, b);
    if c.want.ram.Some? {
      NewLineIsNoSection("ram", c.want.ram.value);
      HeadVariables(c, b1, NewLine(RAM, c.want.ram.value));
    }
    var b2 := AddRam(c, seen, b1);
    if c.want.chrs.Some? {
      NewLineIsNoSection("chrs", c.want.chrs.value);
      HeadVariables(c, b2, NewLine(CHRS, c.want.chrs.value));
    }
    var b3 := AddChrs(c, seen, b2);
    NewLineIsNoSection("balloon_mb", Or(c.want.balloon, 128));
    HeadVariables(c, b3, NewLine(BALLOON, Or(c.want.balloon, 128)));
  }

  lemma NoEnvironment()
    ensures "ram" != "environment" && "chrs" != "environment" && "balloon_mb" != "environment"
    ensures "balloon_idle_mb" != "environment" && "balloon_decay_secs" != "environment"
    ensures !IsSection("    skip_warmup: true") && !IsSection("    shares:")
  {
    hide Field, KeyOf;
    DecidedFacts("ram");
    DecidedFacts("skip_warmup");
    assert |"ram"| == 3 && |"chrs"| == 4 && |"balloon_mb"| == 10 && |"environment"| == 11 && |"balloon_idle_mb"| == 15
      && |"balloon_decay_secs"| == 18;
    WarmupKey();
    SectionKeys();
    EnvironmentColon();
    assert |"shares"| == 6;
    OtherFits("    skip_warmup: true", "environment", "");
    OtherFits("    shares:", "environment", "");
  }

  lemma IdleVariables(c: Clone, b: File)
    requires Standing(c, b)
    ensures Standing(c, AddIdle(c, b))
  {
    hide IsSection, VariablesOk, InsertAt, NewLine, Or;
    IdleAreKeys();
    IdleKeys();
    NoEnvironment();
    if c.idle.Some? {
      var l := NewLine(IDLE, c.idle.value);
      NewLineIsNoSection("balloon_idle_mb", c.idle.value);
      assert Apart(c, b, 2);
      InsertedStands(c, b, 2, l);
      var d := InsertAt(b, 2, l);
      if c.decay.Some? {
        NewLineIsNoSection("balloon_decay_secs", c.decay.value);
        assert Apart(c, d, 3);
        InsertedStands(c, d, 3, NewLine(DECAY, c.decay.value));
      }
    }
  }

  lemma EnvVariables(c: Clone, seen: Seen, b: File)
    requires Standing(c, b) && EnvApart(c, "environment")
    ensures Standing(c, AddEnv(c, seen, b))
  {
    hide IsSection, VariablesOk, EnvLines, Indent;
    SectionLine();
    SectionPushed(c, b, "    environment:", 6);
    var x := ["    environment:"] + EnvLines(6, c.env);
    PushedStands(c, b, x);
    assert b + x == b + ["    environment:"] + EnvLines(6, c.env);
  }

  /** A `shares:` line is no section line and none of the variables. */
  lemma SharesApart(c: Clone, b: File, i: nat)
    requires VariablesOk(c, b) && i < |b| && Trim(b[i]) == "shares:"
    ensures Apart(c, b, i + 1)
  {
    hide IsSection, Indent, Trim, Given;
    forall j | 2 <= j < |b| && IsSection(b[j])
      ensures !(j <= i <= j + |c.env|)
    {
      assert VariablesFollow(c, b, j);
      SectionIsNoShares(b[j]);
      GivenIsNoShares(c.env, Indent(b[j]));
      forall k | j < k <= j + |c.env|
        ensures Trim(b[k]) != "shares:"
      {
        assert b[k] == b[j + 1..j + 1 + |c.env|][k - j - 1];
      }
    }
  }

  lemma GivenIsNoShares(env: seq<(string, string)>, n: nat)
    ensures forall k :: 0 <= k < |env| ==> Trim(Given(env, n)[k]) != "shares:"
  {
    hide Trim;
    forall k | 0 <= k < |env|
      ensures Trim(Given(env, n)[k]) != "shares:"
    {
      QuotedIsNoShares(Spaces(n + 2), env[k].0 + ": \"" + env[k].1);
      assert Given(env, n)[k] == Spaces(n + 2) + (env[k].0 + ": \"" + env[k].1) + "\"";
    }
  }

  lemma QuotedIsNoShares(a: string, v: string)
    ensures Trim(a + v + "\"") != "shares:"
  {
    hide IsSpace;
    var s := a + v + "\"";
    QuoteIsNoSpace();
    TrimStartFacts(s);
    var t := TrimStart(s);
    assert s[|s| - 1] == '"';
    assert t != "" by { assert !(forall i :: 0 <= i < |s| ==> IsSpace(s[i])); }
    assert t[|t| - 1] == '"';
    TrimEndIs(t, |t|);
  }

  lemma QuoteIsNoSpace()
    ensures !IsSpace('"')
  {
  }

  lemma SectionIsNoShares(l: string)
    requires IsSection(l)
    ensures Trim(l) != "shares:"
  {
    hide IsSpace, TrimStart;
    var t := TrimStart(l);
    TrimEndFacts(t);
    assert "environment:"[0] == 'e' && "shares:"[0] == 's';
    assert t[0] == ("environment" + ":")[0];
  }

  lemma ShareVariables(c: Clone, b: File, l: string)
    requires Standing(c, b) && !IsSection(l)
    ensures Standing(c, AddShare(b, l))
  {
    hide IsSection, VariablesOk, Trim, InsertAt;
    var i := SharesAt(b, 0);
    NoEnvironment();
    BlankIsNoShares();
    assert SHARES == "shares:";
    if i < |b| {
      FirstShares(b, 0);
      SharesApart(c, b, i);
      InsertedStands(c, b, i + 1, l);
    } else {
      PushedOk(c, b, ["    shares:"]);
      PushedOk(c, b + ["    shares:"], [l]);
    }
  }

  lemma ItemIsNoSection(l: string)
    requires StartsWith(TrimStart(l), "-")
    ensures !IsSection(l)
  {
    hide TrimStart;
    assert "-"[0] == '-' && ("environment" + ":")[0] == 'e';
    assert TrimStart(l)[0] == '-';
  }

  lemma SharesAreItems(c: Clone, s: string)
    ensures StartsWith(TrimStart(ShareLine(c)), "-")
    ensures IsLegacyShare(s) ==> StartsWith(TrimStart(TrimEnd(s) + ":rw"), "-")
  {
    hide IsSpace, Contains, TrimEnd;
    KeyLetters();
    SpacesAreSpace();
    var l := ShareLine(c);
    assert l[6] == '-';
    TrimStartIs(l, 6);
    if IsLegacyShare(s) {
      TrimEndFacts(s);
      TrimStartFacts(s);
      var n := |s| - |TrimStart(s)|;
      assert "- "[0] == '-';
      assert s[n] == TrimStart(s)[0] == '-';
      var r := TrimEnd(s) + ":rw";
      assert n < |TrimEnd(s)|;
      assert forall i :: 0 <= i <= n ==> r[i] == s[i];
      TrimStartIs(r, n);
    }
  }

  lemma FinishStands(c: Clone, st: Copying)
    requires Standing(c, st.out) && EnvApart(c, "environment") && (st.share.Some? ==> !IsSection(st.share.value))
    ensures Standing(c, Finish(c, st))
  {
    hide Standing, IsSection, AddWarmup, AddRam, AddChrs, AddBalloon, AddIdle, AddEnv, AddShare, HasSystemouts,
      ShareLine, EnvApart;
    ResourceVariables(c, st.seen, st.out);
    var b := AddBalloon(c, st.seen, AddChrs(c, st.seen, AddRam(c, st.seen, AddWarmup(c, st.seen, st.out))));
    IdleVariables(c, b);
    EnvVariables(c, st.seen, AddIdle(c, b));
    var d := AddEnv(c, st.seen, AddIdle(c, b));
    if st.share.Some? { ShareVariables(c, d, st.share.value); }
    SharesAreItems(c, "");
    ItemIsNoSection(ShareLine(c));
    ShareVariables(c, AddLegacy(st.share, d), ShareLine(c));
  }

  ghost predicate ShareIsNone(st: Copying) {
    st.share.Some? ==> !IsSection(st.share.value)
  }

  lemma CopyLineShareNone(c: Clone, st: Copying, l: string, s: string)
    requires ShareIsNone(st)
    ensures ShareIsNone(CopyLine(c, st, l, s))
  {
    hide IsSection, CopyLine, KeyRule, HealthRule, IsEnvKey, KeyOf, IsLegacyShare, IsEnterprise, HasKey, EnvLines,
      TrimEnd, TrimStart, ShareLine;
    var x := AddedAre(c, st, l, s);
    SharesAreItems(c, s);
    if IsLegacyShare(s) {
      ItemIsNoSection(TrimEnd(s) + ":rw");
    }
  }

  /** An environment section that was seen was copied. */
  ghost predicate SectionSeen(st: Copying) {
    st.seen.env ==> exists i :: 0 <= i < |st.out| && IsSection(st.out[i])
  }

  lemma CopyLineSection(c: Clone, st: Copying, l: string, s: string)
    requires SectionSeen(st)
    ensures SectionSeen(CopyLine(c, st, l, s))
  {
    hide IsSection, HasKey, KeyRule, HealthRule, IsEnvKey, KeyOf, IsLegacyShare, IsEnterprise, EnvLines, TrimEnd;
    var r := CopyLine(c, st, l, s);
    OutGrows(c, st, l, s);
    SeenEnvKept(st.seen, s);
    SectionKeepsSeen(c, st.(seen := SeeKeys(st.seen, s)), l, s);
    if st.seen.env {
      var i :| 0 <= i < |st.out| && IsSection(st.out[i]);
      assert r.out[i] == st.out[i];
    } else if KeyRule(c, l, s).None? && HasKey(s, ENVIRONMENT) {
      KeyIsSection(s);
      assert r.out[|st.out|] == s;
    }
  }

  lemma KeyIsSection(s: string)
    requires HasKey(s, ENVIRONMENT)
    ensures IsSection(s)
  {
    hide Field;
    EnvironmentColon();
    FieldIsKey(s, "environment");
  }

  lemma {:induction false} CopyLinesStand(c: Clone, st: Copying, ls: File)
    requires ShareIsNone(st) && SectionSeen(st)
    ensures ShareIsNone(CopyLines(c, st, ls)) && SectionSeen(CopyLines(c, st, ls))
    decreases |ls|
  {
    hide CopyLine, Renamed, ShareIsNone, SectionSeen;
    if ls != [] {
      CopyLineShareNone(c, st, ls[0], Renamed(c, ls[0]));
      CopyLineSection(c, st, ls[0], Renamed(c, ls[0]));
      CopyLinesStand(c, CopyLine(c, st, ls[0], Renamed(c, ls[0])), ls[1..]);
    }
  }

  /** The blank line and something in place of the header come first. */
  lemma TwoLines(c: Clone, l: string)
    requires GoodNames(c)
    ensures var st := CopyLine(c, START, l, Header(c)); |st.out| >= 2 && st.out[0] == ""
  {
    hide GoodNames, HasKey, KeyRule, HealthRule, IsEnvKey, KeyOf, IsLegacyShare, IsEnterprise, EnvLines, Header,
      TrimEnd;
    HeaderFacts(c);
  }

  lemma CopyStands(c: Clone, ls: File)
    requires ls != [] && EnvApart(c, "environment") && GoodNames(c)
    ensures Standing(c, CopyBlock(c, ls).out) && ShareIsNone(CopyBlock(c, ls)) && SectionSeen(CopyBlock(c, ls))
  {
    hide CopyLine, CopyLines, VariablesOk, EnvApart, Header, IsSection, IsName;
    var st := CopyLine(c, START, ls[0], Header(c));
    TwoLines(c, ls[0]);
    assert VariablesOk(c, START.out) by { StartVariables(c); }
    CopyLineVariables(c, START, ls[0], Header(c));
    CopyLinesVariables(c, st, ls[1..]);
    LinesGrow(c, st, ls[1..]);
    CopyLineShareNone(c, START, ls[0], Header(c));
    CopyLineSection(c, START, ls[0], Header(c));
    CopyLinesStand(c, st, ls[1..]);
  }

  lemma StartVariables(c: Clone)
    ensures VariablesOk(c, START.out)
  {
  }

  /** Under every environment line of the new block, except a header of that name, stand all injected variables
      with their values, indented by two more than the line; and there is such a line if there are any. */
  lemma VariablesStand(c: Clone, ls: File)
    requires ls != [] && EnvApart(c, "environment") && GoodNames(c)
    ensures var b := NewBlock(c, ls);
            && (forall i :: 2 <= i < |b| && Field(b[i], "environment").Some? ==>
                  i + |c.env| < |b| && b[i + 1..i + 1 + |c.env|] == Given(c.env, Indent(b[i])))
            && (c.env != [] ==> exists i :: 0 <= i < |b| && Field(b[i], "environment").Some?)
  {
    hide CopyBlock, Finish, EnvApart, GoodNames, Field, Indent, Given;
    CopyStands(c, ls);
    FinishStands(c, CopyBlock(c, ls));
    if c.env != [] { SectionStays(c, CopyBlock(c, ls)); }
  }

  lemma SectionStays(c: Clone, st: Copying)
    requires SectionSeen(st) && c.env != []
    ensures exists i :: 0 <= i < |Finish(c, st)| && Field(Finish(c, st)[i], "environment").Some?
  {
    hide Finish, Field;
    var b := Finish(c, st);
    var l: string;
    if st.seen.env {
      var i :| 0 <= i < |st.out| && IsSection(st.out[i]);
      l := st.out[i];
      StaysIn(l, c, st);
    } else {
      l := "    environment:";
      SectionAdded(c, st);
      SectionLine();
      KeyIsSection(l);
    }
    var j :| 0 <= j < |b| && b[j] == l;
  }

  lemma SectionAdded(c: Clone, st: Copying)
    requires !st.seen.env && c.env != []
    ensures "    environment:" in Finish(c, st)
  {
    hide AddWarmup, AddRam, AddChrs, AddBalloon, AddIdle, AddShare, HasSystemouts, ShareLine, EnvLines;
    var b := AddIdle(c, AddBalloon(c, st.seen, AddChrs(c, st.seen, AddRam(c, st.seen, AddWarmup(c, st.seen, st.out)))));
    var d := AddEnv(c, st.seen, b);
    assert d[|b|] == "    environment:";
    if st.share.Some? { SharePuts(d, st.share.value); }
    SharePuts(AddLegacy(st.share, d), ShareLine(c));
  }
}
