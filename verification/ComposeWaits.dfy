/**
 Healthchecks of a cloned block: their waiting times are cut short.
 */
module ComposeWaits {
  import opened Wrappers
  import opened Text
  import opened Compose
  import opened ComposeEdits
  import opened ComposePatch
  import opened ComposeClone
  import opened ComposeNames
  import opened ComposeRoundTrip
  import opened ComposeEnv
  import opened ComposeValues
  import opened ComposeContent
  import opened ComposeLines
  import opened ComposeCounts
  import opened ComposeSections

  /** Line i stands in the healthcheck that begins at line j: all lines in between are indented by more than
      four. */
  ghost predicate InCheck(b: File, j: nat, i: nat) {
    j < i < |b| && Field(b[j], "healthcheck").Some? && forall k :: j < k <= i ==> Indent(b[k]) > 4
  }

  predicate ShortWaits(l: string) {
    && (Field(l, "initial_delay").Some? ==> Field(l, "initial_delay") == Some("3"))
    && (Field(l, "interval").Some? ==> Field(l, "interval") == Some("1"))
    && (Field(l, "retries").Some? ==> Field(l, "retries") == Some("30"))
  }

  /** It has no key of a healthcheck. */
  predicate Waitless(l: string) {
    && Field(l, "initial_delay").None? && Field(l, "interval").None? && Field(l, "retries").None?
    && Field(l, "healthcheck").None?
  }

  ghost predicate WaitsOk(b: File) {
    forall j: nat, i: nat :: InCheck(b, j, i) ==> ShortWaits(b[i])
  }

  /** The end of b still stands in a healthcheck. */
  ghost predicate Open(b: File) {
    exists j :: 0 <= j < |b| && Field(b[j], "healthcheck").Some? && forall k :: j < k < |b| ==> Indent(b[k]) > 4
  }

  lemma OpenAfter(b: File, x: string)
    requires Open(b + [x]) && Field(x, "healthcheck").None?
    ensures Open(b) && Indent(x) > 4
  {
    hide Field, Indent;
    var d := b + [x];
    var j :| 0 <= j < |d| && Field(d[j], "healthcheck").Some? && forall k :: j < k < |d| ==> Indent(d[k]) > 4;
    assert d[|b|] == x;
    assert j < |b| && d[j] == b[j];
    assert forall k :: j < k < |b| ==> d[k] == b[k];
  }

  lemma WaitsPushed(b: File, x: string)
    requires WaitsOk(b) && (Open(b) && Indent(x) > 4 ==> ShortWaits(x))
    ensures WaitsOk(b + [x])
  {
    hide Field, Indent, ShortWaits;
    var d := b + [x];
    assert d[|b|] == x;
    forall j: nat, i: nat | InCheck(d, j, i)
      ensures ShortWaits(d[i])
    {
      assert forall k :: 0 <= k < |b| ==> d[k] == b[k];
      if i < |b| {
        assert InCheck(b, j, i);
      } else {
        assert i == |b| && Open(b);
      }
    }
  }

  lemma {:induction false} QuietPushed(b: File, x: File)
    requires WaitsOk(b) && forall i :: 0 <= i < |x| ==> Waitless(x[i])
    ensures WaitsOk(b + x) && (Open(b + x) ==> Open(b))
    decreases |x|
  {
    hide WaitsOk, Open, Waitless;
    if x == [] {
      assert b + x == b;
    } else {
      WaitlessIsShort(x[0]);
      WaitsPushed(b, x[0]);
      if Open(b + [x[0]]) { OpenAfter(b, x[0]); }
      assert forall i :: 0 <= i < |x[1..]| ==> x[1..][i] == x[i + 1];
      QuietPushed(b + [x[0]], x[1..]);
      assert b + [x[0]] + x[1..] == b + x;
    }
  }

  lemma WaitlessIsShort(l: string)
    requires Waitless(l)
    ensures ShortWaits(l) && Field(l, "healthcheck").None?
  {
  }

  lemma WaitsInserted(b: File, at: nat, l: string)
    requires at <= |b| && WaitsOk(b) && Waitless(l)
    ensures WaitsOk(InsertAt(b, at, l))
  {
    hide Field, Indent, ShortWaits;
    WaitlessIsShort(l);
    var d := InsertAt(b, at, l);
    assert d[at] == l;
    forall j: nat, i: nat | InCheck(d, j, i)
      ensures ShortWaits(d[i])
    {
      assert forall k :: 0 <= k < at ==> d[k] == b[k];
      assert forall k :: at < k < |d| ==> d[k] == b[k - 1];
      if i != at {
        var j1, i1 := if j < at then j else j - 1, if i < at then i else i - 1;
        assert j != at;
        forall k | j1 < k <= i1
          ensures Indent(b[k]) > 4
        {
          assert b[k] == if k < at then d[k] else d[k + 1];
        }
        assert InCheck(b, j1, i1);
      }
    }
  }

  lemma HeadWaits(b: File, l: string)
    requires WaitsOk(b) && Waitless(l)
    ensures WaitsOk(InsertHead(b, l))
  {
    hide WaitsOk, Waitless, InsertAt;
    WaitsInserted(b, if |b| < 2 then |b| else 2, l);
  }

  lemma ShareWaits(b: File, l: string)
    requires WaitsOk(b) && Waitless(l)
    ensures WaitsOk(AddShare(b, l))
  {
    hide WaitsOk, Waitless, InsertAt, SharesAt;
    FixedWaits();
    var i := SharesAt(b, 0);
    if i < |b| {
      WaitsInserted(b, i + 1, l);
    } else {
      QuietPushed(b, ["    shares:"]);
      QuietPushed(b + ["    shares:"], [l]);
    }
  }

  /** A line with another key. */
  lemma OtherIsWaitless(l: string)
    requires KeyOf(l) != "initial_delay" && KeyOf(l) != "interval" && KeyOf(l) != "retries" && KeyOf(l) != "healthcheck"
    ensures Waitless(l)
  {
    hide KeyOf, Field;
    HealthColons();
    EnvironmentColon();
    OtherFits(l, "initial_delay", "");
    OtherFits(l, "interval", "");
    OtherFits(l, "retries", "");
    OtherFits(l, "healthcheck", "");
  }

  predicate CheckKey(k: string) {
    k == "initial_delay" || k == "interval" || k == "retries" || k == "healthcheck"
  }

  lemma NoCheckKeys()
    ensures !CheckKey("ram") && !CheckKey("chrs") && !CheckKey("balloon_mb") && !CheckKey("skip_warmup")
            && !CheckKey("disabled")
    ensures !CheckKey("environment") && !CheckKey("shares") && !CheckKey("balloon_idle_mb")
            && !CheckKey("balloon_decay_secs")
  {
    assert |"initial_delay"| == 13 && |"interval"| == 8 && |"retries"| == 7 && |"healthcheck"| == 11;
    assert |"disabled"| == 8 && "disabled"[0] != "interval"[0] && |"skip_warmup"| == 11
      && "skip_warmup"[0] != "healthcheck"[0];
    assert |"environment"| == 11 && "environment"[0] != "healthcheck"[0] && |"shares"| == 6 && |"balloon_mb"| == 10;
    assert |"balloon_idle_mb"| == 15 && |"balloon_decay_secs"| == 18;
  }

  lemma FixedWaits()
    ensures Waitless("    skip_warmup: true") && Waitless("    environment:") && Waitless("    shares:")
  {
    hide KeyOf, Waitless;
    NoCheckKeys();
    WarmupKey();
    SectionKeys();
    OtherIsWaitless("    skip_warmup: true");
    OtherIsWaitless("    environment:");
    OtherIsWaitless("    shares:");
  }

  lemma NewLineWaits(k: string, n: nat)
    requires k == "ram" || k == "chrs" || k == "balloon_mb" || k == "balloon_idle_mb" || k == "balloon_decay_secs"
    ensures Waitless(NewLine(k + ":", n))
  {
    hide KeyOf, Waitless, IsSpace, NewLine;
    NoCheckKeys();
    KeyLetters();
    IdleKeys();
    NewLineKey(k, n);
    OtherIsWaitless(NewLine(k + ":", n));
  }

  lemma ItemWaits(l: string)
    requires StartsWith(TrimStart(l), "-")
    ensures Waitless(l)
  {
    hide TrimStart, KeyOf, Waitless;
    CheckNames();
    ItemKey(l, "initial_delay");
    ItemKey(l, "interval");
    ItemKey(l, "retries");
    ItemKey(l, "healthcheck");
    OtherIsWaitless(l);
  }

  lemma CheckNames()
    ensures forall k :: CheckKey(k) ==> IsName(k) && k[0] != '-'
  {
  }

  /** No injected variable is called like a key of a healthcheck. */
  predicate EnvIsApart(c: Clone) {
    forall i :: 0 <= i < |c.env| ==> IsName(c.env[i].0) && !CheckKey(c.env[i].0)
  }

  lemma EnvWaits(c: Clone, n: nat)
    requires EnvIsApart(c)
    ensures forall i :: 0 <= i < |c.env| ==> Waitless(EnvLines(n, c.env)[i])
  {
    hide KeyOf, Waitless, IsName, EnvLine;
    forall i | 0 <= i < |c.env|
      ensures Waitless(EnvLines(n, c.env)[i])
    {
      EnvLineKey(n, c.env[i]);
      OtherIsWaitless(EnvLine(n, c.env[i]));
    }
  }

  /** What copying keeps: the waits are short, and the copy knows that it is in a healthcheck. */
  ghost predicate CheckOk(st: Copying) {
    WaitsOk(st.out) && (Open(st.out) ==> st.inHealth)
  }

  lemma RuleWaits(c: Clone, l: string, s: string)
    requires KeyRule(c, l, s).Some?
    ensures Waitless(KeyRule(c, l, s).value)
  {
    hide KeyOf, Waitless, IsSpace, HasKey, Override, WarmupLine, DisabledLine;
    NoCheckKeys();
    KeyLetters();
    IdleKeys();
    KeyNames();
    FlagKeys(l, c.disabled);
    if c.want.ram.Some? { OverrideKey(l, "ram", c.want.ram.value); }
    if c.want.balloon.Some? { OverrideKey(l, "balloon_mb", c.want.balloon.value); }
    if c.want.chrs.Some? { OverrideKey(l, "chrs", c.want.chrs.value); }
    OtherIsWaitless(KeyRule(c, l, s).value);
  }

  lemma SectionWaits(s: string)
    requires HasKey(s, ENVIRONMENT)
    ensures Waitless(s)
  {
    hide KeyOf, Waitless, HasKey;
    NoCheckKeys();
    EnvironmentColon();
    KeyIs(s, "environment");
    OtherIsWaitless(s);
  }

  /** A line without a waiting time, or one in which it was cut short. */
  lemma HealthWaits(s: string)
    ensures HealthRule(s).Some? ==> ShortWaits(HealthRule(s).value) && Field(HealthRule(s).value, "healthcheck").None?
    ensures HealthRule(s).None? ==> ShortWaits(s)
    ensures Field(s, "healthcheck").Some? <==> HasKey(s, HEALTHCHECK)
  {
    hide HasKey, Field, KeyOf;
    assert "initial_delay:" == "initial_delay" + ":" && "interval:" == "interval" + ":"
      && "retries:" == "retries" + ":";
    HealthColons();
    EnvironmentColon();
    WaitsRead();
    HealthKeys();
    FieldIsKey(s, "initial_delay");
    FieldIsKey(s, "interval");
    FieldIsKey(s, "retries");
    FieldIsKey(s, "healthcheck");
    CheckKeysDiffer();
    if HealthRule(s).Some? {
      var x := HealthRule(s).value;
      if KeyOf(x) != "initial_delay" { OtherFits(x, "initial_delay", ""); }
      if KeyOf(x) != "interval" { OtherFits(x, "interval", ""); }
      if KeyOf(x) != "retries" { OtherFits(x, "retries", ""); }
      OtherFits(x, "healthcheck", "");
    }
  }

  lemma CheckKeysDiffer()
    ensures "initial_delay" != "interval" && "initial_delay" != "retries" && "interval" != "retries"
    ensures "healthcheck" != "initial_delay" && "healthcheck" != "interval" && "healthcheck" != "retries"
  {
    assert |"initial_delay"| == 13 && |"interval"| == 8 && |"retries"| == 7 && |"healthcheck"| == 11;
  }

  /** A share that is moved or left out does not end a healthcheck. */
  ghost predicate DeepShares(c: Clone, l: string, s: string) {
    OldShare(s) || (!c.enterprise && Contains(s, ":/mnt/extra-enterprise")) ==> Indent(l) > 4
  }

  lemma CopyLineWaits(c: Clone, st: Copying, l: string, s: string)
    requires CheckOk(st) && EnvIsApart(c) && DeepShares(c, l, s) && (Indent(s) == Indent(l) || !Open(st.out))
    ensures CheckOk(CopyLine(c, st, l, s))
  {
    hide HasKey, KeyRule, HealthRule, IsEnvKey, KeyOf, SeeKeys, TrimEnd, WaitsOk, Open, Field, Indent, ShortWaits,
      Waitless, EnvLines, Contains, TrimStart, EnvIsApart;
    if KeyRule(c, l, s).Some? {
      RuleWaits(c, l, s);
      QuietPushed(st.out, [KeyRule(c, l, s).value]);
    } else if HasKey(s, ENVIRONMENT) {
      SectionWaits(s);
      EnvWaits(c, Indent(l) + 2);
      var env := EnvLines(Indent(l) + 2, c.env);
      QuietPushed(st.out, [s]);
      QuietPushed(st.out + [s], env);
      assert st.out + ([s] + env) == st.out + [s] + env;
    } else {
      SectionRuleWaits(c, st.(seen := SeeKeys(st.seen, s)), l, s);
    }
  }

  lemma SectionRuleWaits(c: Clone, st: Copying, l: string, s: string)
    requires CheckOk(st) && DeepShares(c, l, s) && (Indent(s) == Indent(l) || !Open(st.out))
    ensures CheckOk(SectionRule(c, st, l, s))
  {
    hide HasKey, HealthRule, IsEnvKey, KeyOf, TrimEnd, WaitsOk, Open, Field, Indent, ShortWaits, IsLegacyShare,
      IsEnterprise, DeepShares;
    HealthWaits(s);
    var deep := Indent(l) > 4;
    if !(st.inEnv && deep && IsEnvKey(c.env, KeyOf(s))) {
      if st.inHealth && deep && HealthRule(s).Some? {
        var x := HealthRule(s).value;
        WaitsPushed(st.out, x);
      } else if HasKey(s, HEALTHCHECK) || !(IsLegacyShare(s) || (!c.enterprise && IsEnterprise(s))) {
        WaitsPushed(st.out, s);
        if Open(st.out + [s]) && !HasKey(s, HEALTHCHECK) { OpenAfter(st.out, s); }
      } else {
        LeftOutIsDeep(c, l, s);
      }
    }
  }

  lemma LeftOutIsDeep(c: Clone, l: string, s: string)
    requires DeepShares(c, l, s) && (IsLegacyShare(s) || (!c.enterprise && IsEnterprise(s)))
    ensures Indent(l) > 4
  {
    hide TrimStart, Contains, Indent;
    if !IsLegacyShare(s) {
      ContainsTrimmed(s, ":/mnt/extra-enterprise");
    }
  }

  lemma {:induction false} CopyLinesWaits(c: Clone, st: Copying, ls: File)
    requires CheckOk(st) && EnvIsApart(c) && IsName(c.src) && IsName(c.dst)
    requires forall i :: 0 <= i < |ls| ==> DeepShares(c, ls[i], Renamed(c, ls[i]))
    ensures CheckOk(CopyLines(c, st, ls))
    decreases |ls|
  {
    hide CheckOk, EnvIsApart, DeepShares, CopyLine, Renamed, IsName, Indent;
    if ls != [] {
      RenamedIndent(c, ls[0]);
      CopyLineWaits(c, st, ls[0], Renamed(c, ls[0]));
      assert forall i :: 0 <= i < |ls[1..]| ==> ls[1..][i] == ls[i + 1];
      CopyLinesWaits(c, CopyLine(c, st, ls[0], Renamed(c, ls[0])), ls[1..]);
    }
  }

  lemma FinishWaits(c: Clone, st: Copying)
    requires WaitsOk(st.out) && EnvIsApart(c) && (st.share.Some? ==> Waitless(st.share.value))
    ensures WaitsOk(Finish(c, st))
  {
    hide WaitsOk, Waitless, InsertHead, NewLine, AddIdle, AddShare, HasSystemouts, ShareLine, Or, EnvLines, EnvIsApart;
    FixedWaits();
    ResourceKeys();
    var b1 := AddWarmup(c, st.seen, st.out);
    HeadWaits(st.out, "    skip_warmup: true");
    if c.want.ram.Some? { NewLineWaits("ram", c.want.ram.value); HeadWaits(b1, NewLine(RAM, c.want.ram.value)); }
    var b2 := AddRam(c, st.seen, b1);
    if c.want.chrs.Some? { NewLineWaits("chrs", c.want.chrs.value); HeadWaits(b2, NewLine(CHRS, c.want.chrs.value)); }
    var b3 := AddChrs(c, st.seen, b2);
    NewLineWaits("balloon_mb", Or(c.want.balloon, 128));
    HeadWaits(b3, NewLine(BALLOON, Or(c.want.balloon, 128)));
    var b4 := AddBalloon(c, st.seen, b3);
    IdleWaits(c, b4);
    var b5 := AddIdle(c, b4);
    EnvWaits(c, 6);
    QuietPushed(b5, ["    environment:"]);
    QuietPushed(b5 + ["    environment:"], EnvLines(6, c.env));
    var b6 := AddEnv(c, st.seen, b5);
    if st.share.Some? { ShareWaits(b6, st.share.value); }
    SharesAreItems(c, "");
    ItemWaits(ShareLine(c));
    ShareWaits(AddLegacy(st.share, b6), ShareLine(c));
  }

  lemma IdleWaits(c: Clone, b: File)
    requires WaitsOk(b)
    ensures WaitsOk(AddIdle(c, b))
  {
    hide WaitsOk, Waitless, NewLine, InsertAt, Or;
    IdleKeys();
    if c.idle.Some? {
      var at := if |b| < 2 then |b| else 2;
      var l := NewLine(IDLE, c.idle.value);
      NewLineWaits("balloon_idle_mb", c.idle.value);
      WaitsInserted(b, at, l);
      InsertedLength(b, at, l);
      if c.decay.Some? {
        NewLineWaits("balloon_decay_secs", c.decay.value);
        WaitsInserted(InsertAt(b, at, l), at + 1, NewLine(DECAY, c.decay.value));
      }
    }
  }

  ghost predicate ShareWaitless(st: Copying) {
    st.share.Some? ==> Waitless(st.share.value)
  }

  lemma {:induction false} CopyLinesShareWaits(c: Clone, st: Copying, ls: File)
    requires ShareWaitless(st)
    ensures ShareWaitless(CopyLines(c, st, ls))
    decreases |ls|
  {
    hide ShareWaitless, CopyLine, Renamed;
    if ls != [] {
      CopyLineShareWaits(c, st, ls[0], Renamed(c, ls[0]));
      CopyLinesShareWaits(c, CopyLine(c, st, ls[0], Renamed(c, ls[0])), ls[1..]);
    }
  }

  lemma CopyLineShareWaits(c: Clone, st: Copying, l: string, s: string)
    requires ShareWaitless(st)
    ensures ShareWaitless(CopyLine(c, st, l, s))
  {
    hide Waitless, CopyLine, KeyRule, HealthRule, IsEnvKey, KeyOf, IsLegacyShare, IsEnterprise, HasKey, EnvLines,
      TrimEnd, TrimStart, ShareLine;
    var x := AddedAre(c, st, l, s);
    SharesAreItems(c, s);
    if IsLegacyShare(s) {
      ItemWaits(TrimEnd(s) + ":rw");
    }
  }

  /** In every healthcheck of the new block the waiting times are 3, 1 and 30, if no share stands between its
      lines that is moved or left out. */
  lemma WaitsAreShort(c: Clone, ls: File, j: nat, i: nat)
    requires GoodNames(c) && ls != [] && EnvIsApart(c)
    requires forall k :: 1 <= k < |ls| ==> DeepShares(c, ls[k], Renamed(c, ls[k]))
    requires InCheck(NewBlock(c, ls), j, i)
    ensures var l := NewBlock(c, ls)[i];
            && (Field(l, "initial_delay").Some? ==> Field(l, "initial_delay") == Some("3"))
            && (Field(l, "interval").Some? ==> Field(l, "interval") == Some("1"))
            && (Field(l, "retries").Some? ==> Field(l, "retries") == Some("30"))
  {
    hide CopyLine, CopyLines, Finish, Header, WaitsOk, Open, CheckOk, EnvIsApart, DeepShares, Renamed, Field, Indent,
      GoodNames, IsName;
    var st := CopyLine(c, START, ls[0], Header(c));
    StartWaits();
    HeaderDeep(c, ls[0]);
    CopyLineWaits(c, START, ls[0], Header(c));
    CopyLineShareWaits(c, START, ls[0], Header(c));
    assert forall k :: 0 <= k < |ls[1..]| ==> ls[1..][k] == ls[k + 1];
    assert IsName(c.src) && IsName(c.dst) by { NamesAre(c); }
    CopyLinesWaits(c, st, ls[1..]);
    CopyLinesShareWaits(c, st, ls[1..]);
    assert WaitsOk(CopyBlock(c, ls).out) by { CheckMeans(CopyBlock(c, ls)); }
    FinishWaits(c, CopyBlock(c, ls));
    WaitsMean(NewBlock(c, ls), j, i);
  }

  lemma NamesAre(c: Clone)
    requires GoodNames(c)
    ensures IsName(c.src) && IsName(c.dst)
  {
  }

  lemma CheckMeans(st: Copying)
    requires CheckOk(st)
    ensures WaitsOk(st.out)
  {
  }

  lemma WaitsMean(b: File, j: nat, i: nat)
    requires WaitsOk(b) && InCheck(b, j, i)
    ensures ShortWaits(b[i])
  {
    hide ShortWaits, Field, Indent;
  }

  lemma StartWaits()
    ensures CheckOk(START) && !Open([""]) && ShareWaitless(START)
  {
    hide KeyOf, Indent;
    EmptyHasNone();
    assert [""][0] == "";
  }

  lemma EmptyHasNone()
    ensures Field("", "healthcheck").None?
  {
  }

  lemma HeaderDeep(c: Clone, l: string)
    requires GoodNames(c)
    ensures DeepShares(c, l, Header(c))
  {
    hide GoodNames, Contains, IsSpace, TrimStart;
    HeaderFacts(c);
    ShortIsName(c);
    SlashIsNoPart(Short(c));
    assert '/' !in Header(c);
    assert ":/mnt/extra-enterprise"[1] == '/' && ":/mnt/extra-addons"[1] == '/';
    ContainsNeeds(Header(c), ":/mnt/extra-enterprise", 1);
  }
}
