/**
 The shares of a cloned block: one in the old format is moved, the enterprise share is left out unless it
 was asked for, and the share of the cell's own addons is there once.
 */
module ComposeShares {
  import opened Wrappers
  import opened Text
  import opened Compose
  import opened ComposeEdits
  import opened ComposePatch
  import opened ComposeClone
  import opened ComposeNames
  import opened ComposeRoundTrip
  import opened ComposeEnv
  import opened ComposeValues
  import opened ComposeContent
  import opened ComposeLines
  import opened ComposeCounts
  import opened ComposeSections
  import opened ComposeWaits

  /** All injected variables have names. */
  predicate NamedEnv(c: Clone) {
    forall i :: 0 <= i < |c.env| ==> IsName(c.env[i].0)
  }

  predicate IsItem(l: string) {
    StartsWith(TrimStart(l), "- ")
  }

  lemma KeyedIsNoItem(l: string, k: string)
    requires HasKey(l, k + ":") && IsName(k)
    ensures !IsItem(l)
  {
    hide TrimStart;
    var t := TrimStart(l);
    var kc := k + ":";
    assert kc[0] == t[0] && kc[1] == t[1];
    NoBlankInName(k);
    assert "- "[1] == ' ';
    assert kc[1] == if |k| > 1 then k[1] else ':';
  }

  lemma NoBlankInName(k: string)
    requires IsName(k)
    ensures ' ' !in k
  {
  }

  lemma EnvLineIsNoItem(n: nat, kv: (string, string))
    requires IsName(kv.0)
    ensures !IsItem(EnvLine(n, kv))
  {
    hide TrimStart, IsSpace, IsName;
    NameEdges(kv.0);
    SpacesAreSpace();
    var t := kv.0 + ":" + (" \"" + kv.1 + "\"");
    var l := EnvLine(n, kv);
    assert l == Spaces(n) + t && l[n] == kv.0[0];
    TrimStartIs(l, n);
    assert l[n..] == t && t[..|kv.0| + 1] == kv.0 + ":";
    KeyedIsNoItem(l, kv.0);
  }

  lemma AddedAreNoItems()
    ensures !IsItem("") && !IsItem("    skip_warmup: true") && !IsItem("    environment:") && !IsItem("    shares:")
  {
    hide IsItem, IsName, Field, HasKey;
    DecidedFacts("skip_warmup");
    WarmupReads("");
    FieldIsKey("    skip_warmup: true", "skip_warmup");
    KeyedIsNoItem("    skip_warmup: true", "skip_warmup");
    EnvironmentColon();
    SectionLine();
    SectionNames();
    KeyedIsNoItem("    environment:", "environment");
    SharesLine();
    KeyedIsNoItem("    shares:", "shares");
    EmptyIsNoItem();
  }

  lemma EmptyIsNoItem()
    ensures !IsItem("")
  {
    hide TrimStart;
    TrimStartFacts("");
    assert |"- "| == 2;
  }

  lemma WaitsAreNoItems()
    ensures !IsItem("      initial_delay: 3") && !IsItem("      interval: 1") && !IsItem("      retries: 30")
  {
    hide IsItem, IsName, Field, HasKey;
    WaitNames();
    WaitsRead();
    FieldIsKey("      initial_delay: 3", "initial_delay");
    FieldIsKey("      interval: 1", "interval");
    FieldIsKey("      retries: 30", "retries");
    KeyedIsNoItem("      initial_delay: 3", "initial_delay");
    KeyedIsNoItem("      interval: 1", "interval");
    KeyedIsNoItem("      retries: 30", "retries");
  }

  lemma WaitNames()
    ensures IsName("initial_delay") && IsName("interval") && IsName("retries")
  {
  }

  lemma SectionNames()
    ensures IsName("environment") && IsName("shares") && IsName("healthcheck")
  {
  }

  lemma SharesLine()
    ensures HasKey("    shares:", "shares" + ":")
  {
    hide IsSpace;
    KeyLetters();
    SpacesAreSpace();
    var s := "    shares:";
    assert s[4..] == "shares:" && s[4] == 's';
    TrimStartIs(s, 4);
  }

  lemma NewLineIsNoItem(k: string, n: nat)
    requires IsName(k) && IsKey(k)
    ensures !IsItem(NewLine(k + ":", n))
  {
    hide IsName, Field, NewLine, Number, AllDigits, TrimStart;
    NewLineReads(k, n);
    FieldIsKey(NewLine(k + ":", n), k);
    KeyedIsNoItem(NewLine(k + ":", n), k);
  }

  lemma ResourceNames()
    ensures IsName("ram") && IsName("chrs") && IsName("balloon_mb") && IsName("balloon_idle_mb")
            && IsName("balloon_decay_secs")
  {
  }

  /** A property that all lines but items have. */
  ghost predicate OnlyItems(ok: string -> bool) {
    forall l :: !IsItem(l) ==> ok(l)
  }

  lemma NoItem(l: string, ok: string -> bool)
    requires OnlyItems(ok) && !IsItem(l)
    ensures ok(l)
  {
    hide IsItem;
  }

  lemma PutInItems(c: Clone, ok: string -> bool)
    requires NamedEnv(c) && OnlyItems(ok)
    ensures PutInOk(c, ok)
  {
    hide IsItem, IsName, EnvLine, OnlyItems;
    WaitsAreNoItems();
    NoItem("      initial_delay: 3", ok);
    NoItem("      interval: 1", ok);
    NoItem("      retries: 30", ok);
    forall n: nat, i | 0 <= i < |c.env|
      ensures ok(EnvLine(n, c.env[i]))
    {
      EnvLineIsNoItem(n, c.env[i]);
      NoItem(EnvLine(n, c.env[i]), ok);
    }
  }

  lemma AddedItems(c: Clone, ok: string -> bool)
    requires OnlyItems(ok)
    ensures ok("") && AddedOk(c, ok) && ok(NewLine(BALLOON, Or(c.want.balloon, 128)))
  {
    hide IsItem, IsName, NewLine, Or, OnlyItems;
    AddedAreNoItems();
    NoItem("", ok);
    NoItem("    skip_warmup: true", ok);
    NoItem("    environment:", ok);
    NoItem("    shares:", ok);
    ResourceKeys();
    IdleKeys();
    if c.want.ram.Some? { NewLineOk("ram", c.want.ram.value, ok); }
    if c.want.chrs.Some? { NewLineOk("chrs", c.want.chrs.value, ok); }
    if c.idle.Some? { NewLineOk("balloon_idle_mb", c.idle.value, ok); }
    if c.decay.Some? { NewLineOk("balloon_decay_secs", c.decay.value, ok); }
    NewLineOk("balloon_mb", Or(c.want.balloon, 128), ok);
  }

  lemma NewLineOk(k: string, n: nat, ok: string -> bool)
    requires k == "ram" || k == "chrs" || k == "balloon_mb" || k == "balloon_idle_mb" || k == "balloon_decay_secs"
    requires OnlyItems(ok)
    ensures ok(NewLine(k + ":", n))
  {
    hide IsItem, IsName, NewLine, OnlyItems, IsKey;
    ResourceNames();
    ResourceKeys();
    IdleAreKeys();
    NewLineIsNoItem(k, n);
    NoItem(NewLine(k + ":", n), ok);
  }

  /** Of a line of the source only an item that is kept, or moved, is asked about. */
  lemma ItemLineOk(c: Clone, l: string, s: string, ok: string -> bool)
    requires OnlyItems(ok)
    requires OldShare(s) ==> ok(TrimEnd(s) + ":rw")
    requires IsItem(s) && !OldShare(s) && (c.enterprise || !Contains(TrimStart(s), ":/mnt/extra-enterprise")) ==> ok(s)
    ensures LineOk(c, l, s, ok)
  {
    hide IsItem, HasKey, KeyRule, IsName, TrimStart, TrimEnd, Contains, OnlyItems;
    EnvironmentColon();
    SectionNames();
    if KeyRule(c, l, s).Some? {
      var k := RuleKey(c, l, s);
      DecidedFacts(k);
      KeyedIsNoItem(KeyRule(c, l, s).value, k);
      NoItem(KeyRule(c, l, s).value, ok);
    }
    if HasKey(s, ENVIRONMENT) { KeyedIsNoItem(s, "environment"); }
    if HasKey(s, HEALTHCHECK) { KeyedIsNoItem(s, "healthcheck"); }
    if !IsItem(s) { NoItem(s, ok); }
  }

  // ---------------------------------------------------------------------------------------
  // The old share
  // ---------------------------------------------------------------------------------------

  /** Behind its indentation a moved share is the trimmed item with the mode. */
  lemma MovedParts(s: string) returns (n: nat)
    requires OldShare(s)
    ensures n == |s| - |TrimStart(s)| && n + 1 < |TrimEnd(s)|
    ensures TrimStart(TrimEnd(s) + ":rw") == TrimEnd(s)[n..] + ":rw" && TrimEnd(s)[n] == '-' && TrimEnd(s)[n + 1] == ' '
  {
    hide IsSpace, TrimEnd, TrimStart, Contains;
    TrimEndFacts(s);
    TrimStartFacts(s);
    n := |s| - |TrimStart(s)|;
    KeyLetters();
    assert "- "[0] == '-' && "- "[1] == ' ';
    assert s[n] == TrimStart(s)[0] && s[n + 1] == TrimStart(s)[1];
    var e := TrimEnd(s);
    var place := AddonsPlace(s);
    var r := e + ":rw";
    assert forall i :: 0 <= i <= n ==> r[i] == s[i];
    TrimStartIs(r, n);
    assert r[n..] == e[n..] + ":rw";
  }

  /** The place of the addons in an old share, behind its dash. */
  lemma AddonsPlace(s: string) returns (i: nat)
    requires OldShare(s)
    ensures |s| - |TrimStart(s)| + 1 < i && i + |":/mnt/extra-addons"| <= |TrimEnd(s)|
    ensures TrimEnd(s)[i..i + |":/mnt/extra-addons"|] == ":/mnt/extra-addons" && TrimEnd(s) == s[..|TrimEnd(s)|]
  {
    hide IsSpace, TrimEnd, TrimStart, Contains;
    var p := ":/mnt/extra-addons";
    TrimStartFacts(s);
    TrimEndFacts(s);
    var t := TrimStart(s);
    var n := |s| - |t|;
    var k := PlaceOf(t, p);
    BehindDash(t, p, k);
    i := n + k;
    SliceShift(s, n, k, |p|);
    PlaceTrimmed(s, i, p) by { KeyLetters(); }
    assert TrimEnd(s)[i..i + |p|] == s[i..i + |p|];
  }

  lemma BehindDash(t: string, p: string, k: nat)
    requires StartsWith(t, "- ") && |p| >= 2 && p[0] == ':' && p[1] == '/' && k + |p| <= |t| && t[k..k + |p|] == p
    ensures k > 1
  {
    assert "- "[0] == '-' && "- "[1] == ' ';
    assert t[k] == p[0] && t[k + 1] == p[1];
  }

  lemma SliceShift(s: string, n: nat, k: nat, m: nat)
    requires n + k + m <= |s|
    ensures s[n..][k..k + m] == s[n + k..n + k + m]
  {
  }

  /** How a moved share ends and what it contains. */
  lemma MovedShare(s: string)
    requires OldShare(s)
    ensures var r := TrimEnd(s) + ":rw";
            Contains(TrimStart(r), ":rw") && Contains(r, ":/mnt/extra-addons") && IsItem(r)
  {
    hide IsSpace, TrimEnd, TrimStart, Contains;
    var p := ":/mnt/extra-addons";
    var n := MovedParts(s);
    var i := AddonsPlace(s);
    var e := TrimEnd(s);
    Contained(e[n..], ":rw", "");
    assert e[n..] + ":rw" + "" == e[n..] + ":rw";
    assert e == e[..i] + p + e[i + |p|..];
    Contained(e[..i], p, e[i + |p|..] + ":rw");
    assert e[..i] + p + (e[i + |p|..] + ":rw") == e + ":rw";
    var t := e[n..] + ":rw";
    assert t[0] == '-' && t[1] == ' ' && t[..2] == "- ";
  }

  lemma Contained(a: string, p: string, b: string)
    ensures Contains(a + p + b, p)
  {
    var s := a + p + b;
    assert s[|a|..] == p + b;
    assert StartsWith(s[|a|..], p);
  }

  lemma PlaceOf(s: string, p: string) returns (i: nat)
    requires Contains(s, p)
    ensures i + |p| <= |s| && s[i..i + |p|] == p
  {
    i :| 0 <= i <= |s| && StartsWith(s[i..], p);
    assert s[i..][..|p|] == s[i..i + |p|];
  }

  /** White space at the end is no part of it. */
  lemma PlaceTrimmed(s: string, i: nat, p: string)
    requires i + |p| <= |s| && s[i..i + |p|] == p && p != "" && !IsSpace(p[|p| - 1])
    ensures i + |p| <= |TrimEnd(s)|
  {
    hide IsSpace, TrimEnd;
    TrimEndFacts(s);
    assert s[i + |p| - 1] == p[|p| - 1];
  }

  /** No share of the old format is left. */
  lemma OldSharesAreGone(c: Clone, ls: File)
    requires GoodNames(c) && NamedEnv(c) && ls != []
    ensures forall i :: 0 <= i < |NewBlock(c, ls)| ==> !OldShare(NewBlock(c, ls)[i])
  {
    hide NewBlock, LineOk, PutInOk, AddedOk, NewLine, Or, Renamed, Header, CopyBlock, GoodNames, NamedEnv, ShareLine,
      TrimStart, Contains;
    var ok := (l: string) => !OldShare(l);
    assert OnlyItems(ok) by { NotItemNotOld(); }
    PutInItems(c, ok);
    AddedItems(c, ok);
    OwnShareIsNew(c);
    KeptIsNew(c, ls[0], Header(c), ok);
    forall i | 1 <= i < |ls|
      ensures LineOk(c, ls[i], Renamed(c, ls[i]), ok)
    {
      KeptIsNew(c, ls[i], Renamed(c, ls[i]), ok);
    }
    NewBlockOk(c, ls, ok);
    var b := NewBlock(c, ls);
    forall i | 0 <= i < |b|
      ensures !OldShare(b[i])
    {
      assert ok(b[i]);
    }
  }

  lemma NotItemNotOld()
    ensures forall l :: !IsItem(l) ==> !OldShare(l)
  {
    hide TrimStart, Contains;
  }

  lemma KeptIsNew(c: Clone, l: string, s: string, ok: string -> bool)
    requires OnlyItems(ok) && ok == ((x: string) => !OldShare(x))
    ensures LineOk(c, l, s, ok)
  {
    hide LineOk, TrimStart, Contains, TrimEnd, OnlyItems;
    if OldShare(s) {
      MovedShare(s);
    }
    ItemLineOk(c, l, s, ok);
  }

  lemma OwnShareIsNew(c: Clone)
    ensures !OldShare(ShareLine(c))
  {
    hide Contains, IsSpace;
    KeyLetters();
    SpacesAreSpace();
    var l := ShareLine(c);
    assert l[6] == '-';
    TrimStartIs(l, 6);
    var a := "- \"" + c.shareDir + ":/mnt/systemouts-addons";
    assert l[6..] == a + ":ro" + "\"";
    Contained(a, ":ro", "\"");
  }

  /** The share that the copy of the lines moves: the last one of the old format. */
  function LastOld(c: Clone, ls: File): Option<string> {
    if ls == [] then None
    else if LastOld(c, ls[1..]).Some? then LastOld(c, ls[1..])
    else if OldShare(Renamed(c, ls[0])) then Some(Renamed(c, ls[0]))
    else None
  }

  /** Nothing else is done with such a line. */
  lemma OldIsTaken(c: Clone, st: Copying, l: string, s: string)
    requires NamedEnv(c) && OldShare(s)
    ensures CopyLine(c, st, l, s).share == Some(TrimEnd(s) + ":rw")
  {
    hide HasKey, KeyRule, HealthRule, IsName, TrimStart, TrimEnd, Contains, IsItem, EnvLines, SeeKeys, KeyOf;
    EnvironmentColon();
    SectionNames();
    WaitNames();
    assert IsItem(s) by { OldIsItem(s); }
    if KeyRule(c, l, s).Some? {
      var k := RuleKey(c, l, s);
      DecidedFacts(k);
      KeyedIsNoItem(s, k);
    }
    if HasKey(s, ENVIRONMENT) { KeyedIsNoItem(s, "environment"); }
    if HasKey(s, HEALTHCHECK) { KeyedIsNoItem(s, "healthcheck"); }
    assert HealthRule(s).None? by { ItemHasNoWait(s); }
    assert !IsEnvKey(c.env, KeyOf(s)) by { ItemIsNoVariable(c, s); }
  }

  lemma OldIsItem(s: string)
    requires OldShare(s)
    ensures IsItem(s)
  {
    hide TrimStart, Contains;
  }

  lemma ItemHasNoWait(s: string)
    requires IsItem(s)
    ensures HealthRule(s).None?
  {
    hide HasKey, IsItem, IsName;
    WaitNames();
    assert "initial_delay:" == "initial_delay" + ":" && "interval:" == "interval" + ":"
      && "retries:" == "retries" + ":";
    if HasKey(s, "initial_delay:") { KeyedIsNoItem(s, "initial_delay"); }
    if HasKey(s, "interval:") { KeyedIsNoItem(s, "interval"); }
    if HasKey(s, "retries:") { KeyedIsNoItem(s, "retries"); }
  }

  lemma ItemIsNoVariable(c: Clone, s: string)
    requires NamedEnv(c) && IsItem(s)
    ensures !IsEnvKey(c.env, KeyOf(s))
  {
    hide TrimStart, IsName;
    var t := TrimStart(s);
    assert "- "[0] == '-' && "- "[1] == ' ';
    assert t[0] == '-' && t[1] == ' ';
    var k := KeyOf(s);
    assert Find(t, ':') > 1;
    assert k[1] == ' ';
    forall i | 0 <= i < |c.env|
      ensures c.env[i].0 != k
    {
      NoBlankInName(c.env[i].0);
    }
  }

  lemma NewIsNotTaken(c: Clone, st: Copying, l: string, s: string)
    requires !OldShare(s)
    ensures CopyLine(c, st, l, s).share == st.share
  {
    hide CopyLine, KeyRule, HealthRule, IsEnvKey, KeyOf, IsEnterprise, HasKey, EnvLines, TrimEnd, TrimStart, Contains;
    var x := AddedAre(c, st, l, s);
  }

  lemma {:induction false} LastIsTaken(c: Clone, st: Copying, ls: File)
    requires NamedEnv(c)
    ensures CopyLines(c, st, ls).share ==
            match LastOld(c, ls) case None => st.share case Some(s) => Some(TrimEnd(s) + ":rw")
    decreases |ls|
  {
    hide CopyLine, Renamed, OldShare, NamedEnv, TrimEnd;
    if ls != [] {
      var s := Renamed(c, ls[0]);
      LastIsTaken(c, CopyLine(c, st, ls[0], s), ls[1..]);
      if OldShare(s) { OldIsTaken(c, st, ls[0], s); } else { NewIsNotTaken(c, st, ls[0], s); }
    }
  }

  /** A line stands at the first `shares:` line, at most `far` lines below it. */
  ghost predicate UnderShares(b: File, l: string, far: nat) {
    var p := SharesAt(b, 0);
    p < |b| && Trim(b[p]) == "shares:" && exists j :: p < j <= p + far && j < |b| && b[j] == l
  }

  lemma {:induction false} FirstSharesIs(b: File, i: nat, p: nat)
    requires i <= p < |b| && Trim(b[p]) == "shares:" && forall j :: i <= j < p ==> Trim(b[j]) != "shares:"
    ensures SharesAt(b, i) == p
    decreases p - i
  {
    hide Trim;
    assert SHARES == "shares:";
    if i < p {
      FirstSharesIs(b, i + 1, p);
    }
  }

  lemma {:induction false} NoSharesBefore(b: File, i: nat)
    requires i <= |b|
    ensures forall j :: i <= j < SharesAt(b, i) ==> Trim(b[j]) != "shares:"
    decreases |b| - i
  {
    hide Trim;
    assert SHARES == "shares:";
    if i < |b| {
      NoSharesBefore(b, i + 1);
    }
  }

  lemma AddedUnder(b: File, l: string)
    ensures UnderShares(AddShare(b, l), l, 1)
  {
    hide Trim;
    var d := AddShare(b, l);
    var p := SharesAt(b, 0);
    NoSharesBefore(b, 0);
    FirstShares(b, 0);
    SharesTrim();
    assert forall j :: 0 <= j < p ==> d[j] == b[j];
    assert Trim(d[p]) == "shares:" && d[p + 1] == l by {
      if p < |b| {
        InsertedHere(b, p + 1, l);
      } else {
        assert d == b + ["    shares:"] + [l];
      }
    }
    FirstSharesIs(d, 0, p);
  }

  lemma StaysUnder(b: File, x: string, l: string)
    requires UnderShares(b, l, 1)
    ensures UnderShares(AddShare(b, x), l, 2)
  {
    hide Trim;
    var d := AddShare(b, x);
    var p := SharesAt(b, 0);
    NoSharesBefore(b, 0);
    InsertedHere(b, p + 1, x);
    assert forall j :: 0 <= j <= p ==> d[j] == b[j];
    FirstSharesIs(d, 0, p);
    assert b[p + 1] == l && d[p + 2] == b[p + 1];
  }

  /** The last share of the old format stands, with the mode `rw`, in the first list of shares. */
  lemma OldShareIsMoved(c: Clone, ls: File)
    requires GoodNames(c) && NamedEnv(c) && ls != [] && LastOld(c, ls[1..]).Some?
    ensures UnderShares(NewBlock(c, ls), TrimEnd(LastOld(c, ls[1..]).value) + ":rw", 2)
  {
    hide CopyLine, CopyLines, Header, GoodNames, NamedEnv, TrimEnd, UnderShares, LastOld;
    hide AddWarmup, AddRam, AddChrs, AddBalloon, AddIdle, AddEnv, AddShare, HasSystemouts, ShareLine;
    LastIsTaken(c, CopyLine(c, START, ls[0], Header(c)), ls[1..]);
    var st := CopyBlock(c, ls);
    var l := TrimEnd(LastOld(c, ls[1..]).value) + ":rw";
    assert st.share == Some(l);
    var b := AddEnv(c, st.seen,
      AddIdle(c, AddBalloon(c, st.seen, AddChrs(c, st.seen, AddRam(c, st.seen, AddWarmup(c, st.seen, st.out))))));
    AddedUnder(b, l);
    StaysUnder(AddShare(b, l), ShareLine(c), l);
    FartherUnder(AddShare(b, l), l);
  }

  lemma FartherUnder(b: File, l: string)
    requires UnderShares(b, l, 1)
    ensures UnderShares(b, l, 2)
  {
    hide Trim;
  }

  // ---------------------------------------------------------------------------------------
  // The other shares
  // ---------------------------------------------------------------------------------------

  predicate MountsEnterprise(l: string) {
    IsItem(l) && Contains(TrimStart(l), ":/mnt/extra-enterprise")
  }

  /** Without the enterprise edition no item of the block mounts its directory, but for the cell's own share and a
      moved one. */
  lemma EnterpriseIsLeftOut(c: Clone, ls: File)
    requires GoodNames(c) && NamedEnv(c) && ls != [] && !c.enterprise
    ensures forall i :: 0 <= i < |NewBlock(c, ls)| ==>
              var l := NewBlock(c, ls)[i];
              MountsEnterprise(l) ==> l == ShareLine(c) || Contains(l, ":/mnt/extra-addons")
  {
    hide NewBlock, LineOk, PutInOk, AddedOk, NewLine, Or, Renamed, Header, CopyBlock, GoodNames, NamedEnv, ShareLine,
      TrimStart, Contains, IsItem;
    var ok := (l: string) => MountsEnterprise(l) ==> l == ShareLine(c) || Contains(l, ":/mnt/extra-addons");
    PutInItems(c, ok);
    AddedItems(c, ok);
    LeftOutOk(c, ls[0], Header(c), ok);
    forall i | 1 <= i < |ls|
      ensures LineOk(c, ls[i], Renamed(c, ls[i]), ok)
    {
      LeftOutOk(c, ls[i], Renamed(c, ls[i]), ok);
    }
    NewBlockOk(c, ls, ok);
    var b := NewBlock(c, ls);
    assert forall i :: 0 <= i < |b| ==> ok(b[i]);
  }

  lemma LeftOutOk(c: Clone, l: string, s: string, ok: string -> bool)
    requires !c.enterprise && OnlyItems(ok)
    requires ok == ((x: string) => MountsEnterprise(x) ==> x == ShareLine(c) || Contains(x, ":/mnt/extra-addons"))
    ensures LineOk(c, l, s, ok)
  {
    hide LineOk, TrimStart, Contains, TrimEnd, OnlyItems, IsItem, ShareLine, OldShare;
    if OldShare(s) {
      MovedShare(s);
    }
    ItemLineOk(c, l, s, ok);
  }

  lemma {:induction false} OrdinaryOut(c: Clone, st: Copying, ls: File, i: nat)
    requires i < |ls| && Ordinary(c, Renamed(c, ls[i]))
    ensures Renamed(c, ls[i]) in CopyLines(c, st, ls).out
    decreases |ls|
  {
    hide CopyLine, Renamed, Ordinary, EnvLines, HasKey;
    var s := Renamed(c, ls[0]);
    var t := CopyLine(c, st, ls[0], s);
    if i == 0 {
      OrdinaryIsCopied(c, st, ls[0], s);
      LinesGrow(c, t, ls[1..]);
      assert t.out[|st.out|] == s && CopyLines(c, t, ls[1..]).out[|st.out|] == s;
    } else {
      OrdinaryOut(c, t, ls[1..], i - 1);
    }
  }

  /** If the source has a share for the cell's own addons, the clone adds none. */
  lemma OwnShareOnce(c: Clone, ls: File, k: nat)
    requires GoodNames(c) && NamedEnv(c) && 1 <= k < |ls|
    requires Ordinary(c, Renamed(c, ls[k])) && Contains(Renamed(c, ls[k]), ":/mnt/systemouts-addons:")
    requires forall i :: 1 <= i < |ls| ==>
             Renamed(c, ls[i]) != "      - \"" + c.shareDir + ":/mnt/systemouts-addons:ro\""
    ensures "      - \"" + c.shareDir + ":/mnt/systemouts-addons:ro\"" !in NewBlock(c, ls)
  {
    hide LineOk, PutInOk, AddedOk, NewLine, Or, Renamed, Header, CopyLine, CopyLines, Prepared, GoodNames, NamedEnv,
      TrimStart, Contains, IsItem, Ordinary, OldShare, HasKey;
    var line := ShareLine(c);
    assert line == "      - \"" + c.shareDir + ":/mnt/systemouts-addons:ro\"";
    var ok := (l: string) => l != line;
    assert OnlyItems(ok) by { OwnShareIsItem(c); }
    PutInItems(c, ok);
    AddedItems(c, ok);
    HeaderIsNoItem(c);
    OtherLineOk(c, ls[0], Header(c), ok);
    forall i | 1 <= i < |ls|
      ensures LineOk(c, ls[i], Renamed(c, ls[i]), ok)
    {
      OtherLineOk(c, ls[i], Renamed(c, ls[i]), ok);
    }
    PreparedBlockOk(c, ls, ok);
    var b := Prepared(c, CopyBlock(c, ls));
    assert forall i :: 0 <= i < |b| ==> ok(b[i]);
    var s := Renamed(c, ls[k]);
    assert ls[1..][k - 1] == ls[k];
    OrdinaryOut(c, CopyLine(c, START, ls[0], Header(c)), ls[1..], k - 1);
    StaysIn(s, c, CopyBlock(c, ls));
    NothingIsAdded(c, ls, s);
  }

  lemma OwnShareIsItem(c: Clone)
    ensures IsItem(ShareLine(c))
  {
    hide IsSpace;
    KeyLetters();
    SpacesAreSpace();
    var l := ShareLine(c);
    assert l[6] == '-';
    TrimStartIs(l, 6);
    assert l[6..][..2] == "- ";
  }

  lemma HeaderIsNoItem(c: Clone)
    requires GoodNames(c)
    ensures !IsItem(Header(c)) && Header(c) != ShareLine(c)
  {
    hide TrimStart, IsIdent, GoodNames;
    HeaderFacts(c);
    ShortIsName(c);
    assert HasKey(Header(c), Short(c) + ":");
    KeyedIsNoItem(Header(c), Short(c));
    OwnShareIsItem(c);
  }

  lemma OtherLineOk(c: Clone, l: string, s: string, ok: string -> bool)
    requires OnlyItems(ok) && ok == ((x: string) => x != ShareLine(c)) && s != ShareLine(c)
    ensures LineOk(c, l, s, ok)
  {
    hide LineOk, TrimStart, Contains, TrimEnd, OnlyItems, IsItem, OldShare;
    var r := TrimEnd(s) + ":rw";
    assert r[|r| - 1] == 'w' && ShareLine(c)[|ShareLine(c)| - 1] == '"';
    ItemLineOk(c, l, s, ok);
  }

  lemma NothingIsAdded(c: Clone, ls: File, s: string)
    requires ls != [] && s in NewBlock(c, ls) && s != ShareLine(c) && Contains(s, ":/mnt/systemouts-addons:")
    ensures NewBlock(c, ls) == Prepared(c, CopyBlock(c, ls))
  {
    hide CopyBlock, Contains, AddLegacy, AddEnv, AddIdle, AddBalloon, AddChrs, AddRam, AddWarmup, ShareLine;
    var b := Prepared(c, CopyBlock(c, ls));
    assert !Contains("    shares:", ":/mnt/systemouts-addons:") by {
      assert ":/mnt/systemouts-addons:"[1] == '/' && '/' !in "    shares:";
      ContainsNeeds("    shares:", ":/mnt/systemouts-addons:", 1);
    }
    AddedShares(c, b);
    assert s in b;
    var i :| 0 <= i < |b| && b[i] == s;
    assert HasSystemouts(b);
  }

  lemma AddedShares(c: Clone, b: File)
    ensures forall x :: x in AddSystemouts(c, b) ==> x in b || x == "    shares:" || x == ShareLine(c)
  {
    hide SharesAt, HasSystemouts, ShareLine;
  }
}
