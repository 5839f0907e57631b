/**
 How often a cloned block sets a key: as often as the source does, and once more only where the clone
 adds a line. Its header has the new name, and lines with a new value keep their place and comment.
 */
module ComposeCounts {
  import opened Wrappers
  import opened Text
  import opened Compose
  import opened ComposeEdits
  import opened ComposePatch
  import opened ComposeClone
  import opened ComposeNames
  import opened ComposeRoundTrip
  import opened ComposeEnv
  import opened ComposeValues
  import opened ComposeContent
  import opened ComposeLines

  /** How many lines set the key. */
  function Times(b: File, key: string): nat {
    if b == [] then 0 else One(Field(b[0], key).Some?) + Times(b[1..], key)
  }

  lemma {:induction false} TimesAppend(a: File, b: File, key: string)
    ensures Times(a + b, key) == Times(a, key) + Times(b, key)
    decreases |a|
  {
    hide Field;
    if a == [] {
      assert a + b == b;
    } else {
      assert (a + b)[1..] == a[1..] + b;
      TimesAppend(a[1..], b, key);
    }
  }

  lemma TimesOne(l: string, key: string)
    ensures Times([l], key) == One(Field(l, key).Some?)
  {
    hide Field;
    assert [l][1..] == [];
  }

  lemma TimesInsert(b: File, i: nat, l: string, key: string)
    requires i <= |b|
    ensures Times(InsertAt(b, i, l), key) == Times(b, key) + One(Field(l, key).Some?)
  {
    hide Times, Field;
    TimesOne(l, key);
    TimesAppend(b[..i] + [l], b[i..], key);
    TimesAppend(b[..i], [l], key);
    TimesAppend(b[..i], b[i..], key);
    assert b[..i] + b[i..] == b;
  }

  lemma TimesHead(b: File, l: string, key: string)
    ensures Times(InsertHead(b, l), key) == Times(b, key) + One(Field(l, key).Some?)
  {
    hide Times, Field, InsertAt;
    TimesInsert(b, if |b| < 2 then |b| else 2, l, key);
  }

  lemma {:induction false} TimesNone(b: File, key: string)
    requires forall i :: 0 <= i < |b| ==> Field(b[i], key).None?
    ensures Times(b, key) == 0
    decreases |b|
  {
    hide Field;
    if b != [] {
      assert forall i :: 0 <= i < |b[1..]| ==> b[1..][i] == b[i + 1];
      TimesNone(b[1..], key);
    }
  }

  function RenamedAll(c: Clone, ls: File): (r: File)
    ensures |r| == |ls|
  {
    seq(|ls|, i requires 0 <= i < |ls| => Renamed(c, ls[i]))
  }

  /** The block of the source under its new names. */
  function Sources(c: Clone, ls: File): File
    requires ls != []
  {
    [Header(c)] + RenamedAll(c, ls[1..])
  }

  /** A key whose lines are all copied: the clone decides its value, or no share is left out. */
  ghost predicate Counted(c: Clone, key: string) {
    && IsName(key) && key[0] != '-' && EnvApart(c, key)
    && key != "environment" && key != "shares"
    && (c.enterprise || (Decided(key) && key != "id" && Decision(c, key).Some?))
  }

  // ---------------------------------------------------------------------------------------
  // Copying
  // ---------------------------------------------------------------------------------------

  lemma SameKey(x: string, s: string, k: string, key: string)
    requires HasKey(x, k + ":") && HasKey(s, k + ":") && ':' !in k && ':' !in key
    ensures Field(x, key).Some? <==> Field(s, key).Some?
  {
    hide HasKey, Field, KeyOf;
    FieldIsKey(x, key);
    FieldIsKey(s, key);
    KeyIs(x, k);
    KeyIs(s, k);
    if k != key {
      KeyExcludes(x, k, key);
      KeyExcludes(s, k, key);
    }
  }

  /** The key of a line with a new value, which the line it stands for has too. */
  lemma RuleKey(c: Clone, l: string, s: string) returns (k: string)
    requires KeyRule(c, l, s).Some?
    ensures HasKey(KeyRule(c, l, s).value, k + ":") && HasKey(s, k + ":")
    ensures k == "ram" || k == "chrs" || k == "balloon_mb" || k == "skip_warmup" || k == "disabled"
  {
    hide HasKey, Field, Override, WarmupLine, DisabledLine, Decimal;
    KeyNames();
    ResourceKeys();
    WarmupReads(l);
    DisabledReads(l, c.disabled);
    var x := KeyRule(c, l, s).value;
    k := if HasKey(s, RAM) && c.want.ram.Some? then "ram"
         else if HasKey(s, BALLOON) && c.want.balloon.Some? then "balloon_mb"
         else if HasKey(s, CHRS) && c.want.chrs.Some? then "chrs"
         else if HasKey(s, WARMUP) then "skip_warmup" else "disabled";
    if c.want.ram.Some? { OverrideReads(l, "ram", c.want.ram.value); }
    if c.want.balloon.Some? { OverrideReads(l, "balloon_mb", c.want.balloon.value); }
    if c.want.chrs.Some? { OverrideReads(l, "chrs", c.want.chrs.value); }
    FieldIsKey(x, k);
  }

  lemma RuleKeepsKey(c: Clone, l: string, s: string, key: string)
    requires KeyRule(c, l, s).Some? && ':' !in key
    ensures Field(KeyRule(c, l, s).value, key).Some? <==> Field(s, key).Some?
  {
    hide HasKey, Field, KeyRule;
    var k := RuleKey(c, l, s);
    DecidedFacts(k);
    SameKey(KeyRule(c, l, s).value, s, k, key);
  }

  /** What copying a line puts out. */
  lemma AddedAre(c: Clone, st: Copying, l: string, s: string) returns (x: File)
    ensures CopyLine(c, st, l, s).out == st.out + x
    ensures KeyRule(c, l, s).Some? ==> x == [KeyRule(c, l, s).value]
    ensures KeyRule(c, l, s).None? && HasKey(s, ENVIRONMENT) ==> x == [s] + EnvLines(Indent(l) + 2, c.env)
    ensures KeyRule(c, l, s).None? && !HasKey(s, ENVIRONMENT) ==>
              || x == [s] || (HealthRule(s).Some? && x == [HealthRule(s).value])
              || (x == [] && (IsEnvKey(c.env, KeyOf(s)) || IsLegacyShare(s) || (!c.enterprise && IsEnterprise(s))))
    ensures CopyLine(c, st, l, s).share == st.share
            || (IsLegacyShare(s) && CopyLine(c, st, l, s).share == Some(TrimEnd(s) + ":rw"))
  {
    hide HasKey, KeyRule, HealthRule, IsEnvKey, KeyOf, IsLegacyShare, IsEnterprise, SeeKeys, EnvLines, TrimEnd;
    OutGrows(c, st, l, s);
    x := CopyLine(c, st, l, s).out[|st.out|..];
  }

  lemma EnvHasNone(c: Clone, n: nat, key: string)
    requires EnvApart(c, key) && ':' !in key
    ensures Times(EnvLines(n, c.env), key) == 0
  {
    hide Field, KeyOf, EnvLine, IsName;
    var b := EnvLines(n, c.env);
    forall i | 0 <= i < |b|
      ensures Field(b[i], key).None?
    {
      EnvLineKey(n, c.env[i]);
      OtherFits(b[i], key, "");
    }
    TimesNone(b, key);
  }

  /** So has a waiting time that is cut short. */
  lemma HealthKeepsKey(s: string, key: string)
    requires HealthRule(s).Some? && ':' !in key
    ensures Field(HealthRule(s).value, key).Some? <==> Field(s, key).Some?
  {
    hide HasKey, Field, KeyOf;
    assert "initial_delay:" == "initial_delay" + ":" && "interval:" == "interval" + ":"
      && "retries:" == "retries" + ":";
    HealthColons();
    WaitsRead();
    var k := if HasKey(s, "initial_delay:") then "initial_delay" else if HasKey(s, "interval:") then "interval"
      else "retries";
    FieldIsKey(HealthRule(s).value, k);
    SameKey(HealthRule(s).value, s, k, key);
  }

  lemma WaitsRead()
    ensures Field("      initial_delay: 3", "initial_delay") == Some("3")
    ensures Field("      interval: 1", "interval") == Some("1")
    ensures Field("      retries: 30", "retries") == Some("30")
  {
    hide Field, IsSpace;
    KeyLetters();
    SpacesAreSpace();
    WaitsAreBare();
    FieldOf("      ", "initial_delay", "3", "");
    FieldOf("      ", "interval", "1", "");
    FieldOf("      ", "retries", "30", "");
    assert "      initial_delay: 3" == "      " + ("initial_delay" + ":" + (" " + "3" + ""));
    assert "      interval: 1" == "      " + ("interval" + ":" + (" " + "1" + ""));
    assert "      retries: 30" == "      " + ("retries" + ":" + (" " + "30" + ""));
  }

  lemma WaitsAreBare()
    ensures Bare("3") && Bare("1") && Bare("30") && IsSpace(' ')
  {
  }

  lemma HealthColons()
    ensures ':' !in "initial_delay" && ':' !in "interval" && ':' !in "retries"
  {
  }

  /** A line that is left out has no such key. */
  lemma LeftOutHasNone(c: Clone, l: string, s: string, key: string)
    requires Counted(c, key) && KeyRule(c, l, s).None?
    requires IsEnvKey(c.env, KeyOf(s)) || IsLegacyShare(s) || (!c.enterprise && IsEnterprise(s))
    ensures Field(s, key).None?
  {
    hide Field, KeyOf, KeyRule, IsLegacyShare, IsEnterprise, Decision, Decided, IsName, HasKey;
    NameEdges(key);
    if IsEnvKey(c.env, KeyOf(s)) {
      OtherFits(s, key, "");
    } else if IsLegacyShare(s) {
      LegacyIsItem(s);
      ItemKey(s, key);
      OtherFits(s, key, "");
    } else {
      RuleFits(c, l, s, key);
    }
  }

  lemma CopyLineTimes(c: Clone, st: Copying, l: string, s: string, key: string)
    requires Counted(c, key)
    ensures Times(CopyLine(c, st, l, s).out, key) == Times(st.out, key) + One(Field(s, key).Some?)
  {
    hide Times, Field, CopyLine, KeyRule, HealthRule, IsEnvKey, KeyOf, IsLegacyShare, IsEnterprise, HasKey, EnvLines,
      TrimEnd, IsName, Counted;
    assert ':' !in key && EnvApart(c, key) by { CountedFacts(c, key); }
    var x := AddedAre(c, st, l, s);
    TimesAppend(st.out, x, key);
    TimesOne(s, key);
    if KeyRule(c, l, s).Some? {
      TimesOne(KeyRule(c, l, s).value, key);
      RuleKeepsKey(c, l, s, key);
    } else if HasKey(s, ENVIRONMENT) {
      TimesAppend([s], EnvLines(Indent(l) + 2, c.env), key);
      EnvHasNone(c, Indent(l) + 2, key);
    } else if x == [s] {
    } else if x == [] {
      LeftOutHasNone(c, l, s, key);
      TimesNone([], key);
    } else {
      HealthKeepsKey(s, key);
      TimesOne(HealthRule(s).value, key);
    }
  }

  lemma CountedFacts(c: Clone, key: string)
    requires Counted(c, key)
    ensures IsName(key) && key[0] != '-' && ':' !in key && EnvApart(c, key)
    ensures key != "environment" && key != "shares"
  {
    hide Decided, Decision, EnvApart;
    NameEdges(key);
  }

  ghost predicate ShareHasNone(st: Copying, key: string) {
    st.share.Some? ==> Field(st.share.value, key).None?
  }

  lemma CopyLineShare(c: Clone, st: Copying, l: string, s: string, key: string)
    requires IsName(key) && key[0] != '-' && ShareHasNone(st, key)
    ensures ShareHasNone(CopyLine(c, st, l, s), key)
  {
    hide Field, CopyLine, KeyRule, HealthRule, IsEnvKey, KeyOf, IsLegacyShare, IsEnterprise, HasKey, EnvLines,
      TrimEnd, IsName;
    var x := AddedAre(c, st, l, s);
    NameEdges(key);
    if IsLegacyShare(s) {
      LegacyKey(s, key);
      OtherFits(TrimEnd(s) + ":rw", key, "");
    }
  }

  lemma {:induction false} CopyLinesTimes(c: Clone, st: Copying, ls: File, key: string)
    requires Counted(c, key) && ShareHasNone(st, key)
    ensures Times(CopyLines(c, st, ls).out, key) == Times(st.out, key) + Times(RenamedAll(c, ls), key)
    ensures ShareHasNone(CopyLines(c, st, ls), key)
    decreases |ls|
  {
    hide CopyLine, Renamed, Field, Counted, ShareHasNone, IsName;
    if ls != [] {
      var t := CopyLine(c, st, ls[0], Renamed(c, ls[0]));
      CountedFacts(c, key);
      CopyLineTimes(c, st, ls[0], Renamed(c, ls[0]), key);
      CopyLineShare(c, st, ls[0], Renamed(c, ls[0]), key);
      CopyLinesTimes(c, t, ls[1..], key);
      assert RenamedAll(c, ls)[1..] == RenamedAll(c, ls[1..]);
    }
  }

  // ---------------------------------------------------------------------------------------
  // What was seen
  // ---------------------------------------------------------------------------------------

  predicate SeenKey(seen: Seen, key: string) {
    || (key == "ram" && seen.ram) || (key == "chrs" && seen.chrs)
    || (key == "balloon_mb" && seen.balloon) || (key == "skip_warmup" && seen.warmup)
  }

  predicate Watched(key: string) {
    key == "ram" || key == "chrs" || key == "balloon_mb" || key == "skip_warmup"
  }

  lemma CopyLineSeesKey(c: Clone, st: Copying, l: string, s: string, key: string)
    requires Watched(key)
    ensures SeenKey(CopyLine(c, st, l, s).seen, key) <==> SeenKey(st.seen, key) || Field(s, key).Some?
  {
    hide HasKey, Field, CopyLine;
    CopySees(c, st, l, s);
    KeyNames();
    KeysAreDistinct();
    FieldIsKey(s, key);
  }

  lemma {:induction false} CopyLinesSeeKey(c: Clone, st: Copying, ls: File, key: string)
    requires Watched(key)
    ensures SeenKey(CopyLines(c, st, ls).seen, key) <==> SeenKey(st.seen, key) || Times(RenamedAll(c, ls), key) > 0
    decreases |ls|
  {
    hide CopyLine, Renamed, Field, SeenKey, Watched;
    if ls != [] {
      CopyLineSeesKey(c, st, ls[0], Renamed(c, ls[0]), key);
      CopyLinesSeeKey(c, CopyLine(c, st, ls[0], Renamed(c, ls[0])), ls[1..], key);
      assert RenamedAll(c, ls)[1..] == RenamedAll(c, ls[1..]);
    }
  }

  // ---------------------------------------------------------------------------------------
  // What is added
  // ---------------------------------------------------------------------------------------

  /** The idle target is written if it differs from the active one. */
  predicate Idles(c: Clone) {
    c.idle.Some? && c.idle.value != (if c.want.balloon.Some? then c.want.balloon.value else 0)
  }

  /** How many lines with the key are added, if it was seen or not. */
  function Extra(c: Clone, seen: bool, key: string): nat {
    if key == "skip_warmup" || key == "balloon_mb" then One(!seen)
    else if key == "ram" then One(!seen && c.want.ram.Some?)
    else if key == "chrs" then One(!seen && c.want.chrs.Some?)
    else if key == "balloon_idle_mb" then One(Idles(c))
    else if key == "balloon_decay_secs" then One(Idles(c) && c.decay.Some?)
    else 0
  }

  lemma NewLineTimes(b: File, k: string, n: nat, key: string)
    requires IsKey(k) && ':' !in k && ':' !in key
    ensures Times(InsertHead(b, NewLine(k + ":", n)), key) == Times(b, key) + One(k == key)
    ensures Field(NewLine(k + ":", n), key).Some? <==> k == key
  {
    hide Times, Field, KeyOf, NewLine, InsertHead, IsSpace, Reads;
    var l := NewLine(k + ":", n);
    TimesHead(b, l, key);
    NewLineReads(k, n);
    if k != key {
      NewLineKey(k, n);
      OtherFits(l, key, "");
    }
  }

  lemma WarmupTimes(b: File, key: string)
    requires ':' !in key
    ensures Times(InsertHead(b, "    skip_warmup: true"), key) == Times(b, key) + One(key == "skip_warmup")
  {
    hide Times, Field, KeyOf, InsertHead;
    TimesHead(b, "    skip_warmup: true", key);
    WarmupReads("");
    WarmupKey();
    if key != "skip_warmup" {
      OtherFits("    skip_warmup: true", key, "");
    }
  }

  lemma ResourceTimes(c: Clone, seen: Seen, b: File, key: string)
    requires ':' !in key
    ensures Times(AddBalloon(c, seen, AddChrs(c, seen, AddRam(c, seen, AddWarmup(c, seen, b)))), key) ==
            Times(b, key) + if Watched(key) then Extra(c, SeenKey(seen, key), key) else 0
  {
    hide Times, InsertHead, NewLine, Or;
    ResourceKeys();
    IdleKeys();
    KeysAreDistinct();
    WarmupTimes(b, key);
    var b1 := AddWarmup(c, seen, b);
    if c.want.ram.Some? { NewLineTimes(b1, "ram", c.want.ram.value, key); }
    var b2 := AddRam(c, seen, b1);
    if c.want.chrs.Some? { NewLineTimes(b2, "chrs", c.want.chrs.value, key); }
    var b3 := AddChrs(c, seen, b2);
    NewLineTimes(b3, "balloon_mb", Or(c.want.balloon, 128), key);
  }

  lemma IdleTimes(c: Clone, b: File, key: string)
    requires ':' !in key
    ensures Times(AddIdle(c, b), key) ==
            Times(b, key) + One(key == "balloon_idle_mb" && Idles(c)) + One(key == "balloon_decay_secs" && Idles(c)
              && c.decay.Some?)
  {
    hide Times, InsertAt, NewLine, Field;
    IdleAreKeys();
    IdleKeys();
    if c.idle.Some? {
      var at := if |b| < 2 then |b| else 2;
      var l := NewLine(IDLE, c.idle.value);
      NewLineTimes(b, "balloon_idle_mb", c.idle.value, key);
      TimesInsert(b, at, l, key);
      InsertedLength(b, at, l);
      if c.decay.Some? {
        NewLineTimes(b, "balloon_decay_secs", c.decay.value, key);
        TimesInsert(InsertAt(b, at, l), at + 1, NewLine(DECAY, c.decay.value), key);
      }
    }
  }

  lemma ShareTimes(b: File, l: string, key: string)
    requires key != "shares" && ':' !in key && Field(l, key).None?
    ensures Times(AddShare(b, l), key) == Times(b, key)
  {
    hide Times, InsertAt, SharesAt, Field, KeyOf;
    SectionKeys();
    OtherFits("    shares:", key, "");
    var i := SharesAt(b, 0);
    if i < |b| {
      TimesInsert(b, i + 1, l, key);
    } else {
      TimesAppend(b, ["    shares:"], key);
      TimesAppend(b + ["    shares:"], [l], key);
      TimesOne("    shares:", key);
      TimesOne(l, key);
    }
  }

  lemma EnvTimes(c: Clone, seen: Seen, b: File, key: string)
    requires key != "environment" && ':' !in key && EnvApart(c, key)
    ensures Times(AddEnv(c, seen, b), key) == Times(b, key)
  {
    hide Times, EnvLines, Field, KeyOf, EnvApart;
    SectionKeys();
    OtherFits("    environment:", key, "");
    TimesAppend(b, ["    environment:"], key);
    TimesOne("    environment:", key);
    TimesAppend(b + ["    environment:"], EnvLines(6, c.env), key);
    EnvHasNone(c, 6, key);
  }

  lemma FinishTimes(c: Clone, st: Copying, key: string)
    requires Counted(c, key) && ShareHasNone(st, key)
    ensures Times(Finish(c, st), key) == Times(st.out, key) + Extra(c, SeenKey(st.seen, key), key)
  {
    hide Times, Field, Counted, AddWarmup, AddRam, AddChrs, AddBalloon, AddIdle, AddEnv, AddShare, HasSystemouts,
      ShareLine, Idles, EnvApart, IsName, KeyOf;
    CountedFacts(c, key);
    ResourceTimes(c, st.seen, st.out, key);
    var b := AddBalloon(c, st.seen, AddChrs(c, st.seen, AddRam(c, st.seen, AddWarmup(c, st.seen, st.out))));
    IdleTimes(c, b, key);
    EnvTimes(c, st.seen, AddIdle(c, b), key);
    var d := AddEnv(c, st.seen, AddIdle(c, b));
    if st.share.Some? { ShareTimes(d, st.share.value, key); }
    ShareLineKey(c, key);
    OtherFits(ShareLine(c), key, "");
    ShareTimes(AddLegacy(st.share, d), ShareLine(c), key);
    IdleNames();
  }

  lemma IdleNames()
    ensures !Watched("balloon_idle_mb") && !Watched("balloon_decay_secs") && "balloon_idle_mb" != "balloon_decay_secs"
  {
    assert |"balloon_idle_mb"| == 15 && |"balloon_decay_secs"| == 18 && |"ram"| == 3 && |"chrs"| == 4
      && |"balloon_mb"| == 10 && |"skip_warmup"| == 11;
  }

  /** The new block sets a key as often as the source does under its new names. Only a warm-up flag, a
      balloon, and the resources that were asked for are set once if the source does not set them; the
      idle target and its decay are set once more exactly if that target differs from the active one. */
  lemma SetAsOften(c: Clone, ls: File, key: string)
    requires ls != [] && Counted(c, key)
    ensures var n := Times(Sources(c, ls), key);
            Times(NewBlock(c, ls), key) ==
              if key == "skip_warmup" || key == "balloon_mb" || (key == "ram" && c.want.ram.Some?)
                || (key == "chrs" && c.want.chrs.Some?)
              then (if n == 0 then 1 else n)
              else if key == "balloon_idle_mb" then n + One(Idles(c))
              else if key == "balloon_decay_secs" then n + One(Idles(c) && c.decay.Some?)
              else n
  {
    hide Times, Field, Counted, CopyLine, CopyLines, Header, Finish, Idles, IsName, RenamedAll;
    CountedFacts(c, key);
    KeysAreDistinct();
    IdleNames();
    var st := CopyLine(c, START, ls[0], Header(c));
    BlankTimes(key);
    CopyLineTimes(c, START, ls[0], Header(c), key);
    CopyLineShare(c, START, ls[0], Header(c), key);
    CopyLinesTimes(c, st, ls[1..], key);
    TimesOne(Header(c), key);
    TimesAppend([Header(c)], RenamedAll(c, ls[1..]), key);
    FinishTimes(c, CopyBlock(c, ls), key);
    if Watched(key) {
      CopyLineSeesKey(c, START, ls[0], Header(c), key);
      CopyLinesSeeKey(c, st, ls[1..], key);
    }
  }

  /** If the source sets no balloon and none was asked for, the block has one of 128. */
  lemma BalloonByDefault(c: Clone, ls: File)
    requires ls != [] && c.want.balloon.None? && Times(Sources(c, ls), "balloon_mb") == 0
    ensures exists l :: l in NewBlock(c, ls) && Reads(l, "balloon_mb", 128)
  {
    hide Times, Field, CopyLine, CopyLines, Header, Finish, RenamedAll, Reads, Has;
    var st := CopyLine(c, START, ls[0], Header(c));
    TimesOne(Header(c), "balloon_mb");
    TimesAppend([Header(c)], RenamedAll(c, ls[1..]), "balloon_mb");
    CopyLineSeesKey(c, START, ls[0], Header(c), "balloon_mb");
    CopyLinesSeeKey(c, st, ls[1..], "balloon_mb");
    BalloonSeen(CopyBlock(c, ls).seen);
    BlockHas(c, ls);
  }

  lemma BalloonSeen(seen: Seen)
    ensures SeenKey(seen, "balloon_mb") <==> seen.balloon
  {
    KeysAreDistinct();
  }

  lemma BlankTimes(key: string)
    requires IsName(key)
    ensures Times([""], key) == 0
  {
    hide Field, KeyOf;
    NameEdges(key);
    BlankKey(key);
    OtherFits("", key, "");
    TimesOne("", key);
  }

  // ---------------------------------------------------------------------------------------
  // The header, and what a new value keeps
  // ---------------------------------------------------------------------------------------

  /** The clone of s or of its full name is called s: a blank line and its header follow the file. */
  lemma HeaderIsShort(f: File, c: Clone, s: string)
    requires Clonable(f, c) && (c.dst == c.cell + "-" + s || (c.dst == s && !StartsWith(s, c.cell + "-")))
    requires s != "skip_warmup" && s != "disabled" && !Overridden(c, s)
    ensures Append(f, c).Some?
    ensures var g := Append(f, c).value; |g| > |f| + 1 && g[..|f|] == f && g[|f|] == "" && g[|f| + 1] == "  " + s + ":"
  {
    hide Locate, NewBlock, GoodNames, HasKey, IsHeader, SpaceIndented, Override, WarmupLine, DisabledLine, Named,
      AllQuiet, FindName;
    ShortIs(c, s);
    CloneIsShaped(f, c);
    LocateBounds(f, c.src);
    var b := Locate(f, c.src).value;
    HeaderKey(c, "ram") by { KeyHasNoColon(); }
    HeaderKey(c, "balloon_mb") by { KeyHasNoColon(); }
    HeaderKey(c, "chrs") by { KeyHasNoColon(); }
    HeaderKey(c, "skip_warmup") by { KeyHasNoColon(); }
    HeaderKey(c, "disabled") by { KeyHasNoColon(); }
    KeyNames();
    assert FirstLine(c, f[b.start]) == Header(c);
    ShapedFront(NewBlock(c, f[b.start..b.end]), Header(c), c.dst);
  }

  lemma KeyHasNoColon()
    ensures ':' !in "ram" && ':' !in "balloon_mb" && ':' !in "chrs" && ':' !in "skip_warmup" && ':' !in "disabled"
  {
  }

  lemma ShortIs(c: Clone, s: string)
    requires c.dst == c.cell + "-" + s || (c.dst == s && !StartsWith(s, c.cell + "-"))
    ensures Short(c) == s
  {
    if c.dst == c.cell + "-" + s {
      assert c.dst[..|c.cell| + 1] == c.cell + "-" && c.dst[|c.cell| + 1..] == s;
    }
  }

  lemma OverrideKeeps(l: string, key: string, n: nat)
    requires HasKey(l, key + ":") && IsKey(key)
    ensures var w := Override(l, key + ":", n); Remark(w) == Remark(l) && Indent(w) == Indent(l)
  {
    hide IsSpace, Decimal, Comment, Find, TrimStart, Bare, Remark, IsKey;
    var rest := TrimStart(l)[|key| + 1..];
    SpacesAreSpace();
    RemarkOfLine(l, key);
    DecimalIsBare(n);
    assert '#' !in Decimal(n) by { BareHasNoComment(Decimal(n)); }
    BuiltKeeps(Spaces(Indent(l)), key, Decimal(n), rest);
    assert Override(l, key + ":", n) == Spaces(Indent(l)) + (key + ":" + (" " + Decimal(n) + Comment(rest)));
  }

  lemma {:induction false} RuleLineOut(c: Clone, st: Copying, ls: File, i: nat)
    requires i < |ls| && KeyRule(c, ls[i], Renamed(c, ls[i])).Some?
    ensures KeyRule(c, ls[i], Renamed(c, ls[i])).value in CopyLines(c, st, ls).out
    decreases |ls|
  {
    hide CopyLine, Renamed, KeyRule;
    var t := CopyLine(c, st, ls[0], Renamed(c, ls[0]));
    if i == 0 {
      CopySees(c, st, ls[0], Renamed(c, ls[0]));
      LinesGrow(c, t, ls[1..]);
      var x := KeyRule(c, ls[0], Renamed(c, ls[0])).value;
      assert t.out[|st.out|] == x && CopyLines(c, t, ls[1..]).out[|st.out|] == x;
    } else {
      RuleLineOut(c, t, ls[1..], i - 1);
    }
  }

  lemma {:induction false} LinesGrow(c: Clone, st: Copying, ls: File)
    ensures st.out <= CopyLines(c, st, ls).out
    decreases |ls|
  {
    hide CopyLine, Renamed;
    if ls != [] {
      OutGrows(c, st, ls[0], Renamed(c, ls[0]));
      LinesGrow(c, CopyLine(c, st, ls[0], Renamed(c, ls[0])), ls[1..]);
    }
  }

  /** The value asked for a resource. */
  function Asked(c: Clone, key: string): Option<nat> {
    if key == "ram" then c.want.ram else if key == "chrs" then c.want.chrs else if key == "balloon_mb"
      then c.want.balloon else None
  }

  /** A line of the source that sets a resource asked for keeps its indentation and its comment. */
  lemma ValueIsReplaced(c: Clone, ls: File, i: nat, key: string)
    requires 1 <= i < |ls| && Asked(c, key).Some? && Field(ls[i], key).Some? && Field(Renamed(c, ls[i]), key).Some?
    ensures exists x ::
              x in NewBlock(c, ls) && Reads(x, key, Asked(c, key).value) && Remark(x) == Remark(ls[i])
              && Indent(x) == Indent(ls[i])
  {
    hide CopyLine, CopyLines, Header, Finish, Renamed, Field, Override, HasKey, Reads, Remark, Decimal, TrimStart;
    var l, s := ls[i], Renamed(c, ls[i]);
    var x := Override(l, key + ":", Asked(c, key).value);
    KeyNames();
    KeysAreDistinct();
    ResourceKeys();
    FieldIsKey(s, key);
    FieldIsKey(l, key);
    KeysDiffer(s);
    assert KeyRule(c, l, s) == Some(x);
    OverrideReads(l, key, Asked(c, key).value);
    OverrideKeeps(l, key, Asked(c, key).value);
    var st := CopyLine(c, START, ls[0], Header(c));
    assert ls[1..][i - 1] == l;
    RuleLineOut(c, st, ls[1..], i - 1);
    StaysIn(x, c, CopyBlock(c, ls));
  }

  /** A flag line keeps its indentation. */
  lemma FlagIsReplaced(c: Clone, ls: File, i: nat, key: string)
    requires 1 <= i < |ls| && (key == "skip_warmup" || key == "disabled") && Field(Renamed(c, ls[i]), key).Some?
    ensures exists x :: x in NewBlock(c, ls) && Indent(x) == Indent(ls[i])
                        && Field(x, key) == Some(if key == "disabled" && !c.disabled then "false" else "true")
  {
    hide CopyLine, CopyLines, Header, Finish, Renamed, Field, Override, HasKey, WarmupLine, DisabledLine;
    var l, s := ls[i], Renamed(c, ls[i]);
    KeyNames();
    KeysAreDistinct();
    FieldIsKey(s, key);
    OtherKeysOut(s, key);
    var x := if key == "disabled" then DisabledLine(l, c.disabled) else WarmupLine(l);
    assert KeyRule(c, l, s) == Some(x);
    WarmupReads(l);
    DisabledReads(l, c.disabled);
    FlagIndent(l, c.disabled);
    var st := CopyLine(c, START, ls[0], Header(c));
    assert ls[1..][i - 1] == l;
    RuleLineOut(c, st, ls[1..], i - 1);
    StaysIn(x, c, CopyBlock(c, ls));
  }

  lemma OtherKeysOut(s: string, key: string)
    requires key == "skip_warmup" || key == "disabled"
    requires HasKey(s, key + ":")
    ensures !HasKey(s, RAM) && !HasKey(s, CHRS) && !HasKey(s, BALLOON) && (key == "disabled" ==> !HasKey(s, WARMUP))
  {
    hide HasKey, KeyOf;
    KeyNames();
    KeysAreDistinct();
    KeyHasNoColon();
    KeyIs(s, key);
    KeyExcludes(s, key, "ram");
    KeyExcludes(s, key, "chrs");
    KeyExcludes(s, key, "balloon_mb");
    if key == "disabled" { KeyExcludes(s, key, "skip_warmup"); }
  }
}
