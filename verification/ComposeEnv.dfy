/**
 Environment variables of a clone: how often an injected variable is set in the new block, and when
 it is set exactly once.
 */
module ComposeEnv {
  import opened Wrappers
  import opened Text
  import opened Compose
  import opened ComposeEdits
  import opened ComposePatch
  import opened ComposeClone
  import opened ComposeNames
  import opened ComposeRoundTrip

  function CountKey(ls: File, k: string): nat {
    if ls == [] then 0 else (if KeyOf(ls[0]) == k then 1 else 0) + CountKey(ls[1..], k)
  }

  /** Keys that the editor itself writes into a block. */
  predicate Reserved(k: string) {
    || k == "ram" || k == "chrs" || k == "balloon_mb" || k == "skip_warmup" || k == "disabled"
    || k == "environment" || k == "initial_delay" || k == "interval" || k == "retries"
    || k == "balloon_idle_mb" || k == "balloon_decay_secs" || k == "shares" || k == "healthcheck"
  }

  predicate FreeKey(k: string) {
    IsName(k) && k[0] != '-' && !Reserved(k)
  }

  /** Whether the copy is in an environment section after a line. */
  predicate InEnvAfter(c: Clone, l: string, s: string, inEnv: bool) {
    if KeyRule(c, l, s).Some? then inEnv else HasKey(s, ENVIRONMENT) || (inEnv && Indent(l) > 4)
  }

  /** A line of the source that sets the key and is copied: it stands outside an environment section,
      or at an indent of at most four, and is not dropped with the enterprise share. */
  predicate Inherited(c: Clone, l: string, s: string, inEnv: bool, k: string) {
    KeyOf(s) == k && !(inEnv && Indent(l) > 4) && (c.enterprise || !IsEnterprise(s))
  }

  function InheritedCount(c: Clone, ls: File, inEnv: bool, k: string): nat {
    if ls == [] then 0
    else
      var s := Renamed(c, ls[0]);
      (if Inherited(c, ls[0], s, inEnv, k) then 1 else 0) + InheritedCount(c, ls[1..], InEnvAfter(c, ls[0], s, inEnv),
        k)
  }

  /** The number of environment sections. */
  function EnvCount(c: Clone, ls: File): nat {
    if ls == [] then 0 else (if HasKey(Renamed(c, ls[0]), ENVIRONMENT) then 1 else 0) + EnvCount(c, ls[1..])
  }

  ghost predicate DistinctKeys(env: seq<(string, string)>) {
    forall i, j :: 0 <= i < j < |env| ==> env[i].0 != env[j].0
  }

  // ---------------------------------------------------------------------------------------
  // Keys of lines
  // ---------------------------------------------------------------------------------------

  lemma {:induction false} CountAppend(a: File, b: File, k: string)
    ensures CountKey(a + b, k) == CountKey(a, k) + CountKey(b, k)
    decreases |a|
  {
    hide KeyOf;
    if a == [] {
      assert a + b == b;
    } else {
      assert (a + b)[1..] == a[1..] + b;
      CountAppend(a[1..], b, k);
    }
  }

  lemma CountOne(l: string, k: string)
    ensures CountKey([l], k) == if KeyOf(l) == k then 1 else 0
  {
    hide KeyOf;
    assert [l][1..] == [];
  }

  lemma CountInsert(b: File, i: nat, l: string, k: string)
    requires i <= |b| && KeyOf(l) != k
    ensures CountKey(InsertAt(b, i, l), k) == CountKey(b, k)
  {
    hide CountKey, KeyOf;
    CountOne(l, k);
    CountAppend(b[..i] + [l], b[i..], k);
    CountAppend(b[..i], [l], k);
    CountAppend(b[..i], b[i..], k);
    assert b[..i] + b[i..] == b;
  }

  lemma KeyIs(l: string, key: string)
    requires HasKey(l, key + ":") && ':' !in key
    ensures KeyOf(l) == key
  {
    hide TrimStart, Find;
    var t := TrimStart(l);
    assert forall i :: 0 <= i < |key + ":"| ==> t[i] == (key + ":")[i];
    assert t[|key|] == ':';
    assert forall i :: 0 <= i < |key| ==> t[i] == key[i];
    assert Find(t, ':') == |key|;
    assert t[..|key|] == key;
  }

  lemma IndentedKey(n: nat, key: string, rest: string)
    requires key != "" && !IsSpace(key[0]) && ':' !in key
    ensures KeyOf(Spaces(n) + (key + ":" + rest)) == key
  {
    hide IsSpace, TrimStart;
    SpacesAreSpace();
    var t := key + ":" + rest;
    var l := Spaces(n) + t;
    assert l[n] == key[0];
    TrimStartIs(l, n);
    assert l[n..] == t;
    assert t[..|key + ":"|] == key + ":";
    KeyIs(l, key);
  }

  lemma NewLineKey(key: string, n: nat)
    requires key != "" && !IsSpace(key[0]) && ':' !in key
    ensures KeyOf(NewLine(key + ":", n)) == key
  {
    hide IsSpace, KeyOf, Decimal;
    IndentedKey(4, key, " " + Decimal(n));
    assert NewLine(key + ":", n) == Spaces(4) + (key + ":" + (" " + Decimal(n)));
  }

  lemma OverrideKey(l: string, key: string, n: nat)
    requires key != "" && !IsSpace(key[0]) && ':' !in key
    ensures KeyOf(Override(l, key + ":", n)) == key
  {
    hide IsSpace, KeyOf, Decimal, Comment, TrimStart;
    var m := Comment(if HasKey(l, key + ":") then TrimStart(l)[|key + ":"|..] else "");
    IndentedKey(Indent(l), key, " " + Decimal(n) + m);
    assert Override(l, key + ":", n) == Spaces(Indent(l)) + (key + ":" + (" " + Decimal(n) + m));
  }

  lemma FlagKeys(l: string, disabled: bool)
    ensures KeyOf(WarmupLine(l)) == "skip_warmup" && KeyOf(DisabledLine(l, disabled)) == "disabled"
  {
    hide IsSpace, KeyOf;
    FlagLetters();
    IndentedKey(Indent(l), "skip_warmup", " true");
    IndentedKey(Indent(l), "disabled", if disabled then " true" else " false");
    assert WarmupLine(l) == Spaces(Indent(l)) + ("skip_warmup" + ":" + " true");
    assert DisabledLine(l, disabled) ==
      Spaces(Indent(l)) + ("disabled" + ":" + (if disabled then " true" else " false"));
  }

  lemma KeyLetters()
    ensures !IsSpace('r') && !IsSpace('c') && !IsSpace('b') && !IsSpace('s') && !IsSpace('e') && !IsSpace('i')
            && !IsSpace('-')
  {
  }

  /** The key of a rewritten line is reserved, and so is that of the line it replaces. */
  lemma KeyRuleKey(c: Clone, l: string, s: string, k: string)
    requires KeyRule(c, l, s).Some? && !Reserved(k)
    ensures KeyOf(KeyRule(c, l, s).value) != k
  {
    hide IsSpace, KeyOf, HasKey, Override, WarmupLine, DisabledLine;
    KeyLetters();
    assert RAM == "ram" + ":" && BALLOON == "balloon_mb" + ":" && CHRS == "chrs" + ":";
    FlagKeys(l, c.disabled);
    if c.want.ram.Some? { OverrideKey(l, "ram", c.want.ram.value); }
    if c.want.balloon.Some? { OverrideKey(l, "balloon_mb", c.want.balloon.value); }
    if c.want.chrs.Some? { OverrideKey(l, "chrs", c.want.chrs.value); }
  }

  lemma DeepKey(key: string, rest: string)
    requires key != "" && !IsSpace(key[0]) && ':' !in key
    ensures KeyOf("      " + key + ":" + rest) == key
  {
    hide IsSpace, KeyOf;
    IndentedKey(6, key, rest);
    assert "      " + key + ":" + rest == Spaces(6) + (key + ":" + rest);
  }

  lemma HealthKeys()
    ensures KeyOf("      initial_delay: 3") == "initial_delay"
    ensures KeyOf("      interval: 1") == "interval"
    ensures KeyOf("      retries: 30") == "retries"
  {
    hide IsSpace, KeyOf;
    KeyLetters();
    DeepKey("initial_delay", " 3");
    DeepKey("interval", " 1");
    DeepKey("retries", " 30");
    assert "      initial_delay: 3" == "      " + "initial_delay" + ":" + " 3";
    assert "      interval: 1" == "      " + "interval" + ":" + " 1";
    assert "      retries: 30" == "      " + "retries" + ":" + " 30";
  }

  lemma HealthKey(s: string, k: string)
    requires HealthRule(s).Some? && !Reserved(k)
    ensures KeyOf(HealthRule(s).value) != k
  {
    hide KeyOf, HasKey;
    HealthKeys();
  }

  /** A list item has no key that is a name. */
  lemma ItemKey(l: string, k: string)
    requires IsName(k) && k[0] != '-' && StartsWith(TrimStart(l), "-")
    ensures KeyOf(l) != k
  {
    hide TrimStart, IsIdent;
    assert TrimStart(l)[0] == "-"[0] == '-';
  }

  lemma LegacyKey(s: string, k: string)
    requires IsName(k) && k[0] != '-' && IsLegacyShare(s)
    ensures KeyOf(TrimEnd(s) + ":rw") != k
  {
    hide IsSpace, Contains, KeyOf, IsName, TrimEnd;
    KeyLetters();
    TrimEndFacts(s);
    TrimStartFacts(s);
    var n := |s| - |TrimStart(s)|;
    assert "- "[0] == '-';
    assert s[n] == TrimStart(s)[0] == '-';
    var r := TrimEnd(s) + ":rw";
    assert n < |TrimEnd(s)|;
    assert forall i :: 0 <= i <= n ==> r[i] == s[i];
    TrimStartIs(r, n);
    ItemKey(r, k);
  }

  lemma NameEdges(k: string)
    requires IsName(k)
    ensures k != "" && !IsSpace(k[0]) && ':' !in k
  {
  }

  lemma EnvLineKey(indent: nat, kv: (string, string))
    requires IsName(kv.0)
    ensures KeyOf(EnvLine(indent, kv)) == kv.0
  {
    hide IsSpace, IsName, KeyOf;
    NameEdges(kv.0);
    IndentedKey(indent, kv.0, " \"" + kv.1 + "\"");
    assert EnvLine(indent, kv) == Spaces(indent) + (kv.0 + ":" + (" \"" + kv.1 + "\""));
  }

  /** Among the injected lines each key occurs once. */
  lemma {:induction false} EnvLinesOnce(indent: nat, env: seq<(string, string)>, k: string)
    requires DistinctKeys(env) && forall i :: 0 <= i < |env| ==> IsName(env[i].0)
    ensures CountKey(EnvLines(indent, env), k) == if IsEnvKey(env, k) then 1 else 0
    decreases |env|
  {
    hide KeyOf, IsName, EnvLine;
    var ls := EnvLines(indent, env);
    if env != [] {
      EnvLineKey(indent, env[0]);
      assert ls[1..] == EnvLines(indent, env[1..]);
      EnvLinesOnce(indent, env[1..], k);
      assert IsEnvKey(env, k) <==> env[0].0 == k || IsEnvKey(env[1..], k) by {
        assert forall i :: 0 < i < |env| ==> env[i] == env[1..][i - 1];
      }
    }
  }

  // ---------------------------------------------------------------------------------------
  // Copying
  // ---------------------------------------------------------------------------------------

  /** The injected keys, and the one that is counted. */
  ghost predicate GoodEnv(c: Clone, k: string) {
    && DistinctKeys(c.env) && (forall i :: 0 <= i < |c.env| ==> IsName(c.env[i].0))
    && IsEnvKey(c.env, k) && FreeKey(k)
  }

  ghost predicate ShareKeyOk(st: Copying, k: string) {
    st.share.Some? ==> KeyOf(st.share.value) != k
  }

  /** What one line does: n more lines with the key. */
  ghost predicate Counts(st: Copying, r: Copying, k: string, n: nat) {
    CountKey(r.out, k) == CountKey(st.out, k) + n && ShareKeyOk(r, k)
  }

  lemma CountPush(out: File, l: string, k: string)
    ensures CountKey(out + [l], k) == CountKey(out, k) + if KeyOf(l) == k then 1 else 0
  {
    hide KeyOf, CountKey;
    CountAppend(out, [l], k);
    CountOne(l, k);
  }

  function One(b: bool): nat {
    if b then 1 else 0
  }

  lemma KeepRuleCounts(c: Clone, st: Copying, s: string, k: string)
    requires FreeKey(k) && ShareKeyOk(st, k)
    ensures Counts(st, KeepRule(c, st, s), k, One(KeyOf(s) == k && (c.enterprise || !IsEnterprise(s))))
    ensures KeepRule(c, st, s).inEnv == st.inEnv
  {
    hide KeyOf, CountKey, HasKey, IsLegacyShare, IsEnterprise, IsName, Reserved;
    CountPush(st.out, s, k);
    if HasKey(s, HEALTHCHECK) {
      assert HEALTHCHECK == "healthcheck" + ":";
      KeyIs(s, "healthcheck");
      EnvironmentIsReserved(k);
    } else if IsLegacyShare(s) {
      LegacyKey(s, k);
      LegacyIsItem(s);
      ItemKey(s, k);
    }
  }

  lemma LegacyIsItem(s: string)
    requires IsLegacyShare(s)
    ensures StartsWith(TrimStart(s), "-")
  {
    hide TrimStart, Contains;
    assert "- "[0] == '-';
  }

  /** Lines with a value of their own have reserved keys. */
  lemma RuleKeys(c: Clone, l: string, s: string, k: string)
    requires !Reserved(k) && KeyOf(s) == k
    ensures KeyRule(c, l, s).None? && HealthRule(s).None? && !HasKey(s, ENVIRONMENT)
  {
    hide KeyOf, HasKey, Override, WarmupLine, DisabledLine;
    assert RAM == "ram" + ":" && BALLOON == "balloon_mb" + ":" && CHRS == "chrs" + ":" && WARMUP == "skip_warmup" + ":";
    assert DISABLED == "disabled" + ":" && ENVIRONMENT == "environment" + ":";
    assert "initial_delay:" == "initial_delay" + ":" && "interval:" == "interval" + ":"
      && "retries:" == "retries" + ":";
    KeyExcludes(s, k, "ram");
    KeyExcludes(s, k, "balloon_mb");
    KeyExcludes(s, k, "chrs");
    KeyExcludes(s, k, "skip_warmup");
    KeyExcludes(s, k, "disabled");
    KeyExcludes(s, k, "environment");
    KeyExcludes(s, k, "initial_delay");
    KeyExcludes(s, k, "interval");
    KeyExcludes(s, k, "retries");
  }

  lemma KeyExcludes(s: string, k: string, key: string)
    requires KeyOf(s) == k && k != key && ':' !in key
    ensures !HasKey(s, key + ":")
  {
    hide KeyOf, HasKey;
    if HasKey(s, key + ":") {
      KeyIs(s, key);
    }
  }

  lemma SectionRuleCounts(c: Clone, st: Copying, l: string, s: string, k: string)
    requires FreeKey(k) && ShareKeyOk(st, k) && IsEnvKey(c.env, k)
    ensures var r := SectionRule(c, st, l, s);
            Counts(st, r, k, One(Inherited(c, l, s, st.inEnv, k))) && r.inEnv == (st.inEnv && Indent(l) > 4)
  {
    hide KeyOf, CountKey, HasKey, KeepRule, IsEnvKey, HealthRule, KeyRule, Reserved, IsName, IsEnterprise;
    var deep := Indent(l) > 4;
    if KeyOf(s) == k {
      RuleKeys(c, l, s, k);
    }
    if st.inEnv && deep && IsEnvKey(c.env, KeyOf(s)) {
    } else if st.inHealth && deep && HealthRule(s).Some? {
      HealthKey(s, k);
      CountPush(st.out, HealthRule(s).value, k);
    } else {
      KeepRuleCounts(c, st.(inEnv := st.inEnv && deep, inHealth := st.inHealth && deep), s, k);
    }
  }

  lemma CopyLineCounts(c: Clone, st: Copying, l: string, s: string, k: string)
    requires GoodEnv(c, k) && ShareKeyOk(st, k)
    ensures var r := CopyLine(c, st, l, s);
            && Counts(st, r, k, One(HasKey(s, ENVIRONMENT)) + One(Inherited(c, l, s, st.inEnv, k)))
            && r.inEnv == InEnvAfter(c, l, s, st.inEnv)
            && (r.seen.env <==> st.seen.env || HasKey(s, ENVIRONMENT))
  {
    hide KeyOf, CountKey, SectionRule, IsEnvKey, Reserved, IsName, KeyRule, SeeKeys, EnvLines, TrimStart, IsEnterprise;
    RulesDiffer(c, l, s);
    SeenEnvKept(st.seen, s);
    if KeyOf(s) == k {
      RuleKeys(c, l, s, k);
    }
    if KeyRule(c, l, s).Some? {
      KeyRuleKey(c, l, s, k);
      CountPush(st.out, KeyRule(c, l, s).value, k);
    } else if HasKey(s, ENVIRONMENT) {
      assert ENVIRONMENT == "environment" + ":";
      KeyIs(s, "environment");
      var env := EnvLines(Indent(l) + 2, c.env);
      EnvLinesOnce(Indent(l) + 2, c.env, k);
      EnvironmentIsReserved(k);
      CountPush(st.out, s, k);
      CountAppend(st.out + [s], env, k);
      assert st.out + ([s] + env) == (st.out + [s]) + env;
    } else {
      SectionRuleCounts(c, st.(seen := SeeKeys(st.seen, s)), l, s, k);
      SectionKeepsSeen(c, st.(seen := SeeKeys(st.seen, s)), l, s);
    }
  }

  lemma EnvironmentIsReserved(k: string)
    ensures !Reserved(k) ==> k != "environment" && k != "shares" && k != "healthcheck"
  {
  }

  lemma SeenEnvKept(seen: Seen, s: string)
    ensures SeeKeys(seen, s).env == seen.env
  {
  }

  lemma SectionKeepsSeen(c: Clone, st: Copying, l: string, s: string)
    ensures SectionRule(c, st, l, s).seen == st.seen
  {
    hide HasKey, KeyOf, IsEnvKey, IsLegacyShare, IsEnterprise, HealthRule;
  }

  /** A line with a rewritten key is no environment line. */
  lemma RulesDiffer(c: Clone, l: string, s: string)
    ensures KeyRule(c, l, s).Some? ==> !HasKey(s, ENVIRONMENT)
  {
    hide TrimStart, Override, WarmupLine, DisabledLine;
    var t := TrimStart(s);
    assert ENVIRONMENT[0] == 'e' && RAM[0] == 'r' && BALLOON[0] == 'b' && CHRS[0] == 'c' && WARMUP[0] == 's'
      && DISABLED[0] == 'd';
    if HasKey(s, ENVIRONMENT) {
      assert t[0] == ENVIRONMENT[0];
    }
  }

  lemma {:induction false} CopyLinesCount(c: Clone, st: Copying, ls: File, k: string)
    requires GoodEnv(c, k) && ShareKeyOk(st, k)
    ensures var r := CopyLines(c, st, ls);
            && Counts(st, r, k, EnvCount(c, ls) + InheritedCount(c, ls, st.inEnv, k))
            && (r.seen.env <==> st.seen.env || EnvCount(c, ls) > 0)
    decreases |ls|
  {
    hide KeyOf, CountKey, CopyLine, Renamed, HasKey, GoodEnv, Inherited, InEnvAfter, ShareKeyOk;
    if ls != [] {
      var s := Renamed(c, ls[0]);
      CopyLineCounts(c, st, ls[0], s, k);
      CopyLinesCount(c, CopyLine(c, st, ls[0], s), ls[1..], k);
    }
  }

  // ---------------------------------------------------------------------------------------
  // The rest of the block
  // ---------------------------------------------------------------------------------------

  lemma CountHead(b: File, key: string, n: nat, k: string)
    requires key != "" && !IsSpace(key[0]) && ':' !in key && key != k
    ensures CountKey(InsertHead(b, NewLine(key + ":", n)), k) == CountKey(b, k)
  {
    hide IsSpace, KeyOf, NewLine, InsertAt;
    NewLineKey(key, n);
    CountInsert(b, if |b| < 2 then |b| else 2, NewLine(key + ":", n), k);
  }

  lemma WarmupKey()
    ensures KeyOf("    skip_warmup: true") == "skip_warmup"
  {
    hide IsSpace, KeyOf;
    KeyLetters();
    assert Spaces(4) == "    ";
    IndentedKey(4, "skip_warmup", " true");
    assert "    skip_warmup: true" == "    " + ("skip_warmup" + ":" + " true");
  }

  lemma SectionKeys()
    ensures KeyOf("    environment:") == "environment" && KeyOf("    shares:") == "shares"
  {
    hide IsSpace, KeyOf;
    KeyLetters();
    assert Spaces(4) == "    ";
    IndentedKey(4, "environment", "");
    IndentedKey(4, "shares", "");
    assert "    environment:" == "    " + ("environment" + ":" + "");
    assert "    shares:" == "    " + ("shares" + ":" + "");
  }

  lemma CountResources(c: Clone, seen: Seen, b: File, k: string)
    requires !Reserved(k)
    ensures CountKey(AddBalloon(c, seen, AddChrs(c, seen, AddRam(c, seen, AddWarmup(c, seen, b)))), k) == CountKey(b, k)
  {
    hide IsSpace, KeyOf, NewLine, InsertHead, CountKey, Or;
    KeyLetters();
    assert RAM == "ram" + ":" && BALLOON == "balloon_mb" + ":" && CHRS == "chrs" + ":";
    WarmupKey();
    CountWarmup(b, k);
    var b1 := AddWarmup(c, seen, b);
    if c.want.ram.Some? { CountHead(b1, "ram", c.want.ram.value, k); }
    var b2 := AddRam(c, seen, b1);
    if c.want.chrs.Some? { CountHead(b2, "chrs", c.want.chrs.value, k); }
    var b3 := AddChrs(c, seen, b2);
    CountHead(b3, "balloon_mb", Or(c.want.balloon, 128), k);
  }

  lemma CountWarmup(b: File, k: string)
    requires KeyOf("    skip_warmup: true") != k
    ensures CountKey(InsertHead(b, "    skip_warmup: true"), k) == CountKey(b, k)
  {
    hide KeyOf, CountKey;
    CountInsert(b, if |b| < 2 then |b| else 2, "    skip_warmup: true", k);
  }

  lemma CountIdle(c: Clone, b: File, k: string)
    requires !Reserved(k)
    ensures CountKey(AddIdle(c, b), k) == CountKey(b, k)
  {
    hide IsSpace, KeyOf, NewLine, CountKey, Or, InsertAt;
    KeyLetters();
    assert IDLE == "balloon_idle_mb" + ":" && DECAY == "balloon_decay_secs" + ":";
    var at := if |b| < 2 then |b| else 2;
    if c.idle.Some? {
      NewLineKey("balloon_idle_mb", c.idle.value);
      var l := NewLine(IDLE, c.idle.value);
      CountInsert(b, at, l, k);
      InsertedLength(b, at, l);
      if c.decay.Some? {
        NewLineKey("balloon_decay_secs", c.decay.value);
        CountInsert(InsertAt(b, at, l), at + 1, NewLine(DECAY, c.decay.value), k);
      }
    }
  }

  lemma InsertedLength(b: File, i: nat, l: string)
    requires i <= |b|
    ensures |InsertAt(b, i, l)| == |b| + 1
  {
  }

  lemma CountShare(b: File, l: string, k: string)
    requires !Reserved(k) && KeyOf(l) != k
    ensures CountKey(AddShare(b, l), k) == CountKey(b, k)
  {
    hide KeyOf, CountKey, InsertAt, SharesAt;
    SectionKeys();
    EnvironmentIsReserved(k);
    var i := SharesAt(b, 0);
    if i < |b| {
      CountInsert(b, i + 1, l, k);
    } else {
      CountPush(b, "    shares:", k);
      CountPush(b + ["    shares:"], l, k);
    }
  }

  lemma CountEnv(c: Clone, seen: Seen, b: File, k: string)
    requires GoodEnv(c, k)
    ensures CountKey(AddEnv(c, seen, b), k) == CountKey(b, k) + if seen.env then 0 else 1
  {
    hide KeyOf, CountKey, EnvLines, Reserved, IsName;
    SectionKeys();
    EnvironmentIsReserved(k);
    CountPush(b, "    environment:", k);
    CountAppend(b + ["    environment:"], EnvLines(6, c.env), k);
    EnvLinesOnce(6, c.env, k);
  }

  lemma ShareLineKey(c: Clone, k: string)
    requires IsName(k) && k[0] != '-'
    ensures KeyOf(ShareLine(c)) != k
  {
    hide IsSpace, KeyOf, IsName;
    KeyLetters();
    SpacesAreSpace();
    var l := ShareLine(c);
    assert l[6] == '-';
    TrimStartIs(l, 6);
    ItemKey(l, k);
  }

  lemma CountFinish(c: Clone, st: Copying, k: string)
    requires GoodEnv(c, k) && ShareKeyOk(st, k)
    ensures CountKey(Finish(c, st), k) == CountKey(st.out, k) + if st.seen.env then 0 else 1
  {
    hide KeyOf, CountKey, IsName, Reserved, AddWarmup, AddRam, AddChrs, AddBalloon, AddIdle, AddEnv, AddShare,
      HasSystemouts, ShareLine, DistinctKeys;
    CountResources(c, st.seen, st.out, k);
    var b := AddBalloon(c, st.seen, AddChrs(c, st.seen, AddRam(c, st.seen, AddWarmup(c, st.seen, st.out))));
    CountIdle(c, b, k);
    CountEnv(c, st.seen, AddIdle(c, b), k);
    var d := AddEnv(c, st.seen, AddIdle(c, b));
    if st.share.Some? {
      CountShare(d, st.share.value, k);
    }
    ShareLineKey(c, k);
    CountShare(AddLegacy(st.share, d), ShareLine(c), k);
  }

  /** The header has the service name as its key. */
  lemma HeaderIs(c: Clone, name: string)
    requires GoodNames(c) && ':' !in name
    ensures (KeyOf(Header(c)) == name <==> Short(c) == name) && (HasKey(Header(c), name + ":") <==> Short(c) == name)
    ensures !IsEnterprise(Header(c))
  {
    hide KeyOf, IsIdent, Contains;
    ShortIsName(c);
    HeaderKey(c, name);
    NoColonInName(Short(c));
    HeaderKey(c, Short(c));
    KeyIs(Header(c), Short(c));
    HeaderIsNoShare(c);
  }

  lemma HeaderIsNoShare(c: Clone)
    requires IsName(Short(c))
    ensures !IsEnterprise(Header(c))
  {
    hide Contains;
    var t := TrimStart(Header(c));
    assert '/' !in Header(c);
    TrimStartFacts(Header(c));
    var p := ":/mnt/extra-enterprise";
    assert p[1] == '/' && '/' !in t;
    ContainsNeeds(t, p, 1);
  }

  /** The environment sections of the new block that come from the source, and a service that is called
      like one. */
  function Sections(c: Clone, ls: File): nat
    requires ls != []
  {
    One(Short(c) == "environment") + EnvCount(c, ls[1..])
  }

  /** The lines with the key that come from the source, and a service that is called like the key. */
  function InheritedLines(c: Clone, ls: File, k: string): nat
    requires ls != []
  {
    One(Short(c) == k) + InheritedCount(c, ls[1..], Short(c) == "environment", k)
  }

  function AtLeastOne(n: nat): nat {
    if n == 0 then 1 else n
  }

  /** Each section of the new block sets an injected variable once, and lines of the source that stand
      outside such a section are copied. So the variable is set exactly once if there is at most one
      section and no such line, and only then. */
  lemma InjectedOnce(c: Clone, ls: File, k: string)
    requires GoodNames(c) && GoodEnv(c, k) && ls != []
    ensures CountKey(NewBlock(c, ls), k) == AtLeastOne(Sections(c, ls)) + InheritedLines(c, ls, k)
    ensures CountKey(NewBlock(c, ls), k) == 1 <==> Sections(c, ls) <= 1 && InheritedLines(c, ls, k) == 0
  {
    hide KeyOf, CountKey, GoodNames, Header, CopyLine, CopyLines, InheritedCount, EnvCount, IsName, Finish, HasKey,
      Reserved, DistinctKeys, IsEnterprise, KeyRule, Short;
    assert ENVIRONMENT == "environment" + ":";
    NameEdges(k);
    HeaderIs(c, "environment");
    HeaderIs(c, k);
    RulesDiffer(c, ls[0], Header(c));
    var st := CopyLine(c, START, ls[0], Header(c));
    CopyLineCounts(c, START, ls[0], Header(c), k);
    BlankCounts(k);
    CopyLinesCount(c, st, ls[1..], k);
    CountFinish(c, CopyLines(c, st, ls[1..]), k);
  }

  // ---------------------------------------------------------------------------------------
  // A variable that is set twice
  // ---------------------------------------------------------------------------------------

  lemma {:induction false} ReplaceNone(s: string, p: string, q: string)
    requires p != "" && p[0] !in s
    ensures Replace(s, p, q) == s
    decreases |s|
  {
    if s != "" {
      ReplaceNone(s[1..], p, q);
    }
  }

  /** A line with an ordinary key is copied, unless it is an injected one inside the section. */
  lemma OrdinaryLine(c: Clone, st: Copying, l: string, key: string)
    requires KeyOf(l) == key && FreeKey(key) && c.enterprise && c.src != "" && c.src[0] !in l
    requires IsEnvKey(c.env, key) ==> !(st.inEnv && Indent(l) > 4)
    requires key != "id"
    ensures Renamed(c, l) == l
    ensures var r := CopyLine(c, st, l, l); r.out == st.out + [l] && r.inEnv == (st.inEnv && Indent(l) > 4)
  {
    hide KeyOf, HasKey, IsName, Replace, Reserved, IsEnvKey, TrimStart, SeeKeys, IsEnterprise, IsLegacyShare;
    ReplaceNone(l, c.src, c.dst);
    assert ID == "id" + ":" && HEALTHCHECK == "healthcheck" + ":";
    KeyExcludes(l, key, "id");
    RuleKeys(c, l, l, key);
    EnvironmentIsReserved(key);
    KeyExcludes(l, key, "healthcheck");
    if IsLegacyShare(l) {
      LegacyIsItem(l);
      ItemKey(l, key);
    }
  }

  lemma EnvironmentLine(c: Clone, st: Copying, k: string, v: string)
    requires c.env == [(k, v)] && c.src != "" && c.src[0] !in "    environment:"
    ensures var l := "    environment:";
            && Renamed(c, l) == l
            && var r := CopyLine(c, st, l, l); r.out == st.out + [l, EnvLine(6, (k, v))] && r.inEnv
  {
    hide KeyOf, HasKey, Replace, TrimStart, SeeKeys, EnvLine, Override, WarmupLine, DisabledLine;
    var l := "    environment:";
    ReplaceNone(l, c.src, c.dst);
    SectionKeys();
    assert ID == "id" + ":" && ENVIRONMENT == "environment" + ":";
    KeyExcludes(l, "environment", "id");
    SectionLine();
    RulesDiffer(c, l, l);
    assert [l] + EnvLines(6, c.env) == [l, EnvLine(6, (k, v))];
  }

  lemma SectionLine()
    ensures HasKey("    environment:", ENVIRONMENT) && Indent("    environment:") == 4
  {
    hide IsSpace;
    KeyLetters();
    var l := "    environment:";
    assert l[0] == l[1] == l[2] == l[3] == ' ' && l[4] == 'e';
    assert IsSpace(' ') by { SpacesAreSpace(); assert Spaces(1)[0] == ' '; }
    TrimStartIs(l, 4);
    assert l[4..] == ENVIRONMENT;
  }

  lemma BlankLine(c: Clone, st: Copying)
    requires c.src != "" && c.enterprise
    ensures Renamed(c, "") == ""
    ensures var r := CopyLine(c, st, "", ""); r.out == st.out + [""] && !r.inEnv
  {
  }

  /** x stands somewhere before y. */
  ghost predicate Before(b: File, x: string, y: string) {
    exists i, j :: 0 <= i < j < |b| && b[i] == x && b[j] == y
  }

  lemma InsertKeepsOrder(b: File, at: nat, l: string, x: string, y: string)
    requires at <= |b| && Before(b, x, y)
    ensures Before(InsertAt(b, at, l), x, y)
  {
    var i, j :| 0 <= i < j < |b| && b[i] == x && b[j] == y;
    var d := InsertAt(b, at, l);
    var i', j' := if i < at then i else i + 1, if j < at then j else j + 1;
    assert d[i'] == x && d[j'] == y;
  }

  lemma AppendKeepsOrder(b: File, e: File, x: string, y: string)
    requires Before(b, x, y)
    ensures Before(b + e, x, y)
  {
    var i, j :| 0 <= i < j < |b| && b[i] == x && b[j] == y;
    assert (b + e)[i] == x && (b + e)[j] == y;
  }

  lemma HeadKeepsOrder(b: File, l: string, x: string, y: string)
    requires Before(b, x, y)
    ensures Before(InsertHead(b, l), x, y)
  {
    hide Before, InsertAt;
    InsertKeepsOrder(b, if |b| < 2 then |b| else 2, l, x, y);
  }

  lemma IdleKeepsOrder(c: Clone, b: File, x: string, y: string)
    requires Before(b, x, y)
    ensures Before(AddIdle(c, b), x, y)
  {
    hide Before, NewLine, InsertAt, Or;
    if c.idle.Some? {
      var at := if |b| < 2 then |b| else 2;
      var l := NewLine(IDLE, c.idle.value);
      InsertKeepsOrder(b, at, l, x, y);
      InsertedLength(b, at, l);
      if c.decay.Some? {
        InsertKeepsOrder(InsertAt(b, at, l), at + 1, NewLine(DECAY, c.decay.value), x, y);
      }
    }
  }

  lemma ShareKeepsOrder(b: File, l: string, x: string, y: string)
    requires Before(b, x, y)
    ensures Before(AddShare(b, l), x, y)
  {
    hide Before, SharesAt, InsertAt;
    var i := SharesAt(b, 0);
    if i < |b| {
      InsertKeepsOrder(b, i + 1, l, x, y);
    } else {
      AppendKeepsOrder(b, ["    shares:"], x, y);
      AppendKeepsOrder(b + ["    shares:"], [l], x, y);
    }
  }

  /** What is added to the copied lines does not change their order. */
  lemma FinishKeepsOrder(c: Clone, st: Copying, x: string, y: string)
    requires Before(st.out, x, y)
    ensures Before(Finish(c, st), x, y)
  {
    hide Before, InsertHead, NewLine, AddIdle, EnvLines, AddShare, HasSystemouts, ShareLine, Or;
    var b1 := AddWarmup(c, st.seen, st.out);
    HeadKeepsOrder(st.out, "    skip_warmup: true", x, y);
    if c.want.ram.Some? { HeadKeepsOrder(b1, NewLine(RAM, c.want.ram.value), x, y); }
    var b2 := AddRam(c, st.seen, b1);
    if c.want.chrs.Some? { HeadKeepsOrder(b2, NewLine(CHRS, c.want.chrs.value), x, y); }
    var b3 := AddChrs(c, st.seen, b2);
    HeadKeepsOrder(b3, NewLine(BALLOON, Or(c.want.balloon, 128)), x, y);
    var b4 := AddBalloon(c, st.seen, b3);
    IdleKeepsOrder(c, b4, x, y);
    var b5 := AddIdle(c, b4);
    AppendKeepsOrder(b5, ["    environment:"], x, y);
    AppendKeepsOrder(b5 + ["    environment:"], EnvLines(6, c.env), x, y);
    var b6 := AddEnv(c, st.seen, b5);
    if st.share.Some? { ShareKeepsOrder(b6, st.share.value, x, y); }
    ShareKeepsOrder(AddLegacy(st.share, b6), ShareLine(c), x, y);
  }

  /** A blank line inside the environment section ends it for the copy, though not in YAML: the source's
      own line for an injected variable is kept, after the injected one, where its value wins. Without
      the blank line it is left out. */
  lemma BlankLineKeepsOld(c: Clone) returns (ls: File)
    requires GoodNames(c) && Short(c) != "K" && Short(c) != "environment" && c.enterprise
    requires c.env == [("K", "new")] && c.src != "" && c.src[0] == 'p'
    ensures |ls| == 5 && ls == [ls[0], "    environment:", "      A: 1", "", "      K: 1"]
    ensures CountKey(NewBlock(c, ls), "K") == 2
    ensures Before(NewBlock(c, ls), EnvLine(6, ("K", "new")), "      K: 1")
    ensures CountKey(NewBlock(c, [ls[0], "    environment:", "      A: 1", "      K: 1"]), "K") == 1
  {
    hide KeyOf, CountKey, GoodNames, CopyLine, Renamed, InheritedCount, Finish, Reserved, EnvLine, Before, Header,
      IsName;
    ls := ["  p:", "    environment:", "      A: 1", "", "      K: 1"];
    OneLetterKeys();
    var st0 := CopyLine(c, START, ls[0], Header(c));
    var st1 := CopyLine(c, st0, ls[1], ls[1]);
    var st2 := CopyLine(c, st1, ls[2], ls[2]);
    var st3 := CopyLine(c, st2, "", "");
    var st4 := CopyLine(c, st3, ls[4], ls[4]);
    EnvironmentLine(c, st0, "K", "new");
    OrdinaryLine(c, st1, ls[2], "A");
    BlankLine(c, st2);
    OrdinaryLine(c, st3, ls[4], "K");
    FiveLines(c, st0, ls);
    assert st4.out == st0.out + [ls[1], EnvLine(6, ("K", "new")), ls[2], "", ls[4]];
    var n := |st0.out|;
    assert st4.out[n + 1] == EnvLine(6, ("K", "new")) && st4.out[n + 4] == ls[4];
    assert Before(st4.out, EnvLine(6, ("K", "new")), ls[4]) by { OrderHolds(st4.out, n + 1, n + 4); }
    FinishKeepsOrder(c, st4, EnvLine(6, ("K", "new")), ls[4]);
    CountBoth(c, ls[0]);
  }

  /** The copy of the lines after the header, one after the other. */
  lemma FiveLines(c: Clone, st0: Copying, ls: File)
    requires |ls| == 5 && forall i :: 1 <= i < 5 ==> Renamed(c, ls[i]) == ls[i]
    ensures var st1 := CopyLine(c, st0, ls[1], ls[1]);
            var st2 := CopyLine(c, st1, ls[2], ls[2]);
            var st3 := CopyLine(c, st2, ls[3], ls[3]);
            CopyLines(c, st0, ls[1..]) == CopyLine(c, st3, ls[4], ls[4])
  {
    hide CopyLine, Renamed;
    var st1 := CopyLine(c, st0, ls[1], ls[1]);
    var st2 := CopyLine(c, st1, ls[2], ls[2]);
    assert ls[1..][1..] == ls[2..] && ls[2..][1..] == ls[3..] && ls[3..][1..] == ls[4..] && ls[4..][1..] == [];
    assert CopyLines(c, st0, ls[1..]) == CopyLines(c, st1, ls[2..]);
    assert CopyLines(c, st1, ls[2..]) == CopyLines(c, st2, ls[3..]);
    var st3 := CopyLine(c, st2, ls[3], ls[3]);
    assert CopyLines(c, st2, ls[3..]) == CopyLines(c, st3, ls[4..]);
    assert CopyLines(c, st3, ls[4..]) == CopyLines(c, CopyLine(c, st3, ls[4], ls[4]), []);
  }

  lemma CountStep(c: Clone, l: string, rest: File, inEnv: bool, k: string)
    requires Renamed(c, l) == l
    ensures EnvCount(c, [l] + rest) == One(HasKey(l, ENVIRONMENT)) + EnvCount(c, rest)
    ensures InheritedCount(c, [l] + rest, inEnv, k) ==
            One(Inherited(c, l, l, inEnv, k)) + InheritedCount(c, rest, InEnvAfter(c, l, l, inEnv), k)
  {
    hide Renamed, HasKey, Inherited, InEnvAfter;
    assert ([l] + rest)[1..] == rest;
  }

  /** An ordinary line of the source, for the counts. */
  lemma OrdinaryCounts(c: Clone, l: string, key: string)
    requires KeyOf(l) == key && FreeKey(key) && c.enterprise && c.src != "" && c.src[0] !in l && key != "id"
    ensures !HasKey(l, ENVIRONMENT)
    ensures forall inEnv :: InEnvAfter(c, l, l, inEnv) == (inEnv && Indent(l) > 4)
    ensures forall inEnv, k :: Inherited(c, l, l, inEnv, k) == (key == k && !(inEnv && Indent(l) > 4))
  {
    hide KeyOf, HasKey, KeyRule, IsEnterprise;
    RuleKeys(c, l, l, key);
  }

  lemma SpecialCounts(c: Clone, k: string)
    requires FreeKey(k) && c.enterprise
    ensures var l := "    environment:";
            && HasKey(l, ENVIRONMENT)
            && (forall inEnv :: InEnvAfter(c, l, l, inEnv) && !Inherited(c, l, l, inEnv, k))
    ensures !HasKey("", ENVIRONMENT)
    ensures forall inEnv :: !InEnvAfter(c, "", "", inEnv) && !Inherited(c, "", "", inEnv, k)
  {
    hide KeyOf, KeyRule, IsEnterprise, HasKey, Reserved;
    SectionLine();
    SectionKeys();
    EnvironmentIsReserved(k);
    RulesDiffer(c, "    environment:", "    environment:");
    BlankHasNoKey(c, k);
  }

  lemma BlankHasNoKey(c: Clone, k: string)
    requires k != ""
    ensures KeyOf("") != k && KeyRule(c, "", "").None? && !HasKey("", ENVIRONMENT)
  {
  }

  lemma CountBoth(c: Clone, h: string)
    requires GoodNames(c) && Short(c) != "K" && Short(c) != "environment" && c.enterprise
    requires c.env == [("K", "new")] && c.src != "" && c.src[0] == 'p'
    ensures CountKey(NewBlock(c, [h, "    environment:", "      A: 1", "", "      K: 1"]), "K") == 2
    ensures CountKey(NewBlock(c, [h, "    environment:", "      A: 1", "      K: 1"]), "K") == 1
  {
    hide KeyOf, CountKey, GoodNames, Renamed, InheritedCount, EnvCount, Reserved, HasKey, IsName, NewBlock,
      Inherited, InEnvAfter, KeyRule, Short, Indent;
    var e, a, k := "    environment:", "      A: 1", "      K: 1";
    OneLetterKeys();
    assert GoodEnv(c, "K") by { assert c.env[0].0 == "K"; }
    LinesStay(c);
    OrdinaryCounts(c, a, "A");
    OrdinaryCounts(c, k, "K");
    SpecialCounts(c, "K");
    assert "A"[0] != "K"[0];
    CountStep(c, k, [], false, "K");
    CountStep(c, "", [k], true, "K");
    CountStep(c, a, ["", k], true, "K");
    CountStep(c, e, [a, "", k], false, "K");
    CountStep(c, k, [], true, "K");
    CountStep(c, a, [k], true, "K");
    CountStep(c, e, [a, k], false, "K");
    assert [k] + [] == [k] && [""] + [k] == ["", k] && [a] + ["", k] == [a, "", k] && [e] + [a, "", k] == [e, a, "", k];
    assert [a] + [k] == [a, k] && [e] + [a, k] == [e, a, k];
    assert [h, e, a, "", k][1..] == [e, a, "", k] && [h, e, a, k][1..] == [e, a, k];
    NoLines(c, "K");
    InjectedOnce(c, [h, e, a, "", k], "K");
    InjectedOnce(c, [h, e, a, k], "K");
  }

  lemma NoLines(c: Clone, k: string)
    ensures EnvCount(c, []) == 0 && forall inEnv :: InheritedCount(c, [], inEnv, k) == 0
  {
  }

  /** Renaming leaves the lines of the example as they are. */
  lemma LinesStay(c: Clone)
    requires c.src != "" && c.src[0] == 'p'
    ensures Renamed(c, "    environment:") == "    environment:" && Renamed(c, "") == ""
    ensures Renamed(c, "      A: 1") == "      A: 1" && Renamed(c, "      K: 1") == "      K: 1"
  {
    hide KeyOf, HasKey, Replace;
    OneLetterKeys();
    SectionKeys();
    assert ID == "id" + ":";
    KeyExcludes("    environment:", "environment", "id");
    KeyExcludes("      A: 1", "A", "id");
    KeyExcludes("      K: 1", "K", "id");
    ReplaceNone("    environment:", c.src, c.dst);
    ReplaceNone("      A: 1", c.src, c.dst);
    ReplaceNone("      K: 1", c.src, c.dst);
    ReplaceNone("", c.src, c.dst);
    BlankHasNoId();
  }

  lemma BlankHasNoId()
    ensures !HasKey("", ID)
  {
  }

  lemma OrderHolds(b: File, i: nat, j: nat)
    requires i < j < |b|
    ensures Before(b, b[i], b[j])
  {
  }

  lemma OneLetterKeys()
    ensures KeyOf("      A: 1") == "A" && KeyOf("      K: 1") == "K" && FreeKey("A") && FreeKey("K")
    ensures Indent("      A: 1") == Indent("      K: 1") == 6
  {
    hide IsSpace, KeyOf;
    assert !IsSpace('A') && !IsSpace('K') by { Capitals(); }
    DeepKey("A", " 1");
    DeepKey("K", " 1");
    assert "      A: 1" == "      " + "A" + ":" + " 1" && "      K: 1" == "      " + "K" + ":" + " 1";
    SpacesAreSpace();
    assert forall i :: 0 <= i < 6 ==> Spaces(6)[i] == ' ';
    TrimStartIs("      A: 1", 6);
    TrimStartIs("      K: 1", 6);
  }

  lemma Capitals()
    ensures !IsSpace('A') && !IsSpace('K') && IsSpace(' ')
  {
  }

  lemma BlankCounts(k: string)
    ensures IsName(k) ==> CountKey([""], k) == 0
  {
    CountOne("", k);
  }
}
