/**
 Which lines a cloned block has: those of the source that no rule concerns, in order, with the name
 replaced; a line for every resource that was asked for; and the injected variables.
 */
module ComposeLines {
  import opened Wrappers
  import opened Text
  import opened Compose
  import opened ComposeEdits
  import opened ComposePatch
  import opened ComposeClone
  import opened ComposeNames
  import opened ComposeRoundTrip
  import opened ComposeEnv
  import opened ComposeValues
  import opened ComposeContent
  import R = Renaming

  // ---------------------------------------------------------------------------------------
  // Lines in order
  // ---------------------------------------------------------------------------------------

  /** The lines a stand in b, in order, perhaps with others in between. */
  ghost predicate Within(a: File, b: File)
    decreases |b|
  {
    a == [] || (b != [] && ((a[0] == b[0] && Within(a[1..], b[1..])) || Within(a, b[1..])))
  }

  lemma {:induction false} WithinMore(a: File, b: File, x: File)
    requires Within(a, b)
    ensures Within(a, b + x)
    decreases |b|
  {
    if a != [] {
      assert (b + x)[1..] == b[1..] + x;
      if a[0] == b[0] && Within(a[1..], b[1..]) {
        WithinMore(a[1..], b[1..], x);
      } else {
        WithinMore(a, b[1..], x);
      }
    }
  }

  lemma {:induction false} WithinBoth(a: File, b: File, c: File, d: File)
    requires Within(a, b) && Within(c, d)
    ensures Within(a + c, b + d)
    decreases |b|
  {
    if a == [] {
      assert a + c == c;
      WithinBehind(c, b, d);
    } else {
      assert (b + d)[1..] == b[1..] + d && (b + d)[0] == b[0];
      if a[0] == b[0] && Within(a[1..], b[1..]) {
        WithinBoth(a[1..], b[1..], c, d);
        assert (a + c)[1..] == a[1..] + c && (a + c)[0] == a[0];
      } else {
        WithinBoth(a, b[1..], c, d);
      }
    }
  }

  lemma {:induction false} WithinBehind(c: File, b: File, d: File)
    requires Within(c, d)
    ensures Within(c, b + d)
    decreases |b|
  {
    if b == [] {
      assert b + d == d;
    } else {
      assert (b + d)[1..] == b[1..] + d;
      WithinBehind(c, b[1..], d);
    }
  }

  lemma {:induction false} WithinSelf(a: File)
    ensures Within(a, a)
    decreases |a|
  {
    if a != [] {
      WithinSelf(a[1..]);
    }
  }

  /** What stands in b can be cut where b is. */
  lemma {:induction false} WithinCut(a: File, b: File, i: nat) returns (k: nat)
    requires i <= |b| && Within(a, b)
    ensures k <= |a| && Within(a[..k], b[..i]) && Within(a[k..], b[i..])
    decreases i
  {
    if i == 0 || a == [] {
      k := 0;
      assert a[0..] == a && b[0..] == b;
      if i > 0 {
        assert b == b[..i] + b[i..];
      }
    } else if a[0] == b[0] && Within(a[1..], b[1..]) {
      var m := WithinCut(a[1..], b[1..], i - 1);
      k := m + 1;
      assert a[..k][1..] == a[1..][..m] && b[..i][1..] == b[1..][..i - 1] && a[k..] == a[1..][m..]
        && b[i..] == b[1..][i - 1..];
    } else {
      k := WithinCut(a, b[1..], i - 1);
      assert b[..i][1..] == b[1..][..i - 1] && b[i..] == b[1..][i - 1..];
    }
  }

  lemma WithinInserted(a: File, b: File, i: nat, l: string)
    requires i <= |b| && Within(a, b)
    ensures Within(a, InsertAt(b, i, l))
  {
    hide Within;
    var k := WithinCut(a, b, i);
    WithinMore(a[..k], b[..i], [l]);
    WithinBoth(a[..k], b[..i] + [l], a[k..], b[i..]);
    assert a == a[..k] + a[k..];
  }

  lemma WithinHead(a: File, b: File, l: string)
    requires Within(a, b)
    ensures Within(a, InsertHead(b, l))
  {
    hide Within, InsertAt;
    WithinInserted(a, b, if |b| < 2 then |b| else 2, l);
  }

  lemma WithinIdle(a: File, c: Clone, b: File)
    requires Within(a, b)
    ensures Within(a, AddIdle(c, b))
  {
    hide Within, NewLine, InsertAt, Or;
    if c.idle.Some? {
      var at := if |b| < 2 then |b| else 2;
      var l := NewLine(IDLE, c.idle.value);
      WithinInserted(a, b, at, l);
      InsertedLength(b, at, l);
      if c.decay.Some? {
        WithinInserted(a, InsertAt(b, at, l), at + 1, NewLine(DECAY, c.decay.value));
      }
    }
  }

  lemma WithinShare(a: File, b: File, l: string)
    requires Within(a, b)
    ensures Within(a, AddShare(b, l))
  {
    hide Within, SharesAt, InsertAt;
    var i := SharesAt(b, 0);
    if i < |b| {
      WithinInserted(a, b, i + 1, l);
    } else {
      WithinMore(a, b, ["    shares:"]);
      WithinMore(a, b + ["    shares:"], [l]);
    }
  }

  /** What is added in the end leaves the lines in order. */
  lemma WithinFinish(a: File, c: Clone, st: Copying)
    requires Within(a, st.out)
    ensures Within(a, Finish(c, st))
  {
    hide Within, InsertHead, NewLine, AddIdle, EnvLines, AddShare, HasSystemouts, ShareLine, Or;
    var b1 := AddWarmup(c, st.seen, st.out);
    WithinHead(a, st.out, "    skip_warmup: true");
    if c.want.ram.Some? { WithinHead(a, b1, NewLine(RAM, c.want.ram.value)); }
    var b2 := AddRam(c, st.seen, b1);
    if c.want.chrs.Some? { WithinHead(a, b2, NewLine(CHRS, c.want.chrs.value)); }
    var b3 := AddChrs(c, st.seen, b2);
    WithinHead(a, b3, NewLine(BALLOON, Or(c.want.balloon, 128)));
    var b4 := AddBalloon(c, st.seen, b3);
    WithinIdle(a, c, b4);
    var b5 := AddIdle(c, b4);
    WithinMore(a, b5, ["    environment:"]);
    WithinMore(a, b5 + ["    environment:"], EnvLines(6, c.env));
    var b6 := AddEnv(c, st.seen, b5);
    if st.share.Some? { WithinShare(a, b6, st.share.value); }
    WithinShare(a, AddLegacy(st.share, b6), ShareLine(c));
  }

  // ---------------------------------------------------------------------------------------
  // The lines no rule concerns
  // ---------------------------------------------------------------------------------------

  /** A list item for the addons of an instance in the old format, without a mode. */
  predicate OldShare(s: string) {
    var t := TrimStart(s);
    StartsWith(t, "- ") && Contains(t, ":/mnt/extra-addons") && !Contains(t, ":ro") && !Contains(t, ":rw")
  }

  /** A line that is copied as it stands under its new name: it sets none of the resources asked for,
      neither flag, no injected variable and no waiting time, and is no share that is moved or dropped. */
  ghost predicate Ordinary(c: Clone, s: string) {
    && (c.want.ram.Some? ==> Field(s, "ram").None?)
    && (c.want.chrs.Some? ==> Field(s, "chrs").None?)
    && (c.want.balloon.Some? ==> Field(s, "balloon_mb").None?)
    && Field(s, "skip_warmup").None? && Field(s, "disabled").None?
    && Field(s, "initial_delay").None? && Field(s, "interval").None? && Field(s, "retries").None?
    && (forall i :: 0 <= i < |c.env| ==> Field(s, c.env[i].0).None? && KeyOf(s) != c.env[i].0)
    && !OldShare(s) && (c.enterprise || !Contains(s, ":/mnt/extra-enterprise"))
  }

  /** The renamed lines that are copied, in order. */
  ghost function Ordinaries(c: Clone, ls: File): File {
    if ls == [] then []
    else (if Ordinary(c, Renamed(c, ls[0])) then [Renamed(c, ls[0])] else []) + Ordinaries(c, ls[1..])
  }

  lemma ContainsTrimmed(s: string, p: string)
    requires Contains(TrimStart(s), p)
    ensures Contains(s, p)
  {
    hide TrimStart, StartsWith;
    TrimStartFacts(s);
    var t := TrimStart(s);
    var n := |s| - |t|;
    var i :| 0 <= i <= |t| && StartsWith(t[i..], p);
    assert s[n + i..] == t[i..];
  }

  lemma OrdinaryRules(c: Clone, l: string, s: string)
    requires Ordinary(c, s)
    ensures KeyRule(c, l, s).None? && HealthRule(s).None? && !IsEnvKey(c.env, KeyOf(s))
    ensures !IsLegacyShare(s) && (c.enterprise || !IsEnterprise(s))
  {
    hide Field, HasKey, KeyOf, Contains, Override, WarmupLine, DisabledLine, TrimStart;
    KeyNames();
    assert "initial_delay:" == "initial_delay" + ":" && "interval:" == "interval" + ":"
      && "retries:" == "retries" + ":";
    FieldIsKey(s, "ram");
    FieldIsKey(s, "chrs");
    FieldIsKey(s, "balloon_mb");
    FieldIsKey(s, "skip_warmup");
    FieldIsKey(s, "disabled");
    FieldIsKey(s, "initial_delay");
    FieldIsKey(s, "interval");
    FieldIsKey(s, "retries");
    if Contains(TrimStart(s), ":/mnt/extra-enterprise") { ContainsTrimmed(s, ":/mnt/extra-enterprise"); }
  }

  lemma OrdinaryIsCopied(c: Clone, st: Copying, l: string, s: string)
    requires Ordinary(c, s)
    ensures CopyLine(c, st, l, s).out == st.out + [s] + if HasKey(s, ENVIRONMENT) then EnvLines(Indent(l) + 2, c.env)
            else []
  {
    hide HasKey, KeyRule, HealthRule, IsEnvKey, KeyOf, IsLegacyShare, IsEnterprise, SeeKeys, EnvLines, Ordinary;
    OrdinaryRules(c, l, s);
  }

  lemma OutGrows(c: Clone, st: Copying, l: string, s: string)
    ensures st.out <= CopyLine(c, st, l, s).out
  {
    hide HasKey, KeyRule, HealthRule, IsEnvKey, KeyOf, IsLegacyShare, IsEnterprise, SeeKeys, EnvLines;
  }

  lemma {:induction false} OrdinariesCopied(c: Clone, st: Copying, ls: File, a: File)
    requires Within(a, st.out)
    ensures Within(a + Ordinaries(c, ls), CopyLines(c, st, ls).out)
    decreases |ls|
  {
    hide Within, Ordinary, Renamed, CopyLine, EnvLines;
    if ls == [] {
      assert a + [] == a;
    } else {
      var s := Renamed(c, ls[0]);
      var t := CopyLine(c, st, ls[0], s);
      OutGrows(c, st, ls[0], s);
      assert t.out == st.out + t.out[|st.out|..];
      if Ordinary(c, s) {
        OrdinaryIsCopied(c, st, ls[0], s);
        WithinSelf([s]);
        WithinBoth(a, st.out, [s], [s]);
        WithinMore(a + [s], st.out + [s], if HasKey(s, ENVIRONMENT) then EnvLines(Indent(ls[0]) + 2, c.env) else []);
        OrdinariesCopied(c, t, ls[1..], a + [s]);
        assert a + Ordinaries(c, ls) == a + [s] + Ordinaries(c, ls[1..]);
      } else {
        WithinMore(a, st.out, t.out[|st.out|..]);
        OrdinariesCopied(c, t, ls[1..], a);
        assert a + Ordinaries(c, ls) == a + Ordinaries(c, ls[1..]);
      }
    }
  }

  /** All lines of the source after its header that no rule concerns stand in the new block, in order and
      under the new name, behind the new header if that is such a line. */
  lemma LinesAreKept(c: Clone, ls: File)
    requires ls != []
    ensures Within((if Ordinary(c, Header(c)) then [Header(c)] else []) + Ordinaries(c, ls[1..]), NewBlock(c, ls))
  {
    hide Within, Ordinary, Renamed, CopyLine, EnvLines, Header, Finish, CopyLines;
    var h := if Ordinary(c, Header(c)) then [Header(c)] else [];
    var st := CopyLine(c, START, ls[0], Header(c));
    OutGrows(c, START, ls[0], Header(c));
    if Ordinary(c, Header(c)) {
      OrdinaryIsCopied(c, START, ls[0], Header(c));
      var more := if HasKey(Header(c), ENVIRONMENT) then EnvLines(Indent(ls[0]) + 2, c.env) else [];
      assert st.out == [""] + [Header(c)] + more;
      WithinSelf(h);
      WithinBehind(h, [""], h);
      WithinMore(h, [""] + h, more);
    } else {
      assert Within(h, st.out) by { NothingWithin(st.out); }
    }
    OrdinariesCopied(c, st, ls[1..], h);
    WithinFinish(h + Ordinaries(c, ls[1..]), c, CopyBlock(c, ls));
  }

  lemma NothingWithin(b: File)
    ensures Within([], b)
  {
  }

  /** A line under its new name: an id line has the new id and its comment; in any other the name is
      replaced wherever it stands. */
  lemma RenamedMeans(c: Clone, l: string)
    requires IsName(c.src)
    ensures Field(l, "id").Some? ==>
              Reads(Renamed(c, l), "id", c.vmId) && Remark(Renamed(c, l)) == Remark(l)
              && Indent(Renamed(c, l)) == Indent(l)
    ensures Field(l, "id").None? ==>
              exists ps: seq<string> ::
                && ps != [] && l == R.Glued(ps, c.src) && Renamed(c, l) == R.Glued(ps, c.dst)
                && forall i :: 0 <= i < |ps| ==> !Contains(ps[i], c.src)
  {
    hide Field, HasKey, WithValue, Replace, Contains, Remark, R.Glued, Decimal, Number, AllDigits;
    KeyNames();
    DecidedFacts("id");
    FieldIsKey(l, "id");
    if HasKey(l, ID) {
      WithValueField(l, "id", c.vmId);
      WithValueKeeps(l, "id", c.vmId);
    } else {
      var ps := R.RenamedPieces(l, c.src, c.dst);
    }
  }

  // ---------------------------------------------------------------------------------------
  // Lines that must be there
  // ---------------------------------------------------------------------------------------

  lemma {:induction false} WithinOne(l: string, b: File)
    ensures Within([l], b) <==> l in b
    decreases |b|
  {
    if b != [] {
      WithinOne(l, b[1..]);
      assert [l][1..] == [];
      assert b == [b[0]] + b[1..];
    }
  }

  /** A line that is there stays there. */
  lemma StaysIn(l: string, c: Clone, st: Copying)
    requires l in st.out
    ensures l in Finish(c, st)
  {
    WithinOne(l, st.out);
    WithinFinish([l], c, st);
    WithinOne(l, Finish(c, st));
  }

  /** For each key that was seen and is decided by the clone there is a line. */
  ghost predicate SeenOk(c: Clone, st: Copying) {
    && (st.seen.ram && c.want.ram.Some? ==> Has(st.out, "ram"))
    && (st.seen.chrs && c.want.chrs.Some? ==> Has(st.out, "chrs"))
    && (st.seen.balloon && c.want.balloon.Some? ==> Has(st.out, "balloon_mb"))
    && (st.seen.warmup ==> Has(st.out, "skip_warmup"))
  }

  lemma HasMore(b: File, d: File, key: string)
    requires b <= d && Has(b, key)
    ensures Has(d, key)
  {
    hide Field;
    var i :| 0 <= i < |b| && Field(b[i], key).Some?;
    assert d[i] == b[i];
  }

  lemma HasLast(b: File, l: string, key: string)
    requires Field(l, key).Some?
    ensures Has(b + [l], key)
  {
    hide Field;
    assert (b + [l])[|b|] == l;
  }

  /** Where a line falls under the rule of its key, the new line has the key. */
  lemma RuleHas(c: Clone, l: string, s: string)
    ensures HasKey(s, RAM) && c.want.ram.Some? ==> KeyRule(c, l, s).Some? && Field(KeyRule(c, l, s).value, "ram").Some?
    ensures HasKey(s, CHRS) && c.want.chrs.Some? ==> KeyRule(c, l, s).Some? && Field(KeyRule(c, l, s).value, "chrs").Some?
    ensures HasKey(s, BALLOON) && c.want.balloon.Some? ==> KeyRule(c, l, s).Some? && Field(KeyRule(c, l, s).value, "balloon_mb").Some?
    ensures HasKey(s, WARMUP) ==> KeyRule(c, l, s).Some? && Field(KeyRule(c, l, s).value, "skip_warmup").Some?
  {
    hide Field, HasKey, Override, WarmupLine, DisabledLine, Decimal;
    KeysDiffer(s);
    WarmupDiffers(s);
    KeyNames();
    ResourceKeys();
    WarmupReads(l);
    if c.want.ram.Some? { OverrideReads(l, "ram", c.want.ram.value); }
    if c.want.chrs.Some? { OverrideReads(l, "chrs", c.want.chrs.value); }
    if c.want.balloon.Some? { OverrideReads(l, "balloon_mb", c.want.balloon.value); }
  }

  lemma WarmupDiffers(s: string)
    ensures HasKey(s, WARMUP) ==> !HasKey(s, RAM) && !HasKey(s, CHRS) && !HasKey(s, BALLOON)
  {
    hide TrimStart;
    var t := TrimStart(s);
    assert WARMUP[0] == 's' && RAM[0] == 'r' && CHRS[0] == 'c' && BALLOON[0] == 'b';
    assert HasKey(s, WARMUP) ==> t[0] == 's';
    assert HasKey(s, RAM) ==> t[0] == 'r';
    assert HasKey(s, CHRS) ==> t[0] == 'c';
    assert HasKey(s, BALLOON) ==> t[0] == 'b';
  }

  lemma CopySees(c: Clone, st: Copying, l: string, s: string)
    ensures var r := CopyLine(c, st, l, s); r.seen.(env := st.seen.env) == SeeKeys(st.seen, s)
    ensures KeyRule(c, l, s).Some? ==> CopyLine(c, st, l, s).out == st.out + [KeyRule(c, l, s).value]
  {
    hide HasKey, KeyRule, HealthRule, IsEnvKey, KeyOf, IsLegacyShare, IsEnterprise, EnvLines;
  }

  lemma CopyLineSees(c: Clone, st: Copying, l: string, s: string)
    requires SeenOk(c, st)
    ensures SeenOk(c, CopyLine(c, st, l, s))
  {
    hide HasKey, KeyRule, CopyLine, Has, Field;
    var r := CopyLine(c, st, l, s);
    OutGrows(c, st, l, s);
    CopySees(c, st, l, s);
    RuleHas(c, l, s);
    forall key | Has(st.out, key)
      ensures Has(r.out, key)
    {
      HasMore(st.out, r.out, key);
    }
    if KeyRule(c, l, s).Some? {
      var x := KeyRule(c, l, s).value;
      forall key | Field(x, key).Some?
        ensures Has(r.out, key)
      {
        HasLast(st.out, x, key);
      }
    }
  }

  lemma {:induction false} CopyLinesSee(c: Clone, st: Copying, ls: File)
    requires SeenOk(c, st)
    ensures SeenOk(c, CopyLines(c, st, ls))
    decreases |ls|
  {
    hide SeenOk, CopyLine, Renamed;
    if ls != [] {
      CopyLineSees(c, st, ls[0], Renamed(c, ls[0]));
      CopyLinesSee(c, CopyLine(c, st, ls[0], Renamed(c, ls[0])), ls[1..]);
    }
  }

  lemma HasStays(c: Clone, st: Copying, key: string)
    requires Has(st.out, key)
    ensures Has(Finish(c, st), key)
  {
    hide Field, Finish;
    var i :| 0 <= i < |st.out| && Field(st.out[i], key).Some?;
    StaysIn(st.out[i], c, st);
    var b := Finish(c, st);
    var j :| 0 <= j < |b| && b[j] == st.out[i];
  }

  lemma HasIn(l: string, b: File, key: string)
    requires l in b && Field(l, key).Some?
    ensures Has(b, key)
  {
    hide Field;
    var i :| 0 <= i < |b| && b[i] == l;
  }

  /** What an insertion puts in survives the rest. */
  lemma AddedLinesStay(c: Clone, st: Copying)
    ensures var b := Finish(c, st);
            && (!st.seen.warmup ==> "    skip_warmup: true" in b)
            && (!st.seen.ram && c.want.ram.Some? ==> NewLine(RAM, c.want.ram.value) in b)
            && (!st.seen.chrs && c.want.chrs.Some? ==> NewLine(CHRS, c.want.chrs.value) in b)
            && (!st.seen.balloon ==> NewLine(BALLOON, Or(c.want.balloon, 128)) in b)
            && (c.idle.Some? && c.idle.value != Or(c.want.balloon, 0) ==>
                  NewLine(IDLE, c.idle.value) in b && (c.decay.Some? ==> NewLine(DECAY, c.decay.value) in b))
            && (!st.seen.env && c.env != [] ==> forall i :: 0 <= i < |c.env| ==> EnvLine(6, c.env[i]) in b)
            && (st.share.Some? ==> st.share.value in b)
  {
    hide InsertHead, NewLine, AddIdle, AddShare, HasSystemouts, ShareLine, Or, EnvLine;
    var b1 := AddWarmup(c, st.seen, st.out);
    var b2 := AddRam(c, st.seen, b1);
    var b3 := AddChrs(c, st.seen, b2);
    var b4 := AddBalloon(c, st.seen, b3);
    var b5 := AddIdle(c, b4);
    var b6 := AddEnv(c, st.seen, b5);
    var b7 := AddLegacy(st.share, b6);
    var b8 := AddSystemouts(c, b7);
    HeadPuts(st.out, "    skip_warmup: true");
    if c.want.ram.Some? { HeadPuts(b1, NewLine(RAM, c.want.ram.value)); }
    if c.want.chrs.Some? { HeadPuts(b2, NewLine(CHRS, c.want.chrs.value)); }
    HeadPuts(b3, NewLine(BALLOON, Or(c.want.balloon, 128)));
    IdlePuts(c, b4);
    if st.share.Some? { SharePuts(b6, st.share.value); }
    SharePuts(b7, ShareLine(c));
    assert forall l :: l in b5 ==> l in b6;
    assert !st.seen.env && c.env != [] ==> forall i :: 0 <= i < |c.env| ==> EnvLine(6, c.env[i]) in b6 by {
      EnvPuts(b5 + ["    environment:"], c.env);
    }
  }

  lemma HeadPuts(b: File, l: string)
    ensures l in InsertHead(b, l) && forall x :: x in b ==> x in InsertHead(b, l)
  {
    InsertPuts(b, if |b| < 2 then |b| else 2, l);
  }

  lemma InsertPuts(b: File, i: nat, l: string)
    requires i <= |b|
    ensures l in InsertAt(b, i, l) && forall x :: x in b ==> x in InsertAt(b, i, l)
  {
    var d := InsertAt(b, i, l);
    assert d[i] == l && b == b[..i] + b[i..];
  }

  lemma IdlePuts(c: Clone, b: File)
    ensures forall x :: x in b ==> x in AddIdle(c, b)
    ensures c.idle.Some? && c.idle.value != Or(c.want.balloon, 0) ==>
              NewLine(IDLE, c.idle.value) in AddIdle(c, b)
                && (c.decay.Some? ==> NewLine(DECAY, c.decay.value) in AddIdle(c, b))
  {
    hide InsertAt, NewLine, Or;
    if c.idle.Some? {
      var at := if |b| < 2 then |b| else 2;
      var l := NewLine(IDLE, c.idle.value);
      InsertPuts(b, at, l);
      InsertedLength(b, at, l);
      if c.decay.Some? {
        InsertPuts(InsertAt(b, at, l), at + 1, NewLine(DECAY, c.decay.value));
      }
    }
  }

  lemma SharePuts(b: File, l: string)
    ensures l in AddShare(b, l) && forall x :: x in b ==> x in AddShare(b, l)
  {
    hide SharesAt, InsertAt;
    var i := SharesAt(b, 0);
    if i < |b| {
      InsertPuts(b, i + 1, l);
    }
  }

  lemma EnvPuts(b: File, env: seq<(string, string)>)
    ensures forall i :: 0 <= i < |env| ==> EnvLine(6, env[i]) in b + EnvLines(6, env)
  {
    hide EnvLine;
    forall i | 0 <= i < |env|
      ensures EnvLine(6, env[i]) in b + EnvLines(6, env)
    {
      assert EnvLines(6, env)[i] == EnvLine(6, env[i]);
    }
  }

  /** There is a line for every resource that was asked for and for the warm-up flag; without a balloon
      line in the source and without a wish there is one of 128; and an idle target that differs from
      the active one stands in the block with its decay. */
  lemma BlockHas(c: Clone, ls: File)
    requires ls != []
    ensures var b := NewBlock(c, ls);
            && Has(b, "skip_warmup")
            && (c.want.ram.Some? ==> Has(b, "ram"))
            && (c.want.chrs.Some? ==> Has(b, "chrs"))
            && (c.want.balloon.Some? ==> Has(b, "balloon_mb"))
            && (c.want.balloon.None? && !CopyBlock(c, ls).seen.balloon ==> exists l :: l in b && Reads(l, "balloon_mb", 128))
            && (c.idle.Some? && c.idle.value != Or(c.want.balloon, 0) ==>
                  && (exists l :: l in b && Reads(l, "balloon_idle_mb", c.idle.value))
                  && (c.decay.Some? ==> exists l :: l in b && Reads(l, "balloon_decay_secs", c.decay.value)))
  {
    hide Field, Finish, SeenOk, CopyLine, CopyLines, Header, NewLine, Number, AllDigits, Has, Reads, Decimal;
    var st := CopyBlock(c, ls);
    assert SeenOk(c, START) by { StartSees(c); }
    CopyLineSees(c, START, ls[0], Header(c));
    CopyLinesSee(c, CopyLine(c, START, ls[0], Header(c)), ls[1..]);
    AddedLinesStay(c, st);
    SeenStays(c, st);
    var b := Finish(c, st);
    KeyNames();
    ResourceKeys();
    IdleKeys();
    WarmupReads("");
    if !st.seen.warmup { HasIn("    skip_warmup: true", b, "skip_warmup"); }
    if c.want.ram.Some? && !st.seen.ram {
      NewLineReads("ram", c.want.ram.value);
      HasIn(NewLine(RAM, c.want.ram.value), b, "ram");
    }
    if c.want.chrs.Some? && !st.seen.chrs {
      NewLineReads("chrs", c.want.chrs.value);
      HasIn(NewLine(CHRS, c.want.chrs.value), b, "chrs");
    }
    if !st.seen.balloon {
      NewLineReads("balloon_mb", Or(c.want.balloon, 128));
      HasIn(NewLine(BALLOON, Or(c.want.balloon, 128)), b, "balloon_mb");
    }
    IdleAreKeys();
    if c.idle.Some? { NewLineReads("balloon_idle_mb", c.idle.value); }
    if c.decay.Some? { NewLineReads("balloon_decay_secs", c.decay.value); }
  }

  lemma IdleAreKeys()
    ensures IsKey("balloon_idle_mb") && IsKey("balloon_decay_secs")
  {
  }

  lemma StartSees(c: Clone)
    ensures SeenOk(c, START)
  {
  }

  lemma SeenStays(c: Clone, st: Copying)
    requires SeenOk(c, st)
    ensures st.seen.warmup ==> Has(Finish(c, st), "skip_warmup")
    ensures st.seen.ram && c.want.ram.Some? ==> Has(Finish(c, st), "ram")
    ensures st.seen.chrs && c.want.chrs.Some? ==> Has(Finish(c, st), "chrs")
    ensures st.seen.balloon && c.want.balloon.Some? ==> Has(Finish(c, st), "balloon_mb")
  {
    hide Has, Finish;
    if st.seen.warmup { HasStays(c, st, "skip_warmup"); }
    if st.seen.ram && c.want.ram.Some? { HasStays(c, st, "ram"); }
    if st.seen.chrs && c.want.chrs.Some? { HasStays(c, st, "chrs"); }
    if st.seen.balloon && c.want.balloon.Some? { HasStays(c, st, "balloon_mb"); }
  }

  // ---------------------------------------------------------------------------------------
  // Injected variables
  // ---------------------------------------------------------------------------------------

  /** A line that gives a variable its value, in quotes. */
  ghost predicate GivesValue(b: File, k: string, v: string) {
    exists n: nat :: Spaces(n) + (k + ": \"" + v + "\"") in b
  }

  ghost predicate EnvGiven(c: Clone, b: File) {
    forall i :: 0 <= i < |c.env| ==> GivesValue(b, c.env[i].0, c.env[i].1)
  }

  lemma EnvLineGives(n: nat, kv: (string, string), b: File)
    requires EnvLine(n, kv) in b
    ensures GivesValue(b, kv.0, kv.1)
  {
    assert EnvLine(n, kv) == Spaces(n) + (kv.0 + ": \"" + kv.1 + "\"");
  }

  lemma GivenMore(b: File, d: File, k: string, v: string)
    requires GivesValue(b, k, v) && forall l :: l in b ==> l in d
    ensures GivesValue(d, k, v)
  {
  }

  lemma CopyLineGives(c: Clone, st: Copying, l: string, s: string)
    requires st.seen.env ==> EnvGiven(c, st.out)
    ensures var r := CopyLine(c, st, l, s); r.seen.env ==> EnvGiven(c, r.out)
  {
    hide HasKey, KeyRule, HealthRule, IsEnvKey, KeyOf, IsLegacyShare, IsEnterprise, EnvLine, GivesValue;
    var r := CopyLine(c, st, l, s);
    OutGrows(c, st, l, s);
    SeenEnvKept(st.seen, s);
    SectionKeepsSeen(c, st.(seen := SeeKeys(st.seen, s)), l, s);
    if KeyRule(c, l, s).None? && HasKey(s, ENVIRONMENT) {
      forall i | 0 <= i < |c.env|
        ensures GivesValue(r.out, c.env[i].0, c.env[i].1)
      {
        var env := EnvLines(Indent(l) + 2, c.env);
        assert env[i] == EnvLine(Indent(l) + 2, c.env[i]) && env[i] in env;
        assert r.out == st.out + ([s] + env);
        EnvLineGives(Indent(l) + 2, c.env[i], r.out);
      }
    } else if st.seen.env {
      forall i | 0 <= i < |c.env|
        ensures GivesValue(r.out, c.env[i].0, c.env[i].1)
      {
        GivenMore(st.out, r.out, c.env[i].0, c.env[i].1);
      }
    }
  }

  lemma {:induction false} CopyLinesGive(c: Clone, st: Copying, ls: File)
    requires st.seen.env ==> EnvGiven(c, st.out)
    ensures var r := CopyLines(c, st, ls); r.seen.env ==> EnvGiven(c, r.out)
    decreases |ls|
  {
    hide EnvGiven, CopyLine, Renamed;
    if ls != [] {
      CopyLineGives(c, st, ls[0], Renamed(c, ls[0]));
      CopyLinesGive(c, CopyLine(c, st, ls[0], Renamed(c, ls[0])), ls[1..]);
    }
  }

  /** Every injected variable is given its value in the new block. */
  lemma VariablesAreGiven(c: Clone, ls: File)
    requires ls != []
    ensures forall i :: 0 <= i < |c.env| ==> GivesValue(NewBlock(c, ls), c.env[i].0, c.env[i].1)
  {
    hide CopyLine, CopyLines, Header, Finish, GivesValue, EnvLine;
    var st := CopyBlock(c, ls);
    CopyLineGives(c, START, ls[0], Header(c));
    CopyLinesGive(c, CopyLine(c, START, ls[0], Header(c)), ls[1..]);
    AddedLinesStay(c, st);
    var b := Finish(c, st);
    forall i | 0 <= i < |c.env|
      ensures GivesValue(b, c.env[i].0, c.env[i].1)
    {
      if st.seen.env {
        forall l | l in st.out
          ensures l in b
        {
          StaysIn(l, c, st);
        }
        GivenMore(st.out, b, c.env[i].0, c.env[i].1);
      } else {
        EnvLineGives(6, c.env[i], b);
      }
    }
  }

  // ---------------------------------------------------------------------------------------
  // Shares
  // ---------------------------------------------------------------------------------------

  /** The share of the cell's own addons is in the block: a line of the source, or one for the directory of
      the cell, read-only, under the first `shares:` line. */
  lemma SystemoutsShared(c: Clone, ls: File)
    requires ls != []
    ensures var b := NewBlock(c, ls); var line := "      - \"" + c.shareDir + ":/mnt/systemouts-addons:ro\"";
            || (exists i :: 0 < i < |b| && Trim(b[i - 1]) == "shares:" && b[i] == line)
            || (exists i :: 0 <= i < |b| && Contains(b[i], ":/mnt/systemouts-addons:"))
    ensures exists i :: 0 <= i < |NewBlock(c, ls)| && Contains(NewBlock(c, ls)[i], ":/mnt/systemouts-addons:")
  {
    hide CopyBlock, AddLegacy, AddEnv, AddIdle, AddBalloon, AddChrs, AddRam, AddWarmup, Contains, Trim, AddShare;
    var st := CopyBlock(c, ls);
    var b7 := AddLegacy(st.share,
      AddEnv(c, st.seen, AddIdle(c, AddBalloon(c, st.seen, AddChrs(c, st.seen, AddRam(c, st.seen,
      AddWarmup(c, st.seen, st.out)))))));
    var line := ShareLine(c);
    assert line == "      - \"" + c.shareDir + ":/mnt/systemouts-addons:ro\"";
    SharePuts(b7, line);
    LineContains("      - \"" + c.shareDir, ":/mnt/systemouts-addons:", "ro\"");
    assert "      - \"" + c.shareDir + ":/mnt/systemouts-addons:" + "ro\"" == line;
    var b := NewBlock(c, ls);
    if HasSystemouts(b7) {
      assert b == b7;
    } else {
      assert b == AddShare(b7, line);
      var i :| 0 <= i < |b| && b[i] == line;
      ShareUnder(b7, line);
    }
  }

  lemma LineContains(a: string, p: string, z: string)
    ensures Contains(a + p + z, p)
  {
    var s := a + p + z;
    assert s[|a|..] == p + z;
    assert s[|a|..][..|p|] == p;
  }

  /** A share that is added stands under a `shares:` line. */
  lemma ShareUnder(b: File, l: string)
    ensures var d := AddShare(b, l); exists i :: 0 < i < |d| && Trim(d[i - 1]) == "shares:" && d[i] == l
  {
    hide Trim, InsertAt;
    var d := AddShare(b, l);
    var i := SharesAt(b, 0);
    assert SHARES == "shares:";
    if i < |b| {
      assert Trim(b[i]) == SHARES by { FirstShares(b, 0); }
      assert d == b[..i + 1] + [l] + b[i + 1..] by { InsertedHere(b, i + 1, l); }
      assert d[i] == b[i] && d[i + 1] == l;
    } else {
      assert d == b + ["    shares:"] + [l];
      SharesTrim();
      assert d[|b|] == "    shares:" && d[|b| + 1] == l;
    }
  }

  lemma InsertedHere(b: File, i: nat, l: string)
    requires i <= |b|
    ensures InsertAt(b, i, l) == b[..i] + [l] + b[i..]
  {
  }

  lemma {:induction false} FirstShares(b: File, i: nat)
    requires i <= |b|
    ensures SharesAt(b, i) < |b| ==> Trim(b[SharesAt(b, i)]) == "shares:"
    decreases |b| - i
  {
    hide Trim;
    if i < |b| {
      FirstShares(b, i + 1);
    }
  }

  lemma SharesTrim()
    ensures Trim("    shares:") == "shares:"
  {
    hide IsSpace;
    KeyLetters();
    SpacesAreSpace();
    ColonIsNoSpace();
    var s := "    shares:";
    assert s[4..] == "shares:" && s[4] == 's';
    TrimStartIs(s, 4);
    TrimEndIs("shares:", 7);
  }
}
