/**
 What a cloned block says: the id of the clone, and resources and flags as asked. A property of all lines
 of the block is reduced to one of the lines that copying makes, keeps or adds.
 */
module ComposeContent {
  import opened Wrappers
  import opened Text
  import opened Compose
  import opened ComposeEdits
  import opened ComposePatch
  import opened ComposeClone
  import opened ComposeNames
  import opened ComposeRoundTrip
  import opened ComposeEnv
  import opened ComposeValues
  import R = Renaming

  // ---------------------------------------------------------------------------------------
  // A property of all lines of the new block
  // ---------------------------------------------------------------------------------------

  ghost predicate All(b: File, ok: string -> bool) {
    forall i :: 0 <= i < |b| ==> ok(b[i])
  }

  ghost predicate StateOk(st: Copying, ok: string -> bool) {
    All(st.out, ok) && (st.share.Some? ==> ok(st.share.value))
  }

  /** What a line of the source turns into has the property. */
  ghost predicate LineOk(c: Clone, l: string, s: string, ok: string -> bool) {
    match KeyRule(c, l, s)
    case Some(x) => ok(x)
    case None =>
      && (IsLegacyShare(s) ==> ok(TrimEnd(s) + ":rw"))
      && (HasKey(s, ENVIRONMENT) || HasKey(s, HEALTHCHECK) || (!IsLegacyShare(s) && (c.enterprise || !IsEnterprise(s))) ==> ok(s))
  }

  /** The lines that copying puts in have the property. */
  ghost predicate PutInOk(c: Clone, ok: string -> bool) {
    && ok("      initial_delay: 3") && ok("      interval: 1") && ok("      retries: 30")
    && forall n: nat, i :: 0 <= i < |c.env| ==> ok(EnvLine(n, c.env[i]))
  }

  lemma AllPushed(b: File, ls: File, ok: string -> bool)
    requires All(b, ok) && All(ls, ok)
    ensures All(b + ls, ok)
  {
  }

  lemma CopyLineOk(c: Clone, st: Copying, l: string, s: string, ok: string -> bool)
    requires StateOk(st, ok) && LineOk(c, l, s, ok) && PutInOk(c, ok)
    ensures StateOk(CopyLine(c, st, l, s), ok)
  {
    hide HasKey, KeyRule, SeeKeys, IsLegacyShare, IsEnterprise, IsEnvKey, KeyOf, EnvLine, TrimEnd;
    if HasKey(s, ENVIRONMENT) && KeyRule(c, l, s).None? {
      assert All([s] + EnvLines(Indent(l) + 2, c.env), ok);
      AllPushed(st.out, [s] + EnvLines(Indent(l) + 2, c.env), ok);
    }
  }

  lemma {:induction false} CopyLinesOk(c: Clone, st: Copying, ls: File, ok: string -> bool)
    requires StateOk(st, ok) && PutInOk(c, ok) && forall i :: 0 <= i < |ls| ==> LineOk(c, ls[i], Renamed(c, ls[i]), ok)
    ensures StateOk(CopyLines(c, st, ls), ok)
    decreases |ls|
  {
    hide StateOk, CopyLine, LineOk, PutInOk, Renamed;
    if ls != [] {
      CopyLineOk(c, st, ls[0], Renamed(c, ls[0]), ok);
      assert forall i :: 0 <= i < |ls[1..]| ==> ls[1..][i] == ls[i + 1];
      CopyLinesOk(c, CopyLine(c, st, ls[0], Renamed(c, ls[0])), ls[1..], ok);
    }
  }

  lemma InsertedOk(b: File, i: nat, l: string, ok: string -> bool)
    requires i <= |b| && All(b, ok) && ok(l)
    ensures All(InsertAt(b, i, l), ok)
  {
  }

  lemma HeadOk(b: File, l: string, ok: string -> bool)
    requires All(b, ok) && ok(l)
    ensures All(InsertHead(b, l), ok)
  {
    hide All, InsertAt;
    InsertedOk(b, if |b| < 2 then |b| else 2, l, ok);
  }

  lemma ShareOkIn(b: File, l: string, ok: string -> bool)
    requires All(b, ok) && ok(l) && ok("    shares:")
    ensures All(AddShare(b, l), ok)
  {
    hide SharesAt, InsertAt;
    var i := SharesAt(b, 0);
    if i < |b| {
      InsertedOk(b, i + 1, l, ok);
    }
  }

  /** What is added in the end has the property, where the caller asks for it. */
  ghost predicate AddedOk(c: Clone, ok: string -> bool) {
    && ok("    skip_warmup: true") && ok("    environment:") && ok("    shares:")
    && (c.want.ram.Some? ==> ok(NewLine(RAM, c.want.ram.value)))
    && (c.want.chrs.Some? ==> ok(NewLine(CHRS, c.want.chrs.value)))
    && (c.idle.Some? ==> ok(NewLine(IDLE, c.idle.value)))
    && (c.decay.Some? ==> ok(NewLine(DECAY, c.decay.value)))
  }

  lemma IdleOk(c: Clone, b: File, ok: string -> bool)
    requires All(b, ok) && AddedOk(c, ok)
    ensures All(AddIdle(c, b), ok)
  {
    hide All, NewLine, InsertAt, Or, ShareLine;
    if c.idle.Some? {
      var at := if |b| < 2 then |b| else 2;
      var l := NewLine(IDLE, c.idle.value);
      InsertedOk(b, at, l, ok);
      InsertedLength(b, at, l);
      if c.decay.Some? {
        InsertedOk(InsertAt(b, at, l), at + 1, NewLine(DECAY, c.decay.value), ok);
      }
    }
  }

  /** The block before the share of the cell's own addons is added. */
  function Prepared(c: Clone, st: Copying): File {
    AddLegacy(st.share, AddEnv(c, st.seen, AddIdle(c, AddBalloon(c, st.seen,
      AddChrs(c, st.seen, AddRam(c, st.seen, AddWarmup(c, st.seen, st.out)))))))
  }

  lemma PreparedOk(c: Clone, st: Copying, ok: string -> bool)
    requires StateOk(st, ok) && PutInOk(c, ok) && AddedOk(c, ok)
    requires !st.seen.balloon ==> ok(NewLine(BALLOON, Or(c.want.balloon, 128)))
    ensures All(Prepared(c, st), ok)
  {
    hide All, InsertHead, NewLine, AddIdle, AddShare, Or, EnvLine;
    var b1 := AddWarmup(c, st.seen, st.out);
    HeadOk(st.out, "    skip_warmup: true", ok);
    if c.want.ram.Some? { HeadOk(b1, NewLine(RAM, c.want.ram.value), ok); }
    var b2 := AddRam(c, st.seen, b1);
    if c.want.chrs.Some? { HeadOk(b2, NewLine(CHRS, c.want.chrs.value), ok); }
    var b3 := AddChrs(c, st.seen, b2);
    if !st.seen.balloon { HeadOk(b3, NewLine(BALLOON, Or(c.want.balloon, 128)), ok); }
    var b4 := AddBalloon(c, st.seen, b3);
    IdleOk(c, b4, ok);
    var b5 := AddIdle(c, b4);
    EnvOk(c, st.seen, b5, ok);
    var b6 := AddEnv(c, st.seen, b5);
    if st.share.Some? { ShareOkIn(b6, st.share.value, ok); }
  }

  lemma EnvOk(c: Clone, seen: Seen, b: File, ok: string -> bool)
    requires All(b, ok) && PutInOk(c, ok) && ok("    environment:")
    ensures All(AddEnv(c, seen, b), ok)
  {
    hide EnvLine;
    AllPushed(b, ["    environment:"], ok);
    AllPushed(b + ["    environment:"], EnvLines(6, c.env), ok);
  }

  /** A property of all lines that copying makes or keeps and of those added in the end. */
  lemma PreparedBlockOk(c: Clone, ls: File, ok: string -> bool)
    requires ls != [] && ok("") && PutInOk(c, ok) && AddedOk(c, ok)
    requires LineOk(c, ls[0], Header(c), ok) && forall i :: 1 <= i < |ls| ==> LineOk(c, ls[i], Renamed(c, ls[i]), ok)
    requires !CopyBlock(c, ls).seen.balloon ==> ok(NewLine(BALLOON, Or(c.want.balloon, 128)))
    ensures All(Prepared(c, CopyBlock(c, ls)), ok)
  {
    hide CopyLine, CopyLines, LineOk, PutInOk, AddedOk, Renamed, Header, Prepared, NewLine, Or;
    CopyLineOk(c, START, ls[0], Header(c), ok);
    var st := CopyLine(c, START, ls[0], Header(c));
    assert forall i :: 0 <= i < |ls[1..]| ==> ls[1..][i] == ls[i + 1];
    CopyLinesOk(c, st, ls[1..], ok);
    PreparedOk(c, CopyBlock(c, ls), ok);
  }

  lemma NewBlockOk(c: Clone, ls: File, ok: string -> bool)
    requires ls != [] && ok("") && PutInOk(c, ok) && AddedOk(c, ok) && ok(ShareLine(c))
    requires LineOk(c, ls[0], Header(c), ok) && forall i :: 1 <= i < |ls| ==> LineOk(c, ls[i], Renamed(c, ls[i]), ok)
    requires !CopyBlock(c, ls).seen.balloon ==> ok(NewLine(BALLOON, Or(c.want.balloon, 128)))
    ensures All(NewBlock(c, ls), ok)
  {
    hide CopyBlock, LineOk, PutInOk, Renamed, Header, AddWarmup, AddRam, AddChrs, AddBalloon, AddIdle, AddEnv,
      AddLegacy, AddShare, NewLine, Or, All,
      HasSystemouts, ShareLine;
    PreparedBlockOk(c, ls, ok);
    ShareOkIn(Prepared(c, CopyBlock(c, ls)), ShareLine(c), ok);
  }

  // ---------------------------------------------------------------------------------------
  // Fields
  // ---------------------------------------------------------------------------------------

  predicate Fits(l: string, key: string, v: string) {
    Field(l, key).Some? ==> Field(l, key) == Some(v)
  }

  /** The keys whose values the clone decides. */
  predicate Decided(key: string) {
    key == "id" || key == "ram" || key == "chrs" || key == "balloon_mb" || key == "disabled" || key == "skip_warmup"
  }

  /** No injected variable is called like the key. */
  predicate EnvApart(c: Clone, key: string) {
    forall i :: 0 <= i < |c.env| ==> IsName(c.env[i].0) && c.env[i].0 != key
  }

  lemma OtherFits(l: string, key: string, v: string)
    requires KeyOf(l) != key && ':' !in key
    ensures Fits(l, key, v) && Field(l, key).None?
  {
    hide Field, KeyOf, HasKey;
    FieldIsKey(l, key);
    KeyExcludes(l, KeyOf(l), key);
  }

  lemma DecidedFacts(key: string)
    requires Decided(key)
    ensures IsName(key) && IsKey(key) && ':' !in key && key[0] != '-'
    ensures key != "environment" && key != "shares" && key != "initial_delay" && key != "interval" && key != "retries"
    ensures key != "balloon_idle_mb" && key != "balloon_decay_secs"
  {
    assert |"environment"| == 11 && |"skip_warmup"| == 11 && "environment"[0] != "skip_warmup"[0];
    assert |"shares"| == 6 && |"initial_delay"| == 13 && |"interval"| == 8 && |"disabled"| == 8
      && "interval"[0] != "disabled"[0];
    assert |"retries"| == 7 && |"balloon_idle_mb"| == 15 && |"balloon_decay_secs"| == 18 && |"balloon_mb"| == 10;
  }

  lemma PutInFits(c: Clone, key: string, v: string)
    requires Decided(key) && EnvApart(c, key)
    ensures PutInOk(c, (l: string) => Fits(l, key, v))
  {
    hide KeyOf, Field, IsName, EnvLine;
    DecidedFacts(key);
    HealthKeys();
    OtherFits("      initial_delay: 3", key, v);
    OtherFits("      interval: 1", key, v);
    OtherFits("      retries: 30", key, v);
    forall n: nat, i | 0 <= i < |c.env|
      ensures Fits(EnvLine(n, c.env[i]), key, v)
    {
      EnvLineKey(n, c.env[i]);
      OtherFits(EnvLine(n, c.env[i]), key, v);
    }
  }

  /** The fixed lines that are added. */
  lemma FixedFits(c: Clone, key: string, v: string)
    requires Decided(key) && (key == "skip_warmup" ==> v == "true")
    ensures Fits("    skip_warmup: true", key, v) && Fits("    environment:", key, v) && Fits("    shares:", key, v)
    ensures Fits(ShareLine(c), key, v)
  {
    hide KeyOf, Field, IsName, ShareLine, IsSpace;
    DecidedFacts(key);
    if key == "skip_warmup" {
      WarmupReads("");
    } else {
      WarmupKey();
      OtherFits("    skip_warmup: true", key, v);
    }
    SectionKeys();
    OtherFits("    environment:", key, v);
    OtherFits("    shares:", key, v);
    ShareLineKey(c, key);
    OtherFits(ShareLine(c), key, v);
  }

  lemma IdleKeys()
    ensures IDLE == "balloon_idle_mb" + ":" && DECAY == "balloon_decay_secs" + ":"
    ensures ':' !in "balloon_idle_mb" && ':' !in "balloon_decay_secs" && ':' !in "ram" && ':' !in "chrs"
            && ':' !in "balloon_mb"
  {
  }

  lemma AddedFits(c: Clone, key: string, v: string)
    requires Decided(key)
    requires key == "ram" ==> (c.want.ram.Some? ==> v == Decimal(c.want.ram.value))
    requires key == "chrs" ==> (c.want.chrs.Some? ==> v == Decimal(c.want.chrs.value))
    requires key == "skip_warmup" ==> v == "true"
    ensures AddedOk(c, (l: string) => Fits(l, key, v))
  {
    hide KeyOf, Fits, IsName, NewLine, ShareLine, Decimal, IsSpace, Decided;
    FixedFits(c, key, v);
    DecidedFacts(key);
    KeyLetters();
    ResourceKeys();
    IdleKeys();
    NewLineFits(c.want.ram, "ram", key, v);
    NewLineFits(c.want.chrs, "chrs", key, v);
    NewLineFits(c.idle, "balloon_idle_mb", key, v);
    NewLineFits(c.decay, "balloon_decay_secs", key, v);
  }

  lemma NewLineFits(n: Option<nat>, k: string, key: string, v: string)
    requires k != "" && !IsSpace(k[0]) && ':' !in k && ':' !in key
    requires k == key && n.Some? ==> v == Decimal(n.value) && IsKey(key)
    ensures n.Some? ==> Fits(NewLine(k + ":", n.value), key, v)
  {
    hide KeyOf, Field, NewLine, Decimal, IsSpace;
    if n.Some? {
      if k == key {
        NewLineReads(key, n.value);
      } else {
        NewLineKey(k, n.value);
        OtherFits(NewLine(k + ":", n.value), key, v);
      }
    }
  }

  /** A list item has none of the keys. */
  lemma ItemFits(s: string, key: string, v: string)
    requires Decided(key) && IsLegacyShare(s)
    ensures Fits(TrimEnd(s) + ":rw", key, v)
  {
    hide KeyOf, Field, IsName, IsLegacyShare, TrimEnd;
    DecidedFacts(key);
    LegacyKey(s, key);
    OtherFits(TrimEnd(s) + ":rw", key, v);
  }

  /** What the clone decides for a key. */
  function Decision(c: Clone, key: string): Option<string> {
    if key == "id" then Some(Decimal(c.vmId))
    else if key == "ram" then (if c.want.ram.Some? then Some(Decimal(c.want.ram.value)) else None)
    else if key == "chrs" then (if c.want.chrs.Some? then Some(Decimal(c.want.chrs.value)) else None)
    else if key == "balloon_mb" then (if c.want.balloon.Some? then Some(Decimal(c.want.balloon.value)) else None)
    else if key == "disabled" then Some(Flag(c.disabled))
    else if key == "skip_warmup" then Some("true")
    else None
  }

  lemma KeyNames()
    ensures RAM == "ram" + ":" && CHRS == "chrs" + ":" && BALLOON == "balloon_mb" + ":"
    ensures WARMUP == "skip_warmup" + ":" && DISABLED == "disabled" + ":" && ID == "id" + ":"
  {
  }

  lemma KeysAreDistinct()
    ensures "ram" != "chrs" && "ram" != "balloon_mb" && "ram" != "skip_warmup" && "ram" != "disabled" && "ram" != "id"
    ensures "chrs" != "balloon_mb" && "chrs" != "skip_warmup" && "chrs" != "disabled" && "chrs" != "id"
    ensures "balloon_mb" != "skip_warmup" && "balloon_mb" != "disabled" && "balloon_mb" != "id"
    ensures "skip_warmup" != "disabled" && "skip_warmup" != "id" && "disabled" != "id"
  {
    assert |"ram"| == 3 && |"chrs"| == 4 && |"balloon_mb"| == 10 && |"skip_warmup"| == 11 && |"disabled"| == 8
      && |"id"| == 2;
  }

  /** A line with one of the keys other than id gets the value decided, by the rule of its key. */
  lemma RuleFits(c: Clone, l: string, s: string, key: string)
    requires Decided(key) && Decision(c, key).Some?
    ensures match KeyRule(c, l, s)
            case Some(x) => Fits(x, key, Decision(c, key).value)
            case None => key != "id" ==> Field(s, key).None?
  {
    hide Field, HasKey, Override, WarmupLine, DisabledLine, KeyOf, Decimal, IsSpace;
    KeyNames();
    KeysAreDistinct();
    DecidedFacts(key);
    KeyLetters();
    FieldIsKey(s, key);
    FlagKeys(l, c.disabled);
    if c.want.ram.Some? { RuleLine(l, "ram", c.want.ram.value, key); }
    if c.want.balloon.Some? { RuleLine(l, "balloon_mb", c.want.balloon.value, key); }
    if c.want.chrs.Some? { RuleLine(l, "chrs", c.want.chrs.value, key); }
    WarmupReads(l);
    DisabledReads(l, c.disabled);
    if key != "skip_warmup" { OtherFits(WarmupLine(l), key, Decision(c, key).value); }
    if key != "disabled" { OtherFits(DisabledLine(l, c.disabled), key, Decision(c, key).value); }
  }

  lemma RuleLine(l: string, k: string, n: nat, key: string)
    requires k == "ram" || k == "balloon_mb" || k == "chrs"
    requires Decided(key)
    ensures if k == key then Field(Override(l, k + ":", n), key) == Some(Decimal(n))
            else Field(Override(l, k + ":", n), key).None?
  {
    hide Field, KeyOf, Override, Decimal, IsSpace;
    KeyLetters();
    DecidedFacts(key);
    DecidedFacts(k);
    if k == key {
      OverrideReads(l, key, n);
    } else {
      OverrideKey(l, k, n);
      OtherFits(Override(l, k + ":", n), key, "");
    }
  }

  /** Such a line of the source turns into one with the value, or into one without the key. */
  lemma LineFits(c: Clone, l: string, s: string, key: string)
    requires Decided(key) && Decision(c, key).Some? && (key == "id" ==> Fits(s, key, Decision(c, key).value))
    ensures LineOk(c, l, s, (x: string) => Fits(x, key, Decision(c, key).value))
  {
    hide Field, KeyRule, IsLegacyShare, IsEnterprise, HasKey, TrimEnd, Decimal;
    RuleFits(c, l, s, key);
    if IsLegacyShare(s) {
      ItemFits(s, key, Decision(c, key).value);
    }
  }

  // ---------------------------------------------------------------------------------------
  // The id
  // ---------------------------------------------------------------------------------------

  /** Renaming makes no line an id line, if the new name is no part of the key. */
  lemma NoNewId(l: string, src: string, dst: string)
    requires IsName(src) && IsName(dst) && !HasKey(l, ID) && !Contains("id", dst)
    ensures !HasKey(Replace(l, src, dst), ID)
  {
    hide IsIdent, Replace, IsName, Contains, TrimStart;
    TrimStartReplace(l, src, dst);
    var t := TrimStart(l);
    var r := Replace(t, src, dst);
    NameNotEmpty(src);
    NameNotEmpty(dst);
    if StartsWith(r, ID) {
      IdFront(t, src, dst);
    }
  }

  /** The new name does not stand where the key begins. */
  lemma NoIdAt(r: string, i: nat, dst: string)
    requires i < 2 && IsName(dst) && !Contains("id", dst) && StartsWith(r, dst)
    ensures !StartsWith(r, ID[i..])
  {
    hide Contains, IsIdent;
    var n := |dst|;
    if n <= 2 - i {
      PartOfId(dst, i);
      assert ID[i..][..n] == "id"[i..][..n];
      assert r[..n] == dst;
      assert |ID[i..]| <= |r| ==> r[..|ID[i..]|][..n] == r[..n];
    } else {
      IdentColon();
      assert r[2 - i] == dst[2 - i];
      assert ID[i..][2 - i] == ':';
    }
  }

  lemma IdFront(t: string, src: string, dst: string)
    requires IsName(src) && IsName(dst) && !Contains("id", dst) && StartsWith(Replace(t, src, dst), ID)
    ensures StartsWith(t, ID)
  {
    hide IsIdent, Replace, Contains;
    var r := Replace(t, src, dst);
    EmptyReplace(src, dst);
    assert ID[0..] == ID && ID[1..] == "d:";
    assert r[0] == 'i' && r[1] == 'd' && r[2] == ':';
    if StartsWith(t, src) {
      R.ReplaceHere(t, src, dst);
      NoIdAt(r, 0, dst);
    } else {
      ReplaceStep(t, src, dst);
      var t1 := t[1..];
      var r1 := Replace(t1, src, dst);
      assert r1 == r[1..] && r1[..2] == "d:";
      if StartsWith(t1, src) {
        R.ReplaceHere(t1, src, dst);
        NoIdAt(r1, 1, dst);
      } else {
        ReplaceStep(t1, src, dst);
        var t2 := t1[1..];
        assert Replace(t2, src, dst) == r1[1..] && t1[0] == 'd';
        ReplaceEnds(t2, src, dst);
        IdentColon();
        assert t2[0] == ':';
        assert t[..3] == ID;
      }
    }
  }

  lemma IdentColon()
    ensures !IsIdent(':')
  {
  }

  lemma PartOfId(dst: string, i: nat)
    requires i <= 2 && !Contains("id", dst)
    ensures |dst| <= 2 - i ==> dst != "id"[i..][..|dst|]
  {
    assert !StartsWith("id"[i..], dst);
  }

  /** A renamed line that sets the id sets the new one. */
  lemma IdFits(c: Clone, l: string)
    requires GoodNames(c) && !Contains("id", c.dst)
    ensures Fits(Renamed(c, l), "id", Decimal(c.vmId))
  {
    hide Field, HasKey, WithValue, Replace, Decimal, IsName, Contains;
    KeyNames();
    DecidedFacts("id");
    if HasKey(l, ID) {
      WithValueField(l, "id", c.vmId);
    } else {
      NoNewId(l, c.src, c.dst);
      FieldIsKey(Renamed(c, l), "id");
    }
  }

  lemma HeaderFits(c: Clone, key: string, v: string)
    requires GoodNames(c) && Short(c) != key && ':' !in key
    ensures Fits(Header(c), key, v)
  {
    hide Field, KeyOf, Header, HasKey;
    HeaderIs(c, key);
    OtherFits(Header(c), key, v);
  }

  // ---------------------------------------------------------------------------------------
  // What the block says
  // ---------------------------------------------------------------------------------------

  /** Every line of the block with the key reads as v. */
  ghost predicate Sets(b: File, key: string, v: string) {
    forall i :: 0 <= i < |b| && Field(b[i], key).Some? ==> Field(b[i], key) == Some(v)
  }

  ghost predicate Has(b: File, key: string) {
    exists i :: 0 <= i < |b| && Field(b[i], key).Some?
  }

  /** The conditions under which a key says what was decided: no injected variable has its name, and
      for the id neither the service nor a renamed line can be taken for it. */
  ghost predicate KeyIsFree(c: Clone, key: string) {
    EnvApart(c, key) && (key == "id" ==> Short(c) != "id" && !Contains("id", c.dst))
  }

  lemma DecisionSets(c: Clone, ls: File, key: string)
    requires GoodNames(c) && ls != [] && Decided(key) && Decision(c, key).Some? && KeyIsFree(c, key)
    ensures Sets(NewBlock(c, ls), key, Decision(c, key).value)
  {
    hide Field, LineOk, PutInOk, AddedOk, NewBlock, Header, Renamed, EnvApart, Decimal, Contains, Short, NewLine,
      CopyBlock, IsSpace;
    var v := Decision(c, key).value;
    var ok := (l: string) => Fits(l, key, v);
    PutInFits(c, key, v);
    KeysAreDistinct();
    AddedFits(c, key, v);
    FixedFits(c, key, v);
    DecidedFacts(key);
    KeyLetters();
    ResourceKeys();
    assert ok("") by { OtherFits("", key, v) by { BlankKey(key); } }
    if key == "id" { HeaderFits(c, key, v); }
    LineFits(c, ls[0], Header(c), key);
    forall i | 1 <= i < |ls|
      ensures LineOk(c, ls[i], Renamed(c, ls[i]), ok)
    {
      if key == "id" { IdFits(c, ls[i]); }
      LineFits(c, ls[i], Renamed(c, ls[i]), key);
    }
    NewLineFits(Some(Or(c.want.balloon, 128)), "balloon_mb", key, v);
    NewBlockOk(c, ls, ok);
    var b := NewBlock(c, ls);
    assert forall i :: 0 <= i < |b| ==> ok(b[i]);
  }

  lemma BlankKey(key: string)
    requires key != ""
    ensures KeyOf("") != key
  {
  }

  /** Every line of the block with the key reads as the number. */
  ghost predicate SetsNumber(b: File, key: string, n: nat) {
    forall i :: 0 <= i < |b| && Field(b[i], key).Some? ==> Reads(b[i], key, n)
  }

  lemma SetsDecimal(b: File, key: string, n: nat)
    requires Sets(b, key, Decimal(n))
    ensures SetsNumber(b, key, n)
  {
    hide Field, Decimal;
    DecimalReads(n);
  }

  /** The new block says the id of the clone wherever it says one; every resource that was asked for,
      the disabled flag and the warm-up flag read as asked at every line that sets them. */
  lemma BlockSays(c: Clone, ls: File)
    requires GoodNames(c) && ls != []
    ensures var b := NewBlock(c, ls);
            && (KeyIsFree(c, "id") ==> SetsNumber(b, "id", c.vmId))
            && (c.want.ram.Some? && EnvApart(c, "ram") ==> SetsNumber(b, "ram", c.want.ram.value))
            && (c.want.chrs.Some? && EnvApart(c, "chrs") ==> SetsNumber(b, "chrs", c.want.chrs.value))
            && (c.want.balloon.Some? && EnvApart(c, "balloon_mb") ==> SetsNumber(b, "balloon_mb", c.want.balloon.value))
            && (EnvApart(c, "disabled") ==> Sets(b, "disabled", if c.disabled then "true" else "false"))
            && (EnvApart(c, "skip_warmup") ==> Sets(b, "skip_warmup", "true"))
  {
    hide GoodNames, NewBlock, Sets, SetsNumber, EnvApart, Decimal, Contains, Short;
    KeysAreDistinct();
    var b := NewBlock(c, ls);
    if KeyIsFree(c, "id") {
      DecisionSets(c, ls, "id");
      SetsDecimal(b, "id", c.vmId);
    }
    if c.want.ram.Some? && EnvApart(c, "ram") {
      DecisionSets(c, ls, "ram");
      SetsDecimal(b, "ram", c.want.ram.value);
    }
    if c.want.chrs.Some? && EnvApart(c, "chrs") {
      DecisionSets(c, ls, "chrs");
      SetsDecimal(b, "chrs", c.want.chrs.value);
    }
    if c.want.balloon.Some? && EnvApart(c, "balloon_mb") {
      DecisionSets(c, ls, "balloon_mb");
      SetsDecimal(b, "balloon_mb", c.want.balloon.value);
    }
    if EnvApart(c, "disabled") { DecisionSets(c, ls, "disabled"); }
    if EnvApart(c, "skip_warmup") { DecisionSets(c, ls, "skip_warmup"); }
  }
}
