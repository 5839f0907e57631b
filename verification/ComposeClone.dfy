/**
 Cloning a service: the block of the source instance is copied, line by line, to the end of
 nkr-compose.yml under a new name, with other resources, extra environment and shares.
 */
module ComposeClone {
  import opened Wrappers
  import opened Text
  import opened Compose

  /** What the caller asks for. `shareDir` is the systemouts-addons directory of the cell. */
  datatype Clone = Clone(
    src: string, dst: string, cell: string, vmId: nat, env: seq<(string, string)>,
    want: Resources, idle: Option<nat>, decay: Option<nat>, enterprise: bool, disabled: bool, shareDir: string)

  /** The service name: the instance name without the name of its cell. */
  function Short(c: Clone): string {
    if StartsWith(c.dst, c.cell + "-") then c.dst[|c.cell| + 1..] else c.dst
  }

  predicate Contains(s: string, p: string) {
    exists i :: 0 <= i <= |s| && StartsWith(s[i..], p)
  }

  /** `str::replace`; an empty pattern matches before each character and at the end. */
  function Replace(s: string, p: string, q: string): string
    decreases |s|
  {
    if p == "" then (if s == "" then q else q + [s[0]] + Replace(s[1..], p, q))
    else if s == "" then ""
    else if StartsWith(s, p) then q + Replace(s[|p|..], p, q)
    else [s[0]] + Replace(s[1..], p, q)
  }

  const ID: string := "id:"
  const WARMUP: string := "skip_warmup:"
  const ENVIRONMENT: string := "environment:"
  const HEALTHCHECK: string := "healthcheck:"
  const SHARES: string := "shares:"
  const SYSTEMOUTS: string := ":/mnt/systemouts-addons:"

  function Header(c: Clone): string {
    "  " + Short(c) + ":"
  }

  /** The line under its new name. */
  function Renamed(c: Clone, l: string): string {
    if HasKey(l, ID) then WithValue(l, ID, c.vmId)
    else Replace(l, c.src, c.dst)
  }

  /** The line for a resource that the caller overrides. */
  function Override(l: string, key: string, n: nat): string {
    Spaces(Indent(l)) + key + " " + Decimal(n) + Comment(if HasKey(l, key) then TrimStart(l)[|key|..] else "")
  }

  function WarmupLine(l: string): string {
    Spaces(Indent(l)) + WARMUP + " true"
  }

  function EnvLine(indent: nat, kv: (string, string)): string {
    Spaces(indent) + kv.0 + ": \"" + kv.1 + "\""
  }

  function EnvLines(indent: nat, env: seq<(string, string)>): (ls: File)
    ensures |ls| == |env|
  {
    seq(|env|, i requires 0 <= i < |env| => EnvLine(indent, env[i]))
  }

  /** What a line has before its first colon. */
  function KeyOf(l: string): string {
    TrimStart(l)[..Find(TrimStart(l), ':')]
  }

  predicate IsEnvKey(env: seq<(string, string)>, k: string) {
    exists i :: 0 <= i < |env| && env[i].0 == k
  }

  /** An addons volume of the old format, to be turned into a share. */
  predicate IsLegacyShare(s: string) {
    var t := TrimStart(s);
    StartsWith(t, "- ") && Contains(t, ":/mnt/extra-addons") && !Contains(t, ":ro") && !Contains(t, ":rw")
  }

  predicate IsEnterprise(s: string) {
    Contains(TrimStart(s), ":/mnt/extra-enterprise")
  }

  /** Which keys were seen in the block. */
  datatype Seen = Seen(ram: bool, chrs: bool, balloon: bool, warmup: bool, env: bool)

  /** The new lines, the keys seen, the section the copy is in, and a share to be added. */
  datatype Copying = Copying(out: File, seen: Seen, inEnv: bool, inHealth: bool, share: Option<string>)

  function Push(st: Copying, ls: File): Copying {
    st.(out := st.out + ls)
  }

  /** The first part of the rules: keys with a new value. None leaves the line to the others. */
  function KeyRule(c: Clone, l: string, s: string): Option<string> {
    if HasKey(s, RAM) && c.want.ram.Some? then Some(Override(l, RAM, c.want.ram.value))
    else if HasKey(s, BALLOON) && c.want.balloon.Some? then Some(Override(l, BALLOON, c.want.balloon.value))
    else if HasKey(s, CHRS) && c.want.chrs.Some? then Some(Override(l, CHRS, c.want.chrs.value))
    else if HasKey(s, WARMUP) then Some(WarmupLine(l))
    else if HasKey(s, DISABLED) then Some(DisabledLine(l, c.disabled))
    else None
  }

  function SeeKeys(seen: Seen, s: string): Seen {
    seen.(ram := seen.ram || HasKey(s, RAM), balloon := seen.balloon || HasKey(s, BALLOON),
          chrs := seen.chrs || HasKey(s, CHRS), warmup := seen.warmup || HasKey(s, WARMUP))
  }

  /** Inside a healthcheck the waiting times are cut short. */
  function HealthRule(s: string): Option<string> {
    if HasKey(s, "initial_delay:") then Some("      initial_delay: 3")
    else if HasKey(s, "interval:") then Some("      interval: 1")
    else if HasKey(s, "retries:") then Some("      retries: 30")
    else None
  }

  /** The last part of the rules: a line that is kept, turned into a share or dropped. */
  function KeepRule(c: Clone, st: Copying, s: string): Copying {
    if HasKey(s, HEALTHCHECK) then Push(st.(inHealth := true), [s])
    else if IsLegacyShare(s) then st.(share := Some(TrimEnd(s) + ":rw"))
    else if !c.enterprise && IsEnterprise(s) then st
    else Push(st, [s])
  }

  /** The rules for lines in and after a section; entries are indented by more than four. */
  function SectionRule(c: Clone, st: Copying, l: string, s: string): Copying {
    var deep := Indent(l) > 4;
    if st.inEnv && deep && IsEnvKey(c.env, KeyOf(s)) then st
    else
      var st := st.(inEnv := st.inEnv && deep);
      if st.inHealth && deep && HealthRule(s).Some? then Push(st, [HealthRule(s).value])
      else KeepRule(c, st.(inHealth := st.inHealth && deep), s)
  }

  /** One line of the block: l as it stands in the source, s with the new names. */
  function CopyLine(c: Clone, st: Copying, l: string, s: string): Copying {
    var st := st.(seen := SeeKeys(st.seen, s));
    if KeyRule(c, l, s).Some? then Push(st, [KeyRule(c, l, s).value])
    else if HasKey(s, ENVIRONMENT) then
      Push(st.(seen := st.seen.(env := true), inEnv := true), [s] + EnvLines(Indent(l) + 2, c.env))
    else SectionRule(c, st, l, s)
  }

  function CopyLines(c: Clone, st: Copying, ls: File): Copying
    decreases |ls|
  {
    if ls == [] then st else CopyLines(c, CopyLine(c, st, ls[0], Renamed(c, ls[0])), ls[1..])
  }

  const START: Copying := Copying([""], Seen(false, false, false, false, false), false, false, None)

  function CopyBlock(c: Clone, ls: File): Copying
    requires ls != []
  {
    CopyLines(c, CopyLine(c, START, ls[0], Header(c)), ls[1..])
  }

  /** Insertion after the blank line and the header. */
  function InsertHead(b: File, l: string): File {
    InsertAt(b, if |b| < 2 then |b| else 2, l)
  }

  function AddWarmup(c: Clone, seen: Seen, b: File): File {
    if seen.warmup then b else InsertHead(b, "    skip_warmup: true")
  }

  function AddRam(c: Clone, seen: Seen, b: File): File {
    if seen.ram || c.want.ram.None? then b else InsertHead(b, NewLine(RAM, c.want.ram.value))
  }

  function AddChrs(c: Clone, seen: Seen, b: File): File {
    if seen.chrs || c.want.chrs.None? then b else InsertHead(b, NewLine(CHRS, c.want.chrs.value))
  }

  /** Every clone gets a balloon, of 128 MiB if nothing else is known. */
  function AddBalloon(c: Clone, seen: Seen, b: File): File {
    if seen.balloon then b else InsertHead(b, NewLine(BALLOON, Or(c.want.balloon, 128)))
  }

  function Or(v: Option<nat>, d: nat): nat {
    if v.Some? then v.value else d
  }

  const IDLE: string := "balloon_idle_mb:"
  const DECAY: string := "balloon_decay_secs:"

  /** The idle target, if it differs from the active one; the decay goes after it. */
  function AddIdle(c: Clone, b: File): File {
    if c.idle.None? || c.idle.value == Or(c.want.balloon, 0) then b
    else
      var at := if |b| < 2 then |b| else 2;
      var b := InsertAt(b, at, NewLine(IDLE, c.idle.value));
      if c.decay.Some? then InsertAt(b, at + 1, NewLine(DECAY, c.decay.value)) else b
  }

  function AddEnv(c: Clone, seen: Seen, b: File): File {
    if seen.env || c.env == [] then b else b + ["    environment:"] + EnvLines(6, c.env)
  }

  /** The first `shares:` line, or |b|. */
  function SharesAt(b: File, i: nat): (r: nat)
    requires i <= |b|
    ensures i <= r <= |b|
    decreases |b| - i
  {
    if i == |b| || Trim(b[i]) == SHARES then i else SharesAt(b, i + 1)
  }

  function AddShare(b: File, l: string): File {
    var i := SharesAt(b, 0);
    if i < |b| then InsertAt(b, i + 1, l) else b + ["    shares:"] + [l]
  }

  function AddLegacy(share: Option<string>, b: File): File {
    if share.Some? then AddShare(b, share.value) else b
  }

  function ShareLine(c: Clone): string {
    "      - \"" + c.shareDir + ":/mnt/systemouts-addons:ro\""
  }

  predicate HasSystemouts(b: File) {
    exists i :: 0 <= i < |b| && Contains(b[i], SYSTEMOUTS)
  }

  function AddSystemouts(c: Clone, b: File): File {
    if HasSystemouts(b) then b else AddShare(b, ShareLine(c))
  }

  /** What is added to the copied lines. */
  function Finish(c: Clone, st: Copying): File {
    AddSystemouts(c, AddLegacy(st.share, AddEnv(c, st.seen, AddIdle(c, AddBalloon(c, st.seen,
      AddChrs(c, st.seen, AddRam(c, st.seen, AddWarmup(c, st.seen, st.out))))))))
  }

  /** The new block, with the blank line before it. */
  function NewBlock(c: Clone, ls: File): File
    requires ls != []
  {
    Finish(c, CopyBlock(c, ls))
  }

  /** `append_compose_block`; None if the source has no block. */
  function Append(f: File, c: Clone): Option<File> {
    match Locate(f, c.src)
    case None => None
    case Some(b) => Some(f + NewBlock(c, f[b.start..b.end]))
  }

  // ---------------------------------------------------------------------------------------
  // The loops
  // ---------------------------------------------------------------------------------------

  /** The body of the copying loop. */
  method CopyOne(c: Clone, st: Copying, l: string, s: string) returns (r: Copying)
    ensures r == CopyLine(c, st, l, s)
  {
    hide HasKey, Override, WarmupLine, DisabledLine, EnvLines, IsEnvKey, IsLegacyShare, IsEnterprise, KeyOf;
    r := st.(seen := SeeKeys(st.seen, s));
    if KeyRule(c, l, s).Some? {
      return Push(r, [KeyRule(c, l, s).value]);
    }
    if HasKey(s, ENVIRONMENT) {
      r := r.(seen := r.seen.(env := true), inEnv := true);
      var out := PushEnv(r.out + [s], Indent(l) + 2, c.env);
      assert out == r.out + ([s] + EnvLines(Indent(l) + 2, c.env));
      return r.(out := out);
    }
    if r.inEnv {
      if Indent(l) > 4 {
        if IsEnvKey(c.env, KeyOf(s)) {
          return;
        }
      } else {
        r := r.(inEnv := false);
      }
    }
    if r.inHealth {
      if Indent(l) > 4 {
        if HealthRule(s).Some? {
          return Push(r, [HealthRule(s).value]);
        }
      } else {
        r := r.(inHealth := false);
      }
    }
    if HasKey(s, HEALTHCHECK) {
      return Push(r.(inHealth := true), [s]);
    }
    if IsLegacyShare(s) {
      return r.(share := Some(TrimEnd(s) + ":rw"));
    }
    if !c.enterprise && IsEnterprise(s) {
      return;
    }
    return Push(r, [s]);
  }

  method CopyLoop(c: Clone, ls: File) returns (st: Copying)
    requires ls != []
    ensures st == CopyBlock(c, ls)
  {
    hide CopyLine, Renamed, Header;
    st := START;
    for i := 0 to |ls|
      invariant if i == 0 then st == START else CopyLines(c, st, ls[i..]) == CopyBlock(c, ls)
    {
      assert i > 0 ==> ls[i..][0] == ls[i] && ls[i..][1..] == ls[i + 1..];
      st := CopyOne(c, st, ls[i], if i == 0 then Header(c) else Renamed(c, ls[i]));
    }
    assert ls[|ls|..] == [];
  }

  method PushEnv(b: File, indent: nat, env: seq<(string, string)>) returns (out: File)
    ensures out == b + EnvLines(indent, env)
  {
    hide EnvLine;
    out := b;
    for i := 0 to |env|
      invariant out == b + EnvLines(indent, env)[..i]
    {
      out := out + [EnvLine(indent, env[i])];
    }
  }

  /** The share goes after the first `shares:` line, or into a section of its own. */
  method PushShare(b: File, l: string) returns (out: File)
    ensures out == AddShare(b, l)
  {
    hide Trim;
    var injected := false;
    out := [];
    for i := 0 to |b|
      invariant !injected ==> out == b[..i] && SharesAt(b, 0) == SharesAt(b, i)
      invariant injected ==> SharesAt(b, 0) < i && out == b[..SharesAt(b, 0) + 1] + [l] + b[SharesAt(b, 0) + 1..i]
    {
      out := out + [b[i]];
      if !injected && Trim(b[i]) == SHARES {
        out := out + [l];
        injected := true;
      }
    }
    assert b[..|b|] == b;
    if !injected {
      out := out + ["    shares:"];
      out := out + [l];
    } else {
      assert b[SharesAt(b, 0) + 1..|b|] == b[SharesAt(b, 0) + 1..];
    }
  }

  method AppendComposeBlock(f: File, c: Clone) returns (r: Option<File>)
    ensures r == Append(f, c)
  {
    hide Locate, CopyBlock, AddShare, InsertHead, EnvLines, NewLine, AddIdle, HasSystemouts, ShareLine, Or;
    var b := LocateBlock(f, c.src);
    if b.None? {
      return None;
    }
    LocateBounds(f, c.src);
    var st := CopyLoop(c, f[b.value.start..b.value.end]);
    var block := st.out;
    if !st.seen.warmup {
      block := InsertHead(block, "    skip_warmup: true");
    }
    if !st.seen.ram && c.want.ram.Some? {
      block := InsertHead(block, NewLine(RAM, c.want.ram.value));
    }
    if !st.seen.chrs && c.want.chrs.Some? {
      block := InsertHead(block, NewLine(CHRS, c.want.chrs.value));
    }
    if !st.seen.balloon {
      block := InsertHead(block, NewLine(BALLOON, Or(c.want.balloon, 128)));
    }
    block := AddIdle(c, block);
    if !st.seen.env && c.env != [] {
      block := block + ["    environment:"];
      block := PushEnv(block, 6, c.env);
    }
    if st.share.Some? {
      block := PushShare(block, st.share.value);
    }
    if !HasSystemouts(block) {
      block := PushShare(block, ShareLine(c));
    }
    return Some(f + block);
  }
}
