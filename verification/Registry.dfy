/**
 The persistent registry of VM ids: a map from "cell/name" (or "name" for the legacy cell 0)
 to an id. Ids are handed out per cell.
 */
module Registry {
  import opened Wrappers
  import opened Text
  import opened Virtio

  const MIN_ID: nat := 2
  const MAX_ID: nat := 254

  type Entries = map<string, nat>

  datatype Error = EmptyName | NoFreeId | IdConflict | SaveFailed

  datatype Reply = Id(id: nat) | Registered | Removed(was: bool) | Failed(error: Error)

  /** The operations of the public interface. */
  datatype Op =
    | Resolve(cell: Option<string>, name: string)
    | Register(cell: Option<string>, name: string, id: nat)
    | Remove(name: string)

  function Normal(s: string): string {
    Lower(Trim(s))
  }

  function Scope(cell: Option<string>): Option<string> {
    match cell case None => None case Some(c) => Some(Normal(c))
  }

  function Key(cell: Option<string>, name: string): string {
    match Scope(cell) case None => Normal(name) case Some(c) => c + "/" + Normal(name)
  }

  /** The test by which the code decides that a key belongs to a scope. */
  predicate InScope(key: string, scope: Option<string>) {
    match scope case None => '/' !in key case Some(c) => StartsWith(key, c + "/")
  }

  function UsedIds(reg: Entries, scope: Option<string>): set<nat> {
    set k | k in reg && InScope(k, scope) :: reg[k]
  }

  /** `(id..=MAX_ID).find(|id| !used.contains(id))` */
  function FirstFree(used: set<nat>, id: nat): (r: Option<nat>)
    requires id <= MAX_ID + 1
    ensures r.Some? ==> id <= r.value <= MAX_ID && r.value !in used
    ensures forall i :: id <= i <= MAX_ID && (r.Some? ==> i < r.value) ==> i in used
    decreases MAX_ID + 1 - id
  {
    if id > MAX_ID then None
    else if id !in used then Some(id)
    else FirstFree(used, id + 1)
  }

  function NextFree(reg: Entries, scope: Option<string>): Option<nat> {
    FirstFree(UsedIds(reg, scope), MIN_ID)
  }

  predicate Conflict(reg: Entries, scope: Option<string>, key: string, id: nat) {
    exists k :: k in reg && k != key && reg[k] == id && InScope(k, scope)
  }

  /** The registry after an operation, and its reply. */
  function Apply(reg: Entries, op: Op): (Entries, Reply) {
    match op
    case Resolve(cell, name) =>
      var key := Key(cell, name);
      if Normal(name) == "" then (reg, Failed(EmptyName))
      else if key in reg then (reg, Id(reg[key]))
      else
        (match NextFree(reg, Scope(cell))
         case None => (reg, Failed(NoFreeId))
         case Some(id) => (reg[key := id], Id(id)))
    case Register(cell, name, id) =>
      var key := Key(cell, name);
      if Conflict(reg, Scope(cell), key, id) then (reg, Failed(IdConflict)) else (reg[key := id], Registered)
    case Remove(name) =>
      var key := Normal(name);
      (reg - {key}, Removed(key in reg))
  }

  /** The key an operation may assign or remove. */
  function Target(op: Op): string {
    match op
    case Resolve(cell, name) => Key(cell, name)
    case Register(cell, name, _) => Key(cell, name)
    case Remove(name) => Normal(name)
  }

  function Replay(reg: Entries, ops: seq<Op>): Entries {
    if ops == [] then reg else Apply(Replay(reg, ops[..|ops| - 1]), ops[|ops| - 1]).0
  }

  // ---------------------------------------------------------------------------------------
  // The code
  // ---------------------------------------------------------------------------------------

  class RegistryStore {
    var stored: Entries      // registry.json

    constructor ()
      ensures stored == map[]
    {
      stored := map[];
    }

    method ResolveIdScoped(cell: Option<string>, name: string) returns (reply: Reply)
      modifies this
      ensures (stored, reply) == Apply(old(stored), Resolve(cell, name))
    {
      var reg := stored;
      var vmKey := Normal(name);
      if vmKey == "" {
        return Failed(EmptyName);
      }
      var scope := Scope(cell);
      var key := if scope.Some? then scope.value + "/" + vmKey else vmKey;
      if key in reg {
        return Id(reg[key]);
      }
      var free := NextFree(reg, scope);
      if free.None? {
        return Failed(NoFreeId);
      }
      reg := reg[key := free.value];
      stored := reg;
      return Id(free.value);
    }

    method RegisterExplicitScoped(cell: Option<string>, name: string, id: nat) returns (reply: Reply)
      modifies this
      ensures (stored, reply) == Apply(old(stored), Register(cell, name, id))
    {
      var reg := stored;
      var scope := Scope(cell);
      var key := Key(cell, name);
      var todo := reg.Keys;
      while todo != {}
        invariant todo <= reg.Keys && stored == reg == old(stored)
        invariant forall k :: k in reg && k !in todo ==> !(k != key && reg[k] == id && InScope(k, scope))
        decreases |todo|
      {
        var existing :| existing in todo;
        todo := todo - {existing};
        if reg[existing] == id && existing != key && InScope(existing, scope) {
          return Failed(IdConflict);
        }
      }
      if key !in reg || reg[key] != id {
        stored := reg[key := id];
      }
      assert !Conflict(reg, scope, key, id);
      assert stored == reg[key := id];
      return Registered;
    }

    method RemoveName(name: string) returns (reply: Reply)
      modifies this
      ensures forall k :: k in stored <==> k in old(stored) && k != Normal(name)
      ensures forall k :: k in stored ==> stored[k] == old(stored)[k]
      ensures reply == Removed(Normal(name) in old(stored))
      ensures (stored, reply) == Apply(old(stored), Remove(name))
    {
      var key := Normal(name);
      reply := Removed(key in stored);
      stored := stored - {key};
    }
  }

  // ---------------------------------------------------------------------------------------
  // Scopes
  // ---------------------------------------------------------------------------------------

  /** The cell a key belongs to: what is before its first slash. */
  function ScopeOf(key: string): Option<string> {
    if '/' in key then Some(key[..Find(key, '/')]) else None
  }

  lemma SlashFree(c: string, k: string)
    requires '/' !in c
    ensures StartsWith(k, c + "/") <==> ScopeOf(k) == Some(c)
  {
    var p := c + "/";
    assert forall i :: 0 <= i < |c| ==> p[i] == c[i];
    if StartsWith(k, p) {
      assert forall i :: 0 <= i < |p| ==> k[i] == p[i];
      assert k[|c|] == '/';
      assert Find(k, '/') == |c|;
      assert k[..|c|] == c;
    }
    if ScopeOf(k) == Some(c) {
      assert k[..|c| + 1] == p;
    }
  }

  /** The prefix test is right: for a cell name without a slash, a key starts with "cell/"
      exactly when it is a key of that cell; so scopes never overlap. */
  lemma ScopesAreDisjoint(key: string, scope: Option<string>)
    requires scope.Some? ==> '/' !in scope.value
    ensures InScope(key, scope) <==> ScopeOf(key) == scope
  {
    if scope.Some? {
      SlashFree(scope.value, key);
    }
  }

  /** A key made from a cell and a name belongs to that cell, for cell names without a slash,
      and for the legacy scope if the name has none. */
  lemma KeyScope(cell: Option<string>, name: string)
    requires match Scope(cell) case Some(c) => '/' !in c case None => '/' !in Normal(name)
    ensures ScopeOf(Key(cell, name)) == Scope(cell)
  {
    if cell.Some? {
      var c := Scope(cell).value;
      assert c + "/" + Normal(name) == (c + "/") + Normal(name);
      SlashFree(c, Key(cell, name));
    }
  }

  /** A letter without its case. */
  function Small(c: char): char {
    if c == 'A' then 'a' else if 'B' <= c <= 'Z' then c - 'A' + 'a' else c
  }

  predicate AllWhite(s: string) {
    forall i :: 0 <= i < |s| ==> IsSpace(s[i])
  }

  /** A name counts without the white space around it and without the case of its letters. */
  lemma NormalIs(a: string, s: string, b: string)
    requires AllWhite(a) && AllWhite(b) && s != "" && !IsSpace(s[0]) && !IsSpace(s[|s| - 1])
    ensures |Normal(a + s + b)| == |s| && forall i :: 0 <= i < |s| ==> Normal(a + s + b)[i] == Small(s[i])
  {
    hide IsSpace;
    var t := a + s + b;
    assert forall i :: 0 <= i < |a| ==> t[i] == a[i];
    assert t[|a|] == s[0];
    TrimStartIs(t, |a|);
    assert t[|a|..] == s + b;
    assert forall i :: |s| <= i < |s + b| ==> (s + b)[i] == b[i - |s|];
    TrimEndIs(s + b, |s|);
    assert (s + b)[..|s|] == s;
  }

  /** White space alone is no name. */
  lemma BlankIsNoName(s: string)
    requires AllWhite(s)
    ensures Normal(s) == ""
  {
    hide IsSpace;
    TrimStartIs(s, |s|);
    TrimEndIs("", 0);
    assert s[|s|..] == "";
  }

  // ---------------------------------------------------------------------------------------
  // Allocation
  // ---------------------------------------------------------------------------------------

  ghost predicate Taken(reg: Entries, scope: Option<string>, id: nat) {
    exists k :: k in reg && InScope(k, scope) && reg[k] == id
  }

  /** The id handed out is the least one of 2..=254 not used in the scope; there is none
      exactly when all are used. */
  lemma NextFreeIsLeast(reg: Entries, scope: Option<string>)
    ensures match NextFree(reg, scope)
            case Some(id) => 2 <= id <= 254 && !Taken(reg, scope, id)
                             && forall i :: 2 <= i < id ==> Taken(reg, scope, i)
            case None => forall i :: 2 <= i <= 254 ==> Taken(reg, scope, i)
  {
    forall i: nat
      ensures i in UsedIds(reg, scope) <==> Taken(reg, scope, i)
    {
    }
  }

  function Members(reg: Entries, scope: Option<string>): set<string> {
    set k | k in reg && InScope(k, scope)
  }

  lemma {:induction false} ImageSize(reg: Entries, keys: set<string>, ids: set<nat>)
    requires keys <= reg.Keys && forall i :: i in ids ==> exists k :: k in keys && reg[k] == i
    ensures |ids| <= |keys|
    decreases |keys|
  {
    if ids != {} {
      var i :| i in ids;
      var k :| k in keys && reg[k] == i;
      forall j | j in ids - {i}
        ensures exists k' :: k' in keys - {k} && reg[k'] == j
      {
        var k' :| k' in keys && reg[k'] == j;
      }
      ImageSize(reg, keys - {k}, ids - {i});
    }
  }

  function Range(lo: nat, hi: nat): (s: set<nat>)
    requires lo <= hi
    ensures forall i :: i in s <==> lo <= i < hi
    ensures |s| == hi - lo
    decreases hi - lo
  {
    if lo == hi then {} else {lo} + Range(lo + 1, hi)
  }

  /** So a scope with fewer than 253 names always has a free id. */
  lemma FreeUntilFull(reg: Entries, scope: Option<string>)
    requires |Members(reg, scope)| < 253
    ensures NextFree(reg, scope).Some?
  {
    NextFreeIsLeast(reg, scope);
    if NextFree(reg, scope).None? {
      var all := Range(MIN_ID, MAX_ID + 1);
      forall i | i in all
        ensures exists k :: k in Members(reg, scope) && reg[k] == i
      {
        assert Taken(reg, scope, i);
        var k :| k in reg && InScope(k, scope) && reg[k] == i;
        assert k in Members(reg, scope);
      }
      ImageSize(reg, Members(reg, scope), all);
    }
  }

  // ---------------------------------------------------------------------------------------
  // Distinct ids per cell
  // ---------------------------------------------------------------------------------------

  /** Names of one cell hold distinct ids. */
  ghost predicate Distinct(reg: Entries) {
    forall k, l :: k in reg && l in reg && k != l && ScopeOf(k) == ScopeOf(l) ==> reg[k] != reg[l]
  }

  /** The operation's key belongs to the scope in which its id is chosen or checked. */
  predicate WellScoped(op: Op) {
    match op
    case Resolve(cell, name) => ScopeOf(Key(cell, name)) == Scope(cell)
    case Register(cell, name, _) => ScopeOf(Key(cell, name)) == Scope(cell)
    case Remove(_) => true
  }

  /** What a caller can look at: the cell, or the name outside cells, holds no slash. */
  predicate SlashFreeOp(op: Op) {
    match op
    case Remove(_) => true
    case _ => match op.cell case Some(c) => '/' !in c case None => '/' !in op.name
  }

  lemma NormalKeepsSlashFree(s: string)
    requires '/' !in s
    ensures '/' !in Normal(s)
  {
    TrimStartFacts(s);
    TrimEndFacts(TrimStart(s));
    assert forall i :: 0 <= i < |Trim(s)| ==> Trim(s)[i] in s;
  }

  /** Such an operation is well-scoped. */
  lemma SlashFreeIsWellScoped(op: Op)
    requires SlashFreeOp(op)
    ensures WellScoped(op)
  {
    hide Normal;
    if !op.Remove? {
      NormalKeepsSlashFree(if op.cell.Some? then op.cell.value else op.name);
      KeyScope(op.cell, op.name);
    }
  }

  lemma ScopeHasNoSlash(key: string)
    ensures ScopeOf(key).Some? ==> '/' !in ScopeOf(key).value
  {
  }

  lemma ApplyKeepsDistinct(reg: Entries, op: Op)
    requires Distinct(reg) && WellScoped(op)
    ensures Distinct(Apply(reg, op).0)
  {
    if !op.Remove? {
      var key := Target(op);
      ScopeHasNoSlash(key);
      forall k | k in reg
        ensures InScope(k, Scope(op.cell)) <==> ScopeOf(k) == ScopeOf(key)
      {
        ScopesAreDisjoint(k, Scope(op.cell));
      }
      if op.Resolve? {
        NextFreeIsLeast(reg, Scope(op.cell));
      }
    }
  }

  lemma {:induction false} ReplayKeepsDistinct(reg: Entries, ops: seq<Op>)
    requires Distinct(reg) && forall i :: 0 <= i < |ops| ==> WellScoped(ops[i])
    ensures Distinct(Replay(reg, ops))
    decreases |ops|
  {
    if ops != [] {
      ReplayKeepsDistinct(reg, ops[..|ops| - 1]);
      ApplyKeepsDistinct(Replay(reg, ops[..|ops| - 1]), ops[|ops| - 1]);
    }
  }

  /** Well-scoped is exactly what is needed: any other resolve breaks some registry. For
      instance a legacy name "x/b" is given id 2 although "x/a" of cell x holds it. */
  lemma IllScopedResolveBreaks(cell: Option<string>, name: string) returns (reg: Entries)
    requires Normal(name) != "" && !WellScoped(Resolve(cell, name))
    ensures Distinct(reg) && !Distinct(Apply(reg, Resolve(cell, name)).0)
  {
    hide Normal, Find;
    var key := Key(cell, name);
    var scope := Scope(cell);
    assert '/' in key by {
      if scope.Some? {
        assert key[|scope.value|] == '/';
      }
    }
    var other := Neighbour(key, scope);
    reg := map[other := MIN_ID];
    assert UsedIds(reg, scope) == {};
    assert NextFree(reg, scope) == Some(MIN_ID);
    var after := Apply(reg, Resolve(cell, name)).0;
    assert after == reg[key := MIN_ID];
    assert other in after && key in after;
  }

  /** A key of the same cell as key that the prefix test for scope does not see. */
  lemma Neighbour(key: string, scope: Option<string>) returns (other: string)
    requires '/' in key && ScopeOf(key) != scope && (scope.Some? ==> StartsWith(key, scope.value + "/"))
    ensures other != key && ScopeOf(other) == ScopeOf(key) && !InScope(other, scope)
  {
    hide Find;
    var x := ScopeOf(key).value;
    ScopeHasNoSlash(key);
    other := if key == x + "/" then x + "/a" else x + "/";
    SlashFree(x, other);
    SlashFree(x, key);
    assert other[|x|] == '/';
    if scope.Some? {
      var c := scope.value;
      if '/' !in c {
        SlashFree(c, key);
      } else {
        LongerScope(x, c, key);
        assert key != x + "/";
      }
    }
  }

  lemma LongerScope(x: string, c: string, key: string)
    requires StartsWith(key, x + "/") && StartsWith(key, c + "/") && '/' !in x && '/' in c
    ensures |x| < |c| && key != x + "/"
  {
    var i := Find(c, '/');
    assert key[i] == c[i] by { assert (c + "/")[i] == c[i]; }
    assert forall m :: 0 <= m < |x| ==> key[m] == (x + "/")[m] == x[m];
  }

  // ---------------------------------------------------------------------------------------
  // What an operation leaves
  // ---------------------------------------------------------------------------------------

  /** A name has the id. */
  predicate Holds(reg: Entries, cell: Option<string>, name: string, id: nat) {
    Key(cell, name) in reg && reg[Key(cell, name)] == id
  }

  /** After a resolve that gives an id the name has it: the one it had, or one that no name of its
      cell had; a resolve fails only for an empty name or a full scope, and nothing else changes. */
  lemma ResolveLeaves(reg: Entries, cell: Option<string>, name: string)
    ensures var (after, reply) := Apply(reg, Resolve(cell, name)); var key := Key(cell, name);
            && after - {key} == reg - {key}
            && (reply.Id? ==> Holds(after, cell, name, reply.id))
            && (reply.Id? ==> if key in reg then reg[key] == reply.id else !Taken(reg, Scope(cell), reply.id))
            && (!reply.Id? ==> after == reg)
            && (!reply.Id? <==> Normal(name) == "" || (key !in reg && forall i :: 2 <= i <= 254 ==> Taken(reg, Scope(cell), i)))
  {
    hide Normal, Key, NextFree, InScope;
    NextFreeIsLeast(reg, Scope(cell));
    var after := Apply(reg, Resolve(cell, name)).0;
    assert after - {Key(cell, name)} == reg - {Key(cell, name)};
  }

  /** After a register that succeeds the name has the id; it fails exactly if another name of the scope
      has it, and nothing else changes. */
  lemma RegisterLeaves(reg: Entries, cell: Option<string>, name: string, id: nat)
    ensures var (after, reply) := Apply(reg, Register(cell, name, id)); var key := Key(cell, name);
            && after - {key} == reg - {key}
            && (reply.Registered? ==> Holds(after, cell, name, id))
            && (!reply.Registered? ==> after == reg && reply == Failed(IdConflict))
            && (!reply.Registered? <==> Taken(reg - {key}, Scope(cell), id))
  {
    hide Normal, Key, InScope;
    var after, key := Apply(reg, Register(cell, name, id)).0, Key(cell, name);
    assert after - {key} == reg - {key};
    if Conflict(reg, Scope(cell), key, id) {
      var k :| k in reg && k != key && reg[k] == id && InScope(k, Scope(cell));
      assert k in reg - {key};
    }
  }

  // ---------------------------------------------------------------------------------------
  // Stability
  // ---------------------------------------------------------------------------------------

  /** An operation changes at most the entry of its target, and resolving never changes one. */
  lemma ApplyFrame(reg: Entries, op: Op, key: string)
    requires key in reg && (op.Resolve? || Target(op) != key)
    ensures key in Apply(reg, op).0 && Apply(reg, op).0[key] == reg[key]
  {
    hide Normal, NextFree, Conflict;
  }

  lemma {:induction false} UntouchedKeyKept(reg: Entries, ops: seq<Op>, key: string)
    requires key in reg
    requires forall i :: 0 <= i < |ops| ==> ops[i].Resolve? || Target(ops[i]) != key
    ensures key in Replay(reg, ops) && Replay(reg, ops)[key] == reg[key]
    decreases |ops|
  {
    hide Apply, Target;
    if ops != [] {
      UntouchedKeyKept(reg, ops[..|ops| - 1], key);
      ApplyFrame(Replay(reg, ops[..|ops| - 1]), ops[|ops| - 1], key);
    }
  }

  lemma ResolveTwice(reg: Entries, reg': Entries, cell: Option<string>, name: string)
    requires Apply(reg, Resolve(cell, name)).1.Id?
    requires var (after, reply) := Apply(reg, Resolve(cell, name));
             Key(cell, name) in reg' && reg'[Key(cell, name)] == after[Key(cell, name)]
    ensures Apply(reg', Resolve(cell, name)) == (reg', Apply(reg, Resolve(cell, name)).1)
  {
    hide Normal, NextFree, Conflict, Key;
  }

  /** A name keeps its id: resolving it again returns the same id, whatever happens to other
      names in between, until the name is registered explicitly or removed. */
  lemma ResolveIsStable(reg: Entries, cell: Option<string>, name: string, ops: seq<Op>)
    requires Apply(reg, Resolve(cell, name)).1.Id?
    requires forall i :: 0 <= i < |ops| ==> ops[i].Resolve? || Target(ops[i]) != Key(cell, name)
    ensures var (after, reply) := Apply(reg, Resolve(cell, name));
            Apply(Replay(after, ops), Resolve(cell, name)) == (Replay(after, ops), reply)
  {
    hide Replay, Normal, NextFree, Conflict, Key, Target;
    var after := Apply(reg, Resolve(cell, name)).0;
    UntouchedKeyKept(after, ops, Key(cell, name));
    ResolveTwice(reg, Replay(after, ops), cell, name);
  }

  /** Removing "cell/name" takes back what resolving a fresh name did, for names in normal form. */
  lemma RemoveUndoesResolve(reg: Entries, cell: string, name: string)
    requires Key(Some(cell), name) !in reg
    requires Normal(cell + "/" + name) == Key(Some(cell), name)
    requires Apply(reg, Resolve(Some(cell), name)).1.Id?
    ensures Apply(Apply(reg, Resolve(Some(cell), name)).0, Remove(cell + "/" + name)) == (reg, Removed(true))
  {
    hide Normal, NextFree, Conflict, Key;
    var reg' := Apply(reg, Resolve(Some(cell), name)).0;
    assert reg' - {Key(Some(cell), name)} == reg;
  }
}
