/**
 Many processes using the registry file at once. Each operation takes the lock on
 registry.lock, loads the file, decides, writes a temporary file, renames it over the registry
 and unlocks; a process may crash or fail to save anywhere in between.

 Two history variables: `log` holds the operations in the order in which they took effect, and
 `began` the length of the log when a process last made a call.
 */
module RegistryProtocol {
  import opened Wrappers
  import opened Registry

  /** What is on disk under one name. A file being written holds an incomplete JSON text. */
  datatype Content = Absent | Partial | Whole(reg: Entries)

  /** Where a process is inside one operation. */
  datatype Stage =
    | Idle
    | Waiting(op: Op)                                 // blocked in flock
    | Locked(op: Op)
    | Loaded(op: Op, reg: Entries)
    | Writing(op: Op, updated: Entries, reply: Reply)     // registry.json.tmp truncated
    | Written(op: Op, updated: Entries, reply: Reply)     // registry.json.tmp complete
    | Leaving(op: Op, reply: Reply)                   // about to drop the guard

  datatype Commit = Commit(pid: nat, op: Op, reply: Reply)

  datatype State = State(file: Content, tmp: Content, lock: Option<nat>, stages: map<nat, Stage>, log: seq<Commit>,
                         began: map<nat, nat>)

  /** `Registry::load`: a missing or unreadable file is an empty registry. */
  function Load(c: Content): Entries {
    if c.Whole? then c.reg else map[]
  }

  function StageOf(s: State, p: nat): Stage {
    if p in s.stages then s.stages[p] else Idle
  }

  datatype Step =
    | Call(pid: nat, op: Op)
    | Acquire(pid: nat)
    | LoadFile(pid: nat)
    | Decide(pid: nat)
    | WriteTmp(pid: nat)
    | Rename(pid: nat)
    | SaveError(pid: nat)
    | Return(pid: nat)
    | Crash(pid: nat)

  function Goto(s: State, p: nat, st: Stage): State {
    s.(stages := s.stages[p := st])
  }

  /** One step; a step that is not enabled does nothing. */
  function Next(s: State, e: Step): State {
    var p := e.pid;
    var st := StageOf(s, p);
    match e
    case Call(_, op) => if st.Idle? then Goto(s, p, Waiting(op)).(began := s.began[p := |s.log|]) else s
    case Acquire(_) => if st.Waiting? && s.lock.None? then Goto(s, p, Locked(st.op)).(lock := Some(p)) else s
    case LoadFile(_) => if st.Locked? then Goto(s, p, Loaded(st.op, Load(s.file))) else s
    case Decide(_) =>
      if !st.Loaded? then s
      else
        var (updated, reply) := Apply(st.reg, st.op);
        if updated == st.reg then Goto(s, p, Leaving(st.op, reply)).(log := s.log + [Commit(p, st.op, reply)])
        else Goto(s, p, Writing(st.op, updated, reply)).(tmp := Partial)
    case WriteTmp(_) =>
      if st.Writing? then Goto(s, p, Written(st.op, st.updated, st.reply)).(tmp := Whole(st.updated)) else s
    case Rename(_) =>
      if st.Written? then
        Goto(s, p, Leaving(st.op, st.reply)).(file := s.tmp, tmp := Absent, log := s.log + [Commit(p, st.op, st.reply)])
      else s
    case SaveError(_) =>
      if st.Writing? || st.Written? then Goto(s, p, Leaving(st.op, Failed(SaveFailed))) else s
    case Return(_) => if st.Leaving? then Goto(s, p, Idle).(lock := None) else s
    case Crash(_) => Goto(s, p, Idle).(lock := if s.lock == Some(p) then None else s.lock)
  }

  function Run(s: State, es: seq<Step>): State
    decreases |es|
  {
    if es == [] then s else Run(Next(s, es[0]), es[1..])
  }

  function Init(): State {
    State(Absent, Absent, None, map[], [], map[])
  }

  function Ops(log: seq<Commit>): seq<Op> {
    seq(|log|, i requires 0 <= i < |log| => log[i].op)
  }

  // ---------------------------------------------------------------------------------------
  // Every run is a serial run of the operations in the log
  // ---------------------------------------------------------------------------------------

  predicate Inside(st: Stage) {
    !st.Idle? && !st.Waiting?
  }

  /** What the process holding the lock knows about the disk. */
  ghost predicate HolderOk(st: Stage, file: Content, tmp: Content) {
    match st
    case Loaded(_, reg) => reg == Load(file)
    case Writing(op, updated, reply) => (updated, reply) == Apply(Load(file), op)
    case Written(op, updated, reply) => (updated, reply) == Apply(Load(file), op) && tmp == Whole(updated)
    case _ => true
  }

  /** Each commit got the reply it would have got in a serial run of those before it. */
  ghost predicate Serial(log: seq<Commit>) {
    forall i :: 0 <= i < |log| ==> log[i].reply == Apply(Replay(map[], Ops(log[..i])), log[i].op).1
  }

  ghost predicate Inv(s: State) {
    && s.file != Partial
    && Load(s.file) == Replay(map[], Ops(s.log))
    && Serial(s.log)
    && (forall p :: p in s.stages ==>
          (Inside(s.stages[p]) ==> s.lock == Some(p) && HolderOk(s.stages[p], s.file, s.tmp)))
  }

  lemma LogGrows(log: seq<Commit>, c: Commit)
    requires Serial(log) && c.reply == Apply(Replay(map[], Ops(log)), c.op).1
    ensures Serial(log + [c])
    ensures Replay(map[], Ops(log + [c])) == Apply(Replay(map[], Ops(log)), c.op).0
  {
    hide Apply;
    var l := log + [c];
    assert Ops(l)[..|log|] == Ops(log);
    assert forall i :: 0 <= i <= |log| ==> l[..i] == log[..i];
    assert log[..|log|] == log;
  }

  lemma NextInv(s: State, e: Step)
    requires Inv(s)
    ensures Inv(Next(s, e))
  {
    hide Apply, Replay, Serial, Ops;
    var p := e.pid;
    var st := StageOf(s, p);
    match e
    case Decide(_) =>
      if st.Loaded? {
        var (updated, reply) := Apply(st.reg, st.op);
        if updated == st.reg {
          LogGrows(s.log, Commit(p, st.op, reply));
        }
      }
    case Rename(_) =>
      if st.Written? {
        LogGrows(s.log, Commit(p, st.op, st.reply));
      }
    case _ =>
  }

  lemma InitInv()
    ensures Inv(Init())
  {
  }

  lemma {:induction false} RunInv(s: State, es: seq<Step>)
    requires Inv(s)
    ensures Inv(Run(s, es))
    decreases |es|
  {
    hide Inv, Next;
    if es != [] {
      NextInv(s, es[0]);
      RunInv(Next(s, es[0]), es[1..]);
    }
  }

  /** In every run of any number of processes, with crashes and failed saves anywhere: the
      registry file is never partial, and it holds what a serial run of the committed
      operations gives, each of which got its serial reply. */
  lemma Linearizable(es: seq<Step>)
    ensures var s := Run(Init(), es);
            s.file != Partial && Load(s.file) == Replay(map[], Ops(s.log)) && Serial(s.log)
  {
    RunInv(Init(), es);
  }

  /** At most one process is between taking the lock and giving it back. */
  lemma MutualExclusion(es: seq<Step>, p: nat, q: nat)
    ensures var s := Run(Init(), es); Inside(StageOf(s, p)) && Inside(StageOf(s, q)) ==> p == q
  {
    hide Next, Replay, Serial;
    InitInv();
    RunInv(Init(), es);
  }

  /** A step replaces the stored registry by the result of one operation or leaves it alone, and
      the log only grows: a crash loses nothing that was committed. */
  lemma OldOrNew(s: State, e: Step)
    requires Inv(s)
    ensures var t := Next(s, e);
            || (t.file == s.file && s.log <= t.log)
            || (exists c :: t.log == s.log + [c] && Load(t.file) == Apply(Load(s.file), c.op).0)
  {
    hide Apply, Replay, Serial, Ops;
    var st := StageOf(s, e.pid);
    if e.Rename? && st.Written? {
      assert Next(s, e).log == s.log + [Commit(e.pid, st.op, st.reply)];
    }
  }

  ghost predicate NoneSince(log: seq<Commit>, from: nat, p: nat) {
    forall j :: from <= j < |log| ==> log[j].pid != p
  }

  ghost predicate OneSince(log: seq<Commit>, from: nat, c: Commit) {
    exists i :: from <= i < |log| && log[i] == c && forall j :: from <= j < |log| && j != i ==> log[j].pid != c.pid
  }

  /** What a call has committed since it began: nothing on the way, and on leaving exactly one entry
      with its own operation and reply, or nothing if saving failed. */
  ghost predicate CallOk(st: Stage, p: nat, log: seq<Commit>, from: nat) {
    match st
    case Idle => true
    case Leaving(op, reply) =>
      if reply == Failed(SaveFailed) then NoneSince(log, from, p) else OneSince(log, from, Commit(p, op, reply))
    case Writing(_, _, reply) => NoneSince(log, from, p) && reply != Failed(SaveFailed)
    case Written(_, _, reply) => NoneSince(log, from, p) && reply != Failed(SaveFailed)
    case _ => NoneSince(log, from, p)
  }

  ghost predicate CallsOk(s: State) {
    forall p :: p in s.stages && !s.stages[p].Idle? ==>
      p in s.began && s.began[p] <= |s.log| && CallOk(s.stages[p], p, s.log, s.began[p])
  }

  lemma NeverSaveFailed(reg: Entries, op: Op)
    ensures Apply(reg, op).1 != Failed(SaveFailed)
  {
    hide Normal, NextFree, Conflict, Key;
  }

  /** A commit of p completes its own call and leaves the others as they are. */
  lemma CommitOwn(log: seq<Commit>, from: nat, c: Commit)
    requires from <= |log| && NoneSince(log, from, c.pid)
    ensures OneSince(log + [c], from, c)
  {
    var i := |log|;
    assert (log + [c])[i] == c;
  }

  lemma CommitOther(st: Stage, p: nat, log: seq<Commit>, from: nat, c: Commit)
    requires from <= |log| && CallOk(st, p, log, from) && c.pid != p
    ensures CallOk(st, p, log + [c], from)
  {
    if st.Leaving? && st.reply != Failed(SaveFailed) {
      var d := Commit(p, st.op, st.reply);
      var i :| from <= i < |log| && log[i] == d && forall j :: from <= j < |log| && j != i ==> log[j].pid != d.pid;
      assert (log + [c])[i] == d;
    }
  }

  lemma CommitCalls(s: State, c: Commit, t: State)
    requires CallsOk(s) && StageOf(s, c.pid) != Idle && NoneSince(s.log, s.began[c.pid], c.pid)
    requires c.reply != Failed(SaveFailed)
    requires t.log == s.log + [c] && t.began == s.began && t.stages == s.stages[c.pid := Leaving(c.op, c.reply)]
    ensures CallsOk(t)
  {
    hide CallOk, NoneSince, OneSince;
    forall p | p in t.stages && !t.stages[p].Idle?
      ensures p in t.began && t.began[p] <= |t.log| && CallOk(t.stages[p], p, t.log, t.began[p])
    {
      if p == c.pid {
        CommitOwn(s.log, s.began[p], c);
        LeavingOk(c, t.log, s.began[p]);
      } else {
        CommitOther(s.stages[p], p, s.log, s.began[p], c);
      }
    }
  }

  lemma LeavingOk(c: Commit, log: seq<Commit>, from: nat)
    requires OneSince(log, from, c) && c.reply != Failed(SaveFailed)
    ensures CallOk(Leaving(c.op, c.reply), c.pid, log, from)
  {
  }

  lemma NextCalls(s: State, e: Step)
    requires CallsOk(s)
    ensures CallsOk(Next(s, e))
  {
    hide Apply, OneSince;
    var p := e.pid;
    var st := StageOf(s, p);
    match e
    case Decide(_) =>
      if st.Loaded? {
        NeverSaveFailed(st.reg, st.op);
        var (updated, reply) := Apply(st.reg, st.op);
        if updated == st.reg {
          CommitCalls(s, Commit(p, st.op, reply), Next(s, e));
        }
      }
    case Rename(_) =>
      if st.Written? {
        CommitCalls(s, Commit(p, st.op, st.reply), Next(s, e));
      }
    case _ =>
  }

  /** In every run a call that returns was committed exactly once, with its operation and its reply,
      after it was made, or not at all if its reply is that saving failed. */
  lemma {:induction false} RepliesAreCommitted(s: State, es: seq<Step>)
    requires CallsOk(s)
    ensures CallsOk(Run(s, es))
    ensures CallsOk(Init())
    decreases |es|
  {
    hide CallsOk, Next;
    assert CallsOk(Init()) by { NoCalls(); }
    if es != [] {
      NextCalls(s, es[0]);
      RepliesAreCommitted(Next(s, es[0]), es[1..]);
    }
  }

  lemma NoCalls()
    ensures CallsOk(Init())
  {
  }

  // ---------------------------------------------------------------------------------------
  // What the lock is for
  // ---------------------------------------------------------------------------------------

  /** In every run, names of one cell hold distinct ids, if the operations are well-scoped. */
  lemma RunKeepsDistinct(es: seq<Step>)
    requires forall i :: 0 <= i < |es| && es[i].Call? ==> WellScoped(es[i].op)
    ensures Distinct(Load(Run(Init(), es).file))
  {
    hide Next, Replay, Serial, Apply, WellScoped, Run;
    var s := Run(Init(), es);
    InitInv();
    RunInv(Init(), es);
    LoggedWereCalled(Init(), es);
    assert forall i :: 0 <= i < |s.log| ==> Ops(s.log)[i] == s.log[i].op;
    ReplayKeepsDistinct(map[], Ops(s.log));
  }

  /** So they do if no cell, and no name outside cells, holds a slash. */
  lemma SlashFreeRunsKeepDistinct(es: seq<Step>)
    requires forall i :: 0 <= i < |es| && es[i].Call? ==> SlashFreeOp(es[i].op)
    ensures Distinct(Load(Run(Init(), es).file))
  {
    hide Run, WellScoped, SlashFreeOp, Distinct;
    forall i | 0 <= i < |es| && es[i].Call?
      ensures WellScoped(es[i].op)
    {
      SlashFreeIsWellScoped(es[i].op);
    }
    RunKeepsDistinct(es);
  }

  ghost predicate AllWellScoped(s: State) {
    && (forall i :: 0 <= i < |s.log| ==> WellScoped(s.log[i].op))
    && (forall p :: p in s.stages && !s.stages[p].Idle? ==> WellScoped(s.stages[p].op))
  }

  lemma {:induction false} LoggedWereCalled(s: State, es: seq<Step>)
    requires AllWellScoped(s) && forall i :: 0 <= i < |es| && es[i].Call? ==> WellScoped(es[i].op)
    ensures AllWellScoped(Run(s, es))
    decreases |es|
  {
    hide Apply, WellScoped;
    if es != [] {
      assert AllWellScoped(Next(s, es[0]));
      assert forall i :: 0 <= i < |es[1..]| ==> es[1..][i] == es[i + 1];
      LoggedWereCalled(Next(s, es[0]), es[1..]);
    }
  }

  /** The id an operation has given to its name. */
  function Assigned(op: Op, reply: Reply): Option<nat> {
    match op
    case Resolve(_, _) => if reply.Id? then Some(reply.id) else None
    case Register(_, _, id) => if reply.Registered? then Some(id) else None
    case Remove(_) => None
  }

  /** No completed assignment is lost: once a resolve or a register of a name has succeeded, the stored
      registry has its id, as long as the operations committed since do not register or remove it. */
  lemma AssignmentSurvives(es: seq<Step>, i: nat)
    requires var s := Run(Init(), es);
             && i < |s.log| && Assigned(s.log[i].op, s.log[i].reply).Some?
             && forall j :: i < j < |s.log| ==> s.log[j].op.Resolve? || Target(s.log[j].op) != Target(s.log[i].op)
    ensures var s := Run(Init(), es);
            var key := Target(s.log[i].op);
            key in Load(s.file) && Some(Load(s.file)[key]) == Assigned(s.log[i].op, s.log[i].reply)
  {
    hide Next, Run, Apply, Target, Replay, Assigned;
    var s := Run(Init(), es);
    InitInv();
    RunInv(Init(), es);
    var ops := Ops(s.log);
    assert Ops(s.log[..i]) == ops[..i];
    assert s.log[i].reply == Apply(Replay(map[], ops[..i]), ops[i]).1;
    AssignedKeyKept(ops, i);
  }

  lemma AssignedKeyKept(ops: seq<Op>, i: nat)
    requires i < |ops| && Assigned(ops[i], Apply(Replay(map[], ops[..i]), ops[i]).1).Some?
    requires forall j :: i < j < |ops| ==> ops[j].Resolve? || Target(ops[j]) != Target(ops[i])
    ensures var key := Target(ops[i]);
            && key in Replay(map[], ops)
            && Some(Replay(map[], ops)[key]) == Assigned(ops[i], Apply(Replay(map[], ops[..i]), ops[i]).1)
  {
    hide Apply, Target, Assigned;
    var before := Replay(map[], ops[..i]);
    OperationAssigns(before, ops[i]);
    assert ops[..i + 1][..i] == ops[..i];
    assert Replay(map[], ops[..i + 1]) == Apply(before, ops[i]).0;
    ReplaySplit(map[], ops, i + 1);
    UntouchedKeyKept(Apply(before, ops[i]).0, ops[i + 1..], Target(ops[i]));
  }

  lemma OperationAssigns(reg: Entries, op: Op)
    requires Assigned(op, Apply(reg, op).1).Some?
    ensures var (reg', reply) := Apply(reg, op); Target(op) in reg' && Some(reg'[Target(op)]) == Assigned(op, reply)
  {
    hide Normal, NextFree, Key, Conflict, Apply;
    match op
    case Resolve(cell, name) => ResolveLeaves(reg, cell, name);
    case Register(cell, name, id) => RegisterLeaves(reg, cell, name, id);
    case Remove(_) =>
  }

  lemma {:induction false} ReplaySplit(reg: Entries, ops: seq<Op>, k: nat)
    requires k <= |ops|
    ensures Replay(reg, ops) == Replay(Replay(reg, ops[..k]), ops[k..])
    decreases |ops|
  {
    hide Apply;
    if k == |ops| {
      assert ops[..k] == ops;
    } else {
      var n := |ops| - 1;
      ReplaySplit(reg, ops[..n], k);
      assert ops[..n][..k] == ops[..k] && ops[..n][k..] == ops[k..][..n - k];
      assert ops[k..][n - k] == ops[n];
    }
  }

  // ---------------------------------------------------------------------------------------
  // A call that nothing disturbs
  // ---------------------------------------------------------------------------------------

  /** The steps of one call of process p, one after the other. */
  function Undisturbed(s: State, p: nat, op: Op): State {
    var locked := Next(Next(s, Call(p, op)), Acquire(p));
    var decided := Next(Next(locked, LoadFile(p)), Decide(p));
    Next(Next(Next(decided, WriteTmp(p)), Rename(p)), Return(p))
  }

  lemma CallLoads(s: State, p: nat, op: Op)
    requires StageOf(s, p).Idle? && s.lock.None?
    ensures var t := Next(Next(Next(s, Call(p, op)), Acquire(p)), LoadFile(p));
            StageOf(t, p) == Loaded(op, Load(s.file)) && t.file == s.file && t.log == s.log && t.lock == Some(p)
  {
    hide Apply, Load;
  }

  lemma DecisionIsSaved(s: State, p: nat)
    requires StageOf(s, p).Loaded?
    ensures var st := StageOf(s, p); var t := Next(Next(Next(s, Decide(p)), WriteTmp(p)), Rename(p)); var (after,
            reply) := Apply(st.reg, st.op);
            && StageOf(t, p) == Leaving(st.op, reply) && t.log == s.log + [Commit(p, st.op, reply)]
            && (if after == st.reg then t.file == s.file else t.file == Whole(after))
  {
    hide Apply, Load;
  }

  /** It takes effect: the stored registry is that of the operation, the reply is committed, and the lock is
      free again. */
  lemma UndisturbedCall(s: State, p: nat, op: Op)
    requires StageOf(s, p).Idle? && s.lock.None?
    ensures var t := Undisturbed(s, p, op); var (after, reply) := Apply(Load(s.file), op);
            && Load(t.file) == after && t.log == s.log + [Commit(p, op, reply)]
            && t.lock.None? && StageOf(t, p).Idle?
  {
    hide Apply, Next;
    CallLoads(s, p, op);
    var loaded := Next(Next(Next(s, Call(p, op)), Acquire(p)), LoadFile(p));
    DecisionIsSaved(loaded, p);
    Returns(Next(Next(Next(loaded, Decide(p)), WriteTmp(p)), Rename(p)), p);
  }

  lemma Returns(s: State, p: nat)
    requires StageOf(s, p).Leaving?
    ensures var t := Next(s, Return(p)); t.file == s.file && t.log == s.log && t.lock.None? && StageOf(t, p).Idle?
  {
  }
}
