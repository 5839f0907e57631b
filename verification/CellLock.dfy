/**
 The registry of cells. Its lock is taken on the registry file itself, and saving renames a new
 file over that one, so that a process that waited on the old file and a newcomer that opened
 the new one can both be inside. The state machine tells files (inodes) from their name.
 */
module CellLock {
  import opened Wrappers
  import opened Registry

  const MIN_CELL_ID: nat := 1

  datatype Stage =
    | Idle
    | Opened(ino: nat, name: string)                  // opened the path, waiting in flock
    | Entered(ino: nat, name: string)                 // flock granted
    | Loaded(ino: nat, name: string, reg: Entries)
    | Done(ino: nat)                                  // saved or failed, lock still held

  /** `path` is the inode that cell-registry.json names; `granted` lists the cells created. */
  datatype State = State(path: nat, files: map<nat, Entries>, locks: map<nat, nat>, stages: map<nat, Stage>,
                         next: nat, granted: seq<(string, nat)>)

  datatype Step =
    | Open(pid: nat, name: string)
    | Grant(pid: nat)
    | LoadFile(pid: nat)
    | Save(pid: nat)
    | Leave(pid: nat)

  function StageOf(s: State, p: nat): Stage {
    if p in s.stages then s.stages[p] else Idle
  }

  function Current(s: State): Entries {
    if s.path in s.files then s.files[s.path] else map[]
  }

  /** `create_cell` on the loaded registry: the id it assigns, if any. */
  function Create(reg: Entries, name: string): Option<nat> {
    if name in reg then None else FirstFree(reg.Values, MIN_CELL_ID)
  }

  function Next(s: State, e: Step): State {
    var p := e.pid;
    var st := StageOf(s, p);
    match e
    case Open(_, name) => if st.Idle? then s.(stages := s.stages[p := Opened(s.path, name)]) else s
    case Grant(_) =>
      if st.Opened? && st.ino !in s.locks then
        s.(stages := s.stages[p := Entered(st.ino, st.name)], locks := s.locks[st.ino := p])
      else s
    case LoadFile(_) =>
      if st.Entered? then s.(stages := s.stages[p := Loaded(st.ino, st.name, Current(s))]) else s
    case Save(_) =>
      if !st.Loaded? then s
      else
        var s1 := s.(stages := s.stages[p := Done(st.ino)]);
        (match Create(st.reg, st.name)
         case None => s1
         case Some(id) =>
           s1.(path := s.next, next := s.next + 1, files := s.files[s.next := st.reg[st.name := id]],
               granted := s.granted + [(st.name, id)]))
    case Leave(_) =>
      if st.Done? then s.(stages := s.stages[p := Idle], locks := s.locks - {st.ino}) else s
  }

  function Run(s: State, es: seq<Step>): State
    decreases |es|
  {
    if es == [] then s else Run(Next(s, es[0]), es[1..])
  }

  function Init(): State {
    State(0, map[], map[], map[], 1, [])
  }

  /** No two cells share an id, and every cell created is still in the registry. */
  ghost predicate RightRegistry(reg: Entries, granted: seq<(string, nat)>) {
    && (forall k, l :: k in reg && l in reg && k != l ==> reg[k] != reg[l])
    && (forall i :: 0 <= i < |granted| ==> granted[i].0 in reg && reg[granted[i].0] == granted[i].1)
  }

  ghost predicate Good(s: State) {
    RightRegistry(Current(s), s.granted)
  }

  /** Every grant is on the file the path names at that moment. */
  ghost predicate GrantsAreCurrent(s: State, es: seq<Step>)
    decreases |es|
  {
    es != [] ==>
      && (es[0].Grant? && StageOf(s, es[0].pid).Opened? && StageOf(s, es[0].pid).ino !in s.locks ==>
            StageOf(s, es[0].pid).ino == s.path)
      && GrantsAreCurrent(Next(s, es[0]), es[1..])
  }

  predicate Holds(st: Stage) {
    st.Entered? || st.Loaded? || st.Done?
  }

  ghost predicate Inv(s: State) {
    && s.path < s.next
    && (forall p :: p in s.stages && Holds(s.stages[p]) ==>
          s.stages[p].ino in s.locks && s.locks[s.stages[p].ino] == p)
    && (forall p :: p in s.stages && (s.stages[p].Entered? || s.stages[p].Loaded?) ==> s.stages[p].ino == s.path)
    && (forall p :: p in s.stages && s.stages[p].Loaded? ==> s.stages[p].reg == Current(s))
  }

  /** A new cell gets the least id of 1..=254 that no cell has; there is none exactly if the cell exists
      or all are taken. */
  lemma CreateLeaves(reg: Entries, name: string)
    ensures match Create(reg, name)
            case Some(id) => name !in reg && 1 <= id <= 254 && id !in reg.Values && forall i :: 1 <= i < id ==>
              i in reg.Values
            case None => name in reg || forall i :: 1 <= i <= 254 ==> i in reg.Values
  {
  }

  /** The steps of one creation by process p, one after the other. */
  function Undisturbed(s: State, p: nat, name: string): State {
    Next(Next(Next(Next(Next(s, Open(p, name)), Grant(p)), LoadFile(p)), Save(p)), Leave(p))
  }

  lemma EntersAndLoads(s: State, p: nat, name: string)
    requires StageOf(s, p).Idle? && s.path !in s.locks
    ensures var t := Next(Next(Next(s, Open(p, name)), Grant(p)), LoadFile(p));
            && t.stages == s.stages[p := Loaded(s.path, name, Current(s))] && t.locks == s.locks[s.path := p]
            && Current(t) == Current(s) && t.granted == s.granted
  {
  }

  lemma SavesAndLeaves(s: State, p: nat)
    requires StageOf(s, p).Loaded?
    ensures var st := StageOf(s, p); var t := Next(Next(s, Save(p)), Leave(p)); var id := Create(st.reg, st.name);
            && Current(t) == (if id.Some? then st.reg[st.name := id.value] else Current(s))
            && t.granted == s.granted + (if id.Some? then [(st.name, id.value)] else [])
            && t.locks == s.locks - {st.ino} && StageOf(t, p).Idle?
  {
    hide Create;
  }

  /** A creation that nothing disturbs adds the cell, if it can be created, and nothing else. */
  lemma UndisturbedCreate(s: State, p: nat, name: string)
    requires StageOf(s, p).Idle? && s.path !in s.locks
    ensures var t := Undisturbed(s, p, name); var id := Create(Current(s), name);
            && Current(t) == (if id.Some? then Current(s)[name := id.value] else Current(s))
            && t.granted == s.granted + (if id.Some? then [(name, id.value)] else [])
            && t.locks == s.locks && StageOf(t, p).Idle?
  {
    hide Create, Next, Current;
    EntersAndLoads(s, p, name);
    SavesAndLeaves(Next(Next(Next(s, Open(p, name)), Grant(p)), LoadFile(p)), p);
    assert s.locks[s.path := p] - {s.path} == s.locks;
  }

  lemma CreateIsRight(reg: Entries, granted: seq<(string, nat)>, name: string)
    requires RightRegistry(reg, granted) && Create(reg, name).Some?
    ensures var id := Create(reg, name).value; RightRegistry(reg[name := id], granted + [(name, id)])
  {
    assert forall k :: k in reg ==> reg[k] in reg.Values;
  }

  lemma NextIsGood(s: State, e: Step)
    requires Inv(s) && Good(s)
    ensures Good(Next(s, e))
  {
    hide RightRegistry, Create;
    var st := StageOf(s, e.pid);
    if e.Save? && st.Loaded? && Create(st.reg, st.name).Some? {
      CreateIsRight(st.reg, s.granted, st.name);
    }
  }

  lemma NextInv(s: State, e: Step)
    requires Inv(s)
    requires e.Grant? && StageOf(s, e.pid).Opened? && StageOf(s, e.pid).ino !in s.locks ==>
             StageOf(s, e.pid).ino == s.path
    ensures Inv(Next(s, e))
  {
    hide Create;
  }

  /** If every lock is granted on the current file, the registry is right in every run. */
  lemma {:induction false} CurrentGrantsAreSafe(s: State, es: seq<Step>)
    requires Inv(s) && Good(s) && GrantsAreCurrent(s, es)
    ensures Inv(Run(s, es)) && Good(Run(s, es))
    decreases |es|
  {
    hide Inv, Good, Next;
    if es != [] {
      NextInv(s, es[0]);
      NextIsGood(s, es[0]);
      CurrentGrantsAreSafe(Next(s, es[0]), es[1..]);
    }
  }

  /** One process from start to end. */
  function Whole(p: nat, name: string): seq<Step> {
    [Open(p, name), Grant(p), LoadFile(p), Save(p), Leave(p)]
  }

  ghost predicate AllIdle(s: State) {
    s.locks == map[] && forall p :: p in s.stages ==> s.stages[p].Idle?
  }

  function Serial(calls: seq<(nat, string)>): seq<Step> {
    if calls == [] then [] else Whole(calls[0].0, calls[0].1) + Serial(calls[1..])
  }

  /** In particular the registry is right when processes run one after the other. */
  lemma {:induction false} SerialRunsAreSafe(s: State, calls: seq<(nat, string)>)
    requires Inv(s) && Good(s) && AllIdle(s)
    ensures Good(Run(s, Serial(calls)))
    decreases |calls|
  {
    if calls != [] {
      var w := Whole(calls[0].0, calls[0].1);
      WholeIsSafe(s, calls[0].0, calls[0].1);
      RunSplit(s, w, Serial(calls[1..]));
      SerialRunsAreSafe(Run(s, w), calls[1..]);
    }
  }

  lemma WholeIsSafe(s: State, p: nat, name: string)
    requires Inv(s) && Good(s) && AllIdle(s)
    ensures var t := Run(s, Whole(p, name)); Inv(t) && Good(t) && AllIdle(t)
  {
    hide Good, Run;
    var w := Whole(p, name);
    var s3 := Next(Next(Next(s, w[0]), w[1]), w[2]);
    LoadedBy(s, p, name);
    NextIsGood(s3, w[3]);
    FiveSteps(s, w);
    SavedBy(s, s3, p, name);
  }

  lemma LoadedBy(s: State, p: nat, name: string)
    requires Inv(s) && Good(s) && AllIdle(s)
    ensures var t := Next(Next(Next(s, Open(p, name)), Grant(p)), LoadFile(p));
            && t == s.(stages := s.stages[p := Loaded(s.path, name, Current(s))], locks := map[s.path := p])
            && Inv(t) && Good(t)
  {
    hide RightRegistry;
    var s1 := Next(s, Open(p, name));
    var s2 := Next(s1, Grant(p));
    assert s1 == s.(stages := s.stages[p := Opened(s.path, name)]);
    assert s2 == s.(stages := s.stages[p := Entered(s.path, name)], locks := map[s.path := p]);
  }

  lemma SavedBy(s: State, t: State, p: nat, name: string)
    requires Inv(s) && AllIdle(s)
    requires t == s.(stages := s.stages[p := Loaded(s.path, name, Current(s))], locks := map[s.path := p])
    requires Good(Next(t, Save(p)))
    ensures var v := Next(Next(t, Save(p)), Leave(p)); AllIdle(v) && Inv(v) && Good(v)
  {
    hide Create, RightRegistry;
    var u := Next(t, Save(p));
    assert u.stages == s.stages[p := Done(s.path)] && u.locks == map[s.path := p];
    var v := Next(u, Leave(p));
    assert v.locks == map[] && v.stages == s.stages[p := Idle];
  }

  lemma FiveSteps(s: State, w: seq<Step>)
    requires |w| == 5
    ensures Run(s, w) == Next(Next(Next(Next(Next(s, w[0]), w[1]), w[2]), w[3]), w[4])
  {
    hide Next;
    var s1 := Next(s, w[0]);
    var s2 := Next(s1, w[1]);
    var s3 := Next(s2, w[2]);
    var s4 := Next(s3, w[3]);
    assert Run(s, w) == Run(s1, w[1..]);
    assert w[1..][1..] == w[2..];
    assert Run(s1, w[1..]) == Run(s2, w[2..]);
    assert w[2..][1..] == w[3..];
    assert Run(s2, w[2..]) == Run(s3, w[3..]);
    assert w[3..][1..] == w[4..];
    assert Run(s3, w[3..]) == Run(s4, w[4..]);
    assert w[4..][1..] == [];
    assert Run(Next(s4, w[4]), []) == Next(s4, w[4]);
  }

  lemma {:induction false} RunSplit(s: State, a: seq<Step>, b: seq<Step>)
    ensures Run(s, a + b) == Run(Run(s, a), b)
    decreases |a|
  {
    hide Next;
    if a == [] {
      assert a + b == b;
    } else {
      var c := a + b;
      assert c[0] == a[0] && c[1..] == a[1..] + b;
      RunSplit(Next(s, a[0]), a[1..], b);
    }
  }

  const A: Entries := map["a" := 1]

  /** a has saved, b waits on the old file. */
  function AfterA(): State {
    State(1, map[1 := A], map[0 := 0], map[0 := Done(0), 1 := Opened(0, "b")], 2, [("a", 1)])
  }

  /** b is inside on the old file, c on the new one. */
  function BothInside(): State {
    State(1, map[1 := A], map[0 := 1, 1 := 2], map[0 := Idle, 1 := Loaded(0, "b", A), 2 := Entered(1, "c")],
          2, [("a", 1)])
  }

  lemma FirstSteps()
    ensures Run(Init(), [Open(0, "a"), Grant(0), LoadFile(0), Open(1, "b"), Save(0)]) == AfterA()
  {
    hide Run;
    var w := [Open(0, "a"), Grant(0), LoadFile(0), Open(1, "b"), Save(0)];
    FiveSteps(Init(), w);
    var s2 := Next(Next(Init(), w[0]), w[1]);
    assert s2.stages == map[0 := Entered(0, "a")] && s2.locks == map[0 := 0];
    var s4 := Next(Next(s2, w[2]), w[3]);
    assert s4.stages == map[0 := Loaded(0, "a", map[]), 1 := Opened(0, "b")];
    var none: Entries := map[];
    assert none.Values == {};
    assert Create(none, "a") == Some(1);
    assert none["a" := 1] == A;
    assert Next(s4, w[4]).files == map[1 := A];
    assert Next(s4, w[4]).stages == AfterA().stages;
  }

  /** a has left, b is inside, c has opened the new file and locked it. */
  function BothLocked(): State {
    State(1, map[1 := A], map[0 := 1, 1 := 2], map[0 := Idle, 1 := Entered(0, "b"), 2 := Entered(1, "c")],
          2, [("a", 1)])
  }

  lemma MiddleLocks()
    ensures Next(Next(Next(Next(AfterA(), Leave(0)), Grant(1)), Open(2, "c")), Grant(2)) == BothLocked()
  {
    hide Create;
    var s2 := Next(Next(AfterA(), Leave(0)), Grant(1));
    assert s2.locks == map[0 := 1] && s2.stages == map[0 := Idle, 1 := Entered(0, "b")];
    var s4 := Next(Next(s2, Open(2, "c")), Grant(2));
    assert s4.locks == map[0 := 1, 1 := 2] && s4.stages == BothLocked().stages;
  }

  lemma MiddleSteps()
    ensures Run(AfterA(), [Leave(0), Grant(1), Open(2, "c"), Grant(2), LoadFile(1)]) == BothInside()
  {
    hide Run, Create;
    var w := [Leave(0), Grant(1), Open(2, "c"), Grant(2), LoadFile(1)];
    FiveSteps(AfterA(), w);
    MiddleLocks();
    assert Next(BothLocked(), w[4]).stages == BothInside().stages;
  }

  lemma LastSteps()
    ensures var s := Next(Next(Next(BothInside(), LoadFile(2)), Save(1)), Save(2));
            s.granted == [("a", 1), ("b", 2), ("c", 2)] && Current(s) == A["c" := 2]
  {
    assert "a" in A && A["a"] == 1;
    assert A.Values == {1};
    assert Create(A, "b") == Some(2) && Create(A, "c") == Some(2);
    var s1 := Next(BothInside(), LoadFile(2));
    assert s1.stages[2] == Loaded(1, "c", A);
    var s2 := Next(s1, Save(1));
    assert s2.granted == [("a", 1), ("b", 2)] && s2.path == 2;
  }

  /** But with three processes the lock does not protect: b waits on the file that a replaces,
      c opens the new one, both are inside after ten steps, both are given id 2, and b is lost. */
  lemma WaiterAndNewcomer() returns (es: seq<Step>, k: nat)
    ensures k <= |es| && Opens(es) == 3
    ensures var t := Run(Init(), es[..k]);
            Holds(StageOf(t, 1)) && Holds(StageOf(t, 2)) && !StageOf(t, 1).Done? && !StageOf(t, 2).Done?
    ensures var s := Run(Init(), es);
            && s.granted == [("a", 1), ("b", 2), ("c", 2)]
            && "b" !in Current(s)
            && !Good(s)
  {
    hide Next;
    var w1 := [Open(0, "a"), Grant(0), LoadFile(0), Open(1, "b"), Save(0)];
    var w2 := [Leave(0), Grant(1), Open(2, "c"), Grant(2), LoadFile(1)];
    var w3 := [LoadFile(2), Save(1), Save(2)];
    es, k := w1 + (w2 + w3), 10;
    RunSplit(Init(), w1, w2 + w3);
    RunSplit(Init(), w1, w2);
    RunSplit(AfterA(), w2, w3);
    FirstSteps();
    MiddleSteps();
    LastSteps();
    assert es[..k] == w1 + w2;
    OpensSplit(w1, w2 + w3);
    OpensSplit(w2, w3);
    assert Opens(w1) == 2 && Opens(w2) == 1 && Opens(w3) == 0 by { OpensOf(w1, w2, w3); }
    var s1 := Next(BothInside(), w3[0]);
    var s2 := Next(s1, w3[1]);
    assert w3[1..][1..] == [w3[2]] && [w3[2]][1..] == [];
    assert Run(BothInside(), w3) == Run(s1, w3[1..]) == Run(s2, [w3[2]]) == Run(Next(s2, w3[2]), []);
    var s := Run(Init(), es);
    assert s.granted[1] == ("b", 2);
  }

  lemma OpensOf(w1: seq<Step>, w2: seq<Step>, w3: seq<Step>)
    requires w1 == [Open(0, "a"), Grant(0), LoadFile(0), Open(1, "b"), Save(0)]
    requires w2 == [Leave(0), Grant(1), Open(2, "c"), Grant(2), LoadFile(1)] && w3 == [LoadFile(2), Save(1), Save(2)]
    ensures Opens(w1) == 2 && Opens(w2) == 1 && Opens(w3) == 0
  {
    FiveOpens(w1);
    FiveOpens(w2);
    assert w3[1..][1..] == w3[2..] && w3[2..][1..] == [];
    assert Opens(w3[2..]) == 0;
  }

  lemma FiveOpens(w: seq<Step>)
    requires |w| == 5
    ensures Opens(w) == One(w[0]) + One(w[1]) + One(w[2]) + One(w[3]) + One(w[4])
  {
    hide One;
    assert w[1..][1..] == w[2..] && w[2..][1..] == w[3..] && w[3..][1..] == w[4..] && w[4..][1..] == [];
    assert Opens(w[4..]) == One(w[4]);
    assert Opens(w[3..]) == One(w[3]) + Opens(w[4..]);
    assert Opens(w[2..]) == One(w[2]) + Opens(w[3..]);
    assert Opens(w[1..]) == One(w[1]) + Opens(w[2..]);
  }

  // ---------------------------------------------------------------------------------------
  // How many processes are safe
  // ---------------------------------------------------------------------------------------

  function One(e: Step): nat {
    if e.Open? then 1 else 0
  }

  /** How often a process starts in a run. */
  function Opens(es: seq<Step>): nat {
    if es == [] then 0 else One(es[0]) + Opens(es[1..])
  }

  lemma {:induction false} OpensSplit(a: seq<Step>, b: seq<Step>)
    ensures Opens(a + b) == Opens(a) + Opens(b)
    decreases |a|
  {
    hide One;
    if a == [] {
      assert a + b == b;
    } else {
      assert (a + b)[0] == a[0] && (a + b)[1..] == a[1..] + b;
      OpensSplit(a[1..], b);
    }
  }

  predicate Busy(st: Stage) {
    st.Opened? || st.Entered? || st.Loaded?
  }

  /** The processes that wait for the lock or have still to save. */
  function BusyOnes(stages: map<nat, Stage>): set<nat> {
    set p | p in stages && Busy(stages[p])
  }

  ghost predicate LocksOk(stages: map<nat, Stage>, locks: map<nat, nat>) {
    forall p :: p in stages && Holds(stages[p]) ==> stages[p].ino in locks && locks[stages[p].ino] == p
  }

  ghost predicate LoadedOk(stages: map<nat, Stage>, current: Entries) {
    forall p :: p in stages && stages[p].Loaded? ==> stages[p].reg == current
  }

  /** Since the file `start` was current at most two processes have started or may start: a save
      uses up one of them, so that nobody can work beside the other. */
  ghost predicate Pair(s: State, start: nat, left: nat) {
    && start < s.next && s.path < s.next
    && LocksOk(s.stages, s.locks) && LoadedOk(s.stages, Current(s))
    && |BusyOnes(s.stages)| + left + (if s.path == start then 0 else 1) <= 2
    && (s.path == start ==> forall p :: p in s.stages && Busy(s.stages[p]) ==> s.stages[p].ino == start)
  }

  lemma BusyAfter(stages: map<nat, Stage>, p: nat, st: Stage)
    ensures BusyOnes(stages[p := st]) == if Busy(st) then BusyOnes(stages) + {p} else BusyOnes(stages) - {p}
  {
  }

  /** A process that has loaded is the only one. */
  lemma OnlyOneLoaded(s: State, start: nat, left: nat, p: nat, q: nat)
    requires Pair(s, start, left)
    requires p in s.stages && q in s.stages && s.stages[p].Loaded? && s.stages[q].Loaded?
    ensures p == q
  {
    if s.path != start && p != q {
      assert {p, q} <= BusyOnes(s.stages);
      TwoMembers(BusyOnes(s.stages), p, q);
    }
  }

  lemma TwoMembers(s: set<nat>, p: nat, q: nat)
    requires p in s && q in s && p != q
    ensures |s| >= 2
  {
    assert |s - {p}| == |s| - 1 && |s - {p} - {q}| == |s| - 2;
  }

  lemma NextLocks(s: State, e: Step)
    requires LocksOk(s.stages, s.locks)
    ensures var t := Next(s, e); LocksOk(t.stages, t.locks)
  {
    hide Create, Current;
  }

  lemma NextLoaded(s: State, start: nat, left: nat, e: Step)
    requires Pair(s, start, left)
    ensures var t := Next(s, e); LoadedOk(t.stages, Current(t))
  {
    hide Create, BusyOnes, LocksOk;
    var p := e.pid;
    if e.Save? && StageOf(s, p).Loaded? {
      forall q | q in s.stages && s.stages[q].Loaded?
        ensures q == p
      {
        OnlyOneLoaded(s, start, left, p, q);
      }
    }
  }

  /** What a step does to its process: it makes it busy only by an open, on the current file, and moves
      the path only when the process is done. */
  lemma StepShape(s: State, e: Step)
    requires s.path < s.next
    ensures var t := Next(s, e); var was, now := StageOf(s, e.pid), StageOf(t, e.pid);
            && (t.stages == s.stages || t.stages == s.stages[e.pid := now])
            && s.path <= t.path < t.next && s.next <= t.next && (t.path != s.path ==> t.path == s.next)
            && (Busy(now) && !Busy(was) ==> e.Open? && now.ino == s.path)
            && (Busy(now) && Busy(was) ==> now.ino == was.ino)
            && (t.path != s.path ==> Busy(was) && !Busy(now))
  {
    hide Create, Current;
  }

  lemma NextBusy(s: State, start: nat, left: nat, e: Step)
    requires Pair(s, start, left) && One(e) <= left
    ensures var t := Next(s, e);
            && s.path <= t.path < t.next && s.next <= t.next
            && |BusyOnes(t.stages)| + (left - One(e)) + (if t.path == start then 0 else 1) <= 2
            && (t.path == start ==> forall p :: p in t.stages && Busy(t.stages[p]) ==> t.stages[p].ino == start)
  {
    hide Next, Busy, BusyOnes, LocksOk, LoadedOk, Current;
    var p := e.pid;
    var t := Next(s, e);
    StepShape(s, e);
    BusyIs(s.stages, p);
    BusyAfter(s.stages, p, StageOf(t, p));
    assert !Busy(Idle) by { IdleIsFree(); }
    if t.path == start {
      assert s.path == start;
      forall q | q in t.stages && Busy(t.stages[q])
        ensures t.stages[q].ino == start
      {
        assert q != p ==> q in s.stages && s.stages[q] == t.stages[q];
      }
    }
  }

  lemma IdleIsFree()
    ensures !Busy(Idle)
  {
  }

  lemma NextPair(s: State, start: nat, left: nat, e: Step)
    requires Pair(s, start, left) && One(e) <= left
    ensures Pair(Next(s, e), start, left - One(e))
  {
    hide Next, BusyOnes, LocksOk, LoadedOk, Current, Busy;
    NextLocks(s, e);
    NextLoaded(s, start, left, e);
    NextBusy(s, start, left, e);
  }

  lemma BusyIs(stages: map<nat, Stage>, p: nat)
    ensures p in BusyOnes(stages) <==> p in stages && Busy(stages[p])
  {
  }

  lemma PairIsGood(s: State, start: nat, left: nat, e: Step)
    requires Pair(s, start, left) && Good(s)
    ensures Good(Next(s, e))
  {
    hide RightRegistry, Create, BusyOnes;
    var st := StageOf(s, e.pid);
    if e.Save? && st.Loaded? && Create(st.reg, st.name).Some? {
      CreateIsRight(st.reg, s.granted, st.name);
    }
  }

  lemma {:induction false} PairRun(s: State, start: nat, left: nat, es: seq<Step>)
    requires Pair(s, start, left) && Good(s) && Opens(es) <= left
    ensures Good(Run(s, es)) && Pair(Run(s, es), start, left - Opens(es))
    decreases |es|
  {
    hide Pair, Good, Next;
    if es != [] {
      NextPair(s, start, left, es[0]);
      PairIsGood(s, start, left, es[0]);
      PairRun(Next(s, es[0]), start, left - One(es[0]), es[1..]);
    }
  }

  /** Nobody is inside or waiting. */
  ghost predicate Quiet(s: State) {
    s.path < s.next && AllIdle(s)
  }

  lemma QuietIsPair(s: State)
    requires Quiet(s)
    ensures Pair(s, s.path, 2)
  {
    assert BusyOnes(s.stages) == {};
  }

  /** From a quiet state two processes cannot do harm. */
  lemma TwoAreSafe(s: State, es: seq<Step>)
    requires Quiet(s) && Good(s) && Opens(es) <= 2
    ensures Good(Run(s, es))
  {
    hide Pair, Good, Quiet, Run;
    QuietIsPair(s);
    PairRun(s, s.path, 2, es);
  }

  /** Each part of the run starts when everything is quiet, and at most two processes start in it. */
  ghost predicate AtMostTwo(s: State, parts: seq<seq<Step>>)
    decreases |parts|
  {
    parts != [] ==>
      Quiet(s) && Opens(parts[0]) <= 2 && AtMostTwo(Run(s, parts[0]), parts[1..])
  }

  function Parts(s: State, parts: seq<seq<Step>>): State
    decreases |parts|
  {
    if parts == [] then s else Parts(Run(s, parts[0]), parts[1..])
  }

  /** So the registry is right in every run in which at most two processes start between two quiet
      moments. */
  lemma {:induction false} TwoAtATime(s: State, parts: seq<seq<Step>>)
    requires Good(s) && AtMostTwo(s, parts)
    ensures Good(Parts(s, parts))
    decreases |parts|
  {
    hide Good, Quiet, Run, Opens;
    if parts != [] {
      TwoAreSafe(s, parts[0]);
      TwoAtATime(Run(s, parts[0]), parts[1..]);
    }
  }

  /** Two is the exact bound: all runs in which at most n processes start keep the registry right
      exactly if n is at most 2. */
  lemma TwoIsTheBound(n: nat)
    ensures (forall es :: Opens(es) <= n ==> Good(Run(Init(), es))) <==> n <= 2
  {
    hide Good, Run, Opens, Current;
    if n <= 2 {
      forall es | Opens(es) <= n
        ensures Good(Run(Init(), es))
      {
        InitIsGood();
        TwoAreSafe(Init(), es);
      }
    } else {
      var es, k := WaiterAndNewcomer();
      assert Opens(es) <= n && !Good(Run(Init(), es));
    }
  }

  lemma InitIsGood()
    ensures Quiet(Init()) && Good(Init())
  {
  }
}
