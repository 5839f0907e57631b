/**
 What a failed clone leaves behind, and what deleting a clone restores.
 */
module CloneRollback {
  import opened Wrappers
  import opened Text
  import opened ComposeNames
  import opened CloneInstance
  import Registry
  import C = Compose
  import K = ComposeClone
  import R = ComposeRoundTrip
  import E = ComposeEnv

  // ---------------------------------------------------------------------------------------
  // Registry
  // ---------------------------------------------------------------------------------------

  lemma NameTrims(s: string)
    requires s != "" && !IsSpace(s[0]) && !IsSpace(s[|s| - 1])
    ensures Trim(s) == s
  {
    hide IsSpace;
    TrimStartIs(s, 0);
    TrimEndIs(s, |s|);
  }

  lemma LowerTwice(s: string)
    ensures Lower(Lower(s)) == Lower(s)
  {
  }

  lemma LowerAppend(a: string, b: string)
    ensures Lower(a + b) == Lower(a) + Lower(b)
  {
  }

  lemma LowerEdges(s: string)
    requires IsName(s)
    ensures var l := Lower(s); s != "" && l != "" && !IsSpace(l[0]) && !IsSpace(l[|l| - 1]) && !IsSpace(s[0]) && !IsSpace(s[|s| - 1])
  {
  }

  /** The key that is removed is the key that was resolved. */
  lemma KeysAgree(cell: string, name: string)
    requires IsName(cell) && IsName(name)
    ensures Registry.Normal(RegistryKey(cell, name)) == Registry.Key(Some(cell), name)
  {
    hide IsSpace, IsName, Trim, Lower;
    LowerEdges(cell);
    LowerEdges(name);
    NameTrims(cell);
    NameTrims(name);
    var k := RegistryKey(cell, name);
    var c, n := Lower(cell), Lower(name);
    LowerLength(cell);
    LowerLength(name);
    assert k[0] == c[0] && k[|k| - 1] == n[|n| - 1];
    NameTrims(k);
    LowerAppend(c + "/", n);
    LowerAppend(c, "/");
    LowerTwice(cell);
    LowerTwice(name);
    assert Lower("/") == "/" by { LowerSlash(); }
  }

  lemma LowerSlash()
    ensures Lower("/") == "/"
  {
  }

  lemma LowerLength(s: string)
    ensures |Lower(s)| == |s|
  {
  }

  predicate Names(r: Request) {
    IsName(r.cell) && IsName(r.src) && IsName(r.dst)
  }

  predicate FreshKey(w: World, r: Request) {
    Registry.Key(Some(r.cell), r.dst) !in w.reg
  }

  lemma RegistryRestored(w: World, r: Request)
    requires Names(r) && Registry.Apply(w.reg, Registry.Resolve(Some(r.cell), r.dst)).1.Id?
    ensures var reg := Registry.Apply(w.reg, Registry.Resolve(Some(r.cell), r.dst)).0;
            Unregister(reg, Some(RegistryKey(r.cell, r.dst))) == w.reg <==> FreshKey(w, r)
  {
    hide Registry.Normal, Registry.NextFree, Registry.Key, IsName, RegistryKey;
    KeysAgree(r.cell, r.dst);
    var key := Registry.Key(Some(r.cell), r.dst);
    var reg := Registry.Apply(w.reg, Registry.Resolve(Some(r.cell), r.dst)).0;
    assert key in reg && reg - {key} == w.reg - {key};
    if FreshKey(w, r) {
      assert w.reg - {key} == w.reg;
    } else {
      assert key !in w.reg - {key};
    }
  }

  // ---------------------------------------------------------------------------------------
  // Data files
  // ---------------------------------------------------------------------------------------

  function Outside(data: Data, q: string): Data {
    map n | n in data && !StartsWith(n, q) :: data[n]
  }

  ghost predicate NoDirectories(data: Data, q: string) {
    forall n :: n in data && StartsWith(n, q) ==> data[n].Regular?
  }

  ghost predicate NoEntries(data: Data, q: string) {
    forall n :: n in data ==> !StartsWith(n, q)
  }

  lemma TargetStarts(q: string, s: string)
    ensures StartsWith(q + s, q)
  {
  }

  /** Copying touches only names with the new prefix. */
  lemma {:induction false} CopyDataFrame(data: Data, p: string, q: string, order: seq<string>, stop: Stop)
    ensures Outside(CopyData(data, p, q, order, stop), q) == Outside(data, q)
    ensures NoDirectories(data, q) ==> NoDirectories(CopyData(data, p, q, order, stop), q)
    decreases |order|
  {
    if order != [] {
      var n := order[0];
      if !StartsWith(n, p) || n !in data || !data[n].Regular? {
        CopyDataFrame(data, p, q, order[1..], stop);
      } else {
        var target := q + n[|p|..];
        TargetStarts(q, n[|p|..]);
        hide StartsWith;
        if target != n && !(stop.At? && stop.k == 0) {
          CopyDataFrame(CopyFile(data, n, target), p, q, order[1..],
                        if stop.At? then At(stop.k - 1, stop.partial) else Never);
        }
      }
    }
  }

  /** Removing the files with the prefix leaves what stands outside, if there are no directories. */
  lemma DataRestored(data: Data, p: string, q: string, order: seq<string>, stop: Stop)
    requires NoDirectories(data, q)
    ensures var after := CopyData(data, p, q, order, stop);
            after - Files(after, q) == data <==> NoEntries(data, q)
  {
    hide StartsWith, CopyData;
    CopyDataFrame(data, p, q, order, stop);
    var after := CopyData(data, p, q, order, stop);
    assert after - Files(after, q) == Outside(after, q);
    OutsideIsAll(data, q);
  }

  lemma OutsideIsAll(data: Data, q: string)
    ensures Outside(data, q) == data <==> NoEntries(data, q)
  {
    hide StartsWith;
    if Outside(data, q) == data {
      forall n | n in data
        ensures !StartsWith(n, q)
      {
        assert n in Outside(data, q);
      }
    }
  }

  // ---------------------------------------------------------------------------------------
  // The steps, one component at a time
  // ---------------------------------------------------------------------------------------

  function Progress(w: World, r: Request, f: Faults): nat {
    Steps(w, r, f).steps
  }

  /** The first four steps. */
  lemma FrontFacts(w: World, r: Request, f: Faults)
    requires Accepted(w, r)
    ensures var t := Front(w, r, f); var n := t.steps;
            && n in {0, 1, 2, 4} && (t.ok <==> n == 4) && t.w.dbs == w.dbs && t.w.compose == w.compose
               && t.made.db.None?
            && (n == 0 ==> t.w == w && t.made == NOTHING)
            && (n >= 1 ==>
                && Registry.Apply(w.reg, Registry.Resolve(Some(r.cell), r.dst)).1.Id?
                && t.w.reg == Registry.Apply(w.reg, Registry.Resolve(Some(r.cell), r.dst)).0
                && t.made.key == Some(RegistryKey(r.cell, r.dst)))
  {
    hide CopyData, Files, RegistryKey, Registry.Apply, Instances, Prefix;
  }

  lemma FrontFiles(w: World, r: Request, f: Faults)
    requires Accepted(w, r)
    ensures var t := Front(w, r, f); var n := t.steps;
            && (n == 1 ==> t.made.dir.None? && t.w.dirs == if f.left.Some? then w.dirs[r.dst := f.left.value] else w.dirs)
            && (n >= 2 ==> t.made.dir == Some(r.dst) && t.w.dirs == w.dirs[r.dst := w.dirs[r.src]])
            && (n < 4 ==> t.w.data == w.data && t.made.files == {})
            && (n == 4 ==>
                && t.w.data == CopyData(w.data, Prefix(r.cell, r.src), Prefix(r.cell, r.dst), f.order, f.stop)
                && t.made.files == Files(t.w.data, Prefix(r.cell, r.dst)))
  {
    hide CopyData, Files, RegistryKey, Registry.Apply, Instances, Prefix;
  }

  ghost predicate Ready(t: Trial, r: Request) {
    && t.made.db.None? && (t.ok <==> t.steps == 4) && t.steps <= 4 && (t.ok ==> r.dst in t.w.dirs)
  }

  /** The later steps leave registry, data files and the rollback of files alone. */
  lemma LaterKeeps(t: Trial, r: Request, f: Faults, id: nat)
    requires Ready(t, r)
    ensures var u := Later(t, r, f, id);
            && u.w.reg == t.w.reg && u.w.data == t.w.data
            && u.made.key == t.made.key && u.made.dir == t.made.dir && u.made.files == t.made.files
            && t.steps <= u.steps <= 8 && (u.ok <==> u.steps == 8) && (!t.ok ==> u == t)
  {
    hide K.Append, K.Replace, CloneOf, Creatable, DbName;
  }

  lemma LaterDirs(t: Trial, r: Request, f: Faults, id: nat)
    requires Ready(t, r)
    ensures var u := Later(t, r, f, id);
            u.w.dirs - {r.dst} == t.w.dirs - {r.dst} && u.w.dirs.Keys == t.w.dirs.Keys
  {
    hide K.Append, K.Replace, CloneOf, Creatable, DbName;
  }

  lemma LaterDbs(t: Trial, r: Request, f: Faults, id: nat)
    requires Ready(t, r)
    ensures var u := Later(t, r, f, id); var n := u.steps; var d := DbName(r.dst);
            && (n <= 4 ==> u.w.dbs == t.w.dbs && u.made.db.None?)
            && (n == 5 ==> !r.skipDb && u.made.db.None?)
            && (n == 5 ==>
                if Creatable(t.w, r) && f.db == HalfDone then u.w.dbs == t.w.dbs[d := t.w.dbs[DbName(r.src)]]
                else u.w.dbs == t.w.dbs)
            && (n >= 6 ==>
                if r.skipDb then u.w.dbs == t.w.dbs && u.made.db.None?
                else Creatable(t.w, r) && u.w.dbs == t.w.dbs[d := t.w.dbs[DbName(r.src)]] && u.made.db == Some(d))
  {
    hide K.Append, K.Replace, CloneOf, DbName;
  }

  lemma LaterCompose(t: Trial, r: Request, f: Faults, id: nat)
    requires Ready(t, r)
    ensures var u := Later(t, r, f, id); var n := u.steps;
            if n < 7 || r.noCompose then u.w.compose == t.w.compose
            else K.Append(t.w.compose, CloneOf(r, id)) == Some(u.w.compose)
  {
    hide K.Append, K.Replace, CloneOf, Creatable, DbName;
  }

  lemma FrontIsReady(w: World, r: Request, f: Faults)
    requires Accepted(w, r)
    ensures Ready(Front(w, r, f), r)
  {
    hide Front, Accepted;
    FrontFacts(w, r, f);
    FrontFiles(w, r, f);
  }

  lemma RegistryPart(w: World, r: Request, f: Faults)
    requires Accepted(w, r) && Names(r)
    ensures var t := Steps(w, r, f);
            Undone(t.w, t.made, f.pgUp).reg == w.reg <==> (t.steps >= 1 ==> FreshKey(w, r))
    ensures Steps(w, r, f).ok ==>
            (Unregister(Steps(w, r, f).w.reg, Some(RegistryKey(r.cell, r.dst))) == w.reg <==> FreshKey(w, r))
  {
    hide Accepted, Names, FreshKey, RegistryKey, Registry.Apply, VmId, Unregister, Front, Later, Ready;
    FrontFacts(w, r, f);
    FrontIsReady(w, r, f);
    LaterKeeps(Front(w, r, f), r, f, VmId(w.reg, r));
    ReadyFacts(Front(w, r, f), r);
    NothingUnregistered(w.reg);
    if Front(w, r, f).steps >= 1 {
      RegistryRestored(w, r);
    }
  }

  lemma ReadyFacts(t: Trial, r: Request)
    requires Ready(t, r)
    ensures (t.ok <==> t.steps == 4) && t.steps <= 4
  {
  }

  lemma NothingUnregistered(reg: Registry.Entries)
    ensures Unregister(reg, None) == reg
  {
  }

  lemma AcceptedDst(w: World, r: Request)
    requires Accepted(w, r)
    ensures r.dst !in w.dirs && r.src in w.dirs
  {
  }

  lemma DirsPart(w: World, r: Request, f: Faults)
    requires Accepted(w, r)
    ensures var t := Steps(w, r, f);
            Undone(t.w, t.made, f.pgUp).dirs == w.dirs <==> (t.steps == 1 ==> f.left.None?)
    ensures var t := Steps(w, r, f); t.steps >= 2 ==> r.dst in t.w.dirs && t.w.dirs - {r.dst} == w.dirs
  {
    hide Accepted, VmId, Unregister, Front, Later, Ready;
    AcceptedDst(w, r);
    FrontFacts(w, r, f);
    FrontFiles(w, r, f);
    FrontIsReady(w, r, f);
    var t := Front(w, r, f);
    var u := Later(t, r, f, VmId(w.reg, r));
    LaterKeeps(t, r, f, VmId(w.reg, r));
    LaterDirs(t, r, f, VmId(w.reg, r));
    assert w.dirs - {} == w.dirs;
    if t.steps >= 2 {
      assert u.w.dirs - {r.dst} == w.dirs;
      assert r.dst in t.w.dirs.Keys;
    }
  }

  lemma DataPart(w: World, r: Request, f: Faults)
    requires Accepted(w, r) && NoDirectories(w.data, Prefix(r.cell, r.dst))
    ensures var t := Steps(w, r, f);
            Undone(t.w, t.made, f.pgUp).data == w.data <==> (t.steps >= 4 ==> NoEntries(w.data, Prefix(r.cell, r.dst)))
  {
    hide Accepted, VmId, Unregister, Front, Later, Ready, CopyData, Files, NoDirectories, NoEntries, Prefix;
    FrontFacts(w, r, f);
    FrontFiles(w, r, f);
    FrontIsReady(w, r, f);
    var t := Front(w, r, f);
    LaterKeeps(t, r, f, VmId(w.reg, r));
    DataRestored(w.data, Prefix(r.cell, r.src), Prefix(r.cell, r.dst), f.order, f.stop);
    assert w.data - {} == w.data;
  }

  lemma DbPart(w: World, r: Request, f: Faults)
    requires Accepted(w, r)
    ensures var t := Steps(w, r, f);
            Undone(t.w, t.made, f.pgUp).dbs == w.dbs <==>
              && (t.steps == 5 && Creatable(w, r) ==> f.db != HalfDone)
              && (t.steps >= 6 && !r.skipDb ==> f.pgUp)
    ensures var t := Steps(w, r, f);
            t.steps >= 6 ==> if r.skipDb then t.w.dbs == w.dbs else DbName(r.dst) !in w.dbs && t.w.dbs - {DbName(r.dst)} == w.dbs
  {
    hide Accepted, VmId, Unregister, Front, Later, Ready, DbName;
    FrontFacts(w, r, f);
    FrontIsReady(w, r, f);
    var t := Front(w, r, f);
    LaterKeeps(t, r, f, VmId(w.reg, r));
    LaterDbs(t, r, f, VmId(w.reg, r));
    assert w.dbs - {} == w.dbs;
    var d := DbName(r.dst);
    if Creatable(w, r) {
      var dbs := w.dbs[d := w.dbs[DbName(r.src)]];
      assert d in dbs && dbs - {d} == w.dbs && dbs - {} == dbs;
    }
  }

  lemma ComposePart(w: World, r: Request, f: Faults)
    requires Accepted(w, r)
    ensures var t := Steps(w, r, f);
            && (t.w.compose == w.compose <==> t.steps < 7 || r.noCompose)
            && (t.steps >= 7 && !r.noCompose ==>
                K.Append(w.compose, CloneOf(r, VmId(w.reg, r))) == Some(t.w.compose))
  {
    hide Accepted, K.Append, CloneOf, VmId, Front, Later, Ready;
    FrontFacts(w, r, f);
    FrontIsReady(w, r, f);
    LaterCompose(Front(w, r, f), r, f, VmId(w.reg, r));
    AppendGrows(w.compose, CloneOf(r, VmId(w.reg, r)));
  }

  /** An appended block is never empty. */
  lemma AppendGrows(f: C.File, c: K.Clone)
    ensures K.Append(f, c).Some? ==> |K.Append(f, c).value| > |f|
  {
    hide C.Locate, K.CopyBlock, K.Finish;
    C.LocateBounds(f, c.src);
    if C.Locate(f, c.src).Some? {
      var b := C.Locate(f, c.src).value;
      CopyBlockGrows(c, f[b.start..b.end]);
      FinishGrows(c, K.CopyBlock(c, f[b.start..b.end]));
    }
  }

  lemma CopyLineGrows(c: K.Clone, st: K.Copying, l: string, s: string)
    ensures |K.CopyLine(c, st, l, s).out| >= |st.out|
  {
    hide C.HasKey, K.KeyOf, K.IsEnvKey, K.IsLegacyShare, K.IsEnterprise, K.HealthRule, K.KeyRule, K.SeeKeys;
  }

  lemma {:induction false} CopyLinesGrow(c: K.Clone, st: K.Copying, ls: C.File)
    ensures |K.CopyLines(c, st, ls).out| >= |st.out|
    decreases |ls|
  {
    hide K.CopyLine, K.Renamed;
    if ls != [] {
      CopyLineGrows(c, st, ls[0], K.Renamed(c, ls[0]));
      CopyLinesGrow(c, K.CopyLine(c, st, ls[0], K.Renamed(c, ls[0])), ls[1..]);
    }
  }

  lemma CopyBlockGrows(c: K.Clone, ls: C.File)
    requires ls != []
    ensures |K.CopyBlock(c, ls).out| >= 1
  {
    hide K.CopyLine, K.CopyLines, K.Header;
    CopyLineGrows(c, K.START, ls[0], K.Header(c));
    CopyLinesGrow(c, K.CopyLine(c, K.START, ls[0], K.Header(c)), ls[1..]);
  }

  lemma FinishGrows(c: K.Clone, st: K.Copying)
    ensures |K.Finish(c, st)| >= |st.out|
  {
    hide C.NewLine, K.EnvLines, K.HasSystemouts, K.ShareLine, K.Or, K.SharesAt;
    var b1 := K.AddWarmup(c, st.seen, st.out);
    var b2 := K.AddRam(c, st.seen, b1);
    var b3 := K.AddChrs(c, st.seen, b2);
    var b4 := K.AddBalloon(c, st.seen, b3);
    var b5 := K.AddIdle(c, b4);
    assert |b5| >= |b4| >= |b3| >= |b2| >= |b1| >= |st.out|;
    var b6 := K.AddEnv(c, st.seen, b5);
    var b7 := K.AddLegacy(st.share, b6);
    assert |b7| >= |b6| >= |b5|;
  }

  // ---------------------------------------------------------------------------------------
  // Rollback
  // ---------------------------------------------------------------------------------------

  /** When a failing clone leaves nothing behind. The steps are: 1 the registry, 2 the directory,
      3 what follows on it, 4 the data files, 5 the configuration, 6 the database, 7 the compose
      block, 8 the metadata. */
  ghost predicate Clean(w: World, r: Request, f: Faults) {
    var n := Progress(w, r, f);
    && (n >= 1 ==> FreshKey(w, r))
    && (n == 1 ==> f.left.None?)
    && (n >= 4 ==> NoEntries(w.data, Prefix(r.cell, r.dst)))
    && (n == 5 && Creatable(w, r) ==> f.db != HalfDone)
    && (n >= 6 && !r.skipDb ==> f.pgUp)
    && (n >= 7 ==> r.noCompose)
  }

  /** A failing clone gives back the world as it was, exactly if the registry key was not there
      before, a failing copy left no directory, no data file had the prefix of the clone, the
      database was not created by a call that reported an error and could be dropped, and the
      compose block had not been written. */
  lemma RollbackIsExact(w: World, r: Request, f: Faults)
    requires Accepted(w, r) && Names(r) && NoDirectories(w.data, Prefix(r.cell, r.dst))
    requires !Run(w, r, f).1
    ensures Run(w, r, f).0 == w <==> Clean(w, r, f)
  {
    hide Accepted, Names, FreshKey, NoEntries, NoDirectories, Steps, Creatable, Prefix;
    RegistryPart(w, r, f);
    DirsPart(w, r, f);
    DataPart(w, r, f);
    DbPart(w, r, f);
    ComposePart(w, r, f);
  }

  /** Faults that leave nothing half done, with PostgreSQL there for the rollback. */
  ghost predicate Tame(f: Faults) {
    f.left.None? && f.db != HalfDone && f.pgUp
  }

  predicate Resolvable(w: World, r: Request) {
    Registry.Apply(w.reg, Registry.Resolve(Some(r.cell), r.dst)).1.Id?
  }

  /** If nothing goes wrong before it, the compose block is written. */
  predicate WritesBlock(w: World, r: Request) {
    && !r.noCompose && (r.skipDb || Creatable(w, r))
    && K.Append(w.compose, CloneOf(r, VmId(w.reg, r))).Some?
  }

  /** Registry key and data prefix of the clone are unused. */
  ghost predicate NothingStands(w: World, r: Request) {
    FreshKey(w, r) && NoEntries(w.data, Prefix(r.cell, r.dst))
  }

  /** Every failing run with tame faults gives back the world; `metaToo` tells whether saving the
      metadata, the last step, may fail as well. */
  ghost predicate AlwaysUndone(w: World, r: Request, metaToo: bool) {
    forall f: Faults :: Tame(f) && (f.meta ==> metaToo) && !Run(w, r, f).1 ==> Run(w, r, f).0 == w
  }

  function FaultAt(conf: bool): Faults {
    Faults(false, false, None, false, [], Never, conf, Works, false, !conf, true)
  }

  /** A run in which nothing fails before the configuration is rewritten, or before the metadata are
      saved, comes that far. */
  lemma FailingLate(w: World, r: Request, conf: bool)
    requires Accepted(w, r) && Resolvable(w, r)
    ensures var f := FaultAt(conf);
            && Tame(f) && !Run(w, r, f).1 && f.meta == !conf && Progress(w, r, f) >= 4
            && (!conf && WritesBlock(w, r) ==> Progress(w, r, f) >= 7)
  {
    hide CopyData, Files, RegistryKey, Registry.Apply, Instances, Prefix, K.Append, K.Replace, CloneOf, DbName, VmId,
      Undone;
    var f := FaultAt(conf);
    FrontGoes(w, r, f);
    var t := Front(w, r, f);
    FrontFacts(w, r, f);
    FrontIsReady(w, r, f);
    assert r.dst in t.w.dirs && t.ok && t.steps == 4;
    LaterGoes(t, r, f, VmId(w.reg, r));
  }

  lemma FrontGoes(w: World, r: Request, f: Faults)
    requires Accepted(w, r) && Resolvable(w, r) && !f.registry && !f.copy && !f.tidy
    ensures Front(w, r, f).steps == 4
  {
    hide CopyData, Files, RegistryKey, Registry.Apply, Instances, Prefix;
  }

  lemma LaterGoes(t: Trial, r: Request, f: Faults, id: nat)
    requires t.ok && t.steps == 4 && r.dst in t.w.dirs && f.db == Works && !f.compose && f.meta == !f.conf
    ensures var u := Later(t, r, f, id);
            && !u.ok && u.steps >= 4
            && (!f.conf && (r.skipDb || Creatable(t.w, r)) && (r.noCompose || K.Append(t.w.compose, CloneOf(r, id)).Some?) ==>
                u.steps == 7)
  {
    hide K.Append, K.Replace, CloneOf, DbName;
  }

  /** Before the call one can tell whether every failure with tame faults is undone: exactly if no key
      is given out, or key and prefix of the clone are unused and the compose block is not written. */
  lemma RollbackFromTheStart(w: World, r: Request)
    requires Accepted(w, r) && Names(r) && NoDirectories(w.data, Prefix(r.cell, r.dst))
    ensures AlwaysUndone(w, r, true) <==> (Resolvable(w, r) ==> NothingStands(w, r) && !WritesBlock(w, r))
  {
    hide Accepted, Names, Steps, WritesBlock, NoDirectories, Resolvable, Prefix, Clean, FreshKey, NoEntries, Run;
    if AlwaysUndone(w, r, true) && Resolvable(w, r) {
      FailureShows(w, r, false);
    }
    forall f: Faults | Tame(f) && !Run(w, r, f).1 && (Resolvable(w, r) ==> NothingStands(w, r) && !WritesBlock(w, r))
      ensures Run(w, r, f).0 == w
    {
      NothingLeft(w, r, f);
    }
  }

  /** The same for failures before the metadata are saved: the compose block does not matter then. */
  lemma RollbackBeforeMetadata(w: World, r: Request)
    requires Accepted(w, r) && Names(r) && NoDirectories(w.data, Prefix(r.cell, r.dst))
    ensures AlwaysUndone(w, r, false) <==> (Resolvable(w, r) ==> NothingStands(w, r))
  {
    hide Accepted, Names, Steps, WritesBlock, NoDirectories, Resolvable, Prefix, Clean, FreshKey, NoEntries, Run;
    if AlwaysUndone(w, r, false) && Resolvable(w, r) {
      FailureShows(w, r, true);
    }
    forall f: Faults | Tame(f) && !f.meta && !Run(w, r, f).1 && (Resolvable(w, r) ==> NothingStands(w, r))
      ensures Run(w, r, f).0 == w
    {
      NothingLeft(w, r, f);
    }
  }

  /** If the late failure is undone, nothing stood in the way. */
  lemma FailureShows(w: World, r: Request, conf: bool)
    requires Accepted(w, r) && Names(r) && NoDirectories(w.data, Prefix(r.cell, r.dst)) && Resolvable(w, r)
    ensures var f := FaultAt(conf);
            && Tame(f) && !Run(w, r, f).1 && f.meta == !conf
            && (Run(w, r, f).0 == w ==> NothingStands(w, r) && (conf || !WritesBlock(w, r)))
  {
    hide Accepted, Names, Steps, NoDirectories, Resolvable, Prefix, FreshKey, K.Append, Creatable, VmId, CloneOf,
      Run, Tame;
    FailingLate(w, r, conf);
    RollbackIsExact(w, r, FaultAt(conf));
  }

  lemma NothingLeft(w: World, r: Request, f: Faults)
    requires Accepted(w, r) && Names(r) && NoDirectories(w.data, Prefix(r.cell, r.dst))
    requires Tame(f) && !Run(w, r, f).1
    requires Resolvable(w, r) ==> NothingStands(w, r) && (f.meta ==> !WritesBlock(w, r))
    ensures Run(w, r, f).0 == w
  {
    hide Accepted, Names, NoDirectories, Prefix, FreshKey, K.Append, Creatable, VmId, CloneOf, Run, Registry.Apply;
    hide Steps;
    HowFar(w, r, f);
    RollbackIsExact(w, r, f);
  }

  /** How far a failing run can come. */
  lemma HowFar(w: World, r: Request, f: Faults)
    requires Accepted(w, r) && !Run(w, r, f).1
    ensures Progress(w, r, f) >= 1 ==> Resolvable(w, r)
    ensures Progress(w, r, f) >= 7 ==> f.meta && (r.noCompose || WritesBlock(w, r))
  {
    hide Accepted, VmId, Front, Later, Ready, Creatable, K.Append, CloneOf, Undone;
    FrontFacts(w, r, f);
    FrontIsReady(w, r, f);
    var t := Front(w, r, f);
    LaterKeeps(t, r, f, VmId(w.reg, r));
    LaterDbs(t, r, f, VmId(w.reg, r));
    LaterCompose(t, r, f, VmId(w.reg, r));
    LastStep(t, r, f, VmId(w.reg, r));
    ReadyFacts(t, r);
    assert Creatable(t.w, r) == Creatable(w, r) by { SameDbs(t.w, w, r); }
  }

  lemma SameDbs(v: World, w: World, r: Request)
    requires v.dbs == w.dbs
    ensures Creatable(v, r) == Creatable(w, r)
  {
  }

  lemma LastStep(t: Trial, r: Request, f: Faults, id: nat)
    requires Ready(t, r)
    ensures var u := Later(t, r, f, id); u.steps == 7 ==> f.meta
  {
    hide K.Append, K.Replace, CloneOf, Creatable, DbName;
  }

  /** A rollback that is not exact: a registry key that an earlier instance of the name left behind is
      taken for the clone's own and removed when the copy fails. */
  lemma StaleKeyIsLost() returns (w: World, r: Request, f: Faults)
    ensures Accepted(w, r) && !Run(w, r, f).1 && Run(w, r, f).0 != w
  {
    r := Request("a", "b", "c", "", true, true, C.Resources(None, None, None), None, None, false, false, "");
    var key := Registry.Key(Some("c"), "b");
    assert "a"[0] != "b"[0];
    w := World(map[key := 2], map["a" := Dir("", None)], map[], map[], []);
    f := Faults(false, true, None, false, [], Never, false, Works, false, false, true);
    assert |Instances(w.dirs)| <= 1 by { FewInstances(w.dirs, "a"); }
    assert Names(r) by { LetterNames(); }
    assert Registry.Normal("b") != "" by { NormalLetter(); }
    CopyFails(w, r, f);
    assert NoDirectories(w.data, Prefix(r.cell, r.dst));
    hide Accepted, Names, Run, NoDirectories, Steps;
    RollbackIsExact(w, r, f);
  }

  lemma FewInstances(dirs: map<string, Dir>, name: string)
    requires dirs.Keys == {name}
    ensures |Instances(dirs)| <= 1
  {
    hide IsTemplate;
    assert Instances(dirs) == if IsTemplate(name) then {} else {name};
  }

  lemma LetterNames()
    ensures IsName("a") && IsName("b") && IsName("c")
  {
  }

  lemma NormalLetter()
    ensures Registry.Normal("b") != ""
  {
    LetterNames();
    LowerEdges("b");
    NameTrims("b");
    LowerLength("b");
  }

  lemma CopyFails(w: World, r: Request, f: Faults)
    requires Accepted(w, r) && f.copy && !f.registry && !FreshKey(w, r) && Registry.Normal(r.dst) != ""
    ensures Progress(w, r, f) == 1 && !Steps(w, r, f).ok
  {
    hide Instances, Registry.Normal, Registry.Key, RegistryKey;
  }

  // ---------------------------------------------------------------------------------------
  // Clone and delete
  // ---------------------------------------------------------------------------------------

  lemma OkMeansAllSteps(w: World, r: Request, f: Faults)
    requires Accepted(w, r)
    ensures Steps(w, r, f).ok <==> Steps(w, r, f).steps == 8
  {
    hide Front, Later, Ready, VmId, Accepted;
    FrontIsReady(w, r, f);
    LaterKeeps(Front(w, r, f), r, f, VmId(w.reg, r));
  }

  /** Nothing of another instance stood where the clone is. */
  ghost predicate Unused(w: World, r: Request) {
    NothingStands(w, r) && (r.skipDb ==> DbName(r.dst) !in w.dbs)
  }

  lemma DeleteParts(w: World, r: Request, f: Faults)
    requires Accepted(w, r) && Names(r) && Run(w, r, f).1
    ensures Delete(Run(w, r, f).0, r.cell, r.dst, true, true).Some?
    ensures var d := Delete(Run(w, r, f).0, r.cell, r.dst, true, true).value;
            && (d.reg == w.reg <==> FreshKey(w, r))
            && d.dirs == w.dirs
            && (d.data == w.data <==> NoEntries(w.data, Prefix(r.cell, r.dst)))
            && (d.dbs == w.dbs <==> (r.skipDb ==> DbName(r.dst) !in w.dbs))
            && d.compose == C.Remove(Steps(w, r, f).w.compose, r.dst)
  {
    hide Accepted, Names, FreshKey, NoEntries, Steps, RegistryKey, Prefix, DbName, C.Remove, Unregister, CopyData,
      StartsWith;
    var t := Steps(w, r, f);
    OkMeansAllSteps(w, r, f);
    RegistryPart(w, r, f);
    DirsPart(w, r, f);
    DataAfter(w, r, f);
    DbPart(w, r, f);
    assert r.skipDb && DbName(r.dst) in w.dbs ==> DbName(r.dst) !in t.w.dbs - {DbName(r.dst)};
    assert r.skipDb && DbName(r.dst) !in w.dbs ==> t.w.dbs - {DbName(r.dst)} == w.dbs;
  }

  lemma DataAfter(w: World, r: Request, f: Faults)
    requires Accepted(w, r) && Steps(w, r, f).steps == 8
    ensures Outside(Steps(w, r, f).w.data, Prefix(r.cell, r.dst)) == w.data
            <==> NoEntries(w.data, Prefix(r.cell, r.dst))
  {
    hide Accepted, Prefix, CopyData, Files, VmId, NoEntries, Outside, Front, Later, Ready;
    FrontFacts(w, r, f);
    FrontFiles(w, r, f);
    FrontIsReady(w, r, f);
    LaterKeeps(Front(w, r, f), r, f, VmId(w.reg, r));
    ReadyFacts(Front(w, r, f), r);
    CopyDataFrame(w.data, Prefix(r.cell, r.src), Prefix(r.cell, r.dst), f.order, f.stop);
    OutsideIsAll(w.data, Prefix(r.cell, r.dst));
  }

  /** Deleting a clone, with its database, gives back the world as it was, with one blank line more
      in nkr-compose.yml: exactly if nothing stood under the name before and the service name was
      kept as a header. */
  lemma DeleteUndoesClone(w: World, r: Request, f: Faults)
    requires Accepted(w, r) && Names(r) && Run(w, r, f).1
    requires !r.noCompose && R.Clonable(w.compose, CloneOf(r, VmId(w.reg, r)))
    ensures var c := CloneOf(r, VmId(w.reg, r));
            Delete(Run(w, r, f).0, r.cell, r.dst, true, true) == Some(w.(compose := w.compose + [""]))
            <==> Unused(w, r) && R.HeaderKept(c, w.compose[C.Locate(w.compose, r.src).value.start])
  {
    hide Accepted, Names, FreshKey, NoEntries, Steps, Prefix, DbName, C.Remove, C.Locate, R.Clonable, R.HeaderKept,
      Delete, K.Append, VmId;
    var c := CloneOf(r, VmId(w.reg, r));
    OkMeansAllSteps(w, r, f);
    DeleteParts(w, r, f);
    ComposePart(w, r, f);
    LocatedSource(w.compose, c);
    R.RemoveUndoesAppend(w.compose, c);
  }

  lemma LocatedSource(f: C.File, c: K.Clone)
    requires R.Clonable(f, c)
    ensures C.Locate(f, c.src).Some? && C.Locate(f, c.src).value.start < |f|
  {
    C.LocateBounds(f, c.src);
  }

  /** Without the compose step the world is given back as it was. */
  lemma DeleteUndoesBareClone(w: World, r: Request, f: Faults)
    requires Accepted(w, r) && Names(r) && Run(w, r, f).1
    requires r.noCompose && C.Locate(w.compose, r.dst).None?
    ensures Delete(Run(w, r, f).0, r.cell, r.dst, true, true) == Some(w) <==> Unused(w, r)
  {
    hide Accepted, Names, FreshKey, NoEntries, Steps, Prefix, DbName, C.Locate, Delete, K.Append, VmId;
    OkMeansAllSteps(w, r, f);
    DeleteParts(w, r, f);
    ComposePart(w, r, f);
  }

  // ---------------------------------------------------------------------------------------
  // The variables that rename the filestore
  // ---------------------------------------------------------------------------------------

  const RENAME_FROM: string := "NKR_RENAME_FILESTORE_FROM"
  const RENAME_TO: string := "NKR_RENAME_FILESTORE_TO"

  lemma RenameKeys()
    ensures IsName(RENAME_FROM) && IsName(RENAME_TO) && RENAME_FROM[0] == RENAME_TO[0] == 'N'
    ensures RENAME_FROM != RENAME_TO
  {
    assert |RENAME_FROM| == 25 && |RENAME_TO| == 23;
  }

  lemma NotReserved(k: string)
    requires k != "" && k[0] == 'N'
    ensures !E.Reserved(k)
  {
  }

  /** Each of the two variables is set once for every environment section, at least once, and once for
      every line of the source that is copied although it sets it: exactly once if there is at most
      one section and no such line, and only then. */
  lemma FilestoreRenamedOnce(r: Request, id: nat, ls: C.File, k: string)
    requires k == RENAME_FROM || k == RENAME_TO
    requires R.GoodNames(CloneOf(r, id)) && ls != []
    ensures var c := CloneOf(r, id);
            && E.CountKey(K.NewBlock(c, ls), k) == E.AtLeastOne(E.Sections(c, ls)) + E.InheritedLines(c, ls, k)
            && (E.CountKey(K.NewBlock(c, ls), k) == 1 <==> E.Sections(c, ls) <= 1 && E.InheritedLines(c, ls, k) == 0)
  {
    hide IsName, R.GoodNames, E.InheritedLines, E.Sections, E.CountKey, K.NewBlock, E.Reserved;
    RenameKeys();
    NotReserved(k);
    var c := CloneOf(r, id);
    assert c.env[0].0 == RENAME_FROM && c.env[1].0 == RENAME_TO;
    E.InjectedOnce(c, ls, k);
  }

  // ---------------------------------------------------------------------------------------
  // Prefixes
  // ---------------------------------------------------------------------------------------

  function Inside(data: Data, q: string): Data {
    map n | n in data && StartsWith(n, q) :: data[n]
  }

  lemma KeysDiffer(cell: string, o: string, name: string)
    requires IsName(o) && IsName(name)
    ensures Registry.Key(Some(cell), o) == Registry.Key(Some(cell), name) <==> Lower(o) == Lower(name)
  {
    hide IsName, Lower, Trim;
    LowerEdges(o);
    LowerEdges(name);
    NameTrims(o);
    NameTrims(name);
    var p := Registry.Normal(cell) + "/";
    assert Registry.Key(Some(cell), o) == p + Lower(o) && Registry.Key(Some(cell), name) == p + Lower(name);
    assert (p + Lower(o))[|p|..] == Lower(o) && (p + Lower(name))[|p|..] == Lower(name);
  }

  /** Deleting one instance keeps the directory and the database of every other one; its registry entry
      exactly if the names differ in more than case, and its data files exactly if none of them has
      the prefix of the deleted one. */
  lemma DeleteFrame(w: World, cell: string, name: string, o: string, dropDb: bool, pgUp: bool)
    requires name in w.dirs && o in w.dirs && o != name && IsName(cell) && IsName(name) && IsName(o)
    ensures Delete(w, cell, name, dropDb, pgUp).Some?
    ensures var v := Delete(w, cell, name, dropDb, pgUp).value;
            && o in v.dirs && v.dirs[o] == w.dirs[o]
            && (DbName(o) in v.dbs <==> DbName(o) in w.dbs)
            && (DbName(o) in v.dbs ==> v.dbs[DbName(o)] == w.dbs[DbName(o)])
            && var key := Registry.Key(Some(cell), o);
               && (key in v.reg <==> key in w.reg && Lower(o) != Lower(name))
               && (key in v.reg ==> v.reg[key] == w.reg[key])
    ensures var v := Delete(w, cell, name, dropDb, pgUp).value; var q := Prefix(cell, o);
            Inside(v.data, q) == Inside(w.data, q) <==> NoEntries(Inside(w.data, q), Prefix(cell, name))
  {
    hide IsName, Registry.Key, Registry.Normal, RegistryKey, C.Remove, Prefix, StartsWith;
    KeysAgree(cell, name);
    KeysDiffer(cell, o, name);
    assert DbName(o) != DbName(name) by {
      assert DbName(o)[3..] == o && DbName(name)[3..] == name;
    }
    var v := Delete(w, cell, name, dropDb, pgUp).value;
    assert v.data == Outside(w.data, Prefix(cell, name));
    InsideOutside(w.data, Prefix(cell, o), Prefix(cell, name));
  }

  lemma InsideOutside(data: Data, q: string, p: string)
    ensures Inside(Outside(data, p), q) == Inside(data, q) <==> NoEntries(Inside(data, q), p)
  {
    hide StartsWith;
    assert Inside(Outside(data, p), q) == Outside(Inside(data, q), p);
    OutsideIsAll(Inside(data, q), p);
  }

  /** Deleting an instance takes a data file of another one. */
  ghost predicate TakesFileOf(w: World, cell: string, name: string, o: string) {
    && name in w.dirs && o in w.dirs
    && exists n :: n in w.data && StartsWith(n, Prefix(cell, o)) && n !in Delete(w, cell, name, false, false).value.data
  }

  /** This can happen to an instance exactly if one of the two prefixes extends the other. */
  lemma FilesMayClash(cell: string, name: string, o: string)
    ensures (exists w: World :: TakesFileOf(w, cell, name, o)) <==>
            StartsWith(Prefix(cell, o), Prefix(cell, name)) || StartsWith(Prefix(cell, name), Prefix(cell, o))
  {
    hide Prefix, C.Remove, Unregister;
    var p, q := Prefix(cell, name), Prefix(cell, o);
    forall w: World | TakesFileOf(w, cell, name, o)
      ensures StartsWith(q, p) || StartsWith(p, q)
    {
      var n :| n in w.data && StartsWith(n, q) && n !in Delete(w, cell, name, false, false).value.data;
      assert StartsWith(n, p);
      assert n[..|p|] == p && n[..|q|] == q;
      assert if |p| <= |q| then q[..|p|] == n[..|p|] else p[..|q|] == n[..|q|];
    }
    if StartsWith(q, p) || StartsWith(p, q) {
      var n := if StartsWith(q, p) then q else p;
      var w := World(map[], map[name := Dir("", None), o := Dir("", None)], map[n := Regular("")], map[], []);
      assert n in w.data && StartsWith(n, q) && n !in Delete(w, cell, name, false, false).value.data;
      assert TakesFileOf(w, cell, name, o);
    }
  }
}
