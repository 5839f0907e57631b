/**
 Cloning and deleting an instance: many steps on the registry, directories, data files, databases
 and nkr-compose.yml, each of which may fail, and the rollback by CloneScratch.
 */
module CloneInstance {
  import opened Wrappers
  import opened Text
  import Registry
  import C = Compose
  import K = ComposeClone

  // ---------------------------------------------------------------------------------------
  // The state of a cell
  // ---------------------------------------------------------------------------------------

  datatype Dir = Dir(conf: string, meta: Option<string>)

  /** An entry of `.nkr-data`. */
  datatype Entry = Regular(content: string) | Directory(inside: map<string, string>)

  type Data = map<string, Entry>

  datatype World = World(
    reg: Registry.Entries, dirs: map<string, Dir>, data: Data, dbs: map<string, string>, compose: C.File)

  /** What the caller asks for. */
  datatype Request = Request(
    src: string, dst: string, cell: string, meta: string, skipDb: bool, noCompose: bool,
    want: C.Resources, idle: Option<nat>, decay: Option<nat>, enterprise: bool, disabled: bool, shareDir: string)

  datatype Stop = Never | At(k: nat, partial: Option<string>)

  datatype DbFault = Works | Refused | HalfDone

  /** What goes wrong: each step may fail, a copy may leave something behind, a data copy may stop at
      the k-th file (which is only a warning), the database may be created although an error is
      reported, and PostgreSQL may be down when the rollback wants to drop it. `order` is the order
      in which `.nkr-data` is listed. */
  datatype Faults = Faults(
    registry: bool, copy: bool, left: Option<Dir>, tidy: bool, order: seq<string>, stop: Stop,
    conf: bool, db: DbFault, compose: bool, meta: bool, pgUp: bool)

  function ShortName(cell: string, name: string): string {
    if StartsWith(name, cell + "-") then name[|cell| + 1..] else name
  }

  function Prefix(cell: string, name: string): string {
    ShortName(cell, name) + "-"
  }

  function DbName(name: string): string {
    "db-" + name
  }

  /** The key that rollback and deletion remove from the registry. */
  function RegistryKey(cell: string, name: string): string {
    Lower(cell) + "/" + Lower(name)
  }

  predicate IsTemplate(name: string) {
    EndsWith(name, "-odoo-template") || EndsWith(name, "-odoo-template-enterprise")
  }

  const MAX_ODOOS: nat := 21

  function Instances(dirs: map<string, Dir>): set<string> {
    set n | n in dirs && !IsTemplate(n)
  }

  // ---------------------------------------------------------------------------------------
  // Data files
  // ---------------------------------------------------------------------------------------

  /** Copies one file; into a directory if one stands at the target. */
  function CopyFile(data: Data, name: string, target: string): Data
    requires name in data && data[name].Regular?
  {
    if target in data && data[target].Directory? then
      data[target := Directory(data[target].inside[name := data[name].content])]
    else data[target := Regular(data[name].content)]
  }

  /** What a failing copy leaves: the old target is gone, a part of the new one may be there. */
  function SpoilFile(data: Data, target: string, partial: Option<string>): Data {
    if target in data && data[target].Directory? then data
    else if partial.Some? then data[target := Regular(partial.value)] else data - {target}
  }

  /** `clone_nkr_data_files`; p and q are the prefixes of the source and the destination. A file that
      is its own target is deleted, and the copy fails. */
  function CopyData(data: Data, p: string, q: string, order: seq<string>, stop: Stop): Data
    decreases |order|
  {
    if order == [] then data
    else
      var n := order[0];
      if !StartsWith(n, p) || n !in data || !data[n].Regular? then CopyData(data, p, q, order[1..], stop)
      else
        var target := q + n[|p|..];
        if target == n then data - {n}
        else if stop.At? && stop.k == 0 then SpoilFile(data, target, stop.partial)
        else
          CopyData(CopyFile(data, n, target), p, q, order[1..],
                   if stop.At? then At(stop.k - 1, stop.partial) else Never)
  }

  function Files(data: Data, p: string): set<string> {
    set n | n in data && StartsWith(n, p) && data[n].Regular?
  }

  // ---------------------------------------------------------------------------------------
  // The scratch
  // ---------------------------------------------------------------------------------------

  /** What a clone has made so far. */
  datatype Made = Made(dir: Option<string>, files: set<string>, key: Option<string>, db: Option<string>)

  const NOTHING: Made := Made(None, {}, None, None)

  function Without(o: Option<string>): set<string> {
    if o.Some? then {o.value} else {}
  }

  function Unregister(reg: Registry.Entries, key: Option<string>): Registry.Entries {
    if key.Some? then Registry.Apply(reg, Registry.Remove(key.value)).0 else reg
  }

  /** The rollback. */
  function Undone(w: World, m: Made, pgUp: bool): World {
    World(Unregister(w.reg, m.key), w.dirs - Without(m.dir), w.data - m.files,
          if pgUp then w.dbs - Without(m.db) else w.dbs, w.compose)
  }

  class Cell {
    var world: World

    constructor (w: World)
      ensures world == w
    {
      world := w;
    }
  }

  class CloneScratch {
    var dstDir: Option<string>
    var nkrDataFiles: set<string>
    var registryKey: Option<string>
    var clonedDb: Option<string>
    var committed: bool

    constructor ()
      ensures Value() == NOTHING && !committed
    {
      dstDir, nkrDataFiles, registryKey, clonedDb, committed := None, {}, None, None, false;
    }

    function Value(): Made
      reads this
    {
      Made(dstDir, nkrDataFiles, registryKey, clonedDb)
    }

    method Commit()
      modifies this
      ensures committed && Value() == old(Value())
    {
      committed := true;
    }

    method DropFiles(cell: Cell)
      modifies this`nkrDataFiles, cell
      ensures cell.world == old(cell.world).(data := old(cell.world).data - old(nkrDataFiles))
    {
      var data := cell.world.data;
      ghost var was := data;
      while nkrDataFiles != {}
        invariant nkrDataFiles <= old(nkrDataFiles) && cell.world == old(cell.world)
        invariant data == was - (old(nkrDataFiles) - nkrDataFiles)
        decreases |nkrDataFiles|
      {
        var n :| n in nkrDataFiles;
        if n in data {
          data := data - {n};
        }
        nkrDataFiles := nkrDataFiles - {n};
        assert data == was - (old(nkrDataFiles) - nkrDataFiles);
      }
      cell.world := cell.world.(data := data);
    }

    /** Undoes what was made, unless the clone was committed. */
    method Drop(cell: Cell, pgUp: bool)
      modifies this, cell
      ensures cell.world == if old(committed) then old(cell.world) else Undone(old(cell.world), old(Value()), pgUp)
    {
      hide Registry.Apply;
      if committed {
        return;
      }
      if clonedDb.Some? && pgUp {
        cell.world := cell.world.(dbs := cell.world.dbs - {clonedDb.value});
      }
      if dstDir.Some? && dstDir.value in cell.world.dirs {
        cell.world := cell.world.(dirs := cell.world.dirs - {dstDir.value});
      }
      assert cell.world.dirs == old(cell.world.dirs) - Without(dstDir);
      assert cell.world.dbs == if pgUp then old(cell.world.dbs) - Without(clonedDb) else old(cell.world.dbs);
      DropFiles(cell);
      if registryKey.Some? {
        cell.world := cell.world.(reg := Registry.Apply(cell.world.reg, Registry.Remove(registryKey.value)).0);
      }
    }
  }

  // ---------------------------------------------------------------------------------------
  // The steps
  // ---------------------------------------------------------------------------------------

  /** The world, what was made, and the number of steps that went well; `ok` if none has failed. */
  datatype Trial = Trial(w: World, made: Made, steps: nat, ok: bool)

  function Fail(t: Trial): Trial {
    t.(ok := false)
  }

  function Good(t: Trial): Trial {
    t.(steps := t.steps + 1)
  }

  /** The checks before anything is done. */
  predicate Accepted(w: World, r: Request) {
    r.src != r.dst && r.src in w.dirs && r.dst !in w.dirs && |Instances(w.dirs)| < MAX_ODOOS
  }

  function Register(w: World, r: Request, f: Faults): Trial {
    var (reg, reply) := Registry.Apply(w.reg, Registry.Resolve(Some(r.cell), r.dst));
    if !reply.Id? || f.registry then Trial(w, NOTHING, 0, false)
    else Trial(w.(reg := reg), NOTHING.(key := Some(RegistryKey(r.cell, r.dst))), 1, true)
  }

  function CopyDir(t: Trial, r: Request, f: Faults): Trial {
    if !t.ok || r.src !in t.w.dirs then Fail(t)
    else if f.copy then
      Fail(if f.left.Some? then t.(w := t.w.(dirs := t.w.dirs[r.dst := f.left.value])) else t)
    else
      Good(t.(w := t.w.(dirs := t.w.dirs[r.dst := t.w.dirs[r.src]]), made := t.made.(dir := Some(r.dst))))
  }

  function Tidy(t: Trial, f: Faults): Trial {
    if !t.ok || f.tidy then Fail(t) else Good(t)
  }

  function CopyFiles(t: Trial, r: Request, f: Faults): Trial {
    if !t.ok then t
    else
      var q := Prefix(r.cell, r.dst);
      var data := CopyData(t.w.data, Prefix(r.cell, r.src), q, f.order, f.stop);
      Good(t.(w := t.w.(data := data), made := t.made.(files := Files(data, q))))
  }

  function RewriteConf(t: Trial, r: Request, f: Faults): Trial {
    if !t.ok || f.conf || r.dst !in t.w.dirs then Fail(t)
    else
      var d := t.w.dirs[r.dst];
      Good(t.(w := t.w.(dirs := t.w.dirs[r.dst := d.(conf := K.Replace(d.conf, r.src, r.dst))])))
  }

  /** `CREATE DATABASE ... TEMPLATE` can work only if the source exists and the destination does not. */
  predicate Creatable(w: World, r: Request) {
    DbName(r.src) in w.dbs && DbName(r.dst) !in w.dbs
  }

  function CloneDb(t: Trial, r: Request, f: Faults): Trial {
    if !t.ok then t
    else if r.skipDb then Good(t)
    else if !Creatable(t.w, r) || f.db == Refused then Fail(t)
    else
      var t' := t.(w := t.w.(dbs := t.w.dbs[DbName(r.dst) := t.w.dbs[DbName(r.src)]]));
      if f.db == HalfDone then Fail(t') else Good(t'.(made := t.made.(db := Some(DbName(r.dst)))))
  }

  /** The clone as the compose editor sees it; the variables rename the filestore at the first boot. */
  function CloneOf(r: Request, id: nat): K.Clone {
    K.Clone(r.src, r.dst, r.cell, id,
            [("NKR_RENAME_FILESTORE_FROM", DbName(r.src)), ("NKR_RENAME_FILESTORE_TO", DbName(r.dst))],
            r.want, r.idle, r.decay, r.enterprise, r.disabled, r.shareDir)
  }

  function VmId(reg: Registry.Entries, r: Request): nat {
    var reply := Registry.Apply(reg, Registry.Resolve(Some(r.cell), r.dst)).1;
    if reply.Id? then reply.id else 0
  }

  function AppendBlock(t: Trial, r: Request, f: Faults, id: nat): Trial {
    if !t.ok then t
    else if r.noCompose then Good(t)
    else
      var g := K.Append(t.w.compose, CloneOf(r, id));
      if f.compose || g.None? then Fail(t) else Good(t.(w := t.w.(compose := g.value)))
  }

  function SaveMeta(t: Trial, r: Request, f: Faults): Trial {
    if !t.ok || f.meta || r.dst !in t.w.dirs then Fail(t)
    else Good(t.(w := t.w.(dirs := t.w.dirs[r.dst := t.w.dirs[r.dst].(meta := Some(r.meta))])))
  }

  function Front(w: World, r: Request, f: Faults): Trial {
    CopyFiles(Tidy(CopyDir(Register(w, r, f), r, f), f), r, f)
  }

  function Later(t: Trial, r: Request, f: Faults, id: nat): Trial {
    SaveMeta(AppendBlock(CloneDb(RewriteConf(t, r, f), r, f), r, f, id), r, f)
  }

  function Steps(w: World, r: Request, f: Faults): Trial {
    Later(Front(w, r, f), r, f, VmId(w.reg, r))
  }

  /** `clone_instance_with_opts`: the world afterwards, and whether the clone was made. */
  function Run(w: World, r: Request, f: Faults): (World, bool) {
    if !Accepted(w, r) then (w, false)
    else
      var t := Steps(w, r, f);
      if t.ok then (t.w, true) else (Undone(t.w, t.made, f.pgUp), false)
  }

  /** `delete_instance`; an instance without a directory is not found. */
  function Delete(w: World, cell: string, name: string, dropDb: bool, pgUp: bool): Option<World> {
    if name !in w.dirs then None
    else
      Some(World(
        Unregister(w.reg, Some(RegistryKey(cell, name))), w.dirs - {name},
        map n | n in w.data && !StartsWith(n, Prefix(cell, name)) :: w.data[n],
        if dropDb && pgUp then w.dbs - {DbName(name)} else w.dbs,
        C.Remove(w.compose, name)))
  }

  // ---------------------------------------------------------------------------------------
  // The code
  // ---------------------------------------------------------------------------------------

  /** The copying loop over the listing of `.nkr-data`. */
  method CloneNkrDataFiles(cell: Cell, p: string, q: string, order: seq<string>, stop: Stop)
    modifies cell
    ensures cell.world == old(cell.world).(data := CopyData(old(cell.world).data, p, q, order, stop))
  {
    hide StartsWith, CopyFile, SpoilFile;
    var data := cell.world.data;
    var left := stop;
    for i := 0 to |order|
      invariant cell.world == old(cell.world).(data := data)
      invariant CopyData(data, p, q, order[i..], left) == CopyData(old(cell.world).data, p, q, order, stop)
    {
      var n := order[i];
      assert order[i..][0] == n && order[i..][1..] == order[i + 1..];
      if !StartsWith(n, p) || n !in data || !data[n].Regular? {
        continue;
      }
      var target := q + Rest(n, p);
      if target == n {
        cell.world := cell.world.(data := data - {n});
        return;
      }
      if left.At? && left.k == 0 {
        cell.world := cell.world.(data := SpoilFile(data, target, left.partial));
        return;
      }
      data := CopyFile(data, n, target);
      cell.world := cell.world.(data := data);
      if left.At? {
        left := At(left.k - 1, left.partial);
      }
    }
    assert order[|order|..] == [];
  }

  function Rest(n: string, p: string): (r: string)
    requires StartsWith(n, p)
    ensures |p| <= |n| && r == n[|p|..]
  {
    n[|p|..]
  }

  /** All steps of a clone; `scratch` remembers what has to be undone. */
  method TrySteps(cell: Cell, scratch: CloneScratch, r: Request, f: Faults) returns (ok: bool)
    requires Accepted(cell.world, r) && scratch.Value() == NOTHING && !scratch.committed
    modifies cell, scratch
    ensures var t := Steps(old(cell.world), r, f); ok == t.ok && cell.world == t.w && scratch.Value() == t.made
    ensures !scratch.committed
  {
    hide Accepted, CopyData, Files, Registry.Apply, K.Append, RegistryKey, CloneOf, VmId, K.Replace;
    ghost var w := cell.world;
    var (reg, reply) := Registry.Apply(cell.world.reg, Registry.Resolve(Some(r.cell), r.dst));
    ghost var t1 := Register(w, r, f);
    if !reply.Id? || f.registry {
      return false;
    }
    var id := VmId(cell.world.reg, r);
    cell.world := cell.world.(reg := reg);
    scratch.registryKey := Some(RegistryKey(r.cell, r.dst));
    ok := CopyAndTidy(cell, scratch, r, f, t1);
    ghost var t3 := Tidy(CopyDir(t1, r, f), f);
    if !ok {
      return false;
    }
    CloneNkrDataFiles(cell, Prefix(r.cell, r.src), Prefix(r.cell, r.dst), f.order, f.stop);
    scratch.nkrDataFiles := Files(cell.world.data, Prefix(r.cell, r.dst));
    ok := LaterSteps(cell, scratch, r, f, id, CopyFiles(t3, r, f));
  }

  /** The copy of the directory, and what may fail before the data files are copied. */
  method CopyAndTidy(cell: Cell, scratch: CloneScratch, r: Request, f: Faults, ghost t: Trial) returns (ok: bool)
    requires t.ok && cell.world == t.w && scratch.Value() == t.made && !scratch.committed
    modifies cell, scratch
    ensures var u := Tidy(CopyDir(t, r, f), f); ok == u.ok && cell.world == u.w && scratch.Value() == u.made
    ensures !scratch.committed
  {
    if r.src !in cell.world.dirs {
      return false;
    }
    if f.copy {
      if f.left.Some? {
        cell.world := cell.world.(dirs := cell.world.dirs[r.dst := f.left.value]);
      }
      return false;
    }
    cell.world := cell.world.(dirs := cell.world.dirs[r.dst := cell.world.dirs[r.src]]);
    scratch.dstDir := Some(r.dst);
    return !f.tidy;
  }

  /** Configuration, database, compose block and metadata. */
  method LaterSteps(cell: Cell, scratch: CloneScratch, r: Request, f: Faults, id: nat,
    ghost t: Trial) returns (ok: bool)
    requires t.ok && cell.world == t.w && scratch.Value() == t.made && !scratch.committed
    modifies cell, scratch
    ensures var u := Later(t, r, f, id);
            ok == u.ok && cell.world == u.w && scratch.Value() == u.made
    ensures !scratch.committed
  {
    hide K.Append, K.Replace, CloneOf, DbName;
    if f.conf || r.dst !in cell.world.dirs {
      return false;
    }
    var d := cell.world.dirs[r.dst];
    cell.world := cell.world.(dirs := cell.world.dirs[r.dst := d.(conf := K.Replace(d.conf, r.src, r.dst))]);
    if !r.skipDb {
      if !Creatable(cell.world, r) || f.db == Refused {
        return false;
      }
      cell.world := cell.world.(dbs := cell.world.dbs[DbName(r.dst) := cell.world.dbs[DbName(r.src)]]);
      if f.db == HalfDone {
        return false;
      }
      scratch.clonedDb := Some(DbName(r.dst));
    }
    if !r.noCompose {
      var g := K.AppendComposeBlock(cell.world.compose, CloneOf(r, id));
      if f.compose || g.None? {
        return false;
      }
      cell.world := cell.world.(compose := g.value);
    }
    if f.meta || r.dst !in cell.world.dirs {
      return false;
    }
    cell.world := cell.world.(dirs := cell.world.dirs[r.dst := cell.world.dirs[r.dst].(meta := Some(r.meta))]);
    return true;
  }

  method CloneInstanceWithOpts(cell: Cell, r: Request, f: Faults) returns (ok: bool)
    modifies cell
    ensures (cell.world, ok) == Run(old(cell.world), r, f)
  {
    hide Steps, Undone, Accepted;
    if !Accepted(cell.world, r) {
      return false;
    }
    var scratch := new CloneScratch();
    ok := TrySteps(cell, scratch, r, f);
    if ok {
      scratch.Commit();
    }
    scratch.Drop(cell, f.pgUp);
  }

  method DeleteInstance(cell: Cell, cellName: string, name: string, dropDb: bool, pgUp: bool) returns (ok: bool)
    modifies cell
    ensures var d := Delete(old(cell.world), cellName, name, dropDb, pgUp);
            ok == d.Some? && cell.world == if ok then d.value else old(cell.world)
  {
    hide C.Remove, StartsWith, Registry.Apply;
    if name !in cell.world.dirs {
      return false;
    }
    if dropDb && pgUp {
      cell.world := cell.world.(dbs := cell.world.dbs - {DbName(name)});
    }
    var kept := C.RemoveComposeBlock(cell.world.compose, name);
    cell.world := cell.world.(compose := kept);
    cell.world := cell.world.(reg := Registry.Apply(cell.world.reg, Registry.Remove(RegistryKey(cellName, name))).0);
    cell.world := cell.world.(dirs := cell.world.dirs - {name});
    var data := cell.world.data;
    cell.world := cell.world.(data := map n | n in data && !StartsWith(n, Prefix(cellName, name)) :: data[n]);
    return true;
  }
}
