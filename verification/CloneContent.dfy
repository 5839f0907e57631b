/**
 What a successful clone contains: its configuration, its metadata, its data files, its database and
 its compose block, with everything of the others left as it was.
 */
module CloneContent {
  import opened Wrappers
  import opened Text
  import opened ComposeNames
  import opened CloneInstance
  import opened CloneRollback
  import opened Renaming
  import Registry
  import C = Compose
  import K = ComposeClone
  import CR = ConfRoundTrip
  import CT = ConfText
  import B = ComposeContent
  import N = ComposeLines
  import RT = ComposeRoundTrip

  // ---------------------------------------------------------------------------------------
  // Data files
  // ---------------------------------------------------------------------------------------

  /** The listing of `.nkr-data`: every name, and no other. */
  ghost predicate Lists(order: seq<string>, data: Data) {
    forall n :: n in order <==> n in data
  }

  predicate Copied(data: Data, p: string, n: string) {
    StartsWith(n, p) && n in data && data[n].Regular?
  }

  /** The name of a copy. */
  function CopyName(p: string, q: string, n: string): string
    requires StartsWith(n, p)
  {
    q + n[|p|..]
  }

  lemma CopyNamesDiffer(p: string, q: string, n: string, m: string)
    requires StartsWith(n, p) && StartsWith(m, p) && CopyName(p, q, n) == CopyName(p, q, m)
    ensures n == m
  {
    assert n == p + n[|p|..] && m == p + m[|p|..];
    assert CopyName(p, q, n)[|q|..] == n[|p|..] && CopyName(p, q, m)[|q|..] == m[|p|..];
  }

  /** From data to after the files in the list were copied, and nothing else happened. */
  ghost predicate CopiedAll(data: Data, after: Data, p: string, q: string, order: seq<string>) {
    && (forall n :: n in order && Copied(data, p, n) ==>
          CopyName(p, q, n) in after && after[CopyName(p, q, n)] == data[n])
    && (forall x :: x in data ==> x in after)
    && (forall x :: x in after ==>
          || (x in data && after[x] == data[x])
          || exists n :: n in order && Copied(data, p, n) && x == CopyName(p, q, n) && after[x] == data[n])
  }

  /** No listed name has the new prefix, and no directory stands where a copy goes. */
  ghost predicate NoClash(data: Data, q: string, order: seq<string>) {
    (forall n :: n in order ==> !StartsWith(n, q)) && NoDirectories(data, q)
  }

  lemma OneCopied(data: Data, p: string, q: string, n: string)
    requires Copied(data, p, n) && NoDirectories(data, q) && !StartsWith(n, q)
    ensures var t := CopyName(p, q, n); var d := CopyFile(data, n, t);
            StartsWith(t, q) && t != n && d == data[t := data[n]] && NoDirectories(d, q)
  {
    var t := CopyName(p, q, n);
    assert t[..|q|] == q;
  }

  lemma {:induction false} CopyDataIs(data: Data, p: string, q: string, order: seq<string>)
    requires NoClash(data, q, order)
    ensures CopiedAll(data, CopyData(data, p, q, order, Never), p, q, order)
    decreases |order|
  {
    hide StartsWith, CopyName, CopyFile, CopiedAll, NoDirectories;
    if order == [] {
      NoneCopied(data, p, q);
    } else {
      var n, rest := order[0], order[1..];
      assert NoClash(data, q, rest);
      if !Copied(data, p, n) {
        CopyDataIs(data, p, q, rest);
        SkippedOne(data, CopyData(data, p, q, rest, Never), p, q, order);
      } else {
        OneCopied(data, p, q, n);
        assert q + n[|p|..] == CopyName(p, q, n) by { NameOfCopy(p, q, n); }
        var d := CopyFile(data, n, CopyName(p, q, n));
        CopyDataIs(d, p, q, rest);
        CopiedOne(data, d, CopyData(d, p, q, rest, Never), p, q, order);
      }
    }
  }

  lemma NameOfCopy(p: string, q: string, n: string)
    requires StartsWith(n, p)
    ensures |p| <= |n| && q + n[|p|..] == CopyName(p, q, n)
  {
  }

  lemma NoneCopied(data: Data, p: string, q: string)
    ensures CopiedAll(data, data, p, q, [])
  {
  }

  lemma SkippedOne(data: Data, after: Data, p: string, q: string, order: seq<string>)
    requires order != [] && !Copied(data, p, order[0]) && CopiedAll(data, after, p, q, order[1..])
    ensures CopiedAll(data, after, p, q, order)
  {
    hide Copied, CopyName;
    assert forall n :: n in order <==> n == order[0] || n in order[1..];
  }

  lemma CopiedOne(data: Data, d: Data, after: Data, p: string, q: string, order: seq<string>)
    requires order != [] && Copied(data, p, order[0]) && NoClash(data, q, order)
    requires d == data[CopyName(p, q, order[0]) := data[order[0]]] && CopiedAll(d, after, p, q, order[1..])
    requires StartsWith(CopyName(p, q, order[0]), q)
    ensures CopiedAll(data, after, p, q, order)
  {
    hide CopyName, NoDirectories, StartsWith;
    var n, t := order[0], CopyName(p, q, order[0]);
    assert forall m :: m in order <==> m == n || m in order[1..];
    forall m | m in order[1..]
      ensures m != t && (Copied(d, p, m) <==> Copied(data, p, m)) && (m in d <==> m in data)
              && (m in d ==> d[m] == data[m])
    {
    }
    assert t in d && t in after;
    assert after[t] == data[n] by {
      if after[t] != d[t] {
        var m :| m in order[1..] && Copied(d, p, m) && t == CopyName(p, q, m) && after[t] == d[m];
        CopyNamesDiffer(p, q, n, m);
      }
    }
  }

  // ---------------------------------------------------------------------------------------
  // The configuration and the metadata
  // ---------------------------------------------------------------------------------------

  lemma LaterContent(t: Trial, r: Request, f: Faults, id: nat)
    requires Ready(t, r) && Later(t, r, f, id).ok
    ensures t.ok && r.dst in t.w.dirs && r.dst in Later(t, r, f, id).w.dirs
    ensures Later(t, r, f, id).w.dirs[r.dst] == Dir(K.Replace(t.w.dirs[r.dst].conf, r.src, r.dst), Some(r.meta))
  {
    hide K.Append, K.Replace, CloneOf, Creatable, DbName;
  }

  /** The clone's directory has the renamed configuration and the metadata asked for; every other
      directory is as it was. */
  lemma DirsMade(w: World, r: Request, f: Faults)
    requires Accepted(w, r) && Run(w, r, f).1
    ensures r.src in w.dirs && r.dst !in w.dirs
    ensures Run(w, r, f).0.dirs == w.dirs[r.dst := Dir(K.Replace(w.dirs[r.src].conf, r.src, r.dst), Some(r.meta))]
  {
    hide Accepted, VmId, Front, Later, Ready, K.Replace;
    AcceptedDst(w, r);
    OkMeansAllSteps(w, r, f);
    FrontFacts(w, r, f);
    FrontFiles(w, r, f);
    FrontIsReady(w, r, f);
    var t := Front(w, r, f);
    var id := VmId(w.reg, r);
    LaterKeeps(t, r, f, id);
    LaterDirs(t, r, f, id);
    LaterContent(t, r, f, id);
    DirsPart(w, r, f);
    var dirs := Steps(w, r, f).w.dirs;
    forall n | n in w.dirs
      ensures n in dirs && dirs[n] == w.dirs[n]
    {
      assert n in dirs - {r.dst} && (dirs - {r.dst})[n] == w.dirs[n];
    }
    forall n | n in dirs && n != r.dst
      ensures n in w.dirs
    {
      assert n in dirs - {r.dst};
    }
  }

  lemma FilesMade(w: World, r: Request, f: Faults)
    requires Accepted(w, r) && Run(w, r, f).1
    ensures Run(w, r, f).0.data == CopyData(w.data, Prefix(r.cell, r.src), Prefix(r.cell, r.dst), f.order, f.stop)
  {
    hide Accepted, VmId, Front, Later, Ready, CopyData, Prefix;
    OkMeansAllSteps(w, r, f);
    FrontFacts(w, r, f);
    FrontFiles(w, r, f);
    FrontIsReady(w, r, f);
    LaterKeeps(Front(w, r, f), r, f, VmId(w.reg, r));
  }

  lemma DbMade(w: World, r: Request, f: Faults)
    requires Accepted(w, r) && Run(w, r, f).1
    ensures if r.skipDb then Run(w, r, f).0.dbs == w.dbs
            else (DbName(r.src) in w.dbs && DbName(r.dst) !in w.dbs
                  && Run(w, r, f).0.dbs == w.dbs[DbName(r.dst) := w.dbs[DbName(r.src)]])
  {
    hide Accepted, VmId, Front, Later, Ready, DbName;
    OkMeansAllSteps(w, r, f);
    FrontFacts(w, r, f);
    FrontIsReady(w, r, f);
    var t := Front(w, r, f);
    LaterKeeps(t, r, f, VmId(w.reg, r));
    LaterDbs(t, r, f, VmId(w.reg, r));
  }

  lemma RegistryMade(w: World, r: Request, f: Faults)
    requires Accepted(w, r) && Run(w, r, f).1
    ensures Registry.Apply(w.reg, Registry.Resolve(Some(r.cell), r.dst)) ==
            (Run(w, r, f).0.reg, Registry.Id(VmId(w.reg, r)))
  {
    hide Accepted, Front, Later, Ready, Registry.Apply;
    OkMeansAllSteps(w, r, f);
    FrontFacts(w, r, f);
    FrontIsReady(w, r, f);
    LaterKeeps(Front(w, r, f), r, f, VmId(w.reg, r));
  }

  /** The configuration of the clone is that of the source cut at the source's name, with the
      destination's name in between. */
  ghost predicate Renames(was: string, now: string, src: string, dst: string) {
    exists ps: seq<string> ::
      && ps != [] && was == Glued(ps, src) && now == Glued(ps, dst)
      && forall i :: 0 <= i < |ps| ==> !K.Contains(ps[i], src)
  }

  lemma ReplaceRenames(s: string, src: string, dst: string)
    requires src != ""
    ensures Renames(s, K.Replace(s, src, dst), src, dst)
  {
    hide K.Replace, K.Contains, Glued;
    var ps := RenamedPieces(s, src, dst);
  }

  /** The name of the source stands in its database's name only where it should. */
  predicate OnlyAtEnd(src: string) {
    forall i :: 0 <= i < 3 ==> !StartsWith(("db-" + src)[i..], src)
  }

  lemma DbNameRenamed(src: string, dst: string)
    requires src != "" && OnlyAtEnd(src)
    ensures K.Replace(DbName(src), src, dst) == DbName(dst)
  {
    hide StartsWith, K.Replace;
    assert NoMatch("db-" + src, 3, src);
    ReplaceSkip("db-", src, src, dst);
    WholeRenamed(src, dst);
  }

  lemma WholeRenamed(src: string, dst: string)
    requires src != ""
    ensures K.Replace(src, src, dst) == dst
  {
    assert src[|src|..] == "";
  }

  /** Everything a successful clone has made, whatever went wrong on the way without failing it. The
      configuration is the source's, renamed; the metadata are those asked for; the registry gives the
      clone its id; its database is the source's; and all of the other instances is untouched. */
  lemma CloneMakes(w: World, r: Request, f: Faults)
    requires Run(w, r, f).1 && r.src != ""
    ensures var v := Run(w, r, f).0;
            && r.src in w.dirs && r.dst !in w.dirs && r.dst in v.dirs && v.dirs - {r.dst} == w.dirs
            && v.dirs[r.dst].meta == Some(r.meta)
            && Renames(w.dirs[r.src].conf, v.dirs[r.dst].conf, r.src, r.dst)
            && Registry.Apply(w.reg, Registry.Resolve(Some(r.cell), r.dst)) == (v.reg, Registry.Id(VmId(w.reg, r)))
            && (if r.skipDb then v.dbs == w.dbs
                else ("db-" + r.src in w.dbs && "db-" + r.dst !in w.dbs
                      && v.dbs == w.dbs["db-" + r.dst := w.dbs["db-" + r.src]]))
            && (if r.noCompose then v.compose == w.compose
                else K.Append(w.compose, CloneOf(r, VmId(w.reg, r))) == Some(v.compose))
  {
    hide Accepted, Steps, VmId, K.Replace, Renames, Registry.Apply, K.Append, CloneOf;
    assert Accepted(w, r);
    DirsMade(w, r, f);
    ReplaceRenames(w.dirs[r.src].conf, r.src, r.dst);
    RegistryMade(w, r, f);
    DbMade(w, r, f);
    OkMeansAllSteps(w, r, f);
    ComposePart(w, r, f);
    var v := Run(w, r, f).0;
    assert v.dirs - {r.dst} == w.dirs;
  }

  /** The clone's configuration no longer names the source, if the name of the clone cannot bring it back. */
  lemma ConfForgetsSource(w: World, r: Request, f: Faults)
    requires Run(w, r, f).1 && r.src != "" && r.dst != "" && Unmixed(r.src, r.dst)
    ensures r.dst in Run(w, r, f).0.dirs && !K.Contains(Run(w, r, f).0.dirs[r.dst].conf, r.src)
  {
    hide Accepted, Steps, K.Replace, K.Contains, Unmixed;
    assert Accepted(w, r);
    DirsMade(w, r, f);
    OldNameIsGone(w.dirs[r.src].conf, r.src, r.dst);
  }

  /** Every key of the configuration reads as in the source, renamed; so the clone opens its own
      database, if the source's name stands in its database's name only at the end. */
  lemma ConfReads(w: World, r: Request, f: Faults, section: string, key: string)
    requires Run(w, r, f).1 && Dashed(r.src) && Dashed(r.dst)
    requires CR.GoodKey(key) && '-' !in key && '-' !in section
    ensures r.dst in Run(w, r, f).0.dirs && r.src in w.dirs
    ensures CT.ReadText(Run(w, r, f).0.dirs[r.dst].conf, section, key) ==
            RenamedValue(CT.ReadText(w.dirs[r.src].conf, section, key), r.src, r.dst)
    ensures OnlyAtEnd(r.src) && CT.ReadText(w.dirs[r.src].conf, section, key) == Some("db-" + r.src) ==>
            CT.ReadText(Run(w, r, f).0.dirs[r.dst].conf, section, key) == Some("db-" + r.dst)
  {
    hide Accepted, Steps, K.Replace, CT.ReadText, OnlyAtEnd, CR.GoodKey;
    assert Accepted(w, r);
    DirsMade(w, r, f);
    ReadRenamed(w.dirs[r.src].conf, section, key, r.src, r.dst);
    if OnlyAtEnd(r.src) {
      DbNameRenamed(r.src, r.dst);
    }
  }

  /** Otherwise it may not: instance b-b of a cell b, whose database is called db-b-b, cloned to b-c,
      gives the name db-c-b. */
  lemma DbNameSpoiled()
    ensures Dashed("b-b") && Dashed("b-c") && !OnlyAtEnd("b-b")
    ensures K.Replace(DbName("b-b"), "b-b", "b-c") == "db-c-b" != DbName("b-c")
  {
    var s := DbName("b-b");
    assert s == "db-b-b" && ("db-" + "b-b") == s;
    assert s[1..] == "b-b" + "-b" && StartsWith(s[1..], "b-b");
    assert "b-b"[1] == '-' && "b-c"[1] == '-';
    assert s[0] != "b-b"[0];
    ReplaceStep(s, "b-b", "b-c");
    ReplaceHere(s[1..], "b-b", "b-c");
    assert s[1..][3..] == "-b";
    assert "-b"[0] != "b-b"[0] && "-b"[1..] == "b" && "b"[1..] == "";
    ReplaceStep("-b", "b-b", "b-c");
    ReplaceStep("b", "b-b", "b-c");
    EmptyReplace("b-b", "b-c");
    assert K.Replace("-b", "b-b", "b-c") == "-b";
    assert ['d'] + ("b-c" + "-b") == "db-c-b";
    assert DbName("b-c")[3] == 'b' && "db-c-b"[3] == 'c';
  }

  /** If nothing stopped the copying and nothing stood under the clone's prefix, every data file of the
      source stands under that prefix with its content, and there is nothing else new. */
  lemma FilesCopied(w: World, r: Request, f: Faults, s: string, d: string)
    requires r.src == r.cell + "-" + s && r.dst == r.cell + "-" + d
    requires Run(w, r, f).1 && f.stop == Never && Lists(f.order, w.data) && NoEntries(w.data, d + "-")
    ensures CopiedAll(w.data, Run(w, r, f).0.data, s + "-", d + "-", f.order)
  {
    hide Accepted, Steps, CopyData, CopiedAll, StartsWith;
    assert Accepted(w, r);
    PrefixIs(r.cell, s);
    PrefixIs(r.cell, d);
    FilesMade(w, r, f);
    assert NoClash(w.data, d + "-", f.order);
    CopyDataIs(w.data, s + "-", d + "-", f.order);
  }

  lemma PrefixIs(cell: string, short: string)
    ensures Prefix(cell, cell + "-" + short) == short + "-"
  {
    var name := cell + "-" + short;
    assert name[..|cell| + 1] == cell + "-" && name[|cell| + 1..] == short;
  }

  // ---------------------------------------------------------------------------------------
  // When a clone is made
  // ---------------------------------------------------------------------------------------

  /** No step fails of itself; copying data files may stop, which fails nothing. */
  predicate Faultless(f: Faults) {
    !f.registry && !f.copy && !f.tidy && !f.conf && f.db == Works && !f.compose && !f.meta
  }

  /** The instances of a cell that are no templates. */
  function Tenants(w: World): set<string> {
    set n | n in w.dirs && !EndsWith(n, "-odoo-template") && !EndsWith(n, "-odoo-template-enterprise")
  }

  lemma TenantsAre(w: World)
    ensures Instances(w.dirs) == Tenants(w)
  {
    hide EndsWith;
  }

  lemma LaterSucceeds(t: Trial, r: Request, f: Faults, id: nat)
    requires Ready(t, r)
    ensures Faultless(f) ==>
              (Later(t, r, f, id).ok <==>
                && t.ok && (r.skipDb || ("db-" + r.src in t.w.dbs && "db-" + r.dst !in t.w.dbs))
                && (r.noCompose || K.Append(t.w.compose, CloneOf(r, id)).Some?))
  {
    hide K.Append, K.Replace, CloneOf;
  }

  lemma FrontSucceeds(w: World, r: Request, f: Faults)
    requires Accepted(w, r)
    ensures Faultless(f) ==> (Front(w, r, f).ok <==> Registry.Apply(w.reg, Registry.Resolve(Some(r.cell), r.dst)).1.Id?)
  {
    hide CopyData, Files, RegistryKey, Registry.Apply, Instances, Prefix;
  }

  /** If no step fails of itself, the clone is made exactly if the names differ, the source is there and
      the destination is not, the cell has room, the registry has an id, the database can be created,
      and the source has a block in the compose file. */
  lemma CloneSucceeds(w: World, r: Request, f: Faults)
    requires Faultless(f)
    ensures Run(w, r, f).1 <==>
              && r.src != r.dst && r.src in w.dirs && r.dst !in w.dirs && |Tenants(w)| < 21
              && Registry.Apply(w.reg, Registry.Resolve(Some(r.cell), r.dst)).1.Id?
              && (r.skipDb || ("db-" + r.src in w.dbs && "db-" + r.dst !in w.dbs))
              && (r.noCompose || C.Locate(w.compose, r.src).Some?)
  {
    hide Front, Later, Ready, VmId, Instances, Registry.Apply, K.Append, CloneOf, C.Locate, K.NewBlock, Faultless,
      Undone, DbName;
    TenantsAre(w);
    if Accepted(w, r) {
      FrontFacts(w, r, f);
      FrontIsReady(w, r, f);
      FrontSucceeds(w, r, f);
      LaterSucceeds(Front(w, r, f), r, f, VmId(w.reg, r));
      AppendSucceeds(w.compose, CloneOf(r, VmId(w.reg, r)));
      assert CloneOf(r, VmId(w.reg, r)).src == r.src by { CloneSource(r, VmId(w.reg, r)); }
    }
  }

  lemma CloneSource(r: Request, id: nat)
    ensures CloneOf(r, id).src == r.src
  {
  }

  lemma AppendSucceeds(f: C.File, c: K.Clone)
    ensures K.Append(f, c).Some? <==> C.Locate(f, c.src).Some?
  {
    hide C.Locate, K.NewBlock;
    C.LocateBounds(f, c.src);
  }

  /** A refused or failed call says so, and a refused one changes nothing. */
  lemma RefusalsChangeNothing(w: World, r: Request, f: Faults)
    requires r.src == r.dst || r.src !in w.dirs || r.dst in w.dirs || |Tenants(w)| >= 21
    ensures Run(w, r, f) == (w, false)
  {
    hide Steps, Instances;
    TenantsAre(w);
  }

  lemma VariablesOf(r: Request, id: nat)
    ensures var c := CloneOf(r, id);
            && c.env == [("NKR_RENAME_FILESTORE_FROM", "db-" + r.src), ("NKR_RENAME_FILESTORE_TO", "db-" + r.dst)]
            && c.vmId == id && c.want == r.want && c.disabled == r.disabled && c.dst == r.dst
  {
  }

  lemma VariableNames()
    ensures IsName("NKR_RENAME_FILESTORE_FROM") && IsName("NKR_RENAME_FILESTORE_TO")
  {
  }

  lemma VariablesApart(r: Request, id: nat)
    ensures forall key :: B.Decided(key) ==> B.EnvApart(CloneOf(r, id), key)
  {
    hide IsName, DbName;
    VariableNames();
    assert "NKR_RENAME_FILESTORE_FROM"[0] == 'N' && "NKR_RENAME_FILESTORE_TO"[0] == 'N';
    assert "id"[0] == 'i' && "ram"[0] == 'r' && "chrs"[0] == 'c' && "balloon_mb"[0] == 'b' && "disabled"[0] == 'd'
      && "skip_warmup"[0] == 's';
  }

  /** The compose block of a clone: it gives the instance the id that the registry gave it, renames the
      filestore from the source's database to the clone's, and has the resources and the flag asked for. */
  lemma BlockOfClone(w: World, r: Request, f: Faults) returns (b: C.File)
    requires Run(w, r, f).1 && !r.noCompose
    ensures Run(w, r, f).0.compose == w.compose + b
    ensures N.GivesValue(b, "NKR_RENAME_FILESTORE_FROM", "db-" + r.src)
            && N.GivesValue(b, "NKR_RENAME_FILESTORE_TO", "db-" + r.dst)
    ensures var c := CloneOf(r, VmId(w.reg, r));
            RT.GoodNames(c) ==>
              && (K.Short(c) != "id" && !K.Contains("id", r.dst) ==> B.SetsNumber(b, "id", VmId(w.reg, r)))
              && (r.want.ram.Some? ==> B.SetsNumber(b, "ram", r.want.ram.value))
              && (r.want.chrs.Some? ==> B.SetsNumber(b, "chrs", r.want.chrs.value))
              && (r.want.balloon.Some? ==> B.SetsNumber(b, "balloon_mb", r.want.balloon.value))
              && B.Sets(b, "disabled", if r.disabled then "true" else "false")
  {
    hide Accepted, Steps, VmId, C.Locate, K.NewBlock, RT.GoodNames, B.Sets, B.SetsNumber, N.GivesValue, K.Contains,
      K.Short, DbName;
    assert Accepted(w, r);
    OkMeansAllSteps(w, r, f);
    ComposePart(w, r, f);
    var id := VmId(w.reg, r);
    var c := CloneOf(r, id);
    C.LocateBounds(w.compose, r.src);
    var at := C.Locate(w.compose, r.src).value;
    var ls := w.compose[at.start..at.end];
    b := K.NewBlock(c, ls);
    N.VariablesAreGiven(c, ls);
    VariablesOf(r, id);
    assert N.GivesValue(b, c.env[0].0, c.env[0].1) && N.GivesValue(b, c.env[1].0, c.env[1].1);
    if RT.GoodNames(c) {
      VariablesApart(r, id);
      B.BlockSays(c, ls);
      assert !K.Contains("id", r.dst) && K.Short(c) != "id" ==> B.KeyIsFree(c, "id");
    }
  }
}
