/**
 Where instances are placed: the choice of a cell and a source for a new instance, and the rules that
 keep a project in one cell, a cell within its capacity, and an environment unique in its project.
 The new instance lands in the cell of its source.
 */
module Placement {
  import opened Wrappers
  import opened Text
  import I = CloneInstance

  /** A cell, with its Odoo version and the RAM committed to its VMs. */
  datatype CellInfo = CellInfo(name: string, id: nat, version: Option<string>, ram: nat)

  datatype Tier = Production | Staging | Dev

  /** What meta.json says of an instance, and the cell it lives in. */
  datatype Instance = Instance(
    cell: string, project: Option<string>, env: Option<string>, tier: Option<Tier>, source: Option<string>)

  type Instances = map<string, Instance>

  datatype Answer<T> = Ok(value: T) | Refused(error: Error)

  datatype Error =
    | EnvAlreadyExists | CellNotFound | VersionMismatch | VersionUnset | ParentRequired | ParentMustBeProd
    | ParentNotFound | ParentVersion | ParentCellFull | NoCell | AllCellsFull | CellFull | Exists
    | NotFound | InvalidEnv | ProjectInOtherCell | EnvAlreadyTaken
    | SourceParentMismatch | SourceNotAllowed | SourceRequired | SourceMustBeProduction | TemplateMissing
    | SourceNotFound | SameName

  /** A request to create an instance; `cell` is the one given in the body or the URL, and `devMode`
      tells the two modes apart. */
  datatype Create = Create(
    name: string, version: string, project: Option<string>, env: Option<string>, parent: Option<string>,
    source: Option<string>, cell: Option<string>, tier: Tier, devMode: bool, enterprise: bool, bypass: bool)

  // ---------------------------------------------------------------------------------------
  // Looking through the instances; `order` is the order in which directories are listed
  // ---------------------------------------------------------------------------------------

  function FirstOf(insts: Instances, order: seq<string>, p: (string, Instance) -> bool): (r: Option<string>)
    ensures r.Some? ==> r.value in insts && p(r.value, insts[r.value])
    ensures r.None? ==> forall n :: n in insts && n in order ==> !p(n, insts[n])
  {
    if order == [] then None
    else if order[0] in insts && p(order[0], insts[order[0]]) then Some(order[0])
    else FirstOf(insts, order[1..], p)
  }

  /** `find_instance_with_project_and_env`: templates do not count. */
  function FindProjectEnv(insts: Instances, order: seq<string>, project: string, env: string): Option<string> {
    FirstOf(insts, order, (n, i: Instance) => !I.IsTemplate(n) && i.project == Some(project) && i.env == Some(env))
  }

  /** `find_existing_instance_for_project`: templates do count. */
  function FindProject(insts: Instances, order: seq<string>, project: string): Option<string> {
    FirstOf(insts, order, (n, i: Instance) => i.project == Some(project))
  }

  /** The instances that count towards the capacity of a cell. */
  function Tenants(insts: Instances, cell: string): set<string> {
    set n | n in insts && insts[n].cell == cell && !I.IsTemplate(n)
  }

  /** The projects of a cell; an instance without one is a project of its own. */
  function Projects(insts: Instances, cell: string): set<string> {
    set n | n in Tenants(insts, cell) :: if insts[n].project.Some? then insts[n].project.value else n
  }

  // ---------------------------------------------------------------------------------------
  // Choosing a cell
  // ---------------------------------------------------------------------------------------

  function Major(version: string): string {
    version[..Find(version, '.')]
  }

  predicate Matching(c: CellInfo, version: string) {
    c.version.Some? && Major(c.version.value) == Major(version)
  }

  datatype Rank = Rank(projects: nat, ram: nat, id: nat)

  /** The order of the sort key. */
  predicate Less(a: Rank, b: Rank) {
    a.projects < b.projects || (a.projects == b.projects && (a.ram < b.ram || (a.ram == b.ram && a.id < b.id)))
  }

  function RankOf(insts: Instances, c: CellInfo): Rank {
    Rank(|Projects(insts, c.name)|, c.ram, c.id)
  }

  /** The rank without projects, for requests of the older interface. */
  function LoadOf(c: CellInfo): Rank {
    Rank(0, c.ram, c.id)
  }

  /** The first of the cells with the smallest rank. */
  function Smallest(cs: seq<CellInfo>, rank: CellInfo -> Rank): (r: Option<CellInfo>)
    ensures r.None? <==> cs == []
    ensures r.Some? ==> r.value in cs && forall c :: c in cs ==> !Less(rank(c), rank(r.value))
  {
    if cs == [] then None
    else
      var rest := Smallest(cs[1..], rank);
      if rest.None? || !Less(rank(rest.value), rank(cs[0])) then Some(cs[0]) else rest
  }

  function Keep(cs: seq<CellInfo>, p: CellInfo -> bool): (r: seq<CellInfo>)
    ensures forall c :: c in r <==> c in cs && p(c)
  {
    if cs == [] then [] else (if p(cs[0]) then [cs[0]] else []) + Keep(cs[1..], p)
  }

  function FindCell(cells: seq<CellInfo>, name: string): (r: Option<CellInfo>)
    ensures r.Some? ==> r.value in cells && r.value.name == name
    ensures r.None? ==> forall c :: c in cells ==> c.name != name
  {
    if cells == [] then None else if cells[0].name == name then Some(cells[0]) else FindCell(cells[1..], name)
  }

  /** `select_cell_v3` */
  function SelectV3(cells: seq<CellInfo>, insts: Instances, limit: nat, version: string, parent: Option<string>):
    Answer<CellInfo>
  {
    if parent.Some? then
      if parent.value !in insts then Refused(ParentNotFound)
      else
        match FindCell(cells, insts[parent.value].cell)
        case None => Refused(ParentNotFound)
        case Some(c) =>
          if !Matching(c, version) then Refused(ParentVersion)
          else if |Tenants(insts, c.name)| >= I.MAX_ODOOS then Refused(ParentCellFull)
          else Ok(c)
    else
      var candidates := Keep(cells, (c: CellInfo) => Matching(c, version));
      if candidates == [] then Refused(NoCell)
      else
        match Smallest(Keep(candidates, (c: CellInfo) => |Projects(insts, c.name)| < limit),
          (c: CellInfo) => RankOf(insts, c))
        case None => Refused(AllCellsFull)
        case Some(c) => Ok(c)
  }

  /** `select_cell_for_version` */
  function SelectForVersion(cells: seq<CellInfo>, insts: Instances, version: string): Answer<CellInfo> {
    var candidates := Keep(cells, (c: CellInfo) => Matching(c, version));
    if candidates == [] then Refused(NoCell)
    else
      match Smallest(Keep(candidates, (c: CellInfo) => |Tenants(insts, c.name)| < I.MAX_ODOOS), LoadOf)
      case None => Refused(NoCell)
      case Some(c) => Ok(c)
  }

  /** The instance whose cell a new one must share. */
  function EffectiveParent(insts: Instances, order: seq<string>, r: Create): Option<string> {
    if r.parent.Some? then r.parent
    else if r.project.Some? then FindProject(insts, order, r.project.value)
    else None
  }

  /** A staging instance needs a parent, and it must be the production instance if it says so. */
  function StagingRefusal(insts: Instances, r: Create): Option<Error> {
    if r.env != Some("staging") then None
    else if r.parent.None? then Some(ParentRequired)
    else if r.parent.value in insts && insts[r.parent.value].env.Some? && insts[r.parent.value].env.value != "prod" then
      Some(ParentMustBeProd)
    else None
  }

  function ResolveCell(cells: seq<CellInfo>, insts: Instances, order: seq<string>, limit: nat,
    r: Create): Answer<CellInfo> {
    if r.cell.Some? then
      match FindCell(cells, r.cell.value)
      case None => Refused(CellNotFound)
      case Some(c) =>
        if c.version.None? then Refused(VersionUnset)
        else if c.version.value != r.version then Refused(VersionMismatch)
        else Ok(c)
    else if r.env.Some? || r.parent.Some? || r.project.Some? then
      match StagingRefusal(insts, r)
      case Some(e) => Refused(e)
      case None => SelectV3(cells, insts, limit, r.version, EffectiveParent(insts, order, r))
    else SelectForVersion(cells, insts, r.version)
  }

  // ---------------------------------------------------------------------------------------
  // Operations
  // ---------------------------------------------------------------------------------------

  /** `ensure_cell_prefix` */
  function WithPrefix(cell: string, name: string): string {
    if StartsWith(name, cell + "-") then name else cell + "-" + name
  }

  predicate EnvTaken(insts: Instances, order: seq<string>, r: Create) {
    r.project.Some? && r.env.Some? && FindProjectEnv(insts, order, r.project.value, r.env.value).Some?
  }

  /** The source the request names; a parent stands for it. */
  function Named(r: Create): Option<string> {
    if r.source.Some? then r.source else r.parent
  }

  /** The template of a cell. */
  function Template(cell: string, enterprise: bool): string {
    cell + if enterprise then "-odoo-template-enterprise" else "-odoo-template"
  }

  function TemplateOf(insts: Instances, c: CellInfo, r: Create): Answer<string> {
    var t := Template(c.name, r.enterprise);
    if t in insts && insts[t].cell == c.name then Ok(t) else Refused(TemplateMissing)
  }

  /** The instance that is cloned. The tier of a staging source is looked up in the cell that was
      chosen, so only there it can be found wrong. */
  function ChooseSource(insts: Instances, c: CellInfo, r: Create): Answer<string> {
    match r.tier
    case Production =>
      if r.devMode then (if Named(r).Some? then Ok(Named(r).value) else Refused(SourceRequired))
      else if Named(r).Some? then Refused(SourceNotAllowed)
      else TemplateOf(insts, c, r)
    case Staging =>
      (match Named(r)
       case None => Refused(SourceRequired)
       case Some(s) =>
         if s in insts && insts[s].cell == c.name && insts[s].tier !in {None, Some(Production)} then
           Refused(SourceMustBeProduction)
         else Ok(s))
    case Dev =>
      if Named(r).Some? then Refused(SourceNotAllowed) else TemplateOf(insts, c, r)
  }

  /** `clone_instance_with_opts`, as far as the placement goes: the clone lands beside its source. */
  function CloneBeside(cells: seq<CellInfo>, insts: Instances, source: string, name: string,
    r: Create): Answer<Instances> {
    if source == name then Refused(SameName)
    else if source !in insts then Refused(SourceNotFound)
    else
      match FindCell(cells, insts[source].cell)
      case None => Refused(SourceNotFound)
      case Some(c) =>
        if name in insts && insts[name].cell == c.name then Refused(Exists)
        else if c.version != Some(r.version) then Refused(VersionMismatch)
        else if |Tenants(insts, c.name)| >= I.MAX_ODOOS then Refused(CellFull)
        else Ok(insts[name := Instance(c.name, r.project, r.env, Some(r.tier), Some(source))])
  }

  /** `handle_create`, as far as the placement goes: the instances afterwards. */
  function DoCreate(cells: seq<CellInfo>, insts: Instances, order: seq<string>, limit: nat,
    r: Create): Answer<Instances> {
    if r.parent.Some? && r.source.Some? && r.source != r.parent then Refused(SourceParentMismatch)
    else if !r.bypass && EnvTaken(insts, order, r) then Refused(EnvAlreadyExists)
    else
      match ResolveCell(cells, insts, order, limit, r)
      case Refused(e) => Refused(e)
      case Ok(c) =>
        if |Tenants(insts, c.name)| >= I.MAX_ODOOS then Refused(CellFull)
        else
          match ChooseSource(insts, c, r)
          case Refused(e) => Refused(e)
          case Ok(source) =>
            var name := WithPrefix(c.name, r.name);
            if name in insts then Refused(Exists) else CloneBeside(cells, insts, source, name, r)
  }

  predicate ValidEnv(env: Option<string>) {
    env.Some? ==> env.value == "prod" || env.value == "staging" || env.value == "dev"
  }

  /** `handle_adopt_instance` */
  function Adopt(insts: Instances, order: seq<string>, name: string, project: string,
    env: Option<string>): Answer<Instances> {
    if !ValidEnv(env) then Refused(InvalidEnv)
    else if name !in insts then Refused(NotFound)
    else
      var other := FindProject(insts, order, project);
      if other.Some? && insts[other.value].cell != insts[name].cell then Refused(ProjectInOtherCell)
      else if env.Some? && FindProjectEnv(insts, order, project, env.value) !in {None, Some(name)} then
        Refused(EnvAlreadyTaken)
      else
        var i := insts[name];
        Ok(insts[name := Instance(i.cell, Some(project), if env.Some? then env else i.env, i.tier, i.source)])
  }

  // ---------------------------------------------------------------------------------------
  // What the rules are for
  // ---------------------------------------------------------------------------------------

  /** A project lives in one cell. */
  ghost predicate Together(insts: Instances) {
    forall a, b :: a in insts && b in insts && insts[a].project.Some? && insts[a].project == insts[b].project ==>
      insts[a].cell == insts[b].cell
  }

  ghost predicate WithinCapacity(insts: Instances) {
    forall cell: string :: |Tenants(insts, cell)| <= 21
  }

  /** The instance has both a project and an environment, and is no template. */
  predicate Labelled(insts: Instances, n: string) {
    n in insts && !I.IsTemplate(n) && insts[n].project.Some? && insts[n].env.Some?
  }

  ghost predicate UniqueEnvs(insts: Instances) {
    forall a, b ::
      (Labelled(insts, a) && Labelled(insts, b) && insts[a].project == insts[b].project && insts[a].env == insts[b].env)
      ==> a == b
  }

  /** The listing shows all instances. */
  ghost predicate Listing(insts: Instances, order: seq<string>) {
    forall n :: n in insts ==> n in order
  }

  /** Some other tenant has the project and the environment. */
  ghost predicate Duplicate(insts: Instances, name: string, project: Option<string>, env: Option<string>) {
    project.Some? && env.Some? &&
    exists n :: n != name && Labelled(insts, n) && insts[n].project == project && insts[n].env == env
  }

  /** Giving an instance a label keeps the labels unique exactly if no other tenant has the label. */
  lemma LabelKeepsUnique(insts: Instances, name: string, i: Instance)
    requires UniqueEnvs(insts)
    ensures UniqueEnvs(insts[name := i]) <==> I.IsTemplate(name) || !Duplicate(insts, name, i.project, i.env)
  {
    hide I.IsTemplate;
    var after := insts[name := i];
    assert forall n :: n != name ==> (Labelled(after, n) <==> Labelled(insts, n));
    if !I.IsTemplate(name) && Duplicate(insts, name, i.project, i.env) {
      var n :| n != name && Labelled(insts, n) && insts[n].project == i.project && insts[n].env == i.env;
      assert Labelled(after, n) && Labelled(after, name);
    }
  }

  /** A search that finds nothing, or only the instance itself, means that there is no other one. */
  lemma SearchMeansNoDuplicate(insts: Instances, order: seq<string>, name: string, project: string, env: string)
    requires UniqueEnvs(insts) && Listing(insts, order)
    ensures FindProjectEnv(insts, order, project, env) in {None, Some(name)} <==>
            !Duplicate(insts, name, Some(project), Some(env))
  {
    hide I.IsTemplate;
    var r := FindProjectEnv(insts, order, project, env);
    if r.Some? {
      assert Labelled(insts, r.value);
    }
  }

  /** What a successful create did: it cloned the source the request names, or else the template of the
      cell that was chosen, into the cell of that source, which had room. */
  ghost predicate Landed(insts: Instances, after: Instances, r: Create, cell: CellInfo, source: string) {
    var name := WithPrefix(cell.name, r.name);
    && name !in insts && source in insts
    && (if Named(r).Some? then source == Named(r).value else insts[source].cell == cell.name)
    && |Tenants(insts, insts[source].cell)| < I.MAX_ODOOS
    && after == insts[name := Instance(insts[source].cell, r.project, r.env, Some(r.tier), Some(source))]
  }

  lemma CreateLands(cells: seq<CellInfo>, insts: Instances, order: seq<string>, limit: nat, r: Create)
    requires DoCreate(cells, insts, order, limit, r).Ok?
    ensures ResolveCell(cells, insts, order, limit, r).Ok?
    ensures var c := ResolveCell(cells, insts, order, limit, r).value;
            && ChooseSource(insts, c, r).Ok?
            && Landed(insts, DoCreate(cells, insts, order, limit, r).value, r, c, ChooseSource(insts, c, r).value)
    ensures !r.bypass ==> !EnvTaken(insts, order, r)
  {
    hide ResolveCell, EnvTaken, Tenants, WithPrefix, Template;
  }

  /** The name that is created: the one asked for, behind the name of the cell. */
  ghost predicate IsFullName(name: string, cell: string, asked: string) {
    if StartsWith(asked, cell + "-") then name == asked else name == cell + "-" + asked
  }

  /** Everything a successful create has checked and made. The cell of the new instance has the version
      asked for and had room; its source is the one named, or the community or the enterprise template
      of the chosen cell; sources go with the tier and the mode; and a staging instance placed by the
      program has a parent that is not known to be anything but production. */
  lemma CreateMeans(cells: seq<CellInfo>, insts: Instances, order: seq<string>, limit: nat, r: Create)
      returns (name: string, cell: CellInfo)
    requires DoCreate(cells, insts, order, limit, r).Ok?
    ensures ResolveCell(cells, insts, order, limit, r) == Ok(cell) && IsFullName(name, cell.name, r.name)
    ensures name !in insts && name in DoCreate(cells, insts, order, limit, r).value
    ensures DoCreate(cells, insts, order, limit, r).value - {name} == insts
    ensures var i := DoCreate(cells, insts, order, limit, r).value[name];
            && i.project == r.project && i.env == r.env && i.tier == Some(r.tier)
            && i.source.Some? && i.source.value in insts && insts[i.source.value].cell == i.cell
            && (exists c :: c in cells && c.name == i.cell && c.version == Some(r.version))
            && |Tenants(insts, i.cell)| < 21
            && (r.parent.Some? && r.source.Some? ==> r.parent == r.source)
            && (if r.source.Some? || r.parent.Some? then i.source == r.source || i.source == r.parent
                else i.source == Some(cell.name + if r.enterprise then "-odoo-template-enterprise"
                  else "-odoo-template"))
            && (r.tier == Dev ==> r.source.None? && r.parent.None?)
            && (r.tier == Staging ==> r.source.Some? || r.parent.Some?)
            && (r.tier == Production ==> (r.devMode <==> r.source.Some? || r.parent.Some?))
    ensures r.cell.Some? ==> cell.name == r.cell.value && cell.version == Some(r.version)
    ensures r.cell.None? && r.env == Some("staging") ==>
              r.parent.Some? && r.parent.value in insts && insts[r.parent.value].env in {None, Some("prod")}
    ensures r.cell.None? && r.parent.Some? && r.tier == Staging ==>
              r.parent.value in insts && insts[r.parent.value].tier in {None, Some(Production)}
  {
    hide I.IsTemplate, Tenants, EnvTaken, Smallest, Keep, Matching, SelectForVersion;
    CreateLands(cells, insts, order, limit, r);
    cell := ResolveCell(cells, insts, order, limit, r).value;
    name := WithPrefix(cell.name, r.name);
    var after := DoCreate(cells, insts, order, limit, r).value;
    assert after - {name} == insts;
    LandingVersion(cells, insts, order, limit, r);
    if r.cell.None? {
      ParentCell(cells, insts, order, limit, r);
    }
  }

  lemma LandingVersion(cells: seq<CellInfo>, insts: Instances, order: seq<string>, limit: nat, r: Create)
    requires DoCreate(cells, insts, order, limit, r).Ok?
    ensures var c := ResolveCell(cells, insts, order, limit, r).value; var source := ChooseSource(insts, c, r).value;
            source in insts && exists d :: d in cells && d.name == insts[source].cell && d.version == Some(r.version)
  {
    hide ResolveCell, EnvTaken, Tenants, WithPrefix, Template;
    CreateLands(cells, insts, order, limit, r);
    var source := ChooseSource(insts, ResolveCell(cells, insts, order, limit, r).value, r).value;
    var d := FindCell(cells, insts[source].cell).value;
    assert d in cells && d.name == insts[source].cell && d.version == Some(r.version);
  }

  /** Without an explicit cell a parent decides the cell. */
  lemma ParentCell(cells: seq<CellInfo>, insts: Instances, order: seq<string>, limit: nat, r: Create)
    requires r.cell.None? && ResolveCell(cells, insts, order, limit, r).Ok?
    ensures r.parent.Some? ==>
              && r.parent.value in insts
              && insts[r.parent.value].cell == ResolveCell(cells, insts, order, limit, r).value.name
    ensures r.env == Some("staging") ==>
              r.parent.Some? && r.parent.value in insts && insts[r.parent.value].env in {None, Some("prod")}
  {
    hide Tenants, Smallest, Keep, Matching, SelectForVersion;
  }

  /** Creating an instance keeps labels unique exactly if the check was not bypassed for a label that
      is taken, or the new instance is a template. */
  lemma CreateUnique(cells: seq<CellInfo>, insts: Instances, order: seq<string>, limit: nat, r: Create, name: string)
    requires UniqueEnvs(insts) && Listing(insts, order) && name !in insts
    requires DoCreate(cells, insts, order, limit, r).Ok? && name in DoCreate(cells, insts, order, limit, r).value
    ensures UniqueEnvs(DoCreate(cells, insts, order, limit, r).value) <==>
            I.IsTemplate(name) || !(r.bypass && EnvTaken(insts, order, r))
  {
    hide I.IsTemplate, ResolveCell, ChooseSource, DoCreate, WithPrefix, UniqueEnvs, Duplicate, FindProjectEnv, Tenants;
    CreateLands(cells, insts, order, limit, r);
    var after := DoCreate(cells, insts, order, limit, r).value;
    LabelKeepsUnique(insts, name, after[name]);
    if r.project.Some? && r.env.Some? {
      SearchMeansNoDuplicate(insts, order, name, r.project.value, r.env.value);
      NewNameNotFound(insts, order, r.project.value, r.env.value, name);
    } else {
      assert !Duplicate(insts, name, r.project, r.env) by { NoLabelNoDuplicate(insts, name, r.project, r.env); }
    }
  }

  lemma NewNameNotFound(insts: Instances, order: seq<string>, project: string, env: string, name: string)
    requires name !in insts
    ensures FindProjectEnv(insts, order, project, env) != Some(name)
  {
  }

  lemma NoLabelNoDuplicate(insts: Instances, name: string, project: Option<string>, env: Option<string>)
    ensures project.None? || env.None? ==> !Duplicate(insts, name, project, env)
  {
  }

  /** The label an adopted instance ends up with. */
  function AdoptedEnv(insts: Instances, name: string, env: Option<string>): Option<string>
    requires name in insts
  {
    if env.Some? then env else insts[name].env
  }

  /** Adopting an instance keeps labels unique exactly if `env` was given, or the environment the
      instance already had is not taken in its new project, or it is a template. */
  lemma AdoptUnique(insts: Instances, order: seq<string>, name: string, project: string, env: Option<string>)
    requires UniqueEnvs(insts) && Listing(insts, order) && Adopt(insts, order, name, project, env).Ok?
    ensures name in insts
    ensures UniqueEnvs(Adopt(insts, order, name, project, env).value) <==>
            I.IsTemplate(name) || env.Some? || !Duplicate(insts, name, Some(project), insts[name].env)
  {
    hide I.IsTemplate, UniqueEnvs, Duplicate, FindProjectEnv, FindProject;
    LabelKeepsUnique(insts, name,
      Instance(insts[name].cell, Some(project), AdoptedEnv(insts, name, env), insts[name].tier,
                                           insts[name].source));
    if env.Some? {
      SearchMeansNoDuplicate(insts, order, name, project, env.value);
    }
  }

  /** What an adoption does: the instance gets the project, and the environment if one is given; the rest of it
      and all other instances stay. It is refused exactly for an unknown environment or instance, a project
      that the search found in another cell, or an environment that it found taken by another instance. */
  lemma AdoptMeans(insts: Instances, order: seq<string>, name: string, project: string, env: Option<string>)
    requires Together(insts) && UniqueEnvs(insts) && Listing(insts, order)
    ensures var a := Adopt(insts, order, name, project, env);
            a.Ok? <==>
              && env in {None, Some("prod"), Some("staging"), Some("dev")} && name in insts
              && FitsProject(insts, insts[name].cell, Some(project))
              && (env.Some? ==> !Duplicate(insts, name, Some(project), env))
    ensures var a := Adopt(insts, order, name, project, env);
            a.Ok? ==>
              && a.value.Keys == insts.Keys && a.value - {name} == insts - {name}
              && var i, j := insts[name], a.value[name];
                 j.project == Some(project) && j.env == (if env.Some? then env else i.env)
                 && j.cell == i.cell && j.tier == i.tier && j.source == i.source
  {
    hide I.IsTemplate, UniqueEnvs, Duplicate, FindProjectEnv, FitsProject;
    if env.Some? {
      SearchMeansNoDuplicate(insts, order, name, project, env.value);
    }
    if name in insts {
      FoundTogether(insts, order, insts[name].cell, project);
      var a := Adopt(insts, order, name, project, env);
      if a.Ok? { assert a.value - {name} == insts - {name}; }
    }
  }

  lemma FoundTogether(insts: Instances, order: seq<string>, cell: string, project: string)
    requires Together(insts) && Listing(insts, order)
    ensures var other := FindProject(insts, order, project);
            FitsProject(insts, cell, Some(project)) <==> (other.Some? ==> insts[other.value].cell == cell)
  {
    var other := FindProject(insts, order, project);
    if other.Some? {
      assert insts[other.value].project == Some(project);
    }
  }

  /** Without `env` the uniqueness can be lost: two instances that are production of their projects,
      and the second is adopted by the project of the first. */
  lemma AdoptCanDuplicate() returns (insts: Instances, order: seq<string>)
    ensures UniqueEnvs(insts) && Listing(insts, order)
    ensures Adopt(insts, order, "c-b", "p", None).Ok? && !UniqueEnvs(Adopt(insts, order, "c-b", "p", None).value)
  {
    insts := map["c-a" := Instance("c", Some("p"), Some("prod"), None, None),
      "c-b" := Instance("c", Some("q"), Some("prod"), None, None)];
    order := ["c-a", "c-b"];
    assert |"c-a"| == 3 && |"c-b"| == 3 && |"-odoo-template"| > 3 && |"-odoo-template-enterprise"| > 3;
    assert "c-a"[2] != "c-b"[2] && "p"[0] != "q"[0];
    assert FirstOf(insts, order, (n, i: Instance) => i.project == Some("p")) in {None, Some("c-a"), Some("c-b")};
    var after := Adopt(insts, order, "c-b", "p", None).value;
    assert Labelled(after, "c-a") && Labelled(after, "c-b");
  }

  // ---------------------------------------------------------------------------------------
  // Capacity and cell of a project
  // ---------------------------------------------------------------------------------------

  lemma TenantsAfter(insts: Instances, name: string, i: Instance, cell: string)
    requires name !in insts
    ensures |Tenants(insts[name := i], cell)| <= |Tenants(insts, cell)| + if i.cell == cell then 1 else 0
  {
    hide I.IsTemplate;
    var after := Tenants(insts[name := i], cell);
    if i.cell == cell && !I.IsTemplate(name) {
      assert after == Tenants(insts, cell) + {name};
    } else {
      assert after == Tenants(insts, cell);
    }
  }

  /** No cell ever holds more than 21 tenants: the cell the clone lands in is counted. */
  lemma CreateWithinCapacity(cells: seq<CellInfo>, insts: Instances, order: seq<string>, limit: nat, r: Create)
    requires WithinCapacity(insts) && DoCreate(cells, insts, order, limit, r).Ok?
    ensures WithinCapacity(DoCreate(cells, insts, order, limit, r).value)
  {
    hide Tenants, ResolveCell, ChooseSource, DoCreate, EnvTaken, WithPrefix;
    CreateLands(cells, insts, order, limit, r);
    var c := ResolveCell(cells, insts, order, limit, r).value;
    var after := DoCreate(cells, insts, order, limit, r).value;
    var name := WithPrefix(c.name, r.name);
    forall cell: string
      ensures |Tenants(after, cell)| <= 21
    {
      TenantsAfter(insts, name, after[name], cell);
    }
  }

  /** Adopting moves no instance to another cell. */
  lemma AdoptKeepsCells(insts: Instances, order: seq<string>, name: string, project: string, env: Option<string>)
    requires Adopt(insts, order, name, project, env).Ok?
    ensures var after := Adopt(insts, order, name, project, env).value;
            after.Keys == insts.Keys && forall n :: n in insts ==> after[n].cell == insts[n].cell
    ensures WithinCapacity(insts) ==> WithinCapacity(Adopt(insts, order, name, project, env).value)
  {
    hide I.IsTemplate, FindProject, FindProjectEnv;
    var after := Adopt(insts, order, name, project, env).value;
    forall cell: string
      ensures Tenants(after, cell) == Tenants(insts, cell)
    {
    }
  }

  /** Adopting keeps projects together: an instance of the project elsewhere is found. */
  lemma AdoptKeepsTogether(insts: Instances, order: seq<string>, name: string, project: string, env: Option<string>)
    requires Together(insts) && Listing(insts, order) && Adopt(insts, order, name, project, env).Ok?
    ensures Together(Adopt(insts, order, name, project, env).value)
  {
    hide FindProjectEnv;
    var other := FindProject(insts, order, project);
    assert forall n :: n in insts && insts[n].project == Some(project) ==>
      other.Some? && insts[n].cell == insts[other.value].cell;
  }

  /** Whether a cell is where the project of a request already is. */
  ghost predicate FitsProject(insts: Instances, cell: string, project: Option<string>) {
    project.Some? ==> forall n :: n in insts && insts[n].project == project ==> insts[n].cell == cell
  }

  /** What a caller can tell beforehand: the cell of the source it names is where the project is, or
      else the cell it names; the program's own choice needs no condition. */
  ghost predicate SourceFits(insts: Instances, r: Create) {
    if Named(r).Some? then Named(r).value in insts ==> FitsProject(insts, insts[Named(r).value].cell, r.project)
    else r.cell.Some? ==> FitsProject(insts, r.cell.value, r.project)
  }

  /** The label asked for is free, or the check is bypassed. */
  ghost predicate LabelFree(insts: Instances, r: Create) {
    r.bypass || r.project.None? || r.env.None?
    || forall n :: Labelled(insts, n) ==> insts[n].project != r.project || insts[n].env != r.env
  }

  lemma FreeIsNotTaken(insts: Instances, order: seq<string>, r: Create)
    requires LabelFree(insts, r)
    ensures r.bypass || !EnvTaken(insts, order, r)
  {
    hide I.IsTemplate;
    if r.project.Some? && r.env.Some? {
      var n := FindProjectEnv(insts, order, r.project.value, r.env.value);
      assert n.Some? ==> Labelled(insts, n.value);
    }
  }

  /** All cells of a name have the version asked for, and there is room. */
  ghost predicate Receives(cells: seq<CellInfo>, insts: Instances, cell: string, version: string) {
    && (exists c :: c in cells && c.name == cell)
       && (forall c :: c in cells && c.name == cell ==> c.version == Some(version))
    && |Tenants(insts, cell)| < 21
  }

  /** A create from a template succeeds if a cell is chosen that can receive it and has the template, and name
      and label are free. */
  lemma TemplateCreateSucceeds(cells: seq<CellInfo>, insts: Instances, order: seq<string>, limit: nat, r: Create,
    c: CellInfo, name: string)
    requires r.source.None? && r.parent.None? && (r.tier == Dev || (r.tier == Production && !r.devMode))
    requires ResolveCell(cells, insts, order, limit, r) == Ok(c) && Receives(cells, insts, c.name, r.version)
    requires var t := c.name + if r.enterprise then "-odoo-template-enterprise" else "-odoo-template";
             t in insts && insts[t].cell == c.name
    requires IsFullName(name, c.name, r.name) && name !in insts && LabelFree(insts, r)
    ensures DoCreate(cells, insts, order, limit, r).Ok?
  {
    hide ResolveCell, Tenants, EnvTaken, LabelFree;
    FreeIsNotTaken(insts, order, r);
  }

  /** A create from a source succeeds if that and its cell can receive it. */
  lemma SourcedCreateSucceeds(cells: seq<CellInfo>, insts: Instances, order: seq<string>, limit: nat, r: Create,
    c: CellInfo, name: string,
                              source: string)
    requires (r.source == Some(source) && r.parent in {None, Some(source)})
             || (r.source.None? && r.parent == Some(source))
    requires r.tier == Staging || (r.tier == Production && r.devMode)
    requires source in insts && (r.tier == Staging ==> insts[source].tier in {None, Some(Production)})
    requires ResolveCell(cells, insts, order, limit, r) == Ok(c) && |Tenants(insts, c.name)| < 21
    requires Receives(cells, insts, insts[source].cell, r.version)
    requires IsFullName(name, c.name, r.name) && name !in insts && LabelFree(insts, r)
    ensures DoCreate(cells, insts, order, limit, r).Ok?
  {
    hide ResolveCell, Tenants, EnvTaken, LabelFree;
    FreeIsNotTaken(insts, order, r);
  }

  /** Creating keeps projects together exactly if the cell of the source fits the project. */
  lemma CreateTogether(cells: seq<CellInfo>, insts: Instances, order: seq<string>, limit: nat, r: Create)
    requires Together(insts) && Listing(insts, order) && DoCreate(cells, insts, order, limit, r).Ok?
    ensures Together(DoCreate(cells, insts, order, limit, r).value) <==> SourceFits(insts, r)
  {
    hide ResolveCell, ChooseSource, DoCreate, EnvTaken, Tenants, FitsProject, Listing;
    CreateLands(cells, insts, order, limit, r);
    var c := ResolveCell(cells, insts, order, limit, r).value;
    var source := ChooseSource(insts, c, r).value;
    var after := DoCreate(cells, insts, order, limit, r).value;
    TogetherAfter(insts, WithPrefix(c.name, r.name), after[WithPrefix(c.name, r.name)]);
    if Named(r).None? {
      if r.cell.Some? {
        ExplicitCell(cells, insts, order, limit, r);
      } else {
        AutoFits(cells, insts, order, limit, r);
      }
    }
  }

  lemma TogetherAfter(insts: Instances, name: string, i: Instance)
    requires Together(insts) && name !in insts
    ensures Together(insts[name := i]) <==> FitsProject(insts, i.cell, i.project)
  {
    var after := insts[name := i];
    assert forall n :: n in insts ==> n in after && after[n] == insts[n];
    assert name in after && after[name] == i;
  }

  lemma ExplicitCell(cells: seq<CellInfo>, insts: Instances, order: seq<string>, limit: nat, r: Create)
    requires r.cell.Some? && ResolveCell(cells, insts, order, limit, r).Ok?
    ensures ResolveCell(cells, insts, order, limit, r).value.name == r.cell.value
  {
  }

  /** Without an explicit cell and without a parent, the chosen cell fits. */
  lemma AutoFits(cells: seq<CellInfo>, insts: Instances, order: seq<string>, limit: nat, r: Create)
    requires Together(insts) && Listing(insts, order) && r.cell.None? && r.parent.None?
    requires ResolveCell(cells, insts, order, limit, r).Ok?
    ensures FitsProject(insts, ResolveCell(cells, insts, order, limit, r).value.name, r.project)
  {
    hide SelectForVersion, Smallest, Keep, Matching, Tenants, RankOf, StagingRefusal;
    if r.project.Some? {
      var p := EffectiveParent(insts, order, r);
      if p.Some? {
        assert p.value in insts && insts[p.value].project == r.project;
      }
    }
  }

  lemma FewTenants(insts: Instances, cell: string)
    requires |insts| <= 2
    ensures |Tenants(insts, cell)| <= 2
  {
    hide I.IsTemplate;
    SubsetSize(Tenants(insts, cell), insts.Keys);
  }

  lemma {:induction false} SubsetSize(a: set<string>, b: set<string>)
    requires a <= b
    ensures |a| <= |b|
    decreases a
  {
    if a != {} {
      var x :| x in a;
      SubsetSize(a - {x}, b - {x});
    }
  }

  const CELL_A: CellInfo := CellInfo("a", 1, Some("17"), 0)
  const CELL_B: CellInfo := CellInfo("b", 2, Some("17"), 0)

  /** A project in cell a, and another tenant in cell b. */
  function TwoCells(): Instances {
    map["a-x" := Instance("a", Some("p"), None, None, None), "b-y" := Instance("b", None, None, None, None)]
  }

  /** A source in another cell splits the project: the program chooses the project's cell a, and the
      clone lands in b. */
  lemma ForeignSourceSplits() returns (r: Create)
    ensures var cells, order := [CELL_A, CELL_B], ["a-x", "b-y"];
            && Together(TwoCells()) && Listing(TwoCells(), order) && r.cell.None? && r.parent.None? && !r.bypass
            && ResolveCell(cells, TwoCells(), order, 7, r) == Ok(CELL_A)
            && DoCreate(cells, TwoCells(), order, 7, r).Ok?
            && !Together(DoCreate(cells, TwoCells(), order, 7, r).value)
  {
    hide Matching, I.IsTemplate, Tenants, Projects;
    var cells, order, insts := [CELL_A, CELL_B], ["a-x", "b-y"], TwoCells();
    r := Create("z", "17", Some("p"), None, None, Some("b-y"), None, Production, true, false, false);
    Letters();
    TwoCellsFacts();
    FindsTheProject();
    assert CELL_A.name == insts["a-x"].cell && FindCell(cells, "a") == Some(CELL_A);
    SameVersion(CELL_A);
    FindsB();
    assert ResolveCell(cells, insts, order, 7, r) == Ok(CELL_A);
    assert "a-z" !in insts && WithPrefix("a", "z") == "a-z";
    var after := DoCreate(cells, insts, order, 7, r).value;
    assert after["a-z"].cell == "b" && after["a-z"].project == after["a-x"].project && after["a-x"].cell == "a";
  }

  /** An explicit cell is overridden by the parent: the clone stays in the project's cell a. */
  lemma ExplicitCellIgnored() returns (r: Create)
    ensures var cells, order := [CELL_A, CELL_B], ["a-x", "b-y"];
            && r.cell == Some("b") && r.parent == Some("a-x") && r.env == Some("staging")
            && ResolveCell(cells, TwoCells(), order, 7, r) == Ok(CELL_B)
            && DoCreate(cells, TwoCells(), order, 7, r) ==
               Ok(TwoCells()["b-z" := Instance("a", Some("p"), Some("staging"), Some(Staging), Some("a-x"))])
            && Together(DoCreate(cells, TwoCells(), order, 7, r).value)
  {
    hide Matching, I.IsTemplate, Tenants, Projects;
    var cells, order, insts := [CELL_A, CELL_B], ["a-x", "b-y"], TwoCells();
    r := Create("z", "17", Some("p"), Some("staging"), Some("a-x"), None, Some("b"), Staging, false, false, false);
    Letters();
    TwoCellsFacts();
    FindsB();
    NoStaging();
    assert FindCell(cells, "a") == Some(CELL_A);
    assert "b-z" !in insts && WithPrefix("b", "z") == "b-z";
  }

  lemma Letters()
    ensures "a" != "b" && "a-x" != "b-y" && "a-z" !in ["a-x", "b-y"] && "b-z" !in ["a-x", "b-y"]
    ensures !StartsWith("z", "a-") && !StartsWith("z", "b-") && "a-" + "z" == "a-z" && "b-" + "z" == "b-z"
    ensures "a" + "-" == "a-" && "b" + "-" == "b-"
  {
    assert "a"[0] != "b"[0] && "a-x"[0] != "b-y"[0] && "a-z"[2] != "a-x"[2] && "a-z"[0] != "b-y"[0];
    assert "b-z"[2] != "b-y"[2] && "b-z"[0] != "a-x"[0];
  }

  lemma TwoCellsFacts()
    ensures Together(TwoCells()) && Listing(TwoCells(), ["a-x", "b-y"])
    ensures |Tenants(TwoCells(), "a")| <= 2 && |Tenants(TwoCells(), "b")| <= 2
  {
    Letters();
    var insts := TwoCells();
    assert insts.Keys == {"a-x", "b-y"};
    FewTenants(insts, "a");
    FewTenants(insts, "b");
  }

  lemma FindsTheProject()
    ensures FindProject(TwoCells(), ["a-x", "b-y"], "p") == Some("a-x")
  {
    Letters();
    var order := ["a-x", "b-y"];
    assert order[0] in TwoCells() && TwoCells()[order[0]].project == Some("p");
  }

  lemma FindsB()
    ensures FindCell([CELL_A, CELL_B], "b") == Some(CELL_B)
  {
    Letters();
    assert [CELL_A, CELL_B][1..] == [CELL_B];
  }

  lemma SameVersion(c: CellInfo)
    requires c.version == Some("17")
    ensures Matching(c, "17")
  {
  }

  lemma NoStaging()
    ensures FindProjectEnv(TwoCells(), ["a-x", "b-y"], "p", "staging").None?
  {
    Letters();
  }

  // ---------------------------------------------------------------------------------------
  // New projects
  // ---------------------------------------------------------------------------------------

  /** A cell that may take a new project. */
  ghost predicate Eligible(insts: Instances, c: CellInfo, version: string, limit: nat) {
    SameMajor(c, version) && |Projects(insts, c.name)| < limit
  }

  /** The part of a version before its first dot. */
  ghost predicate IsMajor(v: string, m: string) {
    '.' !in m && (v == m || exists rest :: v == m + "." + rest)
  }

  ghost predicate SameMajor(c: CellInfo, version: string) {
    c.version.Some? && exists m :: IsMajor(c.version.value, m) && IsMajor(version, m)
  }

  lemma MajorIs(v: string, m: string)
    ensures IsMajor(v, m) <==> m == Major(v)
  {
    var i := Find(v, '.');
    if i < |v| {
      assert v == v[..i] + "." + v[i + 1..];
    }
    if IsMajor(v, m) {
      if v != m {
        var rest :| v == m + "." + rest;
        assert v[|m|] == '.' && forall j :: 0 <= j < |m| ==> v[j] == m[j];
        assert i == |m|;
      }
      assert v[..|m|] == m;
    }
  }

  lemma MatchingIs(c: CellInfo, version: string)
    ensures Matching(c, version) <==> SameMajor(c, version)
  {
    hide IsMajor, Major;
    if c.version.Some? {
      MajorIs(c.version.value, Major(c.version.value));
      MajorIs(version, Major(version));
      forall m | IsMajor(c.version.value, m) && IsMajor(version, m)
        ensures Major(c.version.value) == m == Major(version)
      {
        MajorIs(c.version.value, m);
        MajorIs(version, m);
      }
    }
  }

  /** What is counted as a project of a cell: the projects of its instances that are no templates, and
      each such instance that belongs to none. */
  lemma ProjectsAre(insts: Instances, cell: string, p: string)
    ensures p in Projects(insts, cell) <==>
            exists n :: n in insts && insts[n].cell == cell
              && (insts[n].project == Some(p) || (insts[n].project.None? && n == p))
                        && !EndsWith(n, "-odoo-template") && !EndsWith(n, "-odoo-template-enterprise")
  {
  }

  /** The cell of a new project: an eligible one, and no eligible one with another id has as few
      projects, then as little RAM, then as small an id; none exactly if no cell is eligible. A new
      instance without a source of its own is created there. */
  lemma NewProjectPlacement(cells: seq<CellInfo>, insts: Instances, order: seq<string>, limit: nat, r: Create)
    requires r.cell.None? && r.parent.None? && r.env != Some("staging")
    requires r.project.Some? && Listing(insts, order) && forall n :: n in insts ==> insts[n].project != r.project
    ensures var a := ResolveCell(cells, insts, order, limit, r);
            if a.Ok? then
              && a.value in cells && Eligible(insts, a.value, r.version, limit)
              && forall c :: c in cells && Eligible(insts, c, r.version, limit) && c.id != a.value.id ==>
                   Less(RankOf(insts, a.value), RankOf(insts, c))
            else forall c :: c in cells ==> !Eligible(insts, c, r.version, limit)
    ensures var a, d := ResolveCell(cells, insts, order, limit, r), DoCreate(cells, insts, order, limit, r);
            d.Ok? && r.source.None? ==>
              && a.Ok? && var name := WithPrefix(a.value.name, r.name);
                 d.value.Keys == insts.Keys + {name} && d.value[name].cell == a.value.name
  {
    hide Matching, SameMajor, Projects, RankOf, Less, DoCreate, ChooseSource, Tenants, WithPrefix;
    forall c
      ensures Matching(c, r.version) <==> SameMajor(c, r.version)
    {
      MatchingIs(c, r.version);
    }
    assert FindProject(insts, order, r.project.value).None?;
    assert EffectiveParent(insts, order, r).None?;
    var matching := Keep(cells, (c: CellInfo) => Matching(c, r.version));
    var free := Keep(matching, (c: CellInfo) => |Projects(insts, c.name)| < limit);
    assert forall c :: c in free <==> c in cells && Eligible(insts, c, r.version, limit);
    var a := ResolveCell(cells, insts, order, limit, r);
    if a.Ok? {
      forall c | c in cells && Eligible(insts, c, r.version, limit) && c.id != a.value.id
        ensures Less(RankOf(insts, a.value), RankOf(insts, c))
      {
        RankDecides(a.value, c, insts);
      }
    }
    if DoCreate(cells, insts, order, limit, r).Ok? {
      CreateLands(cells, insts, order, limit, r);
    }
  }

  /** A request of the older interface, without project, environment and parent, goes to the cell with
      the least RAM among the matching ones with room; it finds none exactly if there is none. */
  lemma OldRequestPlacement(cells: seq<CellInfo>, insts: Instances, order: seq<string>, limit: nat, r: Create)
    requires r.cell.None? && r.parent.None? && r.env.None? && r.project.None?
    ensures var a := ResolveCell(cells, insts, order, limit, r);
            if a.Ok? then
              && a.value in cells && SameMajor(a.value, r.version) && |Tenants(insts, a.value.name)| < 21
              && forall c :: c in cells && SameMajor(c, r.version) && |Tenants(insts, c.name)| < 21 ==>
                   a.value.ram < c.ram || (a.value.ram == c.ram && a.value.id <= c.id)
            else forall c :: c in cells && SameMajor(c, r.version) ==> |Tenants(insts, c.name)| >= 21
  {
    hide Matching, SameMajor, Tenants;
    forall c
      ensures Matching(c, r.version) <==> SameMajor(c, r.version)
    {
      MatchingIs(c, r.version);
    }
    var matching := Keep(cells, (c: CellInfo) => Matching(c, r.version));
    var free := Keep(matching, (c: CellInfo) => |Tenants(insts, c.name)| < I.MAX_ODOOS);
    assert forall c :: c in free <==> c in cells && SameMajor(c, r.version) && |Tenants(insts, c.name)| < 21;
    assert forall c: CellInfo :: LoadOf(c) == Rank(0, c.ram, c.id);
  }

  /** With distinct ids the rank decides. */
  lemma RankDecides(a: CellInfo, b: CellInfo, insts: Instances)
    requires a.id != b.id && !Less(RankOf(insts, b), RankOf(insts, a))
    ensures Less(RankOf(insts, a), RankOf(insts, b))
  {
  }

  // ---------------------------------------------------------------------------------------
  // Runs
  // ---------------------------------------------------------------------------------------

  datatype Op =
    | New(create: Create)
    | Take(name: string, project: string, env: Option<string>)
    | Drop(name: string)

  /** The discipline under which the rules are kept: sources and cells that fit the project, no bypass,
      and adoptions that give an environment. */
  ghost predicate Disciplined(insts: Instances, op: Op) {
    match op
    case New(r) => SourceFits(insts, r) && !r.bypass
    case Take(_, _, env) => env.Some?
    case Drop(_) => true
  }

  /** One request; a refused one changes nothing. */
  function After(cells: seq<CellInfo>, insts: Instances, order: seq<string>, limit: nat, op: Op): Instances {
    match op
    case New(r) =>
      (match DoCreate(cells, insts, order, limit, r)
       case Ok(after) => after
       case Refused(_) => insts)
    case Take(name, project, env) =>
      (match Adopt(insts, order, name, project, env)
       case Ok(after) => after
       case Refused(_) => insts)
    case Drop(name) => insts - {name}
  }

  ghost predicate Rules(insts: Instances) {
    Together(insts) && WithinCapacity(insts) && UniqueEnvs(insts)
  }

  lemma DropKeepsRules(insts: Instances, name: string)
    requires Rules(insts)
    ensures Rules(insts - {name})
  {
    hide I.IsTemplate;
    var after := insts - {name};
    forall cell: string
      ensures |Tenants(after, cell)| <= |Tenants(insts, cell)|
    {
      assert Tenants(after, cell) == Tenants(insts, cell) - {name};
    }
    assert forall n :: Labelled(after, n) ==> Labelled(insts, n);
  }

  lemma NewName(cells: seq<CellInfo>, insts: Instances, order: seq<string>, limit: nat,
    r: Create) returns (name: string)
    requires DoCreate(cells, insts, order, limit, r).Ok?
    ensures name !in insts && name in DoCreate(cells, insts, order, limit, r).value
  {
    hide ResolveCell, ChooseSource, DoCreate, EnvTaken, Tenants, WithPrefix;
    CreateLands(cells, insts, order, limit, r);
    name := WithPrefix(ResolveCell(cells, insts, order, limit, r).value.name, r.name);
  }

  lemma StepKeepsRules(cells: seq<CellInfo>, insts: Instances, order: seq<string>, limit: nat, op: Op)
    requires Rules(insts) && Listing(insts, order) && Disciplined(insts, op)
    ensures Rules(After(cells, insts, order, limit, op))
  {
    hide Together, WithinCapacity, UniqueEnvs, DoCreate, Adopt, Listing, SourceFits, I.IsTemplate, EnvTaken,
      ResolveCell;
    match op
    case New(r) =>
      if DoCreate(cells, insts, order, limit, r).Ok? {
        var name := NewName(cells, insts, order, limit, r);
        CreateUnique(cells, insts, order, limit, r, name);
        CreateWithinCapacity(cells, insts, order, limit, r);
        CreateTogether(cells, insts, order, limit, r);
      }
    case Take(name, project, env) =>
      if Adopt(insts, order, name, project, env).Ok? {
        AdoptUnique(insts, order, name, project, env);
        AdoptKeepsCells(insts, order, name, project, env);
        AdoptKeepsTogether(insts, order, name, project, env);
      }
    case Drop(name) =>
      DropKeepsRules(insts, name);
  }

  /** A run of requests, each with the cells, the limit and the directory listing of its moment. */
  datatype Moment = Moment(cells: seq<CellInfo>, order: seq<string>, limit: nat, op: Op)

  function Play(insts: Instances, run: seq<Moment>): Instances
    decreases |run|
  {
    if run == [] then insts
    else Play(After(run[0].cells, insts, run[0].order, run[0].limit, run[0].op), run[1..])
  }

  ghost predicate GoodRun(insts: Instances, run: seq<Moment>)
    decreases |run|
  {
    run == [] ||
    (&& Listing(insts, run[0].order) && Disciplined(insts, run[0].op)
     && GoodRun(After(run[0].cells, insts, run[0].order, run[0].limit, run[0].op), run[1..]))
  }

  /** Over every run of disciplined requests one after the other: projects stay in one cell, cells
      within their capacity, and environments unique in their project. */
  lemma {:induction false} RunsKeepRules(insts: Instances, run: seq<Moment>)
    requires Rules(insts) && GoodRun(insts, run)
    ensures Rules(Play(insts, run))
    decreases |run|
  {
    hide Rules, After, Listing, Disciplined;
    if run != [] {
      var m := run[0];
      StepKeepsRules(m.cells, insts, m.order, m.limit, m.op);
      RunsKeepRules(After(m.cells, insts, m.order, m.limit, m.op), run[1..]);
    }
  }

  /** Only templates, which belong to no project: how an installation begins. */
  ghost predicate OnlyTemplates(insts: Instances) {
    forall n :: n in insts ==> I.IsTemplate(n) && insts[n].project.None?
  }

  /** So the rules hold over every disciplined run of an installation from its beginning. */
  lemma RunsFromTemplates(insts: Instances, run: seq<Moment>)
    requires OnlyTemplates(insts) && GoodRun(insts, run)
    ensures Rules(Play(insts, run))
  {
    hide GoodRun, Play, I.IsTemplate;
    forall cell: string
      ensures Tenants(insts, cell) == {}
    {
    }
    assert Rules(insts);
    RunsKeepRules(insts, run);
  }
}
