// Staging an installation: every requested package and, on demand, what those require, until each
// staged package's requirements are met exactly by a staged package or by one that stays installed.

module StagingPlans {
  import opened Basics
  import opened Dependencies

  /** What a package source names: a requested source, or a requirement looked up in a catalog. */
  datatype Spec = Requested(source: string) | Required(catalog: Option<string>, name: Name, version: Version)

  datatype Package = Package(id: Name, manifest: Manifest, catalog: Option<string>)

  /** Everything staging reads: what is asked for, what sources resolve to, what is installed, what may not
      be brought back. */
  datatype World = World(
    requested: seq<string>,
    sources: map<Spec, Package>,
    available: map<Name, Manifest>,
    disabled: set<Name>,
    preserveDisabled: bool)

  datatype Refused =
    | Unresolved(spec: Spec)
    | Unexpected(spec: Spec)
    | Disabled(name: Name)
    | Conflicting(name: Name)                 // two requested packages with one identity
    | Mismatch(name: Name, need: Need)
    | Circular(name: Name)

  type Staged = map<Name, Package>

  function Universe(w: World): set<Name> {
    set spec | spec in w.sources :: w.sources[spec].id
  }

  // ---------------------------------------------------------------- what a plan must satisfy

  /** Met by an earlier staged package, or by an installed one that is not replaced. */
  ghost predicate Met(w: World, staged: Staged, before: seq<Name>, need: Need) {
    if need.name in staged then need.name in before && staged[need.name].manifest.version == need.version
    else need.name in w.available && w.available[need.name].version == need.version
  }

  ghost predicate AllMet(w: World, staged: Staged, before: seq<Name>, name: Name) {
    && name in staged && name !in before
    && forall k :: 0 <= k < |staged[name].manifest.needs| ==> Met(w, staged, before, staged[name].manifest.needs[k])
  }

  /** The staged packages in an order where each follows what it requires of the others: no cycle is possible. */
  ghost predicate Layered(w: World, staged: Staged, order: seq<Name>) {
    forall i :: 0 <= i < |order| ==> AllMet(w, staged, order[..i], order[i])
  }

  ghost predicate Extends(w: World, some: Staged, more: Staged) {
    && (forall id :: id in some ==> id in more && more[id] == some[id])
    && (forall id :: id in more && id !in some ==> id !in w.available)
  }

  /** Asked for by a staged package, and looked up in the catalog that package came from. */
  ghost predicate AskedBy(staged: Staged, spec: Spec, asker: Name) {
    && spec.Required? && asker in staged && staged[asker].catalog == spec.catalog
    && Need(spec.name, spec.version) in staged[asker].manifest.needs
  }

  /** What a staged package was resolved from. */
  ghost predicate Sourced(w: World, staged: Staged, id: Name) {
    id in staged && (exists spec :: From(w, staged, id, spec))
  }

  /** Resolved from this source, which was asked for; a requirement by its very name and version. */
  ghost predicate From(w: World, staged: Staged, id: Name, spec: Spec)
    requires id in staged
  {
    && spec in w.sources && w.sources[spec] == staged[id] && Wanted(w, staged, spec)
    && (spec.Required? ==> spec.name == id && spec.version == staged[id].manifest.version)
  }

  ghost predicate Wanted(w: World, staged: Staged, spec: Spec) {
    match spec
    case Requested(source) => source in w.requested
    case Required(_, _, _) => exists asker :: AskedBy(staged, spec, asker)
  }

  ghost predicate Entries(w: World, staged: Staged) {
    && (forall id :: id in staged ==> staged[id].id == id && id in Universe(w) && Sourced(w, staged, id))
    && (w.preserveDisabled ==> forall id :: id in staged ==> id !in w.disabled)
  }

  lemma StillSourced(w: World, some: Staged, more: Staged, id: Name)
    requires Sourced(w, some, id) && forall other :: other in some ==> other in more && more[other] == some[other]
    ensures Sourced(w, more, id)
  {
    var spec :| From(w, some, id, spec);
    if spec.Required? {
      var asker :| AskedBy(some, spec, asker);
      assert AskedBy(more, spec, asker);
    }
    assert From(w, more, id, spec);
  }

  /** Packages staged later never replace an installed one, so what was met stays met. */
  lemma StillMet(w: World, some: Staged, more: Staged, before: seq<Name>, name: Name)
    requires Extends(w, some, more) && AllMet(w, some, before, name) && forall id :: id in before ==> id in some
    ensures AllMet(w, more, before, name)
  {
    var needs := more[name].manifest.needs;
    forall k | 0 <= k < |needs| ensures Met(w, more, before, needs[k]) {
      assert Met(w, some, before, needs[k]);
    }
  }

  ghost predicate MetSoFar(w: World, staged: Staged, before: seq<Name>, needs: seq<Need>) {
    forall k :: 0 <= k < |needs| ==> Met(w, staged, before, needs[k])
  }

  lemma ExtendsOn(w: World, a: Staged, b: Staged, c: Staged)
    requires Extends(w, a, b) && Extends(w, b, c)
    ensures Extends(w, a, c)
  {
  }

  lemma StillLayered(w: World, some: Staged, more: Staged, order: seq<Name>)
    requires Extends(w, some, more) && Layered(w, some, order)
    ensures Layered(w, more, order)
  {
    forall i | 0 <= i < |order| ensures AllMet(w, more, order[..i], order[i]) {
      assert AllMet(w, some, order[..i], order[i]);
      forall id | id in order[..i] ensures id in some {
        var j :| 0 <= j < i && order[j] == id;
        assert AllMet(w, some, order[..j], order[j]);
      }
      StillMet(w, some, more, order[..i], order[i]);
    }
  }

  lemma LayeredIsStaged(w: World, staged: Staged, order: seq<Name>)
    requires Layered(w, staged, order)
    ensures forall id :: id in order ==> id in staged
  {
    forall id | id in order ensures id in staged {
      var j :| 0 <= j < |order| && order[j] == id;
      assert AllMet(w, staged, order[..j], order[j]);
    }
  }

  lemma LayeredNext(w: World, staged: Staged, order: seq<Name>, name: Name)
    requires Layered(w, staged, order) && AllMet(w, staged, order, name)
    ensures Layered(w, staged, order + [name])
  {
    var more := order + [name];
    forall i | 0 <= i < |more| ensures AllMet(w, staged, more[..i], more[i]) {
      assert more[..i] == order[..i];
      assert i == |order| ==> order[..i] == order;
    }
  }

  ghost predicate Needs(staged: Staged, from: Name, to: Name) {
    from in staged && exists k :: 0 <= k < |staged[from].manifest.needs| && staged[from].manifest.needs[k].name == to
  }

  ghost predicate Chain(staged: Staged, path: seq<Name>) {
    forall i :: 0 <= i < |path| - 1 ==> Needs(staged, path[i], path[i + 1])
  }

  /** A layered plan has no requirement cycle: along any chain of staged packages positions fall. */
  lemma {:induction false} NoCycle(w: World, staged: Staged, order: seq<Name>, path: seq<Name>)
    requires Layered(w, staged, order) && (forall id :: id in staged <==> id in order)
    requires Chain(staged, path) && |path| > 1 && forall i :: 0 <= i < |path| ==> path[i] in staged
    ensures path[0] != path[|path| - 1]
  {
    var at := Positions(w, staged, order, path);
    assert order[at[|path| - 1]] == path[|path| - 1] && order[at[0]] == path[0];
    assert AllMet(w, staged, order[..at[0]], order[at[0]]);
    assert order[..at[0]][at[|path| - 1]] == path[|path| - 1];
  }

  lemma {:induction false} Positions(w: World, staged: Staged, order: seq<Name>, path: seq<Name>) returns (at: seq<nat>)
    requires Layered(w, staged, order) && (forall id :: id in staged <==> id in order)
    requires Chain(staged, path) && path != [] && forall i :: 0 <= i < |path| ==> path[i] in staged
    ensures |at| == |path| && forall i :: 0 <= i < |at| ==> at[i] < |order| && order[at[i]] == path[i]
    ensures forall i, k :: 0 <= i < k < |at| ==> at[k] < at[i]
    decreases |path|
  {
    var last := |path| - 1;
    if last == 0 {
      var j :| 0 <= j < |order| && order[j] == path[0];
      at := [j];
    } else {
      var shorter := Positions(w, staged, order, path[..last]);
      var i := shorter[last - 1];
      assert Needs(staged, path[last - 1], path[last]);
      var needs := staged[path[last - 1]].manifest.needs;
      var k :| 0 <= k < |needs| && needs[k].name == path[last];
      assert AllMet(w, staged, order[..i], order[i]);
      assert Met(w, staged, order[..i], needs[k]);
      var j :| 0 <= j < i && order[..i][j] == path[last];
      at := shorter + [j];
    }
  }

  /** Why a plan was refused, against what had been staged by then. */
  ghost predicate Justified(w: World, staged: Staged, why: Refused) {
    match why
    case Unresolved(spec) => Wanted(w, staged, spec) && spec !in w.sources
    case Unexpected(spec) =>
      Wanted(w, staged, spec) && spec.Required? && spec in w.sources &&
      (w.sources[spec].id != spec.name || w.sources[spec].manifest.version != spec.version)
    case Disabled(name) =>
      w.preserveDisabled && name in w.disabled &&
      (exists spec :: Wanted(w, staged, spec) && spec in w.sources && w.sources[spec].id == name)
    case Conflicting(name) =>
      name in staged &&
      (exists spec :: && Wanted(w, staged, spec) && spec in w.sources && w.sources[spec].id == name
                      && w.sources[spec].manifest.version != staged[name].manifest.version)
    case Mismatch(name, need) =>
      && name in staged && need in staged[name].manifest.needs
      && (if need.name in staged then staged[need.name].manifest.version != need.version
          else need.name in w.available && w.available[need.name].version != need.version)
    case Circular(name) =>
      exists path :: |path| > 1 && Chain(staged, path) && path[0] == name && path[|path| - 1] == name
  }

  // ---------------------------------------------------------------- what the search computes

  /** What has been staged, and the packages whose requirements have all been collected, in that order. */
  datatype Plan = Plan(staged: Staged, order: seq<Name>)

  /** A refusal, with what had been staged by then. */
  datatype Stop = Stop(staged: Staged, why: Refused)

  predicate Indexed(w: World, staged: Staged) {
    forall id :: id in staged ==> staged[id].id == id && id in Universe(w)
  }

  /** `_stage_install`. */
  function Stage(w: World, staged: Staged, spec: Spec): (r: Result<Staged, Stop>)
    requires Indexed(w, staged)
    ensures r.Ok? ==> Indexed(w, r.value) && spec in w.sources && w.sources[spec].id in r.value
    ensures r.Ok? && spec.Required? ==> spec.name == w.sources[spec].id
  {
    if spec !in w.sources then Err(Stop(staged, Unresolved(spec)))
    else
      var package := w.sources[spec];
      if spec.Required? && (package.id != spec.name || package.manifest.version != spec.version) then
        Err(Stop(staged, Unexpected(spec)))
      else if w.preserveDisabled && package.id in w.disabled then Err(Stop(staged, Disabled(package.id)))
      else if package.id in staged then
        if staged[package.id].manifest.version != package.manifest.version then Err(Stop(staged, Conflicting(package.id)))
        else Ok(staged)
      else Ok(staged[package.id := package])
  }

  /** `_collect_install`, with the packages whose requirements are being collected. */
  function Collected(w: World, s: Plan, visiting: set<Name>, name: Name): (r: Result<Plan, Stop>)
    requires Indexed(w, s.staged) && name in s.staged
    ensures r.Ok? ==> Indexed(w, r.value.staged)
    decreases Universe(w) - visiting, 1, 0
  {
    if name in s.order then Ok(s)
    else if name in visiting then Err(Stop(s.staged, Circular(name)))
    else
      match AllNeeds(w, s, visiting + {name}, s.staged[name], s.staged[name].manifest.needs)
      case Err(stop) => Err(stop)
      case Ok(t) => Ok(t.(order := t.order + [name]))
  }

  function AllNeeds(w: World, s: Plan, visiting: set<Name>, package: Package, needs: seq<Need>): (r: Result<Plan, Stop>)
    requires Indexed(w, s.staged)
    ensures r.Ok? ==> Indexed(w, r.value.staged)
    decreases Universe(w) - visiting, 3, |needs|
  {
    if needs == [] then Ok(s)
    else
      match OneNeed(w, s, visiting, package, needs[0])
      case Err(stop) => Err(stop)
      case Ok(t) => AllNeeds(w, t, visiting, package, needs[1..])
  }

  /** One requirement: staged already, installed already, or to be staged now. */
  function OneNeed(w: World, s: Plan, visiting: set<Name>, package: Package, need: Need): (r: Result<Plan, Stop>)
    requires Indexed(w, s.staged)
    ensures r.Ok? ==> Indexed(w, r.value.staged)
    decreases Universe(w) - visiting, 2, 0
  {
    if need.name in s.staged then
      if s.staged[need.name].manifest.version != need.version then Err(Stop(s.staged, Mismatch(package.id, need)))
      else Collected(w, s, visiting, need.name)
    else if need.name in w.available then
      if w.available[need.name].version != need.version then Err(Stop(s.staged, Mismatch(package.id, need))) else Ok(s)
    else
      match Stage(w, s.staged, Required(package.catalog, need.name, need.version))
      case Err(stop) => Err(stop)
      case Ok(staged) => Collected(w, s.(staged := staged), visiting, need.name)
  }

  function AllRequested(w: World, staged: Staged, sources: seq<string>): (r: Result<Staged, Stop>)
    requires Indexed(w, staged)
    ensures r.Ok? ==> Indexed(w, r.value)
    decreases |sources|
  {
    if sources == [] then Ok(staged)
    else
      match Stage(w, staged, Requested(sources[0]))
      case Err(stop) => Err(stop)
      case Ok(more) => AllRequested(w, more, sources[1..])
  }

  /** The names of the requested packages, in the order they were asked for. */
  function RootNames(w: World, sources: seq<string>): seq<Name> {
    if sources == [] then []
    else (if Requested(sources[0]) in w.sources then [w.sources[Requested(sources[0])].id] else []) + RootNames(w, sources[1..])
  }

  function AllCollected(w: World, s: Plan, roots: seq<Name>): (r: Result<Plan, Stop>)
    requires Indexed(w, s.staged)
    ensures r.Ok? ==> Indexed(w, r.value.staged)
    decreases |roots|
  {
    if roots == [] then Ok(s)
    else if roots[0] !in s.staged then AllCollected(w, s, roots[1..])
    else
      match Collected(w, s, {}, roots[0])
      case Err(stop) => Err(stop)
      case Ok(t) => AllCollected(w, t, roots[1..])
  }

  /** `_stage_roots`: every requested package first, then all that they require. */
  function StagePlan(w: World): Result<Plan, Stop> {
    match AllRequested(w, map[], w.requested)
    case Err(stop) => Err(stop)
    case Ok(staged) => AllCollected(w, Plan(staged, []), RootNames(w, w.requested))
  }

  // ---------------------------------------------------------------- the search

  class Staging {
    const world: World
    var staged: Staged
    var visiting: set<Name>
    var complete: set<Name>
    ghost var order: seq<Name>

    constructor (w: World)
      ensures world == w && staged == map[] && visiting == {} && order == [] && Valid()
    {
      world, staged, visiting, complete, order := w, map[], {}, {}, [];
    }

    ghost predicate Valid()
      reads this
    {
      Indexed(world, staged) && forall id :: id in complete <==> id in order
    }

    /** `_stage_install`. */
    method StageInstall(spec: Spec) returns (r: Result<Name, Refused>)
      requires Valid()
      modifies this`staged
      ensures Valid()
      ensures r.Ok? ==> Stage(world, old(staged), spec) == Ok(staged) && r.value == world.sources[spec].id
      ensures r.Err? ==> Stage(world, old(staged), spec) == Err(Stop(staged, r.error))
    {
      if spec !in world.sources { return Err(Unresolved(spec)); }
      var package := world.sources[spec];
      if spec.Required? && (package.id != spec.name || package.manifest.version != spec.version) {
        return Err(Unexpected(spec));
      }
      if world.preserveDisabled && package.id in world.disabled { return Err(Disabled(package.id)); }
      if package.id in staged {
        if staged[package.id].manifest.version != package.manifest.version { return Err(Conflicting(package.id)); }
        return Ok(package.id);
      }
      staged := staged[package.id := package];
      r := Ok(package.id);
    }

    /** `_collect_install`. */
    method Collect(name: Name) returns (r: Result<(), Refused>)
      requires Valid() && name in staged
      modifies this
      ensures r.Ok? ==> Valid() && visiting == old(visiting)
      ensures r.Ok? ==> Collected(world, old(Plan(staged, order)), old(visiting), name) == Ok(Plan(staged, order))
      ensures r.Err? ==> Collected(world, old(Plan(staged, order)), old(visiting), name) == Err(Stop(staged, r.error))
      decreases Universe(world) - visiting, 1, 0
    {
      if name in complete { return Ok(()); }
      if name in visiting { return Err(Circular(name)); }
      visiting := visiting + {name};
      r := CollectNeeds(staged[name]);
      if r.Err? { return; }
      visiting := visiting - {name};
      complete := complete + {name};
      order := order + [name];
    }

    method CollectNeeds(package: Package) returns (r: Result<(), Refused>)
      requires Valid()
      modifies this
      ensures r.Ok? ==> Valid() && visiting == old(visiting)
      ensures r.Ok? ==> AllNeeds(world, old(Plan(staged, order)), old(visiting), package, package.manifest.needs) == Ok(Plan(staged, order))
      ensures r.Err? ==> AllNeeds(world, old(Plan(staged, order)), old(visiting), package, package.manifest.needs) == Err(Stop(staged, r.error))
      decreases Universe(world) - visiting, 3, 0
    {
      var needs := package.manifest.needs;
      var i := 0;
      assert needs[0..] == needs;
      while i < |needs|
        invariant 0 <= i <= |needs| && Valid() && visiting == old(visiting)
        invariant AllNeeds(world, old(Plan(staged, order)), visiting, package, needs)
          == AllNeeds(world, Plan(staged, order), visiting, package, needs[i..])
      {
        assert needs[i..][0] == needs[i] && needs[i..][1..] == needs[i + 1..];
        r := CollectNeed(package, needs[i]);
        if r.Err? { return; }
        i := i + 1;
      }
      r := Ok(());
    }

    method CollectNeed(package: Package, need: Need) returns (r: Result<(), Refused>)
      requires Valid()
      modifies this
      ensures r.Ok? ==> Valid() && visiting == old(visiting)
      ensures r.Ok? ==> OneNeed(world, old(Plan(staged, order)), old(visiting), package, need) == Ok(Plan(staged, order))
      ensures r.Err? ==> OneNeed(world, old(Plan(staged, order)), old(visiting), package, need) == Err(Stop(staged, r.error))
      decreases Universe(world) - visiting, 2, 0
    {
      if need.name in staged {
        if staged[need.name].manifest.version != need.version { return Err(Mismatch(package.id, need)); }
        r := Collect(need.name);
      } else if need.name in world.available {
        if world.available[need.name].version != need.version { return Err(Mismatch(package.id, need)); }
        r := Ok(());
      } else {
        var ok := StageInstall(Required(package.catalog, need.name, need.version));
        if ok.Err? { return Err(ok.error); }
        r := Collect(need.name);
      }
    }
  }

  method StageRequested(plan: Staging) returns (r: Result<seq<Name>, Refused>)
    requires plan.Valid() && plan.staged == map[]
    modifies plan`staged
    ensures plan.Valid()
    ensures r.Ok? ==> AllRequested(plan.world, map[], plan.world.requested) == Ok(plan.staged)
    ensures r.Ok? ==> r.value == RootNames(plan.world, plan.world.requested)
    ensures r.Err? ==> AllRequested(plan.world, map[], plan.world.requested) == Err(Stop(plan.staged, r.error))
  {
    var sources := plan.world.requested;
    var roots: seq<Name> := [];
    var i := 0;
    assert sources[0..] == sources;
    while i < |sources|
      invariant 0 <= i <= |sources| && plan.Valid()
      invariant AllRequested(plan.world, map[], sources) == AllRequested(plan.world, plan.staged, sources[i..])
      invariant RootNames(plan.world, sources) == roots + RootNames(plan.world, sources[i..])
    {
      assert sources[i..][0] == sources[i] && sources[i..][1..] == sources[i + 1..];
      var staged := plan.StageInstall(Requested(sources[i]));
      if staged.Err? { return Err(staged.error); }
      Regroup(roots, [staged.value], RootNames(plan.world, sources[i + 1..]));
      roots := roots + [staged.value];
      i := i + 1;
    }
    assert roots + [] == roots;
    r := Ok(roots);
  }

  method CollectAll(plan: Staging, roots: seq<Name>) returns (r: Result<(), Refused>)
    requires plan.Valid() && plan.visiting == {}
    modifies plan
    ensures r.Ok? ==> AllCollected(plan.world, old(Plan(plan.staged, plan.order)), roots) == Ok(Plan(plan.staged, plan.order))
    ensures r.Err? ==> AllCollected(plan.world, old(Plan(plan.staged, plan.order)), roots) == Err(Stop(plan.staged, r.error))
  {
    var i := 0;
    assert roots[0..] == roots;
    while i < |roots|
      invariant 0 <= i <= |roots| && plan.Valid() && plan.visiting == {}
      invariant AllCollected(plan.world, old(Plan(plan.staged, plan.order)), roots)
        == AllCollected(plan.world, Plan(plan.staged, plan.order), roots[i..])
    {
      assert roots[i..][0] == roots[i] && roots[i..][1..] == roots[i + 1..];
      if roots[i] in plan.staged {
        var ok := plan.Collect(roots[i]);
        if ok.Err? { return Err(ok.error); }
      }
      i := i + 1;
    }
    r := Ok(());
  }

  lemma ChainOn(staged: Staged, path: seq<Name>, name: Name)
    requires Chain(staged, path) && path != [] && Needs(staged, path[|path| - 1], name)
    ensures Chain(staged, path + [name])
  {
    var more := path + [name];
    forall i | 0 <= i < |more| - 1 ensures Needs(staged, more[i], more[i + 1]) {
      assert more[i] == path[i];
    }
  }

  lemma ChainPrefix(staged: Staged, path: seq<Name>, name: Name)
    requires Chain(staged, path + [name])
    ensures Chain(staged, path)
  {
    forall i | 0 <= i < |path| - 1 ensures Needs(staged, path[i], path[i + 1]) {
      assert (path + [name])[i] == path[i] && (path + [name])[i + 1] == path[i + 1];
    }
  }

  lemma CycleFound(staged: Staged, path: seq<Name>, name: Name)
    requires Chain(staged, path + [name]) && name in path
    ensures exists cycle :: |cycle| > 1 && Chain(staged, cycle) && cycle[0] == name && cycle[|cycle| - 1] == name
  {
    var j :| 0 <= j < |path| && path[j] == name;
    var cycle := (path + [name])[j..];
    forall i | 0 <= i < |cycle| - 1 ensures Needs(staged, cycle[i], cycle[i + 1]) {
      assert cycle[i] == (path + [name])[i + j] && cycle[i + 1] == (path + [name])[i + j + 1];
    }
    assert |cycle| > 1 && Chain(staged, cycle);
  }

  ghost predicate Requests(w: World, staged: Staged, source: string) {
    var spec := Requested(source);
    && spec in w.sources
    && w.sources[spec].id in staged
    && staged[w.sources[spec].id].manifest.version == w.sources[spec].manifest.version
    && !(w.preserveDisabled && w.sources[spec].id in w.disabled)
  }

  // ---------------------------------------------------------------- what holds of every search

  /** A search under way: `path` is the chain of packages whose requirements are being collected. */
  ghost predicate Sane(w: World, s: Plan, path: seq<Name>) {
    && Entries(w, s.staged) && Layered(w, s.staged, s.order) && Chain(s.staged, path)
    && forall id :: id in path ==> id in s.staged && id !in s.order
  }

  /** A part of the search: it only adds, adds nothing installed, leaves nothing half collected, and is
      refused only for cause. */
  ghost predicate Goes(w: World, s: Plan, path: seq<Name>, r: Result<Plan, Stop>) {
    match r
    case Ok(t) =>
      && Sane(w, t, path) && Extends(w, s.staged, t.staged)
      && (forall id :: id in s.order ==> id in t.order)
      && (forall id :: id in t.staged && id !in s.staged ==> id in t.order)
    case Err(stop) => Entries(w, stop.staged) && Extends(w, s.staged, stop.staged) && Justified(w, stop.staged, stop.why)
  }

  lemma GoesOn(w: World, s: Plan, path: seq<Name>, t: Plan, r: Result<Plan, Stop>)
    requires Goes(w, s, path, Ok(t)) && Goes(w, t, path, r)
    ensures Goes(w, s, path, r)
  {
    match r {
      case Ok(u) => ExtendsOn(w, s.staged, t.staged, u.staged);
      case Err(stop) => ExtendsOn(w, s.staged, t.staged, stop.staged);
    }
  }

  lemma StageEntries(w: World, staged: Staged, spec: Spec)
    requires Entries(w, staged) && Wanted(w, staged, spec)
    ensures match Stage(w, staged, spec)
      case Ok(more) => Entries(w, more) && forall id :: id in staged ==> id in more && more[id] == staged[id]
      case Err(stop) => stop.staged == staged && Justified(w, staged, stop.why)
  {
    var r := Stage(w, staged, spec);
    if r.Ok? && r.value != staged {
      var id := w.sources[spec].id;
      forall other | other in r.value ensures Sourced(w, r.value, other) {
        if other in staged { StillSourced(w, staged, r.value, other); }
        else { NewlySourced(w, staged, r.value, spec); }
      }
    }
  }

  lemma NewlySourced(w: World, some: Staged, more: Staged, spec: Spec)
    requires spec in w.sources && Wanted(w, some, spec)
    requires forall other :: other in some ==> other in more && more[other] == some[other]
    requires var p := w.sources[spec]; p.id in more && more[p.id] == p
    requires var p := w.sources[spec]; spec.Required? ==> spec.name == p.id && spec.version == p.manifest.version
    ensures Sourced(w, more, w.sources[spec].id)
  {
    if spec.Required? {
      var asker :| AskedBy(some, spec, asker);
      assert AskedBy(more, spec, asker);
    }
    assert From(w, more, w.sources[spec].id, spec);
  }

  /** A package staged on demand is new, and no installed one. */
  lemma StageOnDemand(w: World, s: Plan, path: seq<Name>, spec: Spec)
    requires Sane(w, s, path) && Wanted(w, s.staged, spec)
    requires spec.Required? && spec.name !in s.staged && spec.name !in w.available
    ensures match Stage(w, s.staged, spec)
      case Ok(more) =>
        && Sane(w, s.(staged := more), path) && Extends(w, s.staged, more)
        && more.Keys == s.staged.Keys + {spec.name} && more[spec.name].manifest.version == spec.version
      case Err(stop) => stop.staged == s.staged && Justified(w, s.staged, stop.why)
  {
    StageEntries(w, s.staged, spec);
    var r := Stage(w, s.staged, spec);
    if r.Ok? {
      StillLayered(w, s.staged, r.value, s.order);
      StillChain(s.staged, r.value, path);
    }
  }

  lemma StillChain(some: Staged, more: Staged, path: seq<Name>)
    requires Chain(some, path) && forall id :: id in some ==> id in more && more[id] == some[id]
    ensures Chain(more, path)
  {
    forall i | 0 <= i < |path| - 1 ensures Needs(more, path[i], path[i + 1]) {
      assert Needs(some, path[i], path[i + 1]);
    }
  }

  lemma {:induction false} CollectedGoes(w: World, s: Plan, visiting: set<Name>, path: seq<Name>, name: Name)
    requires Sane(w, s, path) && (forall id :: id in visiting <==> id in path)
    requires name in s.staged && Chain(s.staged, path + [name])
    ensures var r := Collected(w, s, visiting, name); Goes(w, s, path, r) && (r.Ok? ==> name in r.value.order)
    decreases Universe(w) - visiting, 1, 0
  {
    if name in s.order {
    } else if name in visiting {
      CycleFound(s.staged, path, name);
    } else {
      var here, package := path + [name], s.staged[name];
      AllNeedsGo(w, s, visiting + {name}, here, package, package.manifest.needs);
      var r := AllNeeds(w, s, visiting + {name}, package, package.manifest.needs);
      if r.Ok? {
        LayeredNext(w, r.value.staged, r.value.order, name);
        ChainPrefix(r.value.staged, path, name);
      }
    }
  }

  lemma {:induction false} AllNeedsGo(w: World, s: Plan, visiting: set<Name>, path: seq<Name>, package: Package, needs: seq<Need>)
    requires Sane(w, s, path) && (forall id :: id in visiting <==> id in path)
    requires path != [] && path[|path| - 1] in s.staged && s.staged[path[|path| - 1]] == package
    requires forall k :: 0 <= k < |needs| ==> needs[k] in package.manifest.needs
    ensures var r := AllNeeds(w, s, visiting, package, needs);
      Goes(w, s, path, r) && (r.Ok? ==> MetSoFar(w, r.value.staged, r.value.order, needs))
    decreases Universe(w) - visiting, 3, |needs|
  {
    if needs != [] {
      OneNeedGoes(w, s, visiting, path, package, needs[0]);
      var one := OneNeed(w, s, visiting, package, needs[0]);
      if one.Ok? {
        AllNeedsGo(w, one.value, visiting, path, package, needs[1..]);
        var r := AllNeeds(w, one.value, visiting, package, needs[1..]);
        GoesOn(w, s, path, one.value, r);
        if r.Ok? { MetFirst(w, one.value, r.value, needs); }
      }
    }
  }

  lemma MetFirst(w: World, s: Plan, t: Plan, needs: seq<Need>)
    requires needs != [] && Met(w, s.staged, s.order, needs[0]) && MetSoFar(w, t.staged, t.order, needs[1..])
    requires Extends(w, s.staged, t.staged) && forall id :: id in s.order ==> id in t.order
    ensures MetSoFar(w, t.staged, t.order, needs)
  {
    forall k | 0 <= k < |needs| ensures Met(w, t.staged, t.order, needs[k]) {
      if k > 0 { assert needs[1..][k - 1] == needs[k]; }
    }
  }

  lemma {:induction false} OneNeedGoes(w: World, s: Plan, visiting: set<Name>, path: seq<Name>, package: Package, need: Need)
    requires Sane(w, s, path) && (forall id :: id in visiting <==> id in path)
    requires path != [] && path[|path| - 1] in s.staged && s.staged[path[|path| - 1]] == package
    requires need in package.manifest.needs
    ensures var r := OneNeed(w, s, visiting, package, need);
      Goes(w, s, path, r) && (r.Ok? ==> Met(w, r.value.staged, r.value.order, need))
    decreases Universe(w) - visiting, 2, 0
  {
    var name := path[|path| - 1];
    var k :| 0 <= k < |package.manifest.needs| && package.manifest.needs[k] == need;
    assert Needs(s.staged, name, need.name);
    if need.name in s.staged {
      ChainOn(s.staged, path, need.name);
      CollectedGoes(w, s, visiting, path, need.name);
    } else if need.name !in w.available {
      var spec := Required(package.catalog, need.name, need.version);
      assert AskedBy(s.staged, spec, name);
      StageOnDemand(w, s, path, spec);
      var staged := Stage(w, s.staged, spec);
      if staged.Ok? {
        var t := s.(staged := staged.value);
        assert Needs(t.staged, name, need.name);
        ChainOn(t.staged, path, need.name);
        CollectedGoes(w, t, visiting, path, need.name);
        var r := Collected(w, t, visiting, need.name);
        if r.Ok? { ExtendsOn(w, s.staged, t.staged, r.value.staged); } else { ExtendsOn(w, s.staged, t.staged, r.error.staged); }
      }
    }
  }

  ghost predicate Rooted(w: World, staged: Staged) {
    forall id :: id in staged ==> Root(w, id)
  }

  /** Asked for by name of its source. */
  ghost predicate Root(w: World, id: Name) {
    exists source :: source in w.requested && Requested(source) in w.sources && w.sources[Requested(source)].id == id
  }

  lemma {:induction false} AllRequestedGo(w: World, staged: Staged, sources: seq<string>)
    requires Entries(w, staged) && Rooted(w, staged) && forall source :: source in sources ==> source in w.requested
    ensures match AllRequested(w, staged, sources)
      case Ok(more) =>
        && Entries(w, more) && Rooted(w, more) && (forall id :: id in staged ==> id in more && more[id] == staged[id])
        && (forall source :: source in sources ==> Requests(w, more, source))
        && (forall id :: id in more && id !in staged ==> id in RootNames(w, sources))
        && (forall id :: id in RootNames(w, sources) ==> id in more)
      case Err(stop) => Entries(w, stop.staged) && Rooted(w, stop.staged) && Justified(w, stop.staged, stop.why)
    decreases |sources|
  {
    if sources != [] {
      var spec := Requested(sources[0]);
      StageEntries(w, staged, spec);
      var one := Stage(w, staged, spec);
      if one.Ok? {
        assert Root(w, w.sources[spec].id);
        AllRequestedGo(w, one.value, sources[1..]);
        var r := AllRequested(w, one.value, sources[1..]);
        if r.Ok? {
          forall source | source in sources ensures Requests(w, r.value, source) {
            if source == sources[0] { assert Requests(w, one.value, source); } else { assert source in sources[1..]; }
          }
        }
      }
    }
  }

  lemma {:induction false} AllCollectedGo(w: World, s: Plan, roots: seq<Name>)
    requires Sane(w, s, []) && forall id :: id in roots ==> id in s.staged
    ensures var r := AllCollected(w, s, roots); Goes(w, s, [], r) && (r.Ok? ==> forall id :: id in roots ==> id in r.value.order)
    decreases |roots|
  {
    if roots != [] {
      CollectedGoes(w, s, {}, [], roots[0]);
      var one := Collected(w, s, {}, roots[0]);
      if one.Ok? {
        AllCollectedGo(w, one.value, roots[1..]);
        GoesOn(w, s, [], one.value, AllCollected(w, one.value, roots[1..]));
      }
    }
  }

  /** What a plan must be to be acceptable: layered, complete, every package asked for and resolved, nothing
      disabled brought back, and installed packages replaced only on request. */
  ghost predicate ClosedPlan(w: World, staged: Staged, order: seq<Name>) {
    && Layered(w, staged, order) && (forall id :: id in staged <==> id in order)
    && Entries(w, staged)
    && (forall source :: source in w.requested ==> Requests(w, staged, source))
    && (forall id :: id in staged && id in w.available ==> Root(w, id))
  }

  /** A plan that the search completes is closed. */
  lemma StagedIsClosed(w: World)
    requires StagePlan(w).Ok?
    ensures ClosedPlan(w, StagePlan(w).value.staged, StagePlan(w).value.order)
  {
    AllRequestedGo(w, map[], w.requested);
    var staged := AllRequested(w, map[], w.requested).value;
    AllCollectedGo(w, Plan(staged, []), RootNames(w, w.requested));
    var t := StagePlan(w).value;
    LayeredIsStaged(w, t.staged, t.order);
    forall source | source in w.requested ensures Requests(w, t.staged, source) {
      assert Requests(w, staged, source);
    }
  }

  /** Of requested sources with one identity the first one asked for is staged. */
  lemma FirstSourceIsStaged(w: World, i: nat)
    requires StagePlan(w).Ok? && i < |w.requested| && Requested(w.requested[i]) in w.sources
    requires var id := w.sources[Requested(w.requested[i])].id;
      forall k :: 0 <= k < i && Requested(w.requested[k]) in w.sources ==> w.sources[Requested(w.requested[k])].id != id
    ensures var package := w.sources[Requested(w.requested[i])];
      var staged := StagePlan(w).value.staged; package.id in staged && staged[package.id] == package
  {
    AllRequestedGo(w, map[], w.requested);
    var staged := AllRequested(w, map[], w.requested).value;
    FirstRequestStays(w, map[], w.requested, i);
    AllCollectedGo(w, Plan(staged, []), RootNames(w, w.requested));
  }

  lemma {:induction false} FirstRequestStays(w: World, staged: Staged, sources: seq<string>, i: nat)
    requires Entries(w, staged) && Rooted(w, staged) && forall source :: source in sources ==> source in w.requested
    requires AllRequested(w, staged, sources).Ok? && i < |sources| && Requested(sources[i]) in w.sources
    requires var id := w.sources[Requested(sources[i])].id;
      && id !in staged
      && forall k :: 0 <= k < i && Requested(sources[k]) in w.sources ==> w.sources[Requested(sources[k])].id != id
    ensures var package := w.sources[Requested(sources[i])];
      var more := AllRequested(w, staged, sources).value; package.id in more && more[package.id] == package
    decreases |sources|
  {
    var one := Stage(w, staged, Requested(sources[0])).value;
    StageEntries(w, staged, Requested(sources[0]));
    assert Root(w, w.sources[Requested(sources[0])].id);
    if i == 0 {
      AllRequestedGo(w, one, sources[1..]);
    } else {
      assert sources[1..][i - 1] == sources[i];
      FirstRequestStays(w, one, sources[1..], i - 1);
    }
  }

  /** A search that is refused had by then staged only what was asked for, and of installed names only
      requested ones, and its reason is found there. */
  lemma RefusedForCause(w: World)
    requires StagePlan(w).Err?
    ensures var stop := StagePlan(w).error;
      && Entries(w, stop.staged) && Justified(w, stop.staged, stop.why)
      && forall id :: id in stop.staged && id in w.available ==> Root(w, id)
  {
    AllRequestedGo(w, map[], w.requested);
    var r := AllRequested(w, map[], w.requested);
    if r.Ok? { AllCollectedGo(w, Plan(r.value, []), RootNames(w, w.requested)); }
  }

  // ---------------------------------------------------------------- when a closed plan is found

  /** Every package's own catalog resolves a requirement that any catalog resolves, and to the same identity
      and version; and one identity and version have one manifest. */
  predicate Uniform(w: World) {
    && (forall spec, other {:trigger SameLookup(w, spec, other)} ::
          spec in w.sources && other in w.sources ==> SameLookup(w, spec, other))
    && (forall spec, other {:trigger SameManifest(w, spec, other)} ::
          spec in w.sources && other in w.sources ==> SameManifest(w, spec, other))
  }

  /** A requirement that resolves also resolves in the catalog of any other package. */
  predicate SameLookup(w: World, spec: Spec, other: Spec)
    requires spec in w.sources && other in w.sources
  {
    spec.Required? ==>
      var own := Required(w.sources[other].catalog, spec.name, spec.version);
      && own in w.sources && w.sources[own].id == w.sources[spec].id
      && w.sources[own].manifest.version == w.sources[spec].manifest.version
  }

  predicate SameManifest(w: World, spec: Spec, other: Spec)
    requires spec in w.sources && other in w.sources
  {
    var p, q := w.sources[spec], w.sources[other];
    p.id == q.id && p.manifest.version == q.manifest.version ==> p.manifest == q.manifest
  }

  /** What has been staged is, but for catalogs, part of the plan. */
  ghost predicate PartOf(staged: Staged, plan: Staged) {
    forall id :: id in staged ==> id in plan && plan[id].manifest == staged[id].manifest
  }

  ghost predicate RootsIn(w: World, staged: Staged) {
    forall id :: Root(w, id) ==> id in staged
  }

  /** What a search with a closed plan at hand keeps. */
  ghost predicate Inside(w: World, staged: Staged, plan: Staged) {
    PartOf(staged, plan) && RootsIn(w, staged)
  }

  ghost predicate Target(w: World, plan: Staged, order: seq<Name>) {
    Uniform(w) && ClosedPlan(w, plan, order)
  }

  lemma ChainInPlan(staged: Staged, plan: Staged, path: seq<Name>)
    requires PartOf(staged, plan) && Chain(staged, path)
    ensures Chain(plan, path)
  {
    forall i | 0 <= i < |path| - 1 ensures Needs(plan, path[i], path[i + 1]) {
      assert Needs(staged, path[i], path[i + 1]);
    }
  }

  /** A package resolved for the plan's own reasons has the plan's manifest. */
  lemma SameAsPlanned(w: World, plan: Staged, spec: Spec)
    requires Uniform(w) && Entries(w, plan) && spec in w.sources
    requires var p := w.sources[spec]; p.id in plan && plan[p.id].manifest.version == p.manifest.version
    ensures plan[w.sources[spec].id].manifest == w.sources[spec].manifest
  {
    var id := w.sources[spec].id;
    assert Sourced(w, plan, id);
    var found :| From(w, plan, id, found);
    assert SameManifest(w, spec, found);
  }

  lemma RootIsStaged(w: World, staged: Staged, plan: Staged, order: seq<Name>, source: string)
    requires Target(w, plan, order) && Indexed(w, staged) && PartOf(staged, plan) && source in w.requested
    ensures Stage(w, staged, Requested(source)).Ok?
    ensures PartOf(Stage(w, staged, Requested(source)).value, plan)
  {
    assert Requests(w, plan, source);
    SameAsPlanned(w, plan, Requested(source));
  }

  /** A planned package that nobody requested was required, by its very name and version. */
  lemma PlannedByNeed(w: World, plan: Staged, name: Name) returns (found: Spec)
    requires Entries(w, plan) && name in plan && !Root(w, name)
    ensures found.Required? && found in w.sources && w.sources[found] == plan[name]
    ensures found.name == name && found.version == plan[name].manifest.version
  {
    assert Sourced(w, plan, name);
    found :| From(w, plan, name, found);
    if found.Requested? { assert Root(w, name); }
  }

  lemma OwnCatalog(w: World, staged: Staged, asker: Name, found: Spec)
    requires Uniform(w) && Entries(w, staged) && asker in staged && found in w.sources && found.Required?
    ensures var own := Required(staged[asker].catalog, found.name, found.version);
      && own in w.sources && w.sources[own].id == w.sources[found].id
      && w.sources[own].manifest.version == w.sources[found].manifest.version
  {
    assert Sourced(w, staged, asker);
    var other :| From(w, staged, asker, other);
    assert SameLookup(w, found, other);
  }

  /** A requirement that is neither staged nor installed is in the plan, and the asker's catalog has it. */
  lemma NeedIsStaged(w: World, staged: Staged, plan: Staged, order: seq<Name>, asker: Name, need: Need)
    requires Target(w, plan, order) && Entries(w, staged) && Inside(w, staged, plan)
    requires asker in staged && need in staged[asker].manifest.needs
    requires need.name !in staged && need.name !in w.available
    ensures var r := Stage(w, staged, Required(staged[asker].catalog, need.name, need.version)); r.Ok? && Inside(w, r.value, plan)
  {
    NeedIsMet(w, plan, order, asker, need);
    var found := PlannedByNeed(w, plan, need.name);
    OwnCatalog(w, staged, asker, found);
    StagesPlanned(w, staged, plan, Required(staged[asker].catalog, need.name, need.version), need.name);
  }

  lemma StagesPlanned(w: World, staged: Staged, plan: Staged, spec: Spec, name: Name)
    requires Uniform(w) && Entries(w, plan) && Indexed(w, staged) && Inside(w, staged, plan)
    requires name in plan && name !in staged && spec in w.sources && spec.Required? && spec.name == name
    requires spec.version == plan[name].manifest.version
    requires w.sources[spec].id == name && w.sources[spec].manifest.version == plan[name].manifest.version
    ensures var r := Stage(w, staged, spec); r.Ok? && Inside(w, r.value, plan)
  {
    SameAsPlanned(w, plan, spec);
  }

  lemma NeedIsMet(w: World, plan: Staged, order: seq<Name>, asker: Name, need: Need)
    requires ClosedPlan(w, plan, order) && asker in plan && need in plan[asker].manifest.needs
    ensures if need.name in plan then plan[need.name].manifest.version == need.version
            else need.name in w.available && w.available[need.name].version == need.version
  {
    var i :| 0 <= i < |order| && order[i] == asker;
    assert AllMet(w, plan, order[..i], order[i]);
    var k :| 0 <= k < |plan[asker].manifest.needs| && plan[asker].manifest.needs[k] == need;
    assert Met(w, plan, order[..i], need);
  }

  /** No chain of staged packages returns to itself when they are part of a closed plan. */
  lemma NoCircle(w: World, staged: Staged, plan: Staged, order: seq<Name>, path: seq<Name>, name: Name)
    requires ClosedPlan(w, plan, order) && PartOf(staged, plan) && Chain(staged, path + [name])
    requires (forall id :: id in path ==> id in staged) && name in staged
    ensures name !in path
  {
    if name in path {
      CycleFound(staged, path, name);
      var j :| 0 <= j < |path| && path[j] == name;
      var cycle := (path + [name])[j..];
      forall i | 0 <= i < |cycle| - 1 ensures Needs(staged, cycle[i], cycle[i + 1]) {
        assert cycle[i] == (path + [name])[i + j] && cycle[i + 1] == (path + [name])[i + j + 1];
      }
      ChainInPlan(staged, plan, cycle);
      forall i | 0 <= i < |cycle| ensures cycle[i] in plan {
        assert cycle[i] == (path + [name])[i + j];
      }
      NoCycle(w, plan, order, cycle);
    }
  }

  /** The search with a closed plan at hand is not refused, and stages only parts of that plan. */
  lemma {:induction false} CollectedFollows(w: World, s: Plan, visiting: set<Name>, path: seq<Name>, name: Name, plan: Staged, order: seq<Name>)
    requires Sane(w, s, path) && (forall id :: id in visiting <==> id in path)
    requires name in s.staged && Chain(s.staged, path + [name])
    requires Target(w, plan, order) && Inside(w, s.staged, plan)
    ensures var r := Collected(w, s, visiting, name); r.Ok? && Inside(w, r.value.staged, plan)
    decreases Universe(w) - visiting, 1, 0
  {
    if name !in s.order {
      NoCircle(w, s.staged, plan, order, path, name);
      StepIn(w, s, path, name);
      AllNeedsFollow(w, s, visiting + {name}, path + [name], s.staged[name], s.staged[name].manifest.needs, plan, order);
    }
  }

  lemma StepIn(w: World, s: Plan, path: seq<Name>, name: Name)
    requires Sane(w, s, path) && name in s.staged && name !in s.order && Chain(s.staged, path + [name])
    ensures Sane(w, s, path + [name])
  {
  }

  lemma {:induction false} AllNeedsFollow(w: World, s: Plan, visiting: set<Name>, path: seq<Name>, package: Package, needs: seq<Need>, plan: Staged, order: seq<Name>)
    requires Sane(w, s, path) && (forall id :: id in visiting <==> id in path)
    requires path != [] && path[|path| - 1] in s.staged && s.staged[path[|path| - 1]] == package
    requires forall k :: 0 <= k < |needs| ==> needs[k] in package.manifest.needs
    requires Target(w, plan, order) && Inside(w, s.staged, plan)
    ensures var r := AllNeeds(w, s, visiting, package, needs); r.Ok? && Inside(w, r.value.staged, plan)
    decreases Universe(w) - visiting, 3, |needs|
  {
    if needs != [] {
      OneNeedFollows(w, s, visiting, path, package, needs[0], plan, order);
      OneNeedGoes(w, s, visiting, path, package, needs[0]);
      AllNeedsFollow(w, OneNeed(w, s, visiting, package, needs[0]).value, visiting, path, package, needs[1..], plan, order);
    }
  }

  lemma {:induction false} OneNeedFollows(w: World, s: Plan, visiting: set<Name>, path: seq<Name>, package: Package, need: Need, plan: Staged, order: seq<Name>)
    requires Sane(w, s, path) && (forall id :: id in visiting <==> id in path)
    requires path != [] && path[|path| - 1] in s.staged && s.staged[path[|path| - 1]] == package
    requires need in package.manifest.needs
    requires Target(w, plan, order) && Inside(w, s.staged, plan)
    ensures var r := OneNeed(w, s, visiting, package, need); r.Ok? && Inside(w, r.value.staged, plan)
    decreases Universe(w) - visiting, 2, 0
  {
    NeedIsPlanned(w, s.staged, plan, order, path[|path| - 1], need);
    if need.name in s.staged {
      NeedChains(s.staged, path, need);
      CollectedFollows(w, s, visiting, path, need.name, plan, order);
    } else if need.name !in w.available {
      var t := Demanded(w, s, path, package, need, plan, order);
      CollectedFollows(w, t, visiting, path, need.name, plan, order);
    }
  }

  lemma NeedChains(staged: Staged, path: seq<Name>, need: Need)
    requires Chain(staged, path) && path != [] && path[|path| - 1] in staged
    requires need in staged[path[|path| - 1]].manifest.needs
    ensures Chain(staged, path + [need.name])
  {
    var needs := staged[path[|path| - 1]].manifest.needs;
    var k :| 0 <= k < |needs| && needs[k] == need;
    assert Needs(staged, path[|path| - 1], need.name);
    ChainOn(staged, path, need.name);
  }

  /** A requirement of a staged package is planned at its version if staged, and else met as installed or planned. */
  lemma NeedIsPlanned(w: World, staged: Staged, plan: Staged, order: seq<Name>, asker: Name, need: Need)
    requires ClosedPlan(w, plan, order) && Inside(w, staged, plan)
    requires asker in staged && need in staged[asker].manifest.needs
    ensures need.name in staged ==> staged[need.name].manifest.version == need.version
    ensures need.name !in staged && need.name in w.available ==> w.available[need.name].version == need.version
  {
    NeedIsMet(w, plan, order, asker, need);
    assert need.name in plan && need.name in w.available ==> Root(w, need.name);
  }

  lemma Demanded(w: World, s: Plan, path: seq<Name>, package: Package, need: Need, plan: Staged, order: seq<Name>) returns (t: Plan)
    requires Sane(w, s, path) && path != [] && path[|path| - 1] in s.staged && s.staged[path[|path| - 1]] == package
    requires need in package.manifest.needs && need.name !in s.staged && need.name !in w.available
    requires Target(w, plan, order) && Inside(w, s.staged, plan)
    ensures Stage(w, s.staged, Required(package.catalog, need.name, need.version)) == Ok(t.staged) && t.order == s.order
    ensures Sane(w, t, path) && Inside(w, t.staged, plan) && need.name in t.staged && Chain(t.staged, path + [need.name])
  {
    var spec := Required(package.catalog, need.name, need.version);
    assert AskedBy(s.staged, spec, path[|path| - 1]);
    NeedIsStaged(w, s.staged, plan, order, path[|path| - 1], need);
    StageOnDemand(w, s, path, spec);
    t := s.(staged := Stage(w, s.staged, spec).value);
    NeedChains(t.staged, path, need);
  }

  lemma {:induction false} AllRequestedFollow(w: World, staged: Staged, sources: seq<string>, plan: Staged, order: seq<Name>)
    requires Target(w, plan, order) && Indexed(w, staged) && PartOf(staged, plan)
    requires forall source :: source in sources ==> source in w.requested
    ensures AllRequested(w, staged, sources).Ok? && PartOf(AllRequested(w, staged, sources).value, plan)
    decreases |sources|
  {
    if sources != [] {
      RootIsStaged(w, staged, plan, order, sources[0]);
      AllRequestedFollow(w, Stage(w, staged, Requested(sources[0])).value, sources[1..], plan, order);
    }
  }

  lemma {:induction false} AllCollectedFollow(w: World, s: Plan, roots: seq<Name>, plan: Staged, order: seq<Name>)
    requires Sane(w, s, []) && forall id :: id in roots ==> id in s.staged
    requires Target(w, plan, order) && Inside(w, s.staged, plan)
    ensures AllCollected(w, s, roots).Ok?
    decreases |roots|
  {
    if roots != [] {
      CollectedFollows(w, s, {}, [], roots[0], plan, order);
      CollectedGoes(w, s, {}, [], roots[0]);
      AllCollectedFollow(w, Collected(w, s, {}, roots[0]).value, roots[1..], plan, order);
    }
  }

  /** With uniform catalogs staging succeeds exactly when a closed plan exists. */
  lemma StagedExactly(w: World)
    requires Uniform(w)
    ensures StagePlan(w).Ok? <==> exists staged, order :: ClosedPlan(w, staged, order)
  {
    if StagePlan(w).Ok? { StagedIsClosed(w); }
    forall plan, order | ClosedPlan(w, plan, order) ensures StagePlan(w).Ok? {
      ClosedIsFound(w, plan, order);
    }
  }

  lemma ClosedIsFound(w: World, plan: Staged, order: seq<Name>)
    requires Uniform(w) && ClosedPlan(w, plan, order)
    ensures StagePlan(w).Ok?
  {
    AllRequestedFollow(w, map[], w.requested, plan, order);
    AllRequestedGo(w, map[], w.requested);
    var staged := AllRequested(w, map[], w.requested).value;
    forall id | Root(w, id) ensures id in staged {
      var source :| source in w.requested && Requested(source) in w.sources && w.sources[Requested(source)].id == id;
      assert Requests(w, staged, source);
    }
    AllCollectedFollow(w, Plan(staged, []), RootNames(w, w.requested), plan, order);
  }

  // ---------------------------------------------------------------- the whole of staging

  /** Staging computes `StagePlan`. Success is a closed plan: every requested package at its own version, each
      requirement met exactly by a staged package or by an installed one that is not replaced, no cycle, and
      installed packages replaced only on request. A refusal has its cause in what was staged by then; with
      uniform catalogs it means that no closed plan exists. */
  method StageRoots(w: World) returns (r: Result<Staged, Refused>, ghost order: seq<Name>)
    ensures r.Ok? ==> StagePlan(w) == Ok(Plan(r.value, order)) && ClosedPlan(w, r.value, order)
    ensures r.Err? ==> StagePlan(w).Err? && StagePlan(w).error.why == r.error
    ensures r.Err? ==> var seen := StagePlan(w).error.staged;
      Entries(w, seen) && Justified(w, seen, r.error) && forall id :: id in seen && id in w.available ==> Root(w, id)
    ensures Uniform(w) ==> (r.Ok? <==> exists staged, order :: ClosedPlan(w, staged, order))
  {
    if Uniform(w) { StagedExactly(w); }
    if StagePlan(w).Ok? { StagedIsClosed(w); } else { RefusedForCause(w); }
    var plan := new Staging(w);
    order := [];
    var roots := StageRequested(plan);
    if roots.Err? { return Err(roots.error), order; }
    var ok := CollectAll(plan, roots.value);
    order := plan.order;
    if ok.Err? { return Err(ok.error), order; }
    r := Ok(plan.staged);
  }

  // ---------------------------------------------------------------- a closed plan that is not found

  const ONE := Manifest("1", [])
  const NEEDS_X := Manifest("1", [Need("x", "1")])
  const A := Package("a", NEEDS_X, Some("one"))
  const B := Package("b", NEEDS_X, Some("two"))
  const X := Package("x", ONE, Some("two"))
  const X_IN_TWO := Required(Some("two"), "x", "1")
  const X_IN_ONE := Required(Some("one"), "x", "1")

  /** Two requested packages from two catalogs require the same third, which only the second catalog has. */
  const TWO_CATALOGS := World(["a", "b"], map[Requested("a") := A, Requested("b") := B, X_IN_TWO := X], map[], {}, false)

  const ALL_THREE: Staged := map["x" := X, "a" := A, "b" := B]

  /** The first to ask decides the catalog: staging is refused, though the three packages are a closed plan. */
  lemma FirstAskerDecides()
    ensures !Uniform(TWO_CATALOGS)
    ensures StagePlan(TWO_CATALOGS) == Err(Stop(map["a" := A, "b" := B], Unresolved(X_IN_ONE)))
    ensures ClosedPlan(TWO_CATALOGS, ALL_THREE, ["x", "a", "b"])
  {
    AskedInOrder();
    ThreeAreClosed();
    CatalogsDiffer();
  }

  lemma CatalogsDiffer()
    ensures !Uniform(TWO_CATALOGS)
  {
    var w := TWO_CATALOGS;
    assert Requested("a") in w.sources && X_IN_TWO in w.sources && X_IN_ONE !in w.sources;
    assert !SameLookup(w, X_IN_TWO, Requested("a"));
  }

  lemma AskedInOrder()
    ensures StagePlan(TWO_CATALOGS) == Err(Stop(map["a" := A, "b" := B], Unresolved(X_IN_ONE)))
  {
    var w := TWO_CATALOGS;
    assert ["a", "b"][1..] == ["b"];
    var none: seq<string>, names: seq<Name> := [], [];
    assert ["b"][1..] == none;
    var one: Staged := map["a" := A];
    var two: Staged := map["a" := A, "b" := B];
    assert Stage(w, map[], Requested("a")) == Ok(one);
    assert Stage(w, one, Requested("b")) == Ok(two);
    assert AllRequested(w, two, none) == Ok(two);
    assert AllRequested(w, one, ["b"]) == Ok(two);
    assert AllRequested(w, map[], ["a", "b"]) == Ok(two);
    assert RootNames(w, none) == names;
    assert RootNames(w, ["b"]) == ["b"] + names;
    assert RootNames(w, ["a", "b"]) == ["a"] + (["b"] + names);
    var s := Plan(two, []);
    assert OneNeed(w, s, {"a"}, A, Need("x", "1")) == Err(Stop(two, Unresolved(X_IN_ONE)));
    assert {} + {"a"} == {"a"};
    assert AllNeeds(w, s, {"a"}, A, [Need("x", "1")]) == Err(Stop(two, Unresolved(X_IN_ONE)));
    assert Collected(w, s, {}, "a") == Err(Stop(two, Unresolved(X_IN_ONE)));
  }

  lemma ThreeAreClosed()
    ensures ClosedPlan(TWO_CATALOGS, ALL_THREE, ["x", "a", "b"])
  {
    var w, plan, order := TWO_CATALOGS, ALL_THREE, ["x", "a", "b"];
    assert order[..0] == [] && order[..1] == ["x"] && order[..2] == ["x", "a"];
    assert AllMet(w, plan, [], "x") && AllMet(w, plan, ["x"], "a") && AllMet(w, plan, ["x", "a"], "b");
    forall id ensures id in plan <==> id in order {
      assert order[0] == "x" && order[1] == "a" && order[2] == "b";
    }
    assert w.requested[0] == "a" && w.requested[1] == "b";
    assert From(w, plan, "a", Requested("a")) && From(w, plan, "b", Requested("b"));
    assert plan["b"].manifest.needs[0] == Need("x", "1");
    assert AskedBy(plan, X_IN_TWO, "b");
    assert From(w, plan, "x", X_IN_TWO);
    assert w.sources[Requested("a")].id == "a" && w.sources[Requested("b")].id == "b" && w.sources[X_IN_TWO].id == "x";
    assert Requests(w, plan, "a") && Requests(w, plan, "b");
  }
}
