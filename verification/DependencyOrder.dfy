// Exact dependency resolution: a depth-first search that refuses cycles, absent or disabled plugins
// and version conflicts, and lists every plugin after what it requires.

module Dependencies {
  import opened Basics

  type Name = string
  type Version = string

  datatype Need = Need(name: Name, version: Version)

  /** What dependency resolution reads of a manifest. */
  datatype Manifest = Manifest(version: Version, needs: seq<Need>)

  type Manifests = map<Name, Manifest>

  datatype Refusal =
    | Cycle(name: Name)
    | Missing(name: Name)
    | Conflict(name: Name, need: Need)

  /** One selection to resolve. */
  datatype Problem = Problem(manifests: Manifests, roots: seq<Name>, disabled: set<Name>)

  // ---------------------------------------------------------------- requirement paths

  ghost predicate Requires(ms: Manifests, from: Name, to: Name) {
    from in ms && exists i :: 0 <= i < |ms[from].needs| && ms[from].needs[i].name == to
  }

  /** A path of requirements that starts at a selected plugin. */
  ghost predicate Walk(p: Problem, path: seq<Name>) {
    && path != []
    && path[0] in p.roots
    && forall i :: 0 <= i < |path| - 1 ==> Requires(p.manifests, path[i], path[i + 1])
  }

  ghost predicate Reachable(p: Problem, name: Name) {
    exists path :: Walk(p, path) && path[|path| - 1] == name
  }

  predicate Available(p: Problem, name: Name) {
    name in p.manifests && name !in p.disabled
  }

  /** The plugins required by this one, as far as they exist, have the versions asked for. */
  predicate Exact(p: Problem, name: Name) {
    name in p.manifests ==>
      forall i :: 0 <= i < |p.manifests[name].needs| ==> MeetsNeed(p, p.manifests[name].needs[i])
  }

  predicate MeetsNeed(p: Problem, need: Need) {
    need.name in p.manifests ==> p.manifests[need.name].version == need.version
  }

  predicate Distinct(names: seq<Name>) {
    forall i, k :: 0 <= i < k < |names| ==> names[i] != names[k]
  }

  /** Every requirement path leads to an available plugin with exact requirements, and none returns to itself. */
  ghost predicate Resolvable(p: Problem) {
    forall path :: Walk(p, path) ==> Fine(p, path)
  }

  predicate Fine(p: Problem, path: seq<Name>)
    requires path != []
  {
    var end := path[|path| - 1];
    Distinct(path) && Available(p, end) && Exact(p, end)
  }

  /** The requirement path that justifies a refusal. */
  ghost predicate Blames(p: Problem, path: seq<Name>, why: Refusal) {
    && Walk(p, path)
    && path[|path| - 1] == why.name
    && match why
       case Cycle(name) => name in path[..|path| - 1]
       case Missing(name) => !Available(p, name)
       case Conflict(name, need) =>
         Available(p, name) && need in p.manifests[name].needs && !MeetsNeed(p, need)
  }

  lemma BlameRefutes(p: Problem, path: seq<Name>, why: Refusal)
    requires Blames(p, path, why)
    ensures !Resolvable(p)
  {
    var end := |path| - 1;
    match why {
      case Cycle(name) =>
        var i :| 0 <= i < end && path[..end][i] == name;
        assert path[i] == path[end];
      case Missing(name) =>
      case Conflict(name, need) =>
        assert !Exact(p, name);
    }
    assert !Fine(p, path);
  }

  // ---------------------------------------------------------------- what a dependency-first list means

  /** Requirements come earlier in the list, exist and have exact versions. */
  ghost predicate Settles(p: Problem, listed: seq<Name>, need: Need) {
    need.name in listed && need.name in p.manifests && p.manifests[need.name].version == need.version
  }

  ghost predicate DependencyFirst(p: Problem, order: seq<Name>) {
    forall i :: 0 <= i < |order| ==> Placed(p, order[..i], order[i])
  }

  ghost predicate Placed(p: Problem, before: seq<Name>, name: Name) {
    && name !in before
    && Available(p, name)
    && forall k :: 0 <= k < |p.manifests[name].needs| ==> Settles(p, before, p.manifests[name].needs[k])
  }

  lemma PlacedNext(p: Problem, order: seq<Name>, name: Name)
    requires DependencyFirst(p, order) && Placed(p, order, name)
    ensures DependencyFirst(p, order + [name])
  {
    var more := order + [name];
    forall i | 0 <= i < |more| ensures Placed(p, more[..i], more[i]) {
      assert more[..i] == order[..i];
      assert i == |order| ==> order[..i] == order;
    }
  }

  lemma DependencyFirstDistinct(p: Problem, order: seq<Name>)
    requires DependencyFirst(p, order)
    ensures Distinct(order)
  {
    forall i, k | 0 <= i < k < |order| ensures order[i] != order[k] {
      assert Placed(p, order[..k], order[k]);
      assert order[..k][i] == order[i];
    }
  }

  /** Along a requirement path the positions in a dependency-first list strictly fall. */
  lemma {:induction false} PathDescends(p: Problem, order: seq<Name>, path: seq<Name>) returns (at: seq<nat>)
    requires DependencyFirst(p, order) && Walk(p, path) && forall r :: r in p.roots ==> r in order
    ensures |at| == |path|
    ensures forall i :: 0 <= i < |at| ==> at[i] < |order| && order[at[i]] == path[i]
    ensures forall i, k :: 0 <= i < k < |at| ==> at[k] < at[i]
    decreases |path|
  {
    var last := |path| - 1;
    if last == 0 {
      var j :| 0 <= j < |order| && order[j] == path[0];
      at := [j];
    } else {
      var shorter := PathDescends(p, order, path[..last]);
      var i := shorter[last - 1];
      assert Requires(p.manifests, path[last - 1], path[last]);
      var k :| 0 <= k < |p.manifests[path[last - 1]].needs| && p.manifests[path[last - 1]].needs[k].name == path[last];
      assert Placed(p, order[..i], order[i]);
      assert Settles(p, order[..i], p.manifests[path[last - 1]].needs[k]);
      var j :| 0 <= j < i && order[..i][j] == path[last];
      at := shorter + [j];
    }
  }

  lemma {:induction false} ListedIsReachable(p: Problem, order: seq<Name>, path: seq<Name>)
    requires DependencyFirst(p, order) && (forall r :: r in p.roots ==> r in order) && Walk(p, path)
    ensures path[|path| - 1] in order && Fine(p, path)
  {
    var at := PathDescends(p, order, path);
    var end := |path| - 1;
    forall i, k | 0 <= i < k < |path| ensures path[i] != path[k] {
      DependencyFirstDistinct(p, order);
      assert order[at[k]] == path[k] && order[at[i]] == path[i];
    }
    assert Placed(p, order[..at[end]], order[at[end]]);
    forall k | 0 <= k < |p.manifests[path[end]].needs| ensures MeetsNeed(p, p.manifests[path[end]].needs[k]) {
      assert Settles(p, order[..at[end]], p.manifests[path[end]].needs[k]);
    }
  }

  /** A dependency-first list of the selected plugins exists only for a resolvable selection. */
  lemma ListResolves(p: Problem, order: seq<Name>)
    requires DependencyFirst(p, order) && forall r :: r in p.roots ==> r in order
    ensures Resolvable(p)
    ensures forall name :: Reachable(p, name) ==> name in order
  {
    forall path | Walk(p, path) ensures Fine(p, path) && path[|path| - 1] in order {
      ListedIsReachable(p, order, path);
    }
  }

  lemma WalkOn(p: Problem, path: seq<Name>, name: Name)
    requires Walk(p, path) && Requires(p.manifests, path[|path| - 1], name)
    ensures Walk(p, path + [name])
  {
    var longer := path + [name];
    forall i | 0 <= i < |longer| - 1 ensures Requires(p.manifests, longer[i], longer[i + 1]) {
      assert longer[i] == path[i];
    }
  }

  // ---------------------------------------------------------------- the search

  class Resolver {
    const problem: Problem
    var ordered: seq<Name>
    var visiting: set<Name>
    var visited: set<Name>

    constructor (p: Problem)
      ensures problem == p && Valid([]) && ordered == []
    {
      problem, ordered, visiting, visited := p, [], {}, {};
    }

    /** `path` leads from a selected plugin to the one being visited. */
    ghost predicate Valid(path: seq<Name>)
      reads this
    {
      && DependencyFirst(problem, ordered)
      && (forall name :: name in visited <==> name in ordered)
      && (forall name :: name in visiting <==> name in path)
      && visiting !! visited
      && visiting <= problem.manifests.Keys
      && (forall name :: name in ordered ==> Reachable(problem, name))
      && (path == [] || Walk(problem, path))
    }

    method Visit(name: Name, ghost path: seq<Name>) returns (r: Result<(), Refusal>, ghost bad: seq<Name>)
      requires Valid(path) && Walk(problem, path + [name])
      modifies this`ordered, this`visiting, this`visited
      ensures r.Ok? ==> Valid(path) && name in visited && old(ordered) <= ordered
      ensures r.Ok? ==> visiting == old(visiting)
      ensures r.Err? ==> Blames(problem, bad, r.error)
      decreases problem.manifests.Keys - visiting, 1, 0
    {
      ghost var here := path + [name];
      bad := here;
      if name in visiting { return Err(Cycle(name)), here; }
      if name in visited { return Ok(()), here; }
      if name in problem.disabled || name !in problem.manifests { return Err(Missing(name)), here; }
      visiting := visiting + {name};
      var ok, worse := VisitNeeds(name, here);
      if ok.Err? { return ok, worse; }
      visiting := visiting - {name};
      visited := visited + {name};
      assert name !in path;
      assert Reachable(problem, name);
      PlacedNext(problem, ordered, name);
      ordered := ordered + [name];
      r := Ok(());
    }

    /** The loop over one manifest's requirements, with the plugin itself marked as being visited. */
    method VisitNeeds(name: Name, ghost path: seq<Name>) returns (r: Result<(), Refusal>, ghost bad: seq<Name>)
      requires Valid(path) && path != [] && path[|path| - 1] == name && Available(problem, name)
      modifies this`ordered, this`visiting, this`visited
      ensures r.Ok? ==> Valid(path) && old(ordered) <= ordered && visiting == old(visiting)
      ensures r.Ok? ==> Placed(problem, ordered, name)
      ensures r.Err? ==> Blames(problem, bad, r.error)
      decreases problem.manifests.Keys - visiting, 2, 0
    {
      var needs := problem.manifests[name].needs;
      var i := 0;
      bad := path;
      while i < |needs|
        invariant 0 <= i <= |needs|
        invariant Valid(path) && old(ordered) <= ordered && visiting == old(visiting)
        invariant forall k :: 0 <= k < i ==> Settles(problem, ordered, needs[k])
      {
        var need := needs[i];
        assert Requires(problem.manifests, name, need.name);
        WalkOn(problem, path, need.name);
        ghost var before := ordered;
        var ok, worse := Visit(need.name, path);
        if ok.Err? { return ok, worse; }
        assert need.name in ordered;
        assert Available(problem, need.name) by { ListedIsAvailable(problem, ordered, need.name); }
        if problem.manifests[need.name].version != need.version {
          return Err(Conflict(name, need)), path;
        }
        forall k | 0 <= k < i ensures Settles(problem, ordered, needs[k]) {
          assert Settles(problem, before, needs[k]);
        }
        i := i + 1;
      }
      r := Ok(());
    }
  }

  lemma ListedIsAvailable(p: Problem, order: seq<Name>, name: Name)
    requires DependencyFirst(p, order) && name in order
    ensures Available(p, name)
  {
    var i :| 0 <= i < |order| && order[i] == name;
    assert Placed(p, order[..i], order[i]);
  }

  /** Succeeds exactly for a resolvable selection, with its requirement closure listed once each and
      every plugin after all it requires; a refusal names a path that justifies it. */
  method DependencyOrder(p: Problem) returns (r: Result<seq<Name>, Refusal>)
    ensures r.Ok? <==> Resolvable(p)
    ensures r.Ok? ==> DependencyFirst(p, r.value) && Distinct(r.value)
    ensures r.Ok? ==> forall name :: name in r.value <==> Reachable(p, name)
    ensures r.Err? ==> exists path :: Blames(p, path, r.error)
  {
    var resolver := new Resolver(p);
    var i := 0;
    while i < |p.roots|
      invariant 0 <= i <= |p.roots| && resolver.problem == p
      invariant resolver.Valid([])
      invariant forall k :: 0 <= k < i ==> p.roots[k] in resolver.ordered
    {
      assert Walk(p, [] + [p.roots[i]]);
      ghost var before := resolver.ordered;
      var ok, bad := resolver.Visit(p.roots[i], []);
      if ok.Err? {
        BlameRefutes(p, bad, ok.error);
        return Err(ok.error);
      }
      forall k | 0 <= k < i ensures p.roots[k] in resolver.ordered {
        assert p.roots[k] in before;
      }
      i := i + 1;
    }
    ListResolves(p, resolver.ordered);
    DependencyFirstDistinct(p, resolver.ordered);
    r := Ok(resolver.ordered);
  }

  /** Listing twice, or with the selection already resolved as its own roots, changes nothing about what is listed. */
  lemma ClosureIsStable(p: Problem, order: seq<Name>, again: seq<Name>)
    requires DependencyFirst(p, order) && (forall name :: name in order <==> Reachable(p, name))
    requires DependencyFirst(p.(roots := order), again)
    requires forall name :: name in again <==> Reachable(p.(roots := order), name)
    ensures forall name :: name in again <==> name in order
  {
    var q := p.(roots := order);
    forall name | name in order ensures name in again {
      assert Walk(q, [name]);
    }
    forall name | name in again ensures name in order {
      var path :| Walk(q, path) && path[|path| - 1] == name;
      StaysInside(q, order, path);
    }
  }

  lemma StaysInside(q: Problem, order: seq<Name>, path: seq<Name>)
    requires DependencyFirst(q, order) && q.roots == order && Walk(q, path)
    ensures path[|path| - 1] in order
  {
    ListedIsReachable(q, order, path);
  }
}
