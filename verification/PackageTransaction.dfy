// Installing and removing packages as one transaction over the plugin directories and the receipt:
// directories are moved aside and replaced one by one, and a failure moves everything back.

module PackageTransactions {
  import opened Basics
  import Dependencies

  type Id = string
  type Tree = string                          // a directory's files; equal digests mean equal trees

  datatype Place = Managed(id: Id) | Elsewhere(path: string)
  datatype Record = Record(linked: bool, place: Place, version: string)

  /** The installation lock file of one scope. */
  datatype Receipt = Receipt(packages: map<Id, Record>, disabled: seq<Id>, others: string)

  datatype Install = Install(id: Id, record: Record, tree: Tree)
  datatype Change = Change(installs: seq<Install>, removed: seq<Id>, expected: map<Place, Tree>)

  datatype Failure = LockHeld | StateChanged | SourceChanged | FileError | Unresolvable

  /** One package per identity, and a package that is not linked goes to the managed directory of its name. */
  predicate Proper(c: Change) {
    && (forall i, k :: 0 <= i < k < |c.installs| ==> c.installs[i].id != c.installs[k].id)
    && forall i :: 0 <= i < |c.installs| && !c.installs[i].record.linked ==> c.installs[i].record.place == Managed(c.installs[i].id)
  }

  // ---------------------------------------------------------------- the new receipt

  function Without(ids: seq<Id>, id: Id): seq<Id> {
    if ids == [] then []
    else Without(ids[..|ids| - 1], id) + (if ids[|ids| - 1] == id then [] else [ids[|ids| - 1]])
  }

  function Installed(r: Receipt, installs: seq<Install>): Receipt {
    if installs == [] then r
    else
      var s, i := Installed(r, installs[..|installs| - 1]), installs[|installs| - 1];
      s.(packages := s.packages[i.id := i.record], disabled := Without(s.disabled, i.id))
  }

  function Removed(r: Receipt, removed: seq<Id>): Receipt {
    if removed == [] then r
    else
      var s, id := Removed(r, removed[..|removed| - 1]), removed[|removed| - 1];
      s.(packages := s.packages - {id}, disabled := if id in s.disabled then s.disabled else s.disabled + [id])
  }

  function Applied(r: Receipt, c: Change): Receipt {
    Removed(Installed(r, c.installs), c.removed)
  }

  predicate Adds(c: Change, id: Id) {
    exists i :: 0 <= i < |c.installs| && c.installs[i].id == id
  }

  lemma {:induction false} WithoutExactly(ids: seq<Id>, id: Id)
    ensures forall x :: x in Without(ids, id) <==> x in ids && x != id
    decreases |ids|
  {
    if ids != [] {
      var last := |ids| - 1;
      WithoutExactly(ids[..last], id);
      assert ids == ids[..last] + [ids[last]];
    }
  }

  lemma {:induction false} InstalledRecords(r: Receipt, installs: seq<Install>)
    requires forall i, k :: 0 <= i < k < |installs| ==> installs[i].id != installs[k].id
    ensures forall i :: 0 <= i < |installs| ==>
      installs[i].id in Installed(r, installs).packages && Installed(r, installs).packages[installs[i].id] == installs[i].record
    decreases |installs|
  {
    if installs != [] {
      var front := installs[..|installs| - 1];
      InstalledRecords(r, front);
      assert forall i :: 0 <= i < |front| ==> front[i] == installs[i];
    }
  }

  predicate Among(installs: seq<Install>, id: Id) {
    installs != [] && (installs[|installs| - 1].id == id || Among(installs[..|installs| - 1], id))
  }

  lemma {:induction false} AmongExactly(installs: seq<Install>, id: Id)
    ensures Among(installs, id) <==> exists i :: 0 <= i < |installs| && installs[i].id == id
    decreases |installs|
  {
    if installs != [] {
      var front := installs[..|installs| - 1];
      AmongExactly(front, id);
      assert forall i :: 0 <= i < |front| ==> front[i] == installs[i];
      if i :| 0 <= i < |front| && installs[i].id == id { assert front[i].id == id; }
    }
  }

  lemma {:induction false} InstalledExactly(r: Receipt, installs: seq<Install>, id: Id)
    ensures var s := Installed(r, installs);
      && (!Among(installs, id) ==> (id in s.packages <==> id in r.packages) && (id in r.packages ==> s.packages[id] == r.packages[id]))
      && (id in s.disabled <==> id in r.disabled && !Among(installs, id))
      && s.others == r.others
    decreases |installs|
  {
    if installs != [] {
      var last := |installs| - 1;
      InstalledExactly(r, installs[..last], id);
      WithoutExactly(Installed(r, installs[..last]).disabled, installs[last].id);
    }
  }

  lemma {:induction false} RemovedExactly(r: Receipt, removed: seq<Id>, id: Id)
    ensures var s := Removed(r, removed);
      && (id in s.packages <==> id in r.packages && id !in removed)
      && (id in s.packages ==> s.packages[id] == r.packages[id])
      && (id in s.disabled <==> id in r.disabled || id in removed)
      && s.others == r.others
    decreases |removed|
  {
    if removed != [] {
      var last := |removed| - 1;
      RemovedExactly(r, removed[..last], id);
      assert removed == removed[..last] + [removed[last]];
    }
  }

  /** The receipt afterwards, package by package: removed ones are gone and disabled, installed ones
      are recorded and enabled, and nothing is said of any other. */
  lemma AppliedExactly(r: Receipt, c: Change, id: Id)
    requires Proper(c)
    ensures var s := Applied(r, c);
      && (id in s.packages <==> id !in c.removed && (id in r.packages || Adds(c, id)))
      && (forall i :: 0 <= i < |c.installs| && c.installs[i].id == id && id !in c.removed ==> s.packages[id] == c.installs[i].record)
      && (id in r.packages && id !in c.removed && !Adds(c, id) ==> s.packages[id] == r.packages[id])
      && (id in s.disabled <==> id in c.removed || (id in r.disabled && !Adds(c, id)))
      && s.others == r.others
  {
    InstalledRecords(r, c.installs);
    InstalledExactly(r, c.installs, id);
    AmongExactly(c.installs, id);
    RemovedExactly(Installed(r, c.installs), c.removed, id);
  }

  // ---------------------------------------------------------------- the directories

  /** Every staged package that is not linked, in its place. */
  function Placed(dirs: map<Place, Tree>, installs: seq<Install>): map<Place, Tree> {
    if installs == [] then dirs
    else
      var d, i := Placed(dirs, installs[..|installs| - 1]), installs[|installs| - 1];
      if i.record.linked then d else d[i.record.place := i.tree]
  }

  predicate Owned(before: Receipt, id: Id) {
    id in before.packages && !before.packages[id].linked && before.packages[id].place.Managed?
  }

  /** Managed directories of removed packages are deleted; linked and foreign ones stay. */
  function Swept(dirs: map<Place, Tree>, before: Receipt, removed: seq<Id>): map<Place, Tree> {
    if removed == [] then dirs
    else
      var d, id := Swept(dirs, before, removed[..|removed| - 1]), removed[|removed| - 1];
      if Owned(before, id) then d - {before.packages[id].place} else d
  }

  lemma {:induction false} PlacedExactly(dirs: map<Place, Tree>, installs: seq<Install>, p: Place)
    requires Proper(Change(installs, [], map[]))
    ensures var d := Placed(dirs, installs);
      && (forall i :: 0 <= i < |installs| && !installs[i].record.linked ==>
            Managed(installs[i].id) in d && d[Managed(installs[i].id)] == installs[i].tree)
      && ((forall i :: 0 <= i < |installs| && !installs[i].record.linked ==> Managed(installs[i].id) != p) ==>
            (p in d <==> p in dirs) && (p in dirs ==> d[p] == dirs[p]))
    decreases |installs|
  {
    if installs != [] {
      var last := |installs| - 1;
      var front := installs[..last];
      assert forall i :: 0 <= i < last ==> front[i] == installs[i];
      PlacedExactly(dirs, front, p);
    }
  }

  lemma {:induction false} SweptExactly(dirs: map<Place, Tree>, before: Receipt, removed: seq<Id>, p: Place)
    ensures var d := Swept(dirs, before, removed);
      && (p in d <==> p in dirs && forall i :: 0 <= i < |removed| && removed[i] in before.packages && before.packages[removed[i]].place == p ==>
            before.packages[removed[i]].linked || !p.Managed?)
      && (p in d ==> d[p] == dirs[p])
    decreases |removed|
  {
    if removed != [] {
      var last := |removed| - 1;
      var front := removed[..last];
      SweptExactly(dirs, before, front, p);
      assert forall i :: 0 <= i < last ==> front[i] == removed[i];
      if Owned(before, removed[last]) && before.packages[removed[last]].place == p {
        assert p !in Swept(dirs, before, removed);
      }
    }
  }

  // ---------------------------------------------------------------- the transaction

  /** A planned change: the receipt as read when planning, and the one to be written. */
  class TransactionState {
    const change: Change
    const before: Receipt
    const state: Receipt
    var registered: set<Place>                // places with a backup
    var written: seq<Place>
    var held: bool

    constructor (c: Change, b: Receipt, s: Receipt)
      ensures change == c && before == b && state == s && registered == {} && written == [] && !held
    {
      change, before, state := c, b, s;
      registered, written, held := {}, [], false;
    }
  }

  /** What the rollback writes: it takes a receipt that equals the planned one for its own. */
  function RolledBack(receipt: Receipt, before: Receipt, state: Receipt): Receipt {
    if receipt == state then before else receipt
  }

  // ---------------------------------------------------------------- the graph that is validated

  /** Where the planned packages are, by the last one of a name. */
  function PlaceIn(installs: seq<Install>, id: Id): Option<Place> {
    if installs == [] then None
    else if installs[|installs| - 1].id == id then Some(installs[|installs| - 1].record.place)
    else PlaceIn(installs[..|installs| - 1], id)
  }

  /** What this scope does not change: the packages of other scopes, and what a directory's manifest says. */
  datatype Surroundings = Surroundings(others: map<Id, Tree>, manifestOf: Tree -> Option<Dependencies.Manifest>)

  predicate Legible(w: Surroundings, dirs: map<Place, Tree>, p: Place) {
    p in dirs && w.manifestOf(dirs[p]).Some?
  }

  /** Every installed and every planned package can be read, and no name is claimed by two scopes. */
  predicate AllLegible(w: Surroundings, dirs: map<Place, Tree>, memory: Receipt, c: Change) {
    && (forall id :: id in memory.packages ==> Legible(w, dirs, memory.packages[id].place) && id !in w.others)
    && (forall id :: id in w.others ==> w.manifestOf(w.others[id]).Some?)
    && (forall i :: 0 <= i < |c.installs| ==> Legible(w, dirs, c.installs[i].record.place))
  }

  lemma {:induction false} PlaceInPlan(installs: seq<Install>, id: Id)
    ensures PlaceIn(installs, id).Some? ==> exists i :: 0 <= i < |installs| && installs[i].id == id && installs[i].record.place == PlaceIn(installs, id).value
    ensures PlaceIn(installs, id).None? ==> forall i :: 0 <= i < |installs| ==> installs[i].id != id
    decreases |installs|
  {
    if installs != [] && installs[|installs| - 1].id != id {
      var front := installs[..|installs| - 1];
      PlaceInPlan(front, id);
      assert forall i :: 0 <= i < |front| ==> front[i] == installs[i];
    }
  }

  /** The manifest of a name once the change is made: planned, else installed here, else elsewhere. */
  function ManifestAfter(w: Surroundings, dirs: map<Place, Tree>, memory: Receipt, c: Change, id: Id): Option<Dependencies.Manifest> {
    var planned := PlaceIn(c.installs, id);
    if id in c.removed then None
    else if planned.Some? then (if planned.value in dirs then w.manifestOf(dirs[planned.value]) else None)
    else if id in memory.packages then
      (if memory.packages[id].place in dirs then w.manifestOf(dirs[memory.packages[id].place]) else None)
    else if id in w.others then w.manifestOf(w.others[id])
    else None
  }

  function Names(w: Surroundings, memory: Receipt, c: Change): set<Id> {
    memory.packages.Keys + w.others.Keys + (set i | 0 <= i < |c.installs| :: c.installs[i].id)
  }

  /** The whole installed graph after the change, read back from the directories. */
  function GraphAfter(w: Surroundings, dirs: map<Place, Tree>, memory: Receipt, c: Change): Dependencies.Manifests {
    map id | id in Names(w, memory, c) && ManifestAfter(w, dirs, memory, c, id).Some? :: ManifestAfter(w, dirs, memory, c, id).value
  }

  ghost predicate Lists(names: seq<Id>, ms: Dependencies.Manifests) {
    forall id :: id in names <==> id in ms
  }

  /** Which packages the graph holds after the change, and whose manifest each has: the planned directory's,
      else the one installed here, else the one of another scope. */
  lemma GraphExactly(w: Surroundings, dirs: map<Place, Tree>, memory: Receipt, c: Change, id: Id)
    requires Proper(c) && AllLegible(w, dirs, memory, c)
    ensures var g := GraphAfter(w, dirs, memory, c);
      && (id in g <==> id !in c.removed && (Adds(c, id) || id in memory.packages || id in w.others))
      && (forall i :: 0 <= i < |c.installs| && c.installs[i].id == id && id in g ==>
            Some(g[id]) == w.manifestOf(dirs[c.installs[i].record.place]))
      && (id in g && !Adds(c, id) && id in memory.packages ==> Some(g[id]) == w.manifestOf(dirs[memory.packages[id].place]))
      && (id in g && !Adds(c, id) && id !in memory.packages ==> Some(g[id]) == w.manifestOf(w.others[id]))
  {
    PlaceInPlan(c.installs, id);
  }

  /** All of the graph's packages resolve together. */
  ghost predicate Coherent(ms: Dependencies.Manifests) {
    exists names :: Lists(names, ms) && Dependencies.Resolvable(Dependencies.Problem(ms, names, {}))
  }

  /** In which order they are asked for does not matter. */
  lemma AnyOrder(ms: Dependencies.Manifests, xs: seq<Id>, ys: seq<Id>)
    requires Lists(xs, ms) && Lists(ys, ms) && Dependencies.Resolvable(Dependencies.Problem(ms, xs, {}))
    ensures Dependencies.Resolvable(Dependencies.Problem(ms, ys, {}))
  {
    var p, q := Dependencies.Problem(ms, xs, {}), Dependencies.Problem(ms, ys, {});
    forall path | Dependencies.Walk(q, path) ensures Dependencies.Fine(q, path) {
      assert Dependencies.Walk(p, path);
      assert Dependencies.Fine(p, path);
    }
  }

  method Enumerate(ms: Dependencies.Manifests) returns (names: seq<Id>)
    ensures Lists(names, ms)
  {
    names := [];
    var left := ms.Keys;
    while left != {}
      invariant left <= ms.Keys && forall id :: id in names <==> id in ms.Keys - left
      decreases left
    {
      var id :| id in left;
      names := names + [id];
      left := left - {id};
    }
  }

  class Installation {
    var dirs: map<Place, Tree>
    var backups: map<Place, Tree>             // directories moved aside, by where they came from
    var receipt: Receipt                      // the file
    var memory: Receipt                       // this process's copy
    var luck: nat                             // file operations that will still succeed
    const surroundings: Surroundings

    constructor (d: map<Place, Tree>, r: Receipt, w: Surroundings)
      ensures dirs == d && backups == map[] && receipt == r && memory == r && surroundings == w
      ensures luck == 0
    {
      dirs, backups, receipt, memory, luck, surroundings := d, map[], r, r, 0, w;
    }

    method Succeeds() returns (ok: bool)
      modifies this`luck
      ensures ok <==> old(luck) > 0
      ensures luck == if ok then old(luck) - 1 else 0
    {
      ok := luck > 0;
      if ok { luck := luck - 1; }
    }

    /** Exactly the written places are changed, each with its former content, if any, set aside. */
    ghost predicate Pending(plan: TransactionState, was: map<Place, Tree>)
      reads this, plan
    {
      && (forall p :: p in plan.written ==> (p in plan.registered <==> p in was))
      && (forall p :: p in plan.written ==> (p in backups <==> p in was))
      && (forall p :: p in backups ==> p in plan.written && p in plan.registered && p in was && backups[p] == was[p])
      && (forall p :: p !in plan.written ==> (p in dirs <==> p in was))
      && (forall p :: p !in plan.written && p in was ==> p in dirs && dirs[p] == was[p])
      && forall i, k :: 0 <= i < k < |plan.written| ==> plan.written[i] != plan.written[k]
    }

    /** `_transaction`: the receipt planned is built from memory, the one compared later read from the file. */
    method Plan(c: Change) returns (plan: TransactionState)
      ensures fresh(plan) && plan.change == c && plan.before == receipt && plan.state == Applied(memory, c)
      ensures plan.registered == {} && plan.written == [] && !plan.held
    {
      var state := memory;
      for i := 0 to |c.installs|
        invariant state == Installed(memory, c.installs[..i])
      {
        var install := c.installs[i];
        assert c.installs[..i + 1][..i] == c.installs[..i];
        state := state.(packages := state.packages[install.id := install.record], disabled := Without(state.disabled, install.id));
      }
      assert c.installs[..|c.installs|] == c.installs;
      ghost var installed := state;
      for i := 0 to |c.removed|
        invariant state == Removed(installed, c.removed[..i])
      {
        var id := c.removed[i];
        assert c.removed[..i + 1][..i] == c.removed[..i];
        state := state.(packages := state.packages - {id},
                        disabled := if id in state.disabled then state.disabled else state.disabled + [id]);
      }
      assert c.removed[..|c.removed|] == c.removed;
      plan := new TransactionState(c, receipt, state);
    }

    /** One pass of `_write_transaction_files`: move the old directory aside, bring the new one in. */
    method Replace(plan: TransactionState, install: Install, ghost was: map<Place, Tree>) returns (ok: bool)
      requires Pending(plan, was) && install.record.place !in plan.written
      requires forall p :: p in plan.registered ==> p in plan.written
      modifies this`dirs, this`backups, this`luck, plan`registered, plan`written
      ensures Pending(plan, was)
      ensures ok ==> plan.written == old(plan.written) + [install.record.place]
      ensures ok ==> forall p :: p in plan.registered ==> p in plan.written
      ensures ok ==> dirs == old(dirs)[install.record.place := install.tree]
      ensures old(luck) >= 3 ==> ok && luck >= old(luck) - 3
    {
      var target := install.record.place;
      ok := MoveAside(plan, target, was);
      if !ok { return; }
      ok := Succeeds();
      if !ok { return; }
      ok := Succeeds();
      if ok { dirs := dirs[target := install.tree]; }
    }

    method MoveAside(plan: TransactionState, target: Place, ghost was: map<Place, Tree>) returns (ok: bool)
      requires Pending(plan, was) && target !in plan.written
      requires forall p :: p in plan.registered ==> p in plan.written
      modifies this`dirs, this`backups, this`luck, plan`registered, plan`written
      ensures Pending(plan, was)
      ensures ok ==> plan.written == old(plan.written) + [target]
      ensures ok ==> forall p :: p in plan.registered ==> p in plan.written
      ensures ok ==> dirs == old(dirs) - {target}
      ensures old(luck) >= 1 ==> ok && luck >= old(luck) - 1
    {
      if target in dirs {
        plan.registered := plan.registered + {target};
        ok := Succeeds();
        if !ok { return; }
        backups := backups[target := dirs[target]];
        dirs := dirs - {target};
      }
      plan.written := plan.written + [target];
      ok := true;
    }

    method WriteFiles(plan: TransactionState) returns (ok: bool)
      requires plan.registered == {} && plan.written == [] && backups == map[] && Proper(plan.change)
      modifies this`dirs, this`backups, this`luck, plan`registered, plan`written
      ensures Pending(plan, old(dirs))
      ensures ok ==> dirs == Placed(old(dirs), plan.change.installs)
      ensures old(luck) > 3 * |plan.change.installs| ==> ok && luck > 0
    {
      var installs := plan.change.installs;
      var i := 0;
      while i < |installs|
        invariant 0 <= i <= |installs| && Pending(plan, old(dirs))
        invariant dirs == Placed(old(dirs), installs[..i])
        invariant luck + 3 * i >= old(luck)
        invariant forall p :: p in plan.registered ==> p in plan.written
        invariant forall p :: p in plan.written ==> exists k :: 0 <= k < i && p == Managed(installs[k].id)
      {
        assert installs[..i + 1][..i] == installs[..i];
        if !installs[i].record.linked {
          assert installs[i].record.place !in plan.written;
          ok := Replace(plan, installs[i], old(dirs));
          if !ok { return; }
        }
        i := i + 1;
      }
      assert installs[..|installs|] == installs;
      ok := true;
    }

    /** The directories to be replaced still hold what they held when the change was planned. */
    predicate Unchanged(c: Change)
      reads this`dirs
    {
      forall p :: p in c.expected ==> p in dirs && dirs[p] == c.expected[p]
    }

    /** No file operation fails, and nothing changed since planning. */
    predicate Unhindered(plan: TransactionState, lockFree: bool)
      reads this, plan
    {
      lockFree && receipt == plan.before && Unchanged(plan.change) && luck > 3 * |plan.change.installs|
    }

    /** `_prepare_transaction`. */
    method Prepare(plan: TransactionState, lockFree: bool) returns (r: Result<(), Failure>)
      requires plan.registered == {} && plan.written == [] && !plan.held && backups == map[] && Proper(plan.change)
      modifies this`dirs, this`backups, this`receipt, this`luck, plan
      ensures Pending(plan, old(dirs))
      ensures plan.held == lockFree && (r.Err? ==> receipt == old(receipt))
      ensures !lockFree ==> r == Err(LockHeld) && plan.written == []
      ensures r.Ok? ==> old(receipt) == plan.before && receipt == plan.state && Placed(old(dirs), plan.change.installs) == dirs
      ensures r == Err(LockHeld) <==> !lockFree
      ensures r == Err(StateChanged) <==> lockFree && old(receipt) != plan.before
      ensures r == Err(SourceChanged) <==> lockFree && old(receipt) == plan.before && !old(Unchanged(plan.change))
      ensures r == Err(StateChanged) || r == Err(SourceChanged) ==> plan.written == []
      ensures r.Ok? ==> old(Unchanged(plan.change))
      ensures r.Err? && r.error == FileError ==> old(luck) <= 3 * |plan.change.installs|
      ensures r != Err(Unresolvable)
      ensures old(Unhindered(plan, lockFree)) ==> r.Ok?
    {
      if !lockFree { return Err(LockHeld); }
      plan.held := true;
      if receipt != plan.before { return Err(StateChanged); }
      if !Unchanged(plan.change) { return Err(SourceChanged); }
      var ok := WriteFiles(plan);
      if !ok { return Err(FileError); }
      ok := Succeeds();
      if !ok { return Err(FileError); }
      receipt := plan.state;
      r := Ok(());
    }

    /** `_restore_transaction`, last directory first. */
    method Restore(plan: TransactionState, ghost was: map<Place, Tree>)
      requires Pending(plan, was)
      modifies this`dirs, this`backups, this`receipt
      ensures plan.held ==> dirs == was && backups == map[] && receipt == RolledBack(old(receipt), plan.before, plan.state)
      ensures !plan.held ==> dirs == old(dirs) && backups == old(backups) && receipt == old(receipt)
    {
      if !plan.held { return; }
      var left := |plan.written|;
      assert plan.written[..left] == plan.written;
      while left > 0
        invariant 0 <= left <= |plan.written| && receipt == old(receipt)
        invariant Unrestored(plan.written[..left], was)
      {
        var target := plan.written[left - 1];
        assert plan.written[..left] == plan.written[..left - 1] + [target];
        RestoreLast(plan.written[..left - 1], target, target in plan.registered, was);
        left := left - 1;
      }
      assert dirs == was;
      assert backups == map[];
      if receipt == plan.state { receipt := plan.before; }
    }

    /** These places are still changed, with what they held set aside; every other one is as it was. */
    ghost predicate Unrestored(places: seq<Place>, was: map<Place, Tree>)
      reads this`dirs, this`backups
    {
      && (forall p :: p in places ==> (p in backups <==> p in was))
      && (forall p :: p in backups ==> p in places && p in was && backups[p] == was[p])
      && (forall p :: p !in places ==> (p in dirs <==> p in was) && (p in was ==> dirs[p] == was[p]))
    }

    method RestoreLast(ghost rest: seq<Place>, target: Place, registered: bool, ghost was: map<Place, Tree>)
      requires Unrestored(rest + [target], was) && target !in rest && (registered <==> target in was)
      modifies this`dirs, this`backups
      ensures Unrestored(rest, was)
    {
      assert target in rest + [target];
      dirs := dirs - {target};
      if registered {
        dirs := dirs[target := backups[target]];
        backups := backups - {target};
      }
    }

    /** `_finish_transaction`. */
    method Finish(plan: TransactionState, ghost was: map<Place, Tree>)
      requires Pending(plan, was)
      modifies this`dirs, this`backups, this`memory
      ensures dirs == Swept(old(dirs), plan.before, plan.change.removed) && backups == map[] && memory == plan.state
    {
      memory := plan.state;
      backups := backups - plan.registered;
      assert backups == map[];
      var removed := plan.change.removed;
      for i := 0 to |removed|
        invariant dirs == Swept(old(dirs), plan.before, removed[..i]) && backups == map[] && memory == plan.state
      {
        var id := removed[i];
        assert removed[..i + 1][..i] == removed[..i];
        if id in plan.before.packages {
          var before := plan.before.packages[id];
          if !before.linked && before.place.Managed? { dirs := dirs - {before.place}; }
        }
      }
      assert removed[..|removed|] == removed;
    }

    /** The graph of everything installed after the change, on these directories, resolves. */
    ghost predicate Validated(c: Change, d: map<Place, Tree>)
      reads this`memory
    {
      AllLegible(surroundings, d, memory, c) && Coherent(GraphAfter(surroundings, d, memory, c))
    }

    /** `_validate_transaction`. */
    method Validate(c: Change) returns (ok: bool)
      ensures ok <==> Validated(c, dirs)
    {
      if !AllLegible(surroundings, dirs, memory, c) { return false; }
      ghost var graph := GraphAfter(surroundings, dirs, memory, c);
      var manifests := GraphAfter(surroundings, dirs, memory, c);
      var names := Enumerate(manifests);
      var order := Dependencies.DependencyOrder(Dependencies.Problem(manifests, names, {}));
      ok := order.Ok?;
      if Coherent(manifests) {
        ghost var others :| Lists(others, graph) && Dependencies.Resolvable(Dependencies.Problem(graph, others, {}));
        AnyOrder(graph, others, names);
      }
    }

    /** A plan applied without a runtime: all of it, with a graph of installed packages that resolves, or
        nothing. The receipt too is as it was on failure, except exactly when it had been changed since
        planning into the planned one. */
    method Apply(plan: TransactionState, lockFree: bool) returns (r: Result<(), Failure>)
      requires plan.registered == {} && plan.written == [] && !plan.held && backups == map[] && Proper(plan.change)
      modifies this, plan
      ensures !plan.held && backups == map[]
      ensures r.Ok? ==> dirs == Swept(Placed(old(dirs), plan.change.installs), plan.before, plan.change.removed)
      ensures r.Ok? ==> old(receipt) == plan.before && receipt == memory == plan.state
      ensures r.Ok? ==> old(Validated(plan.change, Placed(dirs, plan.change.installs)))
      ensures r.Err? ==> dirs == old(dirs) && memory == old(memory)
      ensures r.Err? ==> (receipt == old(receipt) <==> !(r.error == StateChanged && old(receipt) == plan.state))
      ensures r == Err(StateChanged) && old(receipt) == plan.state ==> receipt == plan.before
      ensures r == Err(LockHeld) <==> !lockFree
      ensures r == Err(StateChanged) <==> lockFree && old(receipt) != plan.before
      ensures r == Err(SourceChanged) <==> lockFree && old(receipt) == plan.before && !old(Unchanged(plan.change))
      ensures r.Ok? ==> forall p :: p in plan.change.expected ==> p in old(dirs) && old(dirs)[p] == plan.change.expected[p]
      ensures r == Err(SourceChanged) ==> exists p :: p in plan.change.expected && (p !in old(dirs) || old(dirs)[p] != plan.change.expected[p])
      ensures r.Err? && r.error == FileError ==> old(luck) <= 3 * |plan.change.installs|
      ensures r == Err(Unresolvable) ==> !old(Validated(plan.change, Placed(dirs, plan.change.installs)))
      ensures old(Unhindered(plan, lockFree) && Validated(plan.change, Placed(dirs, plan.change.installs))) ==> r.Ok?
    {
      ghost var was := dirs;
      r := Prepare(plan, lockFree);
      if r.Ok? {
        var valid := Validate(plan.change);
        if !valid { r := Err(Unresolvable); }
      }
      if r.Err? {
        Restore(plan, was);
      } else {
        Finish(plan, was);
      }
      plan.held := false;
    }
  }

  // ---------------------------------------------------------------- two plans made from one receipt

  lemma SinglePackage(id: Id, m: Dependencies.Manifest)
    requires m.needs == []
    ensures Coherent(map[id := m])
  {
    var p := Dependencies.Problem(map[id := m], [id], {});
    forall path | Dependencies.Walk(p, path) ensures Dependencies.Fine(p, path) {
      assert |path| > 1 ==> Dependencies.Requires(p.manifests, path[0], path[1]);
    }
    assert Lists([id], map[id := m]);
  }

  /** A package without requirements on its own is a valid installation. */
  lemma OnItsOwn(w: Surroundings, package: Install, m: Dependencies.Manifest)
    requires w.others == map[] && w.manifestOf(package.tree) == Some(m) && m.needs == []
    requires !package.record.linked && package.record.place == Managed(package.id)
    ensures var c := Change([package], [], map[]); var d := Placed(map[], [package]);
      AllLegible(w, d, Receipt(map[], [], ""), c) && Coherent(GraphAfter(w, d, Receipt(map[], [], ""), c))
  {
    var c := Change([package], [], map[]);
    var nothing: seq<Install>, empty: map<Place, Tree> := [], map[];
    assert [package][..0] == nothing && Placed(empty, nothing) == empty;
    var d := Placed(empty, [package]);
    assert d == map[Managed(package.id) := package.tree];
    assert c.installs[0] == package;
    var none := Receipt(map[], [], "");
    assert PlaceIn(c.installs, package.id) == Some(Managed(package.id));
    forall id ensures id in Names(w, none, c) <==> id == package.id {
      assert c.installs[0].id == package.id;
    }
    assert ManifestAfter(w, d, none, c, package.id) == Some(m);
    assert GraphAfter(w, d, none, c) == map[package.id := m];
    SinglePackage(package.id, m);
  }

  /** The same package is planned twice from the same receipt. The first plan commits; the second finds
      the receipt changed, and its rollback erases the first one's entry while its directory stays. */
  method SameInstallTwice(w: Surroundings, package: Install)
    returns (site: Installation, first: Result<(), Failure>, second: Result<(), Failure>)
    requires !package.record.linked && package.record.place == Managed(package.id)
    requires w.others == map[] && w.manifestOf(package.tree).Some? && w.manifestOf(package.tree).value.needs == []
    ensures first.Ok? && second == Err(StateChanged)
    ensures package.id !in site.receipt.packages && Managed(package.id) in site.dirs
  {
    var empty := Receipt(map[], [], "");
    site := new Installation(map[], empty, w);
    var change := Change([package], [], map[]);
    var planA := site.Plan(change);
    var planB := site.Plan(change);
    site.luck := 10;
    AppliedExactly(empty, change, package.id);
    assert change.installs[0] == package;
    OnItsOwn(w, package, w.manifestOf(package.tree).value);
    first := site.Apply(planA, true);
    assert change.installs[..0] == [];
    PlacedExactly(map[], change.installs, Managed(package.id));
    second := site.Apply(planB, true);
  }
}
