// Loading plugins and replacing a generation: staged registrations are published only when every
// module registered, a failed load or reload runs the cleanups it staged, and a successful reload
// retires the old generation's.

module Generations {
  import opened Basics

  type Owner = string
  type Key = string
  type Value = int

  datatype Cleanup = Cleanup(owner: Owner, id: nat, onReload: bool)

  /** What a module's entrypoint stages: a named resource, or a cleanup callback. */
  datatype Registration = Resource(key: Key) | OnCleanup(cleanup: Cleanup)

  /** A module: what its entrypoint stages, and whether it raises after that. */
  datatype Module = Module(owner: Owner, registrations: seq<Registration>, raises: bool)

  datatype Registry = Registry(
    keys: map<Key, Owner>,
    cleanup: seq<Cleanup>,
    plugins: set<Owner>,
    state: map<Owner, Value>)

  // ---------------------------------------------------------------- one module

  function Cleanups(rs: seq<Registration>): seq<Cleanup> {
    if rs == [] then []
    else Cleanups(rs[..|rs| - 1]) + (if rs[|rs| - 1].OnCleanup? then [rs[|rs| - 1].cleanup] else [])
  }

  function Resources(rs: seq<Registration>): seq<Key> {
    if rs == [] then []
    else Resources(rs[..|rs| - 1]) + (if rs[|rs| - 1].Resource? then [rs[|rs| - 1].key] else [])
  }

  /** No key is taken already and none is registered twice. */
  predicate Registrable(keys: map<Key, Owner>, rs: seq<Registration>) {
    rs == [] ||
    (Registrable(keys, rs[..|rs| - 1]) &&
     (rs[|rs| - 1].Resource? ==> rs[|rs| - 1].key !in keys && rs[|rs| - 1].key !in Resources(rs[..|rs| - 1])))
  }

  predicate Loads(r: Registry, m: Module) {
    !m.raises && Registrable(r.keys, m.registrations)
  }

  function Published(keys: map<Key, Owner>, owner: Owner, rs: seq<Registration>): map<Key, Owner> {
    if rs == [] then keys
    else
      var earlier := Published(keys, owner, rs[..|rs| - 1]);
      if rs[|rs| - 1].Resource? then earlier[rs[|rs| - 1].key := owner] else earlier
  }

  /** The registry with one more module. */
  function With(r: Registry, m: Module): Registry {
    r.(keys := Published(r.keys, m.owner, m.registrations),
       cleanup := r.cleanup + Cleanups(m.registrations),
       plugins := r.plugins + {m.owner})
  }

  function WithAll(r: Registry, ms: seq<Module>): Registry {
    if ms == [] then r else With(WithAll(r, ms[..|ms| - 1]), ms[|ms| - 1])
  }

  /** Every module of the list loads on top of those before it. */
  predicate AllLoad(r: Registry, ms: seq<Module>) {
    ms == [] || (AllLoad(r, ms[..|ms| - 1]) && Loads(WithAll(r, ms[..|ms| - 1]), ms[|ms| - 1]))
  }

  /** Every cleanup that these modules staged, in the order they staged them. */
  function StagedBy(ms: seq<Module>): seq<Cleanup> {
    if ms == [] then [] else StagedBy(ms[..|ms| - 1]) + Cleanups(ms[|ms| - 1].registrations)
  }

  function Kept(cs: seq<Cleanup>, owners: set<Owner>, within: bool): seq<Cleanup> {
    if cs == [] then []
    else Kept(cs[..|cs| - 1], owners, within) + (if (cs[|cs| - 1].owner in owners) == within then [cs[|cs| - 1]] else [])
  }

  function Reloadable(cs: seq<Cleanup>): seq<Cleanup> {
    if cs == [] then [] else Reloadable(cs[..|cs| - 1]) + (if cs[|cs| - 1].onReload then [cs[|cs| - 1]] else [])
  }

  // ---------------------------------------------------------------- hooks during staging

  /** What restoration hooks do to the staged state and, through the session, to the durable one. No turn
      is open while a generation is replaced, so a checkpoint saves all of the staged state. */
  datatype Hook = SetState(owner: Owner, value: Option<Value>) | Checkpoint(owner: Owner)

  function Put(state: map<Owner, Value>, owner: Owner, value: Option<Value>): map<Owner, Value> {
    if value.Some? then state[owner := value.value] else state - {owner}
  }

  function Get(state: map<Owner, Value>, owner: Owner): Option<Value> {
    if owner in state then Some(state[owner]) else None
  }

  function StateAfter(state: map<Owner, Value>, hooks: seq<Hook>): map<Owner, Value> {
    if hooks == [] then state
    else
      var earlier, h := StateAfter(state, hooks[..|hooks| - 1]), hooks[|hooks| - 1];
      if h.SetState? then Put(earlier, h.owner, h.value) else earlier
  }

  function DurableAfter(durable: map<Owner, Value>, state: map<Owner, Value>, hooks: seq<Hook>): map<Owner, Value> {
    if hooks == [] then durable
    else
      var front := hooks[..|hooks| - 1];
      if hooks[|hooks| - 1].Checkpoint? then StateAfter(state, front) else DurableAfter(durable, state, front)
  }

  /** The hooks up to the last checkpoint; none when there is no checkpoint. */
  function Saved(hooks: seq<Hook>): seq<Hook> {
    if hooks == [] || hooks[|hooks| - 1].Checkpoint? then hooks else Saved(hooks[..|hooks| - 1])
  }

  /** The value that these hooks last gave an owner, if they gave it one or removed it. */
  function LastSet(hooks: seq<Hook>, owner: Owner): Option<Option<Value>> {
    if hooks == [] then None
    else
      var h := hooks[|hooks| - 1];
      if h.SetState? && h.owner == owner then Some(h.value) else LastSet(hooks[..|hooks| - 1], owner)
  }

  lemma {:induction false} StateAt(state: map<Owner, Value>, hooks: seq<Hook>, owner: Owner)
    ensures Get(StateAfter(state, hooks), owner) ==
      if LastSet(hooks, owner).Some? then LastSet(hooks, owner).value else Get(state, owner)
    decreases |hooks|
  {
    if hooks != [] { StateAt(state, hooks[..|hooks| - 1], owner); }
  }

  lemma {:induction false} DurableIsSaved(durable: map<Owner, Value>, state: map<Owner, Value>, hooks: seq<Hook>)
    ensures DurableAfter(durable, state, hooks) == if Saved(hooks) == [] then durable else StateAfter(state, Saved(hooks))
    decreases |hooks|
  {
    if hooks != [] && !hooks[|hooks| - 1].Checkpoint? { DurableIsSaved(durable, state, hooks[..|hooks| - 1]); }
  }

  /** No hook before the last checkpoint leaves an owner with another value than it had. */
  predicate Harmless(state: map<Owner, Value>, hooks: seq<Hook>) {
    forall i :: 0 <= i < |Saved(hooks)| && Saved(hooks)[i].SetState? ==>
      LastSet(Saved(hooks), Saved(hooks)[i].owner) == Some(Get(state, Saved(hooks)[i].owner))
  }

  lemma {:induction false} LastSetSomewhere(hooks: seq<Hook>, owner: Owner)
    ensures LastSet(hooks, owner).Some? <==> exists i :: 0 <= i < |hooks| && hooks[i].SetState? && hooks[i].owner == owner
    decreases |hooks|
  {
    if hooks != [] {
      var last := |hooks| - 1;
      var front := hooks[..last];
      LastSetSomewhere(front, owner);
      if exists i :: 0 <= i < last && hooks[i].SetState? && hooks[i].owner == owner {
        var i :| 0 <= i < last && hooks[i].SetState? && hooks[i].owner == owner;
        assert front[i] == hooks[i];
      }
    }
  }

  /** Durable and active state agree when a reload begins. A failed one leaves durable state unchanged
      exactly when no hook checkpointed, or every value set by the last checkpoint was the former one. */
  lemma DurableSurvivesExactly(state: map<Owner, Value>, hooks: seq<Hook>)
    ensures DurableAfter(state, state, hooks) == state <==> Harmless(state, hooks)
  {
    var saved := Saved(hooks);
    DurableIsSaved(state, state, hooks);
    var after := StateAfter(state, saved);
    if Harmless(state, hooks) {
      forall owner ensures Get(after, owner) == Get(state, owner) {
        StateAt(state, saved, owner);
        LastSetSomewhere(saved, owner);
      }
      SameState(after, state);
    }
    if DurableAfter(state, state, hooks) == state {
      forall i | 0 <= i < |saved| && saved[i].SetState?
        ensures LastSet(saved, saved[i].owner) == Some(Get(state, saved[i].owner))
      {
        StateAt(state, saved, saved[i].owner);
        LastSetSomewhere(saved, saved[i].owner);
      }
    }
  }

  lemma SameState(a: map<Owner, Value>, b: map<Owner, Value>)
    requires forall owner :: Get(a, owner) == Get(b, owner)
    ensures a == b
  {
    forall owner ensures owner in a <==> owner in b {
      assert Get(a, owner) == Get(b, owner);
    }
    forall owner | owner in a ensures a[owner] == b[owner] {
      assert Get(a, owner) == Get(b, owner);
    }
  }

  // ---------------------------------------------------------------- what a module publishes

  predicate Untaken(keys: map<Key, Owner>, names: seq<Key>) {
    forall i :: 0 <= i < |names| ==> names[i] !in keys
  }

  predicate Different(names: seq<Key>) {
    forall i, k :: 0 <= i < k < |names| ==> names[i] != names[k]
  }

  lemma {:induction false} RegistrableExactly(keys: map<Key, Owner>, rs: seq<Registration>)
    ensures Registrable(keys, rs) <==> Untaken(keys, Resources(rs)) && Different(Resources(rs))
    decreases |rs|
  {
    if rs != [] {
      var front, last := rs[..|rs| - 1], rs[|rs| - 1];
      RegistrableExactly(keys, front);
      if last.Resource? { OneMoreName(keys, Resources(front), last.key); }
      assert !last.Resource? ==> Resources(rs) == Resources(front);
    }
  }

  lemma OneMoreName(keys: map<Key, Owner>, names: seq<Key>, name: Key)
    ensures Untaken(keys, names + [name]) <==> Untaken(keys, names) && name !in keys
    ensures Different(names + [name]) <==> Different(names) && name !in names
  {
    var more := names + [name];
    assert forall i :: 0 <= i < |names| ==> more[i] == names[i];
    assert more[|names|] == name;
    if name in names {
      var i :| 0 <= i < |names| && names[i] == name;
      assert more[i] == more[|names|];
    }
  }

  /** A module publishes its resources under its own name and leaves every other one. */
  lemma {:induction false} PublishedExactly(keys: map<Key, Owner>, owner: Owner, rs: seq<Registration>, key: Key)
    ensures var now := Published(keys, owner, rs);
      && (key in now <==> key in keys || key in Resources(rs))
      && (key in Resources(rs) ==> now[key] == owner)
      && (key in keys && key !in Resources(rs) ==> now[key] == keys[key])
    decreases |rs|
  {
    if rs != [] { PublishedExactly(keys, owner, rs[..|rs| - 1], key); }
  }

  // ---------------------------------------------------------------- sequences of cleanups

  lemma {:induction false} ReverseConcat<T>(xs: seq<T>, ys: seq<T>)
    ensures Reverse(xs + ys) == Reverse(ys) + Reverse(xs)
    decreases |ys|
  {
    if ys == [] {
      assert xs + ys == xs;
    } else {
      var last := |ys| - 1;
      assert (xs + ys)[..|xs + ys| - 1] == xs + ys[..last];
      ReverseConcat(xs, ys[..last]);
    }
  }

  lemma {:induction false} WithAllCleanup(r: Registry, ms: seq<Module>)
    ensures WithAll(r, ms).cleanup == r.cleanup + StagedBy(ms)
    ensures WithAll(r, ms).state == r.state
    decreases |ms|
  {
    if ms == [] {
      assert r.cleanup + [] == r.cleanup;
    } else {
      WithAllCleanup(r, ms[..|ms| - 1]);
    }
  }

  /** Each cleanup with its number of occurrences. */
  function Times(cs: seq<Cleanup>, c: Cleanup): nat {
    if cs == [] then 0 else Times(cs[..|cs| - 1], c) + (if cs[|cs| - 1] == c then 1 else 0)
  }

  lemma {:induction false} TimesConcat(xs: seq<Cleanup>, ys: seq<Cleanup>, c: Cleanup)
    ensures Times(xs + ys, c) == Times(xs, c) + Times(ys, c)
    decreases |ys|
  {
    if ys == [] {
      assert xs + ys == xs;
    } else {
      assert (xs + ys)[..|xs + ys| - 1] == xs + ys[..|ys| - 1];
      TimesConcat(xs, ys[..|ys| - 1], c);
    }
  }

  lemma TimesOne(x: Cleanup, c: Cleanup)
    ensures Times([x], c) == if x == c then 1 else 0
  {
    assert [x][..0] == [];
  }

  lemma {:induction false} TimesReverse(xs: seq<Cleanup>, c: Cleanup)
    ensures Times(Reverse(xs), c) == Times(xs, c)
    decreases |xs|
  {
    if xs != [] {
      TimesReverse(xs[..|xs| - 1], c);
      TimesConcat([xs[|xs| - 1]], Reverse(xs[..|xs| - 1]), c);
      TimesOne(xs[|xs| - 1], c);
    }
  }

  lemma {:induction false} TimesKept(cs: seq<Cleanup>, owners: set<Owner>, within: bool, c: Cleanup)
    ensures Times(Kept(cs, owners, within), c) == if (c.owner in owners) == within then Times(cs, c) else 0
    decreases |cs|
  {
    if cs != [] {
      var last := |cs| - 1;
      TimesKept(cs[..last], owners, within, c);
      TimesConcat(Kept(cs[..last], owners, within), if (cs[last].owner in owners) == within then [cs[last]] else [], c);
      TimesOne(cs[last], c);
    }
  }

  lemma {:induction false} TimesReloadable(cs: seq<Cleanup>, c: Cleanup)
    ensures Times(Reloadable(cs), c) == if c.onReload then Times(cs, c) else 0
    decreases |cs|
  {
    if cs != [] {
      var last := |cs| - 1;
      TimesReloadable(cs[..last], c);
      TimesConcat(Reloadable(cs[..last]), if cs[last].onReload then [cs[last]] else [], c);
      TimesOne(cs[last], c);
    }
  }

  /** What replaced resources run: of the owners that go on, all but keep-on-reload cleanups, then
      everything of the others, each group last registered first. The owners that go on are those
      inside the given set, or those outside it. */
  function Retired(cs: seq<Cleanup>, owners: set<Owner>, inside: bool): seq<Cleanup> {
    Reverse(Reloadable(Kept(cs, owners, inside))) + Reverse(Kept(cs, owners, !inside))
  }

  /** Every cleanup runs exactly as often as it was registered, except that keep-on-reload cleanups of
      owners that go on do not run. */
  lemma RetiredExactly(cs: seq<Cleanup>, owners: set<Owner>, inside: bool, c: Cleanup)
    ensures Times(Retired(cs, owners, inside), c) == if (c.owner in owners) == inside && !c.onReload then 0 else Times(cs, c)
  {
    var theirs, others := Kept(cs, owners, inside), Kept(cs, owners, !inside);
    TimesConcat(Reverse(Reloadable(theirs)), Reverse(others), c);
    TimesReverse(Reloadable(theirs), c);
    TimesReverse(others, c);
    TimesReloadable(theirs, c);
    TimesKept(cs, owners, inside, c);
    TimesKept(cs, owners, !inside, c);
  }

  // ---------------------------------------------------------------- in which order cleanups run

  /** The place of a kept cleanup among those kept. */
  function KeptBefore(cs: seq<Cleanup>, owners: set<Owner>, within: bool, i: nat): nat
    requires i <= |cs|
  {
    |Kept(cs[..i], owners, within)|
  }

  lemma {:induction false} KeptAt(cs: seq<Cleanup>, owners: set<Owner>, within: bool, i: nat)
    requires i < |cs| && (cs[i].owner in owners) == within
    ensures var n := KeptBefore(cs, owners, within, i); n < |Kept(cs, owners, within)| && Kept(cs, owners, within)[n] == cs[i]
    decreases |cs|
  {
    var last := |cs| - 1;
    assert i < last ==> cs[..last][..i] == cs[..i];
    if i < last { KeptAt(cs[..last], owners, within, i); }
  }

  lemma KeptGrows(cs: seq<Cleanup>, owners: set<Owner>, within: bool, i: nat, k: nat)
    requires i < k < |cs| && (cs[i].owner in owners) == within
    ensures KeptBefore(cs, owners, within, i) < KeptBefore(cs, owners, within, k)
  {
    KeptAt(cs[..k], owners, within, i);
    assert cs[..k][..i] == cs[..i];
  }

  /** One cleanup runs before another. */
  predicate Precedes(ran: seq<Cleanup>, first: Cleanup, second: Cleanup) {
    exists a, b :: 0 <= a < b < |ran| && ran[a] == first && ran[b] == second
  }

  lemma KeptInOrder(cs: seq<Cleanup>, owners: set<Owner>, within: bool, i: nat, k: nat)
    requires i < k < |cs| && (cs[i].owner in owners) == within && (cs[k].owner in owners) == within
    ensures Precedes(Kept(cs, owners, within), cs[i], cs[k])
  {
    KeptAt(cs, owners, within, i);
    KeptAt(cs, owners, within, k);
    KeptGrows(cs, owners, within, i, k);
  }

  lemma {:induction false} ReloadableAt(cs: seq<Cleanup>, i: nat)
    requires i < |cs| && cs[i].onReload
    ensures var n := |Reloadable(cs[..i])|; n < |Reloadable(cs)| && Reloadable(cs)[n] == cs[i]
    decreases |cs|
  {
    var last := |cs| - 1;
    assert i < last ==> cs[..last][..i] == cs[..i];
    if i < last { ReloadableAt(cs[..last], i); }
  }

  lemma ReloadableInOrder(cs: seq<Cleanup>, first: Cleanup, second: Cleanup)
    requires Precedes(cs, first, second) && first.onReload && second.onReload
    ensures Precedes(Reloadable(cs), first, second)
  {
    var a, b :| 0 <= a < b < |cs| && cs[a] == first && cs[b] == second;
    ReloadableAt(cs, a);
    ReloadableAt(cs, b);
    ReloadableAt(cs[..b], a);
    assert cs[..b][..a] == cs[..a];
  }

  lemma ReversedOrder(cs: seq<Cleanup>, first: Cleanup, second: Cleanup)
    requires Precedes(cs, first, second)
    ensures Precedes(Reverse(cs), second, first)
  {
    var a, b :| 0 <= a < b < |cs| && cs[a] == first && cs[b] == second;
    ReverseAt(cs, |cs| - 1 - a);
    ReverseAt(cs, |cs| - 1 - b);
  }

  /** The owner goes on, and the cleanup is to run at a reload. */
  predicate RunsEarly(owners: set<Owner>, inside: bool, c: Cleanup) {
    (c.owner in owners) == inside && c.onReload
  }

  /** Of two cleanups that replaced resources run, the later registered runs first when both owners go on or
      neither does; and an owner that goes on is cleaned before one that does not. */
  lemma RetiredInOrder(cs: seq<Cleanup>, owners: set<Owner>, inside: bool, i: nat, k: nat)
    requires i < |cs| && k < |cs|
    ensures i < k && RunsEarly(owners, inside, cs[i]) && RunsEarly(owners, inside, cs[k]) ==>
      Precedes(Retired(cs, owners, inside), cs[k], cs[i])
    ensures i < k && (cs[i].owner in owners) != inside && (cs[k].owner in owners) != inside ==>
      Precedes(Retired(cs, owners, inside), cs[k], cs[i])
    ensures RunsEarly(owners, inside, cs[i]) && (cs[k].owner in owners) != inside ==>
      Precedes(Retired(cs, owners, inside), cs[i], cs[k])
  {
    var early, late := Reverse(Reloadable(Kept(cs, owners, inside))), Reverse(Kept(cs, owners, !inside));
    if i < k && RunsEarly(owners, inside, cs[i]) && RunsEarly(owners, inside, cs[k]) {
      KeptInOrder(cs, owners, inside, i, k);
      ReloadableInOrder(Kept(cs, owners, inside), cs[i], cs[k]);
      ReversedOrder(Reloadable(Kept(cs, owners, inside)), cs[i], cs[k]);
      Within(early, late, cs[k], cs[i]);
    }
    if i < k && (cs[i].owner in owners) != inside && (cs[k].owner in owners) != inside {
      KeptInOrder(cs, owners, !inside, i, k);
      ReversedOrder(Kept(cs, owners, !inside), cs[i], cs[k]);
      Within(early, late, cs[k], cs[i]);
    }
    if RunsEarly(owners, inside, cs[i]) && (cs[k].owner in owners) != inside {
      KeptAt(cs, owners, inside, i);
      var n := KeptBefore(cs, owners, inside, i);
      ReloadableAt(Kept(cs, owners, inside), n);
      KeptAt(cs, owners, !inside, k);
      InReverse(Reloadable(Kept(cs, owners, inside)), cs[i]);
      InReverse(Kept(cs, owners, !inside), cs[k]);
      Across(early, late, cs[i], cs[k]);
    }
  }

  lemma Within(xs: seq<Cleanup>, ys: seq<Cleanup>, first: Cleanup, second: Cleanup)
    requires Precedes(xs, first, second) || Precedes(ys, first, second)
    ensures Precedes(xs + ys, first, second)
  {
    if Precedes(xs, first, second) {
      var a, b :| 0 <= a < b < |xs| && xs[a] == first && xs[b] == second;
      assert (xs + ys)[a] == first && (xs + ys)[b] == second;
    } else {
      var a, b :| 0 <= a < b < |ys| && ys[a] == first && ys[b] == second;
      assert (xs + ys)[|xs| + a] == first && (xs + ys)[|xs| + b] == second;
    }
  }

  lemma Across(xs: seq<Cleanup>, ys: seq<Cleanup>, first: Cleanup, second: Cleanup)
    requires first in xs && second in ys
    ensures Precedes(xs + ys, first, second)
  {
    var a :| 0 <= a < |xs| && xs[a] == first;
    var b :| 0 <= b < |ys| && ys[b] == second;
    assert (xs + ys)[a] == first && (xs + ys)[|xs| + b] == second;
  }

  lemma InReverse(cs: seq<Cleanup>, c: Cleanup)
    requires c in cs
    ensures c in Reverse(cs)
  {
    var a :| 0 <= a < |cs| && cs[a] == c;
    ReverseAt(cs, |cs| - 1 - a);
  }

  // ---------------------------------------------------------------- the runtime

  datatype Failed = NotPrepared | LoadFailed(at: nat) | HookFailed | ValidationFailed

  /** What a reload is asked to do: plugins to remove, the fresh modules in dependency order with those of
      added packages among them, and what may go wrong on the way. */
  datatype Update = Update(
    remove: set<Owner>,
    added: set<Owner>,                        // identities of the added packages
    ordered: bool,                            // exports, manifests and the dependency order raise nothing
    modules: seq<Module>,
    hooks: seq<Hook>,                         // what restoration hooks do, up to where they stop
    hookRaises: bool,
    valid: bool)                              // sources are unchanged and the state could be saved

  /** Whether and how a reload fails, from the first step that does. */
  function FailureOf(previous: Registry, u: Update): Option<Failed> {
    var refused := FirstRefusal(Staged(previous), u.modules);
    if !(u.remove <= previous.plugins) || !u.ordered then Some(NotPrepared)
    else if refused.Some? then Some(LoadFailed(refused.value))
    else if u.hookRaises then Some(HookFailed)
    else if !u.valid then Some(ValidationFailed)
    else None
  }

  /** The failure came after every module had loaded. */
  predicate Loaded(why: Failed) {
    why.HookFailed? || why.ValidationFailed?
  }

  /** The cleanups staged by the time a reload failed. */
  function StagedUntil(why: Failed, modules: seq<Module>): seq<Cleanup> {
    match why
    case NotPrepared => []
    case LoadFailed(at) => if at < |modules| then StagedBy(modules[..at + 1]) else []
    case _ => StagedBy(modules)
  }

  /** The cleanups that a failed reload runs, in order: a load that failed has run all it staged. */
  function RunOnFailure(why: Failed, modules: seq<Module>, previous: set<Owner>): seq<Cleanup> {
    match why
    case NotPrepared => []
    case LoadFailed(at) => Leftover(modules, at)
    case _ => Retired(StagedBy(modules), previous, true)
  }

  class Runtime {
    var current: Registry
    var generation: nat
    var durable: map<Owner, Value>            // plugin state in the session journal
    var ran: seq<Cleanup>                     // cleanups run, in order

    constructor ()
      ensures current == Registry(map[], [], {}, map[]) && generation == 0 && durable == map[] && ran == []
    {
      current, generation, durable, ran := Registry(map[], [], {}, map[]), 0, map[], [];
    }

    /** `_cleanup`: last first; one that raises does not keep the others from running. */
    method Clean(cs: seq<Cleanup>)
      modifies this`ran
      ensures ran == old(ran) + Reverse(cs)
    {
      var left := |cs|;
      assert cs[..left] == cs;
      while left > 0
        invariant 0 <= left <= |cs|
        invariant ran + Reverse(cs[..left]) == old(ran) + Reverse(cs)
      {
        assert cs[..left][..left - 1] == cs[..left - 1];
        ran := ran + [cs[left - 1]];
        left := left - 1;
      }
    }

    /** `_load_module` into a registry: its own cleanups run when it does not load. */
    method LoadModule(r: Registry, m: Module) returns (loaded: Registry, ok: bool)
      modifies this`ran
      ensures ok <==> Loads(r, m)
      ensures ok ==> loaded == With(r, m) && ran == old(ran)
      ensures !ok ==> loaded == r && ran == old(ran) + Reverse(Cleanups(m.registrations))
    {
      loaded, ok := r, !m.raises;
      if ok { loaded, ok := ApplyRegistrations(r, m); }
      if !ok { Clean(Cleanups(m.registrations)); }
    }

    /** `_apply_registrations`: every name is checked before any is published. */
    static method ApplyRegistrations(r: Registry, m: Module) returns (applied: Registry, ok: bool)
      ensures ok <==> Registrable(r.keys, m.registrations)
      ensures applied == if ok then With(r, m) else r
    {
      var rs := m.registrations;
      var seen: seq<Key> := [];
      for i := 0 to |rs|
        invariant Registrable(r.keys, rs[..i]) && seen == Resources(rs[..i])
      {
        assert rs[..i + 1][..i] == rs[..i];
        if rs[i].Resource? {
          if rs[i].key in r.keys || rs[i].key in seen {
            NotRegistrable(r.keys, rs, i + 1);
            return r, false;
          }
          seen := seen + [rs[i].key];
        }
      }
      assert rs[..|rs|] == rs;
      applied := Publish(r, m);
      ok := true;
    }

    static method Publish(r: Registry, m: Module) returns (published: Registry)
      ensures published == With(r, m)
    {
      var rs := m.registrations;
      var keys, cleanup := r.keys, r.cleanup;
      for i := 0 to |rs|
        invariant keys == Published(r.keys, m.owner, rs[..i]) && cleanup == r.cleanup + Cleanups(rs[..i])
      {
        assert rs[..i + 1][..i] == rs[..i];
        if rs[i].Resource? { keys := keys[rs[i].key := m.owner]; } else { cleanup := cleanup + [rs[i].cleanup]; }
      }
      assert rs[..|rs|] == rs;
      published := r.(keys := keys, cleanup := cleanup, plugins := r.plugins + {m.owner});
    }

    /** `load` into a registry: all modules, or none with every cleanup they staged run last first. */
    method Load(r: Registry, modules: seq<Module>) returns (loaded: Registry, failed: Option<nat>)
      modifies this`ran
      ensures failed == FirstRefusal(r, modules)
      ensures failed.None? ==> loaded == WithAll(r, modules) && ran == old(ran)
      ensures failed.Some? ==> loaded == r && ran == old(ran) + Leftover(modules, failed.value)
    {
      loaded, failed := LoadEach(r, modules);
      if failed.Some? {
        LoadRefused(r, modules, failed.value);
        Clean(loaded.cleanup[|r.cleanup|..]);
        loaded := r;
      }
    }

    /** The loop of `load`, up to the first module that does not load. */
    method LoadEach(r: Registry, modules: seq<Module>) returns (loaded: Registry, failed: Option<nat>)
      modifies this`ran
      ensures failed == FirstRefusal(r, modules)
      ensures failed.None? ==> loaded == WithAll(r, modules) && ran == old(ran)
      ensures failed.Some? ==> failed.value < |modules| && loaded == WithAll(r, modules[..failed.value])
      ensures failed.Some? ==> ran == old(ran) + Reverse(Cleanups(modules[failed.value].registrations))
    {
      FirstRefusalExactly(r, modules);
      loaded := r;
      failed := None;
      var i := 0;
      while i < |modules|
        invariant 0 <= i <= |modules| && ran == old(ran)
        invariant loaded == WithAll(r, modules[..i]) && FirstRefusal(r, modules[..i]).None?
      {
        LoadNext(r, modules, i);
        var next, ok := LoadModule(loaded, modules[i]);
        if !ok { return loaded, Some(i); }
        loaded := next;
        i := i + 1;
      }
      assert modules[..|modules|] == modules;
    }

    /** `_replace_generation`. Plugins removed and not added again are retired. */
    method Replace(u: Update) returns (failed: Option<Failed>)
      modifies this
      ensures failed == FailureOf(old(current), u)
      ensures match failed
        case None =>
          && generation == old(generation) + 1
          && current == WithAll(Staged(old(current)), u.modules).(state := StateAfter(old(current).state, u.hooks))
          && durable == current.state
          && ran == old(ran) + Retired(old(current).cleanup, u.remove - u.added, false)
        case Some(why) =>
          && current == old(current) && generation == old(generation)
          && durable == (if Loaded(why) then DurableAfter(old(durable), old(current).state, u.hooks) else old(durable))
          && ran == old(ran) + RunOnFailure(why, u.modules, old(current).plugins)
    {
      if !(u.remove <= current.plugins) || !u.ordered { return Some(NotPrepared); }
      var stage;
      stage, failed := Prepare(u);
      if failed.None? {
        durable := stage.state;
        Activate(stage, u.remove - u.added);
      } else if !failed.value.LoadFailed? {
        Discard(stage);
      }
    }

    /** `_prepare_generation`, once the update is known to be possible: load everything into a stage and restore it. */
    method Prepare(u: Update) returns (stage: Registry, failed: Option<Failed>)
      requires u.remove <= current.plugins && u.ordered
      modifies this`durable, this`ran
      ensures failed == FailureOf(current, u)
      ensures failed.Some? && failed.value.LoadFailed? ==> durable == old(durable) && ran == old(ran) + Leftover(u.modules, failed.value.at)
      ensures failed.None? || !failed.value.LoadFailed? ==>
        && stage == WithAll(Staged(current), u.modules).(state := StateAfter(current.state, u.hooks))
        && stage.cleanup == StagedBy(u.modules) && ran == old(ran)
        && durable == DurableAfter(old(durable), current.state, u.hooks)
    {
      var at;
      stage, at := Load(Staged(current), u.modules);
      if at.Some? { return stage, Some(LoadFailed(at.value)); }
      WithAllCleanup(Staged(current), u.modules);
      assert [] + StagedBy(u.modules) == StagedBy(u.modules);
      var state := RunHooks(current.state, u.hooks);
      stage := stage.(state := state);
      failed := if u.hookRaises then Some(HookFailed) else if !u.valid then Some(ValidationFailed) else None;
    }

    /** `_discard_generation` of a stage whose modules had loaded. */
    method Discard(stage: Registry)
      modifies this`ran
      ensures ran == old(ran) + Retired(stage.cleanup, current.plugins, true)
    {
      Clean(Reloadable(Kept(stage.cleanup, current.plugins, true)));
      Clean(Kept(stage.cleanup, current.plugins, false));
    }

    /** `_activate_generation`. */
    method Activate(stage: Registry, retired: set<Owner>)
      modifies this`current, this`generation, this`ran
      ensures current == stage && generation == old(generation) + 1
      ensures ran == old(ran) + Retired(old(current).cleanup, retired, false)
    {
      var previous := current;
      current := stage;
      generation := generation + 1;
      Clean(Reloadable(Kept(previous.cleanup, retired, false)));
      Clean(Kept(previous.cleanup, retired, true));
    }

    /** Restoration hooks, with the new generation's state staged. */
    method RunHooks(start: map<Owner, Value>, hooks: seq<Hook>) returns (state: map<Owner, Value>)
      modifies this`durable
      ensures state == StateAfter(start, hooks) && durable == DurableAfter(old(durable), start, hooks)
    {
      state := start;
      for i := 0 to |hooks|
        invariant state == StateAfter(start, hooks[..i]) && durable == DurableAfter(old(durable), start, hooks[..i])
      {
        assert hooks[..i + 1][..i] == hooks[..i];
        match hooks[i] {
          case SetState(owner, value) => state := Put(state, owner, value);
          case Checkpoint(_) => durable := state;
        }
      }
      assert hooks[..|hooks|] == hooks;
    }
  }

  /** A new generation starts without registrations, on a copy of the state. */
  function Staged(r: Registry): Registry {
    Registry(map[], [], {}, r.state)
  }

  lemma {:induction false} NotRegistrable(keys: map<Key, Owner>, rs: seq<Registration>, n: nat)
    requires n <= |rs| && !Registrable(keys, rs[..n])
    ensures !Registrable(keys, rs)
    decreases |rs|
  {
    if n == |rs| {
      assert rs[..n] == rs;
    } else {
      assert rs[..|rs| - 1][..n] == rs[..n];
      NotRegistrable(keys, rs[..|rs| - 1], n);
    }
  }

  /** The cleanups staged up to and including the module that did not load, last first. */
  function Leftover(ms: seq<Module>, at: nat): seq<Cleanup> {
    if at < |ms| then Reverse(StagedBy(ms[..at + 1])) else []
  }

  /** The first module that does not load on top of those before it. */
  function FirstRefusal(r: Registry, ms: seq<Module>): Option<nat> {
    if ms == [] then None
    else
      var front := ms[..|ms| - 1];
      var earlier := FirstRefusal(r, front);
      if earlier.Some? then earlier
      else if Loads(WithAll(r, front), ms[|front|]) then None
      else Some(|front|)
  }

  lemma {:induction false} FirstRefusalExactly(r: Registry, ms: seq<Module>)
    ensures FirstRefusal(r, ms).None? <==> AllLoad(r, ms)
    ensures FirstRefusal(r, ms).Some? ==>
      var i := FirstRefusal(r, ms).value; i < |ms| && AllLoad(r, ms[..i]) && !Loads(WithAll(r, ms[..i]), ms[i])
    decreases |ms|
  {
    if ms != [] {
      var front := ms[..|ms| - 1];
      FirstRefusalExactly(r, front);
      if FirstRefusal(r, front).Some? {
        assert front[..FirstRefusal(r, front).value] == ms[..FirstRefusal(r, front).value];
      }
    }
  }

  lemma {:induction false} RefusalStays(r: Registry, ms: seq<Module>, n: nat)
    requires n <= |ms| && FirstRefusal(r, ms[..n]).Some?
    ensures FirstRefusal(r, ms) == FirstRefusal(r, ms[..n])
    decreases |ms|
  {
    if n == |ms| {
      assert ms[..n] == ms;
    } else {
      assert ms[..|ms| - 1][..n] == ms[..n];
      RefusalStays(r, ms[..|ms| - 1], n);
    }
  }

  lemma LoadNext(r: Registry, ms: seq<Module>, i: nat)
    requires i < |ms| && FirstRefusal(r, ms[..i]).None?
    ensures WithAll(r, ms[..i + 1]) == With(WithAll(r, ms[..i]), ms[i])
    ensures Loads(WithAll(r, ms[..i]), ms[i]) ==> FirstRefusal(r, ms[..i + 1]).None?
    ensures !Loads(WithAll(r, ms[..i]), ms[i]) ==> FirstRefusal(r, ms) == Some(i)
  {
    assert ms[..i + 1][..i] == ms[..i];
    if !Loads(WithAll(r, ms[..i]), ms[i]) { RefusalStays(r, ms, i + 1); }
  }

  /** What a module that does not load leaves to clean: its own cleanups, then those staged before it. */
  lemma LoadRefused(r: Registry, ms: seq<Module>, i: nat)
    requires i < |ms|
    ensures |r.cleanup| <= |WithAll(r, ms[..i]).cleanup|
    ensures Leftover(ms, i) == Reverse(Cleanups(ms[i].registrations)) + Reverse(WithAll(r, ms[..i]).cleanup[|r.cleanup|..])
  {
    assert ms[..i + 1][..i] == ms[..i];
    WithAllCleanup(r, ms[..i]);
    ReverseConcat(StagedBy(ms[..i]), Cleanups(ms[i].registrations));
    assert WithAll(r, ms[..i]).cleanup[|r.cleanup|..] == StagedBy(ms[..i]);
  }

  // ---------------------------------------------------------------- what loaded modules add up to

  /** Every name that these modules register, in order. */
  function Names(ms: seq<Module>): seq<Key> {
    if ms == [] then [] else Names(ms[..|ms| - 1]) + Resources(ms[|ms| - 1].registrations)
  }

  lemma {:induction false} NamesExactly(ms: seq<Module>, key: Key)
    ensures key in Names(ms) <==> exists i :: 0 <= i < |ms| && key in Resources(ms[i].registrations)
    decreases |ms|
  {
    if ms != [] {
      var last := |ms| - 1;
      var front := ms[..last];
      NamesExactly(front, key);
      assert forall i :: 0 <= i < last ==> front[i] == ms[i];
      if key in Names(front) {
        var i :| 0 <= i < |front| && key in Resources(front[i].registrations);
        assert key in Resources(ms[i].registrations);
      }
      forall i | 0 <= i < last && key in Resources(ms[i].registrations) ensures key in Names(front) {
        assert key in Resources(front[i].registrations);
      }
      assert key in Names(ms) <==> key in Names(front) || key in Resources(ms[last].registrations);
    }
  }

  lemma Joined(xs: seq<Key>, ys: seq<Key>)
    ensures Different(xs + ys) <==> Different(xs) && Different(ys) && forall i :: 0 <= i < |ys| ==> ys[i] !in xs
  {
    var all := xs + ys;
    assert forall i :: 0 <= i < |xs| ==> all[i] == xs[i];
    assert forall i :: 0 <= i < |ys| ==> all[|xs| + i] == ys[i];
    if Different(all) {
      forall i | 0 <= i < |ys| ensures ys[i] !in xs {
        forall k | 0 <= k < |xs| ensures xs[k] != ys[i] { assert all[k] != all[|xs| + i]; }
      }
      forall i, k | 0 <= i < k < |ys| ensures ys[i] != ys[k] { assert all[|xs| + i] != all[|xs| + k]; }
    }
  }

  /** Modules load one after another exactly when none raises, no name is taken, and no two are the same,
      within a module or across them. */
  lemma {:induction false} AllLoadExactly(r: Registry, ms: seq<Module>)
    ensures AllLoad(r, ms) <==>
      (forall i :: 0 <= i < |ms| ==> !ms[i].raises) && Untaken(r.keys, Names(ms)) && Different(Names(ms))
    decreases |ms|
  {
    if ms != [] {
      var front, last := ms[..|ms| - 1], ms[|ms| - 1];
      AllLoadExactly(r, front);
      OneMoreLoads(r, front, last);
      assert forall i :: 0 <= i < |front| ==> front[i] == ms[i];
      assert ms[|front|] == last;
    }
  }

  lemma OneMoreLoads(r: Registry, ms: seq<Module>, m: Module)
    ensures Untaken(r.keys, Names(ms)) && Different(Names(ms)) && Loads(WithAll(r, ms), m) <==>
      !m.raises && Untaken(r.keys, Names(ms) + Resources(m.registrations)) && Different(Names(ms) + Resources(m.registrations))
  {
    var own := Resources(m.registrations);
    RegistrableExactly(WithAll(r, ms).keys, m.registrations);
    Joined(Names(ms), own);
    UntakenAfter(r, ms, own);
    UntakenJoined(r.keys, Names(ms), own);
  }

  lemma UntakenJoined(keys: map<Key, Owner>, xs: seq<Key>, ys: seq<Key>)
    ensures Untaken(keys, xs + ys) <==> Untaken(keys, xs) && Untaken(keys, ys)
  {
    assert forall i :: 0 <= i < |xs| ==> (xs + ys)[i] == xs[i];
    assert forall i :: 0 <= i < |ys| ==> (xs + ys)[|xs| + i] == ys[i];
  }

  lemma UntakenAfter(r: Registry, ms: seq<Module>, names: seq<Key>)
    ensures Untaken(WithAll(r, ms).keys, names) <==> Untaken(r.keys, names) && forall i :: 0 <= i < |names| ==> names[i] !in Names(ms)
  {
    forall i | 0 <= i < |names|
      ensures names[i] in WithAll(r, ms).keys <==> names[i] in r.keys || names[i] in Names(ms)
    {
      WithAllNames(r, ms, names[i]);
    }
  }

  lemma {:induction false} WithAllNames(r: Registry, ms: seq<Module>, key: Key)
    ensures key in WithAll(r, ms).keys <==> key in r.keys || key in Names(ms)
    decreases |ms|
  {
    if ms != [] {
      var front, last := ms[..|ms| - 1], ms[|ms| - 1];
      WithAllNames(r, front, key);
      PublishedExactly(WithAll(r, front).keys, last.owner, last.registrations, key);
    }
  }

  lemma {:induction false} WithAllPlugins(r: Registry, ms: seq<Module>, owner: Owner)
    ensures owner in WithAll(r, ms).plugins <==> owner in r.plugins || exists i :: 0 <= i < |ms| && ms[i].owner == owner
    decreases |ms|
  {
    if ms != [] {
      var last := |ms| - 1;
      var front := ms[..last];
      WithAllPlugins(r, front, owner);
      assert forall i :: 0 <= i < last ==> front[i] == ms[i];
      if i :| 0 <= i < last && ms[i].owner == owner { assert front[i].owner == owner; }
    }
  }

  /** Loaded modules' plugins and names, one by one: those that were there, and those the modules have. A name
      that a module registers is its own afterwards, and every other is whose it was. */
  lemma {:induction false} WithAllExactly(r: Registry, ms: seq<Module>, owner: Owner, key: Key)
    requires AllLoad(r, ms)
    ensures var now := WithAll(r, ms);
      && (owner in now.plugins <==> owner in r.plugins || exists i :: 0 <= i < |ms| && ms[i].owner == owner)
      && (key in now.keys <==> key in r.keys || exists i :: 0 <= i < |ms| && key in Resources(ms[i].registrations))
      && (key in r.keys ==> now.keys[key] == r.keys[key])
      && forall i :: 0 <= i < |ms| && key in Resources(ms[i].registrations) ==> now.keys[key] == ms[i].owner
    decreases |ms|
  {
    WithAllPlugins(r, ms, owner);
    WithAllNames(r, ms, key);
    NamesExactly(ms, key);
    if ms != [] {
      var last := |ms| - 1;
      var front := ms[..last];
      WithAllExactly(r, front, owner, key);
      assert forall i :: 0 <= i < last ==> front[i] == ms[i];
      PublishedExactly(WithAll(r, front).keys, ms[last].owner, ms[last].registrations, key);
      RegistrableExactly(WithAll(r, front).keys, ms[last].registrations);
    }
  }

  /** A reload succeeds if and only if every plugin to be removed is there, exports, manifests and order raise
      nothing, no module raises, all registered names differ, no restoration hook raises, and the sources and the
      state are valid. When it fails the first of these that fails is the reason. */
  lemma ReplacesExactly(previous: Registry, u: Update)
    ensures var ready := u.remove <= previous.plugins && u.ordered;
      var loads := (forall i :: 0 <= i < |u.modules| ==> !u.modules[i].raises) && Different(Names(u.modules));
      && (FailureOf(previous, u) == None <==> ready && loads && !u.hookRaises && u.valid)
      && (FailureOf(previous, u) == Some(NotPrepared) <==> !ready)
      && ((exists at :: FailureOf(previous, u) == Some(LoadFailed(at))) <==> ready && !loads)
      && (FailureOf(previous, u) == Some(HookFailed) <==> ready && loads && u.hookRaises)
      && (FailureOf(previous, u) == Some(ValidationFailed) <==> ready && loads && !u.hookRaises && !u.valid)
  {
    FirstRefusalExactly(Staged(previous), u.modules);
    AllLoadExactly(Staged(previous), u.modules);
    var failed := FailureOf(previous, u);
    if failed.Some? && failed.value.LoadFailed? { assert failed == Some(LoadFailed(failed.value.at)); }
  }

  // ---------------------------------------------------------------- what a failed reload runs and saves

  /** A failed reload runs every cleanup it staged as often as it was staged, except, when all modules had
      loaded, the keep-on-reload cleanups of owners that the old generation goes on with. */
  lemma SparedExactly(why: Failed, modules: seq<Module>, previous: set<Owner>, c: Cleanup)
    ensures Times(RunOnFailure(why, modules, previous), c) ==
      if Loaded(why) && c.owner in previous && !c.onReload then 0 else Times(StagedUntil(why, modules), c)
    ensures Times(StagedUntil(why, modules), c) > 0 ==>
      (Times(RunOnFailure(why, modules, previous), c) == 0 <==> Loaded(why) && c.owner in previous && !c.onReload)
  {
    TimesReverse(StagedUntil(why, modules), c);
    RetiredExactly(StagedBy(modules), previous, true, c);
  }

  lemma OneModule(m: Module, c: Cleanup)
    requires m.registrations == [OnCleanup(c)]
    ensures Cleanups(m.registrations) == [c] && Resources(m.registrations) == [] && Registrable(map[], m.registrations)
    ensures StagedBy([m]) == [c]
    ensures m.raises ==> FirstRefusal(Registry(map[], [], {}, map[]), [m]) == Some(0)
    ensures !m.raises ==> FirstRefusal(Registry(map[], [], {}, map[]), [m]) == None
  {
    assert m.registrations[..0] == [] && [m][..0] == [];
    assert AllLoad(Registry(map[], [], {}, map[]), []);
  }

  lemma TwoModules(m: Module, n: Module, c: Cleanup)
    requires m.registrations == [OnCleanup(c)] && !m.raises && n.registrations == [] && n.raises
    ensures FirstRefusal(Registry(map[], [], {}, map[]), [m, n]) == Some(1) && Leftover([m, n], 1) == [c]
  {
    OneModule(m, c);
    assert [m, n][..1] == [m] && [m, n][..2] == [m, n];
    assert StagedBy([m, n]) == [c] + [];
    assert Reverse([c]) == [c] by { assert [c][..0] == []; }
  }

  /** A plugin goes on with a keep-on-reload cleanup; a reload loads it again, a later module does not load,
      and the cleanup runs although the old generation stays active. */
  method FailedLoadRunsKeptCleanup() returns (r: Runtime, failed: Option<Failed>)
    ensures failed == Some(LoadFailed(1)) && r.generation == 1
    ensures r.current.plugins == {"a"} && r.current.cleanup == [Cleanup("a", 1, false)] && r.ran == [Cleanup("a", 1, false)]
  {
    var kept := Cleanup("a", 1, false);
    var a, b := Module("a", [OnCleanup(kept)], false), Module("b", [], true);
    r := new Runtime();
    OneModule(a, kept);
    failed := r.Replace(Update({}, {}, true, [a], [], false, true));
    assert [a][..0] == [];
    assert WithAll(Staged(Registry(map[], [], {}, map[])), [a]).cleanup == [] + [kept];
    assert r.current.cleanup == [kept] && r.current.plugins == {"a"} && r.ran == [] && r.current.state == map[];
    TwoModules(a, b, kept);
    failed := r.Replace(Update({}, {}, true, [a, b], [], false, true));
  }

  /** A restoration hook changes one owner's state, another checkpoints, and a third raises: the reload
      fails, the old generation's state stays in memory, and the journal holds the new one's. */
  method FailedReloadSavesStagedState() returns (r: Runtime, failed: Option<Failed>)
    ensures failed == Some(HookFailed) && r.generation == 0
    ensures r.current.state == map[] && r.durable == map["a" := 1]
  {
    r := new Runtime();
    var first, second := SetState("a", Some(1)), Checkpoint("b");
    assert [first, second][..1] == [first] && [first][..0] == [];
    assert StateAfter(map[], [first]) == map["a" := 1];
    failed := r.Replace(Update({}, {}, true, [], [first, second], true, true));
  }
}
