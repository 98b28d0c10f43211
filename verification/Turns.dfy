// What whole runs of a session promise: memory and journal agree between turns, and aborted turns
// roll back to the last checkpoints.

module Turns {
  import opened Basics
  import opened Journal
  import opened Storage
  import opened Recovery
  import opened Sessions

  function RunAll(s: Session, es: seq<Event>): Session {
    if es == [] then s else Do(RunAll(s, es[..|es| - 1]), es[|es| - 1])
  }

  /** Every step happens at a point where the code takes it. */
  ghost predicate Legal(s: Session, es: seq<Event>) {
    es != [] ==> Legal(s, es[..|es| - 1]) && Allowed(RunAll(s, es[..|es| - 1]), es[|es| - 1])
  }

  ghost predicate NoSlip(s: Session, es: seq<Event>) {
    es != [] ==> NoSlip(s, es[..|es| - 1]) && !Slips(RunAll(s, es[..|es| - 1]), es[|es| - 1])
  }

  /** A session just opened on a journal. */
  function Fresh(c: Codec, store: Store): Session {
    Session(c, store, Snapshot(store).0, Snapshot(store).1, NextPrompt(Snapshot(store).0), false, false, None, {}, [], None, false)
  }

  lemma FreshKeepsInv(c: Codec, store: Store)
    requires Opened(c, store)
    ensures Inv(Fresh(c, store))
  {
    GoodIsLawful(c, store);
  }

  lemma {:induction false} RunKeepsInv(s: Session, es: seq<Event>)
    requires Inv(s) && Legal(s, es) && NoSlip(s, es)
    ensures Inv(RunAll(s, es))
    decreases |es|
  {
    if es != [] {
      var before := es[..|es| - 1];
      RunKeepsInv(s, before);
      StepKeepsInv(RunAll(s, before), es[|es| - 1]);
    }
  }

  /** Whenever no turn is active, the history in memory is the journal's committed history, the
      working branch is the committed one, and no unfinished prompt blocks the next turn. */
  lemma MemoryRefinesJournal(c: Codec, store: Store, es: seq<Event>)
    requires Opened(c, store)
    requires var s := Fresh(c, store); Legal(s, es) && NoSlip(s, es)
    ensures var t := RunAll(Fresh(c, store), es);
      && (!t.sending ==> t.history == Snapshot(t.store).0 && t.store.head == t.store.committed && Enabled(t, BeginTurn))
      && (t.sending && t.rollback.Some? ==> t.start == Snapshot(t.store).0)
      && History(t.store.entries, t.store.committed) <= History(t.store.entries, t.store.head)
  {
    FreshKeepsInv(c, store);
    RunKeepsInv(Fresh(c, store), es);
  }

  /** From any reachable idle session a step that stays idle keeps the agreement exactly when it
      is not one of the two slips: a reset that forgets memory and then fails to open a journal,
      and a fork whose journal write and whose undo both fail. */
  lemma SlipsAreExact(s: Session, e: Event)
    requires Inv(s) && !s.sending && Allowed(s, e) && !e.BeginTurn?
    ensures Refines(Do(s, e)) <==> !Slips(s, e)
  {
    if !Slips(s, e) {
      StepKeepsInv(s, e);
      StaysIdle(s, e);
    } else if e.Fork? {
      ForkSlip(s, e);
    }
  }

  lemma StaysIdle(s: Session, e: Event)
    requires !s.sending && s.rollback.None? && Enabled(s, e) && !e.BeginTurn?
    ensures Do(s, e).rollback.None?
  {
  }

  lemma ForkSlip(s: Session, e: Event)
    requires s.history == Snapshot(s.store).0 && e.Fork? && Slips(s, e)
    ensures !Refines(Do(s, e))
  {
    var o := Storage.Fork(s.codec, s.store, e.target, e.io);
    FailedForkUnmoved(s.codec, s.store, e.target, e.io);
    StoreUnchangedHist(s.store, o.store);
  }

  lemma FailedForkUnmoved(c: Codec, s: Store, target: Id, io: Io)
    requires !Storage.Fork(c, s, target, io).ok
    ensures var t := Storage.Fork(c, s, target, io).store;
      t.entries == s.entries && t.head == s.head && t.committed == s.committed
  {
  }

  function Working(id: Id): Io {
    Io(id, true, Whole, true, true, true)
  }

  /** A session in a turn that has written one message to a new journal. */
  function Written(c: Codec, m: Message): Session {
    Do(Do(Fresh(c, Empty(c)), BeginTurn), AddMessage(m, Working(1)))
  }

  lemma WrittenFacts(c: Codec, m: Message)
    ensures var s, b := Fresh(c, Empty(c)), Do(Fresh(c, Empty(c)), BeginTurn);
      Allowed(s, BeginTurn) && Allowed(b, AddMessage(m, Working(1)))
    ensures var t := Written(c, m);
      && t.store == Store([Record(1, None, MessageData(m))], Some(1), None, false, t.store.disk)
      && t.sending && !t.raised && t.rollback == Some(map[]) && t.mark.None? && t.history == [m] && t.codec == c
      && !t.turnOpen
  {
  }

  lemma CommittedFacts(c: Codec, m: Message)
    ensures var t := Written(c, m); var u := Do(t, CommitTurn(Working(2))); var v := Do(u, FinishTurn);
      && Allowed(t, CommitTurn(Working(2))) && Allowed(u, FinishTurn)
      && !v.sending && v.codec == c && Snapshot(v.store).0 == [m]
  {
    WrittenFacts(c, m);
    var t := Written(c, m);
    var r1, r2 := Record(1, None, MessageData(m)), Record(2, Some(1), TurnCommit(t.state));
    assert [r1][..0] == [] && [r1, r2][..1] == [r1];
    assert !HasId([r1], 2);
    assert History([r1], Some(1)) == [m] && History([r1, r2], Some(2)) == [m];
    var u := Do(t, CommitTurn(Working(2)));
    assert u.store.entries == [r1, r2] && u.store.committed == Some(2);
  }

  lemma OneTurn(c: Codec, m: Message)
    ensures var s := Fresh(c, Empty(c));
      var es := [BeginTurn, AddMessage(m, Working(1)), CommitTurn(Working(2)), FinishTurn];
      Legal(s, es) && RunAll(s, es) == Do(Do(Written(c, m), CommitTurn(Working(2))), FinishTurn)
  {
    var s := Fresh(c, Empty(c));
    var e1 := [BeginTurn];
    var e2 := e1 + [AddMessage(m, Working(1))];
    var e3 := e2 + [CommitTurn(Working(2))];
    WrittenFacts(c, m);
    CommittedFacts(c, m);
    assert e1 == [] + [BeginTurn];
    RunSnoc(s, [], BeginTurn);
    RunSnoc(s, e1, AddMessage(m, Working(1)));
    RunSnoc(s, e2, CommitTurn(Working(2)));
    RunSnoc(s, e3, FinishTurn);
    assert e3 + [FinishTurn] == [BeginTurn, AddMessage(m, Working(1)), CommitTurn(Working(2)), FinishTurn];
  }

  /** A run that slips: one committed turn, then a reset whose new journal cannot be opened. */
  lemma ResetSlips(c: Codec, m: Message)
    requires Lawful(c)
    ensures var s := Fresh(c, Empty(c));
      var es := [BeginTurn, AddMessage(m, Working(1)), CommitTurn(Working(2)), FinishTurn] + [Reset(c, LostBefore)];
      && Legal(s, es) && !RunAll(s, es).sending
      && RunAll(s, es).history == [] && Snapshot(RunAll(s, es).store).0 == [m]
  {
    var four := [BeginTurn, AddMessage(m, Working(1)), CommitTurn(Working(2)), FinishTurn];
    var t := RunAll(Fresh(c, Empty(c)), four);
    OneTurn(c, m);
    assert !t.sending && Snapshot(t.store).0 == [m] by { CommittedFacts(c, m); }
    ForgetfulReset(t, c);
    RunSnoc(Fresh(c, Empty(c)), four, Reset(c, LostBefore));
  }

  lemma ForgetfulReset(t: Session, c: Codec)
    requires !t.sending && Lawful(c)
    ensures Allowed(t, Reset(c, LostBefore))
    ensures var u := Do(t, Reset(c, LostBefore)); !u.sending && u.history == [] && Snapshot(u.store) == Snapshot(t.store)
  {
  }

  /** Two committed turns, as read from a journal. */
  function TwoTurns(m: Message, n: Message): seq<Record> {
    [Record(1, None, MessageData(m)), Record(2, Some(1), TurnCommit(map[])),
     Record(3, Some(2), MessageData(n)), Record(4, Some(3), TurnCommit(map[]))]
  }

  lemma TwoTurnsReplay(m: Message, n: Message)
    ensures Replay(TwoTurns(m, n)).Ok? && Replay(TwoTurns(m, n)).value.committed == Some(4)
    ensures HasId(TwoTurns(m, n), 2) && Lookup(TwoTurns(m, n), 2).data.TurnCommit? && !HasId(TwoTurns(m, n), 5)
    ensures History(TwoTurns(m, n), Some(2)) == [m] && History(TwoTurns(m, n), Some(4)) == [m, n]
  {
    var r1, r2, r3, r4 := TwoTurns(m, n)[0], TwoTurns(m, n)[1], TwoTurns(m, n)[2], TwoTurns(m, n)[3];
    var three, two, one := [r1, r2, r3], [r1, r2], [r1];
    assert TwoTurns(m, n) == three + [r4] && three == two + [r3] && two == one + [r2] && one == [] + [r1];
    assert (three + [r4])[..3] == three && (two + [r3])[..2] == two && (one + [r2])[..1] == one && one[..0] == [];
    assert forall id :: HasId(one, id) <==> id == 1;
    assert forall id :: HasId(two, id) <==> id == 2 || HasId(one, id);
    assert forall id :: HasId(three, id) <==> id == 3 || HasId(two, id);
    assert forall id :: HasId(TwoTurns(m, n), id) <==> id == 4 || HasId(three, id);
    ReplaySnoc([], r1);
    ReplaySnoc(one, r2);
    ReplaySnoc(two, r3);
    ReplaySnoc(three, r4);
    LookupOlder(two, r3, 2);
    LookupOlder(three, r4, 2);
    AppendedHistory([], r1, None);
    AppendedHistory(one, r2, Some(1));
    AppendedHistory(two, r3, Some(2));
    AppendedHistory(three, r4, Some(2));
  }

  /** The other run that slips: a fork back to the first of two turns, whose journal write fails and whose
      undo is then refused by a restore hook. */
  lemma ForkSlips(c: Codec, m: Message, n: Message)
    requires Lawful(c)
    ensures var store := Store(TwoTurns(m, n), Some(4), Some(4), false, Survivor(File(c, TwoTurns(m, n))));
      var s := Fresh(c, store); var es := [Fork(2, true, false, Io(5, true, Short(0), false, true, true))];
      && Opened(c, store) && Legal(s, es) && !RunAll(s, es).sending
      && RunAll(s, es).history == [m] && Snapshot(RunAll(s, es).store).0 == [m, n]
  {
    TwoTurnsReplay(m, n);
    FreshlyOpenedSound(c, TwoTurns(m, n));
    var store := Store(TwoTurns(m, n), Some(4), Some(4), false, Survivor(File(c, TwoTurns(m, n))));
    var s, io := Fresh(c, store), Io(5, true, Short(0), false, true, true);
    var e := Event.Fork(2, true, false, io);
    RunSnoc(s, [], e);
    assert [] + [e] == [e];
    assert !Storage.Fork(c, store, 2, io).ok;
    FailedForkUnmoved(c, store, 2, io);
  }

  lemma RunSnoc(s: Session, es: seq<Event>, e: Event)
    ensures RunAll(s, es + [e]) == Do(RunAll(s, es), e)
    ensures Legal(s, es) && Allowed(RunAll(s, es), e) ==> Legal(s, es + [e])
  {
    assert (es + [e])[..|es|] == es;
  }

  // ---------------------------------------------------------------- rollback

  predicate InTurn(e: Event) {
    e.Mutate? || e.Checkpoint? || e.StartRecord? || e.AddMessage? || e.OpenPrompt? || e.CommitTurn?
    || e.RestoreCompleted? || e.PersistCompleted? || e.Raise?
  }

  function Turn(s: Session, es: seq<Event>): Session {
    RunAll(Do(s, BeginTurn), es)
  }

  predicate Checkpointed(s: Session, e: Event, owner: Owner) {
    e.Checkpoint? && e.owner == owner && Storage.Checkpoint(s.codec, s.store, Saved(s, owner), e.io).ok
  }

  /** An owner's value in memory at its last successful checkpoint in the turn, or at turn start. */
  function SavedAt(s: Session, es: seq<Event>, owner: Owner): Option<Json> {
    if es == [] then Get(s.state, owner)
    else
      var before := es[..|es| - 1];
      if Checkpointed(Turn(s, before), es[|es| - 1], owner) then Get(Turn(s, before).state, owner)
      else SavedAt(s, before, owner)
  }

  ghost predicate TurnRun(s: Session, es: seq<Event>) {
    && Inv(s) && !s.sending
    && Legal(Do(s, BeginTurn), es)
    && forall i :: 0 <= i < |es| ==> InTurn(es[i])
  }

  lemma TurnPrefix(s: Session, es: seq<Event>)
    requires TurnRun(s, es) && es != []
    ensures TurnRun(s, es[..|es| - 1])
  {
  }

  lemma {:induction false} NoSlipInTurn(s: Session, es: seq<Event>)
    requires forall i :: 0 <= i < |es| ==> InTurn(es[i])
    ensures NoSlip(s, es)
    decreases |es|
  {
    if es != [] {
      NoSlipInTurn(s, es[..|es| - 1]);
    }
  }

  lemma TurnKeepsInv(s: Session, es: seq<Event>)
    requires TurnRun(s, es)
    ensures Inv(Turn(s, es)) && Turn(s, es).sending
  {
    StepKeepsInv(s, BeginTurn);
    NoSlipInTurn(Do(s, BeginTurn), es);
    RunKeepsInv(Do(s, BeginTurn), es);
    TurnStays(s, es);
  }

  lemma StepStays(t: Session, e: Event)
    requires InTurn(e)
    ensures Do(t, e).sending == t.sending && Do(t, e).start == t.start
  {
    if e.PersistCompleted? { PersistStays(t, e.ios, e.io); }
  }

  lemma PersistStays(t: Session, ios: seq<Io>, io: Io)
    ensures var u := Do(t, PersistCompleted(ios, io));
      u.sending == t.sending && u.start == t.start && u.owners == t.owners && (u.rollback.Some? ==> t.rollback.Some?)
  {
  }

  lemma OwnersStep(t: Session, e: Event)
    requires InTurn(e) && Do(t, e).rollback.Some?
    ensures t.rollback.Some?
    ensures Do(t, e).owners == if e.Checkpoint? && Checkpointed(t, e, e.owner) then t.owners + {e.owner} else t.owners
  {
    if e.PersistCompleted? { PersistStays(t, e.ios, e.io); }
  }

  lemma {:induction false} TurnStays(s: Session, es: seq<Event>)
    requires forall i :: 0 <= i < |es| ==> InTurn(es[i])
    ensures Turn(s, es).sending && Turn(s, es).start == s.history
    decreases |es|
  {
    if es != [] {
      TurnStays(s, es[..|es| - 1]);
      StepStays(Turn(s, es[..|es| - 1]), es[|es| - 1]);
    }
  }

  /** Memory and the durable selection hold the same plugin state. */
  predicate Agree(s: Session) {
    s.state == Snapshot(s.store).1
  }

  /** What one step inside a turn does to the rollback state and to the durable state. */
  lemma RollbackStep(t: Session, e: Event)
    requires Inv(t) && t.sending && Allowed(t, e) && InTurn(e)
    requires Do(t, e).rollback.Some?
    ensures t.rollback.Some?
    ensures var u := Do(t, e);
      if e.Checkpoint? && Checkpointed(t, e, e.owner)
      then u.rollback.value == Put(t.rollback.value, e.owner, Get(t.state, e.owner)) && Snapshot(u.store).1 == u.rollback.value
      else u.rollback == t.rollback && Snapshot(u.store).1 == Snapshot(t.store).1
  {
    match e {
      case Checkpoint(owner, io) => CheckpointRollback(t, owner, io) by { assert IosOf(e)[0] == io; }
      case StartRecord(io) => AppendSnapshot(t.codec, t.store, TurnStart(t.nextPrompt), io) by { assert IosOf(e)[0] == io; }
      case AddMessage(m, io) => AppendSnapshot(t.codec, t.store, MessageData(m), io) by { assert IosOf(e)[0] == io; }
      case CommitTurn(io) => FailedCommit(t.codec, t.store, t.state, io) by { assert IosOf(e)[0] == io; }
      case PersistCompleted(ios, io) => PersistSnapshot(t, ios, io);
      case _ =>
    }
  }

  lemma AppendSnapshot(c: Codec, s: Store, data: Data, io: Io)
    requires Good(c, s) && Plain(data) && !HasId(s.entries, io.id)
    ensures Snapshot(Append(c, s, data, io).store) == Snapshot(s)
  {
    var op := AppendOp(data, io);
    CallFacts(c, s, op);
    if !Step(c, s, op).ok { StoreUnchangedHist(s, Step(c, s, op).store); }
  }

  lemma FailedCommit(c: Codec, s: Store, state: PluginState, io: Io)
    requires Good(c, s) && !HasId(s.entries, io.id)
    ensures var o := Commit(c, s, state, io); !o.ok ==> Snapshot(o.store) == Snapshot(s)
  {
    var op := CommitOp(state, io);
    CallFacts(c, s, op);
    if !Step(c, s, op).ok { StoreUnchangedHist(s, Step(c, s, op).store); }
  }

  lemma CheckpointRollback(t: Session, owner: Owner, io: Io)
    requires Good(t.codec, t.store) && !HasId(t.store.entries, io.id) && t.rollback.Some?
    ensures var e := Event.Checkpoint(owner, io); var u := Do(t, e);
      if Checkpointed(t, e, owner)
      then u.rollback.value == Put(t.rollback.value, owner, Get(t.state, owner)) && Snapshot(u.store).1 == u.rollback.value
      else u.rollback == t.rollback && Snapshot(u.store).1 == Snapshot(t.store).1
  {
    var op := CheckpointOp(Saved(t, owner), io);
    CallFacts(t.codec, t.store, op);
    if !Step(t.codec, t.store, op).ok { StoreUnchangedHist(t.store, Step(t.codec, t.store, op).store); }
  }

  lemma PersistSnapshot(t: Session, ios: seq<Io>, io: Io)
    requires Inv(t) && Allowed(t, PersistCompleted(ios, io))
    requires Do(t, PersistCompleted(ios, io)).rollback.Some?
    ensures Snapshot(Do(t, PersistCompleted(ios, io)).store) == Snapshot(t.store)
  {
    BeforeCommit(t, ios, io);
    var (store, ok) := AppendAll(t.codec, t.store, t.history[t.mark.value..], ios);
    if ok { FailedCommit(t.codec, store, t.state, io); }
  }

  /** While a turn is uncommitted its rollback state is, owner by owner, what was last checkpointed,
      and if memory and journal agreed at turn start the journal holds exactly that state. */
  lemma {:induction false} RollbackIsLastCheckpoint(s: Session, es: seq<Event>)
    requires TurnRun(s, es) && Turn(s, es).rollback.Some?
    ensures forall owner :: Get(Turn(s, es).rollback.value, owner) == SavedAt(s, es, owner)
    ensures Agree(s) ==> Snapshot(Turn(s, es).store).1 == Turn(s, es).rollback.value
    decreases |es|
  {
    if es != [] {
      var before := es[..|es| - 1];
      TurnPrefix(s, es);
      LastRollback(s, es);
      RollbackIsLastCheckpoint(s, before);
    }
  }

  /** What the last step of a turn run does to the rollback state, owner by owner, and to the durable state. */
  lemma LastRollback(s: Session, es: seq<Event>)
    requires TurnRun(s, es) && es != [] && Turn(s, es).rollback.Some?
    ensures var before, t := Turn(s, es[..|es| - 1]), Turn(s, es);
      && before.rollback.Some?
      && (forall owner :: Get(t.rollback.value, owner) ==
            if Checkpointed(before, es[|es| - 1], owner) then Get(before.state, owner) else Get(before.rollback.value, owner))
      && (Snapshot(before.store).1 == before.rollback.value ==> Snapshot(t.store).1 == t.rollback.value)
  {
    TurnPrefix(s, es);
    TurnKeepsInv(s, es[..|es| - 1]);
    RollbackStep(Turn(s, es[..|es| - 1]), es[|es| - 1]);
  }

  /** Aborting a turn gives every owner the value of its last checkpoint in the turn, or its value
      at turn start, restores the history, and keeps memory and journal in agreement. */
  lemma AbortRollsBack(s: Session, es: seq<Event>)
    requires TurnRun(s, es) && Turn(s, es).rollback.Some?
    ensures var t := Do(Turn(s, es), FinishTurn);
      && (forall owner :: Get(t.state, owner) == SavedAt(s, es, owner))
      && t.history == s.history && !t.sending
      && (Agree(s) ==> Agree(t))
  {
    RollbackIsLastCheckpoint(s, es);
    TurnStays(s, es);
    FinishFacts(Turn(s, es));
  }

  lemma FinishFacts(u: Session)
    requires u.rollback.Some?
    ensures var t := Do(u, FinishTurn);
      t.state == u.rollback.value && t.history == u.start && !t.sending && Snapshot(t.store) == Snapshot(u.store)
  {
  }

  /** The commit of a turn makes memory durable, history and state alike. */
  lemma CommitAgrees(s: Session, e: Event)
    requires Inv(s) && Allowed(s, e) && (e.CommitTurn? || e.PersistCompleted?)
    requires Do(s, e).rollback.None?
    ensures Snapshot(Do(s, e).store) == (s.history, s.state) && Agree(Do(s, e))
  {
    match e {
      case CommitTurn(io) => CommitSnapshot(s, io);
      case PersistCompleted(ios, io) => PersistKeepsInv(s, ios, io);
    }
  }

  lemma CommitSnapshot(s: Session, io: Io)
    requires Inv(s) && Allowed(s, CommitTurn(io)) && Do(s, CommitTurn(io)).rollback.None?
    ensures var t := Do(s, CommitTurn(io));
      Snapshot(t.store) == (s.history, s.state) && t.state == s.state
  {
    assert IosOf(CommitTurn(io))[0] == io;
    CallFacts(s.codec, s.store, CommitOp(s.state, io));
  }

  // ---------------------------------------------------------------- externally completed turns

  /** A completed snapshot is taken up exactly when a turn is open, its history extends the
      current one and the restore hooks accept it. */
  lemma CompletionAccepted(s: Session, snap: Snap, hookOk: bool)
    requires Inv(s) && Allowed(s, RestoreCompleted(snap, hookOk))
    ensures var t := Do(s, RestoreCompleted(snap, hookOk));
      && (t.mark.Some? <==> s.rollback.Some? && s.history <= snap.0 && hookOk)
      && (t.mark.None? ==> t == s.(raised := true))
  {
  }

  /** What restore hooks and other threads do between taking a snapshot up and persisting it. */
  predicate InGap(e: Event) {
    e.Mutate? || e.Checkpoint?
  }

  /** The value that an owner was last given in these steps, if it was given one or removed. */
  function LastPut(es: seq<Event>, owner: Owner): Option<Option<Json>> {
    if es == [] then None
    else
      var e := es[|es| - 1];
      if e.Mutate? && e.owner == owner then Some(e.value) else LastPut(es[..|es| - 1], owner)
  }

  /** An externally completed turn: what led up to it, the gap, and the commit. */
  function Completing(es: seq<Event>, snap: Snap, gap: seq<Event>, ios: seq<Io>, io: Io): seq<Event> {
    es + [RestoreCompleted(snap, true)] + gap + [PersistCompleted(ios, io)]
  }

  ghost predicate Completes(s: Session, es: seq<Event>, snap: Snap, gap: seq<Event>, ios: seq<Io>, io: Io) {
    && TurnRun(s, Completing(es, snap, gap, ios, io))
    && (forall i :: 0 <= i < |gap| ==> InGap(gap[i]))
    && Turn(s, es).rollback.Some?
    && Turn(s, Completing(es, snap, gap, ios, io)).rollback.None?
  }

  /** The value that taking the snapshot up gives an owner: the owner's last checkpoint in the turn so far,
      or the snapshot's. */
  function Taken(s: Session, es: seq<Event>, snap: Snap, owner: Owner): Option<Json> {
    if owner in Turn(s, es).owners then SavedAt(s, es, owner) else Get(snap.1, owner)
  }

  lemma {:induction false} RunConcat(s: Session, xs: seq<Event>, ys: seq<Event>)
    ensures RunAll(s, xs + ys) == RunAll(RunAll(s, xs), ys)
    ensures Legal(s, xs + ys) ==> Legal(s, xs)
    decreases |ys|
  {
    if ys == [] {
      assert xs + ys == xs;
    } else {
      assert (xs + ys)[..|xs + ys| - 1] == xs + ys[..|ys| - 1];
      RunConcat(s, xs, ys[..|ys| - 1]);
    }
  }

  lemma GapStep(v: Session, e: Event, owner: Owner)
    requires v.rollback.Some? && InGap(e)
    ensures var w := Do(v, e);
      && w.rollback.Some? && w.history == v.history && w.mark == v.mark && w.raised == v.raised && w.sending == v.sending
      && Get(w.state, owner) == (if e.Mutate? && e.owner == owner then e.value else Get(v.state, owner))
      && (owner in v.owners ==> owner in w.owners)
  {
    if e.Checkpoint? { CheckpointFields(v, e.owner, e.io); }
  }

  lemma CheckpointFields(v: Session, owner: Owner, io: Io)
    requires v.rollback.Some?
    ensures var w := Do(v, Event.Checkpoint(owner, io));
      && w == v.(store := w.store, rollback := w.rollback, owners := w.owners)
      && ((w.rollback == v.rollback && w.owners == v.owners)
          || (w.rollback == Some(Put(v.rollback.value, owner, Get(v.state, owner))) && w.owners == v.owners + {owner}))
  {
  }

  /** What a step of the gap saves of an owner is what its rollback or its memory held. */
  lemma GapSaves(v: Session, e: Event, owner: Owner)
    requires v.rollback.Some? && InGap(e)
    ensures var w := Do(v, e);
      && w.rollback.Some?
      && (owner in w.owners ==> if owner in v.owners then Get(w.rollback.value, owner) in [Get(v.rollback.value, owner), Get(v.state, owner)]
                                else Get(w.rollback.value, owner) == Get(v.state, owner))
  {
    if e.Checkpoint? { CheckpointFields(v, e.owner, e.io); }
  }

  /** The gap leaves everything of the turn but states and checkpoints. */
  lemma {:induction false} GapFields(u: Session, gap: seq<Event>)
    requires u.rollback.Some? && forall i :: 0 <= i < |gap| ==> InGap(gap[i])
    ensures var v := RunAll(u, gap);
      v.rollback.Some? && v.history == u.history && v.mark == u.mark && v.raised == u.raised && v.sending == u.sending
    decreases |gap|
  {
    if gap != [] {
      GapFields(u, gap[..|gap| - 1]);
      GapStep(RunAll(u, gap[..|gap| - 1]), gap[|gap| - 1], "");
    }
  }

  lemma {:induction false} GapState(u: Session, gap: seq<Event>, owner: Owner)
    requires u.rollback.Some? && forall i :: 0 <= i < |gap| ==> InGap(gap[i])
    ensures Get(RunAll(u, gap).state, owner)
      == if LastPut(gap, owner).Some? then LastPut(gap, owner).value else Get(u.state, owner)
    ensures owner in u.owners ==> owner in RunAll(u, gap).owners
    decreases |gap|
  {
    if gap != [] {
      GapState(u, gap[..|gap| - 1], owner);
      GapFields(u, gap[..|gap| - 1]);
      GapStep(RunAll(u, gap[..|gap| - 1]), gap[|gap| - 1], owner);
    }
  }

  /** Checkpoints of an owner that is not put in the gap save the value it was given before. */
  lemma {:induction false} GapCheckpoints(u: Session, gap: seq<Event>, owner: Owner)
    requires u.rollback.Some? && forall i :: 0 <= i < |gap| ==> InGap(gap[i])
    requires LastPut(gap, owner).None? && (owner in u.owners ==> Get(u.rollback.value, owner) == Get(u.state, owner))
    ensures RunAll(u, gap).rollback.Some?
    ensures owner in RunAll(u, gap).owners ==> Get(RunAll(u, gap).rollback.value, owner) == Get(u.state, owner)
    decreases |gap|
  {
    GapFields(u, gap);
    if gap != [] {
      var before := gap[..|gap| - 1];
      GapCheckpoints(u, before, owner);
      GapState(u, before, owner);
      GapSaves(RunAll(u, before), gap[|gap| - 1], owner);
    }
  }

  /** Completing an external turn commits the snapshot's history. Of each owner it commits what was last put
      in the gap, and otherwise the snapshot's value overridden exactly at the owners that checkpointed. */
  lemma CompletionCommits(s: Session, es: seq<Event>, snap: Snap, gap: seq<Event>, ios: seq<Io>, io: Io)
    requires Completes(s, es, snap, gap, ios, io)
    ensures var t := Turn(s, Completing(es, snap, gap, ios, io));
      && Snapshot(t.store) == (snap.0, t.state) && t.history == snap.0
      && Turn(s, es).history <= snap.0
      && forall owner :: Get(t.state, owner) ==
           if LastPut(gap, owner).Some? then LastPut(gap, owner).value else Taken(s, es, snap, owner)
  {
    var u, v := TakenUp(s, es, snap, gap, ios, io);
    forall owner
      ensures Get(v.state, owner) == if LastPut(gap, owner).Some? then LastPut(gap, owner).value else Taken(s, es, snap, owner)
    {
      GapState(u, gap, owner);
      TakenIs(s, es, snap, owner, u);
    }
  }

  /** The session once the snapshot was taken up, and just before it is persisted. */
  lemma TakenUp(s: Session, es: seq<Event>, snap: Snap, gap: seq<Event>, ios: seq<Io>, io: Io) returns (u: Session, v: Session)
    requires Completes(s, es, snap, gap, ios, io)
    ensures u == Do(Turn(s, es), RestoreCompleted(snap, true)) && v == RunAll(u, gap)
    ensures v == Turn(s, es + [RestoreCompleted(snap, true)] + gap) && TurnRun(s, es + [RestoreCompleted(snap, true)] + gap)
    ensures TurnRun(s, es) && v.rollback.Some?
    ensures u.mark.Some? && u.history == snap.0 && Turn(s, es).history <= snap.0 && u.owners == Turn(s, es).owners
    ensures u.rollback == Turn(s, es).rollback && u.state == Override(snap.1, Turn(s, es).rollback.value, Turn(s, es).owners)
    ensures var t := Turn(s, Completing(es, snap, gap, ios, io));
      Snapshot(t.store) == (snap.0, t.state) && t.history == snap.0 && t.state == v.state
  {
    var restore, persist := RestoreCompleted(snap, true), PersistCompleted(ios, io);
    var one := es + [restore];
    var two := one + gap;
    var all := Completing(es, snap, gap, ios, io);
    assert all[..|all| - 1] == two && all[|all| - 1] == persist && one[..|one| - 1] == es;
    TurnPrefix(s, all);
    RunConcat(Do(s, BeginTurn), one, gap);
    assert forall i :: 0 <= i < |one| ==> one[i] == all[i];
    TurnPrefix(s, one);
    u := Do(Turn(s, es), restore);
    v := RunAll(u, gap);
    assert Turn(s, one) == u && Turn(s, two) == v && Turn(s, all) == Do(v, persist);
    RestoreEnabled(Turn(s, es), snap);
    GapFields(u, gap);
    CompletionRestores(Turn(s, es), snap);
    TurnKeepsInv(s, two);
    CommitAgrees(v, persist);
    PersistKeepsMemory(v, ios, io);
  }

  lemma RestoreEnabled(t: Session, snap: Snap)
    requires t.rollback.Some?
    ensures var u := Do(t, RestoreCompleted(snap, true));
      u.rollback == t.rollback && u.owners == t.owners && (u.raised == t.raised ==> t.raised || u.mark.Some?)
  {
  }

  lemma TakenIs(s: Session, es: seq<Event>, snap: Snap, owner: Owner, u: Session)
    requires TurnRun(s, es) && Turn(s, es).rollback.Some?
    requires u.state == Override(snap.1, Turn(s, es).rollback.value, Turn(s, es).owners)
    ensures Get(u.state, owner) == Taken(s, es, snap, owner)
  {
    RollbackIsLastCheckpoint(s, es);
    OverrideAt(snap.1, Turn(s, es).rollback.value, Turn(s, es).owners);
  }

  /** What is committed is what was taken up exactly when whatever was put in the gap was the value taken up. */
  lemma CompletionIsOverride(s: Session, es: seq<Event>, snap: Snap, gap: seq<Event>, ios: seq<Io>, io: Io)
    requires Completes(s, es, snap, gap, ios, io)
    ensures (forall owner :: Get(Turn(s, Completing(es, snap, gap, ios, io)).state, owner) == Taken(s, es, snap, owner))
      <==> (forall owner :: LastPut(gap, owner).Some? ==> LastPut(gap, owner).value == Taken(s, es, snap, owner))
  {
    CompletionCommits(s, es, snap, gap, ios, io);
  }

  /** The promise as documented, with checkpoints in the gap counted too: committed are the checkpoints of the
      turn over the snapshot, exactly when whatever was put in the gap ended up checkpointed, or was the
      snapshot's value of an owner that never checkpointed. */
  lemma CompletionKeepsCheckpoints(s: Session, es: seq<Event>, snap: Snap, gap: seq<Event>, ios: seq<Io>, io: Io)
    requires Completes(s, es, snap, gap, ios, io)
    ensures var whole := es + [RestoreCompleted(snap, true)] + gap; var t := Turn(s, Completing(es, snap, gap, ios, io));
      (forall owner :: Get(t.state, owner) == Taken(s, whole, snap, owner))
        <==> (forall owner :: LastPut(gap, owner).Some? ==> LastPut(gap, owner).value == Taken(s, whole, snap, owner))
  {
    var whole := es + [RestoreCompleted(snap, true)] + gap;
    var u, v := TakenUp(s, es, snap, gap, ios, io);
    CompletionCommits(s, es, snap, gap, ios, io);
    RollbackIsLastCheckpoint(s, es);
    RollbackIsLastCheckpoint(s, whole);
    forall owner | LastPut(gap, owner).None? ensures Taken(s, whole, snap, owner) == Taken(s, es, snap, owner) {
      TakenIs(s, es, snap, owner, u);
      GapState(u, gap, owner);
      GapCheckpoints(u, gap, owner);
    }
  }

  /** A turn on an empty journal that has taken up a snapshot, when another thread puts a value. */
  function PutInGap(c: Codec, m: Message, owner: Owner, value: Json): Session {
    Do(Do(Do(Fresh(c, Empty(c)), BeginTurn), RestoreCompleted(([m], map[]), true)), Mutate(owner, Some(value)))
  }

  lemma PutInGapFacts(c: Codec, m: Message, owner: Owner, value: Json)
    ensures var b := Do(Fresh(c, Empty(c)), BeginTurn); var r := Do(b, RestoreCompleted(([m], map[]), true));
      && Allowed(b, RestoreCompleted(([m], map[]), true)) && Allowed(r, Mutate(owner, Some(value)))
      && b.rollback.Some? && b.owners == {}
    ensures var g := PutInGap(c, m, owner, value);
      && g.store == Empty(c) && g.codec == c && g.sending && !g.raised && g.mark == Some(0) && g.history == [m]
      && g.state == map[owner := value] && g.rollback == Some(map[])
  {
    assert [] <= [m];
    assert Override(map[], map[], {}) == map[];
  }

  lemma PersistFirst(g: Session, m: Message)
    requires g.store == Empty(g.codec) && g.sending && !g.raised && g.mark == Some(0) && g.history == [m] && g.rollback.Some?
    ensures Allowed(g, PersistCompleted([Working(1)], Working(2)))
    ensures Do(g, PersistCompleted([Working(1)], Working(2))).rollback.None?
  {
    var ios := [Working(1)];
    assert g.history[0..] == [m] && [m][1..] == [] && ios[1..] == [];
    assert ios + [Working(2)] == [Working(1), Working(2)];
    var o := Append(g.codec, g.store, MessageData(m), Working(1));
    assert o.ok && !o.store.failed;
    assert AppendAll(g.codec, g.store, [m], ios) == (o.store, true);
  }

  lemma RunThree(s: Session, x: Event, y: Event, z: Event)
    requires Allowed(s, x) && Allowed(Do(s, x), y) && Allowed(Do(Do(s, x), y), z)
    ensures Legal(s, [] + [x] + [y] + [z]) && RunAll(s, [] + [x] + [y] + [z]) == Do(Do(Do(s, x), y), z)
  {
    RunSnoc(s, [], x);
    RunSnoc(s, [] + [x], y);
    RunSnoc(s, [] + [x] + [y], z);
  }

  lemma GapCompletes(c: Codec, m: Message, owner: Owner, value: Json)
    requires Lawful(c)
    ensures Completes(Fresh(c, Empty(c)), [], ([m], map[]), [Mutate(owner, Some(value))], [Working(1)], Working(2))
  {
    var s := Fresh(c, Empty(c));
    var snap: Snap := ([m], map[]);
    var restore, put, persist := RestoreCompleted(snap, true), Mutate(owner, Some(value)), PersistCompleted([Working(1)], Working(2));
    EmptySound(c);
    FreshKeepsInv(c, Empty(c));
    PutInGapFacts(c, m, owner, value);
    PersistFirst(PutInGap(c, m, owner, value), m);
    RunThree(Do(s, BeginTurn), restore, put, persist);
    assert Completing([], snap, [put], [Working(1)], Working(2)) == [] + [restore] + [put] + [persist];
  }

  /** A run in which the gap decides: nothing was checkpointed and the snapshot has no state, yet what another
      thread put before the commit is committed. */
  lemma GapIsCommitted(c: Codec, m: Message, owner: Owner, value: Json)
    requires Lawful(c)
    ensures var s := Fresh(c, Empty(c)); var snap := ([m], map[]); var gap := [Mutate(owner, Some(value))];
      && Completes(s, [], snap, gap, [Working(1)], Working(2))
      && Taken(s, [], snap, owner) == None
      && Get(Snapshot(Turn(s, Completing([], snap, gap, [Working(1)], Working(2))).store).1, owner) == Some(value)
  {
    GapCompletes(c, m, owner, value);
    CompletionCommits(Fresh(c, Empty(c)), [], ([m], map[]), [Mutate(owner, Some(value))], [Working(1)], Working(2));
    OnePut(owner, Some(value));
  }

  lemma OnePut(owner: Owner, value: Option<Json>)
    ensures LastPut([Mutate(owner, value)], owner) == Some(value)
  {
  }

  lemma PersistKeepsMemory(u: Session, ios: seq<Io>, io: Io)
    requires u.mark.Some? && Do(u, PersistCompleted(ios, io)).rollback.None?
    ensures var t := Do(u, PersistCompleted(ios, io)); t.history == u.history && t.state == u.state
  {
  }

  lemma CompletionRestores(t: Session, snap: Snap)
    requires t.rollback.Some? && t.mark.None?
    ensures var u := Do(t, RestoreCompleted(snap, true));
      u.mark.Some? ==> u.history == snap.0 && t.history <= snap.0 && u.state == Override(snap.1, t.rollback.value, t.owners)
  {
  }

  lemma OverrideAt(state: PluginState, saved: PluginState, owners: set<Owner>)
    ensures forall owner ::
      Get(Override(state, saved, owners), owner) == (if owner in owners then Get(saved, owner) else Get(state, owner))
  {
  }

  predicate EverCheckpointed(s: Session, es: seq<Event>, owner: Owner) {
    es != [] && (Checkpointed(Turn(s, es[..|es| - 1]), es[|es| - 1], owner) || EverCheckpointed(s, es[..|es| - 1], owner))
  }

  /** The owners recorded in a turn are the ones with a successful checkpoint in it. */
  lemma {:induction false} OwnersCheckpointed(s: Session, es: seq<Event>, owner: Owner)
    requires forall i :: 0 <= i < |es| ==> InTurn(es[i])
    requires Turn(s, es).rollback.Some?
    ensures owner in Turn(s, es).owners <==> EverCheckpointed(s, es, owner)
    decreases |es|
  {
    if es != [] {
      OwnersStep(Turn(s, es[..|es| - 1]), es[|es| - 1]);
      OwnersCheckpointed(s, es[..|es| - 1], owner);
    }
  }
}
