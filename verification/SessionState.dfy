// Plugin state and the prompt counter over whole runs: outside an uncommitted turn memory is the durable
// snapshot, state included, and a switch to another journal or branch takes all of it.

module SessionStates {
  import opened Basics
  import opened Journal
  import opened Storage
  import opened Recovery
  import opened Sessions
  import opened Turns
  import Sending

  /** Memory is the durable snapshot, history and plugin state alike. */
  predicate Whole(s: Session) {
    (s.history, s.state) == Snapshot(s.store)
  }

  /** How memory and the durable snapshot come apart outside an uncommitted turn: a value set without a
      checkpoint, a reset that forgets memory and then fails to leave the old journal, and a fork whose
      write and whose undo both fail. */
  predicate Strays(s: Session, e: Event) {
    match e
    case Mutate(owner, value) => s.rollback.None? && Get(s.state, owner) != value
    case Reset(_, reopening) => reopening.LostBefore? && Snapshot(s.store) != ([], map[])
    case Fork(target, hookOk, undoHookOk, io) =>
      && Forkable(s.store, target) && hookOk && !undoHookOk
      && !Storage.Fork(s.codec, s.store, target, io).ok
      && (History(s.store.entries, Some(target)), StateAt(s.store.entries, Some(target))) != Snapshot(s.store)
    case _ => false
  }

  /** Outside an uncommitted turn memory is the durable snapshot; inside one the durable snapshot is
      what an abort goes back to. */
  ghost predicate InStep(s: Session) {
    && Inv(s)
    && (s.rollback.None? ==> Whole(s))
    && (s.rollback.Some? ==> (s.start, s.rollback.value) == Snapshot(s.store))
  }

  ghost predicate NoStray(s: Session, es: seq<Event>) {
    es != [] ==> NoStray(s, es[..|es| - 1]) && !Strays(RunAll(s, es[..|es| - 1]), es[|es| - 1])
  }

  lemma SlipsStray(s: Session, e: Event)
    requires Slips(s, e)
    ensures Strays(s, e)
  {
  }

  /** The steps of an uncommitted turn, its end included. */
  lemma TurnStaysInStep(s: Session, e: Event)
    requires InStep(s) && s.rollback.Some? && Allowed(s, e)
    ensures InStep(Do(s, e))
  {
    StepKeepsInv(s, e);
    if e.FinishTurn? {
      FinishFacts(s);
    } else if Do(s, e).rollback.Some? {
      RollbackStep(s, e);
      StepStays(s, e);
    } else {
      CommitAgrees(s, e);
      CommitKeepsMemory(s, e);
    }
  }

  lemma CommitKeepsMemory(s: Session, e: Event)
    requires s.rollback.Some? && Do(s, e).rollback.None? && (e.CommitTurn? || e.PersistCompleted?)
    ensures Do(s, e).history == s.history && Do(s, e).state == s.state
  {
  }

  /** A checkpoint outside a turn saves all of memory's state, so it ends any disagreement about it. */
  lemma CheckpointCatchesUp(s: Session, owner: Owner, io: Io)
    requires Inv(s) && s.rollback.None? && Allowed(s, Event.Checkpoint(owner, io))
    ensures var t := Do(s, Event.Checkpoint(owner, io));
      && (Storage.Checkpoint(s.codec, s.store, s.state, io).ok ==> Whole(t))
      && (!Storage.Checkpoint(s.codec, s.store, s.state, io).ok ==> Snapshot(t.store) == Snapshot(s.store))
      && t == s.(store := t.store)
  {
    assert IosOf(Event.Checkpoint(owner, io))[0] == io;
    assert Saved(s, owner) == s.state;
    var op := CheckpointOp(s.state, io);
    CallFacts(s.codec, s.store, op);
    if !Step(s.codec, s.store, op).ok { StoreUnchangedHist(s.store, Step(s.codec, s.store, op).store); }
  }

  /** The state that a replaced generation starts with is durable before it is in memory. */
  lemma ReplaceTakesAll(s: Session, state: PluginState, io: Io)
    requires Inv(s) && Allowed(s, Replace(state, io))
    ensures var t := Do(s, Replace(state, io)); var ok := Storage.Checkpoint(s.codec, s.store, state, io).ok;
      && t.history == s.history && t.nextPrompt == s.nextPrompt && t.state == (if ok then state else s.state)
      && Snapshot(t.store) == (if ok then (s.history, state) else Snapshot(s.store))
  {
    assert IosOf(Replace(state, io))[0] == io;
    var op := CheckpointOp(state, io);
    CallFacts(s.codec, s.store, op);
    if !Step(s.codec, s.store, op).ok { StoreUnchangedHist(s.store, Step(s.codec, s.store, op).store); }
  }

  // ---------------------------------------------------------------- switching journals and branches

  /** The least positive number above every prompt number of a history. */
  ghost predicate LeastAbove(history: seq<Message>, id: nat) {
    id >= 1 && Sending.AllBelow(history, id) && forall n :: n >= 1 && Sending.AllBelow(history, n) ==> id <= n
  }

  lemma CounterIsLeast(history: seq<Message>)
    ensures LeastAbove(history, NextPrompt(history))
  {
    Sending.NextPromptIsAbove(history);
    forall n | n >= 1 && Sending.AllBelow(history, n) ensures NextPrompt(history) <= n {
      Sending.NextPromptIsLeast(history, n);
    }
  }

  /** A resume that the restore hooks accept takes the other journal's history and state, and numbers
      prompts above that history; a refused one changes nothing. */
  lemma ResumeTakesAll(s: Session, c: Codec, other: Store, hookOk: bool)
    ensures var t := Do(s, Resume(c, other, hookOk));
      && (hookOk ==> t.store == other && t.codec == c && (t.history, t.state) == Snapshot(other) && LeastAbove(t.history, t.nextPrompt))
      && (!hookOk ==> t == s)
  {
    CounterIsLeast(Snapshot(other).0);
  }

  /** A fork that was written takes the history and the state of the selected turn, in memory and
      durably; one that was refused changes nothing; one that was undone keeps history and state, and
      numbers prompts above that history again. */
  lemma ForkTakesAll(s: Session, target: Id, hookOk: bool, undoHookOk: bool, io: Io)
    requires Inv(s) && Allowed(s, Event.Fork(target, hookOk, undoHookOk, io))
    ensures var t := Do(s, Event.Fork(target, hookOk, undoHookOk, io));
      var chosen := (History(s.store.entries, Some(target)), StateAt(s.store.entries, Some(target)));
      var written := Storage.Fork(s.codec, s.store, target, io).ok;
      if !Forkable(s.store, target) || !hookOk then t == s
      else
        && LeastAbove(t.history, t.nextPrompt)
        && Snapshot(t.store) == (if written then chosen else Snapshot(s.store))
        && (t.history, t.state) == (if written || !undoHookOk then chosen else (s.history, s.state))
  {
    assert IosOf(Event.Fork(target, hookOk, undoHookOk, io))[0] == io;
    var op := ForkOp(target, io);
    CallFacts(s.codec, s.store, op);
    var o := Step(s.codec, s.store, op);
    if !o.ok { StoreUnchangedHist(s.store, o.store); }
    CounterIsLeast(History(s.store.entries, Some(target)));
    CounterIsLeast(s.history);
  }

  /** A reset forgets history and state at once; the new journal, if the old one was left, is empty too. */
  lemma ResetTakesAll(s: Session, c: Codec, reopening: Reopening)
    ensures var t := Do(s, Reset(c, reopening));
      && t.history == [] && t.state == map[] && t.nextPrompt == 1 && !t.turnOpen
      && Snapshot(t.store) == (if reopening.LostBefore? then Snapshot(s.store) else ([], map[]))
      && (t.store.failed <==> !reopening.Reopened?)
      && t.codec == (if reopening.LostBefore? then s.codec else c)
  {
  }

  /** The steps outside an uncommitted turn. */
  lemma OutsideIsExact(s: Session, e: Event)
    requires InStep(s) && s.rollback.None? && Allowed(s, e) && !e.BeginTurn?
    ensures Whole(Do(s, e)) <==> !Strays(s, e)
    ensures Do(s, e).rollback.None?
  {
    match e {
      case Mutate(owner, value) => MutateStrays(s, owner, value);
      case Checkpoint(owner, io) => CheckpointCatchesUp(s, owner, io);
      case Reset(codec, reopening) => ResetTakesAll(s, codec, reopening);
      case Resume(codec, other, hookOk) => ResumeTakesAll(s, codec, other, hookOk);
      case Fork(target, hookOk, undoHookOk, io) => ForkTakesAll(s, target, hookOk, undoHookOk, io);
      case Replace(state, io) => ReplaceTakesAll(s, state, io);
      case _ =>
    }
  }

  lemma MutateStrays(s: Session, owner: Owner, value: Option<Json>)
    ensures Put(s.state, owner, value) == s.state <==> Get(s.state, owner) == value
  {
    var state := Put(s.state, owner, value);
    assert Get(state, owner) == value;
    if Get(s.state, owner) == value { assert state == s.state; }
  }

  lemma StepStaysInStep(s: Session, e: Event)
    requires InStep(s) && Allowed(s, e) && !Strays(s, e)
    ensures InStep(Do(s, e))
  {
    if s.rollback.Some? {
      TurnStaysInStep(s, e);
    } else {
      if Slips(s, e) { SlipsStray(s, e); }
      StepKeepsInv(s, e);
      if !e.BeginTurn? { OutsideIsExact(s, e); }
    }
  }

  /** In every run without such a step: outside an uncommitted turn memory is the durable snapshot, with
      its plugin state, and inside one the durable snapshot is exactly what an abort goes back to. */
  lemma {:induction false} MemoryIsSnapshot(c: Codec, store: Store, es: seq<Event>)
    requires Opened(c, store) && Legal(Fresh(c, store), es) && NoStray(Fresh(c, store), es)
    ensures var t := RunAll(Fresh(c, store), es);
      && InStep(t)
      && (t.rollback.None? ==> (t.history, t.state) == Snapshot(t.store))
      && (t.rollback.Some? ==> var u := Do(t, FinishTurn); (u.history, u.state) == Snapshot(u.store) == Snapshot(t.store))
    decreases |es|
  {
    var s := Fresh(c, store);
    if es == [] {
      FreshKeepsInv(c, store);
    } else {
      MemoryIsSnapshot(c, store, es[..|es| - 1]);
      StepStaysInStep(RunAll(s, es[..|es| - 1]), es[|es| - 1]);
    }
    if RunAll(s, es).rollback.Some? { FinishFacts(RunAll(s, es)); }
  }

  // ---------------------------------------------------------------- what a turn writes

  /** The records of a turn, each below the one before it: the number it starts with, its messages, its state. */
  lemma TurnRecords(s: Session, e: Event)
    requires e.StartRecord? || e.AddMessage? || e.CommitTurn?
    ensures var es, t := s.store.entries, Do(s, e).store;
      && (e.StartRecord? && !Do(s, e).raised ==> t.entries == es + [Record(e.io.id, s.store.head, TurnStart(s.nextPrompt))])
      && (e.AddMessage? && !Do(s, e).raised ==> t.entries == es + [Record(e.io.id, s.store.head, MessageData(e.message))])
      && (e.CommitTurn? && !s.raised && !Do(s, e).raised ==> t.entries == es + [Record(e.io.id, s.store.head, TurnCommit(s.state))])
      && (!s.raised && Do(s, e).raised ==> t.entries == es && t.head == s.store.head && t.committed == s.store.committed)
      && (!s.raised && !Do(s, e).raised ==> t.head == Some(e.io.id))
  {
  }

  // ---------------------------------------------------------------- the prompt counter

  /** How many prompts were opened. */
  function Prompts(es: seq<Event>): nat {
    if es == [] then 0 else Prompts(es[..|es| - 1]) + (if es[|es| - 1].OpenPrompt? then 1 else 0)
  }

  /** Each prompt opened in a turn uses up a number, and an abort does not give it back. */
  lemma {:induction false} PromptsUseNumbers(s: Session, es: seq<Event>)
    requires forall i :: 0 <= i < |es| ==> InTurn(es[i]) && !es[i].RestoreCompleted?
    ensures Turn(s, es).nextPrompt == s.nextPrompt + Prompts(es)
    ensures Do(Turn(s, es), FinishTurn).nextPrompt == s.nextPrompt + Prompts(es)
    decreases |es|
  {
    if es != [] {
      PromptsUseNumbers(s, es[..|es| - 1]);
      OnePrompt(Turn(s, es[..|es| - 1]), es[|es| - 1]);
    }
  }

  lemma OnePrompt(t: Session, e: Event)
    requires InTurn(e) && !e.RestoreCompleted?
    ensures Do(t, e).nextPrompt == t.nextPrompt + (if e.OpenPrompt? then 1 else 0)
  {
  }

  lemma {:induction false} GapKeepsCounter(u: Session, gap: seq<Event>)
    requires forall i :: 0 <= i < |gap| ==> InGap(gap[i])
    ensures RunAll(u, gap).nextPrompt == u.nextPrompt
    decreases |gap|
  {
    if gap != [] { GapKeepsCounter(u, gap[..|gap| - 1]); }
  }

  /** An externally completed turn leaves the counter at the least number above the history it commits. */
  lemma CompletionCounts(s: Session, es: seq<Event>, snap: Snap, gap: seq<Event>, ios: seq<Io>, io: Io)
    requires Completes(s, es, snap, gap, ios, io)
    ensures LeastAbove(snap.0, Turn(s, Completing(es, snap, gap, ios, io)).nextPrompt)
  {
    var u, v := TakenUp(s, es, snap, gap, ios, io);
    RestoreWasAllowed(s, es, snap, gap);
    RestoreCounts(Turn(s, es), snap);
    GapKeepsCounter(u, gap);
    LastStep(s, es + [RestoreCompleted(snap, true)] + gap, PersistCompleted(ios, io));
    CounterIsLeast(snap.0);
  }

  lemma RestoreWasAllowed(s: Session, es: seq<Event>, snap: Snap, gap: seq<Event>)
    requires TurnRun(s, es + [RestoreCompleted(snap, true)] + gap)
    ensures Turn(s, es).mark.None?
  {
    var one := es + [RestoreCompleted(snap, true)];
    RunConcat(Do(s, BeginTurn), one, gap);
    assert one[..|one| - 1] == es;
  }

  lemma LastStep(s: Session, es: seq<Event>, e: Event)
    requires InTurn(e) && !e.RestoreCompleted? && !e.OpenPrompt?
    ensures Turn(s, es + [e]).nextPrompt == Turn(s, es).nextPrompt
  {
    RunSnoc(Do(s, BeginTurn), es, e);
    OnePrompt(Turn(s, es), e);
  }

  lemma RestoreCounts(t: Session, snap: Snap)
    requires t.mark.None? && Do(t, RestoreCompleted(snap, true)).mark.Some?
    ensures Do(t, RestoreCompleted(snap, true)).nextPrompt == NextPrompt(snap.0)
  {
  }
}
