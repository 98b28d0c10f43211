// `AgentSession` and its journal together: turns, checkpoints inside them, commits, rollbacks,
// externally completed turns, resets, resumes and forks, in any order and with any failure.

module Sessions {
  import opened Basics
  import opened Journal
  import opened Storage
  import opened Recovery

  type Snap = (seq<Message>, PluginState)

  /** How far `new_session` got: a new journal, or a failure before or after the old one was forgotten. */
  datatype Reopening = Reopened | LostBefore | LostAfter

  datatype Session = Session(
    codec: Codec,
    store: Store,
    history: seq<Message>,
    state: PluginState,
    nextPrompt: nat,
    sending: bool,
    turnOpen: bool,
    rollback: Option<PluginState>,
    owners: set<Owner>,
    start: seq<Message>,        // history_start of the open turn
    mark: Option<nat>,          // previous_length of the snapshot being completed
    raised: bool)               // an exception is on its way out of the turn

  /** One atomic step. `Mutate` and `Checkpoint` may come from any thread, at any time. */
  datatype Event =
    | Mutate(owner: Owner, value: Option<Json>)
    | Checkpoint(owner: Owner, io: Io)
    | BeginTurn
    | StartRecord(io: Io)
    | AddMessage(message: Message, io: Io)
    | OpenPrompt
    | CommitTurn(io: Io)
    | RestoreCompleted(snap: Snap, hookOk: bool)
    | PersistCompleted(ios: seq<Io>, io: Io)
    | Raise
    | FinishTurn
    | Reset(codec: Codec, reopening: Reopening)
    | Resume(codec: Codec, other: Store, hookOk: bool)
    | Fork(target: Id, hookOk: bool, undoHookOk: bool, io: Io)
    | Replace(state: PluginState, io: Io)

  // ---------------------------------------------------------------- steps

  function Put(state: PluginState, owner: Owner, value: Option<Json>): PluginState {
    if value.Some? then state[owner := value.value] else state - {owner}
  }

  function Get(state: PluginState, owner: Owner): Option<Json> {
    if owner in state then Some(state[owner]) else None
  }

  /** The completed snapshot's state, overridden exactly at the owners that checkpointed. */
  function Override(state: PluginState, saved: PluginState, owners: set<Owner>): PluginState {
    (state - owners) + (map o | o in owners && o in saved :: saved[o])
  }

  function NextPrompt(history: seq<Message>): nat {
    if history == [] then 1
    else
      var older := NextPrompt(history[..|history| - 1]);
      var id := history[|history| - 1].promptId;
      if id + 1 > older then id + 1 else older
  }

  /** `_restore_snapshot` outside a turn: all three fields, or none when a restore hook raises. */
  function Restored(s: Session, snap: Snap, hookOk: bool): Session {
    if hookOk then s.(history := snap.0, state := snap.1, nextPrompt := NextPrompt(snap.0)) else s
  }

  /** The state that `checkpoint` saves: only this owner's part of memory over the rollback state. */
  function Saved(s: Session, owner: Owner): PluginState {
    Put(if s.rollback.Some? then s.rollback.value else s.state, owner, Get(s.state, owner))
  }

  function AppendAll(c: Codec, s: Store, messages: seq<Message>, ios: seq<Io>): (Store, bool)
    decreases |messages|
  {
    if messages == [] then (s, true)
    else if ios == [] then (s, false)
    else
      var o := Append(c, s, MessageData(messages[0]), ios[0]);
      if o.ok then AppendAll(c, o.store, messages[1..], ios[1..]) else (o.store, false)
  }

  function Do(s: Session, e: Event): Session {
    match e
    case Mutate(owner, value) => s.(state := Put(s.state, owner, value))
    case Checkpoint(owner, io) =>
      var saved := Saved(s, owner);
      var o := Storage.Checkpoint(s.codec, s.store, saved, io);
      if o.ok && s.rollback.Some?
      then s.(store := o.store, rollback := Some(saved), owners := s.owners + {owner})
      else s.(store := o.store)
    case BeginTurn =>
      s.(rollback := Some(s.state), owners := {}, sending := true, start := s.history)
    case StartRecord(io) =>
      var o := Append(s.codec, s.store, TurnStart(s.nextPrompt), io);
      s.(store := o.store, raised := !o.ok)
    case AddMessage(message, io) =>
      var o := Append(s.codec, s.store, MessageData(message), io);
      s.(history := s.history + [message], store := o.store, raised := !o.ok)
    case OpenPrompt => s.(nextPrompt := s.nextPrompt + 1, turnOpen := true)
    case CommitTurn(io) => Committed(s, io)
    case RestoreCompleted(snap, hookOk) =>
      if s.rollback.None? || !(s.history <= snap.0) || !hookOk then s.(raised := true)
      else
        s.(history := snap.0, state := Override(snap.1, s.rollback.value, s.owners),
           nextPrompt := NextPrompt(snap.0), mark := Some(|s.history|))
    case PersistCompleted(ios, io) =>
      if s.mark.None? || s.mark.value > |s.history| then s
      else
        var (store, ok) := AppendAll(s.codec, s.store, s.history[s.mark.value..], ios);
        if ok then Committed(s.(store := store, mark := None), io)
        else s.(store := store, mark := None, raised := true)
    case Raise => s.(raised := true)
    case FinishTurn => Finished(s)
    case Reset(codec, reopening) =>
      var t := s.(history := [], state := map[], nextPrompt := 1, turnOpen := false);
      (match reopening
       case Reopened => t.(codec := codec, store := Empty(codec))
       case LostBefore => t.(store := s.store.(failed := true))
       case LostAfter => t.(codec := codec, store := Empty(codec).(failed := true)))
    case Resume(codec, other, hookOk) =>
      if hookOk then Restored(s, Snapshot(other), true).(codec := codec, store := other) else s
    case Fork(target, hookOk, undoHookOk, io) =>
      if !Forkable(s.store, target) then s
      else
        var proposed := (History(s.store.entries, Some(target)), StateAt(s.store.entries, Some(target)));
        var t := Restored(s, proposed, hookOk);
        if !hookOk then t
        else
          var o := Storage.Fork(s.codec, s.store, target, io);
          if o.ok then t.(store := o.store)
          else Restored(t, (s.history, s.state), undoHookOk).(store := o.store)
    case Replace(state, io) =>
      var o := Storage.Checkpoint(s.codec, s.store, state, io);
      if o.ok then s.(store := o.store, state := state) else s.(store := o.store)
  }

  /** The end of a turn: an uncommitted one goes back to where it started, and to its checkpoints. */
  function Finished(s: Session): Session {
    var t := s.(sending := false, owners := {}, mark := None, raised := false, start := []);
    if s.rollback.Some?
    then t.(history := s.start, store := Abort(s.store), state := s.rollback.value, rollback := None, turnOpen := false)
    else t
  }

  function Committed(s: Session, io: Io): Session {
    var o := Storage.Commit(s.codec, s.store, s.state, io);
    if o.ok then s.(store := o.store, rollback := None, turnOpen := false)
    else s.(store := o.store, raised := true)
  }

  // ---------------------------------------------------------------- what may happen when

  /** The points at which the code takes each step; a step outside them raises and changes nothing. */
  predicate Enabled(s: Session, e: Event) {
    match e
    case Mutate(_, _) => true
    case Checkpoint(_, _) => true
    case BeginTurn => !s.sending && !s.turnOpen
    case StartRecord(_) => Working(s)
    case AddMessage(_, _) => Working(s)
    case OpenPrompt => Working(s)
    case CommitTurn(_) => Working(s)
    case RestoreCompleted(_, _) => s.sending && !s.raised && s.mark.None?
    case PersistCompleted(_, _) => s.sending && !s.raised && s.mark.Some?
    case Raise => s.sending
    case FinishTurn => s.sending
    case Reset(_, _) => !s.sending
    case Resume(_, _, _) => !s.sending
    case Fork(_, _, _, _) => !s.sending
    case Replace(_, _) => !s.sending
  }

  predicate Working(s: Session) {
    s.sending && !s.raised && s.rollback.Some? && s.mark.None?
  }

  /** Journal identifiers are fresh. */
  predicate FreshIos(es: seq<Record>, ios: seq<Io>) {
    && (forall i :: 0 <= i < |ios| ==> !HasId(es, ios[i].id))
    && (forall i, j :: 0 <= i < j < |ios| ==> ios[i].id != ios[j].id)
  }

  function IosOf(e: Event): seq<Io> {
    match e
    case Checkpoint(_, io) => [io]
    case StartRecord(io) => [io]
    case AddMessage(_, io) => [io]
    case CommitTurn(io) => [io]
    case PersistCompleted(ios, io) => ios + [io]
    case Fork(_, _, _, io) => [io]
    case Replace(_, io) => [io]
    case _ => []
  }

  /** The journal that `/resume` opened is a freshly opened one. */
  ghost predicate Opened(c: Codec, store: Store) {
    Sound(c, store) && Branch(store) && store.head == store.committed
  }

  ghost predicate Allowed(s: Session, e: Event) {
    && Enabled(s, e)
    && FreshIos(s.store.entries, IosOf(e))
    && (e.Resume? ==> Opened(e.codec, e.other))
    && (e.Reset? ==> Lawful(e.codec))
  }

  // ---------------------------------------------------------------- what a journal call changes

  function Hist(s: Store, cursor: Option<Id>): seq<Message> {
    History(s.entries, cursor)
  }

  ghost predicate Good(c: Codec, s: Store) {
    Sound(c, s) && Branch(s)
  }

  /** A failed call leaves the tree as it was; a successful one moves it as its kind says. */
  predicate Moved(s: Store, op: Op, o: Outcome) {
    var t := o.store;
    && (!o.ok ==> t.entries == s.entries && t.head == s.head && t.committed == s.committed)
    && (o.ok ==> Snapshot(t) == After(s, op))
    && (o.ok && op.AppendOp? ==> Hist(t, t.head) == Hist(s, s.head) + Text(op.data) && Snapshot(t) == Snapshot(s))
    && (o.ok && op.CheckpointOp? ==> Hist(t, t.head) == Hist(s, s.head) && (s.head == s.committed ==> t.head == t.committed))
    && (o.ok && (op.CommitOp? || op.ForkOp?) ==> t.head == t.committed)
  }

  lemma CallFacts(c: Codec, s: Store, op: Op)
    requires Good(c, s) && Admissible(s, op) && !op.AbortOp?
    ensures Good(c, Step(c, s, op).store)
    ensures Moved(s, op, Step(c, s, op))
  {
    StepSound(c, s, op);
    StepKeepsBranch(c, s, op);
    if s.failed {
      FailedStep(c, s, op) by { var k, inflight, torn :| Explained(c, s, k, inflight, torn); }
      UnmovedWhenFailed(c, s, op);
    } else {
      StepIsCrashAtomic(c, s, op);
      CallMoves(c, s, op);
    }
  }

  lemma UnmovedWhenFailed(c: Codec, s: Store, op: Op)
    requires s.failed && !op.AbortOp?
    ensures var o := Step(c, s, op);
      !o.ok && o.store.entries == s.entries && o.store.head == s.head && o.store.committed == s.committed
  {
  }

  lemma CallMoves(c: Codec, s: Store, op: Op)
    requires Tree(s) && Admissible(s, op) && !op.AbortOp?
    ensures var o := Step(c, s, op); var t := o.store;
      && (!o.ok ==> t.entries == s.entries && t.head == s.head && t.committed == s.committed)
      && (o.ok && op.AppendOp? ==> Hist(t, t.head) == Hist(s, s.head) + Text(op.data) && Snapshot(t) == Snapshot(s))
      && (o.ok && op.CheckpointOp? ==> Hist(t, t.head) == Hist(s, s.head) && (s.head == s.committed ==> t.head == t.committed))
      && (o.ok && (op.CommitOp? || op.ForkOp?) ==> t.head == t.committed)
  {
    var o := Step(c, s, op);
    if o.ok {
      var r := Attempt(s, op);
      AttemptReplays(s, op);
      AppendedHistory(s.entries, r, s.head);
      if op.AppendOp? { AppendKeepsSnapshot(c, s, op); }
      if op.CheckpointOp? {
        AppendedHistory(s.entries, r, s.committed);
        assert Hist(s, s.committed) + [] == Hist(s, s.committed);
      }
    }
  }

  // ---------------------------------------------------------------- the invariant

  predicate Idle(s: Session) {
    !s.sending
  }

  /** Memory and journal tell the same history. */
  predicate Refines(s: Session) {
    s.history == Snapshot(s.store).0
  }

  /** What every step keeps: between turns memory is the committed branch; within a turn the
      branch being written is memory, and the turn's starting point is the committed branch. */
  ghost predicate Inv(s: Session) {
    && Lawful(s.codec)
    && Good(s.codec, s.store)
    && (!s.sending ==> s.rollback.None? && s.mark.None? && !s.raised && !s.turnOpen)
    && (s.rollback.None? ==> Refines(s) && s.store.head == s.store.committed && s.mark.None? && !s.turnOpen)
    && (s.rollback.Some? ==> s.start == Snapshot(s.store).0 && s.start <= s.history)
    && (s.rollback.Some? && !s.raised ==>
        if s.mark.None? then Hist(s.store, s.store.head) == s.history
        else s.mark.value <= |s.history| && Hist(s.store, s.store.head) == s.history[..s.mark.value])
  }

  /** The two ways in which memory and journal come apart between turns. */
  predicate Slips(s: Session, e: Event) {
    match e
    case Reset(_, reopening) => reopening.LostBefore? && Snapshot(s.store).0 != []
    case Fork(target, hookOk, undoHookOk, io) =>
      && Forkable(s.store, target) && hookOk && !undoHookOk
      && !Storage.Fork(s.codec, s.store, target, io).ok
      && Hist(s.store, Some(target)) != Snapshot(s.store).0
    case _ => false
  }

  lemma AppendIds(c: Codec, s: Store, m: Message, io: Io, id: Id)
    requires !HasId(s.entries, id) && io.id != id
    ensures !HasId(Append(c, s, MessageData(m), io).store.entries, id)
  {
    var r := Record(io.id, s.head, MessageData(m));
    assert (s.entries + [r])[..|s.entries|] == s.entries;
  }

  lemma FreshAfterAppend(c: Codec, s: Store, m: Message, ios: seq<Io>)
    requires ios != [] && FreshIos(s.entries, ios)
    ensures FreshIos(Append(c, s, MessageData(m), ios[0]).store.entries, ios[1..])
  {
    forall i | 0 <= i < |ios[1..]|
      ensures !HasId(Append(c, s, MessageData(m), ios[0]).store.entries, ios[1..][i].id)
    {
      AppendIds(c, s, m, ios[0], ios[i + 1].id);
    }
  }

  lemma MessageFacts(c: Codec, s: Store, m: Message, io: Io)
    requires Good(c, s) && !HasId(s.entries, io.id)
    ensures var o := Append(c, s, MessageData(m), io);
      && Good(c, o.store) && Snapshot(o.store) == Snapshot(s)
      && (o.ok ==> Hist(o.store, o.store.head) == Hist(s, s.head) + [m])
  {
    var op := AppendOp(MessageData(m), io);
    CallFacts(c, s, op);
    var o := Step(c, s, op);
    if !o.ok { StoreUnchangedHist(s, o.store); }
  }

  /** A run of appended messages extends the working branch by exactly those messages. */
  lemma {:induction false} AppendAllFacts(c: Codec, s: Store, messages: seq<Message>, ios: seq<Io>)
    requires Good(c, s) && FreshIos(s.entries, ios)
    ensures var (t, ok) := AppendAll(c, s, messages, ios);
      && Good(c, t) && Snapshot(t) == Snapshot(s)
      && (ok ==> Hist(t, t.head) == Hist(s, s.head) + messages)
    decreases |messages|
  {
    if messages == [] {
      assert Hist(s, s.head) + messages == Hist(s, s.head);
    } else if ios != [] {
      MessageFacts(c, s, messages[0], ios[0]);
      FreshAfterAppend(c, s, messages[0], ios);
      var o := Append(c, s, MessageData(messages[0]), ios[0]);
      if o.ok {
        AppendAllFacts(c, o.store, messages[1..], ios[1..]);
        Regroup(Hist(s, s.head), [messages[0]], messages[1..]);
        assert messages == [messages[0]] + messages[1..];
      }
    }
  }

  lemma {:induction false} AppendAllIds(c: Codec, s: Store, messages: seq<Message>, ios: seq<Io>, id: Id)
    requires !HasId(s.entries, id) && forall i :: 0 <= i < |ios| ==> ios[i].id != id
    ensures !HasId(AppendAll(c, s, messages, ios).0.entries, id)
    decreases |messages|
  {
    if messages != [] && ios != [] {
      AppendIds(c, s, messages[0], ios[0], id);
      AppendAllIds(c, Append(c, s, MessageData(messages[0]), ios[0]).store, messages[1..], ios[1..], id);
    }
  }

  lemma CommittedKeepsInv(s: Session, io: Io)
    requires Lawful(s.codec) && Good(s.codec, s.store) && s.sending && !s.raised && s.rollback.Some? && s.mark.None?
    requires s.start == Snapshot(s.store).0 && s.start <= s.history && Hist(s.store, s.store.head) == s.history
    requires !HasId(s.store.entries, io.id)
    ensures Inv(Committed(s, io))
    ensures var t := Committed(s, io); !t.raised ==> t.rollback.None? && Snapshot(t.store) == (s.history, s.state)
  {
    var op := CommitOp(s.state, io);
    CallFacts(s.codec, s.store, op);
  }

  lemma StoreUnchangedHist(s: Store, t: Store)
    requires t.entries == s.entries && t.head == s.head && t.committed == s.committed
    ensures Snapshot(t) == Snapshot(s) && Hist(t, t.head) == Hist(s, s.head)
  {
  }

  lemma StepKeepsInv(s: Session, e: Event)
    requires Inv(s) && Allowed(s, e) && !Slips(s, e)
    ensures Inv(Do(s, e))
  {
    match e {
      case Checkpoint(owner, io) => CheckpointKeepsInv(s, e);
      case StartRecord(io) => AppendKeepsInv(s, e, TurnStart(s.nextPrompt));
      case AddMessage(message, io) => AppendKeepsInv(s, e, MessageData(message));
      case CommitTurn(io) => CommittedKeepsInv(s, io) by { assert IosOf(e)[0] == io; }
      case PersistCompleted(ios, io) => PersistKeepsInv(s, ios, io);
      case FinishTurn => AbortSound(s.codec, s.store);
      case Reset(codec, reopening) => ResetKeepsInv(s, codec, reopening);
      case Resume(codec, other, hookOk) => GoodIsLawful(codec, other);
      case Fork(_, _, _, _) => ForkKeepsInv(s, e);
      case Replace(_, _) => CheckpointKeepsInv(s, e);
      case _ => QuietKeepsInv(s, e);
    }
  }

  /** The steps that do not touch the journal. */
  lemma QuietKeepsInv(s: Session, e: Event)
    requires Inv(s) && Allowed(s, e)
    requires e.Mutate? || e.BeginTurn? || e.OpenPrompt? || e.RestoreCompleted? || e.Raise?
    ensures Inv(Do(s, e))
  {
  }

  lemma CheckpointKeepsInv(s: Session, e: Event)
    requires Inv(s) && Allowed(s, e) && (e.Checkpoint? || e.Replace?)
    ensures Inv(Do(s, e))
  {
    assert IosOf(e)[0] == e.io;
    var op := CheckpointOp(if e.Checkpoint? then Saved(s, e.owner) else e.state, e.io);
    CallFacts(s.codec, s.store, op);
    var o := Step(s.codec, s.store, op);
    if !o.ok { StoreUnchangedHist(s.store, o.store); }
  }

  lemma AppendKeepsInv(s: Session, e: Event, data: Data)
    requires Inv(s) && Allowed(s, e)
    requires (e.StartRecord? && data == TurnStart(s.nextPrompt)) || (e.AddMessage? && data == MessageData(e.message))
    ensures Inv(Do(s, e))
  {
    assert IosOf(e)[0] == e.io;
    var op := AppendOp(data, e.io);
    CallFacts(s.codec, s.store, op);
    var o := Step(s.codec, s.store, op);
    if !o.ok { StoreUnchangedHist(s.store, o.store); }
    assert s.history + [] == s.history;
  }

  lemma ResetKeepsInv(s: Session, codec: Codec, reopening: Reopening)
    requires Inv(s) && !s.sending && Lawful(codec)
    requires reopening.LostBefore? ==> Snapshot(s.store).0 == []
    ensures Inv(Do(s, Reset(codec, reopening)))
  {
    if reopening.LostBefore? { ForgetKeepsInv(s, codec); } else { NewJournalKeepsInv(s, codec, reopening); }
  }

  lemma ForgetKeepsInv(s: Session, codec: Codec)
    requires Inv(s) && !s.sending && Snapshot(s.store).0 == []
    ensures Inv(Do(s, Reset(codec, LostBefore)))
  {
    ForgottenIsGood(s.codec, s.store);
  }

  lemma NewJournalKeepsInv(s: Session, codec: Codec, reopening: Reopening)
    requires Inv(s) && !s.sending && Lawful(codec) && !reopening.LostBefore?
    ensures Inv(Do(s, Reset(codec, reopening)))
  {
    EmptySound(codec);
    ForgottenIsGood(codec, Empty(codec));
  }

  lemma ForkKeepsInv(s: Session, e: Event)
    requires Inv(s) && Allowed(s, e) && e.Fork? && !Slips(s, e)
    ensures Inv(Do(s, e))
  {
    assert IosOf(e)[0] == e.io;
    var op := ForkOp(e.target, e.io);
    CallFacts(s.codec, s.store, op);
    var o := Step(s.codec, s.store, op);
    if !o.ok { StoreUnchangedHist(s.store, o.store); }
  }

  lemma GoodIsLawful(c: Codec, s: Store)
    requires Sound(c, s)
    ensures Lawful(c)
  {
  }

  lemma ForgottenIsGood(c: Codec, s: Store)
    requires Good(c, s)
    ensures Good(c, s.(failed := true))
  {
    var k, inflight, torn :| Explained(c, s, k, inflight, torn);
    assert Explained(c, s.(failed := true), k, inflight, torn);
  }

  lemma FreshApart(es: seq<Record>, ios: seq<Io>, io: Io)
    requires FreshIos(es, ios + [io])
    ensures FreshIos(es, ios) && !HasId(es, io.id) && forall i :: 0 <= i < |ios| ==> ios[i].id != io.id
  {
    var all := ios + [io];
    assert forall i :: 0 <= i < |ios| ==> ios[i] == all[i];
    assert all[|ios|] == io;
  }

  /** What holds when a completed turn is about to be persisted. */
  lemma PersistFields(s: Session, ios: seq<Io>, io: Io)
    requires Inv(s) && Allowed(s, PersistCompleted(ios, io))
    ensures s.rollback.Some? && !s.raised && s.mark.Some? && s.mark.value <= |s.history|
    ensures Good(s.codec, s.store) && FreshIos(s.store.entries, ios + [io])
    ensures Hist(s.store, s.store.head) == s.history[..s.mark.value]
  {
  }

  /** Appending the rest of a history makes the working branch the whole of it. */
  lemma AppendsTheRest(c: Codec, s: Store, history: seq<Message>, mark: nat, ios: seq<Io>, io: Io)
    requires mark <= |history| && Hist(s, s.head) == history[..mark]
    requires Good(c, s) && FreshIos(s.entries, ios + [io])
    ensures FreshIos(s.entries, ios)
    ensures var (store, ok) := AppendAll(c, s, history[mark..], ios);
      && Good(c, store) && Snapshot(store) == Snapshot(s) && !HasId(store.entries, io.id)
      && (ok ==> Hist(store, store.head) == history)
  {
    var rest := history[mark..];
    assert history[..mark] + rest == history;
    FreshApart(s.entries, ios, io);
    AppendAllFacts(c, s, rest, ios);
    AppendAllIds(c, s, rest, ios, io.id);
  }

  /** What is known of the store just before the commit of a completed turn. */
  lemma BeforeCommit(s: Session, ios: seq<Io>, io: Io)
    requires Inv(s) && Allowed(s, PersistCompleted(ios, io))
    ensures FreshIos(s.store.entries, ios) && s.rollback.Some? && !s.raised && s.mark.Some? && s.mark.value <= |s.history|
    ensures var (store, ok) := AppendAll(s.codec, s.store, s.history[s.mark.value..], ios);
      && Good(s.codec, store) && Snapshot(store) == Snapshot(s.store) && !HasId(store.entries, io.id)
      && (ok ==> Hist(store, store.head) == s.history)
  {
    PersistFields(s, ios, io);
    AppendsTheRest(s.codec, s.store, s.history, s.mark.value, ios, io);
  }

  lemma PersistKeepsInv(s: Session, ios: seq<Io>, io: Io)
    requires Inv(s) && Allowed(s, PersistCompleted(ios, io))
    ensures Inv(Do(s, PersistCompleted(ios, io)))
    ensures var t := Do(s, PersistCompleted(ios, io));
      !t.raised ==> t.rollback.None? && Snapshot(t.store) == (s.history, s.state) && t.history == s.history && t.state == s.state
  {
    BeforeCommit(s, ios, io);
    var (store, ok) := AppendAll(s.codec, s.store, s.history[s.mark.value..], ios);
    if ok { CommittedKeepsInv(s.(store := store, mark := None), io); }
  }
}
