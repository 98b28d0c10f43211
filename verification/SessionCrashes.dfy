// Crashes of a session at any point of any run: between steps, at every disk image inside one, and
// after a journal write has failed.

module SessionCrashes {
  import opened Basics
  import opened Journal
  import opened Storage
  import opened Recovery
  import opened Sessions
  import opened Turns

  // ---------------------------------------------------------------- the journal calls of a step

  /** The one journal call that a step makes, when it makes just one. */
  function CallOf(t: Session, e: Event): Option<Op> {
    match e
    case Checkpoint(owner, io) => Some(CheckpointOp(Saved(t, owner), io))
    case StartRecord(io) => Some(AppendOp(TurnStart(t.nextPrompt), io))
    case AddMessage(message, io) => Some(AppendOp(MessageData(message), io))
    case CommitTurn(io) => Some(CommitOp(t.state, io))
    case Fork(target, hookOk, _, io) => if Forkable(t.store, target) && hookOk then Some(ForkOp(target, io)) else None
    case Replace(state, io) => Some(CheckpointOp(state, io))
    case _ => None
  }

  function AppendAllDisks(c: Codec, s: Store, messages: seq<Message>, ios: seq<Io>): seq<Disk>
    decreases |messages|
  {
    if messages == [] || ios == [] then []
    else
      var o := Append(c, s, MessageData(messages[0]), ios[0]);
      o.disks + [o.store.disk] + (if o.ok then AppendAllDisks(c, o.store, messages[1..], ios[1..]) else [])
  }

  /** Every disk image that the session's journal passes through in one step, its first included. */
  function Images(t: Session, e: Event): seq<Disk> {
    [t.store.disk] +
    match CallOf(t, e)
    case Some(op) => var o := Step(t.codec, t.store, op); o.disks + [o.store.disk]
    case None =>
      if e.PersistCompleted? && t.mark.Some? && t.mark.value <= |t.history| then
        var rest := t.history[t.mark.value..];
        var (store, ok) := AppendAll(t.codec, t.store, rest, e.ios);
        AppendAllDisks(t.codec, t.store, rest, e.ios)
          + (if ok then var o := Commit(t.codec, store, t.state, e.io); o.disks + [o.store.disk] else [])
      else []
  }

  /** What a step may make durable: a commit's whole turn, a checkpoint's state, a fork's target, else what
      is committed already. */
  function Aiming(t: Session, e: Event): Snap {
    match e
    case CommitTurn(_) => (t.history, t.state)
    case PersistCompleted(_, _) => (t.history, t.state)
    case Checkpoint(owner, _) => (Snapshot(t.store).0, Saved(t, owner))
    case Replace(state, _) => (Snapshot(t.store).0, state)
    case Fork(target, hookOk, _, _) =>
      if Forkable(t.store, target) && hookOk
      then (Hist(t.store, Some(target)), StateAt(t.store.entries, Some(target))) else Snapshot(t.store)
    case _ => Snapshot(t.store)
  }

  /** A step that goes on with another journal. */
  predicate Switches(e: Event) {
    (e.Reset? && !e.reopening.LostBefore?) || (e.Resume? && e.hookOk)
  }

  /** The journal in use was opened without a failure: it is not what a reset left that failed after
      forgetting the old journal, whose header may be missing. */
  predicate Readable(s: Session, es: seq<Event>) {
    if es == [] then !s.store.failed
    else
      match es[|es| - 1]
      case Reset(_, Reopened) => true
      case Reset(_, LostAfter) => false
      case Resume(_, other, hookOk) => if hookOk then !other.failed else Readable(s, es[..|es| - 1])
      case _ => Readable(s, es[..|es| - 1])
  }

  /** What was in flight when the journal in use failed. */
  function FlightOf(s: Session, es: seq<Event>): Snap {
    var now := RunAll(s, es);
    if es == [] || !now.store.failed then Snapshot(now.store)
    else
      var before, e := es[..|es| - 1], es[|es| - 1];
      if RunAll(s, before).store.failed then FlightOf(s, before) else Aiming(RunAll(s, before), e)
  }

  // ---------------------------------------------------------------- one step on a good journal

  lemma CallIsTheStep(t: Session, e: Event)
    requires CallOf(t, e).Some?
    ensures Do(t, e).store == Step(t.codec, t.store, CallOf(t, e).value).store
  {
  }

  lemma CallIsAdmissible(t: Session, e: Event)
    requires Inv(t) && Allowed(t, e) && CallOf(t, e).Some?
    ensures Admissible(t.store, CallOf(t, e).value) && !CallOf(t, e).value.AbortOp?
    ensures After(t.store, CallOf(t, e).value) == Aiming(t, e)
  {
    assert IosOf(e)[0] == CallOf(t, e).value.io;
  }

  lemma CallImage(t: Session, e: Event, d: Disk, p: seq<byte>)
    requires Inv(t) && Allowed(t, e) && CallOf(t, e).Some? && !t.store.failed
    requires d in Images(t, e) && CrashImage(d, p)
    ensures Recovers(t.codec, p, Snapshot(t.store), Aiming(t, e))
  {
    var op := CallOf(t, e).value;
    CallIsAdmissible(t, e);
    StepIsCrashAtomic(t.codec, t.store, op);
    var o := Step(t.codec, t.store, op);
    assert d in o.disks + [t.store.disk, o.store.disk];
  }

  lemma GoodImage(t: Session, p: seq<byte>)
    requires Inv(t) && !t.store.failed && CrashImage(t.store.disk, p)
    ensures Recovers(t.codec, p, Snapshot(t.store), Snapshot(t.store))
  {
    GoodStoreIsDurable(t.codec, t.store, p);
  }

  /** Crashes between or inside the appends of a completed turn still find the committed history. */
  lemma {:induction false} AppendAllImage(c: Codec, s: Store, messages: seq<Message>, ios: seq<Io>, d: Disk, p: seq<byte>)
    requires Good(c, s) && !s.failed && FreshIos(s.entries, ios)
    requires d in AppendAllDisks(c, s, messages, ios) && CrashImage(d, p)
    ensures Recovers(c, p, Snapshot(s), Snapshot(s))
    decreases |messages|
  {
    var op := AppendOp(MessageData(messages[0]), ios[0]);
    var o := Append(c, s, MessageData(messages[0]), ios[0]);
    StepIsCrashAtomic(c, s, op);
    MessageFacts(c, s, messages[0], ios[0]);
    if d in o.disks + [o.store.disk] {
      assert d in o.disks + [s.disk, o.store.disk];
    } else {
      FreshAfterAppend(c, s, messages[0], ios);
      AppendAllImage(c, o.store, messages[1..], ios[1..], d, p);
    }
  }

  lemma {:induction false} AppendAllStaysGood(c: Codec, s: Store, messages: seq<Message>, ios: seq<Io>)
    requires !s.failed
    ensures var (t, ok) := AppendAll(c, s, messages, ios);
      && (ok ==> !t.failed)
      && (t.disk == s.disk || t.disk in AppendAllDisks(c, s, messages, ios))
    decreases |messages|
  {
    if messages != [] && ios != [] {
      var o := Append(c, s, MessageData(messages[0]), ios[0]);
      if o.ok { AppendAllStaysGood(c, o.store, messages[1..], ios[1..]); }
    }
  }

  lemma PersistImage(t: Session, ios: seq<Io>, io: Io, d: Disk, p: seq<byte>)
    requires Inv(t) && Allowed(t, PersistCompleted(ios, io)) && !t.store.failed
    requires d in Images(t, PersistCompleted(ios, io)) && CrashImage(d, p)
    ensures Recovers(t.codec, p, Snapshot(t.store), (t.history, t.state))
  {
    var rest := t.history[t.mark.value..];
    BeforeCommit(t, ios, io);
    AppendAllStaysGood(t.codec, t.store, rest, ios);
    var (store, ok) := AppendAll(t.codec, t.store, rest, ios);
    if d == t.store.disk {
      GoodImage(t, p);
    } else if d in AppendAllDisks(t.codec, t.store, rest, ios) {
      AppendAllImage(t.codec, t.store, rest, ios, d, p);
    } else {
      var op := CommitOp(t.state, io);
      StepIsCrashAtomic(t.codec, store, op);
      var o := Step(t.codec, store, op);
      assert d in o.disks + [store.disk, o.store.disk];
    }
  }

  /** At every image of a step on a good journal a crash finds what was committed or what the step makes durable. */
  lemma StepImage(t: Session, e: Event, d: Disk, p: seq<byte>)
    requires Inv(t) && Allowed(t, e) && !t.store.failed
    requires d in Images(t, e) && CrashImage(d, p)
    ensures Recovers(t.codec, p, Snapshot(t.store), Aiming(t, e))
  {
    if CallOf(t, e).Some? {
      CallImage(t, e, d, p);
    } else if e.PersistCompleted? {
      PersistImage(t, e.ios, e.io, d, p);
    } else {
      GoodImage(t, p);
    }
  }

  // ---------------------------------------------------------------- failed journals

  lemma LastImage(t: Session, e: Event)
    requires Allowed(t, e) && !Switches(e)
    ensures Do(t, e).codec == t.codec && Do(t, e).store.disk in Images(t, e)
  {
    if CallOf(t, e).Some? {
      CallIsTheStep(t, e);
    } else if e.PersistCompleted? && t.mark.Some? && t.mark.value <= |t.history| {
      PersistLastImage(t, e.ios, e.io);
    }
  }

  lemma PersistLastImage(t: Session, ios: seq<Io>, io: Io)
    requires t.mark.Some? && t.mark.value <= |t.history|
    ensures Do(t, PersistCompleted(ios, io)).store.disk in Images(t, PersistCompleted(ios, io))
  {
    var rest := t.history[t.mark.value..];
    var (store, ok) := AppendAll(t.codec, t.store, rest, ios);
    if !ok { AppendAllLast(t.codec, t.store, rest, ios); }
  }

  lemma {:induction false} AppendAllLast(c: Codec, s: Store, messages: seq<Message>, ios: seq<Io>)
    ensures var (t, ok) := AppendAll(c, s, messages, ios); t.disk == s.disk || t.disk in AppendAllDisks(c, s, messages, ios)
    decreases |messages|
  {
    if messages != [] && ios != [] {
      var o := Append(c, s, MessageData(messages[0]), ios[0]);
      if o.ok { AppendAllLast(c, o.store, messages[1..], ios[1..]); }
    }
  }

  /** A step that leaves the journal failed has not changed what is committed. */
  lemma FailedKeepsHistory(t: Session, e: Event)
    requires Inv(t) && Allowed(t, e) && !Switches(e) && Do(t, e).store.failed
    ensures Snapshot(Do(t, e).store) == Snapshot(t.store)
  {
    if CallOf(t, e).Some? {
      var op := CallOf(t, e).value;
      CallIsTheStep(t, e);
      CallIsAdmissible(t, e);
      CallFacts(t.codec, t.store, op);
      FailedMeansNotOk(t.codec, t.store, op);
    } else if e.PersistCompleted? {
      FailedPersist(t, e.ios, e.io);
    }
  }

  lemma FailedMeansNotOk(c: Codec, s: Store, op: Op)
    requires Step(c, s, op).store.failed && !op.AbortOp?
    ensures !Step(c, s, op).ok
  {
  }

  lemma FailedPersist(t: Session, ios: seq<Io>, io: Io)
    requires Inv(t) && Allowed(t, PersistCompleted(ios, io)) && Do(t, PersistCompleted(ios, io)).store.failed
    ensures Snapshot(Do(t, PersistCompleted(ios, io)).store) == Snapshot(t.store)
  {
    BeforeCommit(t, ios, io);
    var (store, ok) := AppendAll(t.codec, t.store, t.history[t.mark.value..], ios);
    if ok {
      FailedMeansNotOk(t.codec, store, CommitOp(t.state, io));
      FailedCommit(t.codec, store, t.state, io);
    }
  }

  /** On a failed journal no image of any step holds anything a crash could not find before. */
  lemma FrozenImage(t: Session, e: Event, d: Disk, p: seq<byte>)
    requires Inv(t) && Allowed(t, e) && t.store.failed
    requires d in Images(t, e) && CrashImage(d, p)
    ensures CrashImage(t.store.disk, p)
  {
    if CallOf(t, e).Some? {
      var op := CallOf(t, e).value;
      FailedStoreIsFrozen(t.codec, t.store, op);
      var o := Step(t.codec, t.store, op);
      assert d == t.store.disk || d in o.disks + [o.store.disk];
    } else if e.PersistCompleted? {
      FrozenPersist(t, e.ios, e.io, d, p);
    }
  }

  lemma FrozenPersist(t: Session, ios: seq<Io>, io: Io, d: Disk, p: seq<byte>)
    requires Inv(t) && Allowed(t, PersistCompleted(ios, io)) && t.store.failed
    requires d in Images(t, PersistCompleted(ios, io)) && CrashImage(d, p)
    ensures CrashImage(t.store.disk, p)
  {
    var rest := t.history[t.mark.value..];
    var (store, ok) := AppendAll(t.codec, t.store, rest, ios);
    if rest == [] {
      var op := CommitOp(t.state, io);
      FailedStoreIsFrozen(t.codec, t.store, op);
      var o := Step(t.codec, t.store, op);
      assert d == t.store.disk || d in o.disks + [o.store.disk];
    }
  }

  lemma FailedStays(t: Session, e: Event)
    requires Inv(t) && Allowed(t, e) && !Switches(e) && t.store.failed
    ensures Do(t, e).store.failed
  {
    if CallOf(t, e).Some? {
      CallIsTheStep(t, e);
      FailedStoreIsFrozen(t.codec, t.store, CallOf(t, e).value);
    } else if e.PersistCompleted? && t.history[t.mark.value..] == [] {
      FailedStoreIsFrozen(t.codec, t.store, CommitOp(t.state, e.io));
    }
  }

  // ---------------------------------------------------------------- whole runs

  /** After any run a crash of the journal in use finds what is committed, or what was in flight when that
      journal failed. */
  lemma {:induction false} RunImage(s: Session, es: seq<Event>, p: seq<byte>)
    requires Inv(s) && Legal(s, es) && NoSlip(s, es) && Readable(s, es)
    requires CrashImage(RunAll(s, es).store.disk, p)
    ensures var t := RunAll(s, es); Recovers(t.codec, p, Snapshot(t.store), FlightOf(s, es))
    decreases |es|
  {
    RunKeepsInv(s, es);
    var t := RunAll(s, es);
    if !t.store.failed {
      GoodImage(t, p);
    } else {
      var before, e := es[..|es| - 1], es[|es| - 1];
      var u := RunAll(s, before);
      RunKeepsInv(s, before);
      LastImage(u, e);
      FailedKeepsHistory(u, e);
      if u.store.failed {
        FrozenImage(u, e, t.store.disk, p);
        RunImage(s, before, p);
      } else {
        StepImage(u, e, t.store.disk, p);
      }
    }
  }

  /** A crash at any disk image of any step of any run loses at most the turn in progress: what reopens is
      the history committed in memory with the durable plugin state, or what one commit, checkpoint or fork
      had in flight, be it this step's or, on a journal that has failed, the failed step's. */
  lemma CrashLosesAtMostTheTurn(c: Codec, store: Store, es: seq<Event>, e: Event, d: Disk, p: seq<byte>)
    requires Opened(c, store)
    requires var s := Fresh(c, store); Legal(s, es) && NoSlip(s, es) && Readable(s, es)
    requires var t := RunAll(Fresh(c, store), es); Allowed(t, e) && d in Images(t, e) && CrashImage(d, p)
    ensures var t := RunAll(Fresh(c, store), es);
      && Recovers(t.codec, p, Snapshot(t.store), if t.store.failed then FlightOf(Fresh(c, store), es) else Aiming(t, e))
      && Snapshot(t.store).0 == if t.rollback.Some? then t.start else t.history
  {
    var s := Fresh(c, store);
    FreshKeepsInv(c, store);
    RunKeepsInv(s, es);
    var t := RunAll(s, es);
    if t.store.failed {
      FrozenImage(t, e, d, p);
      RunImage(s, es, p);
    } else {
      StepImage(t, e, d, p);
    }
  }

  /** Within a turn that began with memory and journal in agreement, a crash on a good journal finds the
      starting history and, owner by owner, the state at the last checkpoint or at the start. */
  lemma CrashFindsTheCheckpoints(s: Session, es: seq<Event>, p: seq<byte>)
    requires TurnRun(s, es) && Turn(s, es).rollback.Some? && Agree(s)
    requires !Turn(s, es).store.failed && CrashImage(Turn(s, es).store.disk, p)
    ensures Load(Turn(s, es).codec, p).Ok?
    ensures var found := SnapshotOf(Load(Turn(s, es).codec, p).value);
      found.0 == s.history && forall owner :: Get(found.1, owner) == SavedAt(s, es, owner)
  {
    TurnKeepsInv(s, es);
    GoodImage(Turn(s, es), p);
    RollbackIsLastCheckpoint(s, es);
    TurnStays(s, es);
  }
}
