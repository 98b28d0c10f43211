// Opening a journal, and whole lives of one: calls, failures and crashes in any order.

module Recovery {
  import opened Basics
  import opened Journal
  import opened Storage

  datatype OpenIo = OpenIo(headerOk: bool, truncateOk: bool, syncOk: bool)
  datatype OpenError = Unreadable(error: LoadError) | OpenFailed

  function Empty(c: Codec): Store {
    Store([], None, None, false, Disk(c.header + [LF], c.header + [LF], |c.header| + 1))
  }

  /** `SessionStore._load`: write the header of a new file, or read an old one and cut its torn tail. */
  function Open(c: Codec, disk: Disk, io: OpenIo): Result<Store, OpenError> {
    if disk.content == [] then
      if io.headerOk && io.syncOk then Ok(Empty(c)) else Err(OpenFailed)
    else
      match Load(c, disk.content)
      case Err(e) => Err(Unreadable(e))
      case Ok(ix) =>
        var complete := CompleteLength(disk.content);
        if complete == |disk.content| then Ok(Store(ix.entries, ix.committed, ix.committed, false, disk))
        else if !io.truncateOk || !io.syncOk then Err(OpenFailed)
        else Ok(Store(ix.entries, ix.committed, ix.committed, false, disk.Truncate(complete).Sync()))
  }

  /** The disk that a crash leaves: what survived is all there is. */
  function Survivor(p: seq<byte>): Disk {
    Disk(p, p, |p|)
  }

  lemma EmptySound(c: Codec)
    requires Lawful(c)
    ensures Sound(c, Empty(c)) && Branch(Empty(c))
  {
    var s := Empty(c);
    assert s.entries + [] == [];
    assert s.disk.shadow == File(c, s.entries + []) + [];
    assert Explained(c, s, 0, [], []);
  }

  /** A crash while a new journal is being created leaves part of its header line. It opens, as an empty
      journal, exactly when nothing or the whole line survived; in between it is refused. */
  lemma NewJournalCrash(c: Codec, p: seq<byte>, io: OpenIo)
    requires Lawful(c) && p <= File(c, []) && io.headerOk && io.syncOk
    ensures p == [] || p == File(c, []) ==> Open(c, Survivor(p), io) == Ok(Empty(c))
    ensures p != [] && p != File(c, []) ==> Open(c, Survivor(p), io) == Err(Unreadable(IncompleteHeader))
  {
    var line := File(c, []);
    if p == line {
      OpenWellFormed(c, [], [], io);
      assert line + [] == line;
    } else {
      assert p == c.header[..|p|];
      assert Unbroken(p);
      assert CompleteLength(p) == 0;
    }
  }

  /** Reopening a well-formed file, torn or not, gives a good store on exactly its whole lines. */
  lemma OpenWellFormed(c: Codec, rs: seq<Record>, torn: seq<byte>, io: OpenIo)
    requires Lawful(c) && Replay(rs).Ok? && Unbroken(torn)
    requires torn == [] || (io.truncateOk && io.syncOk)
    ensures var p := File(c, rs) + torn;
      var file := File(c, rs);
      Open(c, Survivor(p), io) == Ok(Store(rs, Replay(rs).value.committed, Replay(rs).value.committed, false, Survivor(file)))
  {
    var p := File(c, rs) + torn;
    FileEndsInNewline(c, rs);
    LoadFile(c, rs, torn);
    assert p[..|File(c, rs)|] == File(c, rs);
    if torn == [] { assert p == File(c, rs); }
  }

  lemma FreshlyOpenedSound(c: Codec, rs: seq<Record>)
    requires Lawful(c) && Replay(rs).Ok?
    ensures var sel := Replay(rs).value.committed;
      var s := Store(rs, sel, sel, false, Survivor(File(c, rs)));
      Sound(c, s) && Branch(s)
  {
    var sel := Replay(rs).value.committed;
    var s := Store(rs, sel, sel, false, Survivor(File(c, rs)));
    SelectionIsState(rs);
    assert rs + [] == rs && rs[..|rs|] == rs;
    assert s.disk.shadow == File(c, s.entries + []) + [];
    assert Explained(c, s, |rs|, [], []);
  }

  /** The working branch extends the committed one. */
  predicate Branch(s: Store) {
    History(s.entries, s.committed) <= History(s.entries, s.head)
  }

  lemma HistoryInLonger(es: seq<Record>, r: Record, cursor: Option<Id>)
    requires Replay(es).Ok? && Replay(es + [r]).Ok?
    requires cursor.Some? ==> HasId(es, cursor.value)
    ensures History(es + [r], cursor) == History(es, cursor)
  {
    if cursor.Some? {
      assert (es + [r])[..|es|] == es;
      PrefixAgrees(es + [r], |es|, cursor.value);
    }
  }

  lemma StepKeepsBranch(c: Codec, s: Store, op: Op)
    requires Tree(s) && Branch(s) && Admissible(s, op)
    ensures Branch(Step(c, s, op).store)
  {
    StepMoves(c, s, op);
    if Step(c, s, op).ok && !op.AbortOp? { BranchGrows(s, op); }
  }

  /** Which of the records, the head and the selection a call moves. */
  lemma StepMoves(c: Codec, s: Store, op: Op)
    ensures var o := Step(c, s, op); var t := o.store;
      && (!o.ok ==> t.entries == s.entries && t.head == s.head && t.committed == s.committed)
      && (op.AbortOp? ==> t.entries == s.entries && t.head == t.committed == s.committed)
      && (o.ok && !op.AbortOp? ==> t.entries == s.entries + [Attempt(s, op)])
      && (o.ok && op.AppendOp? ==> t.head == Some(op.io.id) && t.committed == s.committed)
      && (o.ok && (op.CommitOp? || op.ForkOp?) ==> t.head == t.committed)
      && (o.ok && op.CheckpointOp? ==> t.committed == Some(op.io.id) && (t.head == s.head || t.head == t.committed))
  {
  }

  /** The record of an append or a checkpoint keeps the committed branch within the working one. */
  lemma BranchGrows(s: Store, op: Op)
    requires Tree(s) && Branch(s) && Admissible(s, op) && !op.AbortOp?
    requires op.ForkOp? ==> Forkable(s, op.target)
    ensures var r := Attempt(s, op); var es := s.entries + [r];
      && (op.AppendOp? ==> History(es, s.committed) <= History(es, Some(r.id)))
      && (op.CheckpointOp? ==> History(es, Some(r.id)) <= History(es, s.head))
  {
    AttemptReplays(s, op);
    AppendedHistory(s.entries, Attempt(s, op), s.head);
    AppendedHistory(s.entries, Attempt(s, op), s.committed);
  }

  lemma AppendedHistory(es: seq<Record>, r: Record, cursor: Option<Id>)
    requires Replay(es).Ok? && Replay(es + [r]).Ok?
    requires cursor.Some? ==> HasId(es, cursor.value)
    ensures History(es + [r], cursor) == History(es, cursor)
    ensures History(es + [r], Some(r.id)) == History(es, r.parent) + Text(r.data)
  {
    HistoryInLonger(es, r, cursor);
    assert (es + [r])[..|es|] == es;
  }

  // ---------------------------------------------------------------- runs

  datatype Life = Call(op: Op) | Crash(image: seq<byte>, io: OpenIo)

  function Next(c: Codec, s: Store, e: Life): Store {
    match e
    case Call(op) => Step(c, s, op).store
    case Crash(image, io) =>
      match Open(c, Survivor(image), io)
      case Ok(t) => t
      case Err(_) => s
  }

  /** A call is admissible, and a crash leaves a crash image of the disk as it stands; the
      process that reopens it can truncate and sync, or it does not get to run. */
  predicate Possible(s: Store, e: Life) {
    match e
    case Call(op) => Admissible(s, op)
    case Crash(image, io) => CrashImage(s.disk, image) && io.truncateOk && io.syncOk
  }

  function Run(c: Codec, s: Store, es: seq<Life>): Store {
    if es == [] then s else Next(c, Run(c, s, es[..|es| - 1]), es[|es| - 1])
  }

  predicate PossibleLife(c: Codec, s: Store, es: seq<Life>) {
    es != [] ==> PossibleLife(c, s, es[..|es| - 1]) && Possible(Run(c, s, es[..|es| - 1]), es[|es| - 1])
  }

  /** A crash of any explained store, failed or not, reopens to a good one. */
  lemma CrashReopens(c: Codec, s: Store, image: seq<byte>, io: OpenIo)
    requires Sound(c, s) && Possible(s, Crash(image, io))
    ensures var o := Open(c, Survivor(image), io);
      o.Ok? && Sound(c, o.value) && Branch(o.value) && !o.value.failed
  {
    var k, inflight, torn :| Explained(c, s, k, inflight, torn);
    ImageReopens(c, s, k, inflight, torn, image, io);
  }

  lemma ImageReopens(c: Codec, s: Store, k: nat, inflight: seq<Record>, torn: seq<byte>, image: seq<byte>, io: OpenIo)
    requires Explained(c, s, k, inflight, torn)
    requires CrashImage(s.disk, image) && io.truncateOk && io.syncOk
    ensures var o := Open(c, Survivor(image), io);
      o.Ok? && Sound(c, o.value) && Branch(o.value) && !o.value.failed
  {
    var all := s.entries + inflight;
    assert all[..k] == s.entries[..k];
    var j, t := Cut(c, all, torn, k, image);
    ReplayPrefix(all, j);
    OpenWellFormed(c, all[..j], t, io);
    FreshlyOpenedSound(c, all[..j]);
  }

  /** Every life of a journal keeps it explained and its working branch an extension of the committed one. */
  lemma {:induction false} RunIsSound(c: Codec, s: Store, es: seq<Life>)
    requires Sound(c, s) && Branch(s) && PossibleLife(c, s, es)
    ensures Sound(c, Run(c, s, es)) && Branch(Run(c, s, es))
    decreases |es|
  {
    if es != [] {
      var before := es[..|es| - 1];
      RunIsSound(c, s, before);
      var t := Run(c, s, before);
      match es[|es| - 1] {
        case Call(op) =>
          StepSound(c, t, op);
          StepKeepsBranch(c, t, op);
        case Crash(image, io) =>
          CrashReopens(c, t, image, io);
      }
    }
  }

  /** The snapshot that was in flight when the journal failed: what the call that failed was about to make
      durable. A journal that has not failed has only its own snapshot. */
  function Flight(c: Codec, s: Store, es: seq<Life>): (seq<Message>, PluginState) {
    var now := Run(c, s, es);
    if es == [] || !now.failed then Snapshot(now)
    else
      var before, last := es[..|es| - 1], es[|es| - 1];
      if last.Call? && !Run(c, s, before).failed then After(Run(c, s, before), last.op) else Flight(c, s, before)
  }

  /** A call on a good store, whether it returned or failed: any later crash of its disk finds the snapshot
      in memory or the one that this call was to make durable. */
  lemma CallThenCrash(c: Codec, s: Store, op: Op)
    requires Sound(c, s) && !s.failed && Admissible(s, op)
    ensures var t := Step(c, s, op).store;
      t.failed ==> Snapshot(t) == Snapshot(s) && forall p :: CrashImage(t.disk, p) ==> Recovers(c, p, Snapshot(t), After(s, op))
  {
    StepIsCrashAtomic(c, s, op);
    var o := Step(c, s, op);
    if o.store.failed {
      FailedCallKeepsTree(c, s, op);
      LastDiskRecovers(c, s, o, After(s, op));
    }
  }

  lemma LastDiskRecovers(c: Codec, s: Store, o: Outcome, after: (seq<Message>, PluginState))
    requires Atomic(c, s, o, after)
    ensures forall p :: CrashImage(o.store.disk, p) ==> Recovers(c, p, Snapshot(s), after)
  {
    assert o.store.disk in o.disks + [s.disk, o.store.disk];
  }

  lemma FailedCallKeepsTree(c: Codec, s: Store, op: Op)
    requires !s.failed && Step(c, s, op).store.failed
    ensures var t := Step(c, s, op).store; t.entries == s.entries && t.committed == s.committed && t.head == s.head
  {
  }

  /** In any life of a journal, failed or not: a crash at its disk finds the snapshot in memory or the one in flight. */
  lemma {:induction false} FailedStoreRecovers(c: Codec, s: Store, es: seq<Life>, p: seq<byte>)
    requires Sound(c, s) && Branch(s) && !s.failed && PossibleLife(c, s, es)
    requires CrashImage(Run(c, s, es).disk, p)
    ensures Recovers(c, p, Snapshot(Run(c, s, es)), Flight(c, s, es))
    decreases |es|
  {
    RunIsSound(c, s, es);
    var now := Run(c, s, es);
    if !now.failed {
      GoodStoreIsDurable(c, now, p);
    } else {
      var before, last := es[..|es| - 1], es[|es| - 1];
      var was := Run(c, s, before);
      RunIsSound(c, s, before);
      match last {
        case Call(op) =>
          if was.failed {
            FailedStoreIsFrozen(c, was, op);
            FailedStoreRecovers(c, s, before, p);
          } else {
            CallThenCrash(c, was, op);
          }
        case Crash(image, io) => CrashReopens(c, was, image, io);
      }
    }
  }

  /** In any life of a journal, a crash at any disk image of the next call reopens to the snapshot before
      that call or to the one it makes durable; once a call has failed, to the snapshot in memory or the
      one that was in flight then. */
  lemma AnyCrashRecovers(c: Codec, es: seq<Life>, op: Op, d: Disk, p: seq<byte>)
    requires Lawful(c) && PossibleLife(c, Empty(c), es)
    requires var s := Run(c, Empty(c), es);
      && Admissible(s, op)
      && d in Step(c, s, op).disks + [s.disk, Step(c, s, op).store.disk] && CrashImage(d, p)
    ensures var s := Run(c, Empty(c), es);
      Recovers(c, p, Snapshot(s), if s.failed then Flight(c, Empty(c), es) else After(s, op))
  {
    EmptySound(c);
    RunIsSound(c, Empty(c), es);
    var s := Run(c, Empty(c), es);
    if s.failed {
      FailedStoreIsFrozen(c, s, op);
      FailedStoreRecovers(c, Empty(c), es, p);
    } else {
      StepIsCrashAtomic(c, s, op);
    }
  }

  /** Once failed, no call changes the records, the selection or what a crash may find. */
  lemma FailedStoreIsFrozen(c: Codec, s: Store, op: Op)
    requires Sound(c, s) && s.failed
    ensures var t := Step(c, s, op).store;
      && t.failed && t.entries == s.entries && t.committed == s.committed
      && (forall d, p :: d in Step(c, s, op).disks + [t.disk] && CrashImage(d, p) ==> CrashImage(s.disk, p))
  {
    var k, inflight, torn :| Explained(c, s, k, inflight, torn);
    FailedStep(c, s, op);
    FilePrefix(c, s.entries + inflight, |s.entries|);
    assert (s.entries + inflight)[..|s.entries|] == s.entries;
  }

  /** Reopening without a crash after an attempt was left behind: the new store trusts a line
      that was never synced, and a crash then still loses it. */
  lemma LeftBehindReopensUnsynced(c: Codec, s: Store, op: Op, io: OpenIo) returns (p: seq<byte>)
    requires Sound(c, s) && !s.failed && Admissible(s, op) && LeftBehind(c, s, op)
    ensures var reopened := Open(c, Step(c, s, op).store.disk, io);
      && reopened.Ok? && reopened.value.committed == Aim(s, op)
      && CrashImage(reopened.value.disk, p)
      && Load(c, p).Ok? && Load(c, p).value.committed == s.committed
  {
    var k := GoodStore(c, s);
    var r := Attempt(s, op);
    LeftBehindDisk(c, s, op);
    FileSnoc(c, s.entries, r);
    AttemptAims(s, op);
    UnsyncedLine(c, s.entries, r, Step(c, s, op).store.disk, io);
    p := File(c, s.entries);
  }

  /** A checkpoint whose line was written, but neither synced nor truncated. */
  const UNDONE := CheckpointOp(map[], Io(1, true, Whole, false, false, false))

  /** It is left behind: reopening selects it, and a crash after that loses it again. */
  lemma LeftBehindHappens(c: Codec, io: OpenIo) returns (p: seq<byte>)
    requires Lawful(c)
    ensures Admissible(Empty(c), UNDONE) && LeftBehind(c, Empty(c), UNDONE)
    ensures !Step(c, Empty(c), UNDONE).ok && Step(c, Empty(c), UNDONE).store.committed == None
    ensures var reopened := Open(c, Step(c, Empty(c), UNDONE).store.disk, io);
      && reopened.Ok? && reopened.value.committed == Some(1)
      && CrashImage(reopened.value.disk, p) && Load(c, p).Ok? && Load(c, p).value.committed == None
  {
    EmptySound(c);
    var line := Line(c, Attempt(Empty(c), UNDONE));
    assert line[..|line|] == line;
    p := LeftBehindReopensUnsynced(c, Empty(c), UNDONE, io);
  }

  lemma LeftBehindDisk(c: Codec, s: Store, op: Op)
    requires !s.failed && s.disk.content == s.disk.shadow && s.disk.synced <= |s.disk.content| && LeftBehind(c, s, op)
    ensures var content := s.disk.content + Line(c, Attempt(s, op));
      Step(c, s, op).store.disk == Disk(content, content, s.disk.synced)
  {
    var r := Attempt(s, op);
    var line := Line(c, r);
    assert Record(op.io.id, r.parent, r.data) == r;
    assert line[..|line|] == line;
    FailedAppendContent(c, s, r.data, r.parent, op.io);
  }

  lemma UnsyncedLine(c: Codec, es: seq<Record>, r: Record, d: Disk, io: OpenIo)
    requires Lawful(c) && Replay(es + [r]).Ok?
    requires d.content == d.shadow == File(c, es + [r]) && d.synced <= |File(c, es)|
    ensures Replay(es).Ok?
    ensures Open(c, d, io).Ok? && Open(c, d, io).value.committed == SelectedBy(Replay(es).value.committed, r)
    ensures Open(c, d, io).value.disk == d && CrashImage(d, File(c, es))
    ensures Load(c, File(c, es)) == Replay(es)
  {
    var all := es + [r];
    assert all[..|es|] == es;
    ReplayPrefix(all, |es|);
    ReplayInflight(es, r);
    FileSnoc(c, es, r);
    FileEndsInNewline(c, all);
    assert File(c, all) == File(c, all) + [] && File(c, es) == File(c, es) + [];
    LoadFile(c, all, []);
    LoadFile(c, es, []);
  }
}
