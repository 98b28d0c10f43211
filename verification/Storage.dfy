// `SessionStore` as values: what each operation writes, which disk images it passes
// through, and what its failures leave behind.

module Storage {
  import opened Basics
  import opened Journal

  /** A file under a cache. A crash leaves some prefix of `shadow` that is at least `synced` bytes long. */
  datatype Disk = Disk(content: seq<byte>, shadow: seq<byte>, synced: nat) {
    function Append(data: seq<byte>): Disk {
      Disk(content + data, content + data, synced)
    }
    function Truncate(offset: nat): Disk
      requires offset <= |content|
    {
      Disk(content[..offset], shadow, if synced <= offset then synced else offset)
    }
    function Sync(): Disk {
      Disk(content, content, |content|)
    }
  }

  /** The outcome of `_write`: rejected before any output, cut short after n bytes, or complete. */
  datatype Write = Unencodable | Short(n: nat) | Whole

  /** What the environment decides during one operation. */
  datatype Io = Io(id: Id, seekOk: bool, write: Write, syncOk: bool, truncateOk: bool, resyncOk: bool)

  datatype Store = Store(
    entries: seq<Record>,
    head: Option<Id>,
    committed: Option<Id>,
    failed: bool,
    disk: Disk)

  /** The store after an operation, whether it returned, and every disk image on the way. */
  datatype Outcome = Outcome(store: Store, ok: bool, disks: seq<Disk>)

  function Snapshot(s: Store): (seq<Message>, PluginState) {
    (History(s.entries, s.committed), StateAt(s.entries, s.committed))
  }

  // ---------------------------------------------------------------- operations

  function Append(c: Codec, s: Store, data: Data, io: Io): Outcome {
    if s.failed then Outcome(s, false, [])
    else
      var r := Record(io.id, s.head, data);
      var line := Line(c, r);
      match io.write
      case Unencodable => Outcome(s, false, [])
      case Short(n) =>
        var disk := s.disk.Append(line[..if n <= |line| then n else |line|]);
        Outcome(s.(disk := disk, failed := true), false, [disk])
      case Whole =>
        var disk := s.disk.Append(line);
        Outcome(s.(disk := disk, entries := s.entries + [r], head := Some(io.id)), true, [disk])
  }

  /** The handler of `_durable_append`: remove the attempted line and sync again. */
  function Undo(s: Store, disk: Disk, failed: bool, io: Io, disks: seq<Disk>): Outcome
    requires |s.disk.content| <= |disk.content|
  {
    if !io.truncateOk then Outcome(s.(disk := disk, failed := true), false, disks)
    else
      var cut := disk.Truncate(|s.disk.content|);
      if !io.resyncOk then Outcome(s.(disk := cut, failed := true), false, disks + [cut])
      else Outcome(s.(disk := cut.Sync(), failed := failed), false, disks + [cut, cut.Sync()])
  }

  function DurableAppend(c: Codec, s: Store, data: Data, parent: Option<Id>, io: Io): Outcome {
    if !io.seekOk then Outcome(s, false, [])
    else
      var a := Append(c, s.(head := parent), data, io);
      if a.ok && io.syncOk
      then Outcome(a.store.(disk := a.store.disk.Sync()), true, a.disks + [a.store.disk.Sync()])
      else Undo(s, a.store.disk, a.store.failed || a.ok, io, a.disks)
  }

  function Commit(c: Codec, s: Store, state: PluginState, io: Io): Outcome {
    var o := DurableAppend(c, s, TurnCommit(state), s.head, io);
    if o.ok then o.(store := o.store.(committed := Some(io.id))) else o
  }

  function Checkpoint(c: Codec, s: Store, state: PluginState, io: Io): Outcome {
    var o := DurableAppend(c, s, StateData(state), s.committed, io);
    if o.ok
    then o.(store := o.store.(committed := Some(io.id), head := if s.head != s.committed then s.head else Some(io.id)))
    else o
  }

  function Abort(s: Store): Store {
    s.(head := s.committed)
  }

  predicate Forkable(s: Store, target: Id) {
    HasId(s.entries, target) && Lookup(s.entries, target).data.TurnCommit?
  }

  function Fork(c: Codec, s: Store, target: Id, io: Io): Outcome {
    if !Forkable(s, target) then Outcome(s, false, [])
    else
      var o := DurableAppend(c, s, Select(Some(target)), Some(target), io);
      if o.ok then o.(store := o.store.(head := Some(target), committed := Some(target))) else o
  }

  /** One call. `AppendOp` carries the two kinds of record that select nothing. */
  datatype Op =
    | AppendOp(data: Data, io: Io)
    | CommitOp(state: PluginState, io: Io)
    | CheckpointOp(state: PluginState, io: Io)
    | ForkOp(target: Id, io: Io)
    | AbortOp

  function Step(c: Codec, s: Store, op: Op): Outcome {
    match op
    case AppendOp(data, io) => Append(c, s, data, io)
    case CommitOp(state, io) => Commit(c, s, state, io)
    case CheckpointOp(state, io) => Checkpoint(c, s, state, io)
    case ForkOp(target, io) => Fork(c, s, target, io)
    case AbortOp => Outcome(Abort(s), true, [])
  }

  /** Identifiers are fresh, and only plain records go through the bare `append`. */
  predicate Admissible(s: Store, op: Op) {
    && (!op.AbortOp? ==> !HasId(s.entries, op.io.id))
    && (op.AppendOp? ==> Plain(op.data))
  }

  /** The selection that the operation is trying to make durable. */
  function Aim(s: Store, op: Op): Option<Id> {
    match op
    case CommitOp(_, io) => Some(io.id)
    case CheckpointOp(_, io) => Some(io.id)
    case ForkOp(target, _) => if Forkable(s, target) then Some(target) else s.committed
    case _ => s.committed
  }

  // ---------------------------------------------------------------- invariant

  /** The records in memory replay to the selection in memory. */
  ghost predicate Tree(s: Store) {
    && Replay(s.entries) == Ok(Index(s.entries, s.committed))
    && (s.head.Some? ==> HasId(s.entries, s.head.value))
    && (s.committed.Some? ==> HasId(s.entries, s.committed.value))
  }

  /** How a store's disk is explained: the first k entries are synced, at most one line is
      on disk without being an entry, and at most one line is torn. */
  ghost predicate Explained(c: Codec, s: Store, k: nat, inflight: seq<Record>, torn: seq<byte>) {
    && Lawful(c)
    && Tree(s)
    && k <= |s.entries|
    && (forall i :: k <= i < |s.entries| ==> Plain(s.entries[i].data))
    && |inflight| <= 1
    && Replay(s.entries + inflight).Ok?
    && Unbroken(torn)
    && s.disk.shadow == File(c, s.entries + inflight) + torn
    && |File(c, s.entries[..k])| <= s.disk.synced <= |s.disk.content|
    && (s.disk.content == s.disk.shadow || s.disk.content == File(c, s.entries))
    && (!s.failed ==> inflight == [] && torn == [] && s.disk.content == s.disk.shadow)
  }

  ghost predicate Sound(c: Codec, s: Store) {
    exists k, inflight, torn :: Explained(c, s, k, inflight, torn)
  }

  function SelectedBy(committed: Option<Id>, r: Record): Option<Id> {
    match r.data
    case TurnCommit(_) => Some(r.id)
    case StateData(_) => Some(r.id)
    case Select(target) => target
    case _ => committed
  }

  lemma ReplayInflight(rs: seq<Record>, r: Record)
    requires Replay(rs).Ok? && Replay(rs + [r]).Ok?
    ensures Replay(rs + [r]).value == Index(rs + [r], SelectedBy(Replay(rs).value.committed, r))
  {
    ReplaySnoc(rs, r);
  }

  /** Cutting the disk of an explained store anywhere past its synced bytes leaves a file that
      reopens, keeps every synced record, and selects the committed entry or the one in flight. */
  lemma CrashOfExplained(c: Codec, s: Store, k: nat, inflight: seq<Record>, torn: seq<byte>, p: seq<byte>)
    returns (j: nat)
    requires Explained(c, s, k, inflight, torn)
    requires p <= s.disk.shadow && s.disk.synced <= |p|
    ensures k <= j <= |s.entries + inflight|
    ensures Load(c, p) == Replay((s.entries + inflight)[..j]) && Load(c, p).Ok?
    ensures p[..CompleteLength(p)] == File(c, (s.entries + inflight)[..j])
    ensures Load(c, p).value.committed == s.committed
            || (inflight != [] && Load(c, p).value.committed == SelectedBy(s.committed, inflight[0]))
  {
    var all := s.entries + inflight;
    assert all[..k] == s.entries[..k];
    var t;
    j, t := Cut(c, all, torn, k, p);
    LoadFile(c, all[..j], t);
    SelectionOfCut(s.entries, inflight, k, j);
  }

  lemma SelectionOfCut(es: seq<Record>, inflight: seq<Record>, k: nat, j: nat)
    requires Replay(es).Ok? && Replay(es + inflight).Ok? && |inflight| <= 1
    requires k <= |es| && forall i :: k <= i < |es| ==> Plain(es[i].data)
    requires k <= j <= |es + inflight|
    ensures var cut := Replay((es + inflight)[..j]); var committed := Replay(es).value.committed;
      cut.Ok? && (cut.value.committed == committed
                  || (inflight != [] && cut.value.committed == SelectedBy(committed, inflight[0])))
  {
    var all := es + inflight;
    if j <= |es| {
      assert all[..j] == es[..j];
      PlainTailKeepsSelection(es, k, j);
    } else {
      assert inflight == [inflight[0]] && all[..j] == all;
      ReplayInflight(es, inflight[0]);
    }
  }

  function SnapshotOf(ix: Index): (seq<Message>, PluginState) {
    (History(ix.entries, ix.committed), StateAt(ix.entries, ix.committed))
  }

  /** The snapshot that a prefix of the journal selects reads the same in the whole journal. */
  lemma SnapshotOfPrefix(all: seq<Record>, j: nat)
    requires Replay(all).Ok? && j <= |all|
    ensures Replay(all[..j]).Ok?
    ensures var ix := Replay(all[..j]).value;
      SnapshotOf(ix) == (History(all, ix.committed), StateAt(all, ix.committed))
  {
    ReplayPrefix(all, j);
    SelectionIsState(all[..j]);
    var ix := Replay(all[..j]).value;
    if ix.committed.Some? {
      PrefixAgrees(all, j, ix.committed.value);
    }
  }

  // ---------------------------------------------------------------- one durable append

  lemma WrittenLine(c: Codec, es: seq<Record>, r: Record, n: nat)
    requires Lawful(c)
    requires n <= |Line(c, r)|
    ensures n == |Line(c, r)| ==> File(c, es) + Line(c, r)[..n] == File(c, es + [r]) + []
    ensures n < |Line(c, r)| ==> Unbroken(Line(c, r)[..n])
  {
    FileSnoc(c, es, r);
    if n < |Line(c, r)| {
      assert Line(c, r)[..n] == c.encode(r)[..n];
    }
  }

  /** Any part of a new line at the end of a good store's file is explained by that line alone. */
  lemma PartialLine(c: Codec, s: Store, r: Record, n: nat, disk: Disk, k: nat)
    returns (inflight: seq<Record>, torn: seq<byte>)
    requires !s.failed && Explained(c, s, k, [], [])
    requires Replay(s.entries + [r]).Ok? && n <= |Line(c, r)|
    requires disk.shadow == s.disk.content + Line(c, r)[..n]
    requires disk.content == disk.shadow || disk.content == s.disk.content
    requires |File(c, s.entries[..k])| <= disk.synced <= |disk.content|
    ensures Explained(c, s.(disk := disk, failed := true), k, inflight, torn)
    ensures inflight == [] || inflight == [r]
  {
    WrittenLine(c, s.entries, r, n);
    assert s.entries + [] == s.entries;
    assert s.disk.content == File(c, s.entries);
    if n == |Line(c, r)| {
      inflight, torn := [r], [];
    } else {
      inflight, torn := [], Line(c, r)[..n];
    }
  }

  function Reached(c: Codec, r: Record, w: Write): nat {
    match w
    case Unencodable => 0
    case Short(n) => if n <= |Line(c, r)| then n else |Line(c, r)|
    case Whole => |Line(c, r)|
  }

  /** The images a durable append can pass through: the line partly written, cut off again
      without and with a sync, or whole and synced. */
  function PartWritten(c: Codec, s: Store, r: Record, w: Write): Disk {
    var content := s.disk.content + Line(c, r)[..Reached(c, r, w)];
    Disk(content, content, s.disk.synced)
  }

  predicate Shaped(c: Codec, s: Store, r: Record, w: Write, o: Outcome) {
    var part := PartWritten(c, s, r, w);
    var cut := Disk(s.disk.content, part.shadow, s.disk.synced);
    && (forall d :: d in o.disks ==> d == part || d == cut || d == cut.Sync() || (o.ok && d == part.Sync()))
    && (o.ok ==> w.Whole? && o.store == s.(entries := s.entries + [r], head := Some(r.id), disk := part.Sync()))
    && (!o.ok ==> o.store == s.(disk := o.store.disk, failed := o.store.failed)
                  && o.store.disk in [s.disk, part, cut, cut.Sync()]
                  && (!o.store.failed ==> o.store.disk == s.disk || o.store.disk == cut.Sync()))
  }

  lemma DurableAppendIsShaped(c: Codec, s: Store, data: Data, parent: Option<Id>, io: Io)
    requires !s.failed && s.disk.content == s.disk.shadow && s.disk.synced <= |s.disk.content|
    ensures Shaped(c, s, Record(io.id, parent, data), io.write, DurableAppend(c, s, data, parent, io))
  {
    var r := Record(io.id, parent, data);
    var line := Line(c, r);
    assert line[..|line|] == line;
    assert s.disk.content + line[..0] == s.disk.content;
    var part := PartWritten(c, s, r, io.write);
    assert part.content[..|s.disk.content|] == s.disk.content;
    assert s.disk.content[..|s.disk.content|] == s.disk.content;
  }

  lemma PartIsCaught(c: Codec, s: Store, r: Record, w: Write, k: nat)
    requires !s.failed && Explained(c, s, k, [], [])
    requires Replay(s.entries + [r]).Ok?
    ensures var part := PartWritten(c, s, r, w);
      var cut := Disk(s.disk.content, part.shadow, s.disk.synced);
      && Caught(c, s, r, k, part) && Caught(c, s, r, k, cut) && Caught(c, s, r, k, cut.Sync())
      && Caught(c, s, r, k, s.disk)
  {
    var part := PartWritten(c, s, r, w);
    var cut := Disk(s.disk.content, part.shadow, s.disk.synced);
    CaughtPart(c, s, r, Reached(c, r, w), part, k);
    CaughtPart(c, s, r, Reached(c, r, w), cut, k);
    assert s.disk.content + Line(c, r)[..0] == s.disk.content;
    CaughtPart(c, s, r, 0, s.disk, k);
    FilePrefix(c, s.entries, k);
    assert s.entries + [] == s.entries;
    CaughtPart(c, s, r, 0, cut.Sync(), k);
  }

  lemma ShapedIsExplained(c: Codec, s: Store, r: Record, w: Write, o: Outcome, k: nat)
    requires !s.failed && Explained(c, s, k, [], [])
    requires Replay(s.entries + [r]).Ok?
    requires Shaped(c, s, r, w, o)
    ensures forall d :: d in o.disks ==> Caught(c, s, r, k, d)
    ensures var file := File(c, s.entries + [r]);
      o.ok ==> o.store == s.(entries := s.entries + [r], head := Some(r.id), disk := Disk(file, file, |file|))
    ensures !o.ok ==> o.store == s.(disk := o.store.disk, failed := o.store.failed) && Sound(c, o.store)
  {
    PartIsCaught(c, s, r, w, k);
    var part := PartWritten(c, s, r, w);
    assert s.entries + [] == s.entries;
    if o.ok {
      assert Line(c, r)[..|Line(c, r)|] == Line(c, r);
      FileSnoc(c, s.entries, r);
      CaughtWhole(c, s, r, k, part.Sync());
    } else if o.store.failed {
      CaughtIsSound(c, s, r, k, o.store.disk);
    } else {
      FilePrefix(c, s.entries, k);
      assert Explained(c, o.store, k, [], []);
    }
  }

  /** A disk image that is the old file, with at most the new line r in flight. */
  ghost predicate Caught(c: Codec, s: Store, r: Record, k: nat, d: Disk) {
    exists inflight: seq<Record>, torn: seq<byte> ::
      Explained(c, s.(disk := d, failed := true), k, inflight, torn) && (inflight == [] || inflight == [r])
  }

  lemma CaughtPart(c: Codec, s: Store, r: Record, n: nat, d: Disk, k: nat)
    requires !s.failed && Explained(c, s, k, [], [])
    requires Replay(s.entries + [r]).Ok? && n <= |Line(c, r)|
    requires d.shadow == s.disk.content + Line(c, r)[..n]
    requires d.content == d.shadow || d.content == s.disk.content
    requires |File(c, s.entries[..k])| <= d.synced <= |d.content|
    ensures Caught(c, s, r, k, d)
  {
    var inflight, torn := PartialLine(c, s, r, n, d, k);
  }

  lemma CaughtWhole(c: Codec, s: Store, r: Record, k: nat, d: Disk)
    requires !s.failed && Explained(c, s, k, [], [])
    requires Replay(s.entries + [r]).Ok?
    requires d == Disk(File(c, s.entries + [r]), File(c, s.entries + [r]), |File(c, s.entries + [r])|)
    ensures Caught(c, s, r, k, d)
  {
    assert s.entries + [] == s.entries;
    FilePrefix(c, s.entries, k);
    FileSnoc(c, s.entries, r);
    assert Explained(c, s.(disk := d, failed := true), k, [r], []);
  }

  lemma CaughtIsSound(c: Codec, s: Store, r: Record, k: nat, d: Disk)
    requires Caught(c, s, r, k, d)
    ensures Sound(c, s.(disk := d, failed := true))
  {
  }

  // ---------------------------------------------------------------- crash atomicity

  /** The snapshot that an operation makes durable when it succeeds. */
  function After(s: Store, op: Op): (seq<Message>, PluginState) {
    match op
    case CommitOp(state, _) => (History(s.entries, s.head), state)
    case CheckpointOp(state, _) => (History(s.entries, s.committed), state)
    case ForkOp(target, _) =>
      if Forkable(s, target) then (History(s.entries, Some(target)), StateAt(s.entries, Some(target))) else Snapshot(s)
    case _ => Snapshot(s)
  }

  /** What a crash can leave of a disk. */
  predicate CrashImage(d: Disk, p: seq<byte>) {
    p <= d.shadow && d.synced <= |p|
  }

  /** The file p reopens to one of two snapshots. */
  predicate Recovers(c: Codec, p: seq<byte>, before: (seq<Message>, PluginState), after: (seq<Message>, PluginState)) {
    var loaded := Load(c, p);
    loaded.Ok? && (SnapshotOf(loaded.value) == before || SnapshotOf(loaded.value) == after)
  }

  /** The record that a durable operation writes. */
  function Attempt(s: Store, op: Op): Record
    requires !op.AbortOp?
  {
    match op
    case AppendOp(data, io) => Record(io.id, s.head, data)
    case CommitOp(state, io) => Record(io.id, s.head, TurnCommit(state))
    case CheckpointOp(state, io) => Record(io.id, s.committed, StateData(state))
    case ForkOp(target, io) => Record(io.id, Some(target), Select(Some(target)))
  }

  predicate Durable(s: Store, op: Op) {
    op.CommitOp? || op.CheckpointOp? || (op.ForkOp? && Forkable(s, op.target))
  }

  /** A new record that carries state selects its parent's branch and that state. */
  lemma NewStateSnapshot(es: seq<Record>, r: Record)
    requires Replay(es).Ok? && !HasId(es, r.id) && (r.parent.Some? ==> HasId(es, r.parent.value))
    requires Selecting(r.data)
    ensures Replay(es + [r]).Ok?
    ensures SnapshotOf(Index(es + [r], Some(r.id))) == (History(es, r.parent), r.data.state)
  {
    var all := es + [r];
    ReplaySnoc(es, r);
    assert all[..|es|] == es && all[|es|].id == r.id;
    assert HasId(all, r.id) && Lookup(all, r.id) == r;
    assert History(all, Some(r.id)) == History(es, r.parent) + [];
    assert History(es, r.parent) + [] == History(es, r.parent);
  }

  /** A new selection of an entry with state reads as that entry does. */
  lemma NewSelectSnapshot(es: seq<Record>, r: Record, target: Id)
    requires Replay(es).Ok? && !HasId(es, r.id) && r.parent == Some(target) && r.data == Select(Some(target))
    requires HasId(es, target) && Selecting(Lookup(es, target).data)
    ensures Replay(es + [r]).Ok?
    ensures SnapshotOf(Index(es + [r], Some(target))) == (History(es, Some(target)), StateAt(es, Some(target)))
  {
    var all := es + [r];
    assert all[..|es|] == es;
    ReplaySnoc(es, r);
    LookupOlder(es, r, target);
    PrefixAgrees(all, |es|, target);
  }

  lemma AttemptReplays(s: Store, op: Op)
    requires Tree(s) && Admissible(s, op) && !op.AbortOp? && (op.ForkOp? ==> Forkable(s, op.target))
    ensures var r := Attempt(s, op);
      && Replay(s.entries + [r]).Ok?
      && (Durable(s, op) ==> SnapshotOf(Index(s.entries + [r], SelectedBy(s.committed, r))) == After(s, op))
      && (op.AppendOp? ==> SelectedBy(s.committed, r) == s.committed)
  {
    var r := Attempt(s, op);
    match op {
      case AppendOp(_, _) => ReplaySnoc(s.entries, r);
      case CommitOp(_, _) => NewStateSnapshot(s.entries, r);
      case CheckpointOp(_, _) => NewStateSnapshot(s.entries, r);
      case ForkOp(target, _) => NewSelectSnapshot(s.entries, r, target);
    }
  }

  /** In a good store the invariant leaves nothing in flight. */
  lemma GoodStore(c: Codec, s: Store) returns (k: nat)
    requires Sound(c, s) && !s.failed
    ensures Explained(c, s, k, [], [])
    ensures s.disk.content == s.disk.shadow == File(c, s.entries) && s.disk.synced <= |s.disk.content|
  {
    assert s.entries + [] == s.entries && File(c, s.entries) + [] == File(c, s.entries);
    var k0, inflight, torn :| Explained(c, s, k0, inflight, torn);
    k := k0;
  }

  lemma FailedAppend(c: Codec, s: Store, data: Data, parent: Option<Id>, io: Io)
    requires s.failed && s.disk.synced <= |s.disk.content|
    ensures var o := DurableAppend(c, s, data, parent, io);
      && !o.ok && o.store == s.(disk := o.store.disk)
      && (forall d :: d in o.disks + [o.store.disk] ==> d == s.disk || d == s.disk.Sync())
  {
    assert s.disk.content[..|s.disk.content|] == s.disk.content;
  }

  lemma FailedStep(c: Codec, s: Store, op: Op)
    requires s.failed && s.disk.synced <= |s.disk.content|
    ensures var o := Step(c, s, op);
      && o.store == s.(disk := o.store.disk, head := o.store.head)
      && o.store.head in [s.head, s.committed]
      && (!op.AbortOp? ==> !o.ok)
      && (forall d :: d in o.disks + [o.store.disk] ==> d == s.disk || d == s.disk.Sync())
  {
    match op {
      case AppendOp(data, io) =>
      case CommitOp(state, io) => FailedAppend(c, s, TurnCommit(state), s.head, io);
      case CheckpointOp(state, io) => FailedAppend(c, s, StateData(state), s.committed, io);
      case ForkOp(target, io) =>
        if Forkable(s, target) { FailedAppend(c, s, Select(Some(target)), Some(target), io); }
      case AbortOp =>
    }
  }

  lemma PlainAppendSound(c: Codec, s: Store, data: Data, io: Io)
    requires Sound(c, s) && !s.failed && Admissible(s, AppendOp(data, io))
    ensures Sound(c, Append(c, s, data, io).store)
    ensures forall d, p :: d in Append(c, s, data, io).disks && CrashImage(d, p)
              ==> Recovers(c, p, Snapshot(s), Snapshot(s))
  {
    var k := GoodStore(c, s);
    var op := AppendOp(data, io);
    var r := Attempt(s, op);
    AttemptReplays(s, op);
    var o := Append(c, s, data, io);
    if !io.write.Unencodable? {
      var d := PartWritten(c, s, r, io.write);
      FileSnoc(c, s.entries, r);
      assert Line(c, r)[..|Line(c, r)|] == Line(c, r);
      assert o.store.disk == d && o.disks == [d];
      PlainImage(c, s, r, io.write, k);
      if io.write.Whole? {
        AppendedSound(c, s, op, o.store, k);
      } else {
        CaughtIsSound(c, s, r, k, d);
      }
    }
  }

  lemma PlainImage(c: Codec, s: Store, r: Record, w: Write, k: nat)
    requires !s.failed && Explained(c, s, k, [], [])
    requires Replay(s.entries + [r]).Ok? && Plain(r.data)
    ensures Caught(c, s, r, k, PartWritten(c, s, r, w))
    ensures forall p :: CrashImage(PartWritten(c, s, r, w), p) ==> Recovers(c, p, Snapshot(s), Snapshot(s))
  {
    var d := PartWritten(c, s, r, w);
    CaughtPart(c, s, r, Reached(c, r, w), d, k);
    forall p | CrashImage(d, p)
      ensures Recovers(c, p, Snapshot(s), Snapshot(s))
    {
      CaughtCrash(c, s, r, k, d, p);
    }
  }

  lemma AppendedSound(c: Codec, s: Store, op: Op, t: Store, k: nat)
    requires !s.failed && Explained(c, s, k, [], []) && Admissible(s, op) && op.AppendOp?
    requires var r := Attempt(s, op); var file := File(c, s.entries + [r]);
      t == s.(entries := s.entries + [r], head := Some(r.id), disk := Disk(file, file, s.disk.synced))
    ensures Sound(c, t)
  {
    var r := Attempt(s, op);
    AttemptReplays(s, op);
    ReplayInflight(s.entries, r);
    FileSnoc(c, s.entries, r);
    assert t.entries[..k] == s.entries[..k];
    assert s.entries + [] == s.entries && t.entries + [] == t.entries;
    assert t.entries[|s.entries|].id == r.id;
    if s.committed.Some? { LookupOlder(s.entries, r, s.committed.value); }
    assert t.disk.shadow == File(c, t.entries + []) + [];
    assert Explained(c, t, k, [], []);
  }

  /** Reopening any crash image of a caught disk yields the old snapshot or the one that r selects. */
  lemma CaughtCrash(c: Codec, s: Store, r: Record, k: nat, d: Disk, p: seq<byte>)
    requires Explained(c, s, k, [], []) && Replay(s.entries + [r]).Ok?
    requires Caught(c, s, r, k, d) && CrashImage(d, p)
    ensures Recovers(c, p, Snapshot(s), SnapshotOf(Index(s.entries + [r], SelectedBy(s.committed, r))))
    ensures Plain(r.data) ==> Recovers(c, p, Snapshot(s), Snapshot(s))
  {
    var inflight: seq<Record>, torn :|
      Explained(c, s.(disk := d, failed := true), k, inflight, torn) && (inflight == [] || inflight == [r]);
    var j := CrashOfExplained(c, s.(disk := d, failed := true), k, inflight, torn, p);
    var all := s.entries + [r];
    assert (s.entries + inflight)[..j] == all[..j];
    ReplayInflight(s.entries, r);
    SelectionsOf(s.entries, r, j);
  }

  /** The snapshots of a journal's prefixes, read in the journal with one more record. */
  lemma SelectionsOf(es: seq<Record>, r: Record, j: nat)
    requires Replay(es).Ok? && Replay(es + [r]).Ok? && j <= |es| + 1
    ensures var all := es + [r];
      && Replay(all[..j]).Ok?
      && (var ix := Replay(all[..j]).value; SnapshotOf(ix) == (History(all, ix.committed), StateAt(all, ix.committed)))
      && (var ix := Replay(es).value; SnapshotOf(ix) == (History(all, ix.committed), StateAt(all, ix.committed)))
  {
    var all := es + [r];
    SnapshotOfPrefix(all, j);
    assert all[..|es|] == es;
    SnapshotOfPrefix(all, |es|);
  }

  /** A store that has not failed is durable: every crash of its disk reopens to its own snapshot. */
  lemma GoodStoreIsDurable(c: Codec, s: Store, p: seq<byte>)
    requires Sound(c, s) && !s.failed && CrashImage(s.disk, p)
    ensures Recovers(c, p, Snapshot(s), Snapshot(s))
  {
    var k := GoodStore(c, s);
    var j := CrashOfExplained(c, s, k, [], [], p);
    assert s.entries + [] == s.entries && s.entries[..|s.entries|] == s.entries;
    SnapshotOfPrefix(s.entries, j);
    SnapshotOfPrefix(s.entries, |s.entries|);
  }

  lemma DurableStepSound(c: Codec, s: Store, op: Op)
    requires Sound(c, s) && !s.failed && Admissible(s, op) && Durable(s, op)
    ensures var o := Step(c, s, op);
      && Sound(c, o.store)
      && (o.ok ==> !o.store.failed && Snapshot(o.store) == After(s, op))
      && (!o.ok ==> o.store == s.(disk := o.store.disk, failed := o.store.failed))
      && (forall d, p :: d in o.disks && CrashImage(d, p) ==> Recovers(c, p, Snapshot(s), After(s, op)))
  {
    var k := GoodStore(c, s);
    var r := Attempt(s, op);
    AttemptReplays(s, op);
    var a := DurableAppend(c, s, r.data, r.parent, op.io);
    DurableAppendIsShaped(c, s, r.data, r.parent, op.io);
    ShapedOutcome(c, s, r, op.io.write, a, k);
    if a.ok {
      DurableSuccess(c, s, op, Step(c, s, op).store);
    }
  }

  lemma ShapedOutcome(c: Codec, s: Store, r: Record, w: Write, o: Outcome, k: nat)
    requires !s.failed && Explained(c, s, k, [], [])
    requires Replay(s.entries + [r]).Ok?
    requires Shaped(c, s, r, w, o)
    ensures var file := File(c, s.entries + [r]);
      o.ok ==> o.store == s.(entries := s.entries + [r], head := Some(r.id), disk := Disk(file, file, |file|))
    ensures !o.ok ==> o.store == s.(disk := o.store.disk, failed := o.store.failed) && Sound(c, o.store)
    ensures forall d, p :: d in o.disks && CrashImage(d, p)
              ==> Recovers(c, p, Snapshot(s), SnapshotOf(Index(s.entries + [r], SelectedBy(s.committed, r))))
  {
    ShapedIsExplained(c, s, r, w, o, k);
    forall d, p | d in o.disks && CrashImage(d, p)
      ensures Recovers(c, p, Snapshot(s), SnapshotOf(Index(s.entries + [r], SelectedBy(s.committed, r))))
    {
      CaughtCrash(c, s, r, k, d, p);
    }
  }

  lemma DurableSuccess(c: Codec, s: Store, op: Op, t: Store)
    requires Lawful(c) && Tree(s) && Admissible(s, op) && Durable(s, op)
    requires var r := Attempt(s, op); var file := File(c, s.entries + [r]);
      && t.entries == s.entries + [r] && t.disk == Disk(file, file, |file|) && !t.failed
      && t.committed == SelectedBy(s.committed, r) && t.head in [s.head, Some(r.id), t.committed]
    ensures Sound(c, t) && Snapshot(t) == After(s, op)
  {
    var r := Attempt(s, op);
    AttemptReplays(s, op);
    ReplayInflight(s.entries, r);
    SelectionIsState(t.entries);
    assert t.entries + [] == t.entries && t.entries[..|t.entries|] == t.entries;
    assert t.entries[|s.entries|].id == r.id;
    if s.head.Some? { assert HasId(t.entries, s.head.value) by { LookupOlder(s.entries, r, s.head.value); } }
    assert t.disk.shadow == File(c, t.entries + []) + [];
    assert Explained(c, t, |t.entries|, [], []);
  }

  lemma FailedSound(c: Codec, s: Store, t: Store)
    requires Sound(c, s) && s.failed
    requires t == s.(disk := t.disk, head := t.head) && t.head in [s.head, s.committed]
    requires t.disk == s.disk || t.disk == s.disk.Sync()
    ensures Sound(c, t)
  {
    var k, inflight, torn :| Explained(c, s, k, inflight, torn);
    if t.disk == s.disk || s.disk.content == s.disk.shadow {
      assert Explained(c, t, k, inflight, torn);
    } else {
      assert s.entries + [] == s.entries;
      assert t.disk.shadow == File(c, s.entries + []) + [];
      assert Explained(c, t, k, [], []);
    }
  }

  /** Every operation, whatever the environment decides, leaves an explained store. */
  lemma StepSound(c: Codec, s: Store, op: Op)
    requires Sound(c, s) && Admissible(s, op)
    ensures Sound(c, Step(c, s, op).store)
  {
    var k, inflight, torn :| Explained(c, s, k, inflight, torn);
    if s.failed {
      FailedStep(c, s, op);
      FailedSound(c, s, Step(c, s, op).store);
    } else if op.AppendOp? {
      PlainAppendSound(c, s, op.data, op.io);
    } else if Durable(s, op) {
      DurableStepSound(c, s, op);
    } else {
      assert Explained(c, Step(c, s, op).store, k, inflight, torn);
    }
  }

  /** Every image of a call reopens to the snapshot before it or after it; one that returned is durable. */
  ghost predicate Atomic(c: Codec, s: Store, o: Outcome, after: (seq<Message>, PluginState)) {
    && (forall d, p :: d in o.disks + [s.disk, o.store.disk] && CrashImage(d, p) ==> Recovers(c, p, Snapshot(s), after))
    && (o.ok ==> Snapshot(o.store) == after)
    && (o.ok ==> forall p :: CrashImage(o.store.disk, p) ==> Recovers(c, p, after, after))
  }

  lemma AtomicWhen(c: Codec, s: Store, o: Outcome, after: (seq<Message>, PluginState))
    requires Sound(c, s) && !s.failed
    requires forall d, p :: d in o.disks && CrashImage(d, p) ==> Recovers(c, p, Snapshot(s), after)
    requires o.ok ==> Sound(c, o.store) && !o.store.failed && Snapshot(o.store) == after
    requires !o.ok ==> o.store.disk in o.disks + [s.disk]
    ensures Atomic(c, s, o, after)
  {
    forall p | CrashImage(s.disk, p)
      ensures Recovers(c, p, Snapshot(s), after)
    {
      GoodStoreIsDurable(c, s, p);
    }
    if o.ok {
      forall p | CrashImage(o.store.disk, p)
        ensures Recovers(c, p, after, after)
      {
        GoodStoreIsDurable(c, o.store, p);
      }
    }
  }

  lemma LastDisk(c: Codec, s: Store, data: Data, parent: Option<Id>, io: Io)
    requires s.disk.synced <= |s.disk.content|
    ensures var o := DurableAppend(c, s, data, parent, io);
      o.store.disk in o.disks + [s.disk]
  {
    assert s.disk.content[..|s.disk.content|] == s.disk.content;
  }

  /** Crash atomicity of one call on a good store: any crash at any disk image of the call
      reopens to the snapshot before it or the snapshot it makes durable, and a call that
      returns has made the latter durable. */
  lemma StepIsCrashAtomic(c: Codec, s: Store, op: Op)
    requires Sound(c, s) && !s.failed && Admissible(s, op)
    ensures Atomic(c, s, Step(c, s, op), After(s, op))
  {
    var o := Step(c, s, op);
    if op.AppendOp? {
      PlainAppendSound(c, s, op.data, op.io);
      AppendKeepsSnapshot(c, s, op);
      AtomicWhen(c, s, o, After(s, op));
    } else if Durable(s, op) {
      DurableStepSound(c, s, op);
      var r := Attempt(s, op);
      LastDisk(c, s, r.data, r.parent, op.io);
      AtomicWhen(c, s, o, After(s, op));
    } else {
      AbortSound(c, s);
      AtomicWhen(c, s, o, After(s, op));
    }
  }

  lemma AbortSound(c: Codec, s: Store)
    requires Sound(c, s)
    ensures Sound(c, Abort(s)) && Snapshot(Abort(s)) == Snapshot(s)
  {
    var k, inflight, torn :| Explained(c, s, k, inflight, torn);
    assert Explained(c, Abort(s), k, inflight, torn);
  }

  lemma AppendKeepsSnapshot(c: Codec, s: Store, op: Op)
    requires Tree(s) && Admissible(s, op) && op.AppendOp?
    ensures Snapshot(Step(c, s, op).store) == Snapshot(s)
  {
    var o := Step(c, s, op);
    if o.ok {
      AttemptReplays(s, op);
      var all := s.entries + [Attempt(s, op)];
      assert all[..|s.entries|] == s.entries;
      SnapshotOfPrefix(all, |s.entries|);
    }
  }

  // ---------------------------------------------------------------- when a call returns

  /** A call returns exactly when the journal is usable, its line and, for a durable one, the sync got through,
      and a fork names a completed turn. A returned call leaves the journal usable. */
  lemma ReturnsExactly(c: Codec, s: Store, op: Op)
    requires !op.AbortOp?
    ensures Step(c, s, op).ok <==>
      && !s.failed && op.io.write == Whole
      && (!op.AppendOp? ==> op.io.seekOk && op.io.syncOk)
      && (op.ForkOp? ==> HasId(s.entries, op.target) && Lookup(s.entries, op.target).data.TurnCommit?)
    ensures Step(c, s, op).ok ==> !Step(c, s, op).store.failed
  {
  }

  /** A call that raises makes the journal unusable unless nothing was written of its line and, where the
      end of the file had been found, cutting the file back succeeded; and an unusable one stays unusable. */
  lemma UnusableExactly(c: Codec, s: Store, op: Op)
    requires !op.AbortOp? && !Step(c, s, op).ok && (op.ForkOp? ==> Forkable(s, op.target))
    ensures Step(c, s, op).store.failed <==>
      || s.failed
      || (op.AppendOp? && op.io.write != Unencodable)
      || (!op.AppendOp? && op.io.seekOk && !(op.io.write == Unencodable && op.io.truncateOk && op.io.resyncOk))
  {
  }

  // ---------------------------------------------------------------- what the file says

  /** What a failed attempt to append r leaves in the file. */
  function Leftover(c: Codec, r: Record, io: Io): seq<byte> {
    if io.seekOk && !io.truncateOk then Line(c, r)[..Reached(c, r, io.write)] else []
  }

  /** The line of a failed attempt reached the file whole and could not be removed. */
  predicate LeftBehind(c: Codec, s: Store, op: Op) {
    && Durable(s, op)
    && !(op.io.seekOk && op.io.write.Whole? && op.io.syncOk)
    && Leftover(c, Attempt(s, op), op.io) == Line(c, Attempt(s, op))
  }

  lemma FailedAppendContent(c: Codec, s: Store, data: Data, parent: Option<Id>, io: Io)
    requires !s.failed && !DurableAppend(c, s, data, parent, io).ok
    ensures DurableAppend(c, s, data, parent, io).store.disk.content
      == s.disk.content + Leftover(c, Record(io.id, parent, data), io)
  {
    var r := Record(io.id, parent, data);
    var line := Line(c, r);
    assert line[..|line|] == line;
    var part := PartWritten(c, s, r, io.write);
    assert part.content[..|s.disk.content|] == s.disk.content;
    assert s.disk.content[..|s.disk.content|] == s.disk.content;
    assert s.disk.content + [] == s.disk.content;
  }

  /** What the whole file of a failed attempt replays to. */
  lemma PartialFileReplays(c: Codec, es: seq<Record>, r: Record, part: seq<byte>)
    requires Lawful(c) && Replay(es).Ok? && Replay(es + [r]).Ok? && part <= Line(c, r)
    ensures var loaded := Load(c, File(c, es) + part); var committed := Replay(es).value.committed;
      && loaded.Ok?
      && loaded.value.committed == if part == Line(c, r) then SelectedBy(committed, r) else committed
  {
    if part == Line(c, r) {
      FileSnoc(c, es, r);
      assert File(c, es) + part == File(c, es + [r]) + [];
      LoadFile(c, es + [r], []);
      ReplayInflight(es, r);
    } else {
      assert part == Line(c, r)[..|part|];
      WrittenLine(c, es, r, |part|);
      LoadFile(c, es, part);
    }
  }

  lemma GoodContent(c: Codec, t: Store)
    requires Sound(c, t) && !t.failed
    ensures Load(c, t.disk.content) == Ok(Index(t.entries, t.committed))
    ensures t.disk.content == t.disk.shadow == File(c, t.entries) && t.disk.synced <= |t.disk.content|
  {
    var k := GoodStore(c, t);
    assert t.entries + [] == t.entries && t.disk.content == File(c, t.entries) + [];
    LoadFile(c, t.entries, []);
  }

  lemma PlainContent(c: Codec, s: Store, data: Data, io: Io)
    requires Sound(c, s) && !s.failed && Admissible(s, AppendOp(data, io))
    ensures var t := Append(c, s, data, io).store;
      Load(c, t.disk.content).Ok? && Load(c, t.disk.content).value.committed == t.committed
  {
    var r := Attempt(s, AppendOp(data, io));
    var t := Append(c, s, data, io).store;
    if !t.failed {
      PlainAppendSound(c, s, data, io);
      GoodContent(c, t);
    } else {
      GoodContent(c, s);
      AttemptReplays(s, AppendOp(data, io));
      PartialFileReplays(c, s.entries, r, Line(c, r)[..Reached(c, r, io.write)]);
    }
  }

  /** After one call on a good store, reading the whole file gives the selection in memory,
      except exactly when a failed attempt was left behind with another selection. */
  lemma FileAgreesWithMemory(c: Codec, s: Store, op: Op)
    requires Sound(c, s) && !s.failed && Admissible(s, op)
    ensures var t := Step(c, s, op).store;
      && Load(c, t.disk.content).Ok?
      && (Load(c, t.disk.content).value.committed == t.committed
          <==> !(LeftBehind(c, s, op) && Aim(s, op) != s.committed))
  {
    GoodContent(c, s);
    if op.AppendOp? {
      PlainContent(c, s, op.data, op.io);
    } else if Durable(s, op) {
      DurableFileAgrees(c, s, op);
    }
  }

  lemma DurableFileAgrees(c: Codec, s: Store, op: Op)
    requires Sound(c, s) && !s.failed && Admissible(s, op) && Durable(s, op)
    ensures var t := Step(c, s, op).store;
      && Load(c, t.disk.content).Ok?
      && (Load(c, t.disk.content).value.committed == t.committed
          <==> !(LeftBehind(c, s, op) && Aim(s, op) != s.committed))
  {
    var r := Attempt(s, op);
    var a := DurableAppend(c, s, r.data, r.parent, op.io);
    assert a.ok <==> op.io.seekOk && op.io.write.Whole? && op.io.syncOk;
    assert Step(c, s, op).ok == a.ok;
    if a.ok {
      DurableStepSound(c, s, op);
      GoodContent(c, Step(c, s, op).store);
    } else {
      GoodContent(c, s);
      FailedAppendContent(c, s, r.data, r.parent, op.io);
      assert Record(op.io.id, r.parent, r.data) == r;
      FailedFileAgrees(c, s, op);
    }
  }

  lemma FailedFileAgrees(c: Codec, s: Store, op: Op)
    requires Lawful(c) && Tree(s) && Admissible(s, op) && Durable(s, op)
    requires !(op.io.seekOk && op.io.write.Whole? && op.io.syncOk)
    ensures var loaded := Load(c, File(c, s.entries) + Leftover(c, Attempt(s, op), op.io));
      && loaded.Ok?
      && ((loaded.value.committed == s.committed) <==> !(LeftBehind(c, s, op) && Aim(s, op) != s.committed))
  {
    var r := Attempt(s, op);
    AttemptAims(s, op);
    PartialFileReplays(c, s.entries, r, Leftover(c, r, op.io));
  }

  lemma AttemptAims(s: Store, op: Op)
    requires Tree(s) && Admissible(s, op) && Durable(s, op)
    ensures Replay(s.entries + [Attempt(s, op)]).Ok?
    ensures SelectedBy(s.committed, Attempt(s, op)) == Aim(s, op)
  {
    AttemptReplays(s, op);
  }
}
