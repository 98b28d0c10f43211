// The journal object itself: fields that its methods reassign, proved against `Storage` and `Recovery`.

module SessionStores {
  import opened Basics
  import opened Journal
  import opened Storage
  import Recovery
  import Sessions

  datatype StoreError = ForkRequiresTurn | RecordRejected(error: LoadError)

  class SessionStore {
    var codec: Codec                // names the journal file and writes its lines
    var entries: seq<Record>        // a dictionary by identifier, in insertion order
    var head: Option<Id>
    var committed: Option<Id>
    var failed: bool
    var disk: Disk
    ghost var images: seq<Disk>     // every disk image since the journal was opened

    ghost function Model(): Store
      reads this
    {
      Store(entries, head, committed, failed, disk)
    }

    constructor (codec: Codec, disk: Disk, found: Index)
      ensures this.codec == codec && images == []
      ensures Model() == Store(found.entries, found.committed, found.committed, false, disk)
    {
      this.codec, this.disk := codec, disk;
      entries, head, committed := found.entries, found.committed, found.committed;
      failed := false;
      images := [];
    }

    /** `_load`: a journal on what the disk holds, or the reason it cannot be read or repaired. */
    static method Open(codec: Codec, found: Disk, io: Recovery.OpenIo) returns (r: Result<SessionStore, Recovery.OpenError>)
      ensures r.Ok? <==> Recovery.Open(codec, found, io).Ok?
      ensures r.Ok? ==> fresh(r.value) && r.value.codec == codec && r.value.images == []
      ensures r.Ok? ==> r.value.Model() == Recovery.Open(codec, found, io).value
      ensures r.Err? ==> Recovery.Open(codec, found, io) == Err(r.error)
    {
      var raw := found.content;
      if raw == [] {
        if !io.headerOk || !io.syncOk { return Err(Recovery.OpenFailed); }
        var store := new SessionStore(codec, Recovery.Empty(codec).disk, Index([], None));
        return Ok(store);
      }
      var complete := CompleteLength(raw);
      if complete == 0 { return Err(Recovery.Unreadable(IncompleteHeader)); }
      var lines := SplitLines(raw[..complete]);
      if lines == [] { return Err(Recovery.Unreadable(IncompleteHeader)); }
      if !codec.isHeader(lines[0]) { return Err(Recovery.Unreadable(HeaderMismatch)); }
      var records := DecodeAll(codec, lines[1..]);
      if records.None? { return Err(Recovery.Unreadable(MalformedLine)); }
      var loaded := LoadRecords(records.value);
      if loaded.Err? { return Err(Recovery.Unreadable(loaded.error.error)); }
      var disk := found;
      if complete != |raw| {
        if !io.truncateOk || !io.syncOk { return Err(Recovery.OpenFailed); }
        disk := found.Truncate(complete).Sync();
      }
      var store := new SessionStore(codec, disk, loaded.value);
      r := Ok(store);
    }

    method Append(data: Data, io: Io) returns (ok: bool)
      modifies this
      ensures codec == old(codec)
      ensures var o := Storage.Append(codec, old(Model()), data, io);
        Model() == o.store && ok == o.ok && images == old(images) + o.disks
    {
      if failed {
        return false;
      }
      var record := Record(io.id, head, data);
      var line := Line(codec, record);
      match io.write
      case Unencodable =>
        ok := false;
      case Short(n) =>
        disk := disk.Append(line[..if n <= |line| then n else |line|]);
        images := images + [disk];
        failed := true;
        ok := false;
      case Whole =>
        disk := disk.Append(line);
        images := images + [disk];
        entries := entries + [record];
        head := Some(record.id);
        ok := true;
    }

    method DurableAppend(data: Data, parent: Option<Id>, io: Io) returns (ok: bool)
      modifies this
      ensures codec == old(codec)
      ensures var o := Storage.DurableAppend(codec, old(Model()), data, parent, io);
        Model() == o.store && ok == o.ok && images == old(images) + o.disks
    {
      if !io.seekOk {
        return false;
      }
      ghost var start, seen := Model(), images;
      var previous, offset := head, |disk.content|;
      head := parent;
      var appended := Append(data, io);
      ghost var a := Storage.Append(codec, start.(head := parent), data, io);
      if appended && io.syncOk {
        disk := disk.Sync();
        images := images + [disk];
        assert images == seen + (a.disks + [disk]);
        return true;
      }
      if appended {
        failed := true;
        entries := entries[..|entries| - 1];
        assert entries == start.entries;
      }
      head := previous;
      RemoveAttempt(offset, io);
      ok := false;
      UndoOutcome(start, Model(), a, seen, images, io);
    }

    /** Cut the file back to where an attempt began, and sync; any failure closes the journal for writing. */
    method RemoveAttempt(offset: nat, io: Io)
      requires offset <= |disk.content|
      modifies this
      ensures codec == old(codec)
      ensures head == old(head) && entries == old(entries) && committed == old(committed)
      ensures var cut := old(disk).Truncate(offset);
        if !io.truncateOk then failed && disk == old(disk) && images == old(images)
        else if !io.resyncOk then failed && disk == cut && images == old(images) + [cut]
        else failed == old(failed) && disk == cut.Sync() && images == old(images) + [cut, cut.Sync()]
    {
      if !io.truncateOk {
        failed := true;
        return;
      }
      disk := disk.Truncate(offset);
      images := images + [disk];
      if !io.resyncOk {
        failed := true;
        return;
      }
      disk := disk.Sync();
      images := images + [disk];
    }

    method Commit(state: PluginState, io: Io) returns (ok: bool)
      modifies this
      ensures codec == old(codec)
      ensures var o := Storage.Commit(codec, old(Model()), state, io);
        Model() == o.store && ok == o.ok && images == old(images) + o.disks
    {
      ok := DurableAppend(TurnCommit(state), head, io);
      if ok {
        committed := Some(io.id);
      }
    }

    method Checkpoint(state: PluginState, io: Io) returns (ok: bool)
      modifies this
      ensures codec == old(codec)
      ensures var o := Storage.Checkpoint(codec, old(Model()), state, io);
        Model() == o.store && ok == o.ok && images == old(images) + o.disks
    {
      var working, selected := head, committed;
      ok := DurableAppend(StateData(state), selected, io);
      if ok {
        committed := Some(io.id);
        if working != selected {
          head := working;
        }
      }
    }

    method Abort()
      modifies this
      ensures codec == old(codec)
      ensures Model() == Storage.Abort(old(Model())) && images == old(images)
    {
      head := committed;
    }

    /** Close this journal and open a new one, which may fail before or after this one is forgotten. */
    method NewSession(next: Codec, reopening: Sessions.Reopening) returns (ok: bool)
      modifies this
      ensures ok == reopening.Reopened?
      ensures reopening.LostBefore? ==> codec == old(codec) && Model() == old(Model()).(failed := true)
      ensures !reopening.LostBefore? ==> codec == next && Model() == Recovery.Empty(next).(failed := !ok)
    {
      ok := reopening.Reopened?;
      if reopening.LostBefore? {
        failed := true;
        return;
      }
      codec := next;
      entries, head, committed := [], None, None;
      failed := !ok;
      disk := Recovery.Empty(next).disk;
    }

    method Fork(target: Id, io: Io) returns (ok: bool)
      modifies this
      ensures codec == old(codec)
      ensures var o := Storage.Fork(codec, old(Model()), target, io);
        Model() == o.store && ok == o.ok && images == old(images) + o.disks
    {
      if !Forkable(Store(entries, head, committed, failed, disk), target) {
        return false;
      }
      ok := DurableAppend(Select(Some(target)), Some(target), io);
      if ok {
        head, committed := Some(target), Some(target);
      }
    }

    /** The history and state of the committed branch, or of a completed turn, found by walking parents. */
    method Snapshot(at: Option<Id>) returns (r: Result<(seq<Message>, PluginState), StoreError>)
      requires Tree(Model())
      ensures r.Ok? <==> at.None? || Forkable(Model(), at.value)
      ensures r.Ok? && at.None? ==> r.value == Storage.Snapshot(Model())
      ensures r.Ok? && at.Some? ==> r.value == (History(entries, at), StateAt(entries, at))
    {
      if at.Some? && !Forkable(Store(entries, head, committed, failed, disk), at.value) {
        return Err(ForkRequiresTurn);
      }
      var start := if at.Some? then at else committed;
      var chain := Chain(start);
      var history := Messages(chain);
      return Ok((history, StateAt(entries, start)));
    }

    /** The records of a branch, newest first. */
    method Chain(start: Option<Id>) returns (chain: seq<Record>)
      requires Tree(Model()) && (start.Some? ==> HasId(entries, start.value))
      ensures OldestFirst(chain) == History(entries, start)
    {
      chain := [];
      var cursor := start;
      while cursor.Some?
        invariant cursor.Some? ==> HasId(entries, cursor.value)
        invariant History(entries, start) == History(entries, cursor) + OldestFirst(chain)
        decreases Depth(entries, cursor)
      {
        HistoryStep(entries, cursor.value);
        DepthStep(entries, cursor.value);
        var record := Lookup(entries, cursor.value);
        ghost var older, newer := History(entries, record.parent), OldestFirst(chain);
        Regroup(older, Text(record.data), newer);
        assert (chain + [record])[..|chain|] == chain;
        chain := chain + [record];
        assert OldestFirst(chain) == Text(record.data) + newer;
        cursor := record.parent;
      }
    }

    static method Messages(chain: seq<Record>) returns (history: seq<Message>)
      ensures history == OldestFirst(chain)
    {
      history := [];
      var i := |chain|;
      assert chain[..i] == chain;
      while i > 0
        invariant 0 <= i <= |chain|
        invariant OldestFirst(chain) == history + OldestFirst(chain[..i])
      {
        i := i - 1;
        assert chain[..i + 1][..i] == chain[..i];
        ghost var rest := OldestFirst(chain[..i]);
        assert OldestFirst(chain[..i + 1]) == Text(chain[i].data) + rest;
        Regroup(history, Text(chain[i].data), rest);
        history := history + Text(chain[i].data);
      }
    }

    /** `_load_record` for each record in turn. */
    static method LoadRecords(rs: seq<Record>) returns (r: Result<Index, StoreError>)
      ensures r.Ok? <==> Replay(rs).Ok?
      ensures r.Ok? ==> r.value == Replay(rs).value
      ensures r.Err? ==> r.error == RecordRejected(Replay(rs).error)
    {
      var ix := Index([], None);
      var i := 0;
      while i < |rs|
        invariant 0 <= i <= |rs|
        invariant Replay(rs[..i]) == Ok(ix)
      {
        assert rs[..i + 1] == rs[..i] + [rs[i]];
        ReplaySnoc(rs[..i], rs[i]);
        var next := LoadRecord(ix, rs[i]);
        match next
        case Err(e) =>
          ReplayFailsEarly(rs, i + 1);
          return Err(RecordRejected(e));
        case Ok(loaded) =>
          ix := loaded;
          i := i + 1;
      }
      assert rs[..|rs|] == rs;
      return Ok(ix);
    }
  }

  /** Undoing an attempt step by step is `Undo`. */
  lemma UndoOutcome(before: Store, after: Store, a: Outcome, seen: seq<Disk>, images: seq<Disk>, io: Io)
    requires |before.disk.content| <= |a.store.disk.content|
    requires after == before.(disk := after.disk, failed := after.failed)
    requires var cut := a.store.disk.Truncate(|before.disk.content|);
      if !io.truncateOk then after.failed && after.disk == a.store.disk && images == seen + a.disks
      else if !io.resyncOk then after.failed && after.disk == cut && images == seen + a.disks + [cut]
      else after.failed == (a.store.failed || a.ok) && after.disk == cut.Sync()
           && images == seen + a.disks + [cut, cut.Sync()]
    ensures var o := Undo(before, a.store.disk, a.store.failed || a.ok, io, a.disks);
      after == o.store && !o.ok && images == seen + o.disks
  {
  }

  /** The messages of a chain collected newest first, put back in order. */
  function OldestFirst(chain: seq<Record>): seq<Message> {
    if chain == [] then []
    else Text(chain[|chain| - 1].data) + OldestFirst(chain[..|chain| - 1])
  }

  /** How many entries a branch has. */
  function Depth(es: seq<Record>, cursor: Option<Id>): nat {
    if cursor.None? || es == [] then 0
    else if es[|es| - 1].id == cursor.value then 1 + Depth(es[..|es| - 1], es[|es| - 1].parent)
    else Depth(es[..|es| - 1], cursor)
  }

  lemma {:induction false} DepthOfPrefix(rs: seq<Record>, j: nat, id: Id)
    requires Replay(rs).Ok? && j <= |rs| && HasId(rs[..j], id)
    ensures HasId(rs, id) && Depth(rs, Some(id)) == Depth(rs[..j], Some(id))
    decreases |rs|
  {
    if j == |rs| {
      assert rs[..j] == rs;
    } else {
      var older, last := rs[..|rs| - 1], rs[|rs| - 1];
      assert older[..j] == rs[..j];
      DepthOfPrefix(older, j, id);
      assert rs == older + [last];
    }
  }

  lemma {:induction false} DepthStep(rs: seq<Record>, id: Id)
    requires Replay(rs).Ok? && HasId(rs, id)
    ensures Depth(rs, Lookup(rs, id).parent) < Depth(rs, Some(id))
    decreases |rs|
  {
    var older, last := rs[..|rs| - 1], rs[|rs| - 1];
    assert rs == older + [last] && older == rs[..|older|];
    var r := Lookup(rs, id);
    if last.id != id {
      DepthStep(older, id);
      HistoryStep(older, id);
    }
    if r.parent.Some? {
      DepthOfPrefix(rs, |older|, r.parent.value);
    }
  }

  lemma {:induction false} ReplayFailsEarly(rs: seq<Record>, j: nat)
    requires j <= |rs| && Replay(rs[..j]).Err?
    ensures Replay(rs) == Err(Replay(rs[..j]).error)
    decreases |rs|
  {
    if j == |rs| {
      assert rs[..j] == rs;
    } else {
      assert rs[..|rs| - 1][..j] == rs[..j];
      ReplayFailsEarly(rs[..|rs| - 1], j);
    }
  }
}
