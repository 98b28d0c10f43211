// The session object: fields its methods reassign in the order the program does, proved against `Sessions.Do`.

module AgentSessions {
  import opened Basics
  import opened Journal
  import Storage
  import S = Sessions
  import opened SessionStores

  class AgentSession {
    var store: SessionStore
    var history: seq<Message>
    var state: PluginState              // the plugin runtime's state
    var nextPrompt: nat
    var sending: bool
    var turnOpen: bool
    var rollback: Option<PluginState>
    var owners: set<Owner>
    var start: seq<Message>             // history_start of the open turn
    var mark: Option<nat>               // previous_length of the snapshot being completed
    var raised: bool

    ghost function Model(): S.Session
      reads this, store
    {
      S.Session(store.codec, store.Model(), history, state, nextPrompt, sending, turnOpen, rollback, owners, start, mark, raised)
    }

    constructor (store: SessionStore)
      requires Storage.Tree(store.Model())
      ensures this.store == store
      ensures Model() == S.Session(store.codec, store.Model(), Storage.Snapshot(store.Model()).0,
                                   Storage.Snapshot(store.Model()).1, S.NextPrompt(Storage.Snapshot(store.Model()).0),
                                   false, false, None, {}, [], None, false)
    {
      this.store := store;
      sending, turnOpen, rollback, owners, start, mark, raised := false, false, None, {}, [], None, false;
      history, state, nextPrompt := [], map[], 1;
      new;
      var r := store.Snapshot(None);
      history, state := r.value.0, r.value.1;
      nextPrompt := NextPromptId(history);
    }

    static method NextPromptId(history: seq<Message>) returns (id: nat)
      ensures id == S.NextPrompt(history)
    {
      id := 1;
      var i := 0;
      while i < |history|
        invariant 0 <= i <= |history|
        invariant id == S.NextPrompt(history[..i])
      {
        assert history[..i + 1][..i] == history[..i];
        if history[i].promptId + 1 > id {
          id := history[i].promptId + 1;
        }
        i := i + 1;
      }
      assert history[..|history|] == history;
    }

    /** `_restore_snapshot` outside a turn. */
    method RestoreSnapshot(snap: S.Snap, hookOk: bool) returns (ok: bool)
      modifies this
      ensures store == old(store) && ok == hookOk
      ensures Model() == S.Restored(old(Model()), snap, hookOk)
    {
      var previous := (history, state, nextPrompt);
      history, state := snap.0, snap.1;
      nextPrompt := NextPromptId(history);
      if !hookOk {
        history, state, nextPrompt := previous.0, previous.1, previous.2;
      }
      ok := hookOk;
    }

    method Mutate(owner: Owner, value: Option<Json>)
      modifies this
      ensures store == old(store) && Model() == S.Do(old(Model()), S.Mutate(owner, value))
    {
      state := if value.Some? then state[owner := value.value] else state - {owner};
    }

    method Checkpoint(owner: Owner, io: Storage.Io) returns (ok: bool)
      modifies this, store
      ensures store == old(store) && Model() == S.Do(old(Model()), S.Checkpoint(owner, io))
      ensures ok == Storage.Checkpoint(old(store.codec), old(store.Model()), S.Saved(old(Model()), owner), io).ok
    {
      var saved := if rollback.Some? then rollback.value else state;
      if owner in state {
        saved := saved[owner := state[owner]];
      } else {
        saved := saved - {owner};
      }
      ok := store.Checkpoint(saved, io);
      if ok && rollback.Some? {
        rollback := Some(saved);
        owners := owners + {owner};
      }
    }

    method BeginTurn() returns (ok: bool)
      modifies this
      ensures store == old(store) && ok == (!old(sending) && !old(turnOpen))
      ensures Model() == if ok then S.Do(old(Model()), S.BeginTurn) else old(Model())
    {
      if sending || turnOpen {
        return false;
      }
      rollback := Some(state);
      owners := {};
      sending := true;
      start := history;
      ok := true;
    }

    method StartRecord(io: Storage.Io) returns (ok: bool)
      modifies this, store
      ensures store == old(store) && Model() == S.Do(old(Model()), S.StartRecord(io)) && ok == !raised
    {
      ok := store.Append(TurnStart(nextPrompt), io);
      raised := !ok;
    }

    method AddHistory(message: Message, io: Storage.Io) returns (ok: bool)
      modifies this, store
      ensures store == old(store) && Model() == S.Do(old(Model()), S.AddMessage(message, io)) && ok == !raised
    {
      history := history + [message];
      ok := store.Append(MessageData(message), io);
      raised := !ok;
    }

    method OpenPrompt()
      modifies this
      ensures store == old(store) && Model() == S.Do(old(Model()), S.OpenPrompt)
    {
      nextPrompt := nextPrompt + 1;
      turnOpen := true;
    }

    method CommitTurn(io: Storage.Io) returns (ok: bool)
      modifies this, store
      ensures store == old(store) && Model() == S.Do(old(Model()), S.CommitTurn(io))
      ensures !old(raised) ==> ok == !raised
    {
      ok := store.Commit(state, io);
      if ok {
        rollback := None;
        turnOpen := false;
      } else {
        raised := true;
      }
    }

    /** Put each checkpointed owner's saved value, or its absence, over a completed state. */
    static method MergeOwners(completed: PluginState, saved: PluginState, owners: set<Owner>) returns (merged: PluginState)
      ensures merged == S.Override(completed, saved, owners)
    {
      var todo := owners;
      merged := completed;
      while todo != {}
        invariant todo <= owners
        invariant forall o :: S.Get(merged, o) == (if o in owners && o !in todo then S.Get(saved, o) else S.Get(completed, o))
        decreases todo
      {
        var owner :| owner in todo;
        todo := todo - {owner};
        if owner in saved {
          merged := merged[owner := saved[owner]];
        } else {
          merged := merged - {owner};
        }
      }
      OverrideIsUnique(completed, saved, owners, merged);
    }

    /** The checks and the override of `_restore_snapshot(checkpointed=True)`. */
    method RestoreCompleted(snap: S.Snap, hookOk: bool) returns (ok: bool)
      modifies this
      ensures store == old(store) && Model() == S.Do(old(Model()), S.RestoreCompleted(snap, hookOk))
      ensures ok == (old(rollback).Some? && old(history) <= snap.0 && hookOk)
    {
      if rollback.None? || !(|history| <= |snap.0| && snap.0[..|history|] == history) {
        raised := true;
        return false;
      }
      var merged := MergeOwners(snap.1, rollback.value, owners);
      if !hookOk {
        raised := true;
        return false;
      }
      mark := Some(|history|);
      history, state := snap.0, merged;
      nextPrompt := NextPromptId(history);
      ok := true;
    }

    /** Append the new messages one by one and commit. */
    method PersistCompleted(ios: seq<Storage.Io>, io: Storage.Io) returns (ok: bool)
      requires mark.Some? && mark.value <= |history| && !raised
      modifies this, store
      ensures store == old(store) && Model() == S.Do(old(Model()), S.PersistCompleted(ios, io)) && ok == !raised
    {
      var rest := history[mark.value..];
      mark := None;
      ok := AppendRest(rest, ios);
      if ok {
        ok := CommitTurn(io);
      } else {
        raised := true;
      }
    }

    /** Append messages to the journal until one fails. */
    method AppendRest(rest: seq<Message>, ios: seq<Storage.Io>) returns (ok: bool)
      modifies store
      ensures store.codec == old(store.codec)
      ensures (store.Model(), ok) == S.AppendAll(old(store.codec), old(store.Model()), rest, ios)
    {
      ghost var codec := store.codec;
      var i := 0;
      while i < |rest|
        invariant 0 <= i <= |rest| && i <= |ios| && store.codec == codec
        invariant S.AppendAll(codec, old(store.Model()), rest, ios) == S.AppendAll(codec, store.Model(), rest[i..], ios[i..])
      {
        assert rest[i..][1..] == rest[i + 1..];
        if i == |ios| {
          return false;
        }
        assert ios[i..][1..] == ios[i + 1..] && ios[i..][0] == ios[i];
        ok := store.Append(MessageData(rest[i]), ios[i]);
        if !ok {
          return;
        }
        i := i + 1;
      }
      ok := true;
    }

    method Raise()
      modifies this
      ensures store == old(store) && Model() == S.Do(old(Model()), S.Raise)
    {
      raised := true;
    }

    method FinishTurn()
      modifies this, store
      ensures store == old(store) && Model() == S.Finished(old(Model()))
    {
      if rollback.Some? {
        history := start;
        store.Abort();
        state := rollback.value;
        rollback := None;
        turnOpen := false;
      }
      owners := {};
      sending, mark, raised, start := false, None, false, [];
    }

    method Reset(next: Codec, reopening: S.Reopening) returns (ok: bool)
      modifies this, store
      ensures store == old(store) && Model() == S.Do(old(Model()), S.Reset(next, reopening))
      ensures ok == reopening.Reopened?
    {
      history, state := [], map[];
      nextPrompt := 1;
      turnOpen := false;
      ok := store.NewSession(next, reopening);
    }

    /** `/resume`: switch to another journal, and back if the restore hooks refuse it. */
    method Resume(replacement: SessionStore, hookOk: bool) returns (ok: bool)
      requires Storage.Tree(replacement.Model())
      modifies this
      ensures ok == hookOk && store == if ok then replacement else old(store)
      ensures Model() == S.Do(old(Model()), S.Resume(replacement.codec, replacement.Model(), hookOk))
    {
      var previous := store;
      store := replacement;
      var r := replacement.Snapshot(None);
      ok := RestoreSnapshot(r.value, hookOk);
      if !ok {
        store := previous;
      }
    }

    /** `/fork`: restore first, then select durably, and restore again if that fails. */
    method Fork(target: Id, hookOk: bool, undoHookOk: bool, io: Storage.Io) returns (ok: bool)
      requires Storage.Tree(store.Model())
      modifies this, store
      ensures store == old(store) && Model() == S.Do(old(Model()), S.Fork(target, hookOk, undoHookOk, io))
    {
      var proposed := store.Snapshot(Some(target));
      if proposed.Err? {
        return false;
      }
      var previous := (history, state);
      ok := RestoreSnapshot(proposed.value, hookOk);
      if !ok {
        return;
      }
      ok := store.Fork(target, io);
      if !ok {
        var undone := RestoreSnapshot(previous, undoHookOk);
      }
    }
  }

  lemma OverrideIsUnique(completed: PluginState, saved: PluginState, owners: set<Owner>, merged: PluginState)
    requires forall o :: S.Get(merged, o) == (if o in owners then S.Get(saved, o) else S.Get(completed, o))
    ensures merged == S.Override(completed, saved, owners)
  {
    var expected := S.Override(completed, saved, owners);
    assert forall o :: S.Get(expected, o) == S.Get(merged, o);
    assert forall o :: o in expected <==> S.Get(expected, o).Some?;
    assert forall o :: o in merged <==> S.Get(merged, o).Some?;
    assert forall o :: o in merged ==> S.Get(merged, o) == Some(merged[o]);
    assert forall o :: o in expected ==> S.Get(expected, o) == Some(expected[o]);
  }
}
