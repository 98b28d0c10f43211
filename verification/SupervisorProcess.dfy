// The supervisor's methods that hold the persistence lock, run without another task in between:
// the fields are changed first, written, and changed back when the write fails.

module SupervisorProcesses {
  import opened Basics
  import opened Supervision

  class Supervisor {
    var lastState: Option<SavedState>
    var updateResults: map<Id, Outcome>
    var claimedResults: map<Id, Outcome>
    var recovery: Manifest                    // recovery.json
    var acks: seq<Ack>
    var dispatched: seq<Token>
    // Histories that the statements speak of.
    ghost var writer: Writer
    ghost var issued: map<Id, Outcome>
    ghost var finished: set<Id>
    ghost var lost: set<Id>
    ghost var asked: map<Token, Id>
    ghost var waiting: set<Token>
    ghost var started: set<Id>

    ghost function Model(): System
      reads this
    {
      System(Manifest(lastState, updateResults, claimedResults), recovery, writer,
             issued, finished, lost, acks, dispatched, asked, waiting, started)
    }

    constructor ()
      ensures Model() == Supervision.START
    {
      lastState, updateResults, claimedResults := None, map[], map[];
      recovery, acks, dispatched := NOTHING, [], [];
      writer, issued, finished, lost := Idle, map[], {}, {};
      asked, waiting, started := map[], {}, {};
    }

    /** `_record_locked`: replaces the manifest, or leaves it. */
    method WriteRecord(written: Written)
      modifies this`recovery
      ensures recovery == if written.Saved? then Manifest(lastState, updateResults, claimedResults) else old(recovery)
    {
      if written.Saved? { recovery := Manifest(lastState, updateResults, claimedResults); }
    }

    /** A claim and its write; `ClaimInOne` relates the outcome to the two steps, and carries the invariant. */
    method ClaimUpdateResult(token: Token, id: Id, written: Written)
      requires writer.Idle? && updateResults.Keys !! claimedResults.Keys
      modifies this`updateResults, this`claimedResults, this`recovery, this`acks
      ensures Model() == ClaimedAfter(old(Model()), token, id, written)
    {
      var accepted := id in claimedResults;
      if id in updateResults {
        MoveToClaimed(id, written);
        if written.Interrupted? { return; }
        accepted := written.Saved?;
      }
      acks := acks + [Ack(token, id, accepted)];
    }

    /** The part of a claim that is undone when the write fails. */
    method MoveToClaimed(id: Id, written: Written)
      requires id in updateResults && id !in claimedResults
      modifies this`updateResults, this`claimedResults, this`recovery
      ensures written.Saved? ==>
        && updateResults == old(updateResults) - {id} && claimedResults == old(claimedResults)[id := old(updateResults)[id]]
        && recovery == Manifest(lastState, updateResults, claimedResults)
      ensures !written.Saved? ==>
        updateResults == old(updateResults) && claimedResults == old(claimedResults) && recovery == old(recovery)
    {
      var result := updateResults[id];
      updateResults := updateResults - {id};
      claimedResults := claimedResults[id := result];
      WriteRecord(written);
      if !written.Saved? {
        claimedResults := claimedResults - {id};
        updateResults := updateResults[id := result];
      }
    }

    /** Finishing and its write; `FinishInOne` relates the outcome to the two steps. */
    method FinishUpdateResult(id: Id, written: Written)
      requires writer.Idle?
      modifies this
      ensures Model() == FinishedAfter(old(Model()), id, written)
    {
      if id !in claimedResults { return; }
      var result := claimedResults[id];
      claimedResults := claimedResults - {id};
      WriteRecord(written);
      if written.Saved? {
        finished := finished + {id};
      } else {
        claimedResults := claimedResults[id := result];
        assert claimedResults == old(claimedResults);
      }
    }

    method DispatchTask(intent: Intent, written: Written)
      requires writer.Idle?
      modifies this
      ensures Model() == Do(Do(old(Model()), Dispatch(intent)), Write(written))
      ensures dispatched != old(dispatched) ==> recovery.state == Dequeued(old(lastState), intent)
    {
      if lastState.Some? {
        var s := lastState.value;
        var views := s.views;
        if intent.chat in views {
          var view := views[intent.chat] + (intent.view - {STATE});
          views := views[intent.chat := view];
        }
        lastState := Some(SavedState("", intent.store, views));
      }
      WriteRecord(written);
      if written.Saved? { dispatched := dispatched + [intent.id]; }
    }

    /** `restore_recovery` in a new process. */
    method RestoreRecovery()
      modifies this
      ensures Model() == Do(old(Model()), Crash(false))
      ensures updateResults == recovery.updates && claimedResults == recovery.claimed && lastState == recovery.state
    {
      ghost var before := Model();
      lastState, updateResults, claimedResults := recovery.state, recovery.updates, recovery.claimed;
      lost := Restart(before).lost;
      writer, waiting := Idle, {};
    }
  }

  function ClaimedAfter(s: System, token: Token, id: Id, written: Written): System
    requires s.writer.Idle?
  {
    if id !in s.memory.updates then s.(acks := s.acks + [Ack(token, id, id in s.memory.claimed)])
    else
      match written
      case Saved =>
        var m := s.memory.(updates := s.memory.updates - {id}, claimed := s.memory.claimed[id := s.memory.updates[id]]);
        s.(memory := m, disk := m, acks := s.acks + [Ack(token, id, true)])
      case Refused => s.(acks := s.acks + [Ack(token, id, false)])
      case Interrupted => s
  }

  /** A claim and the end of its write, with nothing in between: every failure restores all fields. */
  lemma ClaimInOne(s: System, token: Token, id: Id, written: Written)
    requires Inv(s) && Enabled(s, Claim(token, id))
    ensures var u := Do(s, Claim(token, id));
      && ClaimedAfter(s, token, id, written) == (if u.writer.Idle? then u else Do(u, Write(written)))
      && Inv(ClaimedAfter(s, token, id, written))
    ensures id in s.memory.updates ==> id !in s.memory.claimed
  {
    StepKeepsInv(s, Claim(token, id));
    if id in s.memory.updates {
      StepKeepsInv(Do(s, Claim(token, id)), Write(written));
      RefusedClaimIsUndone(s, token, id, written.Refused?);
    }
  }

  function FinishedAfter(s: System, id: Id, written: Written): System
    requires s.writer.Idle?
  {
    if id !in s.memory.claimed || !written.Saved? then s
    else
      var m := s.memory.(claimed := s.memory.claimed - {id});
      s.(memory := m, disk := m, finished := s.finished + {id})
  }

  lemma FinishInOne(s: System, id: Id, written: Written)
    requires Inv(s) && Enabled(s, Supervision.Finish(id))
    ensures var u := Do(s, Supervision.Finish(id));
      && FinishedAfter(s, id, written) == (if u.writer.Idle? then u else Do(u, Write(written)))
      && Inv(FinishedAfter(s, id, written))
  {
    StepKeepsInv(s, Supervision.Finish(id));
    if id in s.memory.claimed {
      var u := Do(s, Supervision.Finish(id));
      StepKeepsInv(u, Write(written));
      assert s.memory.claimed == (s.memory.claimed - {id})[id := s.memory.claimed[id]];
    }
  }
}
