// The runtime's operation bookkeeping as the program keeps it: fields updated in place, and loops
// over waiting requests. Each method is one step of the state machine in `Operations`, which
// `Operations.StepKeepsInv` shows to keep the invariant.

module RuntimeOperations {
  import opened Basics
  import opened Operations
  import OperationRuns

  class Runtime {
    var generation: nat
    var frames: map<Thread, seq<seq<Request>>>
    var pinned: map<Thread, nat>
    var busy: nat
    var pending: seq<Request>
    var closing: bool
    var closed: bool
    // What the request hooks and plugin cleanups observed.
    ghost var retirements: nat
    ghost var issued: set<Request>
    ghost var committed: seq<Request>
    ghost var rolledBack: seq<Request>
    ghost var dropped: seq<Request>

    ghost function Model(): Operations.Runtime
      reads this
    {
      Operations.Runtime(generation, frames, pinned, busy, pending, closing, closed, retirements,
                         issued, committed, rolledBack, dropped)
    }

    constructor ()
      ensures Model() == START && Inv(Model())
    {
      generation, busy, pending, closing, closed := 0, 0, [], false, false;
      frames, pinned := map[], map[];
      retirements, issued, committed, rolledBack, dropped := 0, {}, [], [], [];
    }

    method BeginOperation(t: Thread, refreshed: bool) returns (begun: bool)
      requires Inv(Model()) && Enabled(Model(), Begin(t, refreshed))
      modifies this
      ensures Model() == Do(old(Model()), Begin(t, refreshed))
      ensures begun ==> t in pinned && pinned[t] == generation
      ensures old((closing || closed) && t !in pinned) ==> !begun
    {
      var outer := t !in frames || frames[t] == [];
      if outer {
        if refreshed && busy == 0 && !closed { generation := generation + 1; }
        if closed || closing { return false; }
        busy := busy + 1;
        pinned := pinned[t := generation];
        frames := frames[t := []];
      }
      frames := frames[t := frames[t] + [[]]];
      if outer {
        assert frames[t] == [[]];
        assert frames == old(frames)[t := [[]]];
      }
      begun := true;
    }

    /** `request_reload`: whether the request activated at once. */
    method RequestReload(t: Thread, r: Request, applied: Applied) returns (activated: bool)
      requires Enabled(Model(), Ask(t, r, applied))
      modifies this
      ensures Model() == Do(old(Model()), Ask(t, r, applied))
      ensures activated ==> generation == old(generation) + 1 && busy == 0
    {
      issued := issued + {r};
      if t in frames && frames[t] != [] {
        var top := |frames[t]| - 1;
        frames := frames[t := frames[t][..top] + [frames[t][top] + [r]]];
        return false;
      }
      if busy > 0 {
        pending := pending + [r];
        return false;
      }
      activated := !closed && applied.Activated?;
      if activated {
        generation := generation + 1;
        committed := committed + [r];
      } else {
        rolledBack := rolledBack + [r];
      }
    }

    /** The last request undone first. */
    ghost method Rollback(requests: seq<Request>)
      modifies this`rolledBack
      ensures rolledBack == old(rolledBack) + Reverse(requests)
    {
      var left := requests;
      var done := [];
      while left != []
        invariant rolledBack == old(rolledBack) + done
        invariant Reverse(requests) == done + Reverse(left)
        decreases |left|
      {
        var last := |left| - 1;
        rolledBack := rolledBack + [left[last]];
        done := done + [left[last]];
        left := left[..last];
      }
    }

    /** The part of `_finish_operation` that pops this operation's frame. */
    method PopFrame(t: Thread, succeeded: bool)
      requires Inv(Model()) && Enabled(Model(), End(t, succeeded))
      modifies this
      ensures Model() == Do(old(Model()), End(t, succeeded))
    {
      var top := |frames[t]| - 1;
      var requests := frames[t][top];
      frames := frames[t := frames[t][..top]];
      if succeeded {
        if top > 0 {
          frames := frames[t := frames[t][..top - 1] + [frames[t][top - 1] + requests]];
          ghost var stack := old(frames)[t];
          assert stack[..top][..top - 1] == stack[..top - 1];
          assert frames == old(frames)[t := stack[..top - 1] + [stack[top - 1] + requests]];
        } else {
          pending := pending + requests;
        }
      } else {
        Rollback(requests);
      }
    }

    /** `_release_operation`: close a runtime that waited for this, or apply what was queued. */
    method ReleaseOperation(t: Thread, outcomes: seq<Applied>)
      requires Inv(Model()) && Enabled(Model(), Release(t, outcomes))
      modifies this
      ensures Model() == Do(old(Model()), Release(t, outcomes))
      ensures generation - old(generation) == |committed| - |old(committed)|
    {
      BusyIsPositive(Model(), t);
      OperationRuns.CommitsActivate(Model(), Release(t, outcomes));
      pinned := pinned - {t};
      frames := frames - {t};
      busy := busy - 1;
      if busy == 0 && closing {
        if !closed { CloseNow(); }
      } else if busy == 0 {
        ApplyWaiting(outcomes);
      }
    }

    method ApplyWaiting(outcomes: seq<Applied>)
      modifies this`generation, this`pending, this`committed, this`rolledBack, this`dropped
      ensures Model() == ApplyPending(old(Model()), outcomes)
      ensures generation - old(generation) == |committed| - |old(committed)|
    {
      OperationRuns.ApplyingActivates(Model(), outcomes);
      ghost var applied := ApplyPending(Model(), outcomes);
      var waiting, left := pending, outcomes;
      pending := [];
      while waiting != []
        invariant pending == [] && ApplyPending(Model().(pending := waiting), left) == applied
        decreases |waiting|
      {
        var escaped := ApplyNext(waiting, left);
        if escaped { return; }
        waiting := waiting[1..];
        left := if left == [] then [] else left[1..];
      }
    }

    /** One pass of that loop: whether an exception escaped it. */
    method ApplyNext(waiting: seq<Request>, left: seq<Applied>) returns (escaped: bool)
      requires waiting != [] && pending == []
      modifies this`generation, this`committed, this`rolledBack, this`dropped
      ensures ApplyPending(old(Model()).(pending := waiting), left) ==
        if escaped then Model() else ApplyPending(Model().(pending := waiting[1..]), if left == [] then [] else left[1..])
    {
      ApplyOne(Model().(pending := waiting), left);
      ApplyRequest(waiting[0], Outcome(left));
      escaped := Outcome(left).Interrupted?;
      if escaped { dropped := dropped + waiting[1..]; }
    }

    /** `_apply_pending` of one request. */
    method ApplyRequest(r: Request, applied: Applied)
      modifies this`generation, this`committed, this`rolledBack
      ensures Model() == Settled(old(Model()), r, applied)
    {
      if applied.Activated? {
        generation := generation + 1;
        committed := committed + [r];
      } else {
        rolledBack := rolledBack + [r];
      }
    }

    method CloseNow()
      modifies this
      ensures Model() == RetireAll(old(Model()))
    {
      closed := true;
      var requests := pending;
      pending := [];
      Rollback(requests);
      retirements := retirements + 1;
    }

    method Close(t: Thread)
      requires Inv(Model()) && Enabled(Model(), Operations.Close(t))
      modifies this
      ensures Model() == Do(old(Model()), Operations.Close(t))
      ensures closed || closing
    {
      if closed { return; }
      if busy > 0 {
        closing := true;
        return;
      }
      CloseNow();
    }
  }

  lemma BusyIsPositive(s: Operations.Runtime, t: Thread)
    requires Inv(s) && t in s.pinned
    ensures s.busy > 0
  {
    assert |s.pinned| == 0 ==> s.pinned == map[];
  }

  function Settled(s: Operations.Runtime, r: Request, applied: Applied): Operations.Runtime {
    if applied.Activated? then s.(generation := s.generation + 1, committed := s.committed + [r])
    else s.(rolledBack := s.rolledBack + [r])
  }

  lemma ApplyOne(s: Operations.Runtime, outcomes: seq<Applied>)
    requires s.pending != []
    ensures var u := Settled(s, s.pending[0], Outcome(outcomes)); var rest := s.pending[1..];
      ApplyPending(s, outcomes) ==
        if Outcome(outcomes).Interrupted? then u.(pending := [], dropped := s.dropped + rest)
        else ApplyPending(u.(pending := rest), if outcomes == [] then [] else outcomes[1..])
  {
  }
}
