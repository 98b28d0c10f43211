// The worker object as other threads see it: each method is one section under the state lock, and one
// step of `Workers.Do`, which `Workers.StepKeepsInv` shows to keep the invariant.

module AgentWorkers {
  import opened Basics
  import opened Workers

  class AgentWorker {
    var nextJob: JobId
    var accepted: set<JobId>
    var cancelled: set<JobId>
    var active: Option<JobId>
    var jobs: seq<Command>
    var stopFlag: bool
    var processing: bool
    var pendingControls: nat
    var nextApproval: ApprovalId
    var pendingApproval: Option<ApprovalId>
    var approvalAnswered: bool
    var answers: seq<Reply>
    var events: seq<Event>
    // Where the owning thread is, and the histories the statements speak of.
    ghost var phase: Phase
    ghost var accepting: seq<Reply>
    ghost var inFlight: seq<Reply>
    ghost var returned: seq<Reply>

    ghost function Model(): Worker
      reads this
    {
      Worker(Book(nextJob, accepted, cancelled, active, jobs, stopFlag, processing, pendingControls),
             Gate(nextApproval, pendingApproval, approvalAnswered, accepting, inFlight, answers, returned),
             phase, events)
    }

    constructor ()
      ensures Model() == START && Inv(Model())
    {
      nextJob, accepted, cancelled, active, jobs := 1, {}, {}, None, [];
      stopFlag, processing, pendingControls := false, false, 0;
      nextApproval, pendingApproval, approvalAnswered := 1, None, false;
      answers, accepting, inFlight, returned := [], [], [], [];
      events, phase := [Idle], Waiting;
      new;
      StartInv();
    }

    method Quiescent() returns (idle: bool)
      requires Inv(Model())
      ensures idle <==> jobs == [] && Idling(phase)
    {
      QuiescentExactly(Model());
      idle := !(accepted != {} || processing || pendingControls > 0 || jobs != []);
    }

    method Submit() returns (job: Option<JobId>)
      requires Inv(Model())
      modifies this
      ensures Model() == Do(old(Model()), Workers.Submit)
      ensures job == if old(stopFlag) then None else Some(old(nextJob))
      ensures job.Some? ==> job.value in accepted && job.value !in old(accepted)
    {
      FreshNumber(Model());
      if stopFlag { return None; }
      job := Some(nextJob);
      nextJob := nextJob + 1;
      accepted := accepted + {job.value};
      jobs := jobs + [Job(job.value)];
    }

    method Reset() returns (ok: bool)
      requires Inv(Model())
      modifies this
      ensures Model() == Do(old(Model()), Workers.Reset)
      ensures ok == !old(stopFlag)
    {
      if stopFlag { return false; }
      pendingControls := pendingControls + 1;
      jobs := jobs + [Control];
      ok := true;
    }

    method CancelCurrent(target: Option<JobId>) returns (ok: bool)
      requires Inv(Model())
      modifies this
      ensures Model() == Do(old(Model()), Cancel(target))
      ensures ok == CancelAccepted(old(Model()).book, target)
      ensures ok ==> Target(old(Model()).book, target).value in cancelled
    {
      var wanted := if target.None? then active else target;
      if wanted.None? || wanted.value !in accepted { return false; }
      cancelled := cancelled + {wanted.value};
      if active == wanted {
        pendingApproval := None;
        approvalAnswered := false;
      }
      ok := true;
    }

    method RespondApproval(approval: ApprovalId, decision: bool) returns (ok: bool)
      requires Inv(Model())
      modifies this
      ensures Model() == Do(old(Model()), Respond(approval, decision))
      ensures ok ==> phase.Approving? || phase.Leaving?
      ensures ok ==> phase.approval == approval && Unanswered(old(accepting), approval)
    {
      if pendingApproval != Some(approval) || approvalAnswered { return false; }
      approvalAnswered := true;
      accepting := accepting + [Reply(approval, decision)];
      inFlight := inFlight + [Reply(approval, decision)];
      ok := true;
    }

    method Stop()
      requires Inv(Model())
      modifies this
      ensures Model() == Do(old(Model()), StopAll)
    {
      if !stopFlag {
        stopFlag := true;
        jobs := jobs + [Workers.Stop];
      }
    }
  }

  lemma StartInv()
    ensures Inv(START)
  {
    assert Finished([Idle]) == [];
  }

  lemma FreshNumber(s: Worker)
    requires Books(s)
    ensures s.book.nextJob !in s.book.accepted
  {
    if s.book.nextJob in s.book.accepted { AcceptedIsNumbered(s, s.book.nextJob); }
  }
}
