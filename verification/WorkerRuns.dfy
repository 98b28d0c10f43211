// What the events of a run say of its steps: how each job ended and why, which approvals were asked and
// answered, and that no accepted answer is lost on its way.

module WorkerRuns {
  import opened Basics
  import opened Workers

  // ---------------------------------------------------------------- what a run did to a job

  /** The job passed its last check in this run. */
  predicate PassedIn(s: Worker, steps: seq<Step>, job: JobId)
    requires Legal(s, steps)
    decreases |steps|
  {
    steps != [] && ((steps[0].Pass? && s.phase == Running(job)) || PassedIn(Do(s, steps[0]), steps[1..], job))
  }

  /** The running job raised, by an error or by noticing its cancellation. */
  predicate BrokenIn(s: Worker, steps: seq<Step>, job: JobId, how: Ending)
    requires Legal(s, steps) && !how.Completed?
    decreases |steps|
  {
    steps != [] && ((steps[0] == Finish(how) && s.phase == Running(job)) || BrokenIn(Do(s, steps[0]), steps[1..], job, how))
  }

  /** The stop flag was read, as set or as clear, before the job was started. */
  predicate FlagReadIn(s: Worker, steps: seq<Step>, job: JobId, stopping: bool)
    requires Legal(s, steps)
    decreases |steps|
  {
    steps != [] &&
    ((steps[0].ReadStop? && s.phase == Working(job) && s.book.stopping == stopping)
     || FlagReadIn(Do(s, steps[0]), steps[1..], job, stopping))
  }

  // ---------------------------------------------------------------- events

  lemma {:induction false} EventsStay(s: Worker, steps: seq<Step>)
    requires Legal(s, steps)
    ensures s.events <= Run(s, steps).events
    decreases |steps|
  {
    if steps != [] {
      EventsStay(Do(s, steps[0]), steps[1..]);
    }
  }

  lemma {:induction false} EndedIsFinished(events: seq<Event>, job: JobId)
    ensures job in Finished(events) <==> exists how :: Ended(job, how) in events
    decreases |events|
  {
    if events != [] {
      var front, last := events[..|events| - 1], events[|events| - 1];
      assert events == front + [last];
      EndedIsFinished(front, job);
      if last.Ended? && last.job == job { assert last == Ended(job, last.how) && last in events; }
    }
  }

  /** Where a terminal event stands among the finished jobs. */
  lemma {:induction false} EndedAt(events: seq<Event>, i: nat)
    requires i < |events| && events[i].Ended?
    ensures var n := |Finished(events[..i])|; n < |Finished(events)| && Finished(events)[n] == events[i].job
    decreases |events|
  {
    var last := |events| - 1;
    if i < last {
      assert events[..last][..i] == events[..i];
      EndedAt(events[..last], i);
    }
  }

  /** No job has two terminal events when no job is finished twice. */
  lemma OneEnding(events: seq<Event>, next: nat, job: JobId, some: Ending, other: Ending)
    requires Finished(events) <= Ids(next) && Ended(job, some) in events && Ended(job, other) in events
    ensures some == other
  {
    var i :| 0 <= i < |events| && events[i] == Ended(job, some);
    var k :| 0 <= k < |events| && events[k] == Ended(job, other);
    if i < k { FinishedBefore(events, next, i, k); }
    if k < i { FinishedBefore(events, next, k, i); }
  }

  lemma FinishedBefore(events: seq<Event>, next: nat, i: nat, k: nat)
    requires i < k < |events| && events[i].Ended? && events[k].Ended? && Finished(events) <= Ids(next)
    ensures events[i].job != events[k].job
  {
    EndedAt(events, i);
    EndedAt(events, k);
    EndedAt(events[..k], i);
    assert events[..k][..i] == events[..i];
    var m, n := |Finished(events[..i])|, |Finished(events[..k])|;
    assert Ids(next)[m] == m + 1 && Ids(next)[n] == n + 1;
  }

  lemma BooksNumber(s: Worker)
    requires Books(s)
    ensures Finished(s.events) <= Ids(s.book.nextJob)
  {
    var front := Finished(s.events) + Current(s.phase);
    assert forall i :: 0 <= i < |Finished(s.events)| ==> Finished(s.events)[i] == front[i] == (front + JobsIn(s.book.queue))[i];
  }

  /** At work on a started job. */
  predicate AtWorkOn(p: Phase, job: JobId) {
    Current(p) == [job] && !p.Taken? && !p.Claimed? && !p.Working?
  }

  /** A started job is finished or at work. */
  ghost predicate StartsKnown(events: seq<Event>, p: Phase) {
    forall job: JobId :: Started(job) in events ==> job in Finished(events) || AtWorkOn(p, job)
  }

  lemma StartsStayKnown(s: Worker, step: Step)
    requires StartsKnown(s.events, s.phase) && Enabled(s, step)
    ensures StartsKnown(Do(s, step).events, Do(s, step).phase)
  {
    match step {
      case ReadStop =>
        StartsAfter(s.events, s.phase, Ended(s.phase.job, Cancelled), Reported(s.phase.job, false));
        StartsAfter(s.events, s.phase, Started(s.phase.job), Running(s.phase.job));
      case OpenApproval =>
        StartsAfter(s.events, s.phase, Asked(s.phase.job, s.gate.next), Approving(s.phase.job, s.gate.next, Awaited));
      case Finish(how) => StartsAfter(s.events, s.phase, Ended(s.phase.job, how), Reported(s.phase.job, true));
      case Observe(raised) => StartsAfter(s.events, s.phase, Idle, Settled(false, raised));
      case Close => StartsAfter(s.events, s.phase, Stopped, Dead(s.phase.crashed));
      case _ => QuietStepsKeepStarts(s, step);
    }
  }

  lemma QuietStepsKeepStarts(s: Worker, step: Step)
    requires StartsKnown(s.events, s.phase) && Enabled(s, step) && !Reports(step)
    ensures StartsKnown(Do(s, step).events, Do(s, step).phase)
  {
    QuietStep(s, step);
    forall job: JobId | AtWorkOn(s.phase, job) ensures AtWorkOn(Do(s, step).phase, job) {
    }
  }

  lemma StartsAfter(events: seq<Event>, p: Phase, e: Event, next: Phase)
    requires StartsKnown(events, p)
    requires e.Started? ==> AtWorkOn(next, e.job) && p == Working(e.job)
    requires e.Ended? ==> Current(p) == [e.job]
    requires !e.Started? && !e.Ended? ==> forall job: JobId :: AtWorkOn(p, job) ==> AtWorkOn(next, job)
    ensures StartsKnown(events + [e], next)
  {
    EventSnoc(events, e);
    forall job: JobId | Started(job) in events + [e] && job !in Finished(events + [e]) ensures AtWorkOn(next, job) {
      if Started(job) in events { assert AtWorkOn(p, job); }
    }
  }

  // ---------------------------------------------------------------- how jobs end

  /** A job that is not at work at the end of a run has ended as completed exactly when it passed its last check. */
  lemma {:induction false} CompletedExactly(s: Worker, steps: seq<Step>, job: JobId)
    requires Legal(s, steps) && (job in Finished(Run(s, steps).events) ==> Run(s, steps).phase != Passed(job))
    ensures Ended(job, Completed) in Run(s, steps).events <==>
      Ended(job, Completed) in s.events
      || ((s.phase == Passed(job) || PassedIn(s, steps, job)) && job in Finished(Run(s, steps).events))
    decreases |steps|
  {
    if steps != [] {
      var u := Do(s, steps[0]);
      CompletedExactly(u, steps[1..], job);
      EventsStay(u, steps[1..]);
      if Ended(job, Completed) in Run(s, steps).events { EndingFinishes(Run(s, steps).events, job, Completed); }
      CompletedStep(s, steps[0], job);
    }
  }

  lemma EndingFinishes(events: seq<Event>, job: JobId, how: Ending)
    requires Ended(job, how) in events
    ensures job in Finished(events)
  {
    EndedIsFinished(events, job);
  }

  lemma CompletedStep(s: Worker, step: Step, job: JobId)
    requires Enabled(s, step)
    ensures Ended(job, Completed) in Do(s, step).events <==>
      Ended(job, Completed) in s.events || (step == Finish(Completed) && s.phase == Passed(job))
    ensures Do(s, step).phase == Passed(job) <==>
      (s.phase == Passed(job) && !step.Finish?) || (step.Pass? && s.phase == Running(job))
  {
  }

  lemma {:induction false} BrokenExactly(s: Worker, steps: seq<Step>, job: JobId)
    requires Legal(s, steps)
    ensures Ended(job, Failed) in Run(s, steps).events <==> Ended(job, Failed) in s.events || BrokenIn(s, steps, job, Failed)
    ensures Ended(job, Cancelled) in Run(s, steps).events <==>
      Ended(job, Cancelled) in s.events || BrokenIn(s, steps, job, Cancelled) || FlagReadIn(s, steps, job, true)
    ensures Started(job) in Run(s, steps).events <==> Started(job) in s.events || FlagReadIn(s, steps, job, false)
    decreases |steps|
  {
    if steps != [] {
      BrokenExactly(Do(s, steps[0]), steps[1..], job);
    }
  }

  /** Over any run from the start, a job with a terminal event has exactly one. It ended as completed if and
      only if it passed its last check, as failed if and only if it raised an error, and as cancelled if and only
      if it noticed a cancellation or the stop flag was set when it was read. */
  lemma HowJobsEnd(steps: seq<Step>, job: JobId)
    requires Legal(START, steps) && job in Finished(Run(START, steps).events)
    ensures var events := Run(START, steps).events;
      && (Ended(job, Completed) in events <==> PassedIn(START, steps, job))
      && (Ended(job, Failed) in events <==> BrokenIn(START, steps, job, Failed))
      && (Ended(job, Cancelled) in events <==> BrokenIn(START, steps, job, Cancelled) || FlagReadIn(START, steps, job, true))
      && (exists how :: Ended(job, how) in events)
      && (forall some, other :: Ended(job, some) in events && Ended(job, other) in events ==> some == other)
  {
    var u := Run(START, steps);
    StartsWell();
    RunKeepsInv(START, steps);
    EarlierIsElsewhere(u, job);
    CompletedExactly(START, steps, job);
    BrokenExactly(START, steps, job);
    EndedIsFinished(u.events, job);
    BooksNumber(u);
    forall some, other | Ended(job, some) in u.events && Ended(job, other) in u.events ensures some == other {
      OneEnding(u.events, u.book.nextJob, job, some, other);
    }
  }

  lemma StartsWell()
    ensures Inv(START) && StartsKnown(START.events, START.phase)
  {
    assert Finished([Idle]) == [];
  }

  /** From where the stop flag was read as set, the job never starts. */
  lemma {:induction false} StoppedNeverStarts(s: Worker, steps: seq<Step>, job: JobId)
    requires Inv(s) && Legal(s, steps) && Started(job) !in s.events && job in Finished(s.events)
    ensures Started(job) !in Run(s, steps).events
    decreases |steps|
  {
    if steps != [] {
      EarlierIsElsewhere(s, job);
      StepKeepsInv(s, steps[0]);
      FinishedStays(s, steps[0], job);
      StoppedNeverStarts(Do(s, steps[0]), steps[1..], job);
    }
  }

  lemma FinishedStays(s: Worker, step: Step, job: JobId)
    requires Enabled(s, step) && job in Finished(s.events) && job !in Current(s.phase) && Started(job) !in s.events
    ensures job in Finished(Do(s, step).events) && Started(job) !in Do(s, step).events
  {
    EndedIsFinished(s.events, job);
    var how :| Ended(job, how) in s.events;
    assert Ended(job, how) in Do(s, step).events;
    EndedIsFinished(Do(s, step).events, job);
  }

  /** A job that is started is started once its stop flag was read as clear; one that was read as set is
      cancelled without ever starting. */
  lemma {:induction false} StoppedUnstarted(s: Worker, steps: seq<Step>, job: JobId)
    requires Inv(s) && StartsKnown(s.events, s.phase) && Legal(s, steps) && FlagReadIn(s, steps, job, true)
    ensures Started(job) !in Run(s, steps).events && Ended(job, Cancelled) in Run(s, steps).events
    decreases |steps|
  {
    var step := steps[0];
    var u := Do(s, step);
    StepKeepsInv(s, step);
    if step.ReadStop? && s.phase == Working(job) && s.book.stopping {
      ReadAsSet(s, job);
      StoppedNeverStarts(u, steps[1..], job);
      EventsStay(u, steps[1..]);
    } else {
      StartsStayKnown(s, step);
      StoppedUnstarted(u, steps[1..], job);
    }
  }

  lemma ReadAsSet(s: Worker, job: JobId)
    requires Inv(s) && StartsKnown(s.events, s.phase) && s.phase == Working(job) && s.book.stopping
    ensures var u := Do(s, ReadStop);
      Ended(job, Cancelled) in u.events && job in Finished(u.events) && Started(job) !in u.events
  {
    EventSnoc(s.events, Ended(job, Cancelled));
    if Started(job) in s.events {
      assert job in Finished(s.events);
      EarlierIsElsewhere(s, job);
    }
  }

  /** Over any run from the start a job starts exactly when its stop flag is read as clear, and one whose flag
      was read as set is cancelled and never starts. */
  lemma WhichJobsStart(steps: seq<Step>, job: JobId)
    requires Legal(START, steps)
    ensures var events := Run(START, steps).events;
      && (Started(job) in events <==> FlagReadIn(START, steps, job, false))
      && (FlagReadIn(START, steps, job, true) ==> Started(job) !in events && Ended(job, Cancelled) in events)
  {
    StartsWell();
    BrokenExactly(START, steps, job);
    if FlagReadIn(START, steps, job, true) { StoppedUnstarted(START, steps, job); }
  }

  // ---------------------------------------------------------------- approvals

  /** The answers that waits took out of the answer queue. */
  function ReceivedIn(s: Worker, steps: seq<Step>): seq<Reply>
    requires Legal(s, steps)
    decreases |steps|
  {
    if steps == [] then []
    else (if steps[0].Receive? then [s.gate.answers[0]] else []) + ReceivedIn(Do(s, steps[0]), steps[1..])
  }

  /** Accepted answers that were not received yet. */
  function Underway(g: Gate): multiset<Reply> {
    multiset(g.inFlight) + multiset(g.answers)
  }

  lemma DeliverMoves(xs: seq<Reply>, at: nat)
    requires at < |xs|
    ensures multiset(xs[..at] + xs[at + 1..]) + multiset{xs[at]} == multiset(xs)
  {
    assert xs == xs[..at] + [xs[at]] + xs[at + 1..];
  }

  /** Accepted answers only grow in number, and the new ones are under way or were taken. */
  predicate Balanced(before: Gate, after: Gate, taken: multiset<Reply>) {
    && before.accepting <= after.accepting
    && multiset(after.accepting) + Underway(before) == multiset(before.accepting) + Underway(after) + taken
  }

  lemma AnswersMove(s: Worker, step: Step)
    requires Enabled(s, step)
    ensures Balanced(s.gate, Do(s, step).gate, if step.Receive? then multiset{s.gate.answers[0]} else multiset{})
  {
    match step {
      case Deliver(at) => DeliverBalances(s, at);
      case Receive => ReceiveBalances(s);
      case Respond(approval, decision) => RespondBalances(s, approval, decision);
      case _ => AnswersStay(s, step);
    }
  }

  lemma DeliverBalances(s: Worker, at: nat)
    requires Enabled(s, Deliver(at))
    ensures Balanced(s.gate, Do(s, Deliver(at)).gate, multiset{})
  {
    DeliverMoves(s.gate.inFlight, at);
  }

  lemma ReceiveBalances(s: Worker)
    requires Enabled(s, Receive)
    ensures Balanced(s.gate, Do(s, Receive).gate, multiset{s.gate.answers[0]})
  {
    assert s.gate.answers == [s.gate.answers[0]] + s.gate.answers[1..];
  }

  lemma RespondBalances(s: Worker, approval: ApprovalId, decision: bool)
    ensures Balanced(s.gate, Do(s, Respond(approval, decision)).gate, multiset{})
  {
  }

  lemma AnswersStay(s: Worker, step: Step)
    requires Enabled(s, step) && !step.Deliver? && !step.Receive? && !step.Respond?
    ensures var u := Do(s, step);
      u.gate.accepting == s.gate.accepting && u.gate.inFlight == s.gate.inFlight && u.gate.answers == s.gate.answers
  {
  }

  /** No accepted answer is lost or doubled on its way to the waiting job: each is under way or was received. */
  lemma {:induction false} AnswersAreConserved(s: Worker, steps: seq<Step>)
    requires Legal(s, steps)
    ensures var u := Run(s, steps);
      multiset(u.gate.accepting) + Underway(s.gate) == multiset(s.gate.accepting) + Underway(u.gate) + multiset(ReceivedIn(s, steps))
    decreases |steps|
  {
    if steps != [] {
      var u := Do(s, steps[0]);
      var v := Run(s, steps);
      var first := if steps[0].Receive? then [s.gate.answers[0]] else [];
      AnswersMove(s, steps[0]);
      AnswersAreConserved(u, steps[1..]);
      Balance(multiset(s.gate.accepting), multiset(u.gate.accepting), multiset(v.gate.accepting),
              Underway(s.gate), Underway(u.gate), Underway(v.gate), multiset(first), multiset(ReceivedIn(u, steps[1..])));
      assert ReceivedIn(s, steps) == first + ReceivedIn(u, steps[1..]);
    }
  }

  lemma Balance(a0: multiset<Reply>, a1: multiset<Reply>, a2: multiset<Reply>, u0: multiset<Reply>, u1: multiset<Reply>,
                u2: multiset<Reply>, r0: multiset<Reply>, r1: multiset<Reply>)
    requires a1 + u0 == a0 + u1 + r0 && a2 + u1 == a1 + u2 + r1
    ensures a2 + u0 == a0 + u2 + (r0 + r1)
  {
    forall x ensures (a2 + u0)[x] == (a0 + u2 + (r0 + r1))[x] {
      assert (a1 + u0)[x] == (a0 + u1 + r0)[x];
      assert (a2 + u1)[x] == (a1 + u2 + r1)[x];
    }
  }

  /** The answers that reached the answer queue, in that order. */
  function DeliveredIn(s: Worker, steps: seq<Step>): seq<Reply>
    requires Legal(s, steps)
    decreases |steps|
  {
    if steps == [] then []
    else (if steps[0].Deliver? then [s.gate.inFlight[steps[0].at]] else []) + DeliveredIn(Do(s, steps[0]), steps[1..])
  }

  /** Waits receive answers in the order in which they reached the queue. */
  lemma {:induction false} AnswersKeepOrder(s: Worker, steps: seq<Step>)
    requires Legal(s, steps)
    ensures ReceivedIn(s, steps) + Run(s, steps).gate.answers == s.gate.answers + DeliveredIn(s, steps)
    decreases |steps|
  {
    if steps == [] {
      assert s.gate.answers + [] == s.gate.answers;
    } else {
      var u := Do(s, steps[0]);
      var received := if steps[0].Receive? then [s.gate.answers[0]] else [];
      var delivered := if steps[0].Deliver? then [s.gate.inFlight[steps[0].at]] else [];
      AnswersKeepOrder(u, steps[1..]);
      assert received + u.gate.answers == s.gate.answers + delivered;
      Regroup(received, ReceivedIn(u, steps[1..]), Run(u, steps[1..]).gate.answers);
      Regroup(received, u.gate.answers, DeliveredIn(u, steps[1..]));
      Regroup(s.gate.answers, delivered, DeliveredIn(u, steps[1..]));
    }
  }

  // ---------------------------------------------------------------- the other events

  /** The job asked for this approval. */
  predicate AsksIn(s: Worker, steps: seq<Step>, job: JobId, approval: ApprovalId)
    requires Legal(s, steps)
    decreases |steps|
  {
    steps != [] &&
    ((steps[0].OpenApproval? && s.phase == Requesting(job) && s.gate.next == approval)
     || AsksIn(Do(s, steps[0]), steps[1..], job, approval))
  }

  function Idles(events: seq<Event>): nat {
    if events == [] then 0 else Idles(events[..|events| - 1]) + (if events[|events| - 1] == Idle then 1 else 0)
  }

  /** How often a job's end was observed by an observer that returned, with the worker not stopping. */
  function ObservedIn(s: Worker, steps: seq<Step>): nat
    requires Legal(s, steps)
    decreases |steps|
  {
    if steps == [] then 0
    else (if steps[0] == Observe(false) && !s.book.stopping then 1 else 0) + ObservedIn(Do(s, steps[0]), steps[1..])
  }

  predicate Reports(step: Step) {
    step.ReadStop? || step.OpenApproval? || step.Finish? || step.Observe? || step.Close?
  }

  lemma QuietStep(s: Worker, step: Step)
    requires Enabled(s, step) && !Reports(step)
    ensures Do(s, step).events == s.events
  {
  }

  lemma IdleSnoc(events: seq<Event>, e: Event)
    ensures Idles(events + [e]) == Idles(events) + (if e == Idle then 1 else 0)
  {
    assert (events + [e])[..|events|] == events;
  }

  lemma IdleStep(s: Worker, step: Step)
    requires Enabled(s, step)
    ensures Idles(Do(s, step).events) == Idles(s.events) + (if step == Observe(false) && !s.book.stopping then 1 else 0)
  {
    match step {
      case ReadStop =>
        IdleSnoc(s.events, Ended(s.phase.job, Cancelled));
        IdleSnoc(s.events, Started(s.phase.job));
      case OpenApproval => IdleSnoc(s.events, Asked(s.phase.job, s.gate.next));
      case Finish(how) => IdleSnoc(s.events, Ended(s.phase.job, how));
      case Observe(_) => IdleSnoc(s.events, Idle);
      case Close => IdleSnoc(s.events, Stopped);
      case _ => QuietStep(s, step);
    }
  }

  /** Over any run: idleness is published once for every job observed so, approvals are asked for by exactly the
      jobs that opened them, and the stop is published exactly by a thread that ended. */
  lemma {:induction false} OtherEvents(s: Worker, steps: seq<Step>, job: JobId, approval: ApprovalId)
    requires Legal(s, steps) && (Stopped in s.events <==> s.phase.Dead?)
    ensures var u := Run(s, steps);
      && Idles(u.events) == Idles(s.events) + ObservedIn(s, steps)
      && (Asked(job, approval) in u.events <==> Asked(job, approval) in s.events || AsksIn(s, steps, job, approval))
      && (Stopped in u.events <==> u.phase.Dead?)
    decreases |steps|
  {
    if steps != [] {
      IdleStep(s, steps[0]);
      StoppedStep(s, steps[0]);
      AskedStep(s, steps[0], job, approval);
      OtherEvents(Do(s, steps[0]), steps[1..], job, approval);
    }
  }

  lemma StoppedStep(s: Worker, step: Step)
    requires Enabled(s, step) && (Stopped in s.events <==> s.phase.Dead?)
    ensures Stopped in Do(s, step).events <==> Do(s, step).phase.Dead?
  {
  }

  lemma AskedStep(s: Worker, step: Step, job: JobId, approval: ApprovalId)
    requires Enabled(s, step)
    ensures Asked(job, approval) in Do(s, step).events <==>
      Asked(job, approval) in s.events || (step.OpenApproval? && s.phase == Requesting(job) && s.gate.next == approval)
  {
  }

  /** The last check of a wait passed, with this answer in hand. */
  predicate ReturnsIn(s: Worker, steps: seq<Step>, reply: Reply)
    requires Legal(s, steps)
    decreases |steps|
  {
    steps != [] &&
    ((steps[0].FinalLock? && s.phase.approval == reply.approval && s.phase.answer == FlagClear(reply.decision))
     || ReturnsIn(Do(s, steps[0]), steps[1..], reply))
  }

  /** A wait returns an answer exactly when its last check passes with that answer. */
  lemma {:induction false} ReturnedExactly(s: Worker, steps: seq<Step>, reply: Reply)
    requires Legal(s, steps)
    ensures reply in Run(s, steps).gate.returned <==> reply in s.gate.returned || ReturnsIn(s, steps, reply)
    decreases |steps|
  {
    if steps != [] {
      ReturnedExactly(Do(s, steps[0]), steps[1..], reply);
    }
  }
}
