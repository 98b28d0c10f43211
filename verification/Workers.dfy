// The agent worker: any thread submits, cancels, answers and stops; one thread owns the session.
// Every step below is one section under the worker's lock, one queue operation, or one unlocked read.

module Workers {
  import opened Basics

  type JobId = nat
  type ApprovalId = nat

  datatype Command = Job(id: JobId) | Control | Stop

  datatype Ending = Completed | Failed | Cancelled

  datatype Event =
    | Idle
    | Started(job: JobId)
    | Ended(job: JobId, how: Ending)
    | Asked(job: JobId, approval: ApprovalId)
    | Stopped

  datatype Reply = Reply(approval: ApprovalId, decision: bool)

  datatype Answer = Awaited | Received(decision: bool) | FlagClear(decision: bool)

  /** Where the owning thread is. */
  datatype Phase =
    | Waiting
    | Taken(command: Command)                 // out of the queue, `_processing` not yet set
    | Claimed(command: Command)
    | Working(job: JobId)                     // `_active_job` set, stop flag not yet read
    | Running(job: JobId)
    | Requesting(job: JobId)                  // first check of an approval passed
    | Approving(job: JobId, approval: ApprovalId, answer: Answer)
    | Leaving(job: JobId, approval: ApprovalId)
    | Passed(job: JobId)                      // the last check of a job passed
    | Reported(job: JobId, started: bool)     // terminal event published
    | Released(started: bool)                 // no longer an accepted job
    | Settled(control: bool, raised: bool)
    | Closing(crashed: bool)
    | Dead(crashed: bool)

  /** Jobs and controls, all read and written under the lock. */
  datatype Book = Book(
    nextJob: JobId,
    accepted: set<JobId>,
    cancelled: set<JobId>,
    active: Option<JobId>,
    queue: seq<Command>,
    stopping: bool,
    processing: bool,
    pendingControls: nat)

  /** The approval being waited for and the answers under way. */
  datatype Gate = Gate(
    next: ApprovalId,
    pending: Option<ApprovalId>,
    answered: bool,
    accepting: seq<Reply>,                    // accepted answers, every one ever
    inFlight: seq<Reply>,                     // accepted, not yet in the answer queue
    answers: seq<Reply>,
    returned: seq<Reply>)                     // what approval waits returned

  datatype Worker = Worker(book: Book, gate: Gate, phase: Phase, events: seq<Event>)

  const START := Worker(Book(1, {}, {}, None, [], false, false, 0), Gate(1, None, false, [], [], [], []), Waiting, [Idle])

  datatype Step =
    // any thread
    | Submit
    | Reset                                   // `reset` and `reconfigure`
    | Cancel(target: Option<JobId>)
    | Respond(approval: ApprovalId, decision: bool)
    | Deliver(at: nat)                        // the answer reaches the queue after the lock is left
    | StopAll
    // the owning thread
    | Take
    | Claim
    | Enter(raised: bool)
    | ReadStop
    | CheckApproval
    | OpenApproval
    | Receive
    | Quit
    | FinalFlag
    | FinalLock
    | Leave
    | Pass
    | Finish(how: Ending)
    | Release
    | Observe(raised: bool)
    | Settle
    | Close

  predicate Live(b: Book, job: JobId) {
    job in b.accepted && job !in b.cancelled
  }

  predicate Enabled(s: Worker, step: Step) {
    match step
    case Submit | Reset | Cancel(_) | Respond(_, _) | StopAll => true
    case Deliver(at) => at < |s.gate.inFlight|
    case Take => s.phase.Waiting? && s.book.queue != []
    case Claim => s.phase.Taken?
    case Enter(raised) => s.phase.Claimed? && !s.phase.command.Stop? && (raised ==> s.phase.command.Control?)
    case ReadStop => s.phase.Working?
    case CheckApproval => s.phase.Running? && Live(s.book, s.phase.job)
    case OpenApproval => s.phase.Requesting?
    case Receive => s.phase.Approving? && s.phase.answer.Awaited? && s.gate.answers != []
    case Quit => s.phase.Approving? && (s.book.stopping || !Live(s.book, s.phase.job))
    case FinalFlag => s.phase.Approving? && s.phase.answer.Received? && !s.book.stopping
    case FinalLock => s.phase.Approving? && s.phase.answer.FlagClear? && Live(s.book, s.phase.job)
    case Leave => s.phase.Leaving?
    case Pass => s.phase.Running? && Live(s.book, s.phase.job)
    case Finish(how) => (s.phase.Passed? && how.Completed?) || (s.phase.Running? && !how.Completed?)
    case Release => s.phase.Reported?
    case Observe(raised) => s.phase.Released? && (raised ==> s.phase.started)
    case Settle => s.phase.Settled?
    case Close => s.phase.Closing?
  }

  function Target(b: Book, target: Option<JobId>): Option<JobId> {
    if target.None? then b.active else target
  }

  /** What `cancel_current` returns. */
  predicate CancelAccepted(b: Book, target: Option<JobId>) {
    Target(b, target).Some? && Target(b, target).value in b.accepted
  }

  /** What `respond_approval` returns. */
  predicate AnswerAccepted(g: Gate, approval: ApprovalId) {
    g.pending == Some(approval) && !g.answered
  }

  function Withdraw(g: Gate): Gate {
    g.(pending := None, answered := false)
  }

  /** A step that any thread may take. */
  function External(s: Worker, step: Step): Worker {
    var b, g := s.book, s.gate;
    match step
    case Submit =>
      if b.stopping then s
      else s.(book := b.(nextJob := b.nextJob + 1, accepted := b.accepted + {b.nextJob}, queue := b.queue + [Job(b.nextJob)]))
    case Reset =>
      if b.stopping then s
      else s.(book := b.(pendingControls := b.pendingControls + 1, queue := b.queue + [Control]))
    case Cancel(target) =>
      if !CancelAccepted(b, target) then s
      else
        var job := Target(b, target).value;
        s.(book := b.(cancelled := b.cancelled + {job}), gate := if b.active == Some(job) then Withdraw(g) else g)
    case Respond(approval, decision) =>
      if !AnswerAccepted(g, approval) then s
      else
        var reply := Reply(approval, decision);
        s.(gate := g.(answered := true, accepting := g.accepting + [reply], inFlight := g.inFlight + [reply]))
    case Deliver(at) =>
      if at >= |g.inFlight| then s
      else s.(gate := g.(inFlight := g.inFlight[..at] + g.inFlight[at + 1..], answers := g.answers + [g.inFlight[at]]))
    case StopAll =>
      if b.stopping then s else s.(book := b.(stopping := true, queue := b.queue + [Stop]))
    case _ => s
  }

  /** A step of the owning thread. */
  function Internal(s: Worker, step: Step): Worker
    requires Enabled(s, step)
  {
    var b, g, p := s.book, s.gate, s.phase;
    match step
    case Take =>
      var c := b.queue[0];
      s.(book := b.(queue := b.queue[1..]), phase := if c.Stop? then Closing(false) else Taken(c))
    case Claim => s.(book := b.(processing := true), phase := Claimed(p.command))
    case Enter(raised) =>
      if p.command.Job? then s.(book := b.(active := Some(p.command.id)), phase := Working(p.command.id))
      else s.(phase := Settled(true, raised))
    case ReadStop =>
      if b.stopping then s.(events := s.events + [Ended(p.job, Cancelled)], phase := Reported(p.job, false))
      else s.(events := s.events + [Started(p.job)], phase := Running(p.job))
    case CheckApproval => s.(phase := Requesting(p.job))
    case OpenApproval =>
      s.(gate := g.(next := g.next + 1, pending := Some(g.next), answered := false),
         events := s.events + [Asked(p.job, g.next)], phase := Approving(p.job, g.next, Awaited))
    case Receive =>
      var reply := g.answers[0];
      s.(gate := g.(answers := g.answers[1..]),
         phase := if reply.approval == p.approval then Approving(p.job, p.approval, Received(reply.decision)) else p)
    case Quit => s.(phase := Leaving(p.job, p.approval))
    case FinalFlag => s.(phase := Approving(p.job, p.approval, FlagClear(p.answer.decision)))
    case FinalLock =>
      s.(gate := g.(returned := g.returned + [Reply(p.approval, p.answer.decision)]), phase := Leaving(p.job, p.approval))
    case Leave =>
      s.(gate := if g.pending == Some(p.approval) then Withdraw(g) else g, phase := Running(p.job))
    case Pass => s.(phase := Passed(p.job))
    case Finish(how) => s.(events := s.events + [Ended(p.job, how)], phase := Reported(p.job, true))
    case Release =>
      s.(book := b.(accepted := b.accepted - {p.job}, cancelled := b.cancelled - {p.job}, active := None),
         phase := Released(p.started))
    case Observe(raised) =>
      s.(events := if raised || b.stopping then s.events else s.events + [Idle], phase := Settled(false, raised))
    case Settle =>
      s.(book := b.(processing := false,
                    pendingControls := if p.control && b.pendingControls > 0 then b.pendingControls - 1 else b.pendingControls),
         phase := if p.raised then Closing(true) else Waiting)
    case Close => s.(events := s.events + [Stopped], phase := Dead(p.crashed))
    case _ => s
  }

  predicate IsExternal(step: Step) {
    step.Submit? || step.Reset? || step.Cancel? || step.Respond? || step.Deliver? || step.StopAll?
  }

  function Do(s: Worker, step: Step): Worker
    requires Enabled(s, step)
  {
    if IsExternal(step) then External(s, step) else Internal(s, step)
  }

  // ---------------------------------------------------------------- jobs and controls

  /** Job numbers in the order they were given out. */
  function Ids(next: nat): seq<JobId> {
    seq(if next == 0 then 0 else next - 1, (i: nat) => i + 1)
  }

  function JobOf(c: Command): seq<JobId> {
    if c.Job? then [c.id] else []
  }

  function JobsIn(queue: seq<Command>): seq<JobId> {
    if queue == [] then [] else JobsIn(queue[..|queue| - 1]) + JobOf(queue[|queue| - 1])
  }

  function ControlsIn(queue: seq<Command>): nat {
    if queue == [] then 0
    else ControlsIn(queue[..|queue| - 1]) + (if queue[|queue| - 1].Control? then 1 else 0)
  }

  /** Jobs with a terminal event, in the order of those events. */
  function Finished(events: seq<Event>): seq<JobId> {
    if events == [] then []
    else Finished(events[..|events| - 1]) + (if events[|events| - 1].Ended? then [events[|events| - 1].job] else [])
  }

  /** The job taken from the queue that has no terminal event yet. */
  function Current(p: Phase): seq<JobId> {
    match p
    case Taken(c) => if c.Job? then [c.id] else []
    case Claimed(c) => if c.Job? then [c.id] else []
    case Working(j) => [j]
    case Running(j) => [j]
    case Requesting(j) => [j]
    case Approving(j, _, _) => [j]
    case Leaving(j, _) => [j]
    case Passed(j) => [j]
    case _ => []
  }

  /** The job taken from the queue that is still an accepted one. */
  function Held(p: Phase): seq<JobId> {
    if p.Reported? then [p.job] else Current(p)
  }

  function Active(p: Phase): Option<JobId> {
    if p.Taken? || p.Claimed? || Held(p) == [] then None else Some(Held(p)[0])
  }

  function ControlInHand(p: Phase): nat {
    if (p.Taken? && p.command.Control?) || (p.Claimed? && p.command.Control?) || (p.Settled? && p.control) then 1 else 0
  }

  predicate Idling(p: Phase) {
    p.Waiting? || p.Closing? || p.Dead?
  }

  predicate StopIsLast(s: Worker) {
    && (forall i :: 0 <= i < |s.book.queue| - 1 ==> s.book.queue[i] != Stop)
    && (s.book.queue != [] ==> (s.book.stopping <==> s.book.queue[|s.book.queue| - 1] == Stop))
    && (s.book.queue == [] ==> (s.book.stopping <==> s.phase == Closing(false) || s.phase == Dead(false)))
    && (s.phase == Closing(false) || s.phase == Dead(false) ==> s.book.queue == [])
    && (s.phase.Taken? || s.phase.Claimed? ==> !s.phase.command.Stop?)
  }

  ghost predicate Books(s: Worker) {
    && s.book.nextJob >= 1
    && Finished(s.events) + Current(s.phase) + JobsIn(s.book.queue) == Ids(s.book.nextJob)
    && (forall j :: j in s.book.accepted <==> j in Held(s.phase) || j in JobsIn(s.book.queue))
    && s.book.cancelled <= s.book.accepted
    && s.book.active == Active(s.phase)
    && s.book.pendingControls == ControlsIn(s.book.queue) + ControlInHand(s.phase)
    && (s.book.processing <==> !Idling(s.phase) && !s.phase.Taken?)
    && (s.phase.Reported? ==> s.phase.job in Finished(s.events))
  }

  lemma QueueSnoc(queue: seq<Command>, c: Command)
    ensures JobsIn(queue + [c]) == JobsIn(queue) + JobOf(c)
    ensures ControlsIn(queue + [c]) == ControlsIn(queue) + (if c.Control? then 1 else 0)
  {
    assert (queue + [c])[..|queue|] == queue;
  }

  lemma {:induction false} QueueFirst(queue: seq<Command>)
    requires queue != []
    ensures JobsIn(queue) == JobOf(queue[0]) + JobsIn(queue[1..])
    ensures ControlsIn(queue) == (if queue[0].Control? then 1 else 0) + ControlsIn(queue[1..])
    decreases |queue|
  {
    var last := |queue| - 1;
    if last == 0 {
      assert queue[..0] == [] && queue[1..] == [];
    } else {
      QueueFirst(queue[..last]);
      QueueEnds(queue);
      Regroup(JobOf(queue[0]), JobsIn(queue[1..last]), JobOf(queue[last]));
    }
  }

  lemma QueueEnds(queue: seq<Command>)
    requires |queue| > 1
    ensures var last := |queue| - 1;
      && queue[..last][0] == queue[0] && queue[..last][1..] == queue[1..last]
      && JobsIn(queue[1..]) == JobsIn(queue[1..last]) + JobOf(queue[last])
      && ControlsIn(queue[1..]) == ControlsIn(queue[1..last]) + (if queue[last].Control? then 1 else 0)
  {
    var last := |queue| - 1;
    assert queue[..last][1..] == queue[1..last] && queue[1..] == queue[1..last] + [queue[last]];
    QueueSnoc(queue[1..last], queue[last]);
  }

  lemma EventSnoc(events: seq<Event>, e: Event)
    ensures Finished(events + [e]) == Finished(events) + (if e.Ended? then [e.job] else [])
  {
    assert (events + [e])[..|events|] == events;
  }

  lemma IdsGrow(next: nat)
    requires next >= 1
    ensures Ids(next + 1) == Ids(next) + [next]
  {
  }

  lemma ExternalKeepsBooks(s: Worker, step: Step)
    requires Books(s) && IsExternal(step) && Enabled(s, step)
    ensures Books(Do(s, step))
  {
    if step.Submit? {
      SubmitKeepsBooks(s);
    } else if step.Reset? || step.StopAll? {
      QueueSnoc(s.book.queue, Control);
      QueueSnoc(s.book.queue, Stop);
      assert JobsIn(s.book.queue) + [] == JobsIn(s.book.queue);
    }
  }

  lemma SubmitKeepsBooks(s: Worker)
    requires Books(s)
    ensures Books(External(s, Submit))
  {
    var front := Finished(s.events) + Current(s.phase);
    QueueSnoc(s.book.queue, Job(s.book.nextJob));
    IdsGrow(s.book.nextJob);
    Regroup(front, JobsIn(s.book.queue), [s.book.nextJob]);
  }

  /** A job number that was given out before others is not among those. */
  lemma EarlierIsElsewhere(s: Worker, j: JobId)
    requires Finished(s.events) + Current(s.phase) + JobsIn(s.book.queue) == Ids(s.book.nextJob)
    requires j in Finished(s.events)
    ensures j !in JobsIn(s.book.queue) && j !in Current(s.phase)
  {
    var all := Ids(s.book.nextJob);
    var front := Finished(s.events) + Current(s.phase);
    var i :| 0 <= i < |Finished(s.events)| && Finished(s.events)[i] == j;
    assert (front + JobsIn(s.book.queue))[i] == front[i] == j && all[i] == i + 1;
    forall k | 0 <= k < |JobsIn(s.book.queue)| ensures JobsIn(s.book.queue)[k] != j {
      assert (front + JobsIn(s.book.queue))[|front| + k] == JobsIn(s.book.queue)[k] == all[|front| + k];
    }
    forall k | 0 <= k < |Current(s.phase)| ensures Current(s.phase)[k] != j {
      assert (front + JobsIn(s.book.queue))[|Finished(s.events)| + k] == front[|Finished(s.events)| + k] == Current(s.phase)[k];
    }
  }

  lemma TakeKeepsBooks(s: Worker)
    requires Books(s) && Enabled(s, Take)
    ensures Books(Do(s, Take))
  {
    var first, rest := s.book.queue[0], s.book.queue[1..];
    QueueFirst(s.book.queue);
    Regroup(Finished(s.events), JobOf(first), JobsIn(rest));
    assert Finished(s.events) + [] == Finished(s.events);
    var u := Do(s, Take);
    assert Current(u.phase) == JobOf(first) && Held(u.phase) == JobOf(first) && Current(s.phase) == [];
    assert Finished(u.events) + Current(u.phase) + JobsIn(u.book.queue) == Ids(u.book.nextJob);
    TakenFits(s, u, first, rest);
  }

  lemma TakenFits(s: Worker, u: Worker, first: Command, rest: seq<Command>)
    requires Books(s) && s.phase.Waiting? && s.book.queue != [] && first == s.book.queue[0]
    requires JobsIn(s.book.queue) == JobOf(first) + JobsIn(rest)
    requires ControlsIn(s.book.queue) == (if first.Control? then 1 else 0) + ControlsIn(rest)
    requires u == s.(book := s.book.(queue := rest), phase := if first.Stop? then Closing(false) else Taken(first))
    requires Finished(u.events) + Current(u.phase) + JobsIn(u.book.queue) == Ids(u.book.nextJob)
    ensures Books(u)
  {
  }

  lemma EventKeepsBooks(s: Worker, e: Event, p: Phase)
    requires Books(s)
    requires Current(s.phase) == (if e.Ended? then [e.job] else []) + Current(p)
    requires Held(p) == Held(s.phase) && Active(p) == s.book.active && ControlInHand(p) == ControlInHand(s.phase)
    requires (s.book.processing <==> !Idling(p) && !p.Taken?) && (p.Reported? ==> e.Ended? && e.job == p.job)
    ensures Books(s.(events := s.events + [e], phase := p))
  {
    EventSnoc(s.events, e);
    var own := if e.Ended? then [e.job] else [];
    assert Finished(s.events) + (own + Current(p)) == (Finished(s.events) + own) + Current(p);
  }

  lemma ReleaseKeepsBooks(s: Worker)
    requires Books(s) && Enabled(s, Release)
    ensures Books(Do(s, Release))
  {
    EarlierIsElsewhere(s, s.phase.job);
  }

  lemma ReadStopKeepsBooks(s: Worker)
    requires Books(s) && Enabled(s, ReadStop)
    ensures Books(Do(s, ReadStop))
  {
    EventKeepsBooks(s, Ended(s.phase.job, Cancelled), Reported(s.phase.job, false));
    EventKeepsBooks(s, Started(s.phase.job), Running(s.phase.job));
  }

  lemma OpenKeepsBooks(s: Worker)
    requires Books(s) && Enabled(s, OpenApproval)
    ensures Books(Do(s, OpenApproval))
  {
    EventKeepsBooks(s, Asked(s.phase.job, s.gate.next), Approving(s.phase.job, s.gate.next, Awaited));
  }

  lemma ReportKeepsBooks(s: Worker, step: Step)
    requires Books(s) && Enabled(s, step)
    requires step.ReadStop? || step.OpenApproval? || step.Finish? || step.Observe? || step.Close?
    ensures Books(Do(s, step))
  {
    match step {
      case ReadStop => ReadStopKeepsBooks(s);
      case OpenApproval => OpenKeepsBooks(s);
      case Finish(how) => EventKeepsBooks(s, Ended(s.phase.job, how), Reported(s.phase.job, true));
      case Observe(raised) => EventKeepsBooks(s, Idle, Settled(false, raised));
      case Close => EventKeepsBooks(s, Stopped, Dead(s.phase.crashed));
    }
  }

  lemma InternalKeepsBooks(s: Worker, step: Step)
    requires Books(s) && !IsExternal(step) && Enabled(s, step)
    ensures Books(Do(s, step))
  {
    if step.Take? {
      TakeKeepsBooks(s);
    } else if step.Release? {
      ReleaseKeepsBooks(s);
    } else if step.ReadStop? || step.OpenApproval? || step.Finish? || step.Observe? || step.Close? {
      ReportKeepsBooks(s, step);
    } else if step.Claim? {
      ClaimKeepsBooks(s);
    } else if step.Enter? {
      EnterKeepsBooks(s, step.raised);
    } else if step.Settle? {
      SettleKeepsBooks(s);
    } else {
      QuietKeepsBooks(s, step);
    }
  }

  lemma ClaimKeepsBooks(s: Worker)
    requires Books(s) && Enabled(s, Claim)
    ensures Books(Do(s, Claim))
  {
  }

  lemma EnterKeepsBooks(s: Worker, raised: bool)
    requires Books(s) && Enabled(s, Enter(raised))
    ensures Books(Do(s, Enter(raised)))
  {
  }

  lemma SettleKeepsBooks(s: Worker)
    requires Books(s) && Enabled(s, Settle)
    ensures Books(Do(s, Settle))
  {
  }

  /** The steps of an approval, and a job's last check, leave the books alone. */
  lemma QuietKeepsBooks(s: Worker, step: Step)
    requires Books(s) && Enabled(s, step)
    requires step.CheckApproval? || step.Receive? || step.Quit? || step.FinalFlag? || step.FinalLock? || step.Leave? || step.Pass?
    ensures Books(Do(s, step))
  {
    var u := Do(s, step);
    assert u.book == s.book && u.events == s.events;
    assert Current(u.phase) == Current(s.phase) && Held(u.phase) == Held(s.phase);
  }

  lemma StopStaysLast(s: Worker, step: Step)
    requires StopIsLast(s) && Enabled(s, step)
    ensures StopIsLast(Do(s, step))
  {
    if IsExternal(step) { StopStaysLastOutside(s, step); } else { StopStaysLastInside(s, step); }
  }

  lemma StopStaysLastOutside(s: Worker, step: Step)
    requires StopIsLast(s) && IsExternal(step)
    ensures StopIsLast(External(s, step))
  {
  }

  lemma StopStaysLastInside(s: Worker, step: Step)
    requires StopIsLast(s) && !IsExternal(step) && Enabled(s, step)
    ensures StopIsLast(Internal(s, step))
  {
  }

  /** `quiescent` is true exactly when nothing is queued and the owning thread has nothing in hand,
      the gap after dequeueing included. */
  lemma QuiescentExactly(s: Worker)
    requires Books(s) && StopIsLast(s)
    ensures Quiescent(s) <==> s.book.queue == [] && Idling(s.phase)
  {
    assert Held(s.phase) != [] ==> Held(s.phase)[0] in s.book.accepted;
    if s.book.queue == [] && Idling(s.phase) {
      assert forall j :: j !in s.book.accepted;
      assert s.book.accepted == {};
    }
  }

  /** The `quiescent` property, read under the lock. */
  predicate Quiescent(s: Worker) {
    !(s.book.accepted != {} || s.book.processing || s.book.pendingControls > 0 || s.book.queue != [])
  }

  // ---------------------------------------------------------------- approvals

  predicate Unanswered(replies: seq<Reply>, approval: ApprovalId) {
    forall i :: 0 <= i < |replies| ==> replies[i].approval != approval
  }

  predicate OncePerApproval(replies: seq<Reply>) {
    forall i, k :: 0 <= i < k < |replies| ==> replies[i].approval != replies[k].approval
  }

  predicate Within(some: seq<Reply>, all: seq<Reply>) {
    forall i :: 0 <= i < |some| ==> some[i] in all
  }

  predicate Approvals(s: Worker) {
    && OncePerApproval(s.gate.accepting) && OncePerApproval(s.gate.returned)
    && Within(s.gate.inFlight, s.gate.accepting) && Within(s.gate.answers, s.gate.accepting) && Within(s.gate.returned, s.gate.accepting)
    && (forall i :: 0 <= i < |s.gate.accepting| ==> s.gate.accepting[i].approval < s.gate.next)
    && (s.gate.pending.Some? ==>
          && s.gate.pending.value < s.gate.next
          && (!s.gate.answered ==> Unanswered(s.gate.accepting, s.gate.pending.value))
          && (s.phase.Approving? || s.phase.Leaving?) && s.phase.approval == s.gate.pending.value)
    && (s.phase.Approving? ==>
          && s.phase.approval < s.gate.next
          && Unanswered(s.gate.returned, s.phase.approval)
          && (!s.phase.answer.Awaited? ==> Reply(s.phase.approval, s.phase.answer.decision) in s.gate.accepting))
  }

  lemma WithinMore(some: seq<Reply>, all: seq<Reply>, reply: Reply)
    requires Within(some, all)
    ensures Within(some, all + [reply]) && Within(some + [reply], all + [reply])
  {
  }

  lemma ExternalKeepsApprovals(s: Worker, step: Step)
    requires Approvals(s) && IsExternal(step) && Enabled(s, step)
    ensures Approvals(Do(s, step))
  {
    if step.Respond? && AnswerAccepted(s.gate, step.approval) {
      var reply := Reply(step.approval, step.decision);
      WithinMore(s.gate.inFlight, s.gate.accepting, reply);
      WithinMore(s.gate.answers, s.gate.accepting, reply);
      WithinMore(s.gate.returned, s.gate.accepting, reply);
    }
  }

  lemma InternalKeepsApprovals(s: Worker, step: Step)
    requires Approvals(s) && !IsExternal(step) && Enabled(s, step)
    ensures Approvals(Do(s, step))
  {
    if step.Receive? {
      ReceiveKeepsApprovals(s);
    } else if step.OpenApproval? || step.FinalLock? || step.Leave? {
      GateKeepsApprovals(s, step);
    } else {
      assert Do(s, step).gate == s.gate;
    }
  }

  lemma ReceiveKeepsApprovals(s: Worker)
    requires Approvals(s) && Enabled(s, Receive)
    ensures Approvals(Do(s, Receive))
  {
    assert s.gate.answers[0] in s.gate.accepting;
    assert s.gate.answers[0] == Reply(s.gate.answers[0].approval, s.gate.answers[0].decision);
  }

  lemma GateKeepsApprovals(s: Worker, step: Step)
    requires Approvals(s) && Enabled(s, step) && (step.OpenApproval? || step.FinalLock? || step.Leave?)
    ensures Approvals(Do(s, step))
  {
  }

  // ---------------------------------------------------------------- runs

  ghost predicate Inv(s: Worker) {
    Books(s) && StopIsLast(s) && Approvals(s)
  }

  lemma StepKeepsInv(s: Worker, step: Step)
    requires Inv(s) && Enabled(s, step)
    ensures Inv(Do(s, step))
  {
    StopStaysLast(s, step);
    if IsExternal(step) {
      ExternalKeepsBooks(s, step);
      ExternalKeepsApprovals(s, step);
    } else {
      InternalKeepsBooks(s, step);
      InternalKeepsApprovals(s, step);
    }
  }

  predicate Legal(s: Worker, steps: seq<Step>)
    decreases |steps|
  {
    steps != [] ==> Enabled(s, steps[0]) && Legal(Do(s, steps[0]), steps[1..])
  }

  function Run(s: Worker, steps: seq<Step>): Worker
    requires Legal(s, steps)
    decreases |steps|
  {
    if steps == [] then s else Run(Do(s, steps[0]), steps[1..])
  }

  lemma {:induction false} RunKeepsInv(s: Worker, steps: seq<Step>)
    requires Inv(s) && Legal(s, steps)
    ensures Inv(Run(s, steps))
    decreases |steps|
  {
    if steps != [] {
      StepKeepsInv(s, steps[0]);
      RunKeepsInv(Do(s, steps[0]), steps[1..]);
    }
  }

  /** In every run: terminal events name a prefix of the accepted jobs, once each and in submission
      order, and what is missing is exactly the job in hand and the queued ones; `quiescent` is
      exact; an approval takes at most one answer and a wait returns only the answer to its own number. */
  lemma EveryRun(steps: seq<Step>)
    requires Legal(START, steps)
    ensures var s := Run(START, steps);
      && Finished(s.events) + Current(s.phase) + JobsIn(s.book.queue) == Ids(s.book.nextJob)
      && (Quiescent(s) <==> s.book.queue == [] && Idling(s.phase))
      && OncePerApproval(s.gate.accepting) && OncePerApproval(s.gate.returned) && Within(s.gate.returned, s.gate.accepting)
  {
    assert Finished([Idle]) == [];
    assert Inv(START);
    RunKeepsInv(START, steps);
    QuiescentExactly(Run(START, steps));
  }

  /** A worker that ended by its stop marker has ended every accepted job; one whose control or
      activity observer raised leaves exactly the queued jobs without an ending. */
  lemma DeadWorker(steps: seq<Step>)
    requires Legal(START, steps) && Run(START, steps).phase.Dead?
    ensures var s := Run(START, steps);
      && Finished(s.events) + JobsIn(s.book.queue) == Ids(s.book.nextJob)
      && (!s.phase.crashed ==> s.book.queue == [] && Finished(s.events) == Ids(s.book.nextJob) && s.book.accepted == {})
  {
    assert Finished([Idle]) == [];
    assert Inv(START);
    RunKeepsInv(START, steps);
    DeadBooks(Run(START, steps));
  }

  lemma DeadBooks(s: Worker)
    requires Inv(s) && s.phase.Dead?
    ensures Finished(s.events) + JobsIn(s.book.queue) == Ids(s.book.nextJob)
    ensures !s.phase.crashed ==> s.book.queue == [] && Finished(s.events) == Ids(s.book.nextJob) && s.book.accepted == {}
  {
    assert Finished(s.events) + [] == Finished(s.events);
    if !s.phase.crashed {
      assert s.phase == Dead(false);
      assert forall j :: j !in s.book.accepted;
    }
  }

  /** Once the thread has ended nothing is ever published again: jobs still queued, or submitted later, have no ending. */
  lemma {:induction false} DeadEndsNothing(s: Worker, steps: seq<Step>)
    requires Legal(s, steps) && s.phase.Dead?
    ensures Run(s, steps).phase == s.phase && Run(s, steps).events == s.events
    decreases |steps|
  {
    if steps != [] { DeadEndsNothing(Do(s, steps[0]), steps[1..]); }
  }

  /** The run ends in a crash with an accepted job still queued and no terminal event. */
  ghost predicate Strands(s: Worker, steps: seq<Step>) {
    && Legal(s, steps)
    && Run(s, steps).phase == Dead(true) && Run(s, steps).book.queue == [Job(1)] && 1 in Run(s, steps).book.accepted
    && Finished(Run(s, steps).events) == []
  }

  lemma Prepend(s: Worker, step: Step, t: Worker, rest: seq<Step>)
    requires Enabled(s, step) && Do(s, step) == t && Strands(t, rest)
    ensures Strands(s, [step] + rest)
  {
    assert ([step] + rest)[1..] == rest;
  }

  lemma LastStep(s: Worker)
    requires s.phase == Closing(true) && s.book.queue == [Job(1)] && 1 in s.book.accepted && s.events == [Idle]
    ensures Strands(s, [Close])
  {
    EventSnoc([Idle], Stopped);
    EventSnoc([], Idle);
    assert [] + [Idle] == [Idle];
    var u := Do(s, Close);
    assert [Close][1..] == [];
    assert Run(u, []) == u;
  }

  /** The thread has taken a control, with a job behind it. */
  const IN_HAND := Worker(Book(2, {1}, {}, None, [Job(1)], false, false, 1), START.gate, Taken(Control), [Idle])

  const RAISED := IN_HAND.(book := IN_HAND.book.(processing := true), phase := Settled(true, true))

  lemma SettlesAndCloses()
    ensures Strands(RAISED, [Settle] + [Close])
  {
    var s6 := RAISED.(book := RAISED.book.(processing := false, pendingControls := 0), phase := Closing(true));
    LastStep(s6);
    Prepend(RAISED, Settle, s6, [Close]);
  }

  lemma RaisingControl()
    ensures Strands(IN_HAND, [Claim] + ([Enter(true)] + ([Settle] + [Close])))
  {
    var s4 := IN_HAND.(book := IN_HAND.book.(processing := true), phase := Claimed(Control));
    SettlesAndCloses();
    Prepend(s4, Enter(true), RAISED, [Settle] + [Close]);
    Prepend(IN_HAND, Claim, s4, [Enter(true)] + ([Settle] + [Close]));
  }

  lemma JobBehindControl()
    ensures Enabled(START, Reset) && Enabled(Do(START, Reset), Submit)
    ensures Enabled(Do(Do(START, Reset), Submit), Take) && Do(Do(Do(START, Reset), Submit), Take) == IN_HAND
  {
    assert [] + [Control] == [Control];
    assert [Control] + [Job(1)] == [Control, Job(1)] && {} + {1} == {1};
    assert [Control, Job(1)][1..] == [Job(1)];
  }

  /** A reset is queued, then a job, and the reset raises: the job is accepted and never ends. */
  lemma CrashedControlStrandsAJob()
    ensures Strands(START, [Reset] + ([Submit] + ([Take] + ([Claim] + ([Enter(true)] + ([Settle] + [Close]))))))
  {
    RaisingControl();
    JobBehindControl();
    var rest := [Claim] + ([Enter(true)] + ([Settle] + [Close]));
    Prepend(Do(Do(START, Reset), Submit), Take, IN_HAND, rest);
    Prepend(Do(START, Reset), Submit, Do(Do(START, Reset), Submit), [Take] + rest);
    Prepend(START, Reset, Do(START, Reset), [Submit] + ([Take] + rest));
  }

  /** Nothing is accepted once the worker is stopping. */
  lemma {:induction false} NothingAfterStop(s: Worker, steps: seq<Step>)
    requires Inv(s) && Legal(s, steps) && s.book.stopping
    ensures Run(s, steps).book.nextJob == s.book.nextJob && Run(s, steps).book.stopping
    decreases |steps|
  {
    if steps != [] {
      StepKeepsInv(s, steps[0]);
      NothingAfterStop(Do(s, steps[0]), steps[1..]);
    }
  }

  // ---------------------------------------------------------------- cancellation

  /** This job cannot complete any more. */
  predicate Doomed(s: Worker, job: JobId) {
    && Ended(job, Completed) !in s.events
    && s.phase != Passed(job)
    && job < s.book.nextJob
    && (job in s.book.cancelled || (job !in Held(s.phase) && job !in JobsIn(s.book.queue)))
  }

  lemma ExternalKeepsDoomed(s: Worker, step: Step, job: JobId)
    requires Enabled(s, step) && IsExternal(step) && Doomed(s, job)
    ensures Doomed(Do(s, step), job)
  {
    QueueSnoc(s.book.queue, Job(s.book.nextJob));
    QueueSnoc(s.book.queue, Control);
    QueueSnoc(s.book.queue, Stop);
  }

  lemma TakeKeepsDoomed(s: Worker, job: JobId)
    requires Enabled(s, Take) && Doomed(s, job)
    ensures Doomed(Do(s, Take), job)
  {
    QueueFirst(s.book.queue);
  }

  lemma ReleaseKeepsDoomed(s: Worker, job: JobId)
    requires Books(s) && Enabled(s, Release) && Doomed(s, job)
    ensures Doomed(Do(s, Release), job)
  {
    EarlierIsElsewhere(s, s.phase.job);
  }

  lemma InternalKeepsDoomed(s: Worker, step: Step, job: JobId)
    requires Enabled(s, step) && !IsExternal(step) && !step.Take? && !step.Release? && Doomed(s, job)
    ensures Doomed(Do(s, step), job)
  {
    var u := Do(s, step);
    assert Held(u.phase) == Held(s.phase);
    assert u.book.cancelled == s.book.cancelled && u.book.queue == s.book.queue;
  }

  lemma StepKeepsDoomed(s: Worker, step: Step, job: JobId)
    requires Books(s) && Enabled(s, step) && Doomed(s, job)
    ensures Doomed(Do(s, step), job)
  {
    if IsExternal(step) {
      ExternalKeepsDoomed(s, step, job);
    } else if step.Take? {
      TakeKeepsDoomed(s, job);
    } else if step.Release? {
      ReleaseKeepsDoomed(s, job);
    } else {
      InternalKeepsDoomed(s, step, job);
    }
  }

  /** A job that was cancelled before its last check never completes, whatever happens next. */
  lemma {:induction false} CancelledNeverCompletes(s: Worker, steps: seq<Step>, job: JobId)
    requires Inv(s) && Legal(s, steps) && Doomed(s, job)
    ensures Ended(job, Completed) !in Run(s, steps).events
    decreases |steps|
  {
    if steps != [] {
      StepKeepsDoomed(s, steps[0], job);
      StepKeepsInv(s, steps[0]);
      CancelledNeverCompletes(Do(s, steps[0]), steps[1..], job);
    }
  }

  /** `cancel_current` returned true: the job completes only if it had already passed its last check. */
  lemma AcceptedCancelDooms(s: Worker, target: Option<JobId>, steps: seq<Step>)
    requires Inv(s) && CancelAccepted(s.book, target) && Legal(Do(s, Cancel(target)), steps)
    requires var job := Target(s.book, target).value; s.phase != Passed(job) && Ended(job, Completed) !in s.events
    ensures Ended(Target(s.book, target).value, Completed) !in Run(Do(s, Cancel(target)), steps).events
  {
    var job := Target(s.book, target).value;
    StepKeepsInv(s, Cancel(target));
    AcceptedIsNumbered(s, job);
    CancelledNeverCompletes(Do(s, Cancel(target)), steps, job);
  }

  lemma AcceptedIsNumbered(s: Worker, job: JobId)
    requires Books(s) && job in s.book.accepted
    ensures job < s.book.nextJob
  {
    var front := Finished(s.events) + Current(s.phase);
    var all := front + JobsIn(s.book.queue);
    assert forall i :: 0 <= i < |all| ==> all[i] < s.book.nextJob;
    if job in JobsIn(s.book.queue) {
      var k :| 0 <= k < |JobsIn(s.book.queue)| && JobsIn(s.book.queue)[k] == job;
      assert all[|front| + k] == job;
    } else if s.phase.Reported? {
      var k :| 0 <= k < |Finished(s.events)| && Finished(s.events)[k] == job;
      assert all[k] == front[k] == job;
    } else {
      assert Current(s.phase)[0] == job && front[|Finished(s.events)|] == job;
      assert all[|Finished(s.events)|] == job;
    }
  }

  /** An approval of a cancelled job that has not returned. */
  predicate Barred(s: Worker, approval: ApprovalId) {
    && approval < s.gate.next
    && Unanswered(s.gate.returned, approval)
    && (s.phase.Approving? && s.phase.approval == approval ==> s.phase.job in s.book.cancelled)
  }

  /** A wait whose last check comes after a successful cancel returns no decision, even when an
      answer to it was accepted first. */
  lemma {:induction false} CancelledWaitReturnsNothing(s: Worker, steps: seq<Step>, approval: ApprovalId)
    requires Legal(s, steps) && Barred(s, approval)
    ensures Unanswered(Run(s, steps).gate.returned, approval)
    decreases |steps|
  {
    if steps != [] {
      CancelledWaitReturnsNothing(Do(s, steps[0]), steps[1..], approval);
    }
  }

  /** Cancelling the active job refuses every later answer to the approval it was waiting for. */
  predicate Withdrawn(s: Worker, approval: ApprovalId) {
    approval < s.gate.next && s.gate.pending != Some(approval)
  }

  lemma {:induction false} WithdrawnStaysRefused(s: Worker, steps: seq<Step>, approval: ApprovalId)
    requires Legal(s, steps) && Withdrawn(s, approval)
    ensures !AnswerAccepted(Run(s, steps).gate, approval)
    decreases |steps|
  {
    if steps != [] {
      WithdrawnStaysRefused(Do(s, steps[0]), steps[1..], approval);
    }
  }

  /** Cancelling the job under approval: later answers are refused and the wait returns nothing. */
  lemma CancelEndsTheWait(s: Worker, target: Option<JobId>, steps: seq<Step>)
    requires Inv(s) && s.phase.Approving? && Target(s.book, target) == Some(s.phase.job)
    requires Legal(Do(s, Cancel(target)), steps)
    ensures CancelAccepted(s.book, target)
    ensures !AnswerAccepted(Run(Do(s, Cancel(target)), steps).gate, s.phase.approval)
    ensures Unanswered(Run(Do(s, Cancel(target)), steps).gate.returned, s.phase.approval)
  {
    assert s.phase.job in Held(s.phase);
    WithdrawnStaysRefused(Do(s, Cancel(target)), steps, s.phase.approval);
    CancelledWaitReturnsNothing(Do(s, Cancel(target)), steps, s.phase.approval);
  }
}
