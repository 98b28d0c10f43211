// What a write of the recovery manifest saves: all that memory held when the write began, whatever other
// tasks do until it ends; and what memory holds between writes.

module SavedManifests {
  import opened Basics
  import opened Supervision

  /** A step that takes the persistence lock and begins a write. */
  predicate Begins(s: System, step: Step) {
    && Enabled(s, step) && (step.Record? || step.Claim? || step.Finish? || step.Dispatch?)
    && !Do(s, step).writer.Idle?
  }

  /** Other tasks' steps: no write ends and nothing crashes. */
  predicate Meanwhile(steps: seq<Step>) {
    forall i :: 0 <= i < |steps| ==> !steps[i].Write? && !steps[i].Crash?
  }

  lemma {:induction false} WriteGoesOn(s: System, steps: seq<Step>)
    requires !s.writer.Idle? && Legal(s, steps) && Meanwhile(steps)
    ensures var t := Run(s, steps); t.writer == s.writer && t.disk == s.disk
    decreases |steps|
  {
    if steps != [] {
      assert Meanwhile(steps[1..]);
      WriteGoesOn(Do(s, steps[0]), steps[1..]);
    }
  }

  /** Results change sides or leave only as the step says, and only a dispatch changes the saved state. */
  lemma BeginKeepsResults(s: System, step: Step)
    requires Inv(s) && Begins(s, step)
    ensures var m, u := s.memory, Do(s, step).memory;
      && u.state == (if step.Dispatch? then Dequeued(m.state, step.intent) else m.state)
      && Known(u) == Known(m) - (if step.Finish? then {step.id} else {})
      && (step.Claim? ==> step.id in m.updates && step.id in u.claimed && u.claimed[step.id] == m.updates[step.id])
      && (step.Finish? ==> step.id in m.claimed)
      && (forall id :: id in Known(m) && !((step.Claim? || step.Finish?) && step.id == id) ==>
            (id in u.updates <==> id in m.updates) && (id in u.claimed <==> id in m.claimed)
            && (id in m.updates ==> u.updates[id] == m.updates[id]) && (id in m.claimed ==> u.claimed[id] == m.claimed[id]))
  {
  }

  /** A write that ends as saved, or that a crash follows, has put on disk exactly what memory was when the
      write began, whatever results, states and core messages came in between. */
  lemma SavedAsItBegan(s: System, step: Step, between: seq<Step>)
    requires Begins(s, step) && Legal(Do(s, step), between) && Meanwhile(between)
    ensures var v := Run(Do(s, step), between); var began := Do(s, step).memory;
      && Enabled(v, Write(Saved)) && Do(v, Write(Saved)).disk == began && Do(v, Write(Saved)).memory == v.memory
      && Enabled(v, Crash(true)) && Do(v, Crash(true)).disk == began == Do(v, Crash(true)).memory
      && Enabled(v, Write(Refused)) && Do(v, Write(Refused)).disk == s.disk
  {
    assert Do(s, step).writer.frozen == Do(s, step).memory && Do(s, step).disk == s.disk;
    WriteGoesOn(Do(s, step), between);
  }

  lemma {:induction false} RunConcat(s: System, xs: seq<Step>, ys: seq<Step>)
    requires Legal(s, xs) && Legal(Run(s, xs), ys)
    ensures Legal(s, xs + ys) && Run(s, xs + ys) == Run(Run(s, xs), ys)
    decreases |xs|
  {
    if xs == [] {
      assert xs + ys == ys;
    } else {
      assert (xs + ys)[1..] == xs[1..] + ys;
      RunConcat(Do(s, xs[0]), xs[1..], ys);
    }
  }

  /** In every run: a result that memory knew when a write began that ended as saved is never lost again. */
  lemma KnownIsSaved(before: seq<Step>, step: Step, between: seq<Step>, end: Step, after: seq<Step>, id: Id)
    requires Legal(START, before) && Begins(Run(START, before), step) && end in {Write(Saved), Crash(true)}
    requires Legal(Do(Run(START, before), step), between) && Meanwhile(between)
    requires var v := Run(Do(Run(START, before), step), between); Enabled(v, end) && Legal(Do(v, end), after)
    requires id in Known(Run(START, before).memory)
    ensures var t := Run(Do(Run(Do(Run(START, before), step), between), end), after);
      id in Durable(t) && id !in t.lost
  {
    var s := Run(START, before);
    var u := Do(s, step);
    var v := Run(u, between);
    RunKeepsInv(START, before);
    StepKeepsInv(s, step);
    RunKeepsInv(u, between);
    StepKeepsInv(v, end);
    KnownIsDurable(s, step, between, end, id);
    RecordedIsNeverLost(Do(v, end), after, id);
  }

  lemma KnownIsDurable(s: System, step: Step, between: seq<Step>, end: Step, id: Id)
    requires Inv(s) && Begins(s, step) && end in {Write(Saved), Crash(true)} && id in Known(s.memory)
    requires Legal(Do(s, step), between) && Meanwhile(between)
    ensures var v := Run(Do(s, step), between); Enabled(v, end) && id in Durable(Do(v, end))
  {
    var u := Do(s, step);
    var v := Run(u, between);
    BeginKeepsResults(s, step);
    SavedAsItBegan(s, step, between);
    WriteGoesOn(u, between);
    if step.Finish? {
      assert u.writer.id == step.id;
      assert step.id in Do(v, end).finished;
    }
  }

  // ---------------------------------------------------------------- what memory holds

  /** A finished update is deliverable, with its facts, until it is claimed or a crash comes. */
  lemma {:induction false} StaysDeliverable(s: System, steps: seq<Step>, id: Id)
    requires Inv(s) && Legal(s, steps) && id in s.memory.updates
    requires forall i :: 0 <= i < |steps| ==> !steps[i].Crash? && !(steps[i].Claim? && steps[i].id == id)
    ensures var t := Run(s, steps); id in t.memory.updates && t.memory.updates[id] == s.memory.updates[id]
    decreases |steps|
  {
    if steps != [] {
      StepKeepsInv(s, steps[0]);
      assert forall i :: 0 <= i < |steps[1..]| ==> steps[1..][i] == steps[i + 1];
      DeliverableStep(s, steps[0], id);
      StaysDeliverable(Do(s, steps[0]), steps[1..], id);
    }
  }

  lemma DeliverableStep(s: System, step: Step, id: Id)
    requires Inv(s) && Enabled(s, step) && id in s.memory.updates
    requires !step.Crash? && !(step.Claim? && step.id == id)
    ensures var m := Do(s, step).memory; id in m.updates && m.updates[id] == s.memory.updates[id]
  {
    if step.Write? && !step.written.Saved? { FailedWriteKeeps(s, step.written.Refused?, id); }
  }

  lemma FailedWriteKeeps(s: System, answered: bool, id: Id)
    requires Inv(s) && !s.writer.Idle? && id in s.memory.updates
    ensures var m := Fail(s, answered).memory; id in m.updates && m.updates[id] == s.memory.updates[id]
  {
  }

  lemma MadeIsDeliverable(s: System, id: Id, outcome: Outcome, steps: seq<Step>)
    requires Inv(s) && Enabled(s, Make(id, outcome)) && Legal(Do(s, Make(id, outcome)), steps)
    requires forall i :: 0 <= i < |steps| ==> !steps[i].Crash? && !(steps[i].Claim? && steps[i].id == id)
    ensures var t := Run(Do(s, Make(id, outcome)), steps); id in Resent(t) && t.memory.updates[id] == outcome
  {
    StepKeepsInv(s, Make(id, outcome));
    StaysDeliverable(Do(s, Make(id, outcome)), steps, id);
  }

  /** A state that the core reported is what memory holds, and so what the next write saves, until the core
      reports another, a dispatch empties its input, or a crash comes. */
  lemma {:induction false} StateStays(s: System, steps: seq<Step>)
    requires Legal(s, steps) && forall i :: 0 <= i < |steps| ==> !steps[i].Capture? && !steps[i].Dispatch? && !steps[i].Crash?
    ensures Run(s, steps).memory.state == s.memory.state
    decreases |steps|
  {
    if steps != [] {
      assert forall i :: 0 <= i < |steps[1..]| ==> steps[1..][i] == steps[i + 1];
      StateStays(Do(s, steps[0]), steps[1..]);
    }
  }

  lemma CapturedIsSaved(s: System, state: Option<SavedState>, steps: seq<Step>, step: Step, between: seq<Step>)
    requires Legal(Do(s, Capture(state)), steps) && Begins(Run(Do(s, Capture(state)), steps), step) && !step.Dispatch?
    requires forall i :: 0 <= i < |steps| ==> !steps[i].Capture? && !steps[i].Dispatch? && !steps[i].Crash?
    requires Legal(Do(Run(Do(s, Capture(state)), steps), step), between) && Meanwhile(between)
    ensures var v := Run(Do(Run(Do(s, Capture(state)), steps), step), between);
      Enabled(v, Write(Saved)) && Do(v, Write(Saved)).disk.state == state
  {
    var r := Run(Do(s, Capture(state)), steps);
    StateStays(Do(s, Capture(state)), steps);
    SavedAsItBegan(r, step, between);
    assert Do(r, step).memory.state == r.memory.state;
  }

  // ---------------------------------------------------------------- answers and provider calls

  /** Every claim is answered once, unless its write was cancelled: at once when there is nothing to move, else
      when its write ends. */
  lemma EveryClaimIsAnswered(s: System, token: Token, id: Id, between: seq<Step>, written: Written)
    requires Inv(s) && Enabled(s, Claim(token, id))
    requires Legal(Do(s, Claim(token, id)), between) && Meanwhile(between)
    ensures id !in s.memory.updates ==> Do(s, Claim(token, id)).acks == s.acks + [Ack(token, id, id in s.memory.claimed)]
    ensures id in s.memory.updates ==> var v := Run(Do(s, Claim(token, id)), between);
      && Enabled(v, Write(written))
      && Do(v, Write(written)).acks ==
           if written.Interrupted? then s.acks else s.acks + [Ack(token, id, written.Saved?)]
  {
    if id in s.memory.updates {
      WriteGoesOn(Do(s, Claim(token, id)), between);
      NoAnswers(Do(s, Claim(token, id)), between);
    }
  }

  lemma {:induction false} NoAnswers(s: System, steps: seq<Step>)
    requires !s.writer.Idle? && Legal(s, steps) && Meanwhile(steps)
    ensures Run(s, steps).acks == s.acks
    decreases |steps|
  {
    if steps != [] {
      assert Meanwhile(steps[1..]);
      NoAnswers(Do(s, steps[0]), steps[1..]);
    }
  }

  /** A claim that the core gave up, or that a restart cut off, never begins its provider call. */
  lemma {:induction false} GivenUpNeverBegins(s: System, steps: seq<Step>, token: Token, i: nat)
    requires Legal(s, steps) && token in s.asked && token !in s.waiting && i < |steps|
    ensures steps[i] != Begin(token)
    decreases |steps|
  {
    if i > 0 {
      GivenUpNeverBegins(Do(s, steps[0]), steps[1..], token, i - 1);
    }
  }

  lemma CallsBeginOnce(s: System, step: Step, steps: seq<Step>, token: Token, i: nat)
    requires Enabled(s, step) && Legal(Do(s, step), steps) && token in s.asked && i < |steps|
    requires step in {Begin(token), GiveUp(token), Crash(true), Crash(false)}
    ensures steps[i] != Begin(token)
    ensures step == Begin(token) ==> s.asked[token] in Do(s, step).started
  {
    GivenUpNeverBegins(Do(s, step), steps, token, i);
  }
}
