// What whole runs of the plugin runtime add up to: one generation for every activation, nothing new once
// it is closing, and requests that keep the order in which they were made.

module OperationRuns {
  import opened Basics
  import opened Operations

  // ---------------------------------------------------------------- generations and commits

  /** A reload, or the refresh that begins an outer operation, of an idle and open runtime. */
  predicate Refreshes(s: Runtime, step: Step) {
    && s.busy == 0 && !s.closed
    && ((step.Reload? && step.activated) || (step.Begin? && step.refreshed && Frames(s, step.t) == []))
  }

  lemma {:induction false} ApplyingActivates(s: Runtime, applied: seq<Applied>)
    ensures ApplyPending(s, applied).generation - s.generation == |ApplyPending(s, applied).committed| - |s.committed|
    decreases |s.pending|
  {
    if s.pending != [] {
      var first, rest := s.pending[0], s.pending[1..];
      var later := if applied == [] then [] else applied[1..];
      match Outcome(applied) {
        case Activated => ApplyingActivates(Activate(s.(pending := rest, committed := s.committed + [first])), later);
        case Refused => ApplyingActivates(s.(pending := rest, rolledBack := s.rolledBack + [first]), later);
        case Interrupted =>
      }
    }
  }

  /** Every committed request replaced one generation, and beside those only a refresh does. */
  lemma CommitsActivate(s: Runtime, step: Step)
    ensures Do(s, step).generation - s.generation ==
      |Do(s, step).committed| - |s.committed| + (if Refreshes(s, step) then 1 else 0)
  {
    if step.Release? && s.busy > 0 { ApplyingActivates(Released(s, step.t), step.outcomes); }
  }

  /** A release before anything that waited for it. */
  function Released(s: Runtime, t: Thread): Runtime
    requires s.busy > 0
  {
    s.(busy := s.busy - 1, pinned := s.pinned - {t}, frames := s.frames - {t})
  }

  function Refreshments(s: Runtime, steps: seq<Step>): nat
    decreases |steps|
  {
    if steps == [] then 0
    else (if Refreshes(s, steps[0]) then 1 else 0) + Refreshments(Do(s, steps[0]), steps[1..])
  }

  /** Over any run the generation counts the activations: committed requests and refreshes, no other. */
  lemma {:induction false} GenerationCounts(s: Runtime, steps: seq<Step>)
    ensures Run(s, steps).generation - s.generation ==
      |Run(s, steps).committed| - |s.committed| + Refreshments(s, steps)
    decreases |steps|
  {
    if steps != [] {
      CommitsActivate(s, steps[0]);
      GenerationCounts(Do(s, steps[0]), steps[1..]);
    }
  }

  /** How many of the first i waiting updates activate. */
  function Activations(applied: seq<Applied>, i: nat): nat {
    if i == 0 then 0 else Activations(applied, i - 1) + (if OutcomeAt(applied, i - 1).Activated? then 1 else 0)
  }

  lemma {:induction false} ActivationsShift(applied: seq<Applied>, later: seq<Applied>, i: nat)
    requires later == (if applied == [] then [] else applied[1..])
    ensures Activations(applied, i + 1) == (if Outcome(applied).Activated? then 1 else 0) + Activations(later, i)
    decreases i
  {
    if i == 0 {
      assert Activations(applied, 1) == Activations(applied, 0) + (if OutcomeAt(applied, 0).Activated? then 1 else 0);
    } else {
      ActivationsShift(applied, later, i - 1);
      assert OutcomeAt(applied, i) == OutcomeAt(later, i - 1);
    }
  }

  lemma {:induction false} CommittedExtends(s: Runtime, applied: seq<Applied>)
    ensures s.committed <= ApplyPending(s, applied).committed
    decreases |s.pending|
  {
    if s.pending != [] {
      var first, rest := s.pending[0], s.pending[1..];
      var later := if applied == [] then [] else applied[1..];
      match Outcome(applied) {
        case Activated => CommittedExtends(Activate(s.(pending := rest, committed := s.committed + [first])), later);
        case Refused => CommittedExtends(s.(pending := rest, rolledBack := s.rolledBack + [first]), later);
        case Interrupted =>
      }
    }
  }

  /** Waiting requests commit in the order of the queue: each at the place that the activations before it leave. */
  lemma {:induction false} CommittedInOrder(s: Runtime, applied: seq<Applied>, i: nat)
    requires i < |s.pending| && Operations.Reached(applied, i) && OutcomeAt(applied, i).Activated?
    ensures var u := ApplyPending(s, applied); var place := |s.committed| + Activations(applied, i);
      place < |u.committed| && u.committed[place] == s.pending[i]
    decreases |s.pending|
  {
    var first, rest := s.pending[0], s.pending[1..];
    var later := if applied == [] then [] else applied[1..];
    if i == 0 {
      CommittedExtends(Activate(s.(pending := rest, committed := s.committed + [first])), later);
    } else {
      assert !Outcome(applied).Interrupted? by { assert applied == [] || Outcome(applied) == applied[0]; }
      ReachedLater(applied, later, i);
      ActivationsShift(applied, later, i - 1);
      match Outcome(applied) {
        case Activated => CommittedInOrder(Activate(s.(pending := rest, committed := s.committed + [first])), later, i - 1);
        case Refused => CommittedInOrder(s.(pending := rest, rolledBack := s.rolledBack + [first]), later, i - 1);
      }
    }
  }

  /** A request made outside any operation of an idle runtime is settled at once: committed if and only
      if its update activates and the runtime is open, else rolled back. */
  lemma AskedIdle(s: Runtime, t: Thread, r: Request, applied: Applied)
    requires Inv(s) && Enabled(s, Ask(t, r, applied)) && s.busy == 0
    ensures var u := Do(s, Ask(t, r, applied));
      && (r in u.committed <==> applied.Activated? && !s.closed)
      && (r in u.rolledBack <==> !(applied.Activated? && !s.closed))
      && u.pending == [] && u.frames == s.frames
  {
    assert s.pinned == map[];
    assert t !in s.frames;
    assert Occurrences(s, r) == 0;
    CountIn(s.committed, r);
    CountIn(s.rolledBack, r);
  }

  // ---------------------------------------------------------------- closing

  predicate Shut(s: Runtime) {
    s.closing || s.closed
  }

  lemma ShutStays(s: Runtime, step: Step)
    requires Inv(s) && Enabled(s, step) && Shut(s)
    ensures var u := Do(s, step);
      && Shut(u) && u.generation == s.generation && u.committed == s.committed && u.pinned.Keys <= s.pinned.Keys
      && (s.closed ==> u.closed && u.retirements == s.retirements)
  {
    assert s.busy == 0 ==> s.pinned == map[];
    if step.Begin? { ShutBegins(s, step.t, step.refreshed); }
  }

  lemma ShutBegins(s: Runtime, t: Thread, refreshed: bool)
    requires Inv(s) && Enabled(s, Begin(t, refreshed)) && Shut(s)
    ensures Do(s, Begin(t, refreshed)) == if Frames(s, t) == [] then s else s.(frames := Do(s, Begin(t, refreshed)).frames)
  {
  }

  /** Once a runtime is closing no run opens another outer operation, replaces the generation or commits
      a request, and as soon as the operations still open have ended it is closed, retired once. */
  lemma {:induction false} ClosingOpensNothing(s: Runtime, steps: seq<Step>)
    requires Inv(s) && Legal(s, steps) && Shut(s)
    ensures var u := Run(s, steps);
      && Shut(u) && u.generation == s.generation && u.committed == s.committed && u.pinned.Keys <= s.pinned.Keys
      && (u.busy == 0 <==> u.closed) && u.retirements == (if u.closed then 1 else 0)
    decreases |steps|
  {
    if steps != [] {
      StepKeepsInv(s, steps[0]);
      ShutStays(s, steps[0]);
      ClosingOpensNothing(Do(s, steps[0]), steps[1..]);
    }
  }

  /** Closing shuts the runtime: at once when it is idle, else when the last operation ends. */
  lemma CloseShuts(s: Runtime, t: Thread)
    requires Inv(s) && Enabled(s, Close(t))
    ensures var u := Do(s, Close(t)); Shut(u) && (u.closed <==> s.busy == 0) && u.frames == s.frames
  {
  }

  /** What still waits when the last operation of a closing runtime ends is undone, the last request first. */
  lemma CloseUndoesLastFirst(s: Runtime, t: Thread, outcomes: seq<Applied>, i: nat)
    requires Inv(s) && Enabled(s, Release(t, outcomes)) && s.closing && s.busy == 1 && i < |s.pending|
    ensures var u := Do(s, Release(t, outcomes));
      && u.closed && u.pending == [] && |u.rolledBack| == |s.rolledBack| + |s.pending|
      && u.rolledBack[|s.rolledBack| + i] == s.pending[|s.pending| - 1 - i]
  {
    ReverseAt(s.pending, i);
  }

  // ---------------------------------------------------------------- the order of requests

  /** The requests that a thread's open operations hold, in order. */
  function Held(s: Runtime, t: Thread): seq<Request> {
    Flatten(Frames(s, t))
  }

  lemma FlattenTop(stack: seq<seq<Request>>, top: seq<Request>)
    ensures Flatten(stack + [top]) == Flatten(stack) + top
  {
    assert (stack + [top])[..|stack|] == stack;
  }

  /** A request made inside an operation comes after all that the thread's operations hold. */
  lemma AskedLast(s: Runtime, t: Thread, r: Request, applied: Applied)
    requires Frames(s, t) != []
    ensures Held(Do(s, Ask(t, r, applied)), t) == Held(s, t) + [r]
  {
    var stack := Frames(s, t);
    var below, top := stack[..|stack| - 1], stack[|stack| - 1];
    assert stack == below + [top];
    FlattenTop(below, top);
    FlattenTop(below, top + [r]);
    assert Frames(Do(s, Ask(t, r, applied)), t) == below + [top + [r]];
    Regroup(Flatten(below), top, [r]);
  }

  /** One made outside any operation while others are at work waits behind all that wait already. */
  lemma AskedWaits(s: Runtime, t: Thread, r: Request, applied: Applied)
    requires Inv(s) && Enabled(s, Ask(t, r, applied)) && t !in s.pinned && s.busy > 0
    ensures Do(s, Ask(t, r, applied)) == s.(issued := s.issued + {r}, pending := s.pending + [r])
  {
  }

  /** A nested operation that succeeds keeps the thread's requests in order; the outermost one puts them, in
      that order, behind those that already wait; and one that fails takes exactly its own from the end. */
  lemma EndKeepsOrder(s: Runtime, t: Thread, succeeded: bool)
    requires Frames(s, t) != []
    ensures var u := Do(s, End(t, succeeded)); var own := Frames(s, t)[|Frames(s, t)| - 1];
      && Held(u, t) + (if succeeded && |Frames(s, t)| > 1 then [] else own) == Held(s, t)
      && u.pending == s.pending + (if succeeded && |Frames(s, t)| == 1 then Held(s, t) else [])
  {
    var stack := Frames(s, t);
    var below, own := stack[..|stack| - 1], stack[|stack| - 1];
    assert stack == below + [own];
    FlattenTop(below, own);
    if succeeded && |stack| > 1 { HandsOutward(s, t); } else { assert Frames(Do(s, End(t, succeeded)), t) == below; }
  }

  lemma HandsOutward(s: Runtime, t: Thread)
    requires |Frames(s, t)| > 1
    ensures Held(Do(s, End(t, true)), t) == Held(s, t) && Do(s, End(t, true)).pending == s.pending
  {
    var stack := Frames(s, t);
    var rest, under, own := stack[..|stack| - 2], stack[|stack| - 2], stack[|stack| - 1];
    assert stack == rest + [under] + [own];
    assert Frames(Do(s, End(t, true)), t) == rest + [under + own];
    MergedTop(rest, under, own);
  }

  lemma MergedTop(rest: seq<seq<Request>>, under: seq<Request>, own: seq<Request>)
    ensures Flatten(rest + [under] + [own]) == Flatten(rest + [under + own])
  {
    FlattenTop(rest + [under], own);
    FlattenTop(rest, under);
    FlattenTop(rest, under + own);
    Regroup(Flatten(rest), under, own);
  }

  /** No step of another thread, and no begin, changes what a thread's operations hold. */
  lemma OthersKeepHeld(s: Runtime, step: Step, t: Thread)
    requires Inv(s) && Enabled(s, step) && t in s.pinned
    requires step.Begin? || step.Reload? || step.Close? || step.t != t
    ensures Held(Do(s, step), t) == Held(s, t)
  {
    if step.Begin? && step.t == t {
      FlattenTop(Frames(s, t), []);
    } else if step.Release? {
      BusyReleases(s, step.t);
      ApplyFacts(Released(s, step.t), step.outcomes);
    }
  }

  lemma BusyReleases(s: Runtime, t: Thread)
    requires Inv(s) && t in s.pinned
    ensures s.busy > 0
  {
    assert |s.pinned| == 0 ==> s.pinned == map[];
  }
}
