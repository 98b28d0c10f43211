// The plugin runtime's operations: nested frames per thread, a busy count, reload requests that
// wait for an operation boundary, and a close that waits with them.

module Operations {
  import opened Basics

  type Thread = nat
  type Request = nat

  /** How one update ends: activated, refused by an ordinary exception, or cut off by one that no handler catches. */
  datatype Applied = Activated | Refused | Interrupted

  datatype Runtime = Runtime(
    generation: nat,                          // also names the active registry
    frames: map<Thread, seq<seq<Request>>>,   // open frames of each thread, innermost last
    pinned: map<Thread, nat>,                 // registry that each open outer operation pinned
    busy: nat,
    pending: seq<Request>,
    closing: bool,
    closed: bool,
    retirements: nat,                         // how often plugin resources were retired by close
    issued: set<Request>,
    committed: seq<Request>,
    rolledBack: seq<Request>,
    dropped: seq<Request>)

  const START := Runtime(0, map[], map[], 0, [], false, false, 0, {}, [], [], [])

  /** Atomic steps: each is one section under the runtime lock, or work on one thread's own frames. */
  datatype Step =
    | Begin(t: Thread, refreshed: bool)
    | Ask(t: Thread, r: Request, applied: Applied)
    | End(t: Thread, succeeded: bool)
    | Release(t: Thread, outcomes: seq<Applied>)
    | Reload(t: Thread, activated: bool)
    | Close(t: Thread)

  function Frames(s: Runtime, t: Thread): seq<seq<Request>> {
    if t in s.frames then s.frames[t] else []
  }

  /** Replace the generation, which only an idle and open runtime does. */
  function Activate(s: Runtime): Runtime {
    s.(generation := s.generation + 1)
  }

  function Outcome(applied: seq<Applied>): Applied {
    if applied == [] then Refused else applied[0]
  }

  /** `_apply_pending` on each waiting request in turn; an exception that escapes leaves the rest behind. */
  function ApplyPending(s: Runtime, applied: seq<Applied>): Runtime
    decreases |s.pending|
  {
    if s.pending == [] then s
    else
      var r, rest := s.pending[0], s.pending[1..];
      var later := if applied == [] then [] else applied[1..];
      match Outcome(applied)
      case Activated => ApplyPending(Activate(s.(pending := rest, committed := s.committed + [r])), later)
      case Refused => ApplyPending(s.(pending := rest, rolledBack := s.rolledBack + [r]), later)
      case Interrupted => s.(pending := [], rolledBack := s.rolledBack + [r], dropped := s.dropped + rest)
  }

  function RetireAll(s: Runtime): Runtime {
    s.(closed := true, retirements := s.retirements + 1,
       pending := [], rolledBack := s.rolledBack + Reverse(s.pending))
  }

  function Do(s: Runtime, step: Step): Runtime {
    match step
    case Begin(t, refreshed) =>
      if Frames(s, t) != [] then s.(frames := s.frames[t := s.frames[t] + [[]]])
      else
        var u := if refreshed && s.busy == 0 && !s.closed then Activate(s) else s;
        if u.closed || u.closing then u
        else u.(busy := u.busy + 1, pinned := u.pinned[t := u.generation], frames := u.frames[t := [[]]])
    case Ask(t, r, applied) =>
      var u := s.(issued := s.issued + {r});
      var stack := Frames(s, t);
      if stack != [] then
        var top := |stack| - 1;
        u.(frames := s.frames[t := stack[..top] + [stack[top] + [r]]])
      else if s.busy > 0 then u.(pending := s.pending + [r])
      else if s.closed || !applied.Activated? then u.(rolledBack := s.rolledBack + [r])
      else Activate(u.(committed := s.committed + [r]))
    case End(t, succeeded) =>
      var stack := Frames(s, t);
      if stack == [] then s
      else
        var top := |stack| - 1;
        var requests := stack[top];
        if !succeeded then
          s.(frames := s.frames[t := stack[..top]], rolledBack := s.rolledBack + Reverse(requests))
        else if top > 0 then
          s.(frames := s.frames[t := stack[..top - 1] + [stack[top - 1] + requests]])
        else s.(frames := s.frames[t := []], pending := s.pending + requests)
    case Release(t, applied) =>
      if s.busy == 0 then s
      else
        var u := s.(busy := s.busy - 1, pinned := s.pinned - {t}, frames := s.frames - {t});
        if u.busy == 0 && u.closing then (if u.closed then u else RetireAll(u))
        else if u.busy == 0 then ApplyPending(u, applied)
        else u
    case Reload(t, activated) =>
      if activated && s.busy == 0 && !s.closed then Activate(s) else s
    case Close(t) =>
      if s.closed then s
      else if s.busy > 0 then s.(closing := true)
      else RetireAll(s)
  }

  /** Where the code takes each step: a thread that has popped its outer frame only releases,
      and callbacks made under the lock do not call back into the runtime. */
  predicate Enabled(s: Runtime, step: Step) {
    match step
    case Begin(t, _) => t in s.pinned ==> Frames(s, t) != []
    case Ask(t, r, _) => r !in s.issued && (t in s.pinned ==> Frames(s, t) != [])
    case End(t, _) => Frames(s, t) != []
    case Release(t, _) => t in s.pinned && Frames(s, t) == []
    case Reload(t, _) => t in s.pinned ==> Frames(s, t) != []
    case Close(t) => t in s.pinned ==> Frames(s, t) != []
  }

  // ---------------------------------------------------------------- where requests are

  function Count(xs: seq<Request>, r: Request): nat {
    if xs == [] then 0 else (if xs[|xs| - 1] == r then 1 else 0) + Count(xs[..|xs| - 1], r)
  }

  function CountStack(stack: seq<seq<Request>>, r: Request): nat {
    if stack == [] then 0 else CountStack(stack[..|stack| - 1], r) + Count(stack[|stack| - 1], r)
  }

  ghost function CountFrames(frames: map<Thread, seq<seq<Request>>>, r: Request): nat
    decreases |frames|
  {
    if frames == map[] then 0
    else
      var t :| t in frames;
      CountStack(frames[t], r) + CountFrames(frames - {t}, r)
  }

  /** How often a request occurs in all frames, the queue and the settled lists together. */
  ghost function Occurrences(s: Runtime, r: Request): nat {
    CountFrames(s.frames, r) + Count(s.pending, r) + Count(s.committed, r) + Count(s.rolledBack, r) + Count(s.dropped, r)
  }

  /** Every request ever made is in exactly one place, exactly once. */
  ghost predicate OnePlace(s: Runtime) {
    forall r :: Occurrences(s, r) == if r in s.issued then 1 else 0
  }

  lemma {:induction false} CountConcat(xs: seq<Request>, ys: seq<Request>, r: Request)
    ensures Count(xs + ys, r) == Count(xs, r) + Count(ys, r)
    decreases |ys|
  {
    if ys == [] {
      assert xs + ys == xs;
    } else {
      assert (xs + ys)[..|xs + ys| - 1] == xs + ys[..|ys| - 1];
      CountConcat(xs, ys[..|ys| - 1], r);
    }
  }

  lemma {:induction false} CountReverse(xs: seq<Request>, r: Request)
    ensures Count(Reverse(xs), r) == Count(xs, r)
    decreases |xs|
  {
    if xs != [] {
      var front, last := xs[..|xs| - 1], xs[|xs| - 1];
      CountReverse(front, r);
      CountConcat([last], Reverse(front), r);
      CountConcat(front, [last], r);
      assert xs == front + [last];
    }
  }

  lemma CountFirst(xs: seq<Request>, r: Request)
    requires xs != []
    ensures Count(xs, r) == (if xs[0] == r then 1 else 0) + Count(xs[1..], r)
  {
    assert xs == [xs[0]] + xs[1..];
    CountConcat([xs[0]], xs[1..], r);
    assert [xs[0]][..0] == [];
  }

  lemma {:induction false} FramesSplit(frames: map<Thread, seq<seq<Request>>>, t: Thread, r: Request)
    requires t in frames
    ensures CountFrames(frames, r) == CountStack(frames[t], r) + CountFrames(frames - {t}, r)
    decreases |frames|
  {
    var u :| u in frames && CountFrames(frames, r) == CountStack(frames[u], r) + CountFrames(frames - {u}, r);
    if u != t {
      FramesSplit(frames - {u}, t, r);
      FramesSplit(frames - {t}, u, r);
      assert frames - {u} - {t} == frames - {t} - {u};
    }
  }

  /** Replacing one thread's stack changes what is held by exactly the difference. */
  lemma FramesUpdate(frames: map<Thread, seq<seq<Request>>>, t: Thread, stack: seq<seq<Request>>, r: Request)
    ensures CountFrames(frames[t := stack], r) == CountStack(stack, r) + CountFrames(frames - {t}, r)
    ensures CountFrames(frames, r) == CountStack(if t in frames then frames[t] else [], r) + CountFrames(frames - {t}, r)
  {
    FramesSplit(frames[t := stack], t, r);
    assert frames[t := stack] - {t} == frames - {t};
    if t in frames { FramesSplit(frames, t, r); } else { assert frames - {t} == frames; }
  }

  lemma StackSnoc(stack: seq<seq<Request>>, top: seq<Request>, r: Request)
    ensures CountStack(stack + [top], r) == CountStack(stack, r) + Count(top, r)
  {
    assert (stack + [top])[..|stack|] == stack;
  }

  lemma EndConserves(s: Runtime, t: Thread, succeeded: bool, r: Request)
    requires Frames(s, t) != []
    ensures Occurrences(Do(s, End(t, succeeded)), r) == Occurrences(s, r)
  {
    var stack := Frames(s, t);
    var top := |stack| - 1;
    var below, requests := stack[..top], stack[top];
    assert stack == below + [requests];
    StackSnoc(below, requests, r);
    if !succeeded {
      CountReverse(requests, r);
      CountConcat(s.rolledBack, Reverse(requests), r);
      FramesUpdate(s.frames, t, below, r);
    } else if top > 0 {
      var rest, under := below[..top - 1], below[top - 1];
      assert below == rest + [under] && stack[..top - 1] == rest;
      StackSnoc(rest, under, r);
      StackSnoc(rest, under + requests, r);
      CountConcat(under, requests, r);
      FramesUpdate(s.frames, t, rest + [under + requests], r);
    } else {
      CountConcat(s.pending, requests, r);
      FramesUpdate(s.frames, t, [], r);
    }
  }

  lemma EndKeepsPlaces(s: Runtime, t: Thread, succeeded: bool)
    requires OnePlace(s) && Frames(s, t) != []
    ensures OnePlace(Do(s, End(t, succeeded)))
  {
    forall r ensures Occurrences(Do(s, End(t, succeeded)), r) == Occurrences(s, r) {
      EndConserves(s, t, succeeded, r);
    }
  }

  lemma AskInFrame(s: Runtime, t: Thread, asked: Request, r: Request)
    requires Frames(s, t) != []
    ensures var stack := Frames(s, t); var top := |stack| - 1;
      CountFrames(s.frames[t := stack[..top] + [stack[top] + [asked]]], r)
        == CountFrames(s.frames, r) + (if r == asked then 1 else 0)
  {
    var stack := Frames(s, t);
    var below, top := stack[..|stack| - 1], stack[|stack| - 1];
    assert stack == below + [top];
    StackSnoc(below, top, r);
    StackSnoc(below, top + [asked], r);
    CountConcat(top, [asked], r);
    assert Count([asked], r) == if r == asked then 1 else 0;
    FramesUpdate(s.frames, t, below + [top + [asked]], r);
  }

  lemma OneMore(xs: seq<Request>, asked: Request, r: Request)
    ensures Count(xs + [asked], r) == Count(xs, r) + (if r == asked then 1 else 0)
  {
    assert (xs + [asked])[..|xs|] == xs;
  }

  lemma AskOutside(s: Runtime, t: Thread, asked: Request, applied: Applied, r: Request)
    requires Frames(s, t) == []
    ensures Occurrences(Do(s, Ask(t, asked, applied)), r) == Occurrences(s, r) + (if r == asked then 1 else 0)
  {
    var u := Do(s, Ask(t, asked, applied));
    assert u.frames == s.frames && u.dropped == s.dropped;
    if s.busy > 0 {
      OneMore(s.pending, asked, r);
      assert u.pending == s.pending + [asked] && u.committed == s.committed && u.rolledBack == s.rolledBack;
    } else if s.closed || !applied.Activated? {
      OneMore(s.rolledBack, asked, r);
      assert u.pending == s.pending && u.committed == s.committed && u.rolledBack == s.rolledBack + [asked];
    } else {
      OneMore(s.committed, asked, r);
      assert u.pending == s.pending && u.committed == s.committed + [asked] && u.rolledBack == s.rolledBack;
    }
  }

  lemma AskInside(s: Runtime, t: Thread, asked: Request, applied: Applied, r: Request)
    requires Frames(s, t) != []
    ensures Occurrences(Do(s, Ask(t, asked, applied)), r) == Occurrences(s, r) + (if r == asked then 1 else 0)
  {
    AskInFrame(s, t, asked, r);
  }

  lemma AskAdds(s: Runtime, t: Thread, asked: Request, applied: Applied, r: Request)
    ensures Occurrences(Do(s, Ask(t, asked, applied)), r) == Occurrences(s, r) + (if r == asked then 1 else 0)
  {
    if Frames(s, t) != [] { AskInside(s, t, asked, applied, r); } else { AskOutside(s, t, asked, applied, r); }
  }

  lemma AskIssues(s: Runtime, t: Thread, r: Request, applied: Applied)
    ensures Do(s, Ask(t, r, applied)).issued == s.issued + {r}
  {
  }

  lemma OneMorePlace(s: Runtime, u: Runtime, r: Request)
    requires OnePlace(s) && r !in s.issued && u.issued == s.issued + {r}
    requires forall q :: Occurrences(u, q) == Occurrences(s, q) + (if q == r then 1 else 0)
    ensures OnePlace(u)
  {
  }

  lemma AskKeepsPlaces(s: Runtime, t: Thread, r: Request, applied: Applied)
    requires OnePlace(s) && r !in s.issued
    ensures OnePlace(Do(s, Ask(t, r, applied)))
  {
    var u := Do(s, Ask(t, r, applied));
    AskIssues(s, t, r, applied);
    forall q ensures Occurrences(u, q) == Occurrences(s, q) + (if q == r then 1 else 0) {
      AskAdds(s, t, r, applied, q);
    }
    OneMorePlace(s, u, r);
  }

  lemma CommitsFirst(s: Runtime, r: Request)
    requires s.pending != []
    ensures Occurrences(Activate(s.(pending := s.pending[1..], committed := s.committed + [s.pending[0]])), r) == Occurrences(s, r)
  {
    CountFirst(s.pending, r);
    OneMore(s.committed, s.pending[0], r);
  }

  lemma RefusesFirst(s: Runtime, r: Request)
    requires s.pending != []
    ensures Occurrences(s.(pending := s.pending[1..], rolledBack := s.rolledBack + [s.pending[0]]), r) == Occurrences(s, r)
  {
    CountFirst(s.pending, r);
    OneMore(s.rolledBack, s.pending[0], r);
  }

  lemma DropsRest(s: Runtime, r: Request)
    requires s.pending != []
    ensures Occurrences(s.(pending := [], rolledBack := s.rolledBack + [s.pending[0]], dropped := s.dropped + s.pending[1..]), r)
      == Occurrences(s, r)
  {
    CountFirst(s.pending, r);
    OneMore(s.rolledBack, s.pending[0], r);
    CountConcat(s.dropped, s.pending[1..], r);
  }

  lemma {:induction false} ApplyConserves(s: Runtime, applied: seq<Applied>, r: Request)
    ensures Occurrences(ApplyPending(s, applied), r) == Occurrences(s, r)
    ensures ApplyPending(s, applied).pending == []
    decreases |s.pending|
  {
    if s.pending != [] {
      var first, rest := s.pending[0], s.pending[1..];
      var later := if applied == [] then [] else applied[1..];
      match Outcome(applied) {
        case Activated =>
          CommitsFirst(s, r);
          ApplyConserves(Activate(s.(pending := rest, committed := s.committed + [first])), later, r);
        case Refused =>
          RefusesFirst(s, r);
          ApplyConserves(s.(pending := rest, rolledBack := s.rolledBack + [first]), later, r);
        case Interrupted => DropsRest(s, r);
      }
    }
  }

  lemma ApplyKeepsPlaces(s: Runtime, applied: seq<Applied>)
    requires OnePlace(s)
    ensures OnePlace(ApplyPending(s, applied)) && ApplyPending(s, applied).pending == []
  {
    ApplyConserves(s, applied, 0);
    forall r ensures Occurrences(ApplyPending(s, applied), r) == Occurrences(s, r) {
      ApplyConserves(s, applied, r);
    }
    assert ApplyPending(s, applied).issued == s.issued by { ApplyFacts(s, applied); }
  }

  lemma RetireKeepsPlaces(s: Runtime)
    requires OnePlace(s)
    ensures OnePlace(RetireAll(s))
  {
    forall r ensures Occurrences(RetireAll(s), r) == Occurrences(s, r) {
      CountReverse(s.pending, r);
      CountConcat(s.rolledBack, Reverse(s.pending), r);
    }
  }

  // ---------------------------------------------------------------- invariant

  ghost predicate Inv(s: Runtime) {
    && OnePlace(s)
    && s.busy == |s.pinned|
    && (forall t :: t in s.frames ==> t in s.pinned)
    && (forall t :: t in s.pinned ==> t in s.frames && s.pinned[t] == s.generation)
    && (s.pending != [] ==> s.busy > 0)
    && (s.closed ==> s.busy == 0)
    && (s.closing ==> s.busy > 0 || s.closed)
    && s.retirements == (if s.closed then 1 else 0)
  }

  lemma ApplyFacts(s: Runtime, applied: seq<Applied>)
    ensures var u := ApplyPending(s, applied);
      && u == s.(generation := u.generation, pending := u.pending, committed := u.committed,
                 rolledBack := u.rolledBack, dropped := u.dropped)
      && u.generation >= s.generation
    decreases |s.pending|
  {
  }

  lemma StepKeepsInv(s: Runtime, step: Step)
    requires Inv(s) && Enabled(s, step)
    ensures Inv(Do(s, step))
  {
    match step {
      case Begin(t, refreshed) => BeginKeepsInv(s, t, refreshed);
      case Ask(t, r, applied) => AskKeepsPlaces(s, t, r, applied);
      case End(t, succeeded) => EndKeepsPlaces(s, t, succeeded);
      case Release(t, outcomes) => ReleaseKeepsInv(s, t, outcomes);
      case Reload(t, activated) => SamePlaces(s, Do(s, step));
      case Close(t) =>
        RetireKeepsPlaces(s);
        SamePlaces(s, s.(closing := true));
    }
  }

  lemma SamePlaces(s: Runtime, t: Runtime)
    requires OnePlace(s)
    requires t == s.(generation := t.generation, busy := t.busy, pinned := t.pinned, closing := t.closing)
    ensures OnePlace(t)
  {
    forall r ensures Occurrences(t, r) == Occurrences(s, r) {
    }
  }

  lemma BeginConserves(s: Runtime, t: Thread, refreshed: bool, r: Request)
    ensures Occurrences(Do(s, Begin(t, refreshed)), r) == Occurrences(s, r)
  {
    var stack := Frames(s, t);
    StackSnoc(stack, [], r);
    FramesUpdate(s.frames, t, stack + [[]], r);
    assert stack == [] ==> stack + [[]] == [[]];
  }

  lemma BeginKeepsInv(s: Runtime, t: Thread, refreshed: bool)
    requires Inv(s) && Enabled(s, Begin(t, refreshed))
    ensures Inv(Do(s, Begin(t, refreshed)))
  {
    var u := Do(s, Begin(t, refreshed));
    forall r ensures Occurrences(u, r) == Occurrences(s, r) {
      BeginConserves(s, t, refreshed, r);
    }
    if Frames(s, t) == [] && u.busy != s.busy {
      assert t !in s.pinned && t !in s.frames;
      assert u.pinned.Keys == s.pinned.Keys + {t};
      assert s.busy == 0 ==> s.pinned == map[];
    }
  }

  lemma ReleaseKeepsInv(s: Runtime, t: Thread, outcomes: seq<Applied>)
    requires Inv(s) && Enabled(s, Release(t, outcomes))
    ensures Inv(Do(s, Release(t, outcomes)))
  {
    var u := s.(busy := s.busy - 1, pinned := s.pinned - {t}, frames := s.frames - {t});
    forall r ensures Occurrences(u, r) == Occurrences(s, r) {
      FramesUpdate(s.frames, t, [], r);
    }
    assert u.pinned.Keys == s.pinned.Keys - {t};
    assert |u.pinned| == |s.pinned| - 1;
    if u.busy == 0 {
      assert u.pinned == map[];
      RetireKeepsPlaces(u);
      ApplyKeepsPlaces(u, outcomes);
      ApplyFacts(u, outcomes);
    }
  }

  // ---------------------------------------------------------------- runs

  function Run(s: Runtime, steps: seq<Step>): Runtime
    decreases |steps|
  {
    if steps == [] then s else Run(Do(s, steps[0]), steps[1..])
  }

  predicate Legal(s: Runtime, steps: seq<Step>)
    decreases |steps|
  {
    steps != [] ==> Enabled(s, steps[0]) && Legal(Do(s, steps[0]), steps[1..])
  }

  lemma StartInv()
    ensures Inv(START)
  {
  }

  lemma {:induction false} RunKeepsInv(s: Runtime, steps: seq<Step>)
    requires Inv(s) && Legal(s, steps)
    ensures Inv(Run(s, steps))
    decreases |steps|
  {
    if steps != [] {
      StepKeepsInv(s, steps[0]);
      RunKeepsInv(Do(s, steps[0]), steps[1..]);
    }
  }

  lemma {:induction false} CountIn(xs: seq<Request>, r: Request)
    ensures Count(xs, r) > 0 <==> r in xs
    decreases |xs|
  {
    if xs != [] {
      CountIn(xs[..|xs| - 1], r);
      assert xs == xs[..|xs| - 1] + [xs[|xs| - 1]];
    }
  }

  lemma {:induction false} CountLevel(stack: seq<seq<Request>>, level: nat, r: Request)
    requires level < |stack|
    ensures CountStack(stack, r) >= Count(stack[level], r)
    decreases |stack|
  {
    if level < |stack| - 1 { CountLevel(stack[..|stack| - 1], level, r); }
  }

  /** In any run, a request settles at most once and only on one side, none waits while the runtime
      is idle, the busy count is the number of open outer operations, each of them still sees the
      registry it pinned, and plugin resources are retired once, at busy zero. */
  lemma EveryRun(steps: seq<Step>)
    requires Legal(START, steps)
    ensures var s := Run(START, steps);
      && (forall r :: Count(s.committed, r) + Count(s.rolledBack, r) <= 1)
      && (forall r :: r in s.issued ==> CountFrames(s.frames, r) + Count(s.pending, r) + Count(s.committed, r)
                                         + Count(s.rolledBack, r) + Count(s.dropped, r) == 1)
      && (s.busy == 0 ==> s.pending == [])
      && s.busy == |s.pinned|
      && (forall t :: t in s.pinned ==> s.pinned[t] == s.generation)
      && s.retirements <= 1 && (s.retirements == 1 ==> s.busy == 0)
  {
    StartInv();
    RunKeepsInv(START, steps);
    var s := Run(START, steps);
    forall r ensures Count(s.committed, r) + Count(s.rolledBack, r) <= 1 {
      assert Occurrences(s, r) <= 1;
    }
    forall r | r in s.issued
      ensures CountFrames(s.frames, r) + Count(s.pending, r) + Count(s.committed, r) + Count(s.rolledBack, r) + Count(s.dropped, r) == 1
    {
      assert Occurrences(s, r) == 1;
    }
  }

  /** While a thread keeps an operation open, no step of any thread changes the generation. */
  lemma OpenOperationsPinTheGeneration(s: Runtime, step: Step, t: Thread)
    requires Inv(s) && Enabled(s, step) && t in s.pinned && t in Do(s, step).pinned
    ensures Do(s, step).generation == s.generation && Do(s, step).pinned[t] == s.pinned[t]
  {
    StepKeepsInv(s, step);
    var u := Do(s, step);
    assert |s.pinned| == 0 ==> s.pinned == map[];
    assert |u.pinned| == 0 ==> u.pinned == map[];
    if step.Release? {
      ApplyFacts(s.(busy := s.busy - 1, pinned := s.pinned - {step.t}, frames := s.frames - {step.t}), step.outcomes);
    }
  }

  /** An exception cuts off an update that is not the last of those waiting. */
  predicate CutOff(waiting: nat, applied: seq<Applied>) {
    exists i :: 0 <= i < waiting - 1 && i < |applied| && applied[i].Interrupted?
  }

  /** Requests are left behind at a release exactly when an escaping exception cuts off an update
      that is not the last one waiting. */
  lemma {:induction false} DroppedExactly(s: Runtime, applied: seq<Applied>)
    ensures ApplyPending(s, applied).dropped != s.dropped <==> CutOff(|s.pending|, applied)
    decreases |s.pending|
  {
    if s.pending == [] {
      assert !CutOff(|s.pending|, applied);
    } else {
      var first, rest := s.pending[0], s.pending[1..];
      var later := if applied == [] then [] else applied[1..];
      match Outcome(applied) {
        case Activated =>
          var u := Activate(s.(pending := rest, committed := s.committed + [first]));
          DroppedExactly(u, later);
          Shift(|s.pending|, applied, later);
          assert ApplyPending(s, applied) == ApplyPending(u, later);
          assert ApplyPending(s, applied).dropped != s.dropped <==> CutOff(|s.pending|, applied);
        case Refused =>
          var u := s.(pending := rest, rolledBack := s.rolledBack + [first]);
          DroppedExactly(u, later);
          Shift(|s.pending|, applied, later);
          assert ApplyPending(s, applied) == ApplyPending(u, later);
          assert ApplyPending(s, applied).dropped != s.dropped <==> CutOff(|s.pending|, applied);
        case Interrupted =>
          assert ApplyPending(s, applied).dropped == s.dropped + rest;
          assert applied != [] && applied[0].Interrupted?;
          if rest == [] {
            assert s.dropped + rest == s.dropped;
            assert !CutOff(|s.pending|, applied);
          } else {
            assert CutOff(|s.pending|, applied);
          }
          assert ApplyPending(s, applied).dropped != s.dropped <==> CutOff(|s.pending|, applied);
      }
    }
  }

  lemma Shift(n: nat, applied: seq<Applied>, later: seq<Applied>)
    requires n > 0 && later == (if applied == [] then [] else applied[1..]) && !Outcome(applied).Interrupted?
    ensures CutOff(n, applied) <==> CutOff(n - 1, later)
  {
    if CutOff(n, applied) {
      var i :| 0 <= i < n - 1 && i < |applied| && applied[i].Interrupted?;
      assert i > 0 && later[i - 1] == applied[i];
    }
    if CutOff(n - 1, later) {
      var i :| 0 <= i < n - 2 && i < |later| && later[i].Interrupted?;
      assert later[i] == applied[i + 1];
    }
  }

  const FIRST := Ask(0, 1, Refused)
  const SECOND := Ask(0, 2, Refused)
  const CUT := Release(0, [Interrupted])

  /** Two updates wait, the first is interrupted: the second is never settled. */
  lemma InterruptionLosesAnUpdate()
    ensures var steps := [Begin(0, false)] + ([FIRST] + ([SECOND] + ([End(0, true)] + [CUT])));
      Legal(START, steps) && Run(START, steps).dropped == [2]
  {
    var s1 := START.(frames := map[0 := [[]]], pinned := map[0 := 0], busy := 1);
    var s2 := s1.(frames := map[0 := [[1]]], issued := {1});
    var s3 := s1.(frames := map[0 := [[1, 2]]], issued := {1, 2});
    var s4 := s3.(frames := map[0 := []], pending := [1, 2]);
    ReleaseOnly(s4, 1, 2);
    EndOnly(s3, [1, 2]);
    Prepend(s3, End(0, true), s4, [CUT]);
    AskInOnly(s2, [1], 2);
    assert [1] + [2] == [1, 2] && {1} + {2} == {1, 2};
    Prepend(s2, SECOND, s3, [End(0, true)] + [CUT]);
    AskInOnly(s1, [], 1);
    assert [] + [1] == [1] && {} + {1} == {1};
    Prepend(s1, FIRST, s2, [SECOND] + ([End(0, true)] + [CUT]));
    BeginOnly();
    Prepend(START, Begin(0, false), s1, [FIRST] + ([SECOND] + ([End(0, true)] + [CUT])));
  }

  ghost predicate Loses(s: Runtime, steps: seq<Step>) {
    Legal(s, steps) && Run(s, steps).dropped == [2]
  }

  lemma Prepend(s: Runtime, step: Step, t: Runtime, rest: seq<Step>)
    requires Enabled(s, step) && Do(s, step) == t && Loses(t, rest)
    ensures Loses(s, [step] + rest)
  {
    assert ([step] + rest)[1..] == rest;
  }

  lemma BeginOnly()
    ensures Enabled(START, Begin(0, false))
    ensures Do(START, Begin(0, false)) == START.(frames := map[0 := [[]]], pinned := map[0 := 0], busy := 1)
  {
  }

  lemma AskInOnly(s: Runtime, held: seq<Request>, r: Request)
    requires s.frames == map[0 := [held]] && r !in s.issued
    ensures Enabled(s, Ask(0, r, Refused))
    ensures Do(s, Ask(0, r, Refused)) == s.(frames := map[0 := [held + [r]]], issued := s.issued + {r})
  {
    var stack := s.frames[0];
    assert stack[..0] + [stack[0] + [r]] == [held + [r]];
    assert s.frames[0 := [held + [r]]] == map[0 := [held + [r]]];
  }

  lemma EndOnly(s: Runtime, held: seq<Request>)
    requires s.frames == map[0 := [held]]
    ensures Enabled(s, End(0, true))
    ensures Do(s, End(0, true)) == s.(frames := map[0 := []], pending := s.pending + held)
  {
    var none: seq<seq<Request>> := [];
    assert s.frames[0 := none] == map[0 := none];
  }

  lemma ReleaseOnly(s: Runtime, first: Request, second: Request)
    requires s.frames == map[0 := []] && s.busy == 1 && s.pinned == map[0 := 0] && !s.closing && s.pending == [first, second]
    requires s.dropped == [] && second == 2
    ensures Loses(s, [CUT])
  {
    assert [first, second][1..] == [second];
    assert [CUT][1..] == [];
    var u := Do(s, CUT);
    assert u.dropped == [second];
    assert Run(u, []) == u;
  }

  // ---------------------------------------------------------------- the order in which requests settle

  /** An operation that fails undoes its own requests, the last one first, and nothing else. */
  lemma UndoneLastFirst(s: Runtime, t: Thread, i: nat)
    requires Frames(s, t) != [] && i < |Frames(s, t)[|Frames(s, t)| - 1]|
    ensures var requests := Frames(s, t)[|Frames(s, t)| - 1]; var u := Do(s, End(t, false));
      && |u.rolledBack| == |s.rolledBack| + |requests|
      && u.rolledBack[|s.rolledBack| + i] == requests[|requests| - 1 - i]
      && u.pending == s.pending && u.committed == s.committed
  {
    ReverseAt(Frames(s, t)[|Frames(s, t)| - 1], i);
  }

  /** The outcomes that a release gets to see, and those it does not. */
  predicate Reached(applied: seq<Applied>, i: nat) {
    forall k :: 0 <= k < i && k < |applied| ==> !applied[k].Interrupted?
  }

  function OutcomeAt(applied: seq<Applied>, i: nat): Applied {
    if i < |applied| then applied[i] else Refused
  }

  /** What becomes of the request at each place of the queue: settled by its own outcome, unless an
      earlier one was interrupted. */
  lemma {:induction false} SettledBy(s: Runtime, applied: seq<Applied>, i: nat)
    requires i < |s.pending|
    ensures var u := ApplyPending(s, applied); var r := s.pending[i];
      && (Reached(applied, i) && OutcomeAt(applied, i).Activated? ==> r in u.committed)
      && (Reached(applied, i) && !OutcomeAt(applied, i).Activated? ==> r in u.rolledBack)
      && (!Reached(applied, i) ==> r in u.dropped)
    decreases |s.pending|
  {
    var first, rest := s.pending[0], s.pending[1..];
    var later := if applied == [] then [] else applied[1..];
    var next := match Outcome(applied)
      case Activated => Activate(s.(pending := rest, committed := s.committed + [first]))
      case Refused => s.(pending := rest, rolledBack := s.rolledBack + [first])
      case Interrupted => s;
    if Outcome(applied).Interrupted? {
      assert i > 0 ==> !Reached(applied, i) && rest[i - 1] == s.pending[i];
    } else {
      ApplyKeeps(next, later, first);
      if i > 0 {
        assert rest[i - 1] == s.pending[i];
        ReachedLater(applied, later, i);
        SettledBy(next, later, i - 1);
      }
    }
  }

  lemma ReachedLater(applied: seq<Applied>, later: seq<Applied>, i: nat)
    requires i > 0 && later == (if applied == [] then [] else applied[1..]) && !Outcome(applied).Interrupted?
    ensures Reached(applied, i) <==> Reached(later, i - 1)
    ensures OutcomeAt(applied, i) == OutcomeAt(later, i - 1)
  {
    assert forall k :: 0 <= k < |later| ==> later[k] == applied[k + 1];
    if Reached(later, i - 1) {
      forall k | 0 <= k < i && k < |applied| ensures !applied[k].Interrupted? {
        if k > 0 { assert later[k - 1] == applied[k]; }
      }
    }
  }

  lemma {:induction false} ApplyKeeps(s: Runtime, applied: seq<Applied>, r: Request)
    ensures r in s.committed ==> r in ApplyPending(s, applied).committed
    ensures r in s.rolledBack ==> r in ApplyPending(s, applied).rolledBack
    decreases |s.pending|
  {
    if s.pending != [] {
      var later := if applied == [] then [] else applied[1..];
      match Outcome(applied) {
        case Activated => ApplyKeeps(Activate(s.(pending := s.pending[1..], committed := s.committed + [s.pending[0]])), later, r);
        case Refused => ApplyKeeps(s.(pending := s.pending[1..], rolledBack := s.rolledBack + [s.pending[0]]), later, r);
        case Interrupted =>
      }
    }
  }

  // ---------------------------------------------------------------- which requests reach the queue

  datatype Fate = Waiting(level: nat) | Handed | Undone

  /** What becomes of a request in frame `level` of a stack of `depth` frames: each enclosing
      operation that succeeds hands it outward, and the first that fails undoes it. */
  function Follow(t: Thread, level: nat, depth: nat, steps: seq<Step>): Fate
    requires level < depth
    decreases |steps|
  {
    if steps == [] then Waiting(level)
    else
      match steps[0]
      case Begin(u, _) => Follow(t, level, if u == t then depth + 1 else depth, steps[1..])
      case End(u, succeeded) =>
        if u != t then Follow(t, level, depth, steps[1..])
        else if level < depth - 1 then Follow(t, level, depth - 1, steps[1..])
        else if !succeeded then Undone
        else if level == 0 then Handed
        else Follow(t, level - 1, depth - 1, steps[1..])
      case _ => Follow(t, level, depth, steps[1..])
  }

  predicate ReachesQueue(s: Runtime, steps: seq<Step>, r: Request)
    decreases |steps|
  {
    r in s.pending || (steps != [] && ReachesQueue(Do(s, steps[0]), steps[1..], r))
  }

  lemma HeldIsNotQueued(s: Runtime, t: Thread, level: nat, r: Request)
    requires Inv(s) && level < |Frames(s, t)| && r in Frames(s, t)[level]
    ensures r !in s.pending && r !in s.rolledBack
  {
    assert Occurrences(s, r) <= 1;
    FramesSplit(s.frames, t, r);
    CountLevel(s.frames[t], level, r);
    CountIn(s.frames[t][level], r);
    CountIn(s.pending, r);
    CountIn(s.rolledBack, r);
  }

  lemma UndoneIsNotQueued(s: Runtime, r: Request)
    requires Inv(s) && r in s.rolledBack
    ensures r !in s.pending
  {
    assert Occurrences(s, r) <= 1;
    CountIn(s.pending, r);
    CountIn(s.rolledBack, r);
  }

  lemma ApplyKeepsRolledBack(s: Runtime, applied: seq<Applied>, r: Request)
    requires r in s.rolledBack
    ensures r in ApplyPending(s, applied).rolledBack
    decreases |s.pending|
  {
  }

  lemma StepKeepsRolledBack(s: Runtime, step: Step, r: Request)
    requires r in s.rolledBack
    ensures r in Do(s, step).rolledBack
  {
    if step.Release? && s.busy > 0 {
      var u := s.(busy := s.busy - 1, pinned := s.pinned - {step.t}, frames := s.frames - {step.t});
      ApplyKeepsRolledBack(u, step.outcomes, r);
    }
  }

  lemma {:induction false} UndoneStaysUndone(s: Runtime, steps: seq<Step>, r: Request)
    requires Inv(s) && Legal(s, steps) && r in s.rolledBack
    ensures !ReachesQueue(s, steps, r) && r in Run(s, steps).rolledBack
    decreases |steps|
  {
    UndoneIsNotQueued(s, r);
    if steps != [] {
      StepKeepsInv(s, steps[0]);
      StepKeepsRolledBack(s, steps[0], r);
      UndoneStaysUndone(Do(s, steps[0]), steps[1..], r);
    }
  }

  /** Steps that do not close the frame holding a request leave it there. */
  lemma FrameKept(s: Runtime, step: Step, t: Thread, level: nat, r: Request)
    requires Inv(s) && Enabled(s, step)
    requires level < |Frames(s, t)| && r in Frames(s, t)[level]
    requires !(step.End? && step.t == t)
    ensures var u := Do(s, step); level < |Frames(u, t)| && r in Frames(u, t)[level]
    ensures |Frames(Do(s, step), t)| == |Frames(s, t)| + (if step.Begin? && step.t == t then 1 else 0)
  {
    if step.Release? && s.busy > 0 {
      var u := s.(busy := s.busy - 1, pinned := s.pinned - {step.t}, frames := s.frames - {step.t});
      ApplyFacts(u, step.outcomes);
    }
  }

  lemma EndMoves(s: Runtime, t: Thread, succeeded: bool, level: nat, r: Request)
    requires level < |Frames(s, t)| && r in Frames(s, t)[level]
    ensures var u := Do(s, End(t, succeeded)); var top := |Frames(s, t)| - 1;
      && |Frames(u, t)| == top
      && (level < top ==> r in Frames(u, t)[level])
      && (level == top && !succeeded ==> r in u.rolledBack)
      && (level == top && succeeded && top > 0 ==> r in Frames(u, t)[top - 1])
      && (level == top && succeeded && top == 0 ==> r in u.pending)
  {
    var requests := Frames(s, t)[|Frames(s, t)| - 1];
    CountReverse(requests, r);
    CountIn(requests, r);
    CountIn(Reverse(requests), r);
  }

  /** A request reaches the pending queue exactly when every operation enclosing it succeeds; if one
      fails it is rolled back, and until one of the two it waits in the frame it was handed to. */
  lemma {:induction false} QueueMeansAllSucceeded(s: Runtime, steps: seq<Step>, t: Thread, level: nat, r: Request)
    requires Inv(s) && Legal(s, steps)
    requires level < |Frames(s, t)| && r in Frames(s, t)[level]
    ensures var fate := Follow(t, level, |Frames(s, t)|, steps);
      && (ReachesQueue(s, steps, r) <==> fate.Handed?)
      && (fate.Undone? ==> r in Run(s, steps).rolledBack)
      && (fate.Waiting? ==> fate.level < |Frames(Run(s, steps), t)| && r in Frames(Run(s, steps), t)[fate.level])
    decreases |steps|
  {
    HeldIsNotQueued(s, t, level, r);
    if steps != [] {
      var step, rest := steps[0], steps[1..];
      var u := Do(s, step);
      StepKeepsInv(s, step);
      if step.End? && step.t == t {
        EndMoves(s, t, step.succeeded, level, r);
        var top := |Frames(s, t)| - 1;
        if level < top {
          QueueMeansAllSucceeded(u, rest, t, level, r);
        } else if !step.succeeded {
          UndoneStaysUndone(u, rest, r);
        } else if level > 0 {
          QueueMeansAllSucceeded(u, rest, t, level - 1, r);
        }
      } else {
        FrameKept(s, step, t, level, r);
        QueueMeansAllSucceeded(u, rest, t, level, r);
      }
    }
  }
}
