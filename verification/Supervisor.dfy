// The supervisor's recovery manifest: update results that may be delivered, results claimed by a
// provider call, and the saved state, with writes that fail, are cancelled or are cut off by a crash.
// Steps are the sections between two awaits; a write freezes its manifest before it can yield.

module Supervision {
  import opened Basics

  type Id = nat                               // update request
  type Token = nat
  type Outcome(==) = string                   // the facts of one finished update
  type Text = string
  type Chat = string
  type View = map<string, Text>

  const STATE := "state"

  datatype SavedState = SavedState(pendingInput: Text, store: Text, views: map<Chat, View>)

  /** The dequeue intent of one task. */
  datatype Intent = Intent(id: Token, store: Text, chat: Chat, view: View)

  datatype Manifest = Manifest(state: Option<SavedState>, updates: map<Id, Outcome>, claimed: map<Id, Outcome>)

  /** Who holds the persistence lock, with the manifest it is writing. */
  datatype Writer =
    | Idle
    | Recording(frozen: Manifest)
    | Claiming(frozen: Manifest, token: Token, id: Id)
    | Finishing(frozen: Manifest, id: Id, outcome: Outcome)
    | Dispatching(frozen: Manifest, intent: Intent, before: Option<SavedState>)

  datatype Ack = Ack(token: Token, id: Id, accepted: bool)

  datatype System = System(
    memory: Manifest,
    disk: Manifest,
    writer: Writer,
    issued: map<Id, Outcome>,                 // every result ever made
    finished: set<Id>,
    lost: set<Id>,                            // made, and forgotten by a crash
    acks: seq<Ack>,
    dispatched: seq<Token>,                   // acknowledged dispatches
    asked: map<Token, Id>,                    // claims the core sent
    waiting: set<Token>,
    started: set<Id>)                         // results whose provider call began

  const NOTHING := Manifest(None, map[], map[])
  const START := System(NOTHING, NOTHING, Idle, map[], {}, {}, [], [], map[], {}, {})

  datatype Written = Saved | Refused | Interrupted

  datatype Step =
    | Make(id: Id, outcome: Outcome)          // `_update_result` before its record
    | Capture(state: Option<SavedState>)           // a handoff or checkpoint of the core
    | Record
    | Claim(token: Token, id: Id)
    | Finish(id: Id)
    | Dispatch(intent: Intent)
    | Write(written: Written)                 // the end of the write under way
    | Crash(replaced: bool)                   // and a restart from the manifest on disk
    // the core
    | Ask(token: Token, id: Id)
    | Begin(token: Token)
    | GiveUp(token: Token)

  /** What recording a dequeue changes in the saved state. */
  function Dequeued(state: Option<SavedState>, intent: Intent): Option<SavedState> {
    match state
    case None => None
    case Some(s) =>
      Some(SavedState("", intent.store,
                 if intent.chat in s.views
                 then s.views[intent.chat := s.views[intent.chat] + (intent.view - {STATE})]
                 else s.views))
  }

  predicate Enabled(s: System, step: Step) {
    match step
    case Make(id, _) => id !in s.issued
    case Capture(_) => true
    case Record => s.writer.Idle?
    case Claim(token, id) => s.writer.Idle? && token in s.asked && s.asked[token] == id
    case Finish(_) => s.writer.Idle?
    case Dispatch(_) => s.writer.Idle?
    case Write(_) => !s.writer.Idle?
    case Crash(replaced) => replaced ==> !s.writer.Idle?
    case Ask(token, _) => token !in s.asked
    case Begin(token) => token in s.waiting && token in s.asked && Ack(token, s.asked[token], true) in s.acks
    case GiveUp(_) => true
  }

  function Freeze(m: Manifest): Manifest {
    m
  }

  function StartClaim(s: System, token: Token, id: Id): System {
    var m := s.memory;
    if id !in m.updates then s.(acks := s.acks + [Ack(token, id, id in m.claimed)])
    else
      var moved := m.(updates := m.updates - {id}, claimed := m.claimed[id := m.updates[id]]);
      s.(memory := moved, writer := Claiming(Freeze(moved), token, id))
  }

  function StartFinish(s: System, id: Id): System {
    var m := s.memory;
    if id !in m.claimed then s
    else
      var moved := m.(claimed := m.claimed - {id});
      s.(memory := moved, writer := Finishing(Freeze(moved), id, m.claimed[id]))
  }

  function StartDispatch(s: System, intent: Intent): System {
    var m := s.memory.(state := Dequeued(s.memory.state, intent));
    s.(memory := m, writer := Dispatching(Freeze(m), intent, s.memory.state))
  }

  /** The manifest was replaced. */
  function Succeed(s: System): System
    requires !s.writer.Idle?
  {
    var u := s.(disk := s.writer.frozen, writer := Idle);
    match s.writer
    case Claiming(_, token, id) => u.(acks := s.acks + [Ack(token, id, true)])
    case Finishing(_, id, _) => u.(finished := s.finished + {id})
    case Dispatching(_, intent, _) => u.(dispatched := s.dispatched + [intent.id])
    case _ => u
  }

  /** It was not; only a refusal answers the core. */
  function Fail(s: System, answered: bool): System {
    var m := s.memory;
    match s.writer
    case Claiming(_, token, id) =>
      var back := if id in m.claimed
                  then m.(claimed := m.claimed - {id}, updates := m.updates[id := m.claimed[id]])
                  else m;
      s.(memory := back, writer := Idle, acks := if answered then s.acks + [Ack(token, id, false)] else s.acks)
    case Finishing(_, id, outcome) => s.(memory := m.(claimed := m.claimed[id := outcome]), writer := Idle)
    case _ => s.(writer := Idle)
  }

  /** What a manifest, or what is in memory, still knows of. */
  function Known(m: Manifest): set<Id> {
    m.updates.Keys + m.claimed.Keys
  }

  function InHand(w: Writer): set<Id> {
    if w.Finishing? then {w.id} else {}
  }

  function Restart(s: System): System {
    var forgotten := (Known(s.memory) + InHand(s.writer)) - Known(s.disk) - s.finished;
    s.(memory := s.disk, writer := Idle, lost := s.lost + forgotten, waiting := {})
  }

  /** A crash that follows the replacement: the manifest is new, nobody was told. */
  function Replaced(s: System): System
    requires !s.writer.Idle?
  {
    s.(disk := s.writer.frozen, finished := s.finished + InHand(s.writer))
  }

  function Do(s: System, step: Step): System
    requires Enabled(s, step)
  {
    match step
    case Make(id, outcome) =>
      s.(memory := s.memory.(updates := s.memory.updates[id := outcome]), issued := s.issued[id := outcome])
    case Capture(state) => s.(memory := s.memory.(state := state))
    case Record => s.(writer := Recording(Freeze(s.memory)))
    case Claim(token, id) => StartClaim(s, token, id)
    case Finish(id) => StartFinish(s, id)
    case Dispatch(intent) => StartDispatch(s, intent)
    case Write(written) => if written.Saved? then Succeed(s) else Fail(s, written.Refused?)
    case Crash(replaced) => Restart(if replaced then Replaced(s) else s)
    case Ask(token, id) => s.(asked := s.asked[token := id], waiting := s.waiting + {token})
    case Begin(token) => s.(waiting := s.waiting - {token}, started := s.started + {s.asked[token]})
    case GiveUp(token) => s.(waiting := s.waiting - {token})
  }

  // ---------------------------------------------------------------- invariant

  predicate Agrees(some: map<Id, Outcome>, all: map<Id, Outcome>) {
    forall id :: id in some ==> id in all && some[id] == all[id]
  }

  /** A manifest lists each result on one side at most, with the facts it was made with. */
  predicate Proper(m: Manifest, issued: map<Id, Outcome>) {
    m.updates.Keys !! m.claimed.Keys && Agrees(m.updates, issued) && Agrees(m.claimed, issued)
  }

  /** The manifest in memory against the one on disk, by what the lock holder is doing. */
  predicate InStep(s: System) {
    var m, d := s.memory, s.disk;
    match s.writer
    case Idle => d.claimed == m.claimed && d.updates.Keys <= m.updates.Keys
    case Claiming(f, _, id) =>
      && id in m.claimed && f.claimed == m.claimed && d.claimed == m.claimed - {id}
      && f.updates.Keys <= m.updates.Keys && d.updates.Keys <= f.updates.Keys + {id}
    case Finishing(f, id, outcome) =>
      && id !in m.claimed && id !in m.updates && f.claimed == m.claimed && d.claimed == m.claimed[id := outcome]
      && f.updates.Keys <= m.updates.Keys && d.updates.Keys <= f.updates.Keys
    case _ =>
      && s.writer.frozen.claimed == m.claimed && d.claimed == m.claimed
      && s.writer.frozen.updates.Keys <= m.updates.Keys && d.updates.Keys <= s.writer.frozen.updates.Keys
  }

  predicate WriterFits(s: System) {
    match s.writer
    case Idle => true
    case Finishing(f, id, outcome) => Proper(f, s.issued) && id in s.issued && s.issued[id] == outcome
    case Dispatching(f, intent, before) => Proper(f, s.issued) && f.state == Dequeued(before, intent)
    case _ => Proper(s.writer.frozen, s.issued)
  }

  /** Each result ever made is deliverable, claimed, being finished, finished or lost: exactly one. */
  predicate Partition(s: System) {
    && s.issued.Keys == Known(s.memory) + InHand(s.writer) + s.finished + s.lost
    && InHand(s.writer) !! Known(s.memory)
    && s.finished !! (Known(s.memory) + InHand(s.writer))
    && s.lost !! (Known(s.memory) + InHand(s.writer) + s.finished)
  }

  predicate AcksHold(s: System) {
    forall a :: a in s.acks && a.accepted ==> Spent(s, a.id)
  }

  /** A result that is claimed for good: nothing can make it deliverable again. */
  predicate Spent(s: System, id: Id) {
    && id in s.issued
    && id !in s.memory.updates && id !in s.disk.updates
    && !(s.writer.Claiming? && s.writer.id == id)
    && (s.writer.Idle? || id !in s.writer.frozen.updates)
  }

  predicate Inv(s: System) {
    && Proper(s.memory, s.issued) && Proper(s.disk, s.issued)
    && InStep(s) && WriterFits(s) && Partition(s) && AcksHold(s)
    && forall id :: id in s.started ==> Spent(s, id)
  }

  lemma StepKeepsSpent(s: System, step: Step, id: Id)
    requires InStep(s) && Enabled(s, step) && Spent(s, id)
    ensures Spent(Do(s, step), id)
  {
  }

  lemma StartKeepsInv(s: System, step: Step)
    requires Inv(s) && Enabled(s, step)
    requires step.Record? || step.Claim? || step.Finish? || step.Dispatch?
    ensures Inv(Do(s, step))
  {
    if step.Claim? {
      ClaimKeepsInv(s, step.token, step.id);
    } else if step.Finish? {
      FinishKeepsInv(s, step.id);
    }
  }

  lemma ClaimKeepsInv(s: System, token: Token, id: Id)
    requires Inv(s) && s.writer.Idle?
    ensures Inv(StartClaim(s, token, id))
  {
  }

  lemma FinishKeepsInv(s: System, id: Id)
    requires Inv(s) && s.writer.Idle?
    ensures Inv(StartFinish(s, id))
  {
  }

  lemma SucceedKeepsInv(s: System)
    requires Inv(s) && Enabled(s, Write(Saved))
    ensures Inv(Succeed(s))
  {
  }

  lemma FailKeepsInv(s: System, answered: bool)
    requires Inv(s) && !s.writer.Idle?
    ensures Inv(Fail(s, answered))
  {
    if s.writer.Claiming? {
      FailedClaimKeepsInv(s, answered);
    } else if s.writer.Finishing? {
      FailedFinishKeepsInv(s, answered);
    }
  }

  lemma FailedClaimKeepsInv(s: System, answered: bool)
    requires Inv(s) && s.writer.Claiming?
    ensures Inv(Fail(s, answered))
  {
  }

  lemma FailedFinishKeepsInv(s: System, answered: bool)
    requires Inv(s) && s.writer.Finishing?
    ensures Inv(Fail(s, answered))
  {
  }

  lemma RestartKeepsInv(s: System)
    requires Inv(s)
    ensures Inv(Restart(s))
  {
  }

  lemma ReplacedRestartKeepsInv(s: System)
    requires Inv(s) && !s.writer.Idle?
    ensures Inv(Restart(Replaced(s)))
  {
  }

  lemma MakeKeepsInv(s: System, id: Id, outcome: Outcome)
    requires Inv(s) && Enabled(s, Make(id, outcome))
    ensures Inv(Do(s, Make(id, outcome)))
  {
  }

  lemma OtherKeepsInv(s: System, step: Step)
    requires Inv(s) && Enabled(s, step)
    requires step.Capture? || step.Ask? || step.Begin? || step.GiveUp?
    ensures Inv(Do(s, step))
  {
  }

  lemma StepKeepsInv(s: System, step: Step)
    requires Inv(s) && Enabled(s, step)
    ensures Inv(Do(s, step))
  {
    match step {
      case Write(written) =>
        if written.Saved? { SucceedKeepsInv(s); } else { FailKeepsInv(s, written.Refused?); }
      case Crash(replaced) =>
        if replaced { ReplacedRestartKeepsInv(s); } else { RestartKeepsInv(s); }
      case Make(id, outcome) => MakeKeepsInv(s, id, outcome);
      case Record => StartKeepsInv(s, step);
      case Claim(_, _) => StartKeepsInv(s, step);
      case Finish(_) => StartKeepsInv(s, step);
      case Dispatch(_) => StartKeepsInv(s, step);
      case _ => OtherKeepsInv(s, step);
    }
  }

  // ---------------------------------------------------------------- runs

  predicate Legal(s: System, steps: seq<Step>)
    decreases |steps|
  {
    steps != [] ==> Enabled(s, steps[0]) && Legal(Do(s, steps[0]), steps[1..])
  }

  function Run(s: System, steps: seq<Step>): System
    requires Legal(s, steps)
    decreases |steps|
  {
    if steps == [] then s else Run(Do(s, steps[0]), steps[1..])
  }

  lemma {:induction false} RunKeepsInv(s: System, steps: seq<Step>)
    requires Inv(s) && Legal(s, steps)
    ensures Inv(Run(s, steps))
    decreases |steps|
  {
    if steps != [] {
      StepKeepsInv(s, steps[0]);
      RunKeepsInv(Do(s, steps[0]), steps[1..]);
    }
  }

  /** What `_resume` sends: every result still listed as deliverable. */
  function Resent(s: System): set<Id> {
    s.memory.updates.Keys
  }

  /** Neither a resume nor a restart at any point of the run would send this result. */
  predicate NeverResent(s: System, steps: seq<Step>, id: Id)
    requires Legal(s, steps)
    decreases |steps|
  {
    && id !in Resent(s) && id !in Resent(Restart(s))
    && (steps != [] ==> NeverResent(Do(s, steps[0]), steps[1..], id))
  }

  lemma {:induction false} SpentIsNeverResent(s: System, steps: seq<Step>, id: Id)
    requires Inv(s) && Legal(s, steps) && Spent(s, id)
    ensures NeverResent(s, steps, id)
    decreases |steps|
  {
    if steps != [] {
      StepKeepsInv(s, steps[0]);
      StepKeepsSpent(s, steps[0], id);
      SpentIsNeverResent(Do(s, steps[0]), steps[1..], id);
    }
  }

  /** Once a claim was acknowledged as accepted, or its provider call began, no resume and no restart
      ever sends that result again, through any failures and crashes. */
  lemma ClaimSurvives(before: seq<Step>, after: seq<Step>, id: Id)
    requires Legal(START, before) && Legal(Run(START, before), after)
    requires var s := Run(START, before);
      id in s.started || exists a :: a in s.acks && a.accepted && a.id == id
    ensures NeverResent(Run(START, before), after, id)
  {
    RunKeepsInv(START, before);
    SpentIsNeverResent(Run(START, before), after, id);
  }

  /** In every run each result is in exactly one place, and memory lists it with its original facts. */
  lemma EveryResultIsSomewhere(steps: seq<Step>)
    requires Legal(START, steps)
    ensures var s := Run(START, steps);
      Partition(s) && Proper(s.memory, s.issued) && Proper(s.disk, s.issued)
  {
    RunKeepsInv(START, steps);
  }

  // ---------------------------------------------------------------- what is durable

  /** Results of which the disk has a record. */
  function Durable(s: System): set<Id> {
    Known(s.disk) + s.finished
  }

  lemma DurableStays(s: System, step: Step)
    requires Inv(s) && Enabled(s, step)
    ensures Durable(s) <= Durable(Do(s, step))
  {
    forall id | id in Durable(s) ensures id in Durable(Do(s, step)) {
      RecordedStays(s, step, id);
    }
  }

  lemma RecordedStays(s: System, step: Step, id: Id)
    requires InStep(s) && Enabled(s, step) && id in Durable(s)
    ensures id in Durable(Do(s, step))
  {
  }

  /** A result that was ever in a manifest is never lost; it leaves only by being finished. */
  lemma {:induction false} RecordedIsNeverLost(s: System, steps: seq<Step>, id: Id)
    requires Inv(s) && Legal(s, steps) && id in Durable(s)
    ensures id in Durable(Run(s, steps)) && id !in Run(s, steps).lost
    decreases |steps|
  {
    if steps != [] {
      StepKeepsInv(s, steps[0]);
      DurableStays(s, steps[0]);
      RecordedIsNeverLost(Do(s, steps[0]), steps[1..], id);
    }
  }

  /** Every answer to a claim says exactly whether the claim is durable. */
  lemma AnswersAreTrue(s: System, step: Step)
    requires Inv(s) && Enabled(s, step) && |Do(s, step).acks| > |s.acks|
    ensures var u := Do(s, step);
      && |u.acks| == |s.acks| + 1
      && var a := u.acks[|s.acks|]; a.accepted <==> a.id in u.disk.claimed
  {
  }

  /** A refused or cancelled claim leaves memory as it was, results made meanwhile included. */
  lemma RefusedClaimIsUndone(s: System, token: Token, id: Id, answered: bool)
    requires Inv(s) && Enabled(s, Claim(token, id)) && id in s.memory.updates
    ensures Fail(StartClaim(s, token, id), answered).memory == s.memory
  {
    var u := StartClaim(s, token, id);
    var v := Fail(u, answered);
    assert v.memory.updates == s.memory.updates;
    assert v.memory.claimed == s.memory.claimed;
  }

  /** Finishing that could not be saved leaves memory as it was too. */
  lemma RefusedFinishIsUndone(s: System, id: Id, answered: bool)
    requires Inv(s) && s.writer.Idle? && id in s.memory.claimed
    ensures Fail(StartFinish(s, id), answered).memory == s.memory
  {
    assert (s.memory.claimed - {id})[id := s.memory.claimed[id]] == s.memory.claimed;
  }

  // ---------------------------------------------------------------- dispatches

  /** A dispatch is acknowledged only by the step that makes its dequeue durable. */
  lemma DispatchIsDurable(s: System, step: Step)
    requires Inv(s) && Enabled(s, step) && Do(s, step).dispatched != s.dispatched
    ensures s.writer.Dispatching? && step == Write(Saved)
    ensures Do(s, step).dispatched == s.dispatched + [s.writer.intent.id]
    ensures Do(s, step).disk.state == Dequeued(s.writer.before, s.writer.intent)
  {
  }

  /** What a recorded dequeue changes: the input is emptied, the store replaced, and of the views only the
      dispatching chat's, which takes every field of the new view but its state. */
  lemma DequeuedExactly(s: SavedState, intent: Intent, chat: Chat, field: string)
    ensures var u := Dequeued(Some(s), intent).value;
      && u.pendingInput == "" && u.store == intent.store && u.views.Keys == s.views.Keys
      && (chat in s.views && chat != intent.chat ==> u.views[chat] == s.views[chat])
      && (intent.chat in s.views ==>
            var was, now := s.views[intent.chat], u.views[intent.chat];
            && (field in now <==> field in was || (field in intent.view && field != STATE))
            && (field in intent.view && field != STATE ==> now[field] == intent.view[field])
            && (field in was && (field !in intent.view || field == STATE) ==> now[field] == was[field]))
  {
  }

  /** The input box that a dispatch emptied is empty in memory, in the write under way and on disk. */
  predicate Emptied(s: System) {
    && NoInput(s.memory) && NoInput(s.disk)
    && (!s.writer.Idle? ==> NoInput(s.writer.frozen))
  }

  predicate NoInput(m: Manifest) {
    m.state.Some? ==> m.state.value.pendingInput == ""
  }

  /** After an acknowledged dispatch no manifest and no restart offers the dispatched input again,
      until the core itself reports a state with new input. */
  lemma {:induction false} DispatchedInputStaysGone(s: System, steps: seq<Step>)
    requires Legal(s, steps) && Emptied(s) && forall i :: 0 <= i < |steps| ==> !steps[i].Capture?
    ensures Emptied(Run(s, steps))
    decreases |steps|
  {
    if steps != [] {
      DispatchedInputStaysGone(Do(s, steps[0]), steps[1..]);
    }
  }

  /** The acknowledgement itself establishes that, when the core reported nothing during the write. */
  lemma AckEmpties(s: System, intent: Intent)
    requires s.writer.Idle? && s.memory.state.Some?
    ensures var u := Succeed(StartDispatch(s, intent));
      Emptied(u) && u.dispatched == s.dispatched + [intent.id] && u.disk.state.Some? && u.disk.state.value.store == intent.store
  {
  }

  /** A dispatch that could not be saved is not acknowledged, yet the next save records its dequeue. */
  lemma RefusedDispatchStillDequeues(s: System, intent: Intent)
    requires s.writer.Idle?
    ensures var refused := Fail(StartDispatch(s, intent), true); var later := Succeed(refused.(writer := Recording(Freeze(refused.memory))));
      later.dispatched == s.dispatched && later.disk.state == Dequeued(s.memory.state, intent)
  {
  }
}
