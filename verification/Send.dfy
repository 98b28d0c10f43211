// One prompt: a counted loop of model calls inside a turn, and the shape of what it adds to history.

module Sending {
  import opened Basics
  import opened Journal
  import opened Sessions

  const CORE_REVIEW_STEPS := 20

  /** The assistant message that ends a turn, and what `send` returns. */
  datatype Ending = Ending(text: string, message: string)

  /** What one model call comes to. */
  datatype Reply =
    | Unusable(text: string, result: string)                       // not an action, or not a valid one
    | Completes(end: Ending)
    | Acts(text: string, result: string, finishes: Option<Ending>) // a tool result, perhaps ending the turn
    | CutOff                                                       // the call or the action raised

  /** A reply after which the model is called again. */
  predicate GoesOn(r: Reply) {
    r.Unusable? || (r.Acts? && r.finishes.None?)
  }

  /** How a reply ends the turn. */
  function EndOf(r: Reply): Option<Ending> {
    match r
    case Completes(end) => Some(end)
    case Acts(_, _, finishes) => finishes
    case _ => None
  }

  /** What replies leave in history before the message that ends the turn. */
  function Talk(id: nat, replies: seq<Reply>): seq<Message> {
    if replies == [] then []
    else
      var last := replies[|replies| - 1];
      Talk(id, replies[..|replies| - 1]) + Round(id, last)
  }

  function Round(id: nat, r: Reply): seq<Message> {
    if r.Unusable? || r.Acts? then [Of(id, Assistant, r.text), Of(id, HostResult, r.result)] else []
  }

  // ---------------------------------------------------------------- the shape of one exchange

  function Of(id: nat, kind: Kind, content: string): Message {
    Message(kind, content, id)
  }

  /** (assistant host_result)* assistant, all under one prompt number. */
  predicate Answer(ms: seq<Message>, id: nat)
    decreases |ms|
  {
    && ms != [] && ms[0].kind.Assistant? && ms[0].promptId == id
    && (|ms| > 1 ==> ms[1].kind.HostResult? && ms[1].promptId == id && Answer(ms[2..], id))
  }

  /** (assistant host_result)* */
  predicate Rounds(ms: seq<Message>, id: nat)
    decreases |ms|
  {
    ms != [] ==>
      && ms[0].kind.Assistant? && ms[0].promptId == id && |ms| > 1
      && ms[1].kind.HostResult? && ms[1].promptId == id && Rounds(ms[2..], id)
  }

  predicate Exchange(ms: seq<Message>) {
    |ms| > 1 && ms[0].kind.Prompt? && Answer(ms[1..], ms[0].promptId)
  }

  lemma {:induction false} OneMoreRound(ms: seq<Message>, id: nat, text: string, result: string)
    requires Rounds(ms, id)
    ensures Rounds(ms + [Of(id, Assistant, text), Of(id, HostResult, result)], id)
    decreases |ms|
  {
    var more := ms + [Of(id, Assistant, text), Of(id, HostResult, result)];
    if ms == [] {
      assert more[2..] == [];
    } else {
      assert more[2..] == ms[2..] + [Of(id, Assistant, text), Of(id, HostResult, result)];
      OneMoreRound(ms[2..], id, text, result);
    }
  }

  lemma {:induction false} LastAnswer(ms: seq<Message>, id: nat, text: string)
    requires Rounds(ms, id)
    ensures Answer(ms + [Of(id, Assistant, text)], id)
    decreases |ms|
  {
    var more := ms + [Of(id, Assistant, text)];
    if ms != [] {
      assert more[2..] == ms[2..] + [Of(id, Assistant, text)];
      LastAnswer(ms[2..], id, text);
    }
  }

  lemma {:induction false} AnswerMessages(ms: seq<Message>, id: nat)
    requires Answer(ms, id)
    ensures forall i :: 0 <= i < |ms| ==> !ms[i].kind.Prompt? && ms[i].promptId == id
    decreases |ms|
  {
    if |ms| > 1 {
      AnswerMessages(ms[2..], id);
      forall i | 0 <= i < |ms| ensures !ms[i].kind.Prompt? && ms[i].promptId == id {
        if i >= 2 { assert ms[i] == ms[2..][i - 2]; }
      }
    }
  }

  // ---------------------------------------------------------------- whole histories

  /** Exchanges, each under a prompt number above all earlier ones. */
  predicate Turns(turns: seq<seq<Message>>) {
    turns == [] ||
    (Turns(turns[..|turns| - 1]) && Exchange(turns[|turns| - 1])
     && AllBelow(Flatten(turns[..|turns| - 1]), turns[|turns| - 1][0].promptId))
  }

  predicate AllBelow(h: seq<Message>, id: nat) {
    forall i :: 0 <= i < |h| ==> h[i].promptId < id
  }

  lemma {:induction false} NextPromptIsAbove(h: seq<Message>)
    ensures AllBelow(h, NextPrompt(h)) && NextPrompt(h) >= 1
    decreases |h|
  {
    if h != [] { NextPromptIsAbove(h[..|h| - 1]); }
  }

  lemma {:induction false} NextPromptIsLeast(h: seq<Message>, id: nat)
    requires AllBelow(h, id) && id >= 1
    ensures NextPrompt(h) <= id
    decreases |h|
  {
    if h != [] { NextPromptIsLeast(h[..|h| - 1], id); }
  }

  lemma OneMoreTurn(turns: seq<seq<Message>>, turn: seq<Message>)
    requires Turns(turns) && Exchange(turn) && AllBelow(Flatten(turns), turn[0].promptId)
    ensures Turns(turns + [turn]) && Flatten(turns + [turn]) == Flatten(turns) + turn
  {
    assert (turns + [turn])[..|turns|] == turns;
  }

  /** Where the last exchange begins: at the last prompt. */
  function LastPrompt(h: seq<Message>): nat {
    if h == [] || h[|h| - 1].kind.Prompt? then (if h == [] then 0 else |h| - 1) else LastPrompt(h[..|h| - 1])
  }

  lemma {:induction false} LastPromptBegins(front: seq<Message>, turn: seq<Message>)
    requires turn != [] && turn[0].kind.Prompt? && forall i :: 1 <= i < |turn| ==> !turn[i].kind.Prompt?
    ensures LastPrompt(front + turn) == |front|
    decreases |turn|
  {
    var h := front + turn;
    if |turn| > 1 {
      assert h[..|h| - 1] == front + turn[..|turn| - 1];
      LastPromptBegins(front, turn[..|turn| - 1]);
    }
  }

  /** A history determines its turns. */
  lemma {:induction false} TurnsAreRecoverable(a: seq<seq<Message>>, b: seq<seq<Message>>)
    requires Turns(a) && Turns(b) && Flatten(a) == Flatten(b)
    ensures a == b
    decreases |a|
  {
    if a == [] {
      if b != [] { NonEmpty(b); }
    } else {
      NonEmpty(a);
      if b != [] {
        var x, y := a[|a| - 1], b[|b| - 1];
        var frontA, frontB := Flatten(a[..|a| - 1]), Flatten(b[..|b| - 1]);
        AnswerMessages(x[1..], x[0].promptId);
        AnswerMessages(y[1..], y[0].promptId);
        assert forall i :: 1 <= i < |x| ==> x[i] == x[1..][i - 1];
        assert forall i :: 1 <= i < |y| ==> y[i] == y[1..][i - 1];
        LastPromptBegins(frontA, x);
        LastPromptBegins(frontB, y);
        assert frontA == Flatten(a)[..|frontA|] && frontB == Flatten(b)[..|frontA|];
        assert x == Flatten(a)[|frontA|..] && y == Flatten(b)[|frontA|..];
        TurnsAreRecoverable(a[..|a| - 1], b[..|b| - 1]);
        assert a == a[..|a| - 1] + [x] && b == b[..|b| - 1] + [y];
      }
    }
  }

  lemma NonEmpty(turns: seq<seq<Message>>)
    requires turns != [] && Turns(turns)
    ensures Flatten(turns) != []
  {
    assert Exchange(turns[|turns| - 1]);
  }

  // ---------------------------------------------------------------- send

  function Limit(review: bool, maxSteps: Option<nat>): Option<nat> {
    if !review then maxSteps
    else Some(if maxSteps.Some? && maxSteps.value < CORE_REVIEW_STEPS then maxSteps.value else CORE_REVIEW_STEPS)
  }

  /** The end of a prompt whose loop ended: refused before the commit returned, committed and then cut
      off by a result report or an event callback that raised, or finished. */
  datatype Finish = Refused | Interrupted | Finished

  class Conversation {
    var history: seq<Message>
    var nextPrompt: nat
    ghost var turns: seq<seq<Message>>

    ghost predicate Valid()
      reads this
    {
      Turns(turns) && Flatten(turns) == history && AllBelow(history, nextPrompt)
    }

    /** A conversation as `_restore_snapshot` leaves it: the counter is the least that is above all numbers. */
    constructor (restored: seq<Message>, ghost of: seq<seq<Message>>)
      requires Turns(of) && Flatten(of) == restored
      ensures Valid() && history == restored && turns == of
      ensures nextPrompt >= 1 && forall id :: id >= 1 && AllBelow(history, id) ==> nextPrompt <= id
    {
      history, turns := restored, of;
      nextPrompt := NextPrompt(restored);
      NextPromptIsAbove(restored);
      forall id | id >= 1 && AllBelow(restored, id) ensures NextPrompt(restored) <= id {
        NextPromptIsLeast(restored, id);
      }
    }

    /** `send`. What the model and the tools answer, whether the turn starts, how it finishes, whether the
        prompt is a review and how one that reached its limit is completed, decide the outcome.
        `committed` says whether the commit had returned. */
    method Send(prompt: string, review: bool, atLimit: Option<Ending>, maxSteps: Option<nat>,
                replies: seq<Reply>, starts: bool, finish: Finish)
      returns (message: Option<string>, calls: nat, ghost committed: bool)
      requires Valid() && (maxSteps.Some? ==> maxSteps.value >= 1)
      modifies this
      ensures Valid() && calls <= |replies|
      ensures nextPrompt == if starts then old(nextPrompt) + 1 else old(nextPrompt)
      ensures Limit(review, maxSteps).Some? ==> calls <= Limit(review, maxSteps).value
      ensures committed ==> starts && !finish.Refused?
      ensures committed ==> Ended(old(turns), old(nextPrompt), prompt, replies[..calls], Limit(review, maxSteps),
                                  Completion(review, atLimit), turns, message, finish)
      ensures !committed ==> message.None? && history == old(history) && turns == old(turns)
      ensures !committed && starts && !finish.Refused? ==>
        Stops(replies, calls, Limit(review, maxSteps)) || Exhausted(replies[..calls], Completion(review, atLimit), Limit(review, maxSteps))
      ensures history == old(history) <==> !committed
    {
      var was := history;
      var id := nextPrompt;
      if !starts { return None, 0, false; }
      history := history + [Of(id, Prompt, prompt)];
      nextPrompt := nextPrompt + 1;
      var end, raised;
      end, raised, calls := Converse(id, Limit(review, maxSteps), Completion(review, atLimit), replies);
      if raised || end.None? || finish.Refused? {
        history := was;
        return None, calls, false;
      }
      history := history + [Of(id, Assistant, end.value.text)];
      TurnAdded(turns, was, id, prompt, replies[..calls], end.value);
      turns := turns + [TurnOf(id, prompt, replies[..calls], end.value)];
      committed := true;
      message := if finish.Finished? then Some(end.value.message) else None;
    }

    /** The loop of `send`: model calls until one ends the turn, the limit is reached, which a review
        completes, or something raises. */
    method Converse(id: nat, limit: Option<nat>, review: Option<Ending>, replies: seq<Reply>)
      returns (end: Option<Ending>, raised: bool, calls: nat)
      modifies this`history
      ensures calls <= |replies| && (limit.Some? ==> calls <= limit.value)
      ensures raised ==> Stops(replies, calls, limit)
      ensures !raised ==> history == old(history) + Talk(id, replies[..calls])
      ensures !raised && end.Some? ==> Ends(replies[..calls], limit, review, end.value)
      ensures !raised && end.None? ==> Exhausted(replies[..calls], review, limit)
    {
      end, raised, calls := None, false, 0;
      while limit.None? || calls < limit.value
        invariant end.None? && calls <= |replies| && (limit.Some? ==> calls <= limit.value)
        invariant history == old(history) + Talk(id, replies[..calls]) && GoOn(replies[..calls])
        decreases |replies| - calls
      {
        if calls == |replies| {
          assert replies[..calls] == replies;
          raised := true;
          return;
        }
        var reply := replies[calls];
        NextReply(id, replies, calls);
        calls := calls + 1;
        LastDecides(replies, calls, limit, review);
        if reply.CutOff? {
          raised := true;
          return;
        }
        if reply.Completes? { return Some(reply.end), false, calls; }
        history := history + [Of(id, Assistant, reply.text)] + [Of(id, HostResult, reply.result)];
        if reply.Acts? && reply.finishes.Some? { return reply.finishes, false, calls; }
      }
      end := review;
    }
  }

  /** Only a review is completed at its limit. */
  function Completion(review: bool, atLimit: Option<Ending>): Option<Ending> {
    if review then atLimit else None
  }

  predicate GoOn(replies: seq<Reply>) {
    replies == [] || (GoOn(replies[..|replies| - 1]) && GoesOn(replies[|replies| - 1]))
  }

  /** The turn ended after these replies, by the last one or by a review at its limit. */
  predicate Ends(replies: seq<Reply>, limit: Option<nat>, review: Option<Ending>, end: Ending) {
    if replies != [] && EndOf(replies[|replies| - 1]).Some?
    then GoOn(replies[..|replies| - 1]) && EndOf(replies[|replies| - 1]) == Some(end)
    else GoOn(replies) && review == Some(end) && limit == Some(|replies|)
  }

  /** One more turn, made of exactly these replies, was added; its end gave the returned message. */
  ghost predicate Ended(before: seq<seq<Message>>, id: nat, prompt: string, replies: seq<Reply>, limit: Option<nat>,
                        review: Option<Ending>, after: seq<seq<Message>>, message: Option<string>, finish: Finish) {
    exists end ::
      && Ends(replies, limit, review, end) && message == (if finish.Finished? then Some(end.message) else None)
      && Exchange(TurnOf(id, prompt, replies, end)) && after == before + [TurnOf(id, prompt, replies, end)]
  }

  /** Every allowed call was made, none ended the turn, and no review completes it. */
  predicate Exhausted(replies: seq<Reply>, review: Option<Ending>, limit: Option<nat>) {
    review.None? && limit == Some(|replies|) && GoOn(replies)
  }

  /** Something raised: the call after these, which was allowed, or the last of them. */
  predicate Stops(replies: seq<Reply>, calls: nat, limit: Option<nat>) {
    || (calls == |replies| && limit != Some(calls) && GoOn(replies))
    || (0 < calls <= |replies| && replies[calls - 1].CutOff? && GoOn(replies[..calls - 1]))
  }

  /** A whole turn: the prompt, what the replies left, and the message that ended it. */
  function TurnOf(id: nat, prompt: string, replies: seq<Reply>, end: Ending): seq<Message> {
    [Of(id, Prompt, prompt)] + (Talk(id, replies) + [Of(id, Assistant, end.text)])
  }

  /** What the last of some replies decides when all before it went on. */
  lemma LastDecides(replies: seq<Reply>, n: nat, limit: Option<nat>, review: Option<Ending>)
    requires 0 < n <= |replies| && GoOn(replies[..n - 1])
    ensures replies[n - 1].CutOff? ==> Stops(replies, n, limit)
    ensures EndOf(replies[n - 1]).Some? ==> Ends(replies[..n], limit, review, EndOf(replies[n - 1]).value)
  {
    assert replies[..n][..n - 1] == replies[..n - 1] && replies[..n][n - 1] == replies[n - 1];
  }

  lemma NextReply(id: nat, replies: seq<Reply>, n: nat)
    requires n < |replies|
    ensures Talk(id, replies[..n + 1]) == Talk(id, replies[..n]) + Round(id, replies[n])
    ensures GoOn(replies[..n + 1]) <==> GoOn(replies[..n]) && GoesOn(replies[n])
    ensures replies[..n + 1][..n] == replies[..n]
  {
    assert replies[..n + 1][..n] == replies[..n];
  }

  lemma {:induction false} TalkIsRounds(id: nat, replies: seq<Reply>)
    ensures Rounds(Talk(id, replies), id) && |Talk(id, replies)| <= 2 * |replies|
    decreases |replies|
  {
    if replies != [] {
      var last := replies[|replies| - 1];
      var front := Talk(id, replies[..|replies| - 1]);
      TalkIsRounds(id, replies[..|replies| - 1]);
      if last.Unusable? || last.Acts? {
        OneMoreRound(front, id, last.text, last.result);
      } else {
        assert Talk(id, replies) == front;
      }
    }
  }

  /** Every turn has the shape prompt (assistant host_result)* assistant under its prompt number. */
  lemma TurnIsExchange(id: nat, prompt: string, replies: seq<Reply>, end: Ending)
    ensures Exchange(TurnOf(id, prompt, replies, end)) && |TurnOf(id, prompt, replies, end)| <= 2 * |replies| + 2
  {
    var turn := TurnOf(id, prompt, replies, end);
    TalkIsRounds(id, replies);
    LastAnswer(Talk(id, replies), id, end.text);
    assert turn[1..] == Talk(id, replies) + [Of(id, Assistant, end.text)];
  }

  lemma InOneLine(a: seq<Message>, b: seq<Message>, c: seq<Message>, d: seq<Message>)
    ensures a + (b + (c + d)) == a + b + c + d
  {
  }

  /** A turn under any number above all earlier ones continues a history of turns, and stays below the
      numbers above its own. */
  lemma TurnAdded(turns: seq<seq<Message>>, h: seq<Message>, id: nat, prompt: string, replies: seq<Reply>, end: Ending)
    requires Turns(turns) && Flatten(turns) == h && AllBelow(h, id)
    ensures Exchange(TurnOf(id, prompt, replies, end))
    ensures Turns(turns + [TurnOf(id, prompt, replies, end)])
    ensures Flatten(turns + [TurnOf(id, prompt, replies, end)])
      == h + [Of(id, Prompt, prompt)] + Talk(id, replies) + [Of(id, Assistant, end.text)]
    ensures AllBelow(h + [Of(id, Prompt, prompt)] + Talk(id, replies) + [Of(id, Assistant, end.text)], id + 1)
  {
    TurnIsExchange(id, prompt, replies, end);
    OneMoreTurn(turns, TurnOf(id, prompt, replies, end));
    BelowAfterTurn(h, TurnOf(id, prompt, replies, end), id);
    InOneLine(h, [Of(id, Prompt, prompt)], Talk(id, replies), [Of(id, Assistant, end.text)]);
  }

  lemma BelowAfterTurn(h: seq<Message>, turn: seq<Message>, id: nat)
    requires Exchange(turn) && turn[0].promptId == id && AllBelow(h, id)
    ensures AllBelow(h + turn, id + 1)
  {
    AnswerMessages(turn[1..], id);
    assert forall i :: 1 <= i < |turn| ==> turn[i] == turn[1..][i - 1];
  }

  // ---------------------------------------------------------------- what a turn says

  /** A reply that is answered by a host result and followed by another call. */
  predicate Answered(r: Reply) {
    r.Unusable? || (r.Acts? && r.finishes == None)
  }

  lemma {:induction false} GoOnExactly(replies: seq<Reply>)
    ensures GoOn(replies) <==> forall i :: 0 <= i < |replies| ==> Answered(replies[i])
    decreases |replies|
  {
    if replies != [] {
      var front := replies[..|replies| - 1];
      GoOnExactly(front);
      assert forall i :: 0 <= i < |front| ==> front[i] == replies[i];
    }
  }

  /** Replies end a turn exactly when only the last one completes it or finishes it by its action; or when none
      does, the limit is reached and a review completes it. */
  lemma EndsExactly(replies: seq<Reply>, limit: Option<nat>, review: Option<Ending>, end: Ending)
    ensures Ends(replies, limit, review, end) <==>
      && (forall i :: 0 <= i < |replies| - 1 ==> Answered(replies[i]))
      && if replies != [] && !Answered(replies[|replies| - 1])
         then replies[|replies| - 1] == Completes(end)
              || (replies[|replies| - 1].Acts? && replies[|replies| - 1].finishes == Some(end))
         else review == Some(end) && limit == Some(|replies|)
  {
    GoOnExactly(replies);
    if replies != [] {
      var front := replies[..|replies| - 1];
      GoOnExactly(front);
      assert forall i :: 0 <= i < |front| ==> front[i] == replies[i];
    }
  }

  /** A usable or refused action and its result: what the model said, then what the host answered. */
  predicate Said(r: Reply, id: nat, text: Message, result: Message) {
    (r.Unusable? || r.Acts?) && text == Message(Assistant, r.text, id) && result == Message(HostResult, r.result, id)
  }

  lemma {:induction false} TalkAt(id: nat, replies: seq<Reply>, i: nat)
    requires forall k :: 0 <= k < |replies| ==> replies[k].Unusable? || replies[k].Acts?
    ensures |Talk(id, replies)| == 2 * |replies|
    ensures i < |replies| ==> Said(replies[i], id, Talk(id, replies)[2 * i], Talk(id, replies)[2 * i + 1])
    decreases |replies|
  {
    if replies != [] {
      TalkAt(id, replies[..|replies| - 1], i);
    }
  }

  /** How many replies of an ended turn are answered by a host result: all but a last one that completes it. */
  function Results(replies: seq<Reply>): nat {
    if replies != [] && replies[|replies| - 1].Completes? then |replies| - 1 else |replies|
  }

  /** A turn's messages: the prompt, then in order each reply and its own result, then the text that ended it. */
  lemma TurnMessages(id: nat, prompt: string, replies: seq<Reply>, limit: Option<nat>, review: Option<Ending>, end: Ending, i: nat)
    requires Ends(replies, limit, review, end)
    ensures var turn := TurnOf(id, prompt, replies, end);
      && |turn| == 2 * Results(replies) + 2
      && turn[0] == Message(Prompt, prompt, id) && turn[|turn| - 1] == Message(Assistant, end.text, id)
      && (i < Results(replies) ==> Said(replies[i], id, turn[2 * i + 1], turn[2 * i + 2]))
  {
    EndsExactly(replies, limit, review, end);
    var n := Results(replies);
    TalkAt(id, replies[..n], i);
    if n < |replies| {
      assert replies[..|replies| - 1] == replies[..n];
      assert Talk(id, replies) == Talk(id, replies[..n]) + [];
    } else {
      assert replies[..n] == replies;
    }
    assert Talk(id, replies) == Talk(id, replies[..n]);
  }

  /** A number of calls is allowed when it is within the caller's limit and, for a review, within twenty. */
  lemma LimitExactly(review: bool, maxSteps: Option<nat>, calls: nat)
    ensures (Limit(review, maxSteps).None? || calls <= Limit(review, maxSteps).value) <==>
      (maxSteps.None? || calls <= maxSteps.value) && (review ==> calls <= 20)
  {
  }

  /** A turn that no reply ended is a review, completed after exactly as many calls as it is allowed. */
  lemma OnlyReviewsComplete(review: bool, atLimit: Option<Ending>, maxSteps: Option<nat>, replies: seq<Reply>, end: Ending)
    requires Ends(replies, Limit(review, maxSteps), Completion(review, atLimit), end)
    requires forall i :: 0 <= i < |replies| ==> Answered(replies[i])
    ensures review && atLimit == Some(end)
    ensures |replies| <= 20 && (maxSteps.Some? ==> |replies| <= maxSteps.value) && (|replies| == 20 || maxSteps == Some(|replies|))
  {
    EndsExactly(replies, Limit(review, maxSteps), Completion(review, atLimit), end);
  }

  /** Calls run out only at the limit, for a prompt that is no review or a review without a completion. */
  lemma OthersRunOut(review: bool, atLimit: Option<Ending>, maxSteps: Option<nat>, replies: seq<Reply>)
    ensures Exhausted(replies, Completion(review, atLimit), Limit(review, maxSteps)) <==>
      && (!review || atLimit == None)
      && (if review then |replies| <= 20 && (maxSteps.Some? ==> |replies| <= maxSteps.value) && (|replies| == 20 || maxSteps == Some(|replies|))
          else maxSteps == Some(|replies|))
      && forall i :: 0 <= i < |replies| ==> Answered(replies[i])
  {
    GoOnExactly(replies);
  }

  // ---------------------------------------------------------------- either side of the commit

  /** The turn of a prompt that the first reply ends. */
  function ShortTurn(id: nat, prompt: string, end: Ending): seq<Message> {
    [Of(id, Prompt, prompt), Of(id, Assistant, end.text)]
  }

  lemma OneReply(id: nat, before: seq<seq<Message>>, prompt: string, only: Ending, calls: nat, after: seq<seq<Message>>,
                 message: Option<string>, finish: Finish)
    requires calls <= 1
    ensures !Stops([Completes(only)], calls, Some(1)) && !Exhausted([Completes(only)][..calls], None, Some(1))
    ensures Ended(before, id, prompt, [Completes(only)][..calls], Some(1), None, after, message, finish) ==>
      after == before + [ShortTurn(id, prompt, only)]
  {
    var replies := [Completes(only)];
    if calls == 1 {
      assert replies[..1] == replies && replies[..0] == [];
      assert !GoOn(replies);
      assert Talk(id, replies) == [];
    }
    if Ended(before, id, prompt, replies[..calls], Some(1), None, after, message, finish) {
      var end :| Ends(replies[..calls], Some(1), None, end) && after == before + [TurnOf(id, prompt, replies[..calls], end)];
      assert calls == 1 && end == only;
      assert TurnOf(id, prompt, replies, end) == ShortTurn(id, prompt, only);
    }
  }

  lemma OnlyTurn(turn: seq<Message>)
    ensures Flatten([] + [turn]) == turn
  {
    assert [turn][..0] == [];
  }

  /** An event callback raises after the commit: `send` raises, yet the turn stays. */
  method RaisesAfterCommit(prompt: string, only: Ending) returns (c: Conversation, message: Option<string>)
    ensures message.None? && c.history == ShortTurn(1, prompt, only) && c.nextPrompt == 2
  {
    c := new Conversation([], []);
    assert AllBelow(c.history, 1);
    var calls;
    ghost var committed;
    message, calls, committed := c.Send(prompt, false, None, Some(1), [Completes(only)], true, Interrupted);
    OneReply(1, [], prompt, only, calls, c.turns, message, Interrupted);
    OnlyTurn(ShortTurn(1, prompt, only));
  }

  /** A commit that is refused leaves only the raised counter, which the next prompt is numbered by. */
  method RaisesBeforeCommit(prompt: string, only: Ending) returns (c: Conversation, message: Option<string>)
    ensures message == Some(only.message) && c.history == ShortTurn(2, prompt, only) && c.nextPrompt == 3
  {
    c := new Conversation([], []);
    assert AllBelow(c.history, 1);
    var calls;
    ghost var committed;
    message, calls, committed := c.Send(prompt, false, None, Some(1), [Completes(only)], true, Refused);
    assert c.history == [] && c.nextPrompt == 2;
    message, calls, committed := c.Send(prompt, false, None, Some(1), [Completes(only)], true, Finished);
    OneReply(2, [], prompt, only, calls, c.turns, message, Finished);
    OnlyTurn(ShortTurn(2, prompt, only));
  }
}
