// Reading a child process's output: newline-ended frames from chunks of any size, and the rule that
// only exactly one final frame yields a result.

module ChildFrames {
  import opened Basics
  import opened ByteStrings

  const NEWLINE: Bytes := [LF]

  datatype Frame =
    | Event(name: string, payload: string)
    | Snapshot(snapshot: string)
    | Final(message: string)
    | Error(message: string)

  datatype Failure = Invalid | Unexpected | DuplicateFinal | Provider(message: string) | TooLong

  /** How a child's records are read: the record parser and which callbacks exist. */
  datatype Reader = Reader(parse: Bytes -> Option<Frame>, events: bool, snapshots: bool)

  /** What has been received: the final message, and the frames given to callbacks. */
  datatype Received = Received(final: Option<string>, delivered: seq<Frame>)

  const NOTHING := Received(None, [])

  predicate Delivered(r: Reader, f: Frame) {
    (f.Event? && r.events) || (f.Snapshot? && r.snapshots)
  }

  function Consume(r: Reader, got: Received, raw: Bytes): Result<Received, Failure> {
    match r.parse(raw)
    case None => Err(Invalid)
    case Some(f) =>
      if Delivered(r, f) then Ok(got.(delivered := got.delivered + [f]))
      else if f.Final? then (if got.final.Some? then Err(DuplicateFinal) else Ok(got.(final := Some(f.message))))
      else if f.Error? then Err(Provider(f.message))
      else Err(Unexpected)
  }

  function ConsumeAll(r: Reader, got: Received, frames: seq<Bytes>): Result<Received, Failure>
    decreases |frames|
  {
    if frames == [] then Ok(got)
    else
      match Consume(r, got, frames[0])
      case Err(failure) => Err(failure)
      case Ok(more) => ConsumeAll(r, more, frames[1..])
  }

  /** The frames of a whole output: a last line without a newline counts, an empty one does not. */
  function FramesOf(all: Bytes): seq<Bytes> {
    var lines := Split(all, NEWLINE);
    if lines[|lines| - 1] == [] then lines[..|lines| - 1] else lines
  }

  function Read(r: Reader, all: Bytes): Result<Received, Failure> {
    ConsumeAll(r, NOTHING, FramesOf(all))
  }

  // ---------------------------------------------------------------- chunk boundaries do not matter

  lemma FindNewline(s: Bytes, i: nat)
    requires i < |s| && s[i] == LF && forall k :: 0 <= k < i ==> s[k] != LF
    ensures Find(s, NEWLINE, 0) == Some(i)
  {
    assert s[i..i + 1] == NEWLINE;
    assert At(s, i, NEWLINE);
    forall k | 0 <= k < i ensures !At(s, k, NEWLINE) {
      assert s[k..k + 1][0] == s[k];
    }
  }

  /** More bytes only extend the last line and add lines after it. */
  lemma {:induction false} SplitOn(a: Bytes, b: Bytes)
    ensures var lines := Split(a, NEWLINE); var last := |lines| - 1;
      Split(a + b, NEWLINE) == lines[..last] + Split(lines[last] + b, NEWLINE)
    decreases |a|
  {
    match Find(a, NEWLINE, 0) {
      case None =>
      case Some(i) =>
        assert a[i..i + 1] == NEWLINE;
        forall k | 0 <= k < i ensures (a + b)[k] != LF {
          assert !At(a, k, NEWLINE) && a[k..k + 1] == [a[k]];
        }
        FindNewline(a + b, i);
        assert (a + b)[..i] == a[..i] && (a + b)[i + 1..] == a[i + 1..] + b;
        SplitOn(a[i + 1..], b);
        var rest := Split(a[i + 1..], NEWLINE);
        assert ([a[..i]] + rest)[..|rest|] == [a[..i]] + rest[..|rest| - 1];
    }
  }

  lemma {:induction false} ConsumeConcat(r: Reader, got: Received, xs: seq<Bytes>, ys: seq<Bytes>)
    ensures ConsumeAll(r, got, xs + ys) ==
      match ConsumeAll(r, got, xs) case Err(failure) => Err(failure) case Ok(more) => ConsumeAll(r, more, ys)
    decreases |xs|
  {
    if xs == [] {
      assert xs + ys == ys;
    } else {
      assert (xs + ys)[1..] == xs[1..] + ys;
      match Consume(r, got, xs[0]) {
        case Err(_) =>
        case Ok(more) => ConsumeConcat(r, more, xs[1..], ys);
      }
    }
  }

  /** The complete lines of a prefix and its unfinished last line. */
  function Complete(all: Bytes): seq<Bytes> {
    var lines := Split(all, NEWLINE);
    lines[..|lines| - 1]
  }

  function Unfinished(all: Bytes): Bytes {
    var lines := Split(all, NEWLINE);
    lines[|lines| - 1]
  }

  /** The inner loop of `_consume_frames`: every complete line of the buffer. */
  method DrainBuffer(r: Reader, start: Received, buffer: Bytes) returns (got: Result<Received, Failure>, buffered: Bytes)
    ensures got == ConsumeAll(r, start, Complete(buffer))
    ensures got.Ok? ==> buffered == Unfinished(buffer)
  {
    var now := start;
    buffered := buffer;
    while true
      invariant ConsumeAll(r, start, Complete(buffer)) == ConsumeAll(r, now, Complete(buffered))
      invariant Unfinished(buffered) == Unfinished(buffer)
      decreases |buffered|
    {
      var newline := Find(buffered, NEWLINE, 0);
      if newline.None? { return Ok(now), buffered; }
      var frame := buffered[..newline.value];
      DrainStep(r, now, buffered, newline.value);
      buffered := buffered[newline.value + 1..];
      var next := Consume(r, now, frame);
      if next.Err? { return Err(next.error), buffered; }
      now := next.value;
    }
  }

  lemma DrainStep(r: Reader, now: Received, buffered: Bytes, i: nat)
    requires Find(buffered, NEWLINE, 0) == Some(i)
    ensures i < |buffered| && Unfinished(buffered[i + 1..]) == Unfinished(buffered)
    ensures ConsumeAll(r, now, Complete(buffered)) ==
      match Consume(r, now, buffered[..i])
      case Err(failure) => Err(failure)
      case Ok(more) => ConsumeAll(r, more, Complete(buffered[i + 1..]))
  {
    var rest := buffered[i + 1..];
    assert Complete(buffered) == [buffered[..i]] + Complete(rest);
    assert Complete(buffered)[1..] == Complete(rest);
  }

  /** `_consume_frames` over the nonempty chunks that reads return: below the size limit the outcome is
      a function of the concatenated bytes, and above it there is no outcome but failure. */
  method ConsumeFrames(r: Reader, chunks: seq<Bytes>, limit: nat) returns (got: Result<Received, Failure>)
    requires forall i :: 0 <= i < |chunks| ==> chunks[i] != []
    ensures |Flatten(chunks)| <= limit ==> got == Read(r, Flatten(chunks))
    ensures |Flatten(chunks)| > limit ==> got.Err?
  {
    var now, total := NOTHING, 0;
    var buffered: Bytes := [];
    ghost var all: Bytes := [];
    FlattenGrows(chunks, 0);
    for i := 0 to |chunks|
      invariant all == Flatten(chunks[..i]) && total == |all| && total <= limit
      invariant buffered == Unfinished(all) && ConsumeAll(r, NOTHING, Complete(all)) == Ok(now)
    {
      assert chunks[..i + 1][..i] == chunks[..i];
      FlattenGrows(chunks, i + 1);
      total := total + |chunks[i]|;
      if total > limit { return Err(TooLong); }
      ChunkStep(r, all, chunks[i], now);
      ghost var longer := all + chunks[i];
      var next;
      next, buffered := DrainBuffer(r, now, buffered + chunks[i]);
      if next.Err? {
        FailsEarly(r, longer, chunks, i + 1);
        return Err(next.error);
      }
      now := next.value;
      all := longer;
    }
    assert chunks[..|chunks|] == chunks;
    LastLine(r, all, now);
    if buffered == [] {
      got := Ok(now);
    } else {
      got := Consume(r, now, buffered);
    }
  }

  /** A chunk continues where the unfinished line of what came before left off. */
  lemma ChunkStep(r: Reader, all: Bytes, chunk: Bytes, now: Received)
    requires ConsumeAll(r, NOTHING, Complete(all)) == Ok(now)
    ensures Unfinished(all + chunk) == Unfinished(Unfinished(all) + chunk)
    ensures ConsumeAll(r, NOTHING, Complete(all + chunk)) == ConsumeAll(r, now, Complete(Unfinished(all) + chunk))
  {
    SplitOn(all, chunk);
    assert Complete(all + chunk) == Complete(all) + Complete(Unfinished(all) + chunk);
    ConsumeConcat(r, NOTHING, Complete(all), Complete(Unfinished(all) + chunk));
  }

  lemma LastLine(r: Reader, all: Bytes, now: Received)
    requires ConsumeAll(r, NOTHING, Complete(all)) == Ok(now)
    ensures Read(r, all) == if Unfinished(all) == [] then Ok(now) else Consume(r, now, Unfinished(all))
  {
    if Unfinished(all) != [] {
      ConsumeConcat(r, NOTHING, Complete(all), [Unfinished(all)]);
      assert FramesOf(all) == Complete(all) + [Unfinished(all)];
      ConsumeOne(r, now, Unfinished(all));
    }
  }

  lemma {:induction false} FlattenGrows(chunks: seq<Bytes>, n: nat)
    requires n <= |chunks|
    ensures |Flatten(chunks[..n])| <= |Flatten(chunks)| && Flatten(chunks[..n]) <= Flatten(chunks)
    decreases |chunks| - n
  {
    if n == |chunks| {
      assert chunks[..n] == chunks;
    } else {
      FlattenGrows(chunks, n + 1);
      assert chunks[..n + 1][..n] == chunks[..n];
    }
  }

  /** A failure in the complete lines of a prefix is the failure of the whole. */
  lemma FailsEarly(r: Reader, some: Bytes, chunks: seq<Bytes>, n: nat)
    requires n <= |chunks| && some == Flatten(chunks[..n])
    requires ConsumeAll(r, NOTHING, Complete(some)).Err?
    ensures Read(r, Flatten(chunks)) == ConsumeAll(r, NOTHING, Complete(some))
  {
    FlattenGrows(chunks, n);
    var all := Flatten(chunks);
    var rest := all[|some|..];
    assert all == some + rest;
    SplitOn(some, rest);
    var later := Split(Unfinished(some) + rest, NEWLINE);
    var tail := if later[|later| - 1] == [] then later[..|later| - 1] else later;
    assert FramesOf(all) == Complete(some) + tail;
    ConsumeConcat(r, NOTHING, Complete(some), tail);
  }

  lemma ConsumeOne(r: Reader, got: Received, frame: Bytes)
    ensures ConsumeAll(r, got, [frame]) == Consume(r, got, frame)
  {
    var frames := [frame];
    assert frames[1..] == [];
  }

  // ---------------------------------------------------------------- exactly one final frame

  predicate Fits(r: Reader, raw: Bytes) {
    r.parse(raw).Some? && (Delivered(r, r.parse(raw).value) || r.parse(raw).value.Final?)
  }

  predicate IsFinal(r: Reader, raw: Bytes) {
    r.parse(raw).Some? && r.parse(raw).value.Final?
  }

  function Finals(r: Reader, frames: seq<Bytes>): nat {
    if frames == [] then 0 else (if IsFinal(r, frames[0]) then 1 else 0) + Finals(r, frames[1..])
  }

  /** Every frame fits and there is at most one final frame, counting one received before. */
  lemma {:induction false} ConsumedExactly(r: Reader, got: Received, frames: seq<Bytes>)
    ensures ConsumeAll(r, got, frames).Ok? <==>
      && (forall i :: 0 <= i < |frames| ==> Fits(r, frames[i]))
      && Finals(r, frames) + (if got.final.Some? then 1 else 0) <= 1
    ensures ConsumeAll(r, got, frames).Ok? ==>
      (ConsumeAll(r, got, frames).value.final.Some? <==> Finals(r, frames) == 1 || got.final.Some?)
    decreases |frames|
  {
    if frames != [] {
      match Consume(r, got, frames[0]) {
        case Err(_) =>
        case Ok(more) =>
          ConsumedExactly(r, more, frames[1..]);
          assert forall i :: 1 <= i < |frames| ==> frames[i] == frames[1..][i - 1];
      }
    }
  }

  lemma {:induction false} FinalMessage(r: Reader, got: Received, frames: seq<Bytes>, i: nat)
    requires ConsumeAll(r, got, frames).Ok? && i < |frames| && IsFinal(r, frames[i])
    ensures ConsumeAll(r, got, frames).value.final == Some(r.parse(frames[i]).value.message)
    decreases |frames|
  {
    var more := Consume(r, got, frames[0]).value;
    if i == 0 {
      FinalStays(r, more, frames[1..]);
    } else {
      FinalMessage(r, more, frames[1..], i - 1);
    }
  }

  lemma {:induction false} FinalStays(r: Reader, got: Received, frames: seq<Bytes>)
    requires ConsumeAll(r, got, frames).Ok? && got.final.Some?
    ensures ConsumeAll(r, got, frames).value.final == got.final
    decreases |frames|
  {
    if frames != [] { FinalStays(r, Consume(r, got, frames[0]).value, frames[1..]); }
  }

  datatype Exchange = Result(message: string) | NoResult

  /** The end of `_exchange`: reading, writing and the exit status all have to be right. */
  function Conclude(got: Result<Received, Failure>, written: bool, exit: int): Exchange {
    if got.Err? || !written || exit != 0 || got.value.final.None? then NoResult
    else Result(got.value.final.value)
  }

  /** A result is the message of the one and only final frame of an output in which every frame fits,
      from a child that was fed and exited cleanly. */
  lemma ResultExactly(r: Reader, all: Bytes, written: bool, exit: int, message: string)
    ensures Conclude(Read(r, all), written, exit) == Result(message) <==>
      && written && exit == 0
      && (forall i :: 0 <= i < |FramesOf(all)| ==> Fits(r, FramesOf(all)[i]))
      && Finals(r, FramesOf(all)) == 1
      && (exists i :: 0 <= i < |FramesOf(all)| && r.parse(FramesOf(all)[i]) == Some(Final(message)))
  {
    var frames := FramesOf(all);
    ConsumedExactly(r, NOTHING, frames);
    if Read(r, all).Ok? && Finals(r, frames) == 1 {
      var i := OneFinal(r, frames);
      FinalMessage(r, NOTHING, frames, i);
      assert r.parse(frames[i]) == Some(Final(r.parse(frames[i]).value.message));
      forall k | 0 <= k < |frames| && IsFinal(r, frames[k])
        ensures Read(r, all).value.final == Some(r.parse(frames[k]).value.message)
      {
        FinalMessage(r, NOTHING, frames, k);
      }
      forall k | 0 <= k < |frames| && r.parse(frames[k]) == Some(Final(message)) ensures IsFinal(r, frames[k]) {
      }
    }
  }

  lemma {:induction false} OneFinal(r: Reader, frames: seq<Bytes>) returns (i: nat)
    requires Finals(r, frames) > 0
    ensures i < |frames| && IsFinal(r, frames[i])
    decreases |frames|
  {
    if IsFinal(r, frames[0]) {
      i := 0;
    } else {
      var k := OneFinal(r, frames[1..]);
      i := k + 1;
    }
  }
}
