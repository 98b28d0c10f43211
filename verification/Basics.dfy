// Shared vocabulary: optional values, checked results, raw bytes, and a few facts about sequences.

module Basics {
  datatype Option<+T> = None | Some(value: T)

  datatype Result<+T, +E> = Ok(value: T) | Err(error: E) {
    predicate IsFailure() { Err? }
    function PropagateFailure<U>(): Result<U, E>
      requires Err?
    {
      Err(error)
    }
    function Extract(): T
      requires Ok?
    {
      value
    }
  }

  type byte = b: int | 0 <= b < 256

  const LF: byte := 10
  const CR: byte := 13

  lemma Regroup<T>(a: seq<T>, b: seq<T>, c: seq<T>)
    ensures (a + b) + c == a + (b + c)
  {
  }

  function Reverse<T>(xs: seq<T>): seq<T> {
    if xs == [] then [] else [xs[|xs| - 1]] + Reverse(xs[..|xs| - 1])
  }

  lemma {:induction false} ReverseAt<T>(xs: seq<T>, i: nat)
    requires i < |xs|
    ensures |Reverse(xs)| == |xs| && Reverse(xs)[i] == xs[|xs| - 1 - i]
    decreases |xs|
  {
    var front := xs[..|xs| - 1];
    if front != [] { ReverseAt(front, if i > 0 then i - 1 else 0); }
  }

  function Flatten<T>(xss: seq<seq<T>>): seq<T> {
    if xss == [] then [] else Flatten(xss[..|xss| - 1]) + xss[|xss| - 1]
  }

  lemma {:induction false} FlattenFirst<T>(xss: seq<seq<T>>)
    requires xss != []
    ensures Flatten(xss) == xss[0] + Flatten(xss[1..])
    decreases |xss|
  {
    var last := |xss| - 1;
    if last > 0 {
      FlattenFirst(xss[..last]);
      assert xss[..last][1..] == xss[1..][..last - 1] && xss[1..][last - 1] == xss[last];
      Regroup(xss[0], Flatten(xss[..last][1..]), xss[last]);
    }
  }
}
