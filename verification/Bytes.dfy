// Searching and splitting byte strings at a separator.

module ByteStrings {
  import opened Basics

  type Bytes = seq<byte>

  predicate At(s: Bytes, i: nat, pat: Bytes) {
    i + |pat| <= |s| && s[i..i + |pat|] == pat
  }

  lemma AtByte(s: Bytes, i: nat, b: byte)
    ensures At(s, i, [b]) <==> i < |s| && s[i] == b
  {
    if i < |s| { assert s[i..i + 1] == [s[i]]; }
  }

  /** The first occurrence at or after an offset. */
  function Find(s: Bytes, pat: Bytes, from: nat): (r: Option<nat>)
    ensures r.Some? ==> from <= r.value && At(s, r.value, pat) && forall k :: from <= k < r.value ==> !At(s, k, pat)
    ensures r.None? ==> forall k :: from <= k <= |s| ==> !At(s, k, pat)
    decreases |s| - from
  {
    if from > |s| then None
    else if At(s, from, pat) then Some(from)
    else if from == |s| then None
    else Find(s, pat, from + 1)
  }

  /** A separator of which no proper part can begin another occurrence. */
  predicate Simple(pat: Bytes) {
    pat != [] && forall d :: 0 < d < |pat| ==> pat[d] != pat[0]
  }

  predicate Free(s: Bytes, pat: Bytes) {
    forall k :: 0 <= k <= |s| ==> !At(s, k, pat)
  }

  function Split(s: Bytes, pat: Bytes): (parts: seq<Bytes>)
    requires pat != []
    ensures parts != []
    decreases |s|
  {
    match Find(s, pat, 0)
    case None => [s]
    case Some(i) => [s[..i]] + Split(s[i + |pat|..], pat)
  }

  function Join(parts: seq<Bytes>, pat: Bytes): Bytes {
    if parts == [] then [] else if |parts| == 1 then parts[0] else parts[0] + pat + Join(parts[1..], pat)
  }

  ghost predicate AllFree(parts: seq<Bytes>, pat: Bytes) {
    forall i :: 0 <= i < |parts| ==> Free(parts[i], pat)
  }

  lemma AtShift(a: Bytes, b: Bytes, j: nat, pat: Bytes)
    ensures At(a + b, |a| + j, pat) <==> At(b, j, pat)
  {
    if j + |pat| <= |b| {
      assert (a + b)[|a| + j..|a| + j + |pat|] == b[j..j + |pat|];
    }
  }

  /** A piece without the separator ends where the separator that follows it begins. */
  lemma FirstAfterFree(piece: Bytes, pat: Bytes, rest: Bytes)
    requires Simple(pat) && Free(piece, pat)
    ensures forall k :: 0 <= k < |piece| ==> !At(piece + pat + rest, k, pat)
    ensures At(piece + pat + rest, |piece|, pat)
    ensures Find(piece + pat + rest, pat, 0) == Some(|piece|)
    ensures (piece + pat + rest)[..|piece|] == piece && (piece + pat + rest)[|piece| + |pat|..] == rest
  {
    var s := piece + pat + rest;
    assert s[|piece|..|piece| + |pat|] == pat;
    forall k | 0 <= k < |piece| ensures !At(s, k, pat) {
      if k + |pat| <= |piece| {
        assert s[k..k + |pat|] == piece[k..k + |pat|];
        assert !At(piece, k, pat);
      } else {
        var d := |piece| - k;
        assert s[k + d] == pat[0] != pat[d];
        assert k + |pat| <= |s| ==> s[k..k + |pat|][d] == s[k + d];
      }
    }
    assert At(s, |piece|, pat);
    assert s[..|piece|] == piece;
    assert s[|piece| + |pat|..] == rest;
  }

  lemma {:induction false} SplitJoin(parts: seq<Bytes>, pat: Bytes)
    requires Simple(pat) && parts != [] && AllFree(parts, pat)
    ensures Split(Join(parts, pat), pat) == parts
    decreases |parts|
  {
    var s := Join(parts, pat);
    if |parts| == 1 {
      assert Find(s, pat, 0).None?;
    } else {
      FirstAfterFree(parts[0], pat, Join(parts[1..], pat));
      SplitJoin(parts[1..], pat);
      assert s[..|parts[0]|] == parts[0];
      assert s[|parts[0]| + |pat|..] == Join(parts[1..], pat);
      assert [parts[0]] + parts[1..] == parts;
    }
  }

  lemma {:induction false} JoinSplit(s: Bytes, pat: Bytes)
    requires pat != []
    ensures Join(Split(s, pat), pat) == s && AllFree(Split(s, pat), pat)
    decreases |s|
  {
    match Find(s, pat, 0) {
      case None =>
      case Some(i) =>
        var rest := s[i + |pat|..];
        JoinSplit(rest, pat);
        assert ([s[..i]] + Split(rest, pat))[1..] == Split(rest, pat);
        assert s == s[..i] + s[i..i + |pat|] + rest;
        FreePrefix(s, pat, i);
    }
  }

  lemma FreePrefix(s: Bytes, pat: Bytes, i: nat)
    requires i <= |s| && pat != [] && forall k :: 0 <= k < i ==> !At(s, k, pat)
    ensures Free(s[..i], pat)
  {
    forall k | 0 <= k <= i ensures !At(s[..i], k, pat) {
      if At(s[..i], k, pat) {
        assert s[..i][k..k + |pat|] == s[k..k + |pat|];
        assert At(s, k, pat);
      }
    }
  }

  lemma {:induction false} JoinSnoc(parts: seq<Bytes>, last: Bytes, pat: Bytes)
    requires parts != []
    ensures Join(parts + [last], pat) == Join(parts, pat) + pat + last
    decreases |parts|
  {
    assert (parts + [last])[1..] == parts[1..] + [last];
    if |parts| == 1 {
      assert parts[1..] + [last] == [last];
    } else {
      JoinSnoc(parts[1..], last, pat);
      Regroup(parts[0] + pat, Join(parts[1..], pat), pat + last);
      Regroup(Join(parts[1..], pat), pat, last);
      Regroup(Join(parts, pat), pat, last);
    }
  }

  /** Joined nonempty pieces contain no doubled separator before their end. */
  lemma {:induction false} NoBlankInside(parts: seq<Bytes>, pat: Bytes, rest: Bytes)
    requires Simple(pat) && parts != [] && AllFree(parts, pat) && forall i :: 0 <= i < |parts| ==> parts[i] != []
    ensures Find(Join(parts, pat) + (pat + pat) + rest, pat + pat, 0) == Some(|Join(parts, pat)|)
    decreases |parts|
  {
    var s := Join(parts, pat) + (pat + pat) + rest;
    var blank := pat + pat;
    assert At(s, |Join(parts, pat)|, blank);
    forall k | 0 <= k < |Join(parts, pat)| ensures !At(s, k, blank) {
      NoBlankAt(parts, pat, rest, k);
    }
  }

  lemma BlankAt(s: Bytes, pat: Bytes, k: nat)
    ensures At(s, k, pat + pat) <==> At(s, k, pat) && At(s, k + |pat|, pat)
  {
    if k + |pat + pat| <= |s| {
      var here := s[k..k + |pat + pat|];
      var left, right := s[k..k + |pat|], s[k + |pat|..k + |pat| + |pat|];
      assert here == left + right && here[..|pat|] == left && here[|pat|..] == right;
      assert (pat + pat)[..|pat|] == pat && (pat + pat)[|pat|..] == pat;
    }
  }

  lemma {:induction false} NoBlankAt(parts: seq<Bytes>, pat: Bytes, rest: Bytes, k: nat)
    requires Simple(pat) && parts != [] && AllFree(parts, pat) && forall i :: 0 <= i < |parts| ==> parts[i] != []
    requires k < |Join(parts, pat)|
    ensures !At(Join(parts, pat) + (pat + pat) + rest, k, pat + pat)
    decreases |parts|
  {
    var s := Join(parts, pat) + (pat + pat) + rest;
    var piece := parts[0];
    if |parts| == 1 {
      assert s == piece + pat + (pat + rest);
      FirstAfterFree(piece, pat, pat + rest);
      BlankAt(s, pat, k);
    } else {
      var tail := Join(parts[1..], pat) + (pat + pat) + rest;
      assert s == piece + pat + tail;
      NoBlankInLonger(piece, pat, tail, k) by { StartsWithPiece(parts[1..], pat, rest); }
      if k >= |piece + pat| {
        NoBlankAt(parts[1..], pat, rest, k - |piece + pat|);
        AtShift(piece + pat, tail, k - |piece + pat|, pat + pat);
      }
    }
  }

  lemma NoBlankInLonger(piece: Bytes, pat: Bytes, tail: Bytes, k: nat)
    requires Simple(pat) && Free(piece, pat) && !At(tail, 0, pat)
    ensures k < |piece + pat| ==> !At(piece + pat + tail, k, pat + pat)
  {
    var s := piece + pat + tail;
    FirstAfterFree(piece, pat, tail);
    AtShift(piece + pat, tail, 0, pat);
    if |piece| < k < |piece + pat| {
      assert s[k] == pat[k - |piece|] != pat[0];
      assert k + |pat| <= |s| ==> s[k..k + |pat|][0] == s[k];
    }
    if k < |piece + pat| { BlankAt(s, pat, k); }
  }

  lemma StartsWithPiece(parts: seq<Bytes>, pat: Bytes, rest: Bytes)
    requires Simple(pat) && parts != [] && AllFree(parts, pat) && parts[0] != []
    ensures !At(Join(parts, pat) + (pat + pat) + rest, 0, pat)
  {
    var piece := parts[0];
    var s := Join(parts, pat) + (pat + pat) + rest;
    if |parts| == 1 {
      assert s == piece + pat + (pat + rest);
      FirstAfterFree(piece, pat, pat + rest);
    } else {
      var tail := Join(parts[1..], pat) + (pat + pat) + rest;
      assert s == piece + pat + tail;
      FirstAfterFree(piece, pat, tail);
    }
  }
}
