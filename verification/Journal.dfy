// The session journal as a file: records, their byte encoding, and what
// `SessionStore._load` makes of any file that a crash may leave behind.

module Journal {
  import opened Basics

  type Id = nat              // a journal identifier: 32 hexadecimal digits read as a number
  type Owner = string        // the plugin that owns a namespace of state
  type Json = string         // a namespaced document, serialised
  type PluginState = map<Owner, Json>

  datatype Kind = Prompt | Assistant | HostResult
  datatype Message = Message(kind: Kind, content: string, promptId: nat)

  datatype Data =
    | MessageData(message: Message)
    | TurnStart(promptId: nat)
    | TurnCommit(state: PluginState)
    | StateData(state: PluginState)
    | Select(target: Option<Id>)

  datatype Record = Record(id: Id, parent: Option<Id>, data: Data)

  /** The in-memory result of reading records: the dictionary in insertion order
      and the last durable selection. */
  datatype Index = Index(entries: seq<Record>, committed: Option<Id>)

  datatype LoadError = IncompleteHeader | HeaderMismatch | MalformedLine | DuplicateId | BrokenParent | InvalidSelection

  // ---------------------------------------------------------------- the tree

  predicate Selecting(d: Data) {
    d.TurnCommit? || d.StateData?
  }

  predicate HasId(es: seq<Record>, id: Id) {
    es != [] && (es[|es| - 1].id == id || HasId(es[..|es| - 1], id))
  }

  /** The record with an identifier, looked up from the newest. */
  function Lookup(es: seq<Record>, id: Id): (r: Record)
    requires HasId(es, id)
    ensures r.id == id
  {
    var last := es[|es| - 1];
    if last.id == id then last else Lookup(es[..|es| - 1], id)
  }

  function Text(d: Data): seq<Message> {
    if d.MessageData? then [d.message] else []
  }

  /** The messages on the branch that ends at `cursor`, oldest first. */
  function History(es: seq<Record>, cursor: Option<Id>): seq<Message> {
    if cursor.None? || es == [] then []
    else
      var last := es[|es| - 1];
      var older := es[..|es| - 1];
      if last.id == cursor.value then History(older, last.parent) + Text(last.data)
      else History(older, cursor)
  }

  /** The plugin state stored at a selection. */
  function StateAt(es: seq<Record>, cursor: Option<Id>): PluginState {
    if cursor.None? || !HasId(es, cursor.value) then map[]
    else
      var d := Lookup(es, cursor.value).data;
      if Selecting(d) then d.state else map[]
  }

  // ---------------------------------------------------------------- replay

  /** One step of `_load_record`. */
  function LoadRecord(ix: Index, r: Record): Result<Index, LoadError> {
    if HasId(ix.entries, r.id) then Err(DuplicateId)
    else if r.parent.Some? && !HasId(ix.entries, r.parent.value) then Err(BrokenParent)
    else
      var entries := ix.entries + [r];
      match r.data
      case TurnCommit(_) => Ok(Index(entries, Some(r.id)))
      case StateData(_) => Ok(Index(entries, Some(r.id)))
      case Select(target) =>
        if target.Some? && (!HasId(entries, target.value) || !Selecting(Lookup(entries, target.value).data))
        then Err(InvalidSelection)
        else Ok(Index(entries, target))
      case _ => Ok(Index(entries, ix.committed))
  }

  function Replay(rs: seq<Record>): (r: Result<Index, LoadError>)
    ensures r.Ok? ==> r.value.entries == rs
  {
    if rs == [] then Ok(Index([], None))
    else
      var ix :- Replay(rs[..|rs| - 1]);
      assert rs == rs[..|rs| - 1] + [rs[|rs| - 1]];
      LoadRecord(ix, rs[|rs| - 1])
  }

  lemma ReplaySnoc(rs: seq<Record>, r: Record)
    ensures Replay(rs + [r]) == (var ix :- Replay(rs); LoadRecord(ix, r))
  {
    assert (rs + [r])[..|rs|] == rs;
  }

  lemma {:induction false} ReplayPrefix(rs: seq<Record>, j: nat)
    requires Replay(rs).Ok? && j <= |rs|
    ensures Replay(rs[..j]).Ok?
    decreases |rs|
  {
    if j == |rs| {
      assert rs[..j] == rs;
    } else {
      assert rs[..|rs| - 1][..j] == rs[..j];
      ReplayPrefix(rs[..|rs| - 1], j);
    }
  }

  // ---------------------------------------------------------------- which journals are read

  predicate Earlier(rs: seq<Record>, i: nat, id: Id)
    requires i <= |rs|
  {
    exists k :: 0 <= k < i && rs[k].id == id
  }

  /** What a record may refer to: its identifier is new, its parent came before, and what it selects came
      before and carries state. */
  predicate Fits(rs: seq<Record>, i: nat)
    requires i < |rs|
  {
    var r := rs[i];
    && !Earlier(rs, i, r.id)
    && (r.parent.Some? ==> Earlier(rs, i, r.parent.value))
    && (r.data.Select? && r.data.target.Some? ==>
          exists k :: 0 <= k < i && rs[k].id == r.data.target.value && Selecting(rs[k].data))
  }

  /** What the last record that selects something selects. */
  function LastSelection(rs: seq<Record>): Option<Id> {
    if rs == [] then None
    else
      var r := rs[|rs| - 1];
      if Selecting(r.data) then Some(r.id) else if r.data.Select? then r.data.target else LastSelection(rs[..|rs| - 1])
  }

  lemma {:induction false} HasIdExactly(es: seq<Record>, id: Id)
    ensures HasId(es, id) <==> Earlier(es, |es|, id)
    decreases |es|
  {
    if es != [] {
      var older := es[..|es| - 1];
      HasIdExactly(older, id);
      assert forall k :: 0 <= k < |older| ==> older[k] == es[k];
    }
  }

  lemma {:induction false} LookupFinds(es: seq<Record>, k: nat)
    requires k < |es| && forall i, j :: 0 <= i < j < |es| ==> es[i].id != es[j].id
    ensures HasId(es, es[k].id) && Lookup(es, es[k].id) == es[k]
    decreases |es|
  {
    var older := es[..|es| - 1];
    assert forall i :: 0 <= i < |older| ==> older[i] == es[i];
    if k < |older| { LookupFinds(older, k); }
  }

  lemma FitsInLonger(rs: seq<Record>, r: Record, i: nat)
    requires i < |rs|
    ensures Fits(rs + [r], i) <==> Fits(rs, i)
  {
    assert forall k :: 0 <= k <= i ==> (rs + [r])[k] == rs[k];
    assert forall id :: Earlier(rs + [r], i, id) <==> Earlier(rs, i, id);
  }

  lemma LoadsExactly(ix: Index, r: Record)
    requires forall i, j :: 0 <= i < j < |ix.entries| ==> ix.entries[i].id != ix.entries[j].id
    ensures LoadRecord(ix, r).Ok? <==> Fits(ix.entries + [r], |ix.entries|)
    ensures LoadRecord(ix, r).Ok? ==>
      LoadRecord(ix, r).value.committed ==
        (if Selecting(r.data) then Some(r.id) else if r.data.Select? then r.data.target else ix.committed)
  {
    var es, all, n := ix.entries, ix.entries + [r], |ix.entries|;
    assert forall k :: 0 <= k < n ==> all[k] == es[k];
    HasIdExactly(es, r.id);
    assert Earlier(all, n, r.id) <==> Earlier(es, n, r.id);
    if r.parent.Some? {
      HasIdExactly(es, r.parent.value);
      assert Earlier(all, n, r.parent.value) <==> Earlier(es, n, r.parent.value);
    }
    if r.data.Select? && r.data.target.Some? { SelectsExactly(es, r, r.data.target.value); }
  }

  lemma SelectsExactly(es: seq<Record>, r: Record, target: Id)
    requires forall i, j :: 0 <= i < j < |es| ==> es[i].id != es[j].id
    requires !Selecting(r.data)
    ensures HasId(es + [r], target) && Selecting(Lookup(es + [r], target).data) && !HasId(es, r.id) ==>
      exists k :: 0 <= k < |es| && (es + [r])[k].id == target && Selecting((es + [r])[k].data)
    ensures (exists k :: 0 <= k < |es| && (es + [r])[k].id == target && Selecting((es + [r])[k].data)) && !HasId(es, r.id) ==>
      HasId(es + [r], target) && Selecting(Lookup(es + [r], target).data)
  {
    var all := es + [r];
    assert all[..|es|] == es;
    HasIdExactly(es, target);
    HasIdExactly(es, r.id);
    forall k | 0 <= k < |es| && es[k].id == target ensures HasId(es, target) && Lookup(es, target) == es[k] && all[k] == es[k] {
      LookupFinds(es, k);
    }
  }

  /** A journal is accepted exactly when every record of it fits, and then the last selecting record decides
      the selection. */
  lemma {:induction false} ReplayExactly(rs: seq<Record>)
    ensures Replay(rs).Ok? <==> forall i :: 0 <= i < |rs| ==> Fits(rs, i)
    ensures Replay(rs).Ok? ==> Replay(rs).value.committed == LastSelection(rs)
    ensures Replay(rs).Ok? ==> forall i, j :: 0 <= i < j < |rs| ==> rs[i].id != rs[j].id
    decreases |rs|
  {
    if rs != [] {
      var older, r := rs[..|rs| - 1], rs[|rs| - 1];
      assert rs == older + [r];
      ReplayExactly(older);
      forall i | 0 <= i < |older| ensures Fits(rs, i) <==> Fits(older, i) { FitsInLonger(older, r, i); }
      if Replay(older).Ok? { LoadsExactly(Replay(older).value, r); }
      if Replay(rs).Ok? { NewestIsNew(older, r); }
    }
  }

  lemma NewestIsNew(older: seq<Record>, r: Record)
    requires Fits(older + [r], |older|)
    requires forall i, j :: 0 <= i < j < |older| ==> older[i].id != older[j].id
    ensures forall i, j :: 0 <= i < j < |older| + 1 ==> (older + [r])[i].id != (older + [r])[j].id
  {
    assert !Earlier(older + [r], |older|, r.id);
  }

  predicate Plain(d: Data) {
    d.MessageData? || d.TurnStart?
  }

  /** Records that select nothing leave the selection where it was. */
  lemma {:induction false} PlainTailKeepsSelection(rs: seq<Record>, k: nat, j: nat)
    requires Replay(rs).Ok? && k <= j <= |rs|
    requires forall i :: k <= i < |rs| ==> Plain(rs[i].data)
    ensures Replay(rs[..j]).Ok? && Replay(rs[..j]).value.committed == Replay(rs).value.committed
    decreases |rs|
  {
    ReplayPrefix(rs, j);
    if j == |rs| {
      assert rs[..j] == rs;
    } else {
      var older := rs[..|rs| - 1];
      assert older[..j] == rs[..j];
      PlainTailKeepsSelection(older, k, j);
    }
  }

  /** A replayed selection is a record that carries state. */
  lemma {:induction false} SelectionIsState(rs: seq<Record>)
    requires Replay(rs).Ok?
    ensures var sel := Replay(rs).value.committed;
      sel.Some? ==> HasId(rs, sel.value) && Selecting(Lookup(rs, sel.value).data)
    decreases |rs|
  {
    if rs != [] {
      var older, last := rs[..|rs| - 1], rs[|rs| - 1];
      SelectionIsState(older);
      assert rs == older + [last];
      var sel := Replay(older).value.committed;
      match last.data {
        case TurnCommit(_) => assert rs[|rs| - 1].id == last.id;
        case StateData(_) => assert rs[|rs| - 1].id == last.id;
        case Select(target) =>
        case _ => if sel.Some? { LookupOlder(older, last, sel.value); }
      }
    }
  }

  lemma LookupOlder(older: seq<Record>, last: Record, id: Id)
    requires HasId(older, id) && !HasId(older, last.id)
    ensures HasId(older + [last], id) && Lookup(older + [last], id) == Lookup(older, id)
  {
    assert (older + [last])[..|older|] == older;
  }

  /** What a prefix of the journal says of an entry, the whole journal says too. */
  lemma {:induction false} PrefixAgrees(rs: seq<Record>, j: nat, id: Id)
    requires Replay(rs).Ok? && j <= |rs| && HasId(rs[..j], id)
    ensures HasId(rs, id)
    ensures History(rs, Some(id)) == History(rs[..j], Some(id))
    ensures Lookup(rs, id) == Lookup(rs[..j], id)
    ensures StateAt(rs, Some(id)) == StateAt(rs[..j], Some(id))
    decreases |rs|
  {
    if j == |rs| {
      assert rs[..j] == rs;
    } else {
      var older, last := rs[..|rs| - 1], rs[|rs| - 1];
      assert older[..j] == rs[..j];
      PrefixAgrees(older, j, id);
      assert rs == older + [last];
      LookupOlder(older, last, id);
    }
  }

  /** The branch that ends at an entry is its parent's branch and the entry's own message. */
  lemma {:induction false} HistoryStep(rs: seq<Record>, id: Id)
    requires Replay(rs).Ok? && HasId(rs, id)
    ensures var r := Lookup(rs, id);
      && (r.parent.Some? ==> HasId(rs, r.parent.value))
      && History(rs, Some(id)) == History(rs, r.parent) + Text(r.data)
    decreases |rs|
  {
    var older, last := rs[..|rs| - 1], rs[|rs| - 1];
    assert rs == older + [last];
    var r := Lookup(rs, id);
    if last.id != id {
      HistoryStep(older, id);
    }
    if r.parent.Some? {
      assert HasId(older, r.parent.value);
      assert older == rs[..|older|];
      PrefixAgrees(rs, |older|, r.parent.value);
    }
  }

  // ---------------------------------------------------------------- bytes

  /** How records become lines. JSON itself is not modelled: `Lawful` says all that is used of it. */
  datatype Codec = Codec(
    header: seq<byte>,
    isHeader: seq<byte> -> bool,
    encode: Record -> seq<byte>,
    decode: seq<byte> -> Option<Record>)

  predicate Unbroken(s: seq<byte>) {
    forall i :: 0 <= i < |s| ==> s[i] != LF && s[i] != CR
  }

  ghost predicate Lawful(c: Codec) {
    && Unbroken(c.header)
    && c.isHeader(c.header)
    && (forall r: Record :: Unbroken(c.encode(r)))
    && (forall r: Record :: c.decode(c.encode(r)) == Some(r))
  }

  function Line(c: Codec, r: Record): seq<byte> {
    c.encode(r) + [LF]
  }

  /** A whole file: the header line and one line for each record. */
  function File(c: Codec, rs: seq<Record>): seq<byte> {
    if rs == [] then c.header + [LF]
    else File(c, rs[..|rs| - 1]) + Line(c, rs[|rs| - 1])
  }

  lemma FileSnoc(c: Codec, rs: seq<Record>, r: Record)
    ensures File(c, rs + [r]) == File(c, rs) + Line(c, r)
  {
    assert (rs + [r])[..|rs|] == rs;
  }

  lemma {:induction false} FilePrefix(c: Codec, rs: seq<Record>, j: nat)
    requires j <= |rs|
    ensures |File(c, rs[..j])| <= |File(c, rs)| && File(c, rs[..j]) == File(c, rs)[..|File(c, rs[..j])|]
    decreases |rs|
  {
    if j == |rs| {
      assert rs[..j] == rs;
    } else {
      assert rs[..|rs| - 1][..j] == rs[..j];
      FilePrefix(c, rs[..|rs| - 1], j);
    }
  }

  // ---------------------------------------------------------------- reading a file

  /** The length up to and including the last newline: `raw.rfind(b"\n") + 1`. */
  function CompleteLength(raw: seq<byte>): (n: nat)
    ensures n <= |raw|
    ensures n == 0 || raw[n - 1] == LF
    ensures forall i :: n <= i < |raw| ==> raw[i] != LF
  {
    if raw == [] then 0
    else if raw[|raw| - 1] == LF then |raw|
    else CompleteLength(raw[..|raw| - 1])
  }

  function FirstBreak(s: seq<byte>): (i: nat)
    ensures i <= |s| && Unbroken(s[..i])
    ensures i < |s| ==> s[i] == LF || s[i] == CR
  {
    if s == [] || s[0] == LF || s[0] == CR then 0
    else 1 + FirstBreak(s[1..])
  }

  /** `bytes.splitlines`: CR, LF and CR LF each end a line. */
  function SplitLines(s: seq<byte>): seq<seq<byte>>
    decreases |s|
  {
    if s == [] then []
    else
      var i := FirstBreak(s);
      if i == |s| then [s]
      else
        var next := if s[i] == CR && i + 1 < |s| && s[i + 1] == LF then i + 2 else i + 1;
        [s[..i]] + SplitLines(s[next..])
  }

  /** Every line decoded, or None as soon as one is malformed. */
  function DecodeAll(c: Codec, lines: seq<seq<byte>>): (r: Option<seq<Record>>)
    ensures r.Some? ==> |r.value| == |lines|
  {
    if lines == [] then Some([])
    else
      match (c.decode(lines[0]), DecodeAll(c, lines[1..]))
      case (Some(r), Some(rest)) => Some([r] + rest)
      case _ => None
  }

  /** What `_load` makes of the bytes of an existing, nonempty file. */
  function Load(c: Codec, raw: seq<byte>): Result<Index, LoadError> {
    var complete := CompleteLength(raw);
    if complete == 0 then Err(IncompleteHeader)
    else
      var lines := SplitLines(raw[..complete]);
      if lines == [] then Err(IncompleteHeader)
      else if !c.isHeader(lines[0]) then Err(HeaderMismatch)
      else
        match DecodeAll(c, lines[1..])
        case None => Err(MalformedLine)
        case Some(records) => Replay(records)
  }

  lemma {:induction false} FirstBreakAt(x: seq<byte>, rest: seq<byte>)
    requires Unbroken(x)
    ensures FirstBreak(x + [LF] + rest) == |x|
    decreases |x|
  {
    if x != [] {
      assert (x + [LF] + rest)[1..] == x[1..] + [LF] + rest;
      FirstBreakAt(x[1..], rest);
    }
  }

  lemma SplitLine(x: seq<byte>, rest: seq<byte>)
    requires Unbroken(x)
    ensures SplitLines(x + [LF] + rest) == [x] + SplitLines(rest)
  {
    var s := x + [LF] + rest;
    FirstBreakAt(x, rest);
    assert s[..|x|] == x;
    assert s[|x| + 1..] == rest;
  }

  function LineTexts(c: Codec, rs: seq<Record>): seq<seq<byte>> {
    if rs == [] then [] else [c.encode(rs[0])] + LineTexts(c, rs[1..])
  }

  function Tail(c: Codec, rs: seq<Record>): seq<byte> {
    if rs == [] then [] else Line(c, rs[0]) + Tail(c, rs[1..])
  }

  lemma {:induction false} TailSnoc(c: Codec, rs: seq<Record>, r: Record)
    ensures Tail(c, rs + [r]) == Tail(c, rs) + Line(c, r)
    decreases |rs|
  {
    if rs == [] {
      assert rs + [r] == [r];
      assert Tail(c, [r]) == Line(c, r) + Tail(c, []);
    } else {
      assert (rs + [r])[1..] == rs[1..] + [r];
      TailSnoc(c, rs[1..], r);
    }
  }

  lemma {:induction false} FileIsHeaderThenTail(c: Codec, rs: seq<Record>)
    ensures File(c, rs) == c.header + [LF] + Tail(c, rs)
    decreases |rs|
  {
    if rs != [] {
      var older := rs[..|rs| - 1];
      FileIsHeaderThenTail(c, older);
      TailSnoc(c, older, rs[|rs| - 1]);
      assert rs == older + [rs[|rs| - 1]];
    }
  }

  lemma {:induction false} SplitTail(c: Codec, rs: seq<Record>)
    requires Lawful(c)
    ensures SplitLines(Tail(c, rs)) == LineTexts(c, rs)
    ensures DecodeAll(c, LineTexts(c, rs)) == Some(rs)
    decreases |rs|
  {
    if rs != [] {
      SplitTail(c, rs[1..]);
      SplitLine(c.encode(rs[0]), Tail(c, rs[1..]));
      assert Tail(c, rs) == c.encode(rs[0]) + [LF] + Tail(c, rs[1..]);
      assert LineTexts(c, rs)[1..] == LineTexts(c, rs[1..]);
      assert rs == [rs[0]] + rs[1..];
    }
  }

  lemma {:induction false} FileEndsInNewline(c: Codec, rs: seq<Record>)
    ensures |File(c, rs)| > 0 && File(c, rs)[|File(c, rs)| - 1] == LF
    decreases |rs|
  {
  }

  lemma CompleteOf(a: seq<byte>, t: seq<byte>)
    requires |a| > 0 && a[|a| - 1] == LF && Unbroken(t)
    ensures CompleteLength(a + t) == |a| && (a + t)[..|a|] == a
  {
    var s := a + t;
    assert s[|a| - 1] == LF;
    assert forall j :: |a| <= j < |s| ==> s[j] == t[j - |a|];
  }

  /** Reading back a well-formed file, with any unterminated tail, replays its records. */
  lemma LoadFile(c: Codec, rs: seq<Record>, torn: seq<byte>)
    requires Lawful(c) && Unbroken(torn)
    ensures CompleteLength(File(c, rs) + torn) == |File(c, rs)|
    ensures Load(c, File(c, rs) + torn) == Replay(rs)
  {
    FileEndsInNewline(c, rs);
    CompleteOf(File(c, rs), torn);
    FileIsHeaderThenTail(c, rs);
    SplitLine(c.header, Tail(c, rs));
    SplitTail(c, rs);
    var lines := SplitLines(File(c, rs));
    assert lines[0] == c.header;
    assert lines[1..] == LineTexts(c, rs);
  }

  /** Wherever a file is cut after its first k records, whole records and one torn line remain. */
  lemma {:induction false} Cut(c: Codec, rs: seq<Record>, torn: seq<byte>, k: nat, p: seq<byte>)
    returns (j: nat, t: seq<byte>)
    requires Lawful(c) && Unbroken(torn) && k <= |rs|
    requires p <= File(c, rs) + torn
    requires |p| >= |File(c, rs[..k])|
    ensures k <= j <= |rs| && Unbroken(t)
    ensures p == File(c, rs[..j]) + t
    decreases |rs|
  {
    assert rs[..|rs|] == rs;
    if |p| >= |File(c, rs)| {
      j, t := |rs|, p[|File(c, rs)|..];
      assert t == torn[..|t|];
    } else {
      var older, last := rs[..|rs| - 1], rs[|rs| - 1];
      assert p <= File(c, older) + c.encode(last) by {
        assert File(c, rs) == (File(c, older) + c.encode(last)) + [LF];
        assert p == (File(c, rs) + torn)[..|p|];
      }
      assert k <= |older| by {
        if k == |rs| { assert false; }
      }
      assert older[..k] == rs[..k];
      j, t := Cut(c, older, c.encode(last), k, p);
      assert older[..j] == rs[..j];
    }
  }
}
