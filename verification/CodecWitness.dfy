// A lawful codec exists: records can be written injectively without line breaks. The program uses
// JSON for this; the witness only shows that statements about lawful codecs are about something.

module CodecWitness {
  import opened Basics
  import opened Journal

  type Bytes = seq<byte>

  const ZERO: byte := 48
  const ONE: byte := 49

  predicate Marks(s: Bytes) {
    forall i :: 0 <= i < |s| ==> s[i] == ZERO || s[i] == ONE
  }

  // ---------------------------------------------------------------- numbers, text and maps

  function Number(n: nat): (s: Bytes)
    ensures Marks(s)
  {
    if n == 0 then [ZERO] else [ONE] + Number(n - 1)
  }

  /** What is written first determines the number, whatever follows. */
  lemma {:induction false} NumberFirst(a: nat, x: Bytes, b: nat, y: Bytes)
    requires Number(a) + x == Number(b) + y
    ensures a == b && x == y
  {
    assert (Number(a) + x)[0] == (Number(b) + y)[0];
    var restA, restB := (Number(a) + x)[1..], (Number(b) + y)[1..];
    if a == 0 {
      assert restA == x && restB == y;
    } else {
      assert restA == Number(a - 1) + x && restB == Number(b - 1) + y;
      NumberFirst(a - 1, x, b - 1, y);
    }
  }

  function Letters(t: string): (s: Bytes)
    ensures Marks(s)
  {
    if t == [] then [] else Number(t[0] as int) + Letters(t[1..])
  }

  function Words(t: string): (s: Bytes)
    ensures Marks(s)
  {
    Number(|t|) + Letters(t)
  }

  lemma {:induction false} LettersFirst(a: string, x: Bytes, b: string, y: Bytes)
    requires |a| == |b| && Letters(a) + x == Letters(b) + y
    ensures a == b && x == y
    decreases |a|
  {
    if a == [] {
      assert Letters(a) + x == x && Letters(b) + y == y;
    } else {
      Regroup(Number(a[0] as int), Letters(a[1..]), x);
      Regroup(Number(b[0] as int), Letters(b[1..]), y);
      NumberFirst(a[0] as int, Letters(a[1..]) + x, b[0] as int, Letters(b[1..]) + y);
      LettersFirst(a[1..], x, b[1..], y);
      assert a == [a[0]] + a[1..] && b == [b[0]] + b[1..];
    }
  }

  lemma WordsFirst(a: string, x: Bytes, b: string, y: Bytes)
    requires Words(a) + x == Words(b) + y
    ensures a == b && x == y
  {
    Regroup(Number(|a|), Letters(a), x);
    Regroup(Number(|b|), Letters(b), y);
    NumberFirst(|a|, Letters(a) + x, |b|, Letters(b) + y);
    LettersFirst(a, x, b, y);
  }

  ghost function Entries(m: PluginState): (s: Bytes)
    ensures Marks(s)
    decreases |m|
  {
    if m == map[] then []
    else
      var k :| k in m;
      Words(k) + (Words(m[k]) + Entries(m - {k}))
  }

  ghost function Table(m: PluginState): (s: Bytes)
    ensures Marks(s)
  {
    Number(|m|) + Entries(m)
  }

  lemma {:induction false} EntriesFirst(a: PluginState, x: Bytes, b: PluginState, y: Bytes)
    requires |a| == |b| && Entries(a) + x == Entries(b) + y
    ensures a == b && x == y
    decreases |a|
  {
    if a == map[] {
      assert b == map[];
      assert Entries(a) + x == x && Entries(b) + y == y;
    } else {
      assert b != map[];
      var k :| k in a && Entries(a) == Words(k) + (Words(a[k]) + Entries(a - {k}));
      var l :| l in b && Entries(b) == Words(l) + (Words(b[l]) + Entries(b - {l}));
      Regroup(Words(k), Words(a[k]) + Entries(a - {k}), x);
      Regroup(Words(l), Words(b[l]) + Entries(b - {l}), y);
      WordsFirst(k, (Words(a[k]) + Entries(a - {k})) + x, l, (Words(b[l]) + Entries(b - {l})) + y);
      Regroup(Words(a[k]), Entries(a - {k}), x);
      Regroup(Words(b[k]), Entries(b - {k}), y);
      WordsFirst(a[k], Entries(a - {k}) + x, b[k], Entries(b - {k}) + y);
      EntriesFirst(a - {k}, x, b - {k}, y);
      assert a == (a - {k})[k := a[k]] && b == (b - {k})[k := b[k]];
    }
  }

  lemma TableFirst(a: PluginState, x: Bytes, b: PluginState, y: Bytes)
    requires Table(a) + x == Table(b) + y
    ensures a == b && x == y
  {
    Regroup(Number(|a|), Entries(a), x);
    Regroup(Number(|b|), Entries(b), y);
    NumberFirst(|a|, Entries(a) + x, |b|, Entries(b) + y);
    EntriesFirst(a, x, b, y);
  }

  // ---------------------------------------------------------------- records

  function Link(id: Option<Id>): (s: Bytes)
    ensures Marks(s)
  {
    if id.None? then Number(0) else Number(id.value + 1)
  }

  function KindCode(k: Kind): nat {
    match k case Prompt => 0 case Assistant => 1 case HostResult => 2
  }

  ghost function Body(d: Data): (s: Bytes)
    ensures Marks(s)
  {
    match d
    case MessageData(m) => Number(0) + (Number(KindCode(m.kind)) + (Number(m.promptId) + Words(m.content)))
    case TurnStart(id) => Number(1) + Number(id)
    case TurnCommit(state) => Number(2) + Table(state)
    case StateData(state) => Number(3) + Table(state)
    case Select(target) => Number(4) + Link(target)
  }

  ghost function Written(r: Record): (s: Bytes)
    ensures Marks(s)
  {
    Number(r.id) + (Link(r.parent) + Body(r.data))
  }

  lemma Whole(s: Bytes)
    ensures s + [] == s
  {
  }

  lemma BodyInjective(a: Data, b: Data)
    requires Body(a) == Body(b)
    ensures a == b
  {
    var tagA, tagB := Tag(a), Tag(b);
    NumberFirst(tagA.0, tagA.1, tagB.0, tagB.1);
    Whole(tagA.1);
    Whole(tagB.1);
    match a {
      case MessageData(m) =>
        var n := b.message;
        NumberFirst(KindCode(m.kind), Number(m.promptId) + Words(m.content), KindCode(n.kind), Number(n.promptId) + Words(n.content));
        NumberFirst(m.promptId, Words(m.content), n.promptId, Words(n.content));
        Whole(Words(m.content));
        Whole(Words(n.content));
        WordsFirst(m.content, [], n.content, []);
      case TurnStart(id) => NumberFirst(id, [], b.promptId, []);
      case TurnCommit(state) => TableFirst(state, [], b.state, []);
      case StateData(state) => TableFirst(state, [], b.state, []);
      case Select(target) => LinkFirst(target, [], b.target, []);
    }
  }

  lemma LinkFirst(a: Option<Id>, x: Bytes, b: Option<Id>, y: Bytes)
    requires Link(a) + x == Link(b) + y
    ensures a == b && x == y
  {
    NumberFirst(if a.None? then 0 else a.value + 1, x, if b.None? then 0 else b.value + 1, y);
  }

  ghost function Tag(d: Data): (t: (nat, Bytes))
    ensures Body(d) == Number(t.0) + t.1
  {
    match d
    case MessageData(m) => (0, Number(KindCode(m.kind)) + (Number(m.promptId) + Words(m.content)))
    case TurnStart(id) => (1, Number(id))
    case TurnCommit(state) => (2, Table(state))
    case StateData(state) => (3, Table(state))
    case Select(target) => (4, Link(target))
  }

  lemma WrittenInjective(a: Record, b: Record)
    requires Written(a) == Written(b)
    ensures a == b
  {
    NumberFirst(a.id, Link(a.parent) + Body(a.data), b.id, Link(b.parent) + Body(b.data));
    LinkFirst(a.parent, Body(a.data), b.parent, Body(b.data));
    BodyInjective(a.data, b.data);
  }

  ghost function Read(s: Bytes): Option<Record> {
    if exists r :: Written(r) == s then
      var r :| Written(r) == s;
      Some(r)
    else None
  }

  lemma LawfulCodecExists() returns (c: Codec)
    ensures Lawful(c)
  {
    c := Codec([ZERO], (s: Bytes) => s == [ZERO], r => Written(r), s => Read(s));
    forall r: Record ensures c.decode(c.encode(r)) == Some(r) {
      var found :| Written(found) == Written(r) && Read(Written(r)) == Some(found);
      WrittenInjective(found, r);
    }
    forall r: Record ensures Unbroken(c.encode(r)) {
      assert Marks(Written(r));
    }
  }
}
