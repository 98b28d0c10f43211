// Recovering headers and body from the bytes of a submitted request: CONNECT blocks are skipped,
// chunk framing and trailers removed. The functions say what is recovered; the methods are the
// program's loops over lines and offsets.

module HttpReplay {
  import opened Basics
  import opened ByteStrings

  const HT: byte := 9
  const SP: byte := 32
  const COLON: byte := 58
  const SEMICOLON: byte := 59
  const CRLF: Bytes := [CR, LF]
  const BLANK: Bytes := CRLF + CRLF
  const CONNECT: Bytes := [67, 79, 78, 78, 69, 67, 84]
  const HTTP10: Bytes := [72, 84, 84, 80, 47, 49, 46, 48]
  const HTTP11: Bytes := [72, 84, 84, 80, 47, 49, 46, 49]
  const TRANSFER_ENCODING: Bytes := [116, 114, 97, 110, 115, 102, 101, 114, 45, 101, 110, 99, 111, 100, 105, 110, 103]
  const CONTENT_LENGTH: Bytes := [99, 111, 110, 116, 101, 110, 116, 45, 108, 101, 110, 103, 116, 104]
  const CHUNKED: Bytes := [99, 104, 117, 110, 107, 101, 100]

  datatype Fault =
    | InvalidHeader
    | IncompleteHeaders
    | InvalidRequestLine
    | IncompleteChunked
    | InvalidChunkSize
    | IncompleteChunk
    | BytesAfterLastChunk
    | UnsupportedFraming
    | LengthMismatch

  datatype Header = Header(name: Bytes, value: Bytes)
  datatype Head = Head(headers: seq<Header>, rest: Bytes)
  datatype Piece = Piece(data: Bytes, rest: Bytes)
  datatype Lines = Lines(lines: seq<Bytes>, rest: Bytes)

  // ---------------------------------------------------------------- header fields

  predicate NameByte(b: byte) {
    33 <= b <= 126
  }

  predicate ValidName(name: Bytes) {
    name != [] && forall i :: 0 <= i < |name| ==> NameByte(name[i])
  }

  predicate Folded(line: Bytes) {
    line != [] && (line[0] == SP || line[0] == HT)
  }

  function Unspaced(value: Bytes): Bytes {
    if value != [] && value[0] == SP then value[1..] else value
  }

  /** One more line after the fields read so far. */
  function AddLine(headers: seq<Header>, line: Bytes): Result<seq<Header>, Fault> {
    if Folded(line) && headers != [] then
      var last := headers[|headers| - 1];
      Ok(headers[..|headers| - 1] + [Header(last.name, last.value + CRLF + line)])
    else
      match Find(line, [COLON], 0)
      case None => Err(InvalidHeader)
      case Some(colon) =>
        if !ValidName(line[..colon]) then Err(InvalidHeader)
        else Ok(headers + [Header(line[..colon], Unspaced(line[colon + 1..]))])
  }

  function FieldsOf(lines: seq<Bytes>): Result<seq<Header>, Fault> {
    if lines == [] then Ok([])
    else
      match FieldsOf(lines[..|lines| - 1])
      case Err(fault) => Err(fault)
      case Ok(headers) => AddLine(headers, lines[|lines| - 1])
  }

  method HeaderFields(lines: seq<Bytes>) returns (r: Result<seq<Header>, Fault>)
    ensures r == FieldsOf(lines)
  {
    var headers: seq<Header> := [];
    for i := 0 to |lines|
      invariant FieldsOf(lines[..i]) == Ok(headers)
    {
      var line := lines[i];
      assert lines[..i + 1][..i] == lines[..i];
      if Folded(line) && headers != [] {
        var last := headers[|headers| - 1];
        headers := headers[..|headers| - 1] + [Header(last.name, last.value + CRLF + line)];
      } else {
        var colon := Find(line, [COLON], 0);
        if colon.None? || !ValidName(line[..colon.value]) {
          FaultStays(lines, i + 1);
          return Err(InvalidHeader);
        }
        headers := headers + [Header(line[..colon.value], Unspaced(line[colon.value + 1..]))];
      }
    }
    assert lines[..|lines|] == lines;
    r := Ok(headers);
  }

  lemma {:induction false} FaultStays(lines: seq<Bytes>, n: nat)
    requires n <= |lines| && FieldsOf(lines[..n]).Err?
    ensures FieldsOf(lines) == FieldsOf(lines[..n])
    decreases |lines|
  {
    if n == |lines| {
      assert lines[..n] == lines;
    } else {
      assert lines[..|lines| - 1][..n] == lines[..n];
      FaultStays(lines[..|lines| - 1], n);
    }
  }

  // ---------------------------------------------------------------- header blocks

  predicate ValidRequestLine(words: seq<Bytes>) {
    |words| == 3 && words[0] != [] && words[1] != [] && (words[2] == HTTP10 || words[2] == HTTP11)
  }

  function HeadOf(raw: Bytes): Result<Head, Fault>
    decreases |raw|
  {
    match Find(raw, BLANK, 0)
    case None => Err(IncompleteHeaders)
    case Some(end) =>
      var lines, body := Split(raw[..end], CRLF), raw[end + 4..];
      var words := Split(lines[0], [SP]);
      if !ValidRequestLine(words) then Err(InvalidRequestLine)
      else
        match FieldsOf(lines[1..])
        case Err(fault) => Err(fault)
        case Ok(headers) => if words[0] != CONNECT then Ok(Head(headers, body)) else HeadOf(body)
  }

  method RequestHeaders(raw: Bytes) returns (r: Result<Head, Fault>)
    ensures r == HeadOf(raw)
  {
    var remaining := raw;
    while true
      invariant HeadOf(raw) == HeadOf(remaining)
      decreases |remaining|
    {
      var end := Find(remaining, BLANK, 0);
      if end.None? { return Err(IncompleteHeaders); }
      var lines, body := Split(remaining[..end.value], CRLF), remaining[end.value + 4..];
      var words := Split(lines[0], [SP]);
      if !ValidRequestLine(words) { return Err(InvalidRequestLine); }
      var headers := HeaderFields(lines[1..]);
      if headers.Err? { return Err(headers.error); }
      if words[0] != CONNECT { return Ok(Head(headers.value, body)); }
      remaining := body;
    }
  }

  // ---------------------------------------------------------------- chunked bodies

  function HexDigit(b: byte): Option<nat> {
    if 48 <= b <= 57 then Some((b - 48) as nat)
    else if 65 <= b <= 70 then Some((b - 55) as nat)
    else if 97 <= b <= 102 then Some((b - 87) as nat)
    else None
  }

  predicate IsHex(text: Bytes) {
    text != [] && forall i :: 0 <= i < |text| ==> HexDigit(text[i]).Some?
  }

  function HexValue(text: Bytes): nat {
    if text == [] then 0
    else
      var low := HexDigit(text[|text| - 1]);
      16 * HexValue(text[..|text| - 1]) + (if low.Some? then low.value else 0)
  }

  function LineFrom(rest: Bytes): Result<Piece, Fault> {
    match Find(rest, CRLF, 0)
    case None => Err(IncompleteChunked)
    case Some(end) => Ok(Piece(rest[..end], rest[end + 2..]))
  }

  function SizeText(line: Bytes): Bytes {
    match Find(line, [SEMICOLON], 0)
    case None => line
    case Some(i) => line[..i]
  }

  datatype Chunk = Last(rest: Bytes) | More(data: Bytes, rest: Bytes)

  /** The next chunk: its data, or nothing when its size is zero, and what follows. */
  function ChunkFrom(rest: Bytes): (r: Result<Chunk, Fault>)
    ensures r.Ok? ==> |r.value.rest| < |rest|
  {
    match LineFrom(rest)
    case Err(fault) => Err(fault)
    case Ok(line) =>
      var text := SizeText(line.data);
      if !IsHex(text) then Err(InvalidChunkSize)
      else
        var size := HexValue(text);
        if size == 0 then Ok(Last(line.rest))
        else if !At(line.rest, size, CRLF) then Err(IncompleteChunk)
        else Ok(More(line.rest[..size], line.rest[size + 2..]))
  }

  /** The data of the remaining chunks, and what follows the line of the last one. */
  function ChunksFrom(rest: Bytes): Result<Piece, Fault>
    decreases |rest|
  {
    match ChunkFrom(rest)
    case Err(fault) => Err(fault)
    case Ok(Last(after)) => Ok(Piece([], after))
    case Ok(More(data, after)) => Prepend(data, ChunksFrom(after))
  }

  function TrailersFrom(rest: Bytes): Result<Lines, Fault>
    decreases |rest|
  {
    match LineFrom(rest)
    case Err(fault) => Err(fault)
    case Ok(line) =>
      if line.data == [] then Ok(Lines([], line.rest))
      else
        match TrailersFrom(line.rest)
        case Err(fault) => Err(fault)
        case Ok(more) => Ok(Lines([line.data] + more.lines, more.rest))
  }

  function Unchunked(body: Bytes): Result<Bytes, Fault> {
    match ChunksFrom(body)
    case Err(fault) => Err(fault)
    case Ok(chunks) =>
      match TrailersFrom(chunks.rest)
      case Err(fault) => Err(fault)
      case Ok(trailers) =>
        match FieldsOf(trailers.lines)
        case Err(fault) => Err(fault)
        case Ok(_) => if trailers.rest != [] then Err(BytesAfterLastChunk) else Ok(chunks.data)
  }

  function Prepend(data: Bytes, r: Result<Piece, Fault>): Result<Piece, Fault> {
    match r case Ok(p) => Ok(Piece(data + p.data, p.rest)) case Err(fault) => Err(fault)
  }

  function Above(lines: seq<Bytes>, r: Result<Lines, Fault>): Result<Lines, Fault> {
    match r case Ok(p) => Ok(Lines(lines + p.lines, p.rest)) case Err(fault) => Err(fault)
  }

  method ChunkLine(body: Bytes, offset: nat) returns (line: Result<Bytes, Fault>, next: nat)
    requires offset <= |body|
    ensures offset <= next <= |body|
    ensures line.Ok? <==> LineFrom(body[offset..]).Ok?
    ensures line.Ok? ==> LineFrom(body[offset..]).value == Piece(line.value, body[next..]) && offset < next
    ensures line.Err? ==> line.error == IncompleteChunked
  {
    var end := Find(body, CRLF, offset);
    FindFrom(body, CRLF, offset);
    if end.None? { return Err(IncompleteChunked), offset; }
    next := end.value + 2;
    line := Ok(body[offset..end.value]);
    assert body[offset..][end.value - offset + 2..] == body[next..];
  }

  lemma {:induction false} FindFrom(s: Bytes, pat: Bytes, from: nat)
    requires from <= |s|
    ensures Find(s[from..], pat, 0).Some? <==> Find(s, pat, from).Some?
    ensures Find(s, pat, from).Some? ==> Find(s[from..], pat, 0).value == Find(s, pat, from).value - from
  {
    assert s == s[..from] + s[from..];
    forall j: nat ensures At(s, from + j, pat) <==> At(s[from..], j, pat) {
      AtShift(s[..from], s[from..], j, pat);
    }
    var a, b := Find(s[from..], pat, 0), Find(s, pat, from);
    if a.Some? { assert At(s, from + a.value, pat); }
    if b.Some? { assert At(s, from + (b.value - from), pat) && At(s[from..], b.value - from, pat); }
  }

  method ChunkedBody(body: Bytes) returns (r: Result<Bytes, Fault>)
    ensures r == Unchunked(body)
  {
    var chunks, offset := DataChunks(body);
    if chunks.Err? { return Err(chunks.error); }
    var trailers := TrailerLines(body, offset);
    if trailers.Err? { return Err(trailers.error); }
    var fields := HeaderFields(trailers.value.lines);
    if fields.Err? { return Err(fields.error); }
    if trailers.value.rest != [] { return Err(BytesAfterLastChunk); }
    r := Ok(chunks.value);
  }

  /** The first loop of `_chunked_body`, through the line of the last chunk. */
  method DataChunks(body: Bytes) returns (r: Result<Bytes, Fault>, offset: nat)
    ensures offset <= |body|
    ensures r.Ok? ==> ChunksFrom(body) == Ok(Piece(r.value, body[offset..]))
    ensures r.Err? ==> ChunksFrom(body) == Err(r.error)
  {
    var data: Bytes := [];
    offset := 0;
    assert body[0..] == body;
    PrependNothing(ChunksFrom(body));
    while true
      invariant offset <= |body|
      invariant ChunksFrom(body) == Prepend(data, ChunksFrom(body[offset..]))
      decreases |body| - offset
    {
      var chunk, next := NextChunk(body, offset);
      if chunk.Err? { return Err(chunk.error), offset; }
      if chunk.value.None? {
        assert data + [] == data;
        return Ok(data), next;
      }
      Regroup3(data, chunk.value.value, ChunksFrom(body[next..]));
      data := data + chunk.value.value;
      offset := next;
    }
  }

  /** One pass of that loop: the next chunk's data, or nothing for the last chunk. */
  method NextChunk(body: Bytes, offset: nat) returns (r: Result<Option<Bytes>, Fault>, next: nat)
    requires offset <= |body|
    ensures r.Ok? ==> offset < next <= |body|
    ensures ChunkFrom(body[offset..]) ==
      match r
      case Err(fault) => Err(fault)
      case Ok(None) => Ok(Last(body[next..]))
      case Ok(Some(data)) => Ok(More(data, body[next..]))
  {
    var line, data := ChunkLine(body, offset);
    next := data;
    if line.Err? { return Err(line.error), next; }
    var text := SizeText(line.value);
    if !IsHex(text) { return Err(InvalidChunkSize), next; }
    var size := HexValue(text);
    if size == 0 { return Ok(None), next; }
    AtOffset(body, data, size);
    if !At(body, data + size, CRLF) { return Err(IncompleteChunk), next; }
    next := data + size + 2;
    r := Ok(Some(body[data..data + size]));
  }

  lemma AtOffset(body: Bytes, next: nat, size: nat)
    requires next <= |body|
    ensures At(body[next..], size, CRLF) <==> At(body, next + size, CRLF)
    ensures At(body, next + size, CRLF) ==>
      body[next..][..size] == body[next..next + size] && body[next..][size + 2..] == body[next + size + 2..]
  {
    assert body == body[..next] + body[next..];
    AtShift(body[..next], body[next..], size, CRLF);
  }

  lemma PrependNothing(r: Result<Piece, Fault>)
    ensures Prepend([], r) == r
  {
    if r.Ok? { assert [] + r.value.data == r.value.data; }
  }

  lemma AboveNothing(r: Result<Lines, Fault>)
    ensures Above([], r) == r
  {
    if r.Ok? { assert [] + r.value.lines == r.value.lines; }
  }

  lemma Regroup3(a: Bytes, b: Bytes, r: Result<Piece, Fault>)
    ensures Prepend(a, Prepend(b, r)) == Prepend(a + b, r)
  {
    if r.Ok? { Regroup(a, b, r.value.data); }
  }

  /** The second loop of `_chunked_body`. */
  method TrailerLines(body: Bytes, start: nat) returns (r: Result<Lines, Fault>)
    requires start <= |body|
    ensures r == TrailersFrom(body[start..])
  {
    var trailers: seq<Bytes> := [];
    var offset := start;
    AboveNothing(TrailersFrom(body[start..]));
    while true
      invariant offset <= |body|
      invariant TrailersFrom(body[start..]) == Above(trailers, TrailersFrom(body[offset..]))
      decreases |body| - offset
    {
      var line, next := ChunkLine(body, offset);
      if line.Err? { return Err(line.error); }
      if line.value == [] {
        assert trailers + [] == trailers;
        return Ok(Lines(trailers, body[next..]));
      }
      RegroupLines(trailers, line.value, TrailersFrom(body[next..]));
      trailers := trailers + [line.value];
      offset := next;
    }
  }

  lemma RegroupLines(a: seq<Bytes>, line: Bytes, r: Result<Lines, Fault>)
    ensures Above(a, Above([line], r)) == Above(a + [line], r)
  {
    if r.Ok? { assert a + ([line] + r.value.lines) == (a + [line]) + r.value.lines; }
  }

  // ---------------------------------------------------------------- message framing

  /** What `str.strip` removes from Latin-1 text. */
  predicate Space(b: byte) {
    9 <= b <= 13 || 28 <= b <= 32 || b == 133 || b == 160
  }

  function Strip(s: Bytes): Bytes
    decreases |s|
  {
    if s == [] then []
    else if Space(s[0]) then Strip(s[1..])
    else if Space(s[|s| - 1]) then Strip(s[..|s| - 1])
    else s
  }

  /** The white space characters of Latin-1. */
  const SPACES: set<byte> := {9, 10, 11, 12, 13, 28, 29, 30, 31, 32, 133, 160}

  predicate Blank(s: Bytes) {
    forall i :: 0 <= i < |s| ==> s[i] in SPACES
  }

  ghost predicate Trims(s: Bytes, before: Bytes, kept: Bytes, after: Bytes) {
    && s == before + kept + after && Blank(before) && Blank(after)
    && (kept != [] ==> kept[0] !in SPACES && kept[|kept| - 1] !in SPACES)
  }

  lemma TrimsFirst(b: byte, s: Bytes, before: Bytes, kept: Bytes, after: Bytes)
    requires Space(b) && Trims(s, before, kept, after)
    ensures Trims([b] + s, [b] + before, kept, after)
  {
  }

  lemma TrimsLast(b: byte, s: Bytes, before: Bytes, kept: Bytes, after: Bytes)
    requires Space(b) && Trims(s, before, kept, after)
    ensures Trims(s + [b], before, kept, after + [b])
  {
  }

  /** Only spaces are removed, at both ends, and none is left there. */
  lemma {:induction false} StripExactly(s: Bytes) returns (before: Bytes, after: Bytes)
    ensures Trims(s, before, Strip(s), after)
    decreases |s|
  {
    before, after := [], [];
    if s != [] && Space(s[0]) {
      before, after := StripExactly(s[1..]);
      TrimsFirst(s[0], s[1..], before, Strip(s), after);
      assert s == [s[0]] + s[1..];
      before := [s[0]] + before;
    } else if s != [] && Space(s[|s| - 1]) {
      before, after := StripExactly(s[..|s| - 1]);
      TrimsLast(s[|s| - 1], s[..|s| - 1], before, Strip(s), after);
      assert s == s[..|s| - 1] + [s[|s| - 1]];
      after := after + [s[|s| - 1]];
    }
  }

  /** `str.lower` on Latin-1 text. */
  function Lower(s: Bytes): Bytes {
    seq(|s|, i requires 0 <= i < |s| => LowerByte(s[i]))
  }

  function LowerByte(b: byte): byte {
    if 65 <= b <= 90 || (192 <= b <= 222 && b != 215) then b + 32 else b
  }

  function Values(headers: seq<Header>, name: Bytes): seq<Bytes> {
    if headers == [] then []
    else
      var last := headers[|headers| - 1];
      Values(headers[..|headers| - 1], name) + (if Lower(last.name) == name then [Strip(last.value)] else [])
  }

  /** The values of a header, whatever the case of its name, stripped. */
  lemma {:induction false} ValuesExactly(headers: seq<Header>, name: Bytes, value: Bytes)
    ensures value in Values(headers, name) <==>
      exists i :: 0 <= i < |headers| && Lower(headers[i].name) == name && Strip(headers[i].value) == value
    decreases |headers|
  {
    if headers != [] {
      var last := |headers| - 1;
      var front := headers[..last];
      ValuesExactly(front, name, value);
      if value in Values(front, name) {
        var i :| 0 <= i < |front| && Lower(front[i].name) == name && Strip(front[i].value) == value;
        assert headers[i] == front[i];
      }
      forall i | 0 <= i < last && Lower(headers[i].name) == name && Strip(headers[i].value) == value
        ensures value in Values(front, name)
      {
        assert front[i] == headers[i];
      }
    }
  }

  function Lowered(values: seq<Bytes>): seq<Bytes> {
    seq(|values|, i requires 0 <= i < |values| => Lower(values[i]))
  }

  predicate IsDecimal(text: Bytes) {
    text != [] && forall i :: 0 <= i < |text| ==> 48 <= text[i] <= 57
  }

  function DecimalValue(text: Bytes): nat
    requires forall i :: 0 <= i < |text| ==> 48 <= text[i] <= 57
  {
    if text == [] then 0 else 10 * DecimalValue(text[..|text| - 1]) + (text[|text| - 1] - 48) as nat
  }

  predicate LengthsFit(lengths: seq<Bytes>, size: nat) {
    lengths != [] ==>
      && (forall i :: 0 <= i < |lengths| ==> IsDecimal(lengths[i]) && lengths[i] == lengths[0])
      && DecimalValue(lengths[0]) == size
  }

  datatype Parsed = Parsed(headers: seq<Header>, body: Bytes)

  function Parse(raw: Bytes): Result<Parsed, Fault> {
    match HeadOf(raw)
    case Err(fault) => Err(fault)
    case Ok(head) =>
      var encodings := Lowered(Values(head.headers, TRANSFER_ENCODING));
      var lengths := Values(head.headers, CONTENT_LENGTH);
      if encodings != [] then
        if encodings != [CHUNKED] || lengths != [] then Err(UnsupportedFraming)
        else
          match Unchunked(head.rest)
          case Err(fault) => Err(fault)
          case Ok(body) => Ok(Parsed(head.headers, body))
      else if !LengthsFit(lengths, |head.rest|) then Err(LengthMismatch)
      else Ok(Parsed(head.headers, head.rest))
  }

  method ParseSentRequest(raw: Bytes) returns (r: Result<Parsed, Fault>)
    ensures r == Parse(raw)
  {
    var head := RequestHeaders(raw);
    if head.Err? { return Err(head.error); }
    var headers := head.value.headers;
    var encodings, lengths := FramingValues(headers);
    if encodings != [] {
      if encodings != [CHUNKED] || lengths != [] { return Err(UnsupportedFraming); }
      var body := ChunkedBody(head.value.rest);
      if body.Err? { return Err(body.error); }
      return Ok(Parsed(headers, body.value));
    }
    if !LengthsFit(lengths, |head.value.rest|) { return Err(LengthMismatch); }
    r := Ok(Parsed(headers, head.value.rest));
  }

  /** The two comprehensions over the headers. */
  method FramingValues(headers: seq<Header>) returns (encodings: seq<Bytes>, lengths: seq<Bytes>)
    ensures encodings == Lowered(Values(headers, TRANSFER_ENCODING)) && lengths == Values(headers, CONTENT_LENGTH)
  {
    encodings, lengths := [], [];
    for i := 0 to |headers|
      invariant Lowered(Values(headers[..i], TRANSFER_ENCODING)) == encodings
      invariant Values(headers[..i], CONTENT_LENGTH) == lengths
    {
      assert headers[..i + 1][..i] == headers[..i];
      var name := Lower(headers[i].name);
      if name == TRANSFER_ENCODING { encodings := encodings + [Lower(Strip(headers[i].value))]; }
      if name == CONTENT_LENGTH { lengths := lengths + [Strip(headers[i].value)]; }
    }
    assert headers[..|headers|] == headers;
  }
}
