// What a request looks like on the wire, written from its parts, and the two directions that make
// the recovering functions exact: whatever is written is recovered, and whatever is accepted is written.

module HttpRendering {
  import opened Basics
  import opened ByteStrings
  import opened HttpReplay

  // ---------------------------------------------------------------- fields

  /** A header line and the lines folded under it. */
  datatype WireField = WireField(name: Bytes, spaced: bool, first: Bytes, folds: seq<Bytes>)

  function FirstLine(f: WireField): Bytes {
    f.name + [COLON] + ((if f.spaced then [SP] else []) + f.first)
  }

  function FieldLines(f: WireField): seq<Bytes> {
    [FirstLine(f)] + f.folds
  }

  function AllLines(fs: seq<WireField>): seq<Bytes> {
    if fs == [] then [] else AllLines(fs[..|fs| - 1]) + FieldLines(fs[|fs| - 1])
  }

  /** The value keeps the breaks before folded lines. */
  function Meaning(f: WireField): Header {
    Header(f.name, Join([f.first] + f.folds, CRLF))
  }

  function Meanings(fs: seq<WireField>): seq<Header> {
    if fs == [] then [] else Meanings(fs[..|fs| - 1]) + [Meaning(fs[|fs| - 1])]
  }

  ghost predicate GoodField(f: WireField) {
    && f.name != [] && (forall i :: 0 <= i < |f.name| ==> 33 <= f.name[i] <= 126 && f.name[i] != COLON)
    && Free(f.first, CRLF)
    && (!f.spaced && f.first != [] ==> f.first[0] != SP)
    && forall i :: 0 <= i < |f.folds| ==> Indented(f.folds[i]) && Free(f.folds[i], CRLF)
  }

  /** A line that goes on with the field above it: it begins with a space or a tab. */
  predicate Indented(line: Bytes) {
    |line| > 0 && line[0] in {32, 9}
  }

  ghost predicate GoodFields(fs: seq<WireField>) {
    forall i :: 0 <= i < |fs| ==> GoodField(fs[i])
  }

  /** Fields so far and one more line: either a new field, or folded under the last one. */
  lemma NewField(headers: seq<Header>, f: WireField)
    requires GoodField(f)
    ensures AddLine(headers, FirstLine(f)) == Ok(headers + [Meaning(f.(folds := []))])
  {
    var line := FirstLine(f);
    var value := (if f.spaced then [SP] else []) + f.first;
    assert line[0] == f.name[0];
    assert !Folded(line);
    assert Free(f.name, [COLON]) by {
      forall k | 0 <= k <= |f.name| ensures !At(f.name, k, [COLON]) {
        assert k < |f.name| ==> f.name[k..k + 1] == [f.name[k]];
      }
    }
    FirstAfterFree(f.name, [COLON], value);
    assert Unspaced(value) == f.first;
    assert [f.first] + [] == [f.first];
    assert line[..|f.name|] == f.name && line[|f.name| + 1..] == value;
  }

  lemma FoldField(fs: seq<Header>, f: WireField, line: Bytes)
    requires Folded(line)
    ensures AddLine(fs + [Meaning(f)], line) == Ok(fs + [Meaning(f.(folds := f.folds + [line]))])
  {
    var headers := fs + [Meaning(f)];
    assert headers[..|headers| - 1] == fs;
    assert [f.first] + (f.folds + [line]) == ([f.first] + f.folds) + [line];
    JoinSnoc([f.first] + f.folds, line, CRLF);
  }

  lemma AddLast(lines: seq<Bytes>, line: Bytes)
    requires FieldsOf(lines).Ok?
    ensures FieldsOf(lines + [line]) == AddLine(FieldsOf(lines).value, line)
  {
    assert (lines + [line])[..|lines|] == lines;
  }

  lemma {:induction false} AddFolds(lines: seq<Bytes>, headers: seq<Header>, f: WireField)
    requires GoodField(f) && FieldsOf(lines) == Ok(headers)
    ensures FieldsOf(lines + FieldLines(f)) == Ok(headers + [Meaning(f)])
    decreases |f.folds|
  {
    if f.folds == [] {
      AddFirst(lines, headers, f);
    } else {
      var last := |f.folds| - 1;
      var shorter := f.(folds := f.folds[..last]);
      AddFolds(lines, headers, shorter);
      assert f.folds[..last] + [f.folds[last]] == f.folds;
      AddFold(lines, headers, shorter, f.folds[last]);
    }
  }

  lemma AddFirst(lines: seq<Bytes>, headers: seq<Header>, f: WireField)
    requires GoodField(f) && f.folds == [] && FieldsOf(lines) == Ok(headers)
    ensures FieldsOf(lines + FieldLines(f)) == Ok(headers + [Meaning(f)])
  {
    NewField(headers, f);
    AddLast(lines, FirstLine(f));
    assert lines + FieldLines(f) == lines + [FirstLine(f)];
  }

  lemma AddFold(lines: seq<Bytes>, headers: seq<Header>, f: WireField, line: Bytes)
    requires Folded(line) && FieldsOf(lines + FieldLines(f)) == Ok(headers + [Meaning(f)])
    ensures var g := f.(folds := f.folds + [line]); FieldsOf(lines + FieldLines(g)) == Ok(headers + [Meaning(g)])
  {
    var g := f.(folds := f.folds + [line]);
    FoldField(headers, f, line);
    AddLast(lines + FieldLines(f), line);
    assert lines + FieldLines(g) == (lines + FieldLines(f)) + [line];
  }

  /** Written fields are read back in order, folded values included. */
  lemma {:induction false} FieldsReadBack(fs: seq<WireField>)
    requires GoodFields(fs)
    ensures FieldsOf(AllLines(fs)) == Ok(Meanings(fs))
    decreases |fs|
  {
    if fs != [] {
      var last := |fs| - 1;
      FieldsReadBack(fs[..last]);
      AddFolds(AllLines(fs[..last]), Meanings(fs[..last]), fs[last]);
    }
  }

  lemma LineMakesField(line: Bytes) returns (f: WireField)
    requires Free(line, CRLF)
    requires Find(line, [COLON], 0).Some? && ValidName(line[..Find(line, [COLON], 0).value])
    ensures GoodField(f) && f.folds == [] && FirstLine(f) == line
    ensures Meaning(f) == Header(line[..Find(line, [COLON], 0).value], Unspaced(line[Find(line, [COLON], 0).value + 1..]))
  {
    var colon := Find(line, [COLON], 0).value;
    NameBeforeColon(line, colon);
    f := FieldFrom(line, colon);
  }

  lemma NameBeforeColon(line: Bytes, colon: nat)
    requires Find(line, [COLON], 0) == Some(colon)
    ensures colon < |line| && line[colon] == COLON && COLON !in line[..colon]
  {
    AtByte(line, colon, COLON);
    forall i | 0 <= i < colon ensures line[i] != COLON {
      AtByte(line, i, COLON);
    }
  }

  lemma FieldFrom(line: Bytes, colon: nat) returns (f: WireField)
    requires Free(line, CRLF) && colon < |line| && line[colon] == COLON && COLON !in line[..colon] && ValidName(line[..colon])
    ensures GoodField(f) && f.folds == [] && FirstLine(f) == line
    ensures Meaning(f) == Header(line[..colon], Unspaced(line[colon + 1..]))
  {
    var value := line[colon + 1..];
    f := WireField(line[..colon], value != [] && value[0] == SP, Unspaced(value), []);
    assert line == line[..colon] + [COLON] + value;
    assert (if f.spaced then [SP] else []) + f.first == value;
    assert [f.first] + [] == [f.first];
    TailFree(line, |line| - |f.first|);
    assert line[|line| - |f.first|..] == f.first;
  }

  lemma TailFree(s: Bytes, from: nat)
    requires from <= |s| && Free(s, CRLF)
    ensures Free(s[from..], CRLF)
  {
    assert s == s[..from] + s[from..];
    forall k | 0 <= k <= |s[from..]| ensures !At(s[from..], k, CRLF) {
      AtShift(s[..from], s[from..], k, CRLF);
    }
  }

  lemma ExtendFold(front: seq<WireField>, line: Bytes) returns (fs: seq<WireField>)
    requires GoodFields(front) && front != [] && Folded(line) && Free(line, CRLF)
    ensures GoodFields(fs) && AllLines(fs) == AllLines(front) + [line]
    ensures AddLine(Meanings(front), line) == Ok(Meanings(fs))
  {
    var n := |front| - 1;
    var f := front[n];
    var g := f.(folds := f.folds + [line]);
    FoldField(Meanings(front[..n]), f, line);
    fs := front[..n] + [g];
    assert fs[..n] == front[..n];
    assert FieldLines(g) == FieldLines(f) + [line];
    assert AllLines(front[..n]) + (FieldLines(f) + [line]) == (AllLines(front[..n]) + FieldLines(f)) + [line];
  }

  lemma ExtendNew(front: seq<WireField>, line: Bytes) returns (fs: seq<WireField>)
    requires GoodFields(front) && Free(line, CRLF)
    requires Find(line, [COLON], 0).Some? && ValidName(line[..Find(line, [COLON], 0).value])
    ensures GoodFields(fs) && AllLines(fs) == AllLines(front) + [line]
    ensures !(Folded(line) && front != []) ==> AddLine(Meanings(front), line) == Ok(Meanings(fs))
  {
    var f := LineMakesField(line);
    fs := front + [f];
    assert fs[..|front|] == front;
    assert FieldLines(f) == [line];
    MeaningsCount(front);
  }

  lemma {:induction false} MeaningsCount(fs: seq<WireField>)
    ensures |Meanings(fs)| == |fs|
    decreases |fs|
  {
    if fs != [] { MeaningsCount(fs[..|fs| - 1]); }
  }

  /** Accepted lines are some fields written out. */
  lemma {:induction false} FieldsWereWritten(lines: seq<Bytes>) returns (fs: seq<WireField>)
    requires AllFree(lines, CRLF) && FieldsOf(lines).Ok?
    ensures GoodFields(fs) && AllLines(fs) == lines && Meanings(fs) == FieldsOf(lines).value
    decreases |lines|
  {
    fs := [];
    if lines != [] {
      var last := |lines| - 1;
      var front := FieldsWereWritten(lines[..last]);
      assert lines == lines[..last] + [lines[last]];
      MeaningsCount(front);
      if Folded(lines[last]) && front != [] {
        fs := ExtendFold(front, lines[last]);
      } else {
        fs := ExtendNew(front, lines[last]);
      }
    }
  }

  // ---------------------------------------------------------------- header blocks

  datatype Block = Block(verb: Bytes, target: Bytes, version: Bytes, fields: seq<WireField>)

  function RequestLine(b: Block): Bytes {
    Join([b.verb, b.target, b.version], [SP])
  }

  function BlockLines(b: Block): seq<Bytes> {
    [RequestLine(b)] + AllLines(b.fields)
  }

  function RenderBlock(b: Block): Bytes {
    Join(BlockLines(b), CRLF) + BLANK
  }

  ghost predicate GoodBlock(b: Block) {
    && b.verb != [] && b.target != [] && b.version in {HTTP10, HTTP11}
    && AllFree([b.verb, b.target, b.version], [SP])
    && Free(RequestLine(b), CRLF)
    && GoodFields(b.fields)
  }

  function RenderBlocks(bs: seq<Block>): Bytes {
    if bs == [] then [] else RenderBlock(bs[0]) + RenderBlocks(bs[1..])
  }

  ghost predicate GoodConnects(bs: seq<Block>) {
    forall i :: 0 <= i < |bs| ==> GoodBlock(bs[i]) && bs[i].verb == CONNECT
  }

  lemma SimpleSeparators()
    ensures Simple(CRLF) && Simple([SP]) && Simple([COLON]) && Simple([SEMICOLON]) && BLANK == CRLF + CRLF
  {
  }

  lemma {:induction false} LinesAreFree(fs: seq<WireField>)
    requires GoodFields(fs)
    ensures AllFree(AllLines(fs), CRLF)
    ensures forall i :: 0 <= i < |AllLines(fs)| ==> AllLines(fs)[i] != []
    decreases |fs|
  {
    if fs != [] {
      LinesAreFree(fs[..|fs| - 1]);
      FirstLineIsFree(fs[|fs| - 1]);
    }
  }

  lemma FirstLineIsFree(f: WireField)
    requires GoodField(f)
    ensures Free(FirstLine(f), CRLF) && FirstLine(f) != []
  {
    var line := FirstLine(f);
    var before := f.name + [COLON] + (if f.spaced then [SP] else []);
    assert line == before + f.first;
    forall k | 0 <= k <= |line| ensures !At(line, k, CRLF) {
      if k < |before| {
        assert line[k] == before[k] != CR;
        assert k + 2 <= |line| ==> line[k..k + 2][0] == line[k];
      } else {
        AtShift(before, f.first, k - |before|, CRLF);
      }
    }
  }

  /** A written block is found, split and read back, whatever follows it. */
  lemma BlockReadBack(b: Block, rest: Bytes)
    requires GoodBlock(b)
    ensures HeadOf(RenderBlock(b) + rest) == if b.verb == CONNECT then HeadOf(rest) else Ok(Head(Meanings(b.fields), rest))
  {
    var lines, words := BlockLines(b), [b.verb, b.target, b.version];
    SimpleSeparators();
    LinesAreFree(b.fields);
    assert RequestLine(b) != [] by { assert words[0] != []; }
    NoBlankInside(lines, CRLF, rest);
    var raw := Join(lines, CRLF) + BLANK + rest;
    assert raw == RenderBlock(b) + rest;
    assert raw[..|Join(lines, CRLF)|] == Join(lines, CRLF);
    assert raw[|Join(lines, CRLF)| + 4..] == rest;
    SplitJoin(lines, CRLF);
    SplitJoin(words, [SP]);
    assert lines[1..] == AllLines(b.fields);
    FieldsReadBack(b.fields);
  }

  lemma {:induction false} BlocksReadBack(connects: seq<Block>, origin: Block, rest: Bytes)
    requires GoodConnects(connects) && GoodBlock(origin) && origin.verb != CONNECT
    ensures HeadOf(RenderBlocks(connects) + RenderBlock(origin) + rest) == Ok(Head(Meanings(origin.fields), rest))
    decreases |connects|
  {
    if connects == [] {
      assert RenderBlocks(connects) + RenderBlock(origin) + rest == RenderBlock(origin) + rest;
      BlockReadBack(origin, rest);
    } else {
      var more := RenderBlocks(connects[1..]) + RenderBlock(origin) + rest;
      assert RenderBlocks(connects) + RenderBlock(origin) + rest == RenderBlock(connects[0]) + more;
      BlockReadBack(connects[0], more);
      BlocksReadBack(connects[1..], origin, rest);
    }
  }

  lemma BlockFromLines(lines: seq<Bytes>) returns (b: Block)
    requires lines != [] && AllFree(lines, CRLF)
    requires ValidRequestLine(Split(lines[0], [SP])) && FieldsOf(lines[1..]).Ok?
    ensures GoodBlock(b) && BlockLines(b) == lines
    ensures b.verb == Split(lines[0], [SP])[0] && Meanings(b.fields) == FieldsOf(lines[1..]).value
  {
    var words := Split(lines[0], [SP]);
    JoinSplit(lines[0], [SP]);
    var fields := FieldsWereWritten(lines[1..]);
    b := Block(words[0], words[1], words[2], fields);
    assert words == [b.verb, b.target, b.version];
  }

  /** What accepting a request says of the lines before its first empty line. */
  lemma HeadLines(raw: Bytes) returns (end: nat, lines: seq<Bytes>)
    requires HeadOf(raw).Ok?
    ensures end + 4 <= |raw| && raw[end..end + 4] == BLANK && lines == Split(raw[..end], CRLF)
    ensures ValidRequestLine(Split(lines[0], [SP])) && FieldsOf(lines[1..]).Ok?
    ensures HeadOf(raw) == if Split(lines[0], [SP])[0] == CONNECT then HeadOf(raw[end + 4..])
                           else Ok(Head(FieldsOf(lines[1..]).value, raw[end + 4..]))
  {
    end := Find(raw, BLANK, 0).value;
    lines := Split(raw[..end], CRLF);
  }

  /** The first block of an accepted request is some block written out. */
  lemma FirstBlockWasWritten(raw: Bytes) returns (b: Block, rest: Bytes)
    requires HeadOf(raw).Ok?
    ensures GoodBlock(b) && raw == RenderBlock(b) + rest && |rest| < |raw|
    ensures HeadOf(raw) == if b.verb == CONNECT then HeadOf(rest) else Ok(Head(Meanings(b.fields), rest))
  {
    var end, lines := HeadLines(raw);
    rest := raw[end + 4..];
    JoinSplit(raw[..end], CRLF);
    b := BlockFromLines(lines);
    BlockSpelled(raw, end, b);
  }

  lemma BlockSpelled(raw: Bytes, end: nat, b: Block)
    requires end + 4 <= |raw| && raw[end..end + 4] == BLANK && Join(BlockLines(b), CRLF) == raw[..end]
    ensures raw == RenderBlock(b) + raw[end + 4..]
  {
    assert raw == raw[..end] + raw[end..end + 4] + raw[end + 4..];
  }

  /** CONNECT blocks, the origin's block, and what follows it. */
  ghost predicate WrittenAs(raw: Bytes, connects: seq<Block>, origin: Block, rest: Bytes) {
    && GoodConnects(connects) && GoodBlock(origin) && origin.verb != CONNECT
    && raw == RenderBlocks(connects) + RenderBlock(origin) + rest
  }

  lemma OneMoreConnect(b: Block, after: Bytes, more: seq<Block>, origin: Block, rest: Bytes)
    requires GoodBlock(b) && b.verb == CONNECT && WrittenAs(after, more, origin, rest)
    ensures WrittenAs(RenderBlock(b) + after, [b] + more, origin, rest)
  {
    BlockFirst(b, more, RenderBlock(origin), rest);
  }

  lemma {:induction false} BlocksWereWritten(raw: Bytes) returns (connects: seq<Block>, origin: Block, rest: Bytes)
    requires HeadOf(raw).Ok?
    ensures WrittenAs(raw, connects, origin, rest)
    ensures HeadOf(raw) == Ok(Head(Meanings(origin.fields), rest))
    decreases |raw|
  {
    var b, after := FirstBlockWasWritten(raw);
    if b.verb != CONNECT {
      connects, origin, rest := [], b, after;
      assert RenderBlocks([]) + RenderBlock(b) == RenderBlock(b);
    } else {
      var more;
      more, origin, rest := BlocksWereWritten(after);
      connects := [b] + more;
      OneMoreConnect(b, after, more, origin, rest);
    }
  }

  lemma BlockFirst(b: Block, more: seq<Block>, origin: Bytes, rest: Bytes)
    ensures RenderBlocks([b] + more) + origin + rest == RenderBlock(b) + (RenderBlocks(more) + origin + rest)
  {
    assert ([b] + more)[1..] == more;
    Regroup(RenderBlock(b), RenderBlocks(more), origin);
    Regroup(RenderBlock(b), RenderBlocks(more) + origin, rest);
  }

  // ---------------------------------------------------------------- chunked bodies

  /** A size line is hexadecimal text and an extension that is empty or begins with a semicolon. */
  datatype SizeLine = SizeLine(size: Bytes, extension: Bytes)
  datatype WireChunk = WireChunk(line: SizeLine, data: Bytes)
  datatype Coding = Coding(chunks: seq<WireChunk>, last: SizeLine, trailers: seq<WireField>)

  ghost predicate GoodSize(l: SizeLine, size: nat) {
    && IsHex(l.size) && HexValue(l.size) == size
    && (l.extension == [] || l.extension[0] == SEMICOLON)
    && Free(l.size + l.extension, CRLF)
  }

  ghost predicate GoodChunks(cs: seq<WireChunk>) {
    forall i :: 0 <= i < |cs| ==> cs[i].data != [] && GoodSize(cs[i].line, |cs[i].data|)
  }

  ghost predicate GoodCoding(c: Coding) {
    GoodChunks(c.chunks) && GoodSize(c.last, 0) && GoodFields(c.trailers)
  }

  function RenderSize(l: SizeLine): Bytes {
    l.size + l.extension + CRLF
  }

  function RenderChunk(c: WireChunk): Bytes {
    RenderSize(c.line) + c.data + CRLF
  }

  function RenderChunks(cs: seq<WireChunk>): Bytes {
    if cs == [] then [] else RenderChunk(cs[0]) + RenderChunks(cs[1..])
  }

  function Terminated(lines: seq<Bytes>): Bytes {
    if lines == [] then CRLF else lines[0] + CRLF + Terminated(lines[1..])
  }

  function RenderCoding(c: Coding): Bytes {
    RenderChunks(c.chunks) + (RenderSize(c.last) + Terminated(AllLines(c.trailers)))
  }

  function Data(cs: seq<WireChunk>): Bytes {
    if cs == [] then [] else cs[0].data + Data(cs[1..])
  }

  lemma LineReadBack(line: Bytes, rest: Bytes)
    requires Free(line, CRLF)
    ensures LineFrom(line + CRLF + rest) == Ok(Piece(line, rest))
  {
    SimpleSeparators();
    FirstAfterFree(line, CRLF, rest);
  }

  lemma SizeReadBack(l: SizeLine, size: nat, rest: Bytes)
    requires GoodSize(l, size)
    ensures LineFrom(RenderSize(l) + rest) == Ok(Piece(l.size + l.extension, rest))
    ensures SizeText(l.size + l.extension) == l.size
  {
    LineReadBack(l.size + l.extension, rest);
    SimpleSeparators();
    assert Free(l.size, [SEMICOLON]) by {
      forall k | 0 <= k <= |l.size| ensures !At(l.size, k, [SEMICOLON]) {
        assert k < |l.size| ==> l.size[k..k + 1] == [l.size[k]] && HexDigit(l.size[k]).Some?;
      }
    }
    if l.extension == [] {
      assert l.size + l.extension == l.size;
    } else {
      FirstAfterFree(l.size, [SEMICOLON], l.extension[1..]);
      assert l.size + [SEMICOLON] + l.extension[1..] == l.size + l.extension;
    }
  }

  lemma ChunkReadBack(c: WireChunk, rest: Bytes)
    requires c.data != [] && GoodSize(c.line, |c.data|)
    ensures ChunkFrom(RenderChunk(c) + rest) == Ok(More(c.data, rest))
  {
    var after := c.data + CRLF + rest;
    assert RenderChunk(c) + rest == RenderSize(c.line) + after;
    SizeReadBack(c.line, |c.data|, after);
    assert after[|c.data|..|c.data| + 2] == CRLF;
    assert after[..|c.data|] == c.data && after[|c.data| + 2..] == rest;
  }

  lemma {:induction false} ChunksReadBack(cs: seq<WireChunk>, last: SizeLine, rest: Bytes)
    requires GoodChunks(cs) && GoodSize(last, 0)
    ensures ChunksFrom(RenderChunks(cs) + (RenderSize(last) + rest)) == Ok(Piece(Data(cs), rest))
    decreases |cs|
  {
    if cs == [] {
      SizeReadBack(last, 0, rest);
      assert RenderChunks(cs) + (RenderSize(last) + rest) == RenderSize(last) + rest;
    } else {
      var more := RenderChunks(cs[1..]) + (RenderSize(last) + rest);
      assert RenderChunks(cs) + (RenderSize(last) + rest) == RenderChunk(cs[0]) + more;
      ChunkReadBack(cs[0], more);
      ChunksReadBack(cs[1..], last, rest);
    }
  }

  lemma {:induction false} TrailersReadBack(lines: seq<Bytes>)
    requires AllFree(lines, CRLF) && forall i :: 0 <= i < |lines| ==> lines[i] != []
    ensures TrailersFrom(Terminated(lines)) == Ok(Lines(lines, []))
    decreases |lines|
  {
    if lines == [] {
      assert [] + CRLF + [] == CRLF;
      LineReadBack([], []);
    } else {
      LineReadBack(lines[0], Terminated(lines[1..]));
      TrailersReadBack(lines[1..]);
      assert [lines[0]] + lines[1..] == lines;
    }
  }

  /** Any split of the data into nonempty chunks, with any extensions and trailers, is undone. */
  lemma CodingReadBack(c: Coding)
    requires GoodCoding(c)
    ensures Unchunked(RenderCoding(c)) == Ok(Data(c.chunks))
  {
    var lines := AllLines(c.trailers);
    ChunksReadBack(c.chunks, c.last, Terminated(lines));
    LinesAreFree(c.trailers);
    TrailersReadBack(lines);
    FieldsReadBack(c.trailers);
  }

  lemma LineWasWritten(rest: Bytes)
    requires LineFrom(rest).Ok?
    ensures var line := LineFrom(rest).value; rest == line.data + CRLF + line.rest && Free(line.data, CRLF)
  {
    var end := Find(rest, CRLF, 0).value;
    FreePrefix(rest, CRLF, end);
    assert rest == rest[..end] + rest[end..end + 2] + rest[end + 2..];
  }

  lemma SizeWasWritten(rest: Bytes) returns (l: SizeLine)
    requires LineFrom(rest).Ok? && IsHex(SizeText(LineFrom(rest).value.data))
    ensures GoodSize(l, HexValue(SizeText(LineFrom(rest).value.data)))
    ensures rest == RenderSize(l) + LineFrom(rest).value.rest
  {
    LineWasWritten(rest);
    var line := LineFrom(rest).value.data;
    var text := SizeText(line);
    l := SizeLine(text, line[|text|..]);
    assert l.size + l.extension == line;
    var semi := Find(line, [SEMICOLON], 0);
    if semi.Some? {
      assert line[semi.value..semi.value + 1] == [SEMICOLON];
      assert l.extension[0] == line[semi.value];
    }
  }

  lemma LastWasWritten(rest: Bytes) returns (l: SizeLine)
    requires ChunkFrom(rest).Ok? && ChunkFrom(rest).value.Last?
    ensures GoodSize(l, 0) && rest == RenderSize(l) + ChunkFrom(rest).value.rest
  {
    l := SizeWasWritten(rest);
  }

  lemma ChunkWasWritten(rest: Bytes) returns (c: WireChunk)
    requires ChunkFrom(rest).Ok? && ChunkFrom(rest).value.More?
    ensures c.data == ChunkFrom(rest).value.data != [] && GoodSize(c.line, |c.data|)
    ensures rest == RenderChunk(c) + ChunkFrom(rest).value.rest
  {
    var l := SizeWasWritten(rest);
    var line := LineFrom(rest).value;
    var size := HexValue(SizeText(line.data));
    c := WireChunk(l, line.rest[..size]);
    DataThenBreak(line.rest, size);
    Regroup(RenderSize(l), c.data + CRLF, line.rest[size + 2..]);
    Regroup(RenderSize(l), c.data, CRLF);
  }

  lemma DataThenBreak(s: Bytes, size: nat)
    requires At(s, size, CRLF)
    ensures size + 2 <= |s| && s == s[..size] + CRLF + s[size + 2..] && |s[..size]| == size
  {
    assert s == s[..size] + s[size..size + 2] + s[size + 2..];
  }

  ghost predicate ChunkedAs(rest: Bytes, cs: seq<WireChunk>, last: SizeLine, after: Bytes) {
    GoodChunks(cs) && GoodSize(last, 0) && rest == RenderChunks(cs) + (RenderSize(last) + after)
  }

  lemma OneMoreChunk(c: WireChunk, rest: Bytes, more: seq<WireChunk>, last: SizeLine, after: Bytes)
    requires c.data != [] && GoodSize(c.line, |c.data|) && ChunkedAs(rest, more, last, after)
    ensures ChunkedAs(RenderChunk(c) + rest, [c] + more, last, after) && Data([c] + more) == c.data + Data(more)
  {
    assert ([c] + more)[1..] == more;
    Regroup(RenderChunk(c), RenderChunks(more), RenderSize(last) + after);
  }

  lemma {:induction false} ChunksWereWritten(rest: Bytes) returns (cs: seq<WireChunk>, last: SizeLine)
    requires ChunksFrom(rest).Ok?
    ensures ChunkedAs(rest, cs, last, ChunksFrom(rest).value.rest)
    ensures Data(cs) == ChunksFrom(rest).value.data
    decreases |rest|
  {
    if ChunkFrom(rest).value.Last? {
      cs := [];
      last := LastWasWritten(rest);
    } else {
      var c := ChunkWasWritten(rest);
      var after := ChunkFrom(rest).value.rest;
      var more;
      more, last := ChunksWereWritten(after);
      cs := [c] + more;
      OneMoreChunk(c, after, more, last, ChunksFrom(after).value.rest);
    }
  }

  lemma {:induction false} TrailersWereWritten(rest: Bytes)
    requires TrailersFrom(rest).Ok?
    ensures var r := TrailersFrom(rest).value; AllFree(r.lines, CRLF) && rest == Terminated(r.lines) + r.rest
    decreases |rest|
  {
    LineWasWritten(rest);
    var line := LineFrom(rest).value;
    if line.data == [] {
      assert rest == CRLF + line.rest;
    } else {
      TrailersWereWritten(line.rest);
      var more := TrailersFrom(line.rest).value;
      assert ([line.data] + more.lines)[1..] == more.lines;
      Regroup(line.data + CRLF, Terminated(more.lines), more.rest);
    }
  }

  /** An accepted chunked body is some coding of the recovered data, consumed to the last byte. */
  lemma CodingWasWritten(body: Bytes) returns (c: Coding)
    requires Unchunked(body).Ok?
    ensures GoodCoding(c) && RenderCoding(c) == body && Data(c.chunks) == Unchunked(body).value
  {
    var cs, last := ChunksWereWritten(body);
    var rest := ChunksFrom(body).value.rest;
    TrailersWereWritten(rest);
    var fields := FieldsWereWritten(TrailersFrom(rest).value.lines);
    c := Coding(cs, last, fields);
    assert rest == Terminated(AllLines(fields)) + [];
  }

  // ---------------------------------------------------------------- whole requests

  datatype Framing = Plain(body: Bytes) | Chunked(coding: Coding)

  /** Leading CONNECT blocks, the origin's block, and its body. */
  datatype Request = Request(connects: seq<Block>, origin: Block, framing: Framing)

  function Render(q: Request): Bytes {
    RenderBlocks(q.connects) + RenderBlock(q.origin)
      + (match q.framing case Plain(body) => body case Chunked(coding) => RenderCoding(coding))
  }

  function Content(q: Request): Bytes {
    match q.framing case Plain(body) => body case Chunked(coding) => Data(coding.chunks)
  }

  ghost predicate GoodRequest(q: Request) {
    var headers := Meanings(q.origin.fields);
    var encodings := Lowered(Values(headers, TRANSFER_ENCODING));
    var lengths := Values(headers, CONTENT_LENGTH);
    && GoodConnects(q.connects) && GoodBlock(q.origin) && q.origin.verb != CONNECT
    && match q.framing
       case Plain(body) => encodings == [] && Declare(lengths, |body|)
       case Chunked(coding) => encodings == [CHUNKED] && lengths == [] && GoodCoding(coding)
  }

  /** Parsing inverts writing. */
  lemma ParseInvertsRender(q: Request)
    requires GoodRequest(q)
    ensures Parse(Render(q)) == Ok(Parsed(Meanings(q.origin.fields), Content(q)))
  {
    match q.framing {
      case Plain(body) => LengthDecides(q.connects, q.origin, body);
      case Chunked(coding) =>
        BlocksReadBack(q.connects, q.origin, RenderCoding(coding));
        CodingReadBack(coding);
    }
  }

  /** Whatever is accepted was written from some well-formed request with that result. */
  lemma AcceptedWasWritten(raw: Bytes) returns (q: Request)
    requires Parse(raw).Ok?
    ensures GoodRequest(q) && Render(q) == raw
    ensures Parse(raw) == Ok(Parsed(Meanings(q.origin.fields), Content(q)))
  {
    var connects, origin, rest := BlocksWereWritten(raw);
    var headers := Meanings(origin.fields);
    if Lowered(Values(headers, TRANSFER_ENCODING)) == [] {
      LengthsFitExactly(Values(headers, CONTENT_LENGTH), |rest|);
      q := Request(connects, origin, Plain(rest));
    } else {
      var coding := CodingWasWritten(rest);
      q := Request(connects, origin, Chunked(coding));
    }
  }

  /** Acceptance and result, exactly: the parser accepts precisely the well-formed requests. */
  lemma ParseExactly(raw: Bytes, headers: seq<Header>, body: Bytes)
    ensures Parse(raw) == Ok(Parsed(headers, body))
      <==> exists q :: GoodRequest(q) && Render(q) == raw && Meanings(q.origin.fields) == headers && Content(q) == body
  {
    if Parse(raw) == Ok(Parsed(headers, body)) {
      var q := AcceptedWasWritten(raw);
    }
    forall q | GoodRequest(q) && Render(q) == raw && Meanings(q.origin.fields) == headers && Content(q) == body
      ensures Parse(raw) == Ok(Parsed(headers, body))
    {
      ParseInvertsRender(q);
    }
  }

  // ---------------------------------------------------------------- every split has a coding

  const LOWER_DIGITS: Bytes := [48, 49, 50, 51, 52, 53, 54, 55, 56, 57, 97, 98, 99, 100, 101, 102]
  const UPPER_DIGITS: Bytes := [48, 49, 50, 51, 52, 53, 54, 55, 56, 57, 65, 66, 67, 68, 69, 70]

  /** Digits count by their place in either list, and nothing else is one. */
  lemma HexDigitExactly(b: byte, value: nat)
    ensures HexDigit(b) == Some(value) <==> value < 16 && (b == LOWER_DIGITS[value] || b == UPPER_DIGITS[value])
  {
  }

  /** A number in hexadecimal, with small or with capital letters. */
  function HexText(n: nat, capitals: bool): Bytes {
    var low := (if capitals then UPPER_DIGITS else LOWER_DIGITS)[n % 16];
    if n < 16 then [low] else HexText(n / 16, capitals) + [low]
  }

  lemma {:induction false} HexTextValue(n: nat, capitals: bool)
    ensures IsHex(HexText(n, capitals)) && HexValue(HexText(n, capitals)) == n
  {
    var low := (if capitals then UPPER_DIGITS else LOWER_DIGITS)[n % 16];
    HexDigitExactly(low, n % 16);
    if n < 16 {
      assert [low][..0] == [];
    } else {
      HexTextValue(n / 16, capitals);
      assert HexText(n, capitals)[..|HexText(n, capitals)| - 1] == HexText(n / 16, capitals);
    }
  }

  function Cut(pieces: seq<Bytes>, capitals: bool): seq<WireChunk> {
    seq(|pieces|, i requires 0 <= i < |pieces| => WireChunk(SizeLine(HexText(|pieces[i]|, capitals), []), pieces[i]))
  }

  lemma PlainSize(n: nat, capitals: bool)
    ensures GoodSize(SizeLine(HexText(n, capitals), []), n)
  {
    HexTextValue(n, capitals);
    var text := HexText(n, capitals) + [];
    assert text == HexText(n, capitals);
    forall k | 0 <= k <= |text| ensures !At(text, k, CRLF) {
      assert k < |text| ==> HexDigit(text[k]).Some?;
      assert k + 2 <= |text| ==> text[k..k + 2][0] == text[k];
    }
  }

  lemma {:induction false} CutKeepsData(pieces: seq<Bytes>, capitals: bool)
    ensures Data(Cut(pieces, capitals)) == Flatten(pieces)
    decreases |pieces|
  {
    if pieces != [] {
      CutKeepsData(pieces[1..], capitals);
      assert Cut(pieces, capitals)[1..] == Cut(pieces[1..], capitals);
      FlattenFirst(pieces);
    }
  }

  /** However a body is split into nonempty chunks, and whatever the case of their sizes, the same body comes back. */
  lemma AnySplitIsUndone(connects: seq<Block>, origin: Block, pieces: seq<Bytes>, trailers: seq<WireField>, capitals: bool)
    requires GoodConnects(connects) && GoodBlock(origin) && origin.verb != CONNECT && GoodFields(trailers)
    requires Lowered(Values(Meanings(origin.fields), TRANSFER_ENCODING)) == [CHUNKED]
    requires Values(Meanings(origin.fields), CONTENT_LENGTH) == []
    requires forall i :: 0 <= i < |pieces| ==> pieces[i] != []
    ensures var coding := Coding(Cut(pieces, capitals), SizeLine(HexText(0, capitals), []), trailers);
      Parse(Render(Request(connects, origin, Chunked(coding)))) == Ok(Parsed(Meanings(origin.fields), Flatten(pieces)))
  {
    var coding := Coding(Cut(pieces, capitals), SizeLine(HexText(0, capitals), []), trailers);
    CutIsGood(pieces, trailers, capitals);
    CutKeepsData(pieces, capitals);
    ParseInvertsRender(Request(connects, origin, Chunked(coding)));
  }

  lemma CutIsGood(pieces: seq<Bytes>, trailers: seq<WireField>, capitals: bool)
    requires GoodFields(trailers) && forall i :: 0 <= i < |pieces| ==> pieces[i] != []
    ensures GoodCoding(Coding(Cut(pieces, capitals), SizeLine(HexText(0, capitals), []), trailers))
  {
    PlainSize(0, capitals);
    forall i | 0 <= i < |pieces| ensures GoodSize(Cut(pieces, capitals)[i].line, |Cut(pieces, capitals)[i].data|) {
      PlainSize(|pieces[i]|, capitals);
    }
  }

  // ---------------------------------------------------------------- declared lengths

  function DecimalText(n: nat): Bytes {
    if n < 10 then [48 + n] else DecimalText(n / 10) + [48 + n % 10]
  }

  lemma {:induction false} DecimalTextValue(n: nat)
    ensures IsDecimal(DecimalText(n)) && DecimalValue(DecimalText(n)) == n
  {
    var text := DecimalText(n);
    if n < 10 {
      assert text[..0] == [];
    } else {
      DecimalTextValue(n / 10);
      assert text[..|text| - 1] == DecimalText(n / 10);
    }
  }

  /** Leading zeros do not change a number. */
  lemma {:induction false} LeadingZero(text: Bytes)
    requires IsDecimal(text)
    ensures IsDecimal([48] + text) && DecimalValue([48] + text) == DecimalValue(text)
    decreases |text|
  {
    var longer := [48] + text;
    var last := |text| - 1;
    assert longer[..|text|] == [48] + text[..last];
    if last == 0 {
      assert text[..0] == [] && longer[..1] == [48] && [48][..0] == [];
      assert DecimalValue(longer[..1]) == 0;
    } else {
      LeadingZero(text[..last]);
    }
  }

  /** Zeros, perhaps none, and then the number. */
  predicate ZerosThen(text: Bytes, n: nat) {
    exists k :: 0 <= k <= |text| && (forall i :: 0 <= i < k ==> text[i] == 48) && text[k..] == DecimalText(n)
  }

  lemma {:induction false} ZerosAreDecimal(text: Bytes, n: nat, k: nat)
    requires k <= |text| && (forall i :: 0 <= i < k ==> text[i] == 48) && text[k..] == DecimalText(n)
    ensures IsDecimal(text) && DecimalValue(text) == n
    decreases k
  {
    if k == 0 {
      assert text[0..] == text;
      DecimalTextValue(n);
    } else {
      ZerosAreDecimal(text[1..], n, k - 1);
      LeadingZero(text[1..]);
      assert text == [48] + text[1..];
    }
  }

  lemma OneDigit(text: Bytes)
    requires |text| == 1 && IsDecimal(text)
    ensures DecimalValue(text) < 10 && text == DecimalText(DecimalValue(text))
  {
    var none := text[..0];
    assert none == [] && DecimalValue(none) == 0;
    assert DecimalValue(text) == 10 * DecimalValue(none) + (text[0] - 48) as nat;
  }

  lemma NextDigit(n: nat, digit: byte)
    requires n > 0 && 48 <= digit <= 57
    ensures DecimalText(10 * n + (digit - 48) as nat) == DecimalText(n) + [digit]
  {
    var m := 10 * n + (digit - 48) as nat;
    assert m / 10 == n && m % 10 == (digit - 48) as nat;
  }

  /** One digit more behind zeros and a number. */
  lemma OneDigitMore(front: Bytes, digit: byte, n: nat)
    requires ZerosThen(front, n) && 48 <= digit <= 57
    ensures ZerosThen(front + [digit], 10 * n + (digit - 48) as nat)
  {
    var k :| 0 <= k <= |front| && (forall i :: 0 <= i < k ==> front[i] == 48) && front[k..] == DecimalText(n);
    if n == 0 { BehindZero(front, digit, k); } else { BehindNumber(front, digit, n, k); }
  }

  lemma BehindZero(front: Bytes, digit: byte, k: nat)
    requires k <= |front| && (forall i :: 0 <= i < k ==> front[i] == 48) && front[k..] == [48] && 48 <= digit <= 57
    ensures ZerosThen(front + [digit], (digit - 48) as nat)
  {
    var text := front + [digit];
    assert front[k] == front[k..][0];
    assert text[k + 1..] == [digit];
  }

  lemma BehindNumber(front: Bytes, digit: byte, n: nat, k: nat)
    requires k <= |front| && (forall i :: 0 <= i < k ==> front[i] == 48) && front[k..] == DecimalText(n) && n > 0 && 48 <= digit <= 57
    ensures ZerosThen(front + [digit], 10 * n + (digit - 48) as nat)
  {
    NextDigit(n, digit);
    assert (front + [digit])[k..] == front[k..] + [digit];
  }

  lemma {:induction false} DecimalIsZeros(text: Bytes)
    requires IsDecimal(text)
    ensures ZerosThen(text, DecimalValue(text))
    decreases |text|
  {
    var last := |text| - 1;
    if last == 0 {
      OneDigit(text);
      assert text[0..] == text;
    } else {
      var front := text[..last];
      DecimalIsZeros(front);
      OneDigitMore(front, text[last], DecimalValue(front));
      assert text == front + [text[last]];
    }
  }

  /** Declared lengths fit a body exactly when all are written alike, as its length in decimal behind any zeros. */
  predicate Declare(lengths: seq<Bytes>, size: nat) {
    forall i :: 0 <= i < |lengths| ==> lengths[i] == lengths[0] && ZerosThen(lengths[i], size)
  }

  lemma LengthsFitExactly(lengths: seq<Bytes>, size: nat)
    ensures LengthsFit(lengths, size) <==> Declare(lengths, size)
  {
    if lengths != [] {
      if IsDecimal(lengths[0]) { DecimalIsZeros(lengths[0]); }
      if ZerosThen(lengths[0], size) {
        var k :| 0 <= k <= |lengths[0]| && (forall i :: 0 <= i < k ==> lengths[0][i] == 48) && lengths[0][k..] == DecimalText(size);
        ZerosAreDecimal(lengths[0], size, k);
      }
    }
  }

  /** A request without transfer coding is accepted, with its body, exactly when every declared length is
      the number of its bytes in decimal, behind any zeros, and all are written alike. */
  lemma LengthDecides(connects: seq<Block>, origin: Block, body: Bytes)
    requires GoodConnects(connects) && GoodBlock(origin) && origin.verb != CONNECT
    requires Values(Meanings(origin.fields), TRANSFER_ENCODING) == []
    ensures Parse(Render(Request(connects, origin, Plain(body)))) ==
      if Declare(Values(Meanings(origin.fields), CONTENT_LENGTH), |body|)
      then Ok(Parsed(Meanings(origin.fields), body)) else Err(LengthMismatch)
  {
    BlocksReadBack(connects, origin, body);
    LengthsFitExactly(Values(Meanings(origin.fields), CONTENT_LENGTH), |body|);
    ParsesPlain(Render(Request(connects, origin, Plain(body))), Meanings(origin.fields), body);
  }

  lemma ParsesPlain(raw: Bytes, headers: seq<Header>, body: Bytes)
    requires HeadOf(raw) == Ok(Head(headers, body)) && Values(headers, TRANSFER_ENCODING) == []
    ensures Parse(raw) ==
      if LengthsFit(Values(headers, CONTENT_LENGTH), |body|) then Ok(Parsed(headers, body)) else Err(LengthMismatch)
  {
  }

  // ---------------------------------------------------------------- names

  predicate SmallLetter(b: byte) {
    97 <= b <= 122
  }

  /** Written in small letters and hyphens, as the framing names and the coding's name are. */
  predicate Plainly(text: Bytes) {
    forall i :: 0 <= i < |text| ==> SmallLetter(text[i]) || text[i] == 45
  }

  /** Text reads as such a name exactly when it has the same letters, each small or capital. */
  lemma NameInAnyCase(text: Bytes, name: Bytes)
    requires Plainly(name)
    ensures Lower(text) == name <==>
      |text| == |name| && forall i :: 0 <= i < |name| ==> text[i] == name[i] || (SmallLetter(name[i]) && text[i] == name[i] - 32)
  {
    assert |Lower(text)| == |text|;
    forall i | 0 <= i < |text| && i < |name|
      ensures Lower(text)[i] == name[i] <==> text[i] == name[i] || (SmallLetter(name[i]) && text[i] == name[i] - 32)
    {
      assert SmallLetter(name[i]) || name[i] == 45;
    }
    if Lower(text) == name {
      forall i | 0 <= i < |name| ensures text[i] == name[i] || (SmallLetter(name[i]) && text[i] == name[i] - 32) {
        assert Lower(text)[i] == name[i];
      }
    }
  }

  function Ascii(text: string): Bytes {
    seq(|text|, i requires 0 <= i < |text| => if text[i] < 128 as char then text[i] as int else 0)
  }

  lemma Spelling()
    ensures TRANSFER_ENCODING == Ascii("transfer-encoding") && CONTENT_LENGTH == Ascii("content-length") && CHUNKED == Ascii("chunked")
    ensures CONNECT == Ascii("CONNECT") && HTTP10 == Ascii("HTTP/1.0") && HTTP11 == Ascii("HTTP/1.1")
    ensures Plainly(TRANSFER_ENCODING) && Plainly(CONTENT_LENGTH) && Plainly(CHUNKED)
  {
  }
}
