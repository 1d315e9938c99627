/** splitDetailsAtLines: details cut between lines into parts that each fit a byte limit. */
module DetailsSplitter {
  import opened Text
  import opened Utf8
  import opened Markdown
  import opened MarkdownLaws

  const LINE_TRUNCATED := "... (line truncated)\n"

  /** One part: what was open where it starts, the lines it holds, what is open where it ends. */
  datatype Piece = Piece(start: MdState, kept: seq<string>, end: MdState)

  /** The parts finished so far, and the one being filled. */
  datatype Split = Split(done: seq<Piece>, open: Piece)

  const START := Split([], Piece(EMPTY, [], EMPTY))

  function Buffer(p: Piece): string {
    Opener(p.start) + Concat(p.kept)
  }

  function Render(p: Piece): string {
    Buffer(p) + Closer(p.end)
  }

  function RenderAll(pieces: seq<Piece>): seq<string> {
    seq(|pieces|, i requires 0 <= i < |pieces| => Render(pieces[i]))
  }

  /** What is left for the line itself, when the part ends after it. */
  function Room(s: MdState, line: string, used: nat, maxLen: int): int {
    maxLen - used - CloserLen(Next(s, line))
  }

  function Truncated(line: string, room: int): string {
    CutAtRune(line, room - |LINE_TRUNCATED|) + LINE_TRUNCATED
  }

  /** The line as it is written: whole if it fits, otherwise cut and marked, at worst only the mark. */
  function Shorten(s: MdState, line: string, used: nat, maxLen: int): string
    decreases |line|
  {
    var room := Room(s, line, used, maxLen);
    if |line| <= room then line
    else if room < |LINE_TRUNCATED| then LINE_TRUNCATED
    else
      CutAtRuneIsLongest(line, room - |LINE_TRUNCATED|);
      Shorten(s, Truncated(line, room), used, maxLen)
  }

  /** The part cannot take the line and still be closed within maxLen. */
  predicate Overflows(p: Piece, line: string, maxLen: int) {
    p.kept != [] && |Buffer(p)| + |line| + CloserLen(Next(p.end, line)) > maxLen
  }

  function Put(p: Piece, line: string, maxLen: int): Piece {
    var written := Shorten(p.end, line, |Buffer(p)|, maxLen);
    Piece(p.start, p.kept + [written], Next(p.end, written))
  }

  function AddLine(s: Split, line: string, maxLen: int): Split {
    if Overflows(s.open, line, maxLen) then
      Split(s.done + [s.open], Put(Piece(s.open.end, [], s.open.end), line, maxLen))
    else Split(s.done, Put(s.open, line, maxLen))
  }

  function Fill(lines: seq<string>, maxLen: int): Split {
    if lines == [] then START else AddLine(Fill(lines[..|lines| - 1], maxLen), lines[|lines| - 1], maxLen)
  }

  function Pieces(content: string, maxLen: int): seq<Piece> {
    var s := Fill(Lines(content), maxLen);
    s.done + [s.open]
  }

  /** Content this short, and all of it under a limit that leaves no room, is not cut. */
  predicate LeftWhole(content: string, maxLen: int) {
    maxLen <= 0 || |content| <= maxLen
  }

  function SplitDetails(content: string, maxLen: int): seq<string> {
    if LeftWhole(content, maxLen) then [content] else RenderAll(Pieces(content, maxLen))
  }

  /** The marker takes the place of a line without opening or closing anything. */
  lemma MarkerChangesNothing(s: MdState)
    ensures Next(s, LINE_TRUNCATED) == s
  {
    PlainLine(s, LINE_TRUNCATED);
  }

  method ShortenLoop(s: MdState, line: string, used: nat, maxLen: int) returns (written: string, after: MdState)
    ensures written == Shorten(s, line, used, maxLen)
    ensures after == Next(s, written)
  {
    hide Next;
    written := line;
    after := Next(s, line);
    var room := maxLen - used - CloserLen(after);
    while |written| > room
      invariant after == Next(s, written)
      invariant room == Room(s, written, used, maxLen)
      invariant Shorten(s, written, used, maxLen) == Shorten(s, line, used, maxLen)
      decreases |written|
    {
      if room < |LINE_TRUNCATED| {
        written := LINE_TRUNCATED;
        after := s;
        MarkerChangesNothing(s);
        break;
      }
      CutAtRuneIsLongest(written, room - |LINE_TRUNCATED|);
      var cut := CutAtRuneLoop(written, room - |LINE_TRUNCATED|);
      written := cut + LINE_TRUNCATED;
      after := NextLoop(s, written);
      room := maxLen - used - CloserLen(after);
    }
  }

  lemma FillStep(lines: seq<string>, i: nat, maxLen: int)
    requires i < |lines|
    ensures Fill(lines[..i + 1], maxLen) == AddLine(Fill(lines[..i], maxLen), lines[i], maxLen)
  {
    assert lines[..i + 1][..i] == lines[..i];
  }

  lemma RenderAllSnoc(pieces: seq<Piece>, p: Piece)
    ensures RenderAll(pieces + [p]) == RenderAll(pieces) + [Render(p)]
  {
  }

  lemma BufferStep(p: Piece, written: string)
    ensures Buffer(Piece(p.start, p.kept + [written], Next(p.end, written))) == Buffer(p) + written
  {
    ConcatSnoc(p.kept, written);
  }

  /** The variables of the loop hold what the pieces hold. */
  predicate Holds(acc: Split, parts: seq<string>, buf: string, state: MdState, hasContent: bool) {
    && parts == RenderAll(acc.done)
    && buf == Buffer(acc.open)
    && state == acc.open.end
    && (hasContent <==> acc.open.kept != [])
  }

  lemma LineCuts(acc: Split, parts: seq<string>, buf: string, state: MdState, line: string, maxLen: int)
    requires Holds(acc, parts, buf, state, true) && |buf| + |line| + CloserLen(Next(state, line)) > maxLen
    ensures var w := Shorten(state, line, |Opener(state)|, maxLen);
            Holds(AddLine(acc, line, maxLen), parts + [buf + Closer(state)], Opener(state) + w, Next(state, w), true)
  {
    hide Next, Opener, Closer, CloserLen, Shorten, Buffer, RenderAll;
    var blank := Piece(state, [], state);
    BufferOfFresh(state);
    BufferStep(blank, Shorten(state, line, |Buffer(blank)|, maxLen));
    RenderAllSnoc(acc.done, acc.open);
  }

  lemma LineStays(
      acc: Split, parts: seq<string>, buf: string, state: MdState, hasContent: bool, line: string, maxLen: int)
    requires Holds(acc, parts, buf, state, hasContent)
    requires !(hasContent && |buf| + |line| + CloserLen(Next(state, line)) > maxLen)
    ensures var w := Shorten(state, line, |buf|, maxLen);
            Holds(AddLine(acc, line, maxLen), parts, buf + w, Next(state, w), true)
  {
    hide Next, CloserLen, Shorten, Buffer, RenderAll;
    BufferStep(acc.open, Shorten(state, line, |buf|, maxLen));
  }

  lemma HoldsAtStart()
    ensures Holds(START, [], "", EMPTY, false)
  {
    NothingOpens();
  }

  lemma LastPart(acc: Split, parts: seq<string>, buf: string, state: MdState)
    requires Holds(acc, parts, buf, state, true)
    ensures RenderAll(acc.done + [acc.open]) == parts + [buf + Closer(state)]
  {
    RenderAllSnoc(acc.done, acc.open);
  }

  lemma FillEnds(lines: seq<string>, maxLen: int)
    ensures Fill(lines[..0], maxLen) == START && Fill(lines[..|lines|], maxLen) == Fill(lines, maxLen)
  {
    assert lines[..|lines|] == lines;
  }

  lemma LinesCount(content: string)
    requires content != ""
    ensures 0 < |Lines(content)| <= |SplitAfter(content)| <= |Lines(content)| + 1
  {
    SplitAfterIsLines(content);
    NonEmptyHasLines(content);
  }

  lemma NonEmptyHasLines(content: string)
    requires content != ""
    ensures Lines(content) != []
  {
  }

  lemma NothingOpens()
    ensures Buffer(START.open) == "" && RenderAll(START.done) == []
    ensures forall maxLen :: Fill([], maxLen) == START
  {
    assert Openers([]) == "";
  }

  lemma BufferOfFresh(s: MdState)
    ensures Buffer(Piece(s, [], s)) == Opener(s)
  {
  }

  lemma LinesEmptyOnlyLast(content: string, i: nat)
    requires i < |SplitAfter(content)|
    ensures SplitAfter(content)[i] == "" <==> i == |Lines(content)|
    ensures i < |Lines(content)| ==> SplitAfter(content)[i] == Lines(content)[i]
  {
    SplitAfterIsLines(content);
    if i < |Lines(content)| {
      LinesAreLines(content, i);
    }
  }

  /** What the loop of splitDetailsAtLines does with one line. */
  method TakeLine(
      ghost acc: Split, parts: seq<string>, buf: string, state: MdState, hasContent: bool, line: string, maxLen: int)
    returns (newParts: seq<string>, newBuf: string, newState: MdState)
    requires Holds(acc, parts, buf, state, hasContent)
    ensures Holds(AddLine(acc, line, maxLen), newParts, newBuf, newState, true)
  {
    hide Next, Opener, Closer, CloserLen, Shorten, AddLine, Holds;
    newParts, newBuf := parts, buf;
    var after := NextLoop(state, line);
    if hasContent && |buf| + |line| + CloserLen(after) > maxLen {
      LineCuts(acc, parts, buf, state, line, maxLen);
      var closer := CloserLoop(state);
      newParts := parts + [buf + closer];
      newBuf := OpenerLoop(state);
    } else {
      LineStays(acc, parts, buf, state, hasContent, line, maxLen);
    }
    var written;
    written, newState := ShortenLoop(state, line, |newBuf|, maxLen);
    newBuf := newBuf + written;
  }

  /** The loop of splitDetailsAtLines: a byte buffer, the state at its end, and the finished parts. */
  method SplitDetailsAtLines(content: string, maxLen: int) returns (parts: seq<string>)
    ensures parts == SplitDetails(content, maxLen)
  {
    if maxLen <= 0 || |content| <= maxLen {
      return [content];
    }
    hide Closer, Fill, Lines, SplitAfter, AddLine, RenderAll, Holds;
    parts := [];
    var buf, state, hasContent := "", EMPTY, false;
    var lines := SplitAfter(content);
    LinesCount(content);
    HoldsAtStart();
    ghost var full, acc := Lines(content), START;
    FillEnds(full, maxLen);
    for i := 0 to |lines|
      invariant i <= |full| ==> acc == Fill(full[..i], maxLen)
      invariant i > |full| ==> acc == Fill(full, maxLen)
      invariant Holds(acc, parts, buf, state, hasContent)
      invariant i > 0 ==> hasContent
    {
      var line := lines[i];
      LinesEmptyOnlyLast(content, i);
      if line == "" {
        continue;
      }
      FillStep(full, i, maxLen);
      parts, buf, state := TakeLine(acc, parts, buf, state, hasContent, line, maxLen);
      acc := AddLine(acc, line, maxLen);
      hasContent := true;
    }
    if hasContent {
      LastPart(acc, parts, buf, state);
      var closer := CloserLoop(state);
      parts := parts + [buf + closer];
    }
  }
}
