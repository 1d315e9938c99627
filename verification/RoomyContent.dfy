/** What the splitter does to content when the limit leaves room for more than what is open in it. */
module RoomyContent {
  import opened Text
  import opened Utf8
  import opened Markdown
  import opened MarkdownLaws
  import opened DetailsSplitter
  import opened SplitterLaws
  import opened StandAlone
  import opened TameContent

  /* ----- fence lines that are written whole ----- */

  /** A part that starts right before the line has room for it. */
  predicate FitsFresh(s: MdState, line: string, maxLen: int) {
    |Opener(s)| + |line| + CloserLen(Next(s, line)) <= maxLen
  }

  predicate IsFence(line: string) {
    FenceOf(line).0 != ""
  }

  /** Every fence line fits a part of its own, wherever the splitter has come by then. */
  ghost predicate FencesFit(lines: seq<string>, maxLen: int) {
    forall i :: 0 <= i < |lines| && IsFence(lines[i]) ==>
      FitsFresh(Fill(lines[..i], maxLen).open.end, lines[i], maxLen)
  }

  lemma FencesFitFewer(lines: seq<string>, maxLen: int)
    requires FencesFit(lines, maxLen) && lines != []
    ensures FencesFit(lines[..|lines| - 1], maxLen)
  {
    hide FitsFresh, IsFence, Fill;
    var init := lines[..|lines| - 1];
    forall i | 0 <= i < |init| && IsFence(init[i])
      ensures FitsFresh(Fill(init[..i], maxLen).open.end, init[i], maxLen)
    {
      assert init[..i] == lines[..i] && init[i] == lines[i];
    }
  }

  lemma FencesFitSnoc(lines: seq<string>, maxLen: int)
    requires lines != [] && FencesFit(lines[..|lines| - 1], maxLen)
    requires var n := |lines| - 1;
             IsFence(lines[n]) ==> FitsFresh(Fill(lines[..n], maxLen).open.end, lines[n], maxLen)
    ensures FencesFit(lines, maxLen)
  {
    hide FitsFresh, IsFence, Fill;
    var n := |lines| - 1;
    forall i | 0 <= i <= n && IsFence(lines[i])
      ensures FitsFresh(Fill(lines[..i], maxLen).open.end, lines[i], maxLen)
    {
      if i < n {
        assert lines[..n][..i] == lines[..i] && lines[..n][i] == lines[i];
      }
    }
  }

  /** What a line becomes, and where that leads; a line that fits a part of its own is written whole. */
  lemma AddLineWrites(s: Split, line: string, maxLen: int) returns (w: string)
    requires line != "" && (s.open.kept == [] ==> Buffer(s.open) == Opener(s.open.end))
    ensures WrittenFrom(line, w) && (FitsFresh(s.open.end, line, maxLen) ==> w == line)
    ensures var t := AddLine(s, line, maxLen);
            && t.open.end == Next(s.open.end, w)
            && ((t.done == s.done && t.open.start == s.open.start) ||
                (t.done == s.done + [s.open] && t.open.start == s.open.end))
  {
    hide Next, Shorten, Opener, Buffer, CloserLen, WrittenFrom;
    var p := if Overflows(s.open, line, maxLen) then Piece(s.open.end, [], s.open.end) else s.open;
    BufferOfFresh(s.open.end);
    w := Shorten(p.end, line, |Buffer(p)|, maxLen);
    ShortenWrites(p.end, line, |Buffer(p)|, maxLen);
  }

  /** If it is no fence line, what is written of it is none. */
  lemma WrittenNoFence(line: string, w: string)
    requires WrittenFrom(line, w) && !IsFence(line)
    ensures !IsFence(w)
  {
    hide FenceOf;
    if w != line {
      NoFenceInPrefix(line, w[..|w| - |LINE_TRUNCATED|]);
    }
  }

  /** Such a line opens and closes no fence. */
  lemma NoFenceSameFence(s: MdState, line: string)
    requires !IsFence(line)
    ensures Next(s, line).fence == s.fence
  {
    hide FenceOf, ScanTags, SummaryOf;
  }

  /** The same fence is open in what was written and in the content, whatever else was cut off. */
  lemma AddLineFollows(s: Split, t: MdState, line: string, maxLen: int)
    requires line != "" && (s.open.kept == [] ==> Buffer(s.open) == Opener(s.open.end))
    requires s.open.end.fence == t.fence && (IsFence(line) ==> FitsFresh(s.open.end, line, maxLen))
    ensures AddLine(s, line, maxLen).open.end.fence == Next(t, line).fence
  {
    hide Next, IsFence, AddLine, Buffer, Opener, FitsFresh, WrittenFrom;
    var w := AddLineWrites(s, line, maxLen);
    if IsFence(line) {
      NextSameFence(s.open.end, t, line);
    } else {
      WrittenNoFence(line, w);
      NoFenceSameFence(s.open.end, w);
      NoFenceSameFence(t, line);
    }
  }

  lemma {:induction false} FillFollows(lines: seq<string>, maxLen: int)
    requires NoEmptyLine(lines) && FencesFit(lines, maxLen)
    ensures Fill(lines, maxLen).open.end.fence == RunLines(EMPTY, lines).fence
  {
    hide Next, AddLine, Buffer, Opener, FencesFit, FitsFresh, IsFence;
    if lines != [] {
      var n := |lines| - 1;
      FencesFitFewer(lines, maxLen);
      FillFollows(lines[..n], maxLen);
      EmptyPartIsStart(lines[..n], maxLen);
      FencesFitLast(lines, maxLen);
      AddLineFollows(Fill(lines[..n], maxLen), RunLines(EMPTY, lines[..n]), lines[n], maxLen);
    }
  }

  lemma FencesFitLast(lines: seq<string>, maxLen: int)
    requires FencesFit(lines, maxLen) && lines != []
    ensures var n := |lines| - 1;
            IsFence(lines[n]) ==> FitsFresh(Fill(lines[..n], maxLen).open.end, lines[n], maxLen)
  {
  }

  /** So it is when every line fits. */
  lemma EveryLineFitsFences(lines: seq<string>, maxLen: int)
    requires NoEmptyLine(lines) && EveryLineFits(lines, maxLen)
    ensures FencesFit(lines, maxLen)
  {
    hide Fill, CloserLen, Opener, IsFence, RunLines, Next;
    forall i | 0 <= i < |lines|
      ensures FitsFresh(Fill(lines[..i], maxLen).open.end, lines[i], maxLen)
    {
      PrefixFits(lines, i, maxLen);
      FillLossless(lines[..i], maxLen);
      RunLinesSnoc(EMPTY, lines[..i], lines[i]);
      assert lines[..i] + [lines[i]] == lines[..i + 1];
    }
  }

  lemma PrefixFits(lines: seq<string>, n: nat, maxLen: int)
    requires n <= |lines| && NoEmptyLine(lines) && EveryLineFits(lines, maxLen)
    ensures NoEmptyLine(lines[..n]) && EveryLineFits(lines[..n], maxLen)
  {
    hide RunLines, Opener, CloserLen;
    forall i | 0 <= i < n
      ensures |Opener(RunLines(EMPTY, lines[..n][..i]))| + |lines[..n][i]| +
                CloserLen(RunLines(EMPTY, lines[..n][..i + 1])) <= maxLen
    {
      assert lines[..n][..i] == lines[..i] && lines[..n][..i + 1] == lines[..i + 1];
    }
  }

  /* ----- tame outside fences ----- */

  /** Only what is read outside a fence is carried: the info string of a fence, the summary of a block. */
  predicate TameHere(fence: string, line: string) {
    fence == "" ==> TameFence(line) && (!IsFence(line) ==> TameSummary(line))
  }

  ghost predicate TameOutside(lines: seq<string>) {
    forall i :: 0 <= i < |lines| ==> TameHere(RunLines(EMPTY, lines[..i]).fence, lines[i])
  }

  lemma TameOutsideFewer(lines: seq<string>)
    requires TameOutside(lines) && lines != []
    ensures TameOutside(lines[..|lines| - 1])
  {
    hide TameHere, RunLines;
    var init := lines[..|lines| - 1];
    forall i | 0 <= i < |init|
      ensures TameHere(RunLines(EMPTY, init[..i]).fence, init[i])
    {
      assert init[..i] == lines[..i] && init[i] == lines[i];
    }
  }

  lemma TameLast(lines: seq<string>)
    requires TameOutside(lines) && lines != []
    ensures TameHere(RunLines(EMPTY, lines[..|lines| - 1]).fence, lines[|lines| - 1])
  {
  }

  lemma WrittenTameHere(fence: string, line: string, w: string)
    requires TameHere(fence, line) && WrittenFrom(line, w) && !IsFence(line)
    ensures TameHere(fence, w)
  {
    hide TameFence, TameSummary, IsFence;
    if w != line && fence == "" {
      var p := w[..|w| - |LINE_TRUNCATED|];
      FenceInPrefix(line, p);
      SummaryStaysTame(line, p);
    }
  }

  lemma SummaryStaysTame(line: string, p: string)
    requires TameSummary(line) && p <= line
    ensures TameSummary(p + LINE_TRUNCATED)
  {
    hide SummaryOf, NoTagStart;
    if SummaryOf(p + LINE_TRUNCATED).Some? {
      SummaryInPrefix(line, p);
    }
  }

  lemma NextCleanHere(s: MdState, line: string)
    requires Clean(s) && TameHere(s.fence, line)
    ensures Clean(Next(s, line))
  {
    hide FenceOf, ScanTags, SummaryOf, TameFence, CleanSummary, NoTagStart, NameTop;
    if s.fence == "" {
      TameFenceNoTick(line);
      if !IsFence(line) {
        hide Next, Clean;
        NextClean(s, line);
      }
    }
  }

  /** Every part starts where nothing is carried that would be read back differently. */
  predicate StartsClean(s: Split) {
    Clean(s.open.end) && forall i :: 0 <= i < |All(s)| ==> Clean(All(s)[i].start)
  }

  lemma AddLineClean(s: Split, line: string, maxLen: int)
    requires line != "" && (s.open.kept == [] ==> Buffer(s.open) == Opener(s.open.end))
    requires StartsClean(s) && TameHere(s.open.end.fence, line)
    requires IsFence(line) ==> FitsFresh(s.open.end, line, maxLen)
    ensures StartsClean(AddLine(s, line, maxLen))
  {
    hide Next, IsFence, AddLine, Buffer, Opener, FitsFresh, WrittenFrom, TameHere, Clean;
    var w := AddLineWrites(s, line, maxLen);
    if !IsFence(line) {
      WrittenTameHere(s.open.end.fence, line, w);
    }
    NextCleanHere(s.open.end, w);
    var t := AddLine(s, line, maxLen);
    assert All(s)[|s.done|] == s.open;
    forall i | 0 <= i < |All(t)|
      ensures Clean(All(t)[i].start)
    {
      if i < |s.done| {
        assert All(t)[i] == All(s)[i];
      }
    }
  }

  lemma {:induction false} FillClean(lines: seq<string>, maxLen: int)
    requires NoEmptyLine(lines) && FencesFit(lines, maxLen) && TameOutside(lines)
    ensures StartsClean(Fill(lines, maxLen))
  {
    hide Next, AddLine, Buffer, Opener, FencesFit, FitsFresh, IsFence, StartsClean, TameHere, TameOutside, RunLines;
    if lines != [] {
      var n := |lines| - 1;
      FencesFitFewer(lines, maxLen);
      TameOutsideFewer(lines);
      FillClean(lines[..n], maxLen);
      FillFollows(lines[..n], maxLen);
      EmptyPartIsStart(lines[..n], maxLen);
      FencesFitLast(lines, maxLen);
      TameLast(lines);
      AddLineClean(Fill(lines[..n], maxLen), lines[n], maxLen);
    } else {
      StartIsClean();
    }
  }

  lemma StartIsClean()
    ensures StartsClean(START)
  {
    EmptyClean();
  }

  /**
   * When the fence lines fit, what is read outside fences is tame, and no fence is left open, the
   * parts all render on their own, however their last lines end and whatever else is cut off.
   */
  lemma WholeFencesStandAlone(content: string, maxLen: int)
    requires !LeftWhole(content, maxLen) && TameOutside(Lines(content)) && FencesFit(Lines(content), maxLen)
    requires Run(EMPTY, content).fence == "" || EndsLine(content)
    ensures AllStandAlone(SplitDetails(content, maxLen))
  {
    hide TameOutside, FencesFit, Run, EndsLine, Carriable, SplitDetails, SpoilsCloser, StandsAlone, Pieces, LeftWhole;
    var pieces := Pieces(content, maxLen);
    forall i | 0 <= i < |pieces|
      ensures Carriable(pieces[i].start)
    {
      WholeFencesCarriable(content, maxLen, i);
    }
    PartsStandAlone(content, maxLen);
    WholeFencesEnd(content, maxLen);
    hide Lines;
    SpoiledInFence(pieces[|pieces| - 1]);
  }

  lemma WholeFencesCarriable(content: string, maxLen: int, i: nat)
    requires TameOutside(Lines(content)) && FencesFit(Lines(content), maxLen) && i < |Pieces(content, maxLen)|
    ensures Carriable(Pieces(content, maxLen)[i].start)
  {
    hide TameOutside, FencesFit, Clean, Carriable, Fill;
    LinesNoEmpty(content);
    FillClean(Lines(content), maxLen);
    assert Pieces(content, maxLen)[i] == All(Fill(Lines(content), maxLen))[i];
    CleanIsCarriable(Pieces(content, maxLen)[i].start);
  }

  /** The last part ends as the content does. */
  lemma WholeFencesEnd(content: string, maxLen: int)
    requires FencesFit(Lines(content), maxLen)
    ensures var pieces := Pieces(content, maxLen); pieces[|pieces| - 1].end.fence == Run(EMPTY, content).fence
  {
    hide FencesFit, Fill, Run, RunLines, Lines;
    LinesNoEmpty(content);
    FillFollows(Lines(content), maxLen);
    RunIsRunLines(EMPTY, content);
  }

  /* ----- how much is open, told from the content ----- */

  function TagCount(s: string): nat {
    if s == "" then 0 else (if OpensTag(s) then 1 else 0) + TagCount(s[1..])
  }

  lemma NoAngleNoCount(s: string)
    requires NoAngle(s)
    ensures TagCount(s) == 0
  {
    if s != "" {
      assert "<details>"[0] == '<' && "<details "[0] == '<';
      NoAngleNoCount(s[1..]);
    }
  }

  lemma MarkCountsNothing()
    ensures TagCount(LINE_TRUNCATED) == 0
  {
    assert NoAngle(LINE_TRUNCATED);
    NoAngleNoCount(LINE_TRUNCATED);
  }

  /** The mark completes no tag. */
  lemma OpensBefore(line: string, p: string)
    requires p != "" && p <= line
    ensures OpensTag(p + LINE_TRUNCATED) ==> OpensTag(line)
  {
    var w := p + LINE_TRUNCATED;
    assert forall i :: 0 <= i < 9 ==> "<details>"[i] != '.' && "<details "[i] != '.';
    assert w[|p|] == '.';
    if "<details>" <= w {
      assert w[..9] == "<details>" && |p| >= 9;
      assert line[..9] == p[..9] == w[..9];
    } else if "<details " <= w {
      assert w[..9] == "<details " && |p| >= 9;
      assert line[..9] == p[..9] == w[..9];
    }
  }

  lemma {:induction false} CountInPrefix(line: string, p: string)
    requires p <= line
    ensures TagCount(p + LINE_TRUNCATED) <= TagCount(line)
  {
    if p == "" {
      MarkCountsNothing();
      assert p + LINE_TRUNCATED == LINE_TRUNCATED;
    } else {
      OpensBefore(line, p);
      var w := p + LINE_TRUNCATED;
      assert w[1..] == p[1..] + LINE_TRUNCATED;
      assert TagCount(w) == (if OpensTag(w) then 1 else 0) + TagCount(w[1..]);
      assert TagCount(line) == (if OpensTag(line) then 1 else 0) + TagCount(line[1..]);
      hide TagCount, OpensTag, LINE_TRUNCATED;
      CountInPrefix(line[1..], p[1..]);
    }
  }

  lemma WrittenCount(line: string, w: string)
    requires WrittenFrom(line, w)
    ensures TagCount(w) <= TagCount(line)
  {
    hide TagCount;
    if w != line {
      CountInPrefix(line, w[..|w| - |LINE_TRUNCATED|]);
    }
  }

  predicate ShortNames(details: seq<OpenDetails>) {
    forall i :: 0 <= i < |details| ==> |details[i].summary| <= MAX_CARRIED_SUMMARY
  }

  /** At most k blocks are open, and a fence line of at most f bytes. */
  predicate Bounded(s: MdState, k: nat, f: nat) {
    |s.details| <= k && ShortNames(s.details) && |s.fence| + |s.fenceInfo| <= f
  }

  lemma {:induction false} ScanBounded(s: string, details: seq<OpenDetails>)
    requires ShortNames(details)
    ensures ShortNames(ScanTags(s, details)) && |ScanTags(s, details)| <= |details| + TagCount(s)
  {
    if s != "" {
      ScanBounded(s[1..], ScanHere(s, details));
    }
  }

  lemma FenceInLength(trimmed: string)
    ensures |FenceIn(trimmed).0| + |FenceIn(trimmed).1| <= |trimmed|
  {
    var ticks := Leading(trimmed, '`');
    var k := TrimSpacePart(trimmed[ticks..]);
  }

  lemma FenceOfLength(line: string)
    ensures |FenceOf(line).0| + |FenceOf(line).1| <= |line|
  {
    hide FenceIn;
    FenceInLength(line[Leading(line, ' ')..]);
  }

  lemma NameTopShort(details: seq<OpenDetails>, summary: Option<string>)
    requires ShortNames(details)
    ensures ShortNames(NameTop(details, summary)) && |NameTop(details, summary)| == |details|
  {
    if summary.Some? {
      CutAtRuneIsLongest(summary.value, MAX_CARRIED_SUMMARY);
    }
    hide CutAtRune;
  }

  /** The opening tags of a line that is read outside a fence. */
  function TagsHere(fence: string, line: string): nat {
    if fence == "" && !IsFence(line) then TagCount(line) else 0
  }

  lemma NextBounded(s: MdState, line: string, k: nat, f: nat)
    requires Bounded(s, k, f) && (IsFence(line) ==> |line| <= f)
    ensures Bounded(Next(s, line), k + TagsHere(s.fence, line), f)
  {
    FenceOfLength(line);
    ScanBounded(line, s.details);
    NameTopShort(ScanTags(line, s.details), SummaryOf(line));
    hide FenceOf, ScanTags, SummaryOf, NameTop, ShortNames, TagCount;
  }

  /** The opening tags in the lines that are read outside fences. */
  function OpenTags(lines: seq<string>): nat {
    if lines == [] then 0
    else
      var init := lines[..|lines| - 1];
      OpenTags(init) + TagsHere(RunLines(EMPTY, init).fence, lines[|lines| - 1])
  }

  /** The length of the longest fence line. */
  function LongestFence(lines: seq<string>): nat {
    if lines == [] then 0
    else
      var rest, line := LongestFence(lines[..|lines| - 1]), lines[|lines| - 1];
      if IsFence(line) && |line| > rest then |line| else rest
  }

  /** Bytes to open one block again, with its summary, and to close it. */
  const BLOCK_BYTES: nat :=
    |"<details>\n"| + |SummaryLine("")| + MAX_CARRIED_SUMMARY + |"\n"| + |DETAILS_CLOSE|

  lemma OpenerOfLength(d: OpenDetails)
    requires |d.summary| <= MAX_CARRIED_SUMMARY
    ensures |OpenerOf(d)| <= BLOCK_BYTES - |DETAILS_CLOSE|
  {
    assert |SummaryLine(d.summary)| == |SummaryLine("")| + |d.summary|;
    hide SummaryLine;
  }

  lemma {:induction false} OpenersLength(details: seq<OpenDetails>)
    requires ShortNames(details)
    ensures |Openers(details)| <= |details| * (BLOCK_BYTES - |DETAILS_CLOSE|)
  {
    hide OpenerOf, BLOCK_BYTES;
    if details != [] {
      var n := |details| - 1;
      OpenersLength(details[..n]);
      OpenerOfLength(details[n]);
      var b := BLOCK_BYTES - |DETAILS_CLOSE|;
      assert |details| * b == n * b + b;
    }
  }

  lemma ProductGrows(a: nat, b: nat, c: nat)
    requires a <= b
    ensures a * c <= b * c
  {
  }

  /** What has to be printed around the lines of a part that starts in s and ends in t. */
  lemma AroundBounded(s: MdState, t: MdState, k: nat, f: nat)
    requires Bounded(s, k, f) && Bounded(t, k, f)
    ensures |Opener(s)| + CloserLen(t) <= k * BLOCK_BYTES + 2 * (f + 1)
  {
    hide Openers, OpenerOf, BLOCK_BYTES;
    BlockBytesSplit();
    var b, c := BLOCK_BYTES - |DETAILS_CLOSE|, |DETAILS_CLOSE|;
    OpenersLength(s.details);
    ProductGrows(|s.details|, k, b);
    ProductGrows(|t.details|, k, c);
    assert |Opener(s)| <= k * b + (f + 1);
    assert CloserLen(t) <= k * c + (f + 1);
    assert k * b + k * c == k * BLOCK_BYTES;
  }

  lemma BlockBytesSplit()
    ensures BLOCK_BYTES >= |DETAILS_CLOSE|
  {
  }

  /** A limit of this many bytes has room for every fence line and for the mark, whatever is open around them. */
  function Needs(lines: seq<string>): int {
    OpenTags(lines) * BLOCK_BYTES + 2 * (LongestFence(lines) + 1) + LongestFence(lines) + |LINE_TRUNCATED|
  }

  predicate Roomy(content: string, maxLen: int) {
    Needs(Lines(content)) <= maxLen
  }

  lemma NeedsLess(lines: seq<string>)
    requires lines != []
    ensures var init := lines[..|lines| - 1];
            && OpenTags(init) <= OpenTags(lines) && LongestFence(init) <= LongestFence(lines)
            && Needs(init) <= Needs(lines)
  {
    hide TagsHere, BLOCK_BYTES, RunLines, IsFence;
    var init := lines[..|lines| - 1];
    ProductGrows(OpenTags(init), OpenTags(lines), BLOCK_BYTES);
  }

  lemma BoundedMore(s: MdState, k: nat, f: nat, l: nat, g: nat)
    requires Bounded(s, k, f) && k <= l && f <= g
    ensures Bounded(s, l, g)
  {
  }

  /** The states that parts start in are bounded. */
  predicate StartsBounded(s: Split, k: nat, f: nat) {
    Bounded(s.open.end, k, f) && forall i :: 0 <= i < |All(s)| ==> Bounded(All(s)[i].start, k, f)
  }

  lemma AddLineBounded(s: Split, line: string, maxLen: int, k: nat, f: nat)
    requires line != "" && (s.open.kept == [] ==> Buffer(s.open) == Opener(s.open.end))
    requires StartsBounded(s, k, f) && (IsFence(line) ==> |line| <= f && FitsFresh(s.open.end, line, maxLen))
    ensures StartsBounded(AddLine(s, line, maxLen), k + TagsHere(s.open.end.fence, line), f)
  {
    hide Next, IsFence, AddLine, Buffer, Opener, FitsFresh, WrittenFrom, Bounded, TagCount;
    var w := AddLineWrites(s, line, maxLen);
    var e, l := s.open.end, k + TagsHere(s.open.end.fence, line);
    if !IsFence(line) {
      WrittenNoFence(line, w);
      WrittenCount(line, w);
    }
    NextBounded(e, w, k, f);
    BoundedMore(Next(e, w), k + TagsHere(e.fence, w), f, l, f);
    BoundedMore(e, k, f, l, f);
    var t := AddLine(s, line, maxLen);
    assert All(s)[|s.done|] == s.open;
    forall i | 0 <= i < |All(t)|
      ensures Bounded(All(t)[i].start, l, f)
    {
      if i < |s.done| {
        assert All(t)[i] == All(s)[i];
        BoundedMore(All(s)[i].start, k, f, l, f);
      } else if t.done == s.done {
        BoundedMore(s.open.start, k, f, l, f);
      } else if i == |s.done| {
        assert All(t)[i] == s.open;
        BoundedMore(s.open.start, k, f, l, f);
      }
    }
  }

  lemma FenceFits(s: MdState, line: string, k: nat, f: nat, maxLen: int)
    requires Bounded(s, k, f) && IsFence(line) && |line| <= f && k * BLOCK_BYTES + 2 * (f + 1) + f <= maxLen
    ensures FitsFresh(s, line, maxLen)
  {
    hide Bounded, BLOCK_BYTES, Opener, CloserLen, Next, IsFence;
    NextBounded(s, line, k, f);
    assert TagsHere(s.fence, line) == 0;
    AroundBounded(s, Next(s, line), k, f);
  }

  lemma StartsBoundedMore(s: Split, k: nat, f: nat, g: nat)
    requires StartsBounded(s, k, f) && f <= g
    ensures StartsBounded(s, k, g)
  {
  }

  /** Under a limit with room, the fence lines fit, and what is open in the parts is what the content opens. */
  lemma {:induction false} RoomyFill(lines: seq<string>, maxLen: int)
    requires NoEmptyLine(lines) && Needs(lines) <= maxLen
    ensures FencesFit(lines, maxLen)
    ensures StartsBounded(Fill(lines, maxLen), OpenTags(lines), LongestFence(lines))
  {
    hide Next, AddLine, Buffer, Opener, FencesFit, FitsFresh, StartsBounded, IsFence, RunLines, BLOCK_BYTES, TagsHere;
    if lines != [] {
      var n := |lines| - 1;
      var init, line := lines[..n], lines[n];
      var s, k, f := Fill(init, maxLen), OpenTags(init), LongestFence(lines);
      NeedsLess(lines);
      RoomyFill(init, maxLen);
      StartsBoundedMore(s, k, LongestFence(init), f);
      FillFollows(init, maxLen);
      EmptyPartIsStart(init, maxLen);
      if IsFence(line) {
        EndBounded(s, k, f);
        NeedsEnough(lines, k, maxLen);
        FenceFits(s.open.end, line, k, f, maxLen);
      }
      FencesFitSnoc(lines, maxLen);
      AddLineBounded(s, line, maxLen, k, f);
    } else {
      NothingToFit(maxLen);
      StartIsBounded();
    }
  }

  lemma EndBounded(s: Split, k: nat, f: nat)
    requires StartsBounded(s, k, f)
    ensures Bounded(s.open.end, k, f)
  {
  }

  lemma NeedsEnough(lines: seq<string>, k: nat, maxLen: int)
    requires Needs(lines) <= maxLen && k <= OpenTags(lines)
    ensures k * BLOCK_BYTES + 2 * (LongestFence(lines) + 1) + LongestFence(lines) <= maxLen
  {
    hide OpenTags, LongestFence, BLOCK_BYTES;
    ProductGrows(k, OpenTags(lines), BLOCK_BYTES);
  }

  lemma NothingToFit(maxLen: int)
    ensures FencesFit([], maxLen)
  {
  }

  lemma StartIsBounded()
    ensures StartsBounded(START, 0, 0)
  {
  }

  /** So the mark fits in every state a part starts in. */
  lemma RoomyMarkFits(content: string, maxLen: int)
    requires Roomy(content, maxLen)
    ensures MarkFits(content, maxLen)
  {
    hide Roomy, Pieces, Overhead;
    forall i | 0 <= i < |Pieces(content, maxLen)|
      ensures Overhead(Pieces(content, maxLen)[i].start) <= maxLen
    {
      RoomyStart(content, maxLen, i);
    }
  }

  lemma RoomyStart(content: string, maxLen: int, i: nat)
    requires Roomy(content, maxLen) && i < |Pieces(content, maxLen)|
    ensures Overhead(Pieces(content, maxLen)[i].start) <= maxLen
  {
    var lines, s := Lines(content), Pieces(content, maxLen)[i].start;
    RoomyBounded(content, maxLen, i);
    hide Lines, Pieces, Bounded, Opener, CloserLen, BLOCK_BYTES, OpenTags, LongestFence, LINE_TRUNCATED;
    AroundBounded(s, s, OpenTags(lines), LongestFence(lines));
  }

  lemma RoomyBounded(content: string, maxLen: int, i: nat)
    requires Roomy(content, maxLen) && i < |Pieces(content, maxLen)|
    ensures var lines := Lines(content);
            Bounded(Pieces(content, maxLen)[i].start, OpenTags(lines), LongestFence(lines))
  {
    hide Fill, Lines, FencesFit, Bounded, OpenTags, LongestFence, Needs;
    LinesNoEmpty(content);
    RoomyFill(Lines(content), maxLen);
    assert Pieces(content, maxLen)[i] == All(Fill(Lines(content), maxLen))[i];
  }

  /** Told from the content and the limit alone: no part is too long. */
  lemma RoomyPartsFit(content: string, maxLen: int)
    requires Roomy(content, maxLen)
    ensures NoneLonger(SplitDetails(content, maxLen), maxLen)
  {
    hide Roomy, MarkFits, Pieces;
    RoomyMarkFits(content, maxLen);
    if !LeftWhole(content, maxLen) {
      PartsFit(content, maxLen);
    } else {
      RoomyIsPositive(content, maxLen);
      assert SplitDetails(content, maxLen) == [content];
    }
  }

  lemma RoomyIsPositive(content: string, maxLen: int)
    requires Roomy(content, maxLen)
    ensures maxLen > 0
  {
    hide OpenTags, LongestFence, BLOCK_BYTES;
  }

  /** And all parts render on their own, if what is read outside fences is tame and no fence is left open. */
  lemma RoomyStandsAlone(content: string, maxLen: int)
    requires !LeftWhole(content, maxLen) && Roomy(content, maxLen) && TameOutside(Lines(content))
    requires Run(EMPTY, content).fence == "" || EndsLine(content)
    ensures AllStandAlone(SplitDetails(content, maxLen))
  {
    hide TameOutside, Run, EndsLine, SplitDetails, StandsAlone, LeftWhole, Lines, Needs, FencesFit, Fill;
    LinesNoEmpty(content);
    RoomyFill(Lines(content), maxLen);
    WholeFencesStandAlone(content, maxLen);
  }
}
