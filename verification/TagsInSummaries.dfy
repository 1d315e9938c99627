/** A details tag inside a carried summary: how content reaches that state, and what it does to the next part. */
module TagsInSummaries {
  import opened Text
  import opened Utf8
  import opened Markdown
  import opened MarkdownLaws
  import opened DetailsSplitter
  import opened SplitterLaws
  import opened StandAlone
  import opened ContainedText

  const OPEN_LINE := "<details>\n"
  const SUMMARY_HEAD := "<summary>"
  const SUMMARY_TAIL := "</summary></details>\n"
  const SUMMARY_LINE := SUMMARY_HEAD + ("<details>" + SUMMARY_TAIL)
  const NAMED := MdState("", "", [OpenDetails("<details>", true)])

  lemma {:induction false} ScanSkip(s: string, k: nat, details: seq<OpenDetails>)
    requires k <= |s| && forall i :: 0 <= i < k ==> !StartsTag(s[i..])
    ensures ScanTags(s, details) == ScanTags(s[k..], details)
  {
    if k == 0 {
      assert s[0..] == s;
    } else {
      assert s[0..] == s;
      assert forall i :: 0 <= i < |s[1..]| ==> s[1..][i..] == s[i + 1..];
      ScanSkip(s[1..], k - 1, details);
      assert s[1..][k - 1..] == s[k..];
    }
  }

  lemma HeadNoTag(i: nat)
    requires i < 9
    ensures !StartsTag(SUMMARY_LINE[i..])
  {
    var rest := SUMMARY_LINE[i..];
    assert rest[0] == SUMMARY_HEAD[i] && rest[1] == SUMMARY_LINE[i + 1];
    SummaryHeadNoTag(rest, i);
  }

  lemma TailNoTag(i: nat)
    requires i < 10
    ensures !StartsTag(SUMMARY_TAIL[i..])
  {
    var rest := SUMMARY_TAIL[i..];
    assert rest[0] == SUMMARY_TAIL[i] && rest[1] == SUMMARY_TAIL[i + 1] && rest[2] == SUMMARY_TAIL[i + 2];
  }

  lemma NameNoTag(i: nat)
    requires 1 <= i < 9
    ensures !StartsTag(("<details>" + SUMMARY_TAIL)[i..])
  {
    assert ("<details>" + SUMMARY_TAIL)[i..][0] == "<details>"[i];
  }

  lemma ScanNamed(details: seq<OpenDetails>)
    ensures ScanTags("<details>" + SUMMARY_TAIL, details) == ScanTags(SUMMARY_TAIL, details + [NO_SUMMARY])
  {
    var s := "<details>" + SUMMARY_TAIL;
    ScanStep(s, 0, details);
    assert s[0..] == s && "<details>" <= s;
    hide ScanTags, StartsTag;
    forall i | 0 <= i < 8
      ensures !StartsTag(s[1..][i..])
    {
      NameNoTag(i + 1);
      assert s[1..][i..] == s[i + 1..];
    }
    ScanSkip(s[1..], 8, details + [NO_SUMMARY]);
    assert s[1..][8..] == SUMMARY_TAIL;
  }

  lemma ScanFirst(line: string, details: seq<OpenDetails>)
    requires line != ""
    ensures ScanTags(line, details) == ScanTags(line[1..], ScanHere(line, details))
  {
    hide ScanHere;
  }

  lemma CloseHere(details: seq<OpenDetails>)
    requires details != []
    ensures ScanHere("</details>\n", details) == details[..|details| - 1]
  {
    var line := "</details>\n";
    assert line[1] != "<details>"[1] && line[1] != "<details "[1];
  }

  lemma ScanClose(details: seq<OpenDetails>)
    requires details != []
    ensures ScanTags("</details>\n", details) == details[..|details| - 1]
  {
    hide ScanTags, ScanHere, StartsTag, TagFree;
    var line := "</details>\n";
    assert line[1..] == "/details>\n";
    CloseHere(details);
    ScanFirst(line, details);
    assert NoAngle(line[1..]);
    NoAngleNoTag(line[1..]);
    ScanTagFree(line[1..], details[..|details| - 1]);
  }

  lemma ScanTail(details: seq<OpenDetails>)
    requires details != []
    ensures ScanTags(SUMMARY_TAIL, details) == details[..|details| - 1]
  {
    hide ScanTags, StartsTag;
    forall i | 0 <= i < 10
      ensures !StartsTag(SUMMARY_TAIL[i..])
    {
      TailNoTag(i);
    }
    ScanSkip(SUMMARY_TAIL, 10, details);
    assert SUMMARY_TAIL[10..] == "</details>\n";
    ScanClose(details);
  }

  lemma ScanSummary(details: seq<OpenDetails>)
    ensures ScanTags(SUMMARY_LINE, details) == details
  {
    hide ScanTags, StartsTag;
    forall i | 0 <= i < 9
      ensures !StartsTag(SUMMARY_LINE[i..])
    {
      HeadNoTag(i);
    }
    ScanSkip(SUMMARY_LINE, 9, details);
    assert SUMMARY_LINE[9..] == "<details>" + SUMMARY_TAIL;
    ScanNamed(details);
    ScanTail(details + [NO_SUMMARY]);
  }

  lemma SummaryIsTag()
    ensures SummaryOf(SUMMARY_LINE) == Some("<details>")
  {
    assert SUMMARY_HEAD <= SUMMARY_LINE;
    var rest := "<details>" + SUMMARY_TAIL;
    assert SUMMARY_LINE[9..] == rest;
    forall j | 0 <= j < 9
      ensures !("</summary>" <= rest[j..])
    {
      assert "</summary>"[0] == '<' && "</summary>"[1] == '/';
      assert "<details>"[j] == rest[j] == rest[j..][0];
      if j == 0 {
        assert rest[0..][1] == 'd';
      }
    }
    assert rest[9..] == SUMMARY_TAIL && "</summary>" <= SUMMARY_TAIL;
    IndexOfUnique(rest, "</summary>", 9);
    assert rest[..9] == "<details>";
  }

  lemma NextSummary()
    ensures Next(EMPTY.(details := [NO_SUMMARY]), SUMMARY_LINE) == NAMED
  {
    hide ScanTags, SummaryOf, FenceOf, SUMMARY_LINE, CutAtRune;
    ScanSummary([NO_SUMMARY]);
    SummaryIsTag();
    SummaryLineStarts();
    NotAFence(SUMMARY_LINE);
    CutAtRuneIsLongest("<details>", MAX_CARRIED_SUMMARY);
    assert CutAtRune("<details>", MAX_CARRIED_SUMMARY) == "<details>";
    assert NameTop([NO_SUMMARY], Some("<details>")) == [OpenDetails("<details>", true)];
    hide NameTop;
  }

  lemma SummaryLineStarts()
    ensures SUMMARY_LINE != "" && SUMMARY_LINE[0] == '<'
  {
  }

  /** Two lines of content lead to a carried summary that is a details tag. */
  lemma TagInSummaryIsReached()
    ensures Next(EMPTY, OPEN_LINE) == EMPTY.(details := [NO_SUMMARY])
    ensures Next(Next(EMPTY, OPEN_LINE), SUMMARY_LINE) == NAMED
    ensures Run(EMPTY, OPEN_LINE + SUMMARY_LINE) == NAMED
  {
    hide Next, Run;
    NextOpenTag(EMPTY);
    NextSummary();
    SummaryLineShape();
    hide SUMMARY_LINE, OneLine, EndsLine;
    RunTwoLines(EMPTY, OPEN_LINE, SUMMARY_LINE);
  }

  lemma SummaryLineShape()
    ensures OneLine(OPEN_LINE) && EndsLine(OPEN_LINE) && OneLine(SUMMARY_LINE) && EndsLine(SUMMARY_LINE)
    ensures |OPEN_LINE| == 10 && |SUMMARY_LINE| == 39
  {
    assert NoNewline(SUMMARY_HEAD) && NoNewline("<details>") && NoNewline("</summary></details>");
    assert SUMMARY_TAIL == "</summary></details>" + "\n";
    assert SUMMARY_LINE == (SUMMARY_HEAD + "<details>" + "</summary></details>") + "\n";
  }

  /* ----- a cut in that state ----- */

  /** A line without tags or fences, ending in a newline. */
  predicate PlainText(line: string) {
    line != "" && line[0] != ' ' && line[0] != '`' && NoAngle(line) && OneLine(line) && EndsLine(line)
  }

  lemma MarkIsPlain()
    ensures PlainText(LINE_TRUNCATED)
  {
    assert NoNewline(LINE_TRUNCATED[..|LINE_TRUNCATED| - 1]);
    assert forall i :: 0 <= i < |LINE_TRUNCATED| - 1 ==> LINE_TRUNCATED[i] == LINE_TRUNCATED[..|LINE_TRUNCATED| - 1][i];
  }

  lemma TruncatedPlain(line: string, cut: string)
    requires PlainText(line) && cut <= line && |cut| < |line|
    ensures PlainText(cut + LINE_TRUNCATED)
  {
    MarkIsPlain();
    var w := cut + LINE_TRUNCATED;
    assert forall i :: 0 <= i < |cut| ==> w[i] == line[i];
    assert forall i :: |cut| <= i < |w| ==> w[i] == LINE_TRUNCATED[i - |cut|];
  }

  lemma WrittenPlain(line: string, w: string)
    requires PlainText(line) && WrittenFrom(line, w)
    ensures PlainText(w)
  {
    if w != line {
      var cut := w[..|w| - |LINE_TRUNCATED|];
      assert w == cut + LINE_TRUNCATED;
      TruncatedPlain(line, cut);
    }
  }

  lemma LinesStep(line: string, rest: string)
    requires line != "" && LineEnd(line + rest) == |line|
    ensures Lines(line + rest) == [line] + Lines(rest)
  {
    var s := line + rest;
    assert s[..|line|] == line && s[|line|..] == rest;
  }

  lemma LinesOfThree(a: string, b: string, line: string)
    requires OneLine(a) && EndsLine(a) && a != "" && OneLine(b) && EndsLine(b) && b != "" && OneLine(line) && line != ""
    ensures Lines(a + (b + line)) == [a, b, line]
  {
    FirstLine(a, b + line);
    FirstLine(b, line);
    FirstLine(line, "");
    assert line + "" == line;
    hide LineEnd, OneLine;
    LinesStep(a, b + line);
    LinesStep(b, line);
    LinesStep(line, "");
    assert Lines("") == [];
  }

  lemma BufferOfTwo(a: string, b: string, s: MdState)
    ensures Buffer(START.open) == "" && Buffer(Piece(EMPTY, [a], s)) == a && Buffer(Piece(EMPTY, [a, b], s)) == a + b
  {
    assert Openers([]) == "";
    assert Concat([]) == "" && [a][1..] == [] && Concat([a]) == a + "";
    ConcatSnoc([a], b);
    assert [a] + [b] == [a, b];
    assert "" + a == a && "" + (a + b) == a + b;
  }

  /** Two lines that fit the first part. */
  lemma FillTwo(a: string, b: string, s: MdState, t: MdState, maxLen: int)
    requires a != "" && b != "" && Next(EMPTY, a) == s && Next(s, b) == t
    requires |a| + CloserLen(s) <= maxLen && |a| + |b| + CloserLen(t) <= maxLen
    ensures Fill([a, b], maxLen) == Split([], Piece(EMPTY, [a, b], t))
  {
    BufferOfTwo(a, b, s);
    hide Next, Buffer, CloserLen;
    var one := Piece(EMPTY, [a], s);
    PutWhole(START.open, a, maxLen);
    assert [] + [a] == [a];
    PutWhole(one, b, maxLen);
    assert [a] + [b] == [a, b];
    hide Put;
    FillStep([a, b], 0, maxLen);
    FillStep([a, b], 1, maxLen);
    assert [a, b][..0] == [] && [a, b][..1] == [a] && [a, b][..2] == [a, b];
    assert Fill([], maxLen) == START;
  }

  /** A plain third line that does not fit starts the next part. */
  lemma FillThree(a: string, b: string, line: string, s: MdState, t: MdState, maxLen: int) returns (w: string)
    requires a != "" && b != "" && Next(EMPTY, a) == s && Next(s, b) == t && PlainText(line)
    requires |a| + CloserLen(s) <= maxLen && |a| + |b| + CloserLen(t) <= maxLen < |a| + |b| + |line| + CloserLen(t)
    ensures PlainText(w) && Fill([a, b, line], maxLen) == Split([Piece(EMPTY, [a, b], t)], Piece(t, [w], t))
  {
    hide PlainText, Fill, Next, CloserLen, Shorten, Buffer, WrittenFrom, Put, OneLine, EndsLine, Concat, LINE_TRUNCATED;
    FillTwo(a, b, s, t, maxLen);
    BufferOfTwo(a, b, t);
    PlainStays(t, line);
    FillStep([a, b, line], 2, maxLen);
    assert [a, b, line][..2] == [a, b] && [a, b, line][..3] == [a, b, line];
    var first := Piece(EMPTY, [a, b], t);
    assert Overflows(first, line, maxLen);
    w := PutPlain(t, line, maxLen);
    assert [] + [first] == [first];
  }

  lemma PutPlain(t: MdState, line: string, maxLen: int) returns (w: string)
    requires PlainText(line)
    ensures PlainText(w) && Put(Piece(t, [], t), line, maxLen) == Piece(t, [w], t)
  {
    hide Next, CloserLen, Shorten, Buffer, WrittenFrom;
    var blank := Piece(t, [], t);
    ShortenWrites(t, line, |Buffer(blank)|, maxLen);
    w := Shorten(t, line, |Buffer(blank)|, maxLen);
    WrittenPlain(line, w);
    PlainStays(t, w);
    assert [] + [w] == [w];
  }

  lemma PlainStays(s: MdState, line: string)
    requires PlainText(line)
    ensures Next(s, line) == s && OneLine(line) && EndsLine(line) && line != ""
  {
    PlainLine(s, line);
  }

  lemma RunOne(s: MdState, line: string)
    ensures RunLines(s, [line]) == Next(s, line)
  {
    assert [line][..0] == [];
  }

  /** The cut carries t over; when t is read back deeper than it is, the second part leaves a block open. */
  lemma DeeperPartStaysOpen(a: string, b: string, line: string, s: MdState, t: MdState, maxLen: int)
    requires OneLine(a) && EndsLine(a) && a != "" && OneLine(b) && EndsLine(b) && b != ""
    requires Next(EMPTY, a) == s && Next(s, b) == t && PlainText(line) && Tracked(t)
    requires |a| + CloserLen(s) <= maxLen && |a| + |b| + CloserLen(t) <= maxLen < |a| + |b| + |line|
    requires |ReadBack(t).details| > |t.details|
    ensures var parts := SplitDetails(a + (b + line), maxLen);
            |parts| == 2 && StandsAlone(parts[0]) && !StandsAlone(parts[1])
  {
    hide Fill, Next, ReadBack, PlainText, Render, StandsAlone, Lines, CloserLen, Tracked, RunLines, OneLine, EndsLine;
    var content := a + (b + line);
    PlainStays(t, line);
    LinesOfThree(a, b, line);
    var w := FillThree(a, b, line, s, t, maxLen);
    var first, last := Piece(EMPTY, [a, b], t), Piece(t, [w], t);
    FirstStandsAlone(a, b, s, t);
    LastStaysOpen(w, t);
    assert [first] + [last] == [first, last];
    assert Pieces(content, maxLen) == [first, last];
  }

  lemma FirstStandsAlone(a: string, b: string, s: MdState, t: MdState)
    requires OneLine(a) && EndsLine(a) && a != "" && OneLine(b) && EndsLine(b) && b != ""
    requires Next(EMPTY, a) == s && Next(s, b) == t
    ensures StandsAlone(Render(Piece(EMPTY, [a, b], t)))
  {
    hide Next, Render, StandsAlone, OneLine, EndsLine;
    assert [a, b][..1] == [a];
    RunOne(EMPTY, a);
    assert ReadBack(EMPTY) == EMPTY;
    EmptyTracked();
    assert RunLines(EMPTY, [a, b]) == t;
    PieceExactly(Piece(EMPTY, [a, b], t));
  }

  lemma LastStaysOpen(w: string, t: MdState)
    requires PlainText(w) && Tracked(t) && |ReadBack(t).details| > |t.details|
    ensures !StandsAlone(Render(Piece(t, [w], t)))
  {
    hide Next, Render, StandsAlone, OneLine, EndsLine, PlainText, Tracked, ReadBack, RunLines;
    PlainStays(ReadBack(t), w);
    PlainStays(t, w);
    RunOne(ReadBack(t), w);
    RunOne(t, w);
    PieceExactly(Piece(t, [w], t));
  }

  lemma SummaryTagDepth(rest: string, n: nat)
    ensures TagDepth("<summary>" + rest, n) == TagDepth(rest, n)
  {
    var line := "<summary>" + rest;
    hide TagDepth;
    assert forall k :: 0 <= k < 8 ==> line[1..][k] == "summary>"[k];
    NotATag(line, n);
    SkipDepth(line[1..], 8, n);
    assert line[1..][8..] == rest;
  }

  lemma ContinuedDepth(n: nat)
    ensures TagDepth(" (continued)</summary>\n", n) == n
  {
    var rest := " (continued)</summary>\n";
    var words, end := " (continued)", "</summary>\n";
    assert rest == words + end && NoAngle(end[1..]) && NoAngle(words);
    hide TagDepth;
    assert forall k :: 0 <= k < 12 ==> rest[k] == words[k];
    SkipDepth(rest, 12, n);
    LoneTagDepth(end, n);
  }

  /** A summary line with an opening tag in it leads one block deeper. */
  lemma NamedDepth(n: nat)
    ensures TagDepth(SummaryLine("<details>"), n) == n + 1
  {
    var rest := " (continued)</summary>\n";
    AppendAssociates("<summary>", "<details>", rest);
    hide TagDepth;
    SummaryTagDepth("<details>" + rest, n);
    OpenDepth(rest, n);
    ContinuedDepth(n + 1);
  }

  lemma NamedReadsDeeper()
    ensures |ReadBack(NAMED).details| == 2 && Tracked(NAMED)
  {
    hide TagDepth, SummaryLine, ReadDepth;
    NamedDepth(1);
    OneBlock(OpenDetails("<details>", true));
    assert Trimmed("");
    TagHasNoNewline();
  }

  lemma TagHasNoNewline()
    ensures NoNewline("<details>")
  {
  }

  lemma OneBlock(d: OpenDetails)
    requires d.hasSummary
    ensures ReadDepth([d]) == TagDepth(SummaryLine(d.summary), 1)
  {
    hide TagDepth, SummaryLine;
    assert [d][..0] == [] && ReadDepth([]) == 0;
  }

  /**
   * Whatever plain line does not fit after these two: the cut before it carries the tag in the
   * summary over, and the part that starts there leaves a block open.
   */
  lemma TagInSummarySpoilsPart(line: string, maxLen: int)
    requires PlainText(line) && 61 <= maxLen < 49 + |line|
    ensures var parts := SplitDetails(OPEN_LINE + (SUMMARY_LINE + line), maxLen);
            |parts| == 2 && StandsAlone(parts[0]) && !StandsAlone(parts[1])
  {
    SummaryLineShape();
    NamedReadsDeeper();
    TagInSummaryIsReached();
    hide Next, ReadBack, PlainText, StandsAlone, SplitDetails, Tracked, OneLine, EndsLine;
    var s := EMPTY.(details := [NO_SUMMARY]);
    assert CloserLen(s) == 12 && CloserLen(NAMED) == 12;
    DeeperPartStaysOpen(OPEN_LINE, SUMMARY_LINE, line, s, NAMED, maxLen);
  }
}
