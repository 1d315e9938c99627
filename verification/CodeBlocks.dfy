/** Details that are one code block, as the diff check and others write them. */
module CodeBlocks {
  import opened Text
  import opened Markdown
  import opened MarkdownLaws
  import opened DetailsSplitter
  import opened SplitterLaws
  import opened StandAlone
  import opened TameContent
  import opened RoomyContent
  import opened AppSections
  import opened AppSectionLaws
  import opened Messages
  import opened Comments
  import opened ContainedText
  import opened WholeReports
  import opened OneCheckReports

  /** A fence line with the language, the text, and a fence line that is not ended. */
  function CodeBlock(lang: string, body: string): string {
    "```" + lang + "\n" + body + "\n```"
  }

  predicate PlainLang(lang: string) {
    NoNewline(lang) && NoTick(lang)
  }

  /** No line of the text ends a fence of three backticks. */
  predicate NeverCloses(body: string) {
    forall i :: 0 <= i < |Lines(body + "\n")| ==> !Closes(FenceOf(Lines(body + "\n")[i]), "```")
  }

  /** The state in such a block. */
  function InBlock(s: MdState, lang: string): MdState {
    s.(fence := "```", fenceInfo := FenceOf("```" + lang + "\n").1)
  }

  lemma OpeningLine(lang: string)
    requires PlainLang(lang)
    ensures var line := "```" + lang + "\n";
            line != "" && OneLine(line) && EndsLine(line) && FenceOf(line).0 == "```" && NoTick(lang + "\n")
  {
    hide TrimSpace;
    var line := "```" + lang + "\n";
    LeadingUnique(line, ' ', 0);
    assert line[0..] == line;
    assert forall i :: 0 <= i < |lang| ==> line[i + 3] == lang[i];
    LeadingUnique(line, '`', 3);
    assert line[..3] == "```";
    assert NoNewline("```" + lang);
  }

  lemma NextOpening(s: MdState, lang: string)
    requires PlainLang(lang) && s.fence == ""
    ensures Next(s, "```" + lang + "\n") == InBlock(s, lang)
  {
    OpeningLine(lang);
    hide FenceOf;
    NextFence(s, "```" + lang + "\n", "```", FenceOf("```" + lang + "\n").1);
  }

  lemma NextInBlock(t: MdState, line: string)
    requires t.fence == "```" && !Closes(FenceOf(line), "```")
    ensures Next(t, line) == t
  {
    hide FenceOf, ScanTags, SummaryOf;
  }

  /** What the last line does. */
  lemma NextClosing(t: MdState)
    ensures Next(t, "```") == if t.fence == "" then t.(fence := "```", fenceInfo := "")
                              else if |t.fence| <= 3 then t.(fence := "", fenceInfo := "") else t
  {
    hide Next;
    NextNewline(t, "```");
    NextTicks(t, "```");
  }

  /* ----- exactly when the block is closed ----- */

  lemma BlockText(lang: string, body: string)
    ensures CodeBlock(lang, body) == ("```" + lang + "\n") + ((body + "\n") + "```")
  {
    var head := "```" + lang + "\n";
    assert "\n```" == "\n" + "```";
    assert head + body + ("\n" + "```") == head + ((body + "\n") + "```");
  }

  lemma BlockRuns(s: MdState, lang: string, body: string)
    requires PlainLang(lang) && s.fence == ""
    ensures Run(s, CodeBlock(lang, body)) == Next(Run(InBlock(s, lang), body), "```")
  {
    hide Run, Next, InBlock;
    var head := "```" + lang + "\n";
    BlockText(lang, body);
    OpeningLine(lang);
    NextOpening(s, lang);
    RunLine(s, head, (body + "\n") + "```");
    var t := InBlock(s, lang);
    LastNewline(body);
    RunAppend(t, body + "\n", "```");
    RunNewline(t, body);
    var u := Run(t, body);
    assert "```" + "" == "```" && OneLine("```");
    RunLine(u, "```", "");
    RunNothing(Next(u, "```"));
  }

  /** The fence of the block is open where the text ends, and no block more than before. */
  predicate EndsInBlock(lang: string, body: string) {
    var u := Run(InBlock(INSIDE, lang), body);
    u.fence != "" && |u.fence| <= 3 && |u.details| <= 2
  }

  /** A code block does no harm, if and only if its last line still finds its fence open. */
  lemma CodeBlockExactly(lang: string, body: string)
    requires PlainLang(lang)
    ensures ClosedInside(CodeBlock(lang, body)) <==> EndsInBlock(lang, body)
  {
    hide Run, Next, CodeBlock, InBlock;
    BlockRuns(INSIDE, lang, body);
    NextClosing(Run(InBlock(INSIDE, lang), body));
  }

  lemma {:induction false} RunLinesInBlock(t: MdState, lines: seq<string>)
    requires t.fence == "```" && forall i :: 0 <= i < |lines| ==> !Closes(FenceOf(lines[i]), "```")
    ensures RunLines(t, lines) == t
  {
    hide Next, FenceOf;
    if lines != [] {
      RunLinesInBlock(t, lines[..|lines| - 1]);
      NextInBlock(t, lines[|lines| - 1]);
    }
  }

  lemma CodeBlockClosed(lang: string, body: string)
    requires PlainLang(lang) && NeverCloses(body)
    ensures ClosedInside(CodeBlock(lang, body))
  {
    hide ClosedInside, Run, Lines, RunLines, FenceOf, CodeBlock;
    var t := InBlock(INSIDE, lang);
    RunIsRunLines(t, body + "\n");
    RunLinesInBlock(t, Lines(body + "\n"));
    RunNewline(t, body);
    CodeBlockExactly(lang, body);
  }

  /* ----- cut into parts ----- */

  lemma BlockLines(lang: string, body: string)
    requires PlainLang(lang)
    ensures Lines(CodeBlock(lang, body)) == ["```" + lang + "\n"] + Lines(body + "\n") + ["```"]
  {
    var head, mid, end := "```" + lang + "\n", body + "\n", "```";
    BlockText(lang, body);
    OpeningLine(lang);
    LastNewline(body);
    LinesAppend(head, mid + end);
    LinesAppend(mid, end);
    OneLineIsItself(head);
    assert OneLine(end);
    OneLineIsItself(end);
    hide Lines, CodeBlock;
    assert [head] + (Lines(mid) + [end]) == [head] + Lines(mid) + [end];
  }

  lemma OneLineIsItself(line: string)
    requires line != "" && OneLine(line)
    ensures Lines(line) == [line]
  {
    FirstLine(line, "");
    assert line + "" == line;
    assert line[..|line|] == line && line[|line|..] == "" && Lines("") == [];
  }

  /** Up to its last line, everything after the first line of the block is in its fence. */
  lemma {:induction false} BlockStates(lang: string, body: string, i: nat)
    requires PlainLang(lang) && NeverCloses(body) && 1 <= i < |Lines(CodeBlock(lang, body))|
    ensures RunLines(EMPTY, Lines(CodeBlock(lang, body))[..i]).fence == "```"
  {
    var head, mid := "```" + lang + "\n", Lines(body + "\n");
    BlockLines(lang, body);
    hide Lines, CodeBlock, Next, FenceOf;
    assert Lines(CodeBlock(lang, body))[..i] == [head] + mid[..i - 1];
    RunLinesCons(EMPTY, head, mid[..i - 1]);
    NextOpening(EMPTY, lang);
    hide RunLines;
    RunLinesInBlock(InBlock(EMPTY, lang), mid[..i - 1]);
  }

  lemma OpeningTame(lang: string)
    requires PlainLang(lang)
    ensures TameHere("", "```" + lang + "\n")
  {
    OpeningLine(lang);
    var line := "```" + lang + "\n";
    LeadingUnique(line, ' ', 0);
    assert line[0..] == line;
    assert forall i :: 0 <= i < |lang| ==> line[i + 3] == lang[i];
    LeadingUnique(line, '`', 3);
    assert line[3..] == lang + "\n";
    hide FenceOf, SummaryOf;
  }

  /** So nothing that is carried is read back differently. */
  lemma CodeBlockTame(lang: string, body: string)
    requires PlainLang(lang) && NeverCloses(body)
    ensures TameOutside(Lines(CodeBlock(lang, body)))
  {
    var lines := Lines(CodeBlock(lang, body));
    BlockLines(lang, body);
    OpeningTame(lang);
    hide Lines, CodeBlock, NeverCloses, TameFence, TameSummary, IsFence;
    forall i | 0 <= i < |lines|
      ensures TameHere(RunLines(EMPTY, lines[..i]).fence, lines[i])
    {
      if i > 0 {
        BlockStates(lang, body, i);
      } else {
        assert lines[..0] == [];
      }
    }
  }

  lemma {:induction false} NothingOutside(lines: seq<string>)
    requires forall i :: 0 <= i < |lines| ==> IsFence(lines[i]) || RunLines(EMPTY, lines[..i]).fence != ""
    ensures OpenTags(lines) == 0
  {
    hide RunLines, IsFence;
    if lines != [] {
      var init := lines[..|lines| - 1];
      assert forall i :: 0 <= i < |init| ==> init[..i] == lines[..i] && init[i] == lines[i];
      NothingOutside(init);
    }
  }

  /** And the room it takes to cut the block depends on its fence lines alone. */
  lemma CodeBlockNeeds(lang: string, body: string)
    requires PlainLang(lang) && NeverCloses(body)
    ensures var lines := Lines(CodeBlock(lang, body));
            Needs(lines) == 3 * LongestFence(lines) + 2 + |LINE_TRUNCATED|
  {
    var lines := Lines(CodeBlock(lang, body));
    BlockLines(lang, body);
    OpeningLine(lang);
    hide Lines, CodeBlock, NeverCloses, FenceOf, RunLines, LongestFence, BLOCK_BYTES, LINE_TRUNCATED;
    forall i | 0 <= i < |lines|
      ensures IsFence(lines[i]) || RunLines(EMPTY, lines[..i]).fence != ""
    {
      if i > 0 {
        BlockStates(lang, body, i);
      }
    }
    NothingOutside(lines);
  }

  /** A check that reports a code block is safe, cut or not, if the room for its details takes its fence lines. */
  lemma CodeBlockIsSafe(header: string, summary: string, lang: string, body: string, max: int)
    requires PlainLang(lang) && NeverCloses(body)
    requires NoNewline(summary) && StandsAlone(SummaryOfCheck(summary)) && !EndsInTag(summary)
    requires var c := CheckBlock(summary, CodeBlock(lang, body));
             FitsAlone(header, c, max) ||
               3 * LongestFence(Lines(c.details)) + 2 + |LINE_TRUNCATED| <= CutRoom(header, c, max)
    ensures var c := CheckBlock(summary, CodeBlock(lang, body));
            SafeCheck(header, c, max) && RoomyCheck(header, c, max)
  {
    hide CodeBlock, NeverCloses, StandsAlone, SummaryOfCheck, ClosedInside, FitsAlone, CutRoom, Needs, TameOutside;
    hide EndsInTag, Lines, Tame, EveryLineFits, LongestFence, LINE_TRUNCATED;
    CodeBlockClosed(lang, body);
    CodeBlockTame(lang, body);
    CodeBlockNeeds(lang, body);
  }

  /* ----- a fence in the text ----- */

  lemma NextCloses(t: MdState, line: string)
    requires t.fence == "```" && Closes(FenceOf(line), "```")
    ensures Next(t, line).fence == ""
  {
    hide FenceOf, ScanTags, SummaryOf;
  }

  /** Text whose last line ends the block leaves the fence open that the block ends with. */
  lemma FenceInText(lang: string, body: string, line: string)
    requires PlainLang(lang) && NeverCloses(body)
    requires NoNewline(line) && line != "" && Closes(FenceOf(line), "```")
    ensures !ClosedInside(CodeBlock(lang, body + "\n" + line))
  {
    hide ClosedInside, Run, Lines, RunLines, FenceOf, CodeBlock, Next;
    var t := InBlock(INSIDE, lang);
    RunIsRunLines(t, body + "\n");
    RunLinesInBlock(t, Lines(body + "\n"));
    LastNewline(body);
    RunAppend(t, body + "\n", line);
    assert line + "" == line && OneLine(line);
    RunLine(t, line, "");
    RunNothing(Next(t, line));
    NextCloses(t, line);
    CodeBlockExactly(lang, body + "\n" + line);
  }

  /** A line of the live object, three blanks deep in a diff, is such a line. */
  lemma IndentedFence()
    ensures Closes(FenceOf("   ```"), "```")
  {
    LeadingUnique("   ```", ' ', 3);
    assert "   ```"[3..] == "```";
    LeadingUnique("```", '`', 3);
    assert "```"[..3] == "```" && "```"[3..] == "";
  }

  /** So the diff of an object whose text has a fence line leaves a fence open in the comment. */
  lemma FenceInDiffStaysOpen(
      c: Content, emoji: CommitState -> string, name: string, r: Result, cfg: Config, body: string, line: string)
    requires name !in c.deleted && ResultsOf(c, name) == [r] && IsIncluded(r) && PlainAround(emoji, name, r, cfg)
    requires FitsAlone(HeaderOf(emoji, name, r), CheckOf(r, emoji), OneCommentBudget(cfg))
    requires NeverCloses(body) && NoNewline(line) && line != "" && Closes(FenceOf(line), "```")
    requires r.details == CodeBlock("diff", body + "\n" + line)
    ensures !AllStandAlone(BuildComment(c, emoji, [name], cfg))
  {
    assert PlainLang("diff");
    hide BuildComment, PlainAround, FitsAlone, StandsAlone, ClosedInside, CodeBlock, NeverCloses, FenceOf, PlainLang;
    FenceInText("diff", body, line);
    OneCheckExactly(c, emoji, name, r, cfg);
  }
}
