/** No comment leaves a block or a fence open. */
module WholeComments {
  import opened Text
  import opened Markdown
  import opened MarkdownLaws
  import opened Packing
  import opened Messages
  import opened Comments
  import opened CommentLaws
  import opened ContainedText

  /* ----- text that ends on a line of closing tags ----- */

  /** What is open before the closing tags at the end is what they close, at most. */
  ghost predicate EndsClosing(text: string) {
    exists y, c: nat :: EndsWith(text, y, c)
  }

  ghost predicate EndsWith(text: string, y: string, c: nat) {
    text == y + Closings(c) && EndsLine(y) && Leads(y, 0, c)
  }

  lemma EndClosed(text: string, rest: string)
    requires EndsClosing(text) && StandsAlone(rest)
    ensures StandsAlone(text + ("\n" + rest))
  {
    hide Leads, StandsAlone, EndsLine, Closings;
    var y, c: nat :| EndsWith(text, y, c);
    var line := Closings(c) + "\n";
    assert text + ("\n" + rest) == y + (line + rest);
    ClosingLineLeads(c, false);
    StandsAloneLeads(rest, 0);
    ThenLeads(line, rest, c, 0, 0);
    ThenLeads(y, line + rest, 0, c, 0);
    LeadsToNothing(y + (line + rest));
  }

  lemma ExtendBySection(text: string, section: string)
    requires EndsClosing(text) && GoodSection(section)
    ensures EndsClosing(text + section)
  {
    hide Leads, EndsLine, Closings, GoodSection;
    var x, c: nat :| EndsWith(text, x, c);
    var y, d := SectionLeads(section);
    var line := Closings(c) + "<details>\n";
    ClosingLineLeads(c, true);
    var all := x + (line + y);
    ThenLeads(line, y, c, 1, d);
    ThenLeads(x, line + y, 0, c, d);
    EndsLineAppend(line, y);
    EndsLineAppend(x, line + y);
    assert text + section == all + Closings(d);
    assert EndsWith(text + section, all, d);
  }

  lemma {:induction false} ExtendBySections(text: string, sections: seq<string>)
    requires EndsClosing(text) && forall i :: 0 <= i < |sections| ==> GoodSection(sections[i])
    ensures EndsClosing(text + Concat(sections))
    decreases sections
  {
    hide EndsClosing, GoodSection;
    if sections == [] {
      assert text + "" == text;
    } else {
      ExtendBySection(text, sections[0]);
      ExtendBySections(text + sections[0], sections[1..]);
      hide Concat;
      ConcatStep(sections);
      AppendAssociates(text, sections[0], Concat(sections[1..]));
    }
  }

  /* ----- a comment ----- */

  /** The texts around the sections leave nothing open: the heading, whatever its numbers, and the footer. */
  ghost predicate GoodFrame(cfg: Config) {
    && StandsAlone(cfg.footer)
    && forall part: nat, total: nat :: StandsAlone(ChunkHeader(cfg.identifier, part, total))
  }

  lemma {:induction false} DecimalIsDigits(n: nat)
    ensures Decimal(n) != "" && forall i :: 0 <= i < |Decimal(n)| ==> '0' <= Decimal(n)[i] <= '9'
  {
    if n >= 10 {
      DecimalIsDigits(n / 10);
    }
  }

  lemma PlainLineStandsAlone(text: string)
    requires NoNewline(text) && TagFree(text) && text != "" && (text[0] == '#' || text[0] == '*')
    ensures StandsAlone(text) && StandsAlone(text + "\n")
  {
    NotAFence(text);
    hide Run, Next, FenceOf, TagFree;
    assert text + "" == text;
    RunLine(EMPTY, text, "");
    NextTagFree(EMPTY, text);
    RunNothing(Next(EMPTY, text));
    RunNewline(EMPTY, text);
  }

  lemma JoinPlain(a: string, b: string)
    requires NoNewline(a) && NoAngle(a) && NoNewline(b) && NoAngle(b)
    ensures NoNewline(a + b) && NoAngle(a + b)
  {
  }

  /** An identifier of one line without a tag, and a footer that leaves nothing open, are enough. */
  lemma PlainFrameIsGood(cfg: Config)
    requires NoNewline(cfg.identifier) && TagFree(cfg.identifier + " ") && StandsAlone(cfg.footer)
    ensures GoodFrame(cfg)
  {
    hide StandsAlone, NoNewline, TagFree;
    forall part: nat, total: nat
      ensures StandsAlone(ChunkHeader(cfg.identifier, part, total))
    {
      PlainHeaderStandsAlone(cfg.identifier, part, total);
    }
  }

  lemma PlainEnd(part: nat, total: nat)
    ensures var end := " Report" + " (Part " + Decimal(part) + " of " + Decimal(total) + ")";
            NoNewline(end) && NoAngle(end) && " " <= end
  {
    hide Decimal;
    DecimalIsDigits(part);
    DecimalIsDigits(total);
    var a, b := Decimal(part), Decimal(total);
    assert NoNewline(" Report") && NoAngle(" Report");
    assert NoNewline(" (Part ") && NoAngle(" (Part ") && NoNewline(" of ") && NoAngle(" of ");
    assert NoNewline(")") && NoAngle(")");
    assert NoNewline(a) && NoAngle(a) && NoNewline(b) && NoAngle(b);
    hide NoNewline, NoAngle;
    JoinPlain(" Report", " (Part ");
    JoinPlain(" Report" + " (Part ", a);
    JoinPlain(" Report" + " (Part " + a, " of ");
    JoinPlain(" Report" + " (Part " + a + " of ", b);
    JoinPlain(" Report" + " (Part " + a + " of " + b, ")");
  }

  lemma HeadingStandsAlone(id: string, end: string)
    requires NoNewline(id) && TagFree(id + " ") && NoNewline(end) && NoAngle(end) && " " <= end
    ensures StandsAlone("# Kubechecks " + id + end + "\n")
  {
    assert NoNewline("# Kubechecks ") && NoAngle("# Kubechecks ");
    hide StandsAlone, TagFree, NoAngle;
    TagFreeAround("# Kubechecks ", id, end);
    JoinOneLine("# Kubechecks ", id);
    JoinOneLine("# Kubechecks " + id, end);
    PlainLineStandsAlone("# Kubechecks " + id + end);
  }

  lemma PlainHeaderStandsAlone(id: string, part: nat, total: nat)
    requires NoNewline(id) && TagFree(id + " ")
    ensures StandsAlone(ChunkHeader(id, part, total))
  {
    hide StandsAlone, Decimal, TagFree;
    assert NoNewline(" Report") && NoAngle(" Report");
    hide NoNewline, NoAngle;
    PlainEnd(part, total);
    var long := " Report" + " (Part " + Decimal(part) + " of " + Decimal(total) + ")";
    HeadingStandsAlone(id, " Report");
    HeadingStandsAlone(id, long);
    HeaderText(id, part, total);
    assert "# Kubechecks " + id + " Report" + " (Part " + Decimal(part) + " of " + Decimal(total) + ")" ==
           "# Kubechecks " + id + long;
  }

  lemma HeaderText(id: string, part: nat, total: nat)
    ensures var short := "# Kubechecks " + id + " Report";
            ChunkHeader(id, part, total) ==
              (if total == 1 then short else short + " (Part " + Decimal(part) + " of " + Decimal(total) + ")") + "\n"
  {
    hide Decimal;
    assert " Report\n" == " Report" + "\n" && ")\n" == ")" + "\n" && " Report (Part " == " Report" + " (Part ";
    var short := "# Kubechecks " + id + " Report";
    assert "# Kubechecks " + id + " Report\n" == short + "\n";
    assert "# Kubechecks " + id + " Report (Part " == short + " (Part ";
  }

  lemma HeaderEndsLine(cfg: Config, part: nat, total: nat)
    ensures EndsLine(ChunkHeader(cfg.identifier, part, total))
  {
    HeaderText(cfg.identifier, part, total);
  }

  /** The lines before the sections. */
  lemma HeadLeads(cfg: Config, i: nat, total: nat)
    requires GoodFrame(cfg)
    ensures var head := ChunkHeader(cfg.identifier, i + 1, total) + if i > 0 then CONTINUED_FROM else "";
            EndsLine(head) && Leads(head, 0, 0)
  {
    hide Leads, StandsAlone, ChunkHeader, EndsLine;
    var head := ChunkHeader(cfg.identifier, i + 1, total);
    HeaderEndsLine(cfg, i + 1, total);
    StandsAloneLeads(head, 0);
    if i > 0 {
      ContinuedFromLeads();
      ThenLeads(head, CONTINUED_FROM, 0, 0, 0);
      EndsLineAppend(head, CONTINUED_FROM);
    } else {
      assert head + "" == head;
    }
  }

  lemma HeaderEndsClosing(cfg: Config, i: nat, total: nat)
    requires GoodFrame(cfg)
    ensures EndsClosing(ChunkHeader(cfg.identifier, i + 1, total) + if i > 0 then CONTINUED_FROM else "")
  {
    hide Leads, ChunkHeader, EndsLine;
    HeadLeads(cfg, i, total);
    var head := ChunkHeader(cfg.identifier, i + 1, total) + if i > 0 then CONTINUED_FROM else "";
    assert head == head + Closings(0);
    assert EndsWith(head, head, 0);
  }

  /** The words of the notes open nothing. */
  lemma NotesAreWords()
    ensures Words(CONTINUED_FROM_WORDS) && CONTINUED_FROM_WORDS != "" && CONTINUED_FROM_WORDS[0] == '*'
    ensures Words(CONTINUED_IN_WORDS) && CONTINUED_IN_WORDS != "" && CONTINUED_IN_WORDS[0] == '*'
  {
    assert Words("*Continued from") && Words(" previous comment.*");
    assert Words("**Continued in") && Words(" next comment.**");
  }

  lemma TruncatedHeadIsWords()
    ensures Words(TRUNCATED_HEAD) && TRUNCATED_HEAD != "" && TRUNCATED_HEAD[0] == '*'
  {
    assert Words("**Warning**: Report");
    assert Words(" exceeded the maximum");
  }

  lemma TruncatedTailIsWords()
    ensures Words(" number of comments." + " Some output was truncated.")
  {
    assert Words(" number of comments.");
    assert Words(" Some output was truncated.");
  }

  lemma WordsJoin(a: string, b: string)
    requires Words(a) && Words(b)
    ensures Words(a + b)
  {
  }

  lemma TruncatedIsWords()
    ensures Words(TRUNCATED_WORDS) && TRUNCATED_WORDS != "" && TRUNCATED_WORDS[0] == '*'
  {
    TruncatedHeadIsWords();
    TruncatedTailIsWords();
    hide Words, TRUNCATED_HEAD;
    WordsJoin(TRUNCATED_HEAD, " number of comments." + " Some output was truncated.");
  }

  lemma WordsArePlain(words: string)
    requires Words(words)
    ensures NoNewline(words) && NoAngle(words)
  {
  }

  lemma NoteStandsAlone(note: string)
    requires Words(note) && note != "" && note[0] == '*'
    ensures StandsAlone(note) && StandsAlone("\n" + note)
  {
    hide Words, StandsAlone;
    WordsArePlain(note);
    NoAngleNoTag(note);
    PlainLineStandsAlone(note);
    AfterBlank(note);
  }

  lemma AfterBlank(text: string)
    requires StandsAlone(text)
    ensures StandsAlone("\n" + text)
  {
    hide Run, Next;
    RunLine(EMPTY, "\n", text);
    NextBlank(EMPTY);
  }

  lemma ContinuedFromLeads()
    ensures Leads(CONTINUED_FROM, 0, 0) && EndsLine(CONTINUED_FROM)
  {
    NotesAreWords();
    hide Words, StandsAlone, Leads, CONTINUED_FROM_WORDS;
    var words := CONTINUED_FROM_WORDS;
    NoteStandsAlone(words);
    StandsAloneLeads("\n" + words, 0);
    NewlineLeads("\n" + words, 0, 0);
    NewlineLeads("\n" + words + "\n", 0, 0);
    assert CONTINUED_FROM == "\n" + words + "\n" + "\n";
  }

  /** Text on a line of its own after text that leaves nothing open. */
  lemma OnNextLine(text: string, rest: string)
    requires StandsAlone(text) && StandsAlone(rest)
    ensures StandsAlone(text + ("\n" + rest))
  {
    hide Leads, StandsAlone, EndsLine;
    StandsAloneLeads(text, 0);
    StandsAloneLeads(rest, 0);
    NewlineLeads(text, 0, 0);
    ThenLeads(text + "\n", rest, 0, 0, 0);
    LeadsToNothing(text + "\n" + rest);
    AppendAssociates(text, "\n", rest);
  }

  /** What a tail adds after its first newline leaves nothing open. */
  lemma TailStandsAlone(i: nat, total: nat, truncated: bool, cfg: Config) returns (rest: string)
    requires GoodFrame(cfg)
    ensures Tail(i, total, truncated, cfg) == "\n" + rest && StandsAlone(rest)
  {
    hide StandsAlone, TRUNCATED_WORDS, CONTINUED_IN_WORDS, CONTINUED_FROM_WORDS, Words;
    if i + 1 < total {
      rest := "\n" + CONTINUED_IN_WORDS;
      NotesAreWords();
      NoteStandsAlone(CONTINUED_IN_WORDS);
    } else {
      var end := cfg.footer + if truncated then TRUNCATED_NOTE else "";
      rest := "\n" + end;
      assert FOOTER_SEPARATOR == "\n" + "\n";
      if truncated {
        TruncatedIsWords();
        NoteStandsAlone(TRUNCATED_WORDS);
        OnNextLine(cfg.footer, "\n" + TRUNCATED_WORDS);
      } else {
        assert end == cfg.footer;
      }
      AfterBlank(end);
      AppendAssociates(FOOTER_SEPARATOR, cfg.footer, if truncated then TRUNCATED_NOTE else "");
      AppendAssociates("\n", "\n", end);
    }
  }

  ghost predicate GoodSections(sections: seq<string>) {
    forall i :: 0 <= i < |sections| ==> GoodSection(sections[i])
  }

  /** A comment that is too long is cut, and then there is room to close it. */
  ghost predicate RoomToClose(sections: seq<string>, i: nat, total: nat, truncated: bool, cfg: Config) {
    var body, tail := Body(sections, i, total, cfg), Tail(i, total, truncated, cfg);
    |body| + |tail| > cfg.maxLength ==> ClosersFit(body, cfg.maxLength - |tail| - |CUT_SHORT_NOTE|)
  }

  lemma BodyEndsClosing(sections: seq<string>, i: nat, total: nat, cfg: Config)
    requires GoodFrame(cfg) && GoodSections(sections)
    ensures EndsClosing(Body(sections, i, total, cfg))
  {
    hide GoodFrame, EndsClosing, GoodSection, ChunkHeader, Concat;
    HeaderEndsClosing(cfg, i, total);
    ExtendBySections(ChunkHeader(cfg.identifier, i + 1, total) + if i > 0 then CONTINUED_FROM else "", sections);
  }

  /** A framed chunk of good sections, whole or cut short, stands alone. */
  lemma FrameStandsAlone(sections: seq<string>, i: nat, total: nat, truncated: bool, cfg: Config)
    requires GoodFrame(cfg) && GoodSections(sections) && RoomToClose(sections, i, total, truncated, cfg)
    ensures StandsAlone(Frame(sections, i, total, truncated, cfg))
  {
    hide GoodFrame, GoodSections, EndsClosing, StandsAlone, Body, Tail, CutShort, ClosersFit, CUT_SHORT_NOTE;
    var rest := TailStandsAlone(i, total, truncated, cfg);
    var body, tail := Body(sections, i, total, cfg), Tail(i, total, truncated, cfg);
    if |body| + |tail| > cfg.maxLength {
      CutShortIsSafe(body, cfg.maxLength - |tail|);
      OnNextLine(CutShort(body, cfg.maxLength - |tail|), rest);
    } else {
      BodyEndsClosing(sections, i, total, cfg);
      EndClosed(body, rest);
    }
  }

  /* ----- a report without sections ----- */

  lemma NoChangesStandsAlone(i: nat, total: nat, truncated: bool, cfg: Config)
    requires GoodFrame(cfg) && RoomToClose(["No changes"], i, total, truncated, cfg)
    ensures StandsAlone(Frame(["No changes"], i, total, truncated, cfg))
  {
    hide GoodFrame, StandsAlone, Tail, CutShort, ClosersFit, CUT_SHORT_NOTE, Body;
    var rest := TailStandsAlone(i, total, truncated, cfg);
    var body, tail := Body(["No changes"], i, total, cfg), Tail(i, total, truncated, cfg);
    if |body| + |tail| > cfg.maxLength {
      CutShortIsSafe(body, cfg.maxLength - |tail|);
      OnNextLine(CutShort(body, cfg.maxLength - |tail|), rest);
    } else {
      NoChangesBody(cfg, i, total);
      OnNextLine(body, rest);
    }
  }

  lemma NoChangesBody(cfg: Config, i: nat, total: nat)
    requires GoodFrame(cfg)
    ensures StandsAlone(Body(["No changes"], i, total, cfg))
  {
    hide GoodFrame, StandsAlone, ChunkHeader, Concat, CONTINUED_FROM_WORDS;
    OneInConcat("No changes");
    PlainWordsStandAlone(cfg, i, total);
  }

  lemma PlainWordsStandAlone(cfg: Config, i: nat, total: nat)
    requires GoodFrame(cfg)
    ensures var head := ChunkHeader(cfg.identifier, i + 1, total) + if i > 0 then CONTINUED_FROM else "";
            StandsAlone(head + "No changes")
  {
    hide Leads, ChunkHeader, EndsLine, Run, Next;
    var head := ChunkHeader(cfg.identifier, i + 1, total) + if i > 0 then CONTINUED_FROM else "";
    var words := "No changes";
    HeadLeads(cfg, i, total);
    assert NoNewline(words) && NoAngle(words) && words + "" == words;
    RunLine(EMPTY, words, "");
    PlainLine(EMPTY, words);
    RunNothing(EMPTY);
    StandsAloneLeads(words, 0);
    ThenLeads(head, words, 0, 0, 0);
    LeadsToNothing(head + words);
  }

  /* ----- the report ----- */

  /** Every chunk that is cut short has room to be closed. */
  ghost predicate RoomEverywhere(chunks: seq<seq<string>>, truncated: bool, cfg: Config) {
    forall i :: 0 <= i < |Framed(chunks)| ==> RoomToClose(Framed(chunks)[i], i, |Framed(chunks)|, truncated, cfg)
  }

  ghost predicate GoodChunks(chunks: seq<seq<string>>) {
    forall i :: 0 <= i < |chunks| ==> GoodSections(chunks[i])
  }

  lemma FramesStandAlone(chunks: seq<seq<string>>, truncated: bool, cfg: Config)
    requires GoodFrame(cfg) && GoodChunks(chunks) && RoomEverywhere(chunks, truncated, cfg)
    ensures AllStandAlone(FrameChunks(chunks, truncated, cfg))
  {
    hide GoodFrame, GoodSections, RoomToClose, StandsAlone, Frame;
    var framed := Framed(chunks);
    forall i | 0 <= i < |framed|
      ensures StandsAlone(Frame(framed[i], i, |framed|, truncated, cfg))
    {
      if framed == chunks {
        FrameStandsAlone(framed[i], i, |framed|, truncated, cfg);
      } else {
        assert framed == [["No changes"]] && framed[i] == ["No changes"];
        NoChangesStandsAlone(i, |framed|, truncated, cfg);
      }
    }
  }

  lemma {:induction false} FlatIsGood(chunks: seq<seq<string>>)
    requires GoodSections(Flatten(chunks))
    ensures GoodChunks(chunks)
  {
    hide GoodSection;
    if chunks != [] {
      var flat, tail := Flatten(chunks), Flatten(chunks[1..]);
      assert forall j :: 0 <= j < |chunks[0]| ==> chunks[0][j] == flat[j];
      assert forall j :: 0 <= j < |tail| ==> tail[j] == flat[|chunks[0]| + j];
      hide Flatten;
      FlatIsGood(chunks[1..]);
      assert forall i :: 0 < i < |chunks| ==> chunks[i] == chunks[1..][i - 1];
    }
  }

  lemma PackedIsGood(sections: seq<string>, budget: int)
    requires GoodSections(sections)
    ensures GoodChunks(Pack(sections, budget))
  {
    hide Pack, GoodSections, GoodChunks;
    PackKeepsSections(sections, budget);
    FlatIsGood(Pack(sections, budget));
  }

  /** What BuildComment cuts sections to. */
  function BudgetUsed(c: Content, emoji: CommitState -> string, names: seq<string>, cfg: Config): int {
    if FitsOneComment(AllSections(c, emoji, names, OneCommentBudget(cfg)), cfg) then OneCommentBudget(cfg)
    else SectionBudget(cfg)
  }

  /** The chunks that BuildComment frames, and whether some were dropped. */
  function ChunksOf(
      c: Content, emoji: CommitState -> string, names: seq<string>, cfg: Config): (seq<seq<string>>, bool) {
    var one := AllSections(c, emoji, names, OneCommentBudget(cfg));
    if FitsOneComment(one, cfg) then ([one], false) else
    var chunks := Pack(AllSections(c, emoji, names, SectionBudget(cfg)), SectionBudget(cfg));
    if |chunks| > cfg.maxChunks then (chunks[..cfg.maxChunks], true) else (chunks, false)
  }

  /**
   * No comment of the report leaves a block or a fence open: not where sections meet, not where a
   * chunk is continued, and not where it was cut short.
   */
  lemma EveryCommentStandsAlone(
      c: Content, emoji: CommitState -> string, names: seq<string>, cfg: Config)
    requires GoodFrame(cfg) && GoodSections(AllSections(c, emoji, names, BudgetUsed(c, emoji, names, cfg)))
    requires var (chunks, truncated) := ChunksOf(c, emoji, names, cfg); RoomEverywhere(chunks, truncated, cfg)
    ensures AllStandAlone(BuildComment(c, emoji, names, cfg))
  {
    EarlyStopIsInvisible(c, emoji, names, cfg);
    hide AllSections, BuildComment, FrameChunks, Pack, GoodFrame, GoodSections, RoomEverywhere, AllStandAlone,
      FitsOneComment;
    var (chunks, truncated) := ChunksOf(c, emoji, names, cfg);
    var one := AllSections(c, emoji, names, OneCommentBudget(cfg));
    if !FitsOneComment(one, cfg) {
      PackedIsGood(AllSections(c, emoji, names, SectionBudget(cfg)), SectionBudget(cfg));
    }
    assert GoodChunks(chunks);
    FramesStandAlone(chunks, truncated, cfg);
  }
}
