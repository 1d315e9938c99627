/** What BuildComment promises: every comment fits, nothing is lost or cut before it has to be. */
module CommentLaws {
  import opened Text
  import opened Utf8
  import opened Markdown
  import opened MarkdownLaws
  import opened SplitterLaws
  import opened Packing
  import opened SplitUtf8
  import opened Messages
  import opened Comments

  /* ----- cutShort ----- */

  lemma {:induction false} CutShortFromFits(markdown: string, room: int, maxLen: int)
    requires room <= maxLen
    ensures |CutShortFrom(markdown, room, maxLen)| <= Max(maxLen, 0)
    decreases room
  {
    hide CutCloser, CutAtRune;
    CutAtRuneIsLongest(markdown, maxLen);
    var over := Over(markdown, room, maxLen - |CUT_SHORT_NOTE|);
    if room > 0 && over > 0 {
      CutShortFromFits(markdown, room - over, maxLen);
    }
  }

  lemma PlainLines(s: MdState, a: string, b: string, c: string)
    requires Next(s, a) == s && Next(s, b) == s && Next(s, c) == s
    requires a != "" && b != "" && c != "" && OneLine(a) && OneLine(b) && OneLine(c) && EndsLine(a) && EndsLine(b)
    ensures Run(s, a + b + c) == s
  {
    hide Next, Run;
    AppendAssociates(a, b, c);
    RunLine(s, a, b + c);
    RunTwoLines(s, b, c);
  }

  /** Bytes that neither end a line nor start a tag. */
  predicate Words(s: string) {
    forall i :: 0 <= i < |s| ==> s[i] != '<' && s[i] != '\n' && s[i] <= '\U{7F}'
  }

  lemma NoteIsWords()
    ensures Words(CUT_SHORT_WORDS) && CUT_SHORT_WORDS != "" && CUT_SHORT_WORDS[0] == '*'
  {
    assert Words("**Warning**: This");
    assert Words(" comment was too long");
    assert Words(" and was cut short.");
  }

  lemma NoteChangesNothing(s: MdState)
    ensures Run(s, CUT_SHORT_NOTE) == s
  {
    hide Next, Run;
    NoteIsWords();
    var text := CUT_SHORT_WORDS;
    NextBlank(s);
    PlainLine(s, text);
    PlainLines(s, "\n", "\n", text);
  }

  lemma NoteIsValid()
    ensures Valid(CUT_SHORT_NOTE)
  {
    NoteIsWords();
    hide Valid;
    AsciiIsValid("\n");
    AsciiIsValid(CUT_SHORT_WORDS);
    ValidAppend("\n", "\n");
    ValidAppend("\n" + "\n", CUT_SHORT_WORDS);
  }

  lemma NotedCutIsValid(cut: string)
    requires Valid(cut)
    ensures Valid(cut + CutCloser(cut) + CUT_SHORT_NOTE)
  {
    hide Valid, Run, ValidState, Closer;
    RunValid(cut);
    CloserValid(Run(EMPTY, cut));
    AsciiIsValid("\n");
    NoteIsValid();
    ValidAppend("\n", Closer(Run(EMPTY, cut)));
    ValidAppend(cut, CutCloser(cut));
    ValidAppend(cut + CutCloser(cut), CUT_SHORT_NOTE);
  }

  /** A cut that is closed and noted leaves nothing open, wherever it fell. */
  lemma ClosedCutStandsAlone(cut: string)
    requires Tracked(Run(EMPTY, cut))
    ensures StandsAlone(cut + CutCloser(cut) + CUT_SHORT_NOTE)
  {
    hide Run, Tracked;
    var state := Run(EMPTY, cut);
    var closer := Closer(state);
    RunNewline(EMPTY, cut);
    AppendAssociates(cut, "\n", closer);
    CloserCloses(state);
    RunAppend(EMPTY, cut + "\n", closer);
    EndsLineAppend(cut + "\n", closer);
    RunAppend(EMPTY, cut + "\n" + closer, CUT_SHORT_NOTE);
    NoteChangesNothing(Run(state, closer));
  }

  lemma {:induction false} RunTracked(s: MdState, text: string)
    requires Tracked(s)
    ensures Tracked(Run(s, text))
    decreases |text|
  {
    hide Next, Tracked;
    if text != "" {
      NextTracked(s, text[..LineEnd(text)]);
      RunTracked(Next(s, text[..LineEnd(text)]), text[LineEnd(text)..]);
    }
  }

  lemma {:induction false} CutShortFromCloses(markdown: string, room: int, maxLen: int)
    ensures CutShortFrom(markdown, room, maxLen) == CutAtRune(markdown, maxLen) ||
            StandsAlone(CutShortFrom(markdown, room, maxLen))
    decreases room
  {
    hide CutCloser, CutAtRune, StandsAlone, Tracked;
    var over := Over(markdown, room, maxLen - |CUT_SHORT_NOTE|);
    if room > 0 {
      if over > 0 {
        CutShortFromCloses(markdown, room - over, maxLen);
      } else {
        TrackedFromStart(CutAtRune(markdown, room));
        ClosedCutStandsAlone(CutAtRune(markdown, room));
      }
    }
  }

  lemma TrackedFromStart(text: string)
    ensures Tracked(Run(EMPTY, text))
  {
    assert Tracked(EMPTY);
    RunTracked(EMPTY, text);
  }

  lemma RunValid(text: string)
    requires Valid(text)
    ensures ValidState(Run(EMPTY, text))
  {
    AsciiIsValid("");
    hide Run, Valid;
    LinesValid(text);
    RunIsRunLines(EMPTY, text);
    RunLinesValid(EMPTY, Lines(text));
  }

  lemma {:induction false} CutShortFromKeepsRunes(markdown: string, room: int, maxLen: int)
    requires Valid(markdown)
    ensures Valid(CutShortFrom(markdown, room, maxLen))
    decreases room
  {
    hide Valid, CutAtRune, CutCloser;
    CutAtRuneKeepsRunes(markdown, maxLen);
    var over := Over(markdown, room, maxLen - |CUT_SHORT_NOTE|);
    if room > 0 {
      if over > 0 {
        CutShortFromKeepsRunes(markdown, room - over, maxLen);
      } else {
        CutAtRuneKeepsRunes(markdown, room);
        NotedCutIsValid(CutAtRune(markdown, room));
      }
    }
  }

  /** Whatever the cut, what closes it leaves some of the budget to the cut. */
  predicate ClosersFit(markdown: string, budget: int) {
    budget > 0 && forall r :: 0 < r <= budget ==> |CutCloser(CutAtRune(markdown, r))| < budget
  }

  /** Then the loop finds a cut before room is used up: each round leaves more than the closer takes. */
  lemma {:induction false} CutShortFromFinds(markdown: string, room: int, maxLen: int)
    requires ClosersFit(markdown, maxLen - |CUT_SHORT_NOTE|) && 0 < room <= maxLen - |CUT_SHORT_NOTE|
    ensures StandsAlone(CutShortFrom(markdown, room, maxLen))
    decreases room
  {
    hide CutAtRune, CutCloser, StandsAlone;
    var budget := maxLen - |CUT_SHORT_NOTE|;
    CutAtRuneIsLongest(markdown, room);
    var over := Over(markdown, room, budget);
    if over > 0 {
      assert |CutCloser(CutAtRune(markdown, room))| < budget;
      CutShortFromFinds(markdown, room - over, maxLen);
    } else {
      TrackedFromStart(CutAtRune(markdown, room));
      ClosedCutStandsAlone(CutAtRune(markdown, room));
    }
  }

  /**
   * cutShort stays within its limit and never cuts inside a rune. It closes what its cut left
   * open, unless the closer of some cut alone takes up the whole budget; then it may be a bare cut.
   */
  lemma CutShortIsSafe(markdown: string, maxLen: int)
    ensures |CutShort(markdown, maxLen)| <= Max(maxLen, 0)
    ensures CutShort(markdown, maxLen) == CutAtRune(markdown, maxLen) || StandsAlone(CutShort(markdown, maxLen))
    ensures ClosersFit(markdown, maxLen - |CUT_SHORT_NOTE|) ==> StandsAlone(CutShort(markdown, maxLen))
    ensures maxLen <= |CUT_SHORT_NOTE| ==> CutShort(markdown, maxLen) == CutAtRune(markdown, maxLen)
    ensures Valid(markdown) ==> Valid(CutShort(markdown, maxLen))
  {
    hide CutShortFrom, CutAtRune, Valid, StandsAlone, ClosersFit, CUT_SHORT_NOTE;
    if maxLen <= |CUT_SHORT_NOTE| {
      NoBudgetNoCloser(markdown, maxLen);
    }
    CutShortFromFits(markdown, maxLen - |CUT_SHORT_NOTE|, maxLen);
    CutShortFromCloses(markdown, maxLen - |CUT_SHORT_NOTE|, maxLen);
    if ClosersFit(markdown, maxLen - |CUT_SHORT_NOTE|) {
      ClosersFitRoom(markdown, maxLen - |CUT_SHORT_NOTE|);
      CutShortFromFinds(markdown, maxLen - |CUT_SHORT_NOTE|, maxLen);
    }
    if Valid(markdown) {
      CutShortFromKeepsRunes(markdown, maxLen - |CUT_SHORT_NOTE|, maxLen);
    }
  }

  lemma NoBudgetNoCloser(markdown: string, maxLen: int)
    requires maxLen <= |CUT_SHORT_NOTE|
    ensures CutShort(markdown, maxLen) == CutAtRune(markdown, maxLen)
  {
    hide CutAtRune, CutCloser;
  }

  lemma ClosersFitRoom(markdown: string, budget: int)
    requires ClosersFit(markdown, budget)
    ensures budget > 0
  {
  }

  /* ----- the limit ----- */

  /** Both tails fit a comment by themselves. */
  predicate TailsFit(cfg: Config) {
    |CONTINUED_IN| <= cfg.maxLength && |FOOTER_SEPARATOR| + |cfg.footer| + |TRUNCATED_NOTE| <= cfg.maxLength
  }

  lemma FrameFits(sections: seq<string>, i: nat, total: nat, truncated: bool, cfg: Config)
    requires TailsFit(cfg)
    ensures |Frame(sections, i, total, truncated, cfg)| <= cfg.maxLength
  {
    hide Body, CutShort;
    CutShortIsSafe(Body(sections, i, total, cfg), cfg.maxLength - |Tail(i, total, truncated, cfg)|);
  }

  lemma FrameChunksFit(chunks: seq<seq<string>>, truncated: bool, cfg: Config)
    requires TailsFit(cfg)
    ensures NoneLonger(FrameChunks(chunks, truncated, cfg), cfg.maxLength)
  {
    hide Frame;
    var framed := Framed(chunks);
    forall i | 0 <= i < |framed|
      ensures |Frame(framed[i], i, |framed|, truncated, cfg)| <= cfg.maxLength
    {
      FrameFits(framed[i], i, |framed|, truncated, cfg);
    }
  }

  /** No comment is over the limit of the VCS, whatever the checks reported. */
  lemma EveryCommentFits(c: Content, emoji: CommitState -> string, names: seq<string>, cfg: Config)
    requires TailsFit(cfg)
    ensures NoneLonger(BuildComment(c, emoji, names, cfg), cfg.maxLength)
  {
    hide FrameChunks, BuildSections, Pack, TailsFit, NoneLonger;
    var one := BuildSections(c, emoji, names, OneCommentBudget(cfg), 1);
    FrameChunksFit([one], false, cfg);
    var chunks := Pack(BuildSections(c, emoji, names, SectionBudget(cfg), cfg.maxChunks), SectionBudget(cfg));
    FrameChunksFit(chunks, false, cfg);
    if |chunks| > cfg.maxChunks {
      FrameChunksFit(chunks[..cfg.maxChunks], true, cfg);
    }
  }

  /* ----- nothing is cut short that fits ----- */

  lemma HeaderWidth(identifier: string, part: nat, total: nat)
    requires part <= total <= MAX_COMMENTS
    ensures |ChunkHeader(identifier, part, total)| <= |ChunkHeader(identifier, MAX_COMMENTS, MAX_COMMENTS)|
  {
    DecimalWidth(part);
    DecimalWidth(total);
    hide Decimal;
  }

  lemma {:induction false} ConcatLength(sections: seq<string>)
    ensures |Concat(sections)| == Length(sections)
  {
    if sections != [] {
      var n := |sections| - 1;
      ConcatLength(sections[..n]);
      assert sections == sections[..n] + [sections[n]];
      ConcatSnoc(sections[..n], sections[n]);
    }
  }

  /** A chunk within the budget is framed whole, as whichever of up to 999 parts. */
  lemma WithinBudgetIsWhole(sections: seq<string>, i: nat, total: nat, truncated: bool, cfg: Config)
    requires i < total <= MAX_COMMENTS && Length(sections) <= SectionBudget(cfg)
    ensures Frame(sections, i, total, truncated, cfg) == Body(sections, i, total, cfg) + Tail(i, total, truncated, cfg)
    ensures |Frame(sections, i, total, truncated, cfg)| <= cfg.maxLength
  {
    HeaderWidth(cfg.identifier, i + 1, total);
    ConcatLength(sections);
    hide ChunkHeader, Concat, Length, CutShort;
  }

  /** A report that fits one comment is in it whole. */
  lemma OneCommentIsWhole(sections: seq<string>, cfg: Config)
    requires FitsOneComment(sections, cfg)
    ensures Frame(sections, 0, 1, false, cfg) == Body(sections, 0, 1, cfg) + Tail(0, 1, false, cfg)
    ensures |Frame(sections, 0, 1, false, cfg)| <= cfg.maxLength
  {
    ConcatLength(sections);
    hide Concat, Length, CutShort;
  }

  /* ----- the early stop ----- */

  lemma {:induction false} StoppedIsPrefix(
      c: Content, emoji: CommitState -> string, names: seq<string>, budget: int, maxChunks: nat)
    returns (rest: seq<string>)
    ensures AllSections(c, emoji, names, budget) == BuildSections(c, emoji, names, budget, maxChunks) + rest
    ensures rest == [] || |Pack(BuildSections(c, emoji, names, budget, maxChunks), budget)| > maxChunks
  {
    hide Pack, AppPart;
    rest := [];
    if names != [] {
      rest := StoppedIsPrefix(c, emoji, names[..|names| - 1], budget, maxChunks);
      var built := BuildSections(c, emoji, names[..|names| - 1], budget, maxChunks);
      var last := AppPart(c, emoji, names[|names| - 1], budget);
      if |Pack(built, budget)| > maxChunks {
        assert (built + rest) + last == built + (rest + last);
        rest := rest + last;
      }
    }
  }

  /** Sections packed after the cap was exceeded do not change the comments. */
  lemma ChunksPastTheCap(sections: seq<string>, rest: seq<string>, cfg: Config)
    requires rest == [] || |Pack(sections, SectionBudget(cfg))| > cfg.maxChunks
    ensures SplitIntoChunks(sections + rest, cfg) == SplitIntoChunks(sections, cfg)
  {
    hide Pack, FrameChunks, SectionBudget;
    if rest == [] {
      assert sections + rest == sections;
    } else {
      PackOfPrefix(sections, rest, SectionBudget(cfg));
      var g, h := Pack(sections, SectionBudget(cfg)), Pack(sections + rest, SectionBudget(cfg));
      assert g[..cfg.maxChunks] == h[..cfg.maxChunks];
    }
  }

  lemma {:induction false} LengthAppend(a: seq<string>, b: seq<string>)
    ensures Length(a + b) == Length(a) + Length(b)
  {
    if b == [] {
      assert a + b == a;
    } else {
      var n := |b| - 1;
      LengthAppend(a, b[..n]);
      assert (a + b)[..|a + b| - 1] == a + b[..n];
    }
  }

  lemma {:induction false} FittingIsOneBatch(sizes: seq<nat>, i: nat, budget: int)
    requires 0 < i <= |sizes| && Total(sizes, 0, |sizes|) <= budget
    ensures BatchEnd(sizes, 0, i, budget) == |sizes|
    decreases |sizes| - i
  {
    if i < |sizes| {
      TotalGrows(sizes, 0, i + 1, |sizes|);
      FittingIsOneBatch(sizes, i + 1, budget);
    }
  }

  lemma FittingIsOneChunk(sections: seq<string>, budget: int)
    requires Length(sections) <= budget
    ensures |Pack(sections, budget)| <= 1
  {
    var sizes := SectionSizes(sections);
    if sections != [] {
      LengthIsTotal(sections, 0, |sections|);
      assert sections[0..|sections|] == sections;
      FittingIsOneBatch(sizes, 1, budget);
      GreedyStep(sizes, 0, budget);
      GreedyEnds(sizes, budget);
    }
  }

  /** The single comment is tried with all apps, or not at all: stopping early never makes it fit. */
  lemma OneCommentSkipsNoApp(c: Content, emoji: CommitState -> string, names: seq<string>, cfg: Config)
    ensures var budget := OneCommentBudget(cfg);
            var built, all := BuildSections(c, emoji, names, budget, 1), AllSections(c, emoji, names, budget);
            (FitsOneComment(built, cfg) <==> FitsOneComment(all, cfg)) && (FitsOneComment(built, cfg) ==> built == all)
  {
    var budget := OneCommentBudget(cfg);
    var rest := StoppedIsPrefix(c, emoji, names, budget, 1);
    hide BuildSections, AllSections, Pack;
    var built := BuildSections(c, emoji, names, budget, 1);
    LengthAppend(built, rest);
    if FitsOneComment(built, cfg) {
      FittingIsOneChunk(built, budget);
      assert built + [] == built;
    }
  }

  /** The report, with every app rendered. */
  function FullReport(c: Content, emoji: CommitState -> string, names: seq<string>, cfg: Config): seq<string> {
    var one := AllSections(c, emoji, names, OneCommentBudget(cfg));
    if FitsOneComment(one, cfg) then FrameChunks([one], false, cfg)
    else SplitIntoChunks(AllSections(c, emoji, names, SectionBudget(cfg)), cfg)
  }

  /** Not rendering apps past the cap on comments changes nothing in the comments. */
  lemma EarlyStopIsInvisible(
      c: Content, emoji: CommitState -> string, names: seq<string>, cfg: Config)
    ensures BuildComment(c, emoji, names, cfg) == FullReport(c, emoji, names, cfg)
  {
    OneCommentSkipsNoApp(c, emoji, names, cfg);
    var rest := StoppedIsPrefix(c, emoji, names, SectionBudget(cfg), cfg.maxChunks);
    hide BuildSections, AllSections, FrameChunks, SplitIntoChunks, FitsOneComment;
    ChunksPastTheCap(BuildSections(c, emoji, names, SectionBudget(cfg), cfg.maxChunks), rest, cfg);
  }

  /* ----- what the comments hold ----- */

  predicate AllWithinBudget(chunks: seq<seq<string>>, budget: int) {
    forall i :: 0 <= i < |chunks| ==> Length(chunks[i]) <= budget
  }

  lemma LengthOfOne(sections: seq<string>)
    requires |sections| == 1
    ensures Length(sections) == |sections[0]|
  {
    assert sections[..0] == [];
  }

  lemma SmallSectionsPackSmall(sections: seq<string>, budget: int)
    requires NoneLonger(sections, budget)
    ensures AllWithinBudget(Pack(sections, budget), budget)
  {
    PackKeepsSections(sections, budget);
    var chunks := Pack(sections, budget);
    hide Pack, Length;
    forall i | 0 <= i < |chunks|
      ensures Length(chunks[i]) <= budget
    {
      assert ChunkWithin(chunks[i], budget);
      if |chunks[i]| == 1 {
        LengthOfOne(chunks[i]);
        ChunkMember(chunks, i);
        assert chunks[i][0] in sections;
      }
    }
  }

  lemma {:induction false} ChunkMember(chunks: seq<seq<string>>, i: nat)
    requires i < |chunks| && |chunks[i]| > 0
    ensures chunks[i][0] in Flatten(chunks)
  {
    if i > 0 {
      ChunkMember(chunks[1..], i - 1);
    }
  }

  /**
   * When every section fits the budget and the chunks stay within the cap, the comments are
   * the chunks between header and tail, and the chunks hold every section of every app in order.
   */
  lemma ReportHoldsEverySection(
      c: Content, emoji: CommitState -> string, names: seq<string>, cfg: Config)
    requires cfg.maxChunks <= MAX_COMMENTS
    requires !FitsOneComment(AllSections(c, emoji, names, OneCommentBudget(cfg)), cfg)
    requires var all := AllSections(c, emoji, names, SectionBudget(cfg));
             all != [] && NoneLonger(all, SectionBudget(cfg)) && |Pack(all, SectionBudget(cfg))| <= cfg.maxChunks
    ensures var chunks := Pack(AllSections(c, emoji, names, SectionBudget(cfg)), SectionBudget(cfg));
            var comments := BuildComment(c, emoji, names, cfg);
            && Flatten(chunks) == AllSections(c, emoji, names, SectionBudget(cfg))
            && |comments| == |chunks|
            && forall i :: 0 <= i < |chunks| ==>
                 comments[i] == Body(chunks[i], i, |chunks|, cfg) + Tail(i, |chunks|, false, cfg)
  {
    EarlyStopIsInvisible(c, emoji, names, cfg);
    var all, budget := AllSections(c, emoji, names, SectionBudget(cfg)), SectionBudget(cfg);
    hide AllSections, BuildComment, SectionBudget, FitsOneComment, Length;
    PackKeepsSections(all, budget);
    SmallSectionsPackSmall(all, budget);
    var chunks := Pack(all, budget);
    hide Pack, Body, Tail, Frame;
    assert Framed(chunks) == chunks by {
      FramedChunks(chunks, budget);
    }
    forall i | 0 <= i < |chunks|
      ensures Frame(chunks[i], i, |chunks|, false, cfg) == Body(chunks[i], i, |chunks|, cfg) +
          Tail(i, |chunks|, false, cfg)
    {
      WithinBudgetIsWhole(chunks[i], i, |chunks|, false, cfg);
    }
  }

  lemma FramedChunks(chunks: seq<seq<string>>, budget: int)
    requires Flatten(chunks) != [] && forall k :: 0 <= k < |chunks| ==> ChunkWithin(chunks[k], budget)
    ensures Framed(chunks) == chunks
  {
    assert |chunks| >= 1 ==> ChunkWithin(chunks[0], budget);
  }

  /**
   * A report that takes more chunks than the cap allows: the comments hold the chunks before the
   * cap, these hold a proper prefix of the sections, and the last comment ends with a note that says so.
   */
  lemma TruncatedReportHoldsPrefix(c: Content, emoji: CommitState -> string, names: seq<string>, cfg: Config)
    returns (dropped: seq<string>)
    requires 1 <= cfg.maxChunks <= MAX_COMMENTS
    requires !FitsOneComment(AllSections(c, emoji, names, OneCommentBudget(cfg)), cfg)
    requires |Pack(AllSections(c, emoji, names, SectionBudget(cfg)), SectionBudget(cfg))| > cfg.maxChunks
    ensures var all := AllSections(c, emoji, names, SectionBudget(cfg));
            var kept := Pack(all, SectionBudget(cfg))[..cfg.maxChunks];
            var comments := BuildComment(c, emoji, names, cfg);
            && dropped != [] && Flatten(kept) + dropped == all
            && |comments| == cfg.maxChunks && EndsIn(comments[cfg.maxChunks - 1], TRUNCATED_NOTE)
            && (NoneLonger(all, SectionBudget(cfg)) ==>
                 forall i :: 0 <= i < cfg.maxChunks ==>
                   comments[i] == Body(kept[i], i, cfg.maxChunks, cfg) + Tail(i, cfg.maxChunks, true, cfg))
  {
    EarlyStopIsInvisible(c, emoji, names, cfg);
    var all, budget := AllSections(c, emoji, names, SectionBudget(cfg)), SectionBudget(cfg);
    hide AllSections, BuildComment, SectionBudget, FitsOneComment, Length;
    PackKeepsSections(all, budget);
    var chunks := Pack(all, budget);
    var kept, rest := chunks[..cfg.maxChunks], chunks[cfg.maxChunks..];
    if NoneLonger(all, budget) {
      SmallSectionsPackSmall(all, budget);
    }
    hide Pack, Body, Tail, Frame, TRUNCATED_NOTE, EndsIn;
    assert chunks == kept + rest;
    FlattenAppend(kept, rest);
    dropped := Flatten(rest);
    assert ChunkWithin(chunks[0], budget) && ChunkWithin(rest[0], budget);
    assert Framed(kept) == kept;
    LastFrameEnds(kept[cfg.maxChunks - 1], cfg.maxChunks, cfg);
    if NoneLonger(all, budget) {
      forall i | 0 <= i < cfg.maxChunks
        ensures Frame(kept[i], i, cfg.maxChunks, true, cfg) == Body(kept[i], i, cfg.maxChunks, cfg) +
            Tail(i, cfg.maxChunks, true, cfg)
      {
        assert kept[i] == chunks[i];
        WithinBudgetIsWhole(kept[i], i, cfg.maxChunks, true, cfg);
      }
    }
  }

  predicate EndsIn(s: string, tail: string) {
    |tail| <= |s| && s[|s| - |tail|..] == tail
  }

  lemma LastFrameEnds(sections: seq<string>, total: nat, cfg: Config)
    requires total > 0
    ensures EndsIn(Frame(sections, total - 1, total, true, cfg), TRUNCATED_NOTE)
  {
    hide Body, CutShort, TRUNCATED_NOTE;
    var frame, tail := Frame(sections, total - 1, total, true, cfg), Tail(total - 1, total, true, cfg);
    assert tail == FOOTER_SEPARATOR + cfg.footer + TRUNCATED_NOTE;
    assert frame[|frame| - |tail|..] == tail;
    assert frame[|frame| - |TRUNCATED_NOTE|..] == tail[|tail| - |TRUNCATED_NOTE|..];
  }

  /** The report takes one comment whenever all of it fits one, and then holds all of it. */
  lemma WholeReportInOneComment(
      c: Content, emoji: CommitState -> string, names: seq<string>, cfg: Config)
    requires var all := AllSections(c, emoji, names, OneCommentBudget(cfg)); all != [] && FitsOneComment(all, cfg)
    ensures BuildComment(c, emoji, names, cfg) ==
            [ChunkHeader(cfg.identifier, 1, 1) + Concat(AllSections(c, emoji, names, OneCommentBudget(cfg))) +
              FOOTER_SEPARATOR + cfg.footer]
  {
    EarlyStopIsInvisible(c, emoji, names, cfg);
    var all := AllSections(c, emoji, names, OneCommentBudget(cfg));
    hide AllSections, BuildComment, FitsOneComment, Concat, ChunkHeader;
    OneCommentIsWhole(all, cfg);
    assert Framed([all]) == [all];
    assert FrameChunks([all], false, cfg) == [Frame(all, 0, 1, false, cfg)];
    OneFrame(all, cfg);
  }

  lemma OneFrame(sections: seq<string>, cfg: Config)
    ensures Body(sections, 0, 1, cfg) + Tail(0, 1, false, cfg) ==
            ChunkHeader(cfg.identifier, 1, 1) + Concat(sections) + FOOTER_SEPARATOR + cfg.footer
  {
    hide ChunkHeader, Concat;
  }

  /* ----- the budgets give nothing away ----- */

  /** The comment with these sections as one of several chunks is within the limit. */
  predicate ChunkFits(sections: seq<string>, i: nat, total: nat, truncated: bool, cfg: Config) {
    |Body(sections, i, total, cfg)| + |Tail(i, total, truncated, cfg)| <= cfg.maxLength
  }

  lemma WidestHeader(id: string)
    ensures |ChunkHeader(id, 998, 999)| == |ChunkHeader(id, 999, 999)|
  {
    assert Decimal(99) == "9" + "9" && Decimal(999) == Decimal(99) + "9" && Decimal(998) == Decimal(99) + "8";
    hide Decimal;
  }

  /**
   * The section budget is exact: the sections are within it, if and only if with them a comment is
   * within the limit as any of up to 999 parts, truncated or not.
   */
  lemma SectionBudgetIsExact(sections: seq<string>, cfg: Config)
    ensures Length(sections) <= SectionBudget(cfg) <==>
            forall i: nat, total: nat, truncated :: i < total <= 999 ==> ChunkFits(sections, i, total, truncated, cfg)
  {
    ConcatLength(sections);
    WidestHeader(cfg.identifier);
    hide ChunkHeader, Concat, Length;
    if Length(sections) <= SectionBudget(cfg) {
      forall i: nat, total: nat, truncated | i < total <= 999
        ensures ChunkFits(sections, i, total, truncated, cfg)
      {
        HeaderWidth(cfg.identifier, i + 1, total);
      }
    } else {
      assert !ChunkFits(sections, 998, 999, true, cfg);
    }
  }

  /** So is the budget of a single comment. */
  lemma OneCommentBudgetIsExact(sections: seq<string>, cfg: Config)
    ensures FitsOneComment(sections, cfg) <==> ChunkFits(sections, 0, 1, false, cfg)
  {
    ConcatLength(sections);
    hide ChunkHeader, Concat, Length;
  }

  lemma HeadingReads(id: string, part: nat, total: nat)
    ensures ChunkHeader(id, part, total) ==
            ("# Kubechecks " + id + " Report") +
            (if total == 1 then "" else " (Part " + Decimal(part) + " of " + Decimal(total) + ")") + "\n"
  {
    hide Decimal;
    var a, b := Decimal(part), Decimal(total);
    assert " Report\n" == " Report" + "\n" && ")\n" == ")" + "\n" && " Report (Part " == " Report" + " (Part ";
    var head := "# Kubechecks " + id + " Report";
    assert "# Kubechecks " + id + " Report\n" == head + "" + "\n";
    assert "# Kubechecks " + id + " Report (Part " == head + " (Part ";
    Regroup(head, " (Part ", a, " of ", b, ")", "\n");
  }

  lemma Regroup(a: string, b: string, c: string, d: string, e: string, f: string, g: string)
    ensures a + b + c + d + e + (f + g) == a + (b + c + d + e + f) + g
  {
  }

  /** What comes before the sections of a comment, and after them. */
  lemma CommentReads(sections: seq<string>, i: nat, total: nat, truncated: bool, cfg: Config)
    requires i < total
    ensures var number := " (Part " + Decimal(i + 1) + " of " + Decimal(total) + ")";
            Body(sections, i, total, cfg) ==
              ("# Kubechecks " + cfg.identifier + " Report") + (if total == 1 then "" else number) + "\n" +
              (if i == 0 then "" else "\n" + (CONTINUED_FROM_WORDS + "\n" + "\n")) + Concat(sections)
    ensures Tail(i, total, truncated, cfg) ==
              if i + 1 < total then "\n" + ("\n" + CONTINUED_IN_WORDS)
              else "\n" + "\n" + cfg.footer + if truncated then "\n" + ("\n" + TRUNCATED_WORDS) else ""
  {
    HeadingReads(cfg.identifier, i + 1, total);
    hide Decimal, Concat, ChunkHeader, CONTINUED_FROM_WORDS, CONTINUED_IN_WORDS, TRUNCATED_WORDS;
    assert FOOTER_SEPARATOR == "\n" + "\n";
  }

  /** A report without sections is one comment that says so. */
  lemma EmptyReportSaysSo(c: Content, emoji: CommitState -> string, names: seq<string>, cfg: Config)
    requires AllSections(c, emoji, names, OneCommentBudget(cfg)) == [] && |"No changes"| <= OneCommentBudget(cfg)
    ensures BuildComment(c, emoji, names, cfg) ==
            [ChunkHeader(cfg.identifier, 1, 1) + "No changes" + FOOTER_SEPARATOR + cfg.footer]
  {
    EarlyStopIsInvisible(c, emoji, names, cfg);
    LengthOfOne(["No changes"]);
    NothingIsNoLength();
    hide AllSections, BuildComment, Concat, ChunkHeader, Length, Body, Tail;
    OneCommentIsWhole(["No changes"], cfg);
    assert Framed([[]]) == [["No changes"]];
    assert FrameChunks([[]], false, cfg) == [Frame(["No changes"], 0, 1, false, cfg)];
    OneFrame(["No changes"], cfg);
    OneInConcat("No changes");
  }

  lemma NothingIsNoLength()
    ensures Length([]) == 0
  {
  }

  lemma OneInConcat(text: string)
    ensures Concat([text]) == text
  {
    assert [text][1..] == [] && Concat([]) == "";
  }
}
