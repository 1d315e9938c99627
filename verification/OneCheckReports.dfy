/** A report of a single check: exactly when its comment leaves nothing open. */
module OneCheckReports {
  import opened Text
  import opened Markdown
  import opened MarkdownLaws
  import opened TameContent
  import opened Packing
  import opened AppSections
  import opened Messages
  import opened Comments
  import opened CommentLaws
  import opened ContainedText
  import opened WholeComments
  import opened WholeReports

  /* ----- text that changes nothing ----- */

  /** Read outside any fence, the text leaves as much open as before. */
  ghost predicate Keeps(text: string) {
    forall s: MdState {:trigger Run(s, text)} :: s.fence == "" ==> SameOpen(Run(s, text), s)
  }

  lemma KeepsThen(a: string, b: string)
    requires EndsLine(a) && Keeps(a) && Keeps(b)
    ensures Keeps(a + b)
  {
    hide Run;
    forall s: MdState | s.fence == ""
      ensures SameOpen(Run(s, a + b), s)
    {
      RunAppend(s, a, b);
    }
  }

  lemma LineKeeps(line: string)
    requires line != "" && OneLine(line) && FenceOf(line).0 == "" && forall n: nat :: TagDepth(line, n) == n
    ensures Keeps(line)
  {
    hide Run, FenceOf, TagDepth, OneLine;
    forall s: MdState | s.fence == ""
      ensures SameOpen(Run(s, line), s)
    {
      assert line + "" == line;
      RunLine(s, line, "");
      RunNothing(Next(s, line));
      NextDepth(s, line);
    }
  }

  lemma TagFreeDepth(text: string, n: nat)
    requires TagFree(text)
    ensures TagDepth(text, n) == n && TagDepth(text + "\n", n) == n
  {
    hide TagFree, ScanTags, TagDepth;
    ScanTagFree(text, Blocks(n));
    ScanNewline(text, Blocks(n));
    ScanDepth(text, Blocks(n));
    ScanDepth(text + "\n", Blocks(n));
  }

  lemma TagFreeLineKeeps(text: string)
    requires NoNewline(text) && TagFree(text) && (text == "" || (text[0] != ' ' && text[0] != '`'))
    ensures Keeps(text + "\n") && EndsLine(text + "\n")
  {
    var line := text + "\n";
    OneLineNewline(text);
    NotAFence(line);
    hide FenceOf, TagDepth, TagFree;
    forall n: nat
      ensures TagDepth(line, n) == n
    {
      TagFreeDepth(text, n);
    }
    LineKeeps(line);
  }

  lemma LoneTagKeeps(line: string)
    requires line == "<summary>\n" || line == "</summary>\n"
    ensures Keeps(line) && EndsLine(line)
  {
    assert NoNewline("<summary>") && NoNewline("</summary>");
    assert "<summary>\n" == "<summary>" + "\n" && "</summary>\n" == "</summary>" + "\n";
    hide FenceOf, Keeps;
    NotAFence(line);
    forall n: nat
      ensures TagDepth(line, n) == n
    {
      LoneTagDepth(line, n);
    }
    hide TagDepth;
    LineKeeps(line);
  }

  lemma SummaryKeeps(summary: string)
    requires NoNewline(summary) && TagFree(SummaryOfCheck(summary))
    ensures Keeps(SummaryOfCheck(summary)) && EndsLine(SummaryOfCheck(summary))
  {
    hide FenceOf, TagDepth, Keeps, SummaryOfCheck, TagFree;
    SummaryOfCheckIsLine(summary);
    forall n: nat
      ensures TagDepth(SummaryOfCheck(summary), n) == n
    {
      TagFreeDepth(SummaryOfCheck(summary), n);
    }
    LineKeeps(SummaryOfCheck(summary));
  }

  lemma BlankKeeps()
    ensures Keeps("\n") && EndsLine("\n")
  {
    TagFreeLineKeeps("");
    assert "" + "\n" == "\n";
  }

  lemma NoTickNoFence(line: string)
    requires NoTick(line)
    ensures FenceOf(line) == ("", "")
  {
    hide TrimSpace;
    var trimmed := line[Leading(line, ' ')..];
    assert Leading(trimmed, '`') == 0;
  }

  lemma TagFreePart(text: string, k: nat)
    requires k <= |text| && TagFree(text) && NoTick(text)
    ensures TagFree(text[..k]) && NoTick(text[..k]) && TagFree(text[k..]) && NoTick(text[k..])
  {
    forall i | 0 <= i < k
      ensures !StartsTag(text[..k][i..])
    {
      assert text[..k][i..] <= text[i..];
      SomeTagEarlier(text[..k][i..], text[i..]);
    }
    hide StartsTag;
    forall i | 0 <= i < |text| - k
      ensures !StartsTag(text[k..][i..])
    {
      assert text[k..][i..] == text[k + i..];
    }
  }

  lemma SomeTagEarlier(a: string, b: string)
    requires a <= b
    ensures StartsTag(a) ==> StartsTag(b)
  {
  }

  /** Text without tags and backticks leaves as much open as before, inside a fence or not. */
  lemma {:induction false} RunTagFree(s: MdState, text: string)
    requires TagFree(text) && NoTick(text)
    ensures SameOpen(Run(s, text), s)
    decreases |text|
  {
    hide Run, Next, TagFree, NoTick, FenceOf;
    if text == "" {
      RunNothing(s);
    } else {
      var k := LineEnd(text);
      RunStep(s, text);
      TagFreePart(text, k);
      NoTickNoFence(text[..k]);
      NextTagFree(s, text[..k]);
      RunTagFree(Next(s, text[..k]), text[k..]);
    }
  }

  /* ----- the comment before and after the details ----- */

  lemma SectionHeadKeeps(header: string)
    requires NoNewline(header) && TagFree(header) && header != "" && header[0] == '#'
    ensures Keeps(SectionHead(header)) && EndsLine(SectionHead(header))
  {
    hide Keeps, EndsLine, TagFree;
    var line := header + "\n";
    var end := "</summary>\n" + "\n";
    BlankKeeps();
    LoneTagKeeps("<summary>\n");
    LoneTagKeeps("</summary>\n");
    TagFreeLineKeeps(header);
    KeepsThen("</summary>\n", "\n");
    EndsLineAppend("</summary>\n", "\n");
    KeepsThen(line, end);
    EndsLineAppend(line, end);
    KeepsThen("\n", line + end);
    EndsLineAppend("\n", line + end);
    KeepsThen("<summary>\n", "\n" + (line + end));
    EndsLineAppend("<summary>\n", "\n" + (line + end));
  }

  /** Everything of the comment up to the details. */
  function BeforeDetails(head: string, header: string, summary: string): string {
    head + ("<details>\n" + (SectionHead(header) + ("<details>\n" + (SummaryOfCheck(summary) + "\n"))))
  }

  lemma OpenTagRuns(s: MdState)
    requires s.fence == ""
    ensures Run(s, "<details>\n").fence == "" && |Run(s, "<details>\n").details| == |s.details| + 1
    ensures EndsLine("<details>\n")
  {
    RunPlainOpener(s);
  }

  /** There, two blocks are open. */
  lemma BeforeDetailsRuns(head: string, header: string, summary: string)
    requires NoNewline(head) && TagFree(head) && head != "" && head[0] == '#'
    requires NoNewline(header) && TagFree(header) && header != "" && header[0] == '#'
    requires NoNewline(summary) && TagFree(SummaryOfCheck(summary))
    ensures var before := BeforeDetails(head + "\n", header, summary);
            SameOpen(Run(EMPTY, before), INSIDE) && EndsLine(before)
  {
    hide Run, SectionHead, SummaryOfCheck, EndsLine, TagFree;
    var a, b, d := head + "\n", SectionHead(header), SummaryOfCheck(summary) + "\n";
    TagFreeLineKeeps(head);
    SectionHeadKeeps(header);
    SummaryKeeps(summary);
    BlankKeeps();
    KeepsThen(SummaryOfCheck(summary), "\n");
    EndsLineAppend(SummaryOfCheck(summary), "\n");
    var open := "<details>\n";
    var s := Run(EMPTY, a);
    RunAppend(EMPTY, a, open + (b + (open + d)));
    OpenTagRuns(s);
    RunAppend(s, open, b + (open + d));
    var t := Run(s, open);
    RunAppend(t, b, open + d);
    var u := Run(t, b);
    OpenTagRuns(u);
    RunAppend(u, open, d);
    EndsLineAppend(open, d);
    EndsLineAppend(b, open + d);
    EndsLineAppend(open, b + (open + d));
    EndsLineAppend(a, open + (b + (open + d)));
  }

  /** The last line of the section and the rest of the comment close two blocks and no more. */
  lemma AfterDetailsRuns(t: MdState, rest: string)
    requires TagFree(rest) && NoTick(rest)
    ensures Closed(Run(t, Closings(2) + "\n" + rest)) <==> AtMost(t, 2)
  {
    hide Run, Next, Closings, TagDepth, FenceOf, TagFree, NoTick;
    var line := Closings(2) + "\n";
    ClosingsOneLine(2);
    OneLineNewline(Closings(2));
    NotAFence(line);
    RunLine(t, line, rest);
    RunTagFree(Next(t, line), rest);
    if t.fence == "" {
      NextDepth(t, line);
      TwoClosingsDepth(|t.details|);
    } else {
      NextInFence(t, line);
    }
  }

  lemma NextInFence(t: MdState, line: string)
    requires t.fence != "" && FenceOf(line).0 == ""
    ensures Next(t, line) == t
  {
    hide FenceOf, ScanTags, SummaryOf;
  }

  lemma TwoClosingsDepth(n: nat)
    ensures TagDepth(Closings(2) + "\n", n) == if n > 2 then n - 2 else 0
  {
    hide TagDepth;
    assert Closings(0) == "" && Closings(1) == "</details>" + "" && Closings(2) == "</details>" + Closings(1);
    assert Closings(2) + "\n" == "</details>" + ("</details>" + "\n");
    CloseDepth("</details>" + "\n", n);
    var m := if n > 0 then n - 1 else 0;
    CloseDepth("\n", m);
    NoAngleDepth("\n", if m > 0 then m - 1 else 0);
  }

  /* ----- the comment ----- */

  lemma CommentRuns(head: string, header: string, c: CheckBlock, rest: string)
    requires NoNewline(head) && TagFree(head) && head != "" && head[0] == '#'
    requires NoNewline(header) && TagFree(header) && header != "" && header[0] == '#'
    requires NoNewline(c.summary) && TagFree(SummaryOfCheck(c.summary)) && TagFree(rest) && NoTick(rest)
    ensures StandsAlone(head + "\n" + WrapAppSection(header, [RenderCheck(c)]) + "\n" + rest) <==>
            ClosedInside(c.details)
  {
    CommentText(head + "\n", header, c, rest);
    hide Run, BeforeDetails, WrapAppSection, Closings, TagFree, NoTick, SummaryOfCheck;
    var before, details, after := BeforeDetails(head + "\n", header, c.summary), c.details, Closings(2) + "\n" + rest;
    BeforeDetailsRuns(head, header, c.summary);
    var s := Run(EMPTY, before);
    RunAppend(EMPTY, before, details + "\n" + after);
    RunSameOpen(s, INSIDE, details + "\n" + after);
    LastNewline(details);
    RunAppend(INSIDE, details + "\n", after);
    RunNewline(INSIDE, details);
    AfterDetailsRuns(Run(INSIDE, details), rest);
  }

  lemma CommentText(head: string, header: string, c: CheckBlock, rest: string)
    ensures head + WrapAppSection(header, [RenderCheck(c)]) + "\n" + rest ==
            BeforeDetails(head, header, c.summary) + (c.details + "\n" + (Closings(2) + "\n" + rest))
  {
    hide SectionHead, SummaryOfCheck;
    SectionText(header, [RenderCheck(c)]);
    RenderCheckEnds(c);
    TwoClosings("", OpenCheck(c));
    var open, s, d := "<details>\n", SectionHead(header), SummaryOfCheck(c.summary);
    assert JoinChecks([RenderCheck(c)]) + "</details>" == OpenCheck(c) + Closings(2);
    hide JoinChecks, Closings, WrapAppSection;
    SameText(head, open, s, d, "\n", c.details, Closings(2), rest);
  }

  lemma SameText(
      head: string, open: string, s: string, d: string, n: string, details: string, closings: string, rest: string)
    ensures head + (open + (s + ((open + (d + (n + (details + n)))) + closings))) + n + rest ==
            (head + (open + (s + (open + (d + n))))) + (details + n + (closings + n + rest))
  {
    var a, b := open + (d + n), details + n;
    assert open + (d + (n + b)) == a + b;
    assert s + ((a + b) + closings) == (s + a) + (b + closings);
    assert open + ((s + a) + (b + closings)) == (open + (s + a)) + (b + closings);
    var before := head + (open + (s + a));
    assert head + ((open + (s + a)) + (b + closings)) == before + (b + closings);
    assert before + (b + closings) + n + rest == before + (b + (closings + n + rest));
  }

  lemma OneGroup(header: string, c: CheckBlock, max: int)
    requires FitsAlone(header, c, max)
    ensures Sections(header, [c], max) == [WrapAppSection(header, [RenderCheck(c)])]
    ensures |WrapAppSection(header, [RenderCheck(c)])| <= max
  {
    hide WrapAppSection, RenderCheck;
    var rendered := RenderCheck(c);
    GroupLenStep(header, [], rendered);
    assert [] + [rendered] == [rendered];
    assert [c][..0] == [];
    assert Group(header, [], max) == Grouping([], []);
    assert Group(header, [c], max) == Grouping([], [rendered]);
  }

  lemma OneResult(r: Result, emoji: CommitState -> string)
    requires IsIncluded(r)
    ensures Checks([r], emoji) == [CheckBlock(SummaryText(r, emoji), r.details)]
    ensures !NoChanges([r])
  {
    assert [r][..0] == [];
  }

  /** The only section of a report of one app with one result. */
  lemma OneSection(c: Content, emoji: CommitState -> string, name: string, r: Result, budget: int)
    requires name !in c.deleted && ResultsOf(c, name) == [r] && IsIncluded(r)
    requires FitsAlone(HeaderOf(emoji, name, r), CheckOf(r, emoji), budget)
    ensures AllSections(c, emoji, [name], budget) ==
            [WrapAppSection(HeaderOf(emoji, name, r), [RenderCheck(CheckOf(r, emoji))])]
  {
    hide AppHeader, Sections, RenderCheck, WrapAppSection, SummaryText, FitsAlone;
    OneResult(r, emoji);
    OneGroup(HeaderOf(emoji, name, r), CheckOf(r, emoji), budget);
    assert [name][..0] == [];
    assert AllSections(c, emoji, [], budget) == [];
    assert AllSections(c, emoji, [name], budget) == [] + AppPart(c, emoji, name, budget);
  }

  function HeaderOf(emoji: CommitState -> string, name: string, r: Result): string {
    AppHeader(name, emoji(AppState([r])))
  }

  function CheckOf(r: Result, emoji: CommitState -> string): CheckBlock {
    CheckBlock(SummaryText(r, emoji), r.details)
  }

  /**
   * The texts around the details hold no details tag, and are of one line each; the footer may be of more, and
   * holds no backtick. See BuiltFooterIsPlain for the footers that are built.
   */
  predicate PlainAround(emoji: CommitState -> string, name: string, r: Result, cfg: Config) {
    && NoNewline(cfg.identifier) && TagFree(cfg.identifier + " ")
    && NoNewline(HeaderOf(emoji, name, r)) && TagFree(HeaderOf(emoji, name, r))
    && NoNewline(SummaryText(r, emoji)) && TagFree(SummaryOfCheck(SummaryText(r, emoji)))
    && TagFree(cfg.footer) && NoTick(cfg.footer)
  }

  /** Wherever there is a '<', "<s" goes on. */
  predicate OnlySmall(s: string) {
    forall i :: 0 <= i < |s| && s[i] == '<' ==> i + 1 < |s| && s[i + 1] == 's'
  }

  lemma OnlySmallNoTag(s: string)
    requires OnlySmall(s)
    ensures TagFree(s)
  {
    assert "<details>"[1] == "<details "[1] == 'd' && "</details>"[1] == '/';
    assert "<details>"[0] == "<details "[0] == "</details>"[0] == '<';
    forall i | 0 <= i < |s|
      ensures !StartsTag(s[i..])
    {
      assert s[i..][0] == s[i];
      assert i + 1 < |s| ==> s[i..][1] == s[i + 1];
    }
  }

  /** No backtick, and no tag but small ones. */
  predicate FooterText(s: string) {
    OnlySmall(s) && NoTick(s)
  }

  lemma JoinFooter(a: string, b: string)
    requires FooterText(a) && FooterText(b)
    ensures FooterText(a + b)
  {
  }

  predicate PlainInfo(i: RunInfo) {
    && FooterText(i.commitSHA) && FooterText(i.labelFilter) && FooterText(i.hostname) && FooterText(i.duration)
    && FooterText(i.gitCommit)
  }

  lemma DigitsInFooter(n: nat)
    ensures FooterText(Decimal(n))
  {
    DecimalIsDigits(n);
    hide Decimal;
  }

  lemma DebugFooterText(i: RunInfo)
    requires PlainInfo(i) && i.showDebugInfo
    ensures FooterText(BuildFooter(i))
  {
    DigitsInFooter(i.appsChecked);
    DigitsInFooter(i.totalChecked);
    assert FooterText("<small> _Done: Pod: ") && FooterText(", Dur: ") && FooterText(", SHA: ") && FooterText("");
    assert FooterText(", Env: ") && FooterText("_ <small>, Apps Checked: ") && FooterText(", Total Checks: ");
    assert FooterText("\n");
    hide FooterText, Decimal;
    var env := if i.labelFilter == "" then "" else ", Env: " + i.labelFilter;
    JoinFooter(", Env: ", i.labelFilter);
    var a := "<small> _Done: Pod: " + i.hostname;
    JoinFooter("<small> _Done: Pod: ", i.hostname);
    JoinFooter(a, ", Dur: ");
    JoinFooter(a + ", Dur: ", i.duration);
    var b := a + ", Dur: " + i.duration;
    JoinFooter(b, ", SHA: ");
    JoinFooter(b + ", SHA: ", i.gitCommit);
    var c := b + ", SHA: " + i.gitCommit;
    JoinFooter(c, env);
    JoinFooter(c + env, "_ <small>, Apps Checked: ");
    var d := c + env + "_ <small>, Apps Checked: ";
    JoinFooter(d, Decimal(i.appsChecked));
    JoinFooter(d + Decimal(i.appsChecked), ", Total Checks: ");
    JoinFooter(d + Decimal(i.appsChecked) + ", Total Checks: ", Decimal(i.totalChecked));
    JoinFooter(d + Decimal(i.appsChecked) + ", Total Checks: " + Decimal(i.totalChecked), "\n");
  }

  /** Both footers that are built are plain, if what they tell about the run is. */
  lemma BuiltFooterIsPlain(i: RunInfo)
    requires PlainInfo(i)
    ensures TagFree(BuildFooter(i)) && NoTick(BuildFooter(i))
  {
    if i.showDebugInfo {
      DebugFooterText(i);
    } else {
      assert FooterText("<small> _Done. CommitSHA: ") && FooterText("_ <small>\n");
      hide OnlySmall, NoTick;
      JoinFooter("<small> _Done. CommitSHA: ", i.commitSHA);
      JoinFooter("<small> _Done. CommitSHA: " + i.commitSHA, "_ <small>\n");
    }
    hide BuildFooter;
    OnlySmallNoTag(BuildFooter(i));
  }

  /** The comment is the heading, the section of the app, and the footer. */
  lemma OneComment(c: Content, emoji: CommitState -> string, name: string, r: Result, cfg: Config)
    requires name !in c.deleted && ResultsOf(c, name) == [r] && IsIncluded(r)
    requires FitsAlone(HeaderOf(emoji, name, r), CheckOf(r, emoji), OneCommentBudget(cfg))
    ensures var section := WrapAppSection(HeaderOf(emoji, name, r), [RenderCheck(CheckOf(r, emoji))]);
            BuildComment(c, emoji, [name], cfg) ==
              ["# Kubechecks " + cfg.identifier + " Report" + "\n" + section + "\n" + ("\n" + cfg.footer)]
  {
    hide HeaderOf, CheckOf, WrapAppSection, RenderCheck, BuildComment, AllSections, OneCommentBudget, FitsAlone;
    hide IsIncluded;
    var section := WrapAppSection(HeaderOf(emoji, name, r), [RenderCheck(CheckOf(r, emoji))]);
    OneGroup(HeaderOf(emoji, name, r), CheckOf(r, emoji), OneCommentBudget(cfg));
    OneSection(c, emoji, name, r, OneCommentBudget(cfg));
    LengthOfOne([section]);
    OneInConcat(section);
    hide Concat, Length;
    WholeReportInOneComment(c, emoji, [name], cfg);
    HeaderText(cfg.identifier, 1, 1);
    hide ChunkHeader, FOOTER_SEPARATOR;
    SameEnd("# Kubechecks " + cfg.identifier + " Report" + "\n" + section, cfg.footer);
  }

  /** The comment leaves nothing open exactly if the details do not, where they stand. */
  lemma OneCheckExactly(c: Content, emoji: CommitState -> string, name: string, r: Result, cfg: Config)
    requires name !in c.deleted && ResultsOf(c, name) == [r] && IsIncluded(r) && PlainAround(emoji, name, r, cfg)
    requires FitsAlone(HeaderOf(emoji, name, r), CheckOf(r, emoji), OneCommentBudget(cfg))
    ensures var comments := BuildComment(c, emoji, [name], cfg);
            |comments| == 1 && (StandsAlone(comments[0]) <==> ClosedInside(r.details))
  {
    var header := HeaderOf(emoji, name, r);
    assert header != "" && header[0] == '#';
    PlainHead(cfg.identifier);
    PlainEndOfComment(cfg.footer);
    hide HeaderOf, SummaryText, WrapAppSection, RenderCheck, BuildComment, ClosedInside, StandsAlone, SummaryOfCheck;
    hide OneCommentBudget, FitsAlone, IsIncluded, NoNewline, TagFree, NoTick;
    OneComment(c, emoji, name, r, cfg);
    CommentRuns("# Kubechecks " + cfg.identifier + " Report", header, CheckOf(r, emoji), "\n" + cfg.footer);
  }

  lemma PlainEndOfComment(footer: string)
    requires TagFree(footer) && NoTick(footer)
    ensures TagFree("\n" + footer) && NoTick("\n" + footer)
  {
    TagFreeAfter("\n", footer);
    hide TagFree;
  }

  lemma SameEnd(a: string, footer: string)
    ensures a + FOOTER_SEPARATOR + footer == a + "\n" + ("\n" + footer)
  {
    assert FOOTER_SEPARATOR == "\n" + "\n";
  }

  lemma PlainHead(id: string)
    requires NoNewline(id) && TagFree(id + " ")
    ensures var head := "# Kubechecks " + id + " Report";
            NoNewline(head) && TagFree(head) && head != "" && head[0] == '#'
  {
    assert NoNewline("# Kubechecks ") && NoAngle("# Kubechecks ");
    assert NoNewline(" Report") && NoAngle(" Report");
    assert ("# Kubechecks " + id)[0] == '#';
    hide NoNewline, NoAngle, TagFree;
    TagFreeAround("# Kubechecks ", id, " Report");
    JoinOneLine("# Kubechecks ", id);
    JoinOneLine("# Kubechecks " + id, " Report");
  }

  /** What the checks report is not looked at: a tag that opens a block leaves one open in the comment. */
  lemma OpenTagStaysOpen(c: Content, emoji: CommitState -> string, name: string, r: Result, cfg: Config)
    requires name !in c.deleted && ResultsOf(c, name) == [r] && IsIncluded(r) && PlainAround(emoji, name, r, cfg)
    requires FitsAlone(HeaderOf(emoji, name, r), CheckOf(r, emoji), OneCommentBudget(cfg))
    requires r.details == "<details>\n"
    ensures !AllStandAlone(BuildComment(c, emoji, [name], cfg))
  {
    hide BuildComment, PlainAround, FitsAlone, StandsAlone, Run;
    OneCheckExactly(c, emoji, name, r, cfg);
    OpenTagRuns(INSIDE);
  }

  /* ----- whatever else is in the report ----- */

  /** The check is rendered whole, has a summary that leaves nothing open, and these details. */
  predicate WholeWith(header: string, c: CheckBlock, max: int, details: string) {
    FitsAlone(header, c, max) && StandsAlone(SummaryOfCheck(c.summary)) && c.details == details
  }

  /** All is well with the app, except perhaps for checks with these details. */
  ghost predicate GoodButFor(
      c: Content, emoji: CommitState -> string, name: string, budget: int, details: string) {
    var results := ResultsOf(c, name);
    var header, checks := AppHeader(name, emoji(AppState(results))), Checks(results, emoji);
    Shown(c, name) ==>
      && StandsAlone(header + "\n")
      && forall k :: 0 <= k < |checks| ==>
           GoodExpanded(header, checks[k], budget) || WholeWith(header, checks[k], budget, details)
  }

  ghost predicate ReportGoodButFor(
      c: Content, emoji: CommitState -> string, names: seq<string>, cfg: Config, details: string) {
    var (chunks, truncated) := ChunksOf(c, emoji, names, cfg);
    && GoodFrame(cfg) && RoomEverywhere(chunks, truncated, cfg)
    && forall i :: 0 <= i < |names| ==> GoodButFor(c, emoji, names[i], BudgetUsed(c, emoji, names, cfg), details)
  }

  /**
   * Whatever report with this heading and footer checks with these details are in, and whatever the limits: if
   * all else is well nothing is left open.
   */
  ghost predicate Harmless(details: string, emoji: CommitState -> string, identifier: string, footer: string) {
    forall c, names, maxLength, maxChunks: nat ::
      var cfg := Config(maxLength, maxChunks, identifier, footer);
      ReportGoodButFor(c, emoji, names, cfg, details) ==> AllStandAlone(BuildComment(c, emoji, names, cfg))
  }

  lemma ClosedInsideIsGood(
      c: Content, emoji: CommitState -> string, name: string, budget: int, details: string)
    requires ClosedInside(details) && GoodButFor(c, emoji, name, budget, details)
    ensures GoodApp(c, emoji, name, budget)
  {
    hide AppHeader, Checks, StandsAlone, ClosedInside, FitsAlone, SummaryOfCheck, CheckParts;
  }

  lemma ClosedInsideIsHarmless(
      c: Content, emoji: CommitState -> string, names: seq<string>, cfg: Config, details: string)
    requires ClosedInside(details) && ReportGoodButFor(c, emoji, names, cfg, details)
    ensures AllStandAlone(BuildComment(c, emoji, names, cfg))
  {
    hide ClosedInside, GoodButFor, GoodFrame, RoomEverywhere, ChunksOf, BudgetUsed, BuildComment, AllStandAlone;
    hide GoodApp;
    var budget := BudgetUsed(c, emoji, names, cfg);
    forall i | 0 <= i < |names|
      ensures GoodApp(c, emoji, names[i], budget)
    {
      ClosedInsideIsGood(c, emoji, names[i], budget, details);
    }
    GoodReportStandsAlone(c, emoji, names, cfg);
  }

  lemma OneCheckRoom(c: Content, emoji: CommitState -> string, name: string, r: Result, cfg: Config)
    requires name !in c.deleted && ResultsOf(c, name) == [r] && IsIncluded(r)
    requires FitsAlone(HeaderOf(emoji, name, r), CheckOf(r, emoji), OneCommentBudget(cfg))
    ensures BudgetUsed(c, emoji, [name], cfg) == OneCommentBudget(cfg)
    ensures var (chunks, truncated) := ChunksOf(c, emoji, [name], cfg); RoomEverywhere(chunks, truncated, cfg)
  {
    hide AppHeader, RenderCheck, WrapAppSection, OneCommentBudget, AllSections, Pack, SectionBudget;
    hide HeaderOf, CheckOf, Frame, Body, Tail, ClosersFit;
    var header, check := HeaderOf(emoji, name, r), CheckOf(r, emoji);
    var section := WrapAppSection(header, [RenderCheck(check)]);
    OneSection(c, emoji, name, r, OneCommentBudget(cfg));
    OneGroup(header, check, OneCommentBudget(cfg));
    LengthOfOne([section]);
    hide Length;
    OneCommentRoom([section], cfg);
    assert Framed([[section]]) == [[section]];
  }

  lemma OneCommentRoom(sections: seq<string>, cfg: Config)
    requires FitsOneComment(sections, cfg)
    ensures |Body(sections, 0, 1, cfg)| + |Tail(0, 1, false, cfg)| <= cfg.maxLength
  {
    OneCommentIsWhole(sections, cfg);
    hide Body, Tail, Frame, FitsOneComment;
  }

  lemma OneCheckFrame(cfg: Config)
    requires NoNewline(cfg.identifier) && TagFree(cfg.identifier + " ") && TagFree(cfg.footer) && NoTick(cfg.footer)
    ensures GoodFrame(cfg)
  {
    RunTagFree(EMPTY, cfg.footer);
    hide Run, NoNewline, TagFree, NoTick;
    PlainFrameIsGood(cfg);
  }

  lemma OneCheckIsGoodButFor(c: Content, emoji: CommitState -> string, name: string, r: Result, cfg: Config)
    requires name !in c.deleted && ResultsOf(c, name) == [r] && IsIncluded(r) && PlainAround(emoji, name, r, cfg)
    requires FitsAlone(HeaderOf(emoji, name, r), CheckOf(r, emoji), OneCommentBudget(cfg))
    ensures ReportGoodButFor(c, emoji, [name], cfg, r.details)
  {
    var header, check := HeaderOf(emoji, name, r), CheckOf(r, emoji);
    assert header != "" && header[0] == '#';
    OneResult(r, emoji);
    hide AppHeader, Checks, StandsAlone, FitsAlone, SummaryText, IsIncluded, NoNewline, TagFree, NoTick;
    hide SummaryOfCheck, RoomEverywhere, ChunksOf, BudgetUsed, OneCommentBudget, GoodFrame, GoodExpanded;
    OneCheckFrame(cfg);
    OneCheckRoom(c, emoji, name, r, cfg);
    PlainLineStandsAlone(header);
    SummaryStandsAlone(check.summary);
    assert WholeWith(header, check, OneCommentBudget(cfg), r.details);
    assert GoodButFor(c, emoji, name, OneCommentBudget(cfg), r.details);
  }

  lemma SummaryStandsAlone(summary: string)
    requires NoNewline(summary) && TagFree(SummaryOfCheck(summary))
    ensures StandsAlone(SummaryOfCheck(summary))
  {
    hide SummaryOfCheck, TagDepth, StandsAlone, TagFree;
    OneLineSummary(summary);
    TagFreeDepth(SummaryOfCheck(summary), 0);
  }

  /** The heading, the footer and the mark of an app without findings hold no details tag. */
  predicate PlainReport(emoji: CommitState -> string, identifier: string, footer: string) {
    && NoNewline(identifier) && TagFree(identifier + " ") && TagFree(footer) && NoTick(footer)
    && NoNewline(emoji(StateSuccess)) && TagFree(emoji(StateSuccess))
  }

  /** A report of one check with these details, and room for it. */
  lemma SomeReport(details: string, emoji: CommitState -> string, identifier: string, footer: string)
    returns (c: Content, r: Result, cfg: Config)
    requires PlainReport(emoji, identifier, footer)
    ensures "app" !in c.deleted && ResultsOf(c, "app") == [r] && IsIncluded(r) && r.details == details
    ensures cfg.identifier == identifier && cfg.footer == footer && PlainAround(emoji, "app", r, cfg)
    ensures FitsAlone(HeaderOf(emoji, "app", r), CheckOf(r, emoji), OneCommentBudget(cfg))
  {
    r := Result(StateNone, "check", details, false, false);
    c := Content(map["app" := [r]], {});
    OneState(r);
    var header, check := HeaderOf(emoji, "app", r), CheckOf(r, emoji);
    PlainHeader(emoji(StateSuccess));
    CheckSummary();
    hide WrapLen, RenderCheck, ChunkHeader, NoNewline, TagFree, NoTick, AppHeader, SummaryOfCheck, AppState;
    var room := WrapLen(header) + |RenderCheck(check)|;
    cfg := Config(room + |ChunkHeader(identifier, 1, 1)| + |FOOTER_SEPARATOR| + |footer|, 1, identifier, footer);
  }

  lemma OneState(r: Result)
    requires r.state == StateNone && IsIncluded(r)
    ensures AppState([r]) == StateSuccess
  {
    assert [r][..0] == [];
  }

  /** A lone tag that is no details tag. */
  lemma LoneTagFree(line: string)
    requires |line| > 3 && (line[1] == 's' || (line[1] == '/' && line[2] == 's')) && TagFree(line[1..])
    ensures TagFree(line)
  {
    assert "<details>"[1] == "<details "[1] == 'd' && "</details>"[1] == '/' && "</details>"[2] == 'd';
    assert !StartsTag(line);
    hide StartsTag;
    forall i | 0 <= i < |line|
      ensures !StartsTag(line[i..])
    {
      if i > 0 {
        assert line[1..][i - 1..] == line[i..];
      } else {
        assert line[0..] == line;
      }
    }
  }

  lemma CheckSummary()
    ensures NoNewline("check") && TagFree(SummaryOfCheck("check"))
  {
    var head, tail := "summary>" + "check", "</summary>\n";
    var line := SummaryOfCheck("check");
    assert NoAngle(tail[1..]) && NoAngle("summary>") && NoAngle("check");
    hide TagFree;
    NoAngleNoTag(tail[1..]);
    LoneTagFree(tail);
    TagFreeAfter("check", tail);
    TagFreeAfter("summary>", "check" + tail);
    assert line[1..] == "summary>" + ("check" + tail);
    LoneTagFree(line);
  }

  lemma PlainHeader(emoji: string)
    requires NoNewline(emoji) && TagFree(emoji)
    ensures NoNewline(AppHeader("app", emoji)) && TagFree(AppHeader("app", emoji))
  {
    var start := "## ArgoCD Application Checks: `" + "app" + "` ";
    assert NoNewline("## ArgoCD Application Checks: `") && NoAngle("## ArgoCD Application Checks: `");
    assert NoNewline("app") && NoAngle("app") && NoNewline("` ") && NoAngle("` ");
    hide NoNewline, NoAngle, TagFree;
    JoinPlain("## ArgoCD Application Checks: `", "app");
    JoinPlain("## ArgoCD Application Checks: `" + "app", "` ");
    JoinOneLine(start, emoji);
    TagFreeAfter(start, emoji);
  }

  /** Exactly what can be said of a check without the report around it. */
  lemma HarmlessExactly(details: string, emoji: CommitState -> string, identifier: string, footer: string)
    requires PlainReport(emoji, identifier, footer)
    ensures Harmless(details, emoji, identifier, footer) <==> ClosedInside(details)
  {
    hide ClosedInside, ReportGoodButFor, BuildComment, PlainAround, FitsAlone, IsIncluded, OneCommentBudget;
    hide StandsAlone, PlainReport;
    if ClosedInside(details) {
      forall c, names, maxLength, maxChunks: nat |
          ReportGoodButFor(c, emoji, names, Config(maxLength, maxChunks, identifier, footer), details)
        ensures AllStandAlone(BuildComment(c, emoji, names, Config(maxLength, maxChunks, identifier, footer)))
      {
        ClosedInsideIsHarmless(c, emoji, names, Config(maxLength, maxChunks, identifier, footer), details);
      }
    }
    if Harmless(details, emoji, identifier, footer) {
      var c, r, cfg := SomeReport(details, emoji, identifier, footer);
      assert cfg == Config(cfg.maxLength, cfg.maxChunks, identifier, footer);
      OneCheckIsGoodButFor(c, emoji, "app", r, cfg);
      OneCheckExactly(c, emoji, "app", r, cfg);
    }
  }
}
