/** From the checks of a report to its comments: when nothing is left open in any of them. */
module WholeReports {
  import opened Text
  import opened Markdown
  import opened MarkdownLaws
  import opened DetailsSplitter
  import opened StandAlone
  import opened TameContent
  import opened SplitterLaws
  import opened RoomyContent
  import opened Packing
  import opened AppSections
  import opened AppSectionLaws
  import opened Messages
  import opened Comments
  import opened CommentLaws
  import opened ContainedText
  import opened WholeComments

  /* ----- the number of a part in its summary ----- */

  /** The summary ends in the start of an opening tag, which the blank before the number completes. */
  predicate EndsInTag(s: string) {
    |s| >= 8 && s[|s| - 8..] == "<details"
  }

  lemma SamePrefix(u: string, a: string, b: string, pattern: string)
    requires a != "" && b != ""
    requires |u| < |pattern| ==> pattern[|u|] != a[0] && pattern[|u|] != b[0]
    ensures pattern <= u + a <==> pattern <= u + b
  {
    var n := |pattern|;
    if n <= |u| {
      assert n <= |u + a| && (u + a)[..n] == u[..n] && n <= |u + b| && (u + b)[..n] == u[..n];
    } else {
      assert (u + a)[|u|] == a[0] && (u + b)[|u|] == b[0];
    }
  }

  lemma SameTags(u: string, a: string, b: string)
    requires u != "" && !EndsInTag(u) && a != "" && a[0] == ' ' && b != "" && b[0] == '<'
    ensures OpensTag(u + a) <==> OpensTag(u + b)
    ensures ClosesTag(u + a) <==> ClosesTag(u + b)
  {
    assert forall i :: 0 < i < 9 ==> "<details>"[i] != ' ' && "<details>"[i] != '<';
    assert forall i :: 0 < i < 10 ==> "</details>"[i] != ' ' && "</details>"[i] != '<';
    assert forall i :: 0 < i < 8 ==> "<details "[i] != ' ' && "<details "[i] != '<';
    SamePrefix(u, a, b, "<details>");
    SamePrefix(u, a, b, "</details>");
    if |u| != 8 {
      SamePrefix(u, a, b, "<details ");
    } else {
      assert u[0..] == u;
      TagOfEight(u, a);
      TagOfEight(u, b);
    }
  }

  lemma TagOfEight(u: string, a: string)
    requires |u| == 8
    ensures "<details " <= u + a ==> u == "<details"
  {
    var w := u + a;
    assert u == w[..8];
    assert "<details " <= w ==> w[..8] == "<details "[..8];
    assert "<details "[..8] == "<details";
  }

  /** Text without '<' makes no difference to the tags, put where one starts. */
  lemma {:induction false} SuffixDepth(u: string, suffix: string, rest: string, n: nat)
    requires !EndsInTag(u) && suffix != "" && suffix[0] == ' ' && NoAngle(suffix) && rest != "" && rest[0] == '<'
    ensures TagDepth(u + (suffix + rest), n) == TagDepth(u + rest, n)
  {
    if u == "" {
      hide TagDepth;
      assert "" + (suffix + rest) == suffix + rest && "" + rest == rest;
      SkipDepth(suffix + rest, |suffix|, n);
      assert (suffix + rest)[|suffix|..] == rest;
    } else {
      SameTags(u, suffix + rest, rest);
      var a, b := u + (suffix + rest), u + rest;
      assert a[1..] == u[1..] + (suffix + rest) && b[1..] == u[1..] + rest;
      var m := if OpensTag(a) then n + 1 else if ClosesTag(a) && n > 0 then n - 1 else n;
      assert TagDepth(a, n) == TagDepth(a[1..], m) && TagDepth(b, n) == TagDepth(b[1..], m);
      hide TagDepth, OpensTag, ClosesTag;
      assert !EndsInTag(u[1..]) by {
        assert |u| > 8 ==> u[1..][|u| - 9..] == u[|u| - 8..];
      }
      SuffixDepth(u[1..], suffix, rest, m);
    }
  }

  lemma {:induction false} DepthReaches(u: string, rest: string, n: nat) returns (k: nat)
    ensures TagDepth(u + rest, n) == TagDepth(rest, k)
  {
    if u == "" {
      assert "" + rest == rest;
      k := n;
    } else {
      var a := u + rest;
      assert a[1..] == u[1..] + rest;
      var m := if OpensTag(a) then n + 1 else if ClosesTag(a) && n > 0 then n - 1 else n;
      assert TagDepth(a, n) == TagDepth(a[1..], m);
      hide TagDepth, OpensTag, ClosesTag;
      k := DepthReaches(u[1..], rest, m);
    }
  }

  /** A blank completes the tag. */
  lemma TagCompleted(suffix: string, rest: string, n: nat)
    requires suffix != "" && suffix[0] == ' ' && NoAngle(suffix) && rest == "</summary>\n"
    ensures TagDepth("<details" + (suffix + rest), n) == n + 1
  {
    var s := "<details" + (suffix + rest);
    var k := 7 + |suffix|;
    assert "<details " <= s by {
      assert s[..9] == "<details" + [suffix[0]] == "<details ";
    }
    assert TagDepth(s, n) == TagDepth(s[1..], n + 1);
    assert forall i :: 0 <= i < 7 ==> s[1..][i] == "details"[i];
    assert forall i :: 7 <= i < k ==> s[1..][i] == suffix[i - 7];
    assert s[1..][k..] == rest && NoAngle(rest[1..]);
    hide TagDepth;
    SkipDepth(s[1..], k, n + 1);
    LoneTagDepth(rest, n + 1);
  }

  lemma SuffixIsPlain(i: nat, n: nat)
    ensures PartSuffix(i, n) != "" && PartSuffix(i, n)[0] == ' '
    ensures NoAngle(PartSuffix(i, n)) && NoNewline(PartSuffix(i, n))
  {
    hide Decimal;
    DecimalIsDigits(i);
    DecimalIsDigits(n);
    var a, b := Decimal(i), Decimal(n);
    assert NoNewline(" (Part ") && NoAngle(" (Part ") && NoNewline(" of ") && NoAngle(" of ");
    assert NoNewline(")") && NoAngle(")");
    assert NoNewline(a) && NoAngle(a) && NoNewline(b) && NoAngle(b);
    hide NoNewline, NoAngle;
    JoinPlain(" (Part ", a);
    JoinPlain(" (Part " + a, " of ");
    JoinPlain(" (Part " + a + " of ", b);
    JoinPlain(" (Part " + a + " of " + b, ")");
  }

  lemma NumberedText(summary: string, suffix: string)
    ensures SummaryOfCheck(summary) == ("<summary>" + summary) + "</summary>\n"
    ensures SummaryOfCheck(summary + suffix) == ("<summary>" + summary) + (suffix + "</summary>\n")
  {
  }

  lemma TagInSummaryText(summary: string)
    ensures EndsInTag("<summary>" + summary) <==> EndsInTag(summary)
  {
    var u := "<summary>" + summary;
    if |summary| >= 8 {
      assert u[|u| - 8..] == summary[|summary| - 8..];
    } else {
      assert u[|u| - 8..][7 - |summary|] == u[8] == '>';
      assert forall j :: 0 <= j < 8 ==> "<details"[j] != '>';
    }
  }

  /**
   * Numbering a part keeps a summary that leaves nothing open so, except the one whose end the
   * number makes a tag.
   */
  lemma NumberedStandsAlone(summary: string, i: nat, n: nat)
    requires NoNewline(summary) && n > 1
    ensures StandsAlone(SummaryOfCheck(Numbered(summary, i, n))) <==>
            StandsAlone(SummaryOfCheck(summary)) && !EndsInTag(summary)
  {
    hide SummaryOfCheck, PartSuffix, TagDepth, StandsAlone, NoNewline, NoAngle;
    var u, suffix, rest := "<summary>" + summary, PartSuffix(i, n), "</summary>\n";
    SuffixIsPlain(i, n);
    JoinOneLine(summary, suffix);
    OneLineSummary(summary);
    OneLineSummary(summary + suffix);
    NumberedText(summary, suffix);
    TagInSummaryText(summary);
    if EndsInTag(u) {
      var v := u[..|u| - 8];
      var k := DepthReaches(v, "<details" + (suffix + rest), 0);
      assert u + (suffix + rest) == v + ("<details" + (suffix + rest));
      TagCompleted(suffix, rest, k);
    } else {
      SuffixDepth(u, suffix, rest, 0);
    }
  }

  /* ----- a check as it is rendered ----- */

  /** Each of n parts has a summary that leaves nothing open. */
  predicate GoodNumbers(summary: string, n: nat) {
    forall i: nat :: 1 <= i <= n ==> StandsAlone(SummaryOfCheck(Numbered(summary, i, n)))
  }

  predicate AllClosedInside(parts: seq<string>) {
    forall i :: 0 <= i < |parts| ==> ClosedInside(parts[i])
  }

  /** Whole where it fits a section, otherwise as its numbered parts. */
  predicate GoodExpanded(header: string, c: CheckBlock, max: int) {
    if FitsAlone(header, c, max) then GoodCheck(c)
    else
      var parts := CheckParts(c, max - WrapLen(header));
      AllClosedInside(parts) && GoodNumbers(c.summary, |parts|)
  }

  /**
   * What it takes to cut a check, told from the check and the room for its details: no tag that a
   * part number completes, and either tame details that do not end in the middle of a fence line,
   * or room for every fence line and details that are tame outside fences.
   */
  ghost predicate SafeToCut(c: CheckBlock, room: int) {
    && NoNewline(c.summary) && !EndsInTag(c.summary)
    && ((Tame(c.details) && (EndsLine(c.details) || NoFenceLine(c.details))) || RoomToCut(c.details, room))
  }

  ghost predicate RoomToCut(details: string, room: int) {
    TameOutside(Lines(details)) && (Roomy(details, room) || EveryLineFits(Lines(details), room))
  }

  /** Good as it is, and safe to cut if it does not fit a section of its own. */
  ghost predicate SafeCheck(header: string, c: CheckBlock, max: int) {
    GoodCheck(c) && (!FitsAlone(header, c, max) ==> SafeToCut(c, CutRoom(header, c, max)))
  }

  lemma TamePartsStandAlone(details: string, room: int)
    requires !LeftWhole(details, room) && Tame(details) && (EndsLine(details) || NoFenceLine(details))
    ensures AllStandAlone(SplitDetails(details, room))
  {
    hide Tame, StandsAlone, EndsLine, NoFenceLine, Pieces, SplitDetails, SpoilsCloser, LeftWhole;
    TameContentStandsAlone(details, room);
    if NoFenceLine(details) {
      PieceNoFence(details, room, |Pieces(details, room)| - 1);
    }
  }

  /** Closed where it stands, so closed with regard to fences on its own. */
  lemma ClosedInsideNoFence(details: string)
    requires ClosedInside(details)
    ensures Run(EMPTY, details).fence == ""
  {
    hide Run;
    RunBetween(EMPTY, INSIDE, 2, details);
  }

  lemma RoomyPartsStandAlone(details: string, room: int)
    requires !LeftWhole(details, room) && ClosedInside(details) && RoomToCut(details, room)
    ensures AllStandAlone(SplitDetails(details, room))
  {
    hide TameOutside, Roomy, EveryLineFits, SplitDetails, StandsAlone, LeftWhole, ClosedInside, EndsLine;
    ClosedInsideNoFence(details);
    hide Run;
    if Roomy(details, room) {
      RoomyStandsAlone(details, room);
    } else {
      LinesNoEmpty(details);
      EveryLineFitsFences(Lines(details), room);
      hide Lines, FencesFit;
      WholeFencesStandAlone(details, room);
    }
  }

  lemma SafeParts(c: CheckBlock, room: int)
    requires ClosedInside(c.details) && SafeToCut(c, room)
    ensures AllClosedInside(SplitDetails(c.details, room))
  {
    hide Tame, RoomToCut, StandsAlone, EndsLine, NoFenceLine, SplitDetails, LeftWhole, ClosedInside, EndsInTag;
    var parts := SplitDetails(c.details, room);
    if LeftWhole(c.details, room) {
      WholeIsOnePart(c.details, room);
    } else {
      if RoomToCut(c.details, room) {
        RoomyPartsStandAlone(c.details, room);
      } else {
        TamePartsStandAlone(c.details, room);
      }
      forall i | 0 <= i < |parts|
        ensures ClosedInside(parts[i])
      {
        StandsAloneInside(parts[i]);
      }
    }
  }

  lemma SafeNumbers(c: CheckBlock, room: int, n: nat)
    requires GoodCheck(c) && SafeToCut(c, room)
    ensures GoodNumbers(c.summary, n)
  {
    hide Tame, RoomToCut, StandsAlone, EndsLine, NoFenceLine, ClosedInside, EndsInTag, SummaryOfCheck, NoNewline,
      PartSuffix;
    forall i: nat | 1 <= i <= n
      ensures StandsAlone(SummaryOfCheck(Numbered(c.summary, i, n)))
    {
      if n > 1 {
        NumberedStandsAlone(c.summary, i, n);
      }
    }
  }

  lemma SafeIsGood(header: string, c: CheckBlock, max: int)
    requires SafeCheck(header, c, max)
    ensures GoodExpanded(header, c, max)
  {
    hide SafeToCut, StandsAlone, ClosedInside, SplitDetails, SummaryOfCheck, FitsAlone, WrapLen, FinalReserve,
      DetailsRoom, GoodNumbers, AllClosedInside;
    if !FitsAlone(header, c, max) {
      var room := CutRoom(header, c, max);
      SafeParts(c, room);
      SafeNumbers(c, room, |SplitDetails(c.details, room)|);
    }
  }

  /* ----- the sections of a report ----- */

  lemma ExpandedIsGood(header: string, c: CheckBlock, max: int)
    requires GoodExpanded(header, c, max)
    ensures AllGood(Expand(header, c, max))
  {
    hide StandsAlone, ClosedInside, SummaryOfCheck, RenderCheck, CheckParts, WrapLen, Numbered;
    if !FitsAlone(header, c, max) {
      var parts, pieces := CheckParts(c, max - WrapLen(header)), SplitCheck(c, max - WrapLen(header));
      forall i | 0 <= i < |pieces|
        ensures GoodRendered(pieces[i])
      {
        var part := CheckBlock(Numbered(c.summary, i + 1, |parts|), parts[i]);
        assert pieces[i] == RenderCheck(part) && GoodCheck(part);
      }
    }
  }

  lemma {:induction false} ExpandAllIsGood(header: string, checks: seq<CheckBlock>, max: int)
    requires forall k :: 0 <= k < |checks| ==> GoodExpanded(header, checks[k], max)
    ensures AllGood(ExpandAll(header, checks, max))
  {
    hide GoodExpanded, Expand, GoodRendered;
    if checks != [] {
      var n := |checks| - 1;
      ExpandAllIsGood(header, checks[..n], max);
      ExpandedIsGood(header, checks[n], max);
    }
  }

  lemma {:induction false} GroupsAreGood(groups: seq<seq<string>>)
    requires AllGood(Flatten(groups))
    ensures forall i :: 0 <= i < |groups| ==> AllGood(groups[i])
  {
    hide GoodRendered;
    if groups != [] {
      var flat, tail := Flatten(groups), Flatten(groups[1..]);
      assert forall j :: 0 <= j < |groups[0]| ==> groups[0][j] == flat[j];
      assert forall j :: 0 <= j < |tail| ==> tail[j] == flat[|groups[0]| + j];
      hide Flatten;
      GroupsAreGood(groups[1..]);
      assert forall i :: 0 < i < |groups| ==> groups[i] == groups[1..][i - 1];
    }
  }

  lemma SectionsAreGood(header: string, checks: seq<CheckBlock>, max: int)
    requires StandsAlone(header + "\n") && forall k :: 0 <= k < |checks| ==> GoodExpanded(header, checks[k], max)
    ensures GoodSections(Sections(header, checks, max))
  {
    hide StandsAlone, GoodExpanded, AllGood, ExpandAll, Groups, WrapAppSection;
    ExpandAllIsGood(header, checks, max);
    SectionsHoldEveryCheck(header, checks, max);
    var groups, sections := Groups(header, checks, max), Sections(header, checks, max);
    GroupsAreGood(groups);
    forall i | 0 <= i < |sections|
      ensures GoodSection(sections[i])
    {
      assert sections[i] == WrapAppSection(header, groups[i]) && AllGood(groups[i]);
    }
  }

  /** Every app that is shown has a good header, and checks that are good as they are rendered. */
  ghost predicate GoodApp(c: Content, emoji: CommitState -> string, name: string, budget: int) {
    var results := ResultsOf(c, name);
    var header, checks := AppHeader(name, emoji(AppState(results))), Checks(results, emoji);
    Shown(c, name) ==>
      StandsAlone(header + "\n") && forall k :: 0 <= k < |checks| ==> GoodExpanded(header, checks[k], budget)
  }

  ghost predicate GoodReport(c: Content, emoji: CommitState -> string, names: seq<string>, budget: int) {
    forall i :: 0 <= i < |names| ==> GoodApp(c, emoji, names[i], budget)
  }

  lemma AppPartIsGood(c: Content, emoji: CommitState -> string, name: string, budget: int)
    requires GoodApp(c, emoji, name, budget)
    ensures GoodSections(AppPart(c, emoji, name, budget))
  {
    hide StandsAlone, GoodExpanded, GoodSection, Sections, AppHeader, Checks, NoChanges, HasSticky;
    var results := ResultsOf(c, name);
    if Shown(c, name) {
      SectionsAreGood(AppHeader(name, emoji(AppState(results))), Checks(results, emoji), budget);
    }
  }

  lemma {:induction false} ReportIsGood(c: Content, emoji: CommitState -> string, names: seq<string>, budget: int)
    requires GoodReport(c, emoji, names, budget)
    ensures GoodSections(AllSections(c, emoji, names, budget))
  {
    hide GoodApp, AppPart, GoodSection;
    if names != [] {
      var n := |names| - 1;
      ReportIsGood(c, emoji, names[..n], budget);
      AppPartIsGood(c, emoji, names[n], budget);
    }
  }

  /** When every check, as it is rendered, is good, nothing is left open in any comment. */
  lemma GoodReportStandsAlone(c: Content, emoji: CommitState -> string, names: seq<string>, cfg: Config)
    requires GoodFrame(cfg) && GoodReport(c, emoji, names, BudgetUsed(c, emoji, names, cfg))
    requires var (chunks, truncated) := ChunksOf(c, emoji, names, cfg); RoomEverywhere(chunks, truncated, cfg)
    ensures AllStandAlone(BuildComment(c, emoji, names, cfg))
  {
    hide GoodReport, AllSections, BuildComment, GoodFrame, GoodSections, RoomEverywhere, AllStandAlone, ChunksOf;
    hide BudgetUsed;
    ReportIsGood(c, emoji, names, BudgetUsed(c, emoji, names, cfg));
    EveryCommentStandsAlone(c, emoji, names, cfg);
  }

  /* ----- told from the checks ----- */

  /** Every app that is shown has a header that leaves nothing open, and safe checks. */
  ghost predicate SafeApp(c: Content, emoji: CommitState -> string, name: string, budget: int) {
    var results := ResultsOf(c, name);
    var header, checks := AppHeader(name, emoji(AppState(results))), Checks(results, emoji);
    Shown(c, name) ==>
      StandsAlone(header + "\n") && forall k :: 0 <= k < |checks| ==> SafeCheck(header, checks[k], budget)
  }

  ghost predicate SafeReport(c: Content, emoji: CommitState -> string, names: seq<string>, budget: int) {
    forall i :: 0 <= i < |names| ==> SafeApp(c, emoji, names[i], budget)
  }

  lemma SafeAppIsGood(c: Content, emoji: CommitState -> string, name: string, budget: int)
    requires SafeApp(c, emoji, name, budget)
    ensures GoodApp(c, emoji, name, budget)
  {
    hide StandsAlone, SafeCheck, GoodExpanded, AppHeader, Checks, Shown;
    var results := ResultsOf(c, name);
    var header, checks := AppHeader(name, emoji(AppState(results))), Checks(results, emoji);
    if Shown(c, name) {
      forall k | 0 <= k < |checks|
        ensures GoodExpanded(header, checks[k], budget)
      {
        SafeIsGood(header, checks[k], budget);
      }
    }
  }

  /** From the apps and their results to the comments: nothing is left open in any of them. */
  lemma ReportStandsAlone(c: Content, emoji: CommitState -> string, names: seq<string>, cfg: Config)
    requires GoodFrame(cfg) && SafeReport(c, emoji, names, BudgetUsed(c, emoji, names, cfg))
    requires var (chunks, truncated) := ChunksOf(c, emoji, names, cfg); RoomEverywhere(chunks, truncated, cfg)
    ensures AllStandAlone(BuildComment(c, emoji, names, cfg))
  {
    hide SafeApp, GoodApp, BuildComment, GoodFrame, RoomEverywhere, AllStandAlone, ChunksOf, BudgetUsed;
    var budget := BudgetUsed(c, emoji, names, cfg);
    forall i | 0 <= i < |names|
      ensures GoodApp(c, emoji, names[i], budget)
    {
      SafeAppIsGood(c, emoji, names[i], budget);
    }
    GoodReportStandsAlone(c, emoji, names, cfg);
  }

  /* ----- reports of which nothing is cut short ----- */

  /** Every section of the app is within the budget, told from its checks. */
  predicate RoomyApp(c: Content, emoji: CommitState -> string, name: string, budget: int) {
    var results := ResultsOf(c, name);
    var header, checks := AppHeader(name, emoji(AppState(results))), Checks(results, emoji);
    Shown(c, name) ==>
      WrapLen(header) <= budget && forall k :: 0 <= k < |checks| ==> RoomyCheck(header, checks[k], budget)
  }

  predicate RoomyCheck(header: string, c: CheckBlock, max: int) {
    FitsAlone(header, c, max) || Roomy(c.details, CutRoom(header, c, max))
  }

  predicate RoomyReport(c: Content, emoji: CommitState -> string, names: seq<string>, budget: int) {
    forall i :: 0 <= i < |names| ==> RoomyApp(c, emoji, names[i], budget)
  }

  lemma RoomyCheckFits(header: string, c: CheckBlock, max: int)
    requires RoomyCheck(header, c, max)
    ensures PartsFitSections(header, c, max)
  {
    hide Roomy, MarkFits, WrapLen, CutRoom, FitsAlone, PartsFitSections;
    if !FitsAlone(header, c, max) {
      RoomyIsPositive(c.details, CutRoom(header, c, max));
      RoomyMarkFits(c.details, CutRoom(header, c, max));
    }
    CuttablePartsFit(header, c, max);
  }

  lemma RoomyAppFits(c: Content, emoji: CommitState -> string, name: string, budget: int)
    requires RoomyApp(c, emoji, name, budget)
    ensures NoneLonger(AppPart(c, emoji, name, budget), budget)
  {
    hide RoomyCheck, PartsFitSections, Sections, WrapLen, AppHeader, Checks, NoChanges, HasSticky;
    if Shown(c, name) {
      var results := ResultsOf(c, name);
      var header, checks := AppHeader(name, emoji(AppState(results))), Checks(results, emoji);
      forall k | 0 <= k < |checks|
        ensures PartsFitSections(header, checks[k], budget)
      {
        RoomyCheckFits(header, checks[k], budget);
      }
      SectionsFit(header, checks, budget);
    }
  }

  lemma {:induction false} RoomySections(c: Content, emoji: CommitState -> string, names: seq<string>, budget: int)
    requires RoomyReport(c, emoji, names, budget)
    ensures NoneLonger(AllSections(c, emoji, names, budget), budget)
  {
    hide RoomyApp, AppPart;
    if names != [] {
      var n := |names| - 1;
      RoomySections(c, emoji, names[..n], budget);
      RoomyAppFits(c, emoji, names[n], budget);
    }
  }

  lemma SmallIsWhole(sections: seq<string>, i: nat, total: nat, truncated: bool, cfg: Config)
    requires i < total <= MAX_COMMENTS && Length(sections) <= SectionBudget(cfg)
    ensures RoomToClose(sections, i, total, truncated, cfg)
  {
    hide Body, Tail, CutShort, SectionBudget, Length, ClosersFit;
    WithinBudgetIsWhole(sections, i, total, truncated, cfg);
  }

  lemma FittingIsWhole(sections: seq<string>, cfg: Config)
    requires FitsOneComment(sections, cfg)
    ensures RoomToClose(sections, 0, 1, false, cfg)
  {
    OneCommentIsWhole(sections, cfg);
    hide Body, Tail, CutShort, FitsOneComment, ClosersFit;
  }

  lemma NoChangesIsWhole(chunks: seq<seq<string>>, truncated: bool, cfg: Config)
    requires Framed(chunks) == [["No changes"]] && |"No changes"| <= SectionBudget(cfg)
    ensures RoomEverywhere(chunks, truncated, cfg)
  {
    hide SectionBudget, RoomToClose, Framed;
    LengthOfOne(["No changes"]);
    SmallIsWhole(["No changes"], 0, 1, truncated, cfg);
  }

  /** Chunks within the budget have room everywhere: they are not cut short. */
  lemma SmallChunksHaveRoom(chunks: seq<seq<string>>, truncated: bool, cfg: Config)
    requires |chunks| <= MAX_COMMENTS && AllWithinBudget(chunks, SectionBudget(cfg))
    requires |"No changes"| <= SectionBudget(cfg)
    ensures RoomEverywhere(chunks, truncated, cfg)
  {
    hide SectionBudget, RoomToClose, Length;
    if Framed(chunks) == chunks {
      forall i | 0 <= i < |chunks|
        ensures RoomToClose(chunks[i], i, |chunks|, truncated, cfg)
      {
        SmallIsWhole(chunks[i], i, |chunks|, truncated, cfg);
      }
    } else {
      NoChangesIsWhole(chunks, truncated, cfg);
    }
  }

  lemma OneChunkHasRoom(sections: seq<string>, cfg: Config)
    requires FitsOneComment(sections, cfg) && |"No changes"| <= SectionBudget(cfg)
    ensures RoomEverywhere([sections], false, cfg)
  {
    hide SectionBudget, RoomToClose, FitsOneComment;
    if sections == [] {
      NoChangesIsWhole([sections], false, cfg);
    } else {
      FittingIsWhole(sections, cfg);
      assert Framed([sections]) == [sections];
    }
  }

  lemma RoomyReportHasRoom(c: Content, emoji: CommitState -> string, names: seq<string>, cfg: Config)
    requires RoomyReport(c, emoji, names, BudgetUsed(c, emoji, names, cfg))
    requires cfg.maxChunks <= MAX_COMMENTS && |"No changes"| <= SectionBudget(cfg)
    ensures var (chunks, truncated) := ChunksOf(c, emoji, names, cfg); RoomEverywhere(chunks, truncated, cfg)
  {
    hide RoomyReport, AllSections, FitsOneComment, SectionBudget, OneCommentBudget, RoomEverywhere, NoneLonger, Pack;
    var one := AllSections(c, emoji, names, OneCommentBudget(cfg));
    if FitsOneComment(one, cfg) {
      OneChunkHasRoom(one, cfg);
    } else {
      var all, budget := AllSections(c, emoji, names, SectionBudget(cfg)), SectionBudget(cfg);
      RoomySections(c, emoji, names, budget);
      SmallSectionsPackSmall(all, budget);
      var chunks, truncated := Pack(all, budget), |Pack(all, budget)| > cfg.maxChunks;
      var kept := if truncated then chunks[..cfg.maxChunks] else chunks;
      FewerWithin(chunks, kept, budget);
      SmallChunksHaveRoom(kept, truncated, cfg);
    }
  }

  lemma FewerWithin(chunks: seq<seq<string>>, some: seq<seq<string>>, budget: int)
    requires AllWithinBudget(chunks, budget) && some <= chunks
    ensures AllWithinBudget(some, budget)
  {
    hide Length;
  }

  /** Told from the apps, their results and the limits: no comment is cut short, and none leaves anything open. */
  lemma RoomyReportStandsAlone(c: Content, emoji: CommitState -> string, names: seq<string>, cfg: Config)
    requires cfg.maxChunks <= MAX_COMMENTS && |"No changes"| <= SectionBudget(cfg) && GoodFrame(cfg)
    requires var budget := BudgetUsed(c, emoji, names, cfg);
             SafeReport(c, emoji, names, budget) && RoomyReport(c, emoji, names, budget)
    ensures AllStandAlone(BuildComment(c, emoji, names, cfg))
  {
    hide SafeReport, RoomyReport, BuildComment, GoodFrame, RoomEverywhere, AllStandAlone, ChunksOf, BudgetUsed,
      SectionBudget;
    RoomyReportHasRoom(c, emoji, names, cfg);
    ReportStandsAlone(c, emoji, names, cfg);
  }
}
