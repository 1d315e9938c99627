/** Text that adds nothing to what is open around it, wherever outside a fence it stands. */
module ContainedText {
  import opened Text
  import opened Markdown
  import opened MarkdownLaws
  import opened AppSections

  /** Outside any fence, at most n blocks deep. */
  predicate AtMost(s: MdState, n: nat) {
    s.fence == "" && |s.details| <= n
  }

  /** Read outside any fence, at whatever depth, the text leaves no fence and no more blocks open. */
  ghost predicate Contained(text: string) {
    forall s: MdState {:trigger Run(s, text)} :: s.fence == "" ==> AtMost(Run(s, text), |s.details|)
  }

  /** From at most x blocks deep the text leads to at most y blocks deep, and into no fence. */
  ghost predicate Leads(text: string, x: nat, y: nat) {
    forall s: MdState :: AtMost(s, x) ==> AtMost(Run(s, text), y)
  }

  /* ----- starting deeper makes as much of a difference at most ----- */

  lemma {:induction false} TagDepthBetween(line: string, n: nat, k: nat, m: nat)
    requires n <= k <= n + m
    ensures TagDepth(line, n) <= TagDepth(line, k) <= TagDepth(line, n) + m
  {
    if line != "" {
      var opens, closes := OpensTag(line), ClosesTag(line);
      hide OpensTag, ClosesTag;
      TagDepthBetween(line[1..],
        if opens then n + 1 else if closes && n > 0 then n - 1 else n,
        if opens then k + 1 else if closes && k > 0 then k - 1 else k, m);
    }
  }

  /** The same fence, and in t up to m blocks more than in s. */
  predicate Between(s: MdState, t: MdState, m: nat) {
    t.fence == s.fence && |s.details| <= |t.details| <= |s.details| + m
  }

  lemma NextDetails(s: MdState, line: string)
    ensures |Next(s, line).details| ==
            if s.fence == "" && FenceOf(line).0 == "" then TagDepth(line, |s.details|) else |s.details|
  {
    ScanDepth(line, s.details);
    hide FenceOf, ScanTags, SummaryOf, TagDepth;
  }

  lemma NextBetween(s: MdState, t: MdState, m: nat, line: string)
    requires Between(s, t, m)
    ensures Between(Next(s, line), Next(t, line), m)
  {
    hide Next, FenceOf, TagDepth;
    NextSameFence(s, t, line);
    NextDetails(s, line);
    NextDetails(t, line);
    TagDepthBetween(line, |s.details|, |t.details|, m);
  }

  lemma {:induction false} RunBetween(s: MdState, t: MdState, m: nat, text: string)
    requires Between(s, t, m)
    ensures Between(Run(s, text), Run(t, text), m)
    decreases |text|
  {
    hide Next, Run, Between;
    if text == "" {
      RunNothing(s);
      RunNothing(t);
    } else {
      var k := LineEnd(text);
      RunStep(s, text);
      RunStep(t, text);
      NextBetween(s, t, m, text[..k]);
      RunBetween(Next(s, text[..k]), Next(t, text[..k]), m, text[k..]);
    }
  }

  /** A text that leaves nothing open on its own leaves nothing of its own open anywhere, and only such a text. */
  lemma StandsAloneIsContained(text: string)
    ensures StandsAlone(text) <==> Contained(text)
  {
    hide Run;
    if StandsAlone(text) {
      forall s: MdState | s.fence == ""
        ensures AtMost(Run(s, text), |s.details|)
      {
        RunBetween(EMPTY, s, |s.details|, text);
      }
    }
    if Contained(text) {
      assert AtMost(Run(EMPTY, text), |EMPTY.details|);
    }
  }

  /** One state at that depth decides for all of them. */
  lemma LeadsFrom(text: string, s: MdState, y: nat)
    requires s.fence == ""
    ensures Leads(text, |s.details|, y) <==> AtMost(Run(s, text), y)
  {
    hide Run;
    if AtMost(Run(s, text), y) {
      forall t | AtMost(t, |s.details|)
        ensures AtMost(Run(t, text), y)
      {
        RunBetween(t, s, |s.details|, text);
      }
    }
  }

  /* ----- texts one after another ----- */

  lemma StandsAloneLeads(text: string, n: nat)
    requires StandsAlone(text)
    ensures Leads(text, n, n)
  {
    hide Run, StandsAlone;
    StandsAloneIsContained(text);
  }

  lemma LeadsToNothing(text: string)
    ensures Leads(text, 0, 0) <==> StandsAlone(text)
  {
    hide Run;
    LeadsFrom(text, EMPTY, 0);
  }

  lemma ThenLeads(a: string, b: string, x: nat, y: nat, z: nat)
    requires EndsLine(a) && Leads(a, x, y) && Leads(b, y, z)
    ensures Leads(a + b, x, z)
  {
    hide Run;
    forall s | AtMost(s, x)
      ensures AtMost(Run(s, a + b), z)
    {
      RunAppend(s, a, b);
    }
  }

  lemma NewlineLeads(text: string, x: nat, y: nat)
    requires Leads(text, x, y)
    ensures Leads(text + "\n", x, y) && EndsLine(text + "\n")
  {
    hide Run;
    forall s | AtMost(s, x)
      ensures AtMost(Run(s, text + "\n"), y)
    {
      RunNewline(s, text);
    }
  }

  lemma BlankLeads(n: nat)
    ensures Leads("\n", n, n)
  {
    hide Run, Next;
    forall s | AtMost(s, n)
      ensures AtMost(Run(s, "\n"), n)
    {
      assert "\n" + "" == "\n";
      RunLine(s, "\n", "");
      NextBlank(s);
      RunNothing(s);
    }
  }

  /** A line that opens no fence. */
  lemma LineLeads(line: string, x: nat, y: nat)
    requires line != "" && OneLine(line) && FenceOf(line).0 == "" && TagDepth(line, x) <= y
    ensures Leads(line, x, y)
  {
    hide Run, FenceOf, TagDepth, OneLine;
    forall s | AtMost(s, x)
      ensures AtMost(Run(s, line), y)
    {
      assert line + "" == line;
      RunLine(s, line, "");
      RunNothing(Next(s, line));
      NextDepth(s, line);
      TagDepthBetween(line, |s.details|, x, x);
    }
  }

  /* ----- depth of a line ----- */

  lemma NextDepth(s: MdState, line: string)
    requires s.fence == "" && FenceOf(line).0 == ""
    ensures Next(s, line).fence == "" && |Next(s, line).details| == TagDepth(line, |s.details|)
  {
    NextDetails(s, line);
    hide FenceOf, ScanTags, SummaryOf, TagDepth;
  }

  lemma {:induction false} SkipDepth(s: string, k: nat, n: nat)
    requires k <= |s| && forall i :: 0 <= i < k ==> s[i] != '<'
    ensures TagDepth(s, n) == TagDepth(s[k..], n)
  {
    if k == 0 {
      assert s[0..] == s;
    } else {
      NoTagStarts(s);
      assert TagDepth(s, n) == TagDepth(s[1..], n);
      hide TagDepth;
      SkipDepth(s[1..], k - 1, n);
      assert s[1..][k - 1..] == s[k..];
    }
  }

  lemma NoAngleDepth(s: string, n: nat)
    requires NoAngle(s)
    ensures TagDepth(s, n) == n
  {
    SkipDepth(s, |s|, n);
    assert s[|s|..] == "";
  }

  lemma CloseDepth(rest: string, n: nat)
    ensures TagDepth("</details>" + rest, n) == TagDepth(rest, if n > 0 then n - 1 else 0)
  {
    var s := "</details>" + rest;
    assert s[1] == '/' && "</details>" <= s;
    var m := if n > 0 then n - 1 else 0;
    assert TagDepth(s, n) == TagDepth(s[1..], m);
    hide TagDepth;
    assert forall i :: 0 <= i < 9 ==> s[1..][i] == "/details>"[i];
    SkipDepth(s[1..], 9, m);
    assert s[1..][9..] == rest;
  }

  lemma OpenDepth(rest: string, n: nat)
    ensures TagDepth("<details>" + rest, n) == TagDepth(rest, n + 1)
  {
    var s := "<details>" + rest;
    assert "<details>" <= s;
    assert TagDepth(s, n) == TagDepth(s[1..], n + 1);
    hide TagDepth;
    assert forall i :: 0 <= i < 8 ==> s[1..][i] == "details>"[i];
    SkipDepth(s[1..], 8, n + 1);
    assert s[1..][8..] == rest;
  }

  /** c closing tags one after another. */
  function Closings(c: nat): string {
    if c == 0 then "" else "</details>" + Closings(c - 1)
  }

  lemma {:induction false} ClosingsDepth(c: nat, rest: string)
    ensures TagDepth(Closings(c) + rest, c) == TagDepth(rest, 0)
  {
    hide TagDepth;
    if c == 0 {
      assert "" + rest == rest;
    } else {
      ClosingsDepth(c - 1, rest);
      CloseDepth(Closings(c - 1) + rest, c);
      AppendAssociates("</details>", Closings(c - 1), rest);
    }
  }

  lemma {:induction false} ClosingsOneLine(c: nat)
    ensures NoNewline(Closings(c)) && (Closings(c) == "" || Closings(c)[0] == '<')
  {
    if c > 0 {
      ClosingsOneLine(c - 1);
      assert NoNewline("</details>");
    }
  }

  lemma JoinOneLine(a: string, b: string)
    requires NoNewline(a) && NoNewline(b)
    ensures NoNewline(a + b)
  {
  }

  lemma StartsWithTag(a: string, b: string)
    requires (a == "" || a[0] == '<') && (b == "" || b[0] == '<')
    ensures a + (b + "\n") != "" && (a + (b + "\n"))[0] in {'<', '\n'}
  {
  }

  lemma ClosingsLead(c: nat, tag: string, y: nat)
    requires NoNewline(tag) && (tag == "" || tag[0] == '<') && TagDepth(tag + "\n", 0) <= y
    ensures EndsLine(Closings(c) + (tag + "\n")) && Leads(Closings(c) + (tag + "\n"), c, y)
  {
    hide FenceOf, TagDepth, Leads;
    ClosingsOneLine(c);
    ClosingsDepth(c, tag + "\n");
    hide Closings, NoNewline;
    var line := Closings(c) + (tag + "\n");
    StartsWithTag(Closings(c), tag);
    AppendAssociates(Closings(c), tag, "\n");
    JoinOneLine(Closings(c), tag);
    OneLineNewline(Closings(c) + tag);
    NotAFence(line);
    LineLeads(line, c, y);
  }

  /** A line of closing tags, and perhaps one opening tag, after that many blocks. */
  lemma ClosingLineLeads(c: nat, opens: bool)
    ensures var line := Closings(c) + if opens then "<details>\n" else "\n";
            EndsLine(line) && Leads(line, c, if opens then 1 else 0)
  {
    hide TagDepth, Leads, Closings, EndsLine;
    NoAngleDepth("\n", 0);
    if opens {
      OpenDepth("\n", 0);
      NoAngleDepth("\n", 1);
      assert "<details>" + "\n" == "<details>\n" && NoNewline("<details>");
      ClosingsLead(c, "<details>", 1);
    } else {
      assert "" + "\n" == "\n";
      ClosingsLead(c, "", 0);
    }
  }

  lemma OpenTagLeads(n: nat)
    ensures Leads("<details>\n", n, n + 1) && EndsLine("<details>\n")
  {
    assert NoNewline("<details>") && "<details>" + "\n" == "<details>\n";
    hide FenceOf, TagDepth, Leads;
    NotAFence("<details>\n");
    OpenDepth("\n", n);
    NoAngleDepth("\n", n + 1);
    LineLeads("<details>\n", n, n + 1);
  }

  lemma CloseTagLeads(n: nat)
    ensures Leads("</details>\n", n + 1, n) && EndsLine("</details>\n")
  {
    assert NoNewline("</details>") && "</details>" + "\n" == "</details>\n";
    hide FenceOf, TagDepth, Leads;
    NotAFence("</details>\n");
    CloseDepth("\n", n + 1);
    NoAngleDepth("\n", n);
    LineLeads("</details>\n", n + 1, n);
  }

  /* ----- one check ----- */

  /** The line of a check that holds its summary. */
  function SummaryOfCheck(summary: string): string {
    "<summary>" + summary + "</summary>\n"
  }

  /** Inside the block of the app and the block of the check. */
  const INSIDE := MdState("", "", [NO_SUMMARY, NO_SUMMARY])

  /** Read there, the text leaves no fence and no more than these two blocks open. */
  predicate ClosedInside(text: string) {
    AtMost(Run(INSIDE, text), 2)
  }

  lemma ClosedInsideLeads(text: string)
    ensures ClosedInside(text) <==> Leads(text, 2, 2)
  {
    hide Run;
    LeadsFrom(text, INSIDE, 2);
  }

  /** Text that leaves nothing open on its own leaves nothing open there. */
  lemma StandsAloneInside(text: string)
    requires StandsAlone(text)
    ensures ClosedInside(text)
  {
    hide Leads, StandsAlone, ClosedInside;
    StandsAloneLeads(text, 2);
    ClosedInsideLeads(text);
  }

  /** The summary leaves nothing open, and the details nothing where they stand. */
  predicate GoodCheck(c: CheckBlock) {
    StandsAlone(SummaryOfCheck(c.summary)) && ClosedInside(c.details)
  }

  lemma NotATag(line: string, n: nat)
    requires |line| > 3 && (line[1] == 's' || (line[1] == '/' && line[2] == 's'))
    ensures TagDepth(line, n) == TagDepth(line[1..], n)
  {
    assert "<details>"[1] == "<details "[1] == 'd' && "</details>"[1] == '/' && "</details>"[2] == 'd';
  }

  lemma LoneTagDepth(line: string, n: nat)
    requires |line| > 3 && (line[1] == 's' || (line[1] == '/' && line[2] == 's')) && NoAngle(line[1..])
    ensures TagDepth(line, n) == n
  {
    NotATag(line, n);
    NoAngleDepth(line[1..], n);
  }

  lemma SummaryOfCheckIsLine(summary: string)
    requires NoNewline(summary)
    ensures var line := SummaryOfCheck(summary);
            line != "" && OneLine(line) && EndsLine(line) && FenceOf(line).0 == ""
  {
    var line := SummaryOfCheck(summary);
    assert NoNewline("<summary>") && NoNewline("</summary>");
    assert line == ("<summary>" + summary + "</summary>") + "\n";
    OneLineNewline("<summary>" + summary + "</summary>");
    NotAFence(line);
  }

  /** A summary of one line stands alone exactly if the tags in it close what they open. */
  lemma OneLineSummary(summary: string)
    requires NoNewline(summary)
    ensures StandsAlone(SummaryOfCheck(summary)) <==> TagDepth(SummaryOfCheck(summary), 0) == 0
  {
    hide SummaryOfCheck, Next, Run, TagDepth;
    var line := SummaryOfCheck(summary);
    SummaryOfCheckIsLine(summary);
    assert line + "" == line;
    RunLine(EMPTY, line, "");
    RunNothing(Next(EMPTY, line));
    NextDepth(EMPTY, line);
  }

  lemma SummaryEndsLine(summary: string)
    ensures EndsLine(SummaryOfCheck(summary))
  {
  }

  /** The rendered check up to the tag that closes it. */
  function OpenCheck(c: CheckBlock): string {
    "<details>\n" + (SummaryOfCheck(c.summary) + ("\n" + (c.details + "\n")))
  }

  lemma RenderCheckEnds(c: CheckBlock)
    ensures RenderCheck(c) == OpenCheck(c) + "</details>"
  {
    var line := SummaryOfCheck(c.summary);
    assert "<details>\n<summary>" == "<details>\n" + "<summary>";
    assert "</summary>\n\n" == "</summary>\n" + "\n";
    assert "\n</details>" == "\n" + "</details>";
    calc {
      RenderCheck(c);
      "<details>\n" + "<summary>" + c.summary + ("</summary>\n" + "\n") + c.details + ("\n" + "</details>");
      "<details>\n" + (line + ("\n" + (c.details + "\n"))) + "</details>";
    }
  }

  /** In the block of its app, a good check, up to its closing tag, leads one block deeper at most. */
  lemma OpenCheckLeads(c: CheckBlock)
    requires GoodCheck(c)
    ensures Leads(OpenCheck(c), 1, 2) && EndsLine(OpenCheck(c))
  {
    hide Leads, StandsAlone, ClosedInside, SummaryOfCheck, EndsLine;
    var line, details := SummaryOfCheck(c.summary), c.details + "\n";
    ClosedInsideLeads(c.details);
    NewlineLeads(c.details, 2, 2);
    BlankLeads(2);
    OneBlankLine();
    ThenLeads("\n", details, 2, 2, 2);
    EndsLineAppend("\n", details);
    StandsAloneLeads(line, 2);
    SummaryEndsLine(c.summary);
    ThenLeads(line, "\n" + details, 2, 2, 2);
    EndsLineAppend(line, "\n" + details);
    OpenTagLeads(1);
    ThenLeads("<details>\n", line + ("\n" + details), 1, 2, 2);
    EndsLineAppend("<details>\n", line + ("\n" + details));
  }

  lemma OneBlankLine()
    ensures EndsLine("\n")
  {
  }

  /* ----- the checks of a section ----- */

  ghost predicate GoodRendered(r: string) {
    exists c: CheckBlock :: r == RenderCheck(c) && GoodCheck(c)
  }

  ghost predicate AllGood(checks: seq<string>) {
    forall i :: 0 <= i < |checks| ==> GoodRendered(checks[i])
  }

  lemma RuleLeads(n: nat)
    ensures Leads("---\n", n, n) && EndsLine("---\n")
  {
    assert NoNewline("---") && "---" + "\n" == "---\n";
    hide FenceOf, TagDepth, Leads;
    NotAFence("---\n");
    NoAngleDepth("---\n", n);
    LineLeads("---\n", n, n);
  }

  lemma SeparatorLeads()
    ensures Leads("</details>" + CHECK_SEPARATOR, 2, 1) && EndsLine("</details>" + CHECK_SEPARATOR)
  {
    assert "</details>" + CHECK_SEPARATOR == "</details>\n" + ("\n" + ("---\n" + "\n"));
    hide Leads, EndsLine;
    OneBlankLine();
    BlankLeads(1);
    RuleLeads(1);
    CloseTagLeads(1);
    ThenLeads("---\n", "\n", 1, 1, 1);
    EndsLineAppend("---\n", "\n");
    ThenLeads("\n", "---\n" + "\n", 1, 1, 1);
    EndsLineAppend("\n", "---\n" + "\n");
    ThenLeads("</details>\n", "\n" + ("---\n" + "\n"), 2, 1, 1);
    EndsLineAppend("</details>\n", "\n" + ("---\n" + "\n"));
  }

  /** Good checks joined, up to the last closing tag, lead from one block into two at most. */
  lemma {:induction false} JoinedLeads(checks: seq<string>) returns (y: string)
    requires checks != [] && AllGood(checks)
    ensures JoinChecks(checks) == y + "</details>" && EndsLine(y) && Leads(y, 1, 2)
  {
    hide Leads, GoodCheck, OpenCheck, RenderCheck, EndsLine;
    var k := |checks| - 1;
    assert GoodRendered(checks[k]);
    var c: CheckBlock :| checks[k] == RenderCheck(c) && GoodCheck(c);
    RenderCheckEnds(c);
    OpenCheckLeads(c);
    if k == 0 {
      y := OpenCheck(c);
    } else {
      assert forall i :: 0 <= i < k ==> checks[..k][i] == checks[i];
      assert forall i :: 0 <= i < k ==> GoodRendered(checks[..k][i]);
      hide GoodRendered;
      var x := JoinedLeads(checks[..k]);
      var mid := "</details>" + CHECK_SEPARATOR;
      y := x + (mid + OpenCheck(c));
      JoinedText(x, c, checks);
      SeparatorLeads();
      ThenLeads(mid, OpenCheck(c), 2, 1, 2);
      EndsLineAppend(mid, OpenCheck(c));
      ThenLeads(x, mid + OpenCheck(c), 1, 2, 2);
      EndsLineAppend(x, mid + OpenCheck(c));
    }
  }

  lemma JoinedText(x: string, c: CheckBlock, checks: seq<string>)
    requires |checks| > 1 && JoinChecks(checks[..|checks| - 1]) == x + "</details>"
    requires checks[|checks| - 1] == OpenCheck(c) + "</details>"
    ensures JoinChecks(checks) == x + ("</details>" + CHECK_SEPARATOR + OpenCheck(c)) + "</details>"
  {
    hide OpenCheck, CHECK_SEPARATOR;
    FourParts(x, "</details>", CHECK_SEPARATOR, OpenCheck(c));
  }

  lemma FourParts(x: string, d: string, sep: string, last: string)
    ensures (x + d) + sep + (last + d) == x + (d + sep + last) + d
  {
  }

  /* ----- a section ----- */

  ghost predicate GoodSection(section: string) {
    exists header, checks ::
      section == WrapAppSection(header, checks) && StandsAlone(header + "\n") && AllGood(checks)
  }

  function SectionHead(header: string): string {
    "<summary>\n" + ("\n" + ((header + "\n") + ("</summary>\n" + "\n")))
  }

  lemma SummaryTagLeads(line: string, n: nat)
    requires line == "<summary>\n" || line == "</summary>\n"
    ensures Leads(line, n, n) && EndsLine(line)
  {
    assert NoNewline("<summary>") && NoNewline("</summary>");
    assert "<summary>\n" == "<summary>" + "\n" && "</summary>\n" == "</summary>" + "\n";
    hide FenceOf, Leads;
    NotAFence(line);
    LoneTagDepth(line, n);
    hide TagDepth;
    LineLeads(line, n, n);
  }

  lemma SectionHeadLeads(header: string, n: nat)
    requires StandsAlone(header + "\n")
    ensures Leads(SectionHead(header), n, n) && EndsLine(SectionHead(header))
  {
    hide Leads, StandsAlone, EndsLine;
    var line := header + "\n";
    var end := "</summary>\n" + "\n";
    OneBlankLine();
    BlankLeads(n);
    SummaryTagLeads("<summary>\n", n);
    SummaryTagLeads("</summary>\n", n);
    StandsAloneLeads(line, n);
    LastNewline(header);
    ThenLeads("</summary>\n", "\n", n, n, n);
    EndsLineAppend("</summary>\n", "\n");
    ThenLeads(line, end, n, n, n);
    EndsLineAppend(line, end);
    ThenLeads("\n", line + end, n, n, n);
    EndsLineAppend("\n", line + end);
    ThenLeads("<summary>\n", "\n" + (line + end), n, n, n);
    EndsLineAppend("<summary>\n", "\n" + (line + end));
  }

  lemma LastNewline(text: string)
    ensures EndsLine(text + "\n")
  {
  }

  lemma WrapText(header: string, joined: string)
    ensures APP_WRAP_OPEN + header + APP_WRAP_CLOSE + joined + APP_WRAP_END ==
            "<details>\n" + (SectionHead(header) + (joined + "</details>"))
  {
    assert APP_WRAP_OPEN == "<details>\n" + "<summary>\n" + "\n";
    assert APP_WRAP_CLOSE == "\n" + "</summary>\n" + "\n";
    FiveParts("<details>\n", "<summary>\n", "\n", header, "</summary>\n", joined, "</details>");
  }

  lemma FiveParts(a: string, b: string, n: string, h: string, d: string, j: string, e: string)
    ensures (a + b + n) + h + (n + d + n) + j + e == a + ((b + (n + ((h + n) + (d + n)))) + (j + e))
  {
  }

  lemma SectionText(header: string, checks: seq<string>)
    ensures WrapAppSection(header, checks) ==
              "<details>\n" + (SectionHead(header) + (JoinChecks(checks) + "</details>"))
  {
    hide JoinChecks, SectionHead;
    WrapText(header, JoinChecks(checks));
  }

  /** A good section is a block that it opens, and closes on its last line. */
  lemma SectionLeads(section: string) returns (y: string, c: nat)
    requires GoodSection(section)
    ensures section == "<details>\n" + (y + Closings(c)) && EndsLine(y) && Leads(y, 1, c)
  {
    hide Leads, WrapAppSection, StandsAlone, AllGood, SectionHead, EndsLine, JoinChecks;
    var header, checks :|
      section == WrapAppSection(header, checks) && StandsAlone(header + "\n") && AllGood(checks);
    SectionText(header, checks);
    var head := SectionHead(header);
    SectionHeadLeads(header, 1);
    if checks == [] {
      y, c := head, 1;
      NothingJoined();
      assert Closings(0) == "" && Closings(1) == "</details>" + "";
      assert "</details>" + "" == "</details>" == "" + "</details>";
    } else {
      var x := JoinedLeads(checks);
      y, c := head + x, 2;
      TwoClosings(head, x);
      EndsLineAppend(head, x);
      ThenLeads(head, x, 1, 1, 2);
    }
  }

  lemma NothingJoined()
    ensures JoinChecks([]) == ""
  {
  }

  lemma TwoClosings(head: string, x: string)
    ensures head + ((x + "</details>") + "</details>") == (head + x) + Closings(2)
  {
    assert Closings(0) == "" && Closings(1) == "</details>" + "" && Closings(2) == "</details>" + Closings(1);
    assert head + ((x + "</details>") + "</details>") == (head + x) + ("</details>" + ("</details>" + ""));
  }
}
