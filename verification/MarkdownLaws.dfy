/** What the automaton and the printers of Markdown owe each other. */
module MarkdownLaws {
  import opened Text
  import opened Utf8
  import opened Markdown

  /** Nothing is left open. */
  predicate Closed(s: MdState) {
    s.fence == "" && s.details == []
  }

  /** As much is open in s as in t; only carried texts may differ. */
  predicate SameOpen(s: MdState, t: MdState) {
    s.fence == t.fence && |s.details| == |t.details|
  }

  /** The text leaves no fence and no block open, read from a fresh start. */
  predicate StandsAlone(text: string) {
    Closed(Run(EMPTY, text))
  }

  predicate AllStandAlone(texts: seq<string>) {
    forall i :: 0 <= i < |texts| ==> StandsAlone(texts[i])
  }

  predicate NoNewline(s: string) {
    forall i :: 0 <= i < |s| ==> s[i] != '\n'
  }

  predicate Ticks(s: string) {
    |s| >= 3 && forall i :: 0 <= i < |s| ==> s[i] == '`'
  }

  /** What holds of every state the automaton reaches. */
  predicate Tracked(s: MdState) {
    && (s.fence == "" || Ticks(s.fence))
    && Trimmed(s.fenceInfo) && NoNewline(s.fenceInfo)
    && forall d <- s.details :: NoNewline(d.summary)
  }

  predicate StartsTag(s: string) {
    OpensTag(s) || ClosesTag(s)
  }

  predicate TagFree(s: string) {
    forall i :: 0 <= i < |s| ==> !StartsTag(s[i..])
  }

  /** No details tag in the summary, and no start of one that the blank after it completes. */
  predicate CleanSummary(summary: string) {
    TagFree(summary + " ")
  }

  predicate CleanSummaries(details: seq<OpenDetails>) {
    forall d <- details :: d.hasSummary ==> CleanSummary(d.summary)
  }

  predicate CleanInfo(s: MdState) {
    s.fence != "" && s.fenceInfo != "" ==> s.fenceInfo[0] != '`'
  }

  /** No text that s carries reads as anything else. */
  predicate Clean(s: MdState) {
    CleanSummaries(s.details) && CleanInfo(s)
  }

  /** How deep a line leads when n blocks are open: its tags alone decide. */
  function TagDepth(line: string, n: nat): nat {
    if line == "" then n
    else TagDepth(line[1..], if OpensTag(line) then n + 1 else if ClosesTag(line) && n > 0 then n - 1 else n)
  }

  /** How deep reading back these blocks leads, given the tags in their summaries. */
  function ReadDepth(details: seq<OpenDetails>): nat {
    if details == [] then 0
    else
      var n, d := ReadDepth(details[..|details| - 1]) + 1, details[|details| - 1];
      if d.hasSummary then TagDepth(SummaryLine(d.summary), n) else n
  }

  /** The tags in the carried summaries cancel out, and the info string adds nothing to its fence. */
  predicate Carriable(s: MdState) {
    ReadDepth(s.details) == |s.details| && CleanInfo(s)
  }

  /* ----- lines that change nothing ----- */

  lemma NotAFence(line: string)
    requires line == "" || (line[0] != ' ' && line[0] != '`')
    ensures FenceOf(line) == ("", "")
  {
  }

  lemma {:induction false} ScanTagFree(s: string, details: seq<OpenDetails>)
    requires TagFree(s)
    ensures ScanTags(s, details) == details
  {
    if s != "" {
      assert s[0..] == s;
      assert forall i :: 0 <= i < |s[1..]| ==> s[1..][i..] == s[i + 1..];
      ScanTagFree(s[1..], details);
    }
  }

  predicate NoAngle(s: string) {
    forall i :: 0 <= i < |s| ==> s[i] != '<'
  }

  lemma NoAngleNoTag(s: string)
    requires NoAngle(s)
    ensures TagFree(s)
  {
    forall i | 0 <= i < |s|
      ensures !StartsTag(s[i..])
    {
      assert s[i..][0] == s[i];
    }
  }

  lemma NoAngleNoSummary(s: string)
    requires NoAngle(s)
    ensures SummaryOf(s) == None
  {
    forall j | 0 <= j <= |s|
      ensures !("<summary>" <= s[j..])
    {
      if j < |s| {
        assert s[j..][0] == s[j];
      }
    }
  }

  /** A line that is no fence and holds no '<'. */
  lemma PlainLine(s: MdState, line: string)
    requires line == "" || (line[0] != ' ' && line[0] != '`')
    requires NoAngle(line)
    ensures Next(s, line) == s
  {
    NotAFence(line);
    NoAngleNoTag(line);
    NoAngleNoSummary(line);
    ScanTagFree(line, s.details);
  }

  /** A line without a tag that is no fence line leaves as much open as before. */
  lemma NextTagFree(s: MdState, line: string)
    requires TagFree(line) && FenceOf(line).0 == "" && (s.fence != "" || FenceOf(line).1 == "")
    ensures SameOpen(Next(s, line), s)
  {
    ScanTagFree(line, s.details);
    hide FenceOf, ScanTags, SummaryOf, CutAtRune;
  }

  /* ----- reading text piecewise ----- */

  lemma RunLine(s: MdState, line: string, rest: string)
    requires line != "" && OneLine(line) && (EndsLine(line) || rest == "")
    ensures Run(s, line + rest) == Run(Next(s, line), rest)
  {
    FirstLine(line, rest);
    var text := line + rest;
    assert text[..|line|] == line && text[|line|..] == rest;
  }

  lemma RunNothing(s: MdState)
    ensures Run(s, "") == s
  {
  }

  lemma RunStep(s: MdState, text: string)
    requires text != ""
    ensures Run(s, text) == Run(Next(s, text[..LineEnd(text)]), text[LineEnd(text)..])
  {
  }

  lemma {:induction false} RunAppend(s: MdState, a: string, b: string)
    requires EndsLine(a)
    ensures Run(s, a + b) == Run(Run(s, a), b)
    decreases |a|
  {
    hide Next, Run;
    if a == "" {
      assert a + b == b;
      RunNothing(s);
    } else {
      var k := LineEnd(a);
      var line, rest := a[..k], a[k..];
      AppendAssociates(line, rest, b);
      assert line + rest == a;
      RunLine(s, line, rest + b);
      RunStep(s, a);
      RunAppend(Next(s, line), rest, b);
    }
  }

  lemma {:induction false} ScanNewline(s: string, details: seq<OpenDetails>)
    ensures ScanTags(s + "\n", details) == ScanTags(s, details)
  {
    var t := s + "\n";
    if s == "" {
      NoAngleNoTag(t);
      ScanTagFree(t, details);
    } else {
      assert StartsWithSame(s, "<details>") && StartsWithSame(s, "<details ") && StartsWithSame(s, "</details>") by {
        NewlineInNoPattern(s, "<details>");
        NewlineInNoPattern(s, "<details ");
        NewlineInNoPattern(s, "</details>");
      }
      assert t[1..] == s[1..] + "\n";
      ScanNewline(s[1..], ScanHere(s, details));
    }
  }

  predicate StartsWithSame(s: string, pattern: string) {
    pattern <= s + "\n" <==> pattern <= s
  }

  lemma NewlineInNoPattern(s: string, pattern: string)
    requires NoNewline(pattern)
    ensures StartsWithSame(s, pattern)
  {
    if |pattern| == |s| + 1 {
      assert (s + "\n")[|s|] == '\n';
    }
  }

  lemma {:induction false} IndexOfNewline(s: string, pattern: string)
    requires NoNewline(pattern) && pattern != ""
    ensures IndexOf(s + "\n", pattern) == IndexOf(s, pattern)
  {
    var t := s + "\n";
    NewlineInNoPattern(s, pattern);
    assert t[1..] == if s == "" then "" else s[1..] + "\n";
    if s != "" {
      IndexOfNewline(s[1..], pattern);
    }
  }

  lemma FenceInNewline(trimmed: string)
    ensures FenceIn(trimmed + "\n") == FenceIn(trimmed)
  {
    hide TrimSpace;
    var ticks := Leading(trimmed, '`');
    LeadingUnique(trimmed + "\n", '`', ticks);
    assert (trimmed + "\n")[ticks..] == trimmed[ticks..] + "\n";
    assert (trimmed + "\n")[..ticks] == trimmed[..ticks];
    TrimSpaceNewline(trimmed[ticks..]);
  }

  lemma FenceOfNewline(line: string)
    ensures FenceOf(line + "\n") == FenceOf(line)
  {
    hide FenceIn;
    var spaces := Leading(line, ' ');
    LeadingUnique(line + "\n", ' ', spaces);
    assert (line + "\n")[spaces..] == line[spaces..] + "\n";
    FenceInNewline(line[spaces..]);
  }

  lemma SummaryOfNewline(line: string)
    ensures SummaryOf(line + "\n") == SummaryOf(line)
  {
    hide IndexOf;
    IndexOfNewline(line, "<summary>");
    var open := IndexOf(line, "<summary>");
    if open >= 0 {
      var rest := line[open + 9..];
      assert (line + "\n")[open + 9..] == rest + "\n";
      IndexOfNewline(rest, "</summary>");
      var close := IndexOf(rest, "</summary>");
      if close >= 0 {
        assert (rest + "\n")[..close] == rest[..close];
      }
    }
  }

  /** A line means the same with and without its newline. */
  lemma NextNewline(s: MdState, line: string)
    ensures Next(s, line + "\n") == Next(s, line)
  {
    FenceOfNewline(line);
    ScanNewline(line, s.details);
    SummaryOfNewline(line);
  }

  lemma NextBlank(s: MdState)
    ensures Next(s, "\n") == s
  {
    PlainLine(s, "\n");
  }

  /** So ending the last line of a text, or adding a blank one, is not noticed. */
  lemma {:induction false} RunNewline(s: MdState, text: string)
    ensures Run(s, text + "\n") == Run(s, text)
    decreases |text|
  {
    if text == "" {
      RunLine(s, "\n", "");
      assert text + "\n" == "\n" + "";
      NextBlank(s);
    } else {
      var k := LineEnd(text);
      var line, rest := text[..k], text[k..];
      if EndsLine(line) {
        assert text + "\n" == line + (rest + "\n");
        RunLine(s, line, rest + "\n");
        RunNewline(Next(s, line), rest);
      } else {
        assert text == line && rest == "";
        RunLine(s, line + "\n", "");
        assert line + "\n" + "" == text + "\n";
        NextNewline(s, line);
      }
    }
  }

  /* ----- line by line ----- */

  lemma {:induction false} RunIsRunLines(s: MdState, text: string)
    ensures Run(s, text) == RunLines(s, Lines(text))
    decreases |text|
  {
    hide Next;
    if text != "" {
      var k := LineEnd(text);
      RunIsRunLines(Next(s, text[..k]), text[k..]);
      RunLinesCons(s, text[..k], Lines(text[k..]));
    }
  }

  lemma {:induction false} RunLinesCons(s: MdState, line: string, lines: seq<string>)
    ensures RunLines(s, [line] + lines) == RunLines(Next(s, line), lines)
  {
    hide Next;
    var all := [line] + lines;
    if lines == [] {
      assert all == [line];
      assert RunLines(s, [line][..0]) == s;
    } else {
      RunLinesCons(s, line, lines[..|lines| - 1]);
      assert all[..|all| - 1] == [line] + lines[..|lines| - 1];
    }
  }

  /* ----- only what is open matters for what will be open ----- */

  lemma {:induction false} ScanSameDepth(s: string, a: seq<OpenDetails>, b: seq<OpenDetails>)
    requires |a| == |b|
    ensures |ScanTags(s, a)| == |ScanTags(s, b)|
  {
    if s != "" {
      ScanSameDepth(s[1..], ScanHere(s, a), ScanHere(s, b));
    }
  }

  lemma NextSameOpen(s: MdState, t: MdState, line: string)
    requires SameOpen(s, t)
    ensures SameOpen(Next(s, line), Next(t, line))
  {
    hide FenceOf, ScanTags, SummaryOf, CutAtRune;
    ScanSameDepth(line, s.details, t.details);
  }

  lemma {:induction false} RunSameOpen(s: MdState, t: MdState, text: string)
    requires SameOpen(s, t)
    ensures SameOpen(Run(s, text), Run(t, text))
    decreases |text|
  {
    if text != "" {
      var k := LineEnd(text);
      NextSameOpen(s, t, text[..k]);
      RunSameOpen(Next(s, text[..k]), Next(t, text[..k]), text[k..]);
    }
  }

  /* ----- every reachable state is tracked ----- */

  /** Whether a fence is open after a line depends on the fence before it. */
  lemma NextSameFence(s: MdState, t: MdState, line: string)
    requires s.fence == t.fence
    ensures Next(s, line).fence == Next(t, line).fence
  {
    hide FenceOf, ScanTags, SummaryOf;
  }

  lemma PartNoNewline(s: string, k: nat, part: string)
    requires NoNewline(s) && k + |part| <= |s| && part == s[k..k + |part|]
    ensures NoNewline(part)
  {
    assert forall i :: 0 <= i < |part| ==> part[i] == s[k + i];
  }

  lemma TrimSpacePart(s: string) returns (k: nat)
    ensures k + |TrimSpace(s)| <= |s| && TrimSpace(s) == s[k..k + |TrimSpace(s)|]
  {
    hide LeadingSpace, TrimRight;
    k := LeadingSpace(s);
    var r := TrimSpace(s);
    assert r == s[k..][..|r|];
  }

  lemma TrimSpaceNoNewline(s: string)
    requires OneLine(s)
    ensures NoNewline(TrimSpace(s))
  {
    hide TrimSpace;
    var bare := if s == "" || s[|s| - 1] != '\n' then s else s[..|s| - 1];
    assert bare == s || bare + "\n" == s;
    TrimSpaceNewline(bare);
    var k := TrimSpacePart(bare);
    PartNoNewline(bare, k, TrimSpace(bare));
  }

  lemma RestOneLine(line: string, k: nat)
    requires OneLine(line) && k <= |line|
    ensures OneLine(line[k..])
  {
    assert forall i :: 0 <= i < |line[k..]| ==> line[k..][i] == line[k + i];
  }

  predicate FenceShape(fence: (string, string)) {
    (fence.0 == "" || Ticks(fence.0)) && Trimmed(fence.1) && NoNewline(fence.1)
  }

  lemma FenceInShape(trimmed: string)
    requires OneLine(trimmed)
    ensures FenceShape(FenceIn(trimmed))
  {
    assert Trimmed("");
    hide TrimSpace, Trimmed, OneLine, Leading;
    var ticks := Leading(trimmed, '`');
    RestOneLine(trimmed, ticks);
    TrimSpaceTrims(trimmed[ticks..]);
    TrimSpaceNoNewline(trimmed[ticks..]);
  }

  lemma FenceOfShape(line: string)
    requires OneLine(line)
    ensures FenceShape(FenceOf(line))
  {
    assert FenceShape(("", ""));
    hide FenceIn;
    var spaces := Leading(line, ' ');
    RestOneLine(line, spaces);
    FenceInShape(line[spaces..]);
  }

  lemma InnerNoNewline(line: string, from: nat, part: string)
    requires OneLine(line) && from + |part| < |line| && part == line[from..from + |part|]
    ensures NoNewline(part)
  {
    assert forall i :: 0 <= i < |part| ==> part[i] == line[from + i];
  }

  lemma SummaryOfShape(line: string)
    requires OneLine(line) && SummaryOf(line).Some?
    ensures NoNewline(SummaryOf(line).value)
  {
    hide OneLine, NoNewline;
    var open := IndexOf(line, "<summary>");
    var rest := line[open + 9..];
    var close := IndexOf(rest, "</summary>");
    assert close + 10 <= |rest|;
    hide SummaryOf, IndexOf;
    assert rest[..close] == line[open + 9..open + 9 + close];
    InnerNoNewline(line, open + 9, rest[..close]);
  }

  predicate NamesOneLine(details: seq<OpenDetails>) {
    forall d <- details :: NoNewline(d.summary)
  }

  lemma {:induction false} ScanNamesOneLine(s: string, details: seq<OpenDetails>)
    requires NamesOneLine(details)
    ensures NamesOneLine(ScanTags(s, details))
  {
    if s != "" {
      ScanNamesOneLine(s[1..], ScanHere(s, details));
    }
  }

  lemma NextTracked(s: MdState, line: string)
    requires Tracked(s) && OneLine(line)
    ensures Tracked(Next(s, line))
  {
    hide FenceOf, ScanTags, SummaryOf, CutAtRune, Trimmed;
    FenceOfShape(line);
    ScanNamesOneLine(line, s.details);
    var summary := SummaryOf(line);
    if summary.Some? {
      SummaryOfShape(line);
      CutAtRuneIsLongest(summary.value, MAX_CARRIED_SUMMARY);
      var text := CutAtRune(summary.value, MAX_CARRIED_SUMMARY);
      assert forall i :: 0 <= i < |text| ==> text[i] == summary.value[i];
    }
  }

  /* ----- closer closes ----- */

  lemma NoSummaryAfterAngle(line: string)
    requires line != "" && NoAngle(line[1..]) && !("<summary>" <= line)
    ensures SummaryOf(line) == None
  {
    NoAngleNoSummary(line[1..]);
  }

  /** A line whose only '<' is its first byte changes the blocks in one place. */
  lemma NextTagLine(s: MdState, line: string)
    requires s.fence == "" && line != "" && line[0] == '<'
    requires NoAngle(line[1..]) && !("<summary>" <= line)
    ensures Next(s, line) == s.(details := ScanHere(line, s.details))
  {
    NotAFence(line);
    NoAngleNoTag(line[1..]);
    ScanTagFree(line[1..], ScanHere(line, s.details));
    NoSummaryAfterAngle(line);
    assert ScanTags(line, s.details) == ScanTags(line[1..], ScanHere(line, s.details));
    hide FenceOf, ScanTags, SummaryOf;
  }

  lemma NextOpenTag(s: MdState)
    requires s.fence == ""
    ensures Next(s, "<details>\n") == s.(details := s.details + [NO_SUMMARY])
  {
    hide Next;
    var line := "<details>\n";
    assert line[1..] == "details>\n";
    assert line[1] != "<summary>"[1];
    NextTagLine(s, line);
  }

  lemma NextCloseTag(s: MdState)
    requires s.fence == "" && |s.details| > 0
    ensures Next(s, "</details>\n") == s.(details := s.details[..|s.details| - 1])
  {
    hide Next;
    var line := "</details>\n";
    assert line[1..] == "/details>\n";
    assert line[1] != "<summary>"[1] && line[1] != "<details>"[1] && line[1] != "<details "[1];
    NextTagLine(s, line);
  }

  lemma RunTwoLines(s: MdState, a: string, b: string)
    requires a != "" && b != "" && OneLine(a) && OneLine(b) && EndsLine(a)
    ensures Run(s, a + b) == Next(Next(s, a), b)
  {
    hide Next;
    RunLine(s, a, b);
    assert b + "" == b;
    RunLine(Next(s, a), b, "");
  }

  lemma RunDetailsClose(s: MdState)
    requires s.fence == "" && |s.details| > 0
    ensures Run(s, DETAILS_CLOSE) == s.(details := s.details[..|s.details| - 1])
  {
    hide Run, Next;
    assert DETAILS_CLOSE == "\n" + "</details>\n";
    RunTwoLines(s, "\n", "</details>\n");
    NextBlank(s);
    NextCloseTag(s);
  }

  lemma ClosersEndLine(n: nat)
    ensures EndsLine(Closers(n))
  {
  }

  lemma RunThenDetailsClose(s: MdState, text: string)
    requires EndsLine(text) && Run(s, text).fence == "" && |Run(s, text).details| > 0
    ensures var t := Run(s, text + DETAILS_CLOSE);
            t.fence == "" && |t.details| == |Run(s, text).details| - 1
  {
    hide Run, Next;
    RunAppend(s, text, DETAILS_CLOSE);
    RunDetailsClose(Run(s, text));
  }

  lemma {:induction false} RunClosers(s: MdState, n: nat)
    requires s.fence == "" && n <= |s.details|
    ensures Run(s, Closers(n)).fence == "" && |Run(s, Closers(n)).details| == |s.details| - n
  {
    hide Run;
    if n == 0 {
      RunNothing(s);
    } else {
      RunClosers(s, n - 1);
      ClosersEndLine(n - 1);
      RunThenDetailsClose(s, Closers(n - 1));
      assert Closers(n) == Closers(n - 1) + DETAILS_CLOSE;
    }
  }

  lemma FenceLineIsFence(ticks: string, info: string)
    requires Ticks(ticks) && Trimmed(info) && NoNewline(info) && (info == "" || info[0] != '`')
    ensures FenceOf(ticks + info + "\n") == (ticks, info)
  {
    var line := ticks + info + "\n";
    LeadingUnique(line, ' ', 0);
    assert line[0..] == line;
    LeadingUnique(line, '`', |ticks|);
    assert line[..|ticks|] == ticks && line[|ticks|..] == info + "\n";
    TrimSpaceOfTrimmed(info);
  }

  lemma NextFenceClose(s: MdState)
    requires Ticks(s.fence)
    ensures Next(s, s.fence + "\n") == s.(fence := "", fenceInfo := "")
  {
    hide FenceOf, ScanTags, SummaryOf;
    FenceLineIsFence(s.fence, "");
    assert s.fence + "" + "\n" == s.fence + "\n";
  }

  lemma OneLineNewline(s: string)
    requires NoNewline(s)
    ensures OneLine(s + "\n") && EndsLine(s + "\n")
  {
  }

  /** Reading what closer prints, where a line starts, closes all that is open. */
  lemma CloserCloses(s: MdState)
    requires Tracked(s)
    ensures Closed(Run(s, Closer(s)))
    ensures EndsLine(Closer(s))
  {
    var n := |s.details|;
    var t := s.(fence := "", fenceInfo := "");
    RunClosers(t, n);
    ClosersEndLine(n);
    if s.fence == "" {
      assert Closer(s) == Closers(n);
      RunSameOpen(s, t, Closers(n));
    } else {
      OneLineNewline(s.fence);
      RunLine(s, s.fence + "\n", Closers(n));
      NextFenceClose(s);
      assert Closers(n) != "" ==> Closer(s)[|Closer(s)| - 1] == Closers(n)[|Closers(n)| - 1];
    }
  }

  /* ----- opener reopens ----- */

  lemma SummaryHeadNoTag(rest: string, i: nat)
    requires i < 9 && |rest| >= 2 && rest[0] == "<summary>"[i] && (i == 0 ==> rest[1] == 's')
    ensures !StartsTag(rest)
  {
  }

  lemma SummaryTailNoTag(i: nat)
    requires i < |" (continued)</summary>\n"|
    ensures !StartsTag(" (continued)</summary>\n"[i..])
  {
    var tail := " (continued)</summary>\n";
    assert tail[i..][0] == tail[i];
    if i == 12 {
      assert tail[i..][2] == tail[i + 2] == 's';
    }
  }

  lemma SummaryLineTagFree(x: string)
    requires CleanSummary(x)
    ensures TagFree(SummaryLine(x))
  {
    var head, tail := "<summary>", " (continued)</summary>\n";
    var line := SummaryLine(x);
    assert line == head + x + tail;
    assert |head| == 9 && |tail| == 23;
    forall i | 0 <= i < |line|
      ensures !StartsTag(line[i..])
    {
      if i < 9 {
        hide StartsTag;
        assert line[i..][0] == head[i] && (i == 0 ==> line[i..][1] == 's');
        SummaryHeadNoTag(line[i..], i);
      } else if i < 9 + |x| {
        hide StartsTag;
        assert line[i..] == x[i - 9..] + tail;
        assert (x + " ")[i - 9..] == x[i - 9..] + " ";
        BlankEndsTag(x[i - 9..], tail);
      } else {
        hide StartsTag;
        assert line[i..] == tail[i - 9 - |x|..];
        SummaryTailNoTag(i - 9 - |x|);
      }
    }
  }

  /** A tag that starts in x and runs into tail ends with tail's first byte. */
  lemma BlankEndsTag(x: string, tail: string)
    requires x != "" && " " <= tail && !StartsTag(x + " ")
    ensures !StartsTag(x + tail)
  {
    BlankInPattern(x, tail, "<details>");
    BlankInPattern(x, tail, "<details ");
    BlankInPattern(x, tail, "</details>");
  }

  /** Text around x that holds no '<' makes no tag of it, if it goes on with a blank that makes none. */
  lemma TagFreeAround(a: string, x: string, b: string)
    requires NoAngle(a) && TagFree(x + " ") && " " <= b && NoAngle(b)
    ensures TagFree(a + x + b)
  {
    var line := a + x + b;
    hide StartsTag;
    forall i | 0 <= i < |line|
      ensures !StartsTag(line[i..])
    {
      if |a| <= i < |a| + |x| {
        assert line[i..] == x[i - |a|..] + b;
        assert (x + " ")[i - |a|..] == x[i - |a|..] + " ";
        BlankEndsTag(x[i - |a|..], b);
      } else {
        assert line[i..][0] == line[i] == if i < |a| then a[i] else b[i - |a| - |x|];
        NoTagStarts(line[i..]);
      }
    }
  }

  lemma TagFreeAfter(a: string, x: string)
    requires NoAngle(a) && TagFree(x)
    ensures TagFree(a + x)
  {
    var line := a + x;
    hide StartsTag;
    forall i | 0 <= i < |line|
      ensures !StartsTag(line[i..])
    {
      if i < |a| {
        assert line[i..][0] == line[i] == a[i];
        NoTagStarts(line[i..]);
      } else {
        assert line[i..] == x[i - |a|..];
      }
    }
  }

  lemma NoTagStarts(s: string)
    requires s != "" && s[0] != '<'
    ensures !StartsTag(s)
  {
    assert "<details>"[0] == "<details "[0] == "</details>"[0] == '<';
  }

  lemma BlankInPattern(x: string, tail: string, pattern: string)
    requires " " <= tail && forall i :: 0 <= i < |pattern| - 1 ==> pattern[i] != ' '
    ensures pattern <= x + tail ==> pattern <= x + " "
  {
    if |pattern| <= |x| + 1 {
      assert (x + tail)[..|pattern|] == (x + " ")[..|pattern|];
    } else {
      assert (x + tail)[|x|] == ' ';
    }
  }

  lemma NextSummaryLine(s: MdState, x: string)
    requires s.fence == ""
    ensures Next(s, SummaryLine(x)).fence == ""
    ensures |Next(s, SummaryLine(x)).details| == |ScanTags(SummaryLine(x), s.details)|
  {
    var line := SummaryLine(x);
    assert line[0] == '<';
    NotAFence(line);
    hide FenceOf, ScanTags, SummaryOf, CutAtRune;
  }

  lemma SummaryLineIsLine(x: string)
    requires NoNewline(x)
    ensures OneLine(SummaryLine(x)) && EndsLine(SummaryLine(x)) && SummaryLine(x) != ""
  {
    var tail := " (continued)</summary>";
    assert NoNewline("<summary>" + x + tail);
    assert SummaryLine(x) == ("<summary>" + x + tail) + "\n";
  }

  /** Reading back an opened block: one block more, then whatever tags its summary holds. */
  lemma RunNamedOpener(s: MdState, x: string)
    requires s.fence == "" && NoNewline(x)
    ensures var t := Run(s, OpenerOf(OpenDetails(x, true)));
            t.fence == "" && |t.details| == |ScanTags(SummaryLine(x), s.details + [NO_SUMMARY])|
    ensures EndsLine(OpenerOf(OpenDetails(x, true)))
  {
    hide Run, Next, SummaryLine, ScanTags;
    NextOpenTag(s);
    var t := Next(s, "<details>\n");
    SummaryLineIsLine(x);
    NextSummaryLine(t, x);
    var rest := SummaryLine(x) + "\n";
    RunLine(s, "<details>\n", rest);
    RunTwoLines(t, SummaryLine(x), "\n");
    NextBlank(Next(t, SummaryLine(x)));
  }

  lemma RunPlainOpener(s: MdState)
    requires s.fence == ""
    ensures Run(s, "<details>\n") == s.(details := s.details + [NO_SUMMARY])
  {
    hide Run, Next;
    NextOpenTag(s);
    assert "<details>\n" + "" == "<details>\n";
    RunLine(s, "<details>\n", "");
    RunNothing(Next(s, "<details>\n"));
  }

  lemma {:induction false} ScanDepth(line: string, details: seq<OpenDetails>)
    ensures |ScanTags(line, details)| == TagDepth(line, |details|)
  {
    if line != "" {
      ScanDepth(line[1..], ScanHere(line, details));
    }
  }

  lemma RunOpenerOf(s: MdState, d: OpenDetails)
    requires s.fence == "" && NoNewline(d.summary)
    ensures var t, n := Run(s, OpenerOf(d)), |s.details| + 1;
            t.fence == "" && |t.details| == if d.hasSummary then TagDepth(SummaryLine(d.summary), n) else n
    ensures EndsLine(OpenerOf(d))
  {
    hide Run, SummaryLine, ScanTags, TagDepth;
    if d.hasSummary {
      RunNamedOpener(s, d.summary);
      ScanDepth(SummaryLine(d.summary), s.details + [NO_SUMMARY]);
      assert d == OpenDetails(d.summary, true);
    } else {
      RunPlainOpener(s);
      assert OpenerOf(d) == "<details>\n";
    }
  }

  lemma {:induction false} RunOpeners(details: seq<OpenDetails>)
    requires NamesOneLine(details)
    ensures Run(EMPTY, Openers(details)).fence == "" && |Run(EMPTY, Openers(details)).details| == ReadDepth(details)
    ensures EndsLine(Openers(details))
  {
    if details == [] {
      RunNothing(EMPTY);
    } else {
      hide Run, OpenerOf, TagDepth, SummaryLine;
      var n := |details| - 1;
      RunOpeners(details[..n]);
      RunAppend(EMPTY, Openers(details[..n]), OpenerOf(details[n]));
      RunOpenerOf(Run(EMPTY, Openers(details[..n])), details[n]);
      EndsLineAppend(Openers(details[..n]), OpenerOf(details[n]));
    }
  }

  lemma EndsLineAppend(a: string, b: string)
    requires EndsLine(a) && EndsLine(b)
    ensures EndsLine(a + b)
  {
    if b == "" {
      assert a + b == a;
    }
  }

  lemma NextFence(s: MdState, line: string, fence: string, info: string)
    requires s.fence == "" && fence != "" && FenceOf(line) == (fence, info)
    ensures Next(s, line) == s.(fence := fence, fenceInfo := info)
  {
  }

  /** An info string that starts with a backtick is read back as a wider fence. */
  lemma TickInfoWidens(ticks: string, info: string)
    requires Ticks(ticks) && info != "" && info[0] == '`'
    ensures |FenceOf(ticks + info + "\n").0| > |ticks|
  {
    var line := ticks + info + "\n";
    LeadingUnique(line, ' ', 0);
    assert line[0..] == line;
    assert line[|ticks|] == info[0];
    assert Leading(line, '`') > |ticks|;
  }

  lemma FenceLineIsLine(s: MdState)
    requires s.fence != "" && Tracked(s)
    ensures OneLine(FenceLine(s)) && EndsLine(FenceLine(s)) && FenceLine(s) != ""
  {
    assert NoNewline(s.fence + s.fenceInfo);
    assert FenceLine(s) == (s.fence + s.fenceInfo) + "\n";
  }

  /** The fence that the line opener prints for s is read as. */
  function ReadFence(s: MdState): string {
    if s.fence == "" then "" else FenceOf(FenceLine(s)).0
  }

  function Blocks(n: nat): seq<OpenDetails> {
    seq(n, i => NO_SUMMARY)
  }

  /** What the texts that s carries make of it when they are read back. */
  function ReadBack(s: MdState): MdState {
    MdState(ReadFence(s), "", Blocks(ReadDepth(s.details)))
  }

  /** Reading what opener prints, for every reachable state. */
  lemma OpenerReads(s: MdState)
    requires Tracked(s)
    ensures SameOpen(Run(EMPTY, Opener(s)), ReadBack(s))
    ensures EndsLine(Opener(s))
  {
    hide Run, Next, FenceOf, ReadDepth;
    var head := Openers(s.details);
    RunOpeners(s.details);
    var t := Run(EMPTY, head);
    if s.fence == "" {
      assert Opener(s) == head;
    } else {
      FenceLineIsLine(s);
      EndsLineAppend(head, FenceLine(s));
      RunAppend(EMPTY, head, FenceLine(s));
      assert FenceLine(s) + "" == FenceLine(s);
      RunLine(t, FenceLine(s), "");
      RunNothing(Next(t, FenceLine(s)));
      FenceIsRead(s);
      var (marker, info) := FenceOf(FenceLine(s));
      NextFence(t, FenceLine(s), marker, info);
    }
  }

  lemma FenceIsRead(s: MdState)
    requires Tracked(s) && s.fence != ""
    ensures FenceOf(FenceLine(s)).0 != ""
    ensures FenceOf(FenceLine(s)).0 == s.fence <==> CleanInfo(s)
  {
    hide FenceOf;
    if CleanInfo(s) {
      FenceLineIsFence(s.fence, s.fenceInfo);
    } else {
      TickInfoWidens(s.fence, s.fenceInfo);
    }
  }

  /**
   * Reading what opener prints opens as much as was open in s, exactly when the tags in the
   * carried summaries cancel out and the info string of an open fence does not start with a backtick.
   */
  lemma OpenerReopens(s: MdState)
    requires Tracked(s)
    ensures SameOpen(Run(EMPTY, Opener(s)), s) <==> Carriable(s)
    ensures EndsLine(Opener(s))
  {
    hide Run, FenceOf, ReadDepth;
    OpenerReads(s);
    if s.fence != "" {
      FenceIsRead(s);
    }
  }

  lemma {:induction false} CleanReadsBack(details: seq<OpenDetails>)
    requires CleanSummaries(details)
    ensures ReadDepth(details) == |details|
  {
    if details != [] {
      hide CleanSummary, TagDepth, SummaryLine;
      var n := |details| - 1;
      CleanReadsBack(details[..n]);
      if details[n].hasSummary {
        SummaryLineTagFree(details[n].summary);
        ScanTagFree(SummaryLine(details[n].summary), details);
        ScanDepth(SummaryLine(details[n].summary), details);
      }
    }
  }

  /** Summaries without a details tag are enough. */
  lemma CleanIsCarriable(s: MdState)
    requires Clean(s)
    ensures Carriable(s)
  {
    hide ReadDepth, CleanSummary;
    CleanReadsBack(s.details);
  }
}
