/** What lines are read as, shape by shape, and what closer and opener print, read wherever they stand. */
module ReadingLines {
  import opened Text
  import opened Utf8
  import opened Markdown
  import opened MarkdownLaws
  import opened StandAlone
  import opened ContainedText

  /* ----- tags ----- */

  lemma {:induction false} DepthAfterPlain(a: string, rest: string, n: nat)
    requires NoAngle(a)
    ensures TagDepth(a + rest, n) == TagDepth(rest, n)
  {
    var line := a + rest;
    assert forall i :: 0 <= i < |a| ==> line[i] == a[i];
    SkipDepth(line, |a|, n);
    assert line[|a|..] == rest;
  }

  lemma AttributeDepth(rest: string, n: nat)
    ensures TagDepth("<details " + rest, n) == TagDepth(rest, n + 1)
  {
    var s := "<details " + rest;
    assert "<details " <= s;
    assert TagDepth(s, n) == TagDepth(s[1..], n + 1);
    hide TagDepth;
    assert forall i :: 0 <= i < 8 ==> s[1..][i] == "details "[i];
    SkipDepth(s[1..], 8, n + 1);
    assert s[1..][8..] == rest;
  }

  /**
   * Tags count one by one, wherever in a line: an opening tag, with attributes or without, opens a
   * block; a closing tag closes one if there is one; text without '<' does neither.
   */
  lemma TagsInOrder(a: string, rest: string, n: nat)
    requires NoAngle(a)
    ensures TagDepth(a, n) == n
    ensures TagDepth(a + ("<details>" + rest), n) == TagDepth(rest, n + 1)
    ensures TagDepth(a + ("<details " + rest), n) == TagDepth(rest, n + 1)
    ensures TagDepth(a + ("</details>" + rest), n) == TagDepth(rest, if n > 0 then n - 1 else 0)
  {
    hide TagDepth;
    NoAngleDepth(a, n);
    DepthAfterPlain(a, "<details>" + rest, n);
    DepthAfterPlain(a, "<details " + rest, n);
    DepthAfterPlain(a, "</details>" + rest, n);
    OpenDepth(rest, n);
    AttributeDepth(rest, n);
    CloseDepth(rest, n);
  }

  /* ----- fences ----- */

  function Chars(c: char, n: nat): string {
    seq(n, i => c)
  }

  /** A fence line: at most three blanks, at least three backticks; the rest is its info string, trimmed. */
  lemma FenceReads(blanks: nat, ticks: nat, rest: string)
    requires rest == "" || (rest[0] != '`' && (ticks == 0 ==> rest[0] != ' '))
    ensures FenceOf(Chars(' ', blanks) + (Chars('`', ticks) + rest)) ==
            if blanks <= 3 && ticks >= 3 then (Chars('`', ticks), TrimSpace(rest)) else ("", "")
  {
    hide TrimSpace;
    var trimmed := Chars('`', ticks) + rest;
    var line := Chars(' ', blanks) + trimmed;
    LeadingUnique(line, ' ', blanks);
    LeadingUnique(trimmed, '`', ticks);
    assert line[blanks..] == trimmed && trimmed[..ticks] == Chars('`', ticks) && trimmed[ticks..] == rest;
  }

  /** Such a line opens a fence; in a fence it ends it, if it is at least as wide and has no info string. */
  lemma NextAtFence(s: MdState, blanks: nat, ticks: nat, rest: string)
    requires blanks <= 3 && ticks >= 3 && (rest == "" || rest[0] != '`')
    ensures var t := Next(s, Chars(' ', blanks) + (Chars('`', ticks) + rest));
            && t.details == s.details
            && (s.fence == "" ==> t.fence == Chars('`', ticks) && t.fenceInfo == TrimSpace(rest))
            && (s.fence != "" ==>
                 (t.fence, t.fenceInfo) == if ticks >= |s.fence| && TrimSpace(rest) == "" then ("", "")
                   else (s.fence, s.fenceInfo))
  {
    FenceReads(blanks, ticks, rest);
    hide FenceOf, ScanTags, SummaryOf, TrimSpace;
  }

  /** Inside a fence every other line is just text. */
  lemma NextInsideFence(s: MdState, line: string)
    requires s.fence != "" && FenceOf(line).0 == ""
    ensures Next(s, line) == s
  {
    hide FenceOf, ScanTags, SummaryOf;
  }

  /* ----- summaries ----- */

  /** No tag in x that ends a summary. */
  predicate Unclosed(x: string) {
    forall i :: 0 <= i <= |x| ==> !("</summary>" <= x[i..])
  }

  lemma NotEarlier(x: string, tail: string, i: nat)
    requires Unclosed(x) && i < |x| && tail != "" && (tail[0] == ' ' || tail[0] == '<')
    ensures !("</summary>" <= (x + tail)[i..])
  {
    var pattern, rest := "</summary>", (x + tail)[i..];
    assert |pattern| == 10 && forall j :: 0 < j < 10 ==> pattern[j] != ' ' && pattern[j] != '<';
    assert i + 10 <= |x| ==> rest[..10] == x[i..][..10];
    assert i + 10 > |x| ==> rest[|x| - i] == tail[0];
  }

  lemma ClosedFirstAt(x: string, tail: string, at: nat)
    requires Unclosed(x) && tail != "" && (tail[0] == ' ' || tail[0] == '<')
    requires at <= |tail| && "</summary>" <= tail[at..]
    requires forall i :: 0 <= i < at ==> !("</summary>" <= tail[i..])
    ensures IndexOf(x + tail, "</summary>") == |x| + at
  {
    var rest := x + tail;
    forall j | 0 <= j < |x| + at
      ensures !("</summary>" <= rest[j..])
    {
      if j < |x| {
        NotEarlier(x, tail, j);
      } else {
        assert rest[j..] == tail[j - |x|..];
      }
    }
    assert rest[|x| + at..] == tail[at..];
    hide IndexOf;
    IndexOfUnique(rest, "</summary>", |x| + at);
  }

  lemma OpenedAtOnce(rest: string)
    ensures IndexOf("<summary>" + rest, "<summary>") == 0 && ("<summary>" + rest)[9..] == rest
  {
    hide IndexOf;
    IndexOfUnique("<summary>" + rest, "<summary>", 0);
  }

  lemma SummaryFound(x: string, tail: string, at: nat)
    requires Unclosed(x) && tail != "" && (tail[0] == ' ' || tail[0] == '<')
    requires at <= |tail| && "</summary>" <= tail[at..]
    requires forall i :: 0 <= i < at ==> !("</summary>" <= tail[i..])
    ensures SummaryOf("<summary>" + (x + tail)) == Some(x + tail[..at])
  {
    hide IndexOf, Unclosed;
    OpenedAtOnce(x + tail);
    ClosedFirstAt(x, tail, at);
    TextBetween("<summary>" + (x + tail), x + tail, |x| + at);
    assert (x + tail)[..|x| + at] == x + tail[..at];
  }

  lemma TextBetween(line: string, rest: string, close: nat)
    requires IndexOf(line, "<summary>") == 0 && |line| >= 9 && line[9..] == rest
    requires close <= |rest| && IndexOf(rest, "</summary>") == close
    ensures SummaryOf(line) == Some(rest[..close])
  {
    hide IndexOf;
  }

  lemma SummaryWhole(x: string)
    requires Unclosed(x)
    ensures SummaryOf("<summary>" + (x + "</summary>\n")) == Some(x)
  {
    assert "</summary>\n"[0..] == "</summary>\n" && "</summary>\n"[..0] == "" && x + "" == x;
    hide SummaryOf, Unclosed;
    SummaryFound(x, "</summary>\n", 0);
  }

  /** The innermost block takes the summary of the line, at most 80 bytes of it, unless it has one. */
  lemma SummaryIsCarried(s: MdState, x: string)
    requires s.fence == "" && s.details != [] && Unclosed(x) && TagFree("<summary>" + (x + "</summary>\n"))
    ensures var t, n := Next(s, "<summary>" + (x + "</summary>\n")), |s.details| - 1;
            && t.fence == "" && |t.details| == |s.details| && t.details[..n] == s.details[..n]
            && (s.details[n].hasSummary ==> t.details[n] == s.details[n])
            && (!s.details[n].hasSummary ==> t.details[n] == OpenDetails(CutAtRune(x, 80), true))
  {
    var line := "<summary>" + (x + "</summary>\n");
    assert line[0] == '<';
    NotAFence(line);
    hide FenceOf, ScanTags, SummaryOf, CutAtRune, Unclosed, TagFree;
    SummaryWhole(x);
    ScanTagFree(line, s.details);
  }

  /** And of what 80 bytes can hold, no more than part of a rune is lost. */
  lemma CarriedBytes(x: string)
    requires Valid(x)
    ensures CutAtRune(x, 80) <= x && |CutAtRune(x, 80)| <= 80 && Valid(CutAtRune(x, 80))
    ensures if |x| <= 80 then CutAtRune(x, 80) == x else |CutAtRune(x, 80)| >= 77
  {
    CutAtRuneIsLongest(x, 80);
    CutAtRuneKeepsRunes(x, 80);
    hide CutAtRune, Valid;
  }

  /* ----- what closer and opener print, read anywhere ----- */

  /** closer closes what is open in s, and nothing of what is open around it. */
  lemma CloserClosesItsOwn(s: MdState, t: MdState)
    requires Tracked(s) && t.fence == s.fence && |t.details| >= |s.details|
    ensures var u := Run(t, Closer(s)); u.fence == "" && |u.details| == |t.details| - |s.details|
    ensures |Closer(s)| == 12 * |s.details| + if s.fence == "" then 0 else |s.fence| + 1
  {
    hide Run, Next;
    var n := |s.details|;
    CloserLength(s);
    if s.fence == "" {
      assert Closer(s) == Closers(n);
      RunClosersAny(t, n);
    } else {
      OneLineNewline(s.fence);
      RunLine(t, s.fence + "\n", Closers(n));
      NextTicks(t, s.fence);
      RunClosersAny(Next(t, s.fence + "\n"), n);
    }
  }

  /** The block that a carried block is read as: it keeps its summary, with a note. */
  function Reread(d: OpenDetails): OpenDetails {
    if d.hasSummary then OpenDetails(CutAtRune(d.summary + " (continued)", 80), true) else NO_SUMMARY
  }

  function RereadAll(details: seq<OpenDetails>): seq<OpenDetails> {
    seq(|details|, i requires 0 <= i < |details| => Reread(details[i]))
  }

  /** The texts a block carries read as nothing else. */
  predicate Readable(d: OpenDetails) {
    NoNewline(d.summary) && (d.hasSummary ==> CleanSummary(d.summary) && Unclosed(d.summary))
  }

  lemma SummaryContinued(x: string)
    requires Unclosed(x)
    ensures SummaryOf(SummaryLine(x)) == Some(x + " (continued)")
  {
    var tail := " (continued)" + "</summary>\n";
    assert SummaryLine(x) == "<summary>" + (x + tail);
    assert |" (continued)"| == 12 && tail[12..] == "</summary>\n" && tail[..12] == " (continued)";
    assert forall i :: 0 <= i < 12 ==> " (continued)"[i] != '<';
    forall i | 0 <= i < 12
      ensures !("</summary>" <= tail[i..])
    {
      assert tail[i..][0] == " (continued)"[i];
    }
    hide SummaryOf, Unclosed;
    SummaryFound(x, tail, 12);
  }

  lemma NextContinued(s: MdState, x: string)
    requires s.fence == "" && CleanSummary(x) && Unclosed(x)
    requires s.details != [] && s.details[|s.details| - 1] == NO_SUMMARY
    ensures Next(s, SummaryLine(x)) ==
            s.(details := s.details[..|s.details| - 1] + [OpenDetails(CutAtRune(x + " (continued)", 80), true)])
  {
    SummaryContinued(x);
    SummaryLineTagFree(x);
    var line := SummaryLine(x);
    assert line[0] == '<';
    NotAFence(line);
    hide SummaryLine, FenceOf, ScanTags, SummaryOf, CutAtRune, Unclosed, CleanSummary, TagFree;
    ScanTagFree(line, s.details);
  }

  lemma RunBlock(s: MdState, d: OpenDetails)
    requires s.fence == "" && Readable(d)
    ensures Run(s, OpenerOf(d)) == s.(details := s.details + [Reread(d)]) && EndsLine(OpenerOf(d))
  {
    hide Run, Next, CleanSummary, Unclosed, CutAtRune, SummaryLine;
    RunOpenerOf(s, d);
    if d.hasSummary {
      NextOpenTag(s);
      var t := Next(s, "<details>\n");
      SummaryLineIsLine(d.summary);
      NextContinued(t, d.summary);
      RunLine(s, "<details>\n", SummaryLine(d.summary) + "\n");
      RunTwoLines(t, SummaryLine(d.summary), "\n");
      NextBlank(Next(t, SummaryLine(d.summary)));
    } else {
      RunPlainOpener(s);
      assert OpenerOf(d) == "<details>\n";
    }
  }

  lemma {:induction false} RunBlocks(s: MdState, details: seq<OpenDetails>)
    requires s.fence == "" && forall i :: 0 <= i < |details| ==> Readable(details[i])
    ensures Run(s, Openers(details)) == s.(details := s.details + RereadAll(details)) && EndsLine(Openers(details))
  {
    hide Run, OpenerOf, Readable, Reread;
    if details == [] {
      RunNothing(s);
      assert s.details + RereadAll([]) == s.details;
    } else {
      var n := |details| - 1;
      RunBlocks(s, details[..n]);
      var head := Openers(details[..n]);
      RunAppend(s, head, OpenerOf(details[n]));
      RunBlock(Run(s, head), details[n]);
      EndsLineAppend(head, OpenerOf(details[n]));
      assert RereadAll(details) == RereadAll(details[..n]) + [Reread(details[n])];
    }
  }

  /** opener opens, after whatever is open, the blocks of s with their summaries and the fence of s with its info. */
  lemma OpenerOpensItsOwn(u: MdState, s: MdState)
    requires u.fence == "" && Tracked(s) && CleanInfo(s)
    requires forall i :: 0 <= i < |s.details| ==> Readable(s.details[i])
    ensures var t := Run(u, Opener(s));
            && t.details == u.details + RereadAll(s.details) && t.fence == s.fence
            && (s.fence != "" ==> t.fenceInfo == s.fenceInfo)
  {
    hide Run, Next, FenceOf, Readable;
    var head := Openers(s.details);
    RunBlocks(u, s.details);
    var t := Run(u, head);
    if s.fence == "" {
      assert Opener(s) == head;
    } else {
      FenceLineIsLine(s);
      RunAppend(u, head, FenceLine(s));
      assert FenceLine(s) + "" == FenceLine(s);
      RunLine(t, FenceLine(s), "");
      RunNothing(Next(t, FenceLine(s)));
      FenceLineIsFence(s.fence, s.fenceInfo);
      NextFence(t, FenceLine(s), s.fence, s.fenceInfo);
    }
  }

  /** Nothing else is printed. */
  lemma OpenerLength(d: OpenDetails)
    ensures |OpenerOf(d)| == 10 + if d.hasSummary then |d.summary| + 33 else 0
  {
  }
}
