/** Every part that splitDetailsAtLines cuts renders on its own: it leaves no fence and no block open. */
module StandAlone {
  import opened Text
  import opened Markdown
  import opened MarkdownLaws
  import opened DetailsSplitter
  import opened SplitterLaws

  /* ----- the lines of a part ----- */

  /** Lines as SplitAfter leaves them: whole lines, only the last one perhaps without a newline. */
  predicate LinesOfText(lines: seq<string>) {
    && (forall i :: 0 <= i < |lines| ==> lines[i] != "" && OneLine(lines[i]))
    && (forall i :: 0 <= i < |lines| - 1 ==> EndsLine(lines[i]))
  }

  lemma EndsLikeItsEnd(a: string, b: string)
    requires b != ""
    ensures EndsLine(a + b) <==> EndsLine(b)
  {
  }

  lemma {:induction false} RunConcat(s: MdState, lines: seq<string>)
    requires LinesOfText(lines)
    ensures Run(s, Concat(lines)) == RunLines(s, lines)
    ensures EndsLine(Concat(lines)) <==> lines == [] || EndsLine(lines[|lines| - 1])
  {
    hide Next, Run;
    if lines == [] {
      RunNothing(s);
    } else {
      hide Concat, EndsLine;
      var n := |lines| - 1;
      var init, last := lines[..n], lines[n];
      RunConcat(s, init);
      assert lines == init + [last];
      ConcatSnoc(init, last);
      RunAppend(s, Concat(init), last);
      assert last + "" == last;
      RunLine(Run(s, Concat(init)), last, "");
      RunNothing(Next(Run(s, Concat(init)), last));
      EndsLikeItsEnd(Concat(init), last);
    }
  }

  lemma {:induction false} RunLinesTracked(s: MdState, lines: seq<string>)
    requires Tracked(s) && LinesOfText(lines)
    ensures Tracked(RunLines(s, lines))
  {
    hide Next, Tracked;
    if lines != [] {
      var n := |lines| - 1;
      RunLinesTracked(s, lines[..n]);
      NextTracked(RunLines(s, lines[..n]), lines[n]);
    }
  }

  lemma WrittenIsLine(line: string, w: string)
    requires line != "" && OneLine(line) && WrittenFrom(line, w)
    ensures w != "" && OneLine(w) && (EndsLine(w) || w == line)
  {
    if w != line {
      var p := w[..|w| - |LINE_TRUNCATED|];
      assert forall i :: 0 <= i < |p| ==> p[i] == line[i] && w[i] == p[i];
      assert forall i :: 0 <= i < |LINE_TRUNCATED| ==> w[|p| + i] == LINE_TRUNCATED[i];
      assert NoNewline(LINE_TRUNCATED[..|LINE_TRUNCATED| - 1]);
      assert forall i :: 0 <= i < |LINE_TRUNCATED| - 1 ==>
        LINE_TRUNCATED[i] == LINE_TRUNCATED[..|LINE_TRUNCATED| - 1][i];
      assert forall j :: |p| <= j < |w| - 1 ==> w[j] == LINE_TRUNCATED[j - |p|];
    }
  }

  lemma BodiesOfText(content: string, maxLen: int)
    ensures LinesOfText(Bodies(All(Fill(Lines(content), maxLen))))
    ensures EndsLine(content) && content != "" ==>
              var bodies := Bodies(All(Fill(Lines(content), maxLen)));
              bodies != [] && EndsLine(bodies[|bodies| - 1])
  {
    var lines := Lines(content);
    LinesNoEmpty(content);
    FillConserves(lines, maxLen);
    var bodies := Bodies(All(Fill(lines, maxLen)));
    hide Fill, Bodies, OneLine, EndsLine, WrittenFrom, Lines;
    forall i | 0 <= i < |lines|
      ensures bodies[i] != "" && OneLine(bodies[i]) && (i < |lines| - 1 || EndsLine(content) ==> EndsLine(bodies[i]))
    {
      LinesAreLines(content, i);
      WrittenIsLine(lines[i], bodies[i]);
    }
    if content != "" {
      NonEmptyHasLines(content);
    }
  }

  /** The lines of part i are a stretch of all the lines. */
  lemma {:induction false} BodiesAt(pieces: seq<Piece>, i: nat) returns (from: nat)
    requires i < |pieces|
    ensures from + |pieces[i].kept| <= |Bodies(pieces)|
    ensures pieces[i].kept == Bodies(pieces)[from..from + |pieces[i].kept|]
    ensures from + |pieces[i].kept| == |Bodies(pieces)| <==> forall j :: i < j < |pieces| ==> pieces[j].kept == []
  {
    var n := |pieces| - 1;
    if i == n {
      from := |Bodies(pieces[..n])|;
    } else {
      from := BodiesAt(pieces[..n], i);
      var k := |pieces[i].kept|;
      assert Bodies(pieces)[from..from + k] == Bodies(pieces[..n])[from..from + k];
      assert forall j :: i < j < n ==> pieces[..n][j] == pieces[j];
    }
  }

  /* ----- closing a part ----- */

  lemma {:induction false} RunClosersInFence(s: MdState, n: nat)
    requires s.fence != ""
    ensures Run(s, Closers(n)) == s
  {
    hide Run, Next;
    if n == 0 {
      RunNothing(s);
    } else {
      RunClosersInFence(s, n - 1);
      ClosersEndLine(n - 1);
      RunAppend(s, Closers(n - 1), DETAILS_CLOSE);
      assert DETAILS_CLOSE == "\n" + "</details>\n";
      RunTwoLines(s, "\n", "</details>\n");
      NextBlank(s);
      CloseTagInFence(s);
    }
  }

  lemma CloseTagInFence(s: MdState)
    requires s.fence != ""
    ensures Next(s, "</details>\n") == s
  {
    NotAFence("</details>\n");
    hide FenceOf, ScanTags, SummaryOf;
  }

  /** A part whose body ends its last line, or leaves no fence open, closes. */
  lemma BodyThenCloser(start: MdState, body: string, end: MdState)
    requires Tracked(end) && end == Run(start, body)
    requires EndsLine(body) || end.fence == ""
    ensures Closed(Run(start, body + Closer(end)))
  {
    hide Run, Next, Tracked;
    if EndsLine(body) {
      RunAppend(start, body, Closer(end));
      CloserCloses(end);
    } else if end.details == [] {
      assert Closer(end) == "";
      assert body + "" == body;
    } else {
      var closer := Closer(end);
      ClosersStartBlank(|end.details|);
      assert closer == Closers(|end.details|);
      assert closer == "\n" + closer[1..];
      AppendAssociates(body, "\n", closer[1..]);
      RunNewline(start, body);
      RunAppend(start, body + "\n", closer[1..]);
      RunLine(end, "\n", closer[1..]);
      NextBlank(end);
      CloserCloses(end);
    }
  }

  lemma ClosersStartBlank(n: nat)
    requires n > 0
    ensures Closers(n) != "" && Closers(n)[0] == '\n'
  {
    if n > 1 {
      ClosersStartBlank(n - 1);
    }
  }

  /** At most three blanks and then nothing but backticks. */
  predicate TicksOnly(line: string) {
    Leading(line, ' ') <= 3 && Leading(line[Leading(line, ' ')..], '`') == |line| - Leading(line, ' ')
  }

  lemma {:induction false} TickIsNoSpace(s: string)
    requires s != "" && s[|s| - 1] == '`'
    ensures LeadingSpace(s) < |s|
    decreases |s|
  {
    var w := SpaceBefore(s);
    if w > 0 {
      assert w < |s|;
      TickIsNoSpace(s[w..]);
    }
  }

  lemma TickSurvivesTrim(s: string)
    requires s != "" && s[|s| - 1] == '`'
    ensures TrimSpace(s + "\n") != ""
  {
    TrimSpaceNewline(s);
    TickIsNoSpace(s);
    hide LeadingSpace;
    var t := TrimLeft(s);
    assert t[|t| - 1] == '`';
    assert SpaceAfter(t) == 0;
  }

  predicate Closes(fence: (string, string), open: string) {
    fence.1 == "" && |fence.0| >= |open|
  }

  lemma OnlyTicksMerge(trimmed: string, fence: string)
    requires Ticks(fence) && Leading(trimmed, '`') == |trimmed|
    ensures Closes(FenceIn(trimmed + fence + "\n"), fence)
  {
    var ticks := trimmed + fence;
    assert forall i :: 0 <= i < |ticks| ==> ticks[i] == '`';
    hide Leading, TrimSpace;
    OnlyTicks(ticks);
  }

  lemma OnlyTicks(ticks: string)
    requires Ticks(ticks)
    ensures FenceIn(ticks + "\n") == (ticks, "")
  {
    hide TrimSpace;
    var line, n := ticks + "\n", |ticks|;
    assert forall i :: 0 <= i < n ==> line[i] == ticks[i];
    LeadingUnique(line, '`', n);
    hide Leading;
    assert line[n..] == "" + "\n" && line[..n] == ticks;
    TrimSpaceOfTrimmed("");
  }

  lemma DropSum(a: string, b: string, c: string, k: nat)
    requires k <= |a|
    ensures (a + b + c)[k..] == a[k..] + b + c
  {
  }

  lemma LeadingOfSum(a: string, b: string, c: char)
    requires Leading(a, c) < |a|
    ensures Leading(a + b, c) == Leading(a, c)
  {
    assert forall i :: 0 <= i < |a| ==> (a + b)[i] == a[i];
    LeadingUnique(a + b, c, Leading(a, c));
  }

  lemma RestAfterTicks(trimmed: string, fence: string)
    requires Ticks(fence) && Leading(trimmed, '`') < |trimmed|
    ensures var line, ticks := trimmed + fence + "\n", Leading(trimmed, '`');
            Leading(line, '`') == ticks && TrimSpace(line[ticks..]) != ""
  {
    hide TrimSpace, Leading;
    var ticks := Leading(trimmed, '`');
    LeadingOfSum(trimmed, fence + "\n", '`');
    AppendAssociates(trimmed, fence, "\n");
    DropSum(trimmed, fence, "\n", ticks);
    TickSurvivesTrim(trimmed[ticks..] + fence);
  }

  lemma OtherTextMerges(trimmed: string, fence: string)
    requires Ticks(fence) && Leading(trimmed, '`') < |trimmed|
    ensures !Closes(FenceIn(trimmed + fence + "\n"), fence)
    ensures Leading(trimmed, '`') >= 3 ==> FenceIn(trimmed + fence + "\n").0 != ""
  {
    RestAfterTicks(trimmed, fence);
    hide TrimSpace, Leading;
  }

  lemma MergedFenceIn(trimmed: string, fence: string)
    requires Ticks(fence)
    ensures Closes(FenceIn(trimmed + fence + "\n"), fence) <==> Leading(trimmed, '`') == |trimmed|
    ensures Leading(trimmed, '`') >= 3 ==> FenceIn(trimmed + fence + "\n").0 != ""
  {
    hide FenceIn;
    if Leading(trimmed, '`') == |trimmed| {
      OnlyTicksMerge(trimmed, fence);
    } else {
      OtherTextMerges(trimmed, fence);
    }
  }

  lemma MergedFence(line: string, fence: string)
    requires Ticks(fence)
    ensures Closes(FenceOf(line + fence + "\n"), fence) <==> TicksOnly(line)
    ensures FenceOf(line).0 != "" ==> FenceOf(line + fence + "\n").0 != ""
  {
    hide FenceIn;
    var spaces := Leading(line, ' ');
    var merged := line + fence + "\n";
    LeadingUnique(merged, ' ', spaces);
    assert merged[spaces..] == line[spaces..] + fence + "\n";
    MergedFenceIn(line[spaces..], fence);
    FenceInNeedsTicks(line[spaces..]);
    assert !Closes(("", ""), fence);
  }

  lemma FenceInNeedsTicks(trimmed: string)
    ensures FenceIn(trimmed).0 != "" ==> Leading(trimmed, '`') >= 3
  {
  }

  lemma NextFenceCases(s: MdState, line: string)
    ensures s.fence != "" ==>
        Next(s, line) == if Closes(FenceOf(line), s.fence) then s.(fence := "", fenceInfo := "") else s
    ensures s.fence == "" && FenceOf(line).0 != "" ==> Next(s, line).fence == FenceOf(line).0
    ensures s.fence == "" && Next(s, line).fence != "" ==> FenceOf(line).0 == Next(s, line).fence
  {
    hide FenceOf, ScanTags, SummaryOf, NameTop;
  }

  /**
   * A body that ends in the middle of a line, inside a fence: the closing fence lands on that
   * line. The part closes exactly if the fence was open before the line and the line is
   * nothing but the start of a fence line.
   */
  lemma FenceOnLastLine(before: MdState, last: string, end: MdState)
    requires Tracked(before) && Tracked(end) && NoNewline(last) && last != ""
    requires end == Next(before, last) && end.fence != ""
    ensures Closed(Run(before, last + Closer(end))) <==> before.fence != "" && TicksOnly(last)
  {
    hide Next, Run, FenceOf, Closers, TicksOnly;
    var merged := last + end.fence + "\n";
    var n := |end.details|;
    assert last + Closer(end) == merged + Closers(n);
    OneLineNewline(last + end.fence);
    RunLine(before, merged, Closers(n));
    var q := Next(before, merged);
    MergedFence(last, end.fence);
    NextFenceCases(before, last);
    NextFenceCases(before, merged);
    if q.fence == "" {
      RunClosers(q, n);
    } else {
      RunClosersInFence(q, n);
    }
  }

  /* ----- parts ----- */

  /** The last line of a part ends inside a fence that the closer cannot end. */
  predicate SpoilsCloser(p: Piece)
    requires p.kept != []
  {
    var n := |p.kept| - 1;
    && p.end.fence != "" && !EndsLine(p.kept[n])
    && (RunLines(p.start, p.kept[..n]).fence == "" || !TicksOnly(p.kept[n]))
  }

  lemma BodyCloses(p: Piece)
    requires Tracked(p.start) && LinesOfText(p.kept) && p.kept != []
    requires p.end == RunLines(p.start, p.kept)
    ensures Closed(Run(p.start, Concat(p.kept) + Closer(p.end))) <==> !SpoilsCloser(p)
  {
    hide Next, Run, Tracked, Closer, Concat, TicksOnly;
    var n := |p.kept| - 1;
    var init, last := p.kept[..n], p.kept[n];
    RunLinesTracked(p.start, p.kept);
    RunLinesTracked(p.start, init);
    RunConcat(p.start, p.kept);
    if EndsLine(last) || p.end.fence == "" {
      BodyThenCloser(p.start, Concat(p.kept), p.end);
    } else {
      RunConcat(p.start, init);
      assert p.kept == init + [last];
      ConcatSnoc(init, last);
      AppendAssociates(Concat(init), last, Closer(p.end));
      RunAppend(p.start, Concat(init), last + Closer(p.end));
      FenceOnLastLine(RunLines(p.start, init), last, p.end);
    }
  }

  /** Opening again, the lines, closing: balanced unless the last line spoils the closer. */
  lemma PieceStandsAlone(p: Piece)
    requires Tracked(p.start) && Carriable(p.start) && LinesOfText(p.kept) && p.kept != []
    requires p.end == RunLines(p.start, p.kept)
    ensures StandsAlone(Render(p)) <==> !SpoilsCloser(p)
  {
    hide Next, Run, Tracked, Opener, Closer, Concat, SpoilsCloser, RunLines;
    OpenerReopens(p.start);
    var rest := Concat(p.kept) + Closer(p.end);
    AppendAssociates(Opener(p.start), Concat(p.kept), Closer(p.end));
    RunAppend(EMPTY, Opener(p.start), rest);
    RunSameOpen(Run(EMPTY, Opener(p.start)), p.start, rest);
    BodyCloses(p);
  }

  lemma PieceLines(content: string, maxLen: int, i: nat)
    requires !LeftWhole(content, maxLen) && i < |Pieces(content, maxLen)|
    ensures var pieces := Pieces(content, maxLen);
            && pieces[i].kept != [] && LinesOfText(pieces[i].kept)
            && (i < |pieces| - 1 || EndsLine(content) ==> EndsLine(pieces[i].kept[|pieces[i].kept| - 1]))
  {
    var pieces := Pieces(content, maxLen);
    hide Fill, EndsLine, OneLine, Lines;
    NonEmptyHasLines(content);
    FillNoneEmpty(Lines(content), maxLen);
    BodiesOfText(content, maxLen);
    var bodies := Bodies(pieces);
    var from := BodiesAt(pieces, i);
    hide Bodies;
    var k := |pieces[i].kept|;
    assert forall j :: 0 <= j < k ==> pieces[i].kept[j] == bodies[from + j];
    assert i < |pieces| - 1 ==> from + k < |bodies| by {
      assert i < |pieces| - 1 ==> pieces[i + 1].kept != [];
    }
    assert from + k == |bodies| ==> pieces[i].kept[k - 1] == bodies[|bodies| - 1];
  }

  lemma {:induction false} PieceTracked(content: string, maxLen: int, i: nat)
    requires !LeftWhole(content, maxLen) && i < |Pieces(content, maxLen)|
    ensures Tracked(Pieces(content, maxLen)[i].start)
  {
    var pieces := Pieces(content, maxLen);
    FillChained(Lines(content), maxLen);
    hide Fill, RunLines, Tracked;
    if i == 0 {
      EmptyTracked();
    } else {
      PieceTracked(content, maxLen, i - 1);
      PieceLines(content, maxLen, i - 1);
      RunLinesTracked(pieces[i - 1].start, pieces[i - 1].kept);
    }
  }

  lemma EmptyTracked()
    ensures Tracked(EMPTY)
  {
  }

  /* ----- exactly when a part closes ----- */

  /** What closer prints for s closes t: no more is open in t, and a fence only if one is open in s. */
  predicate ClosedBy(t: MdState, s: MdState) {
    (t.fence == "" <==> s.fence == "") && |t.fence| <= |s.fence| && |t.details| <= |s.details|
  }

  lemma {:induction false} RunClosersAny(s: MdState, n: nat)
    requires s.fence == ""
    ensures Run(s, Closers(n)).fence == ""
    ensures |Run(s, Closers(n)).details| == if n <= |s.details| then |s.details| - n else 0
  {
    hide Run;
    if n <= |s.details| {
      RunClosers(s, n);
    } else {
      RunClosersAny(s, n - 1);
      ClosersEndLine(n - 1);
      RunThenCloseNothing(s, Closers(n - 1));
      assert Closers(n) == Closers(n - 1) + DETAILS_CLOSE;
    }
  }

  lemma RunThenCloseNothing(s: MdState, text: string)
    requires EndsLine(text) && Run(s, text).fence == "" && Run(s, text).details == []
    ensures Run(s, text + DETAILS_CLOSE) == Run(s, text)
  {
    hide Run, Next;
    RunAppend(s, text, DETAILS_CLOSE);
    var t := Run(s, text);
    assert DETAILS_CLOSE == "\n" + "</details>\n";
    RunTwoLines(t, "\n", "</details>\n");
    NextBlank(t);
    NextCloseNothing(t);
  }

  lemma NextCloseNothing(s: MdState)
    requires s.fence == "" && s.details == []
    ensures Next(s, "</details>\n") == s
  {
    hide Next;
    var line := "</details>\n";
    assert line[1..] == "/details>\n";
    assert line[1] != "<summary>"[1] && line[1] != "<details>"[1] && line[1] != "<details "[1];
    NextTagLine(s, line);
  }

  lemma NextTicks(t: MdState, ticks: string)
    requires Ticks(ticks)
    ensures Next(t, ticks + "\n") ==
              if t.fence == "" then t.(fence := ticks, fenceInfo := "")
              else if |ticks| >= |t.fence| then t.(fence := "", fenceInfo := "") else t
  {
    FenceLineIsFence(ticks, "");
    assert ticks + "" + "\n" == ticks + "\n";
    hide FenceOf, ScanTags, SummaryOf;
  }

  lemma ClosesExactly(t: MdState, s: MdState)
    requires Tracked(s)
    ensures Closed(Run(t, Closer(s))) <==> ClosedBy(t, s)
  {
    hide Run, Next;
    var n := |s.details|;
    var u := t;
    if s.fence == "" {
      assert Closer(s) == Closers(n);
    } else {
      OneLineNewline(s.fence);
      RunLine(t, s.fence + "\n", Closers(n));
      NextTicks(t, s.fence);
      u := Next(t, s.fence + "\n");
    }
    if u.fence == "" {
      RunClosersAny(u, n);
    } else {
      RunClosersInFence(u, n);
    }
  }

  lemma BodyThenOtherCloser(t: MdState, body: string, s: MdState)
    requires Tracked(s) && (EndsLine(body) || s.fence == "")
    ensures Run(t, body + Closer(s)) == Run(Run(t, body), Closer(s))
  {
    hide Run, Next, Tracked;
    if EndsLine(body) {
      RunAppend(t, body, Closer(s));
    } else if s.details == [] {
      assert Closer(s) == "" && body + "" == body;
      RunNothing(Run(t, body));
    } else {
      var closer := Closer(s);
      ClosersStartBlank(|s.details|);
      assert closer == "\n" + closer[1..];
      AppendAssociates(body, "\n", closer[1..]);
      RunNewline(t, body);
      RunAppend(t, body + "\n", closer[1..]);
      RunLine(Run(t, body), "\n", closer[1..]);
      NextBlank(Run(t, body));
    }
  }

  /**
   * A part stands alone exactly when its lines, read after what its opener is read as, leave open
   * no more than its closer closes. No condition on what is carried over the cut.
   */
  lemma PieceExactly(p: Piece)
    requires Tracked(p.start) && LinesOfText(p.kept) && p.kept != [] && p.end == RunLines(p.start, p.kept)
    requires EndsLine(p.kept[|p.kept| - 1]) || p.end.fence == ""
    ensures StandsAlone(Render(p)) <==> ClosedBy(RunLines(ReadBack(p.start), p.kept), p.end)
  {
    hide Next, Run, Tracked, Opener, Closer, Concat, RunLines, ReadBack, ClosedBy;
    OpenerReads(p.start);
    var body := Concat(p.kept);
    var back := ReadBack(p.start);
    AppendAssociates(Opener(p.start), body, Closer(p.end));
    RunAppend(EMPTY, Opener(p.start), body + Closer(p.end));
    RunSameOpen(Run(EMPTY, Opener(p.start)), back, body + Closer(p.end));
    RunLinesTracked(p.start, p.kept);
    RunConcat(back, p.kept);
    BodyThenOtherCloser(back, body, p.end);
    ClosesExactly(Run(back, body), p.end);
  }

  /** For every content and limit: exactly which parts stand alone, unless a fence ends in mid-line. */
  lemma PartsStandAloneExactly(content: string, maxLen: int, i: nat)
    requires !LeftWhole(content, maxLen) && i < |Pieces(content, maxLen)|
    requires i < |Pieces(content, maxLen)| - 1 || EndsLine(content) || Pieces(content, maxLen)[i].end.fence == ""
    ensures var p := Pieces(content, maxLen)[i];
            && SplitDetails(content, maxLen)[i] == Render(p)
            && (StandsAlone(Render(p)) <==> ClosedBy(RunLines(ReadBack(p.start), p.kept), p.end))
  {
    var pieces := Pieces(content, maxLen);
    FillChained(Lines(content), maxLen);
    hide Fill, RunLines, Tracked, Render, StandsAlone, EndsLine, ReadBack, ClosedBy;
    PieceLines(content, maxLen, i);
    PieceTracked(content, maxLen, i);
    PieceExactly(pieces[i]);
  }

  /**
   * Every part but the last renders on its own, and so does the last unless the content ends
   * in mid-line inside a fence, as long as what is carried over a cut can be printed.
   */
  lemma PartsStandAlone(content: string, maxLen: int)
    requires !LeftWhole(content, maxLen)
    requires forall i :: 0 <= i < |Pieces(content, maxLen)| ==> Carriable(Pieces(content, maxLen)[i].start)
    ensures var pieces, parts := Pieces(content, maxLen), SplitDetails(content, maxLen);
            && |parts| == |pieces| > 0
            && (forall i :: 0 <= i < |parts| - 1 ==> StandsAlone(parts[i]))
            && pieces[|pieces| - 1].kept != []
            && (StandsAlone(parts[|parts| - 1]) <==> !SpoilsCloser(pieces[|pieces| - 1]))
            && (EndsLine(content) ==> StandsAlone(parts[|parts| - 1]))
  {
    var pieces := Pieces(content, maxLen);
    FillChained(Lines(content), maxLen);
    hide Fill, RunLines, Tracked, Carriable, Render, StandsAlone, EndsLine;
    forall i | 0 <= i < |pieces|
      ensures pieces[i].kept != []
      ensures StandsAlone(Render(pieces[i])) <==> !SpoilsCloser(pieces[i])
      ensures i < |pieces| - 1 || EndsLine(content) ==> !SpoilsCloser(pieces[i])
    {
      PieceLines(content, maxLen, i);
      PieceTracked(content, maxLen, i);
      PieceStandsAlone(pieces[i]);
    }
  }
}
