/** Content whose every cut can be carried over, told from its lines alone. */
module TameContent {
  import opened Text
  import opened Utf8
  import opened Markdown
  import opened MarkdownLaws
  import opened DetailsSplitter
  import opened SplitterLaws
  import opened StandAlone

  predicate NoTick(s: string) {
    forall i :: 0 <= i < |s| ==> s[i] != '`'
  }

  predicate TameInfo(trimmed: string) {
    Leading(trimmed, '`') >= 3 ==> NoTick(trimmed[Leading(trimmed, '`')..])
  }

  /** Section 4.5 of CommonMark 0.31.2: the info string of a backtick fence holds no backtick. */
  predicate TameFence(line: string) {
    Leading(line, ' ') <= 3 ==> TameInfo(line[Leading(line, ' ')..])
  }

  predicate NoTagStart(s: string) {
    forall i :: 0 <= i < |s| ==> !("<details" <= s[i..]) && !("</details>" <= s[i..])
  }

  predicate TameSummary(line: string) {
    SummaryOf(line).Some? ==> NoTagStart(SummaryOf(line).value)
  }

  /** A fence line has no backtick in its info string, and a one line summary holds no details tag. */
  predicate TameLine(line: string) {
    TameFence(line) && TameSummary(line)
  }

  /* ----- a truncated line stays tame ----- */

  lemma OccursInBoth(a: string, b: string, n: nat, j: nat, pattern: string)
    requires n <= |a| && n <= |b| && a[..n] == b[..n] && j + |pattern| <= n
    ensures pattern <= a[j..] <==> pattern <= b[j..]
  {
    assert a[j..][..|pattern|] == a[..n][j..j + |pattern|];
    assert b[j..][..|pattern|] == b[..n][j..j + |pattern|];
  }

  lemma EndsBeforeTail(p: string, tail: string, pattern: string, r: nat)
    requires pattern != "" && r <= |p + tail| && pattern <= (p + tail)[r..]
    requires forall i :: 0 <= i < |tail| ==> tail[i] != pattern[|pattern| - 1]
    ensures r + |pattern| <= |p|
  {
    var last := r + |pattern| - 1;
    assert (p + tail)[last] == (p + tail)[r..][|pattern| - 1] == pattern[|pattern| - 1];
    assert forall i :: |p| <= i < |p + tail| ==> (p + tail)[i] == tail[i - |p|];
  }

  lemma IndexInPrefix(line: string, p: string, tail: string, pattern: string)
    requires p <= line && pattern != "" && forall i :: 0 <= i < |tail| ==> tail[i] != pattern[|pattern| - 1]
    requires IndexOf(p + tail, pattern) >= 0
    ensures var r := IndexOf(p + tail, pattern);
            r + |pattern| <= |p| && IndexOf(line, pattern) == r
  {
    var w := p + tail;
    var r := IndexOf(w, pattern);
    hide IndexOf;
    EndsBeforeTail(p, tail, pattern, r);
    assert w[..|p|] == p == line[..|p|];
    forall j | 0 <= j <= r
      ensures pattern <= line[j..] <==> pattern <= w[j..]
    {
      OccursInBoth(line, w, |p|, j, pattern);
    }
    IndexOfUnique(line, pattern, r);
  }

  lemma MarkHasNoAngle()
    ensures forall i :: 0 <= i < |LINE_TRUNCATED| ==> LINE_TRUNCATED[i] != '>'
    ensures NoTick(LINE_TRUNCATED)
    ensures Leading(LINE_TRUNCATED, ' ') == 0 && Leading(LINE_TRUNCATED, '`') == 0
  {
  }

  lemma SummaryInPrefix(line: string, p: string)
    requires p <= line && SummaryOf(p + LINE_TRUNCATED).Some?
    ensures SummaryOf(line) == SummaryOf(p + LINE_TRUNCATED)
  {
    hide IndexOf;
    MarkHasNoAngle();
    var w := p + LINE_TRUNCATED;
    IndexInPrefix(line, p, LINE_TRUNCATED, "<summary>");
    var open := IndexOf(w, "<summary>");
    assert w[open + 9..] == p[open + 9..] + LINE_TRUNCATED;
    IndexInPrefix(line[open + 9..], p[open + 9..], LINE_TRUNCATED, "</summary>");
    var close := IndexOf(w[open + 9..], "</summary>");
    assert line[open + 9..][..close] == w[open + 9..][..close];
  }

  lemma LeadingInPrefix(line: string, p: string, tail: string, c: char)
    requires p <= line && Leading(tail, c) == 0
    ensures Leading(p + tail, c) == if |p| <= Leading(line, c) then |p| else Leading(line, c)
  {
    var n := Leading(line, c);
    var w := p + tail;
    var m := if |p| <= n then |p| else n;
    assert forall i :: 0 <= i < m ==> w[i] == line[i];
    assert m < |p| ==> w[m] == line[m];
    assert m == |p| && tail != "" ==> w[m] == tail[0];
    LeadingUnique(w, c, m);
  }

  lemma MarkIsTame()
    ensures TameInfo(LINE_TRUNCATED)
  {
    MarkHasNoAngle();
  }

  lemma InfoInPrefix(trimmed: string, q: string)
    requires q <= trimmed && TameInfo(trimmed)
    ensures TameInfo(q + LINE_TRUNCATED)
  {
    MarkHasNoAngle();
    LeadingInPrefix(trimmed, q, LINE_TRUNCATED, '`');
    hide Leading;
    var ticks := Leading(trimmed, '`');
    if |q| <= ticks {
      assert (q + LINE_TRUNCATED)[|q|..] == LINE_TRUNCATED;
    } else {
      assert (q + LINE_TRUNCATED)[ticks..] == q[ticks..] + LINE_TRUNCATED;
      assert forall i :: 0 <= i < |q[ticks..]| ==> q[ticks..][i] == trimmed[ticks..][i];
    }
  }

  lemma FenceInPrefix(line: string, p: string)
    requires p <= line && TameFence(line)
    ensures TameFence(p + LINE_TRUNCATED)
  {
    MarkHasNoAngle();
    MarkIsTame();
    LeadingInPrefix(line, p, LINE_TRUNCATED, ' ');
    hide Leading, TameInfo;
    var spaces := Leading(line, ' ');
    if |p| <= spaces {
      assert (p + LINE_TRUNCATED)[|p|..] == LINE_TRUNCATED;
    } else if spaces <= 3 {
      assert (p + LINE_TRUNCATED)[spaces..] == p[spaces..] + LINE_TRUNCATED;
      InfoInPrefix(line[spaces..], p[spaces..]);
    }
  }

  lemma WrittenStaysTame(line: string, w: string)
    requires TameLine(line) && WrittenFrom(line, w)
    ensures TameLine(w)
  {
    hide TameFence, SummaryOf;
    if w != line {
      var p := w[..|w| - |LINE_TRUNCATED|];
      FenceInPrefix(line, p);
      if SummaryOf(w).Some? {
        SummaryInPrefix(line, p);
      }
    }
  }

  /* ----- tame lines keep the state clean ----- */

  lemma {:induction false} ScanKeepsClean(s: string, details: seq<OpenDetails>)
    requires CleanSummaries(details)
    ensures CleanSummaries(ScanTags(s, details))
  {
    if s != "" {
      hide CleanSummary;
      ScanKeepsClean(s[1..], ScanHere(s, details));
    }
  }

  lemma CleanPrefix(text: string, x: string)
    requires NoTagStart(text) && x <= text
    ensures CleanSummary(x)
  {
    var y := x + " ";
    forall i | 0 <= i < |y|
      ensures !StartsTag(y[i..])
    {
      if i < |x| {
        assert forall j :: 0 <= j < |x| - i ==> y[i..][j] == text[i..][j];
        if StartsTag(y[i..]) {
          assert y[i..][|x| - i] == ' ';
          TagNeedsText(y[i..], text[i..], |x| - i);
          assert false;
        }
      } else {
        assert y[i..] == " ";
      }
    }
  }

  /** A tag found in n bytes of text and one blank starts in the text. */
  lemma TagNeedsText(y: string, text: string, n: nat)
    requires |y| == n + 1 && y[n] == ' ' && n <= |text| && forall j :: 0 <= j < n ==> y[j] == text[j]
    requires StartsTag(y)
    ensures "<details" <= text || "</details>" <= text
  {
    if ClosesTag(y) {
      assert n >= 10;
      assert text[..10] == y[..10];
    } else {
      assert y[..8] == "<details";
      assert n >= 8;
      assert text[..8] == y[..8];
    }
  }

  lemma TameInfoNoTick(trimmed: string)
    requires TameInfo(trimmed)
    ensures NoTick(FenceIn(trimmed).1)
  {
    hide TrimSpace;
    var ticks := Leading(trimmed, '`');
    if ticks >= 3 {
      var rest := trimmed[ticks..];
      var k := TrimSpacePart(rest);
      assert forall i :: 0 <= i < |TrimSpace(rest)| ==> TrimSpace(rest)[i] == rest[k + i];
    }
  }

  lemma TameFenceNoTick(line: string)
    requires TameFence(line)
    ensures NoTick(FenceOf(line).1)
  {
    hide FenceIn, TameInfo;
    if Leading(line, ' ') <= 3 {
      TameInfoNoTick(line[Leading(line, ' ')..]);
    }
  }

  lemma NextClean(s: MdState, line: string)
    requires Clean(s) && TameLine(line)
    ensures Clean(Next(s, line))
  {
    hide FenceOf, ScanTags, SummaryOf, CutAtRune, CleanSummary, TameFence, NoTagStart;
    TameFenceNoTick(line);
    ScanKeepsClean(line, s.details);
    var summary := SummaryOf(line);
    if summary.Some? {
      CutAtRuneIsLongest(summary.value, MAX_CARRIED_SUMMARY);
      CleanPrefix(summary.value, CutAtRune(summary.value, MAX_CARRIED_SUMMARY));
    }
  }

  lemma {:induction false} RunLinesClean(s: MdState, lines: seq<string>)
    requires Clean(s) && forall i :: 0 <= i < |lines| ==> TameLine(lines[i])
    ensures Clean(RunLines(s, lines))
  {
    if lines != [] {
      hide Next, Clean, TameLine;
      RunLinesClean(s, lines[..|lines| - 1]);
      NextClean(RunLines(s, lines[..|lines| - 1]), lines[|lines| - 1]);
    }
  }

  ghost predicate Tame(content: string) {
    forall i :: 0 <= i < |Lines(content)| ==> TameLine(Lines(content)[i])
  }

  lemma KeptTame(content: string, maxLen: int, i: nat)
    requires Tame(content) && i < |Pieces(content, maxLen)|
    ensures forall k :: 0 <= k < |Pieces(content, maxLen)[i].kept| ==> TameLine(Pieces(content, maxLen)[i].kept[k])
  {
    var pieces := Pieces(content, maxLen);
    var bodies, kept := Bodies(pieces), pieces[i].kept;
    LinesNoEmpty(content);
    FillConserves(Lines(content), maxLen);
    var from := BodiesAt(pieces, i);
    hide Fill, TameLine, WrittenFrom, Bodies, Lines;
    forall k | 0 <= k < |kept|
      ensures TameLine(kept[k])
    {
      assert kept[k] == bodies[from + k];
      WrittenStaysTame(Lines(content)[from + k], kept[k]);
    }
  }

  lemma {:induction false} PieceClean(content: string, maxLen: int, i: nat)
    requires Tame(content) && i < |Pieces(content, maxLen)|
    ensures Clean(Pieces(content, maxLen)[i].start)
  {
    var pieces := Pieces(content, maxLen);
    FillChained(Lines(content), maxLen);
    hide Fill, RunLines, Clean, TameLine, Tame;
    if i == 0 {
      EmptyClean();
    } else {
      PieceClean(content, maxLen, i - 1);
      KeptTame(content, maxLen, i - 1);
      RunLinesClean(pieces[i - 1].start, pieces[i - 1].kept);
    }
  }

  lemma EmptyClean()
    ensures Clean(EMPTY)
  {
  }

  /** What tame content carries over a cut is read back as it was. */
  lemma PieceCarriable(content: string, maxLen: int, i: nat)
    requires Tame(content) && i < |Pieces(content, maxLen)|
    ensures Carriable(Pieces(content, maxLen)[i].start)
  {
    hide Pieces, Clean, Carriable, Tame;
    PieceClean(content, maxLen, i);
    CleanIsCarriable(Pieces(content, maxLen)[i].start);
  }

  /**
   * Tame content is cut into parts that all render on their own, unless it ends in the middle of
   * a line inside a fence, and then still all but the last.
   */
  lemma TameContentStandsAlone(content: string, maxLen: int)
    requires Tame(content) && !LeftWhole(content, maxLen)
    ensures var pieces, parts := Pieces(content, maxLen), SplitDetails(content, maxLen);
            var last := |pieces| - 1;
            && |parts| == |pieces| > 0 && pieces[last].kept != []
            && (forall i :: 0 <= i < last ==> StandsAlone(parts[i]))
            && (StandsAlone(parts[last]) <==> !SpoilsCloser(pieces[last]))
            && (EndsLine(content) || pieces[last].end.fence == "" ==> AllStandAlone(parts))
  {
    hide Pieces, Carriable, StandsAlone, EndsLine, Tame, SplitDetails, SpoilsCloser;
    var pieces := Pieces(content, maxLen);
    forall i | 0 <= i < |pieces|
      ensures Carriable(pieces[i].start)
    {
      PieceCarriable(content, maxLen, i);
    }
    PartsStandAlone(content, maxLen);
    SpoiledInFence(pieces[|pieces| - 1]);
  }

  lemma SpoiledInFence(p: Piece)
    requires p.kept != []
    ensures SpoilsCloser(p) ==> p.end.fence != ""
  {
    hide RunLines, TicksOnly;
  }

  /* ----- content without a fence ----- */

  predicate NoFenceLine(content: string) {
    forall i :: 0 <= i < |Lines(content)| ==> FenceOf(Lines(content)[i]).0 == ""
  }

  lemma NoFenceInPrefix(line: string, p: string)
    requires p <= line && FenceOf(line).0 == ""
    ensures FenceOf(p + LINE_TRUNCATED).0 == ""
  {
    hide TrimSpace;
    MarkHasNoAngle();
    var spaces, w := Leading(line, ' '), p + LINE_TRUNCATED;
    LeadingInPrefix(line, p, LINE_TRUNCATED, ' ');
    if |p| <= spaces {
      assert w[|p|..] == LINE_TRUNCATED;
    } else {
      assert w[spaces..] == p[spaces..] + LINE_TRUNCATED;
      LeadingInPrefix(line[spaces..], p[spaces..], LINE_TRUNCATED, '`');
    }
  }

  lemma NoFenceRuns(s: MdState, lines: seq<string>)
    requires s.fence == "" && forall i :: 0 <= i < |lines| ==> FenceOf(lines[i]).0 == ""
    ensures RunLines(s, lines).fence == ""
  {
    hide FenceOf, ScanTags, SummaryOf;
  }

  lemma KeptNoFence(content: string, maxLen: int, i: nat)
    requires NoFenceLine(content) && i < |Pieces(content, maxLen)|
    ensures var kept := Pieces(content, maxLen)[i].kept; forall k :: 0 <= k < |kept| ==> FenceOf(kept[k]).0 == ""
  {
    var pieces := Pieces(content, maxLen);
    var bodies, kept := Bodies(pieces), pieces[i].kept;
    LinesNoEmpty(content);
    FillConserves(Lines(content), maxLen);
    var from := BodiesAt(pieces, i);
    hide Fill, FenceOf, Bodies, Lines;
    forall k | 0 <= k < |kept|
      ensures FenceOf(kept[k]).0 == ""
    {
      var line, w := Lines(content)[from + k], kept[k];
      assert w == bodies[from + k] && WrittenFrom(line, w);
      if w != line {
        NoFenceInPrefix(line, w[..|w| - |LINE_TRUNCATED|]);
      }
    }
  }

  /** So no part ends inside one. */
  lemma {:induction false} PieceNoFence(content: string, maxLen: int, i: nat)
    requires NoFenceLine(content) && i < |Pieces(content, maxLen)|
    ensures Pieces(content, maxLen)[i].end.fence == ""
  {
    var pieces := Pieces(content, maxLen);
    FillChained(Lines(content), maxLen);
    hide Fill, RunLines, NoFenceLine, FenceOf;
    if i > 0 {
      PieceNoFence(content, maxLen, i - 1);
    }
    KeptNoFence(content, maxLen, i);
    NoFenceRuns(pieces[i].start, pieces[i].kept);
  }
}
