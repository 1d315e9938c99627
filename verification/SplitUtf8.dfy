/** Valid UTF-8 in, valid UTF-8 out: no cut falls inside a rune. */
module SplitUtf8 {
  import opened Text
  import opened Utf8
  import opened Markdown
  import opened DetailsSplitter
  import opened SplitterLaws
  import opened StandAlone

  predicate Ascii(s: string) {
    forall i :: 0 <= i < |s| ==> s[i] <= '\U{7F}'
  }

  lemma {:induction false} AfterAscii(s: string, k: nat)
    requires Valid(s) && k <= |s| && Ascii(s[..k])
    ensures Valid(s[k..])
    decreases k
  {
    if k == 0 {
      assert s[0..] == s;
    } else {
      assert s[..k][0] == s[0];
      assert s[1..][..k - 1] == s[..k][1..];
      AfterAscii(s[1..], k - 1);
      assert s[1..][k - 1..] == s[k..];
    }
  }

  lemma StartsAtRune(s: string)
    requires Valid(s) && s != ""
    ensures RuneStart(s[0])
  {
  }

  lemma {:induction false} LeadingSpaceValid(s: string)
    requires Valid(s)
    ensures Valid(s[LeadingSpace(s)..])
    decreases |s|
  {
    hide Valid, RuneWidth, SpaceBefore, LeadingSpace;
    LeadingSpaceStep(s);
    var w := SpaceBefore(s);
    if w == 0 {
      assert s[0..] == s;
    } else {
      SpaceIsRune(s);
      SpaceIsInside(s);
      ValidStep(s);
      LeadingSpaceValid(s[w..]);
      assert s[w..][LeadingSpace(s[w..])..] == s[w + LeadingSpace(s[w..])..];
    }
  }

  lemma SpaceIsRune(s: string)
    requires SpaceBefore(s) > 0
    ensures RuneWidth(s) == SpaceBefore(s)
  {
  }

  lemma SpaceIsInside(s: string)
    ensures SpaceBefore(s) <= |s|
  {
  }

  lemma SpaceStartsRune(s: string)
    requires SpaceAfter(s) > 0
    ensures RuneStart(s[|s| - SpaceAfter(s)])
  {
  }

  lemma {:induction false} TrimRightValid(s: string)
    requires Valid(s)
    ensures Valid(TrimRight(s))
    decreases |s|
  {
    if SpaceAfter(s) > 0 {
      SpaceStartsRune(s);
      hide SpaceAfter, Valid;
      ValidCut(s, |s| - SpaceAfter(s));
      TrimRightValid(s[..|s| - SpaceAfter(s)]);
    }
  }

  lemma TrimSpaceValid(s: string)
    requires Valid(s)
    ensures Valid(TrimSpace(s))
  {
    hide Valid, LeadingSpace, TrimRight;
    LeadingSpaceValid(s);
    TrimRightValid(TrimLeft(s));
  }

  lemma LeadingValid(s: string, c: char)
    requires Valid(s) && c <= '\U{7F}'
    ensures Valid(s[Leading(s, c)..]) && Valid(s[..Leading(s, c)])
  {
    hide Valid, Leading;
    AfterAscii(s, Leading(s, c));
    AsciiIsValid(s[..Leading(s, c)]);
  }

  lemma FenceValid(line: string)
    requires Valid(line)
    ensures Valid(FenceOf(line).0) && Valid(FenceOf(line).1)
  {
    AsciiIsValid("");
    hide Valid, Leading, TrimSpace;
    LeadingValid(line, ' ');
    var trimmed := line[Leading(line, ' ')..];
    LeadingValid(trimmed, '`');
    TrimSpaceValid(trimmed[Leading(trimmed, '`')..]);
  }

  lemma FoundAt(s: string, pattern: string, r: nat)
    requires Valid(s) && r <= |s| && pattern <= s[r..] && pattern != "" && Ascii(pattern)
    ensures Valid(s[..r]) && Valid(s[r + |pattern|..])
  {
    hide Valid;
    assert s[r] == s[r..][0] == pattern[0];
    ValidCut(s, r);
    assert s[r..][..|pattern|] == pattern;
    AfterAscii(s[r..], |pattern|);
    assert s[r..][|pattern|..] == s[r + |pattern|..];
  }

  lemma SummaryValid(line: string)
    requires Valid(line) && SummaryOf(line).Some?
    ensures Valid(SummaryOf(line).value)
  {
    hide Valid, IndexOf;
    var open := IndexOf(line, "<summary>");
    FoundAt(line, "<summary>", open);
    var rest := line[open + 9..];
    FoundAt(rest, "</summary>", IndexOf(rest, "</summary>"));
  }

  predicate ValidNames(details: seq<OpenDetails>) {
    forall i :: 0 <= i < |details| ==> Valid(details[i].summary)
  }

  predicate ValidState(s: MdState) {
    Valid(s.fence) && Valid(s.fenceInfo) && ValidNames(s.details)
  }

  lemma {:induction false} ScanValid(s: string, details: seq<OpenDetails>)
    requires ValidNames(details)
    ensures ValidNames(ScanTags(s, details))
  {
    if s != "" {
      AsciiIsValid("");
      hide Valid;
      ScanValid(s[1..], ScanHere(s, details));
    }
  }

  lemma NameTopValid(details: seq<OpenDetails>, summary: Option<string>)
    requires ValidNames(details) && (summary.Some? ==> Valid(summary.value))
    ensures ValidNames(NameTop(details, summary))
  {
    hide Valid, CutAtRune;
    if summary.Some? {
      CutAtRuneKeepsRunes(summary.value, MAX_CARRIED_SUMMARY);
    }
  }

  lemma NextOfValid(s: MdState, fence: (string, string), details: seq<OpenDetails>, summary: Option<string>)
    requires ValidState(s) && Valid(fence.0) && Valid(fence.1) && ValidNames(details)
    requires summary.Some? ==> Valid(summary.value)
    ensures ValidState(NextOf(s, fence, details, summary))
  {
    AsciiIsValid("");
    hide Valid, NameTop, ValidNames;
    NameTopValid(details, summary);
  }

  lemma NextValid(s: MdState, line: string)
    requires ValidState(s) && Valid(line)
    ensures ValidState(Next(s, line))
  {
    hide FenceOf, ScanTags, SummaryOf, Valid, NextOf, ValidNames;
    FenceValid(line);
    ScanValid(line, s.details);
    if SummaryOf(line).Some? {
      SummaryValid(line);
    }
    NextOfValid(s, FenceOf(line), ScanTags(line, s.details), SummaryOf(line));
  }

  predicate ValidLines(lines: seq<string>) {
    forall i :: 0 <= i < |lines| ==> Valid(lines[i])
  }

  lemma {:induction false} RunLinesValid(s: MdState, lines: seq<string>)
    requires ValidState(s) && ValidLines(lines)
    ensures ValidState(RunLines(s, lines))
  {
    if lines != [] {
      hide ValidState, Valid, Next;
      RunLinesValid(s, lines[..|lines| - 1]);
      NextValid(RunLines(s, lines[..|lines| - 1]), lines[|lines| - 1]);
    }
  }

  lemma {:induction false} ConcatValid(pieces: seq<string>)
    requires ValidLines(pieces)
    ensures Valid(Concat(pieces))
  {
    if pieces != [] {
      hide Valid;
      ConcatValid(pieces[1..]);
      ValidAppend(pieces[0], Concat(pieces[1..]));
    }
  }

  lemma {:induction false} LinesValid(s: string)
    requires Valid(s)
    ensures ValidLines(Lines(s))
    decreases |s|
  {
    if s != "" {
      hide Valid;
      var k := LineEnd(s);
      if k < |s| {
        ValidCut(s, k - 1);
        assert s[k - 1..][..1] == "\n";
        AfterAscii(s[k - 1..], 1);
        assert s[k - 1..][1..] == s[k..];
        StartsAtRune(s[k..]);
        ValidCut(s, k);
        LinesValid(s[k..]);
      } else {
        assert s[..k] == s && Lines(s[k..]) == [];
      }
    }
  }

  lemma WrittenValid(line: string, w: string)
    requires Valid(line) && WrittenFrom(line, w)
    ensures Valid(w)
  {
    AsciiIsValid("");
    hide Valid;
    if w != line {
      var p := w[..|w| - |LINE_TRUNCATED|];
      if p != "" {
        ValidCut(line, |p|);
        assert line[..|p|] == p;
      }
      AsciiIsValid(LINE_TRUNCATED);
      ValidAppend(p, LINE_TRUNCATED);
    }
  }

  lemma {:induction false} ClosersValid(n: nat)
    ensures Valid(Closers(n))
  {
    if n > 0 {
      hide Valid;
      ClosersValid(n - 1);
      AsciiIsValid(DETAILS_CLOSE);
      ValidAppend(Closers(n - 1), DETAILS_CLOSE);
    }
  }

  lemma CloserValid(s: MdState)
    requires ValidState(s)
    ensures Valid(Closer(s))
  {
    AsciiIsValid("");
    hide Valid, Closers;
    ClosersValid(|s.details|);
    AsciiIsValid("\n");
    ValidAppend(s.fence, "\n");
    if s.fence != "" {
      ValidAppend(s.fence + "\n", Closers(|s.details|));
    } else {
      ValidAppend("", Closers(|s.details|));
    }
  }

  lemma SummaryLineValid(x: string)
    requires Valid(x)
    ensures Valid(SummaryLine(x))
  {
    hide Valid;
    AsciiIsValid("<summary>");
    AsciiIsValid(" (continued)</summary>\n");
    ValidAppend("<summary>", x);
    ValidAppend("<summary>" + x, " (continued)</summary>\n");
  }

  lemma OpenerOfValid(d: OpenDetails)
    requires Valid(d.summary)
    ensures Valid(OpenerOf(d))
  {
    hide Valid, SummaryLine;
    SummaryLineValid(d.summary);
    AsciiIsValid("<details>\n");
    AsciiIsValid("\n");
    ValidAppend(SummaryLine(d.summary), "\n");
    ValidAppend("<details>\n", SummaryLine(d.summary) + "\n");
    assert "<details>\n" + "" == "<details>\n";
  }

  lemma {:induction false} OpenersValid(details: seq<OpenDetails>)
    requires ValidNames(details)
    ensures Valid(Openers(details))
  {
    if details != [] {
      hide Valid, OpenerOf;
      OpenersValid(details[..|details| - 1]);
      OpenerOfValid(details[|details| - 1]);
      ValidAppend(Openers(details[..|details| - 1]), OpenerOf(details[|details| - 1]));
    }
  }

  lemma OpenerValid(s: MdState)
    requires ValidState(s)
    ensures Valid(Opener(s))
  {
    AsciiIsValid("");
    hide Valid, Openers;
    OpenersValid(s.details);
    AsciiIsValid("\n");
    ValidAppend(s.fence, s.fenceInfo);
    ValidAppend(s.fence + s.fenceInfo, "\n");
    ValidAppend(Openers(s.details), FenceLine(s));
  }

  lemma KeptValid(content: string, maxLen: int, i: nat)
    requires Valid(content) && i < |Pieces(content, maxLen)|
    ensures ValidLines(Pieces(content, maxLen)[i].kept)
  {
    var pieces := Pieces(content, maxLen);
    var bodies, kept := Bodies(pieces), pieces[i].kept;
    LinesNoEmpty(content);
    LinesValid(content);
    FillConserves(Lines(content), maxLen);
    var from := BodiesAt(pieces, i);
    hide Fill, WrittenFrom, Bodies, Lines, Valid;
    forall k | 0 <= k < |kept|
      ensures Valid(kept[k])
    {
      assert kept[k] == bodies[from + k];
      WrittenValid(Lines(content)[from + k], kept[k]);
    }
  }

  lemma {:induction false} PieceStartValid(content: string, maxLen: int, i: nat)
    requires Valid(content) && i < |Pieces(content, maxLen)|
    ensures ValidState(Pieces(content, maxLen)[i].start) && ValidState(Pieces(content, maxLen)[i].end)
  {
    var pieces := Pieces(content, maxLen);
    FillChained(Lines(content), maxLen);
    AsciiIsValid("");
    hide Fill, RunLines, Valid;
    if i > 0 {
      PieceStartValid(content, maxLen, i - 1);
    }
    KeptValid(content, maxLen, i);
    RunLinesValid(pieces[i].start, pieces[i].kept);
  }

  /** Parts of valid UTF-8 are valid UTF-8, whatever the limit. */
  lemma SplitKeepsRunes(content: string, maxLen: int)
    requires Valid(content)
    ensures ValidLines(SplitDetails(content, maxLen))
  {
    hide Valid, Pieces, Opener, Closer, Concat;
    var pieces := Pieces(content, maxLen);
    forall i | 0 <= i < |pieces|
      ensures Valid(Render(pieces[i]))
    {
      PieceStartValid(content, maxLen, i);
      KeptValid(content, maxLen, i);
      OpenerValid(pieces[i].start);
      CloserValid(pieces[i].end);
      ConcatValid(pieces[i].kept);
      ValidAppend(Opener(pieces[i].start), Concat(pieces[i].kept));
      ValidAppend(Buffer(pieces[i]), Closer(pieces[i].end));
    }
  }
}
