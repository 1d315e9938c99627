/** What splitDetailsAtLines promises: nothing lost, nothing too long, every part readable on its own. */
module SplitterLaws {
  import opened Text
  import opened Utf8
  import opened Markdown
  import opened DetailsSplitter

  function All(s: Split): seq<Piece> {
    s.done + [s.open]
  }

  /** The lines of the parts, without what opener and closer print. */
  function Bodies(pieces: seq<Piece>): seq<string> {
    if pieces == [] then [] else Bodies(pieces[..|pieces| - 1]) + pieces[|pieces| - 1].kept
  }

  lemma BodiesSnoc(pieces: seq<Piece>, p: Piece)
    ensures Bodies(pieces + [p]) == Bodies(pieces) + p.kept
  {
    assert (pieces + [p])[..|pieces|] == pieces;
  }

  /* ----- conservation ----- */

  /** w is the line, or a proper prefix of it that ends before a rune, with the mark after it. */
  predicate WrittenFrom(line: string, w: string) {
    || w == line
    || (&& |w| >= |LINE_TRUNCATED|
        && var p := w[..|w| - |LINE_TRUNCATED|];
           w == p + LINE_TRUNCATED && p <= line && |p| < |line| && (p == "" || RuneStart(line[|p|])))
  }

  lemma ShortenStep(s: MdState, line: string, used: nat, maxLen: int)
    ensures var room := Room(s, line, used, maxLen);
            Shorten(s, line, used, maxLen) ==
              if |line| <= room then line
              else if room < |LINE_TRUNCATED| then LINE_TRUNCATED
              else Shorten(s, Truncated(line, room), used, maxLen)
  {
  }

  lemma TruncatedIsShorter(line: string, room: int)
    requires |LINE_TRUNCATED| <= room < |line|
    ensures 0 < |Truncated(line, room)| <= room
  {
    CutAtRuneIsLongest(line, room - |LINE_TRUNCATED|);
  }

  predicate Written(s: MdState, line: string, w: string, used: nat, maxLen: int) {
    && WrittenFrom(line, w)
    && (|w| <= |line| || w == LINE_TRUNCATED)
    && (|w| <= Room(s, w, used, maxLen) || w == LINE_TRUNCATED)
  }

  lemma {:induction false} ShortenWrites(s: MdState, line: string, used: nat, maxLen: int)
    requires line != ""
    ensures Written(s, line, Shorten(s, line, used, maxLen), used, maxLen)
    ensures |line| <= Room(s, line, used, maxLen) ==> Shorten(s, line, used, maxLen) == line
    decreases |line|
  {
    hide Room, Shorten, Truncated;
    ShortenStep(s, line, used, maxLen);
    var room := Room(s, line, used, maxLen);
    if |line| > room {
      if room < |LINE_TRUNCATED| {
        assert LINE_TRUNCATED == "" + LINE_TRUNCATED;
      } else {
        var shorter := Truncated(line, room);
        TruncatedIsShorter(line, room);
        ShortenWrites(s, shorter, used, maxLen);
        CutTwice(line, room, Shorten(s, shorter, used, maxLen));
      }
    }
  }

  lemma CutTwice(line: string, room: int, w: string)
    requires |LINE_TRUNCATED| <= room < |line|
    requires WrittenFrom(Truncated(line, room), w)
    requires |w| <= |Truncated(line, room)| || w == LINE_TRUNCATED
    ensures WrittenFrom(line, w)
  {
    CutAtRuneIsLongest(line, room - |LINE_TRUNCATED|);
    CutAgain(line, CutAtRune(line, room - |LINE_TRUNCATED|), w);
  }

  lemma CutAgain(line: string, cut: string, w: string)
    requires cut <= line && |cut| < |line| && (cut == "" || RuneStart(line[|cut|]))
    requires WrittenFrom(cut + LINE_TRUNCATED, w)
    requires |w| <= |cut + LINE_TRUNCATED| || w == LINE_TRUNCATED
    ensures WrittenFrom(line, w)
  {
    var shorter := cut + LINE_TRUNCATED;
    if w == shorter {
      assert w[..|w| - |LINE_TRUNCATED|] == cut;
    } else {
      var p := w[..|w| - |LINE_TRUNCATED|];
      assert p == shorter[..|p|] == cut[..|p|] == line[..|p|];
      assert p == cut ==> w == shorter;
      assert |p| < |cut|;
      assert shorter[|p|] == line[|p|];
    }
  }

  lemma StartBodies()
    ensures Bodies(All(START)) == []
  {
    BodiesSnoc(START.done, START.open);
  }

  predicate NoEmptyLine(lines: seq<string>) {
    forall i :: 0 <= i < |lines| ==> lines[i] != ""
  }

  lemma LinesNoEmpty(content: string)
    ensures NoEmptyLine(Lines(content))
  {
    forall i | 0 <= i < |Lines(content)|
      ensures Lines(content)[i] != ""
    {
      LinesAreLines(content, i);
    }
  }

  ghost predicate Conserves(lines: seq<string>, bodies: seq<string>) {
    |bodies| == |lines| && forall i :: 0 <= i < |lines| ==> WrittenFrom(lines[i], bodies[i])
  }

  lemma AddLineBodies(s: Split, line: string, maxLen: int) returns (w: string)
    requires line != ""
    ensures WrittenFrom(line, w)
    ensures Bodies(All(AddLine(s, line, maxLen))) == Bodies(All(s)) + [w]
  {
    hide Shorten, Opener, Buffer, WrittenFrom, Bodies, Overflows;
    var t := AddLine(s, line, maxLen);
    BodiesSnoc(s.done, s.open);
    BodiesSnoc(t.done, t.open);
    var p := if Overflows(s.open, line, maxLen) then Piece(s.open.end, [], s.open.end) else s.open;
    w := Shorten(p.end, line, |Buffer(p)|, maxLen);
    ShortenWrites(p.end, line, |Buffer(p)|, maxLen);
  }

  lemma ConservesSnoc(lines: seq<string>, bodies: seq<string>, line: string, w: string)
    requires Conserves(lines, bodies) && WrittenFrom(line, w)
    ensures Conserves(lines + [line], bodies + [w])
  {
  }

  /** Line for line, the parts hold the content; a line too long for a part of its own is cut and marked. */
  lemma {:induction false} FillConserves(lines: seq<string>, maxLen: int)
    requires NoEmptyLine(lines)
    ensures Conserves(lines, Bodies(All(Fill(lines, maxLen))))
  {
    hide AddLine, Bodies;
    StartBodies();
    if lines != [] {
      hide Conserves;
      var n := |lines| - 1;
      var s := Fill(lines[..n], maxLen);
      FillConserves(lines[..n], maxLen);
      var w := AddLineBodies(s, lines[n], maxLen);
      ConservesSnoc(lines[..n], Bodies(All(s)), lines[n], w);
      assert lines[..n] + [lines[n]] == lines;
    }
  }

  /** Each part starts with what the one before it left open, and ends with what its lines leave open. */
  predicate Chained(pieces: seq<Piece>) {
    && (pieces != [] ==> pieces[0].start == EMPTY)
    && (forall i :: 0 <= i < |pieces| ==> pieces[i].end == RunLines(pieces[i].start, pieces[i].kept))
    && (forall i :: 0 < i < |pieces| ==> pieces[i].start == pieces[i - 1].end)
  }

  lemma RunLinesSnoc(s: MdState, lines: seq<string>, line: string)
    ensures RunLines(s, lines + [line]) == Next(RunLines(s, lines), line)
  {
    assert (lines + [line])[..|lines|] == lines;
  }

  lemma PutChains(p: Piece, line: string, maxLen: int)
    requires p.end == RunLines(p.start, p.kept)
    ensures var q := Put(p, line, maxLen);
            q.start == p.start && q.end == RunLines(q.start, q.kept) && |q.kept| == |p.kept| + 1
  {
    hide Shorten, Next, RunLines;
    RunLinesSnoc(p.start, p.kept, Shorten(p.end, line, |Buffer(p)|, maxLen));
  }

  lemma AddLineChains(s: Split, line: string, maxLen: int)
    requires Chained(All(s))
    ensures Chained(All(AddLine(s, line, maxLen)))
  {
    hide Put, Overflows, Next;
    var blank := Piece(s.open.end, [], s.open.end);
    assert All(s)[|s.done|] == s.open;
    PutChains(blank, line, maxLen);
    PutChains(s.open, line, maxLen);
    var t := AddLine(s, line, maxLen);
    assert forall i :: 0 <= i < |s.done| ==> All(s)[i] == s.done[i] == t.done[i];
    assert forall i :: 0 <= i < |t.done| ==> All(t)[i] == t.done[i];
  }

  lemma {:induction false} FillChained(lines: seq<string>, maxLen: int)
    ensures Chained(All(Fill(lines, maxLen)))
  {
    hide AddLine, Chained;
    if lines == [] {
      StartChained();
    } else {
      FillChained(lines[..|lines| - 1], maxLen);
      AddLineChains(Fill(lines[..|lines| - 1], maxLen), lines[|lines| - 1], maxLen);
    }
  }

  lemma StartChained()
    ensures Chained(All(START))
  {
  }

  predicate NoneEmpty(pieces: seq<Piece>) {
    forall i :: 0 <= i < |pieces| ==> pieces[i].kept != []
  }

  lemma AddLineNoneEmpty(s: Split, line: string, maxLen: int)
    requires NoneEmpty(s.done)
    ensures var t := AddLine(s, line, maxLen); NoneEmpty(t.done) && t.open.kept != []
  {
    hide Shorten, Next, Buffer, CloserLen;
  }

  /** Every part holds a line. */
  lemma {:induction false} FillNoneEmpty(lines: seq<string>, maxLen: int)
    ensures lines == [] ==> Fill(lines, maxLen) == START
    ensures NoneEmpty(Fill(lines, maxLen).done)
    ensures lines != [] ==> NoneEmpty(All(Fill(lines, maxLen)))
  {
    hide AddLine;
    if lines != [] {
      FillNoneEmpty(lines[..|lines| - 1], maxLen);
      AddLineNoneEmpty(Fill(lines[..|lines| - 1], maxLen), lines[|lines| - 1], maxLen);
    }
  }

  /* ----- the byte limit ----- */

  predicate Fits(p: Piece, maxLen: int) {
    |Render(p)| <= maxLen
  }

  /** A part that holds nothing but the mark, because even that does not fit what must be reopened and closed. */
  predicate OnlyTheMark(p: Piece) {
    p.kept == [LINE_TRUNCATED] && p.end == p.start
  }

  lemma PutFits(p: Piece, line: string, maxLen: int)
    requires line != "" && !Overflows(p, line, maxLen)
    requires p.kept == [] ==> p.start == p.end
    ensures Fits(Put(p, line, maxLen), maxLen) || OnlyTheMark(Put(p, line, maxLen))
  {
    ShortenWrites(p.end, line, |Buffer(p)|, maxLen);
    var w := Shorten(p.end, line, |Buffer(p)|, maxLen);
    hide Next, Shorten;
    BufferStep(p, w);
    CloserLength(Next(p.end, w));
    MarkerChangesNothing(p.end);
  }

  predicate AllFit(pieces: seq<Piece>, maxLen: int) {
    forall i :: 0 <= i < |pieces| ==> Fits(pieces[i], maxLen) || OnlyTheMark(pieces[i])
  }

  lemma {:induction false} FillFits(lines: seq<string>, maxLen: int)
    requires NoEmptyLine(lines) && lines != []
    ensures AllFit(All(Fill(lines, maxLen)), maxLen)
  {
    hide Fits, OnlyTheMark, Put, Overflows;
    var n := |lines| - 1;
    var s := Fill(lines[..n], maxLen);
    var blank := Piece(s.open.end, [], s.open.end);
    FillNoneEmpty(lines[..n], maxLen);
    FreshTakesAny(START.open, lines[n], maxLen);
    if n > 0 {
      FillFits(lines[..n], maxLen);
      assert All(s)[|s.done|] == s.open;
      assert forall i :: 0 <= i < |s.done| ==> All(s)[i] == s.done[i];
    }
    if Overflows(s.open, lines[n], maxLen) {
      FreshTakesAny(blank, lines[n], maxLen);
      PutFits(blank, lines[n], maxLen);
    } else {
      PutFits(s.open, lines[n], maxLen);
    }
  }

  lemma FreshTakesAny(p: Piece, line: string, maxLen: int)
    requires p.kept == []
    ensures !Overflows(p, line, maxLen)
  {
  }

  /** Bytes a part needs around its lines when it starts and ends in state s, the mark included. */
  function Overhead(s: MdState): nat {
    |Opener(s)| + |LINE_TRUNCATED| + CloserLen(s)
  }

  /** The limit has room for the mark in every state a part starts in. */
  predicate MarkFits(content: string, maxLen: int) {
    forall i :: 0 <= i < |Pieces(content, maxLen)| ==> Overhead(Pieces(content, maxLen)[i].start) <= maxLen
  }

  predicate NoneLonger(parts: seq<string>, maxLen: int) {
    forall i :: 0 <= i < |parts| ==> |parts[i]| <= maxLen
  }

  /** No part is longer than the limit, if the limit has room for the mark. */
  lemma PartsFit(content: string, maxLen: int)
    requires !LeftWhole(content, maxLen) && MarkFits(content, maxLen)
    ensures NoneLonger(SplitDetails(content, maxLen), maxLen)
  {
    var pieces := Pieces(content, maxLen);
    NonEmptyHasLines(content);
    LinesNoEmpty(content);
    FillFits(Lines(content), maxLen);
    hide Pieces, Overhead, Render, OnlyTheMark;
    forall i | 0 <= i < |pieces|
      ensures |Render(pieces[i])| <= maxLen
    {
      if OnlyTheMark(pieces[i]) {
        MarkLength(pieces[i]);
      }
    }
  }

  /** A part over the limit is the mark alone, between an opener and a closer that leave no room for it. */
  lemma OverlongPart(content: string, maxLen: int, i: nat)
    requires !LeftWhole(content, maxLen) && i < |Pieces(content, maxLen)|
    ensures var p := Pieces(content, maxLen)[i];
            |Render(p)| > maxLen ==>
              Render(p) == Opener(p.start) + LINE_TRUNCATED + Closer(p.start) && Overhead(p.start) > maxLen
  {
    var p := Pieces(content, maxLen)[i];
    NonEmptyHasLines(content);
    LinesNoEmpty(content);
    FillFits(Lines(content), maxLen);
    hide Fill, Render, Overhead, OnlyTheMark;
    if OnlyTheMark(p) {
      MarkLength(p);
    }
  }

  lemma MarkLength(p: Piece)
    requires OnlyTheMark(p)
    ensures Render(p) == Opener(p.start) + LINE_TRUNCATED + Closer(p.start)
    ensures |Render(p)| == Overhead(p.start)
  {
    hide Opener, Closer, CloserLen;
    CloserLength(p.end);
    assert Concat(p.kept[1..]) == "";
    assert Concat(p.kept) == LINE_TRUNCATED;
  }

  /* ----- cuts only where they are needed ----- */

  lemma FillCount(lines: seq<string>, maxLen: int)
    requires NoEmptyLine(lines)
    ensures |Bodies(All(Fill(lines, maxLen)))| == |lines|
  {
    FillConserves(lines, maxLen);
  }

  lemma {:induction false} CutsWhereOverflows(lines: seq<string>, maxLen: int, i: nat)
    requires NoEmptyLine(lines) && i < |Fill(lines, maxLen).done|
    ensures var pieces := Fill(lines, maxLen).done;
            var j := |Bodies(pieces[..i + 1])|;
            j < |lines| && Overflows(pieces[i], lines[j], maxLen)
  {
    hide Put, Overflows;
    var n := |lines| - 1;
    var s := Fill(lines[..n], maxLen);
    var t := Fill(lines, maxLen);
    if i < |s.done| {
      CutsWhereOverflows(lines[..n], maxLen, i);
      assert t.done[..i + 1] == s.done[..i + 1];
    } else {
      FillCount(lines[..n], maxLen);
      assert t.done[..i + 1] == All(s);
    }
  }

  /** A part ends early only because its limit has no room for the line after it and the closer then needed. */
  lemma CutsOnlyWhenFull(lines: seq<string>, maxLen: int, i: nat)
    requires NoEmptyLine(lines) && i < |Fill(lines, maxLen).done|
    ensures var pieces := Fill(lines, maxLen).done;
            var p, j := pieces[i], |Bodies(pieces[..i + 1])|;
            && j < |lines| && p.kept != []
            && |Opener(p.start) + Concat(p.kept) + lines[j] +
                 Closer(Next(RunLines(p.start, p.kept), lines[j]))| > maxLen
  {
    CutsWhereOverflows(lines, maxLen, i);
    FillChained(lines, maxLen);
    hide Fill, Bodies, RunLines, Next, Opener, Closer, CloserLen;
    var pieces := Fill(lines, maxLen).done;
    assert All(Fill(lines, maxLen))[i] == pieces[i];
    CloserLength(Next(pieces[i].end, lines[|Bodies(pieces[..i + 1])|]));
  }

  /** Content is left whole exactly if it fits, or nothing does. */
  lemma LeftWholeExactly(content: string, maxLen: int)
    ensures maxLen <= 0 || |content| <= maxLen ==> SplitDetails(content, maxLen) == [content]
    ensures maxLen > 0 && |content| > maxLen ==> SplitDetails(content, maxLen) == RenderAll(Pieces(content, maxLen))
  {
  }

  /* ----- lossless ----- */

  /** Every line fits a part of its own, between the opener and the closer its place in the content asks for. */
  ghost predicate EveryLineFits(lines: seq<string>, maxLen: int) {
    forall i :: 0 <= i < |lines| ==>
      |Opener(RunLines(EMPTY, lines[..i]))| + |lines[i]| + CloserLen(RunLines(EMPTY, lines[..i + 1])) <= maxLen
  }

  lemma EveryLineFitsPrefix(lines: seq<string>, maxLen: int)
    requires EveryLineFits(lines, maxLen) && lines != []
    ensures EveryLineFits(lines[..|lines| - 1], maxLen)
  {
    var init := lines[..|lines| - 1];
    forall i | 0 <= i < |init|
      ensures |Opener(RunLines(EMPTY, init[..i]))| + |init[i]| + CloserLen(RunLines(EMPTY, init[..i + 1])) <= maxLen
    {
      assert init[..i] == lines[..i] && init[..i + 1] == lines[..i + 1];
    }
  }

  lemma PutWhole(p: Piece, line: string, maxLen: int)
    requires line != "" && |line| <= Room(p.end, line, |Buffer(p)|, maxLen)
    ensures Put(p, line, maxLen) == Piece(p.start, p.kept + [line], Next(p.end, line))
  {
    ShortenWrites(p.end, line, |Buffer(p)|, maxLen);
  }

  lemma AddLineWhole(s: Split, line: string, maxLen: int)
    requires line != "" && (s.open.kept == [] ==> Buffer(s.open) == Opener(s.open.end))
    requires |Opener(s.open.end)| + |line| + CloserLen(Next(s.open.end, line)) <= maxLen
    ensures var t := AddLine(s, line, maxLen);
            Bodies(All(t)) == Bodies(All(s)) + [line] && t.open.end == Next(s.open.end, line)
  {
    hide Next, CloserLen, Opener, Put, Buffer;
    var t := AddLine(s, line, maxLen);
    var blank := Piece(s.open.end, [], s.open.end);
    BufferOfFresh(s.open.end);
    if Overflows(s.open, line, maxLen) {
      PutWhole(blank, line, maxLen);
    } else {
      PutWhole(s.open, line, maxLen);
    }
    BodiesSnoc(t.done, t.open);
    BodiesSnoc(s.done, s.open);
  }

  lemma {:induction false} FillLossless(lines: seq<string>, maxLen: int)
    requires NoEmptyLine(lines) && EveryLineFits(lines, maxLen)
    ensures var s := Fill(lines, maxLen); Bodies(All(s)) == lines && s.open.end == RunLines(EMPTY, lines)
  {
    hide Next, CloserLen, Opener, AddLine, Bodies, Buffer;
    StartBodies();
    if lines != [] {
      var n := |lines| - 1;
      var s, line := Fill(lines[..n], maxLen), lines[n];
      EveryLineFitsPrefix(lines, maxLen);
      FillLossless(lines[..n], maxLen);
      assert lines[..n + 1] == lines;
      EmptyPartIsStart(lines[..n], maxLen);
      AddLineWhole(s, line, maxLen);
      assert lines[..n] + [line] == lines;
    }
  }

  lemma EmptyPartIsStart(lines: seq<string>, maxLen: int)
    ensures var s := Fill(lines, maxLen); s.open.kept == [] ==> Buffer(s.open) == Opener(s.open.end)
  {
    FillNoneEmpty(lines, maxLen);
    NothingOpens();
    assert Openers([]) == "";
    assert lines != [] ==> All(Fill(lines, maxLen))[|Fill(lines, maxLen).done|].kept != [];
  }

  /** When every line fits, the parts hold the content byte for byte. */
  lemma SplitIsLossless(content: string, maxLen: int)
    requires EveryLineFits(Lines(content), maxLen)
    ensures Concat(Bodies(Pieces(content, maxLen))) == content
  {
    LinesNoEmpty(content);
    FillLossless(Lines(content), maxLen);
    LinesConcat(content);
  }
}
