/** How much of the content splitDetailsAtLines keeps: whole lines where they fit, and most of those that do not. */
module KeptText {
  import opened Text
  import opened Utf8
  import opened Markdown
  import opened DetailsSplitter
  import opened SplitterLaws
  import opened TameContent
  import opened SplitUtf8
  import opened RoomyContent

  /** What is open after the line, or after any cut of it with the mark, closes within c bytes. */
  ghost predicate ClosersWithin(s: MdState, line: string, c: nat) {
    && |Closer(Next(s, line))| <= c
    && forall n :: 0 <= n <= |line| ==> |Closer(Next(s, line[..n] + LINE_TRUNCATED))| <= c
  }

  /** A prefix of the line, perhaps all of it, that ends where a rune does, with the mark after it. */
  ghost predicate MarkedPrefix(line: string, w: string, n: nat) {
    n <= |line| && w == line[..n] + LINE_TRUNCATED && Valid(line[..n])
  }

  lemma MarkIsValid()
    ensures Valid(LINE_TRUNCATED)
  {
    hide Valid;
    AsciiIsValid(LINE_TRUNCATED);
  }

  /** One cut of the line, or of what an earlier cut left of it, loses no more than part of a rune. */
  lemma CutKeeps(line: string, cur: string, room: int) returns (n: nat)
    requires Valid(line) && (cur == line || exists k: nat :: MarkedPrefix(line, cur, k))
    requires |LINE_TRUNCATED| <= room < |cur|
    ensures MarkedPrefix(line, Truncated(cur, room), n) && room - 3 <= |Truncated(cur, room)| <= room
  {
    hide Valid, CutAtRune, LINE_TRUNCATED;
    var m := room - |LINE_TRUNCATED|;
    MarkIsValid();
    if cur != line {
      var k: nat :| MarkedPrefix(line, cur, k);
      ValidAppend(line[..k], LINE_TRUNCATED);
    }
    CutAtRuneIsLongest(cur, m);
    CutAtRuneKeepsRunes(cur, m);
    n := |CutAtRune(cur, m)|;
    assert CutAtRune(cur, m) == cur[..n] == line[..n];
  }

  /**
   * The lower bound: a line is written whole, or as a prefix with the mark that is at most the
   * closer and three bytes short of the limit.
   */
  lemma {:induction false} ShortenKeeps(s: MdState, line: string, cur: string, used: nat, maxLen: int, c: nat)
    requires Valid(line) && (cur == line || exists k: nat :: MarkedPrefix(line, cur, k))
    requires ClosersWithin(s, line, c) && |LINE_TRUNCATED| <= maxLen - used - c
    ensures var w := Shorten(s, cur, used, maxLen);
            w == cur || (|w| >= maxLen - used - c - 3 && exists n: nat :: MarkedPrefix(line, w, n))
    decreases |cur|
  {
    hide Valid, Shorten, Truncated, Closer, Next, LINE_TRUNCATED;
    ShortenStep(s, cur, used, maxLen);
    CloserLength(Next(s, cur));
    var room := Room(s, cur, used, maxLen);
    assert room >= maxLen - used - c;
    if |cur| > room {
      var n := CutKeeps(line, cur, room);
      ShortenKeeps(s, line, Truncated(cur, room), used, maxLen, c);
    }
  }

  /* ----- line by line ----- */

  /** What is written of the line: all of it, or a marked prefix of at least so many bytes. */
  ghost predicate KeptOf(line: string, w: string, atLeast: int) {
    w == line || (|w| >= atLeast && exists n: nat :: MarkedPrefix(line, w, n))
  }

  lemma AddLineKeeps(s: Split, line: string, maxLen: int, c: nat) returns (w: string)
    requires Valid(line) && line != "" && (s.open.kept == [] ==> Buffer(s.open) == Opener(s.open.end))
    requires ClosersWithin(s.open.end, line, c) && |LINE_TRUNCATED| <= maxLen - |Opener(s.open.end)| - c
    ensures Bodies(All(AddLine(s, line, maxLen))) == Bodies(All(s)) + [w]
    ensures KeptOf(line, w, maxLen - |Opener(s.open.end)| - c - 3)
  {
    hide Valid, Shorten, Opener, Buffer, Bodies, Next, CloserLen, ClosersWithin, LINE_TRUNCATED;
    var t, e := AddLine(s, line, maxLen), s.open.end;
    BodiesSnoc(s.done, s.open);
    BodiesSnoc(t.done, t.open);
    BufferOfFresh(e);
    var p := if Overflows(s.open, line, maxLen) then Piece(e, [], e) else s.open;
    w := Shorten(e, line, |Buffer(p)|, maxLen);
    if p.kept == [] {
      ShortenKeeps(e, line, line, |Opener(e)|, maxLen, c);
    } else {
      ShortenWrites(e, line, |Buffer(p)|, maxLen);
    }
  }

  lemma {:induction false} BodiesSoFar(lines: seq<string>, maxLen: int, i: nat)
    requires NoEmptyLine(lines) && i < |lines|
    ensures |Bodies(All(Fill(lines, maxLen)))| == |lines| && |Bodies(All(Fill(lines[..i + 1], maxLen)))| == i + 1
    ensures Bodies(All(Fill(lines, maxLen)))[i] == Bodies(All(Fill(lines[..i + 1], maxLen)))[i]
  {
    hide AddLine, Bodies, WrittenFrom;
    FillCount(lines, maxLen);
    FillCount(lines[..i + 1], maxLen);
    var n := |lines| - 1;
    if i < n {
      assert lines[..n][..i + 1] == lines[..i + 1];
      BodiesSoFar(lines[..n], maxLen, i);
      var w := AddLineBodies(Fill(lines[..n], maxLen), lines[n], maxLen);
    } else {
      assert lines[..i + 1] == lines;
    }
  }

  /** Told from the state in which the splitter comes to the line. */
  lemma FillKeeps(lines: seq<string>, maxLen: int, i: nat, c: nat)
    requires NoEmptyLine(lines) && i < |lines| && Valid(lines[i])
    requires var e := Fill(lines[..i], maxLen).open.end;
             ClosersWithin(e, lines[i], c) && |LINE_TRUNCATED| <= maxLen - |Opener(e)| - c
    ensures var e := Fill(lines[..i], maxLen).open.end;
            |Bodies(All(Fill(lines, maxLen)))| == |lines| &&
              KeptOf(lines[i], Bodies(All(Fill(lines, maxLen)))[i], maxLen - |Opener(e)| - c - 3)
  {
    hide Fill, AddLine, Bodies, Opener, Buffer, ClosersWithin, KeptOf, Valid, LINE_TRUNCATED;
    BodiesSoFar(lines, maxLen, i);
    EmptyPartIsStart(lines[..i], maxLen);
    FillCount(lines[..i], maxLen);
    FillStep(lines, i, maxLen);
    var w := AddLineKeeps(Fill(lines[..i], maxLen), lines[i], maxLen, c);
  }

  /* ----- told from the content and the limit ----- */

  /** The bytes that what is open in the content takes around the lines of a part, at most. */
  function Around(lines: seq<string>): int {
    OpenTags(lines) * BLOCK_BYTES + 2 * (LongestFence(lines) + 1)
  }

  lemma MarkedCutBounded(s: MdState, line: string, n: nat, k: nat, f: nat)
    requires Bounded(s, k, f) && n <= |line| && !IsFence(line)
    ensures Bounded(Next(s, line[..n] + LINE_TRUNCATED), k + TagsHere(s.fence, line), f)
  {
    hide FenceOf, TagCount, Next, Bounded;
    var w := line[..n] + LINE_TRUNCATED;
    NoFenceInPrefix(line, line[..n]);
    CountInPrefix(line, line[..n]);
    hide LINE_TRUNCATED;
    NextBounded(s, w, k, f);
    BoundedMore(Next(s, w), k + TagsHere(s.fence, w), f, k + TagsHere(s.fence, line), f);
  }

  lemma BoundedCloses(s: MdState, t: MdState, k: nat, f: nat)
    requires Bounded(s, k, f) && Bounded(t, k, f)
    ensures |Opener(s)| + |Closer(t)| <= k * BLOCK_BYTES + 2 * (f + 1)
  {
    hide Bounded, BLOCK_BYTES, Opener, Closer;
    CloserLength(t);
    hide CloserLen;
    AroundBounded(s, t, k, f);
  }

  lemma RoomyClosers(s: MdState, line: string, k: nat, f: nat) returns (c: nat)
    requires Bounded(s, k, f) && !IsFence(line)
    ensures ClosersWithin(s, line, c) && |Opener(s)| + c <= (k + TagsHere(s.fence, line)) * BLOCK_BYTES + 2 * (f + 1)
  {
    hide Bounded, BLOCK_BYTES, Opener, Closer, Next, TagsHere, IsFence, LINE_TRUNCATED;
    var l := k + TagsHere(s.fence, line);
    BoundedMore(s, k, f, l, f);
    NextBounded(s, line, k, f);
    BoundedCloses(s, Next(s, line), l, f);
    c := l * BLOCK_BYTES + 2 * (f + 1) - |Opener(s)|;
    forall n | 0 <= n <= |line|
      ensures |Closer(Next(s, line[..n] + LINE_TRUNCATED))| <= c
    {
      MarkedCutBounded(s, line, n, k, f);
      BoundedCloses(s, Next(s, line[..n] + LINE_TRUNCATED), l, f);
    }
  }

  lemma {:induction false} PrefixNeeds(lines: seq<string>, n: nat)
    requires n <= |lines|
    ensures OpenTags(lines[..n]) <= OpenTags(lines) && LongestFence(lines[..n]) <= LongestFence(lines)
    ensures Needs(lines[..n]) <= Needs(lines)
  {
    hide OpenTags, LongestFence, Needs;
    if n == |lines| {
      assert lines[..n] == lines;
    } else {
      NeedsLess(lines);
      var init := lines[..|lines| - 1];
      assert init[..n] == lines[..n];
      PrefixNeeds(init, n);
    }
  }

  lemma AroundMore(k: nat, f: nat, lines: seq<string>)
    requires k <= OpenTags(lines) && f <= LongestFence(lines)
    ensures k * BLOCK_BYTES + 2 * (f + 1) <= Around(lines)
  {
    hide OpenTags, LongestFence, BLOCK_BYTES;
    ProductGrows(k, OpenTags(lines), BLOCK_BYTES);
  }

  /**
   * Under a limit with room, every line is kept whole, or all of it but what the limit has no room
   * for: what is open around it, the mark, and part of a rune.
   */
  lemma RoomyKeeps(content: string, maxLen: int, i: nat)
    requires Roomy(content, maxLen) && Valid(content) && i < |Lines(content)|
    ensures var lines, bodies := Lines(content), Bodies(Pieces(content, maxLen));
            |bodies| == |lines| && KeptOf(lines[i], bodies[i], maxLen - Around(lines) - 3)
  {
    hide Lines, Fill, Bodies, Valid, Needs, Around, KeptOf;
    LinesNoEmpty(content);
    LinesValid(content);
    RoomyLineKeeps(Lines(content), maxLen, i);
  }

  lemma RoomyLineKeeps(lines: seq<string>, maxLen: int, i: nat)
    requires Needs(lines) <= maxLen && NoEmptyLine(lines) && i < |lines| && Valid(lines[i])
    ensures var bodies := Bodies(All(Fill(lines, maxLen)));
            |bodies| == |lines| && KeptOf(lines[i], bodies[i], maxLen - Around(lines) - 3)
  {
    hide Fill, Bodies, Valid, Opener, Buffer, ClosersWithin, LINE_TRUNCATED, BLOCK_BYTES, IsFence, FencesFit, RunLines;
    var e, init := Fill(lines[..i], maxLen).open.end, lines[..i];
    var k, f := OpenTags(init), LongestFence(init);
    PrefixNeeds(lines, i);
    PrefixNeeds(lines, i + 1);
    RoomyFill(init, maxLen);
    hide Bounded;
    if IsFence(lines[i]) {
      FenceIsWhole(lines, maxLen, i);
    } else {
      FillFollows(init, maxLen);
      var c := RoomyClosers(e, lines[i], k, f);
      assert lines[..i + 1][..i] == init && lines[..i + 1][i] == lines[i];
      assert OpenTags(lines[..i + 1]) == k + TagsHere(e.fence, lines[i]);
      hide OpenTags, LongestFence, TagsHere;
      AroundMore(k + TagsHere(e.fence, lines[i]), f, lines);
      FillKeeps(lines, maxLen, i, c);
    }
  }

  /** A fence line is written whole. */
  lemma FenceIsWhole(lines: seq<string>, maxLen: int, i: nat)
    requires Needs(lines) <= maxLen && NoEmptyLine(lines) && i < |lines| && IsFence(lines[i])
    ensures var bodies := Bodies(All(Fill(lines, maxLen))); |bodies| == |lines| && bodies[i] == lines[i]
  {
    hide Fill, Bodies, Opener, Buffer, Needs, IsFence, AddLine, CloserLen, Next;
    BodiesSoFar(lines, maxLen, i);
    EmptyPartIsStart(lines[..i], maxLen);
    FillCount(lines[..i], maxLen);
    FillStep(lines, i, maxLen);
    RoomyFill(lines, maxLen);
    AddLineWhole(Fill(lines[..i], maxLen), lines[i], maxLen);
  }
}
