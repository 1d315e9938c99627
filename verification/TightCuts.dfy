/** When cutShort finds a cut that it can close, and when it does not. */
module TightCuts {
  import opened Text
  import opened Utf8
  import opened Markdown
  import opened MarkdownLaws
  import opened Comments
  import opened CommentLaws
  import opened ContainedText

  /** The loop, started with some room, comes to r. */
  predicate Visits(markdown: string, room: int, r: int, budget: int)
    decreases room
  {
    r == room || (room > 0 && Over(markdown, room, budget) > 0 &&
      Visits(markdown, room - Over(markdown, room, budget), r, budget))
  }

  /** What closes the cut for r is shorter than the budget and what the cut leaves of r. */
  predicate LeavesRoom(markdown: string, r: int, budget: int) {
    var cut := CutAtRune(markdown, r);
    |CutCloser(cut)| < budget + r - |cut|
  }

  ghost predicate AllLeaveRoom(markdown: string, room: int, budget: int) {
    room > 0 && forall r :: Visits(markdown, room, r, budget) && r > 0 ==> LeavesRoom(markdown, r, budget)
  }

  /** A cut that the loop comes to, closed and noted. */
  predicate IsClosedCut(markdown: string, text: string, r: int) {
    var cut := CutAtRune(markdown, r);
    text == cut + CutCloser(cut) + CUT_SHORT_NOTE
  }

  lemma {:induction false} CutShortFromExactly(markdown: string, room: int, maxLen: int)
    ensures var budget, text := maxLen - |CUT_SHORT_NOTE|, CutShortFrom(markdown, room, maxLen);
            if AllLeaveRoom(markdown, room, budget) then
              exists r :: Visits(markdown, room, r, budget) && IsClosedCut(markdown, text, r)
            else text == CutAtRune(markdown, maxLen)
    decreases room
  {
    hide CutAtRune, CutCloser, CUT_SHORT_NOTE;
    var budget := maxLen - |CUT_SHORT_NOTE|;
    var over := Over(markdown, room, budget);
    if room > 0 {
      assert Visits(markdown, room, room, budget);
      if over > 0 {
        CutShortFromExactly(markdown, room - over, maxLen);
        VisitsNext(markdown, room, budget);
      } else {
        VisitsLast(markdown, room, budget);
        assert IsClosedCut(markdown, CutShortFrom(markdown, room, maxLen), room);
      }
    }
  }

  lemma VisitsNext(markdown: string, room: int, budget: int)
    requires room > 0 && Over(markdown, room, budget) > 0
    ensures var next := room - Over(markdown, room, budget);
            && (forall r :: Visits(markdown, room, r, budget) <==> r == room || Visits(markdown, next, r, budget))
            && (AllLeaveRoom(markdown, room, budget) <==> AllLeaveRoom(markdown, next, budget))
  {
    hide CutAtRune, CutCloser;
    var next := room - Over(markdown, room, budget);
    assert Visits(markdown, room, room, budget);
    assert LeavesRoom(markdown, room, budget) <==> next > 0;
  }

  lemma VisitsLast(markdown: string, room: int, budget: int)
    requires room > 0 && Over(markdown, room, budget) <= 0
    ensures AllLeaveRoom(markdown, room, budget)
  {
    hide CutAtRune, CutCloser;
  }

  /**
   * cutShort closes a cut that it comes to, and so leaves nothing open, if and only if no closer on the way takes up
   * the budget; otherwise it is the bare cut.
   */
  lemma CutShortExactly(markdown: string, maxLen: int)
    ensures var budget, text := maxLen - |CUT_SHORT_NOTE|, CutShort(markdown, maxLen);
            if AllLeaveRoom(markdown, budget, budget) then
              StandsAlone(text) && exists r :: Visits(markdown, budget, r, budget) && IsClosedCut(markdown, text, r)
            else text == CutAtRune(markdown, maxLen)
  {
    hide CutShortFrom, AllLeaveRoom, StandsAlone, CutCloser, CutAtRune, Visits, CUT_SHORT_NOTE;
    var budget, text := maxLen - |CUT_SHORT_NOTE|, CutShort(markdown, maxLen);
    CutShortFromExactly(markdown, budget, maxLen);
    if AllLeaveRoom(markdown, budget, budget) {
      var r :| Visits(markdown, budget, r, budget) && IsClosedCut(markdown, text, r);
      TrackedFromStart(CutAtRune(markdown, r));
      ClosedCutStandsAlone(CutAtRune(markdown, r));
    }
  }

  /* ----- how much is kept ----- */

  /** No closer on the way is longer than this. */
  ghost predicate ClosersUpTo(markdown: string, room: int, budget: int, longest: nat) {
    forall r :: Visits(markdown, room, r, budget) && r > 0 ==> |CutCloser(CutAtRune(markdown, r))| <= longest
  }

  lemma {:induction false} LastRoomIsLarge(markdown: string, room: int, budget: int, longest: nat, least: int)
    returns (r: int)
    requires AllLeaveRoom(markdown, room, budget) && ClosersUpTo(markdown, room, budget, longest)
    requires budget - longest <= least <= room
    ensures r >= budget - longest && Visits(markdown, room, r, budget) && r > 0 && Over(markdown, r, budget) <= 0
    ensures CutShortFrom(markdown, room, budget + |CUT_SHORT_NOTE|) ==
            CutAtRune(markdown, r) + CutCloser(CutAtRune(markdown, r)) + CUT_SHORT_NOTE
    decreases room
  {
    hide CutAtRune, CutCloser, CUT_SHORT_NOTE, LeavesRoom;
    CutAtRuneIsLongest(markdown, room);
    assert Visits(markdown, room, room, budget);
    var over := Over(markdown, room, budget);
    if over > 0 {
      VisitsNext(markdown, room, budget);
      r := LastRoomIsLarge(markdown, room - over, budget, longest, budget - longest);
    } else {
      r := room;
    }
  }

  /**
   * What is kept: where the loop finds a cut, all of the limit but the note, the longest closer on
   * the way and part of a rune goes to the text.
   */
  lemma CutShortKeeps(markdown: string, maxLen: int, longest: nat) returns (n: nat)
    requires var budget := maxLen - |CUT_SHORT_NOTE|;
             && AllLeaveRoom(markdown, budget, budget) && ClosersUpTo(markdown, budget, budget, longest)
             && Valid(markdown) && budget <= |markdown|
    ensures n <= |markdown| && n >= maxLen - |CUT_SHORT_NOTE| - longest - 3
    ensures CutShort(markdown, maxLen) == markdown[..n] + "\n" + Closer(Run(EMPTY, markdown[..n])) + CUT_SHORT_NOTE
  {
    hide CutShortFrom, AllLeaveRoom, ClosersUpTo, CutAtRune, Visits, CUT_SHORT_NOTE, Run, Closer, Valid;
    var budget := maxLen - |CUT_SHORT_NOTE|;
    var r := LastRoomIsLarge(markdown, budget, budget, longest, budget - longest);
    VisitsSmaller(markdown, budget, r, budget);
    CutAtRuneIsLongest(markdown, r);
    CutAtRuneKeepsRunes(markdown, r);
    n := |CutAtRune(markdown, r)|;
    assert markdown[..n] == CutAtRune(markdown, r);
    var a, b := "\n", Closer(Run(EMPTY, markdown[..n]));
    assert markdown[..n] + (a + b) == markdown[..n] + a + b;
  }

  lemma {:induction false} VisitsSmaller(markdown: string, room: int, r: int, budget: int)
    requires Visits(markdown, room, r, budget)
    ensures r <= room
    decreases room
  {
    hide CutAtRune, CutCloser;
    if r != room {
      VisitsSmaller(markdown, room - Over(markdown, room, budget), r, budget);
    }
  }

  /* ----- a cut that is missed ----- */

  /** k opening tags one after another. */
  function Openings(k: nat): string {
    if k == 0 then "" else "<details>" + Openings(k - 1)
  }

  lemma {:induction false} OpeningsDepth(k: nat, rest: string, n: nat)
    requires NoAngle(rest)
    ensures TagDepth(Openings(k) + rest, n) == n + k
  {
    hide TagDepth;
    if k == 0 {
      assert "" + rest == rest;
      NoAngleDepth(rest, n);
    } else {
      AppendAssociates("<details>", Openings(k - 1), rest);
      OpenDepth(Openings(k - 1) + rest, n);
      OpeningsDepth(k - 1, rest, n + 1);
    }
  }

  lemma {:induction false} OpeningsLine(k: nat)
    ensures |Openings(k)| == 9 * k && NoNewline(Openings(k)) && (k > 0 ==> Openings(k)[0] == '<')
    ensures forall i :: 0 <= i < |Openings(k)| ==> RuneStart(Openings(k)[i])
  {
    if k > 0 {
      OpeningsLine(k - 1);
      assert NoNewline("<details>") && forall i :: 0 <= i < 9 ==> RuneStart("<details>"[i]);
    }
  }

  /** One line with so many opening tags. */
  lemma OpeningsRun(k: nat, rest: string)
    requires k > 0 && NoAngle(rest) && NoNewline(rest)
    ensures var s := Run(EMPTY, Openings(k) + rest); s.fence == "" && |s.details| == k
  {
    hide Run, Next, TagDepth, FenceOf;
    OpeningsLine(k);
    OpeningsDepth(k, rest, 0);
    hide Openings;
    var line := Openings(k) + rest;
    JoinOneLine(Openings(k), rest);
    NotAFence(line);
    NextDepth(EMPTY, line);
    assert line + "" == line && OneLine(line);
    RunLine(EMPTY, line, "");
    RunNothing(Next(EMPTY, line));
  }

  lemma CutBeforeRune(s: string, n: nat)
    requires n < |s| && RuneStart(s[n])
    ensures CutAtRune(s, n) == s[..n]
  {
  }

  /**
   * After k opening tags the closer takes more than they do: under a limit that just has room for them and the note
   * cutShort gives up and leaves all of them open, although a cut after the first byte could be closed.
   */
  lemma ShorterCutIsMissed(k: nat, rest: string)
    requires k > 0 && |rest| > |CUT_SHORT_NOTE| && NoAngle(rest) && NoNewline(rest)
    requires forall i :: 0 <= i < |rest| ==> RuneStart(rest[i])
    ensures var markdown, budget := Openings(k) + rest, 9 * k;
            Over(markdown, 1, budget) <= 0 && !StandsAlone(CutShort(markdown, budget + |CUT_SHORT_NOTE|))
  {
    hide Run, CutShort, Openings, CutAtRune, Closer, AllLeaveRoom, CUT_SHORT_NOTE;
    var markdown, budget := Openings(k) + rest, 9 * k;
    var maxLen := budget + |CUT_SHORT_NOTE|;
    OpeningsLine(k);
    CutBeforeRune(markdown, budget);
    assert markdown[..budget] == Openings(k) + "";
    OpeningsRun(k, "");
    CloserLength(Run(EMPTY, markdown[..budget]));
    TightBudget(markdown, budget);
    CutShortExactly(markdown, maxLen);
    CutBeforeRune(markdown, maxLen);
    assert markdown[..maxLen] == Openings(k) + rest[..|CUT_SHORT_NOTE|];
    OpeningsRun(k, rest[..|CUT_SHORT_NOTE|]);
    CutAfterOne(markdown, budget);
  }

  lemma TightBudget(markdown: string, budget: int)
    requires budget > 0 && !LeavesRoom(markdown, budget, budget)
    ensures !AllLeaveRoom(markdown, budget, budget)
  {
    assert Visits(markdown, budget, budget, budget);
    hide LeavesRoom;
  }

  lemma CutAfterOne(markdown: string, budget: int)
    requires |markdown| > 1 && markdown[0] == '<' && RuneStart(markdown[1]) && budget >= 2
    ensures Over(markdown, 1, budget) <= 0
  {
    hide Run, CutAtRune, Next;
    CutBeforeRune(markdown, 1);
    assert markdown[..1] == "<";
    var line := "<";
    assert line + "" == line && OneLine(line);
    RunLine(EMPTY, line, "");
    NotAFence(line);
    NextDetails(EMPTY, line);
    NextInOpen(line);
    RunNothing(Next(EMPTY, line));
    CloserLength(Run(EMPTY, line));
  }

  lemma NextInOpen(line: string)
    requires line == "<"
    ensures Next(EMPTY, line).fence == "" && |Next(EMPTY, line).details| == 0
  {
    hide Next;
    NotAFence(line);
    NextDepth(EMPTY, line);
    assert line[1..] == "" && !OpensTag(line) && !ClosesTag(line);
  }
}
