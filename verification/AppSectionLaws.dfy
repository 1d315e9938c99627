/** What the sections of an app keep of its checks, how long they are, and that they are no more than needed. */
module AppSectionLaws {
  import opened Text
  import opened Packing
  import opened DetailsSplitter
  import opened SplitterLaws
  import opened AppSections

  /** What becomes of one check: itself, or its numbered parts when it does not fit a section of its own. */
  function Expand(header: string, c: CheckBlock, max: int): seq<string> {
    if FitsAlone(header, c, max) then [RenderCheck(c)] else SplitCheck(c, max - WrapLen(header))
  }

  function ExpandAll(header: string, checks: seq<CheckBlock>, max: int): seq<string> {
    if checks == [] then []
    else ExpandAll(header, checks[..|checks| - 1], max) + Expand(header, checks[|checks| - 1], max)
  }

  lemma FlattenOne<T>(group: seq<T>)
    ensures Flatten([group]) == group
  {
    assert [group][1..] == [];
  }

  lemma {:induction false} FlattenAlone(pieces: seq<string>)
    ensures Flatten(Alone(pieces)) == pieces
  {
    if pieces != [] {
      FlattenAlone(pieces[1..]);
      assert Alone(pieces)[1..] == Alone(pieces[1..]);
    }
  }

  function Held(g: Grouping): seq<string> {
    Flatten(g.groups) + g.group
  }

  lemma FlushHolds(g: Grouping)
    ensures Flatten(Flush(g)) == Held(g)
  {
    FlattenAppend(g.groups, [g.group]);
    FlattenOne(g.group);
  }

  lemma {:induction false} GroupLenGrows(header: string, group: seq<string>)
    ensures WrapLen(header) <= GroupLen(header, group)
  {
    if group != [] {
      var n := |group| - 1;
      GroupLenGrows(header, group[..n]);
      GroupLenStep(header, group[..n], group[n]);
      assert group[..n] + [group[n]] == group;
    }
  }

  lemma AddCheckHolds(header: string, g: Grouping, c: CheckBlock, max: int)
    ensures Held(AddCheck(header, g, c, max)) == Held(g) + Expand(header, c, max)
  {
    hide RenderCheck, WrapAppSection, SplitCheck;
    var r := RenderCheck(c);
    FlushHolds(g);
    GroupLenStep(header, g.group, r);
    GroupLenGrows(header, g.group);
    if GroupLen(header, g.group + [r]) <= max {
      assert FitsAlone(header, c, max);
    } else if !FitsAlone(header, c, max) {
      var parts := SplitCheck(c, max - WrapLen(header));
      FlattenAppend(Flush(g), Alone(parts));
      FlattenAlone(parts);
    }
  }

  lemma {:induction false} GroupHolds(header: string, checks: seq<CheckBlock>, max: int)
    ensures Held(Group(header, checks, max)) == ExpandAll(header, checks, max)
  {
    hide AddCheck, Expand;
    if checks != [] {
      GroupHolds(header, checks[..|checks| - 1], max);
      AddCheckHolds(header, Group(header, checks[..|checks| - 1], max), checks[|checks| - 1], max);
    }
  }

  /** Every check is in the sections once, in order, a too big one as its consecutive parts. */
  lemma SectionsHoldEveryCheck(header: string, checks: seq<CheckBlock>, max: int)
    ensures Flatten(Groups(header, checks, max)) == ExpandAll(header, checks, max)
    ensures Sections(header, checks, max) == WrapAll(header, Groups(header, checks, max))
    ensures |Sections(header, checks, max)| >= 1
  {
    var g := Group(header, checks, max);
    GroupHolds(header, checks, max);
    hide Group, ExpandAll, WrapAppSection;
    FlattenAppend(g.groups, [g.group]);
    FlattenOne(g.group);
  }

  /* ----- length ----- */

  predicate GroupFits(header: string, group: seq<string>, max: int) {
    GroupLen(header, group) <= max
  }

  predicate GroupsFit(header: string, groups: seq<seq<string>>, max: int) {
    forall i :: 0 <= i < |groups| ==> GroupFits(header, groups[i], max)
  }

  /** The parts a check that does not fit a section is cut into fit one each. */
  predicate PartsFitSections(header: string, c: CheckBlock, max: int) {
    forall i :: 0 <= i < |Expand(header, c, max)| ==> WrapLen(header) + |Expand(header, c, max)[i]| <= max
  }

  lemma GroupOfOne(header: string, rendered: string)
    ensures GroupLen(header, [rendered]) == WrapLen(header) + |rendered|
  {
    GroupLenStep(header, [], rendered);
    assert [] + [rendered] == [rendered];
  }

  lemma AddCheckFits(header: string, g: Grouping, c: CheckBlock, max: int)
    requires PartsFitSections(header, c, max) && GroupsFit(header, g.groups, max)
    requires g.group != [] ==> GroupFits(header, g.group, max)
    ensures var h := AddCheck(header, g, c, max);
            GroupsFit(header, h.groups, max) && (h.group != [] ==> GroupFits(header, h.group, max))
  {
    hide RenderCheck, GroupLen, SplitCheck, WrapLen;
    var r := RenderCheck(c);
    if GroupLen(header, g.group + [r]) > max {
      if FitsAlone(header, c, max) {
        GroupOfOne(header, r);
      } else {
        var parts := SplitCheck(c, max - WrapLen(header));
        forall i | 0 <= i < |parts|
          ensures GroupFits(header, Alone(parts)[i], max)
        {
          assert Expand(header, c, max)[i] == parts[i];
          GroupOfOne(header, parts[i]);
        }
      }
    }
  }

  lemma {:induction false} GroupFitsAll(header: string, checks: seq<CheckBlock>, max: int)
    requires forall k :: 0 <= k < |checks| ==> PartsFitSections(header, checks[k], max)
    ensures var g := Group(header, checks, max);
            GroupsFit(header, g.groups, max) && (g.group != [] ==> GroupFits(header, g.group, max))
  {
    hide AddCheck, PartsFitSections, GroupFits;
    if checks != [] {
      GroupFitsAll(header, checks[..|checks| - 1], max);
      AddCheckFits(header, Group(header, checks[..|checks| - 1], max), checks[|checks| - 1], max);
    }
  }

  /** No section is longer than the limit if the parts of the checks are not. */
  lemma SectionsFit(header: string, checks: seq<CheckBlock>, max: int)
    requires WrapLen(header) <= max
    requires forall k :: 0 <= k < |checks| ==> PartsFitSections(header, checks[k], max)
    ensures forall i :: 0 <= i < |Sections(header, checks, max)| ==> |Sections(header, checks, max)[i]| <= max
  {
    GroupFitsAll(header, checks, max);
    hide Group, WrapAppSection, PartsFitSections;
    var groups := Groups(header, checks, max);
    forall i | 0 <= i < |groups|
      ensures GroupFits(header, groups[i], max)
    {
    }
  }

  function CutRoom(header: string, c: CheckBlock, max: int): int {
    var maxLen := max - WrapLen(header);
    DetailsRoom(c, maxLen) - FinalReserve(c, maxLen)
  }

  /** What it takes for a check that has to be cut: room for the mark in every state a part starts in. */
  predicate Cuttable(header: string, c: CheckBlock, max: int) {
    var room := CutRoom(header, c, max);
    |c.details| <= room || (room > 0 && MarkFits(c.details, room))
  }

  lemma CuttablePartsFit(header: string, c: CheckBlock, max: int)
    requires FitsAlone(header, c, max) || Cuttable(header, c, max)
    ensures PartsFitSections(header, c, max)
  {
    hide DetailsRoom, FinalReserve, RenderCheck, WrapLen, SplitDetails, SplitCheck, MarkFits;
    if !FitsAlone(header, c, max) {
      var room := CutRoom(header, c, max);
      if |c.details| > room {
        PartsFit(c.details, room);
      } else {
        WholeIsOnePart(c.details, room);
      }
      SplitCheckFits(c, max - WrapLen(header));
    }
  }

  lemma WholeIsOnePart(details: string, room: int)
    requires LeftWhole(details, room)
    ensures SplitDetails(details, room) == [details]
  {
  }

  /* ----- no more sections than needed ----- */

  /** A check takes its own length and a separator; a section has one separator to spare. */
  function CheckSizes(checks: seq<CheckBlock>): seq<nat> {
    seq(|checks|, i requires 0 <= i < |checks| => |RenderCheck(checks[i])| + |CHECK_SEPARATOR|)
  }

  function CheckBudget(header: string, max: int): int {
    max - WrapLen(header) + |CHECK_SEPARATOR|
  }

  function RenderAllChecks(checks: seq<CheckBlock>): seq<string> {
    seq(|checks|, i requires 0 <= i < |checks| => RenderCheck(checks[i]))
  }

  lemma {:induction false} GroupLenIsTotal(header: string, checks: seq<CheckBlock>, i: nat, j: nat)
    requires i < j <= |checks|
    ensures GroupLen(header, RenderAllChecks(checks)[i..j]) ==
            WrapLen(header) + Total(CheckSizes(checks), i, j) - |CHECK_SEPARATOR|
    decreases j
  {
    hide RenderCheck, WrapAppSection;
    var all := RenderAllChecks(checks);
    assert all[i..j] == all[i..j - 1] + [all[j - 1]];
    GroupLenStep(header, all[i..j - 1], all[j - 1]);
    if i < j - 1 {
      GroupLenIsTotal(header, checks, i, j - 1);
    } else {
      assert Total(CheckSizes(checks), i, i) == 0;
    }
  }

  predicate AllFitAlone(header: string, checks: seq<CheckBlock>, max: int) {
    forall k :: 0 <= k < |checks| ==> |WrapAppSection(header, [RenderCheck(checks[k])])| <= max
  }

  lemma FitsAloneExactly(header: string, c: CheckBlock, max: int)
    ensures FitsAlone(header, c, max) <==> |WrapAppSection(header, [RenderCheck(c)])| <= max
  {
    hide RenderCheck, WrapAppSection;
    GroupOfOne(header, RenderCheck(c));
  }

  /** Where the group being filled starts, when the first n checks are grouped. */
  function OpenStart(header: string, checks: seq<CheckBlock>, max: int, n: nat): (start: nat)
    requires n <= |checks|
    ensures start <= n && (n > 0 ==> start < n)
  {
    if n <= 1 then 0 else
    var start := OpenStart(header, checks, max, n - 1);
    if Total(CheckSizes(checks), start, n) <= CheckBudget(header, max) then start else n - 1
  }

  /** The first n checks are grouped as the greedy batches done, and an open batch after them. */
  ghost predicate GreedySoFar(header: string, checks: seq<CheckBlock>, max: int, n: nat, done: seq<Range>, g: Grouping)
    requires 0 < n <= |checks|
  {
    var sizes, budget, start := CheckSizes(checks), CheckBudget(header, max), OpenStart(header, checks, max, n);
    var all := RenderAllChecks(checks);
    && g.groups == Slices(all, done) && g.group == all[start..n]
    && done + Greedy(sizes, start, budget) == Greedy(sizes, 0, budget)
    && BatchEnd(sizes, start, n, budget) == BatchEnd(sizes, start, start + 1, budget)
  }

  lemma AddCheckStays(header: string, checks: seq<CheckBlock>, max: int, n: nat, done: seq<Range>, g: Grouping)
    requires 1 < n <= |checks| && GreedySoFar(header, checks, max, n - 1, done, g)
    requires OpenStart(header, checks, max, n) == OpenStart(header, checks, max, n - 1)
    ensures GreedySoFar(header, checks, max, n, done, AddCheck(header, g, checks[n - 1], max))
  {
    hide RenderCheck, WrapAppSection, Greedy, GroupLen, WrapLen;
    var start := OpenStart(header, checks, max, n);
    var sizes, all := CheckSizes(checks), RenderAllChecks(checks);
    assert g.group + [all[n - 1]] == all[start..n];
    GroupLenIsTotal(header, checks, start, n);
    assert Total(sizes, start, n) == Total(sizes, start, n - 1) + sizes[n - 1];
  }

  lemma AddCheckOpens(header: string, checks: seq<CheckBlock>, max: int, n: nat, done: seq<Range>, g: Grouping)
    requires 1 < n <= |checks| && GreedySoFar(header, checks, max, n - 1, done, g)
    requires FitsAlone(header, checks[n - 1], max)
    requires OpenStart(header, checks, max, n) != OpenStart(header, checks, max, n - 1)
    ensures var r := Range(OpenStart(header, checks, max, n - 1), n - 1);
            GreedySoFar(header, checks, max, n, done + [r], AddCheck(header, g, checks[n - 1], max))
  {
    hide RenderCheck, WrapAppSection, Greedy, GroupLen, WrapLen;
    var start := OpenStart(header, checks, max, n - 1);
    var sizes, budget, all := CheckSizes(checks), CheckBudget(header, max), RenderAllChecks(checks);
    assert g.group + [all[n - 1]] == all[start..n];
    GroupLenIsTotal(header, checks, start, n);
    assert Total(sizes, start, n) == Total(sizes, start, n - 1) + sizes[n - 1];
    GreedyStep(sizes, start, budget);
    var r := Range(start, n - 1);
    assert (done + [r]) + Greedy(sizes, n - 1, budget) == done + ([r] + Greedy(sizes, n - 1, budget));
    SlicesSnoc(all, done, r);
    assert all[n - 1..n] == [all[n - 1]];
  }

  /** The groups of checks that all fit are the greedy batches of their sizes. */
  lemma {:induction false} GroupIsGreedy(header: string, checks: seq<CheckBlock>, max: int, n: nat)
    returns (done: seq<Range>)
    requires 0 < n <= |checks| && AllFitAlone(header, checks, max)
    ensures GreedySoFar(header, checks, max, n, done, Group(header, checks[..n], max))
  {
    GroupStep(header, checks, n - 1, max);
    GroupNone(header, checks, max);
    if n == 1 {
      done := [];
      FirstCheck(header, checks, max);
    } else {
      hide GreedySoFar, Group, AddCheck;
      var before := GroupIsGreedy(header, checks, max, n - 1);
      var g := Group(header, checks[..n - 1], max);
      if OpenStart(header, checks, max, n) == OpenStart(header, checks, max, n - 1) {
        done := before;
        AddCheckStays(header, checks, max, n, done, g);
      } else {
        done := before + [Range(OpenStart(header, checks, max, n - 1), n - 1)];
        AddCheckOpens(header, checks, max, n, before, g);
      }
    }
  }

  lemma FirstCheck(header: string, checks: seq<CheckBlock>, max: int)
    requires checks != [] && FitsAlone(header, checks[0], max)
    ensures GreedySoFar(header, checks, max, 1, [], AddCheck(header, Grouping([], []), checks[0], max))
  {
    hide RenderCheck, WrapAppSection, Greedy;
    var r := RenderCheck(checks[0]);
    GroupOfOne(header, r);
    assert [] + [r] == [r];
    assert RenderAllChecks(checks)[0..1] == [r];
  }

  lemma LastGroupCloses(all: seq<string>, sizes: seq<nat>, budget: int, done: seq<Range>, start: nat)
    requires start < |sizes| == |all| && BatchEnd(sizes, start, start + 1, budget) == |sizes|
    requires done + Greedy(sizes, start, budget) == Greedy(sizes, 0, budget)
    ensures Slices(all, Greedy(sizes, 0, budget)) == Slices(all, done) + [all[start..]]
  {
    hide Slices, Greedy, BatchEnd;
    GreedyStep(sizes, start, budget);
    GreedyEnds(sizes, budget);
    var r := Range(start, |sizes|);
    SlicesSnoc(all, done, r);
    assert done + [r] == done + ([r] + []);
    assert all[start..|sizes|] == all[start..];
  }

  lemma GroupsAreGreedy(header: string, checks: seq<CheckBlock>, max: int)
    requires checks != [] && AllFitAlone(header, checks, max)
    ensures Groups(header, checks, max) ==
        Slices(RenderAllChecks(checks), Greedy(CheckSizes(checks), 0, CheckBudget(header, max)))
  {
    var n := |checks|;
    var done := GroupIsGreedy(header, checks, max, n);
    assert checks[..n] == checks;
    var start := OpenStart(header, checks, max, n);
    var sizes, budget, all := CheckSizes(checks), CheckBudget(header, max), RenderAllChecks(checks);
    assert all[start..] == all[start..n];
    hide RenderCheck, WrapAppSection, Greedy, Group, OpenStart, Total, Slices, BatchEnd;
    LastGroupCloses(all, sizes, budget, done, start);
  }

  ghost predicate FittingGroups(header: string, checks: seq<CheckBlock>, max: int, others: seq<Range>) {
    && Partition(others, 0, |checks|)
    && (forall k :: 0 <= k < |others| ==> others[k].start < others[k].end <= |checks|)
    && (forall k :: 0 <= k < |others| ==>
          GroupFits(header, RenderAllChecks(checks)[others[k].start..others[k].end], max))
  }

  lemma FittingGroupsWithin(header: string, checks: seq<CheckBlock>, max: int, others: seq<Range>)
    requires FittingGroups(header, checks, max, others)
    ensures AllWithin(CheckSizes(checks), others, CheckBudget(header, max))
  {
    hide GroupLen, WrapLen, RenderCheck, Total;
    forall k | 0 <= k < |others|
      ensures Within(CheckSizes(checks), others[k], CheckBudget(header, max))
    {
      GroupLenIsTotal(header, checks, others[k].start, others[k].end);
    }
  }

  /** Checks that fit a section each take the fewest sections of any grouping in order that fits. */
  lemma SectionsAreFewest(header: string, checks: seq<CheckBlock>, max: int, others: seq<Range>)
    requires checks != [] && AllFitAlone(header, checks, max)
    requires FittingGroups(header, checks, max, others)
    ensures |Sections(header, checks, max)| <= |others|
  {
    hide Groups, WrapAppSection, Greedy, CheckSizes, CheckBudget;
    GroupsAreGreedy(header, checks, max);
    FittingGroupsWithin(header, checks, max, others);
    assert |CheckSizes(checks)| == |checks| by {
      CheckSizesCount(checks);
    }
    GreedyIsFewest(CheckSizes(checks), others, 0, 0, CheckBudget(header, max));
  }

  lemma CheckSizesCount(checks: seq<CheckBlock>)
    ensures |CheckSizes(checks)| == |checks|
  {
  }

  /* ----- how checks are cut and numbered ----- */

  /** The room for the details of a check is what is left of the limit by the rest of it, to the byte. */
  lemma RoomIsExact(c: CheckBlock, maxLen: int, details: string)
    ensures |RenderCheck(CheckBlock(c.summary, details))| <= maxLen <==> |details| <= DetailsRoom(c, maxLen)
  {
    RenderCheckLength(c.summary, "", details);
    assert c.summary + "" == c.summary;
    hide RenderCheck;
  }

  lemma GuessWidth()
    ensures |PartSuffix(99, 99)| == 16 && Decimal(99) == "99"
  {
    assert Decimal(9) == "9" && Decimal(99) == "9" + "9";
    assert |" (Part "| == 7 && |" of "| == 4;
  }

  /** No room is given away: the reserve is what the number of a part takes, guessed at two digits. */
  lemma {:induction false} ReserveIsTight(details: string, room: int, guess: nat)
    ensures var r := Reserve(details, room, guess);
            r == guess || exists smaller: nat :: guess <= smaller < r && r == Needed(details, room, smaller)
    ensures Needed(details, room, guess) <= guess ==> Reserve(details, room, guess) == guess
    decreases |PartSuffix(MostParts(details), MostParts(details))| - guess
  {
    hide Needed, MostParts, PartSuffix;
    var needed := Needed(details, room, guess);
    if needed > guess {
      NeededIsBounded(details, room, guess);
      ReserveIsTight(details, room, needed);
    }
  }

  lemma {:induction false} DecimalLength(n: nat)
    requires n <= 99
    ensures |Decimal(n)| <= 2
  {
    assert n >= 10 ==> n / 10 < 10;
  }

  /** Up to 99 parts the details are cut to what the limit leaves them beside a number of two digits. */
  lemma UpToNinetyNineParts(c: CheckBlock, maxLen: int)
    requires |SplitDetails(c.details, DetailsRoom(c, maxLen) - 16)| <= 99
    ensures CheckParts(c, maxLen) == SplitDetails(c.details, DetailsRoom(c, maxLen) - 16)
  {
    GuessWidth();
    hide SplitDetails, Reserve, DetailsRoom;
    var room := DetailsRoom(c, maxLen);
    var n := |SplitDetails(c.details, room - 16)|;
    DecimalLength(n);
    assert |" (Part "| == 7 && |" of "| == 4;
    assert Needed(c.details, room, 16) <= 16;
    hide Decimal, PartSuffix, Needed;
    ReserveIsTight(c.details, room, 16);
  }

  /** The text of a check: a block with its summary and its details. */
  function CheckText(summary: string, details: string): string {
    "<details>\n" + "<summary>" + summary + "</summary>\n" + "\n" + details + "\n" + "</details>"
  }

  lemma RenderCheckText(c: CheckBlock)
    ensures RenderCheck(c) == CheckText(c.summary, c.details)
  {
    assert "<details>\n<summary>" == "<details>\n" + "<summary>";
    assert "</summary>\n\n" == "</summary>\n" + "\n" && "\n</details>" == "\n" + "</details>";
  }

  /** Part i of n of a check, with its number if it is not the only one. */
  predicate IsPart(text: string, summary: string, details: string, i: nat, n: nat) {
    && (n == 1 ==> text == CheckText(summary, details))
    && (n != 1 ==> text == CheckText(summary + (" (Part " + Decimal(i) + " of " + Decimal(n) + ")"), details))
  }

  /** A check that fits a section is shown whole, and only then; otherwise its parts are, each with its number. */
  lemma ExpandExactly(header: string, c: CheckBlock, max: int)
    ensures |WrapAppSection(header, [RenderCheck(c)])| <= max ==>
              Expand(header, c, max) == [CheckText(c.summary, c.details)]
    ensures |WrapAppSection(header, [RenderCheck(c)])| > max ==>
              var parts := CheckParts(c, max - WrapLen(header));
              && |Expand(header, c, max)| == |parts|
              && forall i :: 0 <= i < |parts| ==>
                   IsPart(Expand(header, c, max)[i], c.summary, parts[i], i + 1, |parts|)
  {
    FitsAloneExactly(header, c, max);
    RenderCheckText(c);
    hide RenderCheck, WrapAppSection, CheckText, WrapLen, FinalReserve, DetailsRoom, SplitDetails, FitsAlone;
    if !FitsAlone(header, c, max) {
      var parts := CheckParts(c, max - WrapLen(header));
      ReserveHolds(c, max - WrapLen(header));
      forall i | 0 <= i < |parts|
        ensures IsPart(Expand(header, c, max)[i], c.summary, parts[i], i + 1, |parts|)
      {
        RenderCheckText(CheckBlock(Numbered(c.summary, i + 1, |parts|), parts[i]));
      }
    }
  }
}
