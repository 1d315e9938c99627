/** The checks of one app, rendered as sections that fit a byte limit. */
module AppSections {
  import opened Text
  import opened DetailsSplitter
  import opened SplitterLaws

  const APP_WRAP_OPEN := "<details>\n<summary>\n\n"
  const APP_WRAP_CLOSE := "\n</summary>\n\n"
  const APP_WRAP_END := "</details>"
  const CHECK_SEPARATOR := "\n\n---\n\n"

  datatype CheckBlock = CheckBlock(summary: string, details: string)

  function RenderCheck(c: CheckBlock): string {
    "<details>\n<summary>" + c.summary + "</summary>\n\n" + c.details + "\n</details>"
  }

  /** strings.Join(checks, checkSeparator) */
  function JoinChecks(checks: seq<string>): string {
    if checks == [] then ""
    else if |checks| == 1 then checks[0]
    else JoinChecks(checks[..|checks| - 1]) + CHECK_SEPARATOR + checks[|checks| - 1]
  }

  function WrapAppSection(header: string, checks: seq<string>): string {
    APP_WRAP_OPEN + header + APP_WRAP_CLOSE + JoinChecks(checks) + APP_WRAP_END
  }

  function WrapLen(header: string): nat {
    |WrapAppSection(header, [])|
  }

  function PartSuffix(part: nat, total: nat): string {
    " (Part " + Decimal(part) + " of " + Decimal(total) + ")"
  }

  /* ----- splitCheck ----- */

  /** As many parts as there are lines, at most; this bounds the width of the suffix. */
  function MostParts(details: string): nat {
    if |Lines(details)| > 1 then |Lines(details)| else 1
  }

  lemma SuffixGrows(i: nat, m: nat, n: nat)
    requires i <= m <= n
    ensures |PartSuffix(i, m)| <= |PartSuffix(n, n)|
  {
    DecimalGrows(i, n);
    DecimalGrows(m, n);
    hide Decimal;
  }

  lemma {:induction false} BodiesCount(pieces: seq<Piece>)
    requires NoneEmpty(pieces)
    ensures |pieces| <= |Bodies(pieces)|
  {
    if pieces != [] {
      BodiesCount(pieces[..|pieces| - 1]);
    }
  }

  /** A part holds at least one line. */
  lemma PartsCount(details: string, maxLen: int)
    ensures 1 <= |SplitDetails(details, maxLen)| <= MostParts(details)
  {
    if !LeftWhole(details, maxLen) {
      NonEmptyHasLines(details);
      LinesNoEmpty(details);
      FillNoneEmpty(Lines(details), maxLen);
      FillCount(Lines(details), maxLen);
      hide Fill, Lines, Bodies;
      BodiesCount(Pieces(details, maxLen));
    }
  }

  function Needed(details: string, room: int, reserve: nat): nat {
    var n := |SplitDetails(details, room - reserve)|;
    |PartSuffix(n, n)|
  }

  lemma NeededIsBounded(details: string, room: int, reserve: nat)
    ensures Needed(details, room, reserve) <= |PartSuffix(MostParts(details), MostParts(details))|
  {
    PartsCount(details, room - reserve);
    hide SplitDetails, MostParts, PartSuffix;
    SuffixGrows(|SplitDetails(details, room - reserve)|, |SplitDetails(details, room - reserve)|, MostParts(details));
  }

  /** The reserve for the suffix at which splitCheck stops, starting from a guess. */
  function Reserve(details: string, room: int, guess: nat): (r: nat)
    ensures guess <= r && Needed(details, room, r) <= r
    decreases |PartSuffix(MostParts(details), MostParts(details))| - guess
  {
    var needed := Needed(details, room, guess);
    if needed <= guess then guess
    else
      NeededIsBounded(details, room, guess);
      Reserve(details, room, needed)
  }

  /** The room for the details of c, without the rest of the check around them. */
  function DetailsRoom(c: CheckBlock, maxLen: int): int {
    maxLen - |RenderCheck(CheckBlock(c.summary, ""))|
  }

  function FinalReserve(c: CheckBlock, maxLen: int): nat {
    Reserve(c.details, DetailsRoom(c, maxLen), |PartSuffix(99, 99)|)
  }

  function CheckParts(c: CheckBlock, maxLen: int): seq<string> {
    SplitDetails(c.details, DetailsRoom(c, maxLen) - FinalReserve(c, maxLen))
  }

  function Numbered(summary: string, i: nat, n: nat): string {
    if n > 1 then summary + PartSuffix(i, n) else summary
  }

  function SplitCheck(c: CheckBlock, maxLen: int): seq<string> {
    var parts := CheckParts(c, maxLen);
    seq(|parts|, i requires 0 <= i < |parts| => RenderCheck(CheckBlock(Numbered(c.summary, i + 1, |parts|), parts[i])))
  }

  method SplitCheckLoop(c: CheckBlock, maxLen: int) returns (rendered: seq<string>)
    ensures rendered == SplitCheck(c, maxLen)
  {
    hide SplitDetails, PartSuffix, RenderCheck, MostParts;
    var wrapLen := |RenderCheck(CheckBlock(c.summary, ""))|;
    ghost var room := DetailsRoom(c, maxLen);
    var reserve := |PartSuffix(99, 99)|;
    var parts := SplitDetailsAtLines(c.details, maxLen - wrapLen - reserve);
    var needed := |PartSuffix(|parts|, |parts|)|;
    while needed > reserve
      invariant parts == SplitDetails(c.details, room - reserve)
      invariant needed == Needed(c.details, room, reserve)
      invariant Reserve(c.details, room, reserve) == FinalReserve(c, maxLen)
      decreases |PartSuffix(MostParts(c.details), MostParts(c.details))| - reserve
    {
      NeededIsBounded(c.details, room, reserve);
      reserve := needed;
      parts := SplitDetailsAtLines(c.details, maxLen - wrapLen - reserve);
      needed := |PartSuffix(|parts|, |parts|)|;
    }
    rendered := [];
    for i := 0 to |parts|
      invariant |rendered| == i
      invariant forall j :: 0 <= j < i ==> rendered[j] == SplitCheck(c, maxLen)[j]
    {
      var summary := c.summary;
      if |parts| > 1 {
        summary := summary + PartSuffix(i + 1, |parts|);
      }
      rendered := rendered + [RenderCheck(CheckBlock(summary, parts[i]))];
    }
  }

  lemma RenderCheckLength(summary: string, suffix: string, details: string)
    ensures |RenderCheck(CheckBlock(summary + suffix, details))| ==
            |RenderCheck(CheckBlock(summary, ""))| + |suffix| + |details|
  {
  }

  lemma NumberedFits(c: CheckBlock, maxLen: int, part: string, i: nat, n: nat)
    requires 1 <= i <= n && |PartSuffix(n, n)| <= FinalReserve(c, maxLen)
    requires |part| <= DetailsRoom(c, maxLen) - FinalReserve(c, maxLen)
    ensures |RenderCheck(CheckBlock(Numbered(c.summary, i, n), part))| <= maxLen
  {
    hide RenderCheck, PartSuffix, FinalReserve;
    var suffix := if n > 1 then PartSuffix(i, n) else "";
    assert Numbered(c.summary, i, n) == c.summary + suffix;
    SuffixGrows(i, n, n);
    RenderCheckLength(c.summary, suffix, part);
  }

  lemma ReserveHolds(c: CheckBlock, maxLen: int)
    ensures |CheckParts(c, maxLen)| >= 1
    ensures |PartSuffix(|CheckParts(c, maxLen)|, |CheckParts(c, maxLen)|)| <= FinalReserve(c, maxLen)
  {
    hide SplitDetails, Reserve, PartSuffix, MostParts;
    PartsCount(c.details, DetailsRoom(c, maxLen) - FinalReserve(c, maxLen));
  }

  /** When the parts of the details fit the room they were cut for, the numbered checks fit the limit. */
  lemma SplitCheckFits(c: CheckBlock, maxLen: int)
    requires NoneLonger(CheckParts(c, maxLen), DetailsRoom(c, maxLen) - FinalReserve(c, maxLen))
    ensures NoneLonger(SplitCheck(c, maxLen), maxLen)
  {
    hide CheckParts, FinalReserve, RenderCheck, PartSuffix, Numbered, DetailsRoom;
    var parts := CheckParts(c, maxLen);
    ReserveHolds(c, maxLen);
    forall i | 0 <= i < |parts|
      ensures |SplitCheck(c, maxLen)[i]| <= maxLen
    {
      NumberedFits(c, maxLen, parts[i], i + 1, |parts|);
    }
  }

  /* ----- grouping checks into sections ----- */

  /** The groups finished so far, each to become a section, and the group being filled. */
  datatype Grouping = Grouping(groups: seq<seq<string>>, group: seq<string>)

  function GroupLen(header: string, group: seq<string>): nat {
    |WrapAppSection(header, group)|
  }

  predicate FitsAlone(header: string, c: CheckBlock, max: int) {
    WrapLen(header) + |RenderCheck(c)| <= max
  }

  function Flush(g: Grouping): seq<seq<string>> {
    if g.group == [] then g.groups else g.groups + [g.group]
  }

  function Alone(pieces: seq<string>): seq<seq<string>> {
    seq(|pieces|, i requires 0 <= i < |pieces| => [pieces[i]])
  }

  function AddCheck(header: string, g: Grouping, c: CheckBlock, max: int): Grouping {
    if GroupLen(header, g.group + [RenderCheck(c)]) <= max then Grouping(g.groups, g.group + [RenderCheck(c)])
    else if FitsAlone(header, c, max) then Grouping(Flush(g), [RenderCheck(c)])
    else Grouping(Flush(g) + Alone(SplitCheck(c, max - WrapLen(header))), [])
  }

  function Group(header: string, checks: seq<CheckBlock>, max: int): Grouping {
    if checks == [] then Grouping([], [])
    else AddCheck(header, Group(header, checks[..|checks| - 1], max), checks[|checks| - 1], max)
  }

  /** The groups of an app; an app without checks still gets a section. */
  function Groups(header: string, checks: seq<CheckBlock>, max: int): seq<seq<string>> {
    var g := Group(header, checks, max);
    if g.group != [] || g.groups == [] then g.groups + [g.group] else g.groups
  }

  function WrapAll(header: string, groups: seq<seq<string>>): seq<string> {
    seq(|groups|, i requires 0 <= i < |groups| => WrapAppSection(header, groups[i]))
  }

  function Sections(header: string, checks: seq<CheckBlock>, max: int): seq<string> {
    WrapAll(header, Groups(header, checks, max))
  }

  lemma GroupLenStep(header: string, group: seq<string>, rendered: string)
    ensures GroupLen(header, group + [rendered]) ==
            GroupLen(header, group) + |rendered| + if group == [] then 0 else |CHECK_SEPARATOR|
  {
    var all := group + [rendered];
    assert all[..|all| - 1] == group;
  }

  lemma WrapAllSnoc(header: string, groups: seq<seq<string>>, group: seq<string>)
    ensures WrapAll(header, groups + [group]) == WrapAll(header, groups) + [WrapAppSection(header, group)]
  {
  }

  lemma GroupStep(header: string, checks: seq<CheckBlock>, i: nat, max: int)
    requires i < |checks|
    ensures Group(header, checks[..i + 1], max) == AddCheck(header, Group(header, checks[..i], max), checks[i], max)
  {
    assert checks[..i + 1][..i] == checks[..i];
  }

  /** The loop of buildAppSections over the checks, with groupLen kept as the length of the wrapped group. */
  method SectionsLoop(header: string, checks: seq<CheckBlock>, max: int) returns (sections: seq<string>)
    ensures sections == Sections(header, checks, max)
  {
    hide WrapAppSection, RenderCheck, SplitCheck, Group;
    var wrapLen := |WrapAppSection(header, [])|;
    sections := [];
    var group: seq<string>, groupLen := [], wrapLen;
    ghost var g := Grouping([], []);
    GroupNone(header, checks, max);
    for i := 0 to |checks|
      invariant g == Group(header, checks[..i], max)
      invariant sections == WrapAll(header, g.groups) && group == g.group
      invariant groupLen == GroupLen(header, group)
    {
      var c := checks[i];
      GroupStep(header, checks, i, max);
      ghost var before := g;
      g := AddCheck(header, g, c, max);
      var rendered := RenderCheck(c);
      GroupLenStep(header, group, rendered);
      GroupLenStep(header, [], rendered);
      assert [] + [rendered] == [rendered];
      var added := |rendered|;
      if |group| > 0 {
        added := added + |CHECK_SEPARATOR|;
      }
      if groupLen + added <= max {
        group := group + [rendered];
        groupLen := groupLen + added;
        continue;
      }
      if |group| > 0 {
        WrapAllSnoc(header, before.groups, group);
        sections := sections + [WrapAppSection(header, group)];
        group, groupLen := [], wrapLen;
      }
      assert sections == WrapAll(header, Flush(before));
      if wrapLen + |rendered| <= max {
        group, groupLen := [rendered], wrapLen + |rendered|;
        continue;
      }
      var parts := SplitCheckLoop(c, max - wrapLen);
      ghost var flushed := sections;
      for j := 0 to |parts|
        invariant sections == flushed + WrapAll(header, Alone(parts))[..j]
      {
        sections := sections + [WrapAppSection(header, [parts[j]])];
      }
      assert WrapAll(header, Flush(before) + Alone(parts)) == flushed + WrapAll(header, Alone(parts));
    }
    assert checks[..|checks|] == checks;
    if |group| > 0 || |sections| == 0 {
      WrapAllSnoc(header, g.groups, group);
      sections := sections + [WrapAppSection(header, group)];
    }
  }

  lemma GroupNone(header: string, checks: seq<CheckBlock>, max: int)
    ensures Group(header, checks[..0], max) == Grouping([], [])
  {
  }
}
