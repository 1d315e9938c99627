/** A report as comments: sections packed into chunks, each framed with a header and a tail. */
module Comments {
  import opened Text
  import opened Utf8
  import opened Markdown
  import opened MarkdownLaws
  import opened Packing
  import opened Ordering
  import opened Messages

  datatype Config = Config(maxLength: int, maxChunks: nat, identifier: string, footer: string)

  /** What the footer of a report tells about the run. */
  datatype RunInfo = RunInfo(
    commitSHA: string, labelFilter: string, showDebugInfo: bool,
    hostname: string, duration: string, gitCommit: string, appsChecked: nat, totalChecked: nat)

  function BuildFooter(i: RunInfo): string {
    if !i.showDebugInfo then "<small> _Done. CommitSHA: " + i.commitSHA + "_ <small>\n"
    else
      "<small> _Done: Pod: " + i.hostname + ", Dur: " + i.duration + ", SHA: " + i.gitCommit +
      (if i.labelFilter == "" then "" else ", Env: " + i.labelFilter) + "_ <small>, Apps Checked: " +
      Decimal(i.appsChecked) + ", Total Checks: " + Decimal(i.totalChecked) + "\n"
  }

  const MAX_COMMENTS := 999
  const FOOTER_SEPARATOR := "\n\n"
  // The notes are put together from short pieces, because the verifier is slow on long literals.
  const CONTINUED_FROM_WORDS := "*Continued from" + " previous comment.*"
  const CONTINUED_FROM := "\n" + (CONTINUED_FROM_WORDS + "\n" + "\n")
  const CONTINUED_IN_WORDS := "**Continued in" + " next comment.**"
  const CONTINUED_IN := "\n" + ("\n" + CONTINUED_IN_WORDS)
  const TRUNCATED_HEAD := "**Warning**: Report" + " exceeded the maximum"
  const TRUNCATED_WORDS := TRUNCATED_HEAD + (" number of comments." + " Some output was truncated.")
  const TRUNCATED_NOTE := "\n" + ("\n" + TRUNCATED_WORDS)
  const CUT_SHORT_WORDS := "**Warning**: This" + " comment was too long" + " and was cut short."
  const CUT_SHORT_NOTE := "\n" + "\n" + CUT_SHORT_WORDS

  function ChunkHeader(identifier: string, part: nat, total: nat): string {
    if total == 1 then "# Kubechecks " + identifier + " Report\n"
    else "# Kubechecks " + identifier + " Report (Part " + Decimal(part) + " of " + Decimal(total) + ")\n"
  }

  function Max(a: int, b: int): int {
    if a >= b then a else b
  }

  /** Room for sections in a chunk, whichever tail it gets. */
  function SectionBudget(cfg: Config): int {
    var head := |ChunkHeader(cfg.identifier, MAX_COMMENTS, MAX_COMMENTS)| + |CONTINUED_FROM|;
    var tail := Max(|CONTINUED_IN|, |FOOTER_SEPARATOR| + |cfg.footer| + |TRUNCATED_NOTE|);
    cfg.maxLength - head - tail
  }

  /** Room for sections in a report that takes a single comment. */
  function OneCommentBudget(cfg: Config): int {
    cfg.maxLength - |ChunkHeader(cfg.identifier, 1, 1)| - |FOOTER_SEPARATOR| - |cfg.footer|
  }

  predicate FitsOneComment(sections: seq<string>, cfg: Config) {
    Length(sections) <= OneCommentBudget(cfg)
  }

  method FitsOneCommentLoop(sections: seq<string>, cfg: Config) returns (fits: bool)
    ensures fits == FitsOneComment(sections, cfg)
  {
    var total := 0;
    for i := 0 to |sections|
      invariant total == Length(sections[..i])
    {
      assert sections[..i + 1][..i] == sections[..i];
      total := total + |sections[i]|;
    }
    assert sections[..|sections|] == sections;
    return total <= OneCommentBudget(cfg);
  }

  /* ----- cutShort ----- */

  /** What closes a cut; the cut is most likely in the middle of a line. */
  function CutCloser(cut: string): string {
    "\n" + Closer(Run(EMPTY, cut))
  }

  /** How far the closed cut is over the budget. */
  function Over(markdown: string, room: int, budget: int): int {
    var cut := CutAtRune(markdown, room);
    |cut| + |CutCloser(cut)| - budget
  }

  function CutShortFrom(markdown: string, room: int, maxLen: int): string
    decreases room
  {
    var cut := CutAtRune(markdown, room);
    var over := Over(markdown, room, maxLen - |CUT_SHORT_NOTE|);
    if room <= 0 then CutAtRune(markdown, maxLen)
    else if over > 0 then CutShortFrom(markdown, room - over, maxLen)
    else cut + CutCloser(cut) + CUT_SHORT_NOTE
  }

  function CutShort(markdown: string, maxLen: int): string {
    CutShortFrom(markdown, maxLen - |CUT_SHORT_NOTE|, maxLen)
  }

  lemma RunSplitAfter(s: MdState, lines: seq<string>, text: string, i: nat)
    requires lines == SplitAfter(text) && i <= |lines|
    ensures RunLines(s, lines[..i]) == RunLines(s, Lines(text)[..if i <= |Lines(text)| then i else |Lines(text)|])
  {
    SplitAfterIsLines(text);
    hide SplitAfter, Lines, Next;
    var n := |Lines(text)|;
    if i <= n {
      assert lines[..i] == Lines(text)[..i];
    } else {
      assert lines[..i][..i - 1] == lines[..n] == Lines(text)[..n];
      assert lines[..i][i - 1] == "";
      NextNothing(RunLines(s, lines[..n]));
    }
  }

  lemma NextNothing(s: MdState)
    ensures Next(s, "") == s
  {
    PlainLine(s, "");
  }

  /** The loop in cutShort that reads the cut line by line. */
  method RunLoop(text: string) returns (state: MdState)
    ensures state == Run(EMPTY, text)
  {
    hide Next, SplitAfter;
    state := EMPTY;
    var lines := SplitAfter(text);
    for i := 0 to |lines|
      invariant state == RunLines(EMPTY, lines[..i])
    {
      assert lines[..i + 1][..i] == lines[..i];
      state := NextLoop(state, lines[i]);
    }
    assert lines[..|lines|] == lines;
    RunSplitAfter(EMPTY, lines, text, |lines|);
    SplitAfterIsLines(text);
    assert Lines(text)[..|Lines(text)|] == Lines(text);
    RunIsRunLines(EMPTY, text);
  }

  method CutShortLoop(markdown: string, maxLen: int) returns (r: string)
    ensures r == CutShort(markdown, maxLen)
  {
    hide Run, CutAtRune, Closer;
    var budget := maxLen - |CUT_SHORT_NOTE|;
    var room := budget;
    while room > 0
      invariant CutShortFrom(markdown, room, maxLen) == CutShort(markdown, maxLen)
      decreases room
    {
      var cut := CutAtRuneLoop(markdown, room);
      var state := RunLoop(cut);
      var closer := CloserLoop(state);
      closer := "\n" + closer;
      var over := |cut| + |closer| - budget;
      if over > 0 {
        room := room - over;
        continue;
      }
      return cut + closer + CUT_SHORT_NOTE;
    }
    r := CutAtRuneLoop(markdown, maxLen);
  }

  /* ----- framing ----- */

  function Tail(i: nat, total: nat, truncated: bool, cfg: Config): string {
    if i + 1 < total then CONTINUED_IN
    else FOOTER_SEPARATOR + cfg.footer + if truncated then TRUNCATED_NOTE else ""
  }

  function Body(sections: seq<string>, i: nat, total: nat, cfg: Config): string {
    ChunkHeader(cfg.identifier, i + 1, total) + (if i > 0 then CONTINUED_FROM else "") + Concat(sections)
  }

  function Frame(sections: seq<string>, i: nat, total: nat, truncated: bool, cfg: Config): string {
    var body, tail := Body(sections, i, total, cfg), Tail(i, total, truncated, cfg);
    (if |body| + |tail| > cfg.maxLength then CutShort(body, cfg.maxLength - |tail|) else body) + tail
  }

  /** A report without sections says so. */
  function Framed(chunks: seq<seq<string>>): seq<seq<string>> {
    if |chunks| == 0 || (|chunks| == 1 && |chunks[0]| == 0) then [["No changes"]] else chunks
  }

  function FrameChunks(chunks: seq<seq<string>>, truncated: bool, cfg: Config): seq<string> {
    var framed := Framed(chunks);
    seq(|framed|, i requires 0 <= i < |framed| => Frame(framed[i], i, |framed|, truncated, cfg))
  }

  method FrameChunksLoop(chunks: seq<seq<string>>, truncated: bool, cfg: Config) returns (result: seq<string>)
    ensures result == FrameChunks(chunks, truncated, cfg)
  {
    hide ChunkHeader, CutShort, Concat, TRUNCATED_WORDS, CONTINUED_IN_WORDS, CONTINUED_FROM_WORDS;
    var framed := chunks;
    if |chunks| == 0 || (|chunks| == 1 && |chunks[0]| == 0) {
      framed := [["No changes"]];
    }
    var total := |framed|;
    result := [];
    for i := 0 to total
      invariant |result| == i
      invariant forall j :: 0 <= j < i ==> result[j] == Frame(framed[j], j, total, truncated, cfg)
    {
      var body := ChunkHeader(cfg.identifier, i + 1, total);
      if i > 0 {
        body := body + CONTINUED_FROM;
      }
      body := body + Concat(framed[i]);
      var tail := CONTINUED_IN;
      if i == total - 1 {
        tail := FOOTER_SEPARATOR + cfg.footer;
        if truncated {
          tail := tail + TRUNCATED_NOTE;
        }
      }
      assert body == Body(framed[i], i, total, cfg) && tail == Tail(i, total, truncated, cfg);
      if |body| + |tail| > cfg.maxLength {
        body := CutShortLoop(body, cfg.maxLength - |tail|);
      }
      result := result + [body + tail];
    }
  }

  function SplitIntoChunks(sections: seq<string>, cfg: Config): seq<string> {
    var chunks := Pack(sections, SectionBudget(cfg));
    if |chunks| > cfg.maxChunks then FrameChunks(chunks[..cfg.maxChunks], true, cfg)
    else FrameChunks(chunks, false, cfg)
  }

  method SplitIntoChunksLoop(sections: seq<string>, cfg: Config) returns (comments: seq<string>)
    ensures comments == SplitIntoChunks(sections, cfg)
  {
    var rawChunks := PackSections(sections, SectionBudget(cfg));
    var truncated := |rawChunks| > cfg.maxChunks;
    if truncated {
      rawChunks := rawChunks[..cfg.maxChunks];
    }
    comments := FrameChunksLoop(rawChunks, truncated, cfg);
  }

  /* ----- the report ----- */

  /** The app has sections in the report: it is not deleted, and no unchanged result without a sticky one hides it. */
  predicate Shown(c: Content, name: string) {
    name !in c.deleted && (NoChanges(ResultsOf(c, name)) ==> HasSticky(ResultsOf(c, name)))
  }

  function AppPart(c: Content, emoji: CommitState -> string, name: string, budget: int): seq<string> {
    if name in c.deleted then [] else AppSectionsOf(name, ResultsOf(c, name), emoji, budget)
  }

  /** The sections of all apps. */
  function AllSections(c: Content, emoji: CommitState -> string, names: seq<string>, budget: int): seq<string> {
    if names == [] then []
    else AllSections(c, emoji, names[..|names| - 1], budget) + AppPart(c, emoji, names[|names| - 1], budget)
  }

  /** The sections of the apps up to where the cap on chunks is exceeded. */
  function BuildSections(
      c: Content, emoji: CommitState -> string, names: seq<string>, budget: int, maxChunks: nat): seq<string> {
    if names == [] then [] else
    var sections := BuildSections(c, emoji, names[..|names| - 1], budget, maxChunks);
    if |Pack(sections, budget)| > maxChunks then sections
    else sections + AppPart(c, emoji, names[|names| - 1], budget)
  }

  function BuildComment(c: Content, emoji: CommitState -> string, names: seq<string>, cfg: Config): seq<string> {
    var one := BuildSections(c, emoji, names, OneCommentBudget(cfg), 1);
    if FitsOneComment(one, cfg) then FrameChunks([one], false, cfg)
    else SplitIntoChunks(BuildSections(c, emoji, names, SectionBudget(cfg), cfg.maxChunks), cfg)
  }

  method BuildSectionsLoop(m: Message, emoji: CommitState -> string, names: seq<string>, budget: int, maxChunks: nat)
    returns (sections: seq<string>)
    requires forall i :: 0 <= i < |names| ==> names[i] in m.apps
    ensures sections == BuildSections(m.View(), emoji, names, budget, maxChunks)
  {
    hide Pack, AppSectionsOf;
    ghost var c := m.View();
    sections := [];
    for i := 0 to |names|
      invariant sections == BuildSections(c, emoji, names[..i], budget, maxChunks)
    {
      assert names[..i + 1][..i] == names[..i];
      var packed := PackSections(sections, budget);
      if |packed| > maxChunks {
        StoppedStaysStopped(c, emoji, names, i, |names|, budget, maxChunks);
        assert names[..|names|] == names;
        return;
      }
      if names[i] in m.deletedAppsSet {
        assert sections + [] == sections;
        continue;
      }
      var more := BuildAppSections(names[i], m.apps[names[i]], emoji, budget);
      sections := sections + more;
    }
    assert names[..|names|] == names;
  }

  lemma {:induction false} StoppedStaysStopped(
      c: Content, emoji: CommitState -> string, names: seq<string>, i: nat, n: nat, budget: int, maxChunks: nat)
    requires i <= n <= |names|
    requires |Pack(BuildSections(c, emoji, names[..i], budget, maxChunks), budget)| > maxChunks
    ensures BuildSections(c, emoji, names[..n], budget, maxChunks) ==
        BuildSections(c, emoji, names[..i], budget, maxChunks)
  {
    hide Pack, AppPart;
    if i < n {
      StoppedStaysStopped(c, emoji, names, i, n - 1, budget, maxChunks);
      assert names[..n][..n - 1] == names[..n - 1];
    }
  }

  /** The names of all apps in ascending order: there is one such list. */
  ghost predicate SortedKeys(names: seq<string>, keys: set<string>) {
    StrictlySorted(names) && forall x :: x in names <==> x in keys
  }

  lemma SortedKeysUnique(keys: set<string>, a: seq<string>)
    requires SortedKeys(a, keys)
    ensures forall b :: SortedKeys(b, keys) ==> b == a
  {
    hide StrictlySorted;
    forall b | SortedKeys(b, keys)
      ensures b == a
    {
      StrictlySortedUnique(a, b);
    }
  }

  method BuildCommentLoop(
      m: Message, emoji: CommitState -> string, maxLength: int, maxComments: int, identifier: string, footer: string)
    returns (comments: seq<string>)
    ensures forall names :: SortedKeys(names, m.apps.Keys) ==>
              comments ==
                BuildComment(m.View(), emoji, names, Config(maxLength,
                  if 0 < maxComments <= 999 then maxComments else 999, identifier, footer))
  {
    var cap := maxComments;
    if cap <= 0 || cap > MAX_COMMENTS {
      cap := MAX_COMMENTS;
    }
    hide BuildSections, Pack, FrameChunks, StrictlySorted, FitsOneComment;
    var sorted := m.SortedNames();
    assert SortedKeys(sorted, m.apps.Keys);
    hide SortedKeys;
    SortedKeysUnique(m.apps.Keys, sorted);
    var cfg := Config(maxLength, cap, identifier, footer);
    var sections := BuildSectionsLoop(m, emoji, sorted, OneCommentBudget(cfg), 1);
    var fits := FitsOneCommentLoop(sections, cfg);
    if fits {
      comments := FrameChunksLoop([sections], false, cfg);
      return;
    }
    sections := BuildSectionsLoop(m, emoji, sorted, SectionBudget(cfg), cfg.maxChunks);
    comments := SplitIntoChunksLoop(sections, cfg);
  }
}
