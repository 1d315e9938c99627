# kubechecks in Dafny

kubechecks runs checks against the Argo CD apps that a pull request touches and reports the results as
VCS comments. This project models its logic that is hard to get right by eye and proves what it promises:

- **The report** (`pkg/msg`): check details are cut between lines into parts that each render on their own, checks
  are packed into sections, sections into comments, and no comment is longer than the VCS allows. `Text`, `Utf8`
  (sections 3 and 4 of RFC 3629), `Markdown` (the subset of section 4.5 of CommonMark 0.31.2 that the code tracks),
  `DetailsSplitter`, `Packing`, `AppSections`, `Messages` and `Comments` hold the code; `MarkdownLaws`,
  `ReadingLines`, `SplitterLaws`, `KeptText`, `StandAlone`, `TagsInSummaries`, `TameContent`, `SplitUtf8`, `AppSectionLaws`, `CommentLaws`,
  `ReportedResults`, `TightCuts`, `RoomyContent`, `ContainedText`, `WholeComments`, `WholeReports`, `OneCheckReports`, `CodeBlocks` and
  `Ordering` hold what is proved about it.
- **The queue of a repository** (`pkg/queue`): `RepoQueue` is the object and, around it, a step system of any
  number of enqueuers, one worker and shutdown.
- **Removal prediction** (`pkg/checks/diff/removals.go`): `FieldRemovals` and `ManagedFields` look up and remove
  paths in nested objects and lists; `RemovalLaws`, `SteadyPaths` and `ManagedFieldLaws` say which paths are left and
  which are reported.
- **The apps of one check run** (`pkg/events`): `CheckEvents` is the producer, its workers, the channel and the wait group.
- **The index from changes to apps** (`pkg/appdir`): `Paths`, `AppDirectory`, `AppDirectoryLaws`.
- **Kustomizations** (`pkg/kustomize`): `Kustomize`, `KustomizeLaws`.
- **The archive cache** (`pkg/archive`): `ArchiveCache`.

`dafny verify dfyconfig.toml` checks everything.

How to read it. A Go string is a Dafny `string` in which each `char` is one byte, so `|s|` is `len(s)`. A loop of the
source is a method with that loop, proved equal to a recursive function; lemmas about the function say what it is for.
A concurrent protocol is an object whose methods are its critical sections, each proved equal to a function on the
shared state, and a step system built from the same functions; lemmas hold for every run, that is for every sequence of
enabled steps. Where the code does not do what one would expect, a lemma gives an input on which it does not.

In these places the code does not do what its comments or names suggest; the model follows the code:

- A rejected request (full queue) still records its commit, so it can make the worker skip the request that kept it
  out, and the PR ends up with no check (`RepoQueue.RejectedCommitCanStarveItsPr`).
- "Stale checks are skipped" holds only while a record exists: `end` deletes it, and a request sent late may run after
  a check of a newer commit (`RepoQueue.StaleCheckCanRun`, and `RepoQueue.StaleStartsOnlyAfterTheNewest` for exactly when).
- Removing an app with several sources cleans up the first one only (`AppDirectoryLaws.RemoveKeepsIndexed` for exactly
  when the index stays right, `AppDirectoryLaws.LeftoversMislead` for a lookup that goes wrong).
- Dropped fields are told apart by how their paths are shown, where a dot in a name looks like a step: of two that look
  alike, one is neither removed nor reported (`ManagedFieldLaws.DottedNameIsLost`, `ManagedFieldLaws.GoneExactly`).
- A details tag in a summary that is carried over a cut opens a block too many in the next part
  (`TagsInSummaries.TagInSummarySpoilsPart`, `StandAlone.PartsStandAloneExactly` for exactly which parts close).
- Details that are not cut are printed as they are: an open tag in them leaves the comment open
  (`OneCheckReports.OpenTagStaysOpen`, `OneCheckReports.HarmlessExactly` for exactly which details do no harm), and so
  does a fence line in the text of a diff (`CodeBlocks.FenceInDiffStaysOpen`, `CodeBlocks.CodeBlockExactly`). A summary
  that ends in the start of a tag becomes one when a part number is added (`WholeReports.NumberedStandsAlone`).
- `cutShort` says that it closes what its cut left open; it gives up, and closes nothing, where the closer of a cut on
  its way takes up the budget, even if a shorter cut could be closed (`TightCuts.CutShortExactly`,
  `TightCuts.ShorterCutIsMissed`).
- The path that a download returns can be that of an archive other than the one the caller holds
  (`ArchiveCache.GivenPathExactly` for exactly when).

## Model

| member | source | states |
|---|---|---|
| Text.SplitAfterIsLines | pkg/msg/message.go:448 | cutting after every newline gives the non-empty lines in order, and one empty string exactly when the text ends its last line |
| Text.DecimalReads | pkg/msg/message.go:205-207 | the decimal digits of a number stand for it, with no zero in front |
| Utf8.CutAtRuneLoop | pkg/msg/message.go:424-433 | the loop that steps back over tail bytes computes the specified prefix |
| Utf8.CutAtRuneIsLongest | pkg/msg/message.go:424-433 | the result is the longest prefix of at most n bytes that ends where a rune starts, or the empty one |
| Utf8.CutAtRuneKeepsRunes | pkg/msg/message.go:424-433 | on valid UTF-8 no rune is cut, and at most three bytes of room are lost |
| Markdown.NextLoop | pkg/msg/message.go:350-381 | reading a line updates the open fence, the open blocks and their summaries as specified |
| Markdown.CloserLoop | pkg/msg/message.go:399-408 | closer ends the fence and then every open block |
| Markdown.OpenerLoop | pkg/msg/message.go:410-422 | opener prints every open block with its summary and then the fence |
| Markdown.CloserLength | pkg/msg/message.go:391-397 | closerLen is the length of closer for every state |
| MarkdownLaws.NextNewline | pkg/msg/message.go:338-381 | a line means the same with and without its newline |
| MarkdownLaws.RunSameOpen | pkg/msg/message.go:350-381 | what is open after any text depends only on what was open before it, not on carried summaries or info strings |
| MarkdownLaws.CloserCloses | pkg/msg/message.go:399-408 | reading closer from any reachable state leaves no fence and no block open |
| MarkdownLaws.OpenerReopens | pkg/msg/message.go:410-422 | from every reachable state: reading opener from a fresh start opens as much as was open, if and only if the details tags in the carried summaries cancel out and the info string of an open fence does not start with a backtick |
| MarkdownLaws.CleanIsCarriable | pkg/msg/message.go:410-422 | summaries without details tags, not even one that a blank completes, are enough |
| MarkdownLaws.OpenerReads | pkg/msg/message.go:410-422 | from every reachable state: what reading opener opens, told from the carried texts alone |
| MarkdownLaws.RunNamedOpener | pkg/msg/message.go:410-422 | reading back one opened block gives that block and whatever tags its summary line holds |
| ReadingLines.TagsInOrder | pkg/msg/message.go:364-372 | the tags of a line count one by one: an opening tag, with attributes or without, opens a block, a closing one closes one, and other text does neither |
| ReadingLines.FenceReads | pkg/msg/message.go:338-348 | a fence line is at most three blanks, at least three backticks and an info string, and nothing else is |
| ReadingLines.NextAtFence | pkg/msg/message.go:353-363 | such a line opens a fence with its info string, and ends one exactly if it is as wide and has no info string |
| ReadingLines.SummaryIsCarried | pkg/msg/message.go:373-379 | the innermost block takes the summary of a line, cut to 80 bytes, unless it has one |
| ReadingLines.CarriedBytes | pkg/msg/message.go:373-379 | of these 80 bytes no more than part of a rune is lost |
| ReadingLines.CloserClosesItsOwn | pkg/msg/message.go:391-408 | read at whatever depth, closer closes what is open in its state and nothing around it, and prints nothing else |
| ReadingLines.OpenerOpensItsOwn | pkg/msg/message.go:410-422 | read at whatever depth, opener opens the blocks of its state, each with its summary and a note, and its fence with its info string |
| ReadingLines.OpenerLength | pkg/msg/message.go:410-422 | and prints nothing else |
| TagsInSummaries.TagInSummaryIsReached | pkg/msg/message.go:350-381 | two lines of content lead to a carried summary that is a details tag |
| TagsInSummaries.TagInSummarySpoilsPart | pkg/msg/message.go:438-486 | for every plain line that does not fit after those two: the content is cut there, and the part that follows leaves a block open |
| TagsInSummaries.DeeperPartStaysOpen | pkg/msg/message.go:410-486 | so after any two lines whose state is read back deeper than it is |
| DetailsSplitter.ShortenLoop | pkg/msg/message.go:463-475 | the truncation loop ends, and writes the line or its longest fitting prefix with the mark |
| DetailsSplitter.TakeLine | pkg/msg/message.go:448-478 | one line: the part is closed and a new one opened exactly when the line does not fit with its closer, then the line is written, cut if it must be |
| DetailsSplitter.SplitDetailsAtLines | pkg/msg/message.go:438-486 | the byte buffer, the tracked state and the finished parts follow the line by line specification |
| DetailsSplitter.MarkerChangesNothing | pkg/msg/message.go:463-475 | the truncation mark opens and closes nothing |
| SplitterLaws.FillConserves | pkg/msg/message.go:448-485 | line for line the bodies of the parts are the content, an over-long line being a prefix of itself plus the mark |
| SplitterLaws.FillChained | pkg/msg/message.go:448-485 | each part starts in the state the one before it ended in, and ends in the state its own lines lead to |
| SplitterLaws.FillNoneEmpty | pkg/msg/message.go:448-485 | every part holds at least one line |
| SplitterLaws.CutsOnlyWhenFull | pkg/msg/message.go:454-461 | a part ends early only because the next line does not fit it together with the closer then needed |
| SplitterLaws.LeftWholeExactly | pkg/msg/message.go:438-441 | content is left whole if it fits or nothing does, and is cut otherwise |
| SplitterLaws.SplitIsLossless | pkg/msg/message.go:438-486 | when every line fits between its opener and closer, the bodies concatenate to the content byte for byte |
| SplitterLaws.PartsFit | pkg/msg/message.go:438-486 | every part is at most maxLen bytes if opener, closer and mark fit maxLen in every state a part starts in |
| SplitterLaws.OverlongPart | pkg/msg/message.go:463-475 | without that hypothesis: a part over the limit is opener, mark and closer alone |
| KeptText.ShortenKeeps | pkg/msg/message.go:463-475 | an over-long line is kept but for the mark, the closer and at most three bytes of a rune |
| KeptText.FillKeeps | pkg/msg/message.go:448-485 | so for every line of the content, told from the state in which the loop comes to it |
| KeptText.RoomyKeeps | pkg/msg/message.go:438-486 | and told from the content and the limit: each line is written whole, or but for what is open around it, the mark and part of a rune |
| StandAlone.PieceStandsAlone | pkg/msg/message.go:410-486 | opener, lines, closer leave nothing open, if and only if the last line does not end in mid-line inside a fence that the closer cannot end |
| StandAlone.PieceExactly | pkg/msg/message.go:399-486 | whatever is carried: opener, lines, closer leave nothing open, if and only if the lines, read after what opener is read as, leave no more open than closer closes |
| StandAlone.FenceOnLastLine | pkg/msg/message.go:399-408 | exactly when a closing fence glued to an unfinished line still closes |
| StandAlone.MergedFence | pkg/msg/message.go:338-408 | what a fence line becomes when more backticks land on it |
| StandAlone.PartsStandAlone | pkg/msg/message.go:438-486 | every part but the last stands alone, and the last does if and only if it does not spoil its closer; it always does when the content ends its last line |
| StandAlone.PartsStandAloneExactly | pkg/msg/message.go:438-486 | for every content and limit, exactly which parts stand alone; only a last part that ends in mid-line inside a fence is left to PartsStandAlone |
| TameContent.PieceCarriable | pkg/msg/message.go:438-486 | what is carried over any cut of tame content, truncated lines included, can be printed and read back |
| TameContent.TameContentStandsAlone | pkg/msg/message.go:438-486 | of content without backticks in info strings and without details tags in one line summaries: every part but the last stands alone, and the last if and only if it does not spoil its closer; all do if the content ends its last line or no fence is open at its end |
| TameContent.PieceNoFence | pkg/msg/message.go:438-486 | no part of content without a fence line ends inside a fence, truncated lines included |
| RoomyContent.FillFollows | pkg/msg/message.go:448-478 | where the fence lines fit, the same fence is open in what is written as in the content, whatever else is cut off |
| RoomyContent.WholeFencesStandAlone | pkg/msg/message.go:438-486 | then all parts stand alone, unfinished last line or not, if the content closes its fence and is tame outside fences |
| RoomyContent.RoomyFill | pkg/msg/message.go:438-486 | the fence lines fit, and the states at all cuts are bounded, if the limit covers a number of bytes that depends on the content alone |
| RoomyContent.RoomyPartsFit | pkg/msg/message.go:438-486 | under such a limit every part is at most maxLen bytes |
| RoomyContent.RoomyStandsAlone | pkg/msg/message.go:438-486 | and stands alone, if the content closes its fence and is tame outside fences |
| SplitUtf8.SplitKeepsRunes | pkg/msg/message.go:463-475 | the parts of valid UTF-8 are valid UTF-8, for every limit |
| Packing.BatchBySize | pkg/checks/diff/serverside.go:155-170 | the nested loops over i, start and size compute greedy batches of resource sizes |
| Packing.BatchesAreFewest | pkg/checks/diff/serverside.go:155-170 | the batches cover all resources in order, exceed the limit only as single ones, and are as few as any such partition has |
| Packing.BatchBytes | pkg/checks/diff/serverside.go:155-170 | the size of a batch is that of its live and target resources |
| Packing.GreedyIsFewest | pkg/msg/split.go:141-160 | greedy batches are no more than those of any order-preserving partition within the budget |
| Packing.PackSections | pkg/msg/split.go:141-160 | the loop over current and currentLen computes the greedy chunks |
| Packing.PackKeepsSections | pkg/msg/split.go:141-160 | chunks hold all sections in order, each a single section or within the budget |
| Packing.PackIsFewest | pkg/msg/split.go:141-160 | any other chunks of the same sections with that property are at least as many |
| Packing.PackOfPrefix | pkg/msg/split.go:141-160 | packing more sections changes at most the last chunk of what was packed before |
| AppSections.PartsCount | pkg/msg/message.go:292-316 | a check has at least one part, and at most as many as the line bound that ends the reserve loop |
| AppSections.SplitCheckLoop | pkg/msg/message.go:292-316 | the loop that grows reserve ends for every input and computes the numbered checks |
| AppSections.ReserveHolds | pkg/msg/message.go:297-305 | on exit the reserve is wide enough for every part suffix |
| AppSectionLaws.ReserveIsTight | pkg/msg/message.go:295-305 | the reserve is the guess, or what the number of parts took with a smaller one |
| AppSectionLaws.UpToNinetyNineParts | pkg/msg/message.go:292-305 | up to 99 parts the details get all of the limit but the rest of the check and a number of two digits |
| AppSectionLaws.RoomIsExact | pkg/msg/message.go:292-299 | the room for details is what the limit leaves them, to the byte |
| AppSections.NumberedFits | pkg/msg/message.go:292-316 | a part that fits the room left for it fits maxLen with its suffix |
| AppSections.SplitCheckFits | pkg/msg/message.go:292-316 | if the parts of the details fit their room, all rendered parts fit maxLen |
| AppSections.SectionsLoop | pkg/msg/message.go:222-290 | the loop keeps groupLen equal to the length of the wrapped group and computes the sections |
| AppSectionLaws.SectionsHoldEveryCheck | pkg/msg/message.go:222-290 | the sections hold every check exactly once and in order, an oversized one as its consecutive parts |
| AppSectionLaws.ExpandExactly | pkg/msg/message.go:254-316 | a check is shown whole if and only if a section of its own fits the limit; otherwise its parts are, each under its summary and number |
| AppSectionLaws.SectionsFit | pkg/msg/message.go:222-290 | no section is over the limit if the parts of oversized checks are not |
| AppSectionLaws.CuttablePartsFit | pkg/msg/message.go:250-316 | the parts of a check fit whenever openers, closers and mark leave room in the limit |
| AppSectionLaws.GroupsAreGreedy | pkg/msg/message.go:222-290 | checks that fit a section each are grouped greedily |
| AppSectionLaws.SectionsAreFewest | pkg/msg/message.go:222-290 | and take the fewest sections of any grouping in order that fits |
| Ordering.SortSorts | pkg/msg/message.go:550-559 | sorting gives an ascending permutation |
| Ordering.SortDistinct | pkg/msg/message.go:550-559 | sorting the keys of a map gives them in strictly ascending order, each once |
| Ordering.StrictlySortedUnique | pkg/msg/message.go:550-559 | there is only one such order, whatever order the map yields its keys in |
| Messages.Message.Remove | pkg/msg/message.go:105-121 | marks the app as deleted unless it has a sticky result |
| Messages.Message.AddNew | pkg/msg/message.go:131-153 | adds the app once and takes back a deletion, keeping results it has |
| Messages.Message.AddResult | pkg/msg/message.go:155-169 | appends the result and takes back a deletion of the app |
| Messages.Message.WorstState | pkg/msg/message.go:85-103 | the greatest state among results that are not suppressed: a bound, and reached unless it is the least state |
| Messages.Message.SortedNames | pkg/msg/message.go:550-559 | all app names, each once, ascending |
| Messages.ResultsAreKept | pkg/msg/message.go:105-169 | after any operations an app has exactly the results given to it, in order |
| Messages.DeletedExactly | pkg/msg/message.go:105-169 | after any operations an app is marked as deleted if and only if it was removed last and never got a sticky result |
| Messages.KnownExactly | pkg/msg/message.go:105-169 | after any operations an app is known if and only if it was added or got a result |
| Messages.BuildAppSections | pkg/msg/message.go:222-252 | the checks that are shown, their worst state and the header lead to these sections |
| ReportedResults.RanksInOrder | pkg/commitState.go:13-22 | the states from best to worst |
| ReportedResults.ShownResults | pkg/msg/message.go:222-247 | exactly the results with changes that were not skipped are shown, in order, each with its summary, how it went and its details, under the worst of their states |
| Comments.CutShortLoop | pkg/msg/split.go:120-139 | the loop over room ends and computes the cut, for every limit |
| Comments.RunLoop | pkg/msg/split.go:125-128 | reading the cut line by line is folding the automaton over it |
| Comments.FrameChunksLoop | pkg/msg/split.go:83-116 | every chunk gets its header and its tail, and is cut short only if that is over the limit |
| Comments.SplitIntoChunksLoop | pkg/msg/split.go:72-81 | packing, dropping chunks past the cap, and framing |
| Comments.BuildSectionsLoop | pkg/msg/message.go:534-548 | the loop over apps that stops once the chunks exceed the cap |
| Comments.BuildCommentLoop | pkg/msg/message.go:505-531 | one comment if everything fits one, otherwise chunks |
| CommentLaws.CutShortIsSafe | pkg/msg/split.go:120-139 | at most maxLen bytes, no rune cut; closed, whenever what closes any cut leaves some of the budget; without a budget a bare cut |
| CommentLaws.ClosedCutStandsAlone | pkg/msg/split.go:120-139 | a cut anywhere, closed and noted, leaves no fence or block open |
| TightCuts.CutShortExactly | pkg/msg/split.go:120-139 | the loop ends with a cut that is closed and noted, if and only if no closer that it comes to takes up the budget; otherwise with the bare cut |
| TightCuts.CutShortKeeps | pkg/msg/split.go:120-139 | all of the limit but the note, the longest closer on the way and part of a rune goes to the text |
| TightCuts.ShorterCutIsMissed | pkg/msg/split.go:118-139 | for every number of opening tags: a limit under which all of them are left open, though a shorter cut could be closed |
| CommentLaws.EveryCommentFits | pkg/msg/message.go:505-531 | every comment is at most MaxLength bytes whenever each tail alone is |
| CommentLaws.WithinBudgetIsWhole | pkg/msg/split.go:46-54 | a chunk within sectionBudget is never cut short, as any of up to 999 parts |
| CommentLaws.HeaderWidth | pkg/msg/split.go:39-54 | no part number up to 999 makes the header wider than the budget counts it |
| CommentLaws.OneCommentIsWhole | pkg/msg/split.go:56-70 | a report that fits one comment is not cut |
| CommentLaws.ChunksPastTheCap | pkg/msg/split.go:72-81 | sections packed after the cap was exceeded do not change the comments |
| CommentLaws.OneCommentSkipsNoApp | pkg/msg/message.go:523-548 | the one comment branch is taken exactly when all apps fit, and then no app was skipped |
| CommentLaws.EarlyStopIsInvisible | pkg/msg/message.go:523-548 | the comments equal those of rendering every app |
| CommentLaws.StoppedIsPrefix | pkg/msg/message.go:534-548 | stopping early renders the first apps, and only once the chunks exceed the cap |
| CommentLaws.ReportHoldsEverySection | pkg/msg/message.go:505-531 | within the cap the comments hold every section of every app in order, whole |
| CommentLaws.TruncatedReportHoldsPrefix | pkg/msg/split.go:72-116 | past the cap the comments hold a proper prefix of the sections, and the last one ends with the note that says so |
| ReportedResults.ReportShowsApp | pkg/msg/message.go:505-548 | unless the report is truncated or cut short, every app that is shown has its heading in some comment, with the mark of that worst state |
| ReportedResults.ReportShowsResult | pkg/msg/message.go:505-548 | and every such result is in the comments, whole or as all of its parts |
| ReportedResults.HiddenPart | pkg/msg/message.go:534-548 | an app that is deleted, or unchanged without a sticky result, has no section |
| CommentLaws.SectionBudgetIsExact | pkg/msg/split.go:46-54 | sections are within sectionBudget if and only if a comment with them is within the limit as any of up to 999 parts, truncated or not |
| CommentLaws.OneCommentBudgetIsExact | pkg/msg/split.go:56-70 | sections fit one comment if and only if that comment is within the limit |
| CommentLaws.CommentReads | pkg/msg/split.go:83-116 | the heading, number and continuation before the sections, and the note or footer after them |
| CommentLaws.WholeReportInOneComment | pkg/msg/message.go:505-531 | a report that fits one comment is that comment, whole |
| CommentLaws.EmptyReportSaysSo | pkg/msg/split.go:83-87 | a report without sections is one comment that says that there are no changes |
| ContainedText.TagDepthBetween | pkg/msg/message.go:364-372 | the depth after a line does not fall when the depth before it rises, and rises by no more |
| ContainedText.StandsAloneIsContained | pkg/msg/message.go:350-381 | a text leaves nothing open on its own, if and only if at whatever depth it is put it leaves no fence and no further block open |
| ContainedText.JoinedLeads | pkg/msg/message.go:209-220 | checks that are closed where they stand, joined, lead at most one block deeper before their last closing tag |
| ContainedText.SectionLeads | pkg/msg/message.go:218-220 | a section of such checks is one block that its last line closes |
| WholeReports.NumberedStandsAlone | pkg/msg/message.go:307-315 | a summary with a part number leaves nothing open, if and only if it did not without and does not end in the start of a details tag |
| WholeReports.SafeIsGood | pkg/msg/message.go:250-316 | a check that is closed where it stands is so as it is rendered, whole or as its numbered parts; only if it has to be cut more is asked of it, and of the room for its details |
| WholeReports.SectionsAreGood | pkg/msg/message.go:222-316 | all sections of an app are good if its checks, whole or as numbered parts, are closed where they stand |
| WholeComments.ExtendBySection | pkg/msg/message.go:218-220 | sections that meet on one line close and open exactly one block |
| WholeComments.FrameStandsAlone | pkg/msg/split.go:83-116 | a framed chunk, whole or cut short, continued or last, leaves nothing open |
| WholeComments.EveryCommentStandsAlone | pkg/msg/message.go:505-531 | no comment of a report with good sections leaves a block or a fence open, whole, continued, cut short or truncated |
| WholeComments.PlainFrameIsGood | pkg/msg/split.go:39-44 | no heading leaves anything open if the identifier is one line without a details tag |
| WholeReports.GoodReportStandsAlone | pkg/msg/message.go:505-531 | the same, told from the checks as they are rendered |
| WholeReports.ReportStandsAlone | pkg/msg/message.go:505-531 | the same, told from the apps, their checks and the budget |
| WholeReports.RoomyReportStandsAlone | pkg/msg/message.go:505-531 | and without a hypothesis on chunks: if every check that is cut has room, no comment is cut short and none leaves anything open |
| OneCheckReports.BuiltFooterIsPlain | pkg/msg/message.go:177-194 | both footers that are built hold no details tag and no backtick, if what they tell about the run holds none |
| OneCheckReports.OneCheckExactly | pkg/msg/message.go:505-531 | the comment of a report of one check leaves nothing open, if and only if its details, read two blocks deep, leave no fence and no third block open; for every heading, summary and footer without a details tag |
| OneCheckReports.HarmlessExactly | pkg/msg/message.go:505-531 | for every such heading and footer: details keep every comment of every otherwise good report closed, whatever the limits, if and only if they meet that condition |
| OneCheckReports.OpenTagStaysOpen | pkg/msg/message.go:505-531 | a check whose details are an opening tag leaves its comment open |
| CodeBlocks.CodeBlockExactly | pkg/checks/diff/diff.go:175 | details that are a code block are closed where they stand, if and only if the last line still finds the fence of the first |
| CodeBlocks.CodeBlockClosed | pkg/checks/diff/diff.go:175 | so whenever no line of the text ends the fence |
| CodeBlocks.CodeBlockIsSafe | pkg/checks/hooks/check.go:112-114 | then the check is safe, whole or cut, if the room for its details takes a multiple of its longest fence line |
| CodeBlocks.FenceInText | pkg/checks/diff/diff.go:175 | a last line of the text that ends the fence leaves one open |
| CodeBlocks.FenceInDiffStaysOpen | pkg/checks/diff/diff.go:175 | and so a comment with such a diff |
| RepoQueue.Queue.Record | pkg/queue/manager.go:343-350 | records the commit and cancels a running check of another commit of the PR |
| RepoQueue.Queue.TrySend | pkg/queue/manager.go:163-186 | accepts exactly when fewer requests are queued than the queue holds, and never blocks |
| RepoQueue.Queue.Receive | pkg/queue/manager.go:189-219 | takes the oldest request |
| RepoQueue.Queue.Start | pkg/queue/manager.go:352-361 | skips exactly a request whose PR has another commit recorded; otherwise it runs |
| RepoQueue.Queue.Stop | pkg/queue/manager.go:363-373 | forgets the check, and the record if it is still this commit |
| RepoQueue.EveryRunKeepsInv | pkg/queue/manager.go:163-373 | the invariant holds in every interleaving of enqueuers, worker and shutdown |
| RepoQueue.StaleChecksAreCancelled | pkg/queue/manager.go:343-361 | a running check whose commit is not the recorded one has been cancelled as superseded, and nothing is cancelled without reason |
| RepoQueue.LastRequestIsNeverSkipped | pkg/queue/manager.go:352-373 | a request for the last commit recorded for its PR is never skipped |
| RepoQueue.QuietMeansChecked | pkg/queue/manager.go:163-373 | once nothing is queued, held, being sent or shut down, the last request of a PR has been checked if and only if the queue had accepted it |
| RepoQueue.FirstInFirstOut | pkg/queue/manager.go:125-219 | accepted requests are, in order, those begun, skipped or drained, the one held and those queued; the queue never exceeds its capacity and at most one check runs, none between requests |
| RepoQueue.TurnedAwayOnlyAtCapacity | pkg/queue/manager.go:163-186 | in every run, whoever was turned away met as many accepted requests, neither taken nor drained, as the queue was made for |
| RepoQueue.NothingBeginsAfterDraining | pkg/queue/manager.go:196-218 | in every run, once shutdown drains the queue nothing is begun or skipped any more |
| RepoQueue.ProcessedCounts | pkg/queue/manager.go:306-331 | in every run, processed is the number of checks that returned without an error |
| RepoQueue.StaleStartsOnlyAfterTheNewest | pkg/queue/manager.go:352-373 | a stale request starts if and only if the record is gone, and then a check of the last commit has ended |
| RepoQueue.StaleCheckCanRun | pkg/queue/manager.go:363-373 | a run in which a stale check starts |
| RepoQueue.RejectedCommitCanStarveItsPr | pkg/queue/manager.go:163-186 | a run in which a rejected request leaves its PR without any check |
| FieldRemovals.KeyMatchesLoop | pkg/checks/diff/removals.go:220-256 | an item matches a key if and only if every field of the key that the item has is equal, and it has at least one |
| FieldRemovals.ListIndexLoop | pkg/checks/diff/removals.go:220-256 | the first item that an element selects, or -1 |
| FieldRemovals.StepAt | pkg/checks/diff/removals.go:198-218 | one step into an object or a list |
| FieldRemovals.WalkLoop | pkg/checks/diff/removals.go:186-196 | hasPath walks element by element and stops where nothing is found |
| FieldRemovals.RemovePathCuts | pkg/checks/diff/removals.go:258-326 | removal succeeds if and only if the path exists, then cuts it, and otherwise changes nothing |
| RemovalLaws.WithoutFinds | pkg/checks/diff/removals.go:220-293 | when an item is removed, another element finds the item it found, if and only if it stays beside it |
| RemovalLaws.WithoutLoses | pkg/checks/diff/removals.go:220-293 | and the element that found it finds nothing, if and only if it matches no later item |
| RemovalLaws.ReplacedFinds | pkg/checks/diff/removals.go:220-326 | when an item is changed, an element finds the item it found, if and only if it finds an earlier one or the change leaves the match as it was |
| RemovalLaws.MatchesAfterCut | pkg/checks/diff/removals.go:220-326 | whether it does, told from the item before: a key goes on to match if and only if its other fields do |
| RemovalLaws.UndisturbedExactly | pkg/checks/diff/removals.go:198-326 | at every list that the removed path and another path share, the other finds the very item it found, if and only if these conditions hold along the two paths |
| RemovalLaws.PartAtField | pkg/checks/diff/removals.go:198-326 | paths that part at a field before they share a list never disturb each other |
| RemovalLaws.CutPath | pkg/checks/diff/removals.go:258-326 | after one removal an undisturbed path exists if and only if it existed and the removal is not a prefix of it; what it finds is what it found, less what was removed below it |
| RemovalLaws.RemovalsAreExact | pkg/checks/diff/removals.go:60-97 | after all removals a path that they leave undisturbed exists if and only if it existed and no removal is a prefix of it, and its value is unchanged if none lies below it |
| RemovalLaws.RemovedKeyFieldMisleads | pkg/checks/diff/removals.go:220-293 | removing a field that tells items apart disturbs another path, which vanishes without being covered |
| SteadyPaths.CutSteady | pkg/checks/diff/removals.go:198-326 | along a steady path, told from the object before, no removal disturbs, and the path stays steady |
| SteadyPaths.SteadyPathsAreExact | pkg/checks/diff/removals.go:60-97 | so for all removals: exactly what no removal is a prefix of is left |
| SteadyPaths.NamedListIsSteady | pkg/checks/diff/removals.go:220-256 | a list whose items have distinct names is steady, whatever other lists hold under that name |
| ManagedFields.CollectLoop | pkg/checks/diff/removals.go:60-78 | the loop over applied paths collects removals and retained fields |
| ManagedFields.ResidueLoop | pkg/checks/diff/removals.go:80-90 | the loop over residue managers collects what they keep |
| ManagedFields.RemovePathOnce | pkg/checks/diff/removals.go:258-293 | reports true if and only if the path exists, then without what it leads to, and otherwise changes nothing |
| ManagedFields.SetInParentOnce | pkg/checks/diff/removals.go:295-326 | where the path exists the value is put there; where it fails nothing changes |
| ManagedFields.RemoveAllLoop | pkg/checks/diff/removals.go:92-97 | all removals one after another; modified if and only if one of them found its path |
| ManagedFields.ApplyFieldRemovals | pkg/checks/diff/removals.go:38-108 | nothing happens without a target or managed fields; otherwise the collected removals are made, modified says whether one found its path, and the retained fields are deduplicated |
| ManagedFields.RemovalPointLoop | pkg/checks/diff/removals.go:177-184 | the shortest prefix that the target lacks |
| ManagedFields.OwnersOfLoop | pkg/checks/diff/removals.go:138-146 | the other managers that own the path |
| ManagedFields.OwnedUnderLoop | pkg/checks/diff/removals.go:148-161 | whether another manager owns the path or one below it |
| ManagedFields.UniqueSorted | pkg/checks/diff/removals.go:351-360 | overwriting the slice that is being read still yields the distinct strings in order |
| ManagedFields.GroupByPath | pkg/checks/diff/removals.go:328-349 | entries of one path are merged, in order of first occurrence |
| ManagedFields.DedupeRetainedLoop | pkg/checks/diff/removals.go:328-349 | merging, sorting by path and owner lists |
| ManagedFieldLaws.UniqueIsStrict | pkg/checks/diff/removals.go:351-360 | the distinct strings of a sorted list are strictly ascending and the same strings |
| ManagedFieldLaws.CandidateIsAbsent | pkg/checks/diff/removals.go:60-78 | every removal is a prefix of a dropped path and absent from the target |
| ManagedFieldLaws.WholeBlockIsRemoved | pkg/checks/diff/removals.go:60-78 | what is removed for a dropped path that nobody else owns is the block at which it leaves the target, or the path alone if somebody else owns something in that block |
| ManagedFieldLaws.WholeBlockIsGone | pkg/checks/diff/removals.go:60-97 | so that block is gone from the predicted object, with no empty parents left behind |
| ManagedFieldLaws.OwnerExactly | pkg/checks/diff/removals.go:138-146 | the owners reported for a path are exactly the managers that own it |
| ManagedFieldLaws.RenderedPathsSurvive | pkg/checks/diff/removals.go:60-97 | no path that git renders and that was present is lost to removals that leave it undisturbed |
| ManagedFieldLaws.CollectedExactly | pkg/checks/diff/removals.go:60-78 | the removals are what is removed for the first dropped path of each string, and nothing else |
| ManagedFieldLaws.MissingIsAccounted | pkg/checks/diff/removals.go:60-78 | every dropped path is retained with exactly its owners, or a removal of its string is collected, which is a prefix of it if no two are shown alike |
| ManagedFieldLaws.GoneExactly | pkg/checks/diff/removals.go:60-97 | a path that was there is gone, if and only if what is removed for the first path of some string is a prefix of it |
| ManagedFieldLaws.LookAlikeIsLost | pkg/checks/diff/removals.go:69-76 | under every printing that shows two dropped paths alike the second stays live and is not reported |
| ManagedFieldLaws.DottedLooksAlike | pkg/checks/diff/removals.go:69-76 | one name with a dot is shown like two names |
| ManagedFieldLaws.DottedNameIsLost | pkg/checks/diff/removals.go:69-76 | so with the printing that is used: a name with a dot is removed, and the field in a block that is shown alike stays live and is not reported |
| ManagedFieldLaws.DroppedPathsAreReportedOrGone | pkg/checks/diff/removals.go:60-97 | a dropped path that others own is collected as retained with exactly its other owners; one that nobody else owns is gone from the predicted object |
| ManagedFieldLaws.PredictionAccounts | pkg/checks/diff/removals.go:60-108 | for both outputs: a dropped path that others own has its line in the deduplicated report, with its owners and nobody else's, whatever is removed; one that nobody else owns is gone |
| ManagedFieldLaws.CoversOwnedExactly | pkg/checks/diff/removals.go:138-161 | a removal covers a path another manager owns only if that path lies strictly below a dropped path nobody else owns, and, if no two are shown alike, always then |
| ManagedFieldLaws.RetainedExactly | pkg/checks/diff/removals.go:60-78 | the collecting retains exactly the dropped paths that another manager owns |
| ManagedFieldLaws.ResidueExactly | pkg/checks/diff/removals.go:80-90 | and the residue is exactly the paths left to client-side sync managers that are neither in the target nor applied |
| ManagedFieldLaws.ReportIsOfTheKept | pkg/checks/diff/removals.go:60-108 | every such path has its line in the deduplicated report, with its owners, and every line is that of such a path |
| ManagedFieldLaws.DedupeUnites | pkg/checks/diff/removals.go:328-349 | each retained path once, strictly ascending, with the strictly ascending union of its owners |
| CheckEvents.CheckEvent.Record | pkg/events/check.go:560-573 | an app is refused if and only if it was queued last with this very definition; otherwise it is recorded |
| CheckEvents.CheckEvent.Count | pkg/events/check.go:583-584 | one more in the wait group and in appsSent |
| CheckEvents.CheckEvent.Send | pkg/events/check.go:586-588 | the app goes to the end of the channel |
| CheckEvents.CheckEvent.Receive | pkg/events/worker.go:52-54 | a worker takes the oldest app |
| CheckEvents.CheckEvent.Done | pkg/events/worker.go:61-62 | one less in the wait group for each received app |
| CheckEvents.EveryRunKeepsInv | pkg/events/check.go:487-495 | the invariant holds in every interleaving of the producer and workers that queue further apps |
| CheckEvents.NothingIsSentAfterClose | pkg/events/check.go:487-495 | the wait group counts apps being sent, in the channel and being processed, so nothing can be sent on the closed channel |
| CheckEvents.AllProcessedAtClose | pkg/events/check.go:487-495 | at close every accepted app has been processed exactly once, and appsSent is their number |
| CheckEvents.AppsAreQueuedOnlyWhenChanged | pkg/events/check.go:560-573 | no app is queued again without another definition of it in between |
| CheckEvents.ChangedAppsAreQueued | pkg/events/check.go:560-576 | in every run an app is queued if and only if it is not what was queued last under its name |
| CheckEvents.EveryAppIsProcessed | pkg/events/check.go:487-495 | when the channel is closed, every app of the check, in each of its definitions, has been processed |
| Paths.ContainsIsByNames | pkg/appdir/app_directory.go:111-135 | a directory contains a path if and only if it is the root, or its cleaned names are the first names of the path |
| Paths.ParentTakesBack | pkg/kustomize/process.go:148-191 | joined to a directory, ".." takes back its last name |
| Paths.DotIsNothing | pkg/kustomize/process.go:148-191 | "." and doubled slashes change nothing |
| Paths.ParentAtTheTop | pkg/kustomize/process.go:148-191 | the root is its own parent, and above a relative path the parent is kept |
| Paths.DirAndBase | pkg/kustomize/process.go:20-38 | the last name of a path, and the directory it is in |
| AppDirectory.RemoveFromSlice | pkg/appdir/app_directory.go:284-291 | the first occurrence is removed, the rest keep their order |
| AppDirectory.MergeMaps | pkg/appdir/app_directory.go:260-274 | every key of either map, with combined values where both have it |
| AppDirectory.AppDirectory.AddApp | pkg/appdir/app_directory.go:179-211 | an unknown app is stored and listed under every directory and helm file of every source; a known one changes nothing |
| AppDirectory.AppDirectory.RemoveApp | pkg/appdir/app_directory.go:229-258 | the app is forgotten, and one mention of it for each path of its first source |
| AppDirectory.AppDirectory.NamesTouchedBy | pkg/appdir/app_directory.go:67-88 | the names listed under a containing directory or the file itself, in whatever order directories come |
| AppDirectory.AppDirectory.FindAppsBasedOnChangeList | pkg/appdir/app_directory.go:63-109 | the stored apps that are touched and follow the branch, each once |
| AppDirectory.AppDirectory.UnionWith | pkg/appdir/app_directory.go:49-55 | the merged directory, apps of the receiver first |
| AppDirectory.AddSourcesRefs | pkg/appdir/app_directory.go:185-210 | adding source by source lists all directories and all files of the app |
| AppDirectoryLaws.RemoveFirstCounts | pkg/appdir/app_directory.go:284-291 | removal takes exactly one occurrence, if there is one |
| AppDirectoryLaws.AddKeepsIndexed | pkg/appdir/app_directory.go:179-211 | adding keeps every name listed exactly as often as its app refers to the path |
| AppDirectoryLaws.RemoveKeepsIndexed | pkg/appdir/app_directory.go:229-258 | so does removing, if and only if the given spec covers all references of the stored one |
| AppDirectoryLaws.OwnSpecCovers | pkg/appdir/app_directory.go:213-258 | the stored spec covers itself if and only if it has one source |
| AppDirectoryLaws.UnionIsIndexed | pkg/appdir/app_directory.go:49-55 | so does a union, if and only if no app is in both directories |
| AppDirectoryLaws.FoundIsBruteForce | pkg/appdir/app_directory.go:63-109 | looking up the index finds what reading every stored spec finds |
| AppDirectoryLaws.FindIsExact | pkg/appdir/app_directory.go:63-258 | and so after every run of adds and covering removes, against a plain map of specs |
| AppDirectoryLaws.FoundExactly | pkg/appdir/app_directory.go:63-258 | what is found: the stored apps whose revision is the branch, none, or HEAD of main or master, and one of whose sources holds a changed path or refers to it as a helm file |
| AppDirectoryLaws.LeftoversMislead | pkg/appdir/app_directory.go:229-258 | after removing an app with two sources, a lookup finds its successor for a change that does not affect it |
| Kustomize.CleanPathsLoop | pkg/kustomize/process.go:148-191 | remote resources are dropped, rooted paths lose their slash, the others are joined to the base, in order |
| Kustomize.SortOut | pkg/kustomize/process.go:116-130 | fails if and only if a reference is missing; otherwise directories and files are told apart, in order |
| Kustomize.ReadDir | pkg/kustomize/process.go:70-130 | what a kustomization contributes and where it leads |
| Kustomize.Processor.ProcessDir | pkg/kustomize/process.go:44-146 | the recursion over the shared set of visited directories ends on every finite graph, enters what the depth first search enters, and returns what was found there in order |
| Kustomize.Processor.ProcessAll | pkg/kustomize/process.go:132-145 | the loop over directories stops at the first failure and concatenates the rest |
| Kustomize.ProcessKustomizationFile | pkg/kustomize/process.go:20-38 | another file name is refused; otherwise the search starts at the directory of the path with an empty set |
| Kustomize.VisitAppend | pkg/kustomize/process.go:132-145 | searching a list is searching its first part and then the rest with what was seen |
| KustomizeLaws.EnteredOnce | pkg/kustomize/process.go:44-52 | no directory is entered twice |
| KustomizeLaws.SearchFollows | pkg/kustomize/process.go:44-146 | a successful search has entered all it was given and followed every reference |
| KustomizeLaws.OnlyReached | pkg/kustomize/process.go:44-146 | whatever is entered is reached from the start |
| KustomizeLaws.FindsWhatIsReached | pkg/kustomize/process.go:44-146 | success if and only if everything reached is good, and then exactly the reached directories are entered, each once |
| KustomizeLaws.ReturnsWhatIsReferenced | pkg/kustomize/process.go:44-146 | a file is returned if and only if a reached directory contributes it, a directory if and only if it is reached and has no kustomization |
| KustomizeLaws.FilesExactly | pkg/kustomize/process.go:83-130 | a directory contributes its kustomization, the local files it names, and its bases and resources that are files |
| KustomizeLaws.SubDirsExactly | pkg/kustomize/process.go:76-130 | and leads to its local components, and its bases and resources that are directories |
| KustomizeLaws.GoodExactly | pkg/kustomize/process.go:44-130 | it is processed if and only if it holds no kustomization, or one that parses and whose bases and resources are there |
| KustomizeLaws.RemoteExactly | pkg/kustomize/process.go:167-191 | a reference is remote if and only if it has one of these forms |
| ArchiveCache.Cache.TryAcquire | pkg/archive/cache.go:217-227 | takes a reference and returns the path if there is an entry, changes nothing otherwise |
| ArchiveCache.Cache.GiveBack | pkg/archive/cache.go:230-251 | gives back a reference, never below zero |
| ArchiveCache.Cache.Insert | pkg/archive/cache.go:154-160 | a downloaded archive is stored with no reference |
| ArchiveCache.Cache.CleanupStaleArchives | pkg/archive/cache.go:275-313 | exactly the stale entries that nobody references are deleted, in whatever order they come |
| ArchiveCache.EveryRunKeepsInv | pkg/archive/cache.go:81-313 | the invariant holds in every interleaving of callers, downloads and the cleanup |
| ArchiveCache.HeldArchivesStay | pkg/archive/cache.go:217-313 | a held archive has an entry, the one that was acquired, and its count is the number of holders |
| ArchiveCache.EvictionSparesHeld | pkg/archive/cache.go:275-313 | the cleanup removes an entry if and only if nobody holds it and it is stale, and leaves all others as they are |
| ArchiveCache.InsertNeverReplaces | pkg/archive/cache.go:132-182 | a download is stored only where there is no entry, and callers for the same commit share it |
| ArchiveCache.UsedWhenLastUsed | pkg/archive/cache.go:217-251 | in every run an archive is as old as the last time a reference to it was taken or given back, or it was stored |
| ArchiveCache.HitsAreServed | pkg/archive/cache.go:81-92 | a caller of a cached commit holds it at once |
| ArchiveCache.FlightsLookAgain | pkg/archive/cache.go:133-141 | a download starts only where there is still no entry |
| ArchiveCache.ThreeAttempts | pkg/archive/cache.go:103-203 | a caller tries three times, if its failures pass |
| ArchiveCache.GivenPathIsHeld | pkg/archive/cache.go:132-182 | if downloads of a commit agree on the place, the returned path is that of the held entry |
| ArchiveCache.GivenPathCanDiffer | pkg/archive/cache.go:132-182 | for every time to live, commit and two places for its downloads: a run in which a caller holds the archive in one and is given the other |
| ArchiveCache.GivenPathExactly | pkg/archive/cache.go:132-182 | in every run the path given for a commit is that of the held entry, if and only if its downloads cannot end up in two places |
| ArchiveCache.StrayReleaseEvictsHeld | pkg/archive/cache.go:230-313 | for every time to live and commit: a run in which one release too many lets the cleanup remove a held archive |

## Left out

- StandAlone.PartsStandAlone: asks that opener reads back at every cut; PartsStandAloneExactly does without, except for a last part that ends in mid-line inside a fence.
- SplitterLaws.PartsFit: the overhead hypothesis ranges over the states in which parts of this content start; RoomyPartsFit tells it from the content, and OverlongPart says what happens without it.
- WholeComments.EveryCommentStandsAlone: asks for room to close a comment that is cut short, and for headings, a footer and sections that leave nothing open; what that means for a check is exact in HarmlessExactly.
- WholeReports.ReportStandsAlone: a check that has to be cut must be tame, outside fences if there is room for its fence lines, and everywhere if there is not; PartsStandAloneExactly decides the parts of any other.
- OneCheckReports.HarmlessExactly: about details that are not cut; PartsStandAloneExactly is exact for those that are.
- ReportedResults.ReportShowsResult: about reports that are neither truncated nor cut short; TruncatedReportHoldsPrefix and CutShortKeeps say what the others hold.
- CommentLaws.CutShortIsSafe: asks that the closer of every cut leaves some of the budget; CutShortExactly asks it of the cuts that the loop comes to, and only then is it closed.
- CommentLaws.ReportHoldsEverySection: sections larger than the budget are cut short by frameChunks, so they are excluded here; CutShortIsSafe covers them, and TruncatedReportHoldsPrefix the reports over the cap.
- RemovalLaws.RemovalsAreExact: about paths that the removals leave undisturbed; UndisturbedExactly says exactly which those are, SteadyPathsAreExact tells it from the object before, and RemovedKeyFieldMisleads shows a path that is not.
- ManagedFieldLaws.DroppedPathsAreReportedOrGone: that a path is gone asks that no two dropped paths of this object are removed under one string but as different paths; GoneExactly does without, and LookAlikeIsLost shows what happens to the second of two.
- ManagedFieldLaws.CoversOwnedExactly: the other direction asks the same.
- ManagedFields.RemovePathOnce: returns the edited object; the source edits nested maps in place, and sharing between objects is not modelled.
- ManagedFields.SetInParentOnce: the same.
- AppDirectoryLaws.FindIsExact: asks that every removal covers what is stored; RemoveKeepsIndexed says for exactly which removals the index stays exact.
- Kustomize.Processor.ProcessDir: the finite set of directory names that references do not leave is a hypothesis; it is what makes the reference graph finite.
- ArchiveCache.HeldArchivesStay: callers release what they hold, once; StrayReleaseEvictsHeld shows why.
- ArchiveCache.GivenPathIsHeld: assumes one place for each commit; GivenPathExactly says that nothing less will do.
- Update in place and aliasing of Go slices (`append` over a shared array in removeFromSlice and in merged lists): lists are values, except in UniqueSorted, where the aliasing is the point.
- Integer widths (`int32` counters, `int` lengths): unbounded.
- Progress: that queueApp, which blocks on a full channel under its lock, is ever unblocked, and that re-queueing ends.
- The map of queues by repository, its double-checked locking, and the messages and timeouts of shutdown: one queue is modelled, from the moment it exists.
- Decoding of managed fields, manifests, kustomizations and zip files: decoded values are inputs.
- Files of the archive cache on disk, HTTP, retries' delays, contexts: a failed or retriable attempt is a choice of the step.
- Emojis, the text of paths, what a footer tells about the run: parameters. Logging, metrics, tracing and wall-clock time: left out; times of the cache are numbers handed in.
- VCS clients, webhooks, Argo CD and AI review calls, ApplicationSet matching, flags and configuration.
