/** Which results of the checks reach the report, and that they do. */
module ReportedResults {
  import opened Text
  import opened SplitterLaws
  import opened Packing
  import opened AppSections
  import opened AppSectionLaws
  import opened Messages
  import opened Comments
  import opened CommentLaws
  import opened WholeComments

  /* ----- the results that are shown ----- */

  /** States from best to worst. */
  lemma RanksInOrder()
    ensures var order := [StateNone, StateSkip, StateSuccess, StateRunning, StateWarning, StateFailure, StateError,
                          StatePanic];
            forall i :: 0 <= i < 8 ==> Rank(order[i]) == i
  {
  }

  /** The result has something to show: it found changes, and was not skipped. */
  predicate HasReport(r: Result) {
    r.noChangesDetected == false && r.state != StateSkip
  }

  predicate Increasing(indices: seq<nat>) {
    forall a, b :: 0 <= a < b < |indices| ==> indices[a] < indices[b]
  }

  /** How it went, in words; without a state there is nothing to say. */
  const WORDS: map<CommitState, string> := map[
    StateSkip := "Skipped", StateSuccess := "Passed", StateRunning := "Running", StateWarning := "Warning",
    StateFailure := "Failed", StateError := "Error", StatePanic := "Panic"]

  /** The block says what the result says: the summary, how it went, and the details. */
  predicate Tells(b: CheckBlock, r: Result, emoji: CommitState -> string) {
    && b.details == r.details
    && (r.state == StateNone ==> b.summary == r.summary)
    && (r.state in WORDS ==> b.summary == r.summary + " " + WORDS[r.state] + " " + emoji(r.state))
  }

  /** The indices, in order, of exactly the results that have something to show. */
  ghost predicate Selects(results: seq<Result>, indices: seq<nat>) {
    && Increasing(indices)
    && forall i: nat :: i in indices <==> i < |results| && HasReport(results[i])
  }

  /** The k-th check tells the k-th of these results. */
  predicate TellsAll(results: seq<Result>, checks: seq<CheckBlock>, indices: seq<nat>, emoji: CommitState -> string) {
    |checks| == |indices| && forall k :: 0 <= k < |indices| ==>
      indices[k] < |results| && Tells(checks[k], results[indices[k]], emoji)
  }

  /** The worst of the states of these results, and no better than success. */
  predicate WorstOf(results: seq<Result>, indices: seq<nat>, state: CommitState) {
    && Rank(state) >= Rank(StateSuccess)
    && (forall k :: 0 <= k < |indices| ==>
         indices[k] < |results| && Rank(results[indices[k]].state) <= Rank(state))
    && (state == StateSuccess || exists k ::
         0 <= k < |indices| && indices[k] < |results| && results[indices[k]].state == state)
  }

  lemma SelectsMore(init: seq<Result>, r: Result, before: seq<nat>)
    requires Selects(init, before)
    ensures Selects(init + [r], if HasReport(r) then before + [|init|] else before)
  {
    hide HasReport;
    var results := init + [r];
    var indices := if HasReport(r) then before + [|init|] else before;
    forall k | 0 <= k < |before|
      ensures before[k] < |init|
    {
      assert before[k] in before;
    }
    assert forall i :: 0 <= i < |init| ==> results[i] == init[i];
    forall i: nat
      ensures i in indices <==> i < |results| && HasReport(results[i])
    {
      assert i in indices <==> i in before || (HasReport(r) && i == |init|);
    }
  }

  lemma TellsMore(
      init: seq<Result>, r: Result, before: seq<nat>, checks: seq<CheckBlock>, b: CheckBlock,
      emoji: CommitState -> string)
    requires TellsAll(init, checks, before, emoji)
    ensures TellsAll(init + [r], checks, before, emoji)
    ensures Tells(b, r, emoji) ==> TellsAll(init + [r], checks + [b], before + [|init|], emoji)
  {
    hide Tells;
    var results := init + [r];
    assert results[|init|] == r;
    forall k | 0 <= k < |before|
      ensures results[before[k]] == init[before[k]]
    {
    }
  }

  lemma WorstMore(init: seq<Result>, r: Result, before: seq<nat>, state: CommitState)
    requires WorstOf(init, before, state)
    ensures WorstOf(init + [r], before, state)
    ensures WorstOf(init + [r], before + [|init|], Worst(state, r.state))
  {
    var results, indices := init + [r], before + [|init|];
    assert results[|init|] == r && indices[|before|] == |init|;
    forall k | 0 <= k < |before|
      ensures results[before[k]] == init[before[k]] && indices[k] == before[k]
    {
    }
    if state != StateSuccess {
      var k :| 0 <= k < |before| && before[k] < |init| && init[before[k]].state == state;
      assert results[before[k]].state == state && results[indices[k]].state == state;
    }
  }

  lemma WordsAreBare(state: CommitState)
    ensures state in WORDS <==> state != StateNone
    ensures state in WORDS ==> WORDS[state] == BareString(state)
  {
  }

  lemma ChecksStep(results: seq<Result>, emoji: CommitState -> string) returns (b: CheckBlock)
    requires results != []
    ensures var init, r := results[..|results| - 1], results[|results| - 1];
            && Tells(b, r, emoji)
            && Checks(results, emoji) == Checks(init, emoji) + (if HasReport(r) then [b] else [])
            && AppState(results) == if HasReport(r) then Worst(AppState(init), r.state) else AppState(init)
  {
    hide Rank, Worst;
    var r := results[|results| - 1];
    WordsAreBare(r.state);
    hide WORDS, BareString;
    b := CheckBlock(SummaryText(r, emoji), r.details);
  }

  lemma NothingShown(emoji: CommitState -> string)
    ensures Selects([], []) && TellsAll([], Checks([], emoji), [], emoji) && WorstOf([], [], AppState([]))
  {
  }

  /** Exactly the results that have something to show are shown, in order, under the worst of their states. */
  lemma {:induction false} ShownResults(results: seq<Result>, emoji: CommitState -> string) returns (indices: seq<nat>)
    ensures Selects(results, indices) && TellsAll(results, Checks(results, emoji), indices, emoji)
    ensures WorstOf(results, indices, AppState(results))
  {
    hide Checks, AppState, HasReport, Tells, Selects, TellsAll, WorstOf, Worst;
    if results == [] {
      NothingShown(emoji);
      indices := [];
    } else {
      var n := |results| - 1;
      var init, r := results[..n], results[n];
      var before := ShownResults(init, emoji);
      var b := ChecksStep(results, emoji);
      assert init + [r] == results;
      SelectsMore(init, r, before);
      TellsMore(init, r, before, Checks(init, emoji), b, emoji);
      WorstMore(init, r, before, AppState(init));
      indices := if HasReport(r) then before + [n] else before;
      assert Checks(init, emoji) + [] == Checks(init, emoji);
    }
  }

  /* ----- text in a report ----- */

  ghost predicate Occurs(text: string, whole: string) {
    exists a, b: string :: whole == a + text + b
  }

  lemma OccursIn(text: string, mid: string, whole: string)
    requires Occurs(text, mid) && Occurs(mid, whole)
    ensures Occurs(text, whole)
  {
    var a, b: string :| mid == a + text + b;
    var c, d: string :| whole == c + mid + d;
    assert whole == (c + a) + text + (b + d);
  }

  lemma OccursBetween(a: string, text: string, b: string)
    ensures Occurs(text, a + text + b)
  {
  }

  lemma OccursInPart(text: string, a: string, b: string, left: bool)
    requires Occurs(text, if left then a else b)
    ensures Occurs(text, a + b)
  {
    hide Occurs;
    if left {
      assert "" + a + b == a + b;
      OccursBetween("", a, b);
      OccursIn(text, a, a + b);
    } else {
      assert a + b + "" == a + b;
      OccursBetween(a, b, "");
      OccursIn(text, b, a + b);
    }
  }

  lemma {:induction false} OccursInJoined(checks: seq<string>, k: nat)
    requires k < |checks|
    ensures Occurs(checks[k], JoinChecks(checks))
  {
    hide Occurs, CHECK_SEPARATOR;
    var n := |checks| - 1;
    if n == 0 {
      assert "" + checks[0] + "" == checks[0];
      OccursBetween("", checks[0], "");
    } else if k == n {
      OccursWhole(checks[n]);
      OccursInPart(checks[n], JoinChecks(checks[..n]) + CHECK_SEPARATOR, checks[n], false);
    } else {
      OccursInJoined(checks[..n], k);
      OccursInPart(checks[k], JoinChecks(checks[..n]), CHECK_SEPARATOR, true);
      OccursInPart(checks[k], JoinChecks(checks[..n]) + CHECK_SEPARATOR, checks[n], true);
    }
  }

  lemma OccursWhole(text: string)
    ensures Occurs(text, text)
  {
    assert "" + text + "" == text;
  }

  lemma OccursInSection(header: string, checks: seq<string>)
    ensures Occurs(JoinChecks(checks), WrapAppSection(header, checks))
    ensures Occurs(header, WrapAppSection(header, checks))
  {
    hide Occurs, JoinChecks, APP_WRAP_OPEN, APP_WRAP_CLOSE, APP_WRAP_END;
    var joined := JoinChecks(checks);
    OccursBetween(APP_WRAP_OPEN + header + APP_WRAP_CLOSE, joined, APP_WRAP_END);
    OccursBetween(APP_WRAP_OPEN, header, APP_WRAP_CLOSE + joined + APP_WRAP_END);
    assert APP_WRAP_OPEN + header + (APP_WRAP_CLOSE + joined + APP_WRAP_END) ==
           APP_WRAP_OPEN + header + APP_WRAP_CLOSE + joined + APP_WRAP_END;
  }

  lemma {:induction false} OccursInConcat(pieces: seq<string>, k: nat)
    requires k < |pieces|
    ensures Occurs(pieces[k], Concat(pieces))
  {
    hide Occurs;
    if k == 0 {
      OccursWhole(pieces[0]);
      OccursInPart(pieces[0], pieces[0], Concat(pieces[1..]), true);
    } else {
      OccursInConcat(pieces[1..], k - 1);
      OccursInPart(pieces[k], pieces[0], Concat(pieces[1..]), false);
    }
  }

  lemma {:induction false} InSomeGroup<T>(groups: seq<seq<T>>, x: T) returns (g: nat, k: nat)
    requires x in Flatten(groups)
    ensures g < |groups| && k < |groups[g]| && groups[g][k] == x
  {
    if x in groups[0] {
      g := 0;
      k :| 0 <= k < |groups[0]| && groups[0][k] == x;
    } else {
      g, k := InSomeGroup(groups[1..], x);
      g := g + 1;
    }
  }

  /* ----- from a result to the comments ----- */

  lemma {:induction false} ExpandAllHas(header: string, checks: seq<CheckBlock>, max: int, k: nat, piece: string)
    requires k < |checks| && piece in Expand(header, checks[k], max)
    ensures piece in ExpandAll(header, checks, max)
  {
    hide Expand;
    var n := |checks| - 1;
    if k < n {
      ExpandAllHas(header, checks[..n], max, k, piece);
    }
  }

  lemma PieceInSection(header: string, checks: seq<CheckBlock>, max: int, k: nat, piece: string) returns (g: nat)
    requires k < |checks| && piece in Expand(header, checks[k], max)
    ensures g < |Sections(header, checks, max)| && Occurs(piece, Sections(header, checks, max)[g])
  {
    hide Occurs, Expand, ExpandAll, Groups, WrapAppSection, JoinChecks;
    ExpandAllHas(header, checks, max, k, piece);
    SectionsHoldEveryCheck(header, checks, max);
    var groups := Groups(header, checks, max);
    var j;
    g, j := InSomeGroup(groups, piece);
    OccursInJoined(groups[g], j);
    OccursInSection(header, groups[g]);
    OccursIn(piece, JoinChecks(groups[g]), WrapAppSection(header, groups[g]));
  }

  lemma HeaderInSection(header: string, checks: seq<CheckBlock>, max: int)
    ensures |Sections(header, checks, max)| > 0 && Occurs(header, Sections(header, checks, max)[0])
  {
    hide Occurs, Groups, WrapAppSection;
    SectionsHoldEveryCheck(header, checks, max);
    OccursInSection(header, Groups(header, checks, max)[0]);
  }

  lemma {:induction false} SectionInReport(
      c: Content, emoji: CommitState -> string, names: seq<string>, budget: int, n: nat, section: string)
    requires n < |names| && section in AppPart(c, emoji, names[n], budget)
    ensures section in AllSections(c, emoji, names, budget)
  {
    hide AppPart;
    var last := |names| - 1;
    if n < last {
      SectionInReport(c, emoji, names[..last], budget, n, section);
    }
  }

  /** The report is not truncated, and none of its comments is cut short. */
  predicate HoldsAll(c: Content, emoji: CommitState -> string, names: seq<string>, cfg: Config) {
    || FitsOneComment(AllSections(c, emoji, names, OneCommentBudget(cfg)), cfg)
    || (var all := AllSections(c, emoji, names, SectionBudget(cfg));
        && cfg.maxChunks <= MAX_COMMENTS && NoneLonger(all, SectionBudget(cfg))
        && |Pack(all, SectionBudget(cfg))| <= cfg.maxChunks)
  }

  ghost predicate InSomeComment(text: string, comments: seq<string>) {
    exists m :: 0 <= m < |comments| && Occurs(text, comments[m])
  }

  lemma SectionInOneComment(
      c: Content, emoji: CommitState -> string, names: seq<string>, cfg: Config, section: string)
    requires var all := AllSections(c, emoji, names, OneCommentBudget(cfg));
             FitsOneComment(all, cfg) && section in all
    ensures InSomeComment(section, BuildComment(c, emoji, names, cfg))
  {
    hide AllSections, FitsOneComment, BuildComment, Concat, ChunkHeader, Occurs, OneCommentBudget;
    var all := AllSections(c, emoji, names, OneCommentBudget(cfg));
    WholeReportInOneComment(c, emoji, names, cfg);
    var k :| 0 <= k < |all| && all[k] == section;
    OccursInConcat(all, k);
    var head, body := ChunkHeader(cfg.identifier, 1, 1), Concat(all);
    OccursInPart(section, head, body, false);
    OccursInPart(section, head + body, FOOTER_SEPARATOR, true);
    OccursInPart(section, head + body + FOOTER_SEPARATOR, cfg.footer, true);
    assert Occurs(section, BuildComment(c, emoji, names, cfg)[0]);
  }

  lemma SectionInChunk(chunk: seq<string>, i: nat, total: nat, cfg: Config, k: nat)
    requires k < |chunk|
    ensures Occurs(chunk[k], Body(chunk, i, total, cfg) + Tail(i, total, false, cfg))
  {
    hide Occurs, ChunkHeader, Concat, Tail, CONTINUED_FROM;
    OccursInConcat(chunk, k);
    OccursInPart(chunk[k], ChunkHeader(cfg.identifier, i + 1, total) + if i > 0 then CONTINUED_FROM else "",
      Concat(chunk), false);
    OccursInPart(chunk[k], Body(chunk, i, total, cfg), Tail(i, total, false, cfg), true);
  }

  lemma SectionInSomeChunk(
      c: Content, emoji: CommitState -> string, names: seq<string>, cfg: Config, section: string)
    requires HoldsAll(c, emoji, names, cfg)
    requires !FitsOneComment(AllSections(c, emoji, names, OneCommentBudget(cfg)), cfg)
    requires section in AllSections(c, emoji, names, SectionBudget(cfg))
    ensures InSomeComment(section, BuildComment(c, emoji, names, cfg))
  {
    hide AllSections, FitsOneComment, BuildComment, Pack, Occurs, SectionBudget, OneCommentBudget, Body, Tail,
      NoneLonger;
    ReportHoldsEverySection(c, emoji, names, cfg);
    var chunks := Pack(AllSections(c, emoji, names, SectionBudget(cfg)), SectionBudget(cfg));
    var i, k := InSomeGroup(chunks, section);
    SectionInChunk(chunks[i], i, |chunks|, cfg, k);
    assert Occurs(section, BuildComment(c, emoji, names, cfg)[i]);
  }

  lemma SectionInComments(
      c: Content, emoji: CommitState -> string, names: seq<string>, cfg: Config, section: string)
    requires HoldsAll(c, emoji, names, cfg)
    requires section in AllSections(c, emoji, names, BudgetUsed(c, emoji, names, cfg))
    ensures InSomeComment(section, BuildComment(c, emoji, names, cfg))
  {
    hide AllSections, FitsOneComment, BuildComment, Pack, SectionBudget, OneCommentBudget, InSomeComment;
    if FitsOneComment(AllSections(c, emoji, names, OneCommentBudget(cfg)), cfg) {
      SectionInOneComment(c, emoji, names, cfg, section);
    } else {
      SectionInSomeChunk(c, emoji, names, cfg, section);
    }
  }

  lemma TextInComments(
      c: Content, emoji: CommitState -> string, names: seq<string>, cfg: Config, section: string, text: string)
    requires HoldsAll(c, emoji, names, cfg) && Occurs(text, section)
    requires section in AllSections(c, emoji, names, BudgetUsed(c, emoji, names, cfg))
    ensures InSomeComment(text, BuildComment(c, emoji, names, cfg))
  {
    hide HoldsAll, AllSections, BudgetUsed, BuildComment, Occurs;
    SectionInComments(c, emoji, names, cfg, section);
    var comments := BuildComment(c, emoji, names, cfg);
    var m :| 0 <= m < |comments| && Occurs(section, comments[m]);
    OccursIn(text, section, comments[m]);
  }

  /** The app is in the report: not deleted, and no unchanged result without a sticky one hides it. */
  predicate IsShown(c: Content, name: string) {
    && name !in c.deleted
    && ((exists i :: 0 <= i < |ResultsOf(c, name)| && ResultsOf(c, name)[i].noChangesDetected) ==>
         exists i :: 0 <= i < |ResultsOf(c, name)| && ResultsOf(c, name)[i].sticky)
  }

  lemma ShownPart(c: Content, emoji: CommitState -> string, name: string, budget: int)
    requires IsShown(c, name)
    ensures var results := ResultsOf(c, name);
            AppPart(c, emoji, name, budget) ==
              Sections(AppHeader(name, emoji(AppState(results))), Checks(results, emoji), budget)
  {
    hide Sections, AppHeader, Checks, AppState;
  }

  lemma HiddenPart(c: Content, emoji: CommitState -> string, name: string, budget: int)
    requires !IsShown(c, name)
    ensures AppPart(c, emoji, name, budget) == []
  {
    hide Sections, AppHeader, Checks, AppState;
  }

  /** The heading of an app that is shown is in some comment, with the mark of the worst state of what is shown. */
  lemma ReportShowsApp(c: Content, emoji: CommitState -> string, names: seq<string>, cfg: Config, n: nat)
    returns (indices: seq<nat>, state: CommitState)
    requires HoldsAll(c, emoji, names, cfg) && n < |names| && IsShown(c, names[n])
    ensures Selects(ResultsOf(c, names[n]), indices) && WorstOf(ResultsOf(c, names[n]), indices, state)
    ensures InSomeComment("## ArgoCD Application Checks: `" + names[n] + "` " + emoji(state),
              BuildComment(c, emoji, names, cfg))
  {
    hide HoldsAll, AllSections, BudgetUsed, BuildComment, Sections, Checks, AppState, Selects, WorstOf, TellsAll,
      IsShown, InSomeComment, AppPart, Occurs;
    var results, budget := ResultsOf(c, names[n]), BudgetUsed(c, emoji, names, cfg);
    indices := ShownResults(results, emoji);
    state := AppState(results);
    var header, checks := AppHeader(names[n], emoji(state)), Checks(results, emoji);
    ShownPart(c, emoji, names[n], budget);
    HeaderInSection(header, checks, budget);
    var section := Sections(header, checks, budget)[0];
    SectionInReport(c, emoji, names, budget, n, section);
    TextInComments(c, emoji, names, cfg, section, header);
  }

  /** A result with something to show is in the comments, whole or as the parts that it is cut into. */
  lemma ReportShowsResult(
      c: Content, emoji: CommitState -> string, names: seq<string>, cfg: Config, n: nat, i: nat)
    returns (header: string, b: CheckBlock)
    requires HoldsAll(c, emoji, names, cfg) && n < |names| && IsShown(c, names[n])
    requires i < |ResultsOf(c, names[n])| && HasReport(ResultsOf(c, names[n])[i])
    ensures Tells(b, ResultsOf(c, names[n])[i], emoji)
    ensures header == AppHeader(names[n], emoji(AppState(ResultsOf(c, names[n]))))
    ensures forall piece <- Expand(header, b, BudgetUsed(c, emoji, names, cfg)) ::
              InSomeComment(piece, BuildComment(c, emoji, names, cfg))
  {
    hide HoldsAll, AllSections, BudgetUsed, BuildComment, Sections, Checks, AppState, WorstOf, IsShown,
      InSomeComment, AppPart, Expand, Tells, AppHeader, HasReport, Occurs;
    var results, budget := ResultsOf(c, names[n]), BudgetUsed(c, emoji, names, cfg);
    var indices := ShownResults(results, emoji);
    var checks := Checks(results, emoji);
    header := AppHeader(names[n], emoji(AppState(results)));
    assert i in indices;
    var k :| 0 <= k < |indices| && indices[k] == i;
    b := checks[k];
    ShownPart(c, emoji, names[n], budget);
    forall piece | piece in Expand(header, b, budget)
      ensures InSomeComment(piece, BuildComment(c, emoji, names, cfg))
    {
      var g := PieceInSection(header, checks, budget, k, piece);
      var section := Sections(header, checks, budget)[g];
      SectionInReport(c, emoji, names, budget, n, section);
      TextInComments(c, emoji, names, cfg, section, piece);
    }
  }
}
