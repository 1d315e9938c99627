/** The message of one check run: results by app, and the apps marked as deleted. */
module Messages {
  import opened AppSections
  import opened Ordering

  /** From best to worst. */
  datatype CommitState =
    StateNone | StateSkip | StateSuccess | StateRunning | StateWarning | StateFailure | StateError | StatePanic

  function Rank(s: CommitState): nat {
    match s
    case StateNone => 0
    case StateSkip => 1
    case StateSuccess => 2
    case StateRunning => 3
    case StateWarning => 4
    case StateFailure => 5
    case StateError => 6
    case StatePanic => 7
  }

  function Worst(a: CommitState, b: CommitState): CommitState {
    if Rank(a) >= Rank(b) then a else b
  }

  function BareString(s: CommitState): string {
    match s
    case StateNone => ""
    case StateSkip => "Skipped"
    case StateSuccess => "Passed"
    case StateRunning => "Running"
    case StateWarning => "Warning"
    case StateFailure => "Failed"
    case StateError => "Error"
    case StatePanic => "Panic"
  }

  datatype Result = Result(state: CommitState, summary: string, details: string, noChangesDetected: bool, sticky: bool)

  predicate HasSticky(results: seq<Result>) {
    exists i :: 0 <= i < |results| && results[i].sticky
  }

  /* ----- the state of a message ----- */

  datatype Content = Content(apps: map<string, seq<Result>>, deleted: set<string>)

  datatype Op = RemoveApp(app: string) | AddNewApp(app: string) | AddToAppMessage(app: string, result: Result)

  function ResultsOf(c: Content, app: string): seq<Result> {
    if app in c.apps then c.apps[app] else []
  }

  function Apply(c: Content, op: Op): Content {
    match op
    case RemoveApp(app) =>
      if HasSticky(ResultsOf(c, app)) then c else c.(deleted := c.deleted + {app})
    case AddNewApp(app) =>
      Content(if app in c.apps then c.apps else c.apps[app := []], c.deleted - {app})
    case AddToAppMessage(app, result) =>
      Content(c.apps[app := ResultsOf(c, app) + [result]], c.deleted - {app})
  }

  const NEW_MESSAGE := Content(map[], {})

  function ApplyAll(ops: seq<Op>): Content {
    if ops == [] then NEW_MESSAGE else Apply(ApplyAll(ops[..|ops| - 1]), ops[|ops| - 1])
  }

  /** What AddToAppMessage was given for an app, in order. */
  function Given(ops: seq<Op>, app: string): seq<Result> {
    if ops == [] then [] else
    var op := ops[|ops| - 1];
    Given(ops[..|ops| - 1], app) + if op.AddToAppMessage? && op.app == app then [op.result] else []
  }

  /** No operation ever erases or reorders results, not even adding the app again. */
  lemma {:induction false} ResultsAreKept(ops: seq<Op>, app: string)
    ensures ResultsOf(ApplyAll(ops), app) == Given(ops, app)
  {
    if ops != [] {
      ResultsAreKept(ops[..|ops| - 1], app);
    }
  }

  /** The operation adds the app, or a result for it. */
  predicate Adds(op: Op, app: string) {
    op.app == app && !op.RemoveApp?
  }

  /** Exactly the apps that were added, or given a result, are known, and they stay so. */
  lemma {:induction false} KnownExactly(ops: seq<Op>, app: string)
    ensures app in ApplyAll(ops).apps <==> exists i :: 0 <= i < |ops| && Adds(ops[i], app)
  {
    if ops != [] {
      var n := |ops| - 1;
      KnownExactly(ops[..n], app);
      assert forall i :: 0 <= i < n ==> ops[..n][i] == ops[i];
      if i :| 0 <= i < n && Adds(ops[..n][i], app) {
        assert Adds(ops[i], app);
      }
      if i :| 0 <= i < |ops| && Adds(ops[i], app) {
        assert i < n ==> Adds(ops[..n][i], app);
      }
    }
  }

  /** The last word on the app was a removal. */
  predicate RemovedLast(ops: seq<Op>, app: string) {
    if ops == [] then false else
    var op := ops[|ops| - 1];
    if op.app == app then op.RemoveApp? else RemovedLast(ops[..|ops| - 1], app)
  }

  /**
   * An app is marked as deleted exactly if the last word on it was a removal and no sticky
   * result was ever reported for it: a structural finding is never suppressed.
   */
  lemma {:induction false} DeletedExactly(ops: seq<Op>, app: string)
    ensures app in ApplyAll(ops).deleted <==> RemovedLast(ops, app) && !HasSticky(Given(ops, app))
  {
    if ops != [] {
      var before, op := ops[..|ops| - 1], ops[|ops| - 1];
      DeletedExactly(before, app);
      ResultsAreKept(before, app);
      var c := ApplyAll(before);
      assert ApplyAll(ops) == Apply(c, op);
      if op.app != app {
        assert Given(ops, app) == Given(before, app);
        assert app in Apply(c, op).deleted <==> app in c.deleted;
      } else if op.RemoveApp? {
        assert Given(ops, app) == Given(before, app);
        assert app in c.deleted ==> !HasSticky(Given(before, app));
      } else {
        assert app !in Apply(c, op).deleted;
      }
    }
  }

  /* ----- the checks of one app ----- */

  predicate IsIncluded(r: Result) {
    !r.noChangesDetected && r.state != StateSkip
  }

  function SummaryText(r: Result, emoji: CommitState -> string): string {
    if r.state == StateNone then r.summary else r.summary + " " + BareString(r.state) + " " + emoji(r.state)
  }

  /** The results that are shown, in order. */
  function Checks(results: seq<Result>, emoji: CommitState -> string): seq<CheckBlock> {
    if results == [] then [] else
    var r := results[|results| - 1];
    Checks(results[..|results| - 1], emoji) + if IsIncluded(r) then [CheckBlock(SummaryText(r, emoji), r.details)]
      else []
  }

  function AppState(results: seq<Result>): CommitState {
    if results == [] then StateSuccess else
    var r := results[|results| - 1];
    if IsIncluded(r) then Worst(AppState(results[..|results| - 1]), r.state) else AppState(results[..|results| - 1])
  }

  function AppHeader(appName: string, emoji: string): string {
    "## ArgoCD Application Checks: `" + appName + "` " + emoji
  }

  predicate NoChanges(results: seq<Result>) {
    exists i :: 0 <= i < |results| && results[i].noChangesDetected
  }

  /** buildAppSections */
  function AppSectionsOf(appName: string, results: seq<Result>, emoji: CommitState -> string, max: int): seq<string> {
    if NoChanges(results) && !HasSticky(results) then []
    else Sections(AppHeader(appName, emoji(AppState(results))), Checks(results, emoji), max)
  }

  method HasStickyLoop(results: seq<Result>) returns (found: bool)
    ensures found == HasSticky(results)
  {
    for i := 0 to |results|
      invariant !HasSticky(results[..i])
    {
      if results[i].sticky {
        return true;
      }
      assert forall j :: 0 <= j < i ==> !results[..i][j].sticky;
    }
    assert results[..|results|] == results;
    return false;
  }

  method BuildAppSections(appName: string, results: seq<Result>, emoji: CommitState -> string, max: int)
    returns (sections: seq<string>)
    ensures sections == AppSectionsOf(appName, results, emoji, max)
  {
    hide Sections, AppHeader, SummaryText, HasSticky;
    var checks: seq<CheckBlock>, appState, noChangesDetected := [], StateSuccess, false;
    for i := 0 to |results|
      invariant checks == Checks(results[..i], emoji) && appState == AppState(results[..i])
      invariant noChangesDetected == NoChanges(results[..i])
    {
      var check := results[i];
      assert results[..i + 1][..i] == results[..i];
      assert NoChanges(results[..i + 1]) <==> NoChanges(results[..i]) || check.noChangesDetected by {
        NoChangesStep(results, i);
      }
      if check.noChangesDetected {
        noChangesDetected := true;
        continue;
      }
      if check.state == StateSkip {
        continue;
      }
      checks := checks + [CheckBlock(SummaryText(check, emoji), check.details)];
      appState := Worst(appState, check.state);
    }
    assert results[..|results|] == results;
    var sticky := HasStickyLoop(results);
    if noChangesDetected && !sticky {
      return [];
    }
    sections := SectionsLoop(AppHeader(appName, emoji(appState)), checks, max);
  }

  lemma NoChangesStep(results: seq<Result>, i: nat)
    requires i < |results|
    ensures NoChanges(results[..i + 1]) <==> NoChanges(results[..i]) || results[i].noChangesDetected
  {
    var a, b := results[..i], results[..i + 1];
    if NoChanges(a) {
      var k :| 0 <= k < |a| && a[k].noChangesDetected;
      assert b[k].noChangesDetected;
    }
    if NoChanges(b) {
      var k :| 0 <= k < |b| && b[k].noChangesDetected;
      assert k < i ==> a[k].noChangesDetected;
    }
    assert b[i] == results[i];
  }

  /* ----- the message object ----- */

  /** A result that counts towards the state of the whole report. */
  ghost predicate Counts(c: Content, app: string, i: nat) {
    app in c.apps && app !in c.deleted && i < |c.apps[app]| && !c.apps[app][i].noChangesDetected
  }

  class Message {
    var apps: map<string, seq<Result>>
    var deletedAppsSet: set<string>

    constructor ()
      ensures View() == NEW_MESSAGE
    {
      apps, deletedAppsSet := map[], {};
    }

    ghost function View(): Content
      reads this
    {
      Content(apps, deletedAppsSet)
    }

    method Remove(app: string)
      modifies this
      ensures View() == Apply(old(View()), RemoveApp(app))
    {
      if app in apps {
        var sticky := HasStickyLoop(apps[app]);
        if sticky {
          return;
        }
      }
      deletedAppsSet := deletedAppsSet + {app};
    }

    method AddNew(app: string)
      modifies this
      ensures View() == Apply(old(View()), AddNewApp(app))
    {
      deletedAppsSet := deletedAppsSet - {app};
      if app !in apps {
        apps := apps[app := []];
      }
    }

    method AddResult(app: string, result: Result)
      modifies this
      ensures View() == Apply(old(View()), AddToAppMessage(app, result))
    {
      deletedAppsSet := deletedAppsSet - {app};
      if app !in apps {
        apps := apps[app := []];
      }
      apps := apps[app := apps[app] + [result]];
    }

    /** The worst state of the results that are not suppressed, the best state if there are none. */
    method WorstState() returns (state: CommitState)
      ensures forall app, i: nat ::
                app in apps && app !in deletedAppsSet && i < |apps[app]| && !apps[app][i].noChangesDetected ==>
                  Rank(apps[app][i].state) <= Rank(state)
      ensures state == StateNone || exists app, i: nat :: Counts(View(), app, i) && state == apps[app][i].state
    {
      state := StateNone;
      var left := apps.Keys;
      while left != {}
        invariant left <= apps.Keys
        invariant forall app, i: nat :: Counts(View(), app, i) && app !in left ==>
            Rank(apps[app][i].state) <= Rank(state)
        invariant state == StateNone || exists app, i: nat :: Counts(View(), app, i) && state == apps[app][i].state
        decreases left
      {
        var app :| app in left;
        left := left - {app};
        if app in deletedAppsSet {
          continue;
        }
        var results := apps[app];
        for i := 0 to |results|
          invariant forall a, j: nat :: Counts(View(), a, j) && a !in left && (a == app ==> j < i) ==>
                      Rank(apps[a][j].state) <= Rank(state)
          invariant state == StateNone || exists a, j: nat :: Counts(View(), a, j) && state == apps[a][j].state
        {
          if results[i].noChangesDetected {
            continue;
          }
          if Rank(results[i].state) > Rank(state) {
            state := results[i].state;
            assert Counts(View(), app, i);
          }
        }
      }
    }

    /** getSortedKeys(m.apps) */
    method SortedNames() returns (names: seq<string>)
      ensures StrictlySorted(names)
      ensures forall x :: x in names <==> x in apps
    {
      var keys := [];
      var left := apps.Keys;
      while left != {}
        invariant left <= apps.Keys
        invariant forall x :: x in keys <==> x in apps && x !in left
        invariant Distinct(keys)
        decreases left
      {
        var key :| key in left;
        left := left - {key};
        DistinctSnoc(keys, key);
        keys := keys + [key];
      }
      names := Sort(keys);
      SortDistinct(keys);
    }
  }
}
