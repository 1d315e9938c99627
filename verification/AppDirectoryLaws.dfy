/**
 * The index agrees with the stored apps: looking a change up in it finds the same apps as
 * reading through every stored app.
 */
module AppDirectoryLaws {
  import opened AppDirectory
  import opened Paths
  import opened Text

  /** How often a path lists a name. */
  function Count(m: Refs, path: string, name: string): nat {
    multiset(Listed(m, path))[name]
  }

  datatype Kind = InDirs | InFiles

  /** The paths an app refers to, one entry for each reference. */
  function PathsOf(kind: Kind, app: App): seq<string> {
    if kind.InDirs? then Dirs(app) else Files(app)
  }

  /** m lists every one of these apps as often as its sources refer to a path, and nobody else. */
  ghost predicate Tracks(m: Refs, kind: Kind, apps: map<string, App>) {
    forall name, path :: Count(m, path, name) == if name in apps then multiset(PathsOf(kind, apps[name]))[path] else 0
  }

  ghost predicate Indexed(ix: Index) {
    Named(ix.appsMap) && Tracks(ix.appDirs, InDirs, ix.appsMap) && Tracks(ix.appFiles, InFiles, ix.appsMap)
  }

  /* ----- adding and removing references ----- */

  lemma LastCounts(paths: seq<string>, path: string)
    requires paths != []
    ensures multiset(paths)[path] ==
            multiset(paths[..|paths| - 1])[path] + if path == paths[|paths| - 1] then 1 else 0
  {
    assert paths == paths[..|paths| - 1] + [paths[|paths| - 1]];
  }

  lemma {:induction false} AddRefsCounts(m: Refs, paths: seq<string>, name: string, path: string, other: string)
    ensures Count(AddRefs(m, paths, name), path, other) ==
            Count(m, path, other) + if other == name then multiset(paths)[path] else 0
  {
    if paths != [] {
      AddRefsCounts(m, paths[..|paths| - 1], name, path, other);
      LastCounts(paths, path);
    }
  }

  lemma {:induction false} RemoveFirstCounts(names: seq<string>, name: string)
    ensures multiset(RemoveFirst(names, name)) == multiset(names) - multiset{name}
  {
    if names != [] {
      assert names == [names[0]] + names[1..];
      RemoveFirstCounts(names[1..], name);
    }
  }

  lemma DropRefCounts(m: Refs, path: string, name: string, at: string, other: string)
    ensures Count(DropRef(m, path, name), at, other) ==
            if other == name && at == path && Count(m, at, other) > 0 then Count(m, at, other) - 1
            else Count(m, at, other)
  {
    RemoveFirstCounts(Listed(m, path), name);
  }

  lemma {:induction false} DropRefsCounts(m: Refs, paths: seq<string>, name: string, path: string, other: string)
    ensures Count(DropRefs(m, paths, name), path, other) ==
            if other != name then Count(m, path, other)
            else if Count(m, path, other) > multiset(paths)[path] then Count(m, path, other) - multiset(paths)[path]
            else 0
  {
    if paths != [] {
      var init := paths[..|paths| - 1];
      DropRefsCounts(m, init, name, path, other);
      LastCounts(paths, path);
      DropRefCounts(DropRefs(m, init, name), paths[|paths| - 1], name, path, other);
      hide DropRef, Count;
    }
  }

  lemma AddTracks(m: Refs, kind: Kind, apps: map<string, App>, app: App)
    requires Tracks(m, kind, apps) && app.name !in apps
    ensures Tracks(AddRefs(m, PathsOf(kind, app), app.name), kind, apps[app.name := app])
  {
    hide AddRefs, Count, PathsOf;
    forall other, path
      ensures Count(AddRefs(m, PathsOf(kind, app), app.name), path, other) ==
              if other == app.name then multiset(PathsOf(kind, app))[path]
              else if other in apps then multiset(PathsOf(kind, apps[other]))[path] else 0
    {
      AddRefsCounts(m, PathsOf(kind, app), app.name, path, other);
    }
  }

  /** Dropping references tracks the rest exactly when all of the name's references are dropped. */
  lemma DropTracks(m: Refs, kind: Kind, apps: map<string, App>, paths: seq<string>, name: string)
    requires Tracks(m, kind, apps)
    ensures Tracks(DropRefs(m, paths, name), kind, apps - {name})
       <==> (name in apps ==> multiset(PathsOf(kind, apps[name])) <= multiset(paths))
  {
    hide DropRefs, Count, PathsOf;
    var after := DropRefs(m, paths, name);
    forall other, path
      ensures Count(after, path, other) ==
              if other != name then Count(m, path, other)
              else if Count(m, path, other) > multiset(paths)[path] then Count(m, path, other) - multiset(paths)[path]
              else 0
    {
      DropRefsCounts(m, paths, name, path, other);
    }
    if name in apps && Tracks(after, kind, apps - {name}) {
      forall path
        ensures multiset(PathsOf(kind, apps[name]))[path] <= multiset(paths)[path]
      {
        assert Count(m, path, name) == multiset(PathsOf(kind, apps[name]))[path];
        assert Count(after, path, name) == 0;
      }
    }
  }

  /* ----- what add, remove and union keep ----- */

  lemma EmptyIsIndexed()
    ensures Indexed(Index(map[], map[], map[]))
  {
  }

  lemma AddIsRefs(ix: Index, app: App)
    requires app.name !in ix.appsMap
    ensures Add(ix, app) == Index(AddRefs(ix.appDirs, PathsOf(InDirs, app), app.name),
                                  AddRefs(ix.appFiles, PathsOf(InFiles, app), app.name),
                                  ix.appsMap[app.name := app])
  {
    AddSourcesRefs(ix, app, Sources(app));
  }

  lemma AddKeepsIndexed(ix: Index, app: App)
    requires Indexed(ix)
    ensures Indexed(Add(ix, app))
  {
    if app.name !in ix.appsMap {
      AddIsRefs(ix, app);
      hide Add, AddRefs, Tracks, PathsOf;
      AddTracks(ix.appDirs, InDirs, ix.appsMap, app);
      AddTracks(ix.appFiles, InFiles, ix.appsMap, app);
    }
  }

  /** Removing with this spec drops every reference of the stored one. */
  predicate Covers(spec: App, stored: App) {
    && multiset(PathsOf(InDirs, stored)) <= multiset([spec.source.path])
    && multiset(PathsOf(InFiles, stored)) <= multiset(FilesOf(spec.source))
  }

  /** RemoveApp keeps the index exact if, and only if, the spec it is given covers the stored one. */
  lemma RemoveKeepsIndexed(ix: Index, app: App)
    requires Indexed(ix)
    ensures Indexed(Remove(ix, app)) <==> (app.name in ix.appsMap ==> Covers(app, ix.appsMap[app.name]))
  {
    hide Tracks, PathsOf, DropRefs, DropRef, FilesOf;
    DropOne(ix.appDirs, app.source.path, app.name);
    DropTracks(ix.appDirs, InDirs, ix.appsMap, [app.source.path], app.name);
    DropTracks(ix.appFiles, InFiles, ix.appsMap, FilesOf(app.source), app.name);
  }

  lemma DropOne(m: Refs, path: string, name: string)
    ensures DropRefs(m, [path], name) == DropRef(m, path, name)
  {
    DropRefsMore(m, [], path, name);
    assert [] + [path] == [path];
  }

  /** The stored spec itself covers exactly when it has one source. */
  lemma OwnSpecCovers(app: App)
    ensures Covers(app, app) <==> app.more == []
  {
    assert |multiset(PathsOf(InDirs, app))| == 1 + |app.more|;
    if app.more == [] {
      assert Dirs(app) == [app.source.path];
      OneSource(app);
    } else if Covers(app, app) {
      SubsetsAreSmaller(multiset(PathsOf(InDirs, app)), multiset([app.source.path]));
    }
  }

  lemma OneSource(app: App)
    requires app.more == []
    ensures Dirs(app) == [app.source.path] && Files(app) == FilesOf(app.source)
  {
    assert Sources(app) == [app.source];
    assert AllFiles([app.source][..0]) == [];
    assert [] + FilesOf(app.source) == FilesOf(app.source);
  }

  lemma SubsetsAreSmaller(a: multiset<string>, b: multiset<string>)
    requires a <= b
    ensures |a| <= |b|
  {
    assert b == a + (b - a);
  }

  function MergeLists(a: Refs, b: Refs): Refs {
    Merge(a, b, (x: seq<string>, y: seq<string>) => x + y)
  }

  function TakeFirst<T>(a: map<string, T>, b: map<string, T>): map<string, T> {
    map name | name in a.Keys + b.Keys :: if name in a then a[name] else b[name]
  }

  lemma UnionShape(a: Index, b: Index)
    ensures Union(a, b) ==
        Index(MergeLists(a.appDirs, b.appDirs), MergeLists(a.appFiles, b.appFiles), TakeFirst(a.appsMap, b.appsMap))
  {
    var lists := (x: seq<string>, y: seq<string>) => x + y;
    assert Merge(a.appDirs, b.appDirs, lists) == MergeLists(a.appDirs, b.appDirs);
    assert Merge(a.appFiles, b.appFiles, lists) == MergeLists(a.appFiles, b.appFiles);
  }

  lemma MergeCounts(a: Refs, b: Refs, path: string, name: string)
    ensures Count(MergeLists(a, b), path, name) == Count(a, path, name) + Count(b, path, name)
  {
  }

  /** Merged lists track the first of two apps with one name exactly when the second refers to nothing. */
  lemma MergeTracks(a: Refs, b: Refs, kind: Kind, first: map<string, App>, second: map<string, App>)
    requires Tracks(a, kind, first) && Tracks(b, kind, second)
    ensures Tracks(MergeLists(a, b), kind, TakeFirst(first, second))
       <==> forall name :: name in first && name in second ==> multiset(PathsOf(kind, second[name])) == multiset{}
  {
    hide Count, MergeLists, PathsOf;
    var m, r := MergeLists(a, b), TakeFirst(first, second);
    forall path, name
      ensures Count(m, path, name) == Count(a, path, name) + Count(b, path, name)
    {
      MergeCounts(a, b, path, name);
    }
    if Tracks(m, kind, r) {
      forall name | name in first && name in second
        ensures multiset(PathsOf(kind, second[name])) == multiset{}
      {
        forall path
          ensures multiset(PathsOf(kind, second[name]))[path] == 0
        {
          assert Count(m, path, name) == multiset(PathsOf(kind, first[name]))[path];
          assert Count(b, path, name) == multiset(PathsOf(kind, second[name]))[path];
        }
      }
    }
  }

  lemma EveryAppHasADir(app: App)
    ensures multiset(PathsOf(InDirs, app)) != multiset{}
  {
    assert |multiset(PathsOf(InDirs, app))| == 1 + |app.more|;
  }

  /** A union indexes its apps exactly when no app is in both directories. */
  lemma UnionIsIndexed(a: Index, b: Index)
    requires Indexed(a) && Indexed(b)
    ensures Indexed(Union(a, b)) <==> a.appsMap.Keys !! b.appsMap.Keys
  {
    UnionShape(a, b);
    hide Union, MergeLists, Tracks, PathsOf;
    MergeTracks(a.appDirs, b.appDirs, InDirs, a.appsMap, b.appsMap);
    MergeTracks(a.appFiles, b.appFiles, InFiles, a.appsMap, b.appsMap);
    if name :| name in a.appsMap && name in b.appsMap {
      EveryAppHasADir(b.appsMap[name]);
    }
  }

  /* ----- the reference: read through every stored app ----- */

  /** One of the app's sources contains the path, or lists it as a helm file. */
  predicate AffectedBy(app: App, change: string) {
    || (exists i :: 0 <= i < |Dirs(app)| && DirContains(Dirs(app)[i], change))
    || change in Files(app)
  }

  predicate Affected(app: App, changes: seq<string>) {
    exists k :: 0 <= k < |changes| && AffectedBy(app, changes[k])
  }

  function BruteForce(apps: map<string, App>, changes: seq<string>, branch: string): set<App> {
    set name | name in apps && Affected(apps[name], changes) && ShouldInclude(apps[name], branch) :: apps[name]
  }

  lemma ListedInDir(ix: Index, name: string, dir: string)
    requires Indexed(ix) && name in ix.appsMap
    ensures dir in ix.appDirs && name in ix.appDirs[dir] <==> dir in Dirs(ix.appsMap[name])
    ensures name in Listed(ix.appFiles, dir) <==> dir in Files(ix.appsMap[name])
  {
    hide Dirs, Files;
    assert Count(ix.appDirs, dir, name) == multiset(PathsOf(InDirs, ix.appsMap[name]))[dir];
    assert Count(ix.appFiles, dir, name) == multiset(PathsOf(InFiles, ix.appsMap[name]))[dir];
  }

  lemma TouchedIsAffected(ix: Index, change: string, name: string)
    requires Indexed(ix) && name in ix.appsMap
    ensures TouchedBy(ix, change, name) <==> AffectedBy(ix.appsMap[name], change)
  {
    hide DirContains, Dirs, Files, Indexed;
    var app := ix.appsMap[name];
    ListedInDir(ix, name, change);
    if dir :| dir in ix.appDirs && DirContains(dir, change) && name in ix.appDirs[dir] {
      ListedInDir(ix, name, dir);
    }
    if i :| 0 <= i < |Dirs(app)| && DirContains(Dirs(app)[i], change) {
      ListedInDir(ix, name, Dirs(app)[i]);
    }
  }

  lemma FoundIsBruteForce(ix: Index, changes: seq<string>, branch: string)
    requires Indexed(ix)
    ensures Found(ix, changes, branch) == BruteForce(ix.appsMap, changes, branch)
  {
    hide Indexed, TouchedBy, AffectedBy, ShouldInclude;
    forall name | name in ix.appsMap
      ensures Touched(ix, changes, name) <==> Affected(ix.appsMap[name], changes)
    {
      forall k | 0 <= k < |changes|
        ensures TouchedBy(ix, changes[k], name) <==> AffectedBy(ix.appsMap[name], changes[k])
      {
        TouchedIsAffected(ix, changes[k], name);
      }
    }
    hide Touched, Affected;
  }

  /* ----- whole runs ----- */

  datatype Op = AddOp(app: App) | RemoveOp(app: App)

  function Run(ops: seq<Op>): Index {
    if ops == [] then Index(map[], map[], map[])
    else match ops[|ops| - 1]
      case AddOp(app) => Add(Run(ops[..|ops| - 1]), app)
      case RemoveOp(app) => Remove(Run(ops[..|ops| - 1]), app)
  }

  /** The apps alone: the first add of a name wins until it is removed. */
  function Stored(ops: seq<Op>): map<string, App> {
    if ops == [] then map[]
    else
      var apps, op := Stored(ops[..|ops| - 1]), ops[|ops| - 1];
      if op.RemoveOp? then apps - {op.app.name}
      else if op.app.name in apps then apps
      else apps[op.app.name := op.app]
  }

  /** Every removal of a stored app covers it; its own spec does if it has one source. */
  predicate Legit(ops: seq<Op>) {
    if ops == [] then true
    else
      var apps, op := Stored(ops[..|ops| - 1]), ops[|ops| - 1];
      && Legit(ops[..|ops| - 1])
      && (op.RemoveOp? && op.app.name in apps ==> Covers(op.app, apps[op.app.name]))
  }

  lemma {:induction false} RunsStore(ops: seq<Op>)
    ensures Run(ops).appsMap == Stored(ops)
  {
    if ops != [] {
      RunsStore(ops[..|ops| - 1]);
      var ix, op := Run(ops[..|ops| - 1]), ops[|ops| - 1];
      if op.AddOp? && op.app.name !in ix.appsMap {
        AddSourcesRefs(ix, op.app, Sources(op.app));
      }
    }
  }

  lemma {:induction false} RunsAreIndexed(ops: seq<Op>)
    requires Legit(ops)
    ensures Indexed(Run(ops))
  {
    if ops == [] {
      EmptyIsIndexed();
    } else {
      hide Indexed, Covers, Add, Remove;
      var init, op := ops[..|ops| - 1], ops[|ops| - 1];
      RunsAreIndexed(init);
      RunsStore(init);
      if op.AddOp? {
        AddKeepsIndexed(Run(init), op.app);
      } else {
        RemoveKeepsIndexed(Run(init), op.app);
      }
    }
  }

  /** After any such run, the apps found are those that reading through every stored app finds. */
  lemma FindIsExact(ops: seq<Op>, changes: seq<string>, branch: string)
    requires Legit(ops)
    ensures Found(Run(ops), changes, branch) == BruteForce(Stored(ops), changes, branch)
  {
    RunsAreIndexed(ops);
    RunsStore(ops);
    FoundIsBruteForce(Run(ops), changes, branch);
  }

  /* ----- which apps these are ----- */

  /** The revision of the app is the branch, or none, or HEAD of a main branch. */
  predicate Follows(app: App, branch: string) {
    app.source.targetRevision in {"", branch} ||
      (app.source.targetRevision == "HEAD" && branch in {"main", "master"})
  }

  /** The source holds the path, name by name, or refers to it as a helm file. */
  predicate SourceTouches(src: Source, change: string) {
    || Names(src.path) == [] || (!Rooted(change) && Names(src.path) <= Names(change))
    || (src.helm.Some? && RefersTo(src.path, src.helm.value.fileParameters, change))
    || (src.helm.Some? && RefersTo(src.path, src.helm.value.valueFiles, change))
  }

  /** One of the paths, from the base, is this file. */
  predicate RefersTo(base: string, paths: seq<string>, file: string) {
    exists i :: 0 <= i < |paths| && file == Join(base, paths[i])
  }

  predicate SomeSourceTouches(app: App, change: string) {
    SourceTouches(app.source, change) || exists i :: 0 <= i < |app.more| && SourceTouches(app.more[i], change)
  }

  lemma JoinedHas(base: string, paths: seq<string>, x: string)
    ensures x in Joined(base, paths) <==> RefersTo(base, paths, x)
  {
    hide Join;
    if i :| 0 <= i < |paths| && x == Join(base, paths[i]) {
      assert Joined(base, paths)[i] == x;
    }
  }

  lemma FilesOfHas(src: Source, x: string)
    ensures src.helm.None? ==> x !in FilesOf(src)
    ensures src.helm.Some? ==>
              (x in FilesOf(src) <==>
                RefersTo(src.path, src.helm.value.fileParameters, x) ||
                RefersTo(src.path, src.helm.value.valueFiles, x))
  {
    hide Join, Joined, RefersTo;
    if src.helm.Some? {
      JoinedHas(src.path, src.helm.value.fileParameters, x);
      JoinedHas(src.path, src.helm.value.valueFiles, x);
    }
  }

  lemma {:induction false} AllFilesHas(sources: seq<Source>, x: string)
    ensures x in AllFiles(sources) <==> exists i :: 0 <= i < |sources| && x in FilesOf(sources[i])
  {
    hide FilesOf;
    if sources != [] {
      var n := |sources| - 1;
      AllFilesHas(sources[..n], x);
      if i :| 0 <= i < |sources| && x in FilesOf(sources[i]) {
        assert i < n ==> x in FilesOf(sources[..n][i]);
      }
      if i :| 0 <= i < n && x in FilesOf(sources[..n][i]) {
        assert x in FilesOf(sources[i]);
      }
    }
  }

  lemma SourceTouchesExactly(src: Source, change: string)
    ensures SourceTouches(src, change) <==> DirContains(src.path, change) || change in FilesOf(src)
  {
    ContainsIsByNames(src.path, change);
    FilesOfHas(src, change);
    hide DirContains, FilesOf, Names, RefersTo;
  }

  predicate AnyTouches(sources: seq<Source>, change: string) {
    exists i :: 0 <= i < |sources| && SourceTouches(sources[i], change)
  }

  lemma AnyOfSources(app: App, change: string)
    ensures SomeSourceTouches(app, change) <==> AnyTouches([app.source] + app.more, change)
  {
    hide SourceTouches;
    var sources := [app.source] + app.more;
    if i :| 0 <= i < |app.more| && SourceTouches(app.more[i], change) {
      assert sources[i + 1] == app.more[i];
    }
    if i :| 0 <= i < |sources| && SourceTouches(sources[i], change) {
      assert i > 0 ==> app.more[i - 1] == sources[i];
    }
    assert sources[0] == app.source;
  }

  lemma AffectedExactly(app: App, change: string)
    ensures AffectedBy(app, change) <==> SomeSourceTouches(app, change)
  {
    hide DirContains, FilesOf, SourceTouches, AllFiles, SomeSourceTouches;
    var sources := [app.source] + app.more;
    AnyOfSources(app, change);
    AllFilesHas(sources, change);
    assert Files(app) == AllFiles(sources) && |Dirs(app)| == |sources|;
    forall i | 0 <= i < |sources|
      ensures SourceTouches(sources[i], change) <==>
              DirContains(Dirs(app)[i], change) || change in FilesOf(sources[i])
    {
      assert Dirs(app)[i] == sources[i].path;
      SourceTouchesExactly(sources[i], change);
    }
  }

  lemma FollowsExactly(app: App, branch: string)
    ensures ShouldInclude(app, branch) <==> Follows(app, branch)
  {
  }

  /** What is found after a run: the stored apps that follow the branch and have a source that touches a change. */
  lemma FoundExactly(ops: seq<Op>, changes: seq<string>, branch: string, app: App)
    requires Legit(ops)
    ensures app in Found(Run(ops), changes, branch) <==>
            && app.name in Stored(ops) && Stored(ops)[app.name] == app && Follows(app, branch)
            && exists k :: 0 <= k < |changes| && SomeSourceTouches(app, changes[k])
  {
    FindIsExact(ops, changes, branch);
    RunsAreIndexed(ops);
    RunsStore(ops);
    FollowsExactly(app, branch);
    hide Run, Stored, Found, AffectedBy, SomeSourceTouches, ShouldInclude, Tracks, Follows;
    forall k | 0 <= k < |changes|
      ensures AffectedBy(app, changes[k]) <==> SomeSourceTouches(app, changes[k])
    {
      AffectedExactly(app, changes[k]);
    }
    assert Affected(app, changes) <==> exists k :: 0 <= k < |changes| && SomeSourceTouches(app, changes[k]) by {
      if k :| 0 <= k < |changes| && SomeSourceTouches(app, changes[k]) {
        assert AffectedBy(app, changes[k]);
      }
    }
    hide Affected, BruteForce;
    InBruteForce(Stored(ops), changes, branch, app);
  }

  lemma InBruteForce(apps: map<string, App>, changes: seq<string>, branch: string, app: App)
    requires Named(apps)
    ensures app in BruteForce(apps, changes, branch) <==>
            app.name in apps && apps[app.name] == app && Affected(app, changes) && ShouldInclude(app, branch)
  {
    hide Affected, ShouldInclude;
  }

  lemma PlainNames()
    ensures Names("") == [] && Names("b") == ["b"] && Names("c") == ["c"]
  {
    hide Segments, PushAll;
    OneSegment("");
    OneSegment("b");
    OneSegment("c");
    NamesUnderParent("b");
    NamesUnderParent("c");
    OneMore(false, [], "");
    PushTop();
    assert [] + [""] == [""];
  }

  /** A path of a further source still lists the name after the app is removed and added again. */
  lemma LeftoverStays(ix: Index, before: App, after: App)
    requires before.name !in ix.appsMap && before.name == after.name && before.more != []
    requires before.source.path != before.more[0].path
    ensures var path, again := before.more[0].path, Add(Remove(Add(ix, before), before), after);
            path in again.appDirs && before.name in again.appDirs[path]
  {
    var name, path := before.name, before.more[0].path;
    var full := Add(ix, before);
    var dropped := Remove(full, before);
    assert PathsOf(InDirs, before)[1] == path && path in PathsOf(InDirs, before);
    AddIsRefs(ix, before);
    hide Add, AddRefs, DropRef, PathsOf;
    AddIsRefs(dropped, after);
    AddRefsCounts(ix.appDirs, PathsOf(InDirs, before), name, path, name);
    DropRefCounts(full.appDirs, before.source.path, name, path, name);
    AddRefsCounts(dropped.appDirs, PathsOf(InDirs, after), name, path, name);
  }

  lemma ThreeOps(a: Op, b: Op, c: Op)
    requires a.AddOp? && b.RemoveOp? && c.AddOp?
    ensures Run([a, b, c]) == Add(Remove(Add(Index(map[], map[], map[]), a.app), b.app), c.app)
    ensures Legit([a, b, c]) ==> Covers(b.app, a.app) || a.app.name != b.app.name
  {
    hide Add, Remove, Covers;
    assert [a, b, c][..2] == [a, b] && [a, b][..1] == [a] && [a][..0] == [];
    assert Run([a][..0]) == Index(map[], map[], map[]);
    assert Run([a]) == Add(Run([a][..0]), a.app);
    assert Run([a, b]) == Remove(Run([a]), b.app);
    assert Run([a, b, c]) == Add(Run([a, b]), c.app);
    assert Legit([a, b, c]) ==> Legit([a, b]);
    assert Stored([a]) == map[a.app.name := a.app];
  }

  lemma StoredThree(a: Op, b: Op, c: Op)
    requires a.AddOp? && b.RemoveOp? && c.AddOp? && a.app.name == b.app.name
    ensures Stored([a, b, c]) == map[c.app.name := c.app]
  {
    assert [a, b, c][..2] == [a, b] && [a, b][..1] == [a] && [a][..0] == [];
    assert Stored([a]) == map[a.app.name := a.app];
    assert Stored([a, b]) == map[];
  }

  /**
   * Only the first source of a removed app is cleaned up: when the name comes back with another
   * spec, a change that does not affect it still finds it.
   */
  lemma LeftoversMislead()
    ensures var before := App("x", Source("a", "", None), [Source("", "", None)]);
            var after := App("x", Source("b", "", None), []);
            var ops := [AddOp(before), RemoveOp(before), AddOp(after)];
            && !Legit(ops)
            && after in Found(Run(ops), ["c"], "main")
            && after !in BruteForce(Stored(ops), ["c"], "main")
  {
    var before := App("x", Source("a", "", None), [Source("", "", None)]);
    var after := App("x", Source("b", "", None), []);
    var ops := [AddOp(before), RemoveOp(before), AddOp(after)];
    hide Names, DirContains, Add, Remove, Covers, Dirs, Files, Legit;
    ThreeOps(ops[0], ops[1], ops[2]);
    OwnSpecCovers(before);
    PlainNames();
    ContainsIsByNames("", "c");
    ContainsIsByNames("b", "c");
    LeftoverStays(Index(map[], map[], map[]), before, after);
    OneSource(after);
    RunsStore(ops);
    StoredThree(ops[0], ops[1], ops[2]);
    hide Run, Stored;
    assert TouchedBy(Run(ops), ["c"][0], "x");
    assert !AffectedBy(after, "c");
  }
}
