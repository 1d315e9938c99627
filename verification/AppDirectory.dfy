/**
 * Which apps a set of changed files touches: an index from directories and files to app names,
 * kept next to the apps themselves.
 */
module AppDirectory {
  import opened Paths
  import opened Text

  datatype Helm = Helm(fileParameters: seq<string>, valueFiles: seq<string>)

  datatype Source = Source(path: string, targetRevision: string, helm: Option<Helm>)

  /** GetSource returns the source; more holds the further ones of an app with multiple sources. */
  datatype App = App(name: string, source: Source, more: seq<Source>)

  /** A path, and who refers to it: a name occurs once for each reference. */
  type Refs = map<string, seq<string>>

  datatype Index = Index(appDirs: Refs, appFiles: Refs, appsMap: map<string, App>)

  /* ----- lists of names ----- */

  function Listed(m: Refs, path: string): seq<string> {
    if path in m then m[path] else []
  }

  function AddRef(m: Refs, path: string, name: string): Refs {
    m[path := Listed(m, path) + [name]]
  }

  function AddRefs(m: Refs, paths: seq<string>, name: string): Refs {
    if paths == [] then m
    else AddRef(AddRefs(m, paths[..|paths| - 1], name), paths[|paths| - 1], name)
  }

  function RemoveFirst(names: seq<string>, name: string): seq<string> {
    if names == [] then []
    else if names[0] == name then names[1..]
    else [names[0]] + RemoveFirst(names[1..], name)
  }

  function DropRef(m: Refs, path: string, name: string): Refs {
    m[path := RemoveFirst(Listed(m, path), name)]
  }

  function DropRefs(m: Refs, paths: seq<string>, name: string): Refs {
    if paths == [] then m
    else DropRef(DropRefs(m, paths[..|paths| - 1], name), paths[|paths| - 1], name)
  }

  function Joined(base: string, paths: seq<string>): seq<string> {
    seq(|paths|, i requires 0 <= i < |paths| => Join(base, paths[i]))
  }

  /** The helm files of one source, in the order they are listed. */
  function FilesOf(s: Source): seq<string> {
    if s.helm.None? then [] else Joined(s.path, s.helm.value.fileParameters) + Joined(s.path, s.helm.value.valueFiles)
  }

  function AllFiles(sources: seq<Source>): seq<string> {
    if sources == [] then [] else AllFiles(sources[..|sources| - 1]) + FilesOf(sources[|sources| - 1])
  }

  function AllDirs(sources: seq<Source>): seq<string> {
    seq(|sources|, i requires 0 <= i < |sources| => sources[i].path)
  }

  function Sources(app: App): seq<Source> {
    [app.source] + app.more
  }

  function Dirs(app: App): seq<string> {
    AllDirs(Sources(app))
  }

  function Files(app: App): seq<string> {
    AllFiles(Sources(app))
  }

  predicate ShouldInclude(app: App, targetBranch: string) {
    var revision := app.source.targetRevision;
    revision == "" || revision == targetBranch ||
      (revision == "HEAD" && (targetBranch == "main" || targetBranch == "master"))
  }

  /* ----- the operations ----- */

  function AddSource(ix: Index, app: App, src: Source): Index {
    Index(AddRef(ix.appDirs, src.path, app.name), AddRefs(ix.appFiles, FilesOf(src), app.name),
          ix.appsMap[app.name := app])
  }

  function AddSources(ix: Index, app: App, sources: seq<Source>): Index {
    if sources == [] then ix
    else AddSource(AddSources(ix, app, sources[..|sources| - 1]), app, sources[|sources| - 1])
  }

  function Add(ix: Index, app: App): Index {
    if app.name in ix.appsMap then ix else AddSources(ix, app, Sources(app))
  }

  function Remove(ix: Index, app: App): Index {
    Index(DropRef(ix.appDirs, app.source.path, app.name), DropRefs(ix.appFiles, FilesOf(app.source), app.name),
          ix.appsMap - {app.name})
  }

  /** mergeMaps: what both maps hold is combined. */
  function Merge<T>(first: map<string, T>, second: map<string, T>, combine: (T, T) -> T): map<string, T> {
    map key | key in first.Keys + second.Keys ::
      if key !in second then first[key] else if key in first then combine(first[key], second[key]) else second[key]
  }

  function Union(a: Index, b: Index): Index {
    var mergeLists := (x: seq<string>, y: seq<string>) => x + y;
    Index(Merge(a.appDirs, b.appDirs, mergeLists), Merge(a.appFiles, b.appFiles, mergeLists),
          Merge(a.appsMap, b.appsMap, (x: App, y: App) => x))
  }

  predicate TouchedBy(ix: Index, change: string, name: string) {
    || (exists dir :: dir in ix.appDirs && DirContains(dir, change) && name in ix.appDirs[dir])
    || name in Listed(ix.appFiles, change)
  }

  predicate Touched(ix: Index, changes: seq<string>, name: string) {
    exists k :: 0 <= k < |changes| && TouchedBy(ix, changes[k], name)
  }

  /** The stored apps the index finds for these changes. */
  function Found(ix: Index, changes: seq<string>, branch: string): set<App> {
    set name | name in ix.appsMap && Touched(ix, changes, name) && ShouldInclude(ix.appsMap[name], branch)
      :: ix.appsMap[name]
  }

  predicate Named(apps: map<string, App>) {
    forall name :: name in apps ==> apps[name].name == name
  }

  lemma AddRefsMore(m: Refs, paths: seq<string>, path: string, name: string)
    ensures AddRefs(m, paths + [path], name) == AddRef(AddRefs(m, paths, name), path, name)
  {
    assert (paths + [path])[..|paths|] == paths;
  }

  lemma DropRefsMore(m: Refs, paths: seq<string>, path: string, name: string)
    ensures DropRefs(m, paths + [path], name) == DropRef(DropRefs(m, paths, name), path, name)
  {
    assert (paths + [path])[..|paths|] == paths;
  }

  lemma {:induction false} AddRefsAll(m: Refs, a: seq<string>, b: seq<string>, name: string)
    ensures AddRefs(m, a + b, name) == AddRefs(AddRefs(m, a, name), b, name)
  {
    if b == [] {
      assert a + b == a;
    } else {
      AddRefsAll(m, a, b[..|b| - 1], name);
      assert (a + b)[..|a + b| - 1] == a + b[..|b| - 1];
    }
  }

  lemma {:induction false} DropRefsAll(m: Refs, a: seq<string>, b: seq<string>, name: string)
    ensures DropRefs(m, a + b, name) == DropRefs(DropRefs(m, a, name), b, name)
  {
    if b == [] {
      assert a + b == a;
    } else {
      DropRefsAll(m, a, b[..|b| - 1], name);
      assert (a + b)[..|a + b| - 1] == a + b[..|b| - 1];
    }
  }

  lemma NoneSoFar(m: Refs, name: string)
    ensures AddRefs(m, [], name) == m && DropRefs(m, [], name) == m
  {
  }

  lemma JoinedSoFar(base: string, paths: seq<string>, i: nat)
    requires i < |paths|
    ensures Joined(base, paths[..i + 1]) == Joined(base, paths[..i]) + [Join(base, paths[i])]
  {
    hide Join;
  }

  lemma AddSourcesMore(ix: Index, app: App, sources: seq<Source>, i: nat)
    requires i < |sources|
    ensures AddSources(ix, app, sources[..i + 1]) == AddSource(AddSources(ix, app, sources[..i]), app, sources[i])
  {
    assert sources[..i + 1][..i] == sources[..i];
  }

  /** Adding source by source lists all directories and all files. */
  lemma {:induction false} AddSourcesRefs(ix: Index, app: App, sources: seq<Source>)
    requires sources != []
    ensures AddSources(ix, app, sources) ==
            Index(AddRefs(ix.appDirs, AllDirs(sources), app.name), AddRefs(ix.appFiles, AllFiles(sources), app.name),
                  ix.appsMap[app.name := app])
  {
    hide AddRef, FilesOf;
    var init, last := sources[..|sources| - 1], sources[|sources| - 1];
    AddSourcesMore(ix, app, sources, |init|);
    assert sources[..|sources|] == sources;
    assert AllDirs(sources) == AllDirs(init) + [last.path];
    AddRefsMore(ix.appDirs, AllDirs(init), last.path, app.name);
    AddRefsAll(ix.appFiles, AllFiles(init), FilesOf(last), app.name);
    if init != [] {
      hide AddRefs, AllFiles, AddSources;
      AddSourcesRefs(ix, app, init);
    }
  }

  /** One more key of the second map. */
  lemma MergeMore<T>(first: map<string, T>, second: map<string, T>, left: set<string>, key: string,
                     combine: (T, T) -> T)
    requires left <= second.Keys && key in left
    ensures var before, after := Merge(first, second - left, combine), Merge(first, second - (left - {key}), combine);
            && (key in before <==> key in first) && (key in first ==> before[key] == first[key])
            && after == before[key := if key in first then combine(first[key], second[key]) else second[key]]
  {
    var before, after := Merge(first, second - left, combine), Merge(first, second - (left - {key}), combine);
    var v := if key in first then combine(first[key], second[key]) else second[key];
    assert (second - (left - {key})).Keys == (second - left).Keys + {key};
    assert after.Keys == before.Keys + {key} == before[key := v].Keys;
    forall k | k in after
      ensures after[k] == before[key := v][k]
    {
      if k != key {
        assert k in second - left <==> k in second - (left - {key});
      }
    }
  }

  method MergeMaps<T>(first: map<string, T>, second: map<string, T>, combine: (T, T) -> T)
    returns (result: map<string, T>)
    ensures result == Merge(first, second, combine)
  {
    MergeNothing(first, second, combine);
    hide Merge;
    result := first;
    var keys := second.Keys;
    while keys != {}
      invariant keys <= second.Keys
      invariant result == Merge(first, second - keys, combine)
      decreases |keys|
    {
      var key :| key in keys;
      MergeMore(first, second, keys, key, combine);
      result := result[key := if key in result then combine(result[key], second[key]) else second[key]];
      keys := keys - {key};
    }
    assert second - {} == second;
  }

  lemma MergeNothing<T>(first: map<string, T>, second: map<string, T>, combine: (T, T) -> T)
    ensures Merge(first, second - second.Keys, combine) == first
  {
  }

  /** removeFromSlice: the first occurrence goes, the rest keep their order. */
  method RemoveFromSlice(slice: seq<string>, element: string) returns (r: seq<string>)
    ensures r == RemoveFirst(slice, element)
  {
    var i := 0;
    while i < |slice|
      invariant 0 <= i <= |slice|
      invariant RemoveFirst(slice, element) == slice[..i] + RemoveFirst(slice[i..], element)
    {
      if slice[i] == element {
        return slice[..i] + slice[i + 1..];
      }
      i := i + 1;
    }
    return slice;
  }

  lemma TouchedMore(ix: Index, changes: seq<string>, change: string, name: string)
    ensures Touched(ix, changes + [change], name) <==> Touched(ix, changes, name) || TouchedBy(ix, change, name)
  {
    hide TouchedBy;
    var all := changes + [change];
    if Touched(ix, changes, name) {
      var k :| 0 <= k < |changes| && TouchedBy(ix, changes[k], name);
      assert TouchedBy(ix, all[k], name);
    }
    if TouchedBy(ix, change, name) {
      assert TouchedBy(ix, all[|changes|], name);
    }
  }

  lemma TouchedByNone(ix: Index)
    ensures forall name :: !Touched(ix, [], name)
  {
  }

  lemma TouchedByOneMore(ix: Index, changes: seq<string>, k: nat)
    requires k < |changes|
    ensures forall name :: Touched(ix, changes[..k + 1], name) <==>
                           Touched(ix, changes[..k], name) || TouchedBy(ix, changes[k], name)
  {
    hide Touched, TouchedBy;
    assert changes[..k + 1] == changes[..k] + [changes[k]];
    forall name
      ensures Touched(ix, changes[..k + 1], name) <==>
          Touched(ix, changes[..k], name) || TouchedBy(ix, changes[k], name)
    {
      TouchedMore(ix, changes[..k], changes[k], name);
    }
  }

  function Selected(apps: map<string, App>, names: set<string>, branch: string): set<App> {
    set name | name in names && name in apps && ShouldInclude(apps[name], branch) :: apps[name]
  }

  lemma SelectedMore(apps: map<string, App>, names: set<string>, name: string, branch: string)
    requires Named(apps) && name !in names
    ensures name in apps && ShouldInclude(apps[name], branch) ==>
              apps[name] !in Selected(apps, names, branch) &&
              Selected(apps, names + {name}, branch) == Selected(apps, names, branch) + {apps[name]}
    ensures !(name in apps && ShouldInclude(apps[name], branch)) ==>
              Selected(apps, names + {name}, branch) == Selected(apps, names, branch)
  {
    hide ShouldInclude;
  }

  class AppDirectory {
    var appDirs: Refs
    var appFiles: Refs
    var appsMap: map<string, App>

    constructor ()
      ensures View() == Index(map[], map[], map[])
    {
      appDirs, appFiles, appsMap := map[], map[], map[];
    }

    ghost function View(): Index
      reads this
    {
      Index(appDirs, appFiles, appsMap)
    }

    method AddDir(name: string, path: string)
      modifies this`appDirs
      ensures appDirs == AddRef(old(appDirs), path, name)
    {
      appDirs := appDirs[path := (if path in appDirs then appDirs[path] else []) + [name]];
    }

    method AddFile(name: string, path: string)
      modifies this`appFiles
      ensures appFiles == AddRef(old(appFiles), path, name)
    {
      appFiles := appFiles[path := (if path in appFiles then appFiles[path] else []) + [name]];
    }

    method AddFiles(name: string, base: string, paths: seq<string>)
      modifies this`appFiles
      ensures appFiles == AddRefs(old(appFiles), Joined(base, paths), name)
    {
      hide Join, AddRefs, AddRef;
      NoneSoFar(appFiles, name);
      assert Joined(base, paths[..0]) == [];
      for i := 0 to |paths|
        invariant appFiles == AddRefs(old(appFiles), Joined(base, paths[..i]), name)
      {
        JoinedSoFar(base, paths, i);
        AddRefsMore(old(appFiles), Joined(base, paths[..i]), Join(base, paths[i]), name);
        AddFile(name, Join(base, paths[i]));
      }
      assert paths[..|paths|] == paths;
    }

    method AddSourceFiles(name: string, src: Source)
      modifies this`appFiles
      ensures appFiles == AddRefs(old(appFiles), FilesOf(src), name)
    {
      if src.helm.Some? {
        AddFiles(name, src.path, src.helm.value.fileParameters);
        AddFiles(name, src.path, src.helm.value.valueFiles);
        AddRefsAll(old(appFiles), Joined(src.path, src.helm.value.fileParameters),
                   Joined(src.path, src.helm.value.valueFiles), name);
      }
    }

    method AddOneSource(app: App, src: Source)
      modifies this
      ensures View() == AddSource(old(View()), app, src)
    {
      appsMap := appsMap[app.name := app];
      AddDir(app.name, src.path);
      AddSourceFiles(app.name, src);
    }

    method AddApp(app: App)
      modifies this
      ensures View() == Add(old(View()), app)
    {
      if app.name in appsMap {
        return;
      }
      var sources := [app.source] + app.more;
      for i := 0 to |sources|
        invariant View() == AddSources(old(View()), app, sources[..i])
      {
        AddSourcesMore(old(View()), app, sources, i);
        AddOneSource(app, sources[i]);
      }
      assert sources[..|sources|] == Sources(app);
    }

    method RemoveFile(name: string, path: string)
      modifies this`appFiles
      ensures appFiles == DropRef(old(appFiles), path, name)
    {
      var rest := RemoveFromSlice(if path in appFiles then appFiles[path] else [], name);
      appFiles := appFiles[path := rest];
    }

    method RemoveFiles(name: string, base: string, paths: seq<string>)
      modifies this`appFiles
      ensures appFiles == DropRefs(old(appFiles), Joined(base, paths), name)
    {
      hide Join, DropRefs, DropRef;
      NoneSoFar(appFiles, name);
      assert Joined(base, paths[..0]) == [];
      for i := 0 to |paths|
        invariant appFiles == DropRefs(old(appFiles), Joined(base, paths[..i]), name)
      {
        JoinedSoFar(base, paths, i);
        DropRefsMore(old(appFiles), Joined(base, paths[..i]), Join(base, paths[i]), name);
        RemoveFile(name, Join(base, paths[i]));
      }
      assert paths[..|paths|] == paths;
    }

    method RemoveApp(app: App)
      modifies this
      ensures View() == Remove(old(View()), app)
    {
      appsMap := appsMap - {app.name};
      var src := app.source;
      var rest := RemoveFromSlice(if src.path in appDirs then appDirs[src.path] else [], app.name);
      appDirs := appDirs[src.path := rest];
      if src.helm.Some? {
        RemoveFiles(app.name, src.path, src.helm.value.fileParameters);
        RemoveFiles(app.name, src.path, src.helm.value.valueFiles);
        DropRefsAll(old(appFiles), Joined(src.path, src.helm.value.fileParameters),
                    Joined(src.path, src.helm.value.valueFiles), app.name);
      }
    }

    /** The names one change touches; the directories come in any order. */
    method NamesTouchedBy(change: string) returns (names: set<string>)
      ensures forall name :: name in names <==> TouchedBy(View(), change, name)
    {
      names := {};
      var dirs := appDirs.Keys;
      while dirs != {}
        invariant dirs <= appDirs.Keys
        invariant forall name :: name in names <==>
                    exists dir :: dir in appDirs && dir !in dirs && DirContains(dir, change) && name in appDirs[dir]
        decreases |dirs|
      {
        var dir :| dir in dirs;
        if DirContains(dir, change) {
          names := names + set name | name in appDirs[dir];
        }
        dirs := dirs - {dir};
      }
      if change in appFiles {
        names := names + set name | name in appFiles[change];
      }
    }

    method NamesTouched(changeList: seq<string>) returns (names: set<string>)
      ensures forall name :: name in names <==> Touched(View(), changeList, name)
    {
      hide Touched, TouchedBy;
      names := {};
      TouchedByNone(View());
      for k := 0 to |changeList|
        invariant forall name :: name in names <==> Touched(View(), changeList[..k], name)
      {
        var more := NamesTouchedBy(changeList[k]);
        TouchedByOneMore(View(), changeList, k);
        names := names + more;
      }
      assert changeList[..|changeList|] == changeList;
    }

    /** The apps with these names that are stored and follow the branch, in any order. */
    method Select(names: set<string>, targetBranch: string) returns (apps: seq<App>)
      requires Named(appsMap)
      ensures multiset(apps) == multiset(Selected(appsMap, names, targetBranch))
    {
      hide ShouldInclude;
      apps := [];
      var left := names;
      while left != {}
        invariant left <= names
        invariant multiset(apps) == multiset(Selected(appsMap, names - left, targetBranch))
        decreases |left|
      {
        var name :| name in left;
        SelectedMore(appsMap, names - left, name, targetBranch);
        assert names - (left - {name}) == names - left + {name};
        if name in appsMap && ShouldInclude(appsMap[name], targetBranch) {
          apps := apps + [appsMap[name]];
        }
        left := left - {name};
      }
      assert names - {} == names;
    }

    method FindAppsBasedOnChangeList(changeList: seq<string>, targetBranch: string) returns (apps: seq<App>)
      requires Named(appsMap)
      ensures multiset(apps) == multiset(Found(View(), changeList, targetBranch))
    {
      var names := NamesTouched(changeList);
      apps := Select(names, targetBranch);
      assert Selected(appsMap, names, targetBranch) == Found(View(), changeList, targetBranch) by {
        hide Touched, ShouldInclude;
      }
    }

    method UnionWith(other: AppDirectory) returns (join: AppDirectory)
      ensures join.View() == Union(View(), other.View())
    {
      join := new AppDirectory();
      var mergeLists := (x: seq<string>, y: seq<string>) => x + y;
      join.appsMap := MergeMaps(appsMap, other.appsMap, (x: App, y: App) => x);
      join.appDirs := MergeMaps(appDirs, other.appDirs, mergeLists);
      join.appFiles := MergeMaps(appFiles, other.appFiles, mergeLists);
    }
  }
}
