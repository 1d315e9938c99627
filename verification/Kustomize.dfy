/**
 * The files and directories a kustomization refers to, directory by directory. The directories
 * already seen are shared by all calls, so references may form cycles.
 */
module Kustomize {
  import opened Paths
  import opened Text

  /** The parts of a kustomization that name files or directories; helm charts and patches by their path. */
  datatype Kustomization = Kustomization(
    bases: seq<string>,
    resources: seq<string>,
    components: seq<string>,
    configurations: seq<string>,
    crds: seq<string>,
    transformers: seq<string>,
    helmValuesFiles: seq<string>,
    patches: seq<string>,
    patchesJson6902: seq<string>,
    patchesStrategicMerge: seq<string>)

  /** Opening, reading and parsing a kustomization.yaml. */
  datatype Opened = NotThere | Failed | Parsed(kust: Kustomization)

  datatype Stat = NoStat | IsFile | IsDir

  datatype Fs = Fs(open: string -> Opened, stat: string -> Stat)

  predicate Contains(s: string, pattern: string) {
    IndexOf(s, pattern) >= 0
  }

  predicate IsRemoteResource(resource: string) {
    || Contains(resource, "://")
    || "git@" <= resource
    || "github.com/" <= resource
    || "bitbucket.org/" <= resource
    || "gitlab.com/" <= resource
    || "//" <= resource
  }

  function CleanPath(base: string, path: string): string {
    if "/" <= path then path[1..] else Join(base, path)
  }

  function CleanPaths(base: string, paths: seq<string>): seq<string> {
    if paths == [] then []
    else
      var init, last := CleanPaths(base, paths[..|paths| - 1]), paths[|paths| - 1];
      if IsRemoteResource(last) then init else init + [CleanPath(base, last)]
  }

  method CleanPathsLoop(base: string, paths: seq<string>) returns (result: seq<string>)
    ensures result == CleanPaths(base, paths)
  {
    result := [];
    for i := 0 to |paths|
      invariant result == CleanPaths(base, paths[..i])
    {
      hide Join, IsRemoteResource;
      assert paths[..i + 1][..i] == paths[..i];
      var path := paths[i];
      if !IsRemoteResource(path) {
        path := if "/" <= path then path[1..] else Join(base, path);
        result := result + [path];
      }
    }
    assert paths[..|paths|] == paths;
  }

  function NonEmpty(paths: seq<string>): seq<string> {
    if paths == [] then []
    else NonEmpty(paths[..|paths| - 1]) + if paths[|paths| - 1] == "" then [] else [paths[|paths| - 1]]
  }

  /** Patches given in place span lines; the others are paths. */
  function OneLiners(patches: seq<string>): seq<string> {
    if patches == [] then []
    else OneLiners(patches[..|patches| - 1]) + if Contains(patches[|patches| - 1], "\n") then []
      else [patches[|patches| - 1]]
  }

  function NamedFiles(k: Kustomization): seq<string> {
    ["kustomization.yaml"] + k.configurations + k.crds + k.transformers + k.helmValuesFiles
    + NonEmpty(k.patches) + NonEmpty(k.patchesJson6902) + OneLiners(k.patchesStrategicMerge)
  }

  function Refs(dir: string, k: Kustomization): seq<string> {
    CleanPaths(dir, k.bases + k.resources)
  }

  /** The references of one kind, in order. */
  function OfKind(fs: Fs, refs: seq<string>, kind: Stat): seq<string> {
    if refs == [] then []
    else OfKind(fs, refs[..|refs| - 1], kind) + if fs.stat(refs[|refs| - 1]) == kind then [refs[|refs| - 1]] else []
  }

  function OpenAt(fs: Fs, dir: string): Opened {
    fs.open(Join(dir, "kustomization.yaml"))
  }

  /** A directory that can be processed: its kustomization parses and everything it refers to is there. */
  predicate Good(fs: Fs, dir: string) {
    match OpenAt(fs, dir)
    case NotThere => true
    case Failed => false
    case Parsed(k) => forall i :: 0 <= i < |Refs(dir, k)| ==> fs.stat(Refs(dir, k)[i]) != NoStat
  }

  function SubDirs(fs: Fs, dir: string): seq<string> {
    match OpenAt(fs, dir)
    case Parsed(k) => CleanPaths(dir, k.components) + OfKind(fs, Refs(dir, k), IsDir)
    case _ => []
  }

  /** What a directory itself contributes. */
  function FilesAt(fs: Fs, dir: string): seq<string> {
    match OpenAt(fs, dir)
    case Parsed(k) => CleanPaths(dir, NamedFiles(k)) + OfKind(fs, Refs(dir, k), IsFile)
    case _ => []
  }

  function DirsAt(fs: Fs, dir: string): seq<string> {
    if OpenAt(fs, dir).NotThere? then [dir] else []
  }

  function AllFiles(fs: Fs, dirs: seq<string>): seq<string> {
    if dirs == [] then [] else FilesAt(fs, dirs[0]) + AllFiles(fs, dirs[1..])
  }

  function AllDirs(fs: Fs, dirs: seq<string>): seq<string> {
    if dirs == [] then [] else DirsAt(fs, dirs[0]) + AllDirs(fs, dirs[1..])
  }

  /* ----- the search ----- */

  /** The directories entered, in order, up to the first bad one. */
  datatype Search = Search(ok: bool, order: seq<string>)

  function Elems(s: seq<string>): set<string> {
    set x | x in s
  }

  /** A finite set of directory names that references do not leave. */
  ghost predicate Closed(fs: Fs, universe: set<string>) {
    forall dir, sub :: dir in universe && sub in SubDirs(fs, dir) ==> sub in universe
  }

  predicate Within(dirs: seq<string>, universe: set<string>) {
    forall i :: 0 <= i < |dirs| ==> dirs[i] in universe
  }

  lemma LessLeft(universe: set<string>, visited: set<string>, more: set<string>)
    ensures |universe - (visited + more)| <= |universe - visited|
    ensures universe * more - visited != {} ==> |universe - (visited + more)| < |universe - visited|
  {
    var left, before := universe - (visited + more), universe - visited;
    assert before == left + (universe * more - visited);
    assert left !! universe * more - visited;
  }

  ghost function Visit(fs: Fs, universe: set<string>, dirs: seq<string>, visited: set<string>): Search
    requires Closed(fs, universe) && Within(dirs, universe)
    decreases |universe - visited|, |dirs|
  {
    if dirs == [] then Search(true, [])
    else if dirs[0] in visited then Visit(fs, universe, dirs[1..], visited)
    else if !Good(fs, dirs[0]) then Search(false, [dirs[0]])
    else
      LessLeft(universe, visited, {dirs[0]});
      assert dirs[0] in universe * {dirs[0]} - visited;
      var sub := Visit(fs, universe, SubDirs(fs, dirs[0]), visited + {dirs[0]});
      var seen := visited + {dirs[0]} + Elems(sub.order);
      LessLeft(universe, visited + {dirs[0]}, Elems(sub.order));
      if !sub.ok then Search(false, [dirs[0]] + sub.order)
      else
        var rest := Visit(fs, universe, dirs[1..], seen);
        Search(rest.ok, [dirs[0]] + sub.order + rest.order)
  }

  lemma VisitNew(fs: Fs, universe: set<string>, dirs: seq<string>, visited: set<string>)
    requires Closed(fs, universe) && Within(dirs, universe)
    requires dirs != [] && dirs[0] !in visited && Good(fs, dirs[0])
    ensures var sub := Visit(fs, universe, SubDirs(fs, dirs[0]), visited + {dirs[0]});
            var seen := visited + {dirs[0]} + Elems(sub.order);
            Visit(fs, universe, dirs, visited) ==
            if !sub.ok then Search(false, [dirs[0]] + sub.order)
            else
              var rest := Visit(fs, universe, dirs[1..], seen);
              Search(rest.ok, [dirs[0]] + sub.order + rest.order)
  {
  }

  /** Search one directory after another: the later ones see what the earlier ones entered. */
  function Then(first: Search, second: Search): Search {
    Search(second.ok, first.order + second.order)
  }

  lemma VisitOne(fs: Fs, universe: set<string>, dirs: seq<string>, visited: set<string>)
    requires Closed(fs, universe) && Within(dirs, universe) && dirs != []
    ensures var first := Visit(fs, universe, [dirs[0]], visited);
            Visit(fs, universe, dirs, visited) ==
            if !first.ok then first
            else Then(first, Visit(fs, universe, dirs[1..], visited + Elems(first.order)))
  {
    var one := [dirs[0]];
    var first := Visit(fs, universe, one, visited);
    assert one[1..] == [] && Visit(fs, universe, [], visited).order == [];
    if dirs[0] in visited {
      assert first == Search(true, []);
      assert visited + Elems([]) == visited;
      assert [] + Visit(fs, universe, dirs[1..], visited).order == Visit(fs, universe, dirs[1..], visited).order;
    } else if Good(fs, dirs[0]) {
      VisitNew(fs, universe, dirs, visited);
      VisitNew(fs, universe, one, visited);
      var sub := Visit(fs, universe, SubDirs(fs, dirs[0]), visited + {dirs[0]});
      if sub.ok {
        assert Visit(fs, universe, one[1..], visited + {dirs[0]} + Elems(sub.order)) == Search(true, []);
        hide Visit, Good, SubDirs;
        assert first.order == [dirs[0]] + sub.order;
        assert visited + Elems(first.order) == visited + {dirs[0]} + Elems(sub.order);
      }
    }
  }

  lemma ThenAssociates(a: Search, b: Search, c: Search)
    ensures Then(a, Then(b, c)) == Then(Then(a, b), c)
  {
    assert a.order + (b.order + c.order) == (a.order + b.order) + c.order;
  }

  lemma ElemsAppend(a: seq<string>, b: seq<string>)
    ensures Elems(a + b) == Elems(a) + Elems(b)
  {
  }

  lemma {:induction false} VisitAppend(
      fs: Fs, universe: set<string>, a: seq<string>, b: seq<string>, visited: set<string>)
    requires Closed(fs, universe) && Within(a, universe) && Within(b, universe)
    ensures var first := Visit(fs, universe, a, visited);
            Visit(fs, universe, a + b, visited) ==
            if !first.ok then first else Then(first, Visit(fs, universe, b, visited + Elems(first.order)))
    decreases |a|
  {
    if a == [] {
      assert a + b == b && visited + Elems([]) == visited;
      assert [] + Visit(fs, universe, b, visited).order == Visit(fs, universe, b, visited).order;
    } else {
      hide Visit, Closed;
      assert (a + b)[1..] == a[1..] + b;
      VisitOne(fs, universe, a + b, visited);
      VisitOne(fs, universe, a, visited);
      var head := Visit(fs, universe, [a[0]], visited);
      if head.ok {
        var seen := visited + Elems(head.order);
        VisitAppend(fs, universe, a[1..], b, seen);
        var tail := Visit(fs, universe, a[1..], seen);
        ElemsAppend(head.order, tail.order);
        assert seen + Elems(tail.order) == visited + Elems(head.order + tail.order);
        if tail.ok {
          ThenAssociates(head, tail, Visit(fs, universe, b, seen + Elems(tail.order)));
        }
      }
    }
  }

  lemma FlatStep(fs: Fs, dirs: seq<string>)
    ensures AllFiles(fs, dirs) == if dirs == [] then [] else FilesAt(fs, dirs[0]) + AllFiles(fs, dirs[1..])
    ensures AllDirs(fs, dirs) == if dirs == [] then [] else DirsAt(fs, dirs[0]) + AllDirs(fs, dirs[1..])
  {
  }

  lemma ListsAssociate(a: seq<string>, b: seq<string>, c: seq<string>)
    ensures a + (b + c) == (a + b) + c
  {
  }

  lemma {:induction false} FlatAppend(fs: Fs, a: seq<string>, b: seq<string>)
    ensures AllFiles(fs, a + b) == AllFiles(fs, a) + AllFiles(fs, b)
    ensures AllDirs(fs, a + b) == AllDirs(fs, a) + AllDirs(fs, b)
  {
    hide AllFiles, AllDirs, FilesAt, DirsAt;
    FlatStep(fs, a);
    if a == [] {
      assert a + b == b;
      assert [] + AllFiles(fs, b) == AllFiles(fs, b) && [] + AllDirs(fs, b) == AllDirs(fs, b);
    } else {
      FlatAppend(fs, a[1..], b);
      assert (a + b)[1..] == a[1..] + b;
      FlatStep(fs, a + b);
      ListsAssociate(FilesAt(fs, a[0]), AllFiles(fs, a[1..]), AllFiles(fs, b));
      ListsAssociate(DirsAt(fs, a[0]), AllDirs(fs, a[1..]), AllDirs(fs, b));
    }
  }

  method NonEmptyLoop(paths: seq<string>) returns (files: seq<string>)
    ensures files == NonEmpty(paths)
  {
    files := [];
    for i := 0 to |paths|
      invariant files == NonEmpty(paths[..i])
    {
      assert paths[..i + 1][..i] == paths[..i];
      if paths[i] != "" {
        files := files + [paths[i]];
      }
    }
    assert paths[..|paths|] == paths;
  }

  method OneLinersLoop(patches: seq<string>) returns (files: seq<string>)
    ensures files == OneLiners(patches)
  {
    files := [];
    for i := 0 to |patches|
      invariant files == OneLiners(patches[..i])
    {
      hide Contains;
      assert patches[..i + 1][..i] == patches[..i];
      if !Contains(patches[i], "\n") {
        files := files + [patches[i]];
      }
    }
    assert patches[..|patches|] == patches;
  }

  method NamedFilesOf(k: Kustomization) returns (files: seq<string>)
    ensures files == NamedFiles(k)
  {
    files := ["kustomization.yaml"];
    files := files + k.configurations;
    files := files + k.crds;
    files := files + k.transformers;
    files := files + k.helmValuesFiles;
    var more := NonEmptyLoop(k.patches);
    files := files + more;
    more := NonEmptyLoop(k.patchesJson6902);
    files := files + more;
    more := OneLinersLoop(k.patchesStrategicMerge);
    files := files + more;
  }

  /** Tells files from directories; fails at the first reference that is not there. */
  method SortOut(fs: Fs, refs: seq<string>, knownDirs: seq<string>, knownFiles: seq<string>)
    returns (ok: bool, directories: seq<string>, files: seq<string>)
    ensures ok <==> forall i :: 0 <= i < |refs| ==> fs.stat(refs[i]) != NoStat
    ensures ok ==> directories == knownDirs + OfKind(fs, refs, IsDir) && files == knownFiles + OfKind(fs, refs, IsFile)
  {
    directories, files := knownDirs, knownFiles;
    for i := 0 to |refs|
      invariant forall j :: 0 <= j < i ==> fs.stat(refs[j]) != NoStat
      invariant directories == knownDirs + OfKind(fs, refs[..i], IsDir)
      invariant files == knownFiles + OfKind(fs, refs[..i], IsFile)
    {
      assert refs[..i + 1][..i] == refs[..i];
      match fs.stat(refs[i])
      case NoStat => return false, [], [];
      case IsDir => directories := directories + [refs[i]];
      case IsFile => files := files + [refs[i]];
    }
    assert refs[..|refs|] == refs;
    ok := true;
  }

  /** What one parsed kustomization contributes and where it leads. */
  method ReadDir(fs: Fs, dir: string, k: Kustomization) returns (ok: bool, directories: seq<string>, files: seq<string>)
    requires OpenAt(fs, dir) == Parsed(k)
    ensures ok <==> Good(fs, dir)
    ensures ok ==> directories == SubDirs(fs, dir) && files == FilesAt(fs, dir)
  {
    hide CleanPaths, NamedFiles, OfKind;
    var refs := CleanPathsLoop(dir, k.bases + k.resources);
    assert refs == Refs(dir, k);
    assert Good(fs, dir) <==> forall i :: 0 <= i < |refs| ==> fs.stat(refs[i]) != NoStat;
    var comps := CleanPathsLoop(dir, k.components);
    var named := NamedFilesOf(k);
    named := CleanPathsLoop(dir, named);
    ok, directories, files := SortOut(fs, refs, comps, named);
  }

  lemma VisitNone(fs: Fs, universe: set<string>, visited: set<string>)
    requires Closed(fs, universe)
    ensures Visit(fs, universe, [], visited) == Search(true, [])
    ensures AllFiles(fs, []) == [] && AllDirs(fs, []) == [] && Elems([]) == {}
  {
  }

  lemma VisitSeen(fs: Fs, universe: set<string>, dir: string, visited: set<string>)
    requires Closed(fs, universe) && dir in universe && dir in visited
    ensures Visit(fs, universe, [dir], visited) == Search(true, [])
    ensures AllFiles(fs, []) == [] && AllDirs(fs, []) == [] && Elems([]) == {}
  {
    assert [dir][1..] == [];
  }

  /** A directory that is not there, or cannot be read, is entered and nothing else. */
  lemma EnterOne(fs: Fs, universe: set<string>, dir: string, visited: set<string>)
    requires Closed(fs, universe) && dir in universe && dir !in visited
    ensures Elems([dir]) == {dir}
    ensures OpenAt(fs, dir).Failed? || !Good(fs, dir) ==> Visit(fs, universe, [dir], visited) == Search(false, [dir])
    ensures OpenAt(fs, dir).NotThere? ==>
              Visit(fs, universe, [dir], visited) == Search(true, [dir]) &&
              AllFiles(fs, [dir]) == [] && AllDirs(fs, [dir]) == [dir]
  {
    assert [dir][1..] == [];
    if OpenAt(fs, dir).NotThere? {
      VisitNew(fs, universe, [dir], visited);
      assert SubDirs(fs, dir) == [];
      assert AllFiles(fs, [dir]) == [] + AllFiles(fs, []);
      assert AllDirs(fs, [dir]) == [dir] + AllDirs(fs, []);
    }
  }

  /** A good directory is entered, then the directories it leads to. */
  lemma EnterGood(fs: Fs, universe: set<string>, dir: string, visited: set<string>)
    requires Closed(fs, universe) && dir in universe && dir !in visited && Good(fs, dir) && OpenAt(fs, dir).Parsed?
    ensures Within(SubDirs(fs, dir), universe) && |universe - (visited + {dir})| < |universe - visited|
    ensures var sub := Visit(fs, universe, SubDirs(fs, dir), visited + {dir});
            && Visit(fs, universe, [dir], visited) == Search(sub.ok, [dir] + sub.order)
            && Elems([dir] + sub.order) == {dir} + Elems(sub.order)
            && AllFiles(fs, [dir] + sub.order) == FilesAt(fs, dir) + AllFiles(fs, sub.order)
            && AllDirs(fs, [dir] + sub.order) == AllDirs(fs, sub.order)
  {
    hide Visit, Good;
    VisitNew(fs, universe, [dir], visited);
    LessLeft(universe, visited, {dir});
    assert dir in universe * {dir} - visited;
    assert [dir][1..] == [];
    var sub := Visit(fs, universe, SubDirs(fs, dir), visited + {dir});
    VisitNone(fs, universe, visited + {dir} + Elems(sub.order));
    assert [dir] + sub.order + [] == [dir] + sub.order;
    assert ([dir] + sub.order)[1..] == sub.order;
  }

  /** One more directory searched. */
  lemma SearchMore(fs: Fs, universe: set<string>, dirs: seq<string>, i: nat, visited: set<string>)
    requires Closed(fs, universe) && Within(dirs, universe) && i < |dirs|
    requires Visit(fs, universe, dirs[..i], visited).ok
    ensures var s := Visit(fs, universe, dirs[..i], visited);
            var one := Visit(fs, universe, [dirs[i]], visited + Elems(s.order));
            && Visit(fs, universe, dirs[..i + 1], visited) == Then(s, one)
            && (!one.ok ==> Visit(fs, universe, dirs, visited) == Then(s, one))
            && |universe - (visited + Elems(s.order))| <= |universe - visited|
            && visited + Elems(s.order) + Elems(one.order) == visited + Elems(s.order + one.order)
            && AllFiles(fs, s.order + one.order) == AllFiles(fs, s.order) + AllFiles(fs, one.order)
            && AllDirs(fs, s.order + one.order) == AllDirs(fs, s.order) + AllDirs(fs, one.order)
  {
    hide Visit, AllFiles, AllDirs, Closed, Elems;
    var s := Visit(fs, universe, dirs[..i], visited);
    var one := Visit(fs, universe, [dirs[i]], visited + Elems(s.order));
    VisitAppend(fs, universe, dirs[..i], [dirs[i]], visited);
    assert dirs[..i + 1] == dirs[..i] + [dirs[i]];
    if !one.ok {
      VisitAppend(fs, universe, dirs[..i + 1], dirs[i + 1..], visited);
      assert dirs == dirs[..i + 1] + dirs[i + 1..];
    }
    LessLeft(universe, visited, Elems(s.order));
    ElemsAppend(s.order, one.order);
    FlatAppend(fs, s.order, one.order);
  }

  class Processor {
    var visitedDirs: set<string>

    constructor ()
      ensures visitedDirs == {}
    {
      visitedDirs := {};
    }

    /** Enters what the search from this directory enters, and flattens what was found there. */
    method ProcessDir(fs: Fs, ghost universe: set<string>, dir: string)
      returns (ok: bool, files: seq<string>, dirs: seq<string>)
      requires Closed(fs, universe) && dir in universe
      modifies this
      ensures var s := Visit(fs, universe, [dir], old(visitedDirs));
              && ok == s.ok
              && visitedDirs == old(visitedDirs) + Elems(s.order)
              && (ok ==> files == AllFiles(fs, s.order) && dirs == AllDirs(fs, s.order))
      decreases |universe - visitedDirs|, 0
    {
      hide Good, FilesAt, DirsAt, SubDirs, Visit, AllFiles, AllDirs, Elems, Closed, OpenAt, Within;
      if dir in visitedDirs {
        VisitSeen(fs, universe, dir, visitedDirs);
        return true, [], [];
      }
      ghost var before := visitedDirs;
      visitedDirs := visitedDirs + {dir};
      EnterOne(fs, universe, dir, before);
      match OpenAt(fs, dir) {
        case NotThere => return true, [], [dir];
        case Failed => return false, [], [];
        case Parsed(k) =>
          var directories, own;
          ok, directories, own := ReadDir(fs, dir, k);
          if !ok {
            return false, [], [];
          }
          EnterGood(fs, universe, dir, before);
          var subFiles, subDirs;
          ok, subFiles, subDirs := ProcessAll(fs, universe, directories);
          if !ok {
            return false, [], [];
          }
          return true, own + subFiles, subDirs;
      }
    }

    method ProcessAll(fs: Fs, ghost universe: set<string>, directories: seq<string>)
      returns (ok: bool, files: seq<string>, dirs: seq<string>)
      requires Closed(fs, universe) && Within(directories, universe)
      modifies this
      ensures var s := Visit(fs, universe, directories, old(visitedDirs));
              && ok == s.ok
              && visitedDirs == old(visitedDirs) + Elems(s.order)
              && (ok ==> files == AllFiles(fs, s.order) && dirs == AllDirs(fs, s.order))
      decreases |universe - visitedDirs|, 1
    {
      hide Visit, AllFiles, AllDirs, Closed, Elems;
      files, dirs := [], [];
      VisitNone(fs, universe, visitedDirs);
      ghost var before := visitedDirs;
      for i := 0 to |directories|
        invariant var s := Visit(fs, universe, directories[..i], before);
                  s.ok && visitedDirs == before + Elems(s.order) && files == AllFiles(fs, s.order) &&
                    dirs == AllDirs(fs, s.order)
      {
        SearchMore(fs, universe, directories, i, before);
        var subFiles, subDirs;
        ok, subFiles, subDirs := ProcessDir(fs, universe, directories[i]);
        if !ok {
          return false, [], [];
        }
        files := files + subFiles;
        dirs := dirs + subDirs;
      }
      assert directories[..|directories|] == directories;
      ok := true;
    }
  }

  method ProcessKustomizationFile(fs: Fs, ghost universe: set<string>, relKustomizationPath: string)
    returns (ok: bool, files: seq<string>, dirs: seq<string>)
    requires Closed(fs, universe) && Dir(relKustomizationPath) in universe
    ensures var s := Visit(fs, universe, [Dir(relKustomizationPath)], {});
            && (ok <==> Base(relKustomizationPath) == "kustomization.yaml" && s.ok)
            && (ok ==> files == AllFiles(fs, s.order) && dirs == AllDirs(fs, s.order))
  {
    hide Base, Dir;
    var filename := Base(relKustomizationPath);
    if filename != "kustomization.yaml" {
      return false, [], [];
    }
    var dirName := Dir(relKustomizationPath);
    var proc := new Processor();
    ok, files, dirs := proc.ProcessDir(fs, universe, dirName);
  }
}
