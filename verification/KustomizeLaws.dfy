/** Processing a kustomization finds exactly the directories its references reach, each once. */
module KustomizeLaws {
  import opened Text
  import opened Paths
  import opened Kustomize
  import opened Ordering

  /** A walk along references. */
  ghost predicate Walk(fs: Fs, p: seq<string>) {
    p != [] && forall i :: 0 <= i < |p| - 1 ==> p[i + 1] in SubDirs(fs, p[i])
  }

  ghost predicate Joins(fs: Fs, p: seq<string>, a: string, b: string) {
    Walk(fs, p) && p[0] == a && p[|p| - 1] == b
  }

  ghost predicate Reaches(fs: Fs, a: string, b: string) {
    exists p :: Joins(fs, p, a, b)
  }

  lemma ReachesItself(fs: Fs, a: string)
    ensures Reaches(fs, a, a)
  {
    assert Joins(fs, [a], a, a);
  }

  lemma ReachesThrough(fs: Fs, a: string, b: string, c: string)
    requires b in SubDirs(fs, a) && Reaches(fs, b, c)
    ensures Reaches(fs, a, c)
  {
    hide SubDirs;
    var p :| Joins(fs, p, b, c);
    var q := [a] + p;
    forall i | 0 <= i < |q| - 1
      ensures q[i + 1] in SubDirs(fs, q[i])
    {
      assert i > 0 ==> q[i] == p[i - 1];
    }
    assert Joins(fs, q, a, c);
  }

  lemma TailWalks(fs: Fs, p: seq<string>)
    requires Walk(fs, p) && |p| > 1
    ensures Walk(fs, p[1..])
  {
    hide SubDirs;
    var q := p[1..];
    forall i | 0 <= i < |q| - 1
      ensures q[i + 1] in SubDirs(fs, q[i])
    {
      assert p[i + 2] in SubDirs(fs, p[i + 1]);
    }
  }

  /** What is closed under references and holds a directory holds everything it reaches. */
  lemma {:induction false} WalkStays(fs: Fs, p: seq<string>, inside: set<string>)
    requires Walk(fs, p) && p[0] in inside && Closed(fs, inside)
    ensures p[|p| - 1] in inside
    decreases |p|
  {
    hide SubDirs;
    if |p| > 1 {
      assert p[1] in SubDirs(fs, p[0]);
      TailWalks(fs, p);
      WalkStays(fs, p[1..], inside);
    }
  }

  /** The search taken one directory at a time, and why it ends. */
  lemma VisitCases(fs: Fs, universe: set<string>, dirs: seq<string>, visited: set<string>)
    requires Closed(fs, universe) && Within(dirs, universe) && dirs != []
    ensures Within(dirs[1..], universe) && Within(SubDirs(fs, dirs[0]), universe)
    ensures dirs[0] in visited ==> Visit(fs, universe, dirs, visited) == Visit(fs, universe, dirs[1..], visited)
    ensures dirs[0] !in visited && !Good(fs, dirs[0]) ==> Visit(fs, universe, dirs, visited) == Search(false, [dirs[0]])
    ensures dirs[0] !in visited && Good(fs, dirs[0]) ==>
              var sub := Visit(fs, universe, SubDirs(fs, dirs[0]), visited + {dirs[0]});
              var seen := visited + {dirs[0]} + Elems(sub.order);
              var rest := Visit(fs, universe, dirs[1..], seen);
              && |universe - (visited + {dirs[0]})| < |universe - visited|
              && |universe - seen| <= |universe - (visited + {dirs[0]})|
              && Visit(fs, universe, dirs, visited) ==
                 if !sub.ok then Search(false, [dirs[0]] + sub.order)
                 else Search(rest.ok, [dirs[0]] + sub.order + rest.order)
  {
    if dirs[0] !in visited && Good(fs, dirs[0]) {
      VisitNew(fs, universe, dirs, visited);
      hide Visit, Good, SubDirs;
      LessLeft(universe, visited, {dirs[0]});
      assert dirs[0] in universe * {dirs[0]} - visited;
      var sub := Visit(fs, universe, SubDirs(fs, dirs[0]), visited + {dirs[0]});
      LessLeft(universe, visited + {dirs[0]}, Elems(sub.order));
    }
  }

  lemma VisitNothing(fs: Fs, universe: set<string>, visited: set<string>)
    requires Closed(fs, universe)
    ensures Visit(fs, universe, [], visited) == Search(true, [])
  {
  }

  lemma DistinctParts(dir: string, a: seq<string>, b: seq<string>)
    requires Distinct(a) && Distinct(b) && dir !in Elems(a) && Elems(b) !! {dir} + Elems(a)
    ensures Distinct([dir] + a + b)
  {
    var all := [dir] + a + b;
    forall i, j | 0 <= i < j < |all|
      ensures all[i] != all[j]
    {
      if j > |a| {
        assert all[j] in Elems(b);
        assert i > |a| || all[i] in {dir} + Elems(a);
      } else {
        assert all[j] in Elems(a);
      }
    }
  }

  /** No directory is entered twice. */
  lemma {:induction false} EnteredOnce(fs: Fs, universe: set<string>, dirs: seq<string>, visited: set<string>)
    requires Closed(fs, universe) && Within(dirs, universe)
    ensures var s := Visit(fs, universe, dirs, visited); Distinct(s.order) && Elems(s.order) !! visited
    decreases |universe - visited|, |dirs|
  {
    hide Visit, Good, Distinct, SubDirs, Closed, Within;
    NoneDistinct();
    if dirs == [] {
      VisitNothing(fs, universe, visited);
    } else {
      VisitCases(fs, universe, dirs, visited);
      var dir := dirs[0];
      if dir in visited {
        EnteredOnce(fs, universe, dirs[1..], visited);
      } else if !Good(fs, dir) {
        DistinctParts(dir, [], []);
        assert [dir] + [] + [] == [dir];
      } else {
        var sub := Visit(fs, universe, SubDirs(fs, dir), visited + {dir});
        EnteredOnce(fs, universe, SubDirs(fs, dir), visited + {dir});
        if sub.ok {
          var seen := visited + {dir} + Elems(sub.order);
          var rest := Visit(fs, universe, dirs[1..], seen);
          EnteredOnce(fs, universe, dirs[1..], seen);
          DistinctParts(dir, sub.order, rest.order);
          ThreeParts(dir, sub.order, rest.order);
        } else {
          DistinctParts(dir, sub.order, []);
          assert [dir] + sub.order + [] == [dir] + sub.order;
          ThreeParts(dir, sub.order, []);
        }
      }
    }
  }

  lemma NoneDistinct()
    ensures Distinct([]) && Elems([]) == {}
  {
  }

  lemma ThreeParts(dir: string, a: seq<string>, b: seq<string>)
    ensures Elems([dir] + a + b) == {dir} + Elems(a) + Elems(b)
  {
  }

  /** The references of entered directories have been followed. */
  ghost predicate Followed(fs: Fs, entered: seq<string>, seen: set<string>) {
    forall i, sub :: 0 <= i < |entered| && sub in SubDirs(fs, entered[i]) ==> sub in seen
  }

  ghost predicate AllGood(fs: Fs, dirs: seq<string>) {
    forall i :: 0 <= i < |dirs| ==> Good(fs, dirs[i])
  }

  lemma FollowedParts(fs: Fs, dir: string, a: seq<string>, b: seq<string>, seenA: set<string>, seen: set<string>)
    requires Followed(fs, a, seenA) && seenA <= seen && Followed(fs, b, seen) && Within(SubDirs(fs, dir), seenA)
    ensures Followed(fs, [dir] + a + b, seen)
  {
    hide SubDirs;
    var all := [dir] + a + b;
    forall i, sub | 0 <= i < |all| && sub in SubDirs(fs, all[i])
      ensures sub in seen
    {
      if i == 0 {
        var k :| 0 <= k < |SubDirs(fs, dir)| && SubDirs(fs, dir)[k] == sub;
      } else if i <= |a| {
        assert all[i] == a[i - 1];
      } else {
        assert all[i] == b[i - 1 - |a|];
      }
    }
  }

  lemma GoodParts(fs: Fs, dir: string, a: seq<string>, b: seq<string>)
    requires Good(fs, dir) && AllGood(fs, a) && AllGood(fs, b)
    ensures AllGood(fs, [dir] + a + b)
  {
    hide Good;
  }

  lemma NoneFollowed(fs: Fs, seen: set<string>)
    ensures Within([], seen) && Followed(fs, [], seen) && AllGood(fs, [])
  {
  }

  lemma WithinTail(dirs: seq<string>, seen: set<string>)
    requires dirs != [] && dirs[0] in seen && Within(dirs[1..], seen)
    ensures Within(dirs, seen)
  {
    forall i | 0 <= i < |dirs|
      ensures dirs[i] in seen
    {
      assert i > 0 ==> dirs[i] == dirs[1..][i - 1];
    }
  }

  /** A successful search has entered all it was given, and followed every reference. */
  lemma {:induction false} SearchFollows(fs: Fs, universe: set<string>, dirs: seq<string>, visited: set<string>)
    requires Closed(fs, universe) && Within(dirs, universe) && Visit(fs, universe, dirs, visited).ok
    ensures var s := Visit(fs, universe, dirs, visited);
            && Within(dirs, visited + Elems(s.order))
            && Followed(fs, s.order, visited + Elems(s.order))
            && AllGood(fs, s.order)
    decreases |universe - visited|, |dirs|
  {
    hide Visit, Good, SubDirs, AllGood, Followed, Closed, Within;
    if dirs == [] {
      VisitNothing(fs, universe, visited);
      NoneFollowed(fs, visited + Elems([]));
    } else {
      VisitCases(fs, universe, dirs, visited);
      var dir := dirs[0];
      if dir in visited {
        SearchFollows(fs, universe, dirs[1..], visited);
        WithinTail(dirs, visited + Elems(Visit(fs, universe, dirs, visited).order));
      } else if Good(fs, dir) {
        var sub := Visit(fs, universe, SubDirs(fs, dir), visited + {dir});
        var seen := visited + {dir} + Elems(sub.order);
        var rest := Visit(fs, universe, dirs[1..], seen);
        SearchFollows(fs, universe, SubDirs(fs, dir), visited + {dir});
        SearchFollows(fs, universe, dirs[1..], seen);
        ThreeParts(dir, sub.order, rest.order);
        var all := visited + Elems([dir] + sub.order + rest.order);
        assert seen + Elems(rest.order) == all;
        WithinTail(dirs, all);
        FollowedParts(fs, dir, sub.order, rest.order, seen, all);
        GoodParts(fs, dir, sub.order, rest.order);
      }
    }
  }

  /** Reached from one of these. */
  ghost predicate FromOne(fs: Fs, dirs: seq<string>, d: string) {
    exists i :: 0 <= i < |dirs| && Reaches(fs, dirs[i], d)
  }

  ghost predicate AllFrom(fs: Fs, dirs: seq<string>, entered: seq<string>) {
    forall i :: 0 <= i < |entered| ==> FromOne(fs, dirs, entered[i])
  }

  lemma FromTail(fs: Fs, dirs: seq<string>, entered: seq<string>)
    requires dirs != [] && AllFrom(fs, dirs[1..], entered)
    ensures AllFrom(fs, dirs, entered)
  {
    hide Reaches;
    forall i | 0 <= i < |entered|
      ensures FromOne(fs, dirs, entered[i])
    {
      assert FromOne(fs, dirs[1..], entered[i]);
      var k :| 0 <= k < |dirs[1..]| && Reaches(fs, dirs[1..][k], entered[i]);
      assert Reaches(fs, dirs[k + 1], entered[i]);
    }
  }

  lemma FromSub(fs: Fs, dirs: seq<string>, entered: seq<string>)
    requires dirs != [] && AllFrom(fs, SubDirs(fs, dirs[0]), entered)
    ensures AllFrom(fs, dirs, [dirs[0]] + entered)
  {
    hide Reaches, SubDirs;
    var all, subs := [dirs[0]] + entered, SubDirs(fs, dirs[0]);
    ReachesItself(fs, dirs[0]);
    forall i | 0 <= i < |all|
      ensures FromOne(fs, dirs, all[i])
    {
      if i > 0 {
        assert all[i] == entered[i - 1] && FromOne(fs, subs, entered[i - 1]);
        var k :| 0 <= k < |subs| && Reaches(fs, subs[k], all[i]);
        ReachesThrough(fs, dirs[0], subs[k], all[i]);
      }
      assert Reaches(fs, dirs[0], all[i]);
    }
  }

  lemma FromBoth(fs: Fs, dirs: seq<string>, a: seq<string>, b: seq<string>)
    requires AllFrom(fs, dirs, a) && AllFrom(fs, dirs, b)
    ensures AllFrom(fs, dirs, a + b)
  {
    hide FromOne;
  }

  /** Whatever is entered is reached from where the search began. */
  lemma {:induction false} OnlyReached(fs: Fs, universe: set<string>, dirs: seq<string>, visited: set<string>)
    requires Closed(fs, universe) && Within(dirs, universe)
    ensures AllFrom(fs, dirs, Visit(fs, universe, dirs, visited).order)
    decreases |universe - visited|, |dirs|
  {
    hide Visit, Good, SubDirs, AllFrom, Closed, Within;
    if dirs == [] {
      VisitNothing(fs, universe, visited);
      NoneFrom(fs, dirs);
    } else {
      VisitCases(fs, universe, dirs, visited);
      var dir := dirs[0];
      if dir in visited {
        OnlyReached(fs, universe, dirs[1..], visited);
        FromTail(fs, dirs, Visit(fs, universe, dirs[1..], visited).order);
      } else if !Good(fs, dir) {
        NoneFrom(fs, SubDirs(fs, dir));
        FromSub(fs, dirs, []);
        assert [dir] + [] == [dir];
      } else {
        var sub := Visit(fs, universe, SubDirs(fs, dir), visited + {dir});
        OnlyReached(fs, universe, SubDirs(fs, dir), visited + {dir});
        FromSub(fs, dirs, sub.order);
        if sub.ok {
          var seen := visited + {dir} + Elems(sub.order);
          var rest := Visit(fs, universe, dirs[1..], seen);
          OnlyReached(fs, universe, dirs[1..], seen);
          FromTail(fs, dirs, rest.order);
          FromBoth(fs, dirs, [dir] + sub.order, rest.order);
        }
      }
    }
  }

  lemma NoneFrom(fs: Fs, dirs: seq<string>)
    ensures AllFrom(fs, dirs, [])
  {
  }

  /** A failed search ends at a bad directory. */
  lemma {:induction false} FailsAtBad(fs: Fs, universe: set<string>, dirs: seq<string>, visited: set<string>)
    requires Closed(fs, universe) && Within(dirs, universe) && !Visit(fs, universe, dirs, visited).ok
    ensures var order := Visit(fs, universe, dirs, visited).order; order != [] && !Good(fs, order[|order| - 1])
    decreases |universe - visited|, |dirs|
  {
    hide Visit, Good, SubDirs, Closed, Within;
    if dirs == [] {
      VisitNothing(fs, universe, visited);
    } else {
      VisitCases(fs, universe, dirs, visited);
      var dir := dirs[0];
      if dir in visited {
        FailsAtBad(fs, universe, dirs[1..], visited);
      } else if Good(fs, dir) {
        var sub := Visit(fs, universe, SubDirs(fs, dir), visited + {dir});
        if !sub.ok {
          FailsAtBad(fs, universe, SubDirs(fs, dir), visited + {dir});
        } else {
          FailsAtBad(fs, universe, dirs[1..], visited + {dir} + Elems(sub.order));
        }
      }
    }
  }

  lemma FollowedIsClosed(fs: Fs, order: seq<string>)
    requires Followed(fs, order, Elems(order))
    ensures Closed(fs, Elems(order))
  {
    hide SubDirs;
    forall dir, sub | dir in Elems(order) && sub in SubDirs(fs, dir)
      ensures sub in Elems(order)
    {
      var i :| 0 <= i < |order| && order[i] == dir;
    }
  }

  lemma EnteredIsReached(fs: Fs, universe: set<string>, start: string)
    requires Closed(fs, universe) && start in universe
    ensures forall d :: d in Visit(fs, universe, [start], {}).order ==> Reaches(fs, start, d)
  {
    OnlyReached(fs, universe, [start], {});
    hide Visit, Closed, Reaches;
    var order := Visit(fs, universe, [start], {}).order;
    forall d | d in order
      ensures Reaches(fs, start, d)
    {
      var i :| 0 <= i < |order| && order[i] == d;
      assert FromOne(fs, [start], order[i]);
    }
  }

  lemma ReachedIsEntered(fs: Fs, universe: set<string>, start: string)
    requires Closed(fs, universe) && start in universe && Visit(fs, universe, [start], {}).ok
    ensures forall d :: Reaches(fs, start, d) ==> d in Visit(fs, universe, [start], {}).order && Good(fs, d)
  {
    SearchFollows(fs, universe, [start], {});
    hide Visit, Good;
    var order := Visit(fs, universe, [start], {}).order;
    assert {} + Elems(order) == Elems(order);
    FollowedIsClosed(fs, order);
    hide Closed, SubDirs, Followed;
    assert [start][0] in Elems(order);
    forall d | Reaches(fs, start, d)
      ensures d in order && Good(fs, d)
    {
      var p :| Joins(fs, p, start, d);
      WalkStays(fs, p, Elems(order));
      var i :| 0 <= i < |order| && order[i] == d;
    }
  }

  /**
   * Processing ends on every finite graph of references, cycles or not. It succeeds exactly when
   * every directory reached is good, and then enters each of them, once, and no other.
   */
  lemma FindsWhatIsReached(fs: Fs, universe: set<string>, start: string)
    requires Closed(fs, universe) && start in universe
    ensures var s := Visit(fs, universe, [start], {});
            && (s.ok <==> forall d :: Reaches(fs, start, d) ==> Good(fs, d))
            && (s.ok ==> Distinct(s.order) && forall d :: d in s.order <==> Reaches(fs, start, d))
  {
    var s := Visit(fs, universe, [start], {});
    EnteredOnce(fs, universe, [start], {});
    EnteredIsReached(fs, universe, start);
    if s.ok {
      ReachedIsEntered(fs, universe, start);
    } else {
      FailsAtBad(fs, universe, [start], {});
      assert s.order[|s.order| - 1] in s.order;
    }
  }

  lemma {:induction false} InFlat(fs: Fs, dirs: seq<string>, f: string)
    ensures f in AllFiles(fs, dirs) <==> exists i :: 0 <= i < |dirs| && f in FilesAt(fs, dirs[i])
    ensures f in AllDirs(fs, dirs) <==> exists i :: 0 <= i < |dirs| && f in DirsAt(fs, dirs[i])
  {
    hide AllFiles, AllDirs, FilesAt, DirsAt;
    FlatStep(fs, dirs);
    if dirs != [] {
      InFlat(fs, dirs[1..], f);
      if i :| 0 <= i < |dirs| && f in FilesAt(fs, dirs[i]) {
        assert i > 0 ==> dirs[i] == dirs[1..][i - 1];
      }
      if i :| 0 <= i < |dirs| && f in DirsAt(fs, dirs[i]) {
        assert i > 0 ==> dirs[i] == dirs[1..][i - 1];
      }
    }
  }

  /**
   * What is returned: the files of every directory reached, and those directories reached that hold no
   * kustomization.
   */
  lemma ReturnsWhatIsReferenced(fs: Fs, universe: set<string>, start: string, f: string)
    requires Closed(fs, universe) && start in universe && Visit(fs, universe, [start], {}).ok
    ensures var order := Visit(fs, universe, [start], {}).order;
            && (f in AllFiles(fs, order) <==> exists d :: Reaches(fs, start, d) && f in FilesAt(fs, d))
            && (f in AllDirs(fs, order) <==> Reaches(fs, start, f) && OpenAt(fs, f).NotThere?)
  {
    hide Good, Distinct, Reaches;
    FindsWhatIsReached(fs, universe, start);
    var order := Visit(fs, universe, [start], {}).order;
    InFlat(fs, order, f);
    hide Visit, FilesAt, AllFiles, AllDirs, Closed, OpenAt;
    if d :| Reaches(fs, start, d) && f in FilesAt(fs, d) {
      var i :| 0 <= i < |order| && order[i] == d;
    }
    if i :| 0 <= i < |order| && f in FilesAt(fs, order[i]) {
      assert Reaches(fs, start, order[i]);
    }
    if Reaches(fs, start, f) && OpenAt(fs, f).NotThere? {
      var i :| 0 <= i < |order| && order[i] == f;
      assert f in DirsAt(fs, order[i]);
    }
  }

  /* ----- what one kustomization refers to ----- */

  /** The reference is to something outside the repository. */
  lemma RemoteExactly(x: string)
    ensures IsRemoteResource(x) <==>
            || (exists i :: 0 <= i <= |x| && "://" <= x[i..])
            || "git@" <= x || "github.com/" <= x || "bitbucket.org/" <= x || "gitlab.com/" <= x || "//" <= x
  {
    if i :| 0 <= i <= |x| && "://" <= x[i..] {
      assert IndexOf(x, "://") >= 0;
    }
  }

  /** What a local reference x in the directory leads to. */
  predicate LeadsTo(dir: string, x: string, f: string) {
    !IsRemoteResource(x) && f == if x != "" && x[0] == '/' then x[1..] else Join(dir, x)
  }

  ghost predicate SomeLeadsTo(dir: string, xs: seq<string>, f: string) {
    exists i :: 0 <= i < |xs| && LeadsTo(dir, xs[i], f)
  }

  lemma {:induction false} CleanPathsHas(dir: string, paths: seq<string>, f: string)
    ensures f in CleanPaths(dir, paths) <==> SomeLeadsTo(dir, paths, f)
  {
    hide Join, IsRemoteResource;
    if paths != [] {
      var n := |paths| - 1;
      CleanPathsHas(dir, paths[..n], f);
      SomeLeadsToMore(dir, paths[..n], paths[n], f);
      assert paths == paths[..n] + [paths[n]];
    }
  }

  lemma SomeLeadsToMore(dir: string, xs: seq<string>, x: string, f: string)
    ensures SomeLeadsTo(dir, xs + [x], f) <==> SomeLeadsTo(dir, xs, f) || LeadsTo(dir, x, f)
  {
    hide LeadsTo;
    var all := xs + [x];
    assert all[|xs|] == x && forall i :: 0 <= i < |xs| ==> all[i] == xs[i];
  }

  lemma SomeLeadsToBoth(dir: string, a: seq<string>, b: seq<string>, f: string)
    ensures SomeLeadsTo(dir, a + b, f) <==> SomeLeadsTo(dir, a, f) || SomeLeadsTo(dir, b, f)
  {
    hide LeadsTo;
    assert forall i :: 0 <= i < |a| ==> (a + b)[i] == a[i];
    assert forall i :: 0 <= i < |b| ==> (a + b)[|a| + i] == b[i];
    if i :| 0 <= i < |a + b| && LeadsTo(dir, (a + b)[i], f) {
      assert i >= |a| ==> (a + b)[i] == b[i - |a|];
    }
  }

  lemma {:induction false} NonEmptyHas(paths: seq<string>, x: string)
    ensures x in NonEmpty(paths) <==> x in paths && x != ""
  {
    if paths != [] {
      NonEmptyHas(paths[..|paths| - 1], x);
      assert paths == paths[..|paths| - 1] + [paths[|paths| - 1]];
    }
  }

  lemma {:induction false} OneLinersHas(paths: seq<string>, x: string)
    ensures x in OneLiners(paths) <==> x in paths && forall i :: 0 <= i < |x| ==> x[i] != '\n'
  {
    if paths != [] {
      var last := paths[|paths| - 1];
      OneLinersHas(paths[..|paths| - 1], x);
      assert paths == paths[..|paths| - 1] + [last];
      NewlineFound(last);
    }
  }

  lemma NewlineFound(x: string)
    ensures Contains(x, "\n") <==> exists i :: 0 <= i < |x| && x[i] == '\n'
  {
    var r := IndexOf(x, "\n");
    if r >= 0 {
      assert x[r..][0] == '\n';
    }
    if i :| 0 <= i < |x| && x[i] == '\n' {
      assert "\n" <= x[i..];
    }
  }

  lemma {:induction false} OfKindHas(fs: Fs, refs: seq<string>, kind: Stat, f: string)
    ensures f in OfKind(fs, refs, kind) <==> f in refs && fs.stat(f) == kind
  {
    if refs != [] {
      OfKindHas(fs, refs[..|refs| - 1], kind, f);
      assert refs == refs[..|refs| - 1] + [refs[|refs| - 1]];
    }
  }

  /** The kustomization names the file: itself, a file of one of its lists, or a patch that is given by its path. */
  predicate NamesFile(k: Kustomization, x: string) {
    || x == "kustomization.yaml"
    || x in k.configurations || x in k.crds || x in k.transformers || x in k.helmValuesFiles
    || (x in k.patches && x != "") || (x in k.patchesJson6902 && x != "")
    || (x in k.patchesStrategicMerge && forall i :: 0 <= i < |x| ==> x[i] != '\n')
  }

  lemma NamedFilesHas(k: Kustomization, x: string)
    ensures x in NamedFiles(k) <==> NamesFile(k, x)
  {
    NonEmptyHas(k.patches, x);
    NonEmptyHas(k.patchesJson6902, x);
    OneLinersHas(k.patchesStrategicMerge, x);
    hide NonEmpty, OneLiners;
  }

  /** What a directory contributes: files its kustomization names, and local bases and resources that are files. */
  lemma FilesExactly(fs: Fs, dir: string, k: Kustomization, f: string)
    requires OpenAt(fs, dir) == Parsed(k)
    ensures f in FilesAt(fs, dir) <==>
            || (exists x :: NamesFile(k, x) && LeadsTo(dir, x, f))
            || ((SomeLeadsTo(dir, k.bases, f) || SomeLeadsTo(dir, k.resources, f)) && fs.stat(f) == IsFile)
  {
    hide NamedFiles, CleanPaths, OfKind, NamesFile, LeadsTo;
    CleanPathsHas(dir, NamedFiles(k), f);
    CleanPathsHas(dir, k.bases + k.resources, f);
    SomeLeadsToBoth(dir, k.bases, k.resources, f);
    OfKindHas(fs, Refs(dir, k), IsFile, f);
    if SomeLeadsTo(dir, NamedFiles(k), f) {
      var i :| 0 <= i < |NamedFiles(k)| && LeadsTo(dir, NamedFiles(k)[i], f);
      NamedFilesHas(k, NamedFiles(k)[i]);
    }
    if x :| NamesFile(k, x) && LeadsTo(dir, x, f) {
      NamedFilesHas(k, x);
      var i :| 0 <= i < |NamedFiles(k)| && NamedFiles(k)[i] == x;
    }
  }

  /** Where a directory leads: its local components, and the local bases and resources that are directories. */
  lemma SubDirsExactly(fs: Fs, dir: string, k: Kustomization, d: string)
    requires OpenAt(fs, dir) == Parsed(k)
    ensures d in SubDirs(fs, dir) <==>
            || SomeLeadsTo(dir, k.components, d)
            || ((SomeLeadsTo(dir, k.bases, d) || SomeLeadsTo(dir, k.resources, d)) && fs.stat(d) == IsDir)
  {
    hide CleanPaths, OfKind, LeadsTo;
    CleanPathsHas(dir, k.components, d);
    CleanPathsHas(dir, k.bases + k.resources, d);
    SomeLeadsToBoth(dir, k.bases, k.resources, d);
    OfKindHas(fs, Refs(dir, k), IsDir, d);
  }

  /** A directory is good if it holds no kustomization, or one that parses and whose references are there. */
  lemma GoodExactly(fs: Fs, dir: string)
    ensures Good(fs, dir) <==>
            match fs.open(Join(dir, "kustomization.yaml"))
            case NotThere => true
            case Failed => false
            case Parsed(k) => forall f :: SomeLeadsTo(dir, k.bases, f) || SomeLeadsTo(dir, k.resources, f) ==>
                fs.stat(f) != NoStat
  {
    hide CleanPaths, LeadsTo, Join;
    if OpenAt(fs, dir).Parsed? {
      var k := OpenAt(fs, dir).kust;
      forall f
        ensures f in Refs(dir, k) <==> SomeLeadsTo(dir, k.bases, f) || SomeLeadsTo(dir, k.resources, f)
      {
        CleanPathsHas(dir, k.bases + k.resources, f);
        SomeLeadsToBoth(dir, k.bases, k.resources, f);
      }
      forall f | f in Refs(dir, k)
        ensures exists i :: 0 <= i < |Refs(dir, k)| && Refs(dir, k)[i] == f
      {
      }
    }
  }
}
