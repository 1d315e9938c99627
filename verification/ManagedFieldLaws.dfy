/** What the prediction promises: nothing git renders is lost, nothing another manager owns is hidden. */
module ManagedFieldLaws {
  import opened Text
  import opened Ordering
  import opened FieldRemovals
  import opened RemovalLaws
  import opened ManagedFields

  /** ArgoCD's apply owns p and the manifest no longer renders it. */
  predicate Missing(target: Json, applied: seq<Path>, p: Path) {
    p in applied && !HasPath(target, p)
  }

  /** A path that the prediction removes: the manifest lacks it and nobody else owns it. */
  predicate Droppable(target: Json, others: seq<OwnedSet>, p: Path) {
    !HasPath(target, p) && OwnersOf(others, p) == []
  }

  lemma {:induction false} PointFromIsAbsent(target: Json, p: Path, i: nat)
    requires !HasPath(target, p) && 1 <= i
    ensures var r := PointFrom(target, p, i); r != [] && r <= p && !HasPath(target, r)
    decreases |p| + 1 - i
  {
    if i <= |p| && HasPath(target, p[..i]) {
      PointFromIsAbsent(target, p, i + 1);
    } else if i > |p| {
      assert Walk(target, []) == Some(target);
    }
  }

  /** What is removed for p: a prefix of p that the manifest lacks. */
  lemma CandidateIsAbsent(target: Json, others: seq<OwnedSet>, p: Path)
    requires !HasPath(target, p)
    ensures var r := Candidate(target, others, p); r != [] && r <= p && !HasPath(target, r)
  {
    PointFromIsAbsent(target, p, 1);
    assert Walk(target, []) == Some(target);
    hide PointFrom, OwnedUnder, Walk;
  }

  /* ----- which removals are collected ----- */

  /** What is removed for applied[i], as a string. */
  function Shown(target: Json, others: seq<OwnedSet>, show: Path -> string, p: Path): string {
    show(Candidate(target, others, p))
  }

  /** The first path to be removed under its string; a later one with the same string is passed over. */
  predicate IsFirst(target: Json, others: seq<OwnedSet>, show: Path -> string, applied: seq<Path>, i: nat) {
    && i < |applied| && Droppable(target, others, applied[i])
    && forall j :: 0 <= j < i && Droppable(target, others, applied[j]) ==>
         Shown(target, others, show, applied[j]) != Shown(target, others, show, applied[i])
  }

  predicate Collects(target: Json, others: seq<OwnedSet>, show: Path -> string, applied: seq<Path>, r: Path) {
    exists i :: 0 <= i < |applied| && IsFirst(target, others, show, applied, i) &&
      r == Candidate(target, others, applied[i])
  }

  predicate IsShown(target: Json, others: seq<OwnedSet>, show: Path -> string, applied: seq<Path>, s: string) {
    exists j :: 0 <= j < |applied| && Droppable(target, others, applied[j]) &&
      Shown(target, others, show, applied[j]) == s
  }

  lemma IsShownSnoc(target: Json, others: seq<OwnedSet>, show: Path -> string, applied: seq<Path>, p: Path, s: string)
    ensures IsShown(target, others, show, applied + [p], s) <==>
              IsShown(target, others, show, applied, s) ||
                (Droppable(target, others, p) && Shown(target, others, show, p) == s)
  {
    hide Droppable, Shown;
    var all := applied + [p];
    assert all[|applied|] == p;
    assert forall j :: 0 <= j < |applied| ==> all[j] == applied[j];
  }

  lemma CollectsSnoc(target: Json, others: seq<OwnedSet>, show: Path -> string, applied: seq<Path>, p: Path, r: Path)
    ensures Collects(target, others, show, applied + [p], r) <==>
              || Collects(target, others, show, applied, r)
              || (Droppable(target, others, p) &&
                   !IsShown(target, others, show, applied, Shown(target, others, show, p))
                  && r == Candidate(target, others, p))
  {
    hide Droppable, Shown, Candidate;
    var n, all := |applied|, applied + [p];
    assert all[n] == p;
    forall i: nat | i < n
      ensures IsFirst(target, others, show, all, i) <==> IsFirst(target, others, show, applied, i)
    {
      assert forall j :: 0 <= j <= i ==> all[j] == applied[j];
    }
    assert forall j :: 0 <= j < n ==> all[j] == applied[j];
    assert IsFirst(target, others, show, all, n) <==>
      Droppable(target, others, p) && !IsShown(target, others, show, applied, Shown(target, others, show, p));
    hide IsFirst, IsShown;
    if Collects(target, others, show, applied, r) {
      var i :| 0 <= i < n && IsFirst(target, others, show, applied, i) && r == Candidate(target, others, applied[i]);
      assert IsFirst(target, others, show, all, i) && all[i] == applied[i];
    }
  }

  lemma {:induction false} SeenExactly(
      target: Json, others: seq<OwnedSet>, show: Path -> string, applied: seq<Path>, r: Path)
    ensures Seen(Collect(target, others, show, applied).removals, show, r) <==>
        IsShown(target, others, show, applied, show(r))
  {
    if applied != [] {
      var n := |applied| - 1;
      var before, p := applied[..n], applied[n];
      assert applied == before + [p];
      SeenExactly(target, others, show, before, r);
      IsShownSnoc(target, others, show, before, p, show(r));
      var c := Collect(target, others, show, before);
      SeenExactly(target, others, show, before, Candidate(target, others, p));
      SeenSnoc(c.removals, show, Candidate(target, others, p), r);
      hide HasPath, OwnersOf, Candidate, Seen, IsShown;
      if Seen(c.removals, show, Candidate(target, others, p)) && show(Candidate(target, others, p)) == show(r) {
        SeenAlike(c.removals, show, Candidate(target, others, p), r);
      }
    }
  }

  lemma SeenSnoc(removals: seq<Path>, show: Path -> string, p: Path, r: Path)
    ensures Seen(removals + [p], show, r) <==> Seen(removals, show, r) || show(p) == show(r)
  {
    var all := removals + [p];
    assert all[|removals|] == p;
    assert forall i :: 0 <= i < |removals| ==> all[i] == removals[i];
  }

  lemma SeenAlike(removals: seq<Path>, show: Path -> string, a: Path, b: Path)
    requires show(a) == show(b)
    ensures Seen(removals, show, a) <==> Seen(removals, show, b)
  {
  }

  /** The removals are what is removed for the first path of each string, and nothing else. */
  lemma {:induction false} CollectedExactly(
      target: Json, others: seq<OwnedSet>, show: Path -> string, applied: seq<Path>, r: Path)
    ensures r in Collect(target, others, show, applied).removals <==> Collects(target, others, show, applied, r)
  {
    if applied != [] {
      var n := |applied| - 1;
      var before, p := applied[..n], applied[n];
      assert applied == before + [p];
      CollectedExactly(target, others, show, before, r);
      CollectsSnoc(target, others, show, before, p, r);
      SeenExactly(target, others, show, before, Candidate(target, others, p));
      hide HasPath, OwnersOf, Candidate, Seen, IsShown, Collects;
    }
  }

  /** No two paths that are removed alike are removed as different paths. */
  predicate ShowsApart(target: Json, others: seq<OwnedSet>, show: Path -> string, applied: seq<Path>) {
    forall i, j | 0 <= i < |applied| && 0 <= j < |applied| ::
      && Droppable(target, others, applied[i]) && Droppable(target, others, applied[j])
      && Shown(target, others, show, applied[i]) == Shown(target, others, show, applied[j])
      ==> Candidate(target, others, applied[i]) == Candidate(target, others, applied[j])
  }

  lemma CollectedApart(target: Json, others: seq<OwnedSet>, show: Path -> string, applied: seq<Path>, p: Path)
    requires ShowsApart(target, others, show, applied) && p in applied && Droppable(target, others, p)
    ensures Candidate(target, others, p) in Collect(target, others, show, applied).removals
  {
    hide Droppable, Candidate, Collect;
    var r, removals := Candidate(target, others, p), Collect(target, others, show, applied).removals;
    var m :| 0 <= m < |applied| && applied[m] == p;
    SeenExactly(target, others, show, applied, r);
    assert IsShown(target, others, show, applied, show(r));
    var k :| 0 <= k < |removals| && show(removals[k]) == show(r);
    CollectedExactly(target, others, show, applied, removals[k]);
    var i :| 0 <= i < |applied| && IsFirst(target, others, show, applied, i) &&
      removals[k] == Candidate(target, others, applied[i]);
    assert Shown(target, others, show, applied[i]) == Shown(target, others, show, applied[m]);
    assert removals[k] == r;
  }

  lemma CollectedIsDroppable(target: Json, others: seq<OwnedSet>, show: Path -> string, applied: seq<Path>, r: Path)
    returns (p: Path)
    requires r in Collect(target, others, show, applied).removals
    ensures p in applied && Droppable(target, others, p) && r == Candidate(target, others, p)
  {
    hide Droppable, Candidate, Collect;
    CollectedExactly(target, others, show, applied, r);
    var i :| 0 <= i < |applied| && IsFirst(target, others, show, applied, i) &&
      r == Candidate(target, others, applied[i]);
    p := applied[i];
  }

  /* ----- nothing rendered is lost ----- */

  /** A path that git still renders, and that was there, is there after the removals that spare it. */
  lemma RenderedPathsSurvive(
      target: Json, predicted: Json, others: seq<OwnedSet>, show: Path -> string, applied: seq<Path>, q: Path)
    requires predicted.Obj? && AllSpare(predicted, Collect(target, others, show, applied).removals, q)
    requires HasPath(target, q) && HasPath(predicted, q)
    ensures HasPath(RemoveAll(predicted, Collect(target, others, show, applied).removals), q)
  {
    var removals := Collect(target, others, show, applied).removals;
    hide HasPath, Collect, AllSpare, Candidate, OwnersOf;
    RemovalsAreExact(predicted, removals, q);
    if Covered(removals, q) {
      var k :| 0 <= k < |removals| && removals[k] != [] && removals[k] <= q;
      var p := CollectedIsDroppable(target, others, show, applied, removals[k]);
      CandidateIsAbsent(target, others, p);
      HasPrefix(target, removals[k], q);
    }
  }

  /* ----- every missing path is accounted for ----- */

  predicate Reported(retained: seq<Retained>, others: seq<OwnedSet>, p: Path) {
    exists k :: 0 <= k < |retained| && retained[k] == Retained(p, OwnersOf(others, p))
  }

  lemma OwnedIsReported(target: Json, others: seq<OwnedSet>, show: Path -> string, applied: seq<Path>, p: Path)
    requires Missing(target, applied, p) && OwnersOf(others, p) != []
    ensures Reported(Collect(target, others, show, applied).retained, others, p)
  {
    hide Missing, OwnersOf, Collect;
    RetainedExactly(target, others, show, applied, p);
    CollectedWithOwners(target, others, show, applied);
    var retained := Collect(target, others, show, applied).retained;
    var k :| 0 <= k < |retained| && retained[k].path == p;
    assert retained[k] == Retained(p, OwnersOf(others, p));
  }

  /**
   * A missing path is reported with exactly its other owners; or, with none, a removal leads to
   * it or above it. If two paths are shown alike, that is said only of the first.
   */
  lemma MissingIsAccounted(
      target: Json, others: seq<OwnedSet>, show: Path -> string, applied: seq<Path>, p: Path)
    requires Missing(target, applied, p)
    ensures var c := Collect(target, others, show, applied);
            && (OwnersOf(others, p) != [] ==> Reported(c.retained, others, p))
            && (OwnersOf(others, p) == [] && ShowsApart(target, others, show, applied) ==> Covered(c.removals, p))
            && (OwnersOf(others, p) == [] ==> Seen(c.removals, show, Candidate(target, others, p)))
  {
    var c := Collect(target, others, show, applied);
    if OwnersOf(others, p) != [] {
      OwnedIsReported(target, others, show, applied, p);
    } else {
      var r := Candidate(target, others, p);
      SeenExactly(target, others, show, applied, r);
      CandidateIsAbsent(target, others, p);
      var m :| 0 <= m < |applied| && applied[m] == p;
      hide Collect, HasPath, OwnersOf, Candidate, ShowsApart;
      assert Shown(target, others, show, applied[m]) == show(r);
      if ShowsApart(target, others, show, applied) {
        CollectedApart(target, others, show, applied, p);
        var k :| 0 <= k < |c.removals| && c.removals[k] == r;
      }
    }
  }

  /** What is removed for some path, the first of its string, leads to p or above it. */
  predicate FirstCovers(target: Json, others: seq<OwnedSet>, show: Path -> string, applied: seq<Path>, p: Path) {
    exists i :: 0 <= i < |applied| && IsFirst(target, others, show, applied, i) &&
      Candidate(target, others, applied[i]) <= p
  }

  lemma CoveredByFirst(target: Json, others: seq<OwnedSet>, show: Path -> string, applied: seq<Path>, p: Path)
    ensures Covered(Collect(target, others, show, applied).removals, p) <==>
        FirstCovers(target, others, show, applied, p)
  {
    var removals := Collect(target, others, show, applied).removals;
    hide Collect, Candidate, HasPath, OwnersOf;
    if Covered(removals, p) {
      var k :| 0 <= k < |removals| && removals[k] != [] && removals[k] <= p;
      CollectedExactly(target, others, show, applied, removals[k]);
    }
    if FirstCovers(target, others, show, applied, p) {
      var i :| 0 <= i < |applied| && IsFirst(target, others, show, applied, i) &&
        Candidate(target, others, applied[i]) <= p;
      var r := Candidate(target, others, applied[i]);
      assert Collects(target, others, show, applied, r);
      CollectedExactly(target, others, show, applied, r);
      CandidateIsAbsent(target, others, applied[i]);
      var k :| 0 <= k < |removals| && removals[k] == r;
    }
  }

  /**
   * Exactly when a path that was there is gone: what is removed for the first path of some
   * string leads to it or above it. This holds however paths are shown.
   */
  lemma GoneExactly(
      target: Json, predicted: Json, others: seq<OwnedSet>, show: Path -> string, applied: seq<Path>, p: Path)
    requires predicted.Obj? && AllSpare(predicted, Collect(target, others, show, applied).removals, p) &&
        HasPath(predicted, p)
    ensures !HasPath(RemoveAll(predicted, Collect(target, others, show, applied).removals), p) <==>
              FirstCovers(target, others, show, applied, p)
  {
    hide HasPath, Collect, AllSpare, Covered, FirstCovers;
    CoveredByFirst(target, others, show, applied, p);
    RemovalsAreExact(predicted, Collect(target, others, show, applied).removals, p);
  }

  /** The removals lead to p and past it as they should, and no two of them are shown alike. */
  predicate Removable(
      target: Json, predicted: Json, others: seq<OwnedSet>, show: Path -> string, applied: seq<Path>, p: Path) {
    && predicted.Obj? && AllSpare(predicted, Collect(target, others, show, applied).removals, p)
    && ShowsApart(target, others, show, applied)
  }

  /** An applied path that git dropped is either reported with exactly its other owners, or gone. */
  lemma DroppedPathsAreReportedOrGone(
      target: Json, predicted: Json, others: seq<OwnedSet>, show: Path -> string, applied: seq<Path>, p: Path)
    requires Missing(target, applied, p)
    ensures var c := Collect(target, others, show, applied);
            && (OwnersOf(others, p) != [] ==> Reported(c.retained, others, p))
            && (OwnersOf(others, p) == [] && Removable(target, predicted, others, show, applied, p) ==>
                 !HasPath(RemoveAll(predicted, c.removals), p))
  {
    hide HasPath, Collect, AllSpare, ShowsApart, OwnersOf, Reported, Covered, Seen;
    MissingIsAccounted(target, others, show, applied, p);
    if Removable(target, predicted, others, show, applied, p) {
      RemovalsAreExact(predicted, Collect(target, others, show, applied).removals, p);
    }
  }

  /* ----- the whole block that is gone ----- */

  /** The target lacks q, but nothing above it: there the path p leaves the target. */
  predicate LeavesAt(target: Json, p: Path, q: Path) {
    q != [] && q <= p && !HasPath(target, q) && forall n :: 0 < n < |q| ==> HasPath(target, q[..n])
  }

  predicate Owned(others: seq<OwnedSet>, p: Path) {
    exists i, k :: 0 <= i < |others| && 0 <= k < |others[i].paths| && others[i].paths[k] == p
  }

  /** Somebody else owns the path, or one below it. */
  predicate OwnedIn(others: seq<OwnedSet>, q: Path) {
    exists i, k :: 0 <= i < |others| && 0 <= k < |others[i].paths| && q <= others[i].paths[k]
  }

  lemma {:induction false} OwnersAreOwners(others: seq<OwnedSet>, p: Path)
    ensures OwnersOf(others, p) != [] <==> Owned(others, p)
  {
    if others != [] {
      var n := |others| - 1;
      OwnersAreOwners(others[..n], p);
      assert forall i :: 0 <= i < n ==> others[..n][i] == others[i];
      if Owned(others, p) && !Has(others[n], p) {
        var i, k :| 0 <= i < |others| && 0 <= k < |others[i].paths| && others[i].paths[k] == p;
        assert others[..n][i].paths[k] == p;
      }
      if Owned(others[..n], p) {
        var i, k :| 0 <= i < n && 0 <= k < |others[..n][i].paths| && others[..n][i].paths[k] == p;
        assert others[i].paths[k] == p;
      }
      if Has(others[n], p) {
        var k :| 0 <= k < |others[n].paths| && others[n].paths[k] == p;
      }
    }
  }

  /** The owners that are reported are exactly those that own the path. */
  lemma {:induction false} OwnerExactly(others: seq<OwnedSet>, p: Path, owner: string)
    ensures owner in OwnersOf(others, p) <==>
            exists i :: 0 <= i < |others| && others[i].owner == owner && p in others[i].paths
  {
    if others != [] {
      var n := |others| - 1;
      OwnerExactly(others[..n], p, owner);
      assert forall i :: 0 <= i < n ==> others[..n][i] == others[i];
      if i :| 0 <= i < |others| && others[i].owner == owner && p in others[i].paths {
        assert i < n ==> p in others[..n][i].paths;
      }
      if i :| 0 <= i < n && others[..n][i].owner == owner && p in others[..n][i].paths {
        assert p in others[i].paths;
      }
    }
  }

  lemma OwnedUnderIn(others: seq<OwnedSet>, q: Path)
    ensures OwnedUnder(others, q) <==> OwnedIn(others, q)
  {
    if OwnedUnder(others, q) {
      var i :| 0 <= i < |others| && OwnedBelow(others[i], q);
      var k :| 0 <= k < |others[i].paths| && q <= others[i].paths[k];
    }
    if OwnedIn(others, q) {
      var i, k :| 0 <= i < |others| && 0 <= k < |others[i].paths| && q <= others[i].paths[k];
      assert OwnedBelow(others[i], q);
    }
  }

  lemma {:induction false} PointIsThere(target: Json, p: Path, q: Path, i: nat)
    requires LeavesAt(target, p, q) && 1 <= i <= |q|
    ensures PointFrom(target, p, i) == q
    decreases |p| - i
  {
    hide HasPath;
    assert p[..|q|] == q && (i < |q| ==> p[..i] == q[..i]);
    if i < |q| {
      PointIsThere(target, p, q, i + 1);
    }
  }

  lemma LeavesForGood(target: Json, p: Path, q: Path)
    requires LeavesAt(target, p, q)
    ensures !HasPath(target, p)
  {
    assert p[..|q|] == q;
    WalkStops(target, p, |q|);
  }

  /**
   * What is removed for a dropped path that nobody else owns: the whole block at which the path
   * leaves the target, so that no empty parents stay behind; only the path itself where somebody
   * else owns something in that block.
   */
  lemma WholeBlockIsRemoved(
      target: Json, others: seq<OwnedSet>, show: Path -> string, applied: seq<Path>, p: Path, q: Path)
    requires p in applied && LeavesAt(target, p, q) && !Owned(others, p)
    ensures var r := if OwnedIn(others, q) then p else q;
            var removals := Collect(target, others, show, applied).removals;
            && (exists k :: 0 <= k < |removals| && show(removals[k]) == show(r))
            && (ShowsApart(target, others, show, applied) ==> r in removals)
  {
    LeavesForGood(target, p, q);
    OwnersAreOwners(others, p);
    OwnedUnderIn(others, q);
    PointIsThere(target, p, q, 1);
    var r := if OwnedIn(others, q) then p else q;
    assert Candidate(target, others, p) == r;
    hide HasPath, Candidate, ShowsApart, Collect, OwnersOf, LeavesAt, Owned, OwnedIn;
    MissingIsAccounted(target, others, show, applied, p);
    if ShowsApart(target, others, show, applied) {
      CollectedApart(target, others, show, applied, p);
    }
  }

  /** So the block is gone from the predicted object, and with it the path. */
  lemma WholeBlockIsGone(
      target: Json, predicted: Json, others: seq<OwnedSet>, show: Path -> string, applied: seq<Path>, p: Path, q: Path)
    requires p in applied && LeavesAt(target, p, q) && !Owned(others, p)
    ensures var r := if OwnedIn(others, q) then p else q;
            Removable(target, predicted, others, show, applied, r) ==>
              !HasPath(RemoveAll(predicted, Collect(target, others, show, applied).removals), r) &&
              !HasPath(RemoveAll(predicted, Collect(target, others, show, applied).removals), p)
  {
    hide HasPath, Collect, ShowsApart, AllSpare, OwnedIn, Owned;
    WholeBlockIsRemoved(target, others, show, applied, p, q);
    var r := if OwnedIn(others, q) then p else q;
    var removals := Collect(target, others, show, applied).removals;
    if Removable(target, predicted, others, show, applied, r) {
      var k :| 0 <= k < |removals| && removals[k] == r;
      assert Covered(removals, r);
      RemovalsAreExact(predicted, removals, r);
      NoPathBelow(RemoveAll(predicted, removals), r, p);
    }
  }

  lemma NoPathBelow(obj: Json, r: Path, p: Path)
    requires r <= p && !HasPath(obj, r)
    ensures !HasPath(obj, p)
  {
    assert p[..|r|] == r;
    WalkStops(obj, p, |r|);
  }

  /* ----- two paths that are shown alike ----- */

  /** How fieldpath shows a path of field names; dots in names are not escaped. */
  function Dotted(p: Path): string {
    if p == [] then "" else if p[0].Field? then "." + p[0].name + Dotted(p[1..]) else Dotted(p[1..])
  }

  const DOTTED_NAME := [Field("a.b")]
  const TWO_NAMES := [Field("a"), Field("b")]
  const EMPTY_BLOCK := Obj(map["a" := Obj(map[])])
  const LIVE := Obj(map["a.b" := Null, "a" := Obj(map["b" := Null])])

  lemma DottedLooksAlike()
    ensures Dotted(DOTTED_NAME) == Dotted(TWO_NAMES)
  {
    assert DOTTED_NAME[1..] == [] && TWO_NAMES[1..] == [Field("b")] && [Field("b")][1..] == [];
    assert Dotted(TWO_NAMES) == "." + "a" + ("." + "b" + "");
    assert Dotted(DOTTED_NAME) == "." + "a.b" + "";
  }

  lemma WalkTwo(obj: Json, a: Elem, b: Elem)
    ensures Walk(obj, [a]) == Step(obj, a)
    ensures Walk(obj, [a, b]) == if Step(obj, a).None? then None else Step(Step(obj, a).value, b)
  {
    hide Step;
    assert [a, b][..1] == [a] && [a][..0] == [] && Walk(obj, []) == Some(obj);
  }

  lemma LookAlikeCandidates()
    ensures Candidate(EMPTY_BLOCK, [], DOTTED_NAME) == DOTTED_NAME && !HasPath(EMPTY_BLOCK, DOTTED_NAME)
    ensures Candidate(EMPTY_BLOCK, [], TWO_NAMES) == TWO_NAMES && !HasPath(EMPTY_BLOCK, TWO_NAMES)
  {
    WalkTwo(EMPTY_BLOCK, Field("a.b"), Field("b"));
    WalkTwo(EMPTY_BLOCK, Field("a"), Field("b"));
    assert DOTTED_NAME[..1] == DOTTED_NAME && TWO_NAMES[..1] == [Field("a")] && TWO_NAMES[..2] == TWO_NAMES;
    assert PointFrom(EMPTY_BLOCK, TWO_NAMES, 2) == TWO_NAMES;
  }

  /** Of two dropped paths shown alike, only the first is removed; the other stays live and is not reported. */
  lemma LookAlikeIsLost(show: Path -> string)
    requires show(DOTTED_NAME) == show(TWO_NAMES)
    ensures var applied := [DOTTED_NAME, TWO_NAMES];
            var c := Collect(EMPTY_BLOCK, [], show, applied);
            && Missing(EMPTY_BLOCK, applied, TWO_NAMES) && !ShowsApart(EMPTY_BLOCK, [], show, applied)
            && c == Collected([], [DOTTED_NAME]) && HasPath(RemoveAll(LIVE, c.removals), TWO_NAMES)
  {
    var applied := [DOTTED_NAME, TWO_NAMES];
    LookAlikeCandidates();
    hide Candidate, HasPath;
    assert applied[..1] == [DOTTED_NAME] && [DOTTED_NAME][..0] == [];
    var none: seq<Path> := [];
    assert Collect(EMPTY_BLOCK, [], show, none) == Collected([], []);
    assert OwnersOf([], DOTTED_NAME) == [] && OwnersOf([], TWO_NAMES) == [];
    assert !Seen(none, show, DOTTED_NAME);
    assert none + [DOTTED_NAME] == [DOTTED_NAME];
    var one := Collected([], [DOTTED_NAME]);
    assert Collect(EMPTY_BLOCK, [], show, [DOTTED_NAME]) == one;
    assert [DOTTED_NAME][0] == DOTTED_NAME && Seen([DOTTED_NAME], show, TWO_NAMES);
    assert Collect(EMPTY_BLOCK, [], show, applied) == one;
    assert applied[0] == DOTTED_NAME && applied[1] == TWO_NAMES;
    assert DOTTED_NAME != TWO_NAMES;
    TwoNamesStay();
  }

  /** So it is with the printing that is used: a name with a dot, and a block of that name, are shown alike. */
  lemma DottedNameIsLost()
    ensures var applied := [DOTTED_NAME, TWO_NAMES];
            var c := Collect(EMPTY_BLOCK, [], Dotted, applied);
            && Missing(EMPTY_BLOCK, applied, TWO_NAMES) && !ShowsApart(EMPTY_BLOCK, [], Dotted, applied)
            && c == Collected([], [DOTTED_NAME]) && HasPath(RemoveAll(LIVE, c.removals), TWO_NAMES)
  {
    DottedLooksAlike();
    hide Dotted, Collect, HasPath, ShowsApart, RemoveAll;
    LookAlikeIsLost(Dotted);
  }

  lemma TwoNamesStay()
    ensures HasPath(RemoveAll(LIVE, [DOTTED_NAME]), TWO_NAMES)
  {
    WalkTwo(LIVE, Field("a"), Field("b"));
    WalkTwo(LIVE, Field("a.b"), Field("b"));
    assert DOTTED_NAME[..0] == TWO_NAMES[..0];
    PartAtField(LIVE, DOTTED_NAME, TWO_NAMES, 0);
    assert [DOTTED_NAME][..0] == [];
    assert RemoveAll(LIVE, []) == LIVE && RemoveAll(LIVE, [DOTTED_NAME]) == RemovePath(LIVE, DOTTED_NAME).0;
    hide Undisturbed, RemovePath;
    RemoveOne(LIVE, DOTTED_NAME, TWO_NAMES);
  }

  /* ----- what other managers own ----- */

  predicate OwnedByOther(others: seq<OwnedSet>, q: Path) {
    exists i :: 0 <= i < |others| && Has(others[i], q)
  }

  lemma {:induction false} NoOwnersNotOwned(others: seq<OwnedSet>, q: Path)
    ensures OwnersOf(others, q) == [] <==> !OwnedByOther(others, q)
  {
    if others != [] {
      var n := |others| - 1;
      NoOwnersNotOwned(others[..n], q);
      assert forall i :: 0 <= i < n ==> others[..n][i] == others[i];
      assert OwnedByOther(others, q) <==> OwnedByOther(others[..n], q) || Has(others[n], q) by {
        if OwnedByOther(others[..n], q) {
          var i :| 0 <= i < n && Has(others[..n][i], q);
          assert Has(others[i], q);
        }
        if OwnedByOther(others, q) && !Has(others[n], q) {
          var i :| 0 <= i < |others| && Has(others[i], q);
          assert Has(others[..n][i], q);
        }
      }
    }
  }

  lemma OwnedUnderHas(others: seq<OwnedSet>, r: Path, q: Path)
    requires OwnedByOther(others, q) && r <= q
    ensures OwnedUnder(others, r)
  {
    var i :| 0 <= i < |others| && Has(others[i], q);
    var k :| 0 <= k < |others[i].paths| && others[i].paths[k] == q;
    assert OwnedBelow(others[i], r);
  }

  /** A dropped path that only ArgoCD's apply owns, above a path that another manager owns. */
  ghost predicate Shadows(target: Json, others: seq<OwnedSet>, applied: seq<Path>, p: Path, q: Path) {
    Missing(target, applied, p) && OwnersOf(others, p) == [] && OwnedByOther(others, q) && p < q
  }

  lemma CoverIsShadow(target: Json, others: seq<OwnedSet>, applied: seq<Path>, p: Path, q: Path)
    requires p in applied && Droppable(target, others, p) && Candidate(target, others, p) <= q &&
        OwnedByOther(others, q)
    ensures Shadows(target, others, applied, p, q)
  {
    hide HasPath, OwnersOf, RemovalPoint;
    OwnedUnderHas(others, Candidate(target, others, p), q);
    NoOwnersNotOwned(others, p);
    assert Candidate(target, others, p) == p;
    hide OwnedByOther;
    assert p != q;
  }

  lemma ShadowIsCovered(target: Json, others: seq<OwnedSet>, show: Path -> string, applied: seq<Path>, p: Path, q: Path)
    requires ShowsApart(target, others, show, applied) && Shadows(target, others, applied, p, q)
    ensures Covered(Collect(target, others, show, applied).removals, q)
  {
    hide HasPath, Collect, OwnersOf, Candidate, ShowsApart;
    var removals := Collect(target, others, show, applied).removals;
    CollectedApart(target, others, show, applied, p);
    CandidateIsAbsent(target, others, p);
    var k :| 0 <= k < |removals| && removals[k] == Candidate(target, others, p);
    assert removals[k] <= q;
  }

  /**
   * A removal covers a path another manager owns exactly if that path lies strictly below a
   * dropped path that nobody else owns. So none does when owned paths are no prefixes of each other.
   */
  lemma CoversOwnedExactly(target: Json, others: seq<OwnedSet>, show: Path -> string, applied: seq<Path>, q: Path)
    requires OwnedByOther(others, q)
    ensures var removals := Collect(target, others, show, applied).removals;
            && (Covered(removals, q) ==> exists p :: Shadows(target, others, applied, p, q))
            && (ShowsApart(target, others, show, applied) ==>
                  (Covered(removals, q) <==> exists p :: Shadows(target, others, applied, p, q)))
  {
    hide Collect, Shadows, Droppable, OwnedByOther, ShowsApart, Candidate;
    var removals := Collect(target, others, show, applied).removals;
    if Covered(removals, q) {
      var k :| 0 <= k < |removals| && removals[k] != [] && removals[k] <= q;
      var p := CollectedIsDroppable(target, others, show, applied, removals[k]);
      CoverIsShadow(target, others, applied, p, q);
    }
    if ShowsApart(target, others, show, applied) {
      if p :| Shadows(target, others, applied, p, q) {
        ShadowIsCovered(target, others, show, applied, p, q);
      }
    }
  }

  /* ----- residue of client-side syncs ----- */

  predicate Listed(entries: seq<Retained>, p: Path) {
    exists k :: 0 <= k < |entries| && entries[k].path == p
  }

  lemma ListedJoin(a: seq<Retained>, b: seq<Retained>, p: Path)
    ensures Listed(a + b, p) <==> Listed(a, p) || Listed(b, p)
  {
    assert forall k :: 0 <= k < |a| ==> (a + b)[k] == a[k];
    assert forall k :: 0 <= k < |b| ==> (a + b)[|a| + k] == b[k];
    assert forall k :: |a| <= k < |a + b| ==> (a + b)[k] == b[k - |a|];
  }

  lemma ListedOne(e: Retained, p: Path)
    ensures Listed([e], p) <==> e.path == p
  {
    assert [e][0] == e;
  }

  /** What the collecting keeps is what is missing and owned by somebody else. */
  lemma {:induction false} RetainedExactly(
      target: Json, others: seq<OwnedSet>, show: Path -> string, applied: seq<Path>, p: Path)
    ensures Listed(Collect(target, others, show, applied).retained, p) <==>
              Missing(target, applied, p) && OwnersOf(others, p) != []
  {
    hide HasPath, OwnersOf, Candidate, Seen, Listed;
    if applied != [] {
      var init, q := applied[..|applied| - 1], applied[|applied| - 1];
      RetainedExactly(target, others, show, init, p);
      assert applied == init + [q];
      ListedOne(Retained(q, OwnersOf(others, q)), p);
      ListedJoin(Collect(target, others, show, init).retained, [Retained(q, OwnersOf(others, q))], p);
    } else {
      assert !Listed([], p) by {
        NothingListed(p);
      }
    }
  }

  lemma NothingListed(p: Path)
    ensures !Listed([], p)
  {
  }

  predicate Dropped(target: Json, applied: seq<Path>, p: Path) {
    !HasPath(target, p) && p !in applied
  }

  lemma {:induction false} ResidueOfExactly(
      target: Json, others: seq<OwnedSet>, applied: seq<Path>, paths: seq<Path>, p: Path)
    ensures Listed(ResidueOf(target, others, applied, paths), p) <==> p in paths && Dropped(target, applied, p)
  {
    hide HasPath, OwnersOf, Listed;
    NothingListed(p);
    if paths != [] {
      var init, q := paths[..|paths| - 1], paths[|paths| - 1];
      ResidueOfExactly(target, others, applied, init, p);
      assert paths == init + [q];
      ListedOne(Retained(q, OwnersOf(others, q)), p);
      ListedJoin(ResidueOf(target, others, applied, init), [Retained(q, OwnersOf(others, q))], p);
      ListedJoin(ResidueOf(target, others, applied, init), [], p);
    }
  }

  /** Some manager left over from client-side syncs, among the first n, owns the path. */
  predicate LeftOver(others: seq<OwnedSet>, n: nat, p: Path)
    requires n <= |others|
  {
    exists i :: 0 <= i < n && SyncLeftover(others[i].owner) && p in others[i].paths
  }

  /** What ArgoCD's controller and server own since a client-side sync. */
  predicate SyncLeftover(owner: string) {
    owner == "argocd-controller/Update" || owner == "argocd-server/Update"
  }

  lemma ResidueIsLeftover(owner: string)
    ensures IsResidue(owner) <==> SyncLeftover(owner)
  {
    assert ARGOCD + "/Update" == "argocd-controller/Update";
  }

  lemma {:induction false} ResidueExactly(target: Json, others: seq<OwnedSet>, applied: seq<Path>, n: nat, p: Path)
    requires n <= |others|
    ensures Listed(Residue(target, others, applied, n), p) <==> LeftOver(others, n, p) && Dropped(target, applied, p)
  {
    hide Dropped, ResidueOf, IsResidue, SyncLeftover, Listed;
    NothingListed(p);
    if n > 0 {
      var o := others[n - 1];
      ResidueIsLeftover(o.owner);
      ResidueExactly(target, others, applied, n - 1, p);
      ResidueOfExactly(target, others, applied, o.paths, p);
      ListedJoin(Residue(target, others, applied, n - 1), ResidueOf(target, others, applied, o.paths), p);
      ListedJoin(Residue(target, others, applied, n - 1), [], p);
      assert LeftOver(others, n, p) <==> LeftOver(others, n - 1, p) || (SyncLeftover(o.owner) && p in o.paths);
    }
  }

  /* ----- dedupeRetained ----- */

  lemma StrictlySortedSnoc(s: seq<string>, x: string)
    requires StrictlySorted(s) && (s != [] ==> Less(s[|s| - 1], x))
    ensures StrictlySorted(s + [x])
  {
    hide Less;
    forall i | 0 <= i < |s|
      ensures Less(s[i], x)
    {
      if i < |s| - 1 {
        LessTransitive(s[i], s[|s| - 1], x);
      }
    }
  }

  lemma {:induction false} UniqueIsStrict(s: seq<string>)
    requires Sorted(s)
    ensures StrictlySorted(Unique(s))
    ensures forall x :: x in Unique(s) <==> x in s
    ensures s != [] ==> Unique(s) != [] && Unique(s)[|Unique(s)| - 1] == s[|s| - 1]
  {
    if s != [] {
      hide Less, StrictlySorted;
      var n := |s| - 1;
      var last := s[n];
      UniqueIsStrict(s[..n]);
      assert s == s[..n] + [last];
      if n == 0 || last != s[n - 1] {
        assert n > 0 ==> s[..n][n - 1] == s[n - 1] && !Less(last, s[n - 1]);
        if n > 0 {
          LessTotal(s[n - 1], last);
        }
        StrictlySortedSnoc(Unique(s[..n]), last);
      }
    } else {
      assert Unique(s) == [];
    }
  }

  ghost predicate OwnsUnder(entries: seq<Retained>, show: Path -> string, key: string, owner: string) {
    exists i :: 0 <= i < |entries| && show(entries[i].path) == key && owner in entries[i].owners
  }

  lemma {:induction false} MergedOwners(entries: seq<Retained>, show: Path -> string, key: string, owner: string)
    ensures owner in MergeOwners(entries, show, key) <==> OwnsUnder(entries, show, key, owner)
  {
    if entries != [] {
      var n := |entries| - 1;
      MergedOwners(entries[..n], show, key, owner);
      assert forall i :: 0 <= i < n ==> entries[..n][i] == entries[i];
      if OwnsUnder(entries[..n], show, key, owner) {
        var i :| 0 <= i < n && show(entries[..n][i].path) == key && owner in entries[..n][i].owners;
        assert show(entries[i].path) == key && owner in entries[i].owners;
      }
      if OwnsUnder(entries, show, key, owner) && !(show(entries[n].path) == key && owner in entries[n].owners) {
        var i :| 0 <= i < |entries| && show(entries[i].path) == key && owner in entries[i].owners;
        assert show(entries[..n][i].path) == key && owner in entries[..n][i].owners;
      }
    }
  }

  lemma {:induction false} KeysComeUp(entries: seq<Retained>, show: Path -> string, key: string)
    ensures key in KeysOf(entries, show) <==> exists i :: 0 <= i < |entries| && show(entries[i].path) == key
  {
    if entries != [] {
      var n := |entries| - 1;
      KeysComeUp(entries[..n], show, key);
      assert forall i :: 0 <= i < n ==> entries[..n][i] == entries[i];
      if key in KeysOf(entries[..n], show) {
        var i :| 0 <= i < n && show(entries[..n][i].path) == key;
        assert show(entries[i].path) == key;
      }
      if i :| 0 <= i < |entries| && show(entries[i].path) == key {
        assert i < n ==> show(entries[..n][i].path) == key;
      }
    }
  }

  lemma {:induction false} FirstPathShows(entries: seq<Retained>, show: Path -> string, key: string)
    requires key in KeysOf(entries, show)
    ensures show(FirstPath(entries, show, key)) == key
  {
    KeysOfCons(entries, show, key);
    if show(entries[0].path) != key {
      FirstPathShows(entries[1..], show, key);
    }
  }

  /** Strictly ascending by shown path. */
  ghost predicate AscendingPaths(out: seq<Retained>, show: Path -> string) {
    forall i, j :: 0 <= i < j < |out| ==> Less(show(out[i].path), show(out[j].path))
  }

  /** Exactly the owners that any entry of the same path had. */
  ghost predicate OwnersUnited(out: seq<Retained>, entries: seq<Retained>, show: Path -> string) {
    forall i, owner :: 0 <= i < |out| ==> (owner in out[i].owners <==>
      OwnsUnder(entries, show, show(out[i].path), owner))
  }

  /**
   * The report lists each retained path once, in ascending order, with the strictly ascending
   * union of the owners that any of its entries had.
   */
  lemma DedupeUnites(entries: seq<Retained>, show: Path -> string)
    ensures var out := DedupeRetained(entries, show);
            && AscendingPaths(out, show) && OwnersUnited(out, entries, show)
            && (forall i :: 0 <= i < |out| ==> StrictlySorted(out[i].owners))
            && (forall i :: 0 <= i < |entries| ==>
                 exists k :: 0 <= k < |out| && show(out[k].path) == show(entries[i].path))
  {
    var keys := KeysOf(entries, show);
    KeysDistinct(entries, show);
    SortDistinct(keys);
    var out, order := DedupeRetained(entries, show), Sort(keys);
    hide Sort, KeysOf, FirstPath, MergeOwners, Unique, Less;
    forall i | 0 <= i < |out|
      ensures show(out[i].path) == order[i] && StrictlySorted(out[i].owners)
      ensures forall owner :: owner in out[i].owners <==> OwnsUnder(entries, show, order[i], owner)
    {
      assert order[i] in keys;
      FirstPathShows(entries, show, order[i]);
      var owners := MergeOwners(entries, show, order[i]);
      SortSorts(owners);
      UniqueIsStrict(Sort(owners));
      forall owner
        ensures owner in out[i].owners <==> OwnsUnder(entries, show, order[i], owner)
      {
        MergedOwners(entries, show, order[i], owner);
        assert owner in Sort(owners) <==> owner in multiset(Sort(owners));
        assert owner in owners <==> owner in multiset(owners);
      }
    }
    forall i | 0 <= i < |entries|
      ensures exists k :: 0 <= k < |out| && show(out[k].path) == show(entries[i].path)
    {
      KeysComeUp(entries, show, show(entries[i].path));
      var k :| 0 <= k < |order| && order[k] == show(entries[i].path);
      assert show(out[k].path) == order[k];
    }
  }

  /* ----- the report itself ----- */

  /** Every entry carries the other owners of its path. */
  predicate WithOwners(entries: seq<Retained>, others: seq<OwnedSet>) {
    forall i :: 0 <= i < |entries| ==> entries[i].owners == OwnersOf(others, entries[i].path)
  }

  lemma {:induction false} CollectedWithOwners(
      target: Json, others: seq<OwnedSet>, show: Path -> string, applied: seq<Path>)
    ensures WithOwners(Collect(target, others, show, applied).retained, others)
  {
    hide HasPath, OwnersOf, Candidate, Seen;
    if applied != [] {
      CollectedWithOwners(target, others, show, applied[..|applied| - 1]);
    }
  }

  lemma {:induction false} ResidueOfWithOwners(
      target: Json, others: seq<OwnedSet>, applied: seq<Path>, paths: seq<Path>)
    ensures WithOwners(ResidueOf(target, others, applied, paths), others)
  {
    hide HasPath, OwnersOf;
    if paths != [] {
      ResidueOfWithOwners(target, others, applied, paths[..|paths| - 1]);
    }
  }

  lemma {:induction false} ResidueWithOwners(target: Json, others: seq<OwnedSet>, applied: seq<Path>, n: nat)
    requires n <= |others|
    ensures WithOwners(Residue(target, others, applied, n), others)
  {
    hide ResidueOf, OwnersOf, IsResidue;
    if n > 0 {
      ResidueWithOwners(target, others, applied, n - 1);
      ResidueOfWithOwners(target, others, applied, others[n - 1].paths);
    }
  }

  /** What dedupeRetained is given. */
  function Entries(target: Json, others: seq<OwnedSet>, show: Path -> string, applied: seq<Path>): seq<Retained> {
    Collect(target, others, show, applied).retained + Residue(target, others, applied, |others|)
  }

  lemma EntriesWithOwners(target: Json, others: seq<OwnedSet>, show: Path -> string, applied: seq<Path>)
    ensures WithOwners(Entries(target, others, show, applied), others)
  {
    CollectedWithOwners(target, others, show, applied);
    ResidueWithOwners(target, others, applied, |others|);
    hide OwnersOf, Collect, Residue;
  }

  /** No retained path but p is shown as p is. */
  predicate AloneAs(entries: seq<Retained>, show: Path -> string, p: Path) {
    forall i :: 0 <= i < |entries| && show(entries[i].path) == show(p) ==> entries[i].path == p
  }

  /** The report has a line for p that names its other owners; nobody else, if no other path is shown alike. */
  predicate InReport(
      report: seq<Retained>, entries: seq<Retained>, others: seq<OwnedSet>, show: Path -> string, p: Path) {
    exists k :: 0 <= k < |report| && IsLineFor(report[k], entries, others, show, p)
  }

  predicate IsLineFor(line: Retained, entries: seq<Retained>, others: seq<OwnedSet>, show: Path -> string, p: Path) {
    && show(line.path) == show(p) && StrictlySorted(line.owners)
    && (forall o <- OwnersOf(others, p) :: o in line.owners)
    && (AloneAs(entries, show, p) ==> line.path == p && forall o <- line.owners :: o in OwnersOf(others, p))
  }

  lemma {:induction false} FirstPathIsThere(entries: seq<Retained>, show: Path -> string, key: string)
    requires key in KeysOf(entries, show)
    ensures exists i ::
              0 <= i < |entries| && entries[i].path == FirstPath(entries, show, key) && show(entries[i].path) == key
  {
    KeysOfCons(entries, show, key);
    if show(entries[0].path) != key {
      FirstPathIsThere(entries[1..], show, key);
      var i :| 0 <= i < |entries[1..]| && entries[1..][i].path == FirstPath(entries[1..], show, key) &&
        show(entries[1..][i].path) == key;
      assert entries[i + 1] == entries[1..][i];
    }
  }

  lemma DedupedPath(entries: seq<Retained>, show: Path -> string, k: nat)
    requires k < |DedupeRetained(entries, show)|
    ensures exists i :: 0 <= i < |entries| && entries[i].path == DedupeRetained(entries, show)[k].path
  {
    var order := Sort(KeysOf(entries, show));
    KeysDistinct(entries, show);
    SortDistinct(KeysOf(entries, show));
    hide Sort, KeysOf, FirstPath, MergeOwners, Unique;
    assert order[k] in order;
    FirstPathIsThere(entries, show, order[k]);
  }

  lemma ReportedIsInReport(entries: seq<Retained>, others: seq<OwnedSet>, show: Path -> string, p: Path)
    requires WithOwners(entries, others) && Reported(entries, others, p)
    ensures InReport(DedupeRetained(entries, show), entries, others, show, p)
  {
    hide DedupeRetained, OwnersOf, StrictlySorted;
    DedupeUnites(entries, show);
    var report := DedupeRetained(entries, show);
    var i :| 0 <= i < |entries| && entries[i] == Retained(p, OwnersOf(others, p));
    var k :| 0 <= k < |report| && show(report[k].path) == show(entries[i].path);
    DedupedPath(entries, show, k);
    var line := report[k];
    forall o | o in OwnersOf(others, p)
      ensures o in line.owners
    {
      assert OwnsUnder(entries, show, show(line.path), o);
    }
    if AloneAs(entries, show, p) {
      forall o | o in line.owners
        ensures o in OwnersOf(others, p)
      {
        var j :| 0 <= j < |entries| && show(entries[j].path) == show(line.path) && o in entries[j].owners;
        assert entries[j].path == p;
      }
    }
    assert IsLineFor(line, entries, others, show, p);
  }

  /** A path that git dropped and that stays: another manager owns it, or a client-side sync left it over. */
  predicate Kept(target: Json, others: seq<OwnedSet>, applied: seq<Path>, p: Path) {
    || (Missing(target, applied, p) && OwnersOf(others, p) != [])
    || (LeftOver(others, |others|, p) && Dropped(target, applied, p))
  }

  lemma EntriesExactly(target: Json, others: seq<OwnedSet>, show: Path -> string, applied: seq<Path>, p: Path)
    ensures Listed(Entries(target, others, show, applied), p) <==> Kept(target, others, applied, p)
  {
    hide Listed, Missing, OwnersOf, LeftOver, Dropped, Collect, Residue;
    RetainedExactly(target, others, show, applied, p);
    ResidueExactly(target, others, applied, |others|, p);
    ListedJoin(Collect(target, others, show, applied).retained, Residue(target, others, applied, |others|), p);
  }

  /** Every kept path has its line in the report, and every line is that of a kept path. */
  lemma ReportIsOfTheKept(target: Json, others: seq<OwnedSet>, show: Path -> string, applied: seq<Path>)
    ensures var entries := Entries(target, others, show, applied);
            var report := DedupeRetained(entries, show);
            && (forall p :: Kept(target, others, applied, p) ==> InReport(report, entries, others, show, p))
            && (forall k :: 0 <= k < |report| ==> Kept(target, others, applied, report[k].path))
  {
    var entries := Entries(target, others, show, applied);
    var report := DedupeRetained(entries, show);
    EntriesWithOwners(target, others, show, applied);
    hide Entries, Kept, InReport, DedupeRetained, OwnersOf;
    forall p | Kept(target, others, applied, p)
      ensures InReport(report, entries, others, show, p)
    {
      EntriesExactly(target, others, show, applied, p);
      var k :| 0 <= k < |entries| && entries[k].path == p;
      assert entries[k] == Retained(p, OwnersOf(others, p));
      ReportedIsInReport(entries, others, show, p);
    }
    forall k | 0 <= k < |report|
      ensures Kept(target, others, applied, report[k].path)
    {
      DedupedPath(entries, show, k);
      EntriesExactly(target, others, show, applied, report[k].path);
    }
  }

  /**
   * From the inputs to both outputs of applyFieldRemovals: a path that git dropped has its line
   * in the report, or is gone from the predicted object.
   */
  lemma PredictionAccounts(
      target: Json, predicted: Json, others: seq<OwnedSet>, show: Path -> string, applied: seq<Path>, p: Path)
    requires Missing(target, applied, p)
    ensures var entries := Entries(target, others, show, applied);
            && (OwnersOf(others, p) != [] ==> InReport(DedupeRetained(entries, show), entries, others, show, p))
            && (OwnersOf(others, p) == [] && Removable(target, predicted, others, show, applied, p) ==>
                 !HasPath(RemoveAll(predicted, Collect(target, others, show, applied).removals), p))
  {
    hide Removable, OwnersOf, HasPath, InReport, DedupeRetained, WithOwners, Entries, Collect, LeftOver;
    DroppedPathsAreReportedOrGone(target, predicted, others, show, applied, p);
    ReportIsOfTheKept(target, others, show, applied);
  }
}
