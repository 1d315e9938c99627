/**
 * Which fields a server-side apply removes and which it keeps: what ArgoCD's apply owns, the
 * manifest no longer renders, and no other manager owns. Paths are shown as strings by a
 * function of the fieldpath library, here a parameter.
 */
module ManagedFields {
  import opened Text
  import opened Ordering
  import opened FieldRemovals
  import opened RemovalLaws

  datatype OwnedSet = OwnedSet(owner: string, paths: seq<Path>)

  datatype Retained = Retained(path: Path, owners: seq<string>)

  predicate Has(o: OwnedSet, p: Path) {
    p in o.paths
  }

  function OwnersOf(others: seq<OwnedSet>, p: Path): seq<string> {
    if others == [] then [] else
    var o := others[|others| - 1];
    OwnersOf(others[..|others| - 1], p) + if Has(o, p) then [o.owner] else []
  }

  predicate OwnedBelow(o: OwnedSet, prefix: Path) {
    exists k :: 0 <= k < |o.paths| && prefix <= o.paths[k]
  }

  predicate OwnedUnder(others: seq<OwnedSet>, prefix: Path) {
    exists i :: 0 <= i < |others| && OwnedBelow(others[i], prefix)
  }

  /** The shortest prefix of p of length i or more that the target lacks, p if it lacks none. */
  function PointFrom(target: Json, p: Path, i: nat): Path
    decreases |p| - i
  {
    if i > |p| then p else if !HasPath(target, p[..i]) then p[..i] else PointFrom(target, p, i + 1)
  }

  function RemovalPoint(target: Json, p: Path): Path {
    PointFrom(target, p, 1)
  }

  /** What is removed for p: the whole block that is gone, unless another manager owns something in it. */
  function Candidate(target: Json, others: seq<OwnedSet>, p: Path): Path {
    var r := RemovalPoint(target, p);
    if OwnedUnder(others, r) then p else r
  }

  datatype Collected = Collected(retained: seq<Retained>, removals: seq<Path>)

  predicate Seen(removals: seq<Path>, show: Path -> string, r: Path) {
    exists i :: 0 <= i < |removals| && show(removals[i]) == show(r)
  }

  function AddPath(c: Collected, target: Json, others: seq<OwnedSet>, show: Path -> string, p: Path): Collected {
    if HasPath(target, p) then c
    else if OwnersOf(others, p) != [] then c.(retained := c.retained + [Retained(p, OwnersOf(others, p))])
    else
      var r := Candidate(target, others, p);
      if Seen(c.removals, show, r) then c else c.(removals := c.removals + [r])
  }

  function Collect(target: Json, others: seq<OwnedSet>, show: Path -> string, applied: seq<Path>): Collected {
    if applied == [] then Collected([], [])
    else AddPath(Collect(target, others, show, applied[..|applied| - 1]), target, others, show, applied[|applied| - 1])
  }

  const ARGOCD := "argocd-controller"

  /** Ownership that a client-side sync of ArgoCD left behind. */
  predicate IsResidue(owner: string) {
    owner == ARGOCD + "/Update" || owner == "argocd-server/Update"
  }

  function ResidueOf(target: Json, others: seq<OwnedSet>, applied: seq<Path>, paths: seq<Path>): seq<Retained> {
    if paths == [] then [] else
    var p := paths[|paths| - 1];
    ResidueOf(target, others, applied, paths[..|paths| - 1]) +
      if HasPath(target, p) || p in applied then [] else [Retained(p, OwnersOf(others, p))]
  }

  function Residue(target: Json, others: seq<OwnedSet>, applied: seq<Path>, n: nat): seq<Retained>
    requires n <= |others|
  {
    if n == 0 then [] else
    var o := others[n - 1];
    Residue(target, others, applied, n - 1) + if IsResidue(o.owner) then ResidueOf(target, others, applied, o.paths)
      else []
  }

  /* ----- the loops ----- */

  method RemovalPointLoop(target: Json, p: Path) returns (r: Path)
    ensures r == RemovalPoint(target, p)
  {
    hide HasPath;
    var i := 1;
    while i <= |p|
      invariant 1 <= i <= |p| + 1
      invariant PointFrom(target, p, i) == RemovalPoint(target, p)
    {
      var found := WalkLoop(target, p[..i]);
      assert found.Some? <==> HasPath(target, p[..i]) by { PathIsWalk(target, p[..i]); }
      if found.None? {
        return p[..i];
      }
      i := i + 1;
    }
    return p;
  }

  lemma PathIsWalk(obj: Json, p: Path)
    ensures HasPath(obj, p) <==> Walk(obj, p).Some?
  {
  }

  method OwnersOfLoop(others: seq<OwnedSet>, p: Path) returns (owners: seq<string>)
    ensures owners == OwnersOf(others, p)
  {
    owners := [];
    for i := 0 to |others|
      invariant owners == OwnersOf(others[..i], p)
    {
      assert others[..i + 1][..i] == others[..i];
      if Has(others[i], p) {
        owners := owners + [others[i].owner];
      }
    }
    assert others[..|others|] == others;
  }

  method OwnedUnderLoop(others: seq<OwnedSet>, prefix: Path) returns (owned: bool)
    ensures owned == OwnedUnder(others, prefix)
  {
    for i := 0 to |others|
      invariant forall j :: 0 <= j < i ==> !OwnedBelow(others[j], prefix)
    {
      var found := false;
      for k := 0 to |others[i].paths|
        invariant found <==> exists j :: 0 <= j < k && prefix <= others[i].paths[j]
      {
        if !found && prefix <= others[i].paths[k] {
          found := true;
        }
      }
      if found {
        assert OwnedBelow(others[i], prefix);
        return true;
      }
    }
    return false;
  }

  method SeenLoop(removals: seq<Path>, show: Path -> string, r: Path) returns (seen: bool)
    ensures seen == Seen(removals, show, r)
  {
    for j := 0 to |removals|
      invariant forall k :: 0 <= k < j ==> show(removals[k]) != show(r)
    {
      if show(removals[j]) == show(r) {
        return true;
      }
    }
    return false;
  }

  method CollectLoop(target: Json, others: seq<OwnedSet>, show: Path -> string, applied: seq<Path>)
    returns (c: Collected)
    ensures c == Collect(target, others, show, applied)
  {
    hide HasPath, OwnersOf, OwnedUnder, RemovalPoint, Seen;
    var retained: seq<Retained>, removals: seq<Path> := [], [];
    for i := 0 to |applied|
      invariant Collected(retained, removals) == Collect(target, others, show, applied[..i])
    {
      var p := applied[i];
      assert applied[..i + 1][..i] == applied[..i];
      PathIsWalk(target, p);
      var found := WalkLoop(target, p);
      if found.Some? {
        continue;
      }
      var owners := OwnersOfLoop(others, p);
      if |owners| > 0 {
        retained := retained + [Retained(p, owners)];
        continue;
      }
      var r := RemovalPointLoop(target, p);
      var owned := OwnedUnderLoop(others, r);
      if owned {
        r := p;
      }
      var seen := SeenLoop(removals, show, r);
      if !seen {
        removals := removals + [r];
      }
    }
    assert applied[..|applied|] == applied;
    c := Collected(retained, removals);
  }

  method ResidueLoop(target: Json, others: seq<OwnedSet>, applied: seq<Path>) returns (kept: seq<Retained>)
    ensures kept == Residue(target, others, applied, |others|)
  {
    hide HasPath, OwnersOf, IsResidue;
    kept := [];
    for n := 0 to |others|
      invariant kept == Residue(target, others, applied, n)
    {
      var o := others[n];
      ghost var before := kept;
      if !IsResidue(o.owner) {
        assert kept + [] == kept;
        continue;
      }
      for k := 0 to |o.paths|
        invariant kept == before + ResidueOf(target, others, applied, o.paths[..k])
      {
        var p := o.paths[k];
        assert o.paths[..k + 1][..k] == o.paths[..k];
        PathIsWalk(target, p);
        var found := WalkLoop(target, p);
        if found.Some? || p in applied {
          continue;
        }
        var owners := OwnersOfLoop(others, p);
        kept := kept + [Retained(p, owners)];
      }
      assert o.paths[..|o.paths|] == o.paths;
    }
  }

  /** Where there is a value at the end of the path, setting it is putting v in its place. */
  lemma SetInParentPuts(obj: Json, p: Path, v: Json)
    requires p != [] && HasPath(obj, p)
    ensures SetInParent(obj, p, v) == (Put(obj, p, v), true)
  {
    WalkPrefix(obj, p);
  }

  method SetInParentOnce(obj: Json, p: Path, v: Json) returns (after: Json, done: bool)
    ensures p != [] && HasPath(obj, p) ==> done && after == Put(obj, p, v)
    ensures !done ==> after == obj
    ensures (after, done) == SetInParent(obj, p, v)
  {
    if p != [] && HasPath(obj, p) {
      SetInParentPuts(obj, p, v);
    }
    hide Put, Step, HasPath;
    if p == [] {
      return obj, false;
    }
    var q, last := p[..|p| - 1], p[|p| - 1];
    var parent := WalkLoop(obj, q);
    if parent.None? {
      return obj, false;
    }
    if last.Field? {
      if !parent.value.Obj? {
        return obj, false;
      }
      return Put(obj, q, Obj(parent.value.fields[last.name := v])), true;
    }
    if !parent.value.Arr? {
      return obj, false;
    }
    var i := ListIndexLoop(parent.value.items, last);
    if i < 0 {
      return obj, false;
    }
    return Put(obj, q, Arr(parent.value.items[i := v])), true;
  }

  /** removePath, which edits the object in place; here the edited object is returned. */
  method RemovePathOnce(obj: Json, p: Path) returns (after: Json, removed: bool)
    requires obj.Obj?
    ensures removed <==> p != [] && HasPath(obj, p)
    ensures after == if p != [] && HasPath(obj, p) then Cut(obj, p) else obj
    ensures (after, removed) == RemovePath(obj, p)
  {
    if p != [] {
      RemovePathCuts(obj, p);
    }
    hide Put, Step, SetInParent, Cut, HasPath;
    if p == [] {
      return obj, false;
    }
    var q, last := p[..|p| - 1], p[|p| - 1];
    var parent := WalkLoop(obj, q);
    if parent.None? {
      return obj, false;
    }
    if last.Field? {
      if !parent.value.Obj? || last.name !in parent.value.fields {
        return obj, false;
      }
      return Put(obj, q, Obj(parent.value.fields - {last.name})), true;
    }
    if !parent.value.Arr? {
      return obj, false;
    }
    var i := ListIndexLoop(parent.value.items, last);
    if i < 0 {
      return obj, false;
    }
    after, removed := SetInParentOnce(obj, q, Arr(Without(parent.value.items, i)));
  }

  lemma RemovalKeepsObject(obj: Json, p: Path)
    requires obj.Obj?
    ensures RemovePath(obj, p).0.Obj? && (!RemovePath(obj, p).1 ==> RemovePath(obj, p).0 == obj)
  {
    hide Cut, RemovePath, HasPath;
    if p != [] {
      RemovePathCuts(obj, p);
      if HasPath(obj, p) {
        CutStaysObject(obj, p);
      }
    } else {
      RemoveNothing(obj);
    }
  }

  lemma RemoveNothing(obj: Json)
    ensures RemovePath(obj, []) == (obj, false)
  {
  }

  /** Some removal finds its path in the object it is made in. */
  predicate SomeFound(predicted: Json, removals: seq<Path>) {
    exists k :: 0 <= k < |removals| && removals[k] != [] && HasPath(RemoveAll(predicted, removals[..k]), removals[k])
  }

  lemma SomeFoundSnoc(predicted: Json, removals: seq<Path>, i: nat)
    requires i < |removals|
    ensures SomeFound(predicted, removals[..i + 1]) <==>
              SomeFound(predicted, removals[..i]) ||
                (removals[i] != [] && HasPath(RemoveAll(predicted, removals[..i]), removals[i]))
  {
    hide RemoveAll, HasPath;
    var a, b := removals[..i], removals[..i + 1];
    assert forall k :: 0 <= k < i ==> b[..k] == a[..k] && b[k] == a[k];
    assert b[..i] == a && b[i] == removals[i];
  }

  method RemoveAllLoop(predicted: Json, removals: seq<Path>) returns (after: Json, modified: bool)
    requires predicted.Obj?
    ensures after == RemoveAll(predicted, removals)
    ensures modified <==> SomeFound(predicted, removals)
    ensures !modified ==> after == predicted
  {
    hide RemovePath, HasPath, SomeFound, Cut;
    modified := false;
    after := predicted;
    NoneFound(predicted);
    for i := 0 to |removals|
      invariant after == RemoveAll(predicted, removals[..i])
      invariant modified <==> SomeFound(predicted, removals[..i])
      invariant !modified ==> after == predicted
      invariant after.Obj?
    {
      assert removals[..i + 1][..i] == removals[..i];
      SomeFoundSnoc(predicted, removals, i);
      RemovalKeepsObject(after, removals[i]);
      var next, removed := RemovePathOnce(after, removals[i]);
      if removed {
        modified := true;
      }
      after := next;
    }
    assert removals[..|removals|] == removals;
  }

  lemma NoneFound(predicted: Json)
    ensures !SomeFound(predicted, [])
  {
  }

  /** Nothing is predicted without a manifest, or without managed fields. */
  predicate Skipped(target: Option<Json>, applied: Option<seq<Path>>, others: seq<OwnedSet>) {
    target.None? || (applied.None? && others == [])
  }

  function AppliedPaths(applied: Option<seq<Path>>): seq<Path> {
    if applied.Some? then applied.value else []
  }

  method ApplyFieldRemovals(
      target: Option<Json>, predicted: Json, applied: Option<seq<Path>>, others: seq<OwnedSet>, show: Path -> string)
    returns (retained: seq<Retained>, after: Json, modified: bool)
    requires predicted.Obj?
    ensures Skipped(target, applied, others) ==> retained == [] && after == predicted && !modified
    ensures !Skipped(target, applied, others) ==>
              var paths := AppliedPaths(applied);
              var c := Collect(target.value, others, show, paths);
              && after == RemoveAll(predicted, c.removals)
              && retained == DedupeRetained(c.retained + Residue(target.value, others, paths, |others|), show)
              && (modified <==> SomeFound(predicted, c.removals))
              && (!modified ==> after == predicted)
  {
    if target.None? || (applied.None? && others == []) {
      return [], predicted, false;
    }
    hide DedupeRetained, Residue, Collect, RemoveAll, SomeFound;
    var paths := AppliedPaths(applied);
    var c := CollectLoop(target.value, others, show, paths);
    var residue := ResidueLoop(target.value, others, paths);
    after, modified := RemoveAllLoop(predicted, c.removals);
    retained := DedupeRetainedLoop(c.retained + residue, show);
  }

  /* ----- dedupeRetained ----- */

  /** The sorted strings without the ones that repeat the one before. */
  function Unique(s: seq<string>): seq<string> {
    if s == [] then []
    else if |s| > 1 && s[|s| - 1] == s[|s| - 2] then Unique(s[..|s| - 1])
    else Unique(s[..|s| - 1]) + [s[|s| - 1]]
  }

  lemma UniqueStep(s: seq<string>, i: nat)
    requires i < |s|
    ensures Unique(s[..i + 1]) == if i > 0 && s[i] == s[i - 1] then Unique(s[..i]) else Unique(s[..i]) + [s[i]]
  {
    assert s[..i + 1][..i] == s[..i];
  }

  /**
   * uniqueSorted: the result is written over the front of the slice it is read from. The
   * writes never overtake the reads, so every string read is still the sorted one.
   */
  method UniqueSorted(a: array<string>) returns (n: nat)
    modifies a
    ensures n <= a.Length
    ensures a[..n] == Unique(Sort(old(a[..])))
  {
    hide Sort, Unique;
    var sorted := Sort(a[..]);
    SortSorts(a[..]);
    forall i | 0 <= i < a.Length {
      a[i] := sorted[i];
    }
    n := 0;
    UniqueNothing(sorted);
    for i := 0 to a.Length
      invariant n <= i
      invariant a[..n] == Unique(sorted[..i])
      invariant forall j :: i <= j < a.Length ==> a[j] == sorted[j]
      invariant i > 0 ==> a[i - 1] == sorted[i - 1]
    {
      UniqueStep(sorted, i);
      if i == 0 || a[i] != a[i - 1] {
        ghost var before := a[..n];
        a[n] := a[i];
        assert a[..n] == before;
        assert a[..n + 1] == a[..n] + [a[n]];
        n := n + 1;
      }
    }
    assert sorted[..a.Length] == sorted;
  }

  lemma UniqueNothing(s: seq<string>)
    ensures Unique(s[..0]) == []
  {
  }

  function MergeOwners(entries: seq<Retained>, show: Path -> string, key: string): seq<string> {
    if entries == [] then [] else
    var e := entries[|entries| - 1];
    MergeOwners(entries[..|entries| - 1], show, key) + if show(e.path) == key then e.owners else []
  }

  /** The keys in the order they first come up. */
  function KeysOf(entries: seq<Retained>, show: Path -> string): seq<string> {
    if entries == [] then [] else
    var keys, key := KeysOf(entries[..|entries| - 1], show), show(entries[|entries| - 1].path);
    if key in keys then keys else keys + [key]
  }

  function FirstPath(entries: seq<Retained>, show: Path -> string, key: string): Path {
    if entries == [] then []
    else if show(entries[0].path) == key then entries[0].path
    else FirstPath(entries[1..], show, key)
  }

  function DedupeRetained(entries: seq<Retained>, show: Path -> string): seq<Retained> {
    var order := Sort(KeysOf(entries, show));
    seq(|order|, i requires 0 <= i < |order| =>
      Retained(FirstPath(entries, show, order[i]), Unique(Sort(MergeOwners(entries, show, order[i])))))
  }

  lemma {:induction false} FirstPathSnoc(entries: seq<Retained>, show: Path -> string, e: Retained, key: string)
    ensures FirstPath(entries + [e], show, key) ==
              if key in KeysOf(entries, show) then FirstPath(entries, show, key)
              else if show(e.path) == key then e.path else []
  {
    if entries != [] {
      assert (entries + [e])[1..] == entries[1..] + [e];
      FirstPathSnoc(entries[1..], show, e, key);
      KeysOfCons(entries, show, key);
    } else {
      assert entries + [e] == [e];
      assert [e][1..] == [];
    }
  }

  lemma {:induction false} KeysOfCons(entries: seq<Retained>, show: Path -> string, key: string)
    requires entries != []
    ensures key in KeysOf(entries, show) <==> show(entries[0].path) == key || key in KeysOf(entries[1..], show)
  {
    var n := |entries| - 1;
    if n == 0 {
      assert entries[..0] == [] && entries[1..] == [];
    } else {
      KeysOfCons(entries[..n], show, key);
      assert entries[..n][1..] == entries[1..][..n - 1];
    }
  }

  lemma {:induction false} KeysDistinct(entries: seq<Retained>, show: Path -> string)
    ensures Distinct(KeysOf(entries, show))
  {
    if entries != [] {
      hide Distinct;
      var before, key := KeysOf(entries[..|entries| - 1], show), show(entries[|entries| - 1].path);
      KeysDistinct(entries[..|entries| - 1], show);
      if key !in before {
        DistinctSnoc(before, key);
      }
    } else {
      assert KeysOf(entries, show) == [];
    }
  }

  ghost predicate Grouped(
      byPath: map<string, Retained>, order: seq<string>, entries: seq<Retained>, show: Path -> string) {
    && order == KeysOf(entries, show)
    && (forall k :: k in byPath <==> k in order)
    && forall k :: k in byPath ==> byPath[k] == Retained(FirstPath(entries, show, k), MergeOwners(entries, show, k))
  }

  method GroupByPath(entries: seq<Retained>, show: Path -> string)
    returns (byPath: map<string, Retained>, order: seq<string>)
    ensures Grouped(byPath, order, entries, show)
  {
    hide FirstPath;
    byPath := map[];
    order := [];
    for i := 0 to |entries|
      invariant Grouped(byPath, order, entries[..i], show)
    {
      var r := entries[i];
      var k := show(r.path);
      assert entries[..i + 1] == entries[..i] + [r];
      assert entries[..i + 1][..i] == entries[..i];
      forall key
        ensures FirstPath(entries[..i + 1], show, key) ==
                  if key in KeysOf(entries[..i], show) then FirstPath(entries[..i], show, key)
                  else if show(r.path) == key then r.path else []
      {
        FirstPathSnoc(entries[..i], show, r, key);
      }
      if k in byPath {
        byPath := byPath[k := byPath[k].(owners := byPath[k].owners + r.owners)];
        continue;
      }
      NewKey(entries[..i], show, k);
      byPath := byPath[k := r];
      order := order + [k];
    }
    assert entries[..|entries|] == entries;
  }

  method DedupeRetainedLoop(entries: seq<Retained>, show: Path -> string) returns (out: seq<Retained>)
    ensures out == DedupeRetained(entries, show)
  {
    hide Sort, Unique, FirstPath, MergeOwners, KeysOf;
    var byPath, keys := GroupByPath(entries, show);
    var order := Sort(keys);
    SortSorts(keys);
    out := [];
    for i := 0 to |order|
      invariant |out| == i
      invariant forall j :: 0 <= j < i ==> out[j] == DedupeRetained(entries, show)[j]
    {
      assert order[i] in multiset(order);
      assert order[i] in keys;
      var r := byPath[order[i]];
      var owners := new string[|r.owners|](k requires 0 <= k < |r.owners| => r.owners[k]);
      assert owners[..] == r.owners;
      var n := UniqueSorted(owners);
      out := out + [r.(owners := owners[..n])];
    }
  }

  lemma {:induction false} NewKey(entries: seq<Retained>, show: Path -> string, key: string)
    requires key !in KeysOf(entries, show)
    ensures MergeOwners(entries, show, key) == []
  {
    if entries != [] {
      NewKey(entries[..|entries| - 1], show, key);
    }
  }
}
