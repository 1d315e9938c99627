/** Removing paths takes away exactly what they lead to. */
module RemovalLaws {
  import opened Text
  import opened FieldRemovals

  /* ----- reading a path from its first element ----- */

  lemma {:induction false} WalkCons(obj: Json, e: Elem, p: Path)
    ensures Walk(obj, [e] + p) == if Step(obj, e).Some? then Walk(Step(obj, e).value, p) else None
  {
    hide Step;
    var all := [e] + p;
    if p == [] {
      assert all[..0] == [] && all == [e];
      assert Walk(obj, []) == Some(obj);
    } else {
      assert all[..|all| - 1] == [e] + p[..|p| - 1];
      WalkCons(obj, e, p[..|p| - 1]);
    }
  }

  lemma WalkFirst(obj: Json, p: Path)
    requires p != []
    ensures Walk(obj, p) == if Step(obj, p[0]).Some? then Walk(Step(obj, p[0]).value, p[1..]) else None
  {
    assert p == [p[0]] + p[1..];
    WalkCons(obj, p[0], p[1..]);
  }

  lemma {:induction false} PutCons(obj: Json, e: Elem, p: Path, v: Json)
    requires HasPath(obj, [e] + p)
    ensures Step(obj, e).Some? && HasPath(Step(obj, e).value, p)
    ensures Put(obj, [e] + p, v) == Replace(obj, e, Put(Step(obj, e).value, p, v))
  {
    hide Step, Replace;
    WalkCons(obj, e, p);
    var all := [e] + p;
    if p == [] {
      assert all[..0] == [] && all == [e];
      assert Put(obj, all, v) == Put(obj, [], Replace(obj, e, v));
    } else {
      var q, last := p[..|p| - 1], p[|p| - 1];
      assert all[..|all| - 1] == [e] + q && all[|all| - 1] == last;
      WalkPrefix(obj, all);
      WalkCons(obj, e, q);
      var child := Step(obj, e).value;
      WalkPrefix(child, p);
      PutCons(obj, e, q, Replace(Walk(child, q).value, last, v));
    }
  }

  /** Cutting below a child is replacing the child by what is left of it. */
  lemma CutCons(obj: Json, p: Path)
    requires |p| > 1 && HasPath(obj, p)
    ensures Step(obj, p[0]).Some? && HasPath(Step(obj, p[0]).value, p[1..])
    ensures Cut(obj, p) == Replace(obj, p[0], Cut(Step(obj, p[0]).value, p[1..]))
  {
    hide Replace, Put;
    var e, rest, q := p[0], p[1..], p[..|p| - 1];
    WalkFirst(obj, p);
    WalkPrefix(obj, p);
    WalkFirst(obj, q);
    var child := Step(obj, e).value;
    WalkPrefix(child, rest);
    assert q == [e] + rest[..|rest| - 1] && q[1..] == rest[..|rest| - 1];
    assert p[|p| - 1] == rest[|rest| - 1];
    var parent, last := Walk(obj, q).value, p[|p| - 1];
    PutCons(obj, e, rest[..|rest| - 1],
      if last.Field? then Obj(parent.fields - {last.name}) else Arr(Without(parent.items, LastIndex(parent, last))));
  }

  function LastIndex(parent: Json, last: Elem): nat
    requires Step(parent, last).Some? && !last.Field?
    ensures LastIndex(parent, last) < |parent.items|
  {
    ListIndex(parent.items, last, 0)
  }

  /** What Cut does to the list or the fields in which a path ends. */
  lemma CutOne(obj: Json, e: Elem)
    requires HasPath(obj, [e])
    ensures Step(obj, e).Some?
    ensures Cut(obj, [e]) == if e.Field? then Obj(obj.fields - {e.name}) else Arr(Without(obj.items, LastIndex(obj, e)))
  {
    WalkFirst(obj, [e]);
    assert [e][..0] == [];
    assert Walk(obj, []) == Some(obj);
  }

  lemma CutShape(obj: Json, p: Path)
    requires p != [] && HasPath(obj, p)
    ensures p[0].Field? ==> obj.Obj? && Cut(obj, p).Obj?
    ensures !p[0].Field? ==> obj.Arr? && Cut(obj, p).Arr?
  {
    WalkFirst(obj, p);
    if |p| == 1 {
      assert p == [p[0]];
      CutOne(obj, p[0]);
    } else {
      CutCons(obj, p);
    }
  }

  /* ----- what an element finds once a list has changed ----- */

  /** Where an item is after the one at position at is gone. */
  function Shifted(i: int, at: nat): int {
    if i < at then i else i - 1
  }

  /** The element finds an item before the one that goes, or a later one other than by its position. */
  predicate StaysBeside(l: seq<Json>, at: nat, f: Elem) {
    var i := ListIndex(l, f, 0);
    i < at || (i > at && !f.Index?)
  }

  /** No later item takes the place of the one that goes. */
  predicate OnlyMatch(l: seq<Json>, at: nat, e: Elem) {
    forall j :: at < j < |l| ==> !Matches(l[j], j - 1, e)
  }

  /** The element finds an earlier item, or the changed item matches it as before. */
  predicate StaysThrough(l: seq<Json>, at: nat, v: Json, f: Elem)
    requires at < |l|
  {
    0 <= ListIndex(l, f, 0) < at || (Matches(v, at, f) <==> Matches(l[at], at, f))
  }

  lemma WithoutAt(l: seq<Json>, at: nat, j: nat)
    requires at < |l| && j < |l| - 1
    ensures Without(l, at)[j] == if j < at then l[j] else l[j + 1]
  {
  }

  lemma MatchesElsewhere(item: Json, i: nat, j: nat, e: Elem)
    requires !e.Index?
    ensures Matches(item, i, e) <==> Matches(item, j, e)
  {
  }

  lemma FirstMatch(l: seq<Json>, e: Elem, i: nat)
    requires i < |l| && Matches(l[i], i, e) && forall j :: 0 <= j < i ==> !Matches(l[j], j, e)
    ensures ListIndex(l, e, 0) == i
  {
  }

  lemma NoMatch(l: seq<Json>, e: Elem)
    requires forall j :: 0 <= j < |l| ==> !Matches(l[j], j, e)
    ensures ListIndex(l, e, 0) == -1
  {
  }

  lemma WithoutFindsSame(l: seq<Json>, at: nat, f: Elem)
    requires at < |l| && StaysBeside(l, at, f)
    ensures ListIndex(Without(l, at), f, 0) == Shifted(ListIndex(l, f, 0), at)
  {
    hide Matches, ListIndex;
    var i, w := ListIndex(l, f, 0), Without(l, at);
    forall j: nat | j < |w|
      ensures i < 0 || j < Shifted(i, at) ==> !Matches(w[j], j, f)
      ensures j == Shifted(i, at) ==> Matches(w[j], j, f)
    {
      WithoutAt(l, at, j);
      if f.Index? {
        IndexMatches(w[j], j, f);
        IndexFinds(l, f);
      } else if j >= at {
        MatchesElsewhere(w[j], j, j + 1, f);
      }
    }
    if i < 0 {
      NoMatch(w, f);
    } else {
      FirstMatch(w, f, Shifted(i, at));
    }
  }

  lemma IndexMatches(item: Json, j: nat, f: Elem)
    requires f.Index?
    ensures Matches(item, j, f) <==> j == f.i
  {
  }

  lemma IndexFinds(l: seq<Json>, f: Elem)
    requires f.Index?
    ensures ListIndex(l, f, 0) == if 0 <= f.i < |l| then f.i else -1
  {
    if 0 <= f.i < |l| {
      FirstMatch(l, f, f.i);
    } else {
      NoMatch(l, f);
    }
  }

  /** When an item goes, every other element finds what it found, exactly if it stays beside it. */
  lemma WithoutFinds(l: seq<Json>, at: nat, f: Elem)
    requires at < |l|
    ensures StaysBeside(l, at, f) <==>
              ListIndex(l, f, 0) != at && ListIndex(Without(l, at), f, 0) == Shifted(ListIndex(l, f, 0), at)
  {
    if StaysBeside(l, at, f) {
      WithoutFindsSame(l, at, f);
    } else if ListIndex(l, f, 0) > at {
      IndexFinds(l, f);
      IndexFinds(Without(l, at), f);
    }
  }

  /** When an item goes, the element that found it finds nothing, exactly if it matched no later one. */
  lemma WithoutLoses(l: seq<Json>, at: nat, e: Elem)
    requires at < |l| && ListIndex(l, e, 0) == at
    ensures OnlyMatch(l, at, e) <==> ListIndex(Without(l, at), e, 0) == -1
  {
    hide Matches;
    var w := Without(l, at);
    forall j: nat | j < |w|
      ensures w[j] == if j < at then l[j] else l[j + 1]
    {
      WithoutAt(l, at, j);
    }
    if ListIndex(w, e, 0) == -1 {
      forall j | at < j < |l|
        ensures !Matches(l[j], j - 1, e)
      {
        assert w[j - 1] == l[j];
      }
    }
  }

  /** When an item changes, an element finds what it found, exactly if it stays through the change. */
  lemma ReplacedFinds(l: seq<Json>, at: nat, v: Json, f: Elem)
    requires at < |l|
    ensures StaysThrough(l, at, v, f) <==> ListIndex(l[at := v], f, 0) == ListIndex(l, f, 0)
  {
    hide Matches;
    var w, i, k := l[at := v], ListIndex(l, f, 0), ListIndex(l[at := v], f, 0);
    assert forall j :: 0 <= j < |l| && j != at ==> w[j] == l[j];
    assert w[at] == v;
    hide ListIndex;
    if StaysThrough(l, at, v, f) {
      if i >= 0 {
        FirstMatch(w, f, i);
      } else {
        NoMatch(w, f);
      }
    }
  }

  /* ----- one removal ----- */

  /**
   * The removal of r leaves alone what q finds: at every list they share, q's element stays
   * beside or through the change, and a different element finds a different item.
   */
  predicate Undisturbed(obj: Json, r: Path, q: Path)
    requires r != [] && HasPath(obj, r)
    decreases |r|
  {
    if q == [] then true else
    WalkFirst(obj, r);
    var e, f, child := r[0], q[0], Step(obj, r[0]).value;
    if e.Field? || f.Field? then
      e == f && |r| > 1 ==> Undisturbed(child, r[1..], q[1..])
    else
      var l, at := obj.items, ListIndex(obj.items, e, 0);
      if |r| == 1 then if f == e then OnlyMatch(l, at, e) else StaysBeside(l, at, f)
      else if f == e then Matches(Cut(child, r[1..]), at, e) && Undisturbed(child, r[1..], q[1..])
      else ListIndex(l, f, 0) != at && StaysThrough(l, at, Cut(child, r[1..]), f)
  }

  /** At every list they share, q's element finds after the removal of r the very item it found before. */
  predicate FindsSame(obj: Json, r: Path, q: Path)
    requires r != [] && HasPath(obj, r)
    decreases |r|
  {
    if q == [] then true else
    WalkFirst(obj, r);
    CutShape(obj, r);
    var e, f, child, after := r[0], q[0], Step(obj, r[0]).value, Cut(obj, r);
    if e.Field? || f.Field? then
      e == f && |r| > 1 ==> FindsSame(child, r[1..], q[1..])
    else
      var at, i, j := ListIndex(obj.items, e, 0), ListIndex(obj.items, f, 0), ListIndex(after.items, f, 0);
      if |r| == 1 then if f == e then j == -1 else i != at && j == Shifted(i, at)
      else if f == e then j == at && FindsSame(child, r[1..], q[1..])
      else i != at && j == i
  }

  lemma {:induction false} UndisturbedExactly(obj: Json, r: Path, q: Path)
    requires r != [] && HasPath(obj, r)
    ensures Undisturbed(obj, r, q) <==> FindsSame(obj, r, q)
    decreases |r|
  {
    if q != [] {
      WalkFirst(obj, r);
      CutShape(obj, r);
      var e, f := r[0], q[0];
      if |r| > 1 {
        UndisturbedExactly(Step(obj, e).value, r[1..], q[1..]);
      }
      if !e.Field? && !f.Field? {
        var l, at := obj.items, ListIndex(obj.items, e, 0);
        if |r| == 1 {
          assert r == [e];
          CutOne(obj, e);
          WithoutFinds(l, at, f);
          WithoutLoses(l, at, e);
        } else {
          CutCons(obj, r);
          ReplacedFinds(l, at, Cut(l[at], r[1..]), f);
        }
      }
    }
  }

  /** What a path finds once r has been removed. */
  function Left(obj: Json, r: Path, q: Path): Option<Json>
    requires r != [] && HasPath(obj, r)
  {
    if r <= q then None
    else if q <= r then
      CutInside(obj, r, q);
      Some(Cut(Walk(obj, q).value, r[|q|..]))
    else Walk(obj, q)
  }

  lemma {:induction false} CutInside(obj: Json, r: Path, q: Path)
    requires q < r && HasPath(obj, r)
    ensures HasPath(obj, q) && HasPath(Walk(obj, q).value, r[|q|..])
    decreases |q|
  {
    if q == [] {
      assert Walk(obj, q) == Some(obj) && r[0..] == r;
    } else {
      hide Step;
      assert q[0] == r[0] && q[1..] < r[1..];
      WalkFirst(obj, r);
      WalkFirst(obj, q);
      CutInside(Step(obj, r[0]).value, r[1..], q[1..]);
      assert r[1..][|q[1..]|..] == r[|q|..];
    }
  }

  lemma PrefixCons(r: Path, q: Path)
    requires r != [] && q != []
    ensures r <= q <==> q[0] == r[0] && r[1..] <= q[1..]
  {
    assert r == [r[0]] + r[1..] && q == [q[0]] + q[1..];
  }

  /** Where r ends at the first element, or the paths part there, only that element matters. */
  lemma StepAfter(obj: Json, r: Path, f: Elem, q: Path)
    requires r != [] && HasPath(obj, r) && Undisturbed(obj, r, [f] + q) && (|r| == 1 || r[0] != f)
    ensures Step(Cut(obj, r), f) == if r == [f] then None else Step(obj, f)
  {
    assert ([f] + q)[0] == f && ([f] + q)[1..] == q;
    UndisturbedExactly(obj, r, [f] + q);
    WalkFirst(obj, r);
    CutShape(obj, r);
    var e := r[0];
    hide Undisturbed;
    if |r| == 1 {
      assert r == [e];
      CutOne(obj, e);
      if !e.Field? && !f.Field? && f != e {
        var at, i := ListIndex(obj.items, e, 0), ListIndex(obj.items, f, 0);
        if i >= 0 {
          WithoutAt(obj.items, at, Shifted(i, at));
        }
      }
    } else {
      CutCons(obj, r);
    }
  }

  lemma StepAlong(obj: Json, r: Path, q: Path)
    requires |r| > 1 && HasPath(obj, r) && q != [] && q[0] == r[0] && Undisturbed(obj, r, q)
    ensures Step(obj, r[0]).Some? && HasPath(Step(obj, r[0]).value, r[1..]) &&
        Undisturbed(Step(obj, r[0]).value, r[1..], q[1..])
    ensures Step(Cut(obj, r), r[0]) == Some(Cut(Step(obj, r[0]).value, r[1..]))
  {
    WalkFirst(obj, r);
    CutShape(obj, r);
    CutCons(obj, r);
    if !r[0].Field? {
      UndisturbedExactly(obj, r, q);
    }
  }

  lemma LeftAlong(obj: Json, r: Path, q: Path)
    requires |r| > 1 && HasPath(obj, r) && q != [] && q[0] == r[0]
    ensures Step(obj, r[0]).Some? && HasPath(Step(obj, r[0]).value, r[1..])
    ensures Left(obj, r, q) == Left(Step(obj, r[0]).value, r[1..], q[1..])
  {
    WalkFirst(obj, r);
    WalkFirst(obj, q);
    PrefixCons(r, q);
    PrefixCons(q, r);
    assert q <= r ==> r[1..][|q[1..]|..] == r[|q|..];
    hide Cut, Step, Walk;
  }

  lemma LeftApart(obj: Json, r: Path, q: Path)
    requires r != [] && HasPath(obj, r) && q != [] && (|r| == 1 || q[0] != r[0])
    ensures Left(obj, r, q) == if r <= q then None else Walk(obj, q)
    ensures r <= q <==> r == [q[0]]
  {
    PrefixCons(r, q);
    PrefixCons(q, r);
    assert |r| == 1 ==> r == [r[0]];
    assert q <= r && |r| == 1 ==> q == r;
    hide Cut, Step, Walk;
  }

  lemma LeftNothing(obj: Json, r: Path)
    requires r != [] && HasPath(obj, r)
    ensures Left(obj, r, []) == Some(Cut(obj, r)) && Walk(Cut(obj, r), []) == Some(Cut(obj, r))
  {
    assert Walk(obj, []) == Some(obj) && r[0..] == r;
  }

  lemma {:induction false} CutWalk(obj: Json, r: Path, q: Path)
    requires r != [] && HasPath(obj, r) && Undisturbed(obj, r, q)
    ensures Walk(Cut(obj, r), q) == Left(obj, r, q)
    decreases |r|
  {
    hide Cut, Step, Left, Undisturbed, Walk;
    if q == [] {
      LeftNothing(obj, r);
    } else {
      WalkFirst(obj, q);
      WalkFirst(Cut(obj, r), q);
      if |r| == 1 || q[0] != r[0] {
        assert [q[0]] + q[1..] == q;
        StepAfter(obj, r, q[0], q[1..]);
        LeftApart(obj, r, q);
      } else {
        StepAlong(obj, r, q);
        CutWalk(Step(obj, r[0]).value, r[1..], q[1..]);
        LeftAlong(obj, r, q);
      }
    }
  }

  lemma LeftHasPath(obj: Json, r: Path, q: Path)
    requires r != [] && HasPath(obj, r)
    ensures Left(obj, r, q).Some? <==> HasPath(obj, q) && !(r <= q)
  {
    if q < r {
      CutInside(obj, r, q);
    }
    hide Cut, Walk;
  }

  /**
   * One removal: what r leads to is gone, what lies above it has lost just that, and every other
   * undisturbed path finds what it found before.
   */
  lemma CutPath(obj: Json, r: Path, q: Path)
    requires r != [] && HasPath(obj, r) && Undisturbed(obj, r, q)
    ensures Walk(Cut(obj, r), q) == Left(obj, r, q)
    ensures HasPath(Cut(obj, r), q) <==> HasPath(obj, q) && !(r <= q)
  {
    hide Cut, Left, Undisturbed;
    CutWalk(obj, r, q);
    LeftHasPath(obj, r, q);
  }

  /** Paths that part at a field before they share a list never disturb each other. */
  lemma {:induction false} PartAtField(obj: Json, r: Path, q: Path, i: nat)
    requires i < |r| && i < |q| && HasPath(obj, r)
    requires r[..i] == q[..i] && r[i] != q[i] && forall j :: 0 <= j <= i ==> r[j].Field?
    ensures Undisturbed(obj, r, q)
    decreases i
  {
    WalkFirst(obj, r);
    if i > 0 {
      assert r[0] == r[..i][0] == q[..i][0] == q[0];
      assert r[1..][..i - 1] == r[..i][1..] && q[1..][..i - 1] == q[..i][1..];
      PartAtField(Step(obj, r[0]).value, r[1..], q[1..], i - 1);
    }
  }

  /* ----- all removals ----- */

  function RemoveAll(obj: Json, removals: seq<Path>): Json {
    if removals == [] then obj else RemovePath(RemoveAll(obj, removals[..|removals| - 1]), removals[|removals| - 1]).0
  }

  /** A removal that leads anywhere in obj leaves q alone. */
  predicate Spares(obj: Json, r: Path, q: Path) {
    r != [] && HasPath(obj, r) ==> Undisturbed(obj, r, q)
  }

  /** Every removal leaves q alone in the object it is made in. */
  predicate AllSpare(obj: Json, removals: seq<Path>, q: Path) {
    forall k :: 0 <= k < |removals| ==> Spares(RemoveAll(obj, removals[..k]), removals[k], q)
  }

  /** A removal leads to the path or above it; the empty path removes nothing. */
  predicate Covered(removals: seq<Path>, q: Path) {
    exists i :: 0 <= i < |removals| && removals[i] != [] && removals[i] <= q
  }

  /** No removal lies at the path, above it or below it. */
  predicate Apart(removals: seq<Path>, q: Path) {
    forall i :: 0 <= i < |removals| ==> removals[i] == [] || !(removals[i] <= q || q <= removals[i])
  }

  lemma CoveredSnoc(removals: seq<Path>, r: Path, q: Path)
    ensures Covered(removals + [r], q) <==> Covered(removals, q) || (r != [] && r <= q)
    ensures Apart(removals + [r], q) <==> Apart(removals, q) && (r == [] || !(r <= q || q <= r))
  {
    var all := removals + [r];
    assert all[|removals|] == r;
    assert forall i :: 0 <= i < |removals| ==> all[i] == removals[i];
  }

  lemma HasPrefix(obj: Json, p: Path, q: Path)
    requires p <= q && HasPath(obj, q)
    ensures HasPath(obj, p)
  {
    assert q[..|p|] == p;
    if !HasPath(obj, p) {
      WalkStops(obj, q, |p|);
    }
  }

  lemma CutStaysObject(obj: Json, r: Path)
    requires obj.Obj? && r != [] && HasPath(obj, r)
    ensures Cut(obj, r).Obj?
  {
    CutShape(obj, r);
  }

  lemma RemoveOne(obj: Json, r: Path, q: Path)
    requires obj.Obj? && Spares(obj, r, q)
    ensures var after := RemovePath(obj, r).0;
            && after.Obj?
            && (HasPath(after, q) <==> HasPath(obj, q) && !(r != [] && r <= q))
            && (r == [] || !(r <= q || q <= r) ==> Walk(after, q) == Walk(obj, q))
  {
    hide Cut, Undisturbed, Walk;
    if r != [] {
      RemovePathCuts(obj, r);
      hide RemovePath;
      if HasPath(obj, r) {
        CutStaysObject(obj, r);
        CutPath(obj, r, q);
      } else if r <= q && HasPath(obj, q) {
        HasPrefix(obj, r, q);
      }
    }
  }

  lemma SpareFewer(obj: Json, removals: seq<Path>, n: nat, q: Path)
    requires n <= |removals| && AllSpare(obj, removals, q)
    ensures AllSpare(obj, removals[..n], q)
  {
    hide Spares, RemoveAll;
    forall k | 0 <= k < n
      ensures Spares(RemoveAll(obj, removals[..n][..k]), removals[..n][k], q)
    {
      assert removals[..n][..k] == removals[..k];
    }
  }

  /**
   * After all removals, in the order they are made, a path exists exactly if it existed and no
   * removal is a prefix of it, and finds what it found if no removal lies below it either.
   */
  lemma {:induction false} RemovalsAreExact(obj: Json, removals: seq<Path>, q: Path)
    requires obj.Obj? && AllSpare(obj, removals, q)
    ensures var after := RemoveAll(obj, removals);
            && after.Obj?
            && (HasPath(after, q) <==> HasPath(obj, q) && !Covered(removals, q))
            && (Apart(removals, q) ==> Walk(after, q) == Walk(obj, q))
  {
    hide RemovePath, HasPath, Covered, Apart, Spares, Walk;
    if removals != [] {
      var n := |removals| - 1;
      var before := RemoveAll(obj, removals[..n]);
      assert Spares(before, removals[n], q);
      SpareFewer(obj, removals, n, q);
      hide AllSpare;
      RemovalsAreExact(obj, removals[..n], q);
      RemoveOne(before, removals[n], q);
      assert removals == removals[..n] + [removals[n]];
      CoveredSnoc(removals[..n], removals[n], q);
    } else {
      NothingRemoved(q);
    }
  }

  lemma NothingRemoved(q: Path)
    ensures !Covered([], q)
  {
  }

  /* ----- an item and the fields removed from it ----- */

  /** Key fields hold no objects and no lists. */
  predicate ScalarKeys(keys: seq<(string, Json)>) {
    forall k :: 0 <= k < |keys| ==> !keys[k].1.Obj? && !keys[k].1.Arr?
  }

  /** The key matches an item that lacks the field but is otherwise as m. */
  predicate MatchesWithout(m: map<string, Json>, keys: seq<(string, Json)>, name: string) {
    && (forall k :: 0 <= k < |keys| && keys[k].0 != name ==> Agrees(m, keys[k]))
    && (exists k :: 0 <= k < |keys| && keys[k].0 != name && keys[k].0 in m)
  }

  lemma KeyMatchesWithout(m: map<string, Json>, keys: seq<(string, Json)>, name: string)
    ensures KeyMatches(m - {name}, keys) <==> MatchesWithout(m, keys, name)
  {
    var w := m - {name};
    forall k | 0 <= k < |keys|
      ensures keys[k].0 in w <==> keys[k].0 != name && keys[k].0 in m
      ensures Agrees(w, keys[k]) <==> keys[k].0 == name || Agrees(m, keys[k])
    {
    }
    hide Agrees;
    if KeyMatches(w, keys) {
      var k :| 0 <= k < |keys| && keys[k].0 in w;
    }
  }

  lemma KeyMatchesBelow(m: map<string, Json>, keys: seq<(string, Json)>, name: string, v: Json)
    requires ScalarKeys(keys) && name in m && (m[name].Obj? || m[name].Arr?) && (v.Obj? || v.Arr?)
    ensures KeyMatches(m[name := v], keys) <==> KeyMatches(m, keys)
  {
    var w := m[name := v];
    forall k | 0 <= k < |keys|
      ensures keys[k].0 in w <==> keys[k].0 in m
      ensures Agrees(w, keys[k]) <==> Agrees(m, keys[k])
    {
    }
    hide Agrees;
    if KeyMatches(w, keys) {
      var k :| 0 <= k < |keys| && keys[k].0 in w;
    }
    if KeyMatches(m, keys) {
      var k :| 0 <= k < |keys| && keys[k].0 in m;
      assert keys[k].0 in w;
    }
  }

  /**
   * What StaysThrough asks of an item, told from the item before: taking away one of its fields
   * makes a key match exactly if its other fields do, and a removal further below makes no difference.
   */
  lemma MatchesAfterCut(item: Json, keys: seq<(string, Json)>, rest: Path)
    requires item.Obj? && ScalarKeys(keys) && rest != [] && HasPath(item, rest)
    ensures rest[0].Field?
    ensures Matches(Cut(item, rest), 0, Key(keys)) <==>
              if |rest| == 1 then MatchesWithout(item.fields, keys, rest[0].name) else KeyMatches(item.fields, keys)
  {
    CutShape(item, rest);
    WalkFirst(item, rest);
    var name := rest[0].name;
    if |rest| == 1 {
      assert rest == [rest[0]];
      CutOne(item, rest[0]);
      KeyMatchesWithout(item.fields, keys, name);
    } else {
      CutCons(item, rest);
      CutShape(item.fields[name], rest[1..]);
      KeyMatchesBelow(item.fields, keys, name, Cut(item.fields[name], rest[1..]));
    }
  }

  /* ----- why the key fields must be spared ----- */

  const UDP := Key([("port", Num(80.0)), ("proto", Str("UDP"))])
  const TCP := Key([("port", Num(80.0)), ("proto", Str("TCP"))])
  const DNS := map["port" := Num(80.0), "proto" := Str("UDP")]
  const WEB := map["port" := Num(80.0), "proto" := Str("TCP"), "name" := Str("web")]
  const BARE := map["port" := Num(80.0)]
  const SERVICE := Obj(map["ports" := Arr([Obj(DNS), Obj(WEB)])])
  const AFTER := Obj(map["ports" := Arr([Obj(BARE), Obj(WEB)])])

  lemma PortsMatch()
    ensures Matches(Obj(DNS), 0, UDP) && !Matches(Obj(DNS), 0, TCP) && Matches(Obj(WEB), 1, TCP) &&
        Matches(Obj(BARE), 0, TCP)
    ensures ListIndex([Obj(DNS), Obj(WEB)], UDP, 0) == 0 && ListIndex([Obj(DNS), Obj(WEB)], TCP, 0) == 1
    ensures ListIndex([Obj(BARE), Obj(WEB)], TCP, 0) == 0
  {
    assert UDP.keys[0].0 in DNS && TCP.keys[0].0 in WEB && TCP.keys[0].0 in BARE;
    assert TCP.keys[1].0 in DNS && !Agrees(DNS, TCP.keys[1]);
  }

  lemma WalkThree(obj: Json, a: Elem, b: Elem, c: Elem)
    ensures Walk(obj, [a, b, c]) ==
              if Step(obj, a).None? then None
              else if Step(Step(obj, a).value, b).None? then None
              else Step(Step(Step(obj, a).value, b).value, c)
  {
    hide Step;
    assert [a, b, c][..2] == [a, b] && [a, b][..1] == [a] && [a][..0] == [];
    assert Walk(obj, []) == Some(obj);
    assert Walk(obj, [a]) == Step(obj, a);
  }

  lemma MisleadCut()
    ensures RemovePath(SERVICE, [Field("ports"), UDP, Field("proto")]) == (AFTER, true)
  {
    hide Matches, ListIndex, RemovePath, Cut;
    PortsMatch();
    var r := [Field("ports"), UDP, Field("proto")];
    var items := [Obj(DNS), Obj(WEB)];
    WalkThree(SERVICE, r[0], r[1], r[2]);
    RemovePathCuts(SERVICE, r);
    assert r[1..] == [UDP, Field("proto")] && r[1..][1..] == [Field("proto")];
    CutCons(SERVICE, r);
    CutCons(Arr(items), r[1..]);
    CutOne(Obj(DNS), Field("proto"));
    assert DNS - {"proto"} == BARE;
    assert Cut(Obj(DNS), [Field("proto")]) == Obj(BARE);
    assert items[0 := Obj(BARE)] == [Obj(BARE), Obj(WEB)];
    assert Cut(Arr(items), r[1..]) == Arr([Obj(BARE), Obj(WEB)]);
    assert SERVICE.fields["ports" := Arr([Obj(BARE), Obj(WEB)])] == AFTER.fields;
  }

  /**
   * Removing the field that tells two items apart makes the path of one item lead to the
   * other, so a path vanishes that no removal covers.
   */
  lemma RemovedKeyFieldMisleads()
    ensures var r, q := [Field("ports"), UDP, Field("proto")], [Field("ports"), TCP, Field("name")];
            && HasPath(SERVICE, q) && !(r <= q) && !HasPath(RemovePath(SERVICE, r).0, q)
            && HasPath(SERVICE, r) && !Undisturbed(SERVICE, r, q)
  {
    hide Matches, ListIndex, RemovePath;
    PortsMatch();
    MisleadCut();
    WalkThree(SERVICE, Field("ports"), TCP, Field("name"));
    WalkThree(AFTER, Field("ports"), TCP, Field("name"));
    assert UDP.keys[1] != TCP.keys[1];
    var r, q := [Field("ports"), UDP, Field("proto")], [Field("ports"), TCP, Field("name")];
    WalkThree(SERVICE, Field("ports"), UDP, Field("proto"));
    hide HasPath, Walk, Undisturbed;
    RemoveDisturbs(SERVICE, r, q);
  }

  lemma RemoveDisturbs(obj: Json, r: Path, q: Path)
    requires obj.Obj? && r != [] && HasPath(obj, r) && HasPath(obj, q) && !(r <= q) && !HasPath(RemovePath(obj, r).0, q)
    ensures !Undisturbed(obj, r, q)
  {
    hide HasPath, RemovePath, Undisturbed;
    if Undisturbed(obj, r, q) {
      RemoveOne(obj, r, q);
    }
  }
}
