/** A condition on the object before any removal under which no removal disturbs a path. */
module SteadyPaths {
  import opened FieldRemovals
  import opened RemovalLaws

  /** The elements that managed fields use other than positions; keys and values hold no objects and no lists. */
  predicate PlainElem(e: Elem) {
    match e
    case Field(_) => true
    case Key(keys) => ScalarKeys(keys)
    case Value(v) => !v.Obj? && !v.Arr?
    case Index(_) => false
  }

  /** The removals that lead to e, as they go on from there. */
  function Tails(removals: set<Path>, e: Elem): set<Path> {
    set p: Path | p in removals && p != [] && p[0] == e :: p[1..]
  }

  function Heads(removals: set<Path>): set<Elem> {
    set p: Path | p in removals && p != [] :: p[0]
  }

  /** The fields that removals take from an item of a list. */
  function Taken(removals: set<Path>, item: Json): set<string> {
    set p: Path | p in removals && |p| == 2 && p[1].Field? && Matches(item, 0, p[0]) :: p[1].name
  }

  /**
   * Whichever of the taken fields are gone, the key matches as it does now: a field that stays
   * is there to match it, or to tell it apart.
   */
  predicate KeySteady(m: map<string, Json>, keys: seq<(string, Json)>, taken: set<string>) {
    if KeyMatches(m, keys) then
      exists k :: 0 <= k < |keys| && keys[k].0 in m && keys[k].0 !in taken
    else
      || (exists k :: 0 <= k < |keys| && keys[k].0 !in taken && !Agrees(m, keys[k]))
      || (forall k :: 0 <= k < |keys| ==> keys[k].0 !in m)
  }

  predicate ItemSteady(item: Json, e: Elem, taken: set<string>) {
    PlainElem(e) && (e.Key? && item.Obj? ==> KeySteady(item.fields, e.keys, taken))
  }

  /** In this list f finds one item, which no removal reaches by another element, and removals change no match. */
  predicate ListSteady(l: seq<Json>, removals: set<Path>, f: Elem) {
    && (forall i, j :: 0 <= i < |l| && 0 <= j < |l| && Matches(l[i], i, f) && Matches(l[j], j, f) ==> i == j)
    && (forall e, j :: e in Heads(removals) && 0 <= j < |l| && Matches(l[j], j, e) && Matches(l[j], j, f) ==> e == f)
    && (forall e, j :: e in Heads(removals) + {f} && 0 <= j < |l| ==> ItemSteady(l[j], e, Taken(removals, l[j])))
    && (forall e :: e in Heads(removals) + {f} ==> PlainElem(e))
  }

  /** Along the path q, every list that removals reach too is steady; lists elsewhere do not matter. */
  predicate Steady(obj: Json, removals: set<Path>, q: Path) {
    if q == [] || removals == {} then true else
    && (obj.Arr? && !q[0].Field? ==> ListSteady(obj.items, removals, q[0]))
    && (Step(obj, q[0]).Some? ==> Steady(Step(obj, q[0]).value, Tails(removals, q[0]), q[1..]))
  }

  /** The element tells items apart by this one field. */
  predicate NamedBy(e: Elem, key: string) {
    e.Key? && |e.keys| == 1 && e.keys[0].0 == key && ScalarKeys(e.keys)
  }

  /** Every item has the field, each its own value. */
  predicate NamesDistinct(l: seq<Json>, key: string) {
    && (forall i :: 0 <= i < |l| ==> l[i].Obj? && key in l[i].fields)
    && (forall i, j :: 0 <= i < j < |l| ==> l[i].fields[key] != l[j].fields[key])
  }

  /**
   * The ordinary list, such as containers by name or mounts by mountPath: the items have
   * distinct names, and no removal takes a name. What other lists hold under that name does not matter.
   */
  lemma NamedListIsSteady(l: seq<Json>, removals: set<Path>, f: Elem, key: string)
    requires NamesDistinct(l, key) && NamedBy(f, key) && forall e :: e in Heads(removals) ==> NamedBy(e, key)
    requires forall p :: p in removals && |p| == 2 ==> p[1] != Field(key)
    ensures ListSteady(l, removals, f)
  {
    forall e, j | NamedBy(e, key) && 0 <= j < |l|
      ensures Matches(l[j], j, e) <==> e == Key([(key, l[j].fields[key])])
    {
      NamedMatches(l[j], j, e, key);
    }
    hide Matches, KeyMatches;
    forall e, j | NamedBy(e, key) && 0 <= j < |l|
      ensures ItemSteady(l[j], e, Taken(removals, l[j]))
    {
      assert key !in Taken(removals, l[j]);
      assert e.keys[0].0 == key;
      NamedSteady(l[j].fields, e.keys, Taken(removals, l[j]), key);
    }
    hide ItemSteady, Taken;
  }

  lemma NamedMatches(item: Json, i: nat, e: Elem, key: string)
    requires NamedBy(e, key) && item.Obj? && key in item.fields
    ensures Matches(item, i, e) <==> e == Key([(key, item.fields[key])])
  {
    assert e.keys[0].0 in item.fields;
    assert e.keys == [e.keys[0]];
  }

  lemma NamedSteady(m: map<string, Json>, keys: seq<(string, Json)>, taken: set<string>, key: string)
    requires |keys| == 1 && keys[0].0 == key && key in m && key !in taken
    ensures KeySteady(m, keys, taken)
  {
    assert keys[0].0 in m && keys[0].0 !in taken;
    if !KeyMatches(m, keys) {
      assert !Agrees(m, keys[0]);
    }
  }

  /* ----- one item ----- */

  lemma KeyWithoutSteady(m: map<string, Json>, keys: seq<(string, Json)>, taken: set<string>, name: string)
    requires KeySteady(m, keys, taken) && name in taken
    ensures KeyMatches(m - {name}, keys) <==> KeyMatches(m, keys)
    ensures KeySteady(m - {name}, keys, taken)
  {
    var w := m - {name};
    KeyMatchesWithout(m, keys, name);
    assert forall k :: 0 <= k < |keys| && keys[k].0 !in taken ==> (keys[k].0 in w <==> keys[k].0 in m);
    assert forall k :: 0 <= k < |keys| && keys[k].0 !in taken ==> (Agrees(w, keys[k]) <==> Agrees(m, keys[k]));
    hide Agrees;
    if KeyMatches(m, keys) {
      var k :| 0 <= k < |keys| && keys[k].0 in m && keys[k].0 !in taken;
      assert keys[k].0 in w;
    } else if k :| 0 <= k < |keys| && keys[k].0 !in taken && !Agrees(m, keys[k]) {
      assert !Agrees(w, keys[k]);
    }
  }

  lemma KeyBelowSteady(m: map<string, Json>, keys: seq<(string, Json)>, taken: set<string>, name: string, v: Json)
    requires KeySteady(m, keys, taken) && ScalarKeys(keys)
    requires name in m && (m[name].Obj? || m[name].Arr?) && (v.Obj? || v.Arr?)
    ensures KeyMatches(m[name := v], keys) <==> KeyMatches(m, keys)
    ensures KeySteady(m[name := v], keys, taken)
  {
    var w := m[name := v];
    KeyMatchesBelow(m, keys, name, v);
    forall k | 0 <= k < |keys|
      ensures keys[k].0 in w <==> keys[k].0 in m
      ensures Agrees(w, keys[k]) <==> Agrees(m, keys[k])
    {
    }
    hide Agrees;
    if KeyMatches(m, keys) {
      var k :| 0 <= k < |keys| && keys[k].0 in m && keys[k].0 !in taken;
      assert keys[k].0 in w;
    } else if k :| 0 <= k < |keys| && keys[k].0 !in taken && !Agrees(m, keys[k]) {
      assert !Agrees(w, keys[k]);
    }
  }

  /** A removal below a steady item changes no match, and leaves it steady. */
  lemma CutItem(item: Json, rest: Path, g: Elem, taken: set<string>)
    requires item.Obj? && rest != [] && HasPath(item, rest) && ItemSteady(item, g, taken)
    requires |rest| == 1 && rest[0].Field? ==> rest[0].name in taken
    ensures Matches(Cut(item, rest), 0, g) <==> Matches(item, 0, g)
    ensures ItemSteady(Cut(item, rest), g, taken) && Cut(item, rest).Obj?
  {
    CutShape(item, rest);
    WalkFirst(item, rest);
    var name := rest[0].name;
    if |rest| == 1 {
      assert rest == [rest[0]];
      CutOne(item, rest[0]);
      if g.Key? {
        KeyWithoutSteady(item.fields, g.keys, taken, name);
      }
    } else {
      CutCons(item, rest);
      CutShape(item.fields[name], rest[1..]);
      if g.Key? {
        KeyBelowSteady(item.fields, g.keys, taken, name, Cut(item.fields[name], rest[1..]));
      }
    }
  }

  lemma SameTaken(removals: set<Path>, a: Json, b: Json)
    requires forall e :: e in Heads(removals) ==> (Matches(a, 0, e) <==> Matches(b, 0, e))
    ensures Taken(removals, a) == Taken(removals, b)
  {
    hide Matches;
    assert forall p :: p in removals && p != [] ==> p[0] in Heads(removals);
  }

  /* ----- one list ----- */

  /** What a removal below an item needs of the list it is in. */
  lemma ItemIsObject(item: Json, e: Elem, rest: Path)
    requires PlainElem(e) && Matches(item, 0, e) && rest != [] && HasPath(item, rest)
    ensures item.Obj? && rest[0].Field?
  {
    WalkFirst(item, rest);
  }

  lemma TakenHolds(removals: set<Path>, item: Json, e: Elem, rest: Path)
    requires [e] + rest in removals && |rest| == 1 && rest[0].Field? && Matches(item, 0, e)
    ensures rest[0].name in Taken(removals, item)
  {
    hide Matches;
    var p := [e] + rest;
    assert p in removals && |p| == 2 && p[0] == e && p[1] == rest[0];
  }

  lemma HeadHolds(removals: set<Path>, e: Elem, rest: Path)
    requires [e] + rest in removals
    ensures e in Heads(removals) && rest in Tails(removals, e)
  {
    var p := [e] + rest;
    assert p in removals && p[0] == e && p[1..] == rest;
  }

  lemma PlainMatches(item: Json, i: nat, e: Elem)
    requires PlainElem(e)
    ensures Matches(item, i, e) <==> Matches(item, 0, e)
  {
  }

  /** A removal below one item changes what no element matches. */
  lemma ListCut(l: seq<Json>, removals: set<Path>, f: Elem, e: Elem, rest: Path, at: nat)
    requires ListSteady(l, removals, f) && [e] + rest in removals && rest != []
    requires at < |l| && Matches(l[at], 0, e) && HasPath(l[at], rest)
    ensures forall g :: g in Heads(removals) + {f} ==> (Matches(Cut(l[at], rest), 0, g) <==> Matches(l[at], 0, g))
    ensures forall g :: g in Heads(removals) + {f} ==> ItemSteady(Cut(l[at], rest), g, Taken(removals, l[at]))
  {
    hide Matches, ItemSteady, Taken, HasPath;
    HeadHolds(removals, e, rest);
    ItemIsObject(l[at], e, rest);
    if |rest| == 1 {
      TakenHolds(removals, l[at], e, rest);
    }
    forall g | g in Heads(removals) + {f}
      ensures Matches(Cut(l[at], rest), 0, g) <==> Matches(l[at], 0, g)
      ensures ItemSteady(Cut(l[at], rest), g, Taken(removals, l[at]))
    {
      CutItem(l[at], rest, g, Taken(removals, l[at]));
    }
  }

  ghost predicate SameForAll(l: seq<Json>, w: seq<Json>, removals: set<Path>, f: Elem) {
    && |l| == |w|
    && (forall j, g :: 0 <= j < |l| && g in Heads(removals) + {f} ==> (Matches(w[j], j, g) <==> Matches(l[j], j, g)))
    && (forall j, g :: 0 <= j < |l| && g in Heads(removals) + {f} ==> ItemSteady(w[j], g, Taken(removals, w[j])))
  }

  lemma SameStaysSteady(l: seq<Json>, w: seq<Json>, removals: set<Path>, f: Elem)
    requires ListSteady(l, removals, f) && SameForAll(l, w, removals, f)
    ensures ListSteady(w, removals, f)
  {
    hide Matches, ItemSteady, Taken, PlainElem, Heads;
    assert f in Heads(removals) + {f};
    forall j | 0 <= j < |l|
      ensures Matches(w[j], j, f) <==> Matches(l[j], j, f)
      ensures forall e :: e in Heads(removals) ==> (Matches(w[j], j, e) <==> Matches(l[j], j, e))
    {
      assert forall e :: e in Heads(removals) ==> e in Heads(removals) + {f};
    }
  }

  lemma SameForAllCut(l: seq<Json>, removals: set<Path>, f: Elem, e: Elem, rest: Path, at: nat)
    requires ListSteady(l, removals, f) && [e] + rest in removals && rest != []
    requires at < |l| && Matches(l[at], 0, e) && HasPath(l[at], rest)
    ensures SameForAll(l, l[at := Cut(l[at], rest)], removals, f)
  {
    hide HasPath;
    ListCut(l, removals, f, e, rest, at);
    var v := Cut(l[at], rest);
    var w := l[at := v];
    SameTaken(removals, v, l[at]);
    assert forall g :: g in Heads(removals) + {f} ==> PlainElem(g);
    hide Matches, ItemSteady, Taken, PlainElem, Heads;
    forall j, g | 0 <= j < |l| && g in Heads(removals) + {f}
      ensures Matches(w[j], j, g) <==> Matches(l[j], j, g)
      ensures ItemSteady(w[j], g, Taken(removals, w[j]))
    {
      PlainMatches(w[j], j, g);
      PlainMatches(l[j], j, g);
    }
  }

  lemma ListReplaced(l: seq<Json>, removals: set<Path>, f: Elem, e: Elem, rest: Path)
    requires ListSteady(l, removals, f) && [e] + rest in removals && rest != []
    requires ListIndex(l, e, 0) >= 0 && HasPath(l[ListIndex(l, e, 0)], rest)
    ensures var at := ListIndex(l, e, 0);
            var v := Cut(l[at], rest);
            && ListSteady(l[at := v], removals, f)
            && Matches(v, at, e)
            && StaysThrough(l, at, v, f)
            && (f != e ==> ListIndex(l, f, 0) != at)
  {
    var at := ListIndex(l, e, 0);
    HeadHolds(removals, e, rest);
    assert PlainElem(e) && Matches(l[at], at, e);
    PlainMatches(l[at], at, e);
    SameForAllCut(l, removals, f, e, rest, at);
    var w := l[at := Cut(l[at], rest)];
    SameStaysSteady(l, w, removals, f);
    hide HasPath, Matches, ItemSteady, Taken, PlainElem, Heads, Cut;
    SameAt(l, w, removals, f, e, at);
    SameAt(l, w, removals, f, f, at);
  }

  lemma SameAt(l: seq<Json>, w: seq<Json>, removals: set<Path>, f: Elem, g: Elem, j: nat)
    requires SameForAll(l, w, removals, f) && j < |l| && (g in Heads(removals) || g == f)
    ensures Matches(w[j], j, g) <==> Matches(l[j], j, g)
  {
    hide Matches, ItemSteady, Taken, Heads;
    assert g in Heads(removals) + {f};
  }

  lemma ListShortened(l: seq<Json>, removals: set<Path>, f: Elem, at: nat)
    requires ListSteady(l, removals, f) && at < |l|
    ensures ListSteady(Without(l, at), removals, f)
  {
    hide Matches, ItemSteady, Taken, PlainElem, Heads;
    var w := Without(l, at);
    forall j: nat | j < |w|
      ensures w[j] == l[if j < at then j else j + 1]
      ensures forall g :: g in Heads(removals) + {f} ==> (Matches(w[j], j, g) <==>
          Matches(w[j], if j < at then j else j + 1, g))
    {
      WithoutAt(l, at, j);
      forall g | g in Heads(removals) + {f}
        ensures Matches(w[j], j, g) <==> Matches(w[j], if j < at then j else j + 1, g)
      {
        PlainMatches(w[j], j, g);
        PlainMatches(w[j], if j < at then j else j + 1, g);
      }
    }
  }

  lemma ListDropped(l: seq<Json>, removals: set<Path>, f: Elem, e: Elem)
    requires ListSteady(l, removals, f) && e in Heads(removals) && ListIndex(l, e, 0) >= 0
    ensures var at := ListIndex(l, e, 0);
            && ListSteady(Without(l, at), removals, f)
            && (if f == e then OnlyMatch(l, at, e) else StaysBeside(l, at, f))
  {
    var at := ListIndex(l, e, 0);
    ListShortened(l, removals, f, at);
    hide ListSteady;
    assert ListSteady(l, removals, f);
    ListDroppedApart(l, removals, f, e, at);
  }

  lemma ListDroppedApart(l: seq<Json>, removals: set<Path>, f: Elem, e: Elem, at: nat)
    requires ListSteady(l, removals, f) && e in Heads(removals) && ListIndex(l, e, 0) == at < |l|
    ensures if f == e then OnlyMatch(l, at, e) else StaysBeside(l, at, f)
  {
    hide Matches, ItemSteady, Taken, Heads;
    assert PlainElem(f);
    if f == e {
      forall j | at < j < |l|
        ensures !Matches(l[j], j - 1, e)
      {
        PlainMatches(l[j], j, e);
        PlainMatches(l[j], j - 1, e);
      }
    }
  }

  /* ----- along a path ----- */

  lemma CutUndisturbed(obj: Json, removals: set<Path>, r: Path, q: Path)
    requires q != [] && Steady(obj, removals, q) && r in removals && r != [] && HasPath(obj, r)
    requires |r| > 1 && q[0] == r[0] ==>
               && Step(obj, r[0]).Some? && HasPath(Step(obj, r[0]).value, r[1..])
               && Undisturbed(Step(obj, r[0]).value, r[1..], q[1..])
    ensures Undisturbed(obj, r, q)
    ensures obj.Arr? && !q[0].Field? ==> Cut(obj, r).Arr? && ListSteady(Cut(obj, r).items, removals, q[0])
  {
    WalkFirst(obj, r);
    CutShape(obj, r);
    var e, f, rest := r[0], q[0], r[1..];
    assert [e] + rest == r;
    HeadHolds(removals, e, rest);
    hide HasPath, ListSteady, StaysThrough, StaysBeside, OnlyMatch;
    if rest == [] {
      assert r == [e];
      CutOne(obj, e);
      if !e.Field? && !f.Field? {
        ListDropped(obj.items, removals, f, e);
      }
    } else {
      CutCons(obj, r);
      if !e.Field? && !f.Field? {
        ListReplaced(obj.items, removals, f, e, rest);
      }
    }
  }

  /** Every removal among them leaves a steady path alone, and leaves it steady. */
  lemma {:induction false} CutSteady(obj: Json, removals: set<Path>, r: Path, q: Path)
    requires Steady(obj, removals, q) && r in removals && r != [] && HasPath(obj, r)
    ensures Undisturbed(obj, r, q) && Steady(Cut(obj, r), removals, q)
    decreases |q|
  {
    if q != [] {
      WalkFirst(obj, r);
      CutShape(obj, r);
      var e, f, rest := r[0], q[0], r[1..];
      assert [e] + rest == r && [f] + q[1..] == q;
      HeadHolds(removals, e, rest);
      hide HasPath, ListSteady, Cut, Undisturbed, Step;
      if e == f && rest != [] {
        CutSteady(Step(obj, e).value, Tails(removals, e), rest, q[1..]);
        CutUndisturbed(obj, removals, r, q);
        StepAlong(obj, r, q);
      } else {
        CutUndisturbed(obj, removals, r, q);
        StepAfter(obj, r, f, q[1..]);
      }
    }
  }

  /* ----- all removals ----- */

  function AsSet(removals: seq<Path>): set<Path> {
    set p | p in removals
  }

  lemma RemoveSteady(obj: Json, removals: set<Path>, r: Path, q: Path)
    requires obj.Obj? && Steady(obj, removals, q) && r in removals
    ensures Spares(obj, r, q)
    ensures RemovePath(obj, r).0.Obj? && Steady(RemovePath(obj, r).0, removals, q)
  {
    hide Steady, Undisturbed, Cut, HasPath;
    if r != [] {
      RemovePathCuts(obj, r);
      hide RemovePath;
      if HasPath(obj, r) {
        CutStaysObject(obj, r);
        CutSteady(obj, removals, r, q);
      }
    }
  }

  lemma {:induction false} RunSteady(obj: Json, removals: seq<Path>, all: set<Path>, q: Path)
    requires obj.Obj? && Steady(obj, all, q) && AsSet(removals) <= all
    ensures AllSpare(obj, removals, q)
    ensures RemoveAll(obj, removals).Obj? && Steady(RemoveAll(obj, removals), all, q)
  {
    hide Steady, Spares, RemovePath;
    if removals != [] {
      var n := |removals| - 1;
      assert removals[n] in AsSet(removals);
      RunSteady(obj, removals[..n], all, q);
      var before := RemoveAll(obj, removals[..n]);
      RemoveSteady(before, all, removals[n], q);
      hide RemoveAll;
      forall k | 0 <= k < |removals|
        ensures Spares(RemoveAll(obj, removals[..k]), removals[k], q)
      {
        if k < n {
          assert removals[..n][..k] == removals[..k];
          assert Spares(RemoveAll(obj, removals[..n][..k]), removals[..n][k], q);
        }
      }
    }
  }

  /**
   * Told from the object before any removal: along a steady path, exactly what no removal is a
   * prefix of is left.
   */
  lemma SteadyPathsAreExact(obj: Json, removals: seq<Path>, q: Path)
    requires obj.Obj? && Steady(obj, AsSet(removals), q)
    ensures AllSpare(obj, removals, q)
    ensures HasPath(RemoveAll(obj, removals), q) <==> HasPath(obj, q) && !Covered(removals, q)
  {
    hide Steady, AllSpare, HasPath, Covered;
    RunSteady(obj, removals, AsSet(removals), q);
    RemovalsAreExact(obj, removals, q);
  }
}
