/** What a server-side apply removes: paths in JSON objects, looked up, owned and cut out. */
module FieldRemovals {
  import opened Text

  datatype Json =
    Null | Bool(b: bool) | Num(n: real) | Str(s: string) | Obj(fields: map<string, Json>) | Arr(items: seq<Json>)

  /** An element of a managed field path: a field name, or an item told by key fields, by value or by position. */
  datatype Elem = Field(name: string) | Key(keys: seq<(string, Json)>) | Value(v: Json) | Index(i: int)

  type Path = seq<Elem>

  /* ----- looking up ----- */

  predicate Agrees(m: map<string, Json>, key: (string, Json)) {
    key.0 in m ==> m[key.0] == key.1
  }

  /** Server-defaulted key fields may be missing from the item, but not all of them. */
  predicate KeyMatches(m: map<string, Json>, keys: seq<(string, Json)>) {
    (forall k :: 0 <= k < |keys| ==> Agrees(m, keys[k])) && exists k :: 0 <= k < |keys| && keys[k].0 in m
  }

  predicate Matches(item: Json, at: nat, e: Elem) {
    match e
    case Field(_) => false
    case Key(keys) => item.Obj? && KeyMatches(item.fields, keys)
    case Value(v) => item == v
    case Index(i) => at == i
  }

  /** The first item from position from on that matches, or -1. */
  function ListIndex(l: seq<Json>, e: Elem, from: nat): (r: int)
    requires from <= |l|
    ensures r == -1 || (from <= r < |l| && Matches(l[r], r, e))
    ensures forall i :: from <= i < |l| && (r == -1 || i < r) ==> !Matches(l[i], i, e)
    decreases |l| - from
  {
    if from == |l| then -1 else if Matches(l[from], from, e) then from else ListIndex(l, e, from + 1)
  }

  function Step(cur: Json, e: Elem): Option<Json> {
    if e.Field? then
      if cur.Obj? && e.name in cur.fields then Some(cur.fields[e.name]) else None
    else
      if cur.Arr? && ListIndex(cur.items, e, 0) >= 0 then Some(cur.items[ListIndex(cur.items, e, 0)]) else None
  }

  function Walk(obj: Json, p: Path): Option<Json> {
    if p == [] then Some(obj) else
    match Walk(obj, p[..|p| - 1])
    case None => None
    case Some(cur) => Step(cur, p[|p| - 1])
  }

  predicate HasPath(obj: Json, p: Path) {
    Walk(obj, p).Some?
  }

  method KeyMatchesLoop(m: map<string, Json>, keys: seq<(string, Json)>) returns (found: bool)
    ensures found == KeyMatches(m, keys)
    ensures found <==>
            && (forall k :: 0 <= k < |keys| && keys[k].0 in m ==> m[keys[k].0] == keys[k].1)
            && exists k :: 0 <= k < |keys| && keys[k].0 in m
  {
    var matched, fits := 0, true;
    for k := 0 to |keys|
      invariant fits && forall j :: 0 <= j < k ==> Agrees(m, keys[j])
      invariant matched > 0 <==> exists j :: 0 <= j < k && keys[j].0 in m
    {
      if keys[k].0 !in m {
        continue;
      }
      if m[keys[k].0] != keys[k].1 {
        fits := false;
        assert !Agrees(m, keys[k]);
        return false;
      }
      matched := matched + 1;
    }
    return fits && matched > 0;
  }

  /** The item at i is the one the element names. */
  predicate SelectedBy(item: Json, i: nat, e: Elem) {
    && (e.Field? ==> false)
    && (e.Key? ==> item.Obj? && KeyMatches(item.fields, e.keys))
    && (e.Value? ==> item == e.v)
    && (e.Index? ==> i == e.i)
  }

  /** The first such item, or -1. */
  predicate FirstSelected(l: seq<Json>, e: Elem, r: int) {
    && -1 <= r < |l| && (r >= 0 ==> SelectedBy(l[r], r, e))
    && forall i :: 0 <= i < |l| && (r == -1 || i < r) ==> !SelectedBy(l[i], i, e)
  }

  lemma SelectsFirst(l: seq<Json>, e: Elem)
    ensures FirstSelected(l, e, ListIndex(l, e, 0))
  {
    hide KeyMatches;
    forall i | 0 <= i < |l|
      ensures SelectedBy(l[i], i, e) <==> Matches(l[i], i, e)
    {
    }
  }

  method ListIndexLoop(l: seq<Json>, e: Elem) returns (r: int)
    ensures r == ListIndex(l, e, 0) && FirstSelected(l, e, r)
  {
    SelectsFirst(l, e);
    for i := 0 to |l|
      invariant ListIndex(l, e, 0) == ListIndex(l, e, i)
    {
      match e {
        case Key(keys) =>
          if l[i].Obj? {
            var fits := KeyMatchesLoop(l[i].fields, keys);
            if fits {
              return i;
            }
          }
        case Value(v) =>
          if l[i] == v {
            return i;
          }
        case Index(at) =>
          if at == i {
            return i;
          }
        case Field(_) =>
      }
    }
    return -1;
  }

  method StepAt(cur: Json, e: Elem) returns (next: Option<Json>)
    ensures next == Step(cur, e)
  {
    if e.Field? {
      if !cur.Obj? || e.name !in cur.fields {
        return None;
      }
      return Some(cur.fields[e.name]);
    }
    if !cur.Arr? {
      return None;
    }
    var i := ListIndexLoop(cur.items, e);
    if i < 0 {
      return None;
    }
    return Some(cur.items[i]);
  }

  method WalkLoop(obj: Json, p: Path) returns (r: Option<Json>)
    ensures r == Walk(obj, p)
  {
    hide Step;
    var cur := obj;
    for i := 0 to |p|
      invariant Walk(obj, p[..i]) == Some(cur)
    {
      assert p[..i + 1][..i] == p[..i];
      var next := StepAt(cur, p[i]);
      if next.None? {
        WalkStops(obj, p, i + 1);
        return None;
      }
      cur := next.value;
    }
    assert p[..|p|] == p;
    return Some(cur);
  }

  /** A path exists only if all its prefixes do. */
  lemma {:induction false} WalkStops(obj: Json, p: Path, i: nat)
    requires i <= |p| && Walk(obj, p[..i]).None?
    ensures Walk(obj, p).None?
  {
    if i < |p| {
      var q := p[..|p| - 1];
      assert p[..i] == q[..i];
      WalkStops(obj, q, i);
    } else {
      assert p[..i] == p;
    }
  }

  /* ----- cutting out ----- */

  function Without(l: seq<Json>, i: nat): seq<Json>
    requires i < |l|
  {
    l[..i] + l[i + 1..]
  }

  /** The child at e replaced by v, where there is one. */
  function Replace(cur: Json, e: Elem, v: Json): Json
    requires Step(cur, e).Some?
  {
    if e.Field? then Obj(cur.fields[e.name := v]) else Arr(cur.items[ListIndex(cur.items, e, 0) := v])
  }

  /** An assignment at the end of a path: what changing the object found there does to the whole. */
  function Put(obj: Json, p: Path, v: Json): Json
    requires HasPath(obj, p)
  {
    if p == [] then v else
    var q := p[..|p| - 1];
    assert HasPath(obj, q) by { WalkPrefix(obj, p); }
    Put(obj, q, Replace(Walk(obj, q).value, p[|p| - 1], v))
  }

  lemma WalkPrefix(obj: Json, p: Path)
    requires p != [] && HasPath(obj, p)
    ensures HasPath(obj, p[..|p| - 1]) && Step(Walk(obj, p[..|p| - 1]).value, p[|p| - 1]) == Walk(obj, p)
  {
  }

  function SetInParent(obj: Json, p: Path, v: Json): (Json, bool) {
    if p == [] then (obj, false) else
    var q, last := p[..|p| - 1], p[|p| - 1];
    var parent := Walk(obj, q);
    if parent.None? then (obj, false)
    else if last.Field? then
      if parent.value.Obj? then (Put(obj, q, Obj(parent.value.fields[last.name := v])), true) else (obj, false)
    else if !parent.value.Arr? then (obj, false)
    else
      var i := ListIndex(parent.value.items, last, 0);
      if i < 0 then (obj, false) else (Put(obj, q, Arr(parent.value.items[i := v])), true)
  }

  function RemovePath(obj: Json, p: Path): (Json, bool) {
    if p == [] then (obj, false) else
    var q, last := p[..|p| - 1], p[|p| - 1];
    var parent := Walk(obj, q);
    if parent.None? then (obj, false)
    else if last.Field? then
      if parent.value.Obj? && last.name in parent.value.fields then
        (Put(obj, q, Obj(parent.value.fields - {last.name})), true)
      else (obj, false)
    else if !parent.value.Arr? then (obj, false)
    else
      var i := ListIndex(parent.value.items, last, 0);
      if i < 0 then (obj, false) else SetInParent(obj, q, Arr(Without(parent.value.items, i)))
  }

  /** The object without what is at the end of the path. */
  function Cut(obj: Json, p: Path): Json
    requires p != [] && HasPath(obj, p)
  {
    var q, last := p[..|p| - 1], p[|p| - 1];
    assert HasPath(obj, q) by { WalkPrefix(obj, p); }
    var parent := Walk(obj, q).value;
    Put(obj, q, if last.Field? then Obj(parent.fields - {last.name})
      else Arr(Without(parent.items, ListIndex(parent.items, last, 0))))
  }

  /**
   * Removal works exactly where the path exists; anywhere else it reports false and changes
   * nothing. The list of an item is never the object itself.
   */
  lemma RemovePathCuts(obj: Json, p: Path)
    requires obj.Obj? && p != []
    ensures RemovePath(obj, p) == if HasPath(obj, p) then (Cut(obj, p), true) else (obj, false)
  {
    var q, last := p[..|p| - 1], p[|p| - 1];
    if HasPath(obj, p) && !last.Field? {
      WalkPrefix(obj, p);
      assert Walk(obj, []) == Some(obj);
      assert q == [] ==> Step(obj, last).None?;
      WalkPrefix(obj, q);
    }
  }
}
