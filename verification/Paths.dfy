/** Slash-separated paths: path.Clean, filepath.Join and what it means that a directory contains a path. */
module Paths {

  /** strings.Split(s, "/"): never empty. */
  function Segments(s: string): (r: seq<string>)
    ensures r != []
  {
    if s == "" then [""]
    else
      var rest := Segments(s[1..]);
      if s[0] == '/' then [""] + rest else [[s[0]] + rest[0]] + rest[1..]
  }

  /** strings.Join(names, "/") */
  function Slashed(names: seq<string>): string {
    if names == [] then ""
    else if |names| == 1 then names[0]
    else names[0] + "/" + Slashed(names[1..])
  }

  predicate Rooted(s: string) {
    s != "" && s[0] == '/'
  }

  /** What one segment does to the names found so far. */
  function Push(rooted: bool, names: seq<string>, segment: string): seq<string> {
    if segment == "" || segment == "." then names
    else if segment != ".." then names + [segment]
    else if names != [] && names[|names| - 1] != ".." then names[..|names| - 1]
    else if rooted then names
    else names + [".."]
  }

  function PushAll(rooted: bool, segments: seq<string>): seq<string> {
    if segments == [] then []
    else Push(rooted, PushAll(rooted, segments[..|segments| - 1]), segments[|segments| - 1])
  }

  /** The names a path leads through, with "." and inner ".." resolved. */
  function Names(s: string): seq<string> {
    PushAll(Rooted(s), Segments(s))
  }

  /** path.Clean */
  function Clean(s: string): string {
    var body := Slashed(Names(s));
    if Rooted(s) then "/" + body else if body == "" then "." else body
  }

  /** filepath.Join of two elements. */
  function Join(a: string, b: string): string {
    if a != "" then Clean(a + "/" + b) else if b != "" then Clean(b) else ""
  }

  /** How many bytes of s there are up to its last slash, that one included. */
  function UpToSlash(s: string): (n: nat)
    ensures n <= |s|
    ensures n > 0 ==> s[n - 1] == '/'
    ensures forall i :: n <= i < |s| ==> s[i] != '/'
  {
    if s == "" then 0 else if s[|s| - 1] == '/' then |s| else UpToSlash(s[..|s| - 1])
  }

  function TrimSlashes(s: string): string {
    if s != "" && s[|s| - 1] == '/' then TrimSlashes(s[..|s| - 1]) else s
  }

  /** filepath.Base */
  function Base(s: string): string {
    var t := TrimSlashes(s);
    if s == "" then "." else if t == "" then "/" else t[UpToSlash(t)..]
  }

  /** filepath.Dir */
  function Dir(s: string): string {
    Clean(s[..UpToSlash(s)])
  }

  /** dirContainsPath */
  predicate DirContains(dir: string, changePath: string) {
    var change, d := Clean(changePath), Clean(dir);
    if d == "." || d == "/" then true
    else
      var rel := if Rooted(d) then d[1..] else d;
      change == rel || rel + "/" <= change
  }

  /* ----- cutting and joining ----- */

  predicate Unslashed(s: string) {
    forall i :: 0 <= i < |s| ==> s[i] != '/'
  }

  /** A name that survives cleaning. */
  predicate Plain(name: string) {
    name != "" && name != "." && Unslashed(name)
  }

  predicate AllPlain(names: seq<string>) {
    forall i :: 0 <= i < |names| ==> Plain(names[i])
  }

  lemma {:induction false} SegmentsUnslashed(s: string)
    ensures forall i :: 0 <= i < |Segments(s)| ==> Unslashed(Segments(s)[i])
  {
    if s != "" {
      SegmentsUnslashed(s[1..]);
    }
  }

  lemma {:induction false} OneSegment(s: string)
    requires Unslashed(s)
    ensures Segments(s) == [s]
  {
    if s != "" {
      OneSegment(s[1..]);
      assert s == [s[0]] + s[1..];
    }
  }

  lemma SegmentsStep(s: string)
    requires s != ""
    ensures Segments(s) == var rest := Segments(s[1..]);
                           if s[0] == '/' then [""] + rest else [[s[0]] + rest[0]] + rest[1..]
  {
  }

  lemma {:induction false} SegmentsAtSlash(a: string, b: string)
    ensures Segments(a + "/" + b) == Segments(a) + Segments(b)
  {
    hide Segments;
    var s := a + "/" + b;
    SegmentsStep(s);
    if a == "" {
      OneSegment("");
      assert s[0] == '/' && s[1..] == b;
    } else {
      SegmentsAtSlash(a[1..], b);
      SegmentsStep(a);
      assert s[0] == a[0] && s[1..] == a[1..] + "/" + b;
    }
  }

  lemma {:induction false} SegmentsOfSlashed(names: seq<string>)
    requires names != [] && AllPlain(names)
    ensures Segments(Slashed(names)) == names
  {
    OneSegment(names[0]);
    if |names| > 1 {
      SegmentsOfSlashed(names[1..]);
      SegmentsAtSlash(names[0], Slashed(names[1..]));
      assert names == [names[0]] + names[1..];
    }
  }

  lemma SlashedStep(names: seq<string>)
    requires |names| > 1
    ensures Slashed(names) == names[0] + "/" + Slashed(names[1..])
  {
  }

  lemma {:induction false} SlashedAppend(a: seq<string>, b: seq<string>)
    requires a != [] && b != []
    ensures Slashed(a + b) == Slashed(a) + "/" + Slashed(b)
  {
    SlashedStep(a + b);
    if |a| == 1 {
      assert (a + b)[1..] == b;
    } else {
      SlashedAppend(a[1..], b);
      assert (a + b)[1..] == a[1..] + b;
      SlashedStep(a);
    }
  }

  lemma {:induction false} PushAllPlain(rooted: bool, segments: seq<string>)
    requires forall i :: 0 <= i < |segments| ==> Unslashed(segments[i])
    ensures AllPlain(PushAll(rooted, segments))
  {
    if segments != [] {
      PushAllPlain(rooted, segments[..|segments| - 1]);
    }
  }

  lemma NamesArePlain(s: string)
    ensures AllPlain(Names(s))
  {
    SegmentsUnslashed(s);
    PushAllPlain(Rooted(s), Segments(s));
  }

  lemma SlashedPlain(names: seq<string>)
    requires AllPlain(names)
    ensures names == [] <==> Slashed(names) == ""
    ensures names != [] ==> Slashed(names) != "." && !Rooted(Slashed(names))
  {
    if names != [] {
      SegmentsOfSlashed(names);
      assert Plain(names[0]);
      assert Slashed(names) != "" && Slashed(names)[0] == names[0][0];
      if Slashed(names) == "." {
        OneSegment(".");
      }
    }
  }

  /* ----- containment is by whole names ----- */

  lemma PrefixSlashed(d: seq<string>, c: seq<string>)
    requires d <= c && d != []
    ensures Slashed(c) == Slashed(d) || Slashed(d) + "/" <= Slashed(c)
  {
    if |d| == |c| {
      assert d == c;
    } else {
      var rest := c[|d|..];
      assert c == d + rest;
      SlashedAppend(d, rest);
      hide Slashed;
      assert Slashed(c)[..|Slashed(d) + "/"|] == Slashed(d) + "/";
    }
  }

  lemma SlashedPrefix(d: seq<string>, c: seq<string>)
    requires AllPlain(d) && AllPlain(c) && d != [] && c != []
    requires Slashed(c) == Slashed(d) || Slashed(d) + "/" <= Slashed(c)
    ensures d <= c
  {
    SegmentsOfSlashed(c);
    SegmentsOfSlashed(d);
    hide Segments, Slashed, AllPlain;
    var x, y := Slashed(d), Slashed(c);
    if x != y {
      var rest := y[|x| + 1..];
      assert y == x + "/" + rest;
      SegmentsAtSlash(x, rest);
    }
  }

  lemma PrefixOfNames(d: seq<string>, c: seq<string>)
    requires AllPlain(d) && AllPlain(c) && d != [] && c != []
    ensures (Slashed(c) == Slashed(d) || Slashed(d) + "/" <= Slashed(c)) <==> d <= c
  {
    hide Slashed, AllPlain;
    if d <= c {
      PrefixSlashed(d, c);
    }
    if Slashed(c) == Slashed(d) || Slashed(d) + "/" <= Slashed(c) {
      SlashedPrefix(d, c);
    }
  }

  lemma CleanShape(s: string)
    ensures Names(s) == [] ==> Clean(s) == if Rooted(s) then "/" else "."
    ensures Names(s) != [] ==> Clean(s) == (if Rooted(s) then "/" else "") + Slashed(Names(s))
    ensures Names(s) != [] ==> Clean(s) != "." && Clean(s) != "/"
    ensures Rooted(Clean(s)) <==> Rooted(s)
  {
    NamesArePlain(s);
    SlashedPlain(Names(s));
    hide Names, Slashed, AllPlain;
  }

  lemma NotInRoot(d: seq<string>, change: string)
    requires AllPlain(d) && d != [] && (Rooted(change) || change == ".")
    ensures change != Slashed(d) && !(Slashed(d) + "/" <= change)
  {
    SlashedPlain(d);
  }

  /**
   * A directory contains a changed path exactly when it is the root, or its names begin the
   * names of the path: apps does not contain apps-other/x, however the two are written.
   */
  lemma ContainsIsByNames(dir: string, changePath: string)
    ensures DirContains(dir, changePath)
       <==> Names(dir) == [] || (!Rooted(changePath) && Names(dir) <= Names(changePath))
  {
    var d, c := Names(dir), Names(changePath);
    CleanShape(dir);
    CleanShape(changePath);
    NamesArePlain(dir);
    NamesArePlain(changePath);
    SlashedPlain(d);
    hide Clean, Names, Slashed, AllPlain;
    if d != [] {
      var rel := if Rooted(dir) then Clean(dir)[1..] else Clean(dir);
      assert rel == Slashed(d);
      if Rooted(changePath) || c == [] {
        NotInRoot(d, Clean(changePath));
      } else {
        PrefixOfNames(d, c);
        assert Clean(changePath) == Slashed(c);
      }
    }
  }

  /* ----- what "." and ".." do ----- */

  /** What the names found so far become under further segments. */
  function PushMore(rooted: bool, names: seq<string>, segments: seq<string>): seq<string> {
    if segments == [] then names
    else Push(rooted, PushMore(rooted, names, segments[..|segments| - 1]), segments[|segments| - 1])
  }

  lemma {:induction false} PushAllAppend(rooted: bool, a: seq<string>, b: seq<string>)
    ensures PushAll(rooted, a + b) == PushMore(rooted, PushAll(rooted, a), b)
  {
    hide Push;
    if b == [] {
      assert a + b == a;
    } else {
      PushAllAppend(rooted, a, b[..|b| - 1]);
      assert (a + b)[..|a + b| - 1] == a + b[..|b| - 1];
    }
  }

  lemma OneMore(rooted: bool, a: seq<string>, segment: string)
    ensures PushAll(rooted, a + [segment]) == Push(rooted, PushAll(rooted, a), segment)
  {
    assert (a + [segment])[..|a|] == a;
  }

  /** A path is cleaned by its segments alone. */
  lemma CleanBySegments(s: string, t: string)
    requires Rooted(s) == Rooted(t) && PushAll(Rooted(s), Segments(s)) == PushAll(Rooted(t), Segments(t))
    ensures Clean(s) == Clean(t)
  {
    hide PushAll, Segments;
  }

  lemma SlashAfter(b: string)
    ensures ".." + "/" + b == "../" + b && "." + "/" + b == "./" + b && "" + "/" + b == "/" + b
  {
    assert ".." + "/" == "../" && "." + "/" == "./" && "" + "/" == "/";
  }

  lemma SegmentsUp(a: string, n: string, b: string)
    requires Plain(n)
    ensures Segments(a + "/" + n + "/" + ("../" + b)) == Segments(a) + [n, ".."] + Segments(b)
  {
    OneSegment(n);
    OneSegment("..");
    SlashAfter(b);
    hide Segments;
    SegmentsAtSlash("..", b);
    SegmentsAtSlash(a, n);
    SegmentsAtSlash(a + "/" + n, ".." + "/" + b);
    assert (Segments(a) + [n]) + ([".."] + Segments(b)) == Segments(a) + [n, ".."] + Segments(b);
  }

  lemma PushUp(rooted: bool, segments: seq<string>, n: string)
    requires Plain(n) && n != ".."
    ensures PushAll(rooted, segments + [n, ".."]) == PushAll(rooted, segments)
  {
    hide PushAll;
    OneMore(rooted, segments, n);
    OneMore(rooted, segments + [n], "..");
    assert segments + [n, ".."] == (segments + [n]) + [".."];
  }

  lemma JoinIsClean(a: string, b: string)
    requires a != ""
    ensures Join(a, b) == Clean(a + "/" + b) && Rooted(a + "/" + b) == Rooted(a)
  {
  }

  /** ".." takes back the name before it. */
  lemma ParentTakesBack(a: string, n: string, b: string)
    requires a != "" && Plain(n) && n != ".."
    ensures Join(a + "/" + n, "../" + b) == Join(a, b)
  {
    hide Segments, PushAll, PushMore, Join, Clean;
    JoinIsClean(a + "/" + n, "../" + b);
    JoinIsClean(a, n);
    JoinIsClean(a, b);
    SegmentsUp(a, n, b);
    SegmentsAtSlash(a, b);
    PushUp(Rooted(a), Segments(a), n);
    PushAllAppend(Rooted(a), Segments(a) + [n, ".."], Segments(b));
    PushAllAppend(Rooted(a), Segments(a), Segments(b));
    CleanBySegments(a + "/" + n + "/" + ("../" + b), a + "/" + b);
  }

  lemma SegmentsSkipped(a: string, dot: string, b: string)
    requires dot == "." || dot == ""
    ensures Segments(a + "/" + (dot + "/" + b)) == (Segments(a) + [dot]) + Segments(b)
  {
    OneSegment(dot);
    hide Segments;
    SegmentsAtSlash(dot, b);
    SegmentsAtSlash(a, dot + "/" + b);
    assert Segments(a) + ([dot] + Segments(b)) == (Segments(a) + [dot]) + Segments(b);
  }

  lemma SkippedSegment(a: string, dot: string, b: string)
    requires a != "" && (dot == "." || dot == "")
    ensures Clean(a + "/" + (dot + "/" + b)) == Clean(a + "/" + b)
  {
    SegmentsSkipped(a, dot, b);
    hide Segments, PushAll, PushMore, Clean, Join;
    SegmentsAtSlash(a, b);
    JoinIsClean(a, b);
    JoinIsClean(a, dot + "/" + b);
    OneMore(Rooted(a), Segments(a), dot);
    PushAllAppend(Rooted(a), Segments(a) + [dot], Segments(b));
    PushAllAppend(Rooted(a), Segments(a), Segments(b));
    CleanBySegments(a + "/" + (dot + "/" + b), a + "/" + b);
  }

  /** "." and doubled slashes change nothing. */
  lemma DotIsNothing(a: string, b: string)
    requires a != ""
    ensures Join(a, "./" + b) == Join(a, b) && Join(a, "/" + b) == Join(a, b)
  {
    hide Clean;
    SlashAfter(b);
    SkippedSegment(a, ".", b);
    SkippedSegment(a, "", b);
    JoinIsClean(a, b);
    JoinIsClean(a, "./" + b);
    JoinIsClean(a, "/" + b);
  }

  predicate NoParents(names: seq<string>) {
    forall i :: 0 <= i < |names| ==> names[i] != ".."
  }

  lemma PushesUnderParent(names: seq<string>)
    requires AllPlain(names) && NoParents(names)
    ensures PushAll(true, ["", ".."] + names) == names && PushAll(false, [".."] + names) == [".."] + names
    ensures PushAll(false, names) == names
  {
    PushTop();
    hide PushAll, PushMore, AllPlain, NoParents;
    assert [] + names == names;
    PushAllAppend(true, ["", ".."], names);
    PushAllAppend(false, [".."], names);
    PushAllAppend(false, [], names);
    PushNames(true, [], names);
    PushNames(false, [".."], names);
    PushNames(false, [], names);
  }

  lemma SegmentsUnderParent(b: string)
    ensures Segments("/../" + b) == ["", ".."] + Segments(b) && Segments("../" + b) == [".."] + Segments(b)
  {
    OneSegment("");
    OneSegment("..");
    SlashAfter(b);
    hide Segments;
    SegmentsAtSlash("..", b);
    SegmentsAtSlash("", "../" + b);
    assert "" + "/" + ("../" + b) == "/../" + b;
    assert [""] + ([".."] + Segments(b)) == ["", ".."] + Segments(b);
  }

  lemma NamesUnderParent(b: string)
    requires AllPlain(Segments(b)) && NoParents(Segments(b))
    ensures Names("/../" + b) == Segments(b) && Names("../" + b) == [".."] + Segments(b) && Names(b) == Segments(b)
  {
    FirstSegment(b);
    hide Segments, AllPlain, NoParents, PushAll;
    SegmentsUnderParent(b);
    PushesUnderParent(Segments(b));
  }

  /** The root is its own parent; above a relative path the parent is kept. */
  lemma ParentAtTheTop(b: string)
    requires AllPlain(Segments(b)) && NoParents(Segments(b))
    ensures Clean("/../" + b) == "/" + b && Clean("../" + b) == "../" + b && Clean(b) == b
  {
    NamesUnderParent(b);
    FirstSegment(b);
    SlashedSegments(b);
    ParentSlashed(Segments(b));
    hide Segments, Names, Slashed, AllPlain, NoParents;
  }

  lemma FirstSegment(b: string)
    requires AllPlain(Segments(b))
    ensures Segments(b) != [] && Plain(Segments(b)[0]) && !Rooted(b) && b != ""
  {
    assert Plain(Segments(b)[0]);
  }

  lemma {:induction false} SlashedSegments(b: string)
    ensures Slashed(Segments(b)) == b
    decreases |b|
  {
    if b != "" {
      SlashedSegments(b[1..]);
      var rest := Segments(b[1..]);
      if b[0] == '/' {
        assert ([""] + rest)[1..] == rest;
        assert b == "" + "/" + b[1..];
      } else {
        var all := [[b[0]] + rest[0]] + rest[1..];
        assert all[1..] == rest[1..];
        assert b == [b[0]] + b[1..];
      }
    }
  }

  lemma PushTop()
    ensures PushAll(true, ["", ".."]) == [] && PushAll(false, [".."]) == [".."] && PushAll(false, []) == []
  {
    assert ["", ".."][..1] == [""] && [""][..0] == [] && [".."][..0] == [];
  }

  lemma {:induction false} PushNames(rooted: bool, start: seq<string>, names: seq<string>)
    requires AllPlain(names) && NoParents(names)
    ensures PushMore(rooted, start, names) == start + names
  {
    if names != [] {
      var n := |names| - 1;
      PushNames(rooted, start, names[..n]);
      assert Plain(names[n]) && names[..n] + [names[n]] == names;
    } else {
      assert start + names == start;
    }
  }

  lemma ParentSlashed(names: seq<string>)
    requires names != []
    ensures Slashed([".."] + names) == "../" + Slashed(names)
  {
    assert ([".."] + names)[1..] == names && ".." + "/" == "../";
    SlashedStep([".."] + names);
    hide Slashed;
    assert ".." + "/" + Slashed(names) == "../" + Slashed(names);
  }

  /** The last name of a path, and the directory it is in. */
  lemma DirAndBase(a: string, n: string)
    requires n != "" && Unslashed(n)
    ensures Base(a + "/" + n) == n && Dir(a + "/" + n) == Clean(a + "/")
  {
    var s := a + "/" + n;
    assert s[|s| - 1] == n[|n| - 1];
    assert TrimSlashes(s) == s;
    var k := UpToSlash(s);
    assert forall i :: 0 <= i < |n| ==> s[|a| + 1 + i] == n[i];
    assert s[|a|] == '/';
    assert k == |a| + 1;
    assert s[..k] == a + "/" && s[k..] == n;
  }
}
