/** Go's order on strings, and sorting by it. */
module Ordering {

  /** a < b, byte by byte. */
  predicate Less(a: string, b: string) {
    if b == "" then false
    else if a == "" then true
    else if a[0] != b[0] then a[0] < b[0]
    else Less(a[1..], b[1..])
  }

  lemma {:induction false} LessIrreflexive(a: string)
    ensures !Less(a, a)
  {
    if a != "" {
      LessIrreflexive(a[1..]);
    }
  }

  lemma {:induction false} LessTransitive(a: string, b: string, c: string)
    requires Less(a, b) && Less(b, c)
    ensures Less(a, c)
  {
    if a != "" && a[0] == b[0] == c[0] {
      LessTransitive(a[1..], b[1..], c[1..]);
    }
  }

  lemma {:induction false} LessTotal(a: string, b: string)
    ensures a == b || Less(a, b) || Less(b, a)
  {
    if a != "" && b != "" && a[0] == b[0] {
      LessTotal(a[1..], b[1..]);
      if a[1..] == b[1..] {
        assert a == [a[0]] + a[1..] == [b[0]] + b[1..] == b;
      }
    }
  }

  /** Ascending, every string once. */
  predicate StrictlySorted(s: seq<string>) {
    forall i, j :: 0 <= i < j < |s| ==> Less(s[i], s[j])
  }

  predicate Distinct(s: seq<string>) {
    forall i, j :: 0 <= i < j < |s| ==> s[i] != s[j]
  }

  lemma DistinctSnoc(s: seq<string>, x: string)
    requires Distinct(s) && x !in s
    ensures Distinct(s + [x])
  {
  }

  predicate Sorted(s: seq<string>) {
    forall i, j :: 0 <= i < j < |s| ==> !Less(s[j], s[i])
  }

  /** The place of x in a sorted sequence, after everything that is not greater. */
  function Insert(s: seq<string>, x: string): seq<string> {
    if s == [] || !Less(x, s[|s| - 1]) then s + [x]
    else Insert(s[..|s| - 1], x) + [s[|s| - 1]]
  }

  /** sort.Strings */
  function Sort(s: seq<string>): seq<string> {
    if s == [] then [] else Insert(Sort(s[..|s| - 1]), s[|s| - 1])
  }

  lemma {:induction false} InsertKeeps(s: seq<string>, x: string)
    ensures multiset(Insert(s, x)) == multiset(s) + multiset{x}
    ensures |Insert(s, x)| == |s| + 1
  {
    if s != [] {
      InsertKeeps(s[..|s| - 1], x);
      assert s == s[..|s| - 1] + [s[|s| - 1]];
    }
  }

  lemma {:induction false} InsertSorts(s: seq<string>, x: string)
    requires Sorted(s)
    ensures Sorted(Insert(s, x))
  {
    hide Less;
    if s != [] {
      var n := |s| - 1;
      if Less(x, s[n]) {
        InsertSorts(s[..n], x);
        var r := Insert(s[..n], x);
        InsertKeeps(s[..n], x);
        forall i | 0 <= i < |r|
          ensures !Less(s[n], r[i])
        {
          assert r[i] in multiset(r);
          if r[i] == x {
            if Less(s[n], x) {
              LessTransitive(x, s[n], x);
              LessIrreflexive(x);
            }
          } else {
            assert r[i] in s[..n];
          }
        }
      } else {
        forall i | 0 <= i < |s|
          ensures !Less(x, s[i])
        {
          if i < n && Less(x, s[i]) {
            assert !Less(s[n], s[i]);
            LessTotal(s[i], s[n]);
            if s[i] != s[n] {
              LessTransitive(x, s[i], s[n]);
            }
          }
        }
      }
    }
  }

  /** Sorting keeps every string as often as it was there. */
  lemma {:induction false} SortSorts(s: seq<string>)
    ensures Sorted(Sort(s)) && multiset(Sort(s)) == multiset(s) && |Sort(s)| == |s|
  {
    if s != [] {
      var n := |s| - 1;
      SortSorts(s[..n]);
      InsertSorts(Sort(s[..n]), s[n]);
      InsertKeeps(Sort(s[..n]), s[n]);
      assert s == s[..n] + [s[n]];
    }
  }

  /** A strictly sorted sequence is determined by what it holds. */
  lemma {:induction false} StrictlySortedUnique(a: seq<string>, b: seq<string>)
    requires StrictlySorted(a) && StrictlySorted(b)
    requires forall x :: x in a <==> x in b
    ensures a == b
  {
    hide Less;
    assert a != [] ==> a[0] in b;
    assert b != [] ==> b[0] in a;
    if a != [] && b != [] {
      var m, n := |a| - 1, |b| - 1;
      GreatestIsLast(a, b);
      GreatestIsLast(b, a);
      LessBothWays(a[m], b[n]);
      assert a[m] == b[n];
      forall x
        ensures x in a[..m] <==> x in b[..n]
      {
        NotBeforeLast(a, x);
        NotBeforeLast(b, x);
      }
      StrictlySortedUnique(a[..m], b[..n]);
      assert a == a[..m] + [a[m]] && b == b[..n] + [b[n]];
    }
  }

  lemma LessBothWays(x: string, y: string)
    requires !Less(x, y) && !Less(y, x)
    ensures x == y
  {
    LessTotal(x, y);
  }

  lemma GreatestIsLast(a: seq<string>, b: seq<string>)
    requires a != [] && b != [] && StrictlySorted(a) && forall x :: x in b ==> x in a
    ensures !Less(a[|a| - 1], b[|b| - 1])
  {
    hide Less;
    var x, last := b[|b| - 1], a[|a| - 1];
    assert x in a;
    var i :| 0 <= i < |a| && a[i] == x;
    LessIrreflexive(last);
    if Less(last, x) && i < |a| - 1 {
      LessTransitive(last, x, last);
    }
  }

  lemma NotBeforeLast(a: seq<string>, x: string)
    requires a != [] && StrictlySorted(a)
    ensures x in a[..|a| - 1] <==> x in a && x != a[|a| - 1]
  {
    LessIrreflexive(x);
    hide Less;
    assert a == a[..|a| - 1] + [a[|a| - 1]];
  }

  lemma {:induction false} OnceEach(s: seq<string>, x: string)
    requires Distinct(s)
    ensures multiset(s)[x] <= 1
  {
    if s != [] {
      var n := |s| - 1;
      OnceEach(s[..n], x);
      assert s == s[..n] + [s[n]];
      assert s[n] !in s[..n];
    }
  }

  lemma TwiceIsTwo(s: seq<string>, i: nat, j: nat)
    requires i < j < |s| && s[i] == s[j]
    ensures multiset(s)[s[i]] >= 2
  {
    assert s == s[..j] + s[j..];
    assert multiset(s) == multiset(s[..j]) + multiset(s[j..]);
    assert s[..j][i] == s[i] && s[j..][0] == s[j];
    assert s[i] in multiset(s[..j]) && s[i] in multiset(s[j..]);
  }

  /** Sorting distinct strings sorts them strictly. */
  lemma SortDistinct(keys: seq<string>)
    requires Distinct(keys)
    ensures StrictlySorted(Sort(keys))
    ensures forall x :: x in Sort(keys) <==> x in keys
  {
    hide Less, Sort;
    SortSorts(keys);
    var s := Sort(keys);
    forall i, j | 0 <= i < j < |s|
      ensures Less(s[i], s[j])
    {
      LessTotal(s[i], s[j]);
      if s[i] == s[j] {
        TwiceIsTwo(s, i, j);
        OnceEach(keys, s[i]);
      }
    }
    assert forall x :: x in s <==> x in multiset(s);
    assert forall x :: x in keys <==> x in multiset(keys);
  }
}
