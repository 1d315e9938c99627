/** UTF-8 as section 4 of RFC 3629 lays it out, and the cut that respects it. */
module Utf8 {

  /** utf8.RuneStart: anything but a continuation byte (10xxxxxx). */
  predicate RuneStart(b: char) {
    !TailByte(b)
  }

  predicate TailByte(b: char) {
    '\U{80}' <= b <= '\U{BF}'
  }

  /** The width of the well-formed rune s starts with, 0 if it starts with none. */
  function RuneWidth(s: string): (w: nat)
    ensures w <= |s|
    ensures w > 0 ==> RuneStart(s[0]) && forall i :: 1 <= i < w ==> TailByte(s[i])
  {
    if |s| >= 1 && s[0] <= '\U{7F}' then 1
    else if |s| >= 2 && '\U{C2}' <= s[0] <= '\U{DF}' && TailByte(s[1]) then 2
    else if |s| >= 3 && WideLead(s[0], s[1]) && TailByte(s[1]) && TailByte(s[2]) then 3
    else if |s| >= 4 && WidestLead(s[0], s[1]) && TailByte(s[1]) && TailByte(s[2]) && TailByte(s[3]) then 4
    else 0
  }

  predicate WideLead(a: char, b: char) {
    || (a == '\U{E0}' && '\U{A0}' <= b)
    || '\U{E1}' <= a <= '\U{EC}'
    || (a == '\U{ED}' && b <= '\U{9F}')
    || '\U{EE}' <= a <= '\U{EF}'
  }

  predicate WidestLead(a: char, b: char) {
    || (a == '\U{F0}' && '\U{90}' <= b)
    || '\U{F1}' <= a <= '\U{F3}'
    || (a == '\U{F4}' && b <= '\U{8F}')
  }

  /** A sequence of well-formed runes: utf8.ValidString. */
  predicate Valid(s: string)
    decreases |s|
  {
    s == "" || (RuneWidth(s) > 0 && Valid(s[RuneWidth(s)..]))
  }

  lemma RuneWidthAppend(a: string, b: string)
    requires RuneWidth(a) > 0
    ensures RuneWidth(a + b) == RuneWidth(a)
  {
    var s := a + b;
    assert s[0] == a[0];
    assert |a| >= 2 ==> s[1] == a[1];
    assert |a| >= 3 ==> s[2] == a[2];
    assert |a| >= 4 ==> s[3] == a[3];
  }

  lemma ValidStep(s: string)
    requires s != ""
    ensures Valid(s) <==> RuneWidth(s) > 0 && Valid(s[RuneWidth(s)..])
  {
  }

  lemma {:induction false} ValidAppend(a: string, b: string)
    requires Valid(a) && Valid(b)
    ensures Valid(a + b)
    decreases |a|
  {
    hide Valid, RuneWidth;
    if a == "" {
      assert a + b == b;
    } else {
      var w := RuneWidth(a);
      ValidStep(a);
      ValidStep(a + b);
      RuneWidthAppend(a, b);
      ValidAppend(a[w..], b);
      assert (a + b)[w..] == a[w..] + b;
    }
  }

  lemma RuneWidthPrefix(s: string, m: nat)
    requires RuneWidth(s) <= m <= |s|
    ensures RuneWidth(s) > 0 ==> RuneWidth(s[..m]) == RuneWidth(s)
  {
  }

  /** Cutting where a rune starts, or at the end, leaves valid text on both sides. */
  lemma {:induction false} ValidCut(s: string, m: nat)
    requires Valid(s) && m <= |s| && (m < |s| ==> RuneStart(s[m]))
    ensures Valid(s[..m]) && Valid(s[m..])
    decreases |s|
  {
    if m > 0 {
      hide Valid, RuneWidth;
      var w := RuneWidth(s);
      ValidStep(s);
      assert m >= w;
      RuneWidthPrefix(s, m);
      ValidStep(s[..m]);
      ValidCut(s[w..], m - w);
      assert s[..m][w..] == s[w..][..m - w];
      assert s[m..] == s[w..][m - w..];
    } else {
      assert s[m..] == s;
    }
  }

  lemma {:induction false} AsciiIsValid(s: string)
    requires forall i :: 0 <= i < |s| ==> s[i] <= '\U{7F}'
    ensures Valid(s)
  {
    if s != "" {
      AsciiIsValid(s[1..]);
    }
  }

  /** Where cutAtRune's loop stops when it starts at n. */
  function StepBack(s: string, n: nat): (m: nat)
    requires n == 0 || n < |s|
    ensures m <= n
  {
    if n > 0 && !RuneStart(s[n]) then StepBack(s, n - 1) else n
  }

  function CutAtRune(s: string, n: int): string {
    if n >= |s| then s else s[..StepBack(s, if n > 0 then n else 0)]
  }

  method CutAtRuneLoop(s: string, n: int) returns (r: string)
    ensures r == CutAtRune(s, n)
  {
    if n >= |s| {
      return s;
    }
    var m := if n > 0 then n else 0;
    while m > 0 && !RuneStart(s[m])
      invariant m == 0 || 0 < m < |s|
      invariant StepBack(s, m) == StepBack(s, if n > 0 then n else 0)
    {
      m := m - 1;
    }
    return s[..m];
  }

  lemma StepBackFinds(s: string, n: nat)
    requires n == 0 || n < |s|
    ensures var m := StepBack(s, n);
            (m == 0 || RuneStart(s[m])) && forall j :: m < j <= n ==> TailByte(s[j])
  {
  }

  /** The longest prefix of at most n bytes that ends before a rune start, or the empty one. */
  lemma CutAtRuneIsLongest(s: string, n: int)
    ensures var r := CutAtRune(s, n);
            && r <= s
            && |r| <= (if n > 0 then n else 0)
            && (|r| < |s| ==> |r| == 0 || RuneStart(s[|r|]))
            && (n >= |s| ==> r == s)
            && (forall j :: |r| < j <= n && j < |s| ==> TailByte(s[j]))
  {
    if n < |s| {
      StepBackFinds(s, if n > 0 then n else 0);
    }
  }

  lemma RuneStartsAreNear(s: string, m: nat, j: nat)
    requires Valid(s) && m < j < |s| && RuneStart(s[m]) && forall i :: m < i <= j ==> TailByte(s[i])
    ensures j - m <= 3
  {
    ValidCut(s, m);
    var w := RuneWidth(s[m..]);
    if m + w < |s| {
      assert Valid(s[m..][w..]);
      assert RuneStart(s[m..][w..][0]);
      assert s[m + w] == s[m..][w..][0];
    }
  }

  /** On valid UTF-8, never inside a rune, and never more than three bytes short of n. */
  lemma CutAtRuneKeepsRunes(s: string, n: int)
    requires Valid(s)
    ensures Valid(CutAtRune(s, n))
    ensures 0 <= n <= |s| ==> |CutAtRune(s, n)| >= n - 3
  {
    CutAtRuneIsLongest(s, n);
    var r := CutAtRune(s, n);
    if s != "" {
      assert RuneStart(s[0]);
      ValidCut(s, |r|);
      assert s[..|r|] == r;
      if |r| < n < |s| {
        RuneStartsAreNear(s, |r|, n);
      }
    }
  }
}
