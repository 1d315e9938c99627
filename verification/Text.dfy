/** Go strings. Every char stands for one byte, so |s| is Go's len(s). */
module Text {

  datatype Option<+T> = None | Some(value: T)

  function Concat(pieces: seq<string>): string {
    if pieces == [] then "" else pieces[0] + Concat(pieces[1..])
  }

  lemma {:induction false} ConcatSnoc(pieces: seq<string>, last: string)
    ensures Concat(pieces + [last]) == Concat(pieces) + last
  {
    if pieces == [] {
      assert pieces + [last] == [last];
    } else {
      ConcatSnoc(pieces[1..], last);
      assert (pieces + [last])[1..] == pieces[1..] + [last];
    }
  }

  lemma ConcatStep(pieces: seq<string>)
    requires pieces != []
    ensures Concat(pieces) == pieces[0] + Concat(pieces[1..])
  {
  }

  lemma AppendAssociates(a: string, b: string, c: string)
    ensures a + (b + c) == (a + b) + c
  {
  }

  lemma {:induction false} ConcatAppend(a: seq<string>, b: seq<string>)
    ensures Concat(a + b) == Concat(a) + Concat(b)
  {
    if a == [] {
      assert a + b == b;
      assert Concat(a) + Concat(b) == Concat(b);
    } else {
      hide Concat;
      ConcatAppend(a[1..], b);
      ConcatStep(a);
      var ab := a + b;
      ConcatStep(ab);
      assert ab[0] == a[0];
      assert ab[1..] == a[1..] + b;
      AppendAssociates(a[0], Concat(a[1..]), Concat(b));
    }
  }

  /* ----- lines ----- */

  /** Empty, or ending in a newline: what follows starts a new line. */
  predicate EndsLine(s: string) {
    s == "" || s[|s| - 1] == '\n'
  }

  /** A string without a newline except perhaps as its last byte. */
  predicate OneLine(s: string) {
    forall i :: 0 <= i < |s| - 1 ==> s[i] != '\n'
  }

  /** The length of the first line, its newline included. */
  function LineEnd(s: string): (k: nat)
    ensures k <= |s|
    ensures s != "" ==> k > 0
    ensures forall i :: 0 <= i < k - 1 ==> s[i] != '\n'
    ensures k < |s| ==> s[k - 1] == '\n'
  {
    if s == "" then 0
    else if s[0] == '\n' then 1
    else 1 + LineEnd(s[1..])
  }

  /** The non-empty lines of s, each with its newline. */
  function Lines(s: string): seq<string>
    decreases |s|
  {
    if s == "" then [] else [s[..LineEnd(s)]] + Lines(s[LineEnd(s)..])
  }

  /** strings.SplitAfter(s, "\n") */
  function SplitAfter(s: string): seq<string>
    decreases |s|
  {
    var k := LineEnd(s);
    if s == "" || s[k - 1] != '\n' then [s] else [s[..k]] + SplitAfter(s[k..])
  }

  /** SplitAfter leaves one empty string after a last newline, and none elsewhere. */
  lemma {:induction false} SplitAfterIsLines(s: string)
    ensures SplitAfter(s) == Lines(s) + if EndsLine(s) then [""] else []
    decreases |s|
  {
    if s != "" {
      var k := LineEnd(s);
      if s[k - 1] == '\n' {
        SplitAfterIsLines(s[k..]);
        if k < |s| {
          assert s[k..][|s[k..]| - 1] == s[|s| - 1];
        }
      } else {
        assert k == |s| && s[..k] == s;
      }
    }
  }

  lemma {:induction false} LinesConcat(s: string)
    ensures Concat(Lines(s)) == s
    decreases |s|
  {
    if s != "" {
      LinesConcat(s[LineEnd(s)..]);
    }
  }

  lemma {:induction false} LinesAreLines(s: string, i: nat)
    requires i < |Lines(s)|
    ensures Lines(s)[i] != "" && OneLine(Lines(s)[i])
    ensures EndsLine(Lines(s)[i]) <==> i < |Lines(s)| - 1 || EndsLine(s)
    decreases |s|
  {
    var k := LineEnd(s);
    var rest := s[k..];
    if i > 0 {
      LinesAreLines(rest, i - 1);
      assert Lines(s)[i] == Lines(rest)[i - 1];
      assert rest[|rest| - 1] == s[|s| - 1];
    }
  }

  lemma FirstLine(line: string, rest: string)
    requires OneLine(line) && line != "" && (EndsLine(line) || rest == "")
    ensures LineEnd(line + rest) == |line|
  {
    assert (line + rest)[|line| - 1] == line[|line| - 1];
  }

  lemma {:induction false} LinesAppend(a: string, b: string)
    requires EndsLine(a)
    ensures Lines(a + b) == Lines(a) + Lines(b)
    decreases |a|
  {
    if a == "" {
      assert a + b == b;
    } else {
      var k := LineEnd(a);
      var line, rest := a[..k], a[k..];
      AppendAssociates(line, rest, b);
      assert line + rest == a;
      FirstLine(line, rest + b);
      assert (a + b)[..k] == line && (a + b)[k..] == rest + b;
      LinesAppend(rest, b);
    }
  }

  /* ----- searching ----- */

  /** The first place where pattern occurs in s, or -1: strings.Index. */
  function IndexOf(s: string, pattern: string): (r: int)
    ensures -1 <= r <= |s|
    ensures r >= 0 ==> pattern <= s[r..]
    ensures forall j :: 0 <= j <= |s| && (r < 0 || j < r) ==> !(pattern <= s[j..])
  {
    if pattern <= s then 0
    else if s == "" then -1
    else
      var r := IndexOf(s[1..], pattern);
      assert forall j :: 1 <= j <= |s| ==> s[j..] == s[1..][j - 1..];
      if r < 0 then -1 else r + 1
  }

  lemma IndexOfUnique(s: string, pattern: string, r: nat)
    requires r <= |s| && pattern <= s[r..]
    requires forall j :: 0 <= j < r ==> !(pattern <= s[j..])
    ensures IndexOf(s, pattern) == r
  {
  }

  /** How many bytes equal to c the string s starts with. */
  function Leading(s: string, c: char): (n: nat)
    ensures n <= |s|
    ensures forall i :: 0 <= i < n ==> s[i] == c
    ensures n < |s| ==> s[n] != c
  {
    if s == "" || s[0] != c then 0 else 1 + Leading(s[1..], c)
  }

  lemma LeadingUnique(s: string, c: char, n: nat)
    requires n <= |s| && (forall i :: 0 <= i < n ==> s[i] == c) && (n < |s| ==> s[n] != c)
    ensures Leading(s, c) == n
  {
  }

  /* ----- white space ----- */

  // The runes unicode.IsSpace accepts, by the width of their UTF-8 encoding.

  predicate Space1(a: char) {
    a == ' ' || '\t' <= a <= '\r'
  }

  predicate Space2(a: char, b: char) {
    a == '\U{C2}' && (b == '\U{85}' || b == '\U{A0}')
  }

  predicate Space3(a: char, b: char, c: char) {
    || (a == '\U{E1}' && b == '\U{9A}' && c == '\U{80}')
    || (a == '\U{E2}' && b == '\U{80}' &&
         ('\U{80}' <= c <= '\U{8A}' || c == '\U{A8}' || c == '\U{A9}' || c == '\U{AF}'))
    || (a == '\U{E2}' && b == '\U{81}' && c == '\U{9F}')
    || (a == '\U{E3}' && b == '\U{80}' && c == '\U{80}')
  }

  /** The width of the white space rune s starts with, 0 if it starts with none. */
  function SpaceBefore(s: string): (w: nat)
    ensures w <= |s|
  {
    if |s| >= 1 && Space1(s[0]) then 1
    else if |s| >= 2 && Space2(s[0], s[1]) then 2
    else if |s| >= 3 && Space3(s[0], s[1], s[2]) then 3
    else 0
  }

  /** The width of the white space rune s ends with, 0 if it ends with none. */
  function SpaceAfter(s: string): (w: nat)
    ensures w <= |s|
  {
    var n := |s|;
    if n >= 1 && Space1(s[n - 1]) then 1
    else if n >= 2 && Space2(s[n - 2], s[n - 1]) then 2
    else if n >= 3 && Space3(s[n - 3], s[n - 2], s[n - 1]) then 3
    else 0
  }

  /** How many bytes of white space s starts with. */
  function LeadingSpace(s: string): (n: nat)
    ensures n <= |s| && SpaceBefore(s[n..]) == 0
  {
    var w := SpaceBefore(s);
    if w == 0 then 0 else
    var n := LeadingSpace(s[w..]);
    assert s[w..][n..] == s[w + n..];
    w + n
  }

  function TrimLeft(s: string): string {
    s[LeadingSpace(s)..]
  }

  function TrimRight(s: string): (r: string)
    ensures SpaceAfter(r) == 0
    ensures r <= s
    decreases |s|
  {
    if SpaceAfter(s) == 0 then s else TrimRight(s[..|s| - SpaceAfter(s)])
  }

  /** strings.TrimSpace */
  function TrimSpace(s: string): string {
    TrimRight(TrimLeft(s))
  }

  /** Neither starts nor ends with white space, as every trimmed string. */
  predicate Trimmed(s: string) {
    SpaceBefore(s) == 0 && SpaceAfter(s) == 0
  }

  lemma SpaceBeforePrefix(t: string, r: string)
    requires r <= t && SpaceBefore(t) == 0
    ensures SpaceBefore(r) == 0
  {
    assert forall i :: 0 <= i < |r| ==> r[i] == t[i];
  }

  lemma TrimSpaceTrims(s: string)
    ensures Trimmed(TrimSpace(s))
  {
    SpaceBeforePrefix(TrimLeft(s), TrimSpace(s));
  }

  lemma SpaceBeforeNewline(s: string)
    requires s != ""
    ensures SpaceBefore(s + "\n") == SpaceBefore(s)
  {
    var t := s + "\n";
    assert t[0] == s[0] && (|s| >= 2 ==> t[1] == s[1]) && (|s| >= 3 ==> t[2] == s[2]) && t[|s|] == '\n';
  }

  lemma LeadingSpaceStep(s: string)
    ensures LeadingSpace(s) == if SpaceBefore(s) == 0 then 0 else SpaceBefore(s) + LeadingSpace(s[SpaceBefore(s)..])
  {
  }

  lemma {:induction false} LeadingSpaceNewline(s: string)
    ensures LeadingSpace(s + "\n") == LeadingSpace(s) + if LeadingSpace(s) == |s| then 1 else 0
    decreases |s|
  {
    if s == "" {
      BlankNewline();
      assert s + "\n" == "\n";
    } else {
      hide LeadingSpace, SpaceBefore;
      var w, t := SpaceBefore(s), s + "\n";
      LeadingSpaceStep(s);
      LeadingSpaceStep(t);
      SpaceBeforeNewline(s);
      if w > 0 {
        var rest := s[w..];
        LeadingSpaceNewline(rest);
        assert t[w..] == rest + "\n";
      }
    }
  }

  lemma BlankNewline()
    ensures LeadingSpace("\n") == 1 && LeadingSpace("") == 0
  {
    assert "\n"[1..] == "";
  }

  lemma TrimRightNewline(s: string)
    ensures TrimRight(s + "\n") == TrimRight(s)
  {
    var u := s + "\n";
    assert SpaceAfter(u) == 1;
    hide SpaceAfter;
    assert u[..|u| - 1] == s;
  }

  /** A newline at the end of a line is not part of what TrimSpace leaves. */
  lemma TrimSpaceNewline(s: string)
    ensures TrimSpace(s + "\n") == TrimSpace(s)
  {
    hide LeadingSpace, TrimRight;
    LeadingSpaceNewline(s);
    var n := LeadingSpace(s);
    if n < |s| {
      assert (s + "\n")[n..] == s[n..] + "\n";
      TrimRightNewline(s[n..]);
    } else {
      assert TrimLeft(s) == TrimLeft(s + "\n") == "";
    }
  }

  lemma TrimSpaceOfTrimmed(s: string)
    requires Trimmed(s)
    ensures TrimSpace(s + "\n") == s
  {
    TrimSpaceNewline(s);
  }

  /* ----- numbers ----- */

  /** strconv.Itoa of a natural number. */
  function Decimal(n: nat): (s: string)
    ensures |s| > 0
  {
    if n < 10 then [Digit(n)] else Decimal(n / 10) + [Digit(n % 10)]
  }

  /** The number that a string of digits stands for. */
  function ValueOf(s: string): int {
    if s == "" then 0 else 10 * ValueOf(s[..|s| - 1]) + (s[|s| - 1] as int - '0' as int)
  }

  /** The digits say the number, with no zero in front. */
  lemma {:induction false} DecimalReads(n: nat)
    ensures ValueOf(Decimal(n)) == n && (n > 0 ==> Decimal(n)[0] != '0')
  {
    if n >= 10 {
      DecimalReads(n / 10);
      assert Decimal(n)[..|Decimal(n)| - 1] == Decimal(n / 10);
    } else {
      assert Decimal(n)[..0] == "";
    }
  }

  function Digit(n: nat): char
    requires n < 10
  {
    '0' + n as char
  }

  lemma DecimalGrows(m: nat, n: nat)
    requires m <= n
    ensures |Decimal(m)| <= |Decimal(n)|
  {
    if m >= 10 {
      DecimalGrows(m / 10, n / 10);
    }
  }

  lemma DecimalWidth(n: nat)
    requires n <= 999
    ensures |Decimal(n)| <= |Decimal(999)| == 3
  {
    DecimalGrows(n, 999);
    assert |Decimal(99)| == 2 && |Decimal(999)| == 3;
  }
}
