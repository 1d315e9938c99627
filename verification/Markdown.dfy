/**
 What is open at some line of a check's details: the line automaton (Next) and the
 printers (Closer, Opener) that end it at a cut and start it again in the next part.
 */
module Markdown {
  import opened Text
  import opened Utf8

  datatype OpenDetails = OpenDetails(summary: string, hasSummary: bool)

  datatype MdState = MdState(fence: string, fenceInfo: string, details: seq<OpenDetails>)

  const EMPTY := MdState("", "", [])
  const NO_SUMMARY := OpenDetails("", false)
  const DETAILS_CLOSE := "\n</details>\n"
  const MAX_CARRIED_SUMMARY := 80

  /* ----- the automaton ----- */

  function FenceOf(line: string): (string, string) {
    var spaces := Leading(line, ' ');
    if spaces > 3 then ("", "") else FenceIn(line[spaces..])
  }

  function FenceIn(trimmed: string): (string, string) {
    var ticks := Leading(trimmed, '`');
    if ticks < 3 then ("", "") else (trimmed[..ticks], TrimSpace(trimmed[ticks..]))
  }

  predicate OpensTag(s: string) {
    "<details>" <= s || "<details " <= s
  }

  predicate ClosesTag(s: string) {
    "</details>" <= s
  }

  /** The effect of one position of a line on the open blocks. */
  function ScanHere(s: string, details: seq<OpenDetails>): seq<OpenDetails> {
    if OpensTag(s) then details + [NO_SUMMARY]
    else if ClosesTag(s) && |details| > 0 then details[..|details| - 1]
    else details
  }

  function ScanTags(s: string, details: seq<OpenDetails>): seq<OpenDetails> {
    if s == "" then details else ScanTags(s[1..], ScanHere(s, details))
  }

  /** The text between the first <summary> of a line and the </summary> after it. */
  function SummaryOf(line: string): Option<string> {
    var open := IndexOf(line, "<summary>");
    if open < 0 then None else
    var rest := line[open + 9..];
    var close := IndexOf(rest, "</summary>");
    if close < 0 then None else Some(rest[..close])
  }

  /** The innermost block takes its summary, unless it already has one. */
  function NameTop(details: seq<OpenDetails>, summary: Option<string>): seq<OpenDetails> {
    var n := |details|;
    if n > 0 && !details[n - 1].hasSummary && summary.Some? then
      details[n - 1 := OpenDetails(CutAtRune(summary.value, MAX_CARRIED_SUMMARY), true)]
    else details
  }

  function NextOf(s: MdState, fence: (string, string), details: seq<OpenDetails>, summary: Option<string>): MdState {
    var (marker, info) := fence;
    if s.fence != "" then
      if info == "" && |marker| >= |s.fence| then s.(fence := "", fenceInfo := "") else s
    else if marker != "" then s.(fence := marker, fenceInfo := info)
    else s.(details := NameTop(details, summary))
  }

  function Next(s: MdState, line: string): MdState {
    NextOf(s, FenceOf(line), ScanTags(line, s.details), SummaryOf(line))
  }

  lemma ScanStep(line: string, i: nat, details: seq<OpenDetails>)
    requires i <= |line|
    ensures i < |line| ==> ScanTags(line[i..], details) == ScanTags(line[i + 1..], ScanHere(line[i..], details))
    ensures i == |line| ==> ScanTags(line[i..], details) == details
  {
    assert i < |line| ==> line[i..][1..] == line[i + 1..];
  }

  method NextLoop(s: MdState, line: string) returns (t: MdState)
    ensures t == Next(s, line)
  {
    hide FenceOf, SummaryOf, ScanTags, CutAtRune;
    var (marker, info) := FenceOf(line);
    if s.fence != "" {
      if info == "" && |marker| >= |s.fence| {
        return s.(fence := "", fenceInfo := "");
      }
      return s;
    }
    if marker != "" {
      return s.(fence := marker, fenceInfo := info);
    }
    var details := s.details;
    assert line[0..] == line;
    for i := 0 to |line|
      invariant ScanTags(line[i..], details) == ScanTags(line, s.details)
    {
      var rest := line[i..];
      ScanStep(line, i, details);
      if "<details>" <= rest || "<details " <= rest {
        details := details + [NO_SUMMARY];
      } else if "</details>" <= rest && |details| > 0 {
        details := details[..|details| - 1];
      }
    }
    ScanStep(line, |line|, details);
    var n := |details|;
    if n > 0 && !details[n - 1].hasSummary {
      var summary := SummaryOf(line);
      if summary.Some? {
        var text := CutAtRuneLoop(summary.value, MAX_CARRIED_SUMMARY);
        details := details[n - 1 := OpenDetails(text, true)];
      }
    }
    return s.(details := details);
  }

  function RunLines(s: MdState, lines: seq<string>): MdState {
    if lines == [] then s else Next(RunLines(s, lines[..|lines| - 1]), lines[|lines| - 1])
  }

  /** The state after reading text line by line. */
  function Run(s: MdState, text: string): MdState
    decreases |text|
  {
    if text == "" then s else Run(Next(s, text[..LineEnd(text)]), text[LineEnd(text)..])
  }

  /* ----- the printers ----- */

  function Closers(n: nat): string {
    if n == 0 then "" else Closers(n - 1) + DETAILS_CLOSE
  }

  function Closer(s: MdState): string {
    (if s.fence != "" then s.fence + "\n" else "") + Closers(|s.details|)
  }

  function CloserLen(s: MdState): nat {
    |s.details| * |DETAILS_CLOSE| + if s.fence != "" then |s.fence| + 1 else 0
  }

  function SummaryLine(summary: string): string {
    "<summary>" + summary + " (continued)</summary>\n"
  }

  function OpenerOf(d: OpenDetails): string {
    "<details>\n" + if d.hasSummary then SummaryLine(d.summary) + "\n" else ""
  }

  function Openers(details: seq<OpenDetails>): string {
    if details == [] then "" else Openers(details[..|details| - 1]) + OpenerOf(details[|details| - 1])
  }

  function FenceLine(s: MdState): string {
    if s.fence != "" then s.fence + s.fenceInfo + "\n" else ""
  }

  function Opener(s: MdState): string {
    Openers(s.details) + FenceLine(s)
  }

  method CloserLoop(s: MdState) returns (text: string)
    ensures text == Closer(s)
  {
    var fence := if s.fence != "" then s.fence + "\n" else "";
    text := fence;
    for i := 0 to |s.details|
      invariant text == fence + Closers(i)
    {
      text := text + DETAILS_CLOSE;
    }
  }

  method OpenerLoop(s: MdState) returns (text: string)
    ensures text == Opener(s)
  {
    text := "";
    for i := 0 to |s.details|
      invariant text == Openers(s.details[..i])
    {
      var d := s.details[i];
      ghost var before := text;
      text := text + "<details>\n";
      if d.hasSummary {
        text := text + (SummaryLine(d.summary) + "\n");
      }
      assert text == before + OpenerOf(d);
      assert s.details[..i + 1][..i] == s.details[..i];
      hide OpenerOf;
    }
    assert s.details[..|s.details|] == s.details;
    if s.fence != "" {
      text := text + (s.fence + s.fenceInfo + "\n");
    }
  }

  lemma ClosersLength(n: nat)
    ensures |Closers(n)| == n * |DETAILS_CLOSE|
  {
  }

  /** closerLen is the length of closer, without building it. */
  lemma CloserLength(s: MdState)
    ensures |Closer(s)| == CloserLen(s)
  {
    ClosersLength(|s.details|);
  }
}
