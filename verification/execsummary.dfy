/**
 * `_extract_executive_summary`: the report's executive summary, found in
 * three tiers.
 *
 * 1. The body of a "## 1. Executive Summary" heading (matched without regard
 *    to ASCII case, any whitespace between the words) up to the next
 *    "\n## ", "\n---" or the end, trimmed, with `**x**` and `*x*` markers
 *    removed and whitespace runs collapsed to one space, when that leaves
 *    something.
 * 2. Otherwise up to five trimmed lines after the first line mentioning
 *    "executive summary", skipping blank and '#' lines and stopping at a line
 *    starting with "##" or "---", joined with spaces and with the markers
 *    removed.
 * 3. Otherwise the first 300 characters, trimmed.
 */
module ExecSummary {
  import opened Base
  import opened Text
  import opened Scan

  // ---------------------------------------------------------------------------
  // Tier 1: the heading pattern
  // ---------------------------------------------------------------------------

  /**
   * Where the text after "Summary" starts, for a heading
   * `##\s*1\.\s*Executive\s+Summary` that begins at `p`.
   */
  function HeadingEnd(s: string, p: nat): (r: Option<nat>)
    ensures r.Some? ==> p + 2 <= r.value <= |s|
  {
    if !OccursAt(s, "##", p) then None
    else
      var a := SpaceRunEnd(s, p + 2);
      if !OccursAt(s, "1.", a) then None
      else
        var b := SpaceRunEnd(s, a + 2);
        if !OccursAtFold(s, "executive", b) then None
        else
          var c := SpaceRunEnd(s, b + 9);
          if c == b + 9 || !OccursAtFold(s, "summary", c) then None
          else Some(c + 7)
  }

  /**
   * The last newline among positions a <= k < j: the trailing `\s*\n` of the
   * heading backtracks from the longest whitespace run, and the body after
   * it always matches, so the last newline of the run is the one used.
   */
  function LastNewline(s: string, a: nat, j: nat): (r: Option<nat>)
    requires a <= j <= |s|
    ensures r.Some? ==> a <= r.value < j && s[r.value] == '\n'
    ensures r.Some? ==> forall k :: r.value < k < j ==> s[k] != '\n'
    ensures r.None? <==> forall k :: a <= k < j ==> s[k] != '\n'
    decreases j
  {
    if j <= a then None
    else if s[j - 1] == '\n' then Some(j - 1)
    else LastNewline(s, a, j - 1)
  }

  /** The lookahead `(?=\n##\s|\n---|\Z)` at `q`. */
  predicate SectionEnds(s: string, q: nat) {
    q == |s|
    || (OccursAt(s, "\n##", q) && q + 3 < |s| && IsSpace(s[q + 3]))
    || OccursAt(s, "\n---", q)
  }

  /** The lazy body: the first position at or after `i` where a section ends. */
  function SectionEnd(s: string, i: nat): (q: nat)
    requires i <= |s|
    ensures i <= q <= |s| && SectionEnds(s, q)
    ensures forall k :: i <= k < q ==> !SectionEnds(s, k)
    decreases |s| - i
  {
    if SectionEnds(s, i) then i else SectionEnd(s, i + 1)
  }

  /** The group of a heading match at `p`, if the pattern matches there. */
  function SectionAt(s: string, p: nat): Option<string> {
    match HeadingEnd(s, p)
    case None => None
    case Some(e) =>
      match LastNewline(s, e, SpaceRunEnd(s, e))
      case None => None
      case Some(k) => Some(s[k + 1..SectionEnd(s, k + 1)])
  }

  /** `re.search`: the group of the leftmost match at or after `p`. */
  function Section(s: string, p: nat): (r: Option<string>)
    ensures r.None? <==> forall q :: p <= q <= |s| ==> SectionAt(s, q).None?
    decreases |s| - p
  {
    if p > |s| then None
    else if SectionAt(s, p).Some? then SectionAt(s, p)
    else Section(s, p + 1)
  }

  // ---------------------------------------------------------------------------
  // Markdown clean-up
  // ---------------------------------------------------------------------------

  predicate NotStar(c: char) {
    c != '*'
  }

  predicate NoStar(s: string) {
    forall j :: 0 <= j < |s| ==> s[j] != '*'
  }

  /** `**x**` at `i` with x a non-empty run without '*': the index of the closing "**". */
  function BoldAt(s: string, i: nat): (r: Option<nat>)
    ensures r.Some? ==> i + 2 < r.value && r.value + 2 <= |s|
  {
    if !OccursAt(s, "**", i) then None
    else
      var e := RunEnd(s, i + 2, NotStar);
      if e > i + 2 && OccursAt(s, "**", e) then Some(e) else None
  }

  /** `re.sub(r"\*\*([^*]+)\*\*", r"\1", s[i..])`. */
  function UnBold(s: string, i: nat): (r: string)
    ensures |r| <= |s| - i || (i > |s| && r == "")
    decreases |s| - i
  {
    if i >= |s| then ""
    else
      match BoldAt(s, i)
      case Some(e) => s[i + 2..e] + UnBold(s, e + 2)
      case None => [s[i]] + UnBold(s, i + 1)
  }

  /** `*x*` at `i` with x a non-empty run without '*': the index of the closing '*'. */
  function ItalicAt(s: string, i: nat): (r: Option<nat>)
    ensures r.Some? ==> i + 1 < r.value < |s|
  {
    if i >= |s| || s[i] != '*' then None
    else
      var e := RunEnd(s, i + 1, NotStar);
      if e > i + 1 && e < |s| && s[e] == '*' then Some(e) else None
  }

  /** `re.sub(r"\*([^*]+)\*", r"\1", s[i..])`. */
  function UnItalic(s: string, i: nat): (r: string)
    ensures |r| <= |s| - i || (i > |s| && r == "")
    decreases |s| - i
  {
    if i >= |s| then ""
    else
      match ItalicAt(s, i)
      case Some(e) => s[i + 1..e] + UnItalic(s, e + 1)
      case None => [s[i]] + UnItalic(s, i + 1)
  }

  /** Both marker substitutions, bold first. */
  function Unmark(s: string): (r: string)
    ensures |r| <= |s|
  {
    UnItalic(UnBold(s, 0), 0)
  }

  lemma {:induction false} UnBoldNoStar(s: string, i: nat)
    requires i <= |s| && NoStar(s)
    ensures UnBold(s, i) == s[i..]
    decreases |s| - i
  {
    if i < |s| {
      UnBoldNoStar(s, i + 1);
      assert s[i..] == [s[i]] + s[i + 1..];
    }
  }

  lemma {:induction false} UnItalicNoStar(s: string, i: nat)
    requires i <= |s| && NoStar(s)
    ensures UnItalic(s, i) == s[i..]
    decreases |s| - i
  {
    if i < |s| {
      UnItalicNoStar(s, i + 1);
      assert s[i..] == [s[i]] + s[i + 1..];
    }
  }

  /** Text without '*' has no markers to remove. */
  lemma UnmarkNoStar(s: string)
    requires NoStar(s)
    ensures Unmark(s) == s
  {
    UnBoldNoStar(s, 0);
    UnItalicNoStar(s, 0);
  }

  /** A bold marker pair around star-free text is removed, leaving the text. */
  lemma UnmarkBold(x: string)
    requires |x| > 0 && NoStar(x)
    ensures Unmark("**" + x + "**") == x
  {
    var s := "**" + x + "**";
    var e := |x| + 2;
    assert s[e] == '*';
    assert forall k :: 2 <= k < e ==> s[k] == x[k - 2];
    assert RunEnd(s, 2, NotStar) == e;
    assert s[e..e + 2] == "**";
    assert BoldAt(s, 0) == Some(e);
    assert s[2..e] == x;
    assert UnBold(s, e + 2) == "";
    assert UnBold(s, 0) == x;
    UnItalicNoStar(x, 0);
    assert x[0..] == x;
  }

  /** An italic marker pair around star-free text is removed, leaving the text. */
  lemma UnmarkItalic(x: string)
    requires |x| > 0 && NoStar(x)
    ensures Unmark("*" + x + "*") == x
  {
    var s := "*" + x + "*";
    var e := |x| + 1;
    forall j | 0 <= j < |s| - 1
      ensures !(s[j] == '*' && s[j + 1] == '*')
    {
      if j == 0 { assert s[1] == x[0]; } else { assert s[j] == x[j - 1]; }
    }
    UnBoldNoPair(s, 0);
    assert s[0..] == s;
    assert forall k :: 1 <= k < e ==> s[k] == x[k - 1];
    assert s[e] == '*';
    assert RunEnd(s, 1, NotStar) == e;
    assert ItalicAt(s, 0) == Some(e);
    assert s[1..e] == x;
    assert UnItalic(s, e + 1) == "";
  }

  /** Without two adjacent stars, the bold substitution changes nothing. */
  lemma {:induction false} UnBoldNoPair(s: string, i: nat)
    requires i <= |s|
    requires forall j :: 0 <= j < |s| - 1 ==> !(s[j] == '*' && s[j + 1] == '*')
    ensures UnBold(s, i) == s[i..]
    decreases |s| - i
  {
    if i < |s| {
      if i + 2 <= |s| {
        assert s[i..i + 2][0] == s[i] && s[i..i + 2][1] == s[i + 1];
      }
      UnBoldNoPair(s, i + 1);
      assert s[i..] == [s[i]] + s[i + 1..];
    }
  }

  /** Text whose only whitespace is single spaces. */
  predicate SingleSpaced(s: string) {
    (forall j :: 0 <= j < |s| && IsSpace(s[j]) ==> s[j] == ' ')
    && (forall j :: 0 <= j < |s| - 1 && s[j] == ' ' ==> s[j + 1] != ' ')
  }

  /** `re.sub(r"\s+", " ", s[i..])`. */
  function Collapse(s: string, i: nat): (r: string)
    requires i <= |s|
    ensures SingleSpaced(r)
    ensures |r| > 0 && r[0] == ' ' <==> i < |s| && IsSpace(s[i])
    ensures |r| == 0 <==> i == |s|
    decreases |s| - i
  {
    if i == |s| then ""
    else if IsSpace(s[i]) then
      var rest := Collapse(s, SpaceRunEnd(s, i));
      assert |rest| > 0 ==> rest[0] != ' ';
      " " + rest
    else
      var rest := Collapse(s, i + 1);
      [s[i]] + rest
  }

  /** Collapsing is the identity on single-spaced text. */
  lemma {:induction false} CollapseSingleSpaced(s: string, i: nat)
    requires i <= |s| && SingleSpaced(s)
    ensures Collapse(s, i) == s[i..]
    decreases |s| - i
  {
    if i < |s| {
      if IsSpace(s[i]) {
        assert i + 1 < |s| ==> !IsSpace(s[i + 1]);
        assert SpaceRunEnd(s, i) == i + 1;
      }
      CollapseSingleSpaced(s, i + 1);
      assert s[i..] == [s[i]] + s[i + 1..];
    }
  }

  // ---------------------------------------------------------------------------
  // Tier 2: lines after an "executive summary" line
  // ---------------------------------------------------------------------------

  predicate MentionsSummary(line: string) {
    Contains(Lower(line), "executive summary")
  }

  /** A collected line: trimmed, not blank, not a heading. */
  predicate Collectable(t: string) {
    |t| > 0 && !IsSpace(t[0]) && !IsSpace(t[|t| - 1]) && t[0] != '#'
  }

  /** What the capture loop does with one line once capturing. */
  datatype LineAction = StopHere | Collect | SkipLine

  /** A trimmed line starting "##" or "---" ends the capture; a non-blank, non-'#' one is collected. */
  function LineActionOf(line: string): (a: LineAction)
    ensures a == Collect ==> Collectable(Strip(line))
  {
    var t := Strip(line);
    if StartsWith(t, "##") || StartsWith(t, "---") then StopHere
    else if |t| > 0 && t[0] != '#' then Collect
    else SkipLine
  }

  /**
   * The capture loop from line `i`, with `capture` set once a line mentions
   * the executive summary (such lines are skipped, also later ones) and
   * `acc` the lines collected so far.
   */
  function CollectFrom(lines: seq<string>, i: nat, capture: bool, acc: seq<string>): (r: seq<string>)
    requires |acc| < 5
    ensures |r| <= 5 && acc <= r
    decreases |lines| - i
  {
    if i >= |lines| then acc
    else if MentionsSummary(lines[i]) then CollectFrom(lines, i + 1, true, acc)
    else if !capture then CollectFrom(lines, i + 1, false, acc)
    else
      match LineActionOf(lines[i])
      case StopHere => acc
      case SkipLine => CollectFrom(lines, i + 1, true, acc)
      case Collect =>
        var acc' := acc + [Strip(lines[i])];
        if |acc'| >= 5 then acc' else CollectFrom(lines, i + 1, true, acc')
  }

  /** Every collected line is trimmed, non-blank and not a heading. */
  lemma {:induction false} CollectedAreCollectable(lines: seq<string>, i: nat, capture: bool, acc: seq<string>)
    requires |acc| < 5
    requires forall k :: 0 <= k < |acc| ==> Collectable(acc[k])
    ensures forall k :: 0 <= k < |CollectFrom(lines, i, capture, acc)| ==> Collectable(CollectFrom(lines, i, capture, acc)[k])
    decreases |lines| - i
  {
    if i < |lines| {
      if MentionsSummary(lines[i]) {
        CollectedAreCollectable(lines, i + 1, true, acc);
      } else if !capture {
        CollectedAreCollectable(lines, i + 1, false, acc);
      } else {
        match LineActionOf(lines[i]) {
          case StopHere =>
          case SkipLine =>
            CollectedAreCollectable(lines, i + 1, true, acc);
          case Collect =>
            var acc' := acc + [Strip(lines[i])];
            AppendCollectable(acc, Strip(lines[i]));
            if |acc'| < 5 {
              CollectedAreCollectable(lines, i + 1, true, acc');
              assert CollectFrom(lines, i, capture, acc) == CollectFrom(lines, i + 1, true, acc');
            } else {
              assert CollectFrom(lines, i, capture, acc) == acc';
            }
        }
      }
    }
  }

  lemma AppendCollectable(acc: seq<string>, t: string)
    requires forall k :: 0 <= k < |acc| ==> Collectable(acc[k])
    requires Collectable(t)
    ensures forall k :: 0 <= k < |acc + [t]| ==> Collectable((acc + [t])[k])
  {
  }

  /** Before the first line mentioning the executive summary nothing is collected. */
  lemma {:induction false} NothingBeforeMention(lines: seq<string>, i: nat)
    requires forall k :: i <= k < |lines| ==> !MentionsSummary(lines[k])
    ensures CollectFrom(lines, i, false, []) == []
    decreases |lines| - i
  {
    if i < |lines| {
      NothingBeforeMention(lines, i + 1);
    }
  }

  // ---------------------------------------------------------------------------
  // The three tiers
  // ---------------------------------------------------------------------------

  /** Tier 1's cleaned section text, when the heading is found. */
  function SectionText(s: string): Option<string> {
    match Section(s, 0)
    case None => None
    case Some(body) => Some(Strip(Collapse(Unmark(Strip(body)), 0)))
  }

  /**
   * `_extract_executive_summary`: the cleaned "Executive Summary" section
   * when it is non-empty; otherwise the collected lines after a line that
   * mentions it, joined by spaces and unmarked; otherwise the report's first
   * 300 characters, trimmed.
   */
  function ExecutiveSummary(report: string): (r: string)
    ensures SectionText(report).Some? && SectionText(report).value != "" ==> r == SectionText(report).value
    ensures (SectionText(report).None? || SectionText(report).value == "")
            && CollectFrom(SplitLines(report), 0, false, []) == []
            ==> r == Strip(Take(report, 300)) && |r| <= 300
    ensures (SectionText(report).None? || SectionText(report).value == "")
            && |CollectFrom(SplitLines(report), 0, false, [])| > 0
            ==> r == Strip(Unmark(Join(" ", CollectFrom(SplitLines(report), 0, false, []))))
  {
    var tier1 := SectionText(report);
    if tier1.Some? && tier1.value != "" then tier1.value
    else
      var collected := CollectFrom(SplitLines(report), 0, false, []);
      if |collected| > 0 then Strip(Unmark(Join(" ", collected)))
      else Strip(Take(report, 300))
  }

  predicate NoHash(s: string) {
    forall j :: 0 <= j < |s| ==> s[j] != '#'
  }

  /**
   * A report without a '#' and without a line mentioning the executive
   * summary falls through to its first 300 characters.
   */
  lemma PlainReportTruncated(report: string)
    requires NoHash(report)
    requires forall k :: 0 <= k < |SplitLines(report)| ==> !MentionsSummary(SplitLines(report)[k])
    ensures ExecutiveSummary(report) == Strip(Take(report, 300))
    ensures |ExecutiveSummary(report)| <= 300
  {
    forall q | 0 <= q <= |report|
      ensures SectionAt(report, q).None?
    {
      assert !OccursAt(report, "##", q) by {
        if q < |report| { assert report[q] != '#'; }
      }
    }
    NothingBeforeMention(SplitLines(report), 0);
  }

  const Heading: string := "## 1. Executive Summary\n"

  /**
   * A report that opens with the section heading, followed by a one-line,
   * single-spaced, unmarked summary, yields exactly that summary.
   */
  lemma HeadedSummaryExtracted(body: string)
    requires |body| > 0 && !IsSpace(body[0]) && !IsSpace(body[|body| - 1])
    requires SingleSpaced(body) && NoStar(body)
    ensures ExecutiveSummary(Heading + body) == body
  {
    HeadedSection(body);
    CleanBodyUnchanged(body);
  }

  lemma HeadedSection(body: string)
    requires |body| > 0 && !IsSpace(body[0])
    requires SingleSpaced(body)
    ensures Section(Heading + body, 0) == Some(body)
  {
    HeadedSectionAt(body);
  }

  lemma HeadedSectionAt(body: string)
    requires |body| > 0 && !IsSpace(body[0])
    requires SingleSpaced(body)
    ensures SectionAt(Heading + body, 0) == Some(body)
  {
    var s := Heading + body;
    HeadingMatches(body);
    SectionRunsToEnd(body);
    assert s[24..|s|] == body;
  }

  lemma CleanBodyUnchanged(body: string)
    requires |body| > 0 && !IsSpace(body[0]) && !IsSpace(body[|body| - 1])
    requires SingleSpaced(body) && NoStar(body)
    ensures Strip(Collapse(Unmark(Strip(body)), 0)) == body
  {
    StripOfTrimmed(body);
    UnmarkNoStar(body);
    CollapseSingleSpaced(body, 0);
  }

  lemma HeadingMatches(body: string)
    requires |body| > 0 && !IsSpace(body[0])
    ensures HeadingEnd(Heading + body, 0) == Some(23)
    ensures SpaceRunEnd(Heading + body, 23) == 24
    ensures LastNewline(Heading + body, 23, 24) == Some(23)
  {
    var s := Heading + body;
    assert s[..24] == Heading;
    HeadingNumber(s);
    HeadingExecutive(s);
    HeadingSummary(s);
    assert s[23] == '\n' && s[24] == body[0];
  }

  lemma HeadingNumber(s: string)
    requires |s| >= 24 && s[..24] == Heading
    ensures OccursAt(s, "##", 0) && SpaceRunEnd(s, 2) == 3 && OccursAt(s, "1.", 3) && SpaceRunEnd(s, 5) == 6
  {
    HeadingMarks(s);
    HeadingSpace(s, 2);
    HeadingSpace(s, 5);
  }

  lemma HeadingMarks(s: string)
    requires |s| >= 24 && s[..24] == Heading
    ensures OccursAt(s, "##", 0) && OccursAt(s, "1.", 3)
  {
    HeadingHashes(s);
    HeadingOne(s);
  }

  lemma HeadingHashes(s: string)
    requires |s| >= 24 && s[..24] == Heading
    ensures OccursAt(s, "##", 0)
  {
    HeadingSlice(s, 0, 2);
    assert Heading[0] == '#' && Heading[1] == '#';
    assert Heading[0..2] == "##";
  }

  lemma HeadingOne(s: string)
    requires |s| >= 24 && s[..24] == Heading
    ensures OccursAt(s, "1.", 3)
  {
    HeadingSlice(s, 3, 5);
    assert Heading[3] == '1' && Heading[4] == '.';
    assert Heading[3..5] == "1.";
  }

  lemma HeadingExecutive(s: string)
    requires |s| >= 24 && s[..24] == Heading
    ensures OccursAtFold(s, "executive", 6) && SpaceRunEnd(s, 15) == 16
  {
    HeadingWord(s);
    HeadingSpace(s, 15);
  }

  lemma HeadingWord(s: string)
    requires |s| >= 24 && s[..24] == Heading
    ensures OccursAtFold(s, "executive", 6)
  {
    HeadingSlice(s, 6, 15);
    FoldExecutive();
  }

  lemma HeadingSummary(s: string)
    requires |s| >= 24 && s[..24] == Heading
    ensures OccursAtFold(s, "summary", 16)
  {
    HeadingSlice(s, 16, 23);
    FoldSummary();
  }

  /** A text that opens with the heading carries each of its slices. */
  lemma HeadingSlice(s: string, i: nat, j: nat)
    requires |s| >= 24 && s[..24] == Heading && i <= j <= 24
    ensures s[i..j] == Heading[i..j]
  {
    forall k | i <= k < j
      ensures s[k] == Heading[k]
    {
      assert s[..24][k] == s[k];
    }
  }

  /** The single space at `i` in the heading is a run ending at `i + 1`. */
  lemma HeadingSpace(s: string, i: nat)
    requires |s| >= 24 && s[..24] == Heading && i + 1 < 24
    requires Heading[i] == ' ' && Heading[i + 1] != ' '
    ensures SpaceRunEnd(s, i) == i + 1
  {
    assert s[i] == s[..24][i] && s[i + 1] == s[..24][i + 1];
    assert !IsSpace(Heading[i + 1]);
  }

  lemma FoldExecutive()
    ensures Lower("Executive") == "executive"
  {
    var l := Lower("Executive");
    assert l[0] == 'e';
  }

  lemma FoldSummary()
    ensures Lower("Summary") == "summary"
  {
    var l := Lower("Summary");
    assert l[0] == 's';
  }

  lemma SectionRunsToEnd(body: string)
    requires SingleSpaced(body)
    ensures SectionEnd(Heading + body, 24) == |Heading + body|
  {
    var s := Heading + body;
    forall k | 24 <= k < |s|
      ensures !SectionEnds(s, k)
    {
      var c := body[k - 24];
      assert s[k] == c;
      assert IsSpace(c) ==> c == ' ';
      assert c != '\n';
      NotOccursAt(s, "\n##", k);
      NotOccursAt(s, "\n---", k);
    }
  }
}
