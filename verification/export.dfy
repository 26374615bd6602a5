/**
 * The Markdown export front end: `_strip_md`, the line loop shared by the
 * Word and PDF builders (line classification, table collection and row
 * parsing), the per-builder content of each block, and the format dispatch
 * of `export_report`.
 *
 * The documents themselves (python-docx, reportlab) are not modelled: a
 * builder's result is the sequence of blocks it adds, each with the text
 * or runs it is given.
 */
module Export {
  import opened Base
  import opened Text
  import opened Scan
  import opened Inline

  // ---------------------------------------------------------------------------
  // _strip_md
  // ---------------------------------------------------------------------------

  /** Where a MULTILINE `^` matches: the start of the text or just after a '\n'. */
  predicate LineStart(s: string, i: nat) {
    i == 0 || (i <= |s| && s[i - 1] == '\n')
  }

  predicate IsNewline(c: char) { c == '\n' }
  predicate IsHash(c: char) { c == '#' }
  predicate IsRuleChar(c: char) { c == '-' || c == '|' }
  predicate NotNewline(c: char) { c != '\n' }

  /** `^#{1,6}\s*`: up to six '#' at a line start and the whitespace after them (which may run past line ends). */
  function HeadingMarkHit(s: string, i: nat): (r: Option<Hit>)
    ensures r.Some? ==> i < r.value.end <= |s| && r.value.replacement == ""
  {
    if i < |s| && LineStart(s, i) && s[i] == '#' then
      Some(Hit(SpaceRunEnd(s, Min(RunEnd(s, i, IsHash), i + 6)), ""))
    else None
  }

  /** `^\|.*\|$`: a whole line of at least two characters that starts and ends with '|'. */
  function TableLineHit(s: string, i: nat): (r: Option<Hit>)
    ensures r.Some? ==> i < r.value.end <= |s| && r.value.replacement == ""
  {
    if i < |s| && LineStart(s, i) && s[i] == '|' then
      var e := RunEnd(s, i, NotNewline);
      if e >= i + 2 && s[e - 1] == '|' then Some(Hit(e, "")) else None
    else None
  }

  /** `^[-|]+$`: a whole non-empty line of '-' and '|'. */
  function RuleLineHit(s: string, i: nat): (r: Option<Hit>)
    ensures r.Some? ==> i < r.value.end <= |s| && r.value.replacement == ""
  {
    if i < |s| && LineStart(s, i) then
      var e := RunEnd(s, i, IsRuleChar);
      if e > i && (e == |s| || s[e] == '\n') then Some(Hit(e, "")) else None
    else None
  }

  /** `^>\s*`: a '>' at a line start and the whitespace after it. */
  function QuoteMarkHit(s: string, i: nat): (r: Option<Hit>)
    ensures r.Some? ==> i < r.value.end <= |s| && r.value.replacement == ""
  {
    if i < |s| && LineStart(s, i) && s[i] == '>' then Some(Hit(SpaceRunEnd(s, i + 1), "")) else None
  }

  /** `\n{3,}` replaced by two newlines: the whole run of newlines from a place where three begin. */
  function CollapseHit(s: string, i: nat): (r: Option<Hit>)
    ensures r.Some? ==> i + 3 <= r.value.end <= |s| && r.value.replacement == "\n\n"
  {
    if OccursAt(s, "\n\n\n", i) then
      assert s[i] == '\n' && s[i + 1] == '\n' && s[i + 2] == '\n';
      Some(Hit(RunEnd(s, i, IsNewline), "\n\n"))
    else None
  }

  function Collapse(s: string): string {
    Sub(s, CollapseHit, 0)
  }

  /** `_strip_md`: the seven substitutions in order, then `strip()`. */
  function StripMd(text: string): string {
    var headings := Sub(text, HeadingMarkHit, 0);
    var strong := PairSub(headings, "**", "", "");
    var emphasis := PairSub(strong, "*", "", "");
    var code := PairSub(emphasis, "`", "", "");
    var tables := Sub(code, TableLineHit, 0);
    var rules := Sub(tables, RuleLineHit, 0);
    var quotes := Sub(rules, QuoteMarkHit, 0);
    Strip(Collapse(quotes))
  }

  /** No three newlines in a row. */
  predicate NoTripleNewline(x: string) {
    forall k :: 0 <= k < |x| - 2 ==> !(x[k] == '\n' && x[k + 1] == '\n' && x[k + 2] == '\n')
  }

  /** The number of newlines `x` starts with. */
  function LeadingNewlines(x: string): (n: nat)
    ensures n <= |x|
  {
    if |x| > 0 && x[0] == '\n' then 1 + LeadingNewlines(x[1..]) else 0
  }

  lemma ConsNoTriple(c: char, x: string)
    requires NoTripleNewline(x)
    requires c != '\n' || LeadingNewlines(x) <= 1
    ensures NoTripleNewline([c] + x)
    ensures LeadingNewlines([c] + x) == if c == '\n' then 1 + LeadingNewlines(x) else 0
  {
    var y := [c] + x;
    assert y[1..] == x;
    forall k | 0 <= k < |y| - 2
      ensures !(y[k] == '\n' && y[k + 1] == '\n' && y[k + 2] == '\n')
    {
      if k > 0 {
        assert y[k] == x[k - 1] && y[k + 1] == x[k] && y[k + 2] == x[k + 1];
      }
    }
  }

  /** Collapsing from any position has the shape below. */
  lemma {:induction false} CollapseFrom(s: string, i: nat)
    requires i <= |s|
    ensures CollapseShape(s, i)
    decreases |s| - i
  {
    if i < |s| {
      match CollapseHit(s, i)
      case Some(h) =>
        CollapseFrom(s, h.end);
        CollapseAtHit(s, i);
      case None =>
        CollapseFrom(s, i + 1);
        CollapseAtMiss(s, i);
    }
  }

  /**
   * Collapsing from `i` leaves no three newlines in a row, and starts with
   * at most two newlines and no more than the text has at `i`.
   */
  predicate CollapseShape(s: string, i: nat)
    requires i <= |s|
  {
    var out := Sub(s, CollapseHit, i);
    NoTripleNewline(out) && LeadingNewlines(out) <= 2 && LeadingNewlines(out) <= RunEnd(s, i, IsNewline) - i
  }

  lemma CollapseAtHit(s: string, i: nat)
    requires i < |s| && CollapseHit(s, i).Some?
    requires CollapseShape(s, CollapseHit(s, i).value.end)
    ensures CollapseShape(s, i)
  {
    var h := CollapseHit(s, i).value;
    var rest := Sub(s, CollapseHit, h.end);
    assert RunEnd(s, h.end, IsNewline) == h.end;
    ConsNoTriple('\n', rest);
    ConsNoTriple('\n', ['\n'] + rest);
    assert Sub(s, CollapseHit, i) == ['\n'] + (['\n'] + rest);
    RunEndAtLeast(s, i, 3);
  }

  lemma CollapseAtMiss(s: string, i: nat)
    requires i < |s| && CollapseHit(s, i).None?
    requires CollapseShape(s, i + 1)
    ensures CollapseShape(s, i)
  {
    var rest := Sub(s, CollapseHit, i + 1);
    assert Sub(s, CollapseHit, i) == [s[i]] + rest;
    if s[i] == '\n' {
      assert RunEnd(s, i, IsNewline) == RunEnd(s, i + 1, IsNewline);
      assert RunEnd(s, i + 1, IsNewline) < i + 3;
    } else {
      assert RunEnd(s, i, IsNewline) == i;
    }
    ConsNoTriple(s[i], rest);
  }

  lemma RunEndAtLeast(s: string, i: nat, n: nat)
    requires i + n <= |s| && forall k :: i <= k < i + n ==> s[k] == '\n'
    ensures RunEnd(s, i, IsNewline) >= i + n
  {
  }

  lemma ThreeNewlines(s: string, i: nat)
    requires OccursAt(s, "\n\n\n", i)
    ensures s[i] == '\n' && s[i + 1] == '\n' && s[i + 2] == '\n'
  {
    assert s[i..i + 3] == "\n\n\n";
  }

  lemma SliceNoTriple(x: string, a: nat, b: nat)
    requires a <= b <= |x| && NoTripleNewline(x)
    ensures NoTripleNewline(x[a..b])
  {
    var y := x[a..b];
    forall k | 0 <= k < |y| - 2
      ensures !(y[k] == '\n' && y[k + 1] == '\n' && y[k + 2] == '\n')
    {
      assert y[k] == x[a + k] && y[k + 1] == x[a + k + 1] && y[k + 2] == x[a + k + 2];
    }
  }

  /** Collapsing leaves no run of three newlines. */
  lemma CollapseNoTriple(s: string)
    ensures NoTripleNewline(Collapse(s))
  {
    CollapseFrom(s, 0);
  }

  /** Stripping a text without three newlines in a row keeps it so. */
  lemma StripNoTriple(x: string)
    requires NoTripleNewline(x)
    ensures NoTripleNewline(Strip(x))
  {
    LStripNoTriple(x);
    RStripNoTriple(LStrip(x));
  }

  lemma LStripNoTriple(x: string)
    requires NoTripleNewline(x)
    ensures NoTripleNewline(LStrip(x))
  {
    SliceNoTriple(x, |x| - |LStrip(x)|, |x|);
  }

  lemma RStripNoTriple(x: string)
    requires NoTripleNewline(x)
    ensures NoTripleNewline(RStrip(x))
  {
    SliceNoTriple(x, 0, |RStrip(x)|);
  }

  /** The plain text has no run of three newlines and no whitespace at either end. */
  lemma StripMdShape(text: string)
    ensures NoTripleNewline(StripMd(text))
    ensures |StripMd(text)| > 0 ==> !IsSpace(StripMd(text)[0]) && !IsSpace(StripMd(text)[|StripMd(text)| - 1])
  {
    var quotes := Sub(Sub(Sub(PairSub(PairSub(PairSub(Sub(text, HeadingMarkHit, 0), "**", "", ""), "*", "", ""), "`", "", ""),
                              TableLineHit, 0), RuleLineHit, 0), QuoteMarkHit, 0);
    assert StripMd(text) == Strip(Collapse(quotes));
    CollapseNoTriple(quotes);
    StripNoTriple(Collapse(quotes));
  }

  /** Text with none of the Markdown marks and no three newlines in a row is only stripped. */
  lemma StripMdOfPlainText(text: string)
    requires forall k :: 0 <= k < |text| ==> text[k] !in {'#', '*', '`', '|', '-', '>'}
    requires NoTripleNewline(text)
    ensures StripMd(text) == Strip(text)
  {
    forall j | 0 <= j < |text|
      ensures HeadingMarkHit(text, j).None? && TableLineHit(text, j).None? && QuoteMarkHit(text, j).None?
      ensures RuleLineHit(text, j).None? && CollapseHit(text, j).None?
    {
      assert text[j] != '#' && text[j] != '|' && text[j] != '>';
      assert RunEnd(text, j, IsRuleChar) == j;
      if OccursAt(text, "\n\n\n", j) {
        ThreeNewlines(text, j);
      }
    }
    SubNoMatch(text, HeadingMarkHit, 0);
    PairSubIdentity(text, "**", "", "");
    PairSubIdentity(text, "*", "", "");
    PairSubIdentity(text, "`", "", "");
    SubNoMatch(text, TableLineHit, 0);
    SubNoMatch(text, RuleLineHit, 0);
    SubNoMatch(text, QuoteMarkHit, 0);
    SubNoMatch(text, CollapseHit, 0);
  }

  // ---------------------------------------------------------------------------
  // Line classification, shared by _build_docx and _build_pdf
  // ---------------------------------------------------------------------------

  /** What a builder adds for one line, or for one run of table lines. */
  datatype Block<T> =
    | Heading(level: nat, content: T)
    | Rule
    | Quote(content: T)
    | Table(rows: seq<seq<T>>)
    | Numbered(content: T)
    | Bullet(content: T)
    | Blank
    | Note(content: T)
    | Paragraph(content: T)

  /** A line either starts a table or makes one block. */
  datatype LineClass = TableLine | Single(block: Block<string>)

  /** The line's first two characters are `a` and `b`. */
  predicate Opens(line: string, a: char, b: char) {
    |line| >= 2 && line[0] == a && line[1] == b
  }

  /**
   * The level of a "# ", "## " or "### " heading line, and 0 for any other
   * line: one to three '#' followed by a space ("#### " is not a heading).
   */
  function HeadingLevel(line: string): (n: nat)
    ensures n <= 3
    ensures n > 0 ==> n < |line| && line[n] == ' ' && forall k :: 0 <= k < n ==> line[k] == '#'
  {
    var h := RunEnd(line, 0, IsHash);
    if 1 <= h <= 3 && h < |line| && line[h] == ' ' then h else 0
  }

  /** `re.match(r"^\d+\.\s", line)`: the index of the '.' that follows the leading digits. */
  function NumberDot(line: string): (r: Option<nat>)
    ensures r.Some? ==> 0 < r.value && r.value + 1 < |line| && line[r.value] == '.' && IsSpace(line[r.value + 1])
    ensures r.Some? ==> forall k :: 0 <= k < r.value ==> IsAsciiDigit(line[k])
  {
    var d := RunEnd(line, 0, IsAsciiDigit);
    if d > 0 && d + 1 < |line| && line[d] == '.' && IsSpace(line[d + 1]) then Some(d) else None
  }

  /**
   * The builders' line tests in their order, up to the paragraph fallback.
   * A numbered line's text is what follows the '.' and the whitespace after it.
   */
  function ClassifyLine(line: string): (r: LineClass)
    ensures r == TableLine <==> |line| > 0 && line[0] == '|'
    ensures r.Single? ==> !r.block.Table? && !r.block.Note?
    ensures r.Single? && r.block.Heading? <==> HeadingLevel(line) > 0
    ensures r.Single? && r.block.Heading? ==>
              r.block.level == HeadingLevel(line) && r.block.content == Strip(line[HeadingLevel(line) + 1..])
    ensures r == Single(Rule) <==> HeadingLevel(line) == 0 && Strip(line) == "---"
    ensures r.Single? && r.block.Quote? <==> HeadingLevel(line) == 0 && Strip(line) != "---" && Opens(line, '>', ' ')
    ensures r.Single? && r.block.Quote? ==> r.block.content == Strip(line[2..])
    ensures r.Single? && r.block.Numbered? <==>
              HeadingLevel(line) == 0 && Strip(line) != "---" && !Opens(line, '>', ' ') && !(|line| > 0 && line[0] == '|')
              && NumberDot(line).Some?
    ensures r.Single? && r.block.Numbered? ==> r.block.content == LStrip(line[NumberDot(line).value + 1..])
    ensures r.Single? && r.block.Bullet? ==>
              (Opens(line, '-', ' ') || Opens(line, '*', ' ')) && NumberDot(line).None? && r.block.content == Strip(line[2..])
    ensures r == Single(Blank) ==> Strip(line) == ""
    ensures r.Single? && r.block.Paragraph? ==>
              r.block.content == line && Strip(line) != "" && HeadingLevel(line) == 0 && NumberDot(line).None?
              && !Opens(line, '>', ' ') && !Opens(line, '-', ' ') && !Opens(line, '*', ' ') && !(|line| > 0 && line[0] == '|')
  {
    var h := HeadingLevel(line);
    if h > 0 then Single(Heading(h, Strip(line[h + 1..])))
    else if Strip(line) == "---" then Single(Rule)
    else if Opens(line, '>', ' ') then Single(Quote(Strip(line[2..])))
    else if |line| > 0 && line[0] == '|' then
      assert Strip(line) != "---" by { StripFirst(line); }
      TableLine
    else if NumberDot(line).Some? then Single(Numbered(LStrip(line[NumberDot(line).value + 1..])))
    else if Opens(line, '-', ' ') || Opens(line, '*', ' ') then Single(Bullet(Strip(line[2..])))
    else if Strip(line) == "" then Single(Blank)
    else Single(Paragraph(line))
  }

  /** The line the dossier closes with, which the PDF builder sets in the code style. */
  const DossierNote: string := "*This dossier"

  /** The line test of the PDF builder (`pdf`) or of the Word builder. */
  function Classify(line: string, pdf: bool): (r: LineClass)
    ensures r == TableLine <==> |line| > 0 && line[0] == '|'
    ensures r.Single? ==> !r.block.Table?
    ensures r.Single? && r.block.Note? <==> pdf && ClassifyLine(line) == Single(Paragraph(line)) && StartsWith(line, DossierNote)
  {
    var c := ClassifyLine(line);
    if pdf && c == Single(Paragraph(line)) && StartsWith(line, DossierNote) then Single(Note(line)) else c
  }

  /** Stripping keeps a first character that is not whitespace. */
  lemma StripFirst(x: string)
    requires |x| > 0 && !IsSpace(x[0])
    ensures |Strip(x)| > 0 && Strip(x)[0] == x[0]
  {
    StripIsSlice(x);
    var a :| 0 <= a && a + |Strip(x)| <= |x| && Strip(x) == x[a..a + |Strip(x)|]
             && AllSpace(x[..a]) && AllSpace(x[a + |Strip(x)|..]);
    if a > 0 {
      assert x[..a][0] == x[0];
    }
  }

  /** The two builders classify every line alike, except the PDF builder's note. */
  lemma ClassifyBuildersAgree(line: string)
    ensures Classify(line, true) == Classify(line, false)
            || (Classify(line, true) == Single(Note(line)) && Classify(line, false) == Single(Paragraph(line)))
  {
  }

  /** A heading line of one to three '#' is a heading of that level, with its text trimmed. */
  lemma HeadingLine(level: nat, t: string, pdf: bool)
    requires 1 <= level <= 3
    ensures Classify(seq(level, _ => '#') + " " + t, pdf) == Single(Heading(level, Strip(t)))
  {
    var line := seq(level, _ => '#') + " " + t;
    assert line[level + 1..] == t;
    RunEndAt(line, 0, level, IsHash);
  }

  /** A heading has one to three '#', a space and the text. */
  lemma HeadingShape(line: string)
    requires HeadingLevel(line) > 0
    ensures line == seq(HeadingLevel(line), _ => '#') + " " + line[HeadingLevel(line) + 1..]
  {
  }

  /** "> " and a text is a quote of the trimmed text. */
  lemma QuoteLine(t: string, pdf: bool)
    ensures Classify("> " + t, pdf) == Single(Quote(Strip(t)))
  {
    var line := "> " + t;
    assert line[0] == '>' && line[1] == ' ';
    EarlyTestsFail(line);
    assert line[2..] == t;
    assert ClassifyLine(line) == Single(Quote(Strip(t)));
  }

  /** "* " and a text is a bullet of the trimmed text. */
  lemma BulletLine(t: string, pdf: bool)
    ensures Classify("* " + t, pdf) == Single(Bullet(Strip(t)))
  {
    var line := "* " + t;
    assert line[0] == '*' && line[1] == ' ';
    EarlyTestsFail(line);
    assert line[2..] == t;
    assert ClassifyLine(line) == Single(Bullet(Strip(t)));
  }

  /** A line opening with a mark other than '#', '-', '|' or a digit fails the heading, rule, table and numbered tests. */
  lemma EarlyTestsFail(line: string)
    requires |line| > 0 && line[0] != '#' && line[0] != '-' && line[0] != '|'
    requires !IsSpace(line[0]) && !IsAsciiDigit(line[0])
    ensures HeadingLevel(line) == 0 && Strip(line) != "---" && NumberDot(line).None?
  {
    assert RunEnd(line, 0, IsHash) == 0;
    assert RunEnd(line, 0, IsAsciiDigit) == 0;
    StripFirst(line);
  }

  /** Digits, ". " and a text is a numbered item of the text without its leading whitespace. */
  lemma NumberedLine(digits: string, t: string, pdf: bool)
    requires |digits| > 0 && forall k :: 0 <= k < |digits| ==> IsAsciiDigit(digits[k])
    ensures Classify(digits + ". " + t, pdf) == Single(Numbered(LStrip(t)))
  {
    var line := digits + ". " + t;
    NumberedTests(line, digits, t);
    assert line[|digits| + 1..] == " " + t;
    LStripSpace(t);
    assert ClassifyLine(line) == Single(Numbered(LStrip(t)));
  }

  /** The tests before the numbered one all fail on a line that starts with a digit. */
  lemma NumberedTests(line: string, digits: string, t: string)
    requires |digits| > 0 && forall k :: 0 <= k < |digits| ==> IsAsciiDigit(digits[k])
    requires line == digits + ". " + t
    ensures HeadingLevel(line) == 0 && Strip(line) != "---" && !Opens(line, '>', ' ') && line[0] != '|'
    ensures NumberDot(line) == Some(|digits|)
  {
    assert line[0] == digits[0];
    StripFirst(line);
    RunEndAt(line, 0, |digits|, IsAsciiDigit);
  }

  /** A run of `p` characters from `i` that stops at `e`. */
  lemma {:induction false} RunEndAt(line: string, i: nat, e: nat, p: char -> bool)
    requires i <= e < |line| && !p(line[e])
    requires forall k :: i <= k < e ==> p(line[k])
    ensures RunEnd(line, i, p) == e
    decreases e - i
  {
    if i < e {
      RunEndAt(line, i + 1, e, p);
    }
  }

  /** One space more in front does not change the left-stripped text. */
  lemma LStripSpace(t: string)
    ensures LStrip(" " + t) == LStrip(t)
  {
    var x := " " + t;
    LeadEndShift(x, t, 1);
    assert LeadEnd(x, 0) == LeadEnd(x, 1);
  }

  lemma {:induction false} LeadEndShift(x: string, t: string, i: nat)
    requires |x| == |t| + 1 && x[1..] == t && 1 <= i <= |x|
    ensures LeadEnd(x, i) == LeadEnd(t, i - 1) + 1
    decreases |x| - i
  {
    if i < |x| {
      assert x[i] == t[i - 1];
      if IsSpace(x[i]) {
        LeadEndShift(x, t, i + 1);
      }
    }
  }

  // ---------------------------------------------------------------------------
  // Tables
  // ---------------------------------------------------------------------------

  predicate IsTableLine(line: string) {
    |line| > 0 && line[0] == '|'
  }

  /** The end of the run of '|' lines that starts at `i`. */
  function TableEnd(lines: seq<string>, i: nat): (j: nat)
    requires i <= |lines|
    ensures i <= j <= |lines|
    ensures forall k :: i <= k < j ==> IsTableLine(lines[k])
    ensures j < |lines| ==> !IsTableLine(lines[j])
    decreases |lines| - i
  {
    if i < |lines| && IsTableLine(lines[i]) then TableEnd(lines, i + 1) else i
  }

  predicate IsSeparatorChar(c: char) {
    c == '-' || c == '|' || c == ' '
  }

  /** `^\|[-| ]+\|$`: a '|', at least one of '-', '|' and ' ', and a closing '|'. */
  predicate IsSeparatorRow(row: string) {
    |row| >= 3 && row[0] == '|' && row[|row| - 1] == '|'
    && forall k :: 1 <= k < |row| - 1 ==> IsSeparatorChar(row[k])
  }

  /** `row.strip("|").split("|")`, each cell stripped of whitespace. */
  function RowCells(row: string): (r: seq<string>)
    ensures |r| >= 1
  {
    StripAll(Split(DropTrailing(DropLeading(row, '|'), '|'), '|'))
  }

  /** The rows of a run of table lines, separator rows left out. */
  function TableRows(run: seq<string>): (r: seq<seq<string>>)
    ensures |r| <= |run|
  {
    if |run| == 0 then []
    else (if IsSeparatorRow(run[0]) then [] else [RowCells(run[0])]) + TableRows(run[1..])
  }

  /** A run of separator rows makes no table. */
  lemma {:induction false} SeparatorsOnly(run: seq<string>)
    requires forall row :: row in run ==> IsSeparatorRow(row)
    ensures TableRows(run) == []
  {
    if |run| > 0 {
      var rest := run[1..];
      assert forall row :: row in rest ==> row in run;
      assert run[0] in run;
      SeparatorsOnly(rest);
    }
  }

  /** Every row that is not a separator makes one row of the table, in order. */
  lemma {:induction false} RowsOfPlainLines(run: seq<string>)
    requires forall row :: row in run ==> !IsSeparatorRow(row)
    ensures |TableRows(run)| == |run|
    ensures forall k :: 0 <= k < |run| ==> TableRows(run)[k] == RowCells(run[k])
  {
    if |run| > 0 {
      var rest := run[1..];
      assert forall row :: row in rest ==> row in run;
      RowsOfPlainLines(rest);
      assert run[0] in run;
      PlainRowStep(run);
    }
  }

  lemma PlainRowStep(run: seq<string>)
    requires |run| > 0 && !IsSeparatorRow(run[0])
    requires |TableRows(run[1..])| == |run| - 1
    requires forall k :: 0 <= k < |run| - 1 ==> TableRows(run[1..])[k] == RowCells(run[1..][k])
    ensures |TableRows(run)| == |run|
    ensures forall k :: 0 <= k < |run| ==> TableRows(run)[k] == RowCells(run[k])
  {
    var rest := run[1..];
    var tail := TableRows(rest);
    var rows := TableRows(run);
    assert rows == [RowCells(run[0])] + tail;
    forall k | 0 <= k < |run|
      ensures rows[k] == RowCells(run[k])
    {
      if k > 0 {
        assert rows[k] == tail[k - 1];
        assert rest[k - 1] == run[k];
      }
    }
  }

  /**
   * A row written as '|', the cells joined by '|', and '|' reads back as the
   * cells stripped, when no cell holds a '|' and the outer cells are not empty.
   */
  lemma RowRoundTrip(cells: seq<string>)
    requires |cells| >= 1
    requires forall k :: 0 <= k < |cells| ==> '|' !in cells[k]
    requires |cells[0]| > 0 && |cells[|cells| - 1]| > 0
    ensures |RowCells("|" + Join("|", cells) + "|")| == |cells|
    ensures forall k :: 0 <= k < |cells| ==> RowCells("|" + Join("|", cells) + "|")[k] == Strip(cells[k])
  {
    var j := Join("|", cells);
    JoinStartsWithFirst("|", cells);
    JoinEndsWithLast("|", cells);
    assert j[0] == cells[0][0];
    var last := cells[|cells| - 1];
    assert j[|j| - 1] == last[|last| - 1];
    Unframe(j);
    SplitJoin(cells, '|');
  }

  /** Stripping the outer pipes of a framed text that has none of its own at either end gives the text back. */
  lemma Unframe(j: string)
    requires |j| > 0 && j[0] != '|' && j[|j| - 1] != '|'
    ensures DropTrailing(DropLeading("|" + j + "|", '|'), '|') == j
  {
    var row := "|" + j + "|";
    assert row[1..] == j + "|";
    assert DropLeading(row, '|') == DropLeading(j + "|", '|');
    assert DropLeading(j + "|", '|') == j + "|";
    assert (j + "|")[..|j|] == j;
    assert DropTrailing(j + "|", '|') == DropTrailing(j, '|');
  }

  // ---------------------------------------------------------------------------
  // Layout: the blocks a builder adds, line by line
  // ---------------------------------------------------------------------------

  /** Each line's class, in the given builder. */
  function Classes(lines: seq<string>, pdf: bool): (r: seq<LineClass>)
    ensures |r| == |lines|
    ensures forall k :: 0 <= k < |r| ==> r[k] == Classify(lines[k], pdf)
  {
    seq(|lines|, k requires 0 <= k < |lines| => Classify(lines[k], pdf))
  }

  /** What the loop relies on about the classes: '|' lines start tables, and nothing else does. */
  predicate Classified(lines: seq<string>, cls: seq<LineClass>) {
    |cls| == |lines|
    && (forall k :: 0 <= k < |cls| ==> (cls[k] == TableLine <==> IsTableLine(lines[k])))
    && (forall k :: 0 <= k < |cls| ==> cls[k].Single? ==> !cls[k].block.Table?)
  }

  lemma ClassesClassified(lines: seq<string>, pdf: bool)
    ensures Classified(lines, Classes(lines, pdf))
  {
  }

  /** The builders' loop from line `i`: a run of '|' lines makes at most one table. */
  function LayoutFrom(lines: seq<string>, cls: seq<LineClass>, i: nat): (r: seq<Block<string>>)
    requires Classified(lines, cls) && i <= |lines|
    ensures |r| <= |lines| - i
    decreases |lines| - i
  {
    if i == |lines| then []
    else match cls[i]
      case TableLine =>
        var j := TableEnd(lines, i);
        var rows := TableRows(lines[i..j]);
        (if |rows| > 0 then [Table(rows)] else []) + LayoutFrom(lines, cls, j)
      case Single(b) => [b] + LayoutFrom(lines, cls, i + 1)
  }

  /** The blocks a builder adds for a report. */
  function Layout(report: string, pdf: bool): seq<Block<string>> {
    var lines := SplitLines(report);
    ClassesClassified(lines, pdf);
    LayoutFrom(lines, Classes(lines, pdf), 0)
  }

  predicate NoAdjacentTables<T>(blocks: seq<Block<T>>) {
    forall k :: 0 <= k < |blocks| - 1 ==> !(blocks[k].Table? && blocks[k + 1].Table?)
  }

  /** Where no table run starts, the layout does not start with a table. */
  lemma FirstNotTable(lines: seq<string>, cls: seq<LineClass>, i: nat)
    requires Classified(lines, cls) && i <= |lines|
    requires i < |lines| ==> !IsTableLine(lines[i])
    ensures |LayoutFrom(lines, cls, i)| > 0 ==> !LayoutFrom(lines, cls, i)[0].Table?
  {
  }

  /** A table swallows its whole run of '|' lines, so two tables are never adjacent. */
  lemma {:induction false} TablesSeparated(lines: seq<string>, cls: seq<LineClass>, i: nat)
    requires Classified(lines, cls) && i <= |lines|
    ensures NoAdjacentTables(LayoutFrom(lines, cls, i))
    decreases |lines| - i
  {
    if i < |lines| {
      match cls[i]
      case TableLine =>
        var j := TableEnd(lines, i);
        TablesSeparated(lines, cls, j);
        FirstNotTable(lines, cls, j);
      case Single(b) =>
        TablesSeparated(lines, cls, i + 1);
    }
  }

  /** Without '|' lines, every line makes exactly its own block. */
  lemma {:induction false} OneBlockPerLine(lines: seq<string>, cls: seq<LineClass>, i: nat)
    requires Classified(lines, cls) && i <= |lines|
    requires forall k :: i <= k < |lines| ==> !IsTableLine(lines[k])
    ensures |LayoutFrom(lines, cls, i)| == |lines| - i
    ensures forall k :: i <= k < |lines| ==> cls[k] == Single(LayoutFrom(lines, cls, i)[k - i])
    decreases |lines| - i
  {
    if i < |lines| {
      OneBlockPerLine(lines, cls, i + 1);
      var rest := LayoutFrom(lines, cls, i + 1);
      var r := LayoutFrom(lines, cls, i);
      assert cls[i].Single?;
      assert r == [cls[i].block] + rest;
      forall k | i <= k < |lines|
        ensures cls[k] == Single(r[k - i])
      {
        if k > i {
          assert r[k - i] == rest[k - (i + 1)];
        }
      }
    }
  }

  /** The PDF builder's block is the Word builder's, except that a note is a paragraph there. */
  predicate SameBlock(pdfBlock: Block<string>, wordBlock: Block<string>) {
    pdfBlock == wordBlock || (pdfBlock.Note? && wordBlock == Paragraph(pdfBlock.content))
  }

  predicate SameClass(pdfClass: LineClass, wordClass: LineClass) {
    pdfClass == wordClass || (pdfClass.Single? && wordClass.Single? && SameBlock(pdfClass.block, wordClass.block))
  }

  /** Line classes that match one by one give layouts that match block by block. */
  lemma {:induction false} MatchingLayouts(lines: seq<string>, a: seq<LineClass>, b: seq<LineClass>, i: nat)
    requires Classified(lines, a) && Classified(lines, b) && i <= |lines|
    requires forall k :: 0 <= k < |lines| ==> SameClass(a[k], b[k])
    ensures |LayoutFrom(lines, a, i)| == |LayoutFrom(lines, b, i)|
    ensures forall k :: 0 <= k < |LayoutFrom(lines, a, i)| ==> SameBlock(LayoutFrom(lines, a, i)[k], LayoutFrom(lines, b, i)[k])
    decreases |lines| - i
  {
    if i < |lines| {
      if IsTableLine(lines[i]) {
        MatchingLayouts(lines, a, b, TableEnd(lines, i));
      } else {
        MatchingLayouts(lines, a, b, i + 1);
        var ra := LayoutFrom(lines, a, i + 1);
        var rb := LayoutFrom(lines, b, i + 1);
        assert LayoutFrom(lines, a, i) == [a[i].block] + ra;
        assert LayoutFrom(lines, b, i) == [b[i].block] + rb;
      }
    }
  }

  /** The Word and PDF layouts of a report have the same blocks, but for the note. */
  lemma BuildersAgree(report: string)
    ensures |Layout(report, true)| == |Layout(report, false)|
    ensures forall k :: 0 <= k < |Layout(report, true)| ==> SameBlock(Layout(report, true)[k], Layout(report, false)[k])
  {
    var lines := SplitLines(report);
    ClassesClassified(lines, true);
    ClassesClassified(lines, false);
    var a := Classes(lines, true);
    var b := Classes(lines, false);
    forall k | 0 <= k < |lines|
      ensures SameClass(a[k], b[k])
    {
      ClassifyBuildersAgree(lines[k]);
    }
    MatchingLayouts(lines, a, b, 0);
  }

  /** No report lays out into two tables in a row. */
  lemma LayoutTablesSeparated(report: string, pdf: bool)
    ensures NoAdjacentTables(Layout(report, pdf))
  {
    var lines := SplitLines(report);
    ClassesClassified(lines, pdf);
    TablesSeparated(lines, Classes(lines, pdf), 0);
  }

  // ---------------------------------------------------------------------------
  // The two builders' content
  // ---------------------------------------------------------------------------

  /** Two blocks of the same kind (and, for headings, the same level). */
  predicate SameKind<T, U>(a: Block<T>, b: Block<U>) {
    (a.Heading? && b.Heading? && a.level == b.level) || (a.Rule? && b.Rule?) || (a.Quote? && b.Quote?)
    || (a.Table? && b.Table?) || (a.Numbered? && b.Numbered?) || (a.Bullet? && b.Bullet?)
    || (a.Blank? && b.Blank?) || (a.Note? && b.Note?) || (a.Paragraph? && b.Paragraph?)
  }

  /** The width of the widest row: `max(len(r) for r in rows)`. */
  function MaxWidth<T>(rows: seq<seq<T>>): (w: nat)
    ensures forall k :: 0 <= k < |rows| ==> |rows[k]| <= w
    ensures |rows| > 0 ==> exists k :: 0 <= k < |rows| && |rows[k]| == w
  {
    if |rows| == 0 then 0
    else
      var rest := MaxWidth(rows[1..]);
      assert forall k :: 1 <= k < |rows| ==> rows[k] == rows[1..][k - 1];
      if |rows[0]| >= rest then |rows[0]| else rest
  }

  /** Each cell through `f`, each row filled up with `fill` to the widest row's width. */
  function PadCells<T, U>(rows: seq<seq<T>>, f: T -> U, fill: U): (r: seq<seq<U>>)
    ensures |r| == |rows|
    ensures forall k :: 0 <= k < |r| ==> |r[k]| == MaxWidth(rows)
    ensures forall k, c :: 0 <= k < |rows| && 0 <= c < |rows[k]| ==> c < |r[k]| && r[k][c] == f(rows[k][c])
    ensures forall k, c :: 0 <= k < |rows| && |rows[k]| <= c < |r[k]| ==> r[k][c] == fill
  {
    var w := MaxWidth(rows);
    seq(|rows|, k requires 0 <= k < |rows| =>
      seq(|rows[k]|, c requires 0 <= c < |rows[k]| => f(rows[k][c])) + seq(w - |rows[k]|, _ => fill))
  }

  /** A paragraph's content in the Word document: a plain text, or the runs of a rich text. */
  datatype DocxText = PlainText(text: string) | RichText(runs: seq<Run>)

  /** A table cell in the Word document: the strong and emphasis markers removed. */
  function CleanCell(cell: string): string {
    PairSub(PairSub(cell, "**", "", ""), "*", "", "")
  }

  /** A cell without '*' is written as it is. */
  lemma CleanPlainCell(cell: string)
    requires '*' !in cell
    ensures CleanCell(cell) == cell
  {
    PairSubIdentity(cell, "**", "", "");
    PairSubIdentity(cell, "*", "", "");
  }

  /** `_add_rich_run`, with its dropped-text defect corrected: the runs spell the whole text. */
  function Rich(t: string): (r: DocxText)
    ensures r.RichText? && SourceOf(r.runs) == t
  {
    RichRunsCover(t);
    RichText(RichRuns(t))
  }

  /** On a text without "**", the corrected runs are exactly the runs the source writes. */
  lemma RichAsWrittenWithoutStrong(t: string)
    requires forall k :: 0 <= k < |t| - 1 ==> !(t[k] == '*' && t[k + 1] == '*')
    ensures Rich(t).runs == RichRunsAsWritten(t)
  {
    AsWrittenAgrees(t, 0);
  }

  /** What `_build_docx` writes for one block. */
  function WordBlock(b: Block<string>): (r: Block<DocxText>)
    ensures SameKind(b, r)
    ensures (b.Heading? || b.Quote?) ==> r.content == PlainText(b.content)
    ensures (b.Numbered? || b.Bullet? || b.Note? || b.Paragraph?) ==> r.content.RichText? && SourceOf(r.content.runs) == b.content
    ensures b.Table? ==> |r.rows| == |b.rows| && forall k :: 0 <= k < |r.rows| ==> |r.rows[k]| == MaxWidth(b.rows)
    ensures b.Table? ==> forall k, c :: 0 <= k < |b.rows| && 0 <= c < |b.rows[k]| ==> c < |r.rows[k]| && r.rows[k][c] == PlainText(CleanCell(b.rows[k][c]))
    ensures b.Table? ==> forall k, c :: 0 <= k < |b.rows| && |b.rows[k]| <= c < |r.rows[k]| ==> r.rows[k][c] == PlainText("")
  {
    match b
    case Heading(level, t) => Heading(level, PlainText(t))
    case Rule => Rule
    case Quote(t) => Quote(PlainText(t))
    case Table(rows) => Table(PadCells(rows, (c: string) => PlainText(CleanCell(c)), PlainText("")))
    case Numbered(t) => Numbered(Rich(t))
    case Bullet(t) => Bullet(Rich(t))
    case Blank => Blank
    case Note(t) => Note(Rich(t))
    case Paragraph(t) => Paragraph(Rich(t))
  }

  /** The bullet mark the PDF builder puts before list items. */
  const BulletMark: string := "\U{2022} "

  /** What `_build_pdf` writes for one block: a numbered item is set as a bullet. */
  function PdfBlock(b: Block<string>): (r: Block<string>)
    ensures b.Numbered? ==> r.Bullet?
    ensures !b.Numbered? ==> SameKind(b, r)
    ensures (b.Heading? || b.Quote? || b.Note? || b.Paragraph?) ==> r.content == Escape(b.content)
    ensures (b.Numbered? || b.Bullet?) ==> r.content == BulletMark + Escape(b.content)
    ensures b.Table? ==> |r.rows| == |b.rows| && forall k :: 0 <= k < |r.rows| ==> |r.rows[k]| == MaxWidth(b.rows)
    ensures b.Table? ==> forall k, c :: 0 <= k < |b.rows| && 0 <= c < |b.rows[k]| ==> c < |r.rows[k]| && r.rows[k][c] == Escape(b.rows[k][c])
    ensures b.Table? ==> forall k, c :: 0 <= k < |b.rows| && |b.rows[k]| <= c < |r.rows[k]| ==> r.rows[k][c] == ""
  {
    match b
    case Heading(level, t) => Heading(level, Escape(t))
    case Rule => Rule
    case Quote(t) => Quote(Escape(t))
    case Table(rows) => Table(PadCells(rows, Escape, ""))
    case Numbered(t) => Bullet(BulletMark + Escape(t))
    case Bullet(t) => Bullet(BulletMark + Escape(t))
    case Blank => Blank
    case Note(t) => Note(Escape(t))
    case Paragraph(t) => Paragraph(Escape(t))
  }

  /** `_build_docx` without the rendering: the blocks of the Word layout. */
  function WordBuild(report: string): (r: seq<Block<DocxText>>)
    ensures |r| == |Layout(report, false)|
    ensures forall k :: 0 <= k < |r| ==> r[k] == WordBlock(Layout(report, false)[k])
  {
    var blocks := Layout(report, false);
    seq(|blocks|, k requires 0 <= k < |blocks| => WordBlock(blocks[k]))
  }

  /** `_build_pdf` without the rendering: the blocks of the PDF layout. */
  function PdfBuild(report: string): (r: seq<Block<string>>)
    ensures |r| == |Layout(report, true)|
    ensures forall k :: 0 <= k < |r| ==> r[k] == PdfBlock(Layout(report, true)[k])
  {
    var blocks := Layout(report, true);
    seq(|blocks|, k requires 0 <= k < |blocks| => PdfBlock(blocks[k]))
  }

  /** The PDF has no numbered items: they are all set as bullets. */
  lemma PdfHasNoNumberedItems(report: string)
    ensures forall k :: 0 <= k < |PdfBuild(report)| ==> !PdfBuild(report)[k].Numbered?
  {
    forall k | 0 <= k < |PdfBuild(report)|
      ensures !PdfBuild(report)[k].Numbered?
    {
      var b := Layout(report, true)[k];
      assert PdfBuild(report)[k] == PdfBlock(b);
    }
  }

  /** Both documents have one block per layout block, in the same order and of matching kinds. */
  lemma DocumentsAgree(report: string)
    ensures |WordBuild(report)| == |PdfBuild(report)|
    ensures forall k :: 0 <= k < |WordBuild(report)| && !Layout(report, true)[k].Numbered? && !Layout(report, true)[k].Note? ==>
              SameKind(WordBuild(report)[k], PdfBuild(report)[k])
  {
    BuildersAgree(report);
    forall k | 0 <= k < |WordBuild(report)| && !Layout(report, true)[k].Numbered? && !Layout(report, true)[k].Note?
      ensures SameKind(WordBuild(report)[k], PdfBuild(report)[k])
    {
      var a := Layout(report, true)[k];
      assert a == Layout(report, false)[k];
    }
  }

  /** Every Word paragraph and list item spells out its whole line: no text is dropped. */
  lemma WordKeepsText(report: string)
    ensures forall k :: 0 <= k < |WordBuild(report)| && WordBuild(report)[k].Paragraph? ==>
              WordBuild(report)[k].content.RichText?
              && SourceOf(WordBuild(report)[k].content.runs) == Layout(report, false)[k].content
  {
  }

  // ---------------------------------------------------------------------------
  // export_report
  // ---------------------------------------------------------------------------

  /** The built document of a download. */
  datatype Document = WordDocument(blocks: seq<Block<DocxText>>) | PdfDocument(pages: seq<Block<string>>)

  datatype Download = Download(document: Document, mediaType: string, filename: string)

  const WordMediaType: string := "application/vnd.openxmlformats-officedocument.wordprocessingml.document"
  const PdfMediaType: string := "application/pdf"
  const FilenameStem: string := "clara_incident_report_"

  /** `ExportRequest`: the format must be exactly "pdf" or "docx", and is "docx" when absent. */
  function RequestFormat(format: Option<string>): (r: Option<string>)
    ensures r.Some? <==> format.None? || format.value == "pdf" || format.value == "docx"
    ensures r.Some? && format.Some? ==> r.value == format.value
    ensures format.None? ==> r == Some("docx")
  {
    match format
    case None => Some("docx")
    case Some(f) => if f == "pdf" || f == "docx" then Some(f) else None
  }

  /**
   * `export_report` once the body is valid. The format is compared in lower
   * case; whether each builder's library is installed is a parameter (a
   * missing library raises RuntimeError, answered with 500), and so is the
   * timestamp.
   */
  function ExportReport(report: string, format: string, timestamp: string, wordInstalled: bool, pdfInstalled: bool)
    : (r: Result<Download, nat>)
    ensures r.Error? <==> (Lower(format) != "docx" && Lower(format) != "pdf")
                          || (Lower(format) == "docx" && !wordInstalled) || (Lower(format) == "pdf" && !pdfInstalled)
    ensures r.Error? ==> (r.error == 400 <==> Lower(format) != "docx" && Lower(format) != "pdf")
    ensures r.Error? ==> r.error == 400 || r.error == 500
    ensures r.Ok? ==> r.value.filename == FilenameStem + timestamp + (if Lower(format) == "docx" then ".docx" else ".pdf")
    ensures r.Ok? ==> (r.value.document.WordDocument? <==> Lower(format) == "docx")
    ensures r.Ok? && r.value.document.WordDocument? ==> r.value.document.blocks == WordBuild(report) && r.value.mediaType == WordMediaType
    ensures r.Ok? && r.value.document.PdfDocument? ==> r.value.document.pages == PdfBuild(report) && r.value.mediaType == PdfMediaType
  {
    var fmt := Lower(format);
    if fmt == "docx" then
      if wordInstalled then Ok(Download(WordDocument(WordBuild(report)), WordMediaType, FilenameStem + timestamp + ".docx"))
      else Error(500)
    else if fmt == "pdf" then
      if pdfInstalled then Ok(Download(PdfDocument(PdfBuild(report)), PdfMediaType, FilenameStem + timestamp + ".pdf"))
      else Error(500)
    else Error(400)
  }

  /** A request that passed validation never gets the "format must be" 400. */
  lemma ValidRequestNeverBadFormat(format: Option<string>, report: string, timestamp: string, wordInstalled: bool, pdfInstalled: bool)
    requires RequestFormat(format).Some?
    ensures var r := ExportReport(report, RequestFormat(format).value, timestamp, wordInstalled, pdfInstalled);
            r.Error? ==> r.error == 500
  {
    var f := RequestFormat(format).value;
    assert Lower("pdf") == "pdf" && Lower("docx") == "docx";
  }
}
