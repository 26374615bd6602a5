/**
 * Inline Markdown in the export builders: the three delimited forms
 * (`**strong**`, `*emphasis*`, `` `code` ``), their segmentation into styled
 * runs for the Word builder, and the escaping and tag substitution of the
 * PDF builder.
 *
 * Each form is a lazy group `(.+?)` between two copies of its delimiter.
 * The group holds at least one character, no '\n', and ends at the first
 * place where the closing delimiter follows.
 */
module Inline {
  import opened Base
  import opened Text
  import opened Scan

  // ---------------------------------------------------------------------------
  // Delimited groups
  // ---------------------------------------------------------------------------

  /**
   * The end of the lazy group that starts at `from`, trying the ends `k`,
   * `k + 1`, ... in turn: the first end the closing `delim` follows, unless
   * a '\n' or the end of the text comes first. The group so far,
   * `s[from..k]`, has been checked up to its last character.
   */
  function LazyClose(s: string, from: nat, k: nat, delim: string): (r: Option<nat>)
    requires from < k <= |s| + 1
    requires forall j :: from <= j < k - 1 ==> s[j] != '\n'
    ensures r.Some? ==> k <= r.value && OccursAt(s, delim, r.value)
    ensures r.Some? ==> forall j :: from <= j < r.value ==> s[j] != '\n'
    ensures r.Some? ==> forall j :: k <= j < r.value ==> !OccursAt(s, delim, j)
    decreases |s| + 1 - k
  {
    if k > |s| || s[k - 1] == '\n' then None
    else if OccursAt(s, delim, k) then Some(k)
    else LazyClose(s, from, k + 1, delim)
  }

  datatype Form = Strong | Emphasis | Mono

  function Delim(f: Form): string {
    match f
    case Strong => "**"
    case Emphasis => "*"
    case Mono => "`"
  }

  /** A match of one form: `s[start..end]` is the delimiter, the group `s[innerStart..innerEnd]`, the delimiter. */
  datatype Span = Span(form: Form, start: nat, innerStart: nat, innerEnd: nat, end: nat)

  predicate SpanOf(s: string, m: Span) {
    m.start < m.innerStart < m.innerEnd < m.end <= |s|
    && m.innerStart == m.start + |Delim(m.form)|
    && m.end == m.innerEnd + |Delim(m.form)|
    && OccursAt(s, Delim(m.form), m.start)
    && OccursAt(s, Delim(m.form), m.innerEnd)
    && forall j :: m.innerStart <= j < m.innerEnd ==> s[j] != '\n'
  }

  /** The group of `form` opening at `p`, if its delimiter is there and closes on the same line. */
  function FormAt(s: string, p: nat, form: Form): (r: Option<Span>)
    ensures r.Some? ==> SpanOf(s, r.value) && r.value.form == form && r.value.start == p
  {
    var d := Delim(form);
    if !OccursAt(s, d, p) then None
    else
      match LazyClose(s, p + |d|, p + |d| + 1, d)
      case None => None
      case Some(j) => Some(Span(form, p, p + |d|, j, j + |d|))
  }

  /** The alternation `\*\*(.+?)\*\*|\*(.+?)\*|`(.+?)`` at `p`: the first form that matches. */
  function MatchAt(s: string, p: nat): (r: Option<Span>)
    ensures r.Some? ==> SpanOf(s, r.value) && r.value.start == p
    ensures r.Some? && r.value.form == Emphasis ==> FormAt(s, p, Strong).None?
    ensures r.Some? && r.value.form == Mono ==> FormAt(s, p, Strong).None? && FormAt(s, p, Emphasis).None?
  {
    var strong := FormAt(s, p, Strong);
    if strong.Some? then strong
    else
      var emphasis := FormAt(s, p, Emphasis);
      if emphasis.Some? then emphasis else FormAt(s, p, Mono)
  }

  /** The next match of `finditer` from `pos`: the leftmost start at which the alternation matches. */
  function NextMatch(s: string, pos: nat): (r: Option<Span>)
    ensures r.Some? ==> pos <= r.value.start && MatchAt(s, r.value.start) == r
    decreases |s| - pos
  {
    if pos >= |s| then None
    else if MatchAt(s, pos).Some? then MatchAt(s, pos)
    else NextMatch(s, pos + 1)
  }

  /** The match found is the leftmost one, and there is none exactly when no position matches. */
  lemma {:induction false} NextMatchLeftmost(s: string, pos: nat)
    ensures NextMatch(s, pos).Some? ==> forall p :: pos <= p < NextMatch(s, pos).value.start ==> MatchAt(s, p).None?
    ensures NextMatch(s, pos).None? <==> forall p :: pos <= p < |s| ==> MatchAt(s, p).None?
    decreases |s| - pos
  {
    if pos < |s| {
      var here := MatchAt(s, pos);
      if here.None? {
        NextMatchLeftmost(s, pos + 1);
        var n := NextMatch(s, pos + 1);
        assert NextMatch(s, pos) == n;
        forall p | pos <= p < (if n.Some? then n.value.start else |s|)
          ensures MatchAt(s, p).None?
        {
          if p == pos {
            assert MatchAt(s, p) == here;
          }
        }
      } else {
        assert NextMatch(s, pos) == here;
      }
    }
  }

  // ---------------------------------------------------------------------------
  // _add_rich_run
  // ---------------------------------------------------------------------------

  datatype Run = Plain(text: string) | Bold(text: string) | Italic(text: string) | Code(text: string)

  /** The run a match becomes, by the form that matched. */
  function Styled(s: string, m: Span): (r: Run)
    requires SpanOf(s, m)
    ensures !r.Plain?
    ensures r.text == s[m.innerStart..m.innerEnd]
  {
    var inner := s[m.innerStart..m.innerEnd];
    match m.form
    case Strong => Bold(inner)
    case Emphasis => Italic(inner)
    case Mono => Code(inner)
  }

  /**
   * The run `_add_rich_run` makes of a match: it picks the style by whether
   * the matched text starts with "**", then with "*". An emphasis match
   * whose group starts with '*' (as in "**a*", where the strong form never
   * closes) therefore takes the bold branch, whose group did not take part:
   * the run is empty.
   */
  function StyledAsWritten(s: string, m: Span): (r: Run)
    requires SpanOf(s, m)
    ensures r == Styled(s, m) || (m.form == Emphasis && s[m.innerStart] == '*' && r == Bold(""))
  {
    if m.form == Emphasis && s[m.innerStart] == '*' then Bold("") else Styled(s, m)
  }

  /** The runs from `pos` on: the gap before each match verbatim, then the match. */
  function RunsFrom(s: string, pos: nat, asWritten: bool): (r: seq<Run>)
    requires pos <= |s|
    ensures forall k :: 0 <= k < |r| && r[k].Plain? ==> r[k].text != ""
    decreases |s| - pos
  {
    match NextMatch(s, pos)
    case None => if pos < |s| then [Plain(s[pos..])] else []
    case Some(m) =>
      (if m.start > pos then [Plain(s[pos..m.start])] else [])
      + [if asWritten then StyledAsWritten(s, m) else Styled(s, m)]
      + RunsFrom(s, m.end, asWritten)
  }

  /** `_add_rich_run` as written. */
  function RichRunsAsWritten(s: string): seq<Run> {
    RunsFrom(s, 0, true)
  }

  /** `_add_rich_run` with the style taken from the form that matched. */
  function RichRuns(s: string): seq<Run> {
    RunsFrom(s, 0, false)
  }

  /** The Markdown a run stands for. */
  function Source(r: Run): string {
    match r
    case Plain(t) => t
    case Bold(t) => "**" + t + "**"
    case Italic(t) => "*" + t + "*"
    case Code(t) => "`" + t + "`"
  }

  function SourceOf(runs: seq<Run>): string {
    if |runs| == 0 then "" else Source(runs[0]) + SourceOf(runs[1..])
  }

  lemma SourceOfConcat(a: seq<Run>, b: seq<Run>)
    ensures SourceOf(a + b) == SourceOf(a) + SourceOf(b)
  {
    if |a| == 0 {
      assert a + b == b;
    } else {
      assert (a + b)[0] == a[0];
      assert (a + b)[1..] == a[1..] + b;
      SourceOfConcat(a[1..], b);
    }
  }

  lemma StyledSource(s: string, m: Span)
    requires SpanOf(s, m)
    ensures Source(Styled(s, m)) == s[m.start..m.end]
  {
    var d := Delim(m.form);
    var inner := s[m.innerStart..m.innerEnd];
    assert Source(Styled(s, m)) == d + inner + d by {
      assert Styled(s, m).text == inner;
    }
    assert s[m.start..m.innerStart] == d;
    assert s[m.innerEnd..m.end] == d;
    assert s[m.start..m.end] == s[m.start..m.innerStart] + inner + s[m.innerEnd..m.end];
  }

  /** The runs cover the text from `pos`, in order: putting their Markdown back together gives the text. */
  lemma {:induction false} RunsCover(s: string, pos: nat)
    requires pos <= |s|
    ensures SourceOf(RunsFrom(s, pos, false)) == s[pos..]
    decreases |s| - pos
  {
    var n := NextMatch(s, pos);
    if n.None? {
      if pos < |s| {
        assert SourceOf([Plain(s[pos..])]) == s[pos..] + SourceOf([]);
      }
    } else {
      var m := n.value;
      RunsCover(s, m.end);
      CoverStep(s, pos, m, RunsFrom(s, m.end, false));
    }
  }

  lemma CoverStep(s: string, pos: nat, m: Span, rest: seq<Run>)
    requires SpanOf(s, m) && pos <= m.start
    requires SourceOf(rest) == s[m.end..]
    ensures SourceOf((if m.start > pos then [Plain(s[pos..m.start])] else []) + [Styled(s, m)] + rest) == s[pos..]
  {
    var gap := if m.start > pos then [Plain(s[pos..m.start])] else [];
    var run := Styled(s, m);
    SourceOfConcat(gap + [run], rest);
    SourceOfConcat(gap, [run]);
    GapSource(s, pos, m.start);
    StyledSource(s, m);
    SourceOfOne(run);
    SliceSplit(s, pos, m.start, m.end);
  }

  lemma GapSource(s: string, pos: nat, start: nat)
    requires pos <= start <= |s|
    ensures SourceOf(if start > pos then [Plain(s[pos..start])] else []) == s[pos..start]
  {
    if start > pos {
      SourceOfOne(Plain(s[pos..start]));
    }
  }

  lemma SourceOfOne(r: Run)
    ensures SourceOf([r]) == Source(r)
  {
    assert [r][1..] == [];
  }

  lemma SliceSplit(s: string, a: nat, b: nat, c: nat)
    requires a <= b <= c <= |s|
    ensures s[a..] == s[a..b] + s[b..c] + s[c..]
  {
  }

  /** Every run the corrected segmentation makes is the Markdown it came from, so no text is lost. */
  lemma RichRunsCover(s: string)
    ensures SourceOf(RichRuns(s)) == s
  {
    RunsCover(s, 0);
  }

  /** Where no "**" occurs, the source's style choice is the form's. */
  lemma {:induction false} AsWrittenAgrees(s: string, pos: nat)
    requires pos <= |s|
    requires forall k :: 0 <= k < |s| - 1 ==> !(s[k] == '*' && s[k + 1] == '*')
    ensures RunsFrom(s, pos, true) == RunsFrom(s, pos, false)
    decreases |s| - pos
  {
    match NextMatch(s, pos)
    case None =>
    case Some(m) =>
      StyledAgrees(s, m);
      AsWrittenAgrees(s, m.end);
  }

  lemma StyledAgrees(s: string, m: Span)
    requires SpanOf(s, m)
    requires forall k :: 0 <= k < |s| - 1 ==> !(s[k] == '*' && s[k + 1] == '*')
    ensures StyledAsWritten(s, m) == Styled(s, m)
  {
    if m.form == Emphasis {
      assert s[m.start] == '*';
    }
  }

  /** "**a*": the strong form never closes, the emphasis form matches the whole text, and its text is lost. */
  lemma RichRunDropsText()
    ensures RichRunsAsWritten("**a*") == [Bold("")]
    ensures RichRuns("**a*") == [Italic("*a")]
  {
    var s := "**a*";
    assert FormAt(s, 0, Strong).None? by {
      assert LazyClose(s, 2, 3, "**").None? by {
        assert !OccursAt(s, "**", 3);
        assert LazyClose(s, 2, 4, "**").None?;
      }
    }
    assert LazyClose(s, 1, 2, "*") == Some(3) by {
      assert !OccursAt(s, "*", 2);
      assert OccursAt(s, "*", 3);
    }
    var m := Span(Emphasis, 0, 1, 3, 4);
    assert MatchAt(s, 0) == Some(m);
    assert NextMatch(s, 0) == Some(m);
    assert s[1..3] == "*a";
    assert RunsFrom(s, 4, true) == [] && RunsFrom(s, 4, false) == [];
  }

  // ---------------------------------------------------------------------------
  // _escape
  // ---------------------------------------------------------------------------

  /** `s.replace(c, rep)` for a one-character `c`. */
  function ReplaceAll(s: string, c: char, rep: string): string {
    if |s| == 0 then "" else (if s[0] == c then rep else [s[0]]) + ReplaceAll(s[1..], c, rep)
  }

  lemma {:induction false} ReplaceAllConcat(a: string, b: string, c: char, rep: string)
    ensures ReplaceAll(a + b, c, rep) == ReplaceAll(a, c, rep) + ReplaceAll(b, c, rep)
  {
    if |a| == 0 {
      assert a + b == b;
    } else {
      assert (a + b)[0] == a[0];
      assert (a + b)[1..] == a[1..] + b;
      ReplaceAllConcat(a[1..], b, c, rep);
    }
  }

  /** The entity each character becomes. */
  function EntityOf(c: char): string {
    if c == '&' then "&amp;" else if c == '<' then "&lt;" else if c == '>' then "&gt;" else [c]
  }

  /** Each character replaced by its entity. */
  function EscapeEntities(t: string): (r: string)
    ensures forall k :: 0 <= k < |r| ==> r[k] != '<' && r[k] != '>'
  {
    if |t| == 0 then "" else EntityOf(t[0]) + EscapeEntities(t[1..])
  }

  /** The three replacements in the source's order. */
  function ReplaceEntities(t: string): string {
    ReplaceAll(ReplaceAll(ReplaceAll(t, '&', "&amp;"), '<', "&lt;"), '>', "&gt;")
  }

  /** Replacing '&' first means the '&' the later replacements add are never escaped again. */
  lemma {:induction false} ReplaceEntitiesIsPerCharacter(t: string)
    ensures ReplaceEntities(t) == EscapeEntities(t)
  {
    if |t| > 0 {
      var c, u := [t[0]], t[1..];
      assert t == c + u;
      var a1, b1 := ReplaceAll(c, '&', "&amp;"), ReplaceAll(u, '&', "&amp;");
      ReplaceAllConcat(c, u, '&', "&amp;");
      var a2, b2 := ReplaceAll(a1, '<', "&lt;"), ReplaceAll(b1, '<', "&lt;");
      ReplaceAllConcat(a1, b1, '<', "&lt;");
      ReplaceAllConcat(a2, b2, '>', "&gt;");
      SingleEntity(t[0]);
      ReplaceEntitiesIsPerCharacter(u);
      calc {
        ReplaceEntities(t);
        ReplaceAll(ReplaceAll(a1 + b1, '<', "&lt;"), '>', "&gt;");
        ReplaceAll(a2 + b2, '>', "&gt;");
        ReplaceEntities(c) + ReplaceEntities(u);
        EntityOf(t[0]) + EscapeEntities(u);
      }
    }
  }

  lemma SingleEntity(c: char)
    ensures ReplaceEntities([c]) == EntityOf(c)
  {
    ReplaceOne(c, '&', "&amp;");
    if c == '&' {
      ReplaceAbsent("&amp;", '<', "&lt;");
      ReplaceAbsent("&amp;", '>', "&gt;");
    } else {
      ReplaceOne(c, '<', "&lt;");
      if c == '<' {
        ReplaceAbsent("&lt;", '>', "&gt;");
      } else {
        ReplaceOne(c, '>', "&gt;");
      }
    }
  }

  lemma ReplaceOne(x: char, c: char, rep: string)
    ensures ReplaceAll([x], c, rep) == if x == c then rep else [x]
  {
    assert [x][1..] == [];
  }

  /** Replacing a character the text does not hold changes nothing. */
  lemma {:induction false} ReplaceAbsent(s: string, c: char, rep: string)
    requires c !in s
    ensures ReplaceAll(s, c, rep) == s
  {
    if |s| > 0 {
      assert c !in s[1..] by {
        assert forall k :: 0 <= k < |s[1..]| ==> s[1..][k] == s[k + 1];
      }
      ReplaceAbsent(s[1..], c, rep);
      assert s == [s[0]] + s[1..];
    }
  }

  /** Replacing '<' before '&' would escape the entity's own '&' a second time. */
  lemma WrongOrderDoublyEscapes()
    ensures ReplaceAll(ReplaceAll("<", '<', "&lt;"), '&', "&amp;") == "&amp;lt;"
  {
    ReplaceOne('<', '<', "&lt;");
    ReplaceAllConcat("&", "lt;", '&', "&amp;");
    ReplaceOne('&', '&', "&amp;");
    ReplaceAbsent("lt;", '&', "&amp;");
    assert "&lt;" == "&" + "lt;";
  }

  /** Reading the entities back. */
  function UnescapeEntities(r: string): string
    decreases |r|
  {
    if |r| == 0 then ""
    else if StartsWith(r, "&amp;") then "&" + UnescapeEntities(r[5..])
    else if StartsWith(r, "&lt;") then "<" + UnescapeEntities(r[4..])
    else if StartsWith(r, "&gt;") then ">" + UnescapeEntities(r[4..])
    else [r[0]] + UnescapeEntities(r[1..])
  }

  /** Escaping loses nothing: the entities read back to the input. */
  lemma {:induction false} EntitiesRoundTrip(t: string)
    ensures UnescapeEntities(EscapeEntities(t)) == t
  {
    if |t| > 0 {
      UnescapeStep(t[0], EscapeEntities(t[1..]));
      EntitiesRoundTrip(t[1..]);
      assert t == [t[0]] + t[1..];
    }
  }

  lemma UnescapeStep(c: char, rest: string)
    ensures UnescapeEntities(EntityOf(c) + rest) == [c] + UnescapeEntities(rest)
  {
    if c == '&' {
      UnescapeAmp(rest);
    } else if c == '<' {
      UnescapeLt(rest);
    } else if c == '>' {
      UnescapeGt(rest);
    } else {
      UnescapePlain(c, rest);
    }
  }

  lemma UnescapeAmp(rest: string)
    ensures UnescapeEntities("&amp;" + rest) == "&" + UnescapeEntities(rest)
  {
    var x := "&amp;" + rest;
    assert x[5..] == rest;
    assert StartsWith(x, "&amp;");
  }

  lemma UnescapeLt(rest: string)
    ensures UnescapeEntities("&lt;" + rest) == "<" + UnescapeEntities(rest)
  {
    var x := "&lt;" + rest;
    assert x[4..] == rest;
    assert x[1] == 'l' && x[..4] == "&lt;";
    NotAmp(x);
  }

  lemma UnescapeGt(rest: string)
    ensures UnescapeEntities("&gt;" + rest) == ">" + UnescapeEntities(rest)
  {
    var x := "&gt;" + rest;
    assert x[4..] == rest;
    assert x[1] == 'g' && x[..4] == "&gt;";
    NotAmp(x);
    NotLt(x);
  }

  lemma UnescapePlain(c: char, rest: string)
    requires c != '&'
    ensures UnescapeEntities([c] + rest) == [c] + UnescapeEntities(rest)
  {
    var x := [c] + rest;
    assert x[1..] == rest;
    assert x[0] == c;
  }

  lemma NotAmp(x: string)
    requires |x| >= 2 && x[1] != 'a'
    ensures !StartsWith(x, "&amp;")
  {
    assert "&amp;"[1] == 'a';
  }

  lemma NotLt(x: string)
    requires |x| >= 2 && x[1] != 'l'
    ensures !StartsWith(x, "&lt;")
  {
    assert "&lt;"[1] == 'l';
  }

  /** `re.sub(delim (.+?) delim, lt \1 rt)` at one position. */
  function PairHit(delim: string, lt: string, rt: string, s: string, i: nat): (r: Option<Hit>)
    requires |delim| > 0
    ensures r.Some? ==> i < r.value.end <= |s|
  {
    if !OccursAt(s, delim, i) then None
    else
      match LazyClose(s, i + |delim|, i + |delim| + 1, delim)
      case None => None
      case Some(j) => Some(Hit(j + |delim|, lt + s[i + |delim|..j] + rt))
  }

  function PairSub(s: string, delim: string, lt: string, rt: string): string
    requires |delim| > 0
  {
    Sub(s, (x: string, i: nat) => PairHit(delim, lt, rt, x, i), 0)
  }

  /** Every character of a substitution's output is one of the text's or one of the tags'. */
  lemma {:induction false} PairSubChars(s: string, delim: string, lt: string, rt: string, i: nat)
    requires |delim| > 0
    ensures forall c :: c in Sub(s, (x: string, k: nat) => PairHit(delim, lt, rt, x, k), i) ==> c in s || c in lt || c in rt
    decreases |s| - i
  {
    var m: Matcher := (x: string, k: nat) => PairHit(delim, lt, rt, x, k);
    if i < |s| {
      match m(s, i)
      case Some(h) =>
        PairSubChars(s, delim, lt, rt, h.end);
        forall c | c in h.replacement
          ensures c in s || c in lt || c in rt
        {
          var j := h.end - |delim|;
          assert h.replacement == lt + s[i + |delim|..j] + rt;
          if c in s[i + |delim|..j] {
            var k :| i + |delim| <= k < j && s[k] == c;
            assert s[k] in s;
          }
        }
      case None =>
        PairSubChars(s, delim, lt, rt, i + 1);
    }
  }

  /** Without its delimiter in the text, a substitution changes nothing. */
  lemma PairSubIdentity(s: string, delim: string, lt: string, rt: string)
    requires |delim| > 0 && delim[0] !in s
    ensures PairSub(s, delim, lt, rt) == s
  {
    var m: Matcher := (x: string, k: nat) => PairHit(delim, lt, rt, x, k);
    forall j | 0 <= j < |s|
      ensures m(s, j).None?
    {
    }
    SubNoMatch(s, m, 0);
  }

  const FontOpen: string := "<font name=\"Courier\">"

  /** The characters the tags add. */
  const TagText: string := "<b></b><i></i>" + FontOpen + "</font>"

  /** `_escape`: entities first, then the strong, emphasis and code tags. */
  function Escape(t: string): string {
    var e := EscapeEntities(t);
    var b := PairSub(e, "**", "<b>", "</b>");
    var i := PairSub(b, "*", "<i>", "</i>");
    PairSub(i, "`", FontOpen, "</font>")
  }

  /** Every character of the result is one of the escaped text's or one of the tags': the input's '<' and '>' never pass through. */
  lemma EscapeChars(t: string)
    ensures forall c :: c in Escape(t) ==> c in EscapeEntities(t) || c in TagText
  {
    var e := EscapeEntities(t);
    var b := PairSub(e, "**", "<b>", "</b>");
    var i := PairSub(b, "*", "<i>", "</i>");
    PairSubChars(e, "**", "<b>", "</b>", 0);
    PairSubChars(b, "*", "<i>", "</i>", 0);
    PairSubChars(i, "`", FontOpen, "</font>", 0);
    forall c | c in Escape(t)
      ensures c in e || c in TagText
    {
      if c in "<b>" || c in "</b>" || c in "<i>" || c in "</i>" || c in FontOpen || c in "</font>" {
        TagCharsInTagText(c);
      }
    }
  }

  lemma TagCharsInTagText(c: char)
    requires c in "<b>" || c in "</b>" || c in "<i>" || c in "</i>" || c in FontOpen || c in "</font>"
    ensures c in TagText
  {
    var parts := ["<b></b><i></i>", FontOpen, "</font>"];
    assert TagText == parts[0] + parts[1] + parts[2];
    if c in "<b>" || c in "</b>" || c in "<i>" || c in "</i>" {
      assert "<b></b><i></i>" == "<b>" + "</b>" + "<i>" + "</i>";
    }
  }

  /** Text without '*' or '`' is only entity-escaped, so it holds no '<' or '>' at all. */
  lemma EscapePlain(t: string)
    requires '*' !in t && '`' !in t
    ensures Escape(t) == EscapeEntities(t)
    ensures '<' !in Escape(t) && '>' !in Escape(t)
  {
    var e := EscapeEntities(t);
    EntitiesKeep(t, '*');
    EntitiesKeep(t, '`');
    PairSubIdentity(e, "**", "<b>", "</b>");
    PairSubIdentity(e, "*", "<i>", "</i>");
    PairSubIdentity(e, "`", FontOpen, "</font>");
  }

  /** Escaping adds no '*' or '`'. */
  lemma {:induction false} EntitiesKeep(t: string, c: char)
    requires c == '*' || c == '`'
    requires c !in t
    ensures c !in EscapeEntities(t)
  {
    if |t| > 0 {
      EntitiesKeep(t[1..], c);
      assert t[0] != c;
    }
  }
}
