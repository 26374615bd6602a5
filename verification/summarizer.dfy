/**
 * The report summariser: three orchestrators that try Groq, then DeepSeek,
 * and fall back to a deterministic extraction when neither produces an
 * acceptable reply.
 *
 * Each provider call is an `Outcome` input. Exceptions an adapter raises
 * (an empty reply, a decode failure, a missing key, a TypeError from a
 * value of the wrong JSON type) make its candidate `None`; the
 * orchestrators catch every exception and move on, so a `None` candidate and
 * a rejected one have the same effect.
 */
module Summarizer {
  import opened Base
  import opened Text
  import opened Json
  import opened Scan
  import opened Chain
  import opened Fences
  import opened ExecSummary

  const FallbackProvider: string := "fallback_regex"
  const FallbackModel: string := "none"

  /** The providers in the order every orchestrator calls them. */
  const Providers: seq<string> := ["groq", "deepseek"]

  // ---------------------------------------------------------------------------
  // summarise_report
  // ---------------------------------------------------------------------------

  datatype Candidate = Candidate(text: string, provider: string, model: string, latencyMs: nat)

  /** `_summarise_groq` / `_summarise_deepseek`: the trimmed reply; an empty one raises. */
  function SummaryCandidate(provider: string, call: Outcome): (r: Option<Candidate>)
    ensures r.Some? <==> call.Reply? && Strip(call.content) != ""
    ensures r.Some? ==> r.value.text == Strip(call.content) && r.value.provider == provider
                        && r.value.model == call.model && r.value.latencyMs == call.latencyMs
  {
    match call
    case Fail(_) => None
    case Reply(content, model, latency) =>
      var summary := Strip(content);
      if summary == "" then None else Some(Candidate(summary, provider, model, latency))
  }

  predicate SummaryLengthOk(c: Candidate) {
    10 <= |c.text| <= 1000
  }

  datatype SummaryResult = SummaryResult(
    executiveSummary: string,
    coreSummary: string,
    provider: string,
    model: string,
    latencyMs: nat,
    fallbackUsed: bool)

  /**
   * `summarise_report`: the first provider summary of 10 to 1000 characters,
   * else the executive summary as the fallback. `fallbackLatencyMs` is the
   * fallback's own measured time.
   */
  function SummariseReport(report: string, groq: Outcome, deepseek: Outcome, fallbackLatencyMs: nat): (r: Run<SummaryResult>)
    ensures r.result.executiveSummary == ExecutiveSummary(report)
    ensures !r.result.fallbackUsed ==> 10 <= |r.result.coreSummary| <= 1000
    ensures r.result.fallbackUsed <==> r.called == 2 && !(r.result.provider in Providers)
    ensures r.result.fallbackUsed ==> r.result.coreSummary == ExecutiveSummary(report)
                                       && r.result.provider == FallbackProvider && r.result.model == FallbackModel
    ensures r.result.provider == "groq" <==> r.called == 1
    ensures r.result.provider == "groq" ==> Some(r.result.coreSummary) == (if groq.Reply? then Some(Strip(groq.content)) else None)
    ensures r.result.provider == "deepseek" ==> deepseek.Reply? && r.result.coreSummary == Strip(deepseek.content)
    ensures var g := SummaryCandidate("groq", groq);
            var d := SummaryCandidate("deepseek", deepseek);
            (r.result.provider == "groq" <==> Accepts(g, SummaryLengthOk))
            && (r.result.provider == "deepseek" <==> !Accepts(g, SummaryLengthOk) && Accepts(d, SummaryLengthOk))
            && (r.result.fallbackUsed <==> !Accepts(g, SummaryLengthOk) && !Accepts(d, SummaryLengthOk))
    ensures !r.result.fallbackUsed ==>
              var c := (if r.result.provider == "groq" then SummaryCandidate("groq", groq)
                        else SummaryCandidate("deepseek", deepseek)).value;
              r.result.coreSummary == c.text && r.result.model == c.model && r.result.latencyMs == c.latencyMs
  {
    var exec := ExecutiveSummary(report);
    var cands := [SummaryCandidate("groq", groq), SummaryCandidate("deepseek", deepseek)];
    FirstOfTwo(cands[0], cands[1], SummaryLengthOk);
    var t := TryInOrder(cands, SummaryLengthOk);
    match t.winner
    case Some(i) =>
      var c := cands[i].value;
      Run(SummaryResult(exec, c.text, c.provider, c.model, c.latencyMs, false), t.called)
    case None =>
      Run(SummaryResult(exec, exec, FallbackProvider, FallbackModel, fallbackLatencyMs, true), t.called)
  }

  datatype Run<R> = Run(result: R, called: nat)

  // ---------------------------------------------------------------------------
  // analyse_executive_report
  // ---------------------------------------------------------------------------

  /** A decoded reply that is a JSON object holding both "core_summary" and "confidence". */
  predicate HasSummaryKeys(v: Option<Json>) {
    v.Some? && v.value.JObj? && "core_summary" in v.value.fields && "confidence" in v.value.fields
  }

  /** What an executive adapter returns: the two required values, as decoded. */
  datatype Analysed = Analysed(coreSummary: Json, confidence: Json, provider: string, model: string, latencyMs: nat)

  /**
   * `_analyse_executive_groq` / `_analyse_executive_deepseek`: the trimmed
   * reply, unwrapped from a fenced object, decoded; it must be an object with
   * both "core_summary" and "confidence".
   */
  function AnalysisCandidate(provider: string, call: Outcome, decode: Decoder): (r: Option<Analysed>)
    ensures r.Some? ==> call.Reply? && Strip(call.content) != ""
    ensures r.Some? ==> var v := decode(ObjectTarget(Strip(call.content)));
                        v.Some? && v.value.JObj? && "core_summary" in v.value.fields && "confidence" in v.value.fields
                        && r.value.coreSummary == v.value.fields["core_summary"]
                        && r.value.confidence == v.value.fields["confidence"]
    ensures call.Reply? && Strip(call.content) != "" && decode(ObjectTarget(Strip(call.content))).None? ==> r.None?
    ensures r.Some? <==> call.Reply? && Strip(call.content) != "" && HasSummaryKeys(decode(ObjectTarget(Strip(call.content))))
    ensures r.Some? ==> r.value.provider == provider && r.value.model == call.model && r.value.latencyMs == call.latencyMs
  {
    match call
    case Fail(_) => None
    case Reply(content, model, latency) =>
      var text := Strip(content);
      if text == "" then None
      else
        match decode(ObjectTarget(text))
        case Some(JObj(d)) =>
          if "core_summary" in d && "confidence" in d then
            Some(Analysed(d["core_summary"], d["confidence"], provider, model, latency))
          else None
        case _ => None
  }

  /**
   * The orchestrator's checks: `len(core_summary)` in [20, 1200] (a value
   * without a length raises, which is a rejection too) and a confidence
   * label.
   */
  predicate AnalysisOk(a: Analysed) {
    PyLen(a.coreSummary).Some? && 20 <= PyLen(a.coreSummary).value <= 1200 && IsLabel(a.confidence)
  }

  datatype Analysis = Analysis(
    coreSummary: Json,
    confidence: string,
    provider: string,
    model: string,
    latencyMs: nat,
    fallbackUsed: bool)

  // ----- the fallback's four field patterns -----

  predicate IsColonOrSpace(c: char) {
    c == ':' || IsSpace(c)
  }

  /** `[:\s]+` at `a` followed by one character satisfying `p` (the regex may shorten the run). */
  predicate RunThen(s: string, a: nat, p: char -> bool) {
    exists j :: a < j < |s| && (forall k :: a <= k < j ==> IsColonOrSpace(s[k])) && p(s[j])
  }

  /** `\*\*Device\*\*[:\s]+([^\n]+)` (and the same for Symptom), case-sensitive. */
  predicate LabelLineAt(s: string, tag: string, p: nat) {
    OccursAt(s, tag, p) && RunThen(s, p + |tag|, c => c != '\n')
  }

  predicate HasLabelLine(s: string, tag: string) {
    exists p :: 0 <= p <= |s| && LabelLineAt(s, tag, p)
  }

  /** `\*\*Urgency\*\*[:\s]+(\w+)`, ignoring case; `isWord` is the `\w` class. */
  predicate HasUrgency(s: string, isWord: char -> bool) {
    exists p :: 0 <= p <= |s| && OccursAtFold(s, "**urgency**", p) && RunThen(s, p + 11, isWord)
  }

  /**
   * `Confidence score[:\s]+(\d+)%` at `p`, ignoring case: the number. The
   * digits start where the `[:\s]` run ends (no shorter run can be followed
   * by a digit) and run to a '%' (no shorter run of digits is followed by
   * '%').
   */
  function ScoreAt(s: string, p: nat): Option<nat> {
    if !OccursAtFold(s, "confidence score", p) then None
    else
      var a := p + 16;
      var e := RunEnd(s, a, IsColonOrSpace);
      var d := RunEnd(s, e, IsAsciiDigit);
      if e > a && d > e && d < |s| && s[d] == '%' then Some(DecimalValue(s[e..d])) else None
  }

  /** `re.search`: the number of the leftmost match at or after `p`. */
  function Score(s: string, p: nat): (r: Option<nat>)
    ensures r.None? <==> forall q :: p <= q <= |s| ==> ScoreAt(s, q).None?
    ensures r.Some? ==> exists q :: p <= q <= |s| && r == ScoreAt(s, q)
                                    && forall q' :: p <= q' < q ==> ScoreAt(s, q').None?
  {
    match ScoreFrom(s, p)
    case Some(q) => ScoreAt(s, q)
    case None => None
  }

  /** Where the leftmost match at or after `p` starts. */
  function ScoreFrom(s: string, p: nat): (r: Option<nat>)
    ensures r.Some? ==> p <= r.value <= |s| && ScoreAt(s, r.value).Some?
    ensures r.Some? ==> forall q :: p <= q < r.value ==> ScoreAt(s, q).None?
    ensures r.None? ==> forall q :: p <= q <= |s| ==> ScoreAt(s, q).None?
    decreases |s| + 1 - p
  {
    if p > |s| then None
    else if ScoreAt(s, p).Some? then Some(p)
    else ScoreFrom(s, p + 1)
  }

  function Count(b: bool): nat {
    if b then 1 else 0
  }

  /**
   * The fallback's confidence from the number of fields found and the
   * confidence-score number, if present.
   */
  function FallbackConfidence(found: nat, score: Option<nat>): (r: string)
    ensures IsConfidenceLabel(r)
    ensures r == "high" <==> found >= 3 && score.Some? && score.value >= 60
    ensures r == "medium" <==> found >= 2 && !(found >= 3 && score.Some? && score.value >= 60)
    ensures r == "low" <==> found < 2
  {
    if found >= 3 && score.Some? && score.value >= 60 then "high"
    else if found >= 2 then "medium"
    else "low"
  }

  /** `_analyse_executive_fallback`'s confidence. */
  function ReportConfidence(report: string, isWord: char -> bool): (r: string)
    ensures IsConfidenceLabel(r)
  {
    var score := Score(report, 0);
    var found := Count(HasLabelLine(report, "**Device**")) + Count(HasLabelLine(report, "**Symptom**"))
                 + Count(HasUrgency(report, isWord)) + Count(score.Some?);
    FallbackConfidence(found, score)
  }

  /** The fallback confidence is "high" only with a confidence score of at least 60. */
  lemma HighNeedsScore(report: string, isWord: char -> bool)
    requires ReportConfidence(report, isWord) == "high"
    ensures Score(report, 0).Some? && Score(report, 0).value >= 60
    ensures HasLabelLine(report, "**Device**") || HasLabelLine(report, "**Symptom**")
  {
  }

  /**
   * `analyse_executive_report`: the first acceptable provider analysis, else
   * the executive summary with the fallback confidence.
   */
  function AnalyseExecutiveReport(report: string, groq: Outcome, deepseek: Outcome, decode: Decoder,
                                  isWord: char -> bool, fallbackLatencyMs: nat): (r: Run<Analysis>)
    ensures IsConfidenceLabel(r.result.confidence)
    ensures !r.result.fallbackUsed ==> var n := PyLen(r.result.coreSummary); n.Some? && 20 <= n.value <= 1200
    ensures r.result.fallbackUsed <==> r.called == 2 && !(r.result.provider in Providers)
    ensures r.result.fallbackUsed ==>
              r.result.coreSummary == JStr(ExecutiveSummary(report))
              && r.result.confidence == ReportConfidence(report, isWord)
              && r.result.provider == FallbackProvider && r.result.model == FallbackModel
    ensures r.result.provider == "groq" <==> r.called == 1
    ensures r.result.provider == "groq" ==> AnalysisCandidate("groq", groq, decode).Some?
    ensures var g := AnalysisCandidate("groq", groq, decode);
            var d := AnalysisCandidate("deepseek", deepseek, decode);
            (r.result.provider == "groq" <==> Accepts(g, AnalysisOk))
            && (r.result.provider == "deepseek" <==> !Accepts(g, AnalysisOk) && Accepts(d, AnalysisOk))
            && (r.result.fallbackUsed <==> !Accepts(g, AnalysisOk) && !Accepts(d, AnalysisOk))
    ensures !r.result.fallbackUsed ==>
              var a := (if r.result.provider == "groq" then AnalysisCandidate("groq", groq, decode)
                        else AnalysisCandidate("deepseek", deepseek, decode)).value;
              r.result.coreSummary == a.coreSummary && JStr(r.result.confidence) == a.confidence
              && r.result.model == a.model && r.result.latencyMs == a.latencyMs
  {
    var cands := [AnalysisCandidate("groq", groq, decode), AnalysisCandidate("deepseek", deepseek, decode)];
    FirstOfTwo(cands[0], cands[1], AnalysisOk);
    var t := TryInOrder(cands, AnalysisOk);
    match t.winner
    case Some(i) =>
      var a := cands[i].value;
      Run(Analysis(a.coreSummary, a.confidence.s, a.provider, a.model, a.latencyMs, false), t.called)
    case None =>
      Run(Analysis(JStr(ExecutiveSummary(report)), ReportConfidence(report, isWord),
                   FallbackProvider, FallbackModel, fallbackLatencyMs, true), t.called)
  }

  // ---------------------------------------------------------------------------
  // extract_normalized_incident
  // ---------------------------------------------------------------------------

  predicate IsStop(c: char) {
    c == ',' || c == '.'
  }

  predicate NoStop(s: string) {
    forall j :: 0 <= j < |s| ==> !IsStop(s[j])
  }

  /** `re.split(r'[,\.]+', s)`: the pieces between maximal runs of ',' and '.'. */
  function SplitRuns(s: string): (r: seq<string>)
    ensures |r| >= 1
    ensures forall k :: 0 <= k < |r| ==> NoStop(r[k])
    decreases |s|
  {
    var k := RunEnd(s, 0, c => !IsStop(c));
    if k == |s| then [s]
    else
      var e := RunEnd(s, k, IsStop);
      [s[..k]] + SplitRuns(s[e..])
  }

  /** The text with its ',' and '.' removed. */
  function Unstopped(s: string): (r: string)
    ensures NoStop(r)
  {
    if |s| == 0 then ""
    else if IsStop(s[0]) then Unstopped(s[1..])
    else [s[0]] + Unstopped(s[1..])
  }

  function Concat(parts: seq<string>): string {
    if |parts| == 0 then "" else parts[0] + Concat(parts[1..])
  }

  lemma {:induction false} UnstoppedOfNoStop(s: string)
    requires NoStop(s)
    ensures Unstopped(s) == s
    decreases |s|
  {
    if |s| > 0 {
      UnstoppedOfNoStop(s[1..]);
    }
  }

  /** The pieces, put back together, are the text without its separators. */
  lemma {:induction false} SplitRunsConcat(s: string)
    ensures Concat(SplitRuns(s)) == Unstopped(s)
    decreases |s|
  {
    var k := RunEnd(s, 0, c => !IsStop(c));
    if k == |s| {
      UnstoppedOfNoStop(s);
    } else {
      var e := RunEnd(s, k, IsStop);
      assert SplitRuns(s) == [s[..k]] + SplitRuns(s[e..]);
      SplitRunsConcat(s[e..]);
      UnstoppedStep(s, k, e);
    }
  }

  /** A piece without separators, then a run of separators: only the piece is kept. */
  lemma {:induction false} UnstoppedStep(s: string, k: nat, e: nat)
    requires k <= e <= |s|
    requires NoStop(s[..k])
    requires forall j :: k <= j < e ==> IsStop(s[j])
    ensures Unstopped(s) == s[..k] + Unstopped(s[e..])
    decreases e
  {
    if e > 0 {
      var t := s[1..];
      if k > 0 {
        assert !IsStop(s[..k][0]);
        assert t[..k - 1] == s[1..k];
        UnstoppedStep(t, k - 1, e - 1);
        assert t[e - 1..] == s[e..];
        assert [s[0]] + s[1..k] == s[..k];
      } else {
        assert IsStop(s[0]);
        UnstoppedStep(t, 0, e - 1);
        assert t[e - 1..] == s[e..];
      }
    }
  }

  /** The trimmed pieces longer than five characters, in order. */
  function KeepLong(pieces: seq<string>): (r: seq<string>)
    ensures |r| <= |pieces|
    ensures forall k :: 0 <= k < |r| ==> |r[k]| > 5
  {
    if |pieces| == 0 then []
    else
      var t := Strip(pieces[0]);
      if |t| > 5 then [t] + KeepLong(pieces[1..]) else KeepLong(pieces[1..])
  }

  /** Each kept piece is the trimmed form of some piece. */
  lemma {:induction false} KeepLongFrom(pieces: seq<string>, k: nat)
    requires k < |KeepLong(pieces)|
    ensures exists i :: 0 <= i < |pieces| && KeepLong(pieces)[k] == Strip(pieces[i])
    decreases |pieces|
  {
    var t := Strip(pieces[0]);
    if |t| > 5 && k == 0 {
      assert KeepLong(pieces)[0] == Strip(pieces[0]);
    } else {
      var k' := if |t| > 5 then k - 1 else k;
      KeepLongFrom(pieces[1..], k');
      var i :| 0 <= i < |pieces[1..]| && KeepLong(pieces[1..])[k'] == Strip(pieces[1..][i]);
      assert KeepLong(pieces)[k] == Strip(pieces[i + 1]);
    }
  }

  lemma StripNoStop(s: string)
    requires NoStop(s)
    ensures NoStop(Strip(s))
  {
    var l := LStrip(s);
    var a := |s| - |l|;
    forall j | 0 <= j < |Strip(s)|
      ensures !IsStop(Strip(s)[j])
    {
      assert Strip(s)[j] == l[j] == s[a + j];
    }
  }

  /** The fallback's normalised statements. */
  function Statements(text: string): (r: seq<string>)
    ensures forall k :: 0 <= k < |r| ==> |r[k]| > 5
  {
    KeepLong(SplitRuns(text))
  }

  /**
   * Each statement is a trimmed piece of the text between separator runs,
   * so it holds no ',' or '.' and neither starts nor ends with whitespace.
   */
  lemma StatementShape(text: string, k: nat)
    requires k < |Statements(text)|
    ensures var st := Statements(text)[k];
      NoStop(st) && !IsSpace(st[0]) && !IsSpace(st[|st| - 1])
      && exists i :: 0 <= i < |SplitRuns(text)| && st == Strip(SplitRuns(text)[i])
  {
    var pieces := SplitRuns(text);
    KeepLongFrom(pieces, k);
    var i :| 0 <= i < |pieces| && KeepLong(pieces)[k] == Strip(pieces[i]);
    StripNoStop(pieces[i]);
  }

  /** The fallback summary: the first two statements joined by ". ", or the first 200 characters. */
  function IncidentSummary(statements: seq<string>, text: string): (r: string)
    ensures r != "" ==> EndsWith(r, ".")
    ensures |statements| == 0 ==> r == Take(text, 200) || r == Take(text, 200) + "."
    ensures |statements| == 1 ==> r == statements[0] + "." || r == statements[0]
    ensures |statements| >= 2 ==> var two := statements[0] + ". " + statements[1];
                                  r == two + "." || r == two
  {
    var base := if |statements| > 0 then Join(". ", statements[..Min(2, |statements|)]) else Take(text, 200);
    assert |statements| == 1 ==> base == statements[0] by {
      if |statements| == 1 {
        assert statements[..1] == [statements[0]];
      }
    }
    assert |statements| >= 2 ==> base == statements[0] + ". " + statements[1] by {
      if |statements| >= 2 {
        var two := statements[..2];
        assert two == [statements[0], statements[1]];
        assert two[1..] == [statements[1]];
        assert Join(". ", two[1..]) == statements[1];
      }
    }
    if base != "" && !EndsWith(base, ".") then base + "." else base
  }

  /** With statements, the summary always gains a final '.', since no statement contains one. */
  lemma SummaryOfStatements(text: string)
    requires |Statements(text)| >= 1
    ensures var st := Statements(text);
      IncidentSummary(st, text) == (if |st| == 1 then st[0] else st[0] + ". " + st[1]) + "."
  {
    var st := Statements(text);
    var base := if |st| == 1 then st[0] else st[0] + ". " + st[1];
    StatementsLeadNoDot(text);
    NoFinalDot(base);
  }

  /** The text the summary joins from the statements does not end in '.'. */
  lemma StatementsLeadNoDot(text: string)
    requires |Statements(text)| >= 1
    ensures var st := Statements(text);
      var base := if |st| == 1 then st[0] else st[0] + ". " + st[1];
      |base| > 0 && base[|base| - 1] != '.'
  {
    var st := Statements(text);
    StatementShape(text, 0);
    if |st| > 1 {
      StatementShape(text, 1);
      var two := st[0] + ". " + st[1];
      assert two[|two| - 1] == st[1][|st[1]| - 1];
    }
  }

  lemma NoFinalDot(x: string)
    requires |x| > 0 && x[|x| - 1] != '.'
    ensures !EndsWith(x, ".")
  {
    assert x[|x| - 1..][0] == x[|x| - 1];
  }

  /**
   * `_extract_incident_fallback`'s dictionary, one field per key; it has no
   * "fallback_used" key.
   */
  datatype FallbackIncident = FallbackIncident(
    normalizedStatements: seq<string>,
    affectedDevice: string,
    primarySymptom: string,
    severity: string,
    recommendedAction: string,
    coreSummary: string,
    confidence: string,
    provider: string,
    model: string,
    latencyMs: nat)

  /** `_extract_incident_fallback`. */
  function IncidentFallback(text: string, latencyMs: nat): (r: FallbackIncident)
    ensures r.normalizedStatements == Statements(text)
    ensures r.primarySymptom == (if |r.normalizedStatements| > 0 then r.normalizedStatements[0] else "Issue reported")
    ensures r.coreSummary == IncidentSummary(r.normalizedStatements, text)
    ensures r.confidence == "low" && r.severity == "medium" && r.affectedDevice == "Unknown"
    ensures r.provider == FallbackProvider && r.model == FallbackModel && r.latencyMs == latencyMs
  {
    var st := Statements(text);
    FallbackIncident(st, "Unknown", if |st| > 0 then st[0] else "Issue reported", "medium",
                     "Requires investigation", IncidentSummary(st, text), "low",
                     FallbackProvider, FallbackModel, latencyMs)
  }

  /**
   * A provider's incident: the decoded object, with "normalized_statements"
   * defaulted to [], and the three values the adapter writes over it
   * ("provider", "model", "latency_ms") held beside it.
   */
  datatype ProviderIncident = ProviderIncident(fields: map<string, Json>, provider: string, model: string, latencyMs: nat)

  /**
   * `_extract_incident_groq` (`strict`) and `_extract_incident_deepseek`.
   * Both unwrap a fence (a fence the pattern cannot match fails), decode,
   * require "core_summary" and "confidence", and default
   * "normalized_statements" to []. The Groq adapter also rejects an empty
   * reply and, while logging, takes the length of "core_summary"; both take
   * the length of "normalized_statements", so a value without one raises.
   */
  function IncidentCandidate(provider: string, strict: bool, call: Outcome, decode: Decoder): (r: Option<ProviderIncident>)
    ensures r.Some? ==> call.Reply? && IncidentTarget(Strip(call.content)).Some?
    ensures r.Some? ==> r.value.provider == provider && r.value.model == call.model && r.value.latencyMs == call.latencyMs
    ensures r.Some? ==> var v := decode(IncidentTarget(Strip(call.content)).value);
                        v.Some? && v.value.JObj? && "core_summary" in v.value.fields && "confidence" in v.value.fields
                        && Get(r.value.fields, "core_summary") == v.value.fields["core_summary"]
                        && Get(r.value.fields, "confidence") == v.value.fields["confidence"]
                        && PyLen(Get(r.value.fields, "normalized_statements")).Some?
    ensures strict && call.Reply? && Strip(call.content) == "" ==> r.None?
    ensures strict && r.Some? ==> PyLen(Get(r.value.fields, "core_summary")).Some?
    ensures r.Some? <==> call.Reply? && !(strict && Strip(call.content) == "")
                         && IncidentFields(Strip(call.content), strict, decode).Some?
    ensures r.Some? ==> r.value.fields == IncidentFields(Strip(call.content), strict, decode).value
  {
    match call
    case Fail(_) => None
    case Reply(content, model, latency) =>
      var text := Strip(content);
      if strict && text == "" then None
      else
        match IncidentFields(text, strict, decode)
        case None => None
        case Some(data) => Some(ProviderIncident(data, provider, model, latency))
  }

  /** `data.setdefault("normalized_statements", [])`. */
  function WithStatements(d: map<string, Json>): (r: map<string, Json>)
    ensures "normalized_statements" in r
    ensures forall k :: k in d ==> k in r && (k != "normalized_statements" ==> r[k] == d[k])
    ensures "normalized_statements" in d ==> r == d
    ensures "normalized_statements" !in d ==> r["normalized_statements"] == JArr([])
    ensures r.Keys == d.Keys + {"normalized_statements"}
  {
    if "normalized_statements" in d then d else d["normalized_statements" := JArr([])]
  }

  /**
   * What an incident adapter keeps of a trimmed reply: the object decoded
   * from the fence target, with "normalized_statements" defaulted, when it
   * has both required keys and the lengths the adapter takes exist.
   */
  function IncidentFields(text: string, strict: bool, decode: Decoder): (r: Option<map<string, Json>>)
    ensures r.Some? <==> IncidentTarget(text).Some? && HasSummaryKeys(decode(IncidentTarget(text).value))
                         && PyLen(Get(WithStatements(decode(IncidentTarget(text).value).value.fields), "normalized_statements")).Some?
                         && (strict ==> PyLen(Get(WithStatements(decode(IncidentTarget(text).value).value.fields), "core_summary")).Some?)
    ensures r.Some? ==> r.value == WithStatements(decode(IncidentTarget(text).value).value.fields)
  {
    match IncidentTarget(text)
    case None => None
    case Some(target) =>
      match decode(target)
      case Some(JObj(d)) =>
        if "core_summary" !in d || "confidence" !in d then None
        else
          var data := WithStatements(d);
          if PyLen(Get(data, "normalized_statements")).None? then None
          else if strict && PyLen(Get(data, "core_summary")).None? then None
          else Some(data)
      case _ => None
  }

  /**
   * The orchestrator's checks: a truthy "core_summary" of length at least 10
   * (a value without a length raises) and a confidence label.
   */
  predicate IncidentOk(c: ProviderIncident) {
    var core := Get(c.fields, "core_summary");
    Truthy(core) && PyLen(core).Some? && PyLen(core).value >= 10 && IsLabel(Get(c.fields, "confidence"))
  }

  datatype Incident = Provided(incident: ProviderIncident) | Fallback(record: FallbackIncident)

  /** `extract_normalized_incident`. */
  function ExtractIncident(text: string, groq: Outcome, deepseek: Outcome, decode: Decoder, fallbackLatencyMs: nat)
    : (r: Run<Incident>)
    ensures r.result.Fallback? <==> r.called == 2 && !(r.result.Provided? && r.result.incident.provider == "deepseek")
    ensures r.result.Fallback? ==> r.result.record == IncidentFallback(text, fallbackLatencyMs)
    ensures r.result.Provided? ==> IncidentOk(r.result.incident) && r.result.incident.provider in Providers
    ensures r.result.Provided? && r.result.incident.provider == "groq" <==> r.called == 1
    ensures r.result.Provided? ==> var n := PyLen(Get(r.result.incident.fields, "core_summary")); n.Some? && n.value >= 10
    ensures var g := IncidentCandidate("groq", true, groq, decode);
            var d := IncidentCandidate("deepseek", false, deepseek, decode);
            (r.result.Provided? && r.result.incident.provider == "groq" <==> Accepts(g, IncidentOk))
            && (r.result.Provided? && r.result.incident.provider == "deepseek"
                <==> !Accepts(g, IncidentOk) && Accepts(d, IncidentOk))
            && (r.result.Fallback? <==> !Accepts(g, IncidentOk) && !Accepts(d, IncidentOk))
            && (r.result.Provided? && r.result.incident.provider == "groq" ==> r.result.incident == g.value)
            && (r.result.Provided? && r.result.incident.provider == "deepseek" ==> r.result.incident == d.value)
  {
    var cands := [IncidentCandidate("groq", true, groq, decode), IncidentCandidate("deepseek", false, deepseek, decode)];
    FirstOfTwo(cands[0], cands[1], IncidentOk);
    var t := TryInOrder(cands, IncidentOk);
    match t.winner
    case Some(i) => Run(Provided(cands[i].value), t.called)
    case None => Run(Fallback(IncidentFallback(text, fallbackLatencyMs)), t.called)
  }
}
