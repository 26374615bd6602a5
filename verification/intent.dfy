/**
 * Intent extraction: the keyword rule extractor, the parse of an LLM reply
 * into an intent result, the call-and-retry step, and the provider routing
 * of `extract_intent`.
 */
module Intent {
  import opened Base
  import opened Text
  import opened Json
  import opened Repair
  import opened Schemas
  import opened Chain

  // ---------------------------------------------------------------------------
  // Keyword tables and matching
  // ---------------------------------------------------------------------------

  /** A keyword table: canonical labels with their keywords, in declaration order. */
  type Table = seq<(string, seq<string>)>

  const Devices: Table := [
    ("motor pump", ["motor pump", "motor", "pump", "மோட்டார்", "பம்ப்", "മോട്ടർ", "പമ്പ്"]),
    ("transformer", ["transformer", "டிரான்ஸ்ஃபார்மர்", "ട്രാൻസ്ഫോർമർ"]),
    ("inverter", ["inverter", "இன்வெர்ட்டர்", "ഇൻവെർട്ടർ"]),
    ("fan", ["fan", "விசிறி", "ഫാൻ"]),
    ("phone", ["phone", "mobile", "போன்", "ഫോൺ"]),
    ("compressor", ["compressor", "கம்ப்ரஸ்ஸர்", "കംപ്രസ്സർ"]),
    ("AC", ["ac", "air conditioner", "ஏசி", "എസி"])
  ]

  const Symptoms: Table := [
    ("noise", ["noise", "sound", "சத்தம்", "ശബ്ദം", "ஒலி", "valiya sound"]),
    ("vibration", ["vibration", "vibrate", "அதிர்வு", "വൈബ്രേഷൻ"]),
    ("overheating", ["heat", "hot", "overheat", "சூடு", "ചൂട്", "short circuit", "current varudhu", "current koodum", "choodan", "choodum", "valuthu choodan"]),
    ("charging failure", ["not charging", "charge fail", "சார்ஜ் ஆகல", "ചാർജ്", "charge aagala", "charge aagunnilla"]),
    ("not working", ["not working", "stopped", "வேலை செய்யல", "പ്രവർത്തിക്കുന്നില്ല", "aagala", "aagunnilla", "pochu", "illama", "cheyyunnilla", "kurayunnu", "slow"]),
    ("low battery", ["low battery", "battery drain", "drain", "பேட்டரி குறை", "ബാറ്ററി"])
  ]

  const Components: Table := [
    ("capacitor", ["capacitor", "cap", "கெபாசிட்டர்", "കപ്പാസിറ്റർ"]),
    ("filter", ["filter", "பில்டர்", "ഫിൽട്ടർ"]),
    ("wiring", ["wiring", "wire", "cable", "வயரிங்", "വയറിംഗ്"]),
    ("bearing", ["bearing", "பேரிங்", "ബെയറിംഗ്"]),
    ("circuit board", ["circuit", "board", "pcb", "சர்க்யூட்", "സർക്യൂട്ട്"])
  ]

  /** Scores in hundredths: 0.85 for a keyword hit, 0.3 for none. */
  const HitScore: nat := 85
  const MissScore: nat := 30
  const Unknown: string := "unknown"

  /** True when some keyword, lowercased, occurs in the lowercased text. */
  predicate Mentions(textLower: string, keywords: seq<string>) {
    exists j :: 0 <= j < |keywords| && Contains(textLower, Lower(keywords[j]))
  }

  /**
   * `_match`: the label of the first table entry one of whose keywords occurs
   * in the (already lowercased) text, scored 0.85; ("unknown", 0.3) when no
   * keyword of any entry occurs.
   */
  function Match(textLower: string, table: Table): (r: (string, nat))
    ensures r.1 == HitScore || r.1 == MissScore
    ensures r.1 == MissScore <==> forall i :: 0 <= i < |table| ==> !Mentions(textLower, table[i].1)
    ensures r.1 == MissScore ==> r.0 == Unknown
    ensures r.1 == HitScore ==> exists i :: 0 <= i < |table| && r.0 == table[i].0
                                  && Mentions(textLower, table[i].1)
                                  && forall i' :: 0 <= i' < i ==> !Mentions(textLower, table[i'].1)
  {
    var hit := FirstWhere(table, (e: (string, seq<string>)) => Mentions(textLower, e.1));
    if hit.Some? then (table[hit.value].0, HitScore) else (Unknown, MissScore)
  }

  predicate IsLabelOf(table: Table, name: string) {
    exists i :: 0 <= i < |table| && table[i].0 == name
  }

  // ---------------------------------------------------------------------------
  // Rule extractor
  // ---------------------------------------------------------------------------

  /** The nearest integer to n / 3 (n / 3 is never exactly halfway). */
  function RoundThird(n: nat): (r: nat)
    ensures 3 * r <= n + 1 && n <= 3 * r + 1
  {
    (n + 1) / 3
  }

  /**
   * The rule confidence in hundredths: the mean of the three match scores,
   * rounded, then lowered by 0.15 (but not below 0.1) when no symptom matched.
   */
  function RuleConfidence(deviceHit: bool, symptomHit: bool, componentHit: bool): (r: nat)
    ensures 15 <= r <= 85
    ensures r == 85 <==> deviceHit && symptomHit && componentHit
    ensures symptomHit ==> r >= 48
    ensures !symptomHit ==> r <= 52
  {
    var score := (b: bool) => if b then HitScore else MissScore;
    var mean := RoundThird(score(deviceHit) + score(symptomHit) + score(componentHit));
    if symptomHit then mean else Max(mean - 15, 10)
  }

  predicate IsHighUrgencySymptom(s: string) {
    s == "overheating" || s == "not working" || s == "charging failure"
  }

  predicate IsMediumUrgencySymptom(s: string) {
    s == "noise" || s == "vibration" || s == "low battery"
  }

  function UrgencyOf(symptom: string): (u: Urgency)
    ensures u == High <==> IsHighUrgencySymptom(symptom)
    ensures u == Medium <==> IsMediumUrgencySymptom(symptom)
  {
    if IsHighUrgencySymptom(symptom) then High
    else if IsMediumUrgencySymptom(symptom) then Medium
    else Low
  }

  function IntentLabel(device: string, symptom: string): string {
    if device != Unknown && symptom != Unknown then "report_" + ReplaceChar(symptom, ' ', '_')
    else if device != Unknown then "report_general_issue"
    else "unclassified"
  }

  /** The three keyword tables the rule extractor consults. */
  datatype Tables = Tables(devices: Table, symptoms: Table, components: Table)

  /** The tables of the service. */
  const ServiceTables: Tables := Tables(Devices, Symptoms, Components)

  /**
   * `_rule_extract`: the keyword extractor that always produces a result.
   * The tables are a parameter; the service passes `ServiceTables`.
   */
  function RuleExtract(text: string, tables: Tables): (r: IntentResult)
    ensures ValidIntent(r)
    ensures r.userQuery == text && r.followUpQuestions == []
    ensures r.device == Match(Lower(text), tables.devices).0 && r.symptom == Match(Lower(text), tables.symptoms).0
    ensures Match(Lower(text), tables.components).1 == MissScore ==> r.suspectedComponent.None?
    ensures r.suspectedComponent.Some? ==> r.suspectedComponent.value == Match(Lower(text), tables.components).0
    ensures 0.15 <= r.confidenceScore <= 0.85
    ensures r.confidenceScore == RuleConfidence(Match(Lower(text), tables.devices).1 == HitScore,
                                                Match(Lower(text), tables.symptoms).1 == HitScore,
                                                Match(Lower(text), tables.components).1 == HitScore) as real / 100.0
    ensures r.urgency == UrgencyOf(r.symptom)
  {
    var t := Lower(text);
    var (device, d) := Match(t, tables.devices);
    var (symptom, s) := Match(t, tables.symptoms);
    var (component, c) := Match(t, tables.components);
    var conf := RuleConfidence(d == HitScore, s == HitScore, c == HitScore);
    IntentResult(
      IntentLabel(device, symptom), device, symptom,
      if component != Unknown then Some(component) else None,
      text, UrgencyOf(symptom), conf as real / 100.0, [])
  }

  /**
   * Tables whose labels keep the rule intents apart: no label is "unknown",
   * and no symptom label turns into "general_issue".
   */
  predicate WellLabelled(tables: Tables) {
    !IsLabelOf(tables.devices, Unknown) && !IsLabelOf(tables.symptoms, Unknown)
    && !IsLabelOf(tables.components, Unknown)
    && forall i :: 0 <= i < |tables.symptoms| ==> |tables.symptoms[i].0| != |"general_issue"|
  }

  lemma ServiceTablesWellLabelled()
    ensures WellLabelled(ServiceTables)
  {
  }

  /** The shapes of the rule intent label and of the suspected component. */
  lemma RuleIntentCases(text: string, tables: Tables)
    requires WellLabelled(tables)
    ensures var r := RuleExtract(text, tables);
      var deviceHit := Match(Lower(text), tables.devices).1 == HitScore;
      var symptomHit := Match(Lower(text), tables.symptoms).1 == HitScore;
      (r.intent == "unclassified" <==> !deviceHit)
      && (r.intent == "report_general_issue" <==> deviceHit && !symptomHit)
      && (deviceHit && symptomHit ==> r.intent == "report_" + ReplaceChar(r.symptom, ' ', '_'))
      && (r.suspectedComponent.Some? <==> Match(Lower(text), tables.components).1 == HitScore)
  {
    var t := Lower(text);
    var symptom := Match(t, tables.symptoms).0;
    var intentLabel := "report_" + ReplaceChar(symptom, ' ', '_');
    assert intentLabel[0] == 'r';
    if Match(t, tables.symptoms).1 == HitScore {
      assert |intentLabel| != |"report_general_issue"|;
    }
  }

  // ---------------------------------------------------------------------------
  // Parsing an LLM reply
  // ---------------------------------------------------------------------------

  /**
   * The text `_parse_intent_json` decodes: the fence-stripped reply, cut to
   * its brace span when there is one, and otherwise left whole.
   */
  function IntentTarget(raw: string): (r: string)
    ensures HasBraceSpan(StripFence(raw)) ==> r == BraceSlice(StripFence(raw)).value
    ensures !HasBraceSpan(StripFence(raw)) ==> r == StripFence(raw)
  {
    var t := StripFence(raw);
    match BraceSlice(t)
    case Some(span) => span
    case None => t
  }

  /** `data.setdefault("user_query", text)`. */
  function WithUserQuery(d: map<string, Json>, text: string): (r: map<string, Json>)
    ensures "user_query" in r
    ensures "user_query" in d ==> r == d
    ensures "user_query" !in d ==> r == d["user_query" := JStr(text)]
  {
    if "user_query" in d then d else d["user_query" := JStr(text)]
  }

  datatype ParseOutcome =
    | Parsed(result: IntentResult)
    | Invalid   // JSONDecodeError, TypeError or ValueError: caught, None returned
    | Crashed   // AttributeError from `setdefault` on a non-object: not caught

  /** `_parse_intent_json` as written: a decoded value that is not an object crashes. */
  function ParseIntentAsWritten(raw: string, text: string, decode: Decoder): (r: ParseOutcome)
    ensures r.Crashed? <==> decode(IntentTarget(raw)).Some? && !decode(IntentTarget(raw)).value.JObj?
  {
    match decode(IntentTarget(raw))
    case None => Invalid
    case Some(v) =>
      if v.JObj? then
        match IntentFromJson(WithUserQuery(v.fields, text))
        case Some(r) => Parsed(r)
        case None => Invalid
      else Crashed
  }

  /**
   * The parse with the evident intent restored: a reply that does not decode
   * to a valid intent object gives None, whatever it decodes to.
   */
  function ParseIntent(raw: string, text: string, decode: Decoder): (r: Option<IntentResult>)
    ensures r.Some? ==> ValidIntent(r.value)
    ensures r.Some? ==> decode(IntentTarget(raw)).Some? && decode(IntentTarget(raw)).value.JObj?
    ensures r.Some? ==> var d := decode(IntentTarget(raw)).value.fields;
                        ("user_query" in d ==> d["user_query"] == JStr(r.value.userQuery))
                        && ("user_query" !in d ==> r.value.userQuery == text)
  {
    match decode(IntentTarget(raw))
    case None => None
    case Some(v) =>
      if v.JObj? then IntentFromJson(WithUserQuery(v.fields, text)) else None
  }

  /** Where the code as written does not crash, the corrected parse agrees with it. */
  lemma ParseAgreesWhereNoCrash(raw: string, text: string, decode: Decoder)
    requires !ParseIntentAsWritten(raw, text, decode).Crashed?
    ensures ParseIntentAsWritten(raw, text, decode).Parsed?
            <==> ParseIntent(raw, text, decode).Some?
    ensures ParseIntentAsWritten(raw, text, decode).Parsed?
            ==> ParseIntent(raw, text, decode) == Some(ParseIntentAsWritten(raw, text, decode).result)
  {
  }

  /**
   * The reply "null", which `json.loads` decodes to None, makes the parse as
   * written raise AttributeError instead of returning None.
   */
  lemma NullReplyCrashes(text: string, decode: Decoder)
    requires decode("null") == Some(JNull)
    ensures ParseIntentAsWritten("null", text, decode) == Crashed
    ensures ParseIntent("null", text, decode) == None
  {
    NullTarget();
  }

  lemma NullTarget()
    ensures IntentTarget("null") == "null"
  {
    StripOfTrimmed("null");
    assert !StartsWith("null", "```");
    assert !HasBraceSpan("null");
  }

  // ---------------------------------------------------------------------------
  // One provider: call, parse, retry once
  // ---------------------------------------------------------------------------

  datatype Message = Message(role: string, content: string)

  const FixInstruction: string := "Fix the output into STRICT valid JSON only."

  /** The conversation both LLM extractors send: the system prompt, then the transcript. */
  function Conversation(systemPrompt: string, text: string): (r: seq<Message>)
    ensures |r| == 2 && r[0] == Message("system", systemPrompt)
    ensures r[1].role == "user" && EndsWith(r[1].content, text) && |r[1].content| == |"Transcript: "| + |text|
  {
    var content := "Transcript: " + text;
    assert content[|content| - |text|..] == text;
    [Message("system", systemPrompt), Message("user", content)]
  }

  /** The retry conversation: the original messages, the bad reply, and the fix request. */
  function RetryConversation(messages: seq<Message>, raw: string): (r: seq<Message>)
    ensures |r| == |messages| + 2 && r[..|messages|] == messages
    ensures r[|messages|] == Message("assistant", raw)
    ensures r[|messages| + 1] == Message("user", FixInstruction)
  {
    messages + [Message("assistant", raw), Message("user", FixInstruction)]
  }

  datatype StageOutcome =
    | Found(result: IntentResult)
    | NotFound              // a RuntimeError, or no valid JSON after the retry
    | Escaped               // an exception other than RuntimeError propagated

  /** The conversations sent to the provider, in order, and what the stage produced. */
  datatype Stage = Stage(sent: seq<seq<Message>>, outcome: StageOutcome)

  /**
   * `_call_and_parse`: `first` and `retry` are what the provider does with the
   * first and the second call; `retry` is consulted only when a second call
   * is made.
   */
  function CallAndParse(messages: seq<Message>, first: Outcome, retry: Outcome,
                        text: string, decode: Decoder): (r: Stage)
    ensures 1 <= |r.sent| <= 2 && r.sent[0] == messages
    ensures |r.sent| == 2 <==> first.Reply? && ParseIntent(first.content, text, decode).None?
    ensures |r.sent| == 2 ==> r.sent[1] == RetryConversation(messages, first.content)
    ensures r.outcome.Escaped?
            <==> (first.Fail? && first.failure == OtherFailure) || (|r.sent| == 2 && retry.Fail? && retry.failure == OtherFailure)
    ensures r.outcome.Found? ==> ValidIntent(r.outcome.result)
    ensures r.outcome.Found? && |r.sent| == 1
            ==> first.Reply? && Some(r.outcome.result) == ParseIntent(first.content, text, decode)
    ensures r.outcome.Found? && |r.sent| == 2
            ==> retry.Reply? && Some(r.outcome.result) == ParseIntent(retry.content, text, decode)
    ensures first.Reply? && ParseIntent(first.content, text, decode).Some?
            ==> r.outcome == Found(ParseIntent(first.content, text, decode).value)
    ensures |r.sent| == 2 && retry.Reply? && ParseIntent(retry.content, text, decode).Some?
            ==> r.outcome == Found(ParseIntent(retry.content, text, decode).value)
    ensures r.outcome.NotFound?
            <==> (first.Fail? && first.failure == RuntimeFailure)
                 || (|r.sent| == 2 && ((retry.Fail? && retry.failure == RuntimeFailure)
                                       || (retry.Reply? && ParseIntent(retry.content, text, decode).None?)))
  {
    match first
    case Fail(f) => Stage([messages], if f == RuntimeFailure then NotFound else Escaped)
    case Reply(raw, _, _) =>
      match ParseIntent(raw, text, decode)
      case Some(result) => Stage([messages], Found(result))
      case None =>
        var sent := [messages, RetryConversation(messages, raw)];
        match retry
        case Fail(f) => Stage(sent, if f == RuntimeFailure then NotFound else Escaped)
        case Reply(raw2, _, _) =>
          match ParseIntent(raw2, text, decode)
          case Some(result) => Stage(sent, Found(result))
          case None => Stage(sent, NotFound)
  }

  // ---------------------------------------------------------------------------
  // Routing
  // ---------------------------------------------------------------------------

  datatype Source = GroqSource | FeatherlessSource | RuleSource

  datatype Extraction = Extracted(result: IntentResult, source: Source) | Raised

  /** What one provider does on the first and on the retry call. */
  datatype ProviderCalls = ProviderCalls(first: Outcome, retry: Outcome)

  function Stage1(messages: seq<Message>, calls: ProviderCalls, text: string, decode: Decoder): Stage {
    CallAndParse(messages, calls.first, calls.retry, text, decode)
  }

  /**
   * `extract_intent`: "groq" tries Groq, then Featherless, then the rules;
   * "featherless" tries Featherless, then the rules; any other setting
   * (compared lowercased) uses the rules alone.
   */
  function ExtractIntent(provider: string, text: string, systemPrompt: string, tables: Tables,
                         groq: ProviderCalls, featherless: ProviderCalls, decode: Decoder): (r: Extraction)
    ensures Lower(provider) != "groq" && Lower(provider) != "featherless" ==> r == Extracted(RuleExtract(text, tables), RuleSource)
    ensures r.Extracted? ==> ValidIntent(r.result)
    ensures r.Extracted? && r.source == GroqSource ==> Lower(provider) == "groq"
    ensures r.Extracted? && r.source == FeatherlessSource ==>
              Lower(provider) == "featherless"
              || (Lower(provider) == "groq" && Stage1(Conversation(systemPrompt, text), groq, text, decode).outcome.NotFound?)
    ensures r.Extracted? && r.source == RuleSource ==> r.result == RuleExtract(text, tables)
    ensures var messages := Conversation(systemPrompt, text);
            var g := Stage1(messages, groq, text, decode).outcome;
            var f := Stage1(messages, featherless, text, decode).outcome;
            Lower(provider) == "groq" ==>
              (g.Found? ==> r == Extracted(g.result, GroqSource))
              && (g.NotFound? && f.Found? ==> r == Extracted(f.result, FeatherlessSource))
              && (r == Raised <==> g.Escaped? || (g.NotFound? && f.Escaped?))
              && (r.Extracted? && r.source == RuleSource <==> g.NotFound? && f.NotFound?)
    ensures var f := Stage1(Conversation(systemPrompt, text), featherless, text, decode).outcome;
            Lower(provider) == "featherless" ==>
              (f.Found? ==> r == Extracted(f.result, FeatherlessSource))
              && (r == Raised <==> f.Escaped?)
              && (r.Extracted? && r.source == RuleSource <==> f.NotFound?)
  {
    var messages := Conversation(systemPrompt, text);
    var p := Lower(provider);
    if p == "groq" then
      match Stage1(messages, groq, text, decode).outcome
      case Found(x) => Extracted(x, GroqSource)
      case Escaped => Raised
      case NotFound =>
        match Stage1(messages, featherless, text, decode).outcome
        case Found(x) => Extracted(x, FeatherlessSource)
        case Escaped => Raised
        case NotFound => Extracted(RuleExtract(text, tables), RuleSource)
    else if p == "featherless" then
      match Stage1(messages, featherless, text, decode).outcome
      case Found(x) => Extracted(x, FeatherlessSource)
      case Escaped => Raised
      case NotFound => Extracted(RuleExtract(text, tables), RuleSource)
    else Extracted(RuleExtract(text, tables), RuleSource)
  }

  predicate OnlyRuntimeFailures(calls: ProviderCalls) {
    !(calls.first.Fail? && calls.first.failure == OtherFailure)
    && !(calls.retry.Fail? && calls.retry.failure == OtherFailure)
  }

  /**
   * As long as providers fail only with RuntimeError, `extract_intent`
   * always returns an intent result, and the rules are used exactly when
   * every configured provider stage found nothing.
   */
  lemma ExtractionTotal(provider: string, text: string, systemPrompt: string, tables: Tables,
                        groq: ProviderCalls, featherless: ProviderCalls, decode: Decoder)
    requires OnlyRuntimeFailures(groq) && OnlyRuntimeFailures(featherless)
    ensures ExtractIntent(provider, text, systemPrompt, tables, groq, featherless, decode).Extracted?
    ensures var r := ExtractIntent(provider, text, systemPrompt, tables, groq, featherless, decode);
      r.source == RuleSource <==>
        (Lower(provider) == "groq" ==> Stage1(Conversation(systemPrompt, text), groq, text, decode).outcome.NotFound?)
        && (Lower(provider) == "groq" || Lower(provider) == "featherless"
            ==> Stage1(Conversation(systemPrompt, text), featherless, text, decode).outcome.NotFound?)
  {
    var messages := Conversation(systemPrompt, text);
    var g := Stage1(messages, groq, text, decode);
    var f := Stage1(messages, featherless, text, decode);
    assert !g.outcome.Escaped? && !f.outcome.Escaped?;
  }
}
