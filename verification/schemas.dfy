/**
 * The request and result records of the API, with the value domains their
 * pydantic declarations impose, and the validation of a decoded JSON object
 * into an intent result.
 *
 * Validation follows the declared field types strictly: a value of the
 * wrong JSON type is rejected (pydantic's lax coercions, such as a numeric
 * string for a float field, are not modelled; see README).
 */
module Schemas {
  import opened Base
  import opened Json

  // ---------------------------------------------------------------------------
  // Urgency
  // ---------------------------------------------------------------------------

  datatype Urgency = Low | Medium | High

  function UrgencyName(u: Urgency): (s: string)
    ensures IsConfidenceLabel(s)
  {
    match u
    case Low => "low"
    case Medium => "medium"
    case High => "high"
  }

  function ParseUrgency(s: string): (r: Option<Urgency>)
    ensures r.Some? <==> IsConfidenceLabel(s)
  {
    if s == "low" then Some(Low)
    else if s == "medium" then Some(Medium)
    else if s == "high" then Some(High)
    else None
  }

  /** Parsing a name gives back its urgency, and the names are exactly the three labels. */
  lemma UrgencyRoundTrip(u: Urgency, s: string)
    ensures ParseUrgency(UrgencyName(u)) == Some(u)
    ensures ParseUrgency(s).Some? ==> UrgencyName(ParseUrgency(s).value) == s
  {
  }

  // ---------------------------------------------------------------------------
  // IntentResult
  // ---------------------------------------------------------------------------

  datatype IntentResult = IntentResult(
    intent: string,
    device: string,
    symptom: string,
    suspectedComponent: Option<string>,
    userQuery: string,
    urgency: Urgency,
    confidenceScore: real,
    followUpQuestions: seq<string>)

  /** The declared constraint `confidence_score` in [0, 1]; urgency is constrained by its type. */
  predicate ValidIntent(r: IntentResult) {
    0.0 <= r.confidenceScore <= 1.0
  }

  /** A list of strings, or None when some element is not a string. */
  function Strings(items: seq<Json>): (r: Option<seq<string>>)
    ensures r.Some? ==> |r.value| == |items| && forall i :: 0 <= i < |items| ==> items[i] == JStr(r.value[i])
    ensures r.None? ==> exists i :: 0 <= i < |items| && !items[i].JStr?
  {
    if |items| == 0 then Some([])
    else if !items[0].JStr? then None
    else
      match Strings(items[1..])
      case None => None
      case Some(rest) => Some([items[0].s] + rest)
  }

  function RequiredString(d: map<string, Json>, k: string): Option<string> {
    if k in d && d[k].JStr? then Some(d[k].s) else None
  }

  /** `str | None = None`: missing or null gives None, a string gives itself. */
  function OptionalString(d: map<string, Json>, k: string): Option<Option<string>> {
    if k !in d || d[k] == JNull then Some(None)
    else if d[k].JStr? then Some(Some(d[k].s))
    else None
  }

  /** `Literal["low", "medium", "high"] = "low"`. */
  function UrgencyField(d: map<string, Json>, k: string): Option<Urgency> {
    if k !in d then Some(Low)
    else if d[k].JStr? then ParseUrgency(d[k].s)
    else None
  }

  /** `float = Field(ge=0, le=1)`, required. */
  function ScoreField(d: map<string, Json>, k: string): Option<real> {
    if k in d && d[k].JNum? && 0.0 <= d[k].n <= 1.0 then Some(d[k].n) else None
  }

  /** `list[str]` with an empty default. */
  function StringListField(d: map<string, Json>, k: string): Option<seq<string>> {
    if k !in d then Some([])
    else if d[k].JArr? then Strings(d[k].items)
    else None
  }

  /** `IntentResult(**data)`: None stands for a ValidationError. */
  function IntentFromJson(d: map<string, Json>): (r: Option<IntentResult>)
    ensures r.Some? ==> ValidIntent(r.value)
    ensures r.Some? ==> Get(d, "user_query") == JStr(r.value.userQuery)
    ensures !("user_query" in d && d["user_query"].JStr?) ==> r.None?
    ensures !("confidence_score" in d) ==> r.None?
  {
    var intent := RequiredString(d, "intent");
    var device := RequiredString(d, "device");
    var symptom := RequiredString(d, "symptom");
    var component := OptionalString(d, "suspected_component");
    var query := RequiredString(d, "user_query");
    var urgency := UrgencyField(d, "urgency");
    var score := ScoreField(d, "confidence_score");
    var questions := StringListField(d, "follow_up_questions");
    if intent.Some? && device.Some? && symptom.Some? && component.Some? && query.Some?
       && urgency.Some? && score.Some? && questions.Some? then
      Some(IntentResult(intent.value, device.value, symptom.value, component.value, query.value,
                        urgency.value, score.value, questions.value))
    else None
  }

  function StringsToJson(xs: seq<string>): (r: seq<Json>)
    ensures |r| == |xs| && forall i :: 0 <= i < |xs| ==> r[i] == JStr(xs[i])
  {
    seq(|xs|, i requires 0 <= i < |xs| => JStr(xs[i]))
  }

  /** The JSON object `model_dump()` gives for a result. */
  function IntentToJson(r: IntentResult): map<string, Json> {
    map[
      "intent" := JStr(r.intent),
      "device" := JStr(r.device),
      "symptom" := JStr(r.symptom),
      "suspected_component" := (if r.suspectedComponent.Some? then JStr(r.suspectedComponent.value) else JNull),
      "user_query" := JStr(r.userQuery),
      "urgency" := JStr(UrgencyName(r.urgency)),
      "confidence_score" := JNum(r.confidenceScore),
      "follow_up_questions" := JArr(StringsToJson(r.followUpQuestions))
    ]
  }

  lemma {:induction false} StringsOfJson(xs: seq<string>)
    ensures Strings(StringsToJson(xs)) == Some(xs)
  {
    if |xs| > 0 {
      StringsOfJson(xs[1..]);
      assert StringsToJson(xs)[1..] == StringsToJson(xs[1..]);
      assert xs == [xs[0]] + xs[1..];
    }
  }

  /** Every valid result survives serialisation and validation unchanged. */
  lemma IntentJsonRoundTrip(r: IntentResult)
    requires ValidIntent(r)
    ensures IntentFromJson(IntentToJson(r)) == Some(r)
  {
    StringsOfJson(r.followUpQuestions);
    UrgencyRoundTrip(r.urgency, "");
  }

  // ---------------------------------------------------------------------------
  // Code-switch token analysis
  // ---------------------------------------------------------------------------

  datatype TokenAnalysis = TokenAnalysis(token: string, lang: string, confidence: real, reason: string)

  /** `confidence` in [0, 1]; `lang` one of the five documented codes. */
  predicate ValidToken(t: TokenAnalysis) {
    0.0 <= t.confidence <= 1.0
    && (t.lang == "ta" || t.lang == "ml" || t.lang == "en" || t.lang == "mixed" || t.lang == "unk")
  }

  // ---------------------------------------------------------------------------
  // Requests
  // ---------------------------------------------------------------------------

  datatype ProcessTextRequest = ProcessTextRequest(text: string, dialectProfileId: Option<string>)

  /** The body of `POST /process_text`; None is a 422 validation error. */
  function ParseProcessText(body: map<string, Json>): (r: Option<ProcessTextRequest>)
    ensures r.Some? <==> RequiredString(body, "text").Some? && |body["text"].s| >= 1
                         && OptionalString(body, "dialect_profile_id").Some?
    ensures r.Some? ==> |r.value.text| >= 1 && JStr(r.value.text) == body["text"]
  {
    var text := RequiredString(body, "text");
    var dialect := OptionalString(body, "dialect_profile_id");
    if text.Some? && |text.value| >= 1 && dialect.Some? then
      Some(ProcessTextRequest(text.value, dialect.value))
    else None
  }

  /** An empty text and a missing text are both rejected. */
  lemma ProcessTextRejectsEmpty(body: map<string, Json>)
    requires "text" !in body || body["text"] == JStr("")
    ensures ParseProcessText(body).None?
  {
  }

  datatype Gender = Male | Female
  datatype SpeakMode = Enterprise | Original

  datatype SpeakRequest = SpeakRequest(text: string, userName: Option<string>, mode: SpeakMode, gender: Option<Gender>)

  function ParseGender(v: Json): Option<Option<Gender>> {
    if v == JNull then Some(None)
    else if v == JStr("male") then Some(Some(Male))
    else if v == JStr("female") then Some(Some(Female))
    else None
  }

  function ParseMode(d: map<string, Json>): Option<SpeakMode> {
    if "mode" !in d then Some(Enterprise)
    else if d["mode"] == JStr("enterprise") then Some(Enterprise)
    else if d["mode"] == JStr("original") then Some(Original)
    else None
  }

  /** The body of `POST /voice/speak`. */
  function ParseSpeak(body: map<string, Json>): (r: Option<SpeakRequest>)
    ensures r.Some? ==> |r.value.text| >= 1
    ensures r.Some? && "mode" !in body ==> r.value.mode == Enterprise
    ensures r.Some? && "gender" !in body ==> r.value.gender.None?
    ensures r.Some? ==> ("gender" in body && body["gender"] == JStr("male") <==> r.value.gender == Some(Male))
    ensures "mode" in body && body["mode"] != JStr("enterprise") && body["mode"] != JStr("original") ==> r.None?
    ensures r.Some? <==> RequiredString(body, "text").Some? && |body["text"].s| >= 1
                         && OptionalString(body, "user_name").Some? && ParseMode(body).Some?
                         && ("gender" in body ==> ParseGender(body["gender"]).Some?)
    ensures r.Some? ==> JStr(r.value.text) == body["text"] && r.value.userName == OptionalString(body, "user_name").value
                        && Some(r.value.mode) == ParseMode(body)
                        && ("gender" in body ==> Some(r.value.gender) == ParseGender(body["gender"]))
  {
    var text := RequiredString(body, "text");
    var user := OptionalString(body, "user_name");
    var mode := ParseMode(body);
    var gender := if "gender" in body then ParseGender(body["gender"]) else Some(None);
    if text.Some? && |text.value| >= 1 && user.Some? && mode.Some? && gender.Some? then
      Some(SpeakRequest(text.value, user.value, mode.value, gender.value))
    else None
  }

  /**
   * `ClarifyReportRequest`. The answers keep the order the client sent them
   * in, as a Python dict does.
   */
  datatype ClarifyReportRequest = ClarifyReportRequest(
    reportId: string,
    answers: seq<(string, string)>,
    additionalContext: Option<string>)

  /** Builds the request, applying the declared defaults to omitted fields. */
  function MakeClarifyRequest(reportId: string, answers: Option<seq<(string, string)>>,
                              context: Option<string>): (r: ClarifyReportRequest)
    ensures answers.None? ==> r.answers == []
    ensures answers.Some? ==> r.answers == answers.value
    ensures r.additionalContext == context && r.reportId == reportId
  {
    ClarifyReportRequest(reportId, answers.GetOr([]), context)
  }
}
