/**
 * The self-test routes (`routes/self_test.py`): `self_test` runs the fixed
 * extraction cases and reports each; `system_self_test` combines the
 * extraction check, the Whisper model and the voice configuration into one
 * status.
 *
 * Each extraction is an input: `None` when `extract_intent` or the schema
 * validation raised, otherwise the confidence score.
 */
module SelfTest {
  import opened Base
  import opened Text

  /** `_TEST_CASES`: three code-switched Tamil-English complaints. */
  const TestCases: seq<string> := [
    "Indha motor pump-la noise adhikama irukku, capacitor check pannanuma?",
    "Fan la romba vibration varudhu.",
    "En phone la battery fast ah drain aaguthu."
  ]

  // ---------------------------------------------------------------------------
  // self_test
  // ---------------------------------------------------------------------------

  datatype CaseReport = CaseReport(input: string, validJson: bool, confidence: real)

  datatype SelfTestReport = SelfTestReport(status: string, cases: seq<CaseReport>)

  /**
   * `self_test`: every case is run; a failing one is reported as invalid with
   * confidence 0.0, and the status is "pass" only when every case validated.
   */
  method RunSelfTest(inputs: seq<string>, outcomes: seq<Option<real>>) returns (report: SelfTestReport)
    requires |outcomes| == |inputs|
    ensures |report.cases| == |inputs|
    ensures forall k :: 0 <= k < |inputs| ==> report.cases[k].input == inputs[k]
    ensures forall k :: 0 <= k < |inputs| ==> (report.cases[k].validJson <==> outcomes[k].Some?)
    ensures forall k :: 0 <= k < |inputs| ==> report.cases[k].confidence == outcomes[k].GetOr(0.0)
    ensures report.status == "pass" <==> forall k :: 0 <= k < |outcomes| ==> outcomes[k].Some?
    ensures report.status == "pass" || report.status == "fail"
  {
    var cases: seq<CaseReport> := [];
    var allPass := true;
    var i := 0;
    while i < |inputs|
      invariant 0 <= i <= |inputs|
      invariant |cases| == i
      invariant forall k :: 0 <= k < i ==> cases[k] == CaseReport(inputs[k], outcomes[k].Some?, outcomes[k].GetOr(0.0))
      invariant allPass <==> forall k :: 0 <= k < i ==> outcomes[k].Some?
      decreases |inputs| - i
    {
      var validJson := true;
      var confidence := 0.0;
      match outcomes[i] {
        case Some(score) => confidence := score;
        case None =>
          validJson := false;
          allPass := false;
      }
      cases := cases + [CaseReport(inputs[i], validJson, confidence)];
      i := i + 1;
    }
    report := SelfTestReport(if allPass then "pass" else "fail", cases);
  }

  // ---------------------------------------------------------------------------
  // system_self_test
  // ---------------------------------------------------------------------------

  /**
   * The extraction loop of `system_self_test`: it stops at the first failing
   * case. Returns whether all passed and how many extractions were attempted.
   */
  method LlmCheck(outcomes: seq<bool>) returns (pass: bool, attempted: nat)
    ensures pass <==> forall k :: 0 <= k < |outcomes| ==> outcomes[k]
    ensures pass ==> attempted == |outcomes|
    ensures !pass ==> 1 <= attempted <= |outcomes| && !outcomes[attempted - 1]
    ensures forall k :: 0 <= k < attempted - 1 ==> outcomes[k]
  {
    pass := true;
    attempted := 0;
    while attempted < |outcomes|
      invariant 0 <= attempted <= |outcomes|
      invariant forall k :: 0 <= k < attempted ==> outcomes[k]
    {
      var ok := outcomes[attempted];
      attempted := attempted + 1;
      if !ok {
        pass := false;
        return;
      }
    }
  }

  /** Status levels, lowest first. */
  function Rank(status: string): nat {
    if status == "ready" then 2 else if status == "partial" then 1 else 0
  }

  /** `overall_status`: "ready" when every check passes, "error" when none does, "partial" otherwise. */
  function OverallStatus(llm: bool, whisper: bool, voice: bool): (r: string)
    ensures r in {"ready", "partial", "error"}
    ensures r == "ready" <==> llm && whisper && voice
    ensures r == "error" <==> !llm && !whisper && !voice
  {
    var checks := [llm, whisper, voice];
    assert checks[0] == llm && checks[1] == whisper && checks[2] == voice;
    if forall k :: 0 <= k < |checks| ==> checks[k] then "ready"
    else if exists k :: 0 <= k < |checks| && checks[k] then "partial"
    else "error"
  }

  /** Passing one more check never lowers the overall status. */
  lemma StatusMonotone(llm: bool, whisper: bool, voice: bool, llm': bool, whisper': bool, voice': bool)
    requires (llm ==> llm') && (whisper ==> whisper') && (voice ==> voice')
    ensures Rank(OverallStatus(llm, whisper, voice)) <= Rank(OverallStatus(llm', whisper', voice'))
  {
  }

  /**
   * `voice_configured`: ELEVENLABS_API_KEY is set to something non-blank and
   * loading the voice registry did not raise.
   */
  function VoiceConfigured(apiKey: Option<string>, registryLoads: bool): (r: bool)
    ensures r ==> registryLoads
    ensures r ==> apiKey.Some? && exists k :: 0 <= k < |apiKey.value| && !IsSpace(apiKey.value[k])
    ensures registryLoads && apiKey.Some? && Strip(apiKey.value) != "" ==> r
  {
    var configured := Strip(apiKey.GetOr("")) != "";
    StripIsSlice(apiKey.GetOr(""));
    configured && registryLoads
  }

  datatype SystemReport = SystemReport(llmTest: string, whisperLoaded: bool, voiceConfigured: bool, overallStatus: string)

  /** `system_self_test`. */
  method SystemSelfTest(llmOutcomes: seq<bool>, whisperLoaded: bool, apiKey: Option<string>, registryLoads: bool)
    returns (report: SystemReport, attempted: nat)
    ensures report.llmTest == "pass" <==> forall k :: 0 <= k < |llmOutcomes| ==> llmOutcomes[k]
    ensures report.llmTest in {"pass", "fail"}
    ensures report.voiceConfigured == VoiceConfigured(apiKey, registryLoads)
    ensures report.overallStatus == "ready"
            <==> report.llmTest == "pass" && whisperLoaded && report.voiceConfigured
    ensures report.overallStatus == "error"
            <==> report.llmTest == "fail" && !whisperLoaded && !report.voiceConfigured
    ensures report.overallStatus == "partial"
            <==> report.overallStatus != "ready" && report.overallStatus != "error"
    ensures report.overallStatus in {"ready", "partial", "error"}
    ensures report.whisperLoaded == whisperLoaded
    ensures attempted <= |llmOutcomes|
  {
    var llmPass;
    llmPass, attempted := LlmCheck(llmOutcomes);
    var voice := VoiceConfigured(apiKey, registryLoads);
    report := SystemReport(if llmPass then "pass" else "fail", whisperLoaded, voice,
                           OverallStatus(llmPass, whisperLoaded, voice));
  }

  /** The route runs the three fixed cases: whenever the first extraction fails, it stops there. */
  method FirstFailureStops(outcomes: seq<bool>) returns (attempted: nat)
    requires |outcomes| == |TestCases|
    requires !outcomes[0]
    ensures attempted == 1
  {
    var pass;
    pass, attempted := LlmCheck(outcomes);
  }
}
