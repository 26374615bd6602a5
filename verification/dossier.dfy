/**
 * The decisions behind the incident dossier: the confidence cap, the table
 * lookups, the completeness checks, the confidence factors, the assumption
 * flags and whether the cross-language section is added.
 *
 * The dossier's prose is not modelled: a table entry is represented by the
 * key it is found under, and each factor and flag by a constructor.
 */
module Dossier {
  import opened Base
  import opened Text
  import opened Schemas
  import CodeSwitch

  // ---------------------------------------------------------------------------
  // Confidence cap
  // ---------------------------------------------------------------------------

  const GenericCap: real := 0.85
  const SpecificCap: real := 0.95

  /** Lower-cased and trimmed, the symptom is "unknown", "issue", "problem" or empty. */
  predicate IsGeneric(symptom: string) {
    var s := Strip(Lower(symptom));
    s == "unknown" || s == "issue" || s == "problem" || s == ""
  }

  /** `_apply_confidence_cap`. */
  function ApplyConfidenceCap(confidence: real, symptom: string): (r: real)
    ensures r <= confidence
    ensures r == confidence || r == (if IsGeneric(symptom) then GenericCap else SpecificCap)
    ensures r <= (if IsGeneric(symptom) then GenericCap else SpecificCap)
  {
    var cap := if IsGeneric(symptom) then GenericCap else SpecificCap;
    if confidence < cap then confidence else cap
  }

  /** Capping twice is capping once. */
  lemma CapIdempotent(confidence: real, symptom: string)
    ensures ApplyConfidenceCap(ApplyConfidenceCap(confidence, symptom), symptom) == ApplyConfidenceCap(confidence, symptom)
  {
  }

  /** A score is reported as capped exactly when it was above the symptom's ceiling. */
  lemma CappedIff(confidence: real, symptom: string)
    ensures ApplyConfidenceCap(confidence, symptom) < confidence
            <==> confidence > (if IsGeneric(symptom) then GenericCap else SpecificCap)
  {
  }

  // ---------------------------------------------------------------------------
  // Lookups
  // ---------------------------------------------------------------------------

  datatype RiskLevel = Critical | Elevated | Monitored

  /** `_RISK_MATRIX.get(urgency, _RISK_MATRIX["low"])`: every urgency has a row. */
  function Risk(u: Urgency): (r: RiskLevel)
    ensures r == Critical <==> u == High
    ensures r == Monitored <==> u == Low
  {
    match u
    case High => Critical
    case Medium => Elevated
    case Low => Monitored
  }

  /** The keys shared by the hypothesis, action and German summary tables. */
  const GuidanceKeys: seq<string> :=
    ["overheating", "noise", "vibration", "not working", "charging failure", "low battery", "unknown"]

  /** Every action list has this many entries. */
  const ActionsPerSymptom: nat := 5

  /**
   * The key a symptom's hypothesis, actions and German summary are found
   * under: the symptom itself (exactly, without case folding) when the tables
   * have it, otherwise "unknown".
   */
  function GuidanceKey(symptom: string): (r: string)
    ensures r in GuidanceKeys
    ensures symptom in GuidanceKeys ==> r == symptom
    ensures symptom !in GuidanceKeys ==> r == "unknown"
  {
    if symptom in GuidanceKeys then symptom else "unknown"
  }

  // ---------------------------------------------------------------------------
  // Completeness, factors and flags
  // ---------------------------------------------------------------------------

  /** Lower-cased and trimmed, the value is "" or "unknown". */
  predicate Unresolved(v: string) {
    var s := Strip(Lower(v));
    s == "" || s == "unknown"
  }

  function ComponentText(c: Option<string>): string {
    match c
    case Some(s) => s
    case None => ""
  }

  /** Which of device, symptom and component the intent resolves. */
  datatype Resolution = Resolution(device: bool, symptom: bool, component: bool)

  function Resolve(intent: IntentResult): (r: Resolution)
    ensures r.device <==> !Unresolved(intent.device)
    ensures r.symptom <==> !IsGeneric(intent.symptom)
    ensures r.component <==> !Unresolved(ComponentText(intent.suspectedComponent))
  {
    Resolution(!Unresolved(intent.device), !IsGeneric(intent.symptom), !Unresolved(ComponentText(intent.suspectedComponent)))
  }

  /** The five completeness checks, in order. */
  function CompletenessChecks(transcript: string, intent: IntentResult): (r: seq<bool>)
    ensures |r| == 5
    ensures r[0] <==> |Strip(transcript)| > 0
    ensures r[1] <==> !Unresolved(intent.device)
    ensures r[2] <==> !IsGeneric(intent.symptom)
    ensures r[3] <==> !Unresolved(ComponentText(intent.suspectedComponent))
    ensures r[4]
  {
    ChecksOf(|Strip(transcript)| > 0, Resolve(intent))
  }

  /** The checks in the order the report lists them; the urgency check always passes. */
  function ChecksOf(hasTranscript: bool, res: Resolution): (r: seq<bool>)
    ensures |r| == 5
    ensures r[0] == hasTranscript && r[1] == res.device && r[2] == res.symptom && r[3] == res.component && r[4]
  {
    [hasTranscript, res.device, res.symptom, res.component, true]
  }

  function Passed(checks: seq<bool>): (n: nat)
    ensures n <= |checks|
  {
    if |checks| == 0 then 0 else (if checks[0] then 1 else 0) + Passed(checks[1..])
  }

  /** Any passed check makes the count positive. */
  lemma {:induction false} PassedPositive(checks: seq<bool>, i: nat)
    requires i < |checks| && checks[i]
    ensures Passed(checks) >= 1
    decreases i
  {
    if i > 0 && !checks[0] {
      PassedPositive(checks[1..], i - 1);
    }
  }

  /** The number of checks passed is between 1 and 5: the urgency is always one of the three. */
  lemma CompletenessBounds(transcript: string, intent: IntentResult)
    ensures 1 <= Passed(CompletenessChecks(transcript, intent)) <= 5
  {
    PassedPositive(CompletenessChecks(transcript, intent), 4);
  }

  datatype Factor =
    | DeviceResolved(device: string)
    | DeviceUnresolved
    | SymptomSpecific(symptom: string)
    | SymptomGeneric
    | ComponentIdentified(component: string)
    | NoComponent
    | CodeSwitched
    | Capped(raw: real, capped: real)

  predicate IsDeviceFactor(f: Factor) {
    f.DeviceResolved? || f.DeviceUnresolved?
  }

  predicate IsSymptomFactor(f: Factor) {
    f.SymptomSpecific? || f.SymptomGeneric?
  }

  predicate IsComponentFactor(f: Factor) {
    f.ComponentIdentified? || f.NoComponent?
  }

  /** The "Confidence Justification" lines. */
  function ConfidenceFactors(intent: IntentResult, res: Resolution, multilingual: bool, raw: real, capped: real)
    : (r: seq<Factor>)
    ensures 3 <= |r| <= 5
    ensures IsDeviceFactor(r[0]) && IsSymptomFactor(r[1]) && IsComponentFactor(r[2])
    ensures r[0].DeviceResolved? <==> res.device
    ensures r[1].SymptomSpecific? <==> res.symptom
    ensures r[2].ComponentIdentified? <==> res.component
    ensures forall k :: 3 <= k < |r| ==> r[k].CodeSwitched? || r[k].Capped?
    ensures CodeSwitched in r <==> multilingual
    ensures (exists k :: 0 <= k < |r| && r[k].Capped?) <==> capped < raw
    ensures |r| == 3 + (if multilingual then 1 else 0) + (if capped < raw then 1 else 0)
    ensures res.device ==> r[0] == DeviceResolved(intent.device)
    ensures res.symptom ==> r[1] == SymptomSpecific(intent.symptom)
    ensures res.component ==> r[2] == ComponentIdentified(ComponentText(intent.suspectedComponent))
    ensures multilingual ==> r[3] == CodeSwitched
    ensures capped < raw ==> r[|r| - 1] == Capped(raw, capped)
  {
    var core := CoreFactors(intent, res);
    var extra := ExtraFactors(multilingual, raw, capped);
    var r := core + extra;
    assert forall k :: 0 <= k < 3 ==> r[k] == core[k];
    assert forall k :: 3 <= k < |r| ==> r[k] == extra[k - 3];
    assert capped < raw ==> exists k :: 0 <= k < |r| && r[k].Capped? by {
      if capped < raw {
        var k :| 0 <= k < |extra| && extra[k].Capped?;
        assert r[k + 3] == extra[k];
      }
    }
    r
  }

  /** The device, symptom and component lines. */
  function CoreFactors(intent: IntentResult, res: Resolution): (c: seq<Factor>)
    ensures |c| == 3 && IsDeviceFactor(c[0]) && IsSymptomFactor(c[1]) && IsComponentFactor(c[2])
    ensures c[0].DeviceResolved? <==> res.device
    ensures c[1].SymptomSpecific? <==> res.symptom
    ensures c[2].ComponentIdentified? <==> res.component
    ensures res.device ==> c[0] == DeviceResolved(intent.device)
    ensures res.symptom ==> c[1] == SymptomSpecific(intent.symptom)
    ensures res.component ==> c[2] == ComponentIdentified(ComponentText(intent.suspectedComponent))
  {
    var device := if res.device then DeviceResolved(intent.device) else DeviceUnresolved;
    var symptom := if res.symptom then SymptomSpecific(intent.symptom) else SymptomGeneric;
    var component := if res.component then ComponentIdentified(ComponentText(intent.suspectedComponent)) else NoComponent;
    [device, symptom, component]
  }

  /** The optional lines after the first three: code-switching, then the cap. */
  function ExtraFactors(multilingual: bool, raw: real, capped: real): (t: seq<Factor>)
    ensures |t| <= 2
    ensures forall k :: 0 <= k < |t| ==> t[k].CodeSwitched? || t[k].Capped?
    ensures CodeSwitched in t <==> multilingual
    ensures (exists k :: 0 <= k < |t| && t[k].Capped?) <==> capped < raw
    ensures |t| == (if multilingual then 1 else 0) + (if capped < raw then 1 else 0)
    ensures multilingual ==> t[0] == CodeSwitched
    ensures capped < raw ==> t[|t| - 1] == Capped(raw, capped)
  {
    var lang := if multilingual then [CodeSwitched] else [];
    var cap := if capped < raw then [Capped(raw, capped)] else [];
    assert capped < raw ==> (lang + cap)[|lang + cap| - 1].Capped?;
    lang + cap
  }

  datatype Flag = DeviceDefaulted | SymptomUnclassified | ComponentNotDerived | SingleLanguage | NoSignificantAssumptions

  /** The "Assumption Flags" lines. */
  function AssumptionFlags(res: Resolution, multilingual: bool): (r: seq<Flag>)
    ensures |r| >= 1
    ensures DeviceDefaulted in r <==> !res.device
    ensures SymptomUnclassified in r <==> !res.symptom
    ensures ComponentNotDerived in r <==> !res.component
    ensures SingleLanguage in r <==> !multilingual
    ensures NoSignificantAssumptions in r <==> r == [NoSignificantAssumptions]
  {
    var flags := (if !res.device then [DeviceDefaulted] else [])
               + (if !res.symptom then [SymptomUnclassified] else [])
               + (if !res.component then [ComponentNotDerived] else [])
               + (if !multilingual then [SingleLanguage] else []);
    if flags == [] then [NoSignificantAssumptions] else flags
  }

  /** "No significant assumptions" needs a multilingual input with every field resolved. */
  lemma NoAssumptionsNeedsMultilingual(res: Resolution, multilingual: bool)
    requires AssumptionFlags(res, multilingual) == [NoSignificantAssumptions]
    ensures multilingual && res.device && res.symptom && res.component
  {
    assert NoSignificantAssumptions in AssumptionFlags(res, multilingual);
  }

  // ---------------------------------------------------------------------------
  // generate_report
  // ---------------------------------------------------------------------------

  /** What `generate_report` decides; the text is built from these. */
  datatype Decisions = Decisions(
    risk: RiskLevel,
    guidanceKey: string,
    rawConfidence: real,
    cappedConfidence: real,
    wasCapped: bool,
    multilingual: bool,
    tokenCount: nat,
    completeness: seq<bool>,
    passed: nat,
    factors: seq<Factor>,
    flags: seq<Flag>,
    sections: seq<nat>)

  /** The numbered sections: 1 to 11, and 12 (the cross-language summary) in enterprise mode. */
  function Sections(enterpriseMode: bool): (r: seq<nat>)
    ensures |r| == (if enterpriseMode then 12 else 11)
    ensures forall k :: 0 <= k < |r| ==> r[k] == k + 1
  {
    var base := seq(11, k requires 0 <= k < 11 => k + 1);
    if enterpriseMode then base + [12] else base
  }

  /** `generate_report`, without the prose and the timestamps. */
  function GenerateReport(transcript: string, cs: CodeSwitch.CodeSwitchResult, intent: IntentResult,
                          enterpriseMode: bool): (r: Decisions)
    ensures r.cappedConfidence == ApplyConfidenceCap(intent.confidenceScore, intent.symptom)
    ensures r.wasCapped <==> r.cappedConfidence < intent.confidenceScore
    ensures r.cappedConfidence <= intent.confidenceScore
    ensures r.multilingual <==> |cs.languageMix| > 1
    ensures r.tokenCount == |cs.tokens|
    ensures r.risk == Risk(intent.urgency) && r.guidanceKey in GuidanceKeys
    ensures r.guidanceKey == GuidanceKey(intent.symptom)
    ensures |r.completeness| == 5 && 1 <= r.passed <= 5
    ensures (exists k :: 0 <= k < |r.factors| && r.factors[k].Capped?) <==> r.wasCapped
    ensures CodeSwitched in r.factors <==> r.multilingual
    ensures r.flags == AssumptionFlags(Resolve(intent), r.multilingual)
    ensures r.factors == ConfidenceFactors(intent, Resolve(intent), r.multilingual, intent.confidenceScore, r.cappedConfidence)
    ensures 12 in r.sections <==> enterpriseMode
    ensures r.rawConfidence == intent.confidenceScore
    ensures r.completeness == CompletenessChecks(transcript, intent)
    ensures r.passed == Passed(r.completeness)
    ensures r.sections == Sections(enterpriseMode)
  {
    var capped := ApplyConfidenceCap(intent.confidenceScore, intent.symptom);
    var multilingual := |cs.languageMix| > 1;
    var checks := CompletenessChecks(transcript, intent);
    var res := Resolve(intent);
    CompletenessBounds(transcript, intent);
    var sections := Sections(enterpriseMode);
    assert enterpriseMode ==> sections[11] == 12;
    Decisions(Risk(intent.urgency), GuidanceKey(intent.symptom), intent.confidenceScore, capped,
              capped < intent.confidenceScore, multilingual, |cs.tokens|, checks, Passed(checks),
              ConfidenceFactors(intent, res, multilingual, intent.confidenceScore, capped),
              AssumptionFlags(res, multilingual), sections)
  }
}
