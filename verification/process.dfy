/**
 * The processing routes: the clarification gate, the audio upload guards,
 * and the clarify route's enriched transcript and draft lookup.
 *
 * The pipeline the routes finish with (code-switch analysis, intent
 * extraction, the dossier, persistence) is modelled in its own modules; here
 * a route's success is the transcript it hands to that pipeline.
 */
module Process {
  import opened Base
  import opened Text
  import opened Json
  import opened Schemas

  // ---------------------------------------------------------------------------
  // _needs_clarification
  // ---------------------------------------------------------------------------

  /** The route's own generic-symptom set (wider than the dossier's). */
  predicate IsGenericSymptom(s: string) {
    s == "issue" || s == "problem" || s == "unknown" || s == "" || s == "trouble" || s == "error"
  }

  /**
   * The questions, with the symptom as the question shows it. The gate
   * recognises the brevity question by its opening words; no other question
   * can start with them, so it is recognised by its constructor here.
   */
  datatype Question = TooBrief | Unconfident(shown: string) | GenericSymptom(shown: string)

  /**
   * The questions asked, in order, for the three conditions. The generic
   * question is skipped when the first question is the brevity one; the
   * other question's text shows the symptom, and a symptom that is generic
   * cannot contain the brevity question's opening words, so only the
   * brevity question can suppress it.
   */
  function Questions(brief: bool, unsure: bool, generic: bool, shown: string): (r: seq<Question>)
    ensures |r| <= 2
    ensures forall k :: 0 <= k < |r| ==> r[k] in {TooBrief, Unconfident(shown), GenericSymptom(shown)}
    ensures TooBrief in r <==> brief
    ensures Unconfident(shown) in r <==> unsure
    ensures GenericSymptom(shown) in r <==> generic && !brief
    ensures brief ==> r[0] == TooBrief
    ensures |r| == 0 <==> !brief && !unsure && !generic
  {
    if brief then
      if unsure then [TooBrief, Unconfident(shown)] else [TooBrief]
    else if unsure then
      if generic then [Unconfident(shown), GenericSymptom(shown)] else [Unconfident(shown)]
    else if generic then [GenericSymptom(shown)]
    else []
  }

  /**
   * `_needs_clarification`. A missing confidence attribute counts as 1.0;
   * a missing symptom is matched as "" and shown as "unknown".
   */
  function NeedsClarification(transcript: string, confidence: Option<real>, symptom: Option<string>)
    : (r: (bool, seq<Question>))
    ensures r.0 <==> |r.1| > 0
    ensures r.0 <==> |Words(transcript)| < 5 || confidence.GetOr(1.0) < 0.75
                     || IsGenericSymptom(Strip(Lower(symptom.GetOr(""))))
    ensures forall k :: 0 <= k < |r.1| ==>
              r.1[k] in {TooBrief, Unconfident(symptom.GetOr("unknown")), GenericSymptom(symptom.GetOr("unknown"))}
    ensures TooBrief in r.1 <==> |Words(transcript)| < 5
    ensures Unconfident(symptom.GetOr("unknown")) in r.1 <==> confidence.GetOr(1.0) < 0.75
    ensures GenericSymptom(symptom.GetOr("unknown")) in r.1
            <==> IsGenericSymptom(Strip(Lower(symptom.GetOr("")))) && |Words(transcript)| >= 5
  {
    var questions := Questions(|Words(transcript)| < 5, confidence.GetOr(1.0) < 0.75,
                               IsGenericSymptom(Strip(Lower(symptom.GetOr("")))), symptom.GetOr("unknown"));
    (|questions| > 0, questions)
  }

  /** A brief transcript is never also asked the generic-symptom question. */
  lemma BriefSuppressesGeneric(transcript: string, confidence: Option<real>, symptom: Option<string>)
    requires |Words(transcript)| < 5
    ensures var q := NeedsClarification(transcript, confidence, symptom).1;
      |q| > 0 && q[0] == TooBrief && GenericSymptom(symptom.GetOr("unknown")) !in q
  {
  }

  // ---------------------------------------------------------------------------
  // process_audio
  // ---------------------------------------------------------------------------

  /**
   * The suffix passed to transcription: "." and the text after the file
   * name's last '.', or ".wav" for a name without one. A missing or empty
   * name is "audio.wav".
   */
  function UploadSuffix(filename: Option<string>): (r: string)
    ensures |r| >= 1 && r[0] == '.'
    ensures forall j :: 1 <= j < |r| ==> r[j] != '.'
    ensures filename.None? || filename.value == "" ==> r == ".wav"
  {
    var name := if filename.None? || filename.value == "" then "audio.wav" else filename.value;
    var dot := RFind(name, '.');
    assert name == "audio.wav" ==> name[5] == '.' && dot == 5 && name[6..] == "wav";
    if dot >= 0 then "." + name[dot + 1..] else ".wav"
  }

  /** A named file's suffix is the end of its name, from its last '.'. */
  lemma SuffixEndsName(name: string)
    requires name != "" && '.' in name
    ensures EndsWith(name, UploadSuffix(Some(name)))
  {
    var dot := RFind(name, '.');
    assert dot >= 0;
    assert name[dot..] == "." + name[dot + 1..];
  }

  /** A name without a '.' uploads as ".wav". */
  lemma SuffixWithoutDot(filename: Option<string>)
    requires filename.Some? && filename.value != "" && '.' !in filename.value
    ensures UploadSuffix(filename) == ".wav"
  {
    assert RFind(filename.value, '.') == -1;
  }

  /** What the transcription service returned: its "transcript" and "provider" values, if present. */
  datatype Transcription = TranscriptionFailed | Transcribed(transcript: Option<string>, provider: Option<string>)

  /** The transcript a route hands to the pipeline, and the provider it reports. */
  datatype PipelineCall = PipelineCall(transcript: string, provider: string)

  /** The response's `transcript_length`: the number of whitespace-separated words. */
  function TranscriptLength(call: PipelineCall): nat {
    |Words(call.transcript)|
  }

  /** `process_text`: the request's text, reported as provider "text". */
  function ProcessText(req: ProcessTextRequest): (r: PipelineCall)
    ensures r.transcript == req.text && r.provider == "text"
  {
    PipelineCall(req.text, "text")
  }

  datatype AudioError = EmptyUpload | TranscriptionError | EmptyTranscript

  /** The HTTP status each rejection is raised with. */
  function Status(e: AudioError): nat {
    match e
    case EmptyUpload => 400
    case TranscriptionError => 500
    case EmptyTranscript => 422
  }

  /**
   * `process_audio`: `transcribed` is whether transcription ran (it does
   * not for an empty upload). There is no clarification gate on this route.
   */
  function ProcessAudio(audio: seq<Byte>, asr: Transcription): (r: (Result<PipelineCall, AudioError>, bool))
    ensures r.1 <==> |audio| > 0
    ensures r.0 == Error(EmptyUpload) <==> |audio| == 0
    ensures r.0 == Error(TranscriptionError) <==> |audio| > 0 && asr.TranscriptionFailed?
    ensures r.0 == Error(EmptyTranscript) <==>
              |audio| > 0 && asr.Transcribed? && Strip(asr.transcript.GetOr("")) == ""
    ensures r.0.Ok? ==> asr.Transcribed? && r.0.value.transcript == Strip(asr.transcript.GetOr(""))
                             && r.0.value.transcript != "" && r.0.value.provider == asr.provider.GetOr("openai")
  {
    if |audio| == 0 then (Error(EmptyUpload), false)
    else
      match asr
      case TranscriptionFailed => (Error(TranscriptionError), true)
      case Transcribed(t, p) =>
        var transcript := Strip(t.GetOr(""));
        if transcript == "" then (Error(EmptyTranscript), true)
        else (Ok(PipelineCall(transcript, p.GetOr("openai"))), true)
  }

  /** Every non-empty transcript is processed: the only rejections are the three guards. */
  lemma AudioProcessedIff(audio: seq<Byte>, asr: Transcription)
    ensures ProcessAudio(audio, asr).0.Ok?
            <==> |audio| > 0 && asr.Transcribed? && Strip(asr.transcript.GetOr("")) != ""
  {
  }

  // ---------------------------------------------------------------------------
  // clarify_report
  // ---------------------------------------------------------------------------

  function ClarificationParts(answers: seq<(string, string)>): (r: seq<string>)
    ensures |r| == |answers|
    ensures forall k :: 0 <= k < |answers| ==> r[k] == "[Clarification] " + answers[k].0 + ": " + answers[k].1
  {
    seq(|answers|, k requires 0 <= k < |answers| => "[Clarification] " + answers[k].0 + ": " + answers[k].1)
  }

  /** The original transcript, one part per answer in order, then the context if it is non-empty. */
  function SupplementParts(original: string, answers: seq<(string, string)>, context: Option<string>): (r: seq<string>)
    ensures |r| == |answers| + 1 + (if context.Some? && context.value != "" then 1 else 0)
    ensures r[0] == original
    ensures r[1..|answers| + 1] == ClarificationParts(answers)
    ensures context.Some? && context.value != "" ==> r[|r| - 1] == "[Additional context] " + context.value
  {
    var extra := if context.Some? && context.value != "" then ["[Additional context] " + context.value] else [];
    var r := [original] + ClarificationParts(answers) + extra;
    assert r[1..|answers| + 1] == ClarificationParts(answers);
    r
  }

  /** The enriched transcript: the parts joined by " | ". */
  function EnrichedTranscript(original: string, answers: seq<(string, string)>, context: Option<string>): string {
    Join(" | ", SupplementParts(original, answers, context))
  }

  /** The enriched transcript starts with the original one. */
  lemma EnrichedStartsWithOriginal(original: string, answers: seq<(string, string)>, context: Option<string>)
    ensures StartsWith(EnrichedTranscript(original, answers, context), original)
  {
    JoinStartsWithFirst(" | ", SupplementParts(original, answers, context));
  }

  /** Without answers or context, the transcript is re-run unchanged. */
  lemma NothingToAdd(original: string, context: Option<string>)
    requires context.None? || context.value == ""
    ensures EnrichedTranscript(original, [], context) == original
  {
    assert SupplementParts(original, [], context) == [original];
  }

  /** Each answer's part follows the original, separated by " | ". */
  lemma OneAnswer(original: string, q: string, a: string)
    ensures EnrichedTranscript(original, [(q, a)], None) == original + " | " + ("[Clarification] " + q + ": " + a)
  {
    var part := "[Clarification] " + q + ": " + a;
    var parts := SupplementParts(original, [(q, a)], None);
    assert parts == [original, part] by {
      assert ClarificationParts([(q, a)]) == [part];
    }
    assert parts[1..] == [part];
    assert Join(" | ", parts) == original + " | " + Join(" | ", [part]);
  }

  /** The drafts kept in the route's process: report id to transcript. */
  type Drafts = map<string, string>

  datatype ClarifyResponse =
    | Rerun(call: PipelineCall)
    | NotFound
    | ServerError

  /**
   * `clarify_report` as written. A draft is popped from the store. Otherwise
   * the persisted report is read, and `persisted` is what `get_report`
   * returned for the id: for an unknown id that is None, and calling `.get`
   * on it raises an AttributeError, which the handler does not catch (it
   * catches FileNotFoundError, which `get_report` never raises). A stored
   * "transcript" that is not a string makes the join raise.
   */
  function ClarifyAsWritten(drafts: Drafts, persisted: Option<map<string, Json>>, req: ClarifyReportRequest)
    : (r: (ClarifyResponse, Drafts))
    ensures !r.0.NotFound?
    ensures req.reportId !in r.1
    ensures req.reportId in drafts ==>
              r.0 == Rerun(PipelineCall(EnrichedTranscript(drafts[req.reportId], req.answers, req.additionalContext), "clarified"))
              && r.1 == drafts - {req.reportId}
    ensures req.reportId !in drafts ==> r.1 == drafts
    ensures req.reportId !in drafts && persisted.None? ==> r.0 == ServerError
    ensures (req.reportId !in drafts && persisted.Some? && "transcript" in persisted.value
             && persisted.value["transcript"].JStr?)
            ==> r.0 == Rerun(PipelineCall(EnrichedTranscript(persisted.value["transcript"].s, req.answers,
                                                             req.additionalContext), "clarified"))
    ensures req.reportId !in drafts && persisted.Some? && "transcript" !in persisted.value
            ==> r.0 == Rerun(PipelineCall(EnrichedTranscript("", req.answers, req.additionalContext), "clarified"))
    ensures (req.reportId !in drafts && persisted.Some? && "transcript" in persisted.value
             && !persisted.value["transcript"].JStr?) ==> r.0 == ServerError
  {
    if req.reportId in drafts then
      (Rerun(PipelineCall(EnrichedTranscript(drafts[req.reportId], req.answers, req.additionalContext), "clarified")),
       drafts - {req.reportId})
    else
      match persisted
      case None => (ServerError, drafts)
      case Some(d) =>
        match Get(d, "transcript")
        case JStr(t) => (Rerun(PipelineCall(EnrichedTranscript(t, req.answers, req.additionalContext), "clarified")), drafts)
        case JNull => if "transcript" in d then (ServerError, drafts)
                      else (Rerun(PipelineCall(EnrichedTranscript("", req.answers, req.additionalContext), "clarified")), drafts)
        case _ => (ServerError, drafts)
  }

  /** An id with neither a draft nor a persisted report fails with a server error, not 404. */
  lemma UnknownIdIsServerError(drafts: Drafts, req: ClarifyReportRequest)
    requires req.reportId !in drafts
    ensures ClarifyAsWritten(drafts, None, req).0 == ServerError
  {
  }

  /** `clarify_report` with the missing-report check the handler intends: 404 for an unknown id. */
  function ClarifyReport(drafts: Drafts, persisted: Option<map<string, Json>>, req: ClarifyReportRequest)
    : (r: (ClarifyResponse, Drafts))
    ensures r.0 == NotFound <==> req.reportId !in drafts && persisted.None?
    ensures req.reportId in drafts ==>
              r.0 == Rerun(PipelineCall(EnrichedTranscript(drafts[req.reportId], req.answers, req.additionalContext), "clarified"))
    ensures req.reportId in drafts ==> r.1 == drafts - {req.reportId}
    ensures req.reportId !in drafts ==> r.1 == drafts
    ensures r.0.Rerun? ==> r.0.call.provider == "clarified"
    ensures (req.reportId !in drafts && persisted.Some?)
            ==> r.0 == (if "transcript" !in persisted.value
                        then Rerun(PipelineCall(EnrichedTranscript("", req.answers, req.additionalContext), "clarified"))
                        else if persisted.value["transcript"].JStr?
                        then Rerun(PipelineCall(EnrichedTranscript(persisted.value["transcript"].s, req.answers,
                                                                   req.additionalContext), "clarified"))
                        else ServerError)
  {
    if req.reportId !in drafts && persisted.None? then (NotFound, drafts)
    else ClarifyAsWritten(drafts, persisted, req)
  }

  /** The two agree wherever the id is known. */
  lemma ClarifyAgrees(drafts: Drafts, persisted: Option<map<string, Json>>, req: ClarifyReportRequest)
    requires req.reportId in drafts || persisted.Some?
    ensures ClarifyReport(drafts, persisted, req) == ClarifyAsWritten(drafts, persisted, req)
  {
  }

  /** A draft serves one clarification: a second call with the same id no longer finds it. */
  lemma DraftServesOnce(drafts: Drafts, persisted: Option<map<string, Json>>, req: ClarifyReportRequest)
    requires req.reportId in drafts
    ensures var after := ClarifyReport(drafts, persisted, req).1;
      ClarifyReport(after, None, req).0 == NotFound
  {
  }
}
