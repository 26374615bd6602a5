# Clara AI backend, modelled in Dafny

Clara AI is a FastAPI backend. It turns a spoken or typed equipment complaint, often code-switched Tamil/Malayalam–English, into an intent record. From that record it builds a structured technician dossier. It then summarises, exports and reads the dossier aloud. This project models the decision logic of that backend as pure Dafny functions and proves what each decision guarantees.

The foreign calls are inputs to the model, never computed by it:
- the LLM providers (Groq, DeepSeek, Featherless);
- the text-to-speech engines (system TTS, edge-tts, the enrolled ElevenLabs clone);
- the speech-recognition engines (local Whisper, the OpenAI API).

Each provider call is an `Outcome`: a failure, or a reply with its content. `json.loads` is an abstract partial decoder `string -> Option<Json>`. Pydantic validation is a predicate over the decoded value.

Modules follow the source files:
- **Summarizer, ExecSummary, Fences**: the report summariser, `services/report_summarizer.py`. This covers:
  - the three provider chains (summary, executive analysis, incident extraction), where Groq's reply wins when accepted, DeepSeek's when only it is, and the regex fallback answers when neither is;
  - the four-hit confidence classifier;
  - the "Executive Summary" extractor;
  - the incident segmenter and its summary template;
  - the fence handling of the adapters.
- **Intent**: `services/intent_service.py`. This covers provider routing, the single retry of `_call_and_parse`, `_parse_intent_json`, and the keyword rule extractor `_match`/`_rule_extract`. The keyword tables are ordered sequences.
- **GroqAdapter, Repair**: `llm/groq_adapter.py` and the shared reply repair. This covers fence stripping, the first-`{`-to-last-`}` slice, best-effort parsing and the error mapping.
- **CodeSwitch, Tally**: `services/codeswitch_service.py`. This covers the per-character script class, the per-token dominant language with `Counter.most_common`'s first-seen tie-break, and the language-mix proportions.
- **Dossier**: the decisions of `services/report_service.py`. This covers the confidence cap, the table lookups, completeness, the confidence factors, the assumption flags and the section switches.
- **Process**: `routes/process.py`. This covers the clarification gate, the upload suffix, the input guards and the enriched transcript of `clarify_report`.
- **Schemas**: the value domains of `models/schemas.py`.
- **Export, Inline**: the markdown front end of `routes/export.py`. This covers `_strip_md`, the line classifier, table rows and padding, the rich-run segmentation, `_escape` and format dispatch.
- **Tts, Voice**: `services/tts_provider.py` and `routes/voice.py`. This covers voice resolution, the engine order, the punctuation rule and the route guards.
- **Asr**: `services/asr_service.py`. This covers suffix and format normalisation, the OpenAI format and MIME coercion, and provider tagging.
- **Config, SelfTest, Reports, Evaluation**: `config.py`, `routes/self_test.py`, `routes/reports.py` and `evaluate_dataset.py`.
- **Shared modules**:
  - Base: `Option`, `Result`, `Outcome` and the `Byte` type.
  - Text: Python's `str` operations: `strip`, `lower`, `split`, `splitlines`, `find` and `in`.
  - Scan: a left-to-right `re.sub`-style scanner.
  - Json: the decoded-value type with Python's `len` and truthiness.
  - Chain: "the first one that works".

Scores are exact numbers:
- rule-extractor and token confidences are integer hundredths;
- language-mix shares are thousandths;
- LLM confidence scores and evaluation percentages are reals.

## Model

| member | source | states |
|---|---|---|
| Chain.FirstWhere | clara_ai/backend/services/intent_service.py:169-174 | the index found is the first element the test accepts; none is found exactly when no element is accepted |
| Chain.TryInOrder | clara_ai/backend/services/report_summarizer.py:372-393 | providers are called in order until one's reply is accepted: the winner is the first accepted reply, exactly the providers up to it were called, and every earlier one failed or was rejected; without a winner all were called |
| Chain.FirstOfTwo | clara_ai/backend/services/report_summarizer.py:372-393 | with two providers, the first wins exactly when its reply is accepted, the second exactly when the first is not and its own is, and none exactly when neither is; exactly one call is made exactly when the first wins |
| Intent.Match | clara_ai/backend/services/intent_service.py:169-174 | the score is 0.85 exactly when some table entry has a keyword in the text, and the label is then the first such entry's; otherwise "unknown" with 0.3 |
| Intent.RuleConfidence | clara_ai/backend/services/intent_service.py:188-190 | the rule confidence (in hundredths) lies in 0.15..0.85, is 0.85 exactly when all three tables hit, and the missing-symptom penalty keeps it at most 0.52 |
| Intent.UrgencyOf | clara_ai/backend/services/intent_service.py:191-195 | "high" exactly for the three high-urgency symptoms, "medium" exactly for the three medium ones, "low" otherwise |
| Intent.RuleExtract | clara_ai/backend/services/intent_service.py:177-201 | the rule result is a valid intent result that keeps the user's text, takes device and symptom from the table matches, has a component only when the component table hits, and its confidence is the rule confidence of which of the three tables hit, in hundredths |
| Intent.ServiceTablesWellLabelled | clara_ai/backend/services/intent_service.py:132-166 | no canonical label of the three keyword tables is "unknown", so a hit is always distinguishable from a miss |
| Intent.RuleIntentCases | clara_ai/backend/services/intent_service.py:182-187 | "unclassified" exactly when no device matched, "report_general_issue" exactly when a device but no symptom matched, "report_" plus the underscored symptom when both matched |
| Intent.IntentTarget | clara_ai/backend/services/intent_service.py:50-62 | the decoded text is the fence-stripped reply cut to its first-'{'-to-last-'}' span when there is one, and the fence-stripped reply otherwise |
| Intent.WithUserQuery | clara_ai/backend/services/intent_service.py:66 | `setdefault` adds "user_query" with the transcript only when the key is absent, and leaves a present value alone |
| Intent.ParseIntentAsWritten | clara_ai/backend/services/intent_service.py:64-70 | the parse as written raises (an uncaught AttributeError) exactly when the reply decodes to a JSON value that is not an object |
| Intent.ParseIntent | clara_ai/backend/services/intent_service.py:42-70 | a parsed result is valid, comes from a reply that decodes to an object, and its user query is the object's or, when absent, the transcript |
| Intent.ParseAgreesWhereNoCrash | clara_ai/backend/services/intent_service.py:64-70 | wherever the code as written does not raise, it and the corrected parse give the same result |
| Intent.NullReplyCrashes | clara_ai/backend/services/intent_service.py:64-70 | the reply "null" makes the code as written raise, while the corrected parse reports a failed parse |
| Intent.Conversation | clara_ai/backend/services/intent_service.py:114-117 | two messages: the system prompt, then the user's "Transcript: " line ending in the text |
| Intent.RetryConversation | clara_ai/backend/services/intent_service.py:93-96 | the retry keeps the first messages as a prefix and appends the bad reply and the fix instruction |
| Intent.CallAndParse | clara_ai/backend/services/intent_service.py:73-109 | one call, and a second exactly when the first reply does not parse; a reply that parses, first or retried, is found as that parse; nothing is found exactly on a runtime failure or when the retry does not parse either; a non-runtime failure escapes |
| Intent.ExtractIntent | clara_ai/backend/services/intent_service.py:207-236 | an unknown provider uses the rules alone; for "groq", a Groq result wins, Featherless is consulted only when Groq found nothing, and the rules answer only when both found nothing; an escaping failure raises; for "featherless" the same with Featherless alone; a rule result is the rule extractor's |
| Intent.ExtractionTotal | clara_ai/backend/services/intent_service.py:207-236 | with only runtime failures from the providers, extraction always produces a result, and it is the rule result exactly when every provider tried found nothing |
| GroqAdapter.CallGroqChat | clara_ai/backend/llm/groq_adapter.py:20-78 | a blank or missing key, a timeout, a connection error and an API-status error are exactly the runtime failures; any other SDK error escapes unchanged; a reply carries the SDK's content (or "" when it gave none), its latency and the trimmed model id |
| GroqAdapter.SystemMessage | clara_ai/backend/llm/groq_adapter.py:96-98 | the system message begins with the system prompt, is exactly the prompt when no (or an empty) schema is given, and otherwise is the prompt, the fixed header and the dumped schema, in that order |
| GroqAdapter.ParseTarget | clara_ai/backend/llm/groq_adapter.py:112-118 | a decode is attempted exactly when the fence-stripped reply has a '{' before a '}', and then on the text from its first '{' to its last '}' inclusive |
| GroqAdapter.BestEffortParse | clara_ai/backend/llm/groq_adapter.py:109-124 | with a brace slice, the parsed value is the decoder's value on it (None on a decode error); without one it is None |
| GroqAdapter.CallGroqJson | clara_ai/backend/llm/groq_adapter.py:81-125 | the JSON helper raises exactly when the chat call fails, with the same failure, and otherwise returns the raw content, model and latency with the best-effort parse added |
| GroqAdapter.OneLineFencedReplyUnparsed | clara_ai/backend/llm/groq_adapter.py:112-122 | a reply fenced on a single line is removed entirely by the fence stripping, so nothing is parsed |
| GroqAdapter.FencedObjectDecoded | clara_ai/backend/llm/groq_adapter.py:112-122 | an object on its own line inside a tagged fence is decoded as it stands |
| Repair.FenceInner | clara_ai/backend/llm/groq_adapter.py:114-115 | a fenced reply loses its first line, and its last line only when that line, trimmed, starts with a fence |
| Repair.StripFence | clara_ai/backend/llm/groq_adapter.py:112-116 | the result has no outer whitespace, and a reply not starting with a fence is only trimmed |
| Repair.FencedBlockUnwrapped | clara_ai/backend/services/intent_service.py:50-56 | a reply of an opening fence line, body lines and a closing fence becomes the trimmed body |
| Repair.OneLineFenceVanishes | clara_ai/backend/services/intent_service.py:53-56 | a fence that opens and closes on one line leaves nothing |
| Repair.BraceSlice | clara_ai/backend/services/intent_service.py:58-62 | a slice exists exactly when the first '{' precedes the last '}', and it is the text from that '{' to that '}' inclusive |
| Fences.ObjectClose | clara_ai/backend/services/report_summarizer.py:223 | the lazy body ends at the first '}' followed by optional whitespace and a closing fence |
| Fences.ObjectFence | clara_ai/backend/services/report_summarizer.py:223 | the search fails exactly when no position starts a fenced object; a match is the braced group at the leftmost position that starts one, and runs from '{' to '}' |
| Fences.ObjectFenceFrom | clara_ai/backend/services/report_summarizer.py:223 | the position found is the leftmost at or after the start that begins a fenced object; none is found exactly when no position does |
| Fences.ObjectTarget | clara_ai/backend/services/report_summarizer.py:223-225 | without a fenced object the reply is decoded as it is; with one, exactly the braced group the search found is |
| Fences.UnfencedObjectTarget | clara_ai/backend/services/report_summarizer.py:223-225 | a reply without a fence is decoded unchanged |
| Fences.FencedObjectTarget | clara_ai/backend/services/report_summarizer.py:223-225 | an object in a "```json" fence on its own lines is unwrapped exactly |
| Fences.IncidentTarget | clara_ai/backend/services/report_summarizer.py:547-550 | a reply without a fence is decoded unchanged; one containing "```json" uses that fence's body; one with only a bare fence uses the bare fence's body |
| Fences.FenceBody | clara_ai/backend/services/report_summarizer.py:548-550 | the search fails exactly when no position opens a fence with a body, and otherwise gives the body at the leftmost position that does |
| Fences.OneLineFenceRejected | clara_ai/backend/services/report_summarizer.py:547-580 | a fence on one line cannot match, which raises and rejects the reply as invalid JSON |
| Fences.FencedIncidentTarget | clara_ai/backend/services/report_summarizer.py:547-548 | a body in a "```json" fence on its own lines is extracted exactly |
| Summarizer.SummaryCandidate | clara_ai/backend/services/report_summarizer.py:67-140 | a provider's summary exists exactly when its call replied with non-blank content, and is that content trimmed, tagged with the provider, model and latency |
| Summarizer.SummariseReport | clara_ai/backend/services/report_summarizer.py:351-404 | Groq is tried first and DeepSeek second; Groq wins exactly when its summary is accepted (10 to 1000 characters), DeepSeek exactly when Groq's is not and its own is, and the fallback exactly when neither is; a provider's result carries its own trimmed summary, model and latency; the fallback gives the executive summary as "fallback_regex" with model "none"; Groq's result means exactly one call |
| Summarizer.AnalysisCandidate | clara_ai/backend/services/report_summarizer.py:203-305 | a provider analysis exists exactly when the reply is non-blank and decodes, after fence unwrapping, to an object with "core_summary" and "confidence", and then carries those values with the provider, model and latency; a decode error rejects it |
| Summarizer.Score | clara_ai/backend/services/report_summarizer.py:317 | the confidence-score search fails exactly when no position matches "Confidence score", a separator run, digits and '%', and otherwise gives the score at the leftmost matching position |
| Summarizer.ScoreFrom | clara_ai/backend/services/report_summarizer.py:317 | the position found is the leftmost at or after the start where the confidence-score pattern matches; none exactly when no position matches |
| Summarizer.FallbackConfidence | clara_ai/backend/services/report_summarizer.py:320-333 | "high" exactly with three or more fields found and a confidence score of at least 60, else "medium" exactly with two or more, else "low" |
| Summarizer.ReportConfidence | clara_ai/backend/services/report_summarizer.py:308-333 | the fallback's confidence is always one of "high", "medium", "low" |
| Summarizer.HighNeedsScore | clara_ai/backend/services/report_summarizer.py:314-333 | the regex path can say "high" only when the report states a confidence score of at least 60 and names a device or a symptom |
| Summarizer.AnalyseExecutiveReport | clara_ai/backend/services/report_summarizer.py:407-474 | the confidence is always a valid label; Groq wins exactly when its analysis is acceptable (20 to 1200 characters), DeepSeek exactly when Groq's is not and its own is, and the fallback exactly when neither is, giving the executive summary with the regex confidence; Groq's result means exactly one call |
| Summarizer.SplitRuns | clara_ai/backend/services/report_summarizer.py:662 | splitting on runs of ',' and '.' gives at least one piece, none containing ',' or '.' |
| Summarizer.SplitRunsConcat | clara_ai/backend/services/report_summarizer.py:662 | the pieces, concatenated, are the text with every ',' and '.' removed: nothing else is lost or reordered |
| Summarizer.KeepLong | clara_ai/backend/services/report_summarizer.py:663 | only stripped pieces longer than 5 characters are kept |
| Summarizer.KeepLongFrom | clara_ai/backend/services/report_summarizer.py:663 | each kept statement is the strip of some piece |
| Summarizer.Statements | clara_ai/backend/services/report_summarizer.py:662-663 | every statement is longer than 5 characters |
| Summarizer.StatementShape | clara_ai/backend/services/report_summarizer.py:662-663 | every statement is a stripped split piece with no ',' or '.' and no outer whitespace |
| Summarizer.IncidentSummary | clara_ai/backend/services/report_summarizer.py:666-668 | a non-empty summary ends with '.'; it is the first two statements joined by ". ", the only statement, or the first 200 characters when there is none, with a '.' added when missing |
| Summarizer.SummaryOfStatements | clara_ai/backend/services/report_summarizer.py:666-668 | with at least one statement the summary is the one or two statements followed by exactly one added '.' |
| Summarizer.IncidentFallback | clara_ai/backend/services/report_summarizer.py:657-685 | the fallback's statements are the segmented text, the primary symptom the first statement or "Issue reported", and the fixed fields "low", "medium", "Unknown", "fallback_regex" and "none" |
| Summarizer.IncidentCandidate | clara_ai/backend/services/report_summarizer.py:526-654 | a provider incident exists exactly when the reply (non-empty for Groq) yields, after fence unwrapping, an object with "core_summary" and "confidence" meeting the length checks, with "normalized_statements" defaulted to []; the incident keeps exactly those fields |
| Summarizer.WithStatements | clara_ai/backend/services/report_summarizer.py:560-562 | "normalized_statements" is added as [] exactly when absent; every other key keeps its value |
| Summarizer.IncidentFields | clara_ai/backend/services/report_summarizer.py:545-567 | the adapter keeps a reply exactly when its fence target decodes to an object with "core_summary" and "confidence" whose lengths can be taken, and keeps that object with "normalized_statements" defaulted |
| Summarizer.ExtractIncident | clara_ai/backend/services/report_summarizer.py:688-737 | Groq first, DeepSeek second; Groq wins exactly when its incident is accepted (a core summary of at least 10 characters and a valid confidence), DeepSeek exactly when Groq's is not and its own is, and the fallback regex record exactly when neither is; the winner's incident is returned as it is; Groq's result means exactly one call |
| ExecSummary.SectionEnd | clara_ai/backend/services/report_summarizer.py:149 | the section ends at the first "\n## ", "\n---" or the end of the text |
| ExecSummary.Unmark | clara_ai/backend/services/report_summarizer.py:154-155 | removing the emphasis markers never lengthens the text; UnmarkBold and UnmarkItalic state what each substitution removes |
| ExecSummary.UnmarkNoStar | clara_ai/backend/services/report_summarizer.py:154-155 | a text without '*' is unchanged by the marker removal |
| ExecSummary.UnmarkBold | clara_ai/backend/services/report_summarizer.py:154 | a "**" pair around a non-empty star-free text is removed, leaving exactly that text |
| ExecSummary.UnmarkItalic | clara_ai/backend/services/report_summarizer.py:155 | a '*' pair around a non-empty star-free text is removed, leaving exactly that text |
| ExecSummary.UnBoldNoPair | clara_ai/backend/services/report_summarizer.py:154 | a text without two adjacent stars passes the bold substitution unchanged |
| ExecSummary.Collapse | clara_ai/backend/services/report_summarizer.py:156 | whitespace runs become single spaces, and a leading run leaves exactly one leading space |
| ExecSummary.CollapseSingleSpaced | clara_ai/backend/services/report_summarizer.py:156 | already single-spaced text is unchanged |
| ExecSummary.CollectFrom | clara_ai/backend/services/report_summarizer.py:160-175 | at most five lines are collected, and the lines already collected stay in front |
| ExecSummary.CollectedAreCollectable | clara_ai/backend/services/report_summarizer.py:160-175 | every collected line is trimmed, non-blank and not a heading |
| ExecSummary.NothingBeforeMention | clara_ai/backend/services/report_summarizer.py:164-167 | nothing is collected unless some line mentions "executive summary" |
| ExecSummary.ExecutiveSummary | clara_ai/backend/services/report_summarizer.py:146-184 | a section under the heading that leaves text after cleaning is the result; else the cleaned join of the collected lines when there are some; with neither, the first 300 characters trimmed, so at most 300 characters |
| ExecSummary.PlainReportTruncated | clara_ai/backend/services/report_summarizer.py:183-184 | a report without headings or a summary mention yields its first 300 characters, trimmed |
| ExecSummary.HeadedSummaryExtracted | clara_ai/backend/services/report_summarizer.py:149-158 | a "## 1. Executive Summary" heading followed by clean text yields exactly that text |
| CodeSwitch.CharLang | clara_ai/backend/services/codeswitch_service.py:17-26 | a character is Tamil exactly in U+0B80..U+0BFF, Malayalam exactly in U+0D00..U+0D7F, English exactly when it is an ASCII letter, and unknown otherwise; never mixed |
| CodeSwitch.DigitsUnknown | clara_ai/backend/services/codeswitch_service.py:24-26 | digits are not English: they fall to "unk" |
| CodeSwitch.Cleaned | clara_ai/backend/services/codeswitch_service.py:31 | the cleaned token holds only word characters, and is empty exactly when the token has none |
| CodeSwitch.ClassifyCleaned | clara_ai/backend/services/codeswitch_service.py:32-54 | no word characters gives ("unk", 0.5); a hyphenated multi-script token gives ("mixed", 0.7); a single-script token gets its script at 0.95; otherwise the first-seen most frequent script wins exactly when its share is at least 0.8, at the rounded share, and "mixed" at a share of at most 0.8 otherwise |
| CodeSwitch.ClassifyToken | clara_ai/backend/services/codeswitch_service.py:29-54 | the confidence is at most 1, and the "punctuation / whitespace" reason is given exactly when the token has no word character |
| CodeSwitch.TagIsValid | clara_ai/backend/models/schemas.py:23-27 | every token analysis satisfies the schema's confidence bounds |
| CodeSwitch.TagAll | clara_ai/backend/services/codeswitch_service.py:59-64 | one analysis per whitespace-separated token, in order, with the token text kept |
| CodeSwitch.ProportionFacts | clara_ai/backend/services/codeswitch_service.py:67-71 | the mix has distinct keys, exactly the labels that occur, each the rounded share of its occurrences over max(n, 1), never above 1 |
| CodeSwitch.AnalyseCodeSwitch | clara_ai/backend/services/codeswitch_service.py:57-73 | the tokens are the per-token tags; the mix keys are exactly the labels present, each mapped to its rounded proportion; an input without tokens gives an empty mix |
| Tally.Count | clara_ai/backend/services/codeswitch_service.py:35-37 | the counter has distinct keys, exactly the elements that occur, each with its number of occurrences, totalling the sequence length |
| Tally.CountFirstSeen | clara_ai/backend/services/codeswitch_service.py:35-40 | the counter's keys are in order of first occurrence |
| Tally.MostCommon | clara_ai/backend/services/codeswitch_service.py:40 | `most_common(1)` picks an entry with the highest count, the first-seen one among ties |
| Tally.Bump | clara_ai/backend/services/codeswitch_service.py:37 | incrementing keeps the keys when the element is present and appends it with count 1 otherwise |
| Tally.BumpLookup | clara_ai/backend/services/codeswitch_service.py:37 | incrementing adds one to the element's count and changes no other count |
| Dossier.ApplyConfidenceCap | clara_ai/backend/services/report_service.py:154-162 | the capped score never exceeds the raw score or the cap (0.85 for a generic symptom, 0.95 otherwise), and is either the raw score or the cap |
| Dossier.CapIdempotent | clara_ai/backend/services/report_service.py:159-162 | capping twice is capping once |
| Dossier.CappedIff | clara_ai/backend/services/report_service.py:179-181 | the score is lowered exactly when it exceeds the symptom's cap |
| Dossier.Risk | clara_ai/backend/services/report_service.py:16-35 | every urgency has a risk row: critical exactly for high, monitored exactly for low |
| Dossier.GuidanceKey | clara_ai/backend/services/report_service.py:185-186 | every symptom finds a hypothesis and action row: its own key when the tables have it, "unknown" otherwise |
| Dossier.CompletenessChecks | clara_ai/backend/services/report_service.py:238-244 | exactly five checks: non-blank transcript, resolved device, specific symptom, identified component, and an urgency that always passes |
| Dossier.CompletenessBounds | clara_ai/backend/services/report_service.py:245 | between one and five completeness checks pass |
| Dossier.Resolve | clara_ai/backend/services/report_service.py:211-227 | a device or component is resolved exactly when, lowered and trimmed, it is neither "" nor "unknown"; a symptom exactly when it is not generic |
| Dossier.ConfidenceFactors | clara_ai/backend/services/report_service.py:215-234 | one device, one symptom and one component factor in that order, each reflecting its resolution and carrying the resolved device, symptom or component; then the code-switch factor exactly for multilingual input, and last the cap factor with the raw and capped scores exactly when the score was lowered; three to five factors accordingly |
| Dossier.AssumptionFlags | clara_ai/backend/services/report_service.py:253-269 | never empty; each flag appears exactly under its condition, and "no significant assumptions" exactly when it is the only flag |
| Dossier.NoAssumptionsNeedsMultilingual | clara_ai/backend/services/report_service.py:264-269 | the "no significant assumptions" flag requires multilingual input with device, symptom and component all resolved |
| Dossier.Sections | clara_ai/backend/services/report_service.py:272-415 | the dossier has sections 1 to 11 in order, and section 12 only in enterprise mode |
| Dossier.GenerateReport | clara_ai/backend/services/report_service.py:167-415 | the decisions agree with their rules: the raw score is the intent's, the cap never raises it and was_capped means it lowered it; the completeness is the five checks and passed their count; the input is multilingual exactly when the mix has more than one key; the factors and flags are their builders' results; the sections are 1 to 11, plus 12 exactly in enterprise mode |
| Process.Questions | clara_ai/backend/routes/process.py:45-56 | at most two questions: the brevity one exactly when the text is brief (and then first), the confidence one exactly when unsure, the generic one exactly when generic and not brief; none exactly when no condition holds |
| Process.NeedsClarification | clara_ai/backend/routes/process.py:38-58 | clarification is needed exactly when some question is asked, which is exactly when the transcript has fewer than 5 words, the confidence is under 0.75, or the lowered, trimmed symptom is generic; each question is asked exactly under its own condition |
| Process.BriefSuppressesGeneric | clara_ai/backend/routes/process.py:52 | a brief transcript asks the brevity question first and never the generic-symptom question |
| Process.UploadSuffix | clara_ai/backend/routes/process.py:121-122 | the suffix starts with its only '.', and is ".wav" when the upload has no file name or an empty one |
| Process.SuffixEndsName | clara_ai/backend/routes/process.py:122 | for a name with a dot, the suffix is the name's tail after its last dot, so the name ends with it |
| Process.SuffixWithoutDot | clara_ai/backend/routes/process.py:121-122 | a name without a dot gets ".wav" |
| Process.ProcessText | clara_ai/backend/routes/process.py:97-100 | the text route runs the pipeline on the request's text, labelled "text" |
| Process.ProcessAudio | clara_ai/backend/routes/process.py:117-159 | transcription is attempted exactly when the upload is non-empty; the empty upload, the transcription failure and the blank transcript are each reported exactly in their case; otherwise the pipeline gets the trimmed transcript and the engine's provider label (default "openai") |
| Process.AudioProcessedIff | clara_ai/backend/routes/process.py:117-159 | the audio route reaches the pipeline exactly when the upload is non-empty, transcription succeeded and the trimmed transcript is non-empty |
| Process.ClarificationParts | clara_ai/backend/routes/process.py:235-236 | one "[Clarification] question: answer" part per answer, in order |
| Process.SupplementParts | clara_ai/backend/routes/process.py:234-238 | the original transcript first, then the clarification parts, then the additional context only when it is non-empty |
| Process.EnrichedStartsWithOriginal | clara_ai/backend/routes/process.py:234-240 | the enriched transcript always begins with the original one |
| Process.NothingToAdd | clara_ai/backend/routes/process.py:234-240 | with no answers and no context the enriched transcript is the original unchanged |
| Process.OneAnswer | clara_ai/backend/routes/process.py:234-240 | one answer is appended after " | " in its bracketed form |
| Process.ClarifyAsWritten | clara_ai/backend/routes/process.py:218-231 | as written, a draft is popped and its enriched transcript rerun as "clarified"; otherwise an unknown id answers 500, never 404; a stored report's string transcript (or "" when it has none) is enriched and rerun, and a non-string transcript answers 500; only a popped draft leaves the store |
| Process.UnknownIdIsServerError | clara_ai/backend/routes/process.py:223-231 | an id with neither a draft nor a persisted report fails with a server error instead of the intended 404 |
| Process.ClarifyReport | clara_ai/backend/routes/process.py:210-247 | 404 exactly when the id has neither a draft nor a persisted report; a draft is popped and its transcript enriched and rerun as "clarified"; a stored report's string transcript (or "" when it has none) is enriched and rerun, a non-string one answers 500; the store is otherwise unchanged |
| Process.ClarifyAgrees | clara_ai/backend/routes/process.py:218-231 | wherever the id is known, the corrected route and the route as written agree |
| Process.DraftServesOnce | clara_ai/backend/routes/process.py:218-219 | a draft serves one clarification: the same id then finds nothing |
| Schemas.ParseUrgency | clara_ai/backend/models/schemas.py:46 | an urgency is accepted exactly when it is "low", "medium" or "high" |
| Schemas.UrgencyRoundTrip | clara_ai/backend/models/schemas.py:46 | naming and parsing an urgency are inverse |
| Schemas.Strings | clara_ai/backend/models/schemas.py:48-51 | a list validates as strings exactly when every element is a string, keeping them in order |
| Schemas.IntentFromJson | clara_ai/backend/models/schemas.py:40-51 | a validated intent result has a confidence within [0, 1] and the object's string "user_query"; a missing or non-string user query, or a missing confidence, is rejected |
| Schemas.StringsOfJson | clara_ai/backend/models/schemas.py:48-51 | a list of strings encoded as JSON validates back to itself |
| Schemas.IntentJsonRoundTrip | clara_ai/backend/models/schemas.py:40-51 | every valid intent result, dumped to a JSON object, validates back to itself |
| Schemas.ParseProcessText | clara_ai/backend/models/schemas.py:13-17 | a text request is accepted exactly when "text" is a string of at least one character and the dialect id is a string, null or absent; the text is kept |
| Schemas.ProcessTextRejectsEmpty | clara_ai/backend/models/schemas.py:14 | a missing or empty text is rejected |
| Schemas.ParseSpeak | clara_ai/backend/models/schemas.py:80-93 | a speak request is accepted exactly when the text is a non-empty string, the user name a string or null, the mode absent, "enterprise" or "original", and the gender absent, null, "male" or "female"; it then carries those values, with mode "enterprise" and no gender by default |
| Schemas.MakeClarifyRequest | clara_ai/backend/models/schemas.py:107-116 | absent answers default to none, and the id and context are kept |
| Export.StripMdShape | clara_ai/backend/routes/export.py:28-38 | the stripped text has no run of three or more newlines and no leading or trailing whitespace |
| Export.StripMdOfPlainText | clara_ai/backend/routes/export.py:28-38 | text with no Markdown characters and no blank-line runs is only trimmed |
| Export.HeadingLevel | clara_ai/backend/routes/export.py:67-79 | a heading level is at most 3, and is the number of leading '#' followed by a space (the PDF builder repeats the rule at lines 247-257) |
| Export.NumberDot | clara_ai/backend/routes/export.py:121 | a numbered line starts with one or more digits, a '.', and a whitespace character (the PDF builder repeats the pattern at line 299) |
| Export.ClassifyLine | clara_ai/backend/routes/export.py:66-142 | a heading exactly for one to three '#' and a space, with that level and the rest; a rule exactly for a trimmed "---"; a quote exactly for "> "; a numbered item exactly for digits and ". "; bullets, blanks and paragraphs by the remaining tests; a line opens a table exactly when it starts with '|' |
| Export.Classify | clara_ai/backend/routes/export.py:244-318 | a line opens a table exactly when it starts with '|', and only the PDF builder makes a "*This dossier" paragraph a note |
| Export.ClassifyBuildersAgree | clara_ai/backend/routes/export.py:66-318 | the two builders classify every line alike, except the PDF builder's dossier note |
| Export.HeadingLine | clara_ai/backend/routes/export.py:67-79 | one to three '#' and a space make a heading of that level with the trimmed text |
| Export.QuoteLine | clara_ai/backend/routes/export.py:88-91 | "> " makes a quote of the trimmed text |
| Export.BulletLine | clara_ai/backend/routes/export.py:128-131 | "* " makes a bullet of the trimmed text |
| Export.NumberedLine | clara_ai/backend/routes/export.py:121-125 | digits, ". " and text make a numbered item of the text without its leading whitespace |
| Export.TableEnd | clara_ai/backend/routes/export.py:94-100 | a table takes the maximal run of lines starting with '|' |
| Export.RowCells | clara_ai/backend/routes/export.py:102-105 | a row has at least one cell |
| Export.TableRows | clara_ai/backend/routes/export.py:98-100 | separator rows are dropped, so there are no more rows than lines |
| Export.SeparatorsOnly | clara_ai/backend/routes/export.py:98-101 | a table of separator rows only produces no rows |
| Export.RowsOfPlainLines | clara_ai/backend/routes/export.py:98-105 | without separators every line becomes one row of its cells |
| Export.RowRoundTrip | clara_ai/backend/routes/export.py:102-105 | a row written as '|' + cells joined by '|' + '|' parses back to the trimmed cells |
| Export.Classes | clara_ai/backend/routes/export.py:63-64 | every line is classified by the builder's rule |
| Export.LayoutFrom | clara_ai/backend/routes/export.py:63-142 | the loop adds at most one block per line |
| Export.OneBlockPerLine | clara_ai/backend/routes/export.py:63-142 | without table lines each line gives exactly its own block |
| Export.BuildersAgree | clara_ai/backend/routes/export.py:61-318 | the Word and PDF loops produce the same sequence of blocks, up to the dossier note |
| Export.LayoutTablesSeparated | clara_ai/backend/routes/export.py:94-100 | two tables never follow each other: a table consumes every adjacent table line |
| Export.MaxWidth | clara_ai/backend/routes/export.py:106 | the column count is the widest row's width (the PDF builder repeats it at line 281) |
| Export.PadCells | clara_ai/backend/routes/export.py:276-282 | every row is padded with empty cells to the widest row, keeping its own cells in place |
| Export.Rich | clara_ai/backend/routes/export.py:149-165 | the corrected styled runs, read back, give exactly the text |
| Export.RichAsWrittenWithoutStrong | clara_ai/backend/routes/export.py:149-165 | on a text without "**", the corrected runs are exactly the runs the source writes |
| Export.WordBlock | clara_ai/backend/routes/export.py:66-142 | each Word block keeps its kind; headings and quotes are plain text; list items and paragraphs become styled runs covering their text; table cells lose their emphasis markers and rows are filled to the table width |
| Export.PdfBlock | clara_ai/backend/routes/export.py:247-318 | numbered items become bullets; every text is escaped; list items carry the bullet mark; table rows are padded with empty cells to the widest row |
| Export.WordBuild | clara_ai/backend/routes/export.py:43-146 | the Word document has one element per laid-out block, each built by the Word rules |
| Export.PdfBuild | clara_ai/backend/routes/export.py:170-321 | the PDF has one element per laid-out block, each built by the PDF rules |
| Export.PdfHasNoNumberedItems | clara_ai/backend/routes/export.py:299-302 | the PDF has no numbered list: those lines are bullets |
| Export.DocumentsAgree | clara_ai/backend/routes/export.py:61-318 | both documents have the same number of elements, of the same kind wherever the line is neither numbered nor the dossier note |
| Export.WordKeepsText | clara_ai/backend/routes/export.py:138-165 | a Word paragraph's corrected runs cover the line's text exactly |
| Export.RequestFormat | clara_ai/backend/routes/export.py:21-23 | the request format is "pdf" or "docx", "docx" when absent |
| Export.ExportReport | clara_ai/backend/routes/export.py:326-348 | the format is lowered; anything but "docx" or "pdf" is a 400, a missing builder library a 500; otherwise the matching document with its media type and the timestamped file name |
| Export.ValidRequestNeverBadFormat | clara_ai/backend/routes/export.py:330-348 | a format the request schema admits never gets the 400 (the request schema at lines 21-23 admits only "pdf" and "docx") |
| Inline.LazyClose | clara_ai/backend/routes/export.py:151 | a lazy group ends at the first closing delimiter at or after its minimum length, with no line break before it |
| Inline.FormAt | clara_ai/backend/routes/export.py:151 | a form matched at a position is a well-formed span of that form starting there |
| Inline.MatchAt | clara_ai/backend/routes/export.py:151 | the alternation tries strong, then emphasis, then code: a later form matches only where the earlier ones do not |
| Inline.NextMatch | clara_ai/backend/routes/export.py:153 | a match `finditer` yields starts at or after the position and is the alternation's match at its start |
| Inline.NextMatchLeftmost | clara_ai/backend/routes/export.py:153 | the match found is the leftmost one, and there is none exactly when no position from there matches |
| Inline.Styled | clara_ai/backend/routes/export.py:156-162 | a match becomes a styled run of its inner group: bold, italic or code by its form |
| Inline.StyledAsWritten | clara_ai/backend/routes/export.py:156-162 | as written, the style is chosen by the matched text's opening: an emphasis match whose group starts with '*' becomes an empty bold run |
| Inline.RunsFrom | clara_ai/backend/routes/export.py:152-165 | no plain run is empty |
| Inline.RunsCover | clara_ai/backend/routes/export.py:152-165 | the runs from a position, read back, are exactly the rest of the text |
| Inline.RichRunsCover | clara_ai/backend/routes/export.py:149-165 | the corrected runs cover the whole text in order: plain gaps verbatim, each styled run its group |
| Inline.AsWrittenAgrees | clara_ai/backend/routes/export.py:149-165 | without "**" anywhere, the code as written and the corrected segmentation agree |
| Inline.RichRunDropsText | clara_ai/backend/routes/export.py:151-159 | "**a*" loses its text as written (one empty bold run), while the corrected segmentation gives the italic "*a" |
| Inline.EscapeEntities | clara_ai/backend/routes/export.py:238 | no '<' or '>' survives the entity replacement |
| Inline.ReplaceEntitiesIsPerCharacter | clara_ai/backend/routes/export.py:238 | the three chained replacements, '&' first, are the same as escaping each character on its own |
| Inline.WrongOrderDoublyEscapes | clara_ai/backend/routes/export.py:238 | the order matters: replacing '&' last would escape "<" twice |
| Inline.EntitiesRoundTrip | clara_ai/backend/routes/export.py:238 | unescaping the entities gives back the original text |
| Inline.PairHit | clara_ai/backend/routes/export.py:239-241 | a tag substitution match ends after its start and within the text |
| Inline.PairSubChars | clara_ai/backend/routes/export.py:239-241 | a tag substitution introduces no character outside the text and the tags |
| Inline.PairSubIdentity | clara_ai/backend/routes/export.py:239-241 | a text without the delimiter is left unchanged |
| Inline.EscapeChars | clara_ai/backend/routes/export.py:237-242 | every character of the escaped text comes from the entity-escaped text or from the tag texts |
| Inline.EscapePlain | clara_ai/backend/routes/export.py:237-242 | a text without '*' or '`' is only entity-escaped, so no '<' or '>' remains |
| Tts.Lookup | clara_ai/backend/services/tts_provider.py:163 | a dictionary lookup fails exactly when no key normalises to the language, and otherwise gives that key's voices |
| Tts.VoiceFor | clara_ai/backend/services/tts_provider.py:168 | the male voice exactly for "male", the female voice (the default gender's) for anything else |
| Tts.LanguageVoices | clara_ai/backend/services/tts_provider.py:163-166 | the voices always come from the table: the language's own entry, else its base language's, else the "en" entry |
| Tts.ResolveEdgeVoiceAsWritten | clara_ai/backend/services/tts_provider.py:158-169 | the resolved voice is always one of the table's voices |
| Tts.BritishGetsAmericanVoice | clara_ai/backend/services/tts_provider.py:160-163 | although the table has an "en-GB" entry, "en-GB" with "female" resolves to the American voice, because the lowered key is looked up exactly |
| Tts.ResolveEdgeVoice | clara_ai/backend/services/tts_provider.py:158-169 | the corrected resolution always gives a table voice, and the American voices only when neither the language nor its base is in the table in any case |
| Tts.EveryKeyReachable | clara_ai/backend/services/tts_provider.py:21-32 | with keys compared case-insensitively, every table entry is reached by its own key |
| Tts.FirstMatch | clara_ai/backend/services/tts_provider.py:21-32 | keys equal up to case carry the same voices, so the case-insensitive lookup is unambiguous |
| Tts.ResolveIgnoresCase | clara_ai/backend/services/tts_provider.py:160 | the language's case never changes the voice, in the code as written and in the corrected one |
| Tts.Punctuated | clara_ai/backend/services/tts_provider.py:51-52 | empty text stays empty; text ending (before trailing whitespace) in '.', '!' or '?' is unchanged; other text is right-stripped and gets a '.' |
| Tts.PunctuatedIdempotent | clara_ai/backend/services/tts_provider.py:51-52 | punctuating twice is punctuating once |
| Tts.EspeakVoice | clara_ai/backend/services/tts_provider.py:62 | the espeak voice is "en-us+f4" exactly when the lowered gender is "female", and "en-us+m4" otherwise |
| Tts.SystemCall | clara_ai/backend/services/tts_provider.py:40-62 | the system engine is given the punctuated text and the gender's espeak voice |
| Tts.EnrolledVoice | clara_ai/backend/services/tts_provider.py:196-201 | an enrolled voice exists exactly for a non-empty user name whose lowered form has a non-empty id in a registry that loaded, and is that id |
| Tts.LocalEngines | clara_ai/backend/services/tts_provider.py:212-235 | the system engine is always tried and edge-tts only after it failed; the speech comes from the last engine tried, labelled with its voice name |
| Tts.SynthesizeSpeech | clara_ai/backend/services/tts_provider.py:174-235 | engines are tried in the order clone, system, edge; the clone is tried exactly for an enrolled voice with a key; the result comes from the last engine tried; failure exactly when every engine tried failed |
| Tts.NoUserStartsWithSystem | clara_ai/backend/services/tts_provider.py:196 | without a user name the system engine is tried first |
| Tts.SystemWins | clara_ai/backend/services/tts_provider.py:212-220 | when the system engine works, edge-tts is never the provider |
| Voice.HexDigit | clara_ai/backend/routes/voice.py:60 | a hex digit is a lower-case hexadecimal character |
| Voice.Hex | clara_ai/backend/routes/voice.py:60 | the hex text has two characters per byte |
| Voice.HexRoundTrip | clara_ai/backend/routes/voice.py:60 | decoding the hex text gives back the bytes |
| Voice.OrDefault | clara_ai/backend/routes/voice.py:61 | the value when it is given and non-empty, the default exactly otherwise |
| Voice.AudioEcho | clara_ai/backend/routes/voice.py:53-77 | an empty upload is a 400; otherwise the size is the byte count, the hex text has at most 24 characters and decodes to the first (at most) 12 bytes, and the content type defaults to "application/octet-stream" |
| Voice.RequestedGender | clara_ai/backend/routes/voice.py:99-101 | the lowered, trimmed gender, with "auto", empty or absent turned into "female" |
| Voice.SpeakVoice | clara_ai/backend/routes/voice.py:102 | the Guy voice exactly for "male", the Jenny voice for everything else |
| Voice.Speak | clara_ai/backend/routes/voice.py:94-116 | blank text is a 400 before synthesis; an engine failure a 502; otherwise the trimmed text is spoken with the gender's voice |
| Voice.OnlyMaleIsGuy | clara_ai/backend/routes/voice.py:99-102 | only a gender that lowers and trims to "male" gets the male voice |
| Voice.StoredText | clara_ai/backend/routes/voice.py:183 | the stored report's markdown when it is non-empty, else its text, else "" |
| Voice.ReportText | clara_ai/backend/routes/voice.py:176-185 | non-empty inline text wins; otherwise, for a non-empty id that was found, the stored report's text, and the inline value in every other case |
| Voice.SummaryGender | clara_ai/backend/routes/voice.py:203 | the lowered gender when given and non-empty, "female" otherwise |
| Voice.SpeakReportSummary | clara_ai/backend/routes/voice.py:156-244 | a 400 exactly when no non-blank report text is found; otherwise a 502 exactly when the speech chain fails on "Here is the report summary. " followed by the summariser's core summary, and a success carries that chain's audio, voice name and provider and the summariser's provider and fallback flag |
| Voice.InlineTextWins | clara_ai/backend/routes/voice.py:176-178 | with non-empty inline text the stored report is never consulted |
| Asr.NormaliseSuffix | clara_ai/backend/services/asr_service.py:67-69 | the extension loses exactly its leading dots, never starts with a dot, and is the lower-cased remainder with no upper-case letter |
| Asr.NormaliseIdempotent | clara_ai/backend/services/asr_service.py:67-69 | normalising an already normalised extension changes nothing |
| Asr.PrepareBytes | clara_ai/backend/services/asr_service.py:107-115 | webm and ogg are replaced by the converted audio labelled "wav" (and fail when conversion fails); every other format passes through unchanged; the result never needs conversion again |
| Asr.OpenAiFormat | clara_ai/backend/services/asr_service.py:185-187 | the upload format is always one the transcription API accepts, and equals the input exactly when the input is already accepted |
| Asr.Mime | clara_ai/backend/services/asr_service.py:190-199 | the content type is the seven-entry table's value for wav, mp3, mp4, m4a, ogg, flac and webm, and audio/wav for every format outside it |
| Asr.OpenAiUpload | clara_ai/backend/services/asr_service.py:176-199 | an upload exists exactly when the key is non-blank and the audio can be prepared; it names the file "audio." plus the accepted format and carries the prepared audio and that format's content type |
| Asr.MpegLabelledWav | clara_ai/backend/services/asr_service.py:64-199 | "mpeg" and "mpga" are accepted upload formats but, missing from the MIME table, are sent as audio/wav |
| Asr.NeverOggOrWebm | clara_ai/backend/services/asr_service.py:182-199 | since ogg and webm are converted first, no upload is ever labelled audio/ogg or audio/webm although the table lists them |
| Asr.WhisperPrimary | clara_ai/backend/services/asr_service.py:120-154 | local transcription succeeds exactly when preparation succeeds, the model loads and the model returns; the transcript is the stripped text (empty when missing), the provider "whisper" and the language the model's, or "unknown" when it gives none |
| Asr.OpenAiFallback | clara_ai/backend/services/asr_service.py:165-232 | the fallback succeeds exactly when an upload can be built and the API answers 200 with JSON; the result is the stripped text, language "unknown", provider "openai" |
| Asr.TranscribeAudio | clara_ai/backend/services/asr_service.py:237-263 | succeeds exactly when the local model does, retagged "whisper_local" with the same transcript; the debug record stores the normalised format, flags the failure, and counts the transcript's words (0 and "whisper_failed" on failure) |
| Asr.TranscriptTrimmed | clara_ai/backend/services/asr_service.py:142 | a returned transcript has no surrounding white space |
| Asr.AsTranscription | clara_ai/backend/routes/process.py:124-140 | a failed transcription becomes the route's failure case; a success carries its transcript and provider |
| Asr.UploadFormatHasNoDot | clara_ai/backend/routes/process.py:122 | the suffix the audio route derives from any upload file name normalises to a format with no dot in it |
| Asr.ProcessedAudioIsWhisperLocal | clara_ai/backend/routes/process.py:122-140 | whenever the audio route succeeds the transcription came from the local model, its provider is "whisper_local" and the route uses that very transcript |
| Config.Getenv | clara_ai/backend/config.py:17-52 | a variable that is set is read as is, an unset one gives the default |
| Config.KeptEntries | clara_ai/backend/config.py:17-21 | the kept origins are no more than the pieces, each non-empty and already stripped |
| Config.KeptEntriesMembers | clara_ai/backend/config.py:17-21 | an origin is kept exactly when it is non-empty and is the stripped form of some piece |
| Config.KeptEntriesAppend | clara_ai/backend/config.py:17-21 | filtering distributes over concatenation, so the order of the pieces is kept |
| Config.KeptEntriesOfClean | clara_ai/backend/config.py:17-21 | a list of already clean origins is kept whole |
| Config.CorsOrigins | clara_ai/backend/config.py:17-21 | no origin is empty or contains a comma |
| Config.CorsDefault | clara_ai/backend/config.py:19 | with CORS_ORIGINS unset the origins are exactly ["*"] |
| Config.CorsBlank | clara_ai/backend/config.py:17-21 | a blank CORS_ORIGINS without commas gives no origins at all |
| Config.CorsRoundTrip | clara_ai/backend/config.py:17-21 | joining clean, comma-free origins with commas and reading them back gives the same list |
| Config.Flag | clara_ai/backend/config.py:35-39 | a flag is on only when its value has the length of "1", "yes" or "true" |
| Config.FlagDefaults | clara_ai/backend/config.py:35-39 | with nothing set, ENTERPRISE_MODE is on and OPENAI_ASR_FALLBACK is off |
| Config.FlagCaseless | clara_ai/backend/config.py:35-39 | a flag reads the same whatever the case of its value |
| Config.FlagNotTrimmed | clara_ai/backend/config.py:35-39 | a flag value with leading white space is off, since it is not stripped |
| Config.LoadSettings | clara_ai/backend/config.py:16-52 | the origins are the parsed CORS list; the two flags are read with their defaults; every key, model and voice id is the stripped environment value or its default; the default gender is that value stripped and lowered, "female" when unset |
| Config.VoiceIdForGender | clara_ai/backend/config.py:60-64 | "male" in any case selects the male voice id, anything else the female one |
| Config.DefaultVoiceId | clara_ai/backend/config.py:54-58 | the default voice id is one of the two configured voice ids |
| Config.DefaultVoiceIsGenderVoice | clara_ai/backend/config.py:47-64 | for loaded settings the default voice id is the one selected for the configured default gender |
| Config.GenderNotTrimmed | clara_ai/backend/config.py:60-64 | a gender with leading white space falls back to the female voice, since it is not stripped |
| SelfTest.RunSelfTest | clara_ai/backend/routes/self_test.py:24-44 | every case is reported in order with its input; a case is valid exactly when its extraction succeeded and then carries its confidence, otherwise 0.0; the status is "pass" exactly when all cases validated, "fail" otherwise |
| SelfTest.LlmCheck | clara_ai/backend/routes/self_test.py:51-58 | the check passes exactly when every extraction succeeds; on failure it stops right after the first failing case, all earlier ones having passed |
| SelfTest.OverallStatus | clara_ai/backend/routes/self_test.py:71-77 | "ready" exactly when all three checks pass, "error" exactly when none does, "partial" otherwise |
| SelfTest.StatusMonotone | clara_ai/backend/routes/self_test.py:71-77 | passing more checks never lowers the overall status |
| SelfTest.VoiceConfigured | clara_ai/backend/routes/self_test.py:64-68 | the voice counts as configured exactly when the API key has a non-blank character and the voice registry loads |
| SelfTest.SystemSelfTest | clara_ai/backend/routes/self_test.py:48-84 | the report's LLM result, voice flag and overall status agree with the three checks as above, "partial" exactly when neither "ready" nor "error", the Whisper flag is reported as given, and no more extractions are attempted than there are cases |
| SelfTest.FirstFailureStops | clara_ai/backend/routes/self_test.py:16-20 | on the three fixed cases, whenever the first extraction fails the extractor is called only once |
| Reports.ReportDetail | clara_ai/backend/routes/reports.py:27-33 | the stored record is returned unchanged, an unknown id gives 404 |
| Reports.QueryFormat | clara_ai/backend/routes/reports.py:39 | an absent format means "md"; a given one is accepted exactly when it is "md", "pdf" or "docx" and then names that format |
| Reports.DownloadReport | clara_ai/backend/routes/reports.py:36-79 | an unknown id gives 404; a missing Word or PDF library gives 500 and nothing else does; the file is named after the id and format; markdown is streamed as stored, Word and PDF are the export builders' documents |
| Reports.DownloadMatchesExport | clara_ai/backend/routes/reports.py:50-79 | for Word and PDF, a stored report downloads as the same document, media type and errors as the export route builds from that markdown |
| Reports.MarkdownDownloadIsStoredText | clara_ai/backend/routes/reports.py:46-49 | a markdown download is the stored text with media type text/markdown and file name "<id>.md" |
| Reports.ExecutiveAnalysisById | clara_ai/backend/routes/reports.py:85-122 | fails (404) exactly for an unknown id; otherwise the stored markdown's executive analysis, tagged with the id and carrying a valid confidence label |
| Reports.AnalyseReportText | clara_ai/backend/routes/reports.py:125-157 | text shorter than 50 characters is refused with 400 before any provider is called; longer text gets the executive analysis after one or two provider calls |
| Reports.RoutesAgree | clara_ai/backend/routes/reports.py:85-157 | the id route always answers for a stored report, and where the text route also answers both give the same analysis; the text route refuses exactly the short reports |
| Evaluation.Normalise | clara_ai/backend/evaluate_dataset.py:35-36 | a missing value normalises to ""; the result is the trimmed value with each character lowered, so it has no surrounding white space and no upper-case letter, and an already normalised value is unchanged |
| Evaluation.NormaliseIdempotent | clara_ai/backend/evaluate_dataset.py:35-36 | normalising twice is normalising once |
| Evaluation.HitProperties | clara_ai/backend/evaluate_dataset.py:96-98 | the substring match is symmetric and reflexive, and an empty expectation matches any prediction |
| Evaluation.Score | clara_ai/backend/evaluate_dataset.py:83-105 | a sample whose extraction raised counts one failure and nothing else; a scored sample counts no failure, adds its confidence, and each field is hit at most once |
| Evaluation.SumAppend | clara_ai/backend/evaluate_dataset.py:76-105 | the counts of two runs of samples add up to the counts of their concatenation |
| Evaluation.SumBounds | clara_ai/backend/evaluate_dataset.py:76-117 | over single-sample counts, failures plus the hits on any field never exceed the number of samples |
| Evaluation.SumFailures | clara_ai/backend/evaluate_dataset.py:83-88 | the failure count is the number of samples that failed |
| Evaluation.Scores | clara_ai/backend/evaluate_dataset.py:76-105 | one score per sample, in order, each for a single sample |
| Evaluation.Tally | clara_ai/backend/evaluate_dataset.py:70-105 | failures are at most the sample count, and each field's hits at most the number of samples evaluated |
| Evaluation.TallyAppend | clara_ai/backend/evaluate_dataset.py:76-105 | tallying is additive over concatenation, so the samples can be split between the two dataset files |
| Evaluation.FailuresAreFailedSamples | clara_ai/backend/evaluate_dataset.py:83-123 | the reported failure count is exactly the number of samples whose extraction raised |
| Evaluation.FailedSampleOnlyFails | clara_ai/backend/evaluate_dataset.py:83-88 | a failing sample adds one failure and changes no hit count or confidence sum |
| Evaluation.AllFailedTally | clara_ai/backend/evaluate_dataset.py:83-88 | when every extraction raises, the tally is all failures and no hits |
| Evaluation.Percent | clara_ai/backend/evaluate_dataset.py:124-126 | a hit count no larger than the denominator gives a percentage between 0 and 100 |
| Evaluation.Evaluate | clara_ai/backend/evaluate_dataset.py:59-128 | the totals add up (evaluated = total - failed, failed = samples that raised); each accuracy is the field's hits over the evaluated count (at least 1), between 0 and 100; the average confidence is the confidence sum over the same denominator, as a percentage; an empty dataset gives all zeros |
| Evaluation.SumInOrder | clara_ai/backend/evaluate_dataset.py:76-105 | the loop's running totals equal the sum of the per-sample counts |
| Evaluation.ReportedKeysAsWritten | clara_ai/backend/evaluate_dataset.py:61-128 | the "evaluated" key is in the metrics exactly when there was at least one sample |
| Evaluation.MainAsWritten | clara_ai/backend/evaluate_dataset.py:157-173 | the entry point crashes exactly when "evaluated" is missing from the metrics, and otherwise exits 1 exactly when intent accuracy is below the threshold |
| Evaluation.EmptyDatasetCrashes | clara_ai/backend/evaluate_dataset.py:61-68 | with no samples the entry point crashes on the missing "evaluated" key, the raise being at line 158 |
| Evaluation.ExitCode | clara_ai/backend/evaluate_dataset.py:166-175 | the exit code is 0 or 1, 1 exactly when intent accuracy is below the threshold, and agrees with the entry point wherever it does not crash |
| Evaluation.EmptyDatasetFails | clara_ai/backend/evaluate_dataset.py:61-68 | with no samples the corrected entry point exits 1 exactly under a positive threshold, the default 60 included, the exit code being chosen at lines 166-173 |

Where a comment in the source disagrees with its code, the model follows the code:
- a summary is accepted at 10 to 1000 characters, although the comment says 10-500 (`services/report_summarizer.py:377-378`);
- an executive core summary is accepted at 20 to 1200 characters, although the comment says 20-800 (`services/report_summarizer.py:435-437`);
- the second tier of the executive-summary extractor keeps up to five lines, although the comment says three (`services/report_summarizer.py:160-174`).

## Left out

- Network, SDK and engine calls are inputs, never performed. These are Groq, DeepSeek, Featherless, ElevenLabs, edge-tts, espeak-ng, ffmpeg, Whisper and the OpenAI transcription API. HTTP, timeouts and the Groq client singleton are not modelled.
- `call_featherless_chat`, `call_llm_json` and `_dummy_response` in `llm/llm_adapter.py` are not modelled; a Featherless call is an `Outcome` input like the others.
- `json.loads` is an abstract decoder, and the JSON grammar is not modelled.
- Pydantic validation follows the declared types strictly. Its lax coercions, such as a numeric string for a float, are not modelled.
- Unicode character classes are not encoded:
  - `\w` is a parameter `isWord`;
  - `\d` is the ASCII digits;
  - `str.lower()` folds ASCII letters only, so non-ASCII case folding is not modelled.
- Floating point is not modelled, and scores are exact numbers:
  - Intent.RuleConfidence: works in integer hundredths and rounds the exact mean. A third of an integer is never halfway, so this matches `round(x, 2)` except where binary floating point would land on the other side.
  - CodeSwitch.ClassifyCleaned: allows either neighbour when a ratio sits exactly halfway between two hundredths, because Python's `round` of a float is not modelled bit for bit. CodeSwitch.RoundDiv's contract has the same latitude.
  - Evaluation.Evaluate: states the accuracy and average-confidence percentages unrounded, because `round(x, 1)` of a float is not modelled.
- Latencies and durations (`time.perf_counter`, Whisper segment ends) are non-negative integer inputs or are not modelled.
- Persistence is an input:
  - the report store, `generate_report_id`, `save_report` and `list_reports`;
  - `get_reports`;
  - the voice registry file.
- Timestamps, the `hash()`-based reference id and the dossier's markdown prose are not modelled. The dossier is modelled as the decisions that select its content.
- How `process_audio` and `process_text` fill the clarification-draft store, and the persistence in `_run_pipeline`, are not modelled. The store is an input map to `clarify_report`.
- The document objects of python-docx and reportlab (styles, geometry, bytes) are not modelled. A built document is its sequence of blocks and runs.
- Concurrency and async are not modelled (`asyncio.to_thread`, async routes). The module-level state is handled as follows:
  - `_speak_state` is returned instead of stored;
  - `_debug_state` is the returned `AsrDebug` record, with `last_error` reduced to a flag;
  - the copy `get_asr_debug` makes is not modelled.
- `_load_whisper_model`'s cache and `whisper_model_loaded` are not modelled; whether the model loads is an input.
- `get_settings`' caching and `load_dotenv` are not modelled; the environment is a map given to `LoadSettings`.
- `validate_voice_config` is not modelled, because it only logs.
- `SpeakReportSummaryRequest`, which `routes/voice.py` imports, is not defined in `models/schemas.py`. Its fields are modelled as a plain record, with the language a plain string.
- The 502 and 500 branches of the executive-analysis and summary routes are not modelled. The summariser's orchestrators catch every provider failure and always answer, so those branches cannot be reached.
- `download_report`'s final 400 is not modelled. FastAPI's `Literal` check has already rejected any other format with 422, so the 400 cannot be reached.
- `_load_samples` (dataset files) and the evaluator's printed report are not modelled; the samples are the input.
- The health, debug, demo, ASR-only and enrolment routes are not modelled, and neither are `voice_status`, gender detection from audio or the scripts that test a live server.
- Config.DefaultVoiceId: its own contract only says the result is one of the two voice ids; Config.DefaultVoiceIsGenderVoice states the exact rule.
- Config.Flag: its own contract only bounds the accepted values' lengths; Config.FlagDefaults, Config.FlagCaseless and Config.FlagNotTrimmed state the rule case by case.
- Intent.CallAndParse: is built on the corrected Intent.ParseIntent. On a reply that decodes to a JSON value other than an object, such as "null", the source's `_parse_intent_json` raises AttributeError, and `_call_and_parse` lets it escape. The model reports a failed parse and retries instead. Intent.ParseAgreesWhereNoCrash shows the two agree on every other reply.
- Intent.ExtractIntent: inherits the same difference. Where the source raises on such a reply, the model falls through to the next extractor.
- Intent.ExtractionTotal: is stated for the corrected parse. In the source, a provider reply such as "null" makes extraction raise even with only runtime failures from the providers.
- Tts.LocalEngines: names the edge-tts voice by the corrected Tts.ResolveEdgeVoice. For a regional language such as "en-GB", the source speaks with the base language's voice or "en"'s (Tts.BritishGetsAmericanVoice).
- Tts.SynthesizeSpeech: inherits the corrected edge-tts voice through Tts.LocalEngines.
- Voice.SpeakReportSummary: inherits the corrected edge-tts voice through Tts.SynthesizeSpeech.
- Export.Rich: uses the corrected Inline.RichRuns. On a text holding "**" followed by an emphasis match, such as "**a*", the source drops the matched text (Inline.RichRunDropsText). Export.RichAsWrittenWithoutStrong shows the two agree on every text without "**".
- Export.WordBlock: inherits the corrected runs through Export.Rich.
- Export.WordBuild: inherits the corrected runs through Export.WordBlock.
- Export.WordKeepsText: holds for the corrected runs only; on "**a*" the source's runs lose the text.
- Export.ExportReport: the Word document is built from the corrected runs.
- Reports.DownloadReport: the Word document is built from the corrected runs, as in Export.ExportReport.

## Findings

| source | as written | input that shows it | evidently intended | confidence | as-written member | corrected member |
|---|---|---|---|---|---|---|
| clara_ai/backend/services/intent_service.py:64-70 | `data.setdefault(...)` is called on whatever `json.loads` returned, and a non-object raises an uncaught AttributeError out of `extract_intent` | the reply `null` (likewise `42` or `[1]`) | a reply that is not a JSON object counts as a failed parse and returns None | not executed | Intent.ParseIntentAsWritten, Intent.NullReplyCrashes | Intent.ParseIntent, Intent.ParseAgreesWhereNoCrash |
| clara_ai/backend/routes/export.py:151-159 | `_add_rich_run` picks the style by the matched text's opening, so an italic match that starts with `**` takes the bold branch with `group(2)` None and its text is dropped | the line `**a*` | the italic run `*a` (the emphasis group) | not executed | Inline.StyledAsWritten, Inline.RichRunDropsText | Inline.Styled, Inline.RichRunsCover |
| clara_ai/backend/routes/process.py:223-231 | the fallback lookup expects FileNotFoundError, but `get_report` returns None for an unknown id and `None.get` raises, so the 404 is unreachable and the route answers 500 | an id with neither a draft nor a stored report | 404 for an unknown id | not executed | Process.ClarifyAsWritten, Process.UnknownIdIsServerError | Process.ClarifyReport, Process.ClarifyAgrees |
| clara_ai/backend/services/tts_provider.py:160-163 | the language is lower-cased before an exact lookup in a table whose regional keys are mixed-case, so `en-GB`, `ta-IN` and the like are never matched | language `en-GB`, gender `female` gives `en-US-JennyNeural` | each table entry reached by its own key, whatever its case | not executed | Tts.ResolveEdgeVoiceAsWritten, Tts.BritishGetsAmericanVoice | Tts.ResolveEdgeVoice, Tts.EveryKeyReachable |
| clara_ai/backend/evaluate_dataset.py:61-68, 158 | `evaluate` returns early for an empty dataset without the `evaluated` and `failed_samples` keys, and `main` then raises KeyError | an empty sample list | report zero metrics and exit 1 under the threshold | not executed | Evaluation.MainAsWritten, Evaluation.EmptyDatasetCrashes | Evaluation.ExitCode, Evaluation.EmptyDatasetFails |
