/**
 * The Groq chat adapter: how SDK results become outcomes, how the JSON
 * helper builds its system message, and its best-effort parse of the reply.
 */
module GroqAdapter {
  import opened Base
  import opened Text
  import opened Json
  import opened Repair

  /** What the SDK's chat-completion call did. */
  datatype SdkResult =
    | TimedOut
    | ConnectionFailed
    | StatusError(code: int)
    | OtherSdkError
    | Completed(content: Option<string>, latencyMs: nat)

  const DefaultModel: string := "llama-3.3-70b-versatile"

  /**
   * One chat call. The API key and model id are the environment values
   * (`None` when unset); a blank key, a timeout, a connection error and an
   * API status error all surface as RuntimeError, any other SDK exception
   * escapes unchanged, and a missing message content reads as "".
   */
  function CallGroqChat(apiKey: Option<string>, modelId: Option<string>, sdk: SdkResult): (r: Outcome)
    ensures r.Fail? && r.failure == RuntimeFailure
            <==> Strip(apiKey.GetOr("")) == "" || sdk.TimedOut? || sdk.ConnectionFailed? || sdk.StatusError?
    ensures r.Fail? && r.failure == OtherFailure <==> Strip(apiKey.GetOr("")) != "" && sdk.OtherSdkError?
    ensures r.Reply? ==> sdk.Completed? && r.latencyMs == sdk.latencyMs
                         && r.model == Strip(modelId.GetOr(DefaultModel))
                         && (sdk.content.Some? ==> r.content == sdk.content.value)
                         && (sdk.content.None? ==> r.content == "")
  {
    if Strip(apiKey.GetOr("")) == "" then Fail(RuntimeFailure)
    else
      match sdk
      case TimedOut => Fail(RuntimeFailure)
      case ConnectionFailed => Fail(RuntimeFailure)
      case StatusError(_) => Fail(RuntimeFailure)
      case OtherSdkError => Fail(OtherFailure)
      case Completed(content, latency) =>
        Reply(content.GetOr(""), Strip(modelId.GetOr(DefaultModel)), latency)
  }

  const SchemaHeader: string := "\n\nRequired output schema (JSON):\n"

  /**
   * The system message of a JSON request: the system prompt, followed by the
   * header and the serialised schema only when a non-empty schema is given.
   * `dumps` stands for `json.dumps(schema, indent=2)`.
   */
  function SystemMessage(systemPrompt: string, schema: Option<map<string, Json>>,
                         dumps: map<string, Json> -> string): (r: string)
    ensures StartsWith(r, systemPrompt)
    ensures r == systemPrompt <==> schema.None? || |schema.value| == 0
    ensures schema.Some? && |schema.value| > 0 ==>
              EndsWith(r, dumps(schema.value)) && |r| == |systemPrompt| + |SchemaHeader| + |dumps(schema.value)|
    ensures schema.Some? && |schema.value| > 0 ==>
              r[|systemPrompt|..|systemPrompt| + |SchemaHeader|] == SchemaHeader
  {
    if schema.Some? && |schema.value| > 0 then
      var r := systemPrompt + SchemaHeader + dumps(schema.value);
      assert r[..|systemPrompt|] == systemPrompt;
      assert r[|systemPrompt|..|systemPrompt| + |SchemaHeader|] == SchemaHeader;
      assert r[|r| - |dumps(schema.value)|..] == dumps(schema.value);
      r
    else systemPrompt
  }

  /**
   * The text the JSON helper hands to the decoder, if any: the fence-stripped
   * reply from its first '{' to its last '}'.
   */
  function ParseTarget(raw: string): (r: Option<string>)
    ensures r.Some? <==> HasBraceSpan(StripFence(raw))
    ensures r.Some? ==> |r.value| >= 2 && r.value[0] == '{' && r.value[|r.value| - 1] == '}'
    ensures r.Some? ==> OuterBraceSpan(StripFence(raw), r.value)
  {
    BraceSlice(StripFence(raw))
  }

  /** The `parsed` field: the decoded brace span, or None when there is none or it fails to decode. */
  function BestEffortParse(raw: string, decode: Decoder): (r: Option<Json>)
    ensures r.Some? ==> ParseTarget(raw).Some? && decode(ParseTarget(raw).value) == r
    ensures ParseTarget(raw).None? ==> r.None?
    ensures ParseTarget(raw).Some? ==> r == decode(ParseTarget(raw).value)
  {
    match ParseTarget(raw)
    case Some(t) => decode(t)
    case None => None
  }

  datatype JsonReply = JsonReply(content: string, parsed: Option<Json>, model: string, latencyMs: nat)

  datatype JsonResult = Raised(failure: Failure) | Returned(reply: JsonReply)

  /**
   * `call_groq_json`: a failed chat call propagates; otherwise the raw
   * content is returned with the best-effort parse, so bad JSON never raises.
   */
  function CallGroqJson(chat: Outcome, decode: Decoder): (r: JsonResult)
    ensures r.Raised? <==> chat.Fail?
    ensures r.Raised? ==> r.failure == chat.failure
    ensures r.Returned? ==> r.reply.content == chat.content && r.reply.model == chat.model
                            && r.reply.latencyMs == chat.latencyMs
                            && r.reply.parsed == BestEffortParse(chat.content, decode)
  {
    match chat
    case Fail(f) => Raised(f)
    case Reply(content, model, latency) =>
      Returned(JsonReply(content, BestEffortParse(content, decode), model, latency))
  }

  /** A one-line fenced reply is never decoded, whatever the decoder would say. */
  lemma OneLineFencedReplyUnparsed(body: string, decode: Decoder)
    requires NoBreak(body)
    ensures BestEffortParse("```" + body + "```", decode).None?
  {
    OneLineFenceVanishes(body);
    assert !HasBraceSpan("");
  }

  /**
   * A reply that is exactly one fenced block around a single-line JSON object
   * is decoded as that object's text.
   */
  lemma FencedObjectDecoded(tag: string, obj: string, decode: Decoder)
    requires NoBreak(tag) && NoBreak(obj)
    requires |obj| >= 2 && obj[0] == '{' && obj[|obj| - 1] == '}'
    ensures BestEffortParse("```" + tag + "\n" + (Join("\n", [obj]) + "\n" + "```"), decode) == decode(obj)
  {
    FencedBlockUnwrapped(tag, [obj]);
    StripOfTrimmed(obj);
    assert HasBraceSpan(obj);
    BraceSliceOfObject(obj);
  }

  lemma BraceSliceOfObject(obj: string)
    requires |obj| >= 2 && obj[0] == '{' && obj[|obj| - 1] == '}'
    ensures BraceSlice(obj) == Some(obj)
  {
    assert obj[0..|obj|] == obj;
  }
}
