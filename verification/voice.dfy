/**
 * The voice routes (`routes/voice.py`): the audio echo, `speak` and
 * `speak_report_summary`.
 *
 * The upload, the edge-tts engine, the stored report, the summariser's
 * providers and the speech engines are inputs. The route's module-level
 * "last spoken" record is returned as part of the result instead of being
 * written.
 */
module Voice {
  import opened Base
  import opened Text
  import Summarizer
  import Tts

  // ---------------------------------------------------------------------------
  // audio_echo
  // ---------------------------------------------------------------------------

  /** A lower-case hexadecimal digit. */
  function HexDigit(n: nat): (c: char)
    requires n < 16
    ensures ('0' <= c <= '9') || ('a' <= c <= 'f')
  {
    if n < 10 then ('0' as int + n) as char else ('a' as int + n - 10) as char
  }

  function HexValue(c: char): (n: nat)
    ensures n < 16
  {
    if '0' <= c <= '9' then c as int - '0' as int
    else if 'a' <= c <= 'f' then c as int - 'a' as int + 10
    else 0
  }

  /** `bytes.hex()`: two lower-case digits per byte, high half first. */
  function Hex(bytes: seq<Byte>): (r: string)
    ensures |r| == 2 * |bytes|
  {
    if |bytes| == 0 then ""
    else [HexDigit(bytes[0] as nat / 16), HexDigit(bytes[0] as nat % 16)] + Hex(bytes[1..])
  }

  /** Reads pairs of hexadecimal digits back into bytes (a lone last digit is ignored). */
  function Unhex(s: string): (r: seq<Byte>)
    decreases |s|
  {
    if |s| < 2 then [] else [(HexValue(s[0]) * 16 + HexValue(s[1])) as Byte] + Unhex(s[2..])
  }

  /** The hexadecimal form reads back as the same bytes. */
  lemma {:induction false} HexRoundTrip(bytes: seq<Byte>)
    ensures Unhex(Hex(bytes)) == bytes
  {
    if |bytes| > 0 {
      var x := bytes[0];
      var hi := HexDigit(x as nat / 16);
      var lo := HexDigit(x as nat % 16);
      var rest := Hex(bytes[1..]);
      assert Hex(bytes) == [hi, lo] + rest;
      UnhexCons(hi, lo, rest);
      HexPair(x);
      HexRoundTrip(bytes[1..]);
      assert bytes == [x] + bytes[1..];
    }
  }

  /** Reading a pair of digits in front of an even-length text. */
  lemma UnhexCons(hi: char, lo: char, rest: string)
    ensures Unhex([hi, lo] + rest) == [(HexValue(hi) * 16 + HexValue(lo)) as Byte] + Unhex(rest)
  {
    var h := [hi, lo] + rest;
    assert h[2..] == rest;
  }

  /** One byte's two digits read back as the byte. */
  lemma HexPair(x: Byte)
    ensures (HexValue(HexDigit(x as nat / 16)) * 16 + HexValue(HexDigit(x as nat % 16))) as Byte == x
  {
    var n := x as nat;
    DigitValue(n / 16);
    DigitValue(n % 16);
    assert (n / 16) * 16 + n % 16 == n;
  }

  lemma DigitValue(n: nat)
    requires n < 16
    ensures HexValue(HexDigit(n)) == n
  {
  }

  datatype EchoResponse = EchoResponse(received: bool, fileSize: nat, contentType: string, first12Hex: string)

  /** `file.content_type or default`: an absent or empty value gives the default. */
  function OrDefault(value: Option<string>, default: string): (r: string)
    ensures r == default || (value.Some? && r == value.value && r != "")
    ensures value.Some? && value.value != "" ==> r == value.value
    ensures value.None? || value.value == "" ==> r == default
  {
    if value.Some? && value.value != "" then value.value else default
  }

  /** `audio_echo`: an empty upload is refused with 400; otherwise its size, type and the hex of its first twelve bytes. */
  function AudioEcho(audio: seq<Byte>, contentType: Option<string>): (r: Result<EchoResponse, nat>)
    ensures r.Error? <==> |audio| == 0
    ensures r.Error? ==> r.error == 400
    ensures r.Ok? ==> r.value.received && r.value.fileSize == |audio|
    ensures r.Ok? ==> |r.value.first12Hex| == 2 * Min(12, |audio|) <= 24
    ensures r.Ok? ==> Unhex(r.value.first12Hex) == audio[..Min(12, |audio|)]
    ensures r.Ok? ==> r.value.contentType == OrDefault(contentType, "application/octet-stream")
  {
    if |audio| == 0 then Error(400)
    else
      var first := audio[..Min(12, |audio|)];
      HexRoundTrip(first);
      Ok(EchoResponse(true, |audio|, OrDefault(contentType, "application/octet-stream"), Hex(first)))
  }

  // ---------------------------------------------------------------------------
  // speak
  // ---------------------------------------------------------------------------

  const Jenny: string := "en-US-JennyNeural"
  const Guy: string := "en-US-GuyNeural"

  /**
   * The gender `speak` resolves: the request's value lowered and trimmed, with
   * "auto" and an absent or empty value meaning "female".
   */
  function RequestedGender(gender: Option<string>): (r: string)
    ensures r != "auto" && r != ""
    ensures Strip(Lower(gender.GetOr(""))) in {"auto", ""} ==> r == "female"
    ensures !(Strip(Lower(gender.GetOr(""))) in {"auto", ""}) ==> r == Strip(Lower(gender.GetOr("")))
  {
    var requested := Strip(Lower(gender.GetOr("")));
    if requested == "auto" || requested == "" then "female" else requested
  }

  /** `_EDGE_VOICES.get(requested, female voice)`. */
  function SpeakVoice(gender: Option<string>): (r: string)
    ensures r == Guy <==> RequestedGender(gender) == "male"
    ensures r == Jenny || r == Guy
  {
    if RequestedGender(gender) == "male" then Guy else Jenny
  }

  /** The audio, the voice it was spoken in (recorded as the last voice), and the text sent. */
  datatype Spoken = Spoken(audio: seq<Byte>, voice: string, text: string)

  /**
   * `speak`. Blank text is refused with 400 before the engine is called; an
   * engine failure (`None`) is answered with 502.
   */
  function Speak(text: string, gender: Option<string>, engine: Option<seq<Byte>>): (r: Result<Spoken, nat>)
    ensures Strip(text) == "" ==> r == Error(400)
    ensures Strip(text) != "" && engine.None? ==> r == Error(502)
    ensures r.Ok? <==> Strip(text) != "" && engine.Some?
    ensures r.Ok? ==> r.value.text == Strip(text) && r.value.voice == SpeakVoice(gender) && r.value.audio == engine.value
  {
    var t := Strip(text);
    if t == "" then Error(400)
    else if engine.None? then Error(502)
    else Ok(Spoken(engine.value, SpeakVoice(gender), t))
  }

  /** Any gender other than "male", in any case and spacing, speaks in the female voice. */
  lemma OnlyMaleIsGuy(gender: string)
    ensures SpeakVoice(Some(gender)) == Guy <==> Strip(Lower(gender)) == "male"
  {
  }

  // ---------------------------------------------------------------------------
  // speak_report_summary
  // ---------------------------------------------------------------------------

  /** The request body: `SpeakReportSummaryRequest`'s fields. */
  datatype SummaryRequest = SummaryRequest(
    reportText: Option<string>,
    reportId: Option<string>,
    userName: Option<string>,
    language: string,
    gender: Option<string>)

  /** A stored report as loaded: its markdown, and the "report_text" field when the record has one. */
  datatype StoredReport = StoredReport(markdown: Option<string>, text: Option<string>)

  /** `report_data.get("report_markdown") or report_data.get("report_text", "")`. */
  function StoredText(stored: StoredReport): (r: string)
    ensures stored.markdown.Some? && stored.markdown.value != "" ==> r == stored.markdown.value
    ensures !(stored.markdown.Some? && stored.markdown.value != "") ==> r == stored.text.GetOr("")
  {
    if stored.markdown.Some? && stored.markdown.value != "" then stored.markdown.value else stored.text.GetOr("")
  }

  /**
   * The text to summarise: the inline text unless it is absent or empty; then,
   * for a non-empty id, the stored report (`lookup` is `None` when loading
   * raised or found nothing).
   */
  function ReportText(req: SummaryRequest, lookup: Option<StoredReport>): (r: Option<string>)
    ensures req.reportText.Some? && req.reportText.value != "" ==> r == req.reportText
    ensures r.Some? && r != req.reportText ==> req.reportId.Some? && req.reportId.value != "" && lookup.Some?
                                               && r.value == StoredText(lookup.value)
    ensures ((req.reportText.None? || req.reportText.value == "") && req.reportId.Some? && req.reportId.value != ""
             && lookup.Some?) ==> r == Some(StoredText(lookup.value))
    ensures ((req.reportText.None? || req.reportText.value == "")
             && !(req.reportId.Some? && req.reportId.value != "" && lookup.Some?)) ==> r == req.reportText
  {
    var inline := req.reportText;
    var inlineEmpty := inline.None? || inline.value == "";
    if inlineEmpty && req.reportId.Some? && req.reportId.value != "" && lookup.Some? then
      var s := StoredText(lookup.value);
      // the stored "report_text" may be null, which the guard below treats like ""
      Some(s)
    else inline
  }

  const SpokenPrefix: string := "Here is the report summary. "

  /** The response: the audio and the headers naming who produced what. */
  datatype SummaryAudio = SummaryAudio(
    audio: seq<Byte>,
    spokenText: string,
    summaryProvider: string,
    fallbackUsed: bool,
    voiceProvider: string,
    voiceName: string)

  /** The gender passed to the speech chain: the request's, lowered, "female" when absent or empty. */
  function SummaryGender(gender: Option<string>): (r: string)
    ensures gender.Some? && gender.value != "" ==> r == Lower(gender.value)
    ensures !(gender.Some? && gender.value != "") ==> r == "female"
  {
    if gender.Some? && gender.value != "" then Lower(gender.value) else "female"
  }

  /**
   * `speak_report_summary`: resolve the text (400 when none or blank), summarise
   * it, speak "Here is the report summary. " and the core summary through the
   * speech chain (502 when every engine fails).
   */
  function SpeakReportSummary(req: SummaryRequest, lookup: Option<StoredReport>,
                              groq: Outcome, deepseek: Outcome, fallbackLatencyMs: nat,
                              registry: Option<map<string, string>>, apiKey: string, engines: Tts.Engines)
    : (r: Result<SummaryAudio, nat>)
    ensures var text := ReportText(req, lookup);
            r == Error(400) <==> text.None? || Strip(text.value) == ""
    ensures r.Error? ==> r.error == 400 || r.error == 502
    ensures r.Ok? ==> exists core :: r.value.spokenText == SpokenPrefix + core
    ensures r.Ok? ==> r.value.spokenText
                      == SpokenPrefix + Summarizer.SummariseReport(ReportText(req, lookup).value, groq, deepseek, fallbackLatencyMs).result.coreSummary
    ensures r.Ok? ==> r.value.voiceProvider in {"elevenlabs_clone", "system_tts", "edge_tts"}
    ensures var text := ReportText(req, lookup);
            text.Some? && Strip(text.value) != "" ==>
              var summary := Summarizer.SummariseReport(text.value, groq, deepseek, fallbackLatencyMs).result;
              var tts := Tts.SynthesizeSpeech(SpokenPrefix + summary.coreSummary, req.userName, req.language,
                                              SummaryGender(req.gender), registry, apiKey, engines);
              (r == Error(502) <==> tts.speech.None?)
              && (r.Ok? ==> r.value.audio == tts.speech.value.audio && r.value.voiceName == tts.speech.value.voiceName
                            && r.value.voiceProvider == tts.speech.value.provider.Name()
                            && r.value.summaryProvider == summary.provider && r.value.fallbackUsed == summary.fallbackUsed)
  {
    var text := ReportText(req, lookup);
    if text.None? || Strip(text.value) == "" then Error(400)
    else
      var summary := Summarizer.SummariseReport(text.value, groq, deepseek, fallbackLatencyMs).result;
      var spoken := SpokenPrefix + summary.coreSummary;
      var tts := Tts.SynthesizeSpeech(spoken, req.userName, req.language, SummaryGender(req.gender), registry, apiKey, engines);
      match tts.speech
      case None => Error(502)
      case Some(sp) =>
        Ok(SummaryAudio(sp.audio, spoken, summary.provider, summary.fallbackUsed, sp.provider.Name(), sp.voiceName))
  }

  /** Inline text wins: the stored report is never consulted when the request carries text. */
  lemma InlineTextWins(req: SummaryRequest, a: Option<StoredReport>, b: Option<StoredReport>,
                       groq: Outcome, deepseek: Outcome, fallbackLatencyMs: nat,
                       registry: Option<map<string, string>>, apiKey: string, engines: Tts.Engines)
    requires req.reportText.Some? && req.reportText.value != ""
    ensures SpeakReportSummary(req, a, groq, deepseek, fallbackLatencyMs, registry, apiKey, engines)
            == SpeakReportSummary(req, b, groq, deepseek, fallbackLatencyMs, registry, apiKey, engines)
  {
  }
}
