/**
 * Speech recognition (`services/asr_service.py`): the suffix and format
 * rules, the local Whisper path that `transcribe_audio` uses, the OpenAI
 * fallback's request, and the debug record of the last call.
 *
 * ffmpeg, the Whisper model and the OpenAI service are inputs: what the
 * conversion produced (`None` when it failed), whether the model loaded, what
 * it returned, and the HTTP reply.
 */
module Asr {
  import opened Base
  import opened Text
  import Process

  // ---------------------------------------------------------------------------
  // Formats
  // ---------------------------------------------------------------------------

  /** `_normalise_suffix`: the extension without its leading dots, in lower case. */
  function NormaliseSuffix(suffix: string): (r: string)
    ensures |r| <= |suffix|
    ensures |r| > 0 ==> r[0] != '.'
    ensures forall k :: 0 <= k < |r| ==> !('A' <= r[k] <= 'Z')
    ensures forall k :: 0 <= k < |suffix| - |r| ==> suffix[k] == '.'
    ensures r == Lower(suffix[|suffix| - |r|..])
  {
    Lower(DropLeading(suffix, '.'))
  }

  /** Normalising twice is normalising once. */
  lemma NormaliseIdempotent(suffix: string)
    ensures NormaliseSuffix(NormaliseSuffix(suffix)) == NormaliseSuffix(suffix)
  {
    var r := NormaliseSuffix(suffix);
    assert DropLeading(r, '.') == r;
    assert Lower(r) == r;
  }

  /** The audio handed to a recogniser, and its format. */
  datatype Prepared = Prepared(audio: seq<Byte>, format: string)

  predicate NeedsConversion(fmt: string) {
    fmt == "webm" || fmt == "ogg"
  }

  /**
   * `_prepare_bytes`: webm and ogg audio is converted to wav by ffmpeg
   * (`converted`, `None` when ffmpeg failed and RuntimeError was raised);
   * anything else passes unchanged.
   */
  function PrepareBytes(audio: seq<Byte>, fmt: string, converted: Option<seq<Byte>>): (r: Option<Prepared>)
    ensures NeedsConversion(fmt) ==> (r.Some? <==> converted.Some?)
    ensures NeedsConversion(fmt) && r.Some? ==> r.value == Prepared(converted.value, "wav")
    ensures !NeedsConversion(fmt) ==> r == Some(Prepared(audio, fmt))
    ensures r.Some? ==> !NeedsConversion(r.value.format)
  {
    if NeedsConversion(fmt) then
      match converted
      case Some(wav) => Some(Prepared(wav, "wav"))
      case None => None
    else Some(Prepared(audio, fmt))
  }

  /** `_OPENAI_ACCEPTED_FORMATS`. */
  predicate OpenAiAccepts(fmt: string) {
    fmt in {"wav", "mp3", "mp4", "mpeg", "mpga", "m4a", "ogg", "webm", "flac"}
  }

  /** The format the OpenAI request names: an unaccepted one is sent as wav. */
  function OpenAiFormat(fmt: string): (r: string)
    ensures OpenAiAccepts(r)
    ensures OpenAiAccepts(fmt) <==> r == fmt
  {
    if OpenAiAccepts(fmt) then fmt else "wav"
  }

  /**
   * The MIME type of a format, from the seven-entry table (wav, mp3, mp4,
   * m4a, ogg, flac, webm); formats outside the table are audio/wav.
   */
  function Mime(fmt: string): (r: string)
    ensures r == "audio/wav" <==> !(fmt in {"mp3", "mp4", "m4a", "ogg", "flac", "webm"})
    ensures fmt == "mp3" ==> r == "audio/mpeg"
    ensures fmt == "mp4" || fmt == "m4a" ==> r == "audio/mp4"
    ensures fmt == "ogg" ==> r == "audio/ogg"
    ensures fmt == "flac" ==> r == "audio/flac"
    ensures fmt == "webm" ==> r == "audio/webm"
    ensures r in {"audio/wav", "audio/mpeg", "audio/mp4", "audio/ogg", "audio/flac", "audio/webm"}
  {
    if fmt == "mp3" then "audio/mpeg"
    else if fmt == "mp4" || fmt == "m4a" then "audio/mp4"
    else if fmt == "ogg" then "audio/ogg"
    else if fmt == "flac" then "audio/flac"
    else if fmt == "webm" then "audio/webm"
    else "audio/wav"
  }

  /** The file part of the OpenAI request. */
  datatype Upload = Upload(filename: string, audio: seq<Byte>, mime: string)

  /**
   * The request `transcribe_audio_fallback_openai` would post, or `None`
   * when it raises first: no API key, or a failed conversion.
   */
  function OpenAiUpload(audio: seq<Byte>, suffix: string, apiKey: string, converted: Option<seq<Byte>>): (r: Option<Upload>)
    ensures apiKey == "" ==> r.None?
    ensures r.Some? ==> exists fmt :: OpenAiAccepts(fmt) && !NeedsConversion(fmt)
                                       && r.value.filename == "audio." + fmt && r.value.mime == Mime(fmt)
    ensures r.Some? <==> apiKey != "" && PrepareBytes(audio, NormaliseSuffix(suffix), converted).Some?
    ensures r.Some? ==> var p := PrepareBytes(audio, NormaliseSuffix(suffix), converted).value;
                        var fmt := OpenAiFormat(p.format);
                        r.value.audio == p.audio && r.value.filename == "audio." + fmt && r.value.mime == Mime(fmt)
  {
    if apiKey == "" then None
    else
      match PrepareBytes(audio, NormaliseSuffix(suffix), converted)
      case None => None
      case Some(p) =>
        var fmt := OpenAiFormat(p.format);
        Some(Upload("audio." + fmt, p.audio, Mime(fmt)))
  }

  /** MPEG audio under its own names is labelled audio/wav, by the table's default. */
  lemma MpegLabelledWav()
    ensures OpenAiFormat("mpeg") == "mpeg" && Mime("mpeg") == "audio/wav"
    ensures OpenAiFormat("mpga") == "mpga" && Mime("mpga") == "audio/wav"
  {
  }

  /** The ogg and webm MIME entries are never used: such audio is sent as wav. */
  lemma NeverOggOrWebm(audio: seq<Byte>, suffix: string, apiKey: string, converted: Option<seq<Byte>>)
    requires OpenAiUpload(audio, suffix, apiKey, converted).Some?
    ensures OpenAiUpload(audio, suffix, apiKey, converted).value.mime != "audio/ogg"
    ensures OpenAiUpload(audio, suffix, apiKey, converted).value.mime != "audio/webm"
  {
  }

  // ---------------------------------------------------------------------------
  // Recognisers
  // ---------------------------------------------------------------------------

  datatype Transcript = Transcript(transcript: string, language: string, provider: string)

  /** What the Whisper model's `transcribe` returned: its "text" and "language" entries. */
  datatype WhisperOutput = WhisperOutput(text: Option<string>, language: Option<string>)

  /** `x or default` for an optional text. */
  function TextOr(x: Option<string>, default: string): (r: string)
    ensures x.Some? && x.value != "" ==> r == x.value
    ensures !(x.Some? && x.value != "") ==> r == default
  {
    if x.Some? && x.value != "" then x.value else default
  }

  /**
   * `transcribe_audio_primary_whisper`: `None` when the conversion fails, the
   * model cannot be loaded, or transcription raises (`output` is `None`).
   */
  function WhisperPrimary(audio: seq<Byte>, suffix: string, converted: Option<seq<Byte>>,
                          modelLoaded: bool, output: Option<WhisperOutput>): (r: Option<Transcript>)
    ensures r.Some? <==> PrepareBytes(audio, NormaliseSuffix(suffix), converted).Some? && modelLoaded && output.Some?
    ensures r.Some? ==> r.value.provider == "whisper" && r.value.language != ""
    ensures r.Some? ==> r.value.language == TextOr(output.value.language, "unknown")
    ensures r.Some? ==> r.value.transcript == Strip(TextOr(output.value.text, ""))
  {
    var prepared := PrepareBytes(audio, NormaliseSuffix(suffix), converted);
    if prepared.None? || !modelLoaded || output.None? then None
    else Some(Transcript(Strip(TextOr(output.value.text, "")), TextOr(output.value.language, "unknown"), "whisper"))
  }

  /** The OpenAI service's answer: a network failure, or a status and the JSON body's "text" (`None` when not JSON). */
  datatype ApiReply = NetworkError | Response(status: nat, body: Option<Option<string>>)

  /** `transcribe_audio_fallback_openai`: the transcript of a 200 JSON reply, `None` when anything raises. */
  function OpenAiFallback(audio: seq<Byte>, suffix: string, apiKey: string, converted: Option<seq<Byte>>, reply: ApiReply)
    : (r: Option<Transcript>)
    ensures r.Some? <==> OpenAiUpload(audio, suffix, apiKey, converted).Some? && reply.Response?
                         && reply.status == 200 && reply.body.Some?
    ensures r.Some? ==> r.value == Transcript(Strip(TextOr(reply.body.value, "")), "unknown", "openai")
  {
    if OpenAiUpload(audio, suffix, apiKey, converted).None? then None
    else
      match reply
      case NetworkError => None
      case Response(status, body) =>
        if status != 200 || body.None? then None
        else Some(Transcript(Strip(TextOr(body.value, "")), "unknown", "openai"))
  }

  // ---------------------------------------------------------------------------
  // transcribe_audio
  // ---------------------------------------------------------------------------

  /** `_debug_state` after a call: every entry is rewritten by each call. */
  datatype AsrDebug = AsrDebug(lastProvider: string, lastTranscriptWords: nat, lastFormat: string, lastFailed: bool)

  /**
   * `transcribe_audio`: local Whisper only. The result is re-tagged
   * "whisper_local"; a failure (`None`, a RuntimeError) is recorded as
   * "whisper_failed" with no words.
   */
  function TranscribeAudio(audio: seq<Byte>, suffix: string, converted: Option<seq<Byte>>,
                           modelLoaded: bool, output: Option<WhisperOutput>): (r: (Option<Transcript>, AsrDebug))
    ensures r.0.Some? <==> WhisperPrimary(audio, suffix, converted, modelLoaded, output).Some?
    ensures r.0.Some? ==> r.0.value.provider == "whisper_local"
                          && r.0.value.transcript == WhisperPrimary(audio, suffix, converted, modelLoaded, output).value.transcript
    ensures r.1.lastFormat == NormaliseSuffix(suffix)
    ensures r.1.lastFailed <==> r.0.None?
    ensures r.0.None? ==> r.1.lastProvider == "whisper_failed" && r.1.lastTranscriptWords == 0
    ensures r.0.Some? ==> r.1.lastProvider == "whisper_local" && r.1.lastTranscriptWords == |Words(r.0.value.transcript)|
  {
    var fmt := NormaliseSuffix(suffix);
    var w := WhisperPrimary(audio, suffix, converted, modelLoaded, output);
    if w.None? then (None, AsrDebug("whisper_failed", 0, fmt, true))
    else
      var tagged := w.value.(provider := "whisper_local");
      (Some(tagged), AsrDebug("whisper_local", |Words(tagged.transcript)|, fmt, false))
  }

  /** A recognised transcript carries no outer whitespace. */
  lemma TranscriptTrimmed(audio: seq<Byte>, suffix: string, converted: Option<seq<Byte>>,
                          modelLoaded: bool, output: Option<WhisperOutput>)
    requires TranscribeAudio(audio, suffix, converted, modelLoaded, output).0.Some?
    ensures var t := TranscribeAudio(audio, suffix, converted, modelLoaded, output).0.value.transcript;
            Strip(t) == t
  {
    var t := TranscribeAudio(audio, suffix, converted, modelLoaded, output).0.value.transcript;
    StripIdempotent(TextOr(output.value.text, ""));
  }

  // ---------------------------------------------------------------------------
  // The audio route's use of transcription
  // ---------------------------------------------------------------------------

  /** The transcription result as `process_audio` reads it. */
  function AsTranscription(t: Option<Transcript>): (r: Process.Transcription)
    ensures r.TranscriptionFailed? <==> t.None?
    ensures t.Some? ==> r.transcript == Some(t.value.transcript) && r.provider == Some(t.value.provider)
  {
    match t
    case None => Process.TranscriptionFailed
    case Some(x) => Process.Transcribed(Some(x.transcript), Some(x.provider))
  }

  /** The format recorded for an upload is its extension in lower case, with no '.' left in it. */
  lemma UploadFormatHasNoDot(filename: Option<string>)
    ensures '.' !in NormaliseSuffix(Process.UploadSuffix(filename))
  {
    DottedExtension(Process.UploadSuffix(filename));
  }

  /** One leading '.' and none after it: normalising leaves no '.'. */
  lemma DottedExtension(u: string)
    requires |u| >= 1 && u[0] == '.'
    requires forall j :: 1 <= j < |u| ==> u[j] != '.'
    ensures '.' !in NormaliseSuffix(u)
  {
    var tail := u[1..];
    assert DropLeading(u, '.') == DropLeading(tail, '.');
    assert |tail| == 0 || tail[0] != '.';
    assert DropLeading(tail, '.') == tail;
    var r := Lower(tail);
    forall j | 0 <= j < |r|
      ensures r[j] != '.'
    {
      assert tail[j] == u[j + 1];
      assert r[j] == LowerChar(tail[j]);
    }
  }

  /**
   * Audio that reaches the pipeline carries the Whisper transcript and the
   * provider "whisper_local": the route's "openai" default is never used.
   */
  lemma ProcessedAudioIsWhisperLocal(audio: seq<Byte>, filename: Option<string>, converted: Option<seq<Byte>>,
                                     modelLoaded: bool, output: Option<WhisperOutput>)
    ensures var t := TranscribeAudio(audio, Process.UploadSuffix(filename), converted, modelLoaded, output).0;
            var call := Process.ProcessAudio(audio, AsTranscription(t)).0;
            call.Ok? ==> t.Some? && call.value.provider == "whisper_local" && call.value.transcript == t.value.transcript
  {
    var t := TranscribeAudio(audio, Process.UploadSuffix(filename), converted, modelLoaded, output).0;
    if t.Some? {
      TranscriptTrimmed(audio, Process.UploadSuffix(filename), converted, modelLoaded, output);
    }
  }
}
