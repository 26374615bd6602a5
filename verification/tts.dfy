/**
 * Speech synthesis with fallbacks (`services/tts_provider.py`): the enrolled
 * ElevenLabs voice, then the system engine (espeak-ng), then edge-tts.
 *
 * The engines themselves are not modelled. What each produced is an input
 * (`None` when it raised), and the model states which engines are called, in
 * which order, with which voice and text, and what is reported.
 */
module Tts {
  import opened Base
  import opened Text

  // ---------------------------------------------------------------------------
  // Edge voices
  // ---------------------------------------------------------------------------

  /** The female and the male edge-tts voice of one language. */
  datatype VoicePair = VoicePair(female: string, male: string)

  const UsVoices: VoicePair := VoicePair("en-US-JennyNeural", "en-US-GuyNeural")

  /** One entry of `_EDGE_VOICE_MAP`. */
  datatype Entry = Entry(key: string, voices: VoicePair)

  /** `_EDGE_VOICE_MAP`, in its order. */
  const EdgeTable: seq<Entry> := [
    Entry("en", UsVoices),
    Entry("en-US", UsVoices),
    Entry("en-GB", VoicePair("en-GB-SoniaNeural", "en-GB-RyanNeural")),
    Entry("en-IN", VoicePair("en-IN-NeerjaNeural", "en-IN-PrabhatNeural")),
    Entry("ta", VoicePair("ta-IN-PallaviNeural", "ta-IN-ValluvarNeural")),
    Entry("ta-IN", VoicePair("ta-IN-PallaviNeural", "ta-IN-ValluvarNeural")),
    Entry("ml", VoicePair("ml-IN-SobhanaNeural", "ml-IN-MidhunNeural")),
    Entry("ml-IN", VoicePair("ml-IN-SobhanaNeural", "ml-IN-MidhunNeural")),
    Entry("hi", VoicePair("hi-IN-SwaraNeural", "hi-IN-MadhurNeural")),
    Entry("hi-IN", VoicePair("hi-IN-SwaraNeural", "hi-IN-MadhurNeural"))
  ]

  /**
   * The voices of the first entry whose key, passed through `norm`, is
   * `lang`. With the identity this is `_EDGE_VOICE_MAP.get(lang)`.
   */
  function Lookup(table: seq<Entry>, lang: string, norm: string -> string): (r: Option<VoicePair>)
    ensures r.None? <==> forall k :: 0 <= k < |table| ==> norm(table[k].key) != lang
    ensures r.Some? ==> exists k :: 0 <= k < |table| && norm(table[k].key) == lang && r.value == table[k].voices
  {
    if |table| == 0 then None
    else if norm(table[0].key) == lang then Some(table[0].voices)
    else
      var r := Lookup(table[1..], lang, norm);
      assert forall k :: 1 <= k < |table| ==> table[k] == table[1..][k - 1];
      r
  }

  /** A voice that some entry of the map holds. */
  predicate IsEdgeVoice(v: string) {
    exists k :: 0 <= k < |EdgeTable| && (v == EdgeTable[k].voices.female || v == EdgeTable[k].voices.male)
  }

  function Exact(key: string): string {
    key
  }

  /** `lang.split("-")[0]`: the language without its region. */
  function BaseLanguage(lang: string): string {
    Split(lang, '-')[0]
  }

  /** The voice of a pair for a gender: the male voice for "male", the female voice for anything else. */
  function VoiceFor(voices: VoicePair, gen: string): (r: string)
    ensures gen == "male" ==> r == voices.male
    ensures gen != "male" ==> r == voices.female
  {
    if gen == "male" then voices.male else voices.female
  }

  /** The voices for a language: its own, else its base language's, else those of "en". */
  function LanguageVoices(lang: string, norm: string -> string): (r: VoicePair)
    ensures exists k :: 0 <= k < |EdgeTable| && r == EdgeTable[k].voices
    ensures Lookup(EdgeTable, lang, norm).Some? ==> r == Lookup(EdgeTable, lang, norm).value
    ensures Lookup(EdgeTable, lang, norm).None? && Lookup(EdgeTable, BaseLanguage(lang), norm).None? ==> r == UsVoices
  {
    match Lookup(EdgeTable, lang, norm)
    case Some(v) => v
    case None =>
      match Lookup(EdgeTable, BaseLanguage(lang), norm)
      case Some(v) => v
      case None =>
        assert EdgeTable[0].voices == UsVoices;
        UsVoices
  }

  /**
   * `_resolve_edge_voice` as written: the language is lowered before an exact
   * lookup, so the keys with a region ("en-GB", "ta-IN", ...) never match and
   * a regional language gets the voices of its base language, or of "en".
   */
  function ResolveEdgeVoiceAsWritten(language: string, gender: string): (r: string)
    ensures IsEdgeVoice(r)
  {
    VoiceFor(LanguageVoices(Strip(Lower(language)), Exact), Strip(Lower(gender)))
  }

  /** British English gets the American voice, although the map has British voices. */
  lemma BritishGetsAmericanVoice()
    ensures EdgeTable[2] == Entry("en-GB", VoicePair("en-GB-SoniaNeural", "en-GB-RyanNeural"))
    ensures ResolveEdgeVoiceAsWritten("en-GB", "female") == "en-US-JennyNeural"
  {
    BritishEntry();
    BritishResolved();
  }

  lemma BritishResolved()
    ensures ResolveEdgeVoiceAsWritten("en-GB", "female") == "en-US-JennyNeural"
  {
    LowerOfLiteral();
    EnGbGetsUsVoices();
    UsFemale();
  }

  lemma UsFemale()
    ensures VoiceFor(UsVoices, "female") == "en-US-JennyNeural"
  {
    assert "female"[0] != "male"[0];
  }

  lemma BritishEntry()
    ensures EdgeTable[2] == Entry("en-GB", VoicePair("en-GB-SoniaNeural", "en-GB-RyanNeural"))
  {
  }

  lemma EnGbGetsUsVoices()
    ensures LanguageVoices("en-gb", Exact) == UsVoices
  {
    NoExactEnGb();
    BaseOfEnGb();
    EnFound();
  }

  lemma EnFound()
    ensures Lookup(EdgeTable, "en", Exact) == Some(UsVoices)
  {
    assert Exact(EdgeTable[0].key) == "en";
  }

  lemma LowerOfLiteral()
    ensures Strip(Lower("en-GB")) == "en-gb" && Strip(Lower("female")) == "female"
  {
    LowerEnGb();
    LowerFemale();
  }

  lemma LowerEnGb()
    ensures Strip(Lower("en-GB")) == "en-gb"
  {
    var l := Lower("en-GB");
    assert l[0] == 'e' && l[1] == 'n' && l[2] == '-' && l[3] == 'g' && l[4] == 'b';
    assert l == "en-gb";
    StripOfTrimmed(l);
  }

  lemma LowerFemale()
    ensures Strip(Lower("female")) == "female"
  {
    var l := Lower("female");
    assert l[0] == 'f' && l[1] == 'e' && l[2] == 'm' && l[3] == 'a' && l[4] == 'l' && l[5] == 'e';
    assert l == "female";
    StripOfTrimmed(l);
  }

  lemma NoExactEnGb()
    ensures Lookup(EdgeTable, "en-gb", Exact).None?
  {
    forall k | 0 <= k < |EdgeTable|
      ensures Exact(EdgeTable[k].key) != "en-gb"
    {
      KeyShape(k);
      assert "en-gb"[3] == 'g';
    }
  }

  /** Every key is a two-letter language, or one with an upper-case region. */
  lemma KeyShape(k: nat)
    requires k < |EdgeTable|
    ensures var key := EdgeTable[k].key;
      |key| == 2 || (|key| == 5 && key[2] == '-' && 'A' <= key[3] <= 'Z')
  {
    var key := EdgeTable[k].key;
    if k == 0 { assert key == "en"; }
    else if k == 1 { assert key == "en-US"; }
    else if k == 2 { assert key == "en-GB"; }
    else if k == 3 { assert key == "en-IN"; }
    else if k == 4 { assert key == "ta"; }
    else if k == 5 { assert key == "ta-IN"; }
    else if k == 6 { assert key == "ml"; }
    else if k == 7 { assert key == "ml-IN"; }
    else if k == 8 { assert key == "hi"; }
    else { assert key == "hi-IN"; }
  }

  lemma BaseOfEnGb()
    ensures BaseLanguage("en-gb") == "en"
  {
    SplitStep("en", '-', "gb");
    assert "en-gb" == "en" + ['-'] + "gb";
  }

  /**
   * `_resolve_edge_voice` with its lookup corrected to ignore case, as the
   * mixed-case keys of the map evidently intend. The base language and then
   * "en" remain the fallbacks, and any gender but "male" is female.
   */
  function ResolveEdgeVoice(language: string, gender: string): (r: string)
    ensures IsEdgeVoice(r)
    ensures Lookup(EdgeTable, Strip(Lower(language)), Lower).None?
            && Lookup(EdgeTable, BaseLanguage(Strip(Lower(language))), Lower).None?
            ==> r == VoiceFor(UsVoices, Strip(Lower(gender)))
  {
    VoiceFor(LanguageVoices(Strip(Lower(language)), Lower), Strip(Lower(gender)))
  }

  /** Every entry of the map is reachable: a key, in any case, gets its own voices. */
  lemma EveryKeyReachable(k: nat, gender: string)
    requires k < |EdgeTable|
    ensures ResolveEdgeVoice(EdgeTable[k].key, gender) == VoiceFor(EdgeTable[k].voices, Strip(Lower(gender)))
  {
    KeyTrimmed(k);
    KeyLookup(k);
  }

  lemma KeyTrimmed(k: nat)
    requires k < |EdgeTable|
    ensures Strip(Lower(EdgeTable[k].key)) == Lower(EdgeTable[k].key)
  {
    KeyShape(k);
    StripOfTrimmed(Lower(EdgeTable[k].key));
  }

  /** The case-insensitive lookup of a key's lowered form finds that key's voices. */
  lemma KeyLookup(k: nat)
    requires k < |EdgeTable|
    ensures Lookup(EdgeTable, Lower(EdgeTable[k].key), Lower) == Some(EdgeTable[k].voices)
  {
    var r := Lookup(EdgeTable, Lower(EdgeTable[k].key), Lower);
    assert r.Some?;
    var j :| 0 <= j < |EdgeTable| && Lower(EdgeTable[j].key) == Lower(EdgeTable[k].key) && r.value == EdgeTable[j].voices;
    FirstMatch(k, j);
  }

  /** Keys that are equal in lower case hold the same voices. */
  lemma FirstMatch(k: nat, j: nat)
    requires k < |EdgeTable| && j < |EdgeTable|
    requires Lower(EdgeTable[j].key) == Lower(EdgeTable[k].key)
    ensures EdgeTable[j].voices == EdgeTable[k].voices
  {
    var a := EdgeTable[j].key;
    var b := EdgeTable[k].key;
    assert |a| == |b|;
    assert LowerChar(a[0]) == LowerChar(b[0]);
    if |a| == 5 {
      assert LowerChar(a[3]) == LowerChar(b[3]);
    }
  }

  /** Lower-casing the language first changes nothing. */
  lemma ResolveIgnoresCase(language: string, gender: string)
    ensures ResolveEdgeVoice(Lower(language), gender) == ResolveEdgeVoice(language, gender)
    ensures ResolveEdgeVoiceAsWritten(Lower(language), gender) == ResolveEdgeVoiceAsWritten(language, gender)
  {
    LowerIdempotent(language);
  }

  // ---------------------------------------------------------------------------
  // System engine
  // ---------------------------------------------------------------------------

  predicate EndsInStop(s: string) {
    |s| > 0 && (s[|s| - 1] == '.' || s[|s| - 1] == '!' || s[|s| - 1] == '?')
  }

  /** The text given to espeak-ng: a non-empty text gets a closing '.' unless it already ends a sentence. */
  function Punctuated(text: string): (r: string)
    ensures text == "" <==> r == ""
    ensures text != "" ==> EndsInStop(RStrip(r))
    ensures EndsInStop(RStrip(text)) ==> r == text
    ensures !EndsInStop(RStrip(text)) && text != "" ==> r == RStrip(text) + "."
  {
    if text != "" && !EndsInStop(RStrip(text)) then
      var r := RStrip(text) + ".";
      RStripOfNonSpace(r);
      r
    else text
  }

  /** Punctuating twice is punctuating once. */
  lemma PunctuatedIdempotent(text: string)
    ensures Punctuated(Punctuated(text)) == Punctuated(text)
  {
  }

  /** The espeak-ng voice: the f4 variant for a female voice, the m4 variant otherwise. */
  function EspeakVoice(gender: string): (r: string)
    ensures r == "en-us+f4" <==> Lower(gender) == "female"
    ensures r == "en-us+f4" || r == "en-us+m4"
  {
    if Lower(gender) == "female" then "en-us+f4" else "en-us+m4"
  }

  /** What `_system_tts_synthesize` asks espeak-ng for. */
  datatype EspeakCall = EspeakCall(voice: string, text: string)

  function SystemCall(text: string, gender: string): (r: EspeakCall)
    ensures r.voice == EspeakVoice(gender) && r.text == Punctuated(text)
  {
    EspeakCall(EspeakVoice(gender), Punctuated(text))
  }

  // ---------------------------------------------------------------------------
  // synthesize_speech
  // ---------------------------------------------------------------------------

  datatype Provider = ElevenLabsClone | SystemTts | EdgeTts {
    function Name(): string {
      match this
      case ElevenLabsClone => "elevenlabs_clone"
      case SystemTts => "system_tts"
      case EdgeTts => "edge_tts"
    }
  }

  /** The audio, the engine that made it, and the voice name reported. */
  datatype Speech = Speech(audio: seq<Byte>, provider: Provider, voiceName: string)

  /** What each engine produced when called; `None` when it raised. */
  datatype Engines = Engines(clone: Option<seq<Byte>>, system: Option<seq<Byte>>, edge: Option<seq<Byte>>)

  /** The synthesis (`None` when every engine failed: RuntimeError) and the engines called, in order. */
  datatype Synthesis = Synthesis(speech: Option<Speech>, called: seq<Provider>)

  /**
   * The enrolled voice id: for a non-empty user name, the registry entry
   * under the lowered name, when the registry loaded and the entry is not
   * empty.
   */
  function EnrolledVoice(userName: Option<string>, registry: Option<map<string, string>>): (r: Option<string>)
    ensures r.Some? <==> userName.Some? && userName.value != "" && registry.Some?
                         && Lower(userName.value) in registry.value && registry.value[Lower(userName.value)] != ""
    ensures r.Some? ==> r.value == registry.value[Lower(userName.value)]
  {
    if userName.Some? && userName.value != "" && registry.Some? && Lower(userName.value) in registry.value
       && registry.value[Lower(userName.value)] != ""
    then Some(registry.value[Lower(userName.value)])
    else None
  }

  /** The orders in which engines can be called. */
  predicate IsCallOrder(called: seq<Provider>) {
    called == [ElevenLabsClone] || called == [ElevenLabsClone, SystemTts] || called == [ElevenLabsClone, SystemTts, EdgeTts]
    || called == [SystemTts] || called == [SystemTts, EdgeTts]
  }

  /** The system engine, then edge-tts: what follows when the clone was not used or failed. */
  function LocalEngines(language: string, gender: string, engines: Engines): (r: Synthesis)
    ensures r.called == (if engines.system.Some? then [SystemTts] else [SystemTts, EdgeTts])
    ensures r.speech.None? <==> engines.system.None? && engines.edge.None?
    ensures r.speech.Some? ==> r.speech.value.provider == r.called[|r.called| - 1]
    ensures r.speech.Some? && r.speech.value.provider == SystemTts ==>
              r.speech.value.voiceName == "system/" + language + "/" + gender && Some(r.speech.value.audio) == engines.system
    ensures r.speech.Some? && r.speech.value.provider == EdgeTts ==>
              r.speech.value.voiceName == ResolveEdgeVoice(language, gender) && Some(r.speech.value.audio) == engines.edge
  {
    if engines.system.Some? then
      Synthesis(Some(Speech(engines.system.value, SystemTts, "system/" + language + "/" + gender)), [SystemTts])
    else if engines.edge.Some? then
      Synthesis(Some(Speech(engines.edge.value, EdgeTts, ResolveEdgeVoice(language, gender))), [SystemTts, EdgeTts])
    else
      Synthesis(None, [SystemTts, EdgeTts])
  }

  /** The ElevenLabs engine is called only for an enrolled voice and a non-blank API key. */
  predicate CloneCalled(userName: Option<string>, registry: Option<map<string, string>>, apiKey: string) {
    EnrolledVoice(userName, registry).Some? && |Strip(apiKey)| > 0
  }

  /**
   * `synthesize_speech`. Without the API key the ElevenLabs step raises
   * before any request; every failure moves on to the next engine, and when
   * all have failed the result is the RuntimeError (`None`).
   */
  function SynthesizeSpeech(text: string, userName: Option<string>, language: string, gender: string,
                            registry: Option<map<string, string>>, apiKey: string, engines: Engines): (r: Synthesis)
    ensures IsCallOrder(r.called)
    ensures r.called[0] == ElevenLabsClone <==> CloneCalled(userName, registry, apiKey)
    ensures r.speech.Some? ==> r.speech.value.provider == r.called[|r.called| - 1]
    ensures r.speech.None? <==> (engines.system.None? && engines.edge.None?
                                 && (CloneCalled(userName, registry, apiKey) ==> engines.clone.None?))
    ensures r.speech.Some? && r.speech.value.provider == ElevenLabsClone ==>
              r.speech.value.voiceName == userName.value + "/" + EnrolledVoice(userName, registry).value
              && Some(r.speech.value.audio) == engines.clone
    ensures r.speech.Some? && r.speech.value.provider != ElevenLabsClone ==>
              r.speech == LocalEngines(language, gender, engines).speech
  {
    var tried := CloneCalled(userName, registry, apiKey);
    if tried && engines.clone.Some? then
      var voice := EnrolledVoice(userName, registry).value;
      Synthesis(Some(Speech(engines.clone.value, ElevenLabsClone, userName.value + "/" + voice)), [ElevenLabsClone])
    else
      AfterClone(tried, LocalEngines(language, gender, engines))
  }

  /** The local engines' outcome, after a failed clone attempt when one was made. */
  function AfterClone(tried: bool, local: Synthesis): (r: Synthesis)
    requires local.called == [SystemTts] || local.called == [SystemTts, EdgeTts]
    requires local.speech.Some? ==> local.speech.value.provider == local.called[|local.called| - 1]
    ensures IsCallOrder(r.called) && r.speech == local.speech
    ensures r.called[0] == ElevenLabsClone <==> tried
    ensures r.called[|r.called| - 1] == local.called[|local.called| - 1]
  {
    Synthesis(local.speech, if tried then [ElevenLabsClone] + local.called else local.called)
  }

  /** Without a user name the clone is never tried, and the system engine goes first. */
  lemma NoUserStartsWithSystem(text: string, language: string, gender: string,
                               registry: Option<map<string, string>>, apiKey: string, engines: Engines)
    ensures SynthesizeSpeech(text, None, language, gender, registry, apiKey, engines).called[0] == SystemTts
  {
  }

  /** A working system engine always answers when the clone is not used. */
  lemma SystemWins(text: string, userName: Option<string>, language: string, gender: string,
                   registry: Option<map<string, string>>, apiKey: string, engines: Engines)
    requires engines.system.Some?
    ensures var r := SynthesizeSpeech(text, userName, language, gender, registry, apiKey, engines);
            r.speech.Some? && (r.speech.value.provider == ElevenLabsClone || r.speech.value.provider == SystemTts)
  {
  }
}
