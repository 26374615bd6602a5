/**
 * Settings read from the environment (`config.py`): the CORS origin list, the
 * boolean flags, the trimmed keys and voice ids, and the two voice-id rules.
 *
 * The environment is a map from variable names to values; `load_dotenv` and
 * the process environment are not modelled.
 */
module Config {
  import opened Text

  type Env = map<string, string>

  /** `os.getenv(key, default)`. */
  function Getenv(env: Env, key: string, default: string): (r: string)
    ensures key in env ==> r == env[key]
    ensures key !in env ==> r == default
  {
    if key in env then env[key] else default
  }

  // ---------------------------------------------------------------------------
  // CORS origins
  // ---------------------------------------------------------------------------

  /** The non-empty entries, in order. */
  function NonEmpty(xs: seq<string>): (r: seq<string>)
    ensures |r| <= |xs|
  {
    if |xs| == 0 then []
    else if xs[0] == "" then NonEmpty(xs[1..])
    else [xs[0]] + NonEmpty(xs[1..])
  }

  /** An entry survives exactly when it is non-empty and present. */
  lemma {:induction false} NonEmptyMembers(xs: seq<string>, x: string)
    ensures x in NonEmpty(xs) <==> x != "" && x in xs
  {
    if |xs| > 0 {
      NonEmptyMembers(xs[1..], x);
      assert xs == [xs[0]] + xs[1..];
    }
  }

  /** Dropping empties is done entry by entry, so it distributes over concatenation. */
  lemma {:induction false} NonEmptyAppend(a: seq<string>, b: seq<string>)
    ensures NonEmpty(a + b) == NonEmpty(a) + NonEmpty(b)
  {
    if |a| == 0 {
      assert a + b == b;
    } else {
      assert (a + b)[0] == a[0];
      assert (a + b)[1..] == a[1..] + b;
      NonEmptyAppend(a[1..], b);
    }
  }

  /** A list without empty entries is kept whole. */
  lemma {:induction false} NonEmptyOfFull(xs: seq<string>)
    requires forall k :: 0 <= k < |xs| ==> xs[k] != ""
    ensures NonEmpty(xs) == xs
  {
    if |xs| > 0 {
      NonEmptyOfFull(xs[1..]);
    }
  }

  /** Each part stripped, the empty ones dropped, the order kept. */
  function KeptEntries(parts: seq<string>): (r: seq<string>)
    ensures |r| <= |parts|
    ensures forall k :: 0 <= k < |r| ==> r[k] != "" && Strip(r[k]) == r[k]
  {
    var stripped := StripAll(parts);
    var r := NonEmpty(stripped);
    forall k | 0 <= k < |r|
      ensures r[k] != "" && Strip(r[k]) == r[k]
    {
      NonEmptyMembers(stripped, r[k]);
      var i :| 0 <= i < |stripped| && stripped[i] == r[k];
      StripIdempotent(parts[i]);
    }
    r
  }

  /** An entry is kept exactly when it is the non-empty strip of some part. */
  lemma KeptEntriesMembers(parts: seq<string>, x: string)
    ensures x in KeptEntries(parts) <==> x != "" && exists p :: p in parts && Strip(p) == x
  {
    var stripped := StripAll(parts);
    NonEmptyMembers(stripped, x);
    if x in stripped {
      var i :| 0 <= i < |stripped| && stripped[i] == x;
      assert parts[i] in parts;
    }
    if exists p :: p in parts && Strip(p) == x {
      var p :| p in parts && Strip(p) == x;
      var i :| 0 <= i < |parts| && parts[i] == p;
      assert stripped[i] == x;
    }
  }

  /** Filtering is done part by part, so it distributes over concatenation and keeps order. */
  lemma KeptEntriesAppend(a: seq<string>, b: seq<string>)
    ensures KeptEntries(a + b) == KeptEntries(a) + KeptEntries(b)
  {
    StripAllAppend(a, b);
    NonEmptyAppend(StripAll(a), StripAll(b));
  }

  lemma {:induction false} StripAllAppend(a: seq<string>, b: seq<string>)
    ensures StripAll(a + b) == StripAll(a) + StripAll(b)
  {
    if |a| == 0 {
      assert a + b == b;
    } else {
      assert (a + b)[0] == a[0];
      assert (a + b)[1..] == a[1..] + b;
      StripAllAppend(a[1..], b);
    }
  }

  /** Parts that are already clean are all kept, unchanged. */
  lemma KeptEntriesOfClean(parts: seq<string>)
    requires forall k :: 0 <= k < |parts| ==> parts[k] != "" && Strip(parts[k]) == parts[k]
    ensures KeptEntries(parts) == parts
  {
    assert StripAll(parts) == parts;
    NonEmptyOfFull(parts);
  }

  /** Stripping only removes characters, so a character absent from a part is absent from its strip. */
  lemma StripKeepsOut(p: string, c: char)
    requires c !in p
    ensures c !in Strip(p)
  {
    var l := LStrip(p);
    var r := RStrip(l);
    assert r == Strip(p);
    forall j | 0 <= j < |r|
      ensures r[j] != c
    {
      assert r[j] == l[j] == p[|p| - |l| + j];
    }
  }

  /** `Settings.cors_origins`: CORS_ORIGINS (default "*") split on commas, trimmed, empties dropped. */
  function CorsOrigins(env: Env): (r: seq<string>)
    ensures forall k :: 0 <= k < |r| ==> r[k] != "" && ',' !in r[k]
  {
    var parts := Split(Getenv(env, "CORS_ORIGINS", "*"), ',');
    KeptEntriesKeepOut(parts, ',');
    KeptEntries(parts)
  }

  /** A character no part contains is in no kept entry. */
  lemma KeptEntriesKeepOut(parts: seq<string>, c: char)
    requires forall k :: 0 <= k < |parts| ==> c !in parts[k]
    ensures forall k :: 0 <= k < |KeptEntries(parts)| ==> c !in KeptEntries(parts)[k]
  {
    var stripped := StripAll(parts);
    var r := KeptEntries(parts);
    forall k | 0 <= k < |r|
      ensures c !in r[k]
    {
      NonEmptyMembers(stripped, r[k]);
      var i :| 0 <= i < |stripped| && stripped[i] == r[k];
      StripKeepsOut(parts[i], c);
    }
  }

  /** With CORS_ORIGINS unset every origin is allowed. */
  lemma CorsDefault(env: Env)
    requires "CORS_ORIGINS" !in env
    ensures CorsOrigins(env) == ["*"]
  {
    assert Find("*", ',') == -1;
    StripOfTrimmed("*");
  }

  /** Set but blank, it allows no origin at all: the wildcard is only the default. */
  lemma CorsBlank(env: Env)
    requires "CORS_ORIGINS" in env && AllSpace(env["CORS_ORIGINS"]) && ',' !in env["CORS_ORIGINS"]
    ensures CorsOrigins(env) == []
  {
    var v := env["CORS_ORIGINS"];
    assert Find(v, ',') == -1;
    StripIsSlice(v);
  }

  /** A comma-joined list of clean origins reads back as the same list. */
  lemma CorsRoundTrip(env: Env, origins: seq<string>)
    requires |origins| >= 1
    requires forall k :: 0 <= k < |origins| ==> origins[k] != "" && Strip(origins[k]) == origins[k] && ',' !in origins[k]
    requires "CORS_ORIGINS" in env && env["CORS_ORIGINS"] == Join([','], origins)
    ensures CorsOrigins(env) == origins
  {
    SplitJoin(origins, ',');
    KeptEntriesOfClean(origins);
  }

  // ---------------------------------------------------------------------------
  // Flags
  // ---------------------------------------------------------------------------

  /** `os.getenv(key, default).lower() in ("1", "true", "yes")`. */
  function Flag(env: Env, key: string, default: string): (r: bool)
    ensures r ==> |Getenv(env, key, default)| in {1, 3, 4}
  {
    Lower(Getenv(env, key, default)) in {"1", "true", "yes"}
  }

  function EnterpriseMode(env: Env): bool {
    Flag(env, "ENTERPRISE_MODE", "true")
  }

  function OpenAiAsrFallback(env: Env): bool {
    Flag(env, "OPENAI_ASR_FALLBACK", "false")
  }

  /** Enterprise mode is on and the OpenAI fallback off unless the environment says otherwise. */
  lemma FlagDefaults(env: Env)
    requires "ENTERPRISE_MODE" !in env && "OPENAI_ASR_FALLBACK" !in env
    ensures EnterpriseMode(env) && !OpenAiAsrFallback(env)
  {
    var t := Lower("true");
    assert t[0] == 't' && t[1] == 'r' && t[2] == 'u' && t[3] == 'e';
    assert t == "true";
    var f := Lower("false");
    assert |f| == 5;
  }

  /** A flag's value is read without regard to case. */
  lemma FlagCaseless(env: Env, key: string, default: string, v: string)
    ensures Flag(env[key := v], key, default) == Flag(env[key := Lower(v)], key, default)
  {
    LowerIdempotent(v);
  }

  /** It is not trimmed: surrounding blanks turn a flag off. */
  lemma FlagNotTrimmed(env: Env, key: string, default: string, v: string)
    requires |v| > 0 && IsSpace(v[0])
    ensures !Flag(env[key := v], key, default)
  {
    var l := Lower(v);
    assert IsSpace(l[0]);
  }

  // ---------------------------------------------------------------------------
  // Settings and voice ids
  // ---------------------------------------------------------------------------

  /** The fields of `Settings` that the rest of the backend reads. */
  datatype Settings = Settings(
    corsOrigins: seq<string>,
    enterpriseMode: bool,
    groqApiKey: string,
    openaiApiKey: string,
    openaiAsrFallback: bool,
    openaiAsrModel: string,
    elevenlabsApiKey: string,
    femaleVoiceId: string,
    maleVoiceId: string,
    defaultGender: string)

  /** A value without outer whitespace. */
  predicate Trimmed(s: string) {
    Strip(s) == s
  }

  lemma StrippedIsTrimmed(s: string)
    ensures Trimmed(Strip(s))
  {
    StripIdempotent(s);
  }

  /** Lowering keeps a value trimmed: no blank is a capital letter. */
  lemma LowerKeepsTrimmed(s: string)
    requires Trimmed(s)
    ensures Trimmed(Lower(s))
  {
    var l := Lower(s);
    if |s| > 0 {
      assert !IsSpace(Strip(s)[0]) && !IsSpace(Strip(s)[|s| - 1]);
      assert !IsSpace(l[0]) && !IsSpace(l[|l| - 1]);
    }
    StripOfTrimmed(l);
  }

  /** `Settings()`: reads the environment once. */
  function LoadSettings(env: Env): (s: Settings)
    ensures s.corsOrigins == CorsOrigins(env)
    ensures Trimmed(s.groqApiKey) && Trimmed(s.openaiApiKey) && Trimmed(s.openaiAsrModel) && Trimmed(s.elevenlabsApiKey)
    ensures Trimmed(s.femaleVoiceId) && Trimmed(s.maleVoiceId)
    ensures Trimmed(s.defaultGender) && Lower(s.defaultGender) == s.defaultGender
    ensures "ELEVENLABS_DEFAULT_GENDER" !in env ==> s.defaultGender == "female"
    ensures s.enterpriseMode == Flag(env, "ENTERPRISE_MODE", "true")
    ensures s.openaiAsrFallback == Flag(env, "OPENAI_ASR_FALLBACK", "false")
    ensures s.groqApiKey == Strip(Getenv(env, "GROQ_API_KEY", ""))
    ensures s.openaiApiKey == Strip(Getenv(env, "OPENAI_API_KEY", ""))
    ensures s.openaiAsrModel == Strip(Getenv(env, "OPENAI_ASR_MODEL", "gpt-4o-mini-transcribe"))
    ensures s.elevenlabsApiKey == Strip(Getenv(env, "ELEVENLABS_API_KEY", ""))
    ensures s.femaleVoiceId == Strip(Getenv(env, "ELEVENLABS_FEMALE_VOICE_ID", ""))
    ensures s.maleVoiceId == Strip(Getenv(env, "ELEVENLABS_MALE_VOICE_ID", ""))
    ensures s.defaultGender == Lower(Strip(Getenv(env, "ELEVENLABS_DEFAULT_GENDER", "female")))
  {
    var s := Settings(
      CorsOrigins(env),
      EnterpriseMode(env),
      Strip(Getenv(env, "GROQ_API_KEY", "")),
      Strip(Getenv(env, "OPENAI_API_KEY", "")),
      OpenAiAsrFallback(env),
      Strip(Getenv(env, "OPENAI_ASR_MODEL", "gpt-4o-mini-transcribe")),
      Strip(Getenv(env, "ELEVENLABS_API_KEY", "")),
      Strip(Getenv(env, "ELEVENLABS_FEMALE_VOICE_ID", "")),
      Strip(Getenv(env, "ELEVENLABS_MALE_VOICE_ID", "")),
      Lower(Strip(Getenv(env, "ELEVENLABS_DEFAULT_GENDER", "female"))));
    ReadFieldsTrimmed(s, env);
    s
  }

  /** Every value read with `.strip()` is trimmed, and the gender is also lower-case. */
  lemma ReadFieldsTrimmed(s: Settings, env: Env)
    requires s.groqApiKey == Strip(Getenv(env, "GROQ_API_KEY", ""))
    requires s.openaiApiKey == Strip(Getenv(env, "OPENAI_API_KEY", ""))
    requires s.openaiAsrModel == Strip(Getenv(env, "OPENAI_ASR_MODEL", "gpt-4o-mini-transcribe"))
    requires s.elevenlabsApiKey == Strip(Getenv(env, "ELEVENLABS_API_KEY", ""))
    requires s.femaleVoiceId == Strip(Getenv(env, "ELEVENLABS_FEMALE_VOICE_ID", ""))
    requires s.maleVoiceId == Strip(Getenv(env, "ELEVENLABS_MALE_VOICE_ID", ""))
    requires s.defaultGender == Lower(Strip(Getenv(env, "ELEVENLABS_DEFAULT_GENDER", "female")))
    ensures Trimmed(s.groqApiKey) && Trimmed(s.openaiApiKey) && Trimmed(s.openaiAsrModel) && Trimmed(s.elevenlabsApiKey)
    ensures Trimmed(s.femaleVoiceId) && Trimmed(s.maleVoiceId)
    ensures Trimmed(s.defaultGender) && Lower(s.defaultGender) == s.defaultGender
    ensures "ELEVENLABS_DEFAULT_GENDER" !in env ==> s.defaultGender == "female"
  {
    StrippedIsTrimmed(Getenv(env, "ELEVENLABS_DEFAULT_GENDER", "female"));
    LowerKeepsTrimmed(Strip(Getenv(env, "ELEVENLABS_DEFAULT_GENDER", "female")));
    LowerIdempotent(Strip(Getenv(env, "ELEVENLABS_DEFAULT_GENDER", "female")));
    StrippedIsTrimmed(Getenv(env, "GROQ_API_KEY", ""));
    StrippedIsTrimmed(Getenv(env, "OPENAI_API_KEY", ""));
    StrippedIsTrimmed(Getenv(env, "OPENAI_ASR_MODEL", "gpt-4o-mini-transcribe"));
    StrippedIsTrimmed(Getenv(env, "ELEVENLABS_API_KEY", ""));
    StrippedIsTrimmed(Getenv(env, "ELEVENLABS_FEMALE_VOICE_ID", ""));
    StrippedIsTrimmed(Getenv(env, "ELEVENLABS_MALE_VOICE_ID", ""));
    DefaultGenderLiteral();
  }

  lemma DefaultGenderLiteral()
    ensures Lower(Strip("female")) == "female"
  {
    StripOfTrimmed("female");
    var l := Lower("female");
    assert l[0] == 'f' && l[1] == 'e' && l[2] == 'm' && l[3] == 'a' && l[4] == 'l' && l[5] == 'e';
  }

  /** `get_voice_id_for_gender`: the male id for "male" in any case, the female id for anything else. */
  function VoiceIdForGender(s: Settings, gender: string): (r: string)
    ensures r == s.maleVoiceId || r == s.femaleVoiceId
    ensures Lower(gender) == "male" ==> r == s.maleVoiceId
    ensures Lower(gender) != "male" ==> r == s.femaleVoiceId
  {
    if Lower(gender) == "male" then s.maleVoiceId else s.femaleVoiceId
  }

  /** `get_default_voice_id`: the configured default gender's voice. */
  function DefaultVoiceId(s: Settings): (r: string)
    ensures r == s.maleVoiceId || r == s.femaleVoiceId
  {
    if s.defaultGender == "male" then s.maleVoiceId else s.femaleVoiceId
  }

  /** The two rules agree: the default voice is the voice for the default gender. */
  lemma DefaultVoiceIsGenderVoice(env: Env)
    ensures var s := LoadSettings(env);
            DefaultVoiceId(s) == VoiceIdForGender(s, s.defaultGender)
  {
  }

  /** The gender argument is not trimmed: " male" is answered with the female voice. */
  lemma GenderNotTrimmed(s: Settings, gender: string)
    requires |gender| > 0 && IsSpace(gender[0])
    ensures VoiceIdForGender(s, gender) == s.femaleVoiceId
  {
    var l := Lower(gender);
    assert IsSpace(l[0]);
  }
}
