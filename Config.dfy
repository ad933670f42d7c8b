/** `get_settings` of app/config.py as a function of the process environment: every
    setting is read from its variable or takes its default; the data-store URL and key
    are required, integer variables go through `int(...)`, boolean flags accept
    "1", "true" and "yes" in any case, and the speech chunk size is capped for the
    Inworld provider. Loading `.env` files and the `lru_cache` memoisation are outside
    the model. */
module Config {
  import opened Wrappers
  import opened Text
  import opened Seqs
  import Url

  /** The environment variables `get_settings` reads. */
  datatype Var =
    | SupabaseUrl | SupabaseKey | OpenaiApiKey | OpenaiBaseUrl | ManualIntakeScript
    | ManualIntakeDir | MaxWords | RequestTimeout | ExtractionMaxChars | ExtractionUseLlm
    | ExtractionModel | JudgeModel | SecondJudgeModel | GenerationModels | GenerationVariants
    | VideoMinScore | AudioRoundupModel | AudioRoundupSize | AudioRoundupHours
    | AudioRoundupVoiceA | AudioRoundupVoiceB | MediaOutputDir | FfmpegPath | TtsProvider
    | TtsModel | TtsMaxChars | InworldApiKey | InworldBase64Key | InworldTtsBaseUrl
    | InworldTtsModel | AsrModel | ImageModel | EnableImageGeneration | ImageCaptionModel
    | EnableImageCaption | EnableTts | EnableAsr | YoutubeClientId | YoutubeClientSecret
    | YoutubeTokenUri | YoutubePrivacyStatus | PodcastSubscribeUrl

  /** The name each variable has in the environment. */
  function Name(v: Var): string {
    match v
    case SupabaseUrl => "SUPABASE_URL"
    case SupabaseKey => "SUPABASE_KEY"
    case OpenaiApiKey => "OPENAI_API_KEY"
    case OpenaiBaseUrl => "OPENAI_BASE_URL"
    case ManualIntakeScript => "MANUAL_INTAKE_SCRIPT"
    case ManualIntakeDir => "MANUAL_INTAKE_DIR"
    case MaxWords => "MAX_WORDS"
    case RequestTimeout => "REQUEST_TIMEOUT"
    case ExtractionMaxChars => "EXTRACTION_MAX_CHARS"
    case ExtractionUseLlm => "EXTRACTION_USE_LLM"
    case ExtractionModel => "EXTRACTION_MODEL"
    case JudgeModel => "JUDGE_MODEL"
    case SecondJudgeModel => "SECOND_JUDGE_MODEL"
    case GenerationModels => "GENERATION_MODELS"
    case GenerationVariants => "GENERATION_VARIANTS"
    case VideoMinScore => "VIDEO_MIN_SCORE"
    case AudioRoundupModel => "AUDIO_ROUNDUP_MODEL"
    case AudioRoundupSize => "AUDIO_ROUNDUP_SIZE"
    case AudioRoundupHours => "AUDIO_ROUNDUP_HOURS"
    case AudioRoundupVoiceA => "AUDIO_ROUNDUP_VOICE_A"
    case AudioRoundupVoiceB => "AUDIO_ROUNDUP_VOICE_B"
    case MediaOutputDir => "MEDIA_OUTPUT_DIR"
    case FfmpegPath => "FFMPEG_PATH"
    case TtsProvider => "TTS_PROVIDER"
    case TtsModel => "TTS_MODEL"
    case TtsMaxChars => "TTS_MAX_CHARS"
    case InworldApiKey => "INWORLD_API_KEY"
    case InworldBase64Key => "INWORLD_BASE64_KEY"
    case InworldTtsBaseUrl => "INWORLD_TTS_BASE_URL"
    case InworldTtsModel => "INWORLD_TTS_MODEL"
    case AsrModel => "ASR_MODEL"
    case ImageModel => "IMAGE_MODEL"
    case EnableImageGeneration => "ENABLE_IMAGE_GENERATION"
    case ImageCaptionModel => "IMAGE_CAPTION_MODEL"
    case EnableImageCaption => "ENABLE_IMAGE_CAPTION"
    case EnableTts => "ENABLE_TTS"
    case EnableAsr => "ENABLE_ASR"
    case YoutubeClientId => "YOUTUBE_CLIENT_ID"
    case YoutubeClientSecret => "YOUTUBE_CLIENT_SECRET"
    case YoutubeTokenUri => "YOUTUBE_TOKEN_URI"
    case YoutubePrivacyStatus => "YOUTUBE_PRIVACY_STATUS"
    case PodcastSubscribeUrl => "PODCAST_SUBSCRIBE_URL"
  }

  type Env = map<Var, string>

  /** `os.environ.get(name)`. */
  function Lookup(env: Env, v: Var): Option<string> {
    if v in env then Some(env[v]) else None
  }

  /** `os.environ.get(name, default)`. */
  function GetOr(env: Env, v: Var, default: string): string {
    if v in env then env[v] else default
  }

  /** `int(os.environ.get(name, default))`, with the default written as its value; `None`
      is the `ValueError` of a variable that is not an integer. */
  function IntVar(env: Env, v: Var, default: int): Option<int> {
    if v in env then ParseInt(env[v]) else Some(default)
  }

  /** `value.lower() in ("1", "true", "yes")`. */
  predicate IsTrueWord(value: string) {
    var w := Lower(value);
    w == "1" || w == "true" || w == "yes"
  }

  /** A boolean flag read from the environment. */
  predicate Flag(env: Env, v: Var, default: bool) {
    if v in env then IsTrueWord(env[v]) else default
  }

  predicate NonEmpty(m: string) {
    m != []
  }

  /** `[m.strip() for m in value.split(",") if m.strip()]`. */
  function ModelList(value: string): (r: seq<string>)
    ensures forall i :: 0 <= i < |r| ==> r[i] != []
  {
    Filter(Map(Split(value, ','), Strip), NonEmpty)
  }

  datatype Settings = Settings(
    supabaseUrl: string, supabaseKey: string, openaiApiKey: Option<string>,
    openaiBaseUrl: string, manualIntakeScript: string, manualIntakeDir: Option<string>,
    maxWords: int, requestTimeout: int, extractionMaxChars: int, extractionUseLlm: bool,
    extractionModel: string, judgeModel: string, secondJudgeModel: string,
    generationModels: seq<string>, generationVariants: int, videoMinScore: int,
    audioRoundupModel: string, audioRoundupSize: int, audioRoundupHours: int,
    audioRoundupVoiceA: string, audioRoundupVoiceB: string, mediaOutputDir: string,
    ffmpegPath: Option<string>, ttsProvider: string, ttsModel: string, ttsMaxChars: int,
    inworldApiKey: Option<string>, inworldTtsBaseUrl: string, inworldTtsModel: string,
    asrModel: string, imageModel: string, enableImageGeneration: bool,
    imageCaptionModel: string, enableImageCaption: bool, enableTts: bool, enableAsr: bool,
    userAgent: string, youtubeClientId: Option<string>, youtubeClientSecret: Option<string>,
    youtubeTokenUri: string, youtubePrivacyStatus: string, podcastSubscribeUrl: Option<string>)

  /** The integer settings read inside the `Settings(...)` call. */
  datatype Ints = Ints(maxWords: int, requestTimeout: int, extractionMaxChars: int,
                       generationVariants: int, videoMinScore: int, audioRoundupSize: int,
                       audioRoundupHours: int)

  /** The integer variables, or `None` when one of them is not an integer. The audio
      roundup size defaults to 5 here, not to the field default 8. */
  function ReadInts(env: Env): Option<Ints> {
    var a := IntVar(env, MaxWords, 2500);
    var b := IntVar(env, RequestTimeout, 30);
    var c := IntVar(env, ExtractionMaxChars, 20000);
    var d := IntVar(env, GenerationVariants, 3);
    var e := IntVar(env, VideoMinScore, 6);
    var f := IntVar(env, AudioRoundupSize, 5);
    var g := IntVar(env, AudioRoundupHours, 24);
    if a.None? || b.None? || c.None? || d.None? || e.None? || f.None? || g.None? then None
    else Some(Ints(a.value, b.value, c.value, d.value, e.value, f.value, g.value))
  }

  /** `INWORLD_API_KEY or INWORLD_BASE64_KEY`: an empty key falls through. */
  function InworldKey(env: Env): Option<string> {
    if InworldApiKey in env && env[InworldApiKey] != [] then Some(env[InworldApiKey])
    else Lookup(env, InworldBase64Key)
  }

  /** The chunk size for speech synthesis: Inworld accepts at most 2000 characters. */
  function CapTtsChars(provider: string, n: int): int {
    if Lower(provider) == "inworld" && n > 2000 then 2000 else n
  }

  const UserAgent: string := "Mozilla/5.0 (Windows NT 10.0; Win64; x64) AppleWebKit/537.36 (KHTML, like Gecko) Chrome/120.0.0.0 Safari/537.36"

  const MissingStoreMessage: string := "Missing SUPABASE_URL or SUPABASE_KEY. Set them in the environment."

  /** The `Settings(...)` call once the required values are known. */
  function Build(env: Env, url: string, key: string, tts: int, n: Ints): Settings {
    Settings(
      url, key, Lookup(env, OpenaiApiKey),
      GetOr(env, OpenaiBaseUrl, "https://api.openai.com/v1"),
      GetOr(env, ManualIntakeScript, "scripts/extract_text.py"), Lookup(env, ManualIntakeDir),
      n.maxWords, n.requestTimeout, n.extractionMaxChars, Flag(env, ExtractionUseLlm, true),
      GetOr(env, ExtractionModel, "gpt-5-nano"), GetOr(env, JudgeModel, "gpt-4.1-mini"),
      GetOr(env, SecondJudgeModel, "gpt-4.1-mini"),
      ModelList(GetOr(env, GenerationModels, "gpt-4.1-mini")), n.generationVariants, n.videoMinScore,
      GetOr(env, AudioRoundupModel, "gpt-5-mini"), n.audioRoundupSize, n.audioRoundupHours,
      GetOr(env, AudioRoundupVoiceA, "onyx"), GetOr(env, AudioRoundupVoiceB, "nova"),
      GetOr(env, MediaOutputDir, "media_out"),
      Lookup(env, FfmpegPath), GetOr(env, TtsProvider, "openai"),
      GetOr(env, TtsModel, "gpt-4o-mini-tts"), tts,
      InworldKey(env), GetOr(env, InworldTtsBaseUrl, "https://api.inworld.ai"),
      GetOr(env, InworldTtsModel, "inworld-tts-1.5-max"),
      GetOr(env, AsrModel, "whisper-1"), GetOr(env, ImageModel, "gpt-image-1"),
      Flag(env, EnableImageGeneration, false),
      GetOr(env, ImageCaptionModel, "gpt-4o-mini"), Flag(env, EnableImageCaption, false),
      Flag(env, EnableTts, false), Flag(env, EnableAsr, false),
      UserAgent, Lookup(env, YoutubeClientId), Lookup(env, YoutubeClientSecret),
      GetOr(env, YoutubeTokenUri, "https://oauth2.googleapis.com/token"),
      GetOr(env, YoutubePrivacyStatus, "public"), Lookup(env, PodcastSubscribeUrl))
  }

  /** `get_settings()`: a `RuntimeError` when the data-store URL or key is blank, checked
      first; a `ValueError` when an integer variable is not an integer; the settings
      otherwise. */
  function GetSettings(env: Env): (r: Result<Settings, Exc>)
    ensures Strip(GetOr(env, SupabaseUrl, "")) == [] || Strip(GetOr(env, SupabaseKey, "")) == [] ==>
      r == Failure(RuntimeError(MissingStoreMessage))
    ensures r.Success? ==>
      (r.value.supabaseUrl == Strip(GetOr(env, SupabaseUrl, "")) != []
       && r.value.supabaseKey == Strip(GetOr(env, SupabaseKey, "")) != [])
    ensures r.Failure? && r.error != RuntimeError(MissingStoreMessage) ==>
      r.error == OtherError("ValueError") && (IntVar(env, TtsMaxChars, 3500).None? || ReadInts(env).None?)
    ensures Strip(GetOr(env, SupabaseUrl, "")) != [] && Strip(GetOr(env, SupabaseKey, "")) != [] ==>
      (r.Success? <==> IntVar(env, TtsMaxChars, 3500).Some? && ReadInts(env).Some?)
  {
    var url := Strip(GetOr(env, SupabaseUrl, ""));
    var key := Strip(GetOr(env, SupabaseKey, ""));
    if url == [] || key == [] then Failure(RuntimeError(MissingStoreMessage))
    else
      var provider := GetOr(env, TtsProvider, "openai");
      match IntVar(env, TtsMaxChars, 3500)
      case None => Failure(OtherError("ValueError"))
      case Some(n) =>
        match ReadInts(env)
        case None => Failure(OtherError("ValueError"))
        case Some(ints) => Success(Build(env, url, key, CapTtsChars(provider, n), ints))
  }

  /** The chunk size is lowered to 2000 exactly when the provider is Inworld (in any case)
      and the configured size is larger; otherwise it is the configured size. */
  lemma TtsCap(env: Env, n: int)
    requires GetSettings(env).Success? && IntVar(env, TtsMaxChars, 3500) == Some(n)
    ensures var s := GetSettings(env).value;
      && (s.ttsMaxChars != n <==> Lower(s.ttsProvider) == "inworld" && n > 2000)
      && (Lower(s.ttsProvider) == "inworld" ==> s.ttsMaxChars <= 2000)
      && s.ttsMaxChars <= n
  {
  }

  /** Absent variables take their defaults; in particular the roundup size is 5 and all
      feature flags but LLM extraction are off. */
  lemma Defaults(env: Env)
    requires GetSettings(env).Success?
    requires AudioRoundupSize !in env && EnableAsr !in env && EnableTts !in env
    requires EnableImageGeneration !in env && EnableImageCaption !in env && ExtractionUseLlm !in env
    ensures var s := GetSettings(env).value;
      s.audioRoundupSize == 5 && s.extractionUseLlm && !s.enableAsr && !s.enableTts
      && !s.enableImageGeneration && !s.enableImageCaption
  {
  }

  /** The Inworld key falls back to the base64 key when it is absent or empty. */
  lemma InworldFallback(env: Env)
    requires GetSettings(env).Success?
    ensures var k := GetSettings(env).value.inworldApiKey;
      && (InworldApiKey in env && env[InworldApiKey] != [] ==> k == Some(env[InworldApiKey]))
      && (InworldApiKey !in env || env[InworldApiKey] == [] ==> k == Lookup(env, InworldBase64Key))
  {
  }

  /** A flag is on exactly for "1", "true" and "yes", whatever their case. */
  lemma FlagWords(value: string)
    ensures IsTrueWord(value) <==> Lower(value) in {"1", "true", "yes"}
  {
  }

  /** A comma-separated list of clean model names reads back as that list. */
  lemma ModelListOfJoin(models: seq<string>)
    requires models != []
    requires forall i :: 0 <= i < |models| ==> models[i] != [] && ',' !in models[i] && Strip(models[i]) == models[i]
    ensures ModelList(Join(models, ",")) == models
  {
    Url.SplitJoin(models, ',');
    MapStripClean(models);
    FilterAll(models, NonEmpty);
  }

  lemma MapStripClean(models: seq<string>)
    requires forall i :: 0 <= i < |models| ==> Strip(models[i]) == models[i]
    ensures Map(models, Strip) == models
  {
  }

  /** The listed models are the stripped, non-empty comma-separated entries. */
  lemma ModelListClean(value: string)
    ensures forall m :: m in ModelList(value) ==> m != [] && Strip(m) == m
  {
    var pieces := Split(value, ',');
    var stripped := Map(pieces, Strip);
    forall i | 0 <= i < |stripped|
      ensures Strip(stripped[i]) == stripped[i]
    {
      StripIdempotent(pieces[i]);
    }
  }

  lemma StripIdempotent(s: string)
    ensures Strip(Strip(s)) == Strip(s)
  {
    var t := Strip(s);
    if t != [] {
      StripNoSpace(t);
    }
  }
}
