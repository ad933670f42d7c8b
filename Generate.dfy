/** The prompt rules of app/ai/generate.py: the language label shared with
    app/ai/audio_roundup.py, the system prompt of a video variant with its optional
    extra instructions, and the `variant_id` stamped on the model's answer. The chat
    call itself is a parameter. */
module Generate {
  import opened Wrappers
  import opened Text
  import opened Json
  import Config

  /** The languages with a label of their own. */
  datatype Known = English | Spanish | Slovak

  function Code(k: Known): string {
    match k
    case English => "en"
    case Spanish => "es"
    case Slovak => "sk"
  }

  function Label(k: Known): string {
    match k
    case English => "English"
    case Spanish => "Spanish"
    case Slovak => "Slovak"
  }

  /** `LANGUAGE_LABELS.get(key)`. */
  function KnownOf(key: string): (r: Option<Known>)
    ensures r.Some? ==> Code(r.value) == key
    ensures r.None? ==> key != "en" && key != "es" && key != "sk"
  {
    if key == "en" then Some(English)
    else if key == "es" then Some(Spanish)
    else if key == "sk" then Some(Slovak)
    else None
  }

  /** `_language_label(value)`: English for a missing or empty value; the label of a
      known code, compared after stripping and lower-casing; any other value stripped. */
  function LanguageLabel(value: Option<string>): (r: string)
    ensures value.None? || value == Some([]) ==> r == Label(English)
  {
    if value.None? || value.value == [] then Label(English)
    else
      match KnownOf(Lower(Strip(value.value)))
      case Some(k) => Label(k)
      case None => Strip(value.value)
  }

  /** The code is read whatever its case and surrounding whitespace. */
  lemma LabelOfCode(k: Known, value: string)
    requires Lower(Strip(value)) == Code(k)
    ensures LanguageLabel(Some(value)) == Label(k)
  {
    assert value != [];
  }

  /** An unknown, non-blank value names its language itself: it comes back stripped. */
  lemma LabelOfOther(value: string)
    requires Lower(Strip(value)) !in {"en", "es", "sk"}
    ensures value != [] ==> LanguageLabel(Some(value)) == Strip(value)
  {
  }

  lemma LowerLabels(k: Known)
    ensures KnownOf(Lower(Label(k))).None?
  {
    var l := Lower(Label(k));
    assert |l| > 2;
  }

  lemma StripLabel(k: Known)
    ensures Strip(Label(k)) == Label(k)
  {
    assert !IsSpace(Label(k)[0]) && !IsSpace(Label(k)[|Label(k)| - 1]);
    StripNoSpace(Label(k));
  }

  /** A label is its own label: feeding `_language_label` its result changes nothing. */
  lemma LabelIdempotent(value: Option<string>)
    requires LanguageLabel(value) != []
    ensures LanguageLabel(Some(LanguageLabel(value))) == LanguageLabel(value)
  {
    var r := LanguageLabel(value);
    if value.None? || value.value == [] {
      StripLabel(English);
      LowerLabels(English);
    } else {
      match KnownOf(Lower(Strip(value.value)))
      case Some(k) =>
        StripLabel(k);
        LowerLabels(k);
      case None =>
        Config.StripIdempotent(value.value);
    }
  }

  const PromptHead: string := "You are a short-form video scriptwriter. Return JSON for a single video with keys: title, hook, script, scenes, captions, duration_seconds. scenes must be an array of 8-10 items. Each scene item must include: scene_text, image_prompt, duration_seconds. captions must be an array of short lines (<= 12 words each) aligned to the script. Language: "

  const PromptTail: string := ". Keep it punchy and current."

  const ExtraSeparator: string := "\n\nAdditional instructions: "

  /** The base prompt with the language label in it. */
  function BasePrompt(language: Option<string>): string {
    PromptHead + LanguageLabel(language) + PromptTail
  }

  /** `base + "\n\nAdditional instructions: " + extra.strip()` when the extra text is
      given and not blank, `base` otherwise. */
  function WithExtra(base: string, extra: Option<string>): string {
    if extra.Some? && Strip(extra.value) != [] then base + ExtraSeparator + Strip(extra.value)
    else base
  }

  /** `_system_prompt(language, extra_prompt)`. */
  function SystemPrompt(language: Option<string>, extra: Option<string>): string {
    WithExtra(BasePrompt(language), extra)
  }

  /** The extra instructions only ever extend the base prompt, and exactly when they are
      not blank. */
  lemma WithExtraShape(base: string, extra: Option<string>)
    ensures var r := WithExtra(base, extra);
      && StartsWith(r, base)
      && (extra.None? || IsBlank(extra.value) ==> r == base)
      && (extra.Some? && !IsBlank(extra.value) ==> r[|base|..] == ExtraSeparator + Strip(extra.value))
  {
    var r := WithExtra(base, extra);
    if extra.Some? && !IsBlank(extra.value) {
      assert r == base + (ExtraSeparator + Strip(extra.value));
      assert r[..|base|] == base;
    }
  }

  /** The prompt names the language right after its fixed head. */
  lemma SlicedLabel(head: string, lang: string, tail: string, rest: string)
    ensures SliceIs(head + lang + tail + rest, |head|, lang)
  {
    var r := head + lang + tail + rest;
    assert r[|head|..|head| + |lang|] == lang;
  }

  /** The system prompt names the language and keeps the base prompt intact; the stripped
      extra instructions follow it exactly when they are not blank. */
  lemma SystemPromptShape(language: Option<string>, extra: Option<string>)
    ensures var r := SystemPrompt(language, extra);
      && SliceIs(r, |PromptHead|, LanguageLabel(language))
      && StartsWith(r, BasePrompt(language))
      && (extra.None? || IsBlank(extra.value) ==> r == BasePrompt(language))
      && (extra.Some? && !IsBlank(extra.value) ==>
            r[|BasePrompt(language)|..] == ExtraSeparator + Strip(extra.value))
  {
    var base := BasePrompt(language);
    var r := SystemPrompt(language, extra);
    WithExtraShape(base, extra);
    SlicedLabel(PromptHead, LanguageLabel(language), PromptTail, r[|base|..]);
    assert r == base + r[|base|..];
  }

  /** The user message of a variant request. */
  function UserPrompt(content: string, variantId: int): string {
    "Article content:\n" + content + "\n\nVariant: " + IntToDecimal(variantId) + "\nReturn JSON."
  }

  /** `result["variant_id"] = variant_id` on a dict answer; anything else unchanged. */
  function StampVariant(result: Json, variantId: int): (r: Json)
    ensures !result.JObj? ==> r == result
    ensures result.JObj? ==> r.JObj?
  {
    if result.JObj? then Set(result, "variant_id", JInt(variantId)) else result
  }

  /** A stamped dict reads back the variant and every other key as before. */
  lemma StampVariantReads(result: Json, variantId: int, other: string)
    requires result.JObj?
    ensures Get(StampVariant(result, variantId), "variant_id") == JInt(variantId)
    ensures other != "variant_id" ==> Get(StampVariant(result, variantId), other) == Get(result, other)
  {
    GetSet(result, "variant_id", other, JInt(variantId));
  }

  /** `generate_video_variant`: asks `chat(model, system, user)` and stamps the answer;
      a failing chat call propagates. */
  function GenerateVideoVariant(content: string, model: string, variantId: int, language: Option<string>,
                                extra: Option<string>, chat: (string, string, string) -> Result<Json, Exc>)
    : (r: Result<Json, Exc>)
    ensures var answer := chat(model, SystemPrompt(language, extra), UserPrompt(content, variantId));
      && (answer.Failure? ==> r == answer)
      && (answer.Success? ==> r.Success? && (answer.value.JObj? <==> r.value.JObj?))
      && (answer.Success? ==> r == Success(StampVariant(answer.value, variantId)))
  {
    match chat(model, SystemPrompt(language, extra), UserPrompt(content, variantId))
    case Failure(e) => Failure(e)
    case Success(result) => Success(StampVariant(result, variantId))
  }

  /** `generation_models()`: the configured list, whose entries are never empty and carry
      no surrounding whitespace. */
  function GenerationModels(settings: Config.Settings): seq<string> {
    settings.generationModels
  }

  lemma GenerationModelsClean(env: Config.Env)
    requires Config.GetSettings(env).Success?
    ensures forall m :: m in GenerationModels(Config.GetSettings(env).value) ==> m != [] && Strip(m) == m
  {
    Config.ModelListClean(Config.GetOr(env, Config.GenerationModels, "gpt-4.1-mini"));
  }
}
