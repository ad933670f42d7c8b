/** app/ai/openai_client.py: the client's settings, the payloads of the chat and image
    requests and how they depend on the model, the bounded retry of `_post`, how the
    chat and image replies are read, and the brace-slicing fallback of `_parse_json`.
    The HTTP transport is a parameter `send(request, attempt)`: the outcome of the
    attempt with that number. The JSON decoder `json.loads` is a parameter too. */
module OpenAI {
  import opened Wrappers
  import opened Text
  import opened Json
  import Config

  /** The client's fields. `__init__` sets them and no method reassigns them, so the
      client is a value. */
  datatype Client = Client(apiKey: string, baseUrl: string, timeout: int)

  const MissingKeyMessage: string := "OPENAI_API_KEY not set"

  /** `OpenAIClient()`: raises without an API key; otherwise keeps the key, the base URL
      without its trailing slashes and the request timeout. */
  function NewClient(settings: Config.Settings): (r: Result<Client, Exc>)
    ensures settings.openaiApiKey.None? || settings.openaiApiKey == Some([]) <==>
              r == Failure(RuntimeError(MissingKeyMessage))
    ensures r.Success? ==> r.value.apiKey == settings.openaiApiKey.value && r.value.apiKey != []
    ensures r.Success? ==> r.value.baseUrl <= settings.openaiBaseUrl
                           && (r.value.baseUrl == [] || r.value.baseUrl[|r.value.baseUrl| - 1] != '/')
                           && forall i :: |r.value.baseUrl| <= i < |settings.openaiBaseUrl| ==> settings.openaiBaseUrl[i] == '/'
    ensures r.Success? ==> r.value.timeout == settings.requestTimeout
  {
    match settings.openaiApiKey
    case None => Failure(RuntimeError(MissingKeyMessage))
    case Some(key) =>
      if key == [] then Failure(RuntimeError(MissingKeyMessage))
      else Success(Client(key, RStripChar(settings.openaiBaseUrl, '/'), settings.requestTimeout))
  }

  /** The "gpt-5" family, which the client treats differently. */
  predicate IsGpt5(model: string) {
    StartsWith(model, "gpt-5")
  }

  /** `_supports_temperature`. */
  predicate SupportsTemperature(model: string) {
    !IsGpt5(model)
  }

  /** `_default_reasoning_effort`. */
  function DefaultReasoningEffort(model: string): Option<string> {
    if IsGpt5(model) then Some("minimal") else None
  }

  /** `_supports_reasoning_effort`. */
  predicate SupportsReasoningEffort(model: string) {
    IsGpt5(model)
  }

  /** `_max_tokens_param`. */
  function MaxTokensParam(model: string): string {
    if IsGpt5(model) then "max_completion_tokens" else "max_tokens"
  }

  /** `reasoning_effort or self._default_reasoning_effort(model)`: an empty string is
      falsy and gives way to the default. */
  function Effort(explicit: Option<string>, model: string): Option<string> {
    if explicit.Some? && explicit.value != [] then explicit else DefaultReasoningEffort(model)
  }

  function Message(role: string, content: Json): Json {
    JObj([("role", JStr(role)), ("content", content)])
  }

  /** The messages of `chat_json` and `chat_text`. */
  function TextMessages(system: string, user: string): Json {
    JArr([Message("system", JStr(system)), Message("user", JStr(user))])
  }

  /** The messages of `chat_text_with_image`: the user turn holds the text and the image. */
  function ImageMessages(system: string, userText: string, imageUrl: string): Json {
    JArr([Message("system", JStr(system)),
          Message("user", JArr([JObj([("type", JStr("text")), ("text", JStr(userText))]),
                                JObj([("type", JStr("image_url")),
                                      ("image_url", JObj([("url", JStr(imageUrl))]))])]))])
  }

  /** The payload as first built: model, messages, the token limit under the model's
      parameter name and, for `chat_json`, the JSON response format. */
  function BasePayload(model: string, messages: Json, maxTokens: int, jsonMode: bool): Json {
    JObj([("model", JStr(model)), ("messages", messages), (MaxTokensParam(model), JInt(maxTokens))]
         + (if jsonMode then [("response_format", JObj([("type", JStr("json_object"))]))] else []))
  }

  /** The keys of the payload as first built. */
  lemma BaseKeys(model: string, messages: Json, maxTokens: int, jsonMode: bool, key: string)
    ensures var f := BasePayload(model, messages, maxTokens, jsonMode).fields;
      && (HasKey(f, key) <==> key == "model" || key == "messages" || key == MaxTokensParam(model)
                              || (jsonMode && key == "response_format"))
      && Lookup(f, "model") == JStr(model) && Lookup(f, "messages") == messages
      && Lookup(f, MaxTokensParam(model)) == JInt(maxTokens)
      && (jsonMode ==> Lookup(f, "response_format") == JObj([("type", JStr("json_object"))]))
  {
    var f := BasePayload(model, messages, maxTokens, jsonMode).fields;
    assert f[0].0 == "model" && f[1].0 == "messages" && f[2].0 == MaxTokensParam(model);
    assert |f| == if jsonMode then 4 else 3;
    if jsonMode {
      assert f[3].0 == "response_format";
    }
    if HasKey(f, key) {
      var i :| 0 <= i < |f| && f[i].0 == key;
      assert i == 0 || i == 1 || i == 2 || i == 3;
    }
    LookupAt(f, 1);
    LookupAt(f, 2);
    if jsonMode {
      LookupAt(f, 3);
    }
  }

  /** The payload of a chat request once the temperature and the reasoning effort have
      been added where the model supports them. The temperature is an opaque value. */
  function ChatPayload(model: string, messages: Json, maxTokens: int, temperature: Json,
                       explicit: Option<string>, jsonMode: bool): (p: Json)
    ensures p.JObj?
  {
    var base := BasePayload(model, messages, maxTokens, jsonMode);
    var tempered := if SupportsTemperature(model) then Set(base, "temperature", temperature) else base;
    var effort := Effort(explicit, model);
    if effort.Some? && effort.value != [] && SupportsReasoningEffort(model)
    then Set(tempered, "reasoning_effort", JStr(effort.value))
    else tempered
  }

  /** Reading a key of the payload that neither optional step writes. */
  lemma {:induction false} ChatPayloadKeeps(model: string, messages: Json, maxTokens: int, temperature: Json,
                                            explicit: Option<string>, jsonMode: bool, key: string)
    requires key != "temperature" && key != "reasoning_effort"
    ensures var p := ChatPayload(model, messages, maxTokens, temperature, explicit, jsonMode);
            var base := BasePayload(model, messages, maxTokens, jsonMode);
            Get(p, key) == Get(base, key) && (HasKey(p.fields, key) <==> HasKey(base.fields, key))
  {
    var base := BasePayload(model, messages, maxTokens, jsonMode);
    var tempered := if SupportsTemperature(model) then Set(base, "temperature", temperature) else base;
    if SupportsTemperature(model) {
      GetSet(base, "temperature", key, temperature);
      HasKeyStore(base.fields, "temperature", key, temperature);
    }
    var effort := Effort(explicit, model);
    if effort.Some? && effort.value != [] && SupportsReasoningEffort(model) {
      GetSet(tempered, "reasoning_effort", key, JStr(effort.value));
      HasKeyStore(tempered.fields, "reasoning_effort", key, JStr(effort.value));
    }
  }

  /** The token limit goes under "max_completion_tokens" for gpt-5 models and under
      "max_tokens" for every other model, never under both. */
  lemma TokenLimitKey(model: string, messages: Json, maxTokens: int, temperature: Json,
                      explicit: Option<string>, jsonMode: bool)
    ensures var p := ChatPayload(model, messages, maxTokens, temperature, explicit, jsonMode);
      && Get(p, "model") == JStr(model) && Get(p, "messages") == messages
      && (IsGpt5(model) ==> Get(p, "max_completion_tokens") == JInt(maxTokens) && !HasKey(p.fields, "max_tokens"))
      && (!IsGpt5(model) ==> Get(p, "max_tokens") == JInt(maxTokens) && !HasKey(p.fields, "max_completion_tokens"))
  {
    ChatPayloadKeeps(model, messages, maxTokens, temperature, explicit, jsonMode, "model");
    ChatPayloadKeeps(model, messages, maxTokens, temperature, explicit, jsonMode, "messages");
    ChatPayloadKeeps(model, messages, maxTokens, temperature, explicit, jsonMode, "max_tokens");
    ChatPayloadKeeps(model, messages, maxTokens, temperature, explicit, jsonMode, "max_completion_tokens");
    BaseKeys(model, messages, maxTokens, jsonMode, "max_tokens");
    BaseKeys(model, messages, maxTokens, jsonMode, "max_completion_tokens");
  }

  /** The temperature is sent exactly to the models that are not gpt-5, unchanged. */
  lemma TemperatureOnlyBeforeGpt5(model: string, messages: Json, maxTokens: int, temperature: Json,
                                  explicit: Option<string>, jsonMode: bool)
    ensures var p := ChatPayload(model, messages, maxTokens, temperature, explicit, jsonMode);
      && (HasKey(p.fields, "temperature") <==> !IsGpt5(model))
      && (!IsGpt5(model) ==> Get(p, "temperature") == temperature)
  {
    var base := BasePayload(model, messages, maxTokens, jsonMode);
    var tempered := if SupportsTemperature(model) then Set(base, "temperature", temperature) else base;
    BaseKeys(model, messages, maxTokens, jsonMode, "temperature");
    if SupportsTemperature(model) {
      GetSet(base, "temperature", "temperature", temperature);
      HasKeyStore(base.fields, "temperature", "temperature", temperature);
    }
    var effort := Effort(explicit, model);
    if effort.Some? && effort.value != [] && SupportsReasoningEffort(model) {
      GetSet(tempered, "reasoning_effort", "temperature", JStr(effort.value));
      HasKeyStore(tempered.fields, "reasoning_effort", "temperature", JStr(effort.value));
    }
  }

  /** A reasoning effort is sent exactly to gpt-5 models: the explicit one when it is
      not empty, "minimal" otherwise. */
  lemma ReasoningEffortOnlyForGpt5(model: string, messages: Json, maxTokens: int, temperature: Json,
                                   explicit: Option<string>, jsonMode: bool)
    ensures var p := ChatPayload(model, messages, maxTokens, temperature, explicit, jsonMode);
      && (HasKey(p.fields, "reasoning_effort") <==> IsGpt5(model))
      && (IsGpt5(model) && explicit.Some? && explicit.value != [] ==>
            Get(p, "reasoning_effort") == JStr(explicit.value))
      && (IsGpt5(model) && (explicit.None? || explicit.value == []) ==>
            Get(p, "reasoning_effort") == JStr("minimal"))
  {
    var base := BasePayload(model, messages, maxTokens, jsonMode);
    var tempered := if SupportsTemperature(model) then Set(base, "temperature", temperature) else base;
    TemperedLacksEffort(model, messages, maxTokens, temperature, jsonMode);
    var effort := Effort(explicit, model);
    if IsGpt5(model) {
      GetSet(tempered, "reasoning_effort", "reasoning_effort", JStr(effort.value));
      HasKeyStore(tempered.fields, "reasoning_effort", "reasoning_effort", JStr(effort.value));
    }
  }

  /** Before the reasoning step the payload has no "reasoning_effort" key. */
  lemma TemperedLacksEffort(model: string, messages: Json, maxTokens: int, temperature: Json, jsonMode: bool)
    ensures var base := BasePayload(model, messages, maxTokens, jsonMode);
      var tempered := if SupportsTemperature(model) then Set(base, "temperature", temperature) else base;
      !HasKey(tempered.fields, "reasoning_effort")
  {
    var base := BasePayload(model, messages, maxTokens, jsonMode);
    BaseKeys(model, messages, maxTokens, jsonMode, "reasoning_effort");
    if SupportsTemperature(model) {
      HasKeyStore(base.fields, "temperature", "reasoning_effort", temperature);
    }
  }

  /** Only `chat_json` asks for a JSON object. */
  lemma JsonModeFormat(model: string, messages: Json, maxTokens: int, temperature: Json,
                       explicit: Option<string>, jsonMode: bool)
    ensures var p := ChatPayload(model, messages, maxTokens, temperature, explicit, jsonMode);
      && (HasKey(p.fields, "response_format") <==> jsonMode)
      && (jsonMode ==> Get(p, "response_format") == JObj([("type", JStr("json_object"))]))
  {
    ChatPayloadKeeps(model, messages, maxTokens, temperature, explicit, jsonMode, "response_format");
    BaseKeys(model, messages, maxTokens, jsonMode, "response_format");
  }

  /** An HTTP request as `requests.post` receives it. */
  datatype Request = Request(url: string, headers: seq<(string, string)>, payload: Json, timeout: int)

  /** An HTTP response: status code, body text and the outcome of `resp.json()`. */
  datatype Response = Response(status: int, text: string, body: Result<Json, Exc>)

  /** `resp.ok`: false exactly for the 4xx and 5xx statuses `raise_for_status` rejects. */
  predicate Ok(resp: Response) {
    !(400 <= resp.status < 600)
  }

  /** `_headers()`. */
  function Headers(c: Client): seq<(string, string)> {
    [("Authorization", "Bearer " + c.apiKey), ("Content-Type", "application/json")]
  }

  function RequestFor(c: Client, path: string, payload: Json): Request {
    Request(c.baseUrl + path, Headers(c), payload, c.timeout)
  }

  /** The exceptions `_post` retries: `ReadTimeout` and `ConnectionError` with the
      subclasses `requests` derives from `ConnectionError`. */
  predicate Transient(e: Exc) {
    e.OtherError? && e.className in {"ReadTimeout", "ConnectionError", "ConnectTimeout", "ProxyError", "SSLError"}
  }

  predicate FailedTransiently(outcome: Result<Response, Exc>) {
    outcome.Failure? && Transient(outcome.error)
  }

  const RequestFailedMessage: string := "OpenAI request failed"

  /** The number of retries the client's callers use. */
  const DefaultRetries: int := 2

  /** The outcome of `_post` from attempt `attempt` on: a response is returned at once,
      any other exception propagates, a transient one is retried while attempts remain
      and re-raised by the last; with no attempt at all (`retries < 0`) the fallback
      `RuntimeError` is raised. */
  function PostFrom(req: Request, send: (Request, nat) -> Result<Response, Exc>, attempt: nat, retries: int)
    : Result<Response, Exc>
    decreases if attempt <= retries then retries - attempt + 1 else 0
  {
    if attempt > retries then Failure(RuntimeError(RequestFailedMessage))
    else
      match send(req, attempt)
      case Success(resp) => Success(resp)
      case Failure(e) =>
        if Transient(e) && attempt < retries then PostFrom(req, send, attempt + 1, retries) else Failure(e)
  }

  /** `_post(path, payload, retries)`. */
  function Post(c: Client, path: string, payload: Json, retries: int,
                send: (Request, nat) -> Result<Response, Exc>): Result<Response, Exc> {
    PostFrom(RequestFor(c, path, payload), send, 0, retries)
  }

  /** The retry loop of `_post`, counting the attempts it makes. The pause of `1 + attempt`
      seconds between attempts is not modelled. */
  method PostLoop(req: Request, retries: int, send: (Request, nat) -> Result<Response, Exc>)
    returns (r: Result<Response, Exc>, attempts: nat)
    ensures r == PostFrom(req, send, 0, retries)
    ensures retries < 0 ==> attempts == 0 && r == Failure(RuntimeError(RequestFailedMessage))
    ensures retries >= 0 ==> 1 <= attempts <= retries + 1 && r == send(req, attempts - 1)
    ensures forall k :: 0 <= k < attempts - 1 ==> FailedTransiently(send(req, k))
  {
    var lastErr: Option<Exc> := None;
    attempts := 0;
    var attempt: nat := 0;
    while attempt < retries + 1
      invariant attempts == attempt
      invariant attempt > 0 ==> attempt <= retries && lastErr.Some? && send(req, attempt - 1) == Failure(lastErr.value)
      invariant attempt == 0 ==> lastErr.None?
      invariant PostFrom(req, send, 0, retries) == PostFrom(req, send, attempt, retries)
      invariant forall k :: 0 <= k < attempt ==> FailedTransiently(send(req, k))
    {
      var outcome := send(req, attempt);
      attempts := attempts + 1;
      if outcome.Success? {
        return outcome, attempts;
      }
      var exc := outcome.error;
      if !Transient(exc) {
        return Failure(exc), attempts;
      }
      lastErr := Some(exc);
      if attempt >= retries {
        return Failure(exc), attempts;
      }
      attempt := attempt + 1;
    }
    r := Failure(lastErr.GetOr(RuntimeError(RequestFailedMessage)));
  }

  /** Attempts past the last one are never made: two transports that agree on attempts
      `attempt` to `retries` give the same outcome. */
  lemma {:induction false} PostUsesOnlyAllowedAttempts(req: Request, send: (Request, nat) -> Result<Response, Exc>,
                                                       other: (Request, nat) -> Result<Response, Exc>,
                                                       attempt: nat, retries: int)
    requires forall k: nat :: attempt <= k <= retries ==> send(req, k) == other(req, k)
    ensures PostFrom(req, send, attempt, retries) == PostFrom(req, other, attempt, retries)
    decreases if attempt <= retries then retries - attempt + 1 else 0
  {
    if attempt <= retries && send(req, attempt).Failure? && Transient(send(req, attempt).error) && attempt < retries {
      PostUsesOnlyAllowedAttempts(req, send, other, attempt + 1, retries);
    }
  }

  /** A transient error comes out of `_post` only when every allowed attempt failed
      transiently, and it is the error of the last attempt. */
  lemma {:induction false} TransientRaisedLast(req: Request, send: (Request, nat) -> Result<Response, Exc>,
                                               attempt: nat, retries: int)
    requires attempt <= retries
    requires FailedTransiently(PostFrom(req, send, attempt, retries))
    ensures forall k :: attempt <= k <= retries ==> FailedTransiently(send(req, k))
    ensures PostFrom(req, send, attempt, retries) == send(req, retries)
    decreases retries - attempt
  {
    if attempt < retries {
      TransientRaisedLast(req, send, attempt + 1, retries);
    }
  }

  const ChatPath: string := "/chat/completions"

  const ErrorPrefix: string := "OpenAI error "

  const EmptyContentPrefix: string := "OpenAI returned empty content: "

  /** `data.get("choices", [{}])[0].get("message", {}).get("content", "")`. */
  function ContentOf(data: Json): Result<Json, Exc> {
    match DictGet(data, "choices", JArr([JObj([])]))
    case Failure(e) => Failure(e)
    case Success(choices) =>
      match Index0(choices)
      case Failure(e) => Failure(e)
      case Success(first) =>
        match DictGet(first, "message", JObj([]))
        case Failure(e) => Failure(e)
        case Success(message) => DictGet(message, "content", JStr([]))
  }

  /** A reply of the usual shape yields its content, and a reply without choices yields
      the empty string. */
  lemma ContentOfReply(content: Json)
    ensures ContentOf(JObj([("choices", JArr([JObj([("message", JObj([("content", content)]))])]))])) == Success(content)
    ensures ContentOf(JObj([])) == Success(JStr([]))
  {
    var message := JObj([("content", content)]);
    assert LookupOr(message.fields, "content", JStr([])) == content by {
      assert HasKey(message.fields, "content") by { assert message.fields[0].0 == "content"; }
    }
    var first := JObj([("message", message)]);
    assert LookupOr(first.fields, "message", JObj([])) == message by {
      assert HasKey(first.fields, "message") by { assert first.fields[0].0 == "message"; }
    }
    var data := JObj([("choices", JArr([first]))]);
    assert LookupOr(data.fields, "choices", JArr([JObj([])])) == JArr([first]) by {
      assert HasKey(data.fields, "choices") by { assert data.fields[0].0 == "choices"; }
    }
  }

  /** `not str(content).strip()`: only a blank string is blank once turned into text
      (`str(None)` is "None"). */
  predicate BlankContent(content: Json) {
    content.JStr? && IsBlank(content.s)
  }

  /** The checks shared by the chat methods after `_post`: a failed request propagates,
      a non-ok status and a blank content raise a `RuntimeError`. */
  function ChatAnswer(post: Result<Response, Exc>): (r: Result<Json, Exc>)
    ensures post.Failure? ==> r == Failure(post.error)
    ensures post.Success? && !Ok(post.value) ==>
              r == Failure(RuntimeError(ErrorPrefix + IntToDecimal(post.value.status) + ": " + post.value.text))
    ensures r.Success? ==> post.Success? && Ok(post.value) && !BlankContent(r.value)
    ensures r.Success? ==> post.value.body.Success? && ContentOf(post.value.body.value) == Success(r.value)
    ensures post.Success? && Ok(post.value) && post.value.body.Failure? ==> r == Failure(post.value.body.error)
    ensures post.Success? && Ok(post.value) && post.value.body.Success? ==>
              var content := ContentOf(post.value.body.value);
              (content.Failure? ==> r == Failure(content.error))
              && (content.Success? && BlankContent(content.value) ==> r == Failure(RuntimeError(EmptyContentPrefix)))
              && (content.Success? && !BlankContent(content.value) ==> r == content)
  {
    match post
    case Failure(e) => Failure(e)
    case Success(resp) =>
      if !Ok(resp) then Failure(RuntimeError(ErrorPrefix + IntToDecimal(resp.status) + ": " + resp.text))
      else
        match resp.body
        case Failure(e) => Failure(e)
        case Success(data) =>
          match ContentOf(data)
          case Failure(e) => Failure(e)
          case Success(content) =>
            if BlankContent(content) then Failure(RuntimeError(EmptyContentPrefix)) else Success(content)
  }

  /** `chat_text`: the content of the reply, whatever its JSON type. */
  function ChatText(c: Client, model: string, system: string, user: string, temperature: Json, maxTokens: int,
                    explicit: Option<string>, send: (Request, nat) -> Result<Response, Exc>): Result<Json, Exc> {
    ChatAnswer(Post(c, ChatPath, ChatPayload(model, TextMessages(system, user), maxTokens, temperature, explicit, false),
                    DefaultRetries, send))
  }

  /** `chat_text_with_image`. */
  function ChatTextWithImage(c: Client, model: string, system: string, userText: string, imageUrl: string,
                             temperature: Json, maxTokens: int, explicit: Option<string>,
                             send: (Request, nat) -> Result<Response, Exc>): Result<Json, Exc> {
    ChatAnswer(Post(c, ChatPath, ChatPayload(model, ImageMessages(system, userText, imageUrl), maxTokens, temperature,
                                             explicit, false), DefaultRetries, send))
  }

  /** `chat_json`: the content decoded by `_parse_json`; content that is not a string
      cannot be decoded. */
  function ChatJson(c: Client, model: string, system: string, user: string, temperature: Json, maxTokens: int,
                    explicit: Option<string>, send: (Request, nat) -> Result<Response, Exc>,
                    loads: string -> Result<Json, Exc>): Result<Json, Exc> {
    match ChatAnswer(Post(c, ChatPath, ChatPayload(model, TextMessages(system, user), maxTokens, temperature, explicit, true),
                          DefaultRetries, send))
    case Failure(e) => Failure(e)
    case Success(content) =>
      if content.JStr? then ParseJson(content.s, loads) else Failure(OtherError("TypeError"))
  }

  /** A chat request makes at most three attempts: the transport's answers to later
      attempts never matter. */
  lemma ChatAtMostThreeAttempts(c: Client, model: string, system: string, user: string, temperature: Json,
                                maxTokens: int, explicit: Option<string>,
                                send: (Request, nat) -> Result<Response, Exc>,
                                other: (Request, nat) -> Result<Response, Exc>)
    requires forall req, k: nat :: k < 3 ==> send(req, k) == other(req, k)
    ensures ChatText(c, model, system, user, temperature, maxTokens, explicit, send)
         == ChatText(c, model, system, user, temperature, maxTokens, explicit, other)
  {
    var req := RequestFor(c, ChatPath, ChatPayload(model, TextMessages(system, user), maxTokens, temperature, explicit, false));
    PostUsesOnlyAllowedAttempts(req, send, other, 0, DefaultRetries);
  }

  const DecodeError: Exc := OtherError("JSONDecodeError")

  /** `_parse_json(content)`: the decoded content; when decoding fails, the slice from
      the first "{" to the last "}" is decoded instead if the "{" comes first, and the
      decoding error is re-raised otherwise. */
  function ParseJson(content: string, loads: string -> Result<Json, Exc>): (r: Result<Json, Exc>)
    ensures loads(content).Success? || loads(content).error != DecodeError ==> r == loads(content)
  {
    match loads(content)
    case Success(v) => Success(v)
    case Failure(e) =>
      if e != DecodeError then Failure(e)
      else
        var start := FindChar(content, '{');
        var end := RFindChar(content, '}');
        if start != -1 && end != -1 && end > start then loads(content[start..end + 1]) else Failure(e)
  }

  /** `content[i..j]` runs from the first "{" of `content` to its last "}". */
  predicate OuterBraces(content: string, i: int, j: int) {
    0 <= i < j - 1 < |content| && content[i] == '{' && content[j - 1] == '}'
    && '{' !in content[..i] && '}' !in content[j..]
  }

  /** An undecodable reply with a "{" before a "}" is decoded from its outermost braces. */
  lemma ParseJsonSlices(content: string, loads: string -> Result<Json, Exc>, i: int, j: int)
    requires loads(content) == Failure(DecodeError)
    requires OuterBraces(content, i, j)
    ensures ParseJson(content, loads) == loads(content[i..j])
  {
  }

  /** An undecodable reply without a "{" before a "}" re-raises the decoding error. */
  lemma ParseJsonGivesUp(content: string, loads: string -> Result<Json, Exc>)
    requires loads(content) == Failure(DecodeError)
    requires forall a, b :: 0 <= a < b < |content| && content[a] == '{' ==> content[b] != '}'
    ensures ParseJson(content, loads) == Failure(DecodeError)
  {
  }

  const ImagePath: string := "/images/generations"

  /** The payload of `image`: "dall-e" models are asked for base64 data. */
  function ImagePayload(model: string, prompt: string, size: string, quality: string): (p: Json)
    ensures p.JObj?
  {
    JObj([("model", JStr(model)), ("prompt", JStr(prompt)), ("size", JStr(size)), ("quality", JStr(quality))]
         + (if StartsWith(model, "dall-e") then [("response_format", JStr("b64_json"))] else []))
  }

  /** Base64 data is requested exactly from "dall-e" models. */
  lemma ImageFormatOnlyForDallE(model: string, prompt: string, size: string, quality: string)
    ensures var p := ImagePayload(model, prompt, size, quality);
      && (HasKey(p.fields, "response_format") <==> StartsWith(model, "dall-e"))
      && (StartsWith(model, "dall-e") ==> Get(p, "response_format") == JStr("b64_json"))
  {
    var f := ImagePayload(model, prompt, size, quality).fields;
    assert f[0].0 == "model" && f[1].0 == "prompt" && f[2].0 == "size" && f[3].0 == "quality";
    if HasKey(f, "response_format") {
      var i :| 0 <= i < |f| && f[i].0 == "response_format";
      assert i == 4;
    }
    if StartsWith(model, "dall-e") {
      assert f[4].0 == "response_format";
      LookupAt(f, 4);
    }
  }

  /** The value `image` returns for a decoded reply: the first entry's "url" when truthy,
      else its "b64_json", else "" (also when the reply has no data). */
  function ImageResult(data: Json): (r: Result<Json, Exc>)
    ensures data.JObj? && (!HasKey(data.fields, "data") || !Truthy(Lookup(data.fields, "data"))) ==>
              r == Success(JStr([]))
  {
    match data
    case JObj(fields) =>
      if !HasKey(fields, "data") || !Truthy(Lookup(fields, "data")) then Success(JStr([]))
      else
        (match Index0(Lookup(fields, "data"))
         case Failure(e) => Failure(e)
         case Success(first) =>
           match DictGet(first, "url", JNull)
           case Failure(e) => Failure(e)
           case Success(url) => if Truthy(url) then Success(url) else DictGet(first, "b64_json", JStr([])))
    case JArr(items) => if JStr("data") in items then Failure(OtherError("TypeError")) else Success(JStr([]))
    case JStr(s) => if Contains(s, "data") then Failure(OtherError("TypeError")) else Success(JStr([]))
    case _ => Failure(OtherError("TypeError"))
  }

  /** For a reply whose data list starts with a dict entry: the url wins when present and
      truthy, then the base64 data, then "". */
  lemma ImagePrefersUrl(fields: seq<(string, Json)>, entry: seq<(string, Json)>, more: seq<Json>)
    requires HasKey(fields, "data") && Lookup(fields, "data") == JArr([JObj(entry)] + more)
    ensures var url := LookupOr(entry, "url", JNull);
      && (Truthy(url) ==> ImageResult(JObj(fields)) == Success(url))
      && (!Truthy(url) && HasKey(entry, "b64_json") ==> ImageResult(JObj(fields)) == Success(Lookup(entry, "b64_json")))
      && (!Truthy(url) && !HasKey(entry, "b64_json") ==> ImageResult(JObj(fields)) == Success(JStr([])))
  {
    assert Index0(Lookup(fields, "data")) == Success(JObj(entry));
  }

  /** `image(model, prompt, size, quality)`: a rejected status raises `HTTPError`. */
  function Image(c: Client, model: string, prompt: string, size: string, quality: string,
                 send: (Request, nat) -> Result<Response, Exc>): (r: Result<Json, Exc>)
    ensures var post := Post(c, ImagePath, ImagePayload(model, prompt, size, quality), DefaultRetries, send);
      && (post.Failure? ==> r == Failure(post.error))
      && (post.Success? && !Ok(post.value) ==> r == Failure(OtherError("HTTPError")))
      && (post.Success? && Ok(post.value) && post.value.body.Failure? ==> r == Failure(post.value.body.error))
      && (post.Success? && Ok(post.value) && post.value.body.Success? ==> r == ImageResult(post.value.body.value))
  {
    match Post(c, ImagePath, ImagePayload(model, prompt, size, quality), DefaultRetries, send)
    case Failure(e) => Failure(e)
    case Success(resp) =>
      if !Ok(resp) then Failure(OtherError("HTTPError"))
      else
        match resp.body
        case Failure(e) => Failure(e)
        case Success(data) => ImageResult(data)
  }
}
