/** The translation route (`POST /api/translate`): validates the request, picks
    one of three engines, resolves that engine's settings from the request and
    the environment, makes at most one outbound call, picks the translated text
    out of the reply, and turns every failure into an `{error}` envelope. */
module TranslateRoute {
  import opened Js
  import opened Http

  const NoTextMessage := "翻訳するテキストがありません。"
  const UnknownErrorMessage := "翻訳中に不明なエラーが発生しました。"

  const OpenAIDefaultEndpoint := "https://api.openai.com"
  const OpenAIDefaultModel := "gpt-5-nano"
  const OpenAIMissingKeyMessage := "OpenAI APIキーが設定されていません。"
  const OpenAIInstruction := "あなたは優秀な英日翻訳者です。与えられた英語テキストを自然な日本語に翻訳してください。翻訳された日本語以外は出力しないでください。\n\n"
  const OpenAIFetchFailedMessage := "OpenAI互換API呼び出しに失敗しました。"
  const OpenAIStatusPrefix := "OpenAI APIエラー: "
  const OpenAIParsePrefix := "OpenAIレスポンスのJSON解析に失敗: "

  const OllamaDefaultEndpoint := "http://localhost:11434"
  const OllamaDefaultModel := "llama3.1:8b"
  const OllamaInstruction := "You are a skilled English to Japanese translator. Translate the following English text into natural Japanese.\n\n"
  const OllamaFetchFailedMessage := "Ollama API呼び出しに失敗しました。"
  const OllamaStatusPrefix := "Ollama APIエラー: "
  const OllamaParsePrefix := "OllamaレスポンスのJSON解析に失敗: "

  /** The parts of a responses-API reply the route looks at. A `null` element of
      an array behaves as an element whose fields are all missing. */
  datatype OpenAIContent = OpenAIContent(text: Option<string>)
  datatype OpenAIOutput = OpenAIOutput(content: Option<seq<OpenAIContent>>)
  datatype OpenAIReply = OpenAIReply(outputText: Option<string>, output: Option<seq<OpenAIOutput>>)

  datatype OllamaReply = OllamaReply(response: Option<string>, output: Option<string>)

  /** A call into the public translation library, and what it yields. */
  datatype GoogleRequest = GoogleRequest(text: string, from: string, to: string)
  datatype GoogleOutcome = GoogleTranslated(text: string) | GoogleThrew(thrown: Thrown)

  /** Everything outside the route, as functions from the request to its outcome. */
  datatype Oracles = Oracles(
    openai: HttpRequest -> FetchOutcome<OpenAIReply>,
    ollama: HttpRequest -> FetchOutcome<OllamaReply>,
    google: GoogleRequest -> GoogleOutcome)

  datatype Call = HttpCall(request: HttpRequest) | GoogleCall(libraryRequest: GoogleRequest)

  /** What one engine function does: its return value or the value it throws,
      and the outbound calls it made. */
  datatype EngineRun = EngineRun(result: Result<string, Thrown>, calls: seq<Call>)

  datatype Settings = Settings(apiKey: Option<string>, endpoint: string, model: string)

  // ---------------------------------------------------------------------------
  // Settings resolution: request config, then environment, then default.

  function OpenAIKeySources(config: Option<ProviderConfig>, env: Env): seq<Option<string>>
  {
    [ConfigApiKey(config), EnvVar(env, "TRANSLATE_OPENAI_API_KEY"),
     EnvVar(env, "NEXT_PUBLIC_TRANSLATE_OPENAI_API_KEY"), EnvVar(env, "OPENAI_API_KEY")]
  }

  function OpenAIEndpointSources(config: Option<ProviderConfig>, env: Env): seq<Option<string>>
  {
    [ConfigEndpoint(config), EnvVar(env, "TRANSLATE_OPENAI_ENDPOINT"),
     EnvVar(env, "NEXT_PUBLIC_TRANSLATE_OPENAI_ENDPOINT"), EnvVar(env, "ENDPOINT")]
  }

  function OpenAIModelSources(config: Option<ProviderConfig>, env: Env): seq<Option<string>>
  {
    [ConfigModelName(config), EnvVar(env, "TRANSLATE_OPENAI_MODEL_NAME"),
     EnvVar(env, "NEXT_PUBLIC_TRANSLATE_OPENAI_MODEL_NAME"), EnvVar(env, "MODEL_NAME")]
  }

  function OllamaKeySources(config: Option<ProviderConfig>, env: Env): seq<Option<string>>
  {
    [ConfigApiKey(config), EnvVar(env, "OLLAMA_API_KEY")]
  }

  function OllamaEndpointSources(config: Option<ProviderConfig>, env: Env): seq<Option<string>>
  {
    [ConfigEndpoint(config), EnvVar(env, "OLLAMA_ENDPOINT")]
  }

  function OllamaModelSources(config: Option<ProviderConfig>, env: Env): seq<Option<string>>
  {
    [ConfigModelName(config), EnvVar(env, "OLLAMA_MODEL_NAME")]
  }

  /** The OpenAI engine's settings: a key resolves exactly when some source
      supplies one, and each setting comes from one of its sources or is the
      non-empty default. */
  function ResolveOpenAI(config: Option<ProviderConfig>, env: Env): (s: Settings)
    ensures Truthy(s.apiKey) <==> exists i :: 0 <= i < 4 && Truthy(OpenAIKeySources(config, env)[i])
    ensures s.apiKey in OpenAIKeySources(config, env)
    ensures s.endpoint != "" && (s.endpoint == OpenAIDefaultEndpoint || Some(s.endpoint) in OpenAIEndpointSources(config, env))
    ensures s.model != "" && (s.model == OpenAIDefaultModel || Some(s.model) in OpenAIModelSources(config, env))
  {
    Settings(FirstTruthy(OpenAIKeySources(config, env)),
             Resolve(OpenAIEndpointSources(config, env), OpenAIDefaultEndpoint),
             Resolve(OpenAIModelSources(config, env), OpenAIDefaultModel))
  }

  /** The local-model engine's settings, resolved the same way; its key is optional. */
  function ResolveOllama(config: Option<ProviderConfig>, env: Env): (s: Settings)
    ensures Truthy(s.apiKey) <==> Truthy(ConfigApiKey(config)) || Truthy(EnvVar(env, "OLLAMA_API_KEY"))
    ensures s.apiKey in OllamaKeySources(config, env)
    ensures s.endpoint != "" && (s.endpoint == OllamaDefaultEndpoint || Some(s.endpoint) in OllamaEndpointSources(config, env))
    ensures s.model != "" && (s.model == OllamaDefaultModel || Some(s.model) in OllamaModelSources(config, env))
  {
    var keys := OllamaKeySources(config, env);
    assert !NoneTruthyBefore(keys, 2) <==> Truthy(keys[0]) || Truthy(keys[1]);
    Settings(FirstTruthy(keys),
             Resolve(OllamaEndpointSources(config, env), OllamaDefaultEndpoint),
             Resolve(OllamaModelSources(config, env), OllamaDefaultModel))
  }

  /** A value the request supplies wins over everything else (OpenAI engine). */
  lemma OpenAIRequestConfigWins(config: Option<ProviderConfig>, env: Env)
    ensures Truthy(ConfigApiKey(config)) ==> ResolveOpenAI(config, env).apiKey == ConfigApiKey(config)
    ensures Truthy(ConfigEndpoint(config)) ==> ResolveOpenAI(config, env).endpoint == ConfigEndpoint(config).value
    ensures Truthy(ConfigModelName(config)) ==> ResolveOpenAI(config, env).model == ConfigModelName(config).value
  {
    assert NoneTruthyBefore(OpenAIKeySources(config, env), 0);
    assert NoneTruthyBefore(OpenAIEndpointSources(config, env), 0);
    assert NoneTruthyBefore(OpenAIModelSources(config, env), 0);
  }

  /** A value the request supplies wins over everything else (local-model engine). */
  lemma OllamaRequestConfigWins(config: Option<ProviderConfig>, env: Env)
    ensures Truthy(ConfigApiKey(config)) ==> ResolveOllama(config, env).apiKey == ConfigApiKey(config)
    ensures Truthy(ConfigEndpoint(config)) ==> ResolveOllama(config, env).endpoint == ConfigEndpoint(config).value
    ensures Truthy(ConfigModelName(config)) ==> ResolveOllama(config, env).model == ConfigModelName(config).value
  {
    assert NoneTruthyBefore(OllamaKeySources(config, env), 0);
    assert NoneTruthyBefore(OllamaEndpointSources(config, env), 0);
    assert NoneTruthyBefore(OllamaModelSources(config, env), 0);
  }

  /** When the request config (present or not) supplies no key, the key
      variables are tried in their written order and the first truthy one is
      used; with none of them truthy the key is the last variable's value, so no
      key resolves when it is unset or empty. */
  lemma OpenAIKeyFromEnvironment(config: Option<ProviderConfig>, env: Env)
    requires !Truthy(ConfigApiKey(config))
    ensures var s := ResolveOpenAI(config, env);
      var k1, k2, k3 := EnvVar(env, "TRANSLATE_OPENAI_API_KEY"), EnvVar(env, "NEXT_PUBLIC_TRANSLATE_OPENAI_API_KEY"), EnvVar(env, "OPENAI_API_KEY");
      && (Truthy(k1) ==> s.apiKey == k1)
      && (!Truthy(k1) && Truthy(k2) ==> s.apiKey == k2)
      && (!Truthy(k1) && !Truthy(k2) ==> s.apiKey == k3)
  {
    var keys := OpenAIKeySources(config, env);
    if Truthy(keys[1]) { assert NoneTruthyBefore(keys, 1); }
    else if Truthy(keys[2]) { assert NoneTruthyBefore(keys, 2); }
    else if Truthy(keys[3]) { assert NoneTruthyBefore(keys, 3); }
    else { assert NoneTruthyBefore(keys, 4); }
  }

  /** When the request config supplies no endpoint, the endpoint variables are
      tried in their written order, and `https://api.openai.com` is used when
      none is truthy. */
  lemma OpenAIEndpointFromEnvironment(config: Option<ProviderConfig>, env: Env)
    requires !Truthy(ConfigEndpoint(config))
    ensures var s := ResolveOpenAI(config, env);
      var e1, e2, e3 := EnvVar(env, "TRANSLATE_OPENAI_ENDPOINT"), EnvVar(env, "NEXT_PUBLIC_TRANSLATE_OPENAI_ENDPOINT"), EnvVar(env, "ENDPOINT");
      && (Truthy(e1) ==> s.endpoint == e1.value)
      && (!Truthy(e1) && Truthy(e2) ==> s.endpoint == e2.value)
      && (!Truthy(e1) && !Truthy(e2) && Truthy(e3) ==> s.endpoint == e3.value)
      && (!Truthy(e1) && !Truthy(e2) && !Truthy(e3) ==> s.endpoint == OpenAIDefaultEndpoint)
  {
    var endpoints := OpenAIEndpointSources(config, env);
    if Truthy(endpoints[1]) { assert NoneTruthyBefore(endpoints, 1); }
    else if Truthy(endpoints[2]) { assert NoneTruthyBefore(endpoints, 2); }
    else if Truthy(endpoints[3]) { assert NoneTruthyBefore(endpoints, 3); }
    else { assert NoneTruthyBefore(endpoints, 4); }
  }

  /** When the request config supplies no model, the model variables are tried
      in their written order, and `gpt-5-nano` is used when none is truthy. */
  lemma OpenAIModelFromEnvironment(config: Option<ProviderConfig>, env: Env)
    requires !Truthy(ConfigModelName(config))
    ensures var s := ResolveOpenAI(config, env);
      var m1, m2, m3 := EnvVar(env, "TRANSLATE_OPENAI_MODEL_NAME"), EnvVar(env, "NEXT_PUBLIC_TRANSLATE_OPENAI_MODEL_NAME"), EnvVar(env, "MODEL_NAME");
      && (Truthy(m1) ==> s.model == m1.value)
      && (!Truthy(m1) && Truthy(m2) ==> s.model == m2.value)
      && (!Truthy(m1) && !Truthy(m2) && Truthy(m3) ==> s.model == m3.value)
      && (!Truthy(m1) && !Truthy(m2) && !Truthy(m3) ==> s.model == OpenAIDefaultModel)
  {
    var models := OpenAIModelSources(config, env);
    if Truthy(models[1]) { assert NoneTruthyBefore(models, 1); }
    else if Truthy(models[2]) { assert NoneTruthyBefore(models, 2); }
    else if Truthy(models[3]) { assert NoneTruthyBefore(models, 3); }
    else { assert NoneTruthyBefore(models, 4); }
  }

  /** The same for the local-model engine, field by field: a field the request
      config does not supply comes from `OLLAMA_API_KEY` (its value, so none
      when unset), `OLLAMA_ENDPOINT` or `OLLAMA_MODEL_NAME` when truthy, and
      otherwise from the defaults. */
  lemma OllamaEnvironmentThenDefaults(config: Option<ProviderConfig>, env: Env)
    ensures var s, k := ResolveOllama(config, env), EnvVar(env, "OLLAMA_API_KEY");
      !Truthy(ConfigApiKey(config)) ==> s.apiKey == k
    ensures var s, e := ResolveOllama(config, env), EnvVar(env, "OLLAMA_ENDPOINT");
      && (!Truthy(ConfigEndpoint(config)) && Truthy(e) ==> s.endpoint == e.value)
      && (!Truthy(ConfigEndpoint(config)) && !Truthy(e) ==> s.endpoint == OllamaDefaultEndpoint)
    ensures var s, m := ResolveOllama(config, env), EnvVar(env, "OLLAMA_MODEL_NAME");
      && (!Truthy(ConfigModelName(config)) && Truthy(m) ==> s.model == m.value)
      && (!Truthy(ConfigModelName(config)) && !Truthy(m) ==> s.model == OllamaDefaultModel)
  {
    var keys, endpoints, models := OllamaKeySources(config, env), OllamaEndpointSources(config, env), OllamaModelSources(config, env);
    if !Truthy(keys[0]) {
      if Truthy(keys[1]) { assert NoneTruthyBefore(keys, 1); } else { assert NoneTruthyBefore(keys, 2); }
    }
    if !Truthy(endpoints[0]) {
      if Truthy(endpoints[1]) { assert NoneTruthyBefore(endpoints, 1); } else { assert NoneTruthyBefore(endpoints, 2); }
    }
    if !Truthy(models[0]) {
      if Truthy(models[1]) { assert NoneTruthyBefore(models, 1); } else { assert NoneTruthyBefore(models, 2); }
    }
  }

  // ---------------------------------------------------------------------------
  // Reading a provider's reply.

  /** `parsed.output[0]?.content?.[0]?.text`, for an `output` that is an array. */
  function FirstContentText(reply: OpenAIReply): Option<string>
  {
    match reply.output
    case None => None
    case Some(items) =>
      if |items| == 0 then None
      else match items[0].content
        case None => None
        case Some(parts) => if |parts| == 0 then None else parts[0].text
  }

  /** The text of a responses-API reply: the flat field is preferred, the nested
      one is the fallback, and the result is empty only when both are. */
  function OpenAIText(reply: OpenAIReply): (r: string)
    ensures Truthy(reply.outputText) ==> r == reply.outputText.value
    ensures r != "" ==> Some(r) == reply.outputText || Some(r) == FirstContentText(reply)
    ensures r == "" <==> !Truthy(reply.outputText) && !Truthy(FirstContentText(reply))
  {
    if Truthy(reply.outputText) then reply.outputText.value
    else if Truthy(FirstContentText(reply)) then FirstContentText(reply).value
    else ""
  }

  /** `parsed.response || parsed.output || ""`. */
  function OllamaText(reply: OllamaReply): (r: string)
    ensures Truthy(reply.response) ==> r == reply.response.value
    ensures r != "" ==> Some(r) == reply.response || Some(r) == reply.output
    ensures r == "" <==> !Truthy(reply.response) && !Truthy(reply.output)
  {
    if Truthy(reply.response) then reply.response.value
    else if Truthy(reply.output) then reply.output.value
    else ""
  }

  /** The failure boundary both HTTP engines put around their call: a thrown
      fetch becomes an Error (with a fixed message when the thrown value was not
      an Error), a non-ok status an Error carrying the raw body, an unparsable
      body an Error carrying the raw body; otherwise the text is extracted. */
  function ReadReply<J>(o: FetchOutcome<J>, fetchFailed: string, statusPrefix: string, parsePrefix: string,
                        extract: J -> string): (r: Result<string, Thrown>)
    ensures r.Err? ==> r.error.ErrorThrown?
    ensures o.NetworkFailure? && o.thrown.ErrorThrown? ==> r == Err(o.thrown)
    ensures o.NetworkFailure? && o.thrown.ValueThrown? ==> r == Err(ErrorThrown(fetchFailed))
    ensures o.Reply? && !o.ok ==> r == Err(ErrorThrown(statusPrefix + o.body))
    ensures o.Reply? && o.ok && o.json.None? ==> r == Err(ErrorThrown(parsePrefix + o.body))
    ensures r.Ok? <==> o.Reply? && o.ok && o.json.Some?
    ensures r.Ok? ==> r.value == extract(o.json.value)
  {
    match o
    case NetworkFailure(e) => Err(ErrorThrown(if e.ErrorThrown? then e.message else fetchFailed))
    case Reply(ok, body, json) =>
      if !ok then Err(ErrorThrown(statusPrefix + body))
      else match json
        case None => Err(ErrorThrown(parsePrefix + body))
        case Some(d) => Ok(extract(d))
  }

  // ---------------------------------------------------------------------------
  // The three engines.

  /** The responses-API request: a POST to `endpoint + "/v1/responses"` with the
      JSON content type and the bearer key, whose body carries the model and the
      instruction followed by the text. */
  function OpenAIRequest(s: Settings, apiKey: string, text: string): (req: HttpRequest)
    ensures req.verb == "POST" && req.url == s.endpoint + "/v1/responses"
    ensures req.headers == [Header("Content-Type", "application/json"), Header("Authorization", "Bearer " + apiKey)]
    ensures req.body == ResponsesJson(s.model, OpenAIInstruction + text)
  {
    HttpRequest("POST", s.endpoint + "/v1/responses", [JsonContentType, BearerHeader(apiKey)],
                ResponsesJson(s.model, OpenAIInstruction + text))
  }

  /** `translateWithOpenAI`: no request at all without a key; with one, a single
      request, the text of an ok, parsable reply, and each failure thrown as an
      Error with its own message. */
  function TranslateWithOpenAI(text: string, config: Option<ProviderConfig>, env: Env,
                               fetch: HttpRequest -> FetchOutcome<OpenAIReply>): (r: EngineRun)
    ensures !Truthy(ResolveOpenAI(config, env).apiKey) ==>
      r == EngineRun(Err(ErrorThrown(OpenAIMissingKeyMessage)), [])
    ensures var s := ResolveOpenAI(config, env);
      Truthy(s.apiKey) ==>
        var request := OpenAIRequest(s, s.apiKey.value, text);
        var o := fetch(request);
        && r.calls == [HttpCall(request)]
        && (r.result.Ok? <==> o.Reply? && o.ok && o.json.Some?)
        && (r.result.Ok? ==> r.result.value == OpenAIText(o.json.value))
        && (o.NetworkFailure? ==>
              r.result == Err(ErrorThrown(if o.thrown.ErrorThrown? then o.thrown.message else OpenAIFetchFailedMessage)))
        && (o.Reply? && !o.ok ==> r.result == Err(ErrorThrown(OpenAIStatusPrefix + o.body)))
        && (o.Reply? && o.ok && o.json.None? ==> r.result == Err(ErrorThrown(OpenAIParsePrefix + o.body)))
  {
    var s := ResolveOpenAI(config, env);
    if !Truthy(s.apiKey) then EngineRun(Err(ErrorThrown(OpenAIMissingKeyMessage)), [])
    else
      var request := OpenAIRequest(s, s.apiKey.value, text);
      EngineRun(ReadReply(fetch(request), OpenAIFetchFailedMessage, OpenAIStatusPrefix, OpenAIParsePrefix, OpenAIText),
                [HttpCall(request)])
  }

  /** The local-model request: an Authorization header only when a key resolves. */
  function OllamaRequest(s: Settings, text: string): (req: HttpRequest)
    ensures req.verb == "POST" && req.url == s.endpoint + "/api/generate"
    ensures req.headers == [Header("Content-Type", "application/json")]
                           + (if Truthy(s.apiKey) then [Header("Authorization", "Bearer " + s.apiKey.value)] else [])
    ensures req.body == GenerateJson(s.model, OllamaInstruction + text, false)
    ensures (exists h :: h in req.headers && h.name == "Authorization") <==> Truthy(s.apiKey)
    ensures Truthy(s.apiKey) ==> BearerHeader(s.apiKey.value) in req.headers
  {
    var auth := if Truthy(s.apiKey) then [BearerHeader(s.apiKey.value)] else [];
    var req := HttpRequest("POST", s.endpoint + "/api/generate", [JsonContentType] + auth,
                           GenerateJson(s.model, OllamaInstruction + text, false));
    assert req.headers[0] == JsonContentType;
    assert Truthy(s.apiKey) ==> req.headers[1] == BearerHeader(s.apiKey.value);
    req
  }

  /** `translateWithOllama`: always exactly one request, with or without a key;
      the text of an ok, parsable reply is returned, and each failure throws an
      Error with its own message. */
  function TranslateWithOllama(text: string, config: Option<ProviderConfig>, env: Env,
                               fetch: HttpRequest -> FetchOutcome<OllamaReply>): (r: EngineRun)
    ensures var request := OllamaRequest(ResolveOllama(config, env), text);
      var o := fetch(request);
      && r.calls == [HttpCall(request)]
      && (r.result.Ok? <==> o.Reply? && o.ok && o.json.Some?)
      && (r.result.Ok? ==> r.result.value == OllamaText(o.json.value))
      && (o.NetworkFailure? ==>
            r.result == Err(ErrorThrown(if o.thrown.ErrorThrown? then o.thrown.message else OllamaFetchFailedMessage)))
      && (o.Reply? && !o.ok ==> r.result == Err(ErrorThrown(OllamaStatusPrefix + o.body)))
      && (o.Reply? && o.ok && o.json.None? ==> r.result == Err(ErrorThrown(OllamaParsePrefix + o.body)))
      && (r.result.Err? ==> r.result.error.ErrorThrown?)
  {
    var request := OllamaRequest(ResolveOllama(config, env), text);
    EngineRun(ReadReply(fetch(request), OllamaFetchFailedMessage, OllamaStatusPrefix, OllamaParsePrefix, OllamaText),
              [HttpCall(request)])
  }

  /** `translateWithGoogle`: one library call from English to Japanese; its text
      is returned and whatever it throws is passed on unchanged. */
  function TranslateWithGoogle(text: string, google: GoogleRequest -> GoogleOutcome): (r: EngineRun)
    ensures var request := GoogleRequest(text, "en", "ja");
      && r.calls == [GoogleCall(request)]
      && (r.result.Ok? <==> google(request).GoogleTranslated?)
      && (r.result.Ok? ==> r.result.value == google(request).text)
      && (r.result.Err? ==> r.result.error == google(request).thrown)
  {
    var request := GoogleRequest(text, "en", "ja");
    match google(request)
    case GoogleTranslated(t) => EngineRun(Ok(t), [GoogleCall(request)])
    case GoogleThrew(e) => EngineRun(Err(e), [GoogleCall(request)])
  }

  // ---------------------------------------------------------------------------
  // The route.

  /** The JSON request body once read; `text` and `engine` may be missing. */
  datatype TranslateRequest = TranslateRequest(
    text: Option<string>, engine: Option<string>,
    openaiConfig: Option<ProviderConfig>, ollamaConfig: Option<ProviderConfig>)

  /** The request body: read and destructured, or reading it threw. */
  datatype IncomingBody = Parsed(request: TranslateRequest) | Unreadable(thrown: Thrown)

  datatype Envelope = Translation(translation: string) | Failure(error: string)
  datatype Response = Response(status: int, body: Envelope)
  datatype Handled = Handled(response: Response, calls: seq<Call>)

  datatype Engine = OpenAI | Google | Ollama

  /** `engine = "openai"` as a destructuring default, then the if/else chain. */
  function SelectEngine(engine: Option<string>): (e: Engine)
    ensures e == Google <==> engine == Some("google")
    ensures e == Ollama <==> engine == Some("ollama")
    ensures engine.None? ==> e == OpenAI
  {
    var name := if engine.Some? then engine.value else "openai";
    if name == "google" then Google else if name == "ollama" then Ollama else OpenAI
  }

  function RunEngine(text: string, request: TranslateRequest, env: Env, oracles: Oracles): EngineRun
  {
    match SelectEngine(request.engine)
    case Google => TranslateWithGoogle(text, oracles.google)
    case Ollama => TranslateWithOllama(text, request.ollamaConfig, env, oracles.ollama)
    case OpenAI => TranslateWithOpenAI(text, request.openaiConfig, env, oracles.openai)
  }

  /** The message the route's `catch` reports. */
  function CaughtMessage(e: Thrown): string
  {
    if e.ErrorThrown? then e.message else UnknownErrorMessage
  }

  /** `POST`: every path ends in a response, status 200 exactly when it carries a
      translation, and at most one outbound call is made. */
  function Post(body: IncomingBody, env: Env, oracles: Oracles): (h: Handled)
    ensures h.response.status == 200 <==> h.response.body.Translation?
    ensures h.response.status in {200, 400, 500}
    ensures |h.calls| <= 1
    ensures body.Unreadable? ==>
      h == Handled(Response(500, Failure(if body.thrown.ErrorThrown? then body.thrown.message else UnknownErrorMessage)), [])
  {
    match body
    case Unreadable(e) => Handled(Response(500, Failure(CaughtMessage(e))), [])
    case Parsed(request) =>
      if !Truthy(request.text) then Handled(Response(400, Failure(NoTextMessage)), [])
      else
        var run := RunEngine(request.text.value, request, env, oracles);
        match run.result
        case Ok(t) => Handled(Response(200, Translation(t)), run.calls)
        case Err(e) => Handled(Response(500, Failure(CaughtMessage(e))), run.calls)
  }

  /** A missing or empty `text` is rejected with 400 and no engine is called. */
  lemma MissingTextRejected(request: TranslateRequest, env: Env, oracles: Oracles)
    requires !Truthy(request.text)
    ensures Post(Parsed(request), env, oracles) == Handled(Response(400, Failure(NoTextMessage)), [])
  {
  }

  /** Which call is made is decided by the engine name alone. */
  lemma EngineDispatch(request: TranslateRequest, env: Env, oracles: Oracles)
    requires Truthy(request.text)
    ensures var h := Post(Parsed(request), env, oracles);
      var text := request.text.value;
      && (request.engine == Some("google") ==> h.calls == [GoogleCall(GoogleRequest(text, "en", "ja"))])
      && (request.engine == Some("ollama") ==>
            h.calls == [HttpCall(OllamaRequest(ResolveOllama(request.ollamaConfig, env), text))])
      && (request.engine != Some("google") && request.engine != Some("ollama") ==>
            forall c :: c in h.calls ==> c.HttpCall? && c.request.url == ResolveOpenAI(request.openaiConfig, env).endpoint + "/v1/responses")
  {
    var h := Post(Parsed(request), env, oracles);
    var text := request.text.value;
    assert h.calls == RunEngine(text, request, env, oracles).calls;
    match SelectEngine(request.engine)
    case Google =>
      assert h.calls == TranslateWithGoogle(text, oracles.google).calls;
    case Ollama =>
      assert h.calls == TranslateWithOllama(text, request.ollamaConfig, env, oracles.ollama).calls;
    case OpenAI =>
      assert h.calls == TranslateWithOpenAI(text, request.openaiConfig, env, oracles.openai).calls;
  }

  /** The OpenAI engine with no resolvable key fails with 500 before any request. */
  lemma OpenAIMissingKeyRejected(request: TranslateRequest, env: Env, oracles: Oracles)
    requires Truthy(request.text)
    requires SelectEngine(request.engine) == OpenAI
    requires !Truthy(ResolveOpenAI(request.openaiConfig, env).apiKey)
    ensures Post(Parsed(request), env, oracles) == Handled(Response(500, Failure(OpenAIMissingKeyMessage)), [])
  {
  }

  /** End to end through the OpenAI engine once a key resolves: the reply's status
      and parse failures surface with the raw body, a good reply is translated. */
  lemma OpenAIOutcomes(request: TranslateRequest, env: Env, oracles: Oracles)
    requires Truthy(request.text)
    requires SelectEngine(request.engine) == OpenAI
    requires Truthy(ResolveOpenAI(request.openaiConfig, env).apiKey)
    ensures var s := ResolveOpenAI(request.openaiConfig, env);
      var call := OpenAIRequest(s, s.apiKey.value, request.text.value);
      var o := oracles.openai(call);
      var h := Post(Parsed(request), env, oracles);
      && h.calls == [HttpCall(call)]
      && call.url == s.endpoint + "/v1/responses"
      && BearerHeader(s.apiKey.value) in call.headers
      && (o.Reply? && !o.ok ==> h.response == Response(500, Failure(OpenAIStatusPrefix + o.body)))
      && (o.Reply? && o.ok && o.json.None? ==> h.response == Response(500, Failure(OpenAIParsePrefix + o.body)))
      && (o.Reply? && o.ok && o.json.Some? ==> h.response == Response(200, Translation(OpenAIText(o.json.value))))
      && (o.NetworkFailure? ==>
            h.response == Response(500, Failure(if o.thrown.ErrorThrown? then o.thrown.message else OpenAIFetchFailedMessage)))
  {
    var s := ResolveOpenAI(request.openaiConfig, env);
    var call := OpenAIRequest(s, s.apiKey.value, request.text.value);
    assert call.headers[1] == BearerHeader(s.apiKey.value);
  }

  /** End to end through the local-model engine. */
  lemma OllamaOutcomes(request: TranslateRequest, env: Env, oracles: Oracles)
    requires Truthy(request.text)
    requires request.engine == Some("ollama")
    ensures var call := OllamaRequest(ResolveOllama(request.ollamaConfig, env), request.text.value);
      var o := oracles.ollama(call);
      var h := Post(Parsed(request), env, oracles);
      && h.calls == [HttpCall(call)]
      && (o.Reply? && !o.ok ==> h.response == Response(500, Failure(OllamaStatusPrefix + o.body)))
      && (o.Reply? && o.ok && o.json.None? ==> h.response == Response(500, Failure(OllamaParsePrefix + o.body)))
      && (o.Reply? && o.ok && o.json.Some? ==> h.response == Response(200, Translation(OllamaText(o.json.value))))
      && (o.NetworkFailure? ==>
            h.response == Response(500, Failure(if o.thrown.ErrorThrown? then o.thrown.message else OllamaFetchFailedMessage)))
  {
  }

  /** End to end through the public translation library: whatever it throws is
      reported with 500, its text is returned with 200. */
  lemma GoogleOutcomes(request: TranslateRequest, env: Env, oracles: Oracles)
    requires Truthy(request.text)
    requires request.engine == Some("google")
    ensures var o := oracles.google(GoogleRequest(request.text.value, "en", "ja"));
      var h := Post(Parsed(request), env, oracles);
      && (o.GoogleTranslated? ==> h.response == Response(200, Translation(o.text)))
      && (o.GoogleThrew? && o.thrown.ErrorThrown? ==> h.response == Response(500, Failure(o.thrown.message)))
      && (o.GoogleThrew? && o.thrown.ValueThrown? ==> h.response == Response(500, Failure(UnknownErrorMessage)))
  {
  }

  /** The body the page sends per segment: only the text. */
  function ClientRequest(text: string): IncomingBody
  {
    Parsed(TranslateRequest(Some(text), None, None, None))
  }

  /** Such a request always goes to the OpenAI engine, configured by the
      environment alone. */
  lemma ClientRequestUsesOpenAI(text: string, env: Env, oracles: Oracles)
    ensures var h := Post(ClientRequest(text), env, oracles);
      && (text == "" ==> h.response == Response(400, Failure(NoTextMessage)) && h.calls == [])
      && (forall c :: c in h.calls ==> c.HttpCall? && c.request.url == ResolveOpenAI(None, env).endpoint + "/v1/responses")
  {
    if text != "" {
      EngineDispatch(ClientRequest(text).request, env, oracles);
    }
  }
}
