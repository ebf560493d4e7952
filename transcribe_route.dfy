/** The transcription route (`POST /api/transcribe`): a linear sequence of
    guards (file present, optional config, API key), one multipart request to a
    Whisper-compatible endpoint, and the reply passed back as `{transcript,
    segments}`. Two steps are not guarded in the route: a thrown `fetch` and a
    reply body that is not JSON escape the handler. */
module TranscribeRoute {
  import opened Js
  import opened Http

  const NoFileMessage := "音声ファイルがありません。"
  const MissingKeyMessage := "OpenAI APIキーが設定されていません。"
  const DefaultEndpoint := "https://api.openai.com"
  const TranscriptionPath := "/v1/audio/transcriptions"
  const WhisperModel := "whisper-1"
  const WhisperResponseFormat := "verbose_json"

  /** The multipart form received: the `file` field and the `openaiConfig` string field. */
  datatype Form = Form(file: Option<MediaFile>, openaiConfig: Option<string>)

  /** The parts of a verbose transcription the route forwards; the segment list
      is forwarded as it is, so its element type is left open. */
  datatype WhisperReply<S> = WhisperReply(text: Option<string>, segments: Option<S>)

  datatype Envelope<S> = Transcription(transcript: Option<string>, segments: Option<S>) | Failure(error: string)

  /** Either the handler produced a response, or an exception left it. */
  datatype Outcome<S> = Responded(status: int, body: Envelope<S>) | Escaped

  datatype Handled<S> = Handled(outcome: Outcome<S>, calls: seq<HttpRequest>)

  /** The config field after `JSON.parse`, with a throwing parse treated as no
      config. The ensures only unfold the body for callers; what the route does
      with the result is stated by `UnparsableConfigIgnored` and
      `ParsedConfigSupplies`. */
  function ReadConfig(field: Option<string>, parseJson: string -> Option<ProviderConfig>): (c: Option<ProviderConfig>)
    ensures !Truthy(field) ==> c.None?
    ensures Truthy(field) ==> c == parseJson(field.value)
  {
    if Truthy(field) then parseJson(field.value) else None
  }

  /** `config.apiKey || OPENAI_API_KEY`: a key resolves exactly when one of the
      two supplies one, and it is one of them. */
  function ResolveKey(config: Option<ProviderConfig>, env: Env): (k: Option<string>)
    ensures Truthy(k) <==> Truthy(ConfigApiKey(config)) || Truthy(EnvVar(env, "OPENAI_API_KEY"))
    ensures k == ConfigApiKey(config) || k == EnvVar(env, "OPENAI_API_KEY")
  {
    var keys := [ConfigApiKey(config), EnvVar(env, "OPENAI_API_KEY")];
    assert !NoneTruthyBefore(keys, 2) <==> Truthy(keys[0]) || Truthy(keys[1]);
    FirstTruthy(keys)
  }

  /** `config.endpoint || ENDPOINT || "https://api.openai.com"`: never empty, and
      one of its two sources or the default. */
  function ResolveEndpoint(config: Option<ProviderConfig>, env: Env): (e: string)
    ensures e != ""
    ensures e == DefaultEndpoint || Some(e) == ConfigEndpoint(config) || Some(e) == EnvVar(env, "ENDPOINT")
  {
    Resolve([ConfigEndpoint(config), EnvVar(env, "ENDPOINT")], DefaultEndpoint)
  }

  /** The outbound request: a POST to the transcription path carrying only the
      bearer header, and a form with the file, `whisper-1` and `verbose_json`
      whatever the config says. */
  function TranscriptionRequest(endpoint: string, apiKey: string, file: MediaFile): (req: HttpRequest)
    ensures req.verb == "POST" && req.url == endpoint + "/v1/audio/transcriptions"
    ensures req.headers == [Header("Authorization", "Bearer " + apiKey)]
    ensures req.body == TranscriptionForm(file, "whisper-1", "verbose_json")
  {
    HttpRequest("POST", endpoint + TranscriptionPath, [BearerHeader(apiKey)],
                TranscriptionForm(file, WhisperModel, WhisperResponseFormat))
  }

  function Post<S>(form: Form, env: Env, parseJson: string -> Option<ProviderConfig>,
                   fetch: HttpRequest -> FetchOutcome<WhisperReply<S>>): (h: Handled<S>)
    ensures |h.calls| <= 1
    ensures h.outcome.Responded? ==> (h.outcome.status == 200 <==> h.outcome.body.Transcription?)
    ensures h.outcome.Responded? && h.outcome.body.Failure? ==> h.outcome.status in {400, 500}
  {
    match form.file
    case None => Handled(Responded(400, Failure(NoFileMessage)), [])
    case Some(file) =>
      var config := ReadConfig(form.openaiConfig, parseJson);
      var apiKey := ResolveKey(config, env);
      var endpoint := ResolveEndpoint(config, env);
      if !Truthy(apiKey) then Handled(Responded(500, Failure(MissingKeyMessage)), [])
      else
        var request := TranscriptionRequest(endpoint, apiKey.value, file);
        match fetch(request)
        case NetworkFailure(_) => Handled(Escaped, [request])
        case Reply(ok, body, json) =>
          if !ok then Handled(Responded(500, Failure(body)), [request])
          else match json
            case None => Handled(Escaped, [request])
            case Some(data) => Handled(Responded(200, Transcription(data.text, data.segments)), [request])
  }

  /** Without a file the route answers 400 before anything else. */
  lemma MissingFileRejected<S>(form: Form, env: Env, parseJson: string -> Option<ProviderConfig>,
                               fetch: HttpRequest -> FetchOutcome<WhisperReply<S>>)
    requires form.file.None?
    ensures Post(form, env, parseJson, fetch) == Handled(Responded(400, Failure(NoFileMessage)), [])
  {
  }

  /** A config string that does not parse counts as no config at all. */
  lemma UnparsableConfigIgnored<S>(file: MediaFile, config: string, env: Env,
                                   parseJson: string -> Option<ProviderConfig>,
                                   fetch: HttpRequest -> FetchOutcome<WhisperReply<S>>)
    requires parseJson(config).None?
    ensures Post(Form(Some(file), Some(config)), env, parseJson, fetch) == Post(Form(Some(file), None), env, parseJson, fetch)
  {
  }

  /** A request config wins for key and endpoint; without one the environment and
      then the default apply. */
  lemma ConfigPriority(config: Option<ProviderConfig>, env: Env)
    ensures Truthy(ConfigApiKey(config)) ==> ResolveKey(config, env) == ConfigApiKey(config)
    ensures !Truthy(ConfigApiKey(config)) ==> ResolveKey(config, env) == EnvVar(env, "OPENAI_API_KEY")
    ensures Truthy(ConfigEndpoint(config)) ==> ResolveEndpoint(config, env) == ConfigEndpoint(config).value
    ensures !Truthy(ConfigEndpoint(config)) && Truthy(EnvVar(env, "ENDPOINT")) ==> ResolveEndpoint(config, env) == env["ENDPOINT"]
    ensures !Truthy(ConfigEndpoint(config)) && !Truthy(EnvVar(env, "ENDPOINT")) ==> ResolveEndpoint(config, env) == DefaultEndpoint
  {
    assert NoneTruthyBefore([ConfigApiKey(config), EnvVar(env, "OPENAI_API_KEY")], 0);
    assert NoneTruthyBefore([ConfigEndpoint(config), EnvVar(env, "ENDPOINT")], 0);
  }

  /** With a file but no resolvable key: 500 and no outbound request. */
  lemma MissingKeyRejected<S>(form: Form, env: Env, parseJson: string -> Option<ProviderConfig>,
                              fetch: HttpRequest -> FetchOutcome<WhisperReply<S>>)
    requires form.file.Some?
    requires !Truthy(ResolveKey(ReadConfig(form.openaiConfig, parseJson), env))
    ensures Post(form, env, parseJson, fetch) == Handled(Responded(500, Failure(MissingKeyMessage)), [])
  {
  }

  /** With a file and a key, exactly one request is made, to the transcription
      path of the resolved endpoint, carrying the key, the file, `whisper-1` and
      `verbose_json`; then a non-ok status is answered with the raw body, a good
      reply is forwarded unchanged, and an unparsable reply escapes. */
  lemma TranscriptionOutcomes<S>(form: Form, env: Env, parseJson: string -> Option<ProviderConfig>,
                                 fetch: HttpRequest -> FetchOutcome<WhisperReply<S>>)
    requires form.file.Some?
    requires Truthy(ResolveKey(ReadConfig(form.openaiConfig, parseJson), env))
    ensures var config := ReadConfig(form.openaiConfig, parseJson);
      var key := ResolveKey(config, env).value;
      var h := Post(form, env, parseJson, fetch);
      var o := fetch(h.calls[0]);
      && |h.calls| == 1
      && h.calls[0].url == ResolveEndpoint(config, env) + "/v1/audio/transcriptions"
      && h.calls[0].headers == [Header("Authorization", "Bearer " + key)]
      && h.calls[0].body == TranscriptionForm(form.file.value, "whisper-1", "verbose_json")
      && (o.Reply? && !o.ok ==> h.outcome == Responded(500, Failure(o.body)))
      && (o.Reply? && o.ok && o.json.Some? ==>
            h.outcome == Responded(200, Transcription(o.json.value.text, o.json.value.segments)))
      && (o.Reply? && o.ok && o.json.None? ==> h.outcome == Escaped)
      && (o.NetworkFailure? ==> h.outcome == Escaped)
  {
  }

  /** A config field that parses to a config with a key: that key is the one
      sent, and the config's endpoint, when it has one, is the one called. */
  lemma ParsedConfigSupplies<S>(file: MediaFile, field: string, c: ProviderConfig, env: Env,
                                parseJson: string -> Option<ProviderConfig>,
                                fetch: HttpRequest -> FetchOutcome<WhisperReply<S>>)
    requires field != "" && parseJson(field) == Some(c)
    requires Truthy(c.apiKey)
    ensures var h := Post(Form(Some(file), Some(field)), env, parseJson, fetch);
      && |h.calls| == 1
      && h.calls[0].headers == [Header("Authorization", "Bearer " + c.apiKey.value)]
      && (Truthy(c.endpoint) ==> h.calls[0].url == c.endpoint.value + "/v1/audio/transcriptions")
      && (!Truthy(c.endpoint) ==> h.calls[0].url == ResolveEndpoint(None, env) + "/v1/audio/transcriptions")
  {
    var config := ReadConfig(Some(field), parseJson);
    assert config == Some(c);
    ConfigPriority(config, env);
    ConfigPriority(None, env);
    var request := TranscriptionRequest(ResolveEndpoint(config, env), c.apiKey.value, file);
    assert Post(Form(Some(file), Some(field)), env, parseJson, fetch).calls == [request];
  }

  /** The model name in the request config plays no part in the route. */
  lemma ModelNameIgnored<S>(file: MediaFile, c: ProviderConfig, name: Option<string>, env: Env,
                            fetch: HttpRequest -> FetchOutcome<WhisperReply<S>>)
    ensures var f := (s: string) => Some(c);
      var g := (s: string) => Some(c.(modelName := name));
      Post(Form(Some(file), Some("{}")), env, f, fetch) == Post(Form(Some(file), Some("{}")), env, g, fetch)
  {
  }
}
