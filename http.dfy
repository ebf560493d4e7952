/** Shapes shared by the two server routes: provider configuration sent by the
    client, the outbound requests the routes build, and what the outside world
    answers. The network itself is never modelled: a `fetch` is a function
    parameter from the request to its outcome. */
module Http {
  import opened Js

  newtype byte = x: int | 0 <= x < 256

  /** Connection settings a client may send for a provider; every field may be missing. */
  datatype ProviderConfig = ProviderConfig(apiKey: Option<string>, endpoint: Option<string>, modelName: Option<string>)

  /** `config?.apiKey`, `config?.endpoint`, `config?.modelName` on a config that may be undefined. */
  function ConfigApiKey(c: Option<ProviderConfig>): Option<string>
  {
    if c.Some? then c.value.apiKey else None
  }

  function ConfigEndpoint(c: Option<ProviderConfig>): Option<string>
  {
    if c.Some? then c.value.endpoint else None
  }

  function ConfigModelName(c: Option<ProviderConfig>): Option<string>
  {
    if c.Some? then c.value.modelName else None
  }

  /** An uploaded media file: its name and its bytes. */
  datatype MediaFile = MediaFile(name: string, bytes: seq<byte>)

  datatype Header = Header(name: string, value: string)

  /** The three outbound request bodies the routes send. */
  datatype RequestBody =
    | ResponsesJson(model: string, input: string)
    | GenerateJson(model: string, prompt: string, stream: bool)
    | TranscriptionForm(file: MediaFile, model: string, responseFormat: string)

  datatype HttpRequest = HttpRequest(verb: string, url: string, headers: seq<Header>, body: RequestBody)

  /** A value caught by a `catch` block: an `Error` object with its message, or
      anything else that was thrown. */
  datatype Thrown = ErrorThrown(message: string) | ValueThrown

  /** What a `fetch` followed by reading the body produces: either the call threw,
      or a reply arrived with its `ok` flag, its raw body text, and the outcome of
      `JSON.parse` on that text (`None` when it throws). */
  datatype FetchOutcome<J> =
    | NetworkFailure(thrown: Thrown)
    | Reply(ok: bool, body: string, json: Option<J>)

  function BearerHeader(apiKey: string): Header
  {
    Header("Authorization", "Bearer " + apiKey)
  }

  const JsonContentType := Header("Content-Type", "application/json")
}
