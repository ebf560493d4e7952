# voice-translator, modelled in Dafny

voice-translator is a small Next.js app. It transcribes an English audio file into timed
segments and translates them into Japanese. It shows English and Japanese side by side and
highlights the segment being played. It can also save the segments as a tab-separated file and
read that file back. Speech recognition and translation are done by outside HTTP services:
Whisper-compatible, OpenAI-compatible, Ollama, and a Google translation library.

What is left is decision logic, and this project models it:

- **The page** (`src/app/page.tsx`):
  - `Home.Page` is a class whose fields are the component's state. Its methods are the event
    handlers.
  - `Home.Page.TranslateSegments` is the incremental translator. It is a loop with `continue` and
    `break` over an array copy of the segments, and it is proved equal to the recursive
    specification `SegmentTranslation.Translate`.
  - `SegmentTranslation` describes one pass without reference to its steps: the first failing
    segment, and what each segment holds afterwards. It proves the pass's properties.
  - `Segments` holds the pure parts: the highlight index, the TSV writer and reader with their
    round trip, and the bilingual row arrays.
- **The translation route** (`src/app/api/translate/route.ts`): `TranslateRoute`. It covers the
  `||` fallback chains for settings, the three engines, reading the reply and the `{error}`
  envelopes.
- **The transcription route** (`src/app/api/transcribe/route.ts`): `TranscribeRoute`. It covers
  the guards, the settings, the request it sends and the envelopes.
- **JavaScript semantics**: `Js` models truthiness, `||` chains, `split` and `join`. `Http`
  models the shared request and reply shapes.

Everything outside the app is a function parameter:

- `fetch`, with its reply already read and passed through `JSON.parse`;
- the Google library;
- the page's call to the translation route;
- `parseFloat` and number formatting;
- the regex sentence splitters.

The environment is a map.

Where the code and its comments or documentation disagree, the model follows the code:

- A file is read as segments when its first line has at least three tab fields, not four
  (`src/app/page.tsx:99`).
- Segments are translated when *some* `ja` is empty, although the comment says "all"
  (`src/app/page.tsx:115`).
- The segment type declares `text` as a string, but a line with fewer than three fields gives an
  undefined `text` (`src/app/page.tsx:107`). The model keeps it undefined. It is shown and joined
  as `""`, and it is saved as the word `undefined` (`src/app/page.tsx:73`).
- In the transcription route, a reply body that is not JSON is not caught. It escapes the
  handler (`TranscribeRoute.Post` returns `Escaped`).

## Model

| member | source | states |
|---|---|---|
| `Js.FirstTruthy` | src/app/api/translate/route.ts:21-25 | `a \|\| b \|\| …`: the result is the first truthy operand. It is the last operand when none is truthy, it is truthy exactly when some operand is, and it is always one of the operands. |
| `Js.Resolve` | src/app/api/translate/route.ts:26-37 | A chain ending in a non-empty literal default. The result is never empty. It is the first truthy operand's value, or the default when no operand is truthy. It is always the default or the value of one of the operands. |
| `Js.Split` | src/app/page.tsx:102 | `split` on one character: at least one piece, no piece holds the separator, and joining the pieces with the separator gives back the input. |
| `Js.SplitLines` | src/app/page.tsx:97 | `split(/\r?\n/)` yields one line per line-feed-separated piece, and always at least one. No line holds a line feed. Every line but the last is its piece with one trailing carriage return removed, and the last line is the last piece unchanged. |
| `Js.SplitOfJoin` | src/app/page.tsx:73 | Splitting undoes joining when no piece contains the separator. |
| `Js.SplitLinesOfJoin` | src/app/page.tsx:74 | Splitting at `\r?\n` undoes joining with `"\n"` when no line holds a line feed and no line but the last ends in a carriage return. |
| `TranslateRoute.ResolveOpenAI` | src/app/api/translate/route.ts:21-37 | The OpenAI key resolves exactly when one of its four sources (request config, then three environment variables) is truthy, and it is always one of them. The endpoint and model are never empty, and each is one of its sources or its default. |
| `TranslateRoute.ResolveOllama` | src/app/api/translate/route.ts:84-86 | The Ollama key resolves exactly when the request config's key or `OLLAMA_API_KEY` is truthy, and it is one of the two. The endpoint and model are never empty, and each is one of its sources or its default. |
| `TranslateRoute.OpenAIRequestConfigWins` | src/app/api/translate/route.ts:21-37 | For the OpenAI engine, a key, endpoint or model given in the request config is used ahead of the environment and the defaults. |
| `TranslateRoute.OllamaRequestConfigWins` | src/app/api/translate/route.ts:84-86 | The same for the Ollama engine. |
| `TranslateRoute.OpenAIKeyFromEnvironment` | src/app/api/translate/route.ts:21-25 | When the request config supplies no key, whether or not a config is present, `TRANSLATE_OPENAI_API_KEY`, `NEXT_PUBLIC_TRANSLATE_OPENAI_API_KEY` and `OPENAI_API_KEY` are tried in that order, and the first truthy one is the key. When the first two are not truthy, the key is `OPENAI_API_KEY`'s value, so no key resolves when it is unset or empty. |
| `TranslateRoute.OpenAIEndpointFromEnvironment` | src/app/api/translate/route.ts:26-31 | When the request config supplies no endpoint, `TRANSLATE_OPENAI_ENDPOINT`, `NEXT_PUBLIC_TRANSLATE_OPENAI_ENDPOINT` and `ENDPOINT` are tried in that order. When none is truthy, the endpoint is `https://api.openai.com`. |
| `TranslateRoute.OpenAIModelFromEnvironment` | src/app/api/translate/route.ts:32-37 | When the request config supplies no model, `TRANSLATE_OPENAI_MODEL_NAME`, `NEXT_PUBLIC_TRANSLATE_OPENAI_MODEL_NAME` and `MODEL_NAME` are tried in that order. When none is truthy, the model is `gpt-5-nano`. |
| `TranslateRoute.OllamaEnvironmentThenDefaults` | src/app/api/translate/route.ts:84-86 | Field by field, when the request config does not supply it: the Ollama key is `OLLAMA_API_KEY`'s value (none when unset). The endpoint is `OLLAMA_ENDPOINT` when truthy, otherwise `http://localhost:11434`. The model is `OLLAMA_MODEL_NAME` when truthy, otherwise `llama3.1:8b`. |
| `TranslateRoute.OpenAIText` | src/app/api/translate/route.ts:80 | `output_text` wins when it is non-empty. Otherwise the result is `output[0].content[0].text`. The result is `""` exactly when both are missing or empty. |
| `TranslateRoute.OllamaText` | src/app/api/translate/route.ts:122 | `response` wins when it is non-empty, then `output`. The result is `""` exactly when both are missing or empty. |
| `TranslateRoute.ReadReply` | src/app/api/translate/route.ts:46-74 | A thrown fetch rethrows its message, or the fixed message when the thrown value was not an Error. A non-ok reply and an unparsable body throw their prefix plus the raw body. The text is extracted exactly when the reply is ok and parsed. Everything thrown is an Error. |
| `TranslateRoute.OpenAIRequest` | src/app/api/translate/route.ts:43-57 | The request is a POST to `endpoint + "/v1/responses"`. Its headers are exactly the JSON content type and `Bearer` plus the key. Its body holds the model and the fixed translator instruction followed by the text. |
| `TranslateRoute.TranslateWithOpenAI` | src/app/api/translate/route.ts:19-80 | With no key it throws the missing-key message and makes no request. With a key it makes exactly one request, built from the resolved settings. The result is a value exactly when the reply is ok and parses, and that value is `OpenAIText` of it. A thrown fetch is rethrown with its Error message, or with the fixed fetch-failed message when the thrown value was not an Error. A non-ok reply throws the status prefix plus the raw body, and an unparsable one the parse prefix plus the raw body. |
| `TranslateRoute.TranslateWithOllama` | src/app/api/translate/route.ts:83-123 | Exactly one request is made, with or without a key: the generate request for the resolved settings. The result is a value exactly when the reply is ok and parses, and that value is the text extracted from it. A thrown fetch is rethrown with its Error message, or with the fixed Ollama fetch-failed message. A non-ok or unparsable reply throws its prefix plus the raw body. |
| `TranslateRoute.TranslateWithGoogle` | src/app/api/translate/route.ts:125-128 | Exactly one library call is made, from `en` to `ja`. Its text is returned when it succeeds. Whatever it throws is passed on unchanged. |
| `TranslateRoute.OllamaRequest` | src/app/api/translate/route.ts:92-103 | The request is a POST to `endpoint + "/api/generate"`, and the body holds the model, the instruction plus the text, and `stream: false`. The headers are exactly the JSON content type, followed by `Bearer` plus the key when a key resolves and by nothing otherwise. |
| `TranslateRoute.SelectEngine` | src/app/api/translate/route.ts:132-153 | `"google"`, and only it, selects Google. `"ollama"`, and only it, selects Ollama. A missing engine selects OpenAI. |
| `TranslateRoute.Post` | src/app/api/translate/route.ts:130-162 | Status 200 exactly when a translation is returned, and every status is 200, 400 or 500. At most one outbound call is made. A body that cannot be read is answered with 500 carrying the thrown Error's message (the unknown-error message for any other thrown value), and no call is made. |
| `TranslateRoute.MissingTextRejected` | src/app/api/translate/route.ts:139-144 | A missing or empty `text` gives 400 with the no-text message, and no engine is called. |
| `TranslateRoute.EngineDispatch` | src/app/api/translate/route.ts:146-153 | Google gets exactly one library call en→ja. Ollama gets exactly its generate request. Any other engine name only ever calls the OpenAI responses URL. |
| `TranslateRoute.OpenAIMissingKeyRejected` | src/app/api/translate/route.ts:39-41 | With the OpenAI engine and no resolvable key, the response is 500 with the missing-key message, and no request is made. |
| `TranslateRoute.OpenAIOutcomes` | src/app/api/translate/route.ts:46-80 | End to end: one bearer-authorised request to `/v1/responses`. A non-ok reply gives 500 with the status prefix plus the body, and an unparsable one gives 500 with the parse prefix plus the body. A good reply gives 200 with the extracted text. A network failure gives 500 with the thrown Error's message, or with the fetch-failed message when the thrown value was not an Error. |
| `TranslateRoute.OllamaOutcomes` | src/app/api/translate/route.ts:90-122 | The same outcomes for the Ollama engine, with its own prefixes, fetch-failed message and extraction. |
| `TranslateRoute.GoogleOutcomes` | src/app/api/translate/route.ts:125-128 | The library's text is returned with 200. A thrown Error gives 500 with its message, and any other thrown value gives 500 with the unknown-error message. |
| `TranslateRoute.ClientRequestUsesOpenAI` | src/app/page.tsx:156-160 | The page's request body carries only `text`. So it is settled by the OpenAI engine with environment settings, and an empty text gives 400 with no call. |
| `TranscribeRoute.Post` | src/app/api/transcribe/route.ts:13-76 | At most one outbound request is made. A response has status 200 exactly when it carries a transcription, and a failure response has status 400 or 500. |
| `TranscribeRoute.MissingFileRejected` | src/app/api/transcribe/route.ts:19-24 | Without a file the response is 400 with the no-file message, and no request is made. |
| `TranscribeRoute.UnparsableConfigIgnored` | src/app/api/transcribe/route.ts:28-34 | A config string that does not parse behaves exactly as no config. |
| `TranscribeRoute.ResolveKey` | src/app/api/transcribe/route.ts:37 | A key resolves exactly when the config's key or `OPENAI_API_KEY` is truthy, and it is one of the two. |
| `TranscribeRoute.ResolveEndpoint` | src/app/api/transcribe/route.ts:38 | The endpoint is never empty. It is the config's endpoint, `ENDPOINT`, or `https://api.openai.com`. |
| `TranscribeRoute.TranscriptionRequest` | src/app/api/transcribe/route.ts:51-65 | The request is a POST to `endpoint + "/v1/audio/transcriptions"`. Its only header is the bearer key, and its form holds the file, `whisper-1` and `verbose_json`. |
| `TranscribeRoute.ParsedConfigSupplies` | src/app/api/transcribe/route.ts:26-61 | When the config field parses to a config with a key, the one request carries that key. It goes to the config's endpoint when the config has one, and otherwise to the endpoint the environment resolves. |
| `TranscribeRoute.ConfigPriority` | src/app/api/transcribe/route.ts:37-38 | The key is `config.apiKey`, then `OPENAI_API_KEY`. The endpoint is `config.endpoint`, then `ENDPOINT`, then `https://api.openai.com`. |
| `TranscribeRoute.MissingKeyRejected` | src/app/api/transcribe/route.ts:40-45 | With a file but no key, the response is 500 with the missing-key message, and no request is made. |
| `TranscribeRoute.TranscriptionOutcomes` | src/app/api/transcribe/route.ts:51-75 | There is exactly one request: to `endpoint + "/v1/audio/transcriptions"`, with the bearer key, the file, `whisper-1` and `verbose_json`. A non-ok reply gives 500 with the raw body. A good reply forwards `text` and `segments` with 200. A thrown fetch or an unparsable reply escapes the handler. |
| `TranscribeRoute.ModelNameIgnored` | src/app/api/transcribe/route.ts:51-54 | The config's model name has no effect on the route. |
| `Segments.HighlightIndex` | src/app/page.tsx:232-235 | The result is the lowest index whose segment has `start <= t < end`, and it is none exactly when no segment covers `t`. Comparisons with NaN are false. |
| `Segments.TsvLine` | src/app/page.tsx:73 | When no cell holds a tab or a line feed, the line holds no line feed, and it splits at tabs into exactly: start, end, text cell, `ja`. An undefined text's cell is the word `undefined`. |
| `Segments.TsvContent` | src/app/page.tsx:71-74 | No segments give `""`. Otherwise, when every cell fits, the content splits at line feeds into exactly one line per segment. |
| `Segments.DownloadContent` | src/app/page.tsx:69-77 | With segments, the file is their lines. Without segments, it is the transcript. |
| `Segments.ParseLine` | src/app/page.tsx:101-110 | `id` is the line index. `start` is `parseFloat` of the first column. `end` is `parseFloat` of the second column, or NaN when it is missing. `text` is the third column, or undefined when it is missing. `ja` is the fourth column, or `""` when it is missing. |
| `Segments.LoadTranscript` | src/app/page.tsx:97-110 | A file is read as segments exactly when its first line has at least three tab fields. Then there is one segment per line, and segment `i` is line `i` read by `ParseLine`. Otherwise the text is kept unchanged. |
| `Segments.TsvLineEnd` | src/app/page.tsx:73 | A line whose cells fit ends in a carriage return only if its `ja` does. |
| `Segments.ParseTsvLine` | src/app/page.tsx:73-110 | The line written for a writable segment has four fields, is a single line, and reads back as that segment with the new id. |
| `Segments.TsvRoundTrip` | src/app/page.tsx:71-110 | Saving a non-empty segment list and choosing the file again gives the same segments, renumbered `0..n-1`, when every segment is writable. Writable means: its text is defined, no cell holds a tab or a line feed, its `ja` does not end in a carriage return, and `parseFloat` reads its two formatted times back. |
| `Segments.ThreeFieldsSuffice` | src/app/page.tsx:99-108 | A one-line file with only three fields is read as one segment with an empty `ja`. |
| `Segments.TrailingNewlineAddsSegment` | src/app/page.tsx:97-110 | A saved file of writable segments with a line feed appended reads back with one extra segment. That segment has an undefined text, an empty `ja`, `parseFloat("")` as its start and a NaN end. |
| `Segments.UndefinedTextComesBack` | src/app/page.tsx:73 | A segment whose text is undefined is saved with `undefined` in its text cell. Read back, its text is the string `"undefined"`. |
| `Segments.BilingualRows` | src/app/page.tsx:30-58 | `maxLines` is the larger of the two lengths. With segments, both columns have one row per segment holding its `text` and its `ja`. Without segments, a non-empty transcript gives the English splitter's sentences and a non-empty translation the Japanese splitter's, and an empty text gives an empty column. |
| `Segments.RowsPairSegments` | src/app/page.tsx:381-393 | With segments, row `idx` exists exactly when `idx` is a segment index, and it shows that segment's text beside its translation. |
| `SegmentTranslation.ErrorMessage` | src/app/page.tsx:166 | `e.message \|\| "エラーが発生しました"` is never empty. It is the message whenever that is non-empty, and the fixed `エラーが発生しました` otherwise. |
| `SegmentTranslation.RunFrom` | src/app/page.tsx:152-169 | The loop from index `i`, written out as recursion. It keeps the number of segments. `RunFromSpec` states its full meaning. |
| `SegmentTranslation.FirstFailure` | src/app/page.tsx:154-168 | The least index at or after `i` whose segment needs translation and whose request fails, or the length when there is none. |
| `SegmentTranslation.RunFromSpec` | src/app/page.tsx:152-168 | A pass from `i` leaves earlier segments alone. From `i` on, it translates exactly the untranslated segments before the first failure. It records that failure's message, and it sends the untranslated texts up to and including the failing one, in order. |
| `SegmentTranslation.NoCallsWhenAllTranslated` | src/app/page.tsx:152-153 | When every `ja` is non-empty, a pass sends nothing, records no error and changes nothing. |
| `SegmentTranslation.TranslationTouchesOnlyJa` | src/app/page.tsx:163 | A pass changes only `ja` fields, and only the empty ones. Count, `id`, `start`, `end` and `text` stay the same. |
| `SegmentTranslation.StopsIffSomeFailure` | src/app/page.tsx:165-167 | A pass records an error exactly when the request for some untranslated segment fails. |
| `SegmentTranslation.FailureHaltsPass` | src/app/page.tsx:154-168 | On a stop at the first failing segment `k`, the error is `k`'s message. The untranslated segments before `k` hold their translations, and `k` and every later segment are unchanged. |
| `SegmentTranslation.CompletedPassTranslatesAll` | src/app/page.tsx:152-169 | A pass without an error has stored the translation of every segment that needed one. |
| `SegmentTranslation.PartialFailureScenario` | src/app/page.tsx:152-168 | Three untranslated segments where the second request fails: the first is translated, the second's error is recorded, and the third is never sent. |
| `SegmentTranslation.SecondPassSendsNothing` | src/app/page.tsx:152-153 | After a completed pass with non-empty answers, a second pass sends nothing. |
| `Home.Page.constructor` | src/app/page.tsx:13-25 | The initial state is empty and idle. The `ended` listener is not attached. |
| `Home.Page.ChooseAudio` | src/app/page.tsx:61-66 | Choosing media sets the audio URL and nothing else. |
| `Home.Page.Play` | src/app/page.tsx:258-263 | Play sets `isPlaying` when the audio element exists, and otherwise changes nothing. |
| `Home.Page.Pause` | src/app/page.tsx:265-270 | Pause clears `isPlaying` when the audio element exists, and otherwise changes nothing. |
| `Home.Page.TimeUpdate` | src/app/page.tsx:227-241 | While playing, with an audio element and segments, the highlight becomes `HighlightIndex(segments, t)`. Otherwise it is unchanged. |
| `Home.Page.OnEnded` | src/app/page.tsx:247-250 | The end handler stops playback and clears the highlight. |
| `Home.Page.MediaEndedAsWritten` | src/app/page.tsx:244-255 | The end of media runs the handler only if the mount-time effect attached it. Otherwise playback state is unchanged. |
| `Home.Page.MediaEnded` | src/app/page.tsx:244-255 | With the listener attached whenever the audio element exists, the end of media always stops playback and clears the highlight. |
| `Home.Page.TranslateSegments` | src/app/page.tsx:148-173 | The in-place loop ends with exactly the segments of `Translate(segs, tr)` and the texts it sends. The error is the recorded failure, or `""` when there is none. The translation is every `ja` joined with `" "`, and loading is idle. |
| `Home.Page.ChooseTranscript` | src/app/page.tsx:90-145 | A segmented file sets the segments and the joined transcript. It runs `TranslateSegments` when some `ja` is empty, and otherwise shows the joined `ja` values and sends nothing. A plain file clears the segments and keeps the text. When the text is non-empty, it is translated as a whole in one request: on success the translation is shown, and on failure the error is shown. |
| `Home.EndedListenerNeverAttached` | src/app/page.tsx:244-255 | As written, mounting, choosing media, playing and reaching the end leaves the page playing. |
| `Home.EndedStopsPlayback` | src/app/page.tsx:247-249 | With the corrected listener, the same sequence stops playback and clears the highlight. |
| `Home.ReloadOfTranslatedFileSendsNothing` | src/app/page.tsx:114-119 | Choosing a saved file of writable, fully translated segments reads them back unchanged apart from their ids. No segment is untranslated, so nothing is sent. |

## Left out

- Network and foreign calls are left out: `fetch`, the OpenAI, Ollama and Whisper services, and `@iamtraction/google-translate`. Each is a function parameter, and its reply is given with `JSON.parse`'s outcome already decided.
- Reading the request body and the form (`req.json()`, `req.formData()`) is left out. The translation route's unreadable body is the `Unreadable` case. A failing `req.formData()` in the transcription route is not modelled.
- Only string-valued JSON fields are modelled. A field of another type, or a `null` where an object is expected, could raise a `TypeError` in the source; this is not modelled.
- React scheduling is left out: state updates are immediate field assignments. Effects are reduced to whether their listener is attached. The intermediate `setSegments` inside the translation loop is not observable in the model.
- JSX markup, the loading spinner and disabled-button logic are left out, except that the rendered rows are modelled by `BilingualRows` and `Cell`.
- Browser and Node I/O are left out: `file.text()`, Blob and object URLs, the anchor-click download, `FormData`/`Buffer`, and `console`. The file's text and the media URL are parameters.
- `handleUpload` is not modelled. It is an async orchestration that ends in the same calls modelled for the routes and for `TranslateSegments`.
- The native `<audio controls>` play/pause buttons, and the `audioFile`/`transcriptFile` state used only by `handleUpload` and for display, are not modelled.
- Floating point is left out: `parseFloat` and number-to-string formatting are parameters, and times are `Finite(real)` or `NaN`.
- The regex sentence splitters for the transcript and the translation are parameters. The padding branch inside the translation splitter can never run, because it sits in the path taken when there are no segments.
- `Home.Page.TranslateSegments`: the source writes `ja` into segment objects shared with the array it was given, which is state set a moment earlier. The model copies values, so that aliasing is not captured.
- `Home.Page.TimeUpdate`: the source's listener sees the `segments` captured when its effect last ran. The model uses the current `segments`.
- A recorded success whose translation is `undefined` is modelled as a string result of the translator parameter.
- `SegmentTranslation.Translator`: the page's call to the translation route is a function of the text alone. So two segments with the same text get the same answer, whereas the source makes an independent request for each segment, and those can differ.
- `SegmentTranslation.Translate`: a segment whose text is undefined is sent as `""`. The source's `JSON.stringify` leaves the field out, and the route answers a missing `text` exactly as an empty one (`TranslateRoute.MissingTextRejected`).
- `src/app/layout.tsx` holds static metadata and markup. It is not part of this model.

## Findings

| source | as written | input that shows it | evidently intended | confidence | as-written member | corrected member |
|---|---|---|---|---|---|---|
| src/app/page.tsx:244-255 | The `ended` listener is attached by an effect with an empty dependency list. That effect reads `audioRef.current` only on mount, when the `<audio>` element is not rendered (it appears only once `audioUrl` is set, line 338). So the listener is never attached. | Mount, choose an audio file, press play, let the media end: `isPlaying` stays true. | Reaching the end of the media stops playback and clears the highlight. | high; not executed | `Home.Page.MediaEndedAsWritten`, shown by `Home.EndedListenerNeverAttached` | `Home.Page.MediaEnded`, proved by `Home.EndedStopsPlayback` |
