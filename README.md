# Video analyzer: the analysis-record translation pipeline

This project models how the video analyzer translates a finished analysis
record (`VideoAnalysis`) into another language. It has two pieces.

- The `/api/translate` handler (`src/pages/api/translate.tsx`). It checks the
  HTTP method, the two body parameters and the DeepL API key, in that order.
  Then it works on a shallow copy of the record. It replaces each truthy one
  of eight text fields by its DeepL translation, in a fixed order. It then
  rebuilds a non-empty `keyMoments` list: each description is translated and
  each timestamp kept. The first failing DeepL call ends the pass. The
  response is then a 500 that carries the untouched input record.
  `translateText` sends one DeepL request per string. The request holds a
  one-element text list and the target code in upper case. The result is the
  text of the first translation in the reply.
- The client wrapper `translateAnalysis` (`src/utils/translateAnalysis.tsx`).
  The code `'en'` returns the record unchanged and makes no request. Any other
  code posts the record and the code to the endpoint. An OK reply's body is
  the result. Any failure gives back the input record with only `error`
  replaced. The wrapper never throws.

Modules, one file each:

- `Wrappers` (wrappers.dfy): `Option` and `Result`.
- `Runtime` (runtime.dfy): the JavaScript behaviour the code relies on.
  This covers truthiness of an optional string, ASCII `toUpperCase`, the
  decimal rendering of a status in a template literal, and `Response.ok`.
- `Analysis` (analysis.dfy): the record, its key moments and the list of
  text fields.
- `DeepL` (deepl.dfy): `translateText`.
- `TranslateApi` (translate_api.dfy): the handler. There are specification
  functions for what a pass computes (`TranslateRecord`) and which requests
  it sends (`PlannedRequests`, `Attempted`). The imperative handler
  (`Handle`, with its two loops `TranslateTextFields` and
  `TranslateKeyMoments`) is proved against them. Lemmas prove the
  properties of a pass.
- `TranslateClient` (translate_client.dfy): the wrapper. It also holds an
  end-to-end lemma that runs the wrapper against the handler's response.

The two network boundaries are parameters:

- A `DeepL.Provider` maps a DeepL request to the response.
- A `TranslateClient.Endpoint` maps a posted body to the reply.

`Handle` also returns the DeepL requests it sent, in order, so that the
order and number of calls can be stated.

Notes on what the code does:

- A text field holding the empty string is not translated, because the
  handler tests truthiness, not presence.
- DeepL calls are made one at a time, in a fixed order.
- On failure the wrapper returns the input record with `error` overwritten.
  It ignores the `originalAnalysis` the endpoint sends back and uses its own
  copy.

## Model

| member | source | states |
|---|---|---|
| `TranslateApi.Handle` | src/pages/api/translate.tsx:22-81 | The handler's response is exactly `Respond`'s. It sends no DeepL request unless every guard passes. Otherwise it sends the planned requests in order, up to and including the first that fails. |
| `TranslateApi.TranslateTextFields` | src/pages/api/translate.tsx:42-56 | The loop over the text fields on the copy of the record computes `TranslateFields` and sends the field requests up to the first failure. |
| `TranslateApi.TranslateKeyMoments` | src/pages/api/translate.tsx:59-71 | The loop that pushes translated moments onto a new list computes `TranslateMoments` and sends one request per moment, up to the first failure. |
| `TranslateApi.Respond` | src/pages/api/translate.tsx:26-80 | A non-POST request gets 405 "Method not allowed". A POST with a missing analysis or a missing or empty target gets 400, and only such a POST does. Otherwise a missing or empty key gets 500 "DeepL API key is not configured". A 200 with the translated record comes back exactly when every planned request succeeds. A 500 "Failed to translate content" comes back exactly when one fails, and it carries the input record unchanged. |
| `TranslateApi.TranslateFields` | src/pages/api/translate.tsx:51-56 | The text-field loop as a function: each truthy field in turn is replaced by its `translateText` result, and the first failure ends it. A success leaves the key moments, `error`, `rawText` and the other keys as they were. |
| `TranslateApi.TranslateMoments` | src/pages/api/translate.tsx:62-68 | The key-moment loop as a function: each description is translated and its timestamp kept, and the first failure ends it. A success has one moment per input moment, each with the input's timestamp at the same position. |
| `TranslateApi.TranslateRecord` | src/pages/api/translate.tsx:42-71 | A whole pass over the copy: the text fields, then a non-empty key-moment list. A success keeps `error`, `rawText` and the other keys, keeps whether there are key moments, and keeps their number. |
| `TranslateApi.TranslateRecordAllOrNothing` | src/pages/api/translate.tsx:42-79 | A pass yields a record exactly when every planned DeepL request succeeds. One failure anywhere fails the whole pass. |
| `TranslateApi.TranslateRecordFields` | src/pages/api/translate.tsx:43-56 | After a successful pass, every truthy text field is replaced by its translation, and every absent or empty one is left as it was. `error`, `rawText` and every other key are unchanged. |
| `TranslateApi.TranslateRecordMoments` | src/pages/api/translate.tsx:59-71 | After a successful pass, a non-empty `keyMoments` keeps its length, order and timestamps, and every description is replaced by its translation. An absent or empty list is left as it was. |
| `TranslateApi.TranslateFieldsOutcome` | src/pages/api/translate.tsx:51-56 | For any list of distinct fields, the text-field loop succeeds exactly when each of its requests succeeds. It then changes exactly the truthy listed fields, each to its translation. |
| `TranslateApi.TranslateMomentsOutcome` | src/pages/api/translate.tsx:62-68 | The key-moment loop succeeds exactly when every description is translated. It then keeps the length, the order and each timestamp. |
| `TranslateApi.TranslateMomentsFirstFailure` | src/pages/api/translate.tsx:62-68 | The key-moment loop fails with the error of the first description that is not translated. |
| `TranslateApi.PlannedRequestsCount` | src/pages/api/translate.tsx:51-69 | A full pass sends one request per truthy text field and then one per key moment. The count is the number of truthy fields plus the number of moments. The request for a truthy field comes after those for the truthy fields before it in the field list and carries that field's text. The request for the k-th moment comes k places after the field requests and carries its description. Every request carries one text, the upper-cased target code and the key. |
| `TranslateApi.FieldRequestsPosition` | src/pages/api/translate.tsx:51-56 | For any field list, the request for a truthy field sits at the position given by the number of truthy fields before it, and carries that field's text. |
| `TranslateApi.FieldRequestsCount` | src/pages/api/translate.tsx:51-56 | The text-field loop sends one request per distinct truthy field, each with one text and the upper-cased code. |
| `TranslateApi.AttemptedAll` | src/pages/api/translate.tsx:51-71 | When every request succeeds, all of them are sent. |
| `TranslateApi.AttemptedStops` | src/pages/api/translate.tsx:74-79 | No request after the first failing one is sent. |
| `TranslateApi.AttemptedAppend` | src/pages/api/translate.tsx:51-71 | The key-moment requests are reached only when every text-field request succeeded. |
| `TranslateApi.AllSucceedAppend` | src/pages/api/translate.tsx:51-71 | Two request lists in sequence all succeed exactly when each list does. |
| `TranslateApi.FieldRequestsFrame` | src/pages/api/translate.tsx:51-56 | Writing a translated field does not change the requests for the fields still to come. |
| `DeepL.TranslateText` | src/pages/api/translate.tsx:83-105 | `translateText(text, targetLang, apiKey)`: sends `RequestFor(text, targetLang, apiKey)` and reads the reply with `ReadResponse`. It succeeds exactly when that reply has an OK status and a non-empty translation list, and then yields the first translation. A non-OK reply fails with "DeepL API error: <status> <body>". |
| `DeepL.ReadResponse` | src/pages/api/translate.tsx:98-104 | Once `fetch` has resolved, `translateText` succeeds exactly on an OK status with a non-empty translation list, and returns the first translation's text. A non-OK status fails with a DeepL API error whose message yields back the status and the body text. |
| `DeepL.ApiErrorMessageRoundTrip` | src/pages/api/translate.tsx:99-100 | The error message "DeepL API error: <status> <body>" can be split back into the status and the whole body. |
| `DeepL.RequestShape` | src/pages/api/translate.tsx:86-95 | Each request carries the text as a one-element list and `target_lang` equal to the upper-cased target code, which upper-casing again leaves unchanged. It carries the key in the `DeepL-Auth-Key` scheme. |
| `Runtime.Truthy` | src/pages/api/translate.tsx:32 | The truthiness test on a string-valued key, as used at translate.tsx:32 (for `targetLanguage`), 38 and 52: it fails exactly for an absent value and for the empty string. |
| `Runtime.AsciiUpper` | src/pages/api/translate.tsx:94 | Upper-casing keeps the length, leaves no ASCII lower-case letter, and keeps every other character. |
| `Runtime.AsciiUpperIdempotent` | src/pages/api/translate.tsx:94 | Upper-casing an upper-cased code changes nothing. |
| `Runtime.UpperChar` | src/pages/api/translate.tsx:94 | One character upper-cased: a lower-case ASCII letter moves to its capital and nothing else changes. |
| `Runtime.NatToString` | src/pages/api/translate.tsx:100 | A status renders as a non-empty run of decimal digits with no leading zero. |
| `Runtime.DecimalValueOfNatToString` | src/pages/api/translate.tsx:100 | Reading the rendered digits back gives the status. |
| `Analysis.VideoAnalysis.With` | src/pages/api/translate.tsx:54 | Assigning `result[field]` sets that field and leaves every other field, the key moments, `error`, `rawText` and the other keys unchanged. |
| `Analysis.Position` | src/pages/api/translate.tsx:46-48 | Every text field has a place in the translated-field list. |
| `Analysis.TextFieldsDistinct` | src/pages/api/translate.tsx:46-48 | The translated-field list names no field twice. |
| `Analysis.TextFieldsComplete` | src/pages/api/translate.tsx:46-48 | The translated-field list names all eight text fields. |
| `TranslateClient.TranslateAnalysis` | src/utils/translateAnalysis.tsx:17-50 | A request is made exactly when the code is not `'en'`. Then exactly one is made, carrying the record and the code. With `'en'` the result is the input. Otherwise an OK reply's decoded body is the result, and any failure gives the input with `error` set to "Translation error: " followed by the thrown message (or "Unknown error"). |
| `TranslateClient.ReplyOutcome` | src/utils/translateAnalysis.tsx:37-42 | What the `try` block produces: the decoded body exactly when the reply has an OK status and a body that decodes. A non-OK status throws an Error "Translation request failed with status <status>". A rejected `fetch` or body passes on what it threw. |
| `TranslateClient.ErrorText` | src/utils/translateAnalysis.tsx:45-48 | The fallback `error` text: "Translation error: " followed by the thrown Error's message, or by "Unknown error" when what was thrown is not an Error. |
| `TranslateClient.FailureKeepsRecord` | src/utils/translateAnalysis.tsx:43-48 | On any failure every text field, the key moments, `rawText` and the other keys equal the input's. `error` is overwritten with a "Translation error: " message. |
| `TranslateClient.NonOkStatusError` | src/utils/translateAnalysis.tsx:37-48 | A non-OK status gives the input with `error` set to "Translation error: Translation request failed with status " and the status. The status can be read back from it. |
| `TranslateClient.NameIsNotSent` | src/utils/translateAnalysis.tsx:31-34 | The request carries the language code, not its display name. |
| `TranslateClient.OnlyEnglishIsSentinel` | src/components/LanguageMenu.tsx:13-24 | Of the menu's languages, only English has the no-translation code. |
| `TranslateClient.EndToEnd` | src/utils/translateAnalysis.tsx:21-49 | The wrapper over the handler never shows a partly translated record. The result is the input (for `'en'`), or a pass in which every DeepL request succeeded. Otherwise it is the input with only `error` set to the refusing status: 400 for an empty code, 500 for a missing key or a failed call. |

## Left out

- `src/pages/api/analyze.tsx` is left out. It returns the model's raw text as `summary`, or "No summary available" when that text is empty or missing (analyze.tsx:22). It fetches the video, base64-encodes it, calls the Gemini SDK and maps failures to a 500; all of this is I/O.
- The React components and the page are presentation and UI state. Only the language table is kept, as `TranslateClient.Languages`.
- The DeepL HTTP exchange is a total function from request to response. So two identical requests in one pass get the same reply. Timeouts and transient differences between them are not modelled.
- The `/api/translate` round trip is also a function. JSON encoding and decoding of records are assumed lossless.
- `console` logging, reading `process.env`, and the `Content-Type` headers are left out.
- Async/await is modelled as sequential calls; the code makes one awaited call at a time.
- Body parameters are typed. `analysis` is a record or absent, and `targetLanguage` is a string or absent. A body holding JSON of another type (a number as `targetLanguage`, a string as `analysis`, an array in a text field) is not modelled.
- `DeepL.ReadResponse`: an OK body whose first translation entry has no `text` string counts as malformed. In the code that case returns `undefined` instead of throwing.
- Runtime.AsciiUpper: models `toUpperCase` on ASCII only. Non-ASCII letters are kept, where JavaScript would apply full Unicode case mapping.
- `TranslateClient.OverHttp`: of a non-OK body only `error` is kept; the wrapper never reads such a body.
- A key moment is only its `timestamp` and `description`. The handler rebuilds each moment of a translated list as `{timestamp, description}`, so any other key of a moment is dropped there. An untranslated list (absent, empty, or the `'en'` path) would keep such keys. The model cannot express them.
- A `fetch` to DeepL that rejects (a network failure, say) is not a `DeepLResponse`. The handler answers it with the same 500 as any other failed call; the model covers only responses that arrive.
- The extra keys of a record are kept as opaque JSON text in `others`. Nothing checks that they differ from the eleven named keys.
