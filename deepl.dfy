/** `translateText` of src/pages/api/translate.tsx: one request to DeepL's
    translate endpoint per string. The HTTP exchange itself is a Provider,
    a function from the request sent to the response received. */
module DeepL {
  import opened Wrappers
  import opened Runtime

  const TranslateUrl := "https://api-free.deepl.com/v2/translate"
  const AuthScheme := "DeepL-Auth-Key "
  const ApiErrorPrefix := "DeepL API error: "

  /** What `fetch` is given: the URL, the Authorization header and the JSON
      body `{text, target_lang}` (the method is always POST and the content
      type always JSON). */
  datatype DeepLRequest = DeepLRequest(
    url: string,
    authorization: string,
    text: seq<string>,
    targetLang: string)

  /** What `fetch` resolves to: the status, the body read as text, and the
      texts of the entries of the body's `translations` list (None when the
      body has no such list). Only the entries' texts are kept, and
      `ReadResponse` reads only the first of them. */
  datatype DeepLResponse = DeepLResponse(
    status: nat,
    bodyText: string,
    translations: Option<seq<string>>)

  /** What `translateText` throws: the Error it raises on a non-OK status, or
      the runtime's error when an OK body is not a non-empty translation list. */
  datatype TranslationError = ApiError(message: string) | MalformedBody

  /** The DeepL service, as seen from the endpoint. */
  type Provider = DeepLRequest -> DeepLResponse

  /** The request `translateText(text, targetLang, apiKey)` sends. */
  function RequestFor(text: string, targetLang: string, apiKey: string): DeepLRequest {
    DeepLRequest(TranslateUrl, AuthScheme + apiKey, [text], AsciiUpper(targetLang))
  }

  /** The message of the Error thrown on a non-OK status. */
  function ApiErrorMessage(status: nat, body: string): string {
    ApiErrorPrefix + NatToString(status) + " " + body
  }

  /** Splits an error message back into the status and the body text. */
  function ParseApiErrorMessage(m: string): Option<(nat, string)> {
    if |m| < |ApiErrorPrefix| || m[..|ApiErrorPrefix|] != ApiErrorPrefix then None
    else
      var rest := m[|ApiErrorPrefix|..];
      var k := LeadingDigits(rest);
      if 0 < k < |rest| && rest[k] == ' ' then Some((DecimalValue(rest[..k]), rest[k + 1..]))
      else None
  }

  /** The error message carries the status and the whole body text. */
  lemma ApiErrorMessageRoundTrip(status: nat, body: string)
    ensures ParseApiErrorMessage(ApiErrorMessage(status, body)) == Some((status, body))
  {
    var digits := NatToString(status);
    var m := ApiErrorMessage(status, body);
    assert m[..|ApiErrorPrefix|] == ApiErrorPrefix;
    var rest := m[|ApiErrorPrefix|..];
    assert rest == digits + [' '] + body;
    LeadingDigitsOfDigitsThen(digits, ' ', body);
    assert rest[..|digits|] == digits;
    assert rest[|digits| + 1..] == body;
    DecimalValueOfNatToString(status);
  }

  /** How `translateText` turns the response into its result. */
  function ReadResponse(resp: DeepLResponse): (r: Result<string, TranslationError>)
    ensures r.Success? <==>
      OkStatus(resp.status) && resp.translations.Some? && resp.translations.value != []
    ensures r.Success? ==> r.value == resp.translations.value[0]
    ensures !OkStatus(resp.status) ==>
      r.Failure? && r.error.ApiError? &&
      ParseApiErrorMessage(r.error.message) == Some((resp.status, resp.bodyText))
  {
    if !OkStatus(resp.status) then
      ApiErrorMessageRoundTrip(resp.status, resp.bodyText);
      Failure(ApiError(ApiErrorMessage(resp.status, resp.bodyText)))
    else match resp.translations
      case Some(ts) => if ts != [] then Success(ts[0]) else Failure(MalformedBody)
      case None => Failure(MalformedBody)
  }

  /** One round trip to the provider. */
  function Send(p: Provider, q: DeepLRequest): Result<string, TranslationError> {
    ReadResponse(p(q))
  }

  /** `translateText(text, targetLang, apiKey)`. */
  function TranslateText(p: Provider, text: string, targetLang: string, apiKey: string)
    : (r: Result<string, TranslationError>)
    ensures var resp := p(RequestFor(text, targetLang, apiKey));
      (r.Success? <==>
         OkStatus(resp.status) && resp.translations.Some? && resp.translations.value != []) &&
      (r.Success? ==> r.value == resp.translations.value[0]) &&
      (!OkStatus(resp.status) ==> r == Failure(ApiError(ApiErrorMessage(resp.status, resp.bodyText))))
  {
    Send(p, RequestFor(text, targetLang, apiKey))
  }

  /** Every request carries exactly the given text as a one-element list, the
      target code upper-cased (so upper-casing it again changes nothing), and
      the key in the DeepL authorisation scheme. */
  lemma RequestShape(text: string, targetLang: string, apiKey: string)
    ensures var q := RequestFor(text, targetLang, apiKey);
      q.text == [text] && q.url == TranslateUrl &&
      q.targetLang == AsciiUpper(targetLang) && AsciiUpper(q.targetLang) == q.targetLang &&
      q.authorization[..|AuthScheme|] == AuthScheme && q.authorization[|AuthScheme|..] == apiKey
  {
  }
}
