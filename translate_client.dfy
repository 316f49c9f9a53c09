/** `translateAnalysis` of src/utils/translateAnalysis.tsx: the browser-side
    wrapper around `/api/translate`. The round trip to the endpoint is an
    Endpoint, a function from the request body sent to the reply received. */
module TranslateClient {
  import opened Wrappers
  import opened Runtime
  import opened Analysis
  import DeepL
  import TranslateApi

  /** A language the user can pick: the code sent to the endpoint and the
      name shown in the menu. */
  datatype Language = Language(code: string, name: string)

  /** The languages the menu offers. */
  const Languages: seq<Language> := [
    Language("en", "English"), Language("es", "Spanish"), Language("ar", "Arabic"),
    Language("fr", "French"), Language("de", "German"), Language("zh", "Chinese"),
    Language("ja", "Japanese"), Language("ru", "Russian"), Language("pt", "Portuguese"),
    Language("it", "Italian")]

  /** The code of the language the analysis is written in: no translation. */
  const SourceLanguageCode := "en"

  /** The JSON body posted to `/api/translate`. */
  datatype EndpointRequest = EndpointRequest(analysis: VideoAnalysis, targetLanguage: string)

  /** A value caught by the wrapper's `catch`: an Error with its message, or
      anything else. */
  datatype Thrown = ErrorObject(message: string) | NonError

  /** How the round trip ends: `fetch` rejects, or a reply arrives with its
      status and its body decoded as JSON (or the error decoding threw). */
  datatype EndpointReply =
    | Rejected(reason: Thrown)
    | Reply(status: nat, body: Result<VideoAnalysis, Thrown>)

  type Endpoint = EndpointRequest -> EndpointReply

  /** What one call of the wrapper returns, with the requests it made. */
  datatype ClientCall = ClientCall(result: VideoAnalysis, requests: seq<EndpointRequest>)

  const ClientErrorPrefix := "Translation error: "
  const StatusPrefix := "Translation request failed with status "

  /** The message of the Error the wrapper throws on a non-OK status. */
  function StatusMessage(status: nat): string {
    StatusPrefix + NatToString(status)
  }

  /** The `error` text the fallback record carries. */
  function ErrorText(t: Thrown): (m: string)
    ensures |m| >= |ClientErrorPrefix| && m[..|ClientErrorPrefix|] == ClientErrorPrefix
    ensures t.ErrorObject? ==> m[|ClientErrorPrefix|..] == t.message
    ensures t.NonError? ==> m[|ClientErrorPrefix|..] == "Unknown error"
  {
    ClientErrorPrefix + match t
      case ErrorObject(m) => m
      case NonError => "Unknown error"
  }

  /** The decoded body on an OK reply; otherwise what the `catch` receives. */
  function ReplyOutcome(reply: EndpointReply): (o: Result<VideoAnalysis, Thrown>)
    ensures o.Success? <==> reply.Reply? && OkStatus(reply.status) && reply.body.Success?
    ensures reply.Reply? && OkStatus(reply.status) ==> o == reply.body
    ensures reply.Reply? && !OkStatus(reply.status) ==> o == Failure(ErrorObject(StatusMessage(reply.status)))
    ensures reply.Rejected? ==> o == Failure(reply.reason)
  {
    match reply
    case Rejected(t) => Failure(t)
    case Reply(status, body) => if OkStatus(status) then body else Failure(ErrorObject(StatusMessage(status)))
  }

  /** `translateAnalysis(analysis, targetLanguage)`. */
  function TranslateAnalysis(a: VideoAnalysis, target: Language, endpoint: Endpoint): (c: ClientCall)
    ensures c.requests == [] <==> target.code == SourceLanguageCode
    ensures c.requests == [] ==> c.result == a
    ensures c.requests != [] ==> c.requests == [EndpointRequest(a, target.code)]
    ensures target.code != SourceLanguageCode ==>
      var o := ReplyOutcome(endpoint(EndpointRequest(a, target.code)));
      (o.Success? ==> c.result == o.value) &&
      (o.Failure? ==> c.result == a.(error := Some(ErrorText(o.error))))
  {
    if target.code == SourceLanguageCode then ClientCall(a, [])
    else
      var req := EndpointRequest(a, target.code);
      match ReplyOutcome(endpoint(req))
      case Success(translated) => ClientCall(translated, [req])
      case Failure(t) => ClientCall(a.(error := Some(ErrorText(t))), [req])
  }

  /** The request carries the code only: two languages with the same code
      give the same call, whatever their names. */
  lemma NameIsNotSent(a: VideoAnalysis, code: string, name1: string, name2: string, endpoint: Endpoint)
    ensures TranslateAnalysis(a, Language(code, name1), endpoint)
         == TranslateAnalysis(a, Language(code, name2), endpoint)
  {
  }

  /** Any failure yields the input record with only `error` replaced: every
      text field, the key moments, `rawText` and the other keys are kept,
      and `error` says what went wrong. */
  lemma FailureKeepsRecord(a: VideoAnalysis, target: Language, endpoint: Endpoint)
    requires target.code != SourceLanguageCode
    requires ReplyOutcome(endpoint(EndpointRequest(a, target.code))).Failure?
    ensures var r := TranslateAnalysis(a, target, endpoint).result;
      (forall f :: r.Get(f) == a.Get(f)) &&
      r.keyMoments == a.keyMoments && r.rawText == a.rawText && r.others == a.others &&
      r.error.Some? && r.error.value[..|ClientErrorPrefix|] == ClientErrorPrefix
  {
  }

  /** A non-OK status ends in an `error` naming that status, from which the
      status can be read back. */
  lemma NonOkStatusError(a: VideoAnalysis, target: Language, endpoint: Endpoint, status: nat, body: Result<VideoAnalysis, Thrown>)
    requires target.code != SourceLanguageCode
    requires endpoint(EndpointRequest(a, target.code)) == Reply(status, body) && !OkStatus(status)
    ensures var r := TranslateAnalysis(a, target, endpoint).result;
      var n := |ClientErrorPrefix + StatusPrefix|;
      r == a.(error := Some(ClientErrorPrefix + StatusPrefix + NatToString(status))) &&
      |r.error.value| > n && AllDigits(r.error.value[n..]) &&
      DecimalValue(r.error.value[n..]) == status
  {
    var n := |ClientErrorPrefix + StatusPrefix|;
    var m := ClientErrorPrefix + StatusPrefix + NatToString(status);
    assert ErrorText(ErrorObject(StatusMessage(status))) == m;
    assert m[n..] == NatToString(status);
    DecimalValueOfNatToString(status);
  }

  /** Exactly one menu entry, English, is the no-translation sentinel. */
  lemma OnlyEnglishIsSentinel()
    ensures forall k :: 0 <= k < |Languages| ==>
      (Languages[k].code == SourceLanguageCode <==> Languages[k].name == "English")
  {
  }

  // ---------------------------------------------------------------------
  // The wrapper over the translate endpoint

  /** The reply a client gets from the handler's response. The wrapper reads
      the body of an OK reply only; of any other body only `error` is kept. */
  function OverHttp(res: TranslateApi.ApiResponse): EndpointReply {
    Reply(res.status,
      match res.body
      case Translated(r) => Success(r)
      case ErrorBody(e) => Success(EmptyAnalysis.(error := Some(e)))
      case TranslationFailed(e, _) => Success(EmptyAnalysis.(error := Some(e))))
  }

  /** The translate endpoint, configured with apiKey and calling p. */
  function Served(apiKey: Option<string>, p: DeepL.Provider): Endpoint {
    (q: EndpointRequest) =>
      OverHttp(TranslateApi.Respond(TranslateApi.ApiRequest("POST", Some(q.analysis), Some(q.targetLanguage)), apiKey, p))
  }

  /** Client over server: the record shown is never partly translated. It is
      the input itself (sentinel), a pass in which every DeepL request
      succeeded, or the input with only `error` set to the status the
      endpoint refused with (400 for an empty code, 500 otherwise). */
  lemma EndToEnd(a: VideoAnalysis, target: Language, apiKey: Option<string>, p: DeepL.Provider)
    ensures var r := TranslateAnalysis(a, target, Served(apiKey, p)).result;
      var refused := (s: nat) => a.(error := Some(ErrorText(ErrorObject(StatusMessage(s)))));
      if target.code == SourceLanguageCode then r == a
      else if target.code == "" then r == refused(400)
      else if !Truthy(apiKey) then r == refused(500)
      else if TranslateApi.AllSucceed(p, TranslateApi.PlannedRequests(a, target.code, apiKey.value)) then
        TranslateApi.TranslateRecord(a, p, target.code, apiKey.value) == Success(r)
      else r == refused(500)
  {
  }
}
