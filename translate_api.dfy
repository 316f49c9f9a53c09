/** The `/api/translate` handler of src/pages/api/translate.tsx: request
    guards, then one DeepL call per truthy text field and one per key moment,
    all-or-nothing. The specification functions say what a pass computes and
    which requests it sends; Handle is the handler itself, step by step. */
module TranslateApi {
  import opened Wrappers
  import opened Runtime
  import opened Analysis
  import opened DeepL

  /** The parts of the incoming request the handler reads: the HTTP method
      and the two body parameters (None when absent or null). */
  datatype ApiRequest = ApiRequest(
    httpMethod: string,
    analysis: Option<VideoAnalysis>,
    targetLanguage: Option<string>)

  /** The JSON bodies the handler answers with. */
  datatype ResponseBody =
    | ErrorBody(error: string)
    | Translated(analysis: VideoAnalysis)
    | TranslationFailed(error: string, originalAnalysis: VideoAnalysis)

  datatype ApiResponse = ApiResponse(status: nat, body: ResponseBody)

  /** The request passes every guard and a translation pass starts. */
  predicate Accepted(req: ApiRequest, apiKey: Option<string>) {
    req.httpMethod == "POST" && req.analysis.Some? && Truthy(req.targetLanguage) && Truthy(apiKey)
  }

  predicate HasMoments(a: VideoAnalysis) {
    a.keyMoments.Some? && |a.keyMoments.value| > 0
  }

  /** Every request in qs gets a translation. */
  predicate AllSucceed(p: Provider, qs: seq<DeepLRequest>) {
    forall k :: 0 <= k < |qs| ==> Send(p, qs[k]).Success?
  }

  /** The requests for the truthy fields among fs, in the order of fs. */
  function FieldRequests(r: VideoAnalysis, fs: seq<TextField>, lang: string, key: string)
    : seq<DeepLRequest>
  {
    if fs == [] then []
    else
      (if Truthy(r.Get(fs[0])) then [RequestFor(r.Get(fs[0]).value, lang, key)] else [])
      + FieldRequests(r, fs[1..], lang, key)
  }

  /** One request per key moment, for its description, in order. */
  function MomentRequests(ms: seq<KeyMoment>, lang: string, key: string): seq<DeepLRequest> {
    seq(|ms|, k requires 0 <= k < |ms| => RequestFor(ms[k].description, lang, key))
  }

  /** Every request a full pass over a sends: the truthy text fields in list
      order, then every key moment when there is at least one. */
  function PlannedRequests(a: VideoAnalysis, lang: string, key: string): seq<DeepLRequest> {
    FieldRequests(a, TextFields, lang, key)
    + (if HasMoments(a) then MomentRequests(a.keyMoments.value, lang, key) else [])
  }

  /** The requests actually sent, one at a time: up to and including the
      first one that fails. */
  function Attempted(p: Provider, qs: seq<DeepLRequest>): seq<DeepLRequest> {
    if qs == [] then []
    else if Send(p, qs[0]).Failure? then [qs[0]]
    else [qs[0]] + Attempted(p, qs[1..])
  }

  /** The loop over the text fields: each truthy field in turn is replaced
      by its translation; the first failure ends the pass. */
  function TranslateFields(r: VideoAnalysis, fs: seq<TextField>, p: Provider, lang: string, key: string)
    : (res: Result<VideoAnalysis, TranslationError>)
    ensures res.Success? ==>
      res.value.keyMoments == r.keyMoments && res.value.error == r.error &&
      res.value.rawText == r.rawText && res.value.others == r.others
    decreases |fs|
  {
    if fs == [] then Success(r)
    else
      var v := r.Get(fs[0]);
      if Truthy(v) then
        match TranslateText(p, v.value, lang, key)
        case Failure(e) => Failure(e)
        case Success(t) => TranslateFields(r.With(fs[0], Some(t)), fs[1..], p, lang, key)
      else TranslateFields(r, fs[1..], p, lang, key)
  }

  /** The loop over the key moments: each description translated, each
      timestamp kept; the first failure ends the pass. */
  function TranslateMoments(ms: seq<KeyMoment>, p: Provider, lang: string, key: string)
    : (res: Result<seq<KeyMoment>, TranslationError>)
    ensures res.Success? ==>
      |res.value| == |ms| &&
      forall i :: 0 <= i < |ms| ==> res.value[i].timestamp == ms[i].timestamp
  {
    if ms == [] then Success([])
    else
      match TranslateText(p, ms[0].description, lang, key)
      case Failure(e) => Failure(e)
      case Success(t) =>
        match TranslateMoments(ms[1..], p, lang, key)
        case Failure(e) => Failure(e)
        case Success(rest) => Success([KeyMoment(ms[0].timestamp, t)] + rest)
  }

  /** A whole translation pass over the copy of a. */
  function TranslateRecord(a: VideoAnalysis, p: Provider, lang: string, key: string)
    : (res: Result<VideoAnalysis, TranslationError>)
    ensures res.Success? ==>
      res.value.error == a.error && res.value.rawText == a.rawText && res.value.others == a.others &&
      res.value.keyMoments.Some? == a.keyMoments.Some? &&
      (a.keyMoments.Some? ==> |res.value.keyMoments.value| == |a.keyMoments.value|)
  {
    match TranslateFields(a, TextFields, p, lang, key)
    case Failure(e) => Failure(e)
    case Success(r) =>
      if HasMoments(r) then
        match TranslateMoments(r.keyMoments.value, p, lang, key)
        case Failure(e) => Failure(e)
        case Success(ms) => Success(r.(keyMoments := Some(ms)))
      else Success(r)
  }

  /** The response the handler gives. */
  function Respond(req: ApiRequest, apiKey: Option<string>, p: Provider): (res: ApiResponse)
    ensures req.httpMethod != "POST" ==> res == ApiResponse(405, ErrorBody("Method not allowed"))
    ensures res.status == 400 <==>
      req.httpMethod == "POST" && (req.analysis.None? || !Truthy(req.targetLanguage))
    ensures res.status == 400 ==> res.body == ErrorBody("Missing required parameters")
    ensures res.body == ErrorBody("DeepL API key is not configured") <==>
      req.httpMethod == "POST" && req.analysis.Some? && Truthy(req.targetLanguage) && !Truthy(apiKey)
    ensures res.body == ErrorBody("DeepL API key is not configured") ==> res.status == 500
    ensures res.status == 200 <==>
      Accepted(req, apiKey) &&
      AllSucceed(p, PlannedRequests(req.analysis.value, req.targetLanguage.value, apiKey.value))
    ensures res.body.TranslationFailed? <==>
      Accepted(req, apiKey) &&
      !AllSucceed(p, PlannedRequests(req.analysis.value, req.targetLanguage.value, apiKey.value))
    ensures res.status == 200 ==>
      TranslateRecord(req.analysis.value, p, req.targetLanguage.value, apiKey.value).Success? &&
      res.body == Translated(TranslateRecord(req.analysis.value, p, req.targetLanguage.value, apiKey.value).value)
    ensures res.body.TranslationFailed? ==>
      res.status == 500 && req.analysis == Some(res.body.originalAnalysis) &&
      res.body.error == "Failed to translate content"
    ensures res.body.Translated? <==> res.status == 200
  {
    if req.httpMethod != "POST" then ApiResponse(405, ErrorBody("Method not allowed"))
    else if req.analysis.None? || !Truthy(req.targetLanguage) then
      ApiResponse(400, ErrorBody("Missing required parameters"))
    else if !Truthy(apiKey) then ApiResponse(500, ErrorBody("DeepL API key is not configured"))
    else
      var a, lang, key := req.analysis.value, req.targetLanguage.value, apiKey.value;
      TranslateRecordAllOrNothing(a, p, lang, key);
      match TranslateRecord(a, p, lang, key)
      case Success(r) => ApiResponse(200, Translated(r))
      case Failure(_) => ApiResponse(500, TranslationFailed("Failed to translate content", a))
  }

  /** The handler. It returns the response and the DeepL requests it sent,
      in the order it sent them. */
  method Handle(req: ApiRequest, apiKey: Option<string>, p: Provider)
    returns (res: ApiResponse, sent: seq<DeepLRequest>)
    ensures res == Respond(req, apiKey, p)
    ensures !Accepted(req, apiKey) ==> sent == []
    ensures Accepted(req, apiKey) ==>
      sent == Attempted(p, PlannedRequests(req.analysis.value, req.targetLanguage.value, apiKey.value))
  {
    sent := [];
    if req.httpMethod != "POST" {
      res := ApiResponse(405, ErrorBody("Method not allowed"));
      return;
    }
    if req.analysis.None? || !Truthy(req.targetLanguage) {
      res := ApiResponse(400, ErrorBody("Missing required parameters"));
      return;
    }
    if !Truthy(apiKey) {
      res := ApiResponse(500, ErrorBody("DeepL API key is not configured"));
      return;
    }
    var analysis, targetLanguage, key := req.analysis.value, req.targetLanguage.value, apiKey.value;
    TextFieldsDistinct();
    TranslateFieldsOutcome(analysis, TextFields, p, targetLanguage, key);
    ghost var fieldRequests := FieldRequests(analysis, TextFields, targetLanguage, key);
    ghost var momentsPart :=
      if HasMoments(analysis) then MomentRequests(analysis.keyMoments.value, targetLanguage, key) else [];

    var fields, fieldsSent := TranslateTextFields(analysis, TextFields, p, targetLanguage, key);
    sent := fieldsSent;
    if fields.Failure? {
      AttemptedAppend(p, fieldRequests, momentsPart);
      res := ApiResponse(500, TranslationFailed("Failed to translate content", analysis));
      return;
    }
    AttemptedAll(p, fieldRequests);
    assert PlannedRequests(analysis, targetLanguage, key) == fieldRequests + momentsPart;
    var result := fields.value;
    if result.keyMoments.Some? && |result.keyMoments.value| > 0 {
      var moments, momentsSent := TranslateKeyMoments(result.keyMoments.value, p, targetLanguage, key);
      AttemptedAppend(p, fieldRequests, momentsPart);
      sent := sent + momentsSent;
      if moments.Failure? {
        res := ApiResponse(500, TranslationFailed("Failed to translate content", analysis));
        return;
      }
      result := result.(keyMoments := Some(moments.value));
    } else {
      assert fieldRequests + momentsPart == fieldRequests;
    }
    res := ApiResponse(200, Translated(result));
  }

  /** The handler's loop over the text fields, on its copy of the record:
      `fields` is the list it walks (TextFields in the handler). */
  method TranslateTextFields(analysis: VideoAnalysis, fields: seq<TextField>, p: Provider, targetLanguage: string, key: string)
    returns (outcome: Result<VideoAnalysis, TranslationError>, sent: seq<DeepLRequest>)
    requires Distinct(fields)
    ensures outcome == TranslateFields(analysis, fields, p, targetLanguage, key)
    ensures sent == Attempted(p, FieldRequests(analysis, fields, targetLanguage, key))
  {
    sent := [];
    var result := analysis;
    for i := 0 to |fields|
      invariant TranslateFields(analysis, fields, p, targetLanguage, key)
        == TranslateFields(result, fields[i..], p, targetLanguage, key)
      invariant FieldRequests(analysis, fields, targetLanguage, key)
        == sent + FieldRequests(result, fields[i..], targetLanguage, key)
      invariant AllSucceed(p, sent)
    {
      var field := fields[i];
      assert fields[i..][0] == field && fields[i..][1..] == fields[i + 1..];
      if Truthy(result.Get(field)) {
        var q := RequestFor(result.Get(field).value, targetLanguage, key);
        var translatedText := Send(p, q);
        ghost var rest := FieldRequests(result, fields[i + 1..], targetLanguage, key);
        ghost var before := sent;
        sent := sent + [q];
        assert FieldRequests(result, fields[i..], targetLanguage, key) == [q] + rest;
        if translatedText.Failure? {
          assert FieldRequests(analysis, fields, targetLanguage, key) == before + [q] + rest;
          AttemptedStops(p, before, q, rest);
          outcome := Failure(translatedText.error);
          return;
        }
        DistinctAfter(fields, i);
        FieldRequestsFrame(result, field, Some(translatedText.value), fields[i + 1..], targetLanguage, key);
        result := result.With(field, Some(translatedText.value));
      }
    }
    assert fields[|fields|..] == [];
    assert sent == FieldRequests(analysis, fields, targetLanguage, key);
    AttemptedAll(p, sent);
    outcome := Success(result);
  }

  /** The handler's loop over a non-empty `keyMoments`, pushing each
      translated moment onto a new list. */
  method TranslateKeyMoments(moments: seq<KeyMoment>, p: Provider, targetLanguage: string, key: string)
    returns (outcome: Result<seq<KeyMoment>, TranslationError>, sent: seq<DeepLRequest>)
    ensures outcome == TranslateMoments(moments, p, targetLanguage, key)
    ensures sent == Attempted(p, MomentRequests(moments, targetLanguage, key))
  {
    ghost var requests := MomentRequests(moments, targetLanguage, key);
    TranslateMomentsOutcome(moments, p, targetLanguage, key);
    sent := [];
    var translatedMoments: seq<KeyMoment> := [];
    for j := 0 to |moments|
      invariant |translatedMoments| == j
      invariant sent == requests[..j]
      invariant AllSucceed(p, sent)
      invariant forall k :: 0 <= k < j ==>
        translatedMoments[k].timestamp == moments[k].timestamp &&
        TranslateText(p, moments[k].description, targetLanguage, key)
          == Success(translatedMoments[k].description)
    {
      var moment := moments[j];
      var q := RequestFor(moment.description, targetLanguage, key);
      var translatedDescription := Send(p, q);
      ghost var before := sent;
      sent := sent + [q];
      assert requests[..j + 1] == requests[..j] + [q];
      if translatedDescription.Failure? {
        assert sent == Attempted(p, requests) by {
          assert requests == requests[..j] + [q] + requests[j + 1..];
          AttemptedStops(p, before, q, requests[j + 1..]);
        }
        TranslateMomentsFirstFailure(moments, j, p, targetLanguage, key);
        outcome := Failure(translatedDescription.error);
        return;
      }
      translatedMoments := translatedMoments + [KeyMoment(moment.timestamp, translatedDescription.value)];
    }
    assert sent == Attempted(p, requests) by {
      assert requests[..|moments|] == requests;
      AttemptedAll(p, sent);
    }
    assert TranslateMoments(moments, p, targetLanguage, key) == Success(translatedMoments) by {
      ghost var expected := TranslateMoments(moments, p, targetLanguage, key).value;
      assert forall k :: 0 <= k < |moments| ==> expected[k] == translatedMoments[k];
      assert expected == translatedMoments;
    }
    outcome := Success(translatedMoments);
  }

  // ---------------------------------------------------------------------
  // Properties of a translation pass

  /** A request list in which every request succeeds is sent in full. */
  lemma {:induction false} AttemptedAll(p: Provider, qs: seq<DeepLRequest>)
    requires AllSucceed(p, qs)
    ensures Attempted(p, qs) == qs
  {
    if qs != [] {
      AttemptedAll(p, qs[1..]);
    }
  }

  /** Nothing after the first failing request is sent. */
  lemma {:induction false} AttemptedStops(p: Provider, done: seq<DeepLRequest>, q: DeepLRequest, rest: seq<DeepLRequest>)
    requires AllSucceed(p, done) && Send(p, q).Failure?
    ensures Attempted(p, done + [q] + rest) == done + [q]
  {
    if done == [] {
      assert ([q] + rest)[0] == q;
    } else {
      assert (done + [q] + rest)[1..] == done[1..] + [q] + rest;
      AttemptedStops(p, done[1..], q, rest);
    }
  }

  /** Requests sent one after the other: the second list is reached only
      when the whole first list succeeds. */
  lemma {:induction false} AttemptedAppend(p: Provider, xs: seq<DeepLRequest>, ys: seq<DeepLRequest>)
    ensures Attempted(p, xs + ys) == if AllSucceed(p, xs) then xs + Attempted(p, ys) else Attempted(p, xs)
  {
    if xs != [] {
      assert (xs + ys)[0] == xs[0] && (xs + ys)[1..] == xs[1..] + ys;
      AttemptedAppend(p, xs[1..], ys);
      AllSucceedAppend(p, [xs[0]], xs[1..]);
      assert xs == [xs[0]] + xs[1..];
    } else {
      assert xs + ys == ys;
    }
  }

  lemma AllSucceedAppend(p: Provider, xs: seq<DeepLRequest>, ys: seq<DeepLRequest>)
    ensures AllSucceed(p, xs + ys) <==> AllSucceed(p, xs) && AllSucceed(p, ys)
  {
    if AllSucceed(p, xs) && AllSucceed(p, ys) {
      forall k | 0 <= k < |xs + ys| ensures Send(p, (xs + ys)[k]).Success? {
        if k >= |xs| { assert (xs + ys)[k] == ys[k - |xs|]; }
      }
    }
    if AllSucceed(p, xs + ys) {
      forall k | 0 <= k < |xs| ensures Send(p, xs[k]).Success? {
        assert (xs + ys)[k] == xs[k];
      }
      forall k | 0 <= k < |ys| ensures Send(p, ys[k]).Success? {
        assert (xs + ys)[|xs| + k] == ys[k];
      }
    }
  }

  /** Changing a field outside fs does not change the requests for fs. */
  lemma {:induction false} FieldRequestsFrame(r: VideoAnalysis, f: TextField, v: Option<string>, fs: seq<TextField>, lang: string, key: string)
    requires f !in fs
    ensures FieldRequests(r.With(f, v), fs, lang, key) == FieldRequests(r, fs, lang, key)
  {
    if fs != [] {
      assert fs[0] != f;
      assert fs == [fs[0]] + fs[1..];
      FieldRequestsFrame(r, f, v, fs[1..], lang, key);
    }
  }

  /** The text-field loop succeeds exactly when every request it plans
      succeeds; it then replaces each truthy field of fs by its translation
      and leaves every other field, the key moments, `error`, `rawText` and
      the other keys as they were. */
  lemma {:induction false} TranslateFieldsOutcome(r: VideoAnalysis, fs: seq<TextField>, p: Provider, lang: string, key: string)
    requires Distinct(fs)
    ensures TranslateFields(r, fs, p, lang, key).Success? <==> AllSucceed(p, FieldRequests(r, fs, lang, key))
    ensures TranslateFields(r, fs, p, lang, key).Success? ==>
      var out := TranslateFields(r, fs, p, lang, key).value;
      out.keyMoments == r.keyMoments && out.error == r.error && out.rawText == r.rawText &&
      out.others == r.others &&
      (forall f :: (f !in fs || !Truthy(r.Get(f))) ==> out.Get(f) == r.Get(f)) &&
      (forall f :: f in fs && Truthy(r.Get(f)) ==>
        out.Get(f).Some? && TranslateText(p, r.Get(f).value, lang, key) == Success(out.Get(f).value))
    decreases |fs|
  {
    if fs != [] {
      var g := fs[0];
      var v := r.Get(g);
      DistinctAfter(fs, 0);
      assert fs == [g] + fs[1..];
      if Truthy(v) {
        var q := RequestFor(v.value, lang, key);
        assert FieldRequests(r, fs, lang, key) == [q] + FieldRequests(r, fs[1..], lang, key);
        AllSucceedAppend(p, [q], FieldRequests(r, fs[1..], lang, key));
        match TranslateText(p, v.value, lang, key)
        case Failure(e) =>
          assert [q][0] == q && Send(p, q).Failure?;
        case Success(t) =>
          var r' := r.With(g, Some(t));
          FieldRequestsFrame(r, g, Some(t), fs[1..], lang, key);
          TranslateFieldsOutcome(r', fs[1..], p, lang, key);
      } else {
        assert FieldRequests(r, fs, lang, key) == FieldRequests(r, fs[1..], lang, key);
        TranslateFieldsOutcome(r, fs[1..], p, lang, key);
      }
    }
  }

  /** The key-moment loop succeeds exactly when every description gets a
      translation; it then keeps the length, the order and every timestamp,
      and replaces every description by its translation. */
  lemma {:induction false} TranslateMomentsOutcome(ms: seq<KeyMoment>, p: Provider, lang: string, key: string)
    ensures TranslateMoments(ms, p, lang, key).Success? <==> AllSucceed(p, MomentRequests(ms, lang, key))
    ensures TranslateMoments(ms, p, lang, key).Success? ==>
      var out := TranslateMoments(ms, p, lang, key).value;
      |out| == |ms| &&
      forall k :: 0 <= k < |ms| ==>
        out[k].timestamp == ms[k].timestamp &&
        TranslateText(p, ms[k].description, lang, key) == Success(out[k].description)
  {
    if ms != [] {
      var qs := MomentRequests(ms, lang, key);
      assert qs == [qs[0]] + MomentRequests(ms[1..], lang, key);
      AllSucceedAppend(p, [qs[0]], MomentRequests(ms[1..], lang, key));
      TranslateMomentsOutcome(ms[1..], p, lang, key);
      if TranslateMoments(ms, p, lang, key).Success? {
        var out := TranslateMoments(ms, p, lang, key).value;
        forall k | 0 <= k < |ms|
          ensures out[k].timestamp == ms[k].timestamp
          ensures TranslateText(p, ms[k].description, lang, key) == Success(out[k].description)
        {
          if k > 0 { assert ms[k] == ms[1..][k - 1]; }
        }
      }
    }
  }

  /** The key-moment loop fails with the error of the first description
      that gets no translation. */
  lemma {:induction false} TranslateMomentsFirstFailure(ms: seq<KeyMoment>, j: nat, p: Provider, lang: string, key: string)
    requires j < |ms|
    requires forall k :: 0 <= k < j ==> TranslateText(p, ms[k].description, lang, key).Success?
    requires TranslateText(p, ms[j].description, lang, key).Failure?
    ensures TranslateMoments(ms, p, lang, key) == Failure(TranslateText(p, ms[j].description, lang, key).error)
  {
    if j > 0 {
      assert TranslateText(p, ms[0].description, lang, key).Success?;
      assert ms[1..][j - 1] == ms[j];
      TranslateMomentsFirstFailure(ms[1..], j - 1, p, lang, key);
    }
  }

  /** All or nothing: a pass yields a record exactly when every planned
      request succeeds; one failure anywhere fails the whole pass. */
  lemma TranslateRecordAllOrNothing(a: VideoAnalysis, p: Provider, lang: string, key: string)
    ensures TranslateRecord(a, p, lang, key).Success? <==> AllSucceed(p, PlannedRequests(a, lang, key))
  {
    TextFieldsDistinct();
    TranslateFieldsOutcome(a, TextFields, p, lang, key);
    var momentsPart := if HasMoments(a) then MomentRequests(a.keyMoments.value, lang, key) else [];
    AllSucceedAppend(p, FieldRequests(a, TextFields, lang, key), momentsPart);
    if HasMoments(a) {
      TranslateMomentsOutcome(a.keyMoments.value, p, lang, key);
    }
  }

  /** What a successful pass does to the text fields: each truthy one is
      replaced by its translation, each absent or empty one is left as it
      was; `error`, `rawText` and every other key are unchanged. */
  lemma TranslateRecordFields(a: VideoAnalysis, p: Provider, lang: string, key: string)
    requires TranslateRecord(a, p, lang, key).Success?
    ensures var out := TranslateRecord(a, p, lang, key).value;
      (forall f :: !Truthy(a.Get(f)) ==> out.Get(f) == a.Get(f)) &&
      (forall f :: Truthy(a.Get(f)) ==>
        out.Get(f).Some? && TranslateText(p, a.Get(f).value, lang, key) == Success(out.Get(f).value)) &&
      out.error == a.error && out.rawText == a.rawText && out.others == a.others
  {
    TextFieldsDistinct();
    TextFieldsComplete();
    TranslateFieldsOutcome(a, TextFields, p, lang, key);
    var r := TranslateFields(a, TextFields, p, lang, key).value;
    var out := TranslateRecord(a, p, lang, key).value;
    assert forall f :: out.Get(f) == r.Get(f);
  }

  /** What a successful pass does to the key moments: a non-empty list keeps
      its length, its order and every timestamp, and every description is
      replaced by its translation; an absent or empty list is left as it was. */
  lemma TranslateRecordMoments(a: VideoAnalysis, p: Provider, lang: string, key: string)
    requires TranslateRecord(a, p, lang, key).Success?
    ensures var out := TranslateRecord(a, p, lang, key).value;
      (!HasMoments(a) ==> out.keyMoments == a.keyMoments) &&
      (HasMoments(a) ==>
        out.keyMoments.Some? && |out.keyMoments.value| == |a.keyMoments.value| &&
        forall k :: 0 <= k < |a.keyMoments.value| ==>
          out.keyMoments.value[k].timestamp == a.keyMoments.value[k].timestamp &&
          TranslateText(p, a.keyMoments.value[k].description, lang, key)
            == Success(out.keyMoments.value[k].description))
  {
    TextFieldsDistinct();
    TranslateFieldsOutcome(a, TextFields, p, lang, key);
    var r := TranslateFields(a, TextFields, p, lang, key).value;
    assert r.keyMoments == a.keyMoments;
    if HasMoments(a) {
      TranslateMomentsOutcome(a.keyMoments.value, p, lang, key);
    }
  }

  /** The fields a pass sends for. */
  function TruthyFields(a: VideoAnalysis): set<TextField> {
    set f | f in TextFields && Truthy(a.Get(f))
  }

  lemma {:induction false} FieldRequestsCount(r: VideoAnalysis, fs: seq<TextField>, lang: string, key: string)
    requires Distinct(fs)
    ensures |FieldRequests(r, fs, lang, key)| == |set f | f in fs && Truthy(r.Get(f))|
    ensures forall q :: q in FieldRequests(r, fs, lang, key) ==>
      |q.text| == 1 && q.targetLang == AsciiUpper(lang) && q.authorization == AuthScheme + key
  {
    if fs != [] {
      DistinctAfter(fs, 0);
      FieldRequestsCount(r, fs[1..], lang, key);
      var tail := set f | f in fs[1..] && Truthy(r.Get(f));
      if Truthy(r.Get(fs[0])) {
        assert (set f | f in fs && Truthy(r.Get(f))) == {fs[0]} + tail;
      } else {
        assert (set f | f in fs && Truthy(r.Get(f))) == tail;
      }
    } else {
      assert (set f | f in fs && Truthy(r.Get(f))) == {};
    }
  }

  /** How many of the fields fs are truthy in r. */
  function CountTruthy(r: VideoAnalysis, fs: seq<TextField>): nat {
    if fs == [] then 0
    else (if Truthy(r.Get(fs[0])) then 1 else 0) + CountTruthy(r, fs[1..])
  }

  /** The request for the truthy field fs[i] sits after the requests for the
      truthy fields before it, and carries that field's text. */
  lemma {:induction false} FieldRequestsPosition(r: VideoAnalysis, fs: seq<TextField>, i: nat, lang: string, key: string)
    requires i < |fs| && Truthy(r.Get(fs[i]))
    ensures CountTruthy(r, fs[..i]) < |FieldRequests(r, fs, lang, key)|
    ensures FieldRequests(r, fs, lang, key)[CountTruthy(r, fs[..i])]
      == RequestFor(r.Get(fs[i]).value, lang, key)
  {
    if i == 0 {
      assert fs[..0] == [];
    } else {
      FieldRequestsPosition(r, fs[1..], i - 1, lang, key);
      assert fs[..i][1..] == fs[1..][..i - 1];
      assert fs[..i][0] == fs[0];
    }
  }

  /** A full pass sends one request per truthy text field and then one per
      key moment, in that order, each with a single text and the upper-cased
      target code. */
  lemma PlannedRequestsCount(a: VideoAnalysis, lang: string, key: string)
    ensures var planned := PlannedRequests(a, lang, key);
      var n := |TruthyFields(a)|;
      |planned| == n + (if HasMoments(a) then |a.keyMoments.value| else 0) &&
      (forall i :: 0 <= i < |TextFields| && Truthy(a.Get(TextFields[i])) ==>
        CountTruthy(a, TextFields[..i]) < n &&
        planned[CountTruthy(a, TextFields[..i])] == RequestFor(a.Get(TextFields[i]).value, lang, key)) &&
      (HasMoments(a) ==> forall k :: 0 <= k < |a.keyMoments.value| ==>
        planned[n + k] == RequestFor(a.keyMoments.value[k].description, lang, key)) &&
      (forall q :: q in planned ==>
        |q.text| == 1 && q.targetLang == AsciiUpper(lang) && q.authorization == AuthScheme + key)
  {
    TextFieldsDistinct();
    FieldRequestsCount(a, TextFields, lang, key);
    forall i | 0 <= i < |TextFields| && Truthy(a.Get(TextFields[i])) {
      FieldRequestsPosition(a, TextFields, i, lang, key);
    }
  }
}
