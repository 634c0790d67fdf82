/** The AWS Lambda variant of the Git CORS proxy (`lambda_handler`): an API
    Gateway or Lambda Function URL event is rewritten into the upstream
    `https://` request, and the upstream outcome is shaped into the reply
    dictionary. Every step is a function of the event; the network call is
    the `network` parameter of `Handle`. */
module LambdaProxy {
  import opened Results
  import opened Text
  import opened Http

  /** A member of the event's JSON that may be missing, be `null`, or hold a
      value; used where `null` behaves differently from a missing member. */
  datatype Field<+T> = Absent | Null | Value(value: T)

  /** `requestContext.http`; `verb` is its `method` member. */
  datatype HttpContext = HttpContext(verb: Field<string>)

  datatype RequestContext = RequestContext(http: Field<HttpContext>)

  /** The event. Members whose `null` the handler treats like a missing
      member (it only tests them for truth) are `Option`s; a present empty
      string or empty dictionary is a present value. */
  datatype Event = Event(
    httpMethod: Option<string>,
    requestContext: Option<RequestContext>,
    path: Option<string>,
    rawPath: Field<string>,
    queryStringParameters: Option<seq<(string, string)>>,
    headers: Field<map<string, string>>,
    body: Option<string>,
    isBase64Encoded: Option<bool>)

  /** The returned dictionary; `headers` and `isBase64Encoded` are `None`
      when the dictionary has no such key. */
  datatype Reply = Reply(
    statusCode: int,
    headers: Option<map<string, string>>,
    body: string,
    isBase64Encoded: Option<bool>)

  /** How the request continues once it has been rewritten. */
  datatype Step = Forward(request: UpstreamRequest) | Preflight | NotAllowed(verb: string)

  const Prefix := "/api/git-proxy"
  const SkipHeaders: set<string> := {"host", "connection", "content-length"}
  const BodyMethods: set<string> := {"POST", "PUT", "PATCH"}
  const ForwardedMethods: set<string> := {"GET", "POST", "PUT", "DELETE"}
  const DefaultContentType := "application/octet-stream"
  const JsonType: map<string, string> := map["Content-Type" := "application/json"]

  const CorsHeaders: map<string, string> := map[
    "Access-Control-Allow-Origin" := "*",
    "Access-Control-Allow-Methods" := "GET, POST, PUT, DELETE, OPTIONS",
    "Access-Control-Allow-Headers" := "*"]

  const PreflightHeaders: map<string, string> := map[
    "Access-Control-Allow-Origin" := "*",
    "Access-Control-Allow-Methods" := "GET, POST, PUT, DELETE, OPTIONS",
    "Access-Control-Allow-Headers" := "Content-Type, Authorization, X-Requested-With, Accept, Origin",
    "Access-Control-Max-Age" := "86400"]

  // The text of the AttributeError raised when a member read as a dictionary
  // or string is `null`.
  const NullGet := "'NoneType' object has no attribute 'get'"
  const NullUpper := "'NoneType' object has no attribute 'upper'"
  const NullStartsWith := "'NoneType' object has no attribute 'startswith'"
  const NullItems := "'NoneType' object has no attribute 'items'"

  /** An event of a Lambda Function URL has `requestContext.http`; there the
      infrastructure adds the CORS headers, so the handler does not. */
  predicate IsLambdaUrl(e: Event): (b: bool)
    ensures b ==> e.requestContext.Some?
    ensures e.requestContext.Some? ==> (b <==> e.requestContext.value.http.Value? || e.requestContext.value.http.Null?)
  {
    e.requestContext.Some? && !e.requestContext.value.http.Absent?
  }

  /** The event gives no usable `httpMethod` (missing, `null` or empty). */
  predicate NoHttpMethod(e: Event) {
    e.httpMethod.None? || e.httpMethod.value == ""
  }

  /** The HTTP verb: a non-empty `httpMethod`, else
      `requestContext.http.method`, else `GET`, upper-cased. A `null`
      `http` or `method` raises when it is read. */
  function RequestMethod(e: Event): (r: Result<string>)
    ensures r.Success? ==> IsUpperCase(r.value)
    ensures !NoHttpMethod(e) ==> r == Success(ToUpper(e.httpMethod.value))
    ensures !IsLambdaUrl(e) ==> r.Success?
    ensures !IsLambdaUrl(e) && NoHttpMethod(e) ==> r == Success("GET")
    ensures NoHttpMethod(e) && IsLambdaUrl(e) && e.requestContext.value.http.Null? ==> r == Failure(NullGet)
    ensures NoHttpMethod(e) && IsLambdaUrl(e) && e.requestContext.value.http.Value? ==>
      var verb := e.requestContext.value.http.value.verb;
      && (verb.Value? ==> r == Success(ToUpper(verb.value)))
      && (verb.Absent? ==> r == Success("GET"))
      && (verb.Null? ==> r == Failure(NullUpper))
  {
    if e.httpMethod.Some? && e.httpMethod.value != "" then Success(ToUpper(e.httpMethod.value))
    else
      match e.requestContext
      case None => Success("GET")
      case Some(rc) =>
        match rc.http
        case Absent => Success("GET")
        case Null => Failure(NullGet)
        case Value(h) =>
          match h.verb
          case Absent => Success("GET")
          case Null => Failure(NullUpper)
          case Value(m) => Success(ToUpper(m))
  }

  /** The request path: a non-empty `path`, else `rawPath`, else empty. */
  function SourcePath(e: Event): (r: Result<string>)
    ensures r.Failure? <==> (e.path.None? || e.path.value == "") && e.rawPath.Null?
    ensures r.Failure? ==> r.error == NullStartsWith
    ensures e.path.Some? && e.path.value != "" ==> r == Success(e.path.value)
    ensures (e.path.None? || e.path.value == "") && e.rawPath.Value? ==> r == Success(e.rawPath.value)
    ensures (e.path.None? || e.path.value == "") && e.rawPath.Absent? ==> r == Success("")
  {
    if e.path.Some? && e.path.value != "" then Success(e.path.value)
    else
      match e.rawPath
      case Absent => Success("")
      case Null => Failure(NullStartsWith)
      case Value(p) => Success(p)
  }

  /** The target path: `/api/git-proxy` is cut off when the path starts with
      it (no `/` needs to follow), then every leading `/` is removed. */
  function TargetPath(path: string): (r: string)
    ensures r == [] || r[0] != '/'
    ensures StartsWith(path, Prefix) ==> RunThen(path[|Prefix|..], '/', r)
    ensures !StartsWith(path, Prefix) ==> RunThen(path, '/', r)
  {
    LStrip(if StartsWith(path, Prefix) then path[|Prefix|..] else path, '/')
  }

  /** `https://` and the target path, then `?` and the encoded parameters
      when `queryStringParameters` is present and not empty. */
  function TargetUrl(targetPath: string, query: Option<seq<(string, string)>>, codec: Codec): (r: string)
    ensures query.Some? && query.value != [] ==> r == "https://" + targetPath + "?" + codec.urlencode(query.value)
    ensures !(query.Some? && query.value != []) ==> r == "https://" + targetPath
    ensures '?' !in targetPath ==>
      SplitAtFirst(r, '?') == ("https://" + targetPath,
                               if query.Some? && query.value != [] then Some(codec.urlencode(query.value)) else None)
  {
    var tail := if query.Some? && query.value != [] then Some(codec.urlencode(query.value)) else None;
    HttpsQuerySplit(targetPath, tail);
    "https://" + targetPath + (if tail.Some? then "?" + tail.value else "")
  }

  /** `event.get('headers', {})`. */
  function HeadersOf(e: Event): (r: Result<map<string, string>>)
    ensures r.Failure? <==> e.headers.Null?
    ensures r.Failure? ==> r.error == NullItems
    ensures e.headers.Absent? ==> r == Success(map[])
    ensures e.headers.Value? ==> r == Success(e.headers.value)
  {
    match e.headers
    case Absent => Success(map[])
    case Null => Failure(NullItems)
    case Value(h) => Success(h)
  }

  /** The headers passed on: every input header, with its own name and
      value, except those named `host`, `connection` or `content-length`
      in any letter case. */
  function ProxiedHeaders(h: map<string, string>): (r: map<string, string>)
    ensures forall k :: k in r ==> k in h && r[k] == h[k]
    ensures forall k :: k in r ==> ToLower(k) != "host" && ToLower(k) != "connection" && ToLower(k) != "content-length"
    ensures forall k :: k in h && ToLower(k) !in SkipHeaders ==> k in r
  {
    map k | k in h && ToLower(k) !in SkipHeaders :: h[k]
  }

  /** The upstream body: only for POST, PUT and PATCH with a non-empty
      `body`, base64-decoded when `isBase64Encoded` is true and UTF-8
      encoded otherwise. A body that is not valid base64 raises. */
  function RequestBody(verb: string, e: Event, codec: Codec): (r: Result<Option<seq<byte>>>)
    ensures (r.Success? && r.value.Some?) || r.Failure? ==>
      verb in BodyMethods && e.body.Some? && e.body.value != ""
    ensures r.Failure? ==> e.isBase64Encoded == Some(true) && codec.b64decode(e.body.value).Failure?
    ensures r.Success? && r.value.Some? && e.isBase64Encoded == Some(true) ==>
      codec.b64decode(e.body.value) == Success(r.value.value)
    ensures r.Success? && r.value.Some? && e.isBase64Encoded != Some(true) ==>
      r.value.value == codec.utf8Encode(e.body.value)
    ensures verb in BodyMethods && e.body.Some? && e.body.value != "" && e.isBase64Encoded != Some(true) ==>
      r.Success? && r.value.Some?
    ensures verb in BodyMethods && e.body.Some? && e.body.value != "" && e.isBase64Encoded == Some(true) ==>
      && (r.Success? <==> codec.b64decode(e.body.value).Success?)
      && (r.Success? ==> r.value.Some?)
  {
    if verb in BodyMethods && e.body.Some? && e.body.value != "" then
      if e.isBase64Encoded.GetOr(false) then
        match codec.b64decode(e.body.value)
        case Success(bytes) => Success(Some(bytes))
        case Failure(message) => Failure(message)
      else Success(Some(codec.utf8Encode(e.body.value)))
    else Success(None)
  }

  /** Method dispatch: GET, POST, PUT and DELETE go upstream (a body only
      with POST and PUT), OPTIONS is answered locally, anything else is
      refused. */
  function Dispatch(verb: string, url: string, headers: map<string, string>, body: Option<seq<byte>>): (s: Step)
    ensures s.Forward? <==> verb in ForwardedMethods
    ensures s.Preflight? <==> verb == "OPTIONS"
    ensures s.NotAllowed? ==> s.verb == verb
    ensures s.Forward? ==> s.request.verb == verb && s.request.url == url && s.request.headers == headers
    ensures s.Forward? ==> s.request.body == if verb in {"POST", "PUT"} then body else None
  {
    if verb in ForwardedMethods then
      Forward(UpstreamRequest(verb, url, headers, if verb in {"POST", "PUT"} then body else None))
    else if verb == "OPTIONS" then Preflight
    else NotAllowed(verb)
  }

  /** Everything before the upstream call; `Failure` carries the text of the
      exception raised on the way: reading the method, the path, the
      headers or decoding the body, and nothing else, can raise, and every
      such exception is a `null` member read or an undecodable body. */
  function Rewrite(e: Event, codec: Codec): (r: Result<Step>)
    ensures r.Failure? <==>
      || RequestMethod(e).Failure? || SourcePath(e).Failure? || HeadersOf(e).Failure?
      || RequestBody(RequestMethod(e).value, e, codec).Failure?
    ensures r.Failure? ==>
      || r.error in {NullGet, NullUpper, NullStartsWith, NullItems}
      || (e.body.Some? && codec.b64decode(e.body.value) == Failure(r.error))
  {
    match RequestMethod(e)
    case Failure(m) => Failure(m)
    case Success(verb) =>
      match SourcePath(e)
      case Failure(m) => Failure(m)
      case Success(path) =>
        var url := TargetUrl(TargetPath(path), e.queryStringParameters, codec);
        match HeadersOf(e)
        case Failure(m) => Failure(m)
        case Success(headers) =>
          match RequestBody(verb, e, codec)
          case Failure(m) => Failure(m)
          case Success(body) => Success(Dispatch(verb, url, ProxiedHeaders(headers), body))
  }

  /** `h` with the CORS headers added, unless on a Function URL; a header
      `h` has is kept or replaced by the CORS header of that name. */
  function WithCors(h: map<string, string>, lambdaUrl: bool): (r: map<string, string>)
    ensures lambdaUrl ==> r == h
    ensures !lambdaUrl ==> r.Keys == h.Keys + CorsHeaders.Keys
    ensures !lambdaUrl ==> forall k :: k in CorsHeaders ==> r[k] == CorsHeaders[k]
    ensures forall k :: k in h && k !in CorsHeaders ==> k in r && r[k] == h[k]
  {
    if lambdaUrl then h else h + CorsHeaders
  }

  /** The headers of a reply with content type `ct`: Content-Type, and the
      CORS headers exactly off a Function URL. */
  lemma CorsOverContentType(ct: string, lambdaUrl: bool)
    ensures var h := WithCors(map["Content-Type" := ct], lambdaUrl);
      && h.Keys == {"Content-Type"} + (if lambdaUrl then {} else CorsHeaders.Keys)
      && "Content-Type" in h && h["Content-Type"] == ct
      && (!lambdaUrl ==> forall k :: k in CorsHeaders ==> h[k] == CorsHeaders[k])
      && ("Access-Control-Allow-Origin" in h <==> !lambdaUrl)
  {
  }

  /** The OPTIONS reply: 200 with an empty body, and the preflight headers
      unless on a Function URL. */
  function PreflightReply(lambdaUrl: bool): (r: Reply)
    ensures r.statusCode == 200 && r.body == "" && r.isBase64Encoded.None?
    ensures r.headers.Some? <==> !lambdaUrl
    ensures r.headers.Some? ==> r.headers.value == PreflightHeaders
  {
    Reply(200, if lambdaUrl then None else Some(PreflightHeaders), "", None)
  }

  /** The refusal: 405 with only a JSON Content-Type, whatever the event, and
      a JSON error naming the method. */
  function NotAllowedReply(verb: string, codec: Codec): (r: Reply)
    ensures r.statusCode == 405 && r.headers == Some(JsonType) && r.isBase64Encoded.None?
    ensures "Access-Control-Allow-Origin" !in r.headers.value
    ensures r.body == codec.jsonDumps([("error", "Method " + verb + " not allowed")])
  {
    Reply(405, Some(JsonType), codec.jsonDumps([("error", "Method " + verb + " not allowed")]), None)
  }

  /** The reply for an exception: 504 for a timeout, 502 for another
      `requests` exception, 500 for anything else, with a JSON body, and
      CORS headers unless on a Function URL. */
  function FailureReply(lambdaUrl: bool, kind: FailureKind, message: string, codec: Codec): (r: Reply)
    ensures r.statusCode == (match kind case Timeout => 504 case RequestError => 502 case OtherError => 500)
    ensures r.headers.Some? && "Content-Type" in r.headers.value && r.headers.value["Content-Type"] == "application/json"
    ensures r.headers.value.Keys == {"Content-Type"} + (if lambdaUrl then {} else CorsHeaders.Keys)
    ensures !lambdaUrl ==> forall k :: k in CorsHeaders ==> r.headers.value[k] == CorsHeaders[k]
    ensures "Access-Control-Allow-Origin" in r.headers.value <==> !lambdaUrl
    ensures kind == Timeout ==> r.body == codec.jsonDumps([("error", "Gateway timeout")])
    ensures kind == RequestError ==>
      r.body == codec.jsonDumps([("error", "Failed to proxy request"), ("details", message)])
    ensures kind == OtherError ==>
      r.body == codec.jsonDumps([("error", "Internal server error"), ("details", message)])
    ensures r.isBase64Encoded.None?
  {
    CorsOverContentType("application/json", lambdaUrl);
    var headers := Some(WithCors(JsonType, lambdaUrl));
    match kind
    case Timeout => Reply(504, headers, codec.jsonDumps([("error", "Gateway timeout")]), None)
    case RequestError =>
      Reply(502, headers, codec.jsonDumps([("error", "Failed to proxy request"), ("details", message)]), None)
    case OtherError =>
      Reply(500, headers, codec.jsonDumps([("error", "Internal server error"), ("details", message)]), None)
  }

  /** `'application/octet-stream' in ct or 'application/x-git' in ct`. */
  predicate IsBinary(contentType: string) {
    Contains(contentType, "application/octet-stream") || Contains(contentType, "application/x-git")
  }

  /** The upstream Content-Type, `application/octet-stream` when it has none. */
  function ReplyContentType(upstreamHeaders: seq<Header>): string {
    HeaderLookup(upstreamHeaders, "Content-Type").GetOr(DefaultContentType)
  }

  predicate EncodesAsBase64(contentType: string) {
    IsBinary(contentType) || !StartsWith(contentType, "text")
  }

  /** The reply for an upstream response: the upstream status, its content
      type (labelled `Content-Type`), the body as base64 or as text, and CORS
      headers unless on a Function URL. */
  function ResponseReply(lambdaUrl: bool, status: int, upstreamHeaders: seq<Header>, content: seq<byte>, codec: Codec): (r: Reply)
    ensures r.statusCode == status
    ensures r.isBase64Encoded == Some(EncodesAsBase64(ReplyContentType(upstreamHeaders)))
    ensures r.headers.Some? && "Content-Type" in r.headers.value
    ensures r.headers.value["Content-Type"] == ReplyContentType(upstreamHeaders)
    ensures r.headers.value.Keys == {"Content-Type"} + (if lambdaUrl then {} else CorsHeaders.Keys)
    ensures !lambdaUrl ==> forall k :: k in CorsHeaders ==> r.headers.value[k] == CorsHeaders[k]
    ensures "Access-Control-Allow-Origin" in r.headers.value <==> !lambdaUrl
  {
    var contentType := ReplyContentType(upstreamHeaders);
    var base64 := EncodesAsBase64(contentType);
    CorsOverContentType(contentType, lambdaUrl);
    Reply(
      status,
      Some(WithCors(map["Content-Type" := contentType], lambdaUrl)),
      if base64 then codec.b64encode(content) else codec.utf8DecodeReplace(content),
      Some(base64))
  }

  /** The reply to the upstream outcome: a response is relayed, an exception
      answered by its failure reply; it has the CORS headers exactly off a
      Function URL. */
  function BuildReply(lambdaUrl: bool, outcome: Upstream, codec: Codec): (r: Reply)
    ensures r.headers.Some? && ("Access-Control-Allow-Origin" in r.headers.value <==> !lambdaUrl)
    ensures outcome.Response? ==> r.statusCode == outcome.status
    ensures outcome.Response? ==>
      r == ResponseReply(lambdaUrl, outcome.status, outcome.headers, outcome.content, codec)
    ensures outcome.Raised? ==> r.statusCode in {500, 502, 504}
    ensures outcome.Raised? ==> r == FailureReply(lambdaUrl, outcome.kind, outcome.message, codec)
  {
    match outcome
    case Response(status, headers, content) => ResponseReply(lambdaUrl, status, headers, content, codec)
    case Raised(kind, message) => FailureReply(lambdaUrl, kind, message, codec)
  }

  /** `lambda_handler`: the reply to `e` when the upstream answers a request
      with `network(request)`. Whatever happens, the reply carries CORS
      headers exactly when the event does not come from a Function URL and
      the method was not refused; a refusal is 405, a failure of the
      rewrite 500 with its text, and a forwarded request gets the reply to
      the upstream's answer to exactly the rewritten request. */
  function Handle(e: Event, codec: Codec, network: UpstreamRequest -> Upstream): (r: Reply)
    ensures (r.headers.Some? && "Access-Control-Allow-Origin" in r.headers.value) <==> (!IsLambdaUrl(e) && !Refused(e, codec))
    ensures Refused(e, codec) ==> r == NotAllowedReply(Rewrite(e, codec).value.verb, codec)
    ensures Refused(e, codec) ==> r.statusCode == 405 && r.headers == Some(JsonType)
    ensures Rewrite(e, codec).Failure? ==> r.statusCode == 500
    ensures Rewrite(e, codec).Failure? ==> r == FailureReply(IsLambdaUrl(e), OtherError, Rewrite(e, codec).error, codec)
    ensures Rewrite(e, codec) == Success(Preflight) ==> r.statusCode == 200
    ensures Rewrite(e, codec) == Success(Preflight) ==> r == PreflightReply(IsLambdaUrl(e))
    ensures Rewrite(e, codec).Success? && Rewrite(e, codec).value.Forward? ==>
      r == BuildReply(IsLambdaUrl(e), network(Rewrite(e, codec).value.request), codec)
  {
    var lambdaUrl := IsLambdaUrl(e);
    match Rewrite(e, codec)
    case Failure(message) => FailureReply(lambdaUrl, OtherError, message, codec)
    case Success(Preflight) => PreflightReply(lambdaUrl)
    case Success(NotAllowed(verb)) => NotAllowedReply(verb, codec)
    case Success(Forward(request)) => BuildReply(lambdaUrl, network(request), codec)
  }

  // Properties of the rewrite.

  /** The prefix is removed without requiring a `/` after it:
      `/api/git-proxyfoo` targets `foo`, `/api/git-proxy//github.com/x`
      targets `github.com/x`. */
  lemma TargetPathAfterPrefix(rest: string)
    ensures TargetPath(Prefix + rest) == LStrip(rest, '/')
  {
    assert StartsWith(Prefix + rest, Prefix);
    assert (Prefix + rest)[|Prefix|..] == rest;
  }

  /** A request that goes upstream has the event's method, targets
      `https://` and the target path of the event's path with its query
      parameters, carries the event's headers less the hop-by-hop ones, and
      has the event's body only for POST and PUT. */
  lemma ForwardedRequestShape(e: Event, codec: Codec)
    requires Rewrite(e, codec).Success? && Rewrite(e, codec).value.Forward?
    ensures var request := Rewrite(e, codec).value.request;
      && StartsWith(request.url, "https://")
      && request.verb in ForwardedMethods && request.verb == RequestMethod(e).value
      && request.url == TargetUrl(TargetPath(SourcePath(e).value), e.queryStringParameters, codec)
      && request.headers == ProxiedHeaders(HeadersOf(e).value)
      && (forall k :: k in request.headers ==> ToLower(k) !in SkipHeaders)
      && request.body == (if request.verb in {"POST", "PUT"} then RequestBody(request.verb, e, codec).value else None)
      && (request.body.Some? ==> request.verb in {"POST", "PUT"} && e.body.Some? && e.body.value != "")
  {
    RewriteOf(e, codec);
    var url := TargetUrl(TargetPath(SourcePath(e).value), e.queryStringParameters, codec);
    assert url[..8] == "https://";
  }

  /** A rewrite that succeeds dispatches on what the event's members read as. */
  lemma RewriteOf(e: Event, codec: Codec)
    requires Rewrite(e, codec).Success?
    ensures RequestMethod(e).Success? && SourcePath(e).Success? && HeadersOf(e).Success?
    ensures RequestBody(RequestMethod(e).value, e, codec).Success?
    ensures Rewrite(e, codec) == Success(Dispatch(
      RequestMethod(e).value,
      TargetUrl(TargetPath(SourcePath(e).value), e.queryStringParameters, codec),
      ProxiedHeaders(HeadersOf(e).value),
      RequestBody(RequestMethod(e).value, e, codec).value))
  {
  }

  // Properties of the locally answered requests.

  /** OPTIONS is answered with 200 and an empty body, with the CORS preflight
      headers unless the event comes from a Function URL, and without calling
      upstream. */
  lemma OptionsPreflight(e: Event, codec: Codec, network: UpstreamRequest -> Upstream)
    requires RequestMethod(e) == Success("OPTIONS")
    requires SourcePath(e).Success? && HeadersOf(e).Success?
    ensures var r := Handle(e, codec, network);
      && r.statusCode == 200 && r.body == "" && r.isBase64Encoded.None?
      && (r.headers.Some? <==> !IsLambdaUrl(e))
      && (r.headers.Some? ==> r.headers.value == PreflightHeaders)
    ensures forall other: UpstreamRequest -> Upstream :: Handle(e, codec, other) == Handle(e, codec, network)
  {
    assert "OPTIONS" !in BodyMethods;
    assert RequestBody("OPTIONS", e, codec) == Success(None);
  }

  /** Any other method than GET, POST, PUT, DELETE and OPTIONS, PATCH
      included, is refused with 405 and a JSON error naming it, without
      CORS headers. */
  lemma MethodNotAllowed(e: Event, codec: Codec, network: UpstreamRequest -> Upstream, verb: string)
    requires RequestMethod(e) == Success(verb) && verb !in ForwardedMethods && verb != "OPTIONS"
    requires SourcePath(e).Success? && HeadersOf(e).Success? && RequestBody(verb, e, codec).Success?
    ensures Handle(e, codec, network)
      == Reply(405, Some(JsonType), codec.jsonDumps([("error", "Method " + verb + " not allowed")]), None)
  {
  }

  /** The body is decoded before the method is dispatched: a PATCH whose
      base64 body does not decode gets 500, not 405. */
  lemma PatchWithUndecodableBody(e: Event, codec: Codec, network: UpstreamRequest -> Upstream)
    requires RequestMethod(e) == Success("PATCH")
    requires SourcePath(e).Success? && HeadersOf(e).Success?
    requires e.body.Some? && e.body.value != "" && e.isBase64Encoded == Some(true)
    requires codec.b64decode(e.body.value).Failure?
    ensures Handle(e, codec, network).statusCode == 500
    ensures Handle(e, codec, network)
      == FailureReply(IsLambdaUrl(e), OtherError, codec.b64decode(e.body.value).error, codec)
  {
    assert "PATCH" in BodyMethods;
  }

  // Properties of the reply.

  /** `IsBinary` is the substring test of the source. */
  lemma IsBinaryMeaning(ct: string)
    ensures IsBinary(ct) <==>
      || (exists i :: OccursAt(ct, "application/octet-stream", i))
      || (exists i :: OccursAt(ct, "application/x-git", i))
  {
    ContainsAt(ct, "application/octet-stream");
    ContainsAt(ct, "application/x-git");
  }

  /** The reply is base64 exactly when the content type contains
      `application/octet-stream` or `application/x-git` or does not start
      with `text`; otherwise the body is the decoded text. */
  lemma ResponseEncoding(lambdaUrl: bool, status: int, hs: seq<Header>, content: seq<byte>, codec: Codec)
    ensures var r := ResponseReply(lambdaUrl, status, hs, content, codec);
      var ct := ReplyContentType(hs);
      && r.isBase64Encoded.Some?
      && (r.isBase64Encoded.value <==>
           || (exists i :: OccursAt(ct, "application/octet-stream", i))
           || (exists i :: OccursAt(ct, "application/x-git", i))
           || !StartsWith(ct, "text"))
      && r.body == (if r.isBase64Encoded.value then codec.b64encode(content) else codec.utf8DecodeReplace(content))
  {
    IsBinaryMeaning(ReplyContentType(hs));
  }

  /** A reply without a Content-Type is labelled `application/octet-stream`
      and sent as base64. */
  lemma MissingContentTypeIsBinary(lambdaUrl: bool, status: int, hs: seq<Header>, content: seq<byte>, codec: Codec)
    requires forall i :: 0 <= i < |hs| ==> !NameIs(hs[i], "Content-Type")
    ensures var r := ResponseReply(lambdaUrl, status, hs, content, codec);
      && r.isBase64Encoded == Some(true) && r.body == codec.b64encode(content)
      && r.headers.Some? && r.headers.value["Content-Type"] == "application/octet-stream"
  {
    assert StartsWith(DefaultContentType, "application/octet-stream");
  }

  /** With a base64 codec that inverts its encoder, a base64 reply decodes to
      exactly the upstream content. */
  lemma Base64ReplyRecoversContent(lambdaUrl: bool, status: int, hs: seq<Header>, content: seq<byte>, codec: Codec)
    requires forall x :: codec.b64decode(codec.b64encode(x)) == Success(x)
    ensures var r := ResponseReply(lambdaUrl, status, hs, content, codec);
      r.isBase64Encoded == Some(true) ==> codec.b64decode(r.body) == Success(content)
  {
  }

  /** The request was refused with 405 by the method dispatch. */
  predicate Refused(e: Event, codec: Codec) {
    Rewrite(e, codec).Success? && Rewrite(e, codec).value.NotAllowed?
  }
}
