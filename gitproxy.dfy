/** The stand-alone variant of the Git CORS proxy (`GitProxyHandler`, a
    `BaseHTTPRequestHandler`). The handler is an object: it reads the
    request body from its input stream and writes the reply step by step,
    status line, header lines, end of headers and body, to its output. The
    pure functions below say what those steps add up to; the methods of
    `Handler` are proved to emit exactly that. */
module GitProxy {
  import opened Results
  import opened Text
  import opened Http

  /** The two verbs `do_GET` and `do_POST` pass to `_handle_request`. */
  datatype Verb = GET | POST

  /** One step of what the handler writes to the connection. */
  datatype Token =
    | StatusLine(code: int)
    | HeaderLine(name: string, value: string)
    | EndOfHeaders
    | BodyBytes(data: seq<byte>)

  /** A reply: its status, the headers the handler sends itself (after the
      `Server` and `Date` headers the library adds), and the body written,
      if one is. */
  datatype Reply = Reply(status: int, headers: seq<Header>, body: Option<seq<byte>>)

  /** A reply together with the number of request-body bytes read. */
  datatype Outcome = Outcome(reply: Reply, consumed: nat)

  const Prefix := "/api/git-proxy/"
  const DefaultContentType := "application/octet-stream"

  const CorsHeaders: seq<Header> := [
    Header("Access-Control-Allow-Origin", "*"),
    Header("Access-Control-Allow-Methods", "GET, POST, OPTIONS"),
    Header("Access-Control-Allow-Headers", "*")]

  // The request side.

  /** The target path: `/api/git-proxy/`, trailing slash included, is cut
      off and nothing more; any other path loses all its leading slashes. */
  function TargetPath(pathPart: string): (r: string)
    ensures StartsWith(pathPart, Prefix) ==> pathPart == Prefix + r
    ensures !StartsWith(pathPart, Prefix) ==> RunThen(pathPart, '/', r) && (r == [] || r[0] != '/')
    ensures forall c :: c in r ==> c in pathPart
  {
    if StartsWith(pathPart, Prefix) then
      assert pathPart == Prefix + pathPart[|Prefix|..];
      pathPart[|Prefix|..]
    else LStrip(pathPart, '/')
  }

  /** The upstream URL for the request path: `https://`, the target path
      of the part before the first `?`, and the query after it, verbatim,
      when it is not empty. Split at its first `?`, the URL gives back that
      target and that query. */
  function TargetUrl(path: string): (r: string)
    ensures var (pathPart, query) := SplitAtFirst(path, '?');
      SplitAtFirst(r, '?') == ("https://" + TargetPath(pathPart), if query.Some? && query.value != "" then query else None)
  {
    var (pathPart, query) := SplitAtFirst(path, '?');
    var tail := if query.Some? && query.value != "" then query else None;
    HttpsQuerySplit(TargetPath(pathPart), tail);
    "https://" + TargetPath(pathPart) + (if tail.Some? then "?" + tail.value else "")
  }

  /** Headers other than `host` and `connection`, in any letter case, are
      passed on; `Content-Length` is among those passed on. */
  predicate IsForwarded(name: string) {
    ToLower(name) != "host" && ToLower(name) != "connection"
  }

  /** The dictionary the header-copy loop builds: each forwarded header,
      in arrival order, is assigned under its own name. */
  function Forwarded(hs: seq<Header>): (r: map<string, string>)
    ensures forall k :: k in r ==> IsForwarded(k)
  {
    if hs == [] then map[]
    else
      var last := hs[|hs| - 1];
      var m := Forwarded(hs[..|hs| - 1]);
      if IsForwarded(last.name) then m[last.name := last.value] else m
  }

  /** Entry `i` is the last one named `k`. */
  predicate LastNamed(hs: seq<Header>, k: string, i: int) {
    0 <= i < |hs| && hs[i].name == k && forall j :: i < j < |hs| ==> hs[j].name != k
  }

  /** A name is in the forwarded dictionary exactly when it is forwarded and
      some header has it. */
  lemma {:induction false} ForwardedKeys(hs: seq<Header>)
    ensures forall k :: k in Forwarded(hs) <==> IsForwarded(k) && exists i :: 0 <= i < |hs| && hs[i].name == k
    decreases |hs|
  {
    if hs != [] {
      var init := hs[..|hs| - 1];
      var last := hs[|hs| - 1];
      ForwardedKeys(init);
      forall k
        ensures k in Forwarded(hs) <==> IsForwarded(k) && exists i :: 0 <= i < |hs| && hs[i].name == k
      {
        if k == last.name {
          assert hs[|hs| - 1].name == k;
        } else if exists i :: 0 <= i < |hs| && hs[i].name == k {
          var i :| 0 <= i < |hs| && hs[i].name == k;
          assert init[i].name == k;
        }
      }
    }
  }

  /** A forwarded name carries the value of the last header with that name. */
  lemma {:induction false} ForwardedLast(hs: seq<Header>)
    ensures forall k :: k in Forwarded(hs) ==> exists i :: LastNamed(hs, k, i) && Forwarded(hs)[k] == hs[i].value
    decreases |hs|
  {
    if hs != [] {
      var init := hs[..|hs| - 1];
      var last := hs[|hs| - 1];
      ForwardedLast(init);
      forall k | k in Forwarded(hs)
        ensures exists i :: LastNamed(hs, k, i) && Forwarded(hs)[k] == hs[i].value
      {
        if k == last.name && IsForwarded(k) {
          assert LastNamed(hs, k, |hs| - 1);
        } else {
          assert IsForwarded(k);
          assert k != last.name;
          assert k in Forwarded(init) && Forwarded(hs)[k] == Forwarded(init)[k];
          var i :| LastNamed(init, k, i) && Forwarded(init)[k] == init[i].value;
          assert LastNamed(hs, k, i);
        }
      }
    }
  }

  /** A name is in the forwarded dictionary exactly when it is forwarded and
      some header has it; its value is that of the last such header. */
  lemma ForwardedMeaning(hs: seq<Header>)
    ensures forall k :: k in Forwarded(hs) <==> IsForwarded(k) && exists i :: 0 <= i < |hs| && hs[i].name == k
    ensures forall k :: k in Forwarded(hs) ==> exists i :: LastNamed(hs, k, i) && Forwarded(hs)[k] == hs[i].value
  {
    ForwardedKeys(hs);
    ForwardedLast(hs);
  }

  /** `int(self.headers.get('Content-Length', 0))`: 0 without the header,
      otherwise its value read as an integer, or the `ValueError`. */
  function DeclaredLength(hs: seq<Header>, codec: Codec): (r: Result<int>)
    ensures HeaderLookup(hs, "Content-Length").None? ==> r == Success(0)
    ensures r.Failure? ==> exists v :: HeaderLookup(hs, "Content-Length") == Some(v) && ParseInt(v).None?
    ensures forall v, n :: HeaderLookup(hs, "Content-Length") == Some(v) && ParseInt(v) == Some(n) ==> r == Success(n)
    ensures forall v :: HeaderLookup(hs, "Content-Length") == Some(v) && ParseInt(v).None? ==>
      r == Failure(codec.intErrorText(v))
  {
    match HeaderLookup(hs, "Content-Length")
    case None => Success(0)
    case Some(v) =>
      match ParseInt(v)
      case Some(n) => Success(n)
      case None => Failure(codec.intErrorText(v))
  }

  /** `sys.maxsize` on a 64-bit build: the largest count `rfile.read`
      accepts. */
  const MaxReadCount := 0x7FFF_FFFF_FFFF_FFFF

  /** The text of the `OverflowError` that `rfile.read(n)` raises for a
      larger `n`. */
  const ReadOverflow := "cannot fit 'int' into an index-sized integer"

  /** `rfile.read(n)` for `n > 0` on a stream holding `input`: the first `n`
      bytes, fewer only when the stream ends first; a count beyond
      `sys.maxsize` raises before anything is read. */
  function ReadFrom(n: int, input: seq<byte>): (r: Result<seq<byte>>)
    requires n > 0
    ensures r.Failure? <==> n > MaxReadCount
    ensures r.Failure? ==> r.error == ReadOverflow
    ensures r.Success? ==> r.value <= input && (|r.value| == n || (r.value == input && |input| < n))
  {
    if n > MaxReadCount then Failure(ReadOverflow)
    else if n < |input| then Success(input[..n])
    else Success(input)
  }

  /** `self.rfile.read(content_length) if content_length > 0 else None`. */
  function BodyRead(n: int, input: seq<byte>): (r: Result<Option<seq<byte>>>)
    ensures r == Success(None) <==> n <= 0
    ensures r.Failure? <==> n > MaxReadCount
    ensures r.Failure? ==> r.error == ReadOverflow
    ensures r.Success? && r.value.Some? ==>
      r.value.value <= input && (|r.value.value| == n || (r.value.value == input && |input| < n))
  {
    if n <= 0 then Success(None)
    else
      match ReadFrom(n, input)
      case Failure(message) => Failure(message)
      case Success(data) => Success(Some(data))
  }

  /** The number of request-body bytes taken from the stream. */
  function BodyLength(body: Option<seq<byte>>): nat {
    if body.Some? then |body.value| else 0
  }

  /** The upstream request: `requests.get` without a body, `requests.post`
      with the body read (or `None`); both go to the target URL of the path
      with the forwarded headers, none of them `host` or `connection`. */
  function UpstreamRequestFor(verb: Verb, path: string, hs: seq<Header>, body: Option<seq<byte>>): (r: UpstreamRequest)
    ensures r.verb == (if verb == GET then "GET" else "POST")
    ensures StartsWith(r.url, "https://") && r.url == TargetUrl(path)
    ensures r.headers == Forwarded(hs) && forall k :: k in r.headers ==> IsForwarded(k)
    ensures verb == GET ==> r.body.None?
    ensures verb == POST ==> r.body == body
  {
    assert TargetUrl(path)[..8] == "https://";
    match verb
    case GET => UpstreamRequest("GET", TargetUrl(path), Forwarded(hs), None)
    case POST => UpstreamRequest("POST", TargetUrl(path), Forwarded(hs), body)
  }

  // The reply side.

  function HeaderTokens(hs: seq<Header>): (ts: seq<Token>)
    ensures |ts| == |hs| && forall i :: 0 <= i < |hs| ==> ts[i] == HeaderLine(hs[i].name, hs[i].value)
  {
    seq(|hs|, i requires 0 <= i < |hs| => HeaderLine(hs[i].name, hs[i].value))
  }

  lemma HeaderTokensAppend(a: seq<Header>, b: seq<Header>)
    ensures HeaderTokens(a + b) == HeaderTokens(a) + HeaderTokens(b)
  {
    assert forall i :: 0 <= i < |a + b| ==> HeaderTokens(a + b)[i] == (HeaderTokens(a) + HeaderTokens(b))[i];
  }

  /** The header tokens of the CORS headers followed by Content-Type and
      Content-Length are those three groups in order. */
  lemma TailTokens(cors: seq<Header>, contentType: string, contentLength: string)
    ensures HeaderTokens(cors + [Header("Content-Type", contentType), Header("Content-Length", contentLength)])
      == HeaderTokens(cors) + [HeaderLine("Content-Type", contentType), HeaderLine("Content-Length", contentLength)]
  {
    var tail := [Header("Content-Type", contentType), Header("Content-Length", contentLength)];
    HeaderTokensAppend(cors, tail);
    assert HeaderTokens(tail) == [HeaderLine("Content-Type", contentType), HeaderLine("Content-Length", contentLength)];
  }

  /** What the handler writes for `r`: the status line with the library's
      `Server` and `Date` headers, the reply's headers, the end of the
      headers, and the body if one is written. */
  function Emission(r: Reply, serverVersion: string, date: string): seq<Token> {
    [StatusLine(r.status), HeaderLine("Server", serverVersion), HeaderLine("Date", date)]
    + HeaderTokens(r.headers) + [EndOfHeaders]
    + (if r.body.Some? then [BodyBytes(r.body.value)] else [])
  }

  /** The emission after `w` of a reply with the CORS headers, a
      Content-Type and a Content-Length, token by token, grouped as the
      handler writes it. */
  lemma ReplyEmission(w: seq<Token>, r: Reply, contentType: string, contentLength: string, body: seq<byte>,
                      serverVersion: string, date: string)
    requires r.headers == CorsHeaders + [Header("Content-Type", contentType), Header("Content-Length", contentLength)]
    requires r.body == Some(body)
    ensures w + Emission(r, serverVersion, date)
      == w + [StatusLine(r.status), HeaderLine("Server", serverVersion), HeaderLine("Date", date)]
         + HeaderTokens(CorsHeaders)
         + [HeaderLine("Content-Type", contentType)]
         + [HeaderLine("Content-Length", contentLength)]
         + [EndOfHeaders] + [BodyBytes(body)]
  {
    TailTokens(CorsHeaders, contentType, contentLength);
  }

  /** The reply to a CORS preflight. */
  const OptionsReply := Reply(204, CorsHeaders, None)

  /** The JSON error body, UTF-8 encoded. */
  function ErrorBody(message: string, codec: Codec): seq<byte> {
    codec.utf8Encode(codec.jsonDumps([("error", "Failed to proxy request"), ("details", message)]))
  }

  /** `_send_error_response(code, message)`: the code, the CORS headers, a
      JSON Content-Type and a Content-Length that reads back as the byte
      length of the JSON body. */
  function ErrorReply(code: int, message: string, codec: Codec): (r: Reply)
    ensures ReplyShape(r) && r.status == code && r.body == Some(ErrorBody(message, codec))
    ensures r.headers[3].value == "application/json"
    ensures IsNumeral(r.headers[4].value, |r.body.value|)
    ensures |r.headers[4].value| <= MaxStrDigits ==> ParseInt(r.headers[4].value) == Some(|r.body.value|)
  {
    var body := ErrorBody(message, codec);
    NatToStringReadsBack(|body|);
    Reply(code, CorsHeaders + [Header("Content-Type", "application/json"), Header("Content-Length", NatToString(|body|))], Some(body))
  }

  /** The Content-Length sent with an upstream reply: the upstream one when
      present and not empty, else the length of the body written. */
  function ReplyContentLength(upstreamHeaders: seq<Header>, content: seq<byte>): string {
    var declared := HeaderLookup(upstreamHeaders, "Content-Length");
    if declared.Some? && declared.value != "" then declared.value else NatToString(|content|)
  }

  /** The reply relaying an upstream response: its status and its content;
      the Content-Type is the upstream one or `application/octet-stream`, the
      Content-Length the upstream one when present and not empty, and
      otherwise one that reads back as the length of the body written. */
  function RelayReply(status: int, upstreamHeaders: seq<Header>, content: seq<byte>): (r: Reply)
    ensures ReplyShape(r) && r.status == status && r.body == Some(content)
    ensures r.headers[3].value == HeaderLookup(upstreamHeaders, "Content-Type").GetOr(DefaultContentType)
    ensures var declared := HeaderLookup(upstreamHeaders, "Content-Length");
      && (declared.Some? && declared.value != "" ==> r.headers[4].value == declared.value)
      && (declared.None? || declared.value == "" ==> IsNumeral(r.headers[4].value, |content|))
      && (declared.None? || declared.value == "" ==> |r.headers[4].value| <= MaxStrDigits ==>
            ParseInt(r.headers[4].value) == Some(|content|))
  {
    NatToStringReadsBack(|content|);
    var contentType := HeaderLookup(upstreamHeaders, "Content-Type").GetOr(DefaultContentType);
    Reply(status,
          CorsHeaders + [Header("Content-Type", contentType), Header("Content-Length", ReplyContentLength(upstreamHeaders, content))],
          Some(content))
  }

  /** The reply to the upstream outcome: the relayed response, or 500 with
      the exception text for either exception branch. */
  function Answer(outcome: Upstream, codec: Codec): (r: Reply)
    ensures ReplyShape(r)
    ensures outcome.Raised? ==> r.status == 500 && r.body == Some(ErrorBody(outcome.message, codec))
    ensures outcome.Response? ==> r.status == outcome.status && r.body == Some(outcome.content)
    ensures outcome.Raised? ==> r == ErrorReply(500, outcome.message, codec)
    ensures outcome.Response? ==> r == RelayReply(outcome.status, outcome.headers, outcome.content)
  {
    match outcome
    case Raised(_, message) => ErrorReply(500, message, codec)
    case Response(status, upstreamHeaders, content) => RelayReply(status, upstreamHeaders, content)
  }

  /** `_handle_request(verb)` on a request for `path` with headers `hs` and
      body stream `input`, when the upstream answers with `network`. */
  function Serve(verb: Verb, path: string, hs: seq<Header>, input: seq<byte>, codec: Codec,
                 network: UpstreamRequest -> Upstream): (x: Outcome)
    ensures x.consumed <= |input|
  {
    match DeclaredLength(hs, codec)
    case Failure(message) => Outcome(ErrorReply(500, message, codec), 0)
    case Success(n) =>
      match BodyRead(n, input)
      case Failure(message) => Outcome(ErrorReply(500, message, codec), 0)
      case Success(body) => Outcome(Answer(network(UpstreamRequestFor(verb, path, hs, body)), codec), BodyLength(body))
  }

  // Properties of the rewrite and of the replies.

  /** Under `/api/git-proxy/` exactly the prefix is removed: a further
      slash stays part of the target path. */
  lemma TargetPathOfPrefixed(rest: string)
    ensures TargetPath(Prefix + rest) == rest
  {
    assert (Prefix + rest)[..|Prefix|] == Prefix;
  }

  /** The path part ends at the first `?` and the query, further `?`s
      included, is appended verbatim when it is not empty: a bare trailing
      `?` adds nothing, and without `?` there is no query. */
  lemma TargetUrlOf(pathPart: string, query: string)
    requires '?' !in pathPart
    ensures TargetUrl(pathPart + "?" + query)
      == "https://" + TargetPath(pathPart) + (if query == "" then "" else "?" + query)
    ensures TargetUrl(pathPart) == "https://" + TargetPath(pathPart)
  {
    SplitAtFirstOf(pathPart, '?', query);
  }

  /** The request isomorphic-git makes, `/api/git-proxy/` followed by the
      repository URL without its scheme (such as
      `github.com/owner/repo.git/info/refs?service=git-upload-pack`), goes to
      that URL over `https`. */
  lemma PrefixedRequestUrl(rest: string, query: string)
    requires '?' !in rest && query != ""
    ensures TargetUrl(Prefix + rest + "?" + query) == "https://" + rest + "?" + query
  {
    assert '?' !in Prefix + rest by {
      assert forall i :: 0 <= i < |Prefix| ==> (Prefix + rest)[i] == Prefix[i];
    }
    TargetUrlOf(Prefix + rest, query);
    TargetPathOfPrefixed(rest);
  }

  /** A forwarded name, `Content-Length` among them, carries the value of its
      last occurrence. */
  lemma ForwardedValue(hs: seq<Header>, k: string, i: int)
    requires IsForwarded(k) && LastNamed(hs, k, i)
    ensures k in Forwarded(hs) && Forwarded(hs)[k] == hs[i].value
  {
    ForwardedMeaning(hs);
    var j :| LastNamed(hs, k, j) && Forwarded(hs)[k] == hs[j].value;
    assert j == i;
  }

  /** A Content-Length that `int()` rejects is answered with 500 carrying the
      `ValueError` text; no body is read and the upstream is not asked. */
  lemma BadContentLength(verb: Verb, path: string, hs: seq<Header>, input: seq<byte>, codec: Codec,
                         network: UpstreamRequest -> Upstream, other: UpstreamRequest -> Upstream, v: string)
    requires HeaderLookup(hs, "Content-Length") == Some(v) && ParseInt(v).None?
    ensures var x := Serve(verb, path, hs, input, codec, network);
      && x.reply.status == 500 && x.consumed == 0
      && x.reply == ErrorReply(500, codec.intErrorText(v), codec)
      && x == Serve(verb, path, hs, input, codec, other)
  {
  }

  /** A Content-Length of more than 4300 zeros exceeds `int()`'s digit limit
      although it denotes 0: the reply is 500 carrying the `ValueError` text,
      nothing is read and the upstream is not asked. */
  lemma ManyZerosContentLength(verb: Verb, path: string, hs: seq<Header>, input: seq<byte>, codec: Codec,
                               network: UpstreamRequest -> Upstream, other: UpstreamRequest -> Upstream, z: string)
    requires HeaderLookup(hs, "Content-Length") == Some(z)
    requires |z| > MaxStrDigits && forall i :: 0 <= i < |z| ==> z[i] == '0'
    ensures DeclaredLength(hs, codec) == Failure(codec.intErrorText(z))
    ensures var x := Serve(verb, path, hs, input, codec, network);
      && x.reply.status == 500 && x.consumed == 0
      && x.reply == ErrorReply(500, codec.intErrorText(z), codec)
      && x == Serve(verb, path, hs, input, codec, other)
  {
    ParseIntRefusesManyZeros(z);
    BadContentLength(verb, path, hs, input, codec, network, other, z);
  }

  /** A Content-Length beyond `sys.maxsize` makes `rfile.read` raise: the
      reply is 500 carrying the `OverflowError` text, nothing is read and the
      upstream is not asked. */
  lemma HugeContentLength(verb: Verb, path: string, hs: seq<Header>, input: seq<byte>, codec: Codec,
                          network: UpstreamRequest -> Upstream, other: UpstreamRequest -> Upstream, n: int)
    requires DeclaredLength(hs, codec) == Success(n) && n > MaxReadCount
    ensures var x := Serve(verb, path, hs, input, codec, network);
      && x.reply.status == 500 && x.consumed == 0
      && x.reply == ErrorReply(500, ReadOverflow, codec)
      && x == Serve(verb, path, hs, input, codec, other)
  {
  }

  /** The body read for a count `n` that `rfile.read` accepts: nothing when
      `n <= 0`, the first `n` bytes when the stream has them, else all of it. */
  lemma BodyReadOf(n: int, input: seq<byte>)
    requires n <= MaxReadCount
    ensures n <= 0 ==> BodyRead(n, input) == Success(None)
    ensures 0 < n <= |input| ==> BodyRead(n, input) == Success(Some(input[..n]))
    ensures |input| < n ==> BodyRead(n, input) == Success(Some(input))
  {
    if 0 < n <= |input| {
      var data := BodyRead(n, input).value.value;
      assert data <= input && |data| == n;
      assert data == input[..n];
    }
  }

  /** The request sent upstream once Content-Length reads as `n` (at most
      `sys.maxsize`): the rewritten URL, the forwarded headers, and for POST
      the body read, which is `n` bytes unless the stream ends first; a GET
      reads that body too but does not send it. The reply depends on the
      upstream only through its answer to that request. */
  lemma RequestSent(verb: Verb, path: string, hs: seq<Header>, input: seq<byte>, codec: Codec,
                    network: UpstreamRequest -> Upstream, other: UpstreamRequest -> Upstream, n: int)
    requires DeclaredLength(hs, codec) == Success(n) && n <= MaxReadCount
    requires var body := BodyRead(n, input).value;
      other(UpstreamRequestFor(verb, path, hs, body)) == network(UpstreamRequestFor(verb, path, hs, body))
    ensures var x := Serve(verb, path, hs, input, codec, network);
      var body := BodyRead(n, input).value;
      var req := UpstreamRequestFor(verb, path, hs, body);
      && x.consumed == BodyLength(body)
      && (n <= 0 ==> body.None? && x.consumed == 0)
      && (0 < n <= |input| ==> body == Some(input[..n]) && x.consumed == n)
      && (n > |input| ==> body == Some(input) && x.consumed == |input|)
      && req.verb == (if verb == GET then "GET" else "POST")
      && req.url == TargetUrl(path) && req.headers == Forwarded(hs)
      && req.body == (if verb == POST then body else None)
      && x == Serve(verb, path, hs, input, codec, other)
  {
    BodyReadOf(n, input);
    var body := BodyRead(n, input).value;
    var req := UpstreamRequestFor(verb, path, hs, body);
    assert Serve(verb, path, hs, input, codec, network) == Outcome(Answer(network(req), codec), BodyLength(body));
    assert Serve(verb, path, hs, input, codec, other) == Outcome(Answer(other(req), codec), BodyLength(body));
  }

  /** However the upstream call fails, the reply is 500 with the JSON error
      carrying the exception text. */
  lemma UpstreamFailure(verb: Verb, path: string, hs: seq<Header>, input: seq<byte>, codec: Codec,
                        network: UpstreamRequest -> Upstream, n: int, body: Option<seq<byte>>,
                        kind: FailureKind, message: string)
    requires DeclaredLength(hs, codec) == Success(n) && BodyRead(n, input) == Success(body)
    requires network(UpstreamRequestFor(verb, path, hs, body)) == Raised(kind, message)
    ensures var r := Serve(verb, path, hs, input, codec, network).reply;
      r.status == 500 && r == ErrorReply(500, message, codec)
  {
  }

  /** An upstream answer is relayed with its status and its content; the
      Content-Type is the upstream one or `application/octet-stream`, the
      Content-Length the upstream one when present and not empty, and
      otherwise one that reads back as the length of the body written. */
  lemma UpstreamAnswer(verb: Verb, path: string, hs: seq<Header>, input: seq<byte>, codec: Codec,
                       network: UpstreamRequest -> Upstream, n: int, body: Option<seq<byte>>,
                       status: int, upstreamHeaders: seq<Header>, content: seq<byte>)
    requires DeclaredLength(hs, codec) == Success(n) && BodyRead(n, input) == Success(body)
    requires network(UpstreamRequestFor(verb, path, hs, body)) == Response(status, upstreamHeaders, content)
    ensures var r := Serve(verb, path, hs, input, codec, network).reply;
      var declared := HeaderLookup(upstreamHeaders, "Content-Length");
      && r.status == status && r.body == Some(content)
      && r.headers[3] == Header("Content-Type", HeaderLookup(upstreamHeaders, "Content-Type").GetOr(DefaultContentType))
      && r.headers[4].name == "Content-Length"
      && (declared.Some? && declared.value != "" ==> r.headers[4].value == declared.value)
      && (declared.None? || declared.value == "" ==> IsNumeral(r.headers[4].value, |content|))
      && (declared.None? || declared.value == "" ==> |r.headers[4].value| <= MaxStrDigits ==>
            ParseInt(r.headers[4].value) == Some(|content|))
  {
  }

  /** The header layout shared by relayed and error replies. */
  predicate ReplyShape(r: Reply) {
    && |r.headers| == 5 && r.headers[..3] == CorsHeaders
    && r.headers[3].name == "Content-Type" && r.headers[4].name == "Content-Length" && r.body.Some?
  }

  /** The reply to every request, preflight included, sends the three CORS
      headers right after `Server` and `Date`; the relayed and error replies
      then send Content-Type and Content-Length and a body, the preflight
      nothing more. */
  lemma CorsOnEveryReply(verb: Verb, path: string, hs: seq<Header>, input: seq<byte>, codec: Codec,
                         network: UpstreamRequest -> Upstream)
    ensures ReplyShape(Serve(verb, path, hs, input, codec, network).reply)
    ensures OptionsReply.status == 204 && OptionsReply.headers == CorsHeaders && OptionsReply.body.None?
  {
    match DeclaredLength(hs, codec)
    case Failure(message) =>
    case Success(n) =>
  }

  /** What the handler writes is one status line, the header lines in
      order, one end of the headers, then the body if there is one. */
  lemma EmissionShape(r: Reply, serverVersion: string, date: string)
    ensures var ts := Emission(r, serverVersion, date);
      && |ts| == 4 + |r.headers| + (if r.body.Some? then 1 else 0)
      && ts[0] == StatusLine(r.status)
      && (forall i :: 0 <= i < |ts| ==> (ts[i].StatusLine? <==> i == 0))
      && (forall i :: 0 <= i < |ts| ==> (ts[i] == EndOfHeaders <==> i == 3 + |r.headers|))
      && (forall i :: 0 <= i < |r.headers| ==> ts[3 + i] == HeaderLine(r.headers[i].name, r.headers[i].value))
      && (r.body.Some? ==> ts[|ts| - 1] == BodyBytes(r.body.value))
  {
    var ts := Emission(r, serverVersion, date);
    var hts := HeaderTokens(r.headers);
    assert forall i :: 3 <= i < 3 + |r.headers| ==> ts[i] == hts[i - 3];
  }

  /** The handler for one connection. `rfile` holds the request body bytes
      not read yet and `wire` what has been written; `serverVersion` and
      `date` are what the library puts in the `Server` and `Date` headers. */
  class Handler {
    const path: string
    const headers: seq<Header>
    const serverVersion: string
    const date: string
    var rfile: seq<byte>
    var wire: seq<Token>

    constructor (path: string, headers: seq<Header>, input: seq<byte>, serverVersion: string, date: string)
      ensures this.path == path && this.headers == headers && rfile == input && wire == []
      ensures this.serverVersion == serverVersion && this.date == date
    {
      this.path := path;
      this.headers := headers;
      this.serverVersion := serverVersion;
      this.date := date;
      rfile := input;
      wire := [];
    }

    /** `send_response(code)`: the status line, then the `Server` and `Date` headers. */
    method SendResponse(code: int)
      modifies this
      ensures wire == old(wire) + [StatusLine(code), HeaderLine("Server", serverVersion), HeaderLine("Date", date)]
      ensures rfile == old(rfile)
    {
      wire := wire + [StatusLine(code), HeaderLine("Server", serverVersion), HeaderLine("Date", date)];
    }

    method SendHeader(name: string, value: string)
      modifies this
      ensures wire == old(wire) + [HeaderLine(name, value)] && rfile == old(rfile)
    {
      wire := wire + [HeaderLine(name, value)];
    }

    method EndHeaders()
      modifies this
      ensures wire == old(wire) + [EndOfHeaders] && rfile == old(rfile)
    {
      wire := wire + [EndOfHeaders];
    }

    /** `wfile.write(data)`. */
    method Write(data: seq<byte>)
      modifies this
      ensures wire == old(wire) + [BodyBytes(data)] && rfile == old(rfile)
    {
      wire := wire + [BodyBytes(data)];
    }

    /** `rfile.read(n)` for `n > 0`: up to `n` bytes, fewer only when the
      stream ends first; the `OverflowError` for a count beyond
      `sys.maxsize` leaves the stream as it was. */
    method Read(n: int) returns (data: Result<seq<byte>>)
      requires n > 0
      modifies this
      ensures data == ReadFrom(n, old(rfile))
      ensures rfile == (if data.Success? then old(rfile)[|data.value|..] else old(rfile)) && wire == old(wire)
    {
      if n > MaxReadCount {
        data := Failure(ReadOverflow);
      } else if n < |rfile| {
        data := Success(rfile[..n]);
        rfile := rfile[n..];
      } else {
        data := Success(rfile);
        rfile := [];
      }
    }

    /** `_set_cors_headers`. */
    method SetCorsHeaders()
      modifies this
      ensures wire == old(wire) + HeaderTokens(CorsHeaders) && rfile == old(rfile)
    {
      SendHeader("Access-Control-Allow-Origin", "*");
      SendHeader("Access-Control-Allow-Methods", "GET, POST, OPTIONS");
      SendHeader("Access-Control-Allow-Headers", "*");
    }

    /** `do_OPTIONS`: 204 with the CORS headers and no body. */
    method DoOptions()
      modifies this
      ensures wire == old(wire) + Emission(OptionsReply, serverVersion, date) && rfile == old(rfile)
    {
      SendResponse(204);
      SetCorsHeaders();
      EndHeaders();
    }

    /** `_send_error_response(code, message)`. */
    method SendErrorResponse(code: int, message: string, codec: Codec)
      modifies this
      ensures wire == old(wire) + Emission(ErrorReply(code, message, codec), serverVersion, date)
      ensures rfile == old(rfile)
    {
      var body := ErrorBody(message, codec);
      var reply := ErrorReply(code, message, codec);
      assert reply.headers == CorsHeaders + [Header("Content-Type", "application/json"), Header("Content-Length", NatToString(|body|))];
      ReplyEmission(wire, reply, "application/json", NatToString(|body|), body, serverVersion, date);
      SendResponse(code);
      SetCorsHeaders();
      SendHeader("Content-Type", "application/json");
      SendHeader("Content-Length", NatToString(|body|));
      EndHeaders();
      Write(body);
    }

    /** The header-copy loop of `_handle_request`. */
    method CopyHeaders() returns (forwarded: map<string, string>)
      ensures forwarded == Forwarded(headers)
      ensures forall k :: k in forwarded <==> IsForwarded(k) && exists i :: 0 <= i < |headers| && headers[i].name == k
    {
      forwarded := map[];
      var i := 0;
      while i < |headers|
        invariant 0 <= i <= |headers|
        invariant forwarded == Forwarded(headers[..i])
      {
        assert headers[..i + 1][..i] == headers[..i];
        var h := headers[i];
        if IsForwarded(h.name) {
          forwarded := forwarded[h.name := h.value];
        }
        i := i + 1;
      }
      assert headers[..i] == headers;
      ForwardedMeaning(headers);
    }

    /** The body read by `_handle_request`: `n` bytes as far as the stream
      has them when `n > 0`, otherwise nothing; or the `OverflowError`. */
    method ReadBody(n: int) returns (body: Result<Option<seq<byte>>>)
      modifies this
      ensures body == BodyRead(n, old(rfile))
      ensures rfile == (if body.Success? then old(rfile)[BodyLength(body.value)..] else old(rfile))
      ensures wire == old(wire)
    {
      body := Success(None);
      if n > 0 {
        var data := Read(n);
        match data
        case Failure(message) =>
          body := Failure(message);
        case Success(bytes) =>
          body := Success(Some(bytes));
      }
    }

    /** The success branch of `_handle_request`: status, CORS headers,
      Content-Type, Content-Length, end of headers, body. */
    method Relay(status: int, upstreamHeaders: seq<Header>, content: seq<byte>)
      modifies this
      ensures wire == old(wire) + Emission(RelayReply(status, upstreamHeaders, content), serverVersion, date)
      ensures rfile == old(rfile)
    {
      var contentType := HeaderLookup(upstreamHeaders, "Content-Type").GetOr(DefaultContentType);
      var upstreamLength := HeaderLookup(upstreamHeaders, "Content-Length");
      var contentLength := NatToString(|content|);
      if upstreamLength.Some? && upstreamLength.value != "" {
        contentLength := upstreamLength.value;
      }
      var reply := RelayReply(status, upstreamHeaders, content);
      assert reply.headers == CorsHeaders + [Header("Content-Type", contentType), Header("Content-Length", contentLength)];
      ReplyEmission(wire, reply, contentType, contentLength, content, serverVersion, date);
      SendResponse(status);
      SetCorsHeaders();
      SendHeader("Content-Type", contentType);
      SendHeader("Content-Length", contentLength);
      EndHeaders();
      Write(content);
    }

    /** The target URL of the request path, built as `_handle_request` does. */
    method BuildTargetUrl() returns (targetUrl: string)
      ensures targetUrl == TargetUrl(path)
    {
      var (pathPart, query) := SplitAtFirst(path, '?');
      targetUrl := "https://" + TargetPath(pathPart);
      if query.Some? && query.value != "" {
        targetUrl := targetUrl + "?" + query.value;
      }
    }

    /** The end of `_handle_request` once the upstream has answered (or
      raised): relay the response or send the error reply. */
    method SendAnswer(outcome: Upstream, codec: Codec)
      modifies this
      ensures wire == old(wire) + Emission(Answer(outcome, codec), serverVersion, date)
      ensures rfile == old(rfile)
    {
      match outcome
      case Raised(_, message) =>
        SendErrorResponse(500, message, codec);
      case Response(status, upstreamHeaders, content) =>
        Relay(status, upstreamHeaders, content);
    }

    /** `_handle_request(verb)`: rewrite the request, read the body, call
      upstream, and relay the reply or send the error reply. */
    method HandleRequest(verb: Verb, codec: Codec, network: UpstreamRequest -> Upstream)
      modifies this
      ensures var x := Serve(verb, path, headers, old(rfile), codec, network);
        wire == old(wire) + Emission(x.reply, serverVersion, date) && rfile == old(rfile)[x.consumed..]
    {
      var targetUrl := BuildTargetUrl();
      var forwarded := CopyHeaders();
      var declared := DeclaredLength(headers, codec);
      if declared.Failure? {
        SendErrorResponse(500, declared.error, codec);
        return;
      }
      var body := ReadBody(declared.value);
      if body.Failure? {
        SendErrorResponse(500, body.error, codec);
        return;
      }
      var request := match verb
        case GET => UpstreamRequest("GET", targetUrl, forwarded, None)
        case POST => UpstreamRequest("POST", targetUrl, forwarded, body.value);
      assert request == UpstreamRequestFor(verb, path, headers, body.value);
      SendAnswer(network(request), codec);
    }

    /** `do_GET`. */
    method DoGet(codec: Codec, network: UpstreamRequest -> Upstream)
      modifies this
      ensures var x := Serve(GET, path, headers, old(rfile), codec, network);
        wire == old(wire) + Emission(x.reply, serverVersion, date) && rfile == old(rfile)[x.consumed..]
    {
      HandleRequest(GET, codec, network);
    }

    /** `do_POST`. */
    method DoPost(codec: Codec, network: UpstreamRequest -> Upstream)
      modifies this
      ensures var x := Serve(POST, path, headers, old(rfile), codec, network);
        wire == old(wire) + Emission(x.reply, serverVersion, date) && rfile == old(rfile)[x.consumed..]
    {
      HandleRequest(POST, codec, network);
    }
  }
}
