# Git CORS proxy, modelled in Dafny

The browser-side Git client of this repository cannot talk to a Git host
directly, so it sends its smart-HTTP traffic through a CORS forwarding proxy.
The client puts the host URL without its scheme after `/api/git-proxy/`.
The proxy rewrites the request into an `https://` request to that host.
It then turns the answer into a reply the browser may read, with CORS
headers on it. There are two interchangeable proxies:

- `scripts/gitproxy/lambda_function.py` is the AWS Lambda handler. It takes
  an API Gateway or Lambda Function URL event and returns a reply
  dictionary. It is modelled as pure functions in module `LambdaProxy`.
  `Handle` is the whole handler and its network call is a parameter.
- `scripts/gitproxy/gitproxy.py` is a `BaseHTTPRequestHandler`. It reads the
  request body from its input stream and writes its reply as a sequence of
  steps. It is modelled in module `GitProxy` as class `Handler`:
  - `rfile` holds the body bytes not yet read;
  - `wire` holds the tokens written so far (status line, header lines, end
    of headers, body);
  - each method that writes is proved to append exactly the tokens of the reply that a
    pure function (`Serve`, `ErrorReply`, `RelayReply`, `OptionsReply`)
    describes.

Shared modules:

- `Text`: Python's `startswith`, `lstrip`, `split('?', 1)`, `in`,
  `upper`/`lower`, `str(n)` and `int(s)`.
- `Http`: the header list with its case-insensitive `get`, the request sent
  upstream, the upstream outcome, and `Codec`. `Codec` holds the library
  functions the proxies call but do not define (`urlencode`, base64, JSON,
  UTF-8, the `ValueError` text) as uninterpreted values.
- `Results`: Option and Result.

Module `ProxyVariants` states where the two proxies differ on the same
request:

- the prefix each one recognises;
- the slashes each one trims;
- the `Content-Length` header, which only the Lambda drops;
- the preflight status, 200 against 204;
- the advertised methods;
- the status for a timeout.

Neither proxy relays the upstream headers as such. The stand-alone proxy
sends the upstream `Content-Type` and `Content-Length`; the Lambda sends only
the upstream `Content-Type`.

The Lambda's 405 reply for a refused method carries no CORS headers on any
event (`LambdaProxy.Handle`); whether the browser can read it depends on
what the deployment in front of the handler adds.

## Model

| member | source | states |
|---|---|---|
| Text.LStrip | scripts/gitproxy/lambda_function.py:56 | `lstrip('/')`: the input is a run of the character followed by the result, and the result does not begin with it |
| Text.SplitAtFirst | scripts/gitproxy/gitproxy.py:51-52 | The part before the first `?` has no `?`. There is a remainder exactly when `?` occurs. Part, `?` and remainder rebuild the input |
| Text.SplitAtFirstOf | scripts/gitproxy/gitproxy.py:51-52 | Splitting `b + "?" + a`, where `b` has no `?`, gives back `b` and `a` even when `a` contains `?` |
| Text.ContainsAt | scripts/gitproxy/lambda_function.py:132 | Python's `sub in s` holds exactly when `sub` occurs at some index of `s` |
| Text.ToLower | scripts/gitproxy/gitproxy.py:74 | `lower()` on ASCII letters: no capital A-Z is left, each capital becomes its small letter, and every other character is kept |
| Text.ToUpper | scripts/gitproxy/lambda_function.py:43-44 | `upper()` on ASCII letters: no small a-z is left, each small letter becomes its capital, and every other character is kept |
| Text.ToUpperMeaning | scripts/gitproxy/lambda_function.py:43-44 | The upper-cased method has no lower-case letter; upper-casing is idempotent and ignores an earlier lower-casing |
| Text.NatToString | scripts/gitproxy/gitproxy.py:121 | `str(n)` is a non-empty run of digits, with no leading zero unless `n` is 0 |
| Text.NatToStringValue | scripts/gitproxy/gitproxy.py:153 | `str(n)` is well-formed decimal that denotes `n` |
| Text.ParseInt | scripts/gitproxy/gitproxy.py:87 | `int(s)` succeeds only on text that is not blank after stripping white space, and fails on text of more than 4300 digits, leading zeros counted |
| Text.ParseIntOfNatToString | scripts/gitproxy/gitproxy.py:153 | `int(str(n)) == n` for every `n` of at most 4300 digits, the most `str` writes: a Content-Length written with `str` reads back as that length |
| Text.ParseIntOfNegative | scripts/gitproxy/gitproxy.py:87-88 | `int('-' + str(n)) == -n` for `n` of at most 4300 digits, so a negative Content-Length parses and then reads nothing |
| Text.ParseIntOfDigits | scripts/gitproxy/gitproxy.py:87 | Text that strips down to well-formed digits, underscores between digits allowed and at most 4300 digits, reads as the number they denote |
| Text.ParseIntRefusesSeparator | scripts/gitproxy/gitproxy.py:87 | A U+001C separator before the digits makes `int()` fail; it is not white space to `int()` |
| Text.ParseIntStripsTab | scripts/gitproxy/gitproxy.py:87 | A tab before at most 4300 well-formed digits is stripped and the digits read as their value |
| Text.ParseIntRefusesManyZeros | scripts/gitproxy/gitproxy.py:87 | More than 4300 zeros denote 0 but `int()` refuses them: leading zeros count towards the digit limit |
| Text.NatToStringReadsBack | scripts/gitproxy/gitproxy.py:121 | `str(n)` is a decimal numeral denoting `n`, and `int()` reads it back as `n` whenever it has at most 4300 digits |
| Http.HeaderLookup | scripts/gitproxy/gitproxy.py:113 | `headers.get(name)` is absent exactly when no header matches the name ignoring case; otherwise it is the value of the first match |
| LambdaProxy.IsLambdaUrl | scripts/gitproxy/lambda_function.py:40 | An event is from a Function URL exactly when it has `requestContext` and that has an `http` member, a null `http` included |
| LambdaProxy.RequestMethod | scripts/gitproxy/lambda_function.py:40-44 | The method is always upper-case. A non-empty `httpMethod` is used. Otherwise, without `requestContext.http`, it is `GET`. With `http` a dictionary, it is its `method`, or `GET` when that is missing. A null `http` or a null `method` fails with the AttributeError of the `get` or `upper` call |
| LambdaProxy.SourcePath | scripts/gitproxy/lambda_function.py:47-50 | The path is a non-empty `path`, else `rawPath`, else empty. It fails, with the AttributeError of `startswith`, exactly when `path` is missing or empty and `rawPath` is null |
| LambdaProxy.TargetPath | scripts/gitproxy/lambda_function.py:48-56 | With the prefix, the remainder after its 14 characters, need no slash, is used; otherwise the whole path. Either way all leading slashes are removed and the result never begins with `/` |
| LambdaProxy.TargetPathAfterPrefix | scripts/gitproxy/lambda_function.py:48-56 | `TargetPath("/api/git-proxy" + rest)` is `rest` with its leading slashes removed |
| LambdaProxy.TargetUrl | scripts/gitproxy/lambda_function.py:59-64 | Split at its first `?`, the URL gives back `https://` and the target path, and the encoded parameters, which are there exactly when the parameters are present and not empty (for a target path without `?`) |
| LambdaProxy.HeadersOf | scripts/gitproxy/lambda_function.py:67-71 | Missing headers read as empty and present ones as given. Reading fails, with the AttributeError of `items`, exactly when `headers` is null |
| LambdaProxy.ProxiedHeaders | scripts/gitproxy/lambda_function.py:70-72 | The proxied headers are exactly the input headers whose lower-cased name is not `host`, `connection` or `content-length`, with name and value kept |
| LambdaProxy.RequestBody | scripts/gitproxy/lambda_function.py:84-93 | There is a body only for POST, PUT and PATCH with a non-empty `body`. With `isBase64Encoded` true, reading succeeds exactly when the base64 decodes, and then gives the decoded bytes. Otherwise it gives the UTF-8 encoding. The only failure is a body that does not decode |
| LambdaProxy.Dispatch | scripts/gitproxy/lambda_function.py:95-120 | GET, POST, PUT and DELETE go upstream with the URL and headers. The body is sent only with POST and PUT. OPTIONS is the preflight; every other method is refused |
| LambdaProxy.WithCors | scripts/gitproxy/lambda_function.py:135-143 | On a Function URL the headers are left as they are. Otherwise exactly the three CORS headers are added, with their values, and every other header is kept |
| LambdaProxy.Rewrite | scripts/gitproxy/lambda_function.py:40-120 | Rewriting fails exactly when reading the method, the path or the headers, or decoding the body, fails. Every such failure is a null-member AttributeError or the base64 error of the body |
| LambdaProxy.RewriteOf | scripts/gitproxy/lambda_function.py:40-120 | A rewrite that succeeds read every member successfully and dispatches on the method, the target URL, the proxied headers and the body those members read as |
| LambdaProxy.ForwardedRequestShape | scripts/gitproxy/lambda_function.py:59-103 | A forwarded request has the event's method and targets `https://`. Its URL is built from the event's path and query parameters. Its headers are the event's headers less the hop-by-hop ones. For POST and PUT its body is the event's body as read, and otherwise it has none |
| LambdaProxy.OptionsPreflight | scripts/gitproxy/lambda_function.py:104-114 | OPTIONS gives 200 with an empty body. It has the preflight headers exactly when not on a Function URL, and the same reply whatever the upstream would do |
| LambdaProxy.PreflightReply | scripts/gitproxy/lambda_function.py:106-113 | The OPTIONS reply is 200 with an empty body. It has headers exactly when not on a Function URL, and they are then the four preflight headers |
| LambdaProxy.NotAllowedReply | scripts/gitproxy/lambda_function.py:116-120 | The refusal is 405 with only a JSON Content-Type, no CORS origin header, and the JSON error naming the method |
| LambdaProxy.MethodNotAllowed | scripts/gitproxy/lambda_function.py:115-120 | Any other method, PATCH included, gives 405 with a JSON content type and an error naming the method |
| LambdaProxy.PatchWithUndecodableBody | scripts/gitproxy/lambda_function.py:84-120 | The body is decoded before dispatch: a PATCH whose base64 body does not decode gets the 500 reply, not 405 |
| LambdaProxy.IsBinaryMeaning | scripts/gitproxy/lambda_function.py:132 | A content type is binary exactly when `application/octet-stream` or `application/x-git` occurs in it |
| LambdaProxy.ResponseEncoding | scripts/gitproxy/lambda_function.py:130-158 | `isBase64Encoded` is set exactly when the content type contains either binary type or does not start with `text`, and the body then matches that choice |
| LambdaProxy.ResponseReply | scripts/gitproxy/lambda_function.py:130-158 | The reply keeps the upstream status and labels the upstream content type (or `application/octet-stream`) as Content-Type. It is base64 exactly as `EncodesAsBase64` decides. Its headers are exactly Content-Type plus, when not on a Function URL, the three CORS headers with their values (`*`, `GET, POST, PUT, DELETE, OPTIONS`, `*`) |
| LambdaProxy.MissingContentTypeIsBinary | scripts/gitproxy/lambda_function.py:131-151 | Without an upstream Content-Type, the reply is labelled `application/octet-stream` and sent as base64 |
| LambdaProxy.Base64ReplyRecoversContent | scripts/gitproxy/lambda_function.py:145-148 | A base64 reply decodes to exactly the upstream content |
| LambdaProxy.FailureReply | scripts/gitproxy/lambda_function.py:160-203 | A timeout gives 504 with the JSON error `Gateway timeout`; another request error 502 with `Failed to proxy request` and the details; anything else 500 with `Internal server error` and the details. The headers are exactly the JSON Content-Type plus, when not on a Function URL, the three CORS headers with their values |
| LambdaProxy.BuildReply | scripts/gitproxy/lambda_function.py:122-203 | An upstream response gets the response reply built from its status, headers and content; an exception gets the failure reply of its kind and text, with status 500, 502 or 504. Either has the CORS origin header exactly when not on a Function URL |
| LambdaProxy.Handle | scripts/gitproxy/lambda_function.py:25-203 | The reply has CORS headers exactly when the event is not from a Function URL and the method was not refused. A forwarded request gets the reply built from the upstream's answer to exactly the rewritten request. A refusal gets the 405 reply naming the method, with only a JSON Content-Type; a failed rewrite the 500 reply carrying its error; the preflight the 200 preflight reply |
| GitProxy.TargetPath | scripts/gitproxy/gitproxy.py:55-61 | With `/api/git-proxy/`, exactly that prefix is removed. Otherwise all leading slashes are removed and the result does not begin with `/` |
| GitProxy.TargetPathOfPrefixed | scripts/gitproxy/gitproxy.py:57-58 | `TargetPath("/api/git-proxy/" + rest) == rest`: further slashes are kept |
| GitProxy.TargetUrl | scripts/gitproxy/gitproxy.py:51-68 | Split at its first `?`, the URL gives back `https://` and the target path of the part before the request's first `?`, and the request's query verbatim exactly when it is not empty |
| GitProxy.TargetUrlOf | scripts/gitproxy/gitproxy.py:51-68 | For a path part without `?`, the query after the first `?`, `?`s included, is appended verbatim only when non-empty. A bare trailing `?` adds nothing; no `?` means no query |
| GitProxy.PrefixedRequestUrl | scripts/gitproxy/gitproxy.py:6-8 | `/api/git-proxy/` + host path + `?` + query is sent to `https://` + host path + `?` + query |
| GitProxy.Forwarded | scripts/gitproxy/gitproxy.py:71-75 | Every key of the forwarded dictionary is a name other than `host` and `connection` in any letter case |
| GitProxy.ForwardedMeaning | scripts/gitproxy/gitproxy.py:71-75 | A name is forwarded exactly when some header has it and it is not `host` or `connection` in any case; its value is that of its last occurrence |
| GitProxy.ForwardedKeys | scripts/gitproxy/gitproxy.py:71-75 | A name is a key of the forwarded dictionary exactly when some header has it and it is not `host` or `connection` in any case |
| GitProxy.ForwardedLast | scripts/gitproxy/gitproxy.py:71-75 | Each forwarded key holds the value of the last header with that name |
| GitProxy.ForwardedValue | scripts/gitproxy/gitproxy.py:71-75 | A forwarded name, `Content-Length` included, carries the value of its last occurrence |
| GitProxy.DeclaredLength | scripts/gitproxy/gitproxy.py:87 | With no Content-Length the length is 0. With one, it is the value `int()` reads from it, or the `ValueError` text when `int()` rejects it |
| GitProxy.ReadFrom | scripts/gitproxy/gitproxy.py:88 | `rfile.read(n)` for `n > 0` raises the `OverflowError` exactly when `n` exceeds `sys.maxsize`. Otherwise it gives a prefix of the stream of `n` bytes, fewer only when the stream ends first |
| GitProxy.BodyRead | scripts/gitproxy/gitproxy.py:87-88 | No body unless the length is positive. Above `sys.maxsize` the read raises. Otherwise the body is a prefix of the stream of that length, or shorter only when the stream ends first |
| GitProxy.BodyReadOf | scripts/gitproxy/gitproxy.py:87-88 | For a length the read accepts: nothing when it is not positive, the first `n` bytes when the stream has them, otherwise the whole stream |
| GitProxy.UpstreamRequestFor | scripts/gitproxy/gitproxy.py:91-94 | GET and POST go to the `https://` target URL of the request path with the forwarded headers, none of them `host` or `connection`. GET sends no body, POST the body read |
| GitProxy.BadContentLength | scripts/gitproxy/gitproxy.py:87-133 | A Content-Length that `int()` rejects gets the error reply: 500, JSON type, CORS headers, and a body carrying the `ValueError` text whose length Content-Length states. No body is read and the upstream is not consulted |
| GitProxy.ManyZerosContentLength | scripts/gitproxy/gitproxy.py:87-133 | A Content-Length of more than 4300 zeros is refused by `int()`: the 500 error reply carrying the `ValueError` text, no body read, the upstream not consulted |
| GitProxy.HugeContentLength | scripts/gitproxy/gitproxy.py:87-133 | A Content-Length above `sys.maxsize` gets the 500 error reply carrying the `OverflowError` text. No body is read and the upstream is not consulted |
| GitProxy.RequestSent | scripts/gitproxy/gitproxy.py:87-94 | For a length up to `sys.maxsize`, upstream gets the rewritten URL and the forwarded headers. POST also gets the body read: nothing for a length that is not positive, `n` bytes unless the stream ends first. GET reads that body but does not send it. The reply depends on the upstream only through its answer |
| GitProxy.UpstreamFailure | scripts/gitproxy/gitproxy.py:128-133 | Every kind of upstream failure gets the 500 error reply: JSON type, CORS headers, Content-Length of the body, and the JSON error body carrying the exception text |
| GitProxy.UpstreamAnswer | scripts/gitproxy/gitproxy.py:107-126 | Status and content are relayed; Content-Type is the upstream one or `application/octet-stream`. Content-Length is the upstream one if present and non-empty, otherwise the decimal numeral of the body's length |
| GitProxy.ErrorReply | scripts/gitproxy/gitproxy.py:141-155 | An error reply has the code, the three CORS headers, a JSON Content-Type, and a Content-Length that is the decimal numeral of the byte length of its JSON body, which it carries. `int()` reads that numeral back whenever it has at most 4300 digits |
| GitProxy.RelayReply | scripts/gitproxy/gitproxy.py:107-126 | A relayed reply has the upstream status, the content as body, the CORS headers, and the upstream Content-Type or `application/octet-stream`. Its Content-Length is the upstream one if present and non-empty. Otherwise it is the decimal numeral of the content's length, which `int()` reads back when it has at most 4300 digits |
| GitProxy.CorsOnEveryReply | scripts/gitproxy/gitproxy.py:41-155 | Every relayed and error reply sends the three CORS headers, then Content-Type, Content-Length and a body. The preflight is 204: the CORS headers and no body |
| GitProxy.Answer | scripts/gitproxy/gitproxy.py:107-133 | An exception gets the 500 error reply carrying its text (JSON type, Content-Length of the body); a response gets the relayed reply of its status, headers and content (upstream or default Content-Type, the Content-Length rule). Both have the CORS headers, Content-Type, Content-Length and a body |
| GitProxy.EmissionShape | scripts/gitproxy/gitproxy.py:107-126 | The output is one status line, the header lines in order, exactly one end of headers after them, then the body if there is one |
| GitProxy.Serve | scripts/gitproxy/gitproxy.py:47-133 | Handling a request never reads more body bytes than the stream holds |
| GitProxy.Handler.SendResponse | scripts/gitproxy/gitproxy.py:107 | `send_response` writes the status line and the library's `Server` and `Date` headers, and reads nothing |
| GitProxy.Handler.SendHeader | scripts/gitproxy/gitproxy.py:114 | `send_header` appends one header line |
| GitProxy.Handler.EndHeaders | scripts/gitproxy/gitproxy.py:123 | `end_headers` appends the end of the headers |
| GitProxy.Handler.Write | scripts/gitproxy/gitproxy.py:126 | `wfile.write` appends the body bytes |
| GitProxy.Handler.Read | scripts/gitproxy/gitproxy.py:88 | `rfile.read(n)` returns exactly what `ReadFrom` says and consumes the bytes it returns. The `OverflowError` consumes nothing |
| GitProxy.Handler.SetCorsHeaders | scripts/gitproxy/gitproxy.py:135-139 | Appends the three CORS header lines: Origin `*`, Methods `GET, POST, OPTIONS`, Headers `*` |
| GitProxy.Handler.DoOptions | scripts/gitproxy/gitproxy.py:41-45 | Writes exactly the 204 preflight reply |
| GitProxy.Handler.SendErrorResponse | scripts/gitproxy/gitproxy.py:141-155 | Writes exactly the error reply: status, CORS headers, JSON Content-Type, the body's length, the body |
| GitProxy.Handler.CopyHeaders | scripts/gitproxy/gitproxy.py:71-75 | The loop builds exactly the forwarded dictionary: every header except `host` and `connection`, the last occurrence winning |
| GitProxy.Handler.ReadBody | scripts/gitproxy/gitproxy.py:87-88 | The body read is exactly `BodyRead` of the stream, read only when the declared length is positive, and only its bytes are consumed |
| GitProxy.Handler.Relay | scripts/gitproxy/gitproxy.py:107-126 | Writes exactly the relayed reply: status, CORS headers, Content-Type, Content-Length, end of headers, content |
| GitProxy.Handler.BuildTargetUrl | scripts/gitproxy/gitproxy.py:51-68 | The URL built step by step is the target URL of the request path |
| GitProxy.Handler.SendAnswer | scripts/gitproxy/gitproxy.py:107-133 | Writes exactly the relayed reply for a response, and the 500 error reply for either kind of exception |
| GitProxy.Handler.HandleRequest | scripts/gitproxy/gitproxy.py:47-133 | Writes exactly the reply `Serve` describes and leaves unread exactly the bytes it did not consume |
| GitProxy.Handler.DoGet | scripts/gitproxy/gitproxy.py:33-35 | `do_GET` handles the request as GET |
| GitProxy.Handler.DoPost | scripts/gitproxy/gitproxy.py:37-39 | `do_POST` handles the request as POST |
| ProxyVariants.Prefixes | scripts/gitproxy/gitproxy.py:55 | The stand-alone prefix is the Lambda prefix plus a slash |
| ProxyVariants.PrefixWithoutBoundary | scripts/gitproxy/lambda_function.py:48-56 | For `/api/git-proxy` + rest, where rest does not begin with `/`: the Lambda targets `rest`, the stand-alone proxy falls back and targets `api/git-proxy` + rest |
| ProxyVariants.LambdaAfterFullPrefix | scripts/gitproxy/lambda_function.py:48-56 | After `/api/git-proxy/`, the Lambda removes the slash ending the prefix and every further leading slash |
| ProxyVariants.SlashesAfterPrefix | scripts/gitproxy/gitproxy.py:55-61 | After `/api/git-proxy/`, the Lambda strips further slashes and the stand-alone proxy keeps them. They agree exactly when the rest does not begin with `/` |
| ProxyVariants.ForwardedIsFilteredMap | scripts/gitproxy/gitproxy.py:71-75 | The forwarded dictionary is the header list's dictionary less `host` and `connection` |
| ProxyVariants.ContentLengthOnlyFilteredByLambda | scripts/gitproxy/lambda_function.py:70-72 | Given the same headers, the Lambda passes on what the stand-alone proxy forwards minus `Content-Length` in any case, with the same values |
| ProxyVariants.PreflightStatus | scripts/gitproxy/lambda_function.py:104-114 | Preflight: Lambda 200 with empty body and preflight headers (none on a Function URL); stand-alone 204, no body, the three CORS headers |
| ProxyVariants.AdvertisedMethods | scripts/gitproxy/lambda_function.py:139-143 | The Lambda advertises `GET, POST, PUT, DELETE, OPTIONS`, the stand-alone proxy `GET, POST, OPTIONS` |
| ProxyVariants.TimeoutStatus | scripts/gitproxy/lambda_function.py:160-188 | A failed upstream call is 504 (timeout) or 502 from the Lambda, and always 500 from the stand-alone proxy |

## Left out

- The network: the `requests` calls, their 30-second timeout and the resulting exceptions are the `network` parameter. Its answer is given, not computed.
- `run_server`, `HTTPServer` and the serving loop are not modelled: they are sockets and process control.
- All logging is left out: the event dump, the Authorization check, body and hex previews. None of it changes the reply.
- The library functions are uninterpreted fields of `Codec`; their output is not modelled. These are `urlencode`, `base64.b64encode`/`b64decode`, `json.dumps`, UTF-8 encoding, `decode('utf-8', errors='replace')` and the text of `int()`'s `ValueError`.
- LambdaProxy.Base64ReplyRecoversContent: holds only for a codec whose base64 decoder inverts its encoder. It takes that as a precondition because the library is not modelled.
- Text.ToUpper: maps ASCII letters only. Python's `upper()` also maps other letters, some onto ASCII (`'ſ'` to `S`, `'ß'` to `SS`, which also changes the length). So a method such as `poſt`, which the Lambda forwards as POST, is refused with 405 by the model.
- Text.ToLower: maps ASCII letters only. Of the non-ASCII characters only the Kelvin sign lowers to a plain ASCII letter (`k`). None of `host`, `connection` and `content-length` contains a `k`, so the header filters decide as Python does.
- GitProxy.ReadFrom: `sys.maxsize` is taken from a 64-bit build. A count within it that is too large to allocate makes the library raise `MemoryError`; the model reads what the stream holds instead. A socket read blocks until `n` bytes arrive or the client closes; the stream is what the client sends before closing.
- GitProxy.Handler.Read: has the same limits as `GitProxy.ReadFrom`, which specifies it.
- Text.ParseInt: accepts only ASCII digits, whereas Python's `int()` also accepts other Unicode decimal digits. Its contract says only that blank text and text of more than 4300 digits fail; the values it reads are stated by `Text.ParseIntOfDigits`, `Text.ParseIntOfNatToString` and `Text.ParseIntOfNegative`. The 4300-digit limit is the default of `sys.get_int_max_str_digits()`. The model does not follow a limit changed by `PYTHONINTMAXSTRDIGITS` or `sys.set_int_max_str_digits`. Nor does it follow a Python without the limit, that is one older than 3.11 without the 2022 security releases.
- The `NameError` raised when `requestContext` is null (before `is_lambda_url` is bound) is left out. The model's `requestContext` is either missing or a dictionary.
- Event members of the wrong JSON type are left out (a number as `path`, bytes as `body`, a non-dictionary `requestContext`).
- The library's own 501 reply for verbs without a `do_` method (PUT, DELETE on the stand-alone proxy) is not modelled. Neither is HTTP/0.9, nor how `send_response` formats the status line.
- How `requests` merges repeated upstream headers and decompresses `response.content` is inside the `network` value. So the model does not relate an upstream Content-Length to the decoded content.
- A write that fails half-way through a reply is not modelled; writes are taken to succeed.
- The repository's front end and Git orchestration are not part of this model.
