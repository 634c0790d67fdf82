/** Where the two proxies, given the same request, behave differently:
    the prefix each one recognises, the slashes each one trims, the headers
    each one drops, and the status codes of the preflight and of a timeout. */
module ProxyVariants {
  import opened Results
  import opened Text
  import opened Http
  import LambdaProxy
  import GitProxy

  /** The stand-alone prefix is the Lambda prefix with a slash after it. */
  lemma Prefixes()
    ensures GitProxy.Prefix == LambdaProxy.Prefix + "/"
  {
  }

  /** A path where `/api/git-proxy` runs straight into the rest (no slash
      boundary) is cut by the Lambda variant; the stand-alone variant does not
      recognise it and only drops the leading slash. */
  lemma PrefixWithoutBoundary(rest: string)
    requires rest == [] || rest[0] != '/'
    ensures LambdaProxy.TargetPath(LambdaProxy.Prefix + rest) == rest
    ensures GitProxy.TargetPath(LambdaProxy.Prefix + rest) == LambdaProxy.Prefix[1..] + rest
    ensures LambdaProxy.Prefix[1..] == "api/git-proxy"
  {
    var path := LambdaProxy.Prefix + rest;
    LambdaProxy.TargetPathAfterPrefix(rest);
    Prefixes();
    if rest != [] {
      assert path[|LambdaProxy.Prefix|] == rest[0];
      assert GitProxy.Prefix[|LambdaProxy.Prefix|] == '/';
    }
    assert !StartsWith(path, GitProxy.Prefix);
    var tail := LambdaProxy.Prefix[1..] + rest;
    assert path[0] == '/' && path[1..] == tail;
    assert RunThen(path, '/', tail);
    RunThenUnique(path, '/', GitProxy.TargetPath(path), tail);
  }

  /** After the full `/api/git-proxy/` prefix the Lambda variant strips the
      slash that ends it and any further ones. */
  lemma LambdaAfterFullPrefix(rest: string)
    ensures LambdaProxy.TargetPath(GitProxy.Prefix + rest) == LStrip(rest, '/')
  {
    var slashed := "/" + rest;
    assert GitProxy.Prefix + rest == LambdaProxy.Prefix + slashed by {
      Prefixes();
    }
    assert LambdaProxy.TargetPath(LambdaProxy.Prefix + slashed) == LStrip(slashed, '/') by {
      LambdaProxy.TargetPathAfterPrefix(slashed);
    }
    assert LStrip(slashed, '/') == LStrip(rest, '/') by {
      assert slashed[0] == '/' && slashed[1..] == rest;
    }
  }

  /** After the full `/api/git-proxy/` prefix, the Lambda variant also strips
      any further slashes while the stand-alone variant keeps them: the two
      target paths agree exactly when the rest does not begin with `/`. */
  lemma SlashesAfterPrefix(rest: string)
    ensures LambdaProxy.TargetPath(GitProxy.Prefix + rest) == LStrip(rest, '/')
    ensures GitProxy.TargetPath(GitProxy.Prefix + rest) == rest
    ensures LambdaProxy.TargetPath(GitProxy.Prefix + rest) == GitProxy.TargetPath(GitProxy.Prefix + rest)
      <==> rest == [] || rest[0] != '/'
  {
    LambdaAfterFullPrefix(rest);
    GitProxy.TargetPathOfPrefixed(rest);
    var stripped := LStrip(rest, '/');
    if rest != [] && rest[0] == '/' {
      assert stripped == [] || stripped[0] != rest[0];
      assert stripped != rest;
    } else {
      assert stripped == rest;
    }
  }

  /** The stand-alone forwarded dictionary is the received header list's
      dictionary with `host` and `connection` removed. */
  lemma {:induction false} ForwardedIsFilteredMap(hs: seq<Header>)
    ensures GitProxy.Forwarded(hs)
      == map k | k in HeaderMap(hs) && GitProxy.IsForwarded(k) :: HeaderMap(hs)[k]
    decreases |hs|
  {
    if hs != [] {
      ForwardedIsFilteredMap(hs[..|hs| - 1]);
    }
  }

  /** Given the same headers, the Lambda variant passes on exactly what the
      stand-alone variant forwards, less `Content-Length` in any letter case. */
  lemma ContentLengthOnlyFilteredByLambda(hs: seq<Header>)
    ensures var lambda := LambdaProxy.ProxiedHeaders(HeaderMap(hs));
      var standalone := GitProxy.Forwarded(hs);
      && (forall k :: k in lambda <==> k in standalone && ToLower(k) != "content-length")
      && (forall k :: k in lambda ==> lambda[k] == standalone[k])
  {
    ForwardedIsFilteredMap(hs);
  }

  /** The preflight: 200 with an empty body and the preflight headers (none on
      a Function URL) from the Lambda variant, 204 with no body and the three
      CORS headers from the stand-alone one. */
  lemma PreflightStatus(lambdaUrl: bool)
    ensures LambdaProxy.PreflightReply(lambdaUrl).statusCode == 200
    ensures LambdaProxy.PreflightReply(lambdaUrl).body == ""
    ensures LambdaProxy.PreflightReply(lambdaUrl).headers == if lambdaUrl then None else Some(LambdaProxy.PreflightHeaders)
    ensures GitProxy.OptionsReply.status == 204 && GitProxy.OptionsReply.body.None?
    ensures GitProxy.OptionsReply.headers == GitProxy.CorsHeaders
  {
  }

  /** The allowed methods advertised: the Lambda variant lists PUT and DELETE
      as well. */
  lemma AdvertisedMethods()
    ensures LambdaProxy.CorsHeaders["Access-Control-Allow-Methods"] == "GET, POST, PUT, DELETE, OPTIONS"
    ensures GitProxy.CorsHeaders[1] == Header("Access-Control-Allow-Methods", "GET, POST, OPTIONS")
  {
  }

  /** A timed-out upstream call is 504 from the Lambda variant and 500 from
      the stand-alone one; so is (502 against 500) any other failure of the
      call. */
  lemma TimeoutStatus(lambdaUrl: bool, message: string, codec: Codec,
                      verb: GitProxy.Verb, path: string, hs: seq<Header>, input: seq<byte>,
                      network: UpstreamRequest -> Upstream, n: int, body: Option<seq<byte>>, kind: FailureKind)
    requires GitProxy.DeclaredLength(hs, codec) == Success(n) && GitProxy.BodyRead(n, input) == Success(body)
    requires network(GitProxy.UpstreamRequestFor(verb, path, hs, body)) == Raised(kind, message)
    ensures kind == Timeout ==> LambdaProxy.FailureReply(lambdaUrl, kind, message, codec).statusCode == 504
    ensures kind == RequestError ==> LambdaProxy.FailureReply(lambdaUrl, kind, message, codec).statusCode == 502
    ensures GitProxy.Serve(verb, path, hs, input, codec, network).reply.status == 500
  {
    GitProxy.UpstreamFailure(verb, path, hs, input, codec, network, n, body, kind, message);
  }
}
