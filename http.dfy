/** The vocabulary both proxies share: bytes, header lists with the
    case-insensitive lookup the HTTP libraries provide, the forwarded request,
    the upstream outcome, and the library codecs the proxies call but do not
    define. */
module Http {
  import opened Results
  import opened Text

  newtype byte = b: int | 0 <= b < 0x100

  datatype Header = Header(name: string, value: string)

  /** HTTP field names compare case-insensitively. */
  predicate NameIs(h: Header, name: string) {
    ToLower(h.name) == ToLower(name)
  }

  /** The index of the first header called `name`, or `|hs|` when there is none. */
  function FirstIndex(hs: seq<Header>, name: string): (i: nat)
    ensures i <= |hs|
    ensures forall j :: 0 <= j < i ==> !NameIs(hs[j], name)
    ensures i < |hs| ==> NameIs(hs[i], name)
  {
    if hs == [] then 0
    else if NameIs(hs[0], name) then 0
    else 1 + FirstIndex(hs[1..], name)
  }

  /** `headers.get(name)` on a received header block (`email.message.Message`)
      or on an upstream reply (`requests`' case-insensitive dictionary): the
      value of the first header whose name matches, ignoring case. */
  function HeaderLookup(hs: seq<Header>, name: string): (r: Option<string>)
    ensures r.None? <==> forall i :: 0 <= i < |hs| ==> !NameIs(hs[i], name)
    ensures r.Some? ==> exists i :: && 0 <= i < |hs| && NameIs(hs[i], name) && r.value == hs[i].value
                                    && forall j :: 0 <= j < i ==> !NameIs(hs[j], name)
  {
    var i := FirstIndex(hs, name);
    if i < |hs| then Some(hs[i].value) else None
  }

  /** The dictionary a header list makes when its entries are assigned in
      turn: a later entry with the same name replaces the earlier value. */
  function HeaderMap(hs: seq<Header>): map<string, string> {
    if hs == [] then map[]
    else HeaderMap(hs[..|hs| - 1])[hs[|hs| - 1].name := hs[|hs| - 1].value]
  }

  /** The library functions the proxies call, as uninterpreted values:
      `urlencode`, `base64.b64encode(..).decode('utf-8')`, `base64.b64decode`
      (which may raise), `str.encode('utf-8')`, `bytes.decode('utf-8',
      errors='replace')`, `json.dumps` of a dictionary of strings given in
      insertion order, and the text of the `ValueError` raised by `int(s)`. */
  datatype Codec = Codec(
    urlencode: seq<(string, string)> -> string,
    b64encode: seq<byte> -> string,
    b64decode: string -> Result<seq<byte>>,
    utf8Encode: string -> seq<byte>,
    utf8DecodeReplace: seq<byte> -> string,
    jsonDumps: seq<(string, string)> -> string,
    intErrorText: string -> string)

  /** The request handed to `requests.get/post/put/delete`; `verb` is the HTTP method, `body` the
      `data=` argument (`None` when there is none). */
  datatype UpstreamRequest = UpstreamRequest(
    verb: string, url: string, headers: map<string, string>, body: Option<seq<byte>>)

  /** What the `requests` call raised: `requests.exceptions.Timeout`, another
      `requests.exceptions.RequestException`, or any other exception. */
  datatype FailureKind = Timeout | RequestError | OtherError

  /** The outcome of the upstream call: a reply (status code, header list,
      `response.content`) or an exception with its text `str(error)`. */
  datatype Upstream =
    | Response(status: int, headers: seq<Header>, content: seq<byte>)
    | Raised(kind: FailureKind, message: string)

  /** A `?` that the target path does not contain is the first one of the
      `https://` URL, and what follows it is the query. */
  lemma HttpsQuerySplit(targetPath: string, tail: Option<string>)
    ensures '?' !in targetPath ==>
      SplitAtFirst("https://" + targetPath + (if tail.Some? then "?" + tail.value else ""), '?') == ("https://" + targetPath, tail)
  {
    var base := "https://" + targetPath;
    if '?' !in targetPath {
      assert forall i :: 0 <= i < |base| ==> base[i] == if i < 8 then "https://"[i] else targetPath[i - 8];
      if tail.Some? {
        assert base + ("?" + tail.value) == base + ['?'] + tail.value;
        SplitAtFirstOf(base, '?', tail.value);
      } else {
        assert base + "" == base;
      }
    }
  }
}
