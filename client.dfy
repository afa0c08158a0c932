/**
 * `BraveAPIClient`: resolving the API key, the request headers, and the
 * validation and query parameters of web and image searches. The HTTP
 * request itself is a parameter (`get`), standing for `_get`.
 */
module Client {
  import opened Wrappers
  import opened PyValues
  import opened PyStr
  import opened Sequences

  const BaseUrl: string := "https://api.search.brave.com/res/v1/"
  const ApiKeyVariable: string := "BRAVE_API_KEY"
  const DefaultEndpoint: string := "web"
  const MaxQueryLength: nat := 400
  const MaxQueryWords: nat := 50
  const MaxCount: int := 20
  const MaxOffset: int := 9

  /** The exceptions the client raises. */
  datatype ClientError =
    | MissingApiKey                        // `BraveError`: no key given and none in the environment
    | InvalidQuery                         // `ValueError`: the query `q` is refused
    | NotComparable(param: string)         // `TypeError`: `min(None, ...)` on `count` or `offset`
    | ApiStatus(status: int, text: string) // `BraveError`: the API answered with a status other than 200

  /** The API key `__init__` uses: the explicit one, else the environment's `BRAVE_API_KEY`. */
  function ResolveApiKey(apiKey: Option<string>, env: map<string, string>): (r: Option<string>)
    ensures apiKey.Some? ==> r == apiKey
    ensures apiKey.None? && ApiKeyVariable in env ==> r == Some(env[ApiKeyVariable])
    ensures r.None? <==> apiKey.None? && ApiKeyVariable !in env
  {
    if apiKey.Some? then apiKey
    else if ApiKeyVariable in env then Some(env[ApiKeyVariable])
    else None
  }

  class BraveApiClient {
    var apiKey: string
    var endpoint: string
    var baseUrl: string

    /** The field assignments of `__init__` once the key is known. */
    constructor (apiKey: string, endpoint: string)
      ensures this.apiKey == apiKey && this.endpoint == endpoint && baseUrl == BaseUrl
    {
      this.apiKey := apiKey;
      this.endpoint := endpoint;
      baseUrl := BaseUrl;
    }

    /**
     * `BraveAPIClient(api_key, endpoint)`, with the process environment passed
     * as `env`. An empty key is kept: only a missing one is refused.
     */
    static method New(apiKey: Option<string>, env: map<string, string>, endpoint: string := DefaultEndpoint)
      returns (r: Result<BraveApiClient, ClientError>)
      ensures r.Failure? <==> apiKey.None? && ApiKeyVariable !in env
      ensures r.Failure? ==> r.error == MissingApiKey
      ensures r.Success? ==>
        (fresh(r.value) && Some(r.value.apiKey) == ResolveApiKey(apiKey, env) &&
         r.value.endpoint == endpoint && r.value.baseUrl == BaseUrl)
    {
      var key := apiKey;
      if key.None? {
        key := if ApiKeyVariable in env then Some(env[ApiKeyVariable]) else None;
      }
      if key.None? {
        return Failure(MissingApiKey);
      }
      var c := new BraveApiClient(key.value, endpoint);
      return Success(c);
    }

    /** `_prepare_headers`: three headers, the token being the client's API key. */
    function PrepareHeaders(): (h: map<string, string>)
      reads this
      ensures |h| == 3
      ensures h.Keys == {"Accept", "Accept-Encoding", "X-Subscription-Token"}
      ensures h["X-Subscription-Token"] == apiKey
      ensures h["Accept"] == "application/json" && h["Accept-Encoding"] == "gzip"
    {
      var h := map["Accept" := "application/json", "Accept-Encoding" := "gzip",
                   "X-Subscription-Token" := apiKey];
      assert h.Keys == {"Accept", "Accept-Encoding", "X-Subscription-Token"};
      h
    }
  }

  /** The query check of `search` and `image`: non-empty, at most 400 characters, at most 50 words. */
  predicate ValidQuery(q: string)
  {
    q != [] && |q| <= MaxQueryLength && |Split(q)| <= MaxQueryWords
  }

  /** A non-empty query of at most 100 characters always passes: it cannot hold more than 50 words. */
  lemma ShortQueryValid(q: string)
    requires q != [] && |q| <= 2 * MaxQueryWords
    ensures ValidQuery(q)
  {
    SplitBound(q);
  }

  /** Python's `min(a, b)`: `a` unless `b` is smaller. */
  function Min(a: int, b: int): (m: int)
    ensures m <= a && m <= b
    ensures m == a || m == b
  {
    if b < a then b else a
  }

  /** A query parameter value after filtering: never `None`. */
  datatype Param = Text(s: string) | Number(n: int) | Flag(b: bool)

  /** The arguments of `search`; `None` is `Option.None`. */
  datatype SearchRequest = SearchRequest(
    q: string,
    country: Option<string>,
    searchLang: Option<string>,
    uiLang: Option<string>,
    count: Option<int>,
    offset: Option<int>,
    safesearch: Option<string>,
    freshness: Option<string>,
    textDecorations: Option<bool>,
    spellcheck: Option<bool>,
    resultFilter: Option<string>,
    gogglesId: Option<string>,
    units: Option<string>,
    extraSnippets: Option<bool>)

  /** `search(q)` with every other argument at its default. */
  function DefaultSearch(q: string): SearchRequest
  {
    SearchRequest(q, None, None, None, Some(20), Some(0), Some("moderate"), None,
                  Some(true), Some(true), None, None, None, Some(false))
  }

  /** The arguments of `image`. */
  datatype ImageRequest = ImageRequest(
    q: string,
    country: Option<string>,
    searchLang: Option<string>,
    count: Option<int>,
    safesearch: Option<string>,
    spellcheck: Option<bool>)

  function TextParam(v: Option<string>): Option<Param>
  {
    if v.Some? then Some(Text(v.value)) else None
  }

  function FlagParam(v: Option<bool>): Option<Param>
  {
    if v.Some? then Some(Flag(v.value)) else None
  }

  /** The `params` dict literal of `search`, in insertion order, before `None` values are dropped. */
  function SearchCandidates(req: SearchRequest, count: int, offset: int): seq<(string, Option<Param>)>
  {
    [("q", Some(Text(req.q))),
     ("country", TextParam(req.country)),
     ("search_lang", TextParam(req.searchLang)),
     ("ui_lang", TextParam(req.uiLang)),
     ("count", Some(Number(count))),
     ("offset", Some(Number(offset))),
     ("safesearch", TextParam(req.safesearch)),
     ("freshness", TextParam(req.freshness)),
     ("text_decorations", FlagParam(req.textDecorations)),
     ("spellcheck", FlagParam(req.spellcheck)),
     ("result_filter", TextParam(req.resultFilter)),
     ("goggles_id", TextParam(req.gogglesId)),
     ("units", TextParam(req.units)),
     ("extra_snippets", FlagParam(req.extraSnippets))]
  }

  /** The `params` dict literal of `image`, in insertion order. */
  function ImageCandidates(req: ImageRequest, count: int): seq<(string, Option<Param>)>
  {
    [("q", Some(Text(req.q))),
     ("country", TextParam(req.country)),
     ("search_lang", TextParam(req.searchLang)),
     ("count", Some(Number(count))),
     ("safesearch", TextParam(req.safesearch)),
     ("spellcheck", FlagParam(req.spellcheck))]
  }

  /** The filter of `{k: v for k, v in params.items() if v is not None}`. */
  function KeepPresent(p: (string, Option<Param>)): Option<(string, Param)>
  {
    if p.1.Some? then Some((p.0, p.1.value)) else None
  }

  /** The comprehension that drops the `None` values. */
  function DropNone(candidates: seq<(string, Option<Param>)>): seq<(string, Param)>
  {
    Collect(candidates, KeepPresent)
  }

  /**
   * Dropping `None` keeps, in their order, exactly the entries whose value is
   * present, each with its key and value unchanged.
   */
  lemma DropNoneKeepsPresent(candidates: seq<(string, Option<Param>)>) returns (idx: seq<nat>)
    ensures |idx| == |DropNone(candidates)|
    ensures StrictlyIncreasing(idx, |candidates|)
    ensures forall j :: 0 <= j < |idx| ==>
      candidates[idx[j]] == (DropNone(candidates)[j].0, Some(DropNone(candidates)[j].1))
    ensures forall i :: 0 <= i < |candidates| && candidates[i].1.Some? ==> i in idx
    ensures forall i :: i in idx ==> 0 <= i < |candidates| && candidates[i].1.Some?
  {
    idx := CollectIsSubsequence(candidates, KeepPresent);
  }

  /** The value under `key` in an ordered parameter list (the first entry with that key). */
  function Lookup(params: seq<(string, Param)>, key: string): (r: Option<Param>)
    ensures r.Some? ==> (key, r.value) in params
    ensures r.None? ==> forall i :: 0 <= i < |params| ==> params[i].0 != key
  {
    if params == [] then None
    else if params[0].0 == key then Some(params[0].1)
    else Lookup(params[1..], key)
  }

  /** A present entry whose key does not occur earlier is what the filtered list holds under that key. */
  lemma {:induction false} LookupPresent(candidates: seq<(string, Option<Param>)>, i: nat)
    requires i < |candidates| && candidates[i].1.Some?
    requires forall j :: 0 <= j < i ==> candidates[j].0 != candidates[i].0
    ensures Lookup(DropNone(candidates), candidates[i].0) == candidates[i].1
  {
    var rest := DropNone(candidates[1..]);
    if i == 0 {
      assert DropNone(candidates) == [(candidates[0].0, candidates[0].1.value)] + rest;
    } else {
      LookupPresent(candidates[1..], i - 1);
      if candidates[0].1.Some? {
        assert DropNone(candidates) == [(candidates[0].0, candidates[0].1.value)] + rest;
        assert DropNone(candidates)[1..] == rest;
      }
    }
  }

  /** A key whose every entry is `None` is missing from the filtered list. */
  lemma {:induction false} LookupAbsent(candidates: seq<(string, Option<Param>)>, key: string)
    requires forall i :: 0 <= i < |candidates| && candidates[i].0 == key ==> candidates[i].1.None?
    ensures Lookup(DropNone(candidates), key).None?
  {
    if candidates != [] {
      LookupAbsent(candidates[1..], key);
      var rest := DropNone(candidates[1..]);
      if candidates[0].1.Some? {
        assert DropNone(candidates) == [(candidates[0].0, candidates[0].1.value)] + rest;
        assert DropNone(candidates)[1..] == rest;
      }
    }
  }

  /**
   * The parameters `search` sends, or the exception it raises first: the query
   * check, then `min(count, 20)` and `min(offset, 9)`, which raise `TypeError`
   * on `None`.
   */
  function SearchParams(req: SearchRequest): (r: Result<seq<(string, Param)>, ClientError>)
    ensures r == Failure(InvalidQuery) <==> !ValidQuery(req.q)
    ensures r.Success? <==> ValidQuery(req.q) && req.count.Some? && req.offset.Some?
    ensures r.Success? ==> r.value != [] && r.value[0] == ("q", Text(req.q))
  {
    if !ValidQuery(req.q) then Failure(InvalidQuery)
    else if req.count.None? then Failure(NotComparable("count"))
    else if req.offset.None? then Failure(NotComparable("offset"))
    else Success(DropNone(SearchCandidates(req, Min(req.count.value, MaxCount), Min(req.offset.value, MaxOffset))))
  }

  /** The parameters `image` sends, or the exception it raises first. */
  function ImageParams(req: ImageRequest): (r: Result<seq<(string, Param)>, ClientError>)
    ensures r == Failure(InvalidQuery) <==> !ValidQuery(req.q)
    ensures r.Success? <==> ValidQuery(req.q) && req.count.Some?
    ensures r.Success? ==> r.value != [] && r.value[0] == ("q", Text(req.q))
  {
    if !ValidQuery(req.q) then Failure(InvalidQuery)
    else if req.count.None? then Failure(NotComparable("count"))
    else Success(DropNone(ImageCandidates(req, Min(req.count.value, MaxCount))))
  }

  /**
   * A search sends `q` unchanged, `count` clamped to at most 20 and `offset`
   * to at most 9, each kept as given when already within the bound.
   */
  lemma SearchClamps(req: SearchRequest)
    requires SearchParams(req).Success?
    ensures Lookup(SearchParams(req).value, "q") == Some(Text(req.q))
    ensures Lookup(SearchParams(req).value, "count") == Some(Number(Min(req.count.value, MaxCount)))
    ensures Lookup(SearchParams(req).value, "offset") == Some(Number(Min(req.offset.value, MaxOffset)))
    ensures Lookup(SearchParams(req).value, "count").value.n <= MaxCount
    ensures Lookup(SearchParams(req).value, "offset").value.n <= MaxOffset
    ensures req.count.value <= MaxCount ==> Lookup(SearchParams(req).value, "count") == Some(Number(req.count.value))
    ensures req.offset.value <= MaxOffset ==> Lookup(SearchParams(req).value, "offset") == Some(Number(req.offset.value))
  {
    var candidates := SearchCandidates(req, Min(req.count.value, MaxCount), Min(req.offset.value, MaxOffset));
    LookupPresent(candidates, 0);
    LookupPresent(candidates, 4);
    LookupPresent(candidates, 5);
  }

  /** An image search sends `q` unchanged and `count` clamped to at most 20. */
  lemma ImageClamps(req: ImageRequest)
    requires ImageParams(req).Success?
    ensures Lookup(ImageParams(req).value, "q") == Some(Text(req.q))
    ensures Lookup(ImageParams(req).value, "count") == Some(Number(Min(req.count.value, MaxCount)))
    ensures req.count.value <= MaxCount ==> Lookup(ImageParams(req).value, "count") == Some(Number(req.count.value))
  {
    var candidates := ImageCandidates(req, Min(req.count.value, MaxCount));
    LookupPresent(candidates, 0);
    LookupPresent(candidates, 3);
  }

  /**
   * The default search keeps `extra_snippets=False` (a falsy value that is not
   * `None`) and drops the arguments that default to `None`.
   */
  lemma DefaultSearchKeepsFalse(q: string)
    requires ValidQuery(q)
    ensures Lookup(SearchParams(DefaultSearch(q)).value, "extra_snippets") == Some(Flag(false))
    ensures Lookup(SearchParams(DefaultSearch(q)).value, "country").None?
  {
    var candidates := SearchCandidates(DefaultSearch(q), 20, 0);
    LookupPresent(candidates, 13);
    LookupAbsent(candidates, "country");
  }

  /** What `_get` returns: the status code, the body text and the decoded JSON. */
  datatype Response = Response(status: int, text: string, json: Value)

  /**
   * `search`: the decoded JSON of the answer to the request with the built
   * parameters, or the exception raised; a status other than 200 raises `BraveError`.
   */
  function Search(req: SearchRequest, get: seq<(string, Param)> -> Response): (r: Result<Value, ClientError>)
    ensures SearchParams(req).Failure? ==> r == Failure(SearchParams(req).error)
    ensures SearchParams(req).Success? ==>
      var response := get(SearchParams(req).value);
      (r.Failure? <==> response.status != 200) &&
      (r.Failure? ==> r.error == ApiStatus(response.status, response.text)) &&
      (r.Success? ==> r.value == response.json)
  {
    match SearchParams(req)
    case Failure(e) => Failure(e)
    case Success(params) =>
      var response := get(params);
      if response.status != 200 then Failure(ApiStatus(response.status, response.text))
      else Success(response.json)
  }

  /** `image`: like `search`, but the status code is never checked. */
  function Image(req: ImageRequest, get: seq<(string, Param)> -> Response): (r: Result<Value, ClientError>)
    ensures r.Failure? <==> ImageParams(req).Failure?
    ensures r.Failure? ==> r.error == ImageParams(req).error
    ensures ImageParams(req).Success? ==> r == Success(get(ImageParams(req).value).json)
  {
    match ImageParams(req)
    case Failure(e) => Failure(e)
    case Success(params) => Success(get(params).json)
  }
}
