/**
 * The projections of `WebSearchApiResponse` over its web results: the URLs,
 * the review URLs, the descriptions, the first product cluster, and the news
 * and video result lists.
 */
module WebSearchResponse {
  import opened Wrappers
  import opened PyValues
  import opened Sequences

  /** A review attached to a result; as a pydantic model it is always truthy. */
  datatype Review = Review(fields: map<string, Value>)

  /**
   * The fields of a web `SearchResult` the projections read. `url` is the
   * text of the result's URL; `productCluster` holds the dumped products
   * and reviews of a product cluster.
   */
  datatype SearchResult = SearchResult(
    url: string,
    description: string,
    subtype: string,
    review: Option<Review>,
    productCluster: Option<seq<Value>>)

  /** `Search`: the web results. */
  datatype Search = Search(results: seq<SearchResult>)

  /** `News` and `Videos`, with their results as dumped by `model_dump`. */
  datatype News = News(results: seq<Value>)
  datatype Videos = Videos(results: seq<Value>)

  /** The parts of `WebSearchApiResponse` the projections read. */
  datatype WebSearchApiResponse = WebSearchApiResponse(
    web: Option<Search>,
    news: Option<News>,
    videos: Option<Videos>)

  /** `product_cluster` indexes an empty list when no result is a product cluster. */
  datatype ResponseError = IndexError

  /** `_web_results`: the web results, or none when there is no web section or it is empty. */
  function WebResults(resp: WebSearchApiResponse): (results: seq<SearchResult>)
    ensures resp.web.None? ==> results == []
    ensures resp.web.Some? ==> results == resp.web.value.results
  {
    if resp.web.Some? && resp.web.value.results != [] then resp.web.value.results else []
  }

  function SelectUrl(r: SearchResult): Option<string>
  {
    if r.url != "" then Some(r.url) else None
  }

  function SelectReviewUrl(r: SearchResult): Option<string>
  {
    if r.subtype == "product" && r.review.Some? then Some(r.url) else None
  }

  function SelectDescription(r: SearchResult): Option<string>
  {
    if r.description != "" then Some(r.description) else None
  }

  function SelectCluster(r: SearchResult): Option<Option<seq<Value>>>
  {
    if r.subtype == "product_cluster" then Some(r.productCluster) else None
  }

  /** `urls`: the URLs of the web results that are truthy, in order. */
  function Urls(resp: WebSearchApiResponse): (urls: seq<string>)
    ensures |urls| <= |WebResults(resp)|
  {
    Collect(WebResults(resp), SelectUrl)
  }

  /** `review_urls`: the URLs of the product results that carry a review, in order. */
  function ReviewUrls(resp: WebSearchApiResponse): (urls: seq<string>)
    ensures |urls| <= |WebResults(resp)|
  {
    Collect(WebResults(resp), SelectReviewUrl)
  }

  /** `descriptions`: the non-empty descriptions of the web results, in order. */
  function Descriptions(resp: WebSearchApiResponse): (descriptions: seq<string>)
    ensures |descriptions| <= |WebResults(resp)|
  {
    Collect(WebResults(resp), SelectDescription)
  }

  /** `news_results`: the news results, or none when there is no news section. */
  function NewsResults(resp: WebSearchApiResponse): (results: seq<Value>)
    ensures resp.news.None? ==> results == []
    ensures resp.news.Some? ==> results == resp.news.value.results
  {
    if resp.news.Some? then resp.news.value.results else []
  }

  /** `video_results`: the video results, or none when there is no videos section. */
  function VideoResults(resp: WebSearchApiResponse): (results: seq<Value>)
    ensures resp.videos.None? ==> results == []
    ensures resp.videos.Some? ==> results == resp.videos.value.results
  {
    if resp.videos.Some? then resp.videos.value.results else []
  }

  /**
   * `product_cluster`: the `product_cluster` field of the first result whose
   * subtype is "product_cluster" (itself possibly `None`).
   */
  function ProductCluster(resp: WebSearchApiResponse): (r: Result<Option<seq<Value>>, ResponseError>)
    ensures r.Failure? ==> r.error == IndexError
    ensures WebResults(resp) == [] ==> r == Failure(IndexError)
  {
    var clusters := Collect(WebResults(resp), SelectCluster);
    if clusters == [] then Failure(IndexError) else Success(clusters[0])
  }

  /**
   * `urls` is the in-order subsequence of the results' truthy URLs: `idx`
   * lists the positions it took them from, and no truthy URL is skipped.
   */
  lemma UrlsAreTruthyUrls(resp: WebSearchApiResponse) returns (idx: seq<nat>)
    ensures |idx| == |Urls(resp)|
    ensures StrictlyIncreasing(idx, |WebResults(resp)|)
    ensures forall j :: 0 <= j < |idx| ==>
      WebResults(resp)[idx[j]].url == Urls(resp)[j] && Urls(resp)[j] != ""
    ensures forall i :: 0 <= i < |WebResults(resp)| && WebResults(resp)[i].url != "" ==> i in idx
  {
    idx := CollectIsSubsequence(WebResults(resp), SelectUrl);
  }

  /** A validated URL is never empty, so then `urls` lists every result's URL. */
  lemma UrlsOfValidatedResults(resp: WebSearchApiResponse)
    requires forall i :: 0 <= i < |WebResults(resp)| ==> WebResults(resp)[i].url != ""
    ensures |Urls(resp)| == |WebResults(resp)|
    ensures forall i :: 0 <= i < |Urls(resp)| ==> Urls(resp)[i] == WebResults(resp)[i].url
  {
    CollectAll(WebResults(resp), SelectUrl);
  }

  /**
   * `review_urls` is the in-order subsequence of the URLs of exactly those
   * results whose subtype is "product" and that carry a review.
   */
  lemma ReviewUrlsAreReviewedProducts(resp: WebSearchApiResponse) returns (idx: seq<nat>)
    ensures |idx| == |ReviewUrls(resp)|
    ensures StrictlyIncreasing(idx, |WebResults(resp)|)
    ensures forall j :: 0 <= j < |idx| ==>
      WebResults(resp)[idx[j]].url == ReviewUrls(resp)[j] &&
      WebResults(resp)[idx[j]].subtype == "product" && WebResults(resp)[idx[j]].review.Some?
    ensures forall i :: (0 <= i < |WebResults(resp)| &&
      WebResults(resp)[i].subtype == "product" && WebResults(resp)[i].review.Some?) ==> i in idx
  {
    idx := CollectIsSubsequence(WebResults(resp), SelectReviewUrl);
  }

  /** `descriptions` is the in-order subsequence of the non-empty descriptions. */
  lemma DescriptionsAreNonEmpty(resp: WebSearchApiResponse) returns (idx: seq<nat>)
    ensures |idx| == |Descriptions(resp)|
    ensures StrictlyIncreasing(idx, |WebResults(resp)|)
    ensures forall j :: 0 <= j < |idx| ==>
      WebResults(resp)[idx[j]].description == Descriptions(resp)[j] && Descriptions(resp)[j] != ""
    ensures forall i :: 0 <= i < |WebResults(resp)| && WebResults(resp)[i].description != "" ==> i in idx
  {
    idx := CollectIsSubsequence(WebResults(resp), SelectDescription);
  }

  /**
   * `product_cluster` fails exactly when no result has subtype
   * "product_cluster", and otherwise returns the cluster of the first one.
   */
  lemma ProductClusterIsFirst(resp: WebSearchApiResponse)
    ensures ProductCluster(resp).Failure? <==>
      forall i :: 0 <= i < |WebResults(resp)| ==> WebResults(resp)[i].subtype != "product_cluster"
    ensures ProductCluster(resp).Success? ==>
      exists i :: 0 <= i < |WebResults(resp)| &&
        WebResults(resp)[i].subtype == "product_cluster" &&
        ProductCluster(resp).value == WebResults(resp)[i].productCluster &&
        forall h :: 0 <= h < i ==> WebResults(resp)[h].subtype != "product_cluster"
  {
    var results := WebResults(resp);
    var idx := CollectIsSubsequence(results, SelectCluster);
    assert forall h :: 0 <= h < |results| ==>
      (SelectCluster(results[h]).Some? <==> results[h].subtype == "product_cluster");
    if ProductCluster(resp).Success? {
      assert forall j :: 0 <= j < |idx| ==> idx[0] <= idx[j];
      assert results[idx[0]].subtype == "product_cluster";
    }
  }
}
