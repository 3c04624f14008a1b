/**
 * The asset-library client: which request a (query, page) pair dispatches,
 * the exact request URL and header, the ok/not-ok decision on a response,
 * the download URL of a photo, and the untimed pairing of query emissions
 * with the latest page number that feeds the dispatch.
 */
module Bynder {
  import opened Wrappers
  import opened Text
  import opened Uri
  import opened Types

  const MediaPath := "api/v4/media"

  /** The ordering used when the query is empty. */
  const ListOrder := "dateCreated asc"

  /** An authenticated GET request: URL and headers. */
  datatype Request = Request(url: string, headers: map<string, string>)

  /** The bearer-token header both requests carry. */
  function AuthHeaders(config: BynderConfig): (h: map<string, string>)
    ensures h.Keys == {"Authorization"}
    ensures h["Authorization"] == "Bearer " + config.apiToken
  {
    map["Authorization" := "Bearer " + config.apiToken]
  }

  /** Two configurations send the same headers exactly when they hold the same token. */
  lemma AuthHeadersDetermineToken(c1: BynderConfig, c2: BynderConfig)
    ensures AuthHeaders(c1) == AuthHeaders(c2) <==> c1.apiToken == c2.apiToken
  {
    if AuthHeaders(c1) == AuthHeaders(c2) {
      var b1 := AuthHeaders(c1)["Authorization"];
      assert b1 == "Bearer " + c1.apiToken == "Bearer " + c2.apiToken;
      assert c1.apiToken == b1[7..] == c2.apiToken;
    }
  }

  /**
   * `fetchSearch`: a keyword search restricted to images. Its URL is the
   * endpoint followed by the search parameters joined with `&`.
   */
  function FetchSearch(config: BynderConfig, query: string, page: nat, perPage: nat): (r: Request)
    ensures r.url == Endpoint(config) + Join(SearchParameters(query, page, perPage), '&')
    ensures r.headers == AuthHeaders(config)
  {
    SearchUrlText(config.portalDomain, EncodeUriComponent(query), DecimalString(page), DecimalString(perPage));
    Request(
      config.portalDomain + "api/v4/media?keyword=" + EncodeUriComponent(query)
        + "&page=" + DecimalString(page) + "&limit=" + DecimalString(perPage) + "&type=image",
      AuthHeaders(config))
  }

  /**
   * `fetchList`: a listing in the given order; the order text is not encoded
   * and there is no type filter. Its URL is the endpoint followed by the
   * listing parameters joined with `&`.
   */
  function FetchList(config: BynderConfig, orderBy: string, page: nat, perPage: nat): (r: Request)
    ensures r.url == Endpoint(config) + Join(ListParameters(orderBy, page, perPage), '&')
    ensures r.headers == AuthHeaders(config)
  {
    ListUrlText(config.portalDomain, orderBy, DecimalString(page), DecimalString(perPage));
    Request(
      config.portalDomain + "api/v4/media?orderBy=" + orderBy
        + "&page=" + DecimalString(page) + "&limit=" + DecimalString(perPage),
      AuthHeaders(config))
  }

  /** The query parameters of a keyword search, in URL order. */
  function SearchParameters(query: string, page: nat, perPage: nat): seq<string> {
    ["keyword=" + EncodeUriComponent(query), "page=" + DecimalString(page), "limit=" + DecimalString(perPage), "type=image"]
  }

  /** The query parameters of a listing, in URL order. */
  function ListParameters(orderBy: string, page: nat, perPage: nat): seq<string> {
    ["orderBy=" + orderBy, "page=" + DecimalString(page), "limit=" + DecimalString(perPage)]
  }

  /** The URL of every request up to and including the `?`. */
  function Endpoint(config: BynderConfig): string {
    config.portalDomain + MediaPath + "?"
  }

  lemma NoAmpersandInDecimal(n: nat)
    ensures Lacks(DecimalString(n), '&')
  {
  }

  lemma JoinThree(pre: string, a: string, b: string, c: string)
    ensures pre + a + "&" + b + "&" + c == pre + Join([a, b, c], '&')
  {
    JoinCons(b, [c], '&');
    assert [b, c] == [b] + [c];
    JoinCons(a, [b, c], '&');
    assert [a, b, c] == [a] + [b, c];
  }

  lemma JoinFour(pre: string, a: string, b: string, c: string, d: string)
    ensures pre + a + "&" + b + "&" + c + "&" + d == pre + Join([a, b, c, d], '&')
  {
    JoinCons(c, [d], '&');
    assert [c, d] == [c] + [d];
    JoinCons(b, [c, d], '&');
    assert [b, c, d] == [b] + [c, d];
    JoinCons(a, [b, c, d], '&');
    assert [a, b, c, d] == [a] + [b, c, d];
  }

  /** `u + (x + y) + v`, regrouped: a literal split in two inside a concatenation. */
  lemma Regroup(u: string, x: string, y: string, v: string)
    ensures u + (x + y) + v == (u + x) + (y + v)
  {
  }

  /** The search URL text, read as the endpoint followed by `&`-joined parameters. */
  lemma SearchUrlText(domain: string, keyword: string, page: string, limit: string)
    ensures domain + "api/v4/media?keyword=" + keyword + "&page=" + page + "&limit=" + limit + "&type=image"
      == (domain + MediaPath + "?") + Join(["keyword=" + keyword, "page=" + page, "limit=" + limit, "type=image"], '&')
  {
    var pre := domain + "api/v4/media?";
    assert "api/v4/media?keyword=" == "api/v4/media?" + "keyword=";
    assert "&page=" == "&" + "page=";
    assert "&limit=" == "&" + "limit=";
    assert "&type=image" == "&" + "type=image";
    var u1 := domain + "api/v4/media?keyword=" + keyword;
    Regroup(domain, "api/v4/media?", "keyword=", keyword);
    assert u1 == pre + ("keyword=" + keyword);
    var u2 := u1 + "&page=" + page;
    Regroup(u1, "&", "page=", page);
    var u3 := u2 + "&limit=" + limit;
    Regroup(u2, "&", "limit=", limit);
    var u4 := u3 + "&type=image";
    assert u4 == u3 + "&" + "type=image";
    JoinFour(pre, "keyword=" + keyword, "page=" + page, "limit=" + limit, "type=image");
  }

  /** The listing URL text, read as the endpoint followed by `&`-joined parameters. */
  lemma ListUrlText(domain: string, orderBy: string, page: string, limit: string)
    ensures domain + "api/v4/media?orderBy=" + orderBy + "&page=" + page + "&limit=" + limit
      == (domain + MediaPath + "?") + Join(["orderBy=" + orderBy, "page=" + page, "limit=" + limit], '&')
  {
    var pre := domain + "api/v4/media?";
    assert "api/v4/media?orderBy=" == "api/v4/media?" + "orderBy=";
    assert "&page=" == "&" + "page=";
    assert "&limit=" == "&" + "limit=";
    var u1 := domain + "api/v4/media?orderBy=" + orderBy;
    Regroup(domain, "api/v4/media?", "orderBy=", orderBy);
    var u2 := u1 + "&page=" + page;
    Regroup(u1, "&", "page=", page);
    var u3 := u2 + "&limit=" + limit;
    Regroup(u2, "&", "limit=", limit);
    JoinThree(pre, "orderBy=" + orderBy, "page=" + page, "limit=" + limit);
  }

  /** A parameter `name=value` holds no `&` when neither part does. */
  lemma ParameterLacksAmpersand(name: string, value: string)
    requires Lacks(name, '&') && Lacks(value, '&')
    ensures Lacks(name + value, '&')
  {
    assert forall i :: |name| <= i < |name + value| ==> (name + value)[i] == value[i - |name|];
  }

  lemma EncodedLacksAmpersand(query: string)
    ensures Lacks(EncodeUriComponent(query), '&')
  {
    Uri.EncodedHasNoDelimiters(query);
  }

  /** Text that starts with `pre` leaves the rest after it. */
  lemma AfterPrefix(pre: string, rest: string)
    ensures StartsWith(pre + rest, pre) && (pre + rest)[|pre|..] == rest
  {
    assert (pre + rest)[..|pre|] == pre;
  }

  /** The search URL is the endpoint followed by its four parameters, which splitting on `&` recovers. */
  lemma SearchUrlParameters(config: BynderConfig, query: string, page: nat, perPage: nat)
    ensures var url := FetchSearch(config, query, page, perPage).url;
      && StartsWith(url, Endpoint(config))
      && Split(url[|Endpoint(config)|..], '&') == SearchParameters(query, page, perPage)
  {
    var ps := SearchParameters(query, page, perPage);
    EncodedLacksAmpersand(query);
    NoAmpersandInDecimal(page);
    NoAmpersandInDecimal(perPage);
    ParameterLacksAmpersand("keyword=", EncodeUriComponent(query));
    ParameterLacksAmpersand("page=", DecimalString(page));
    ParameterLacksAmpersand("limit=", DecimalString(perPage));
    assert Lacks(ps[3], '&');
    AfterPrefix(Endpoint(config), Join(ps, '&'));
    SplitJoin(ps, '&');
  }

  /** The listing URL is the endpoint followed by its three parameters, which splitting on `&` recovers when the order has no `&`. */
  lemma ListUrlParameters(config: BynderConfig, orderBy: string, page: nat, perPage: nat)
    requires Lacks(orderBy, '&')
    ensures var url := FetchList(config, orderBy, page, perPage).url;
      && StartsWith(url, Endpoint(config))
      && Split(url[|Endpoint(config)|..], '&') == ListParameters(orderBy, page, perPage)
  {
    var ps := ListParameters(orderBy, page, perPage);
    NoAmpersandInDecimal(page);
    NoAmpersandInDecimal(perPage);
    ParameterLacksAmpersand("orderBy=", orderBy);
    ParameterLacksAmpersand("page=", DecimalString(page));
    ParameterLacksAmpersand("limit=", DecimalString(perPage));
    AfterPrefix(Endpoint(config), Join(ps, '&'));
    SplitJoin(ps, '&');
  }

  /**
   * The dispatch of one sampled (query, page) pair: a keyword search for a
   * non-empty query, otherwise a listing by creation date, ascending.
   */
  function Search(config: BynderConfig, query: string, page: nat, perPage: nat): (r: Request)
    ensures r.headers == AuthHeaders(config)
    ensures r.url == Endpoint(config) + Join(if query != "" then SearchParameters(query, page, perPage) else ListParameters(ListOrder, page, perPage), '&')
    ensures StartsWith(r.url, Endpoint(config))
    ensures query != "" ==> Split(r.url[|Endpoint(config)|..], '&') == SearchParameters(query, page, perPage)
    ensures query == "" ==> Split(r.url[|Endpoint(config)|..], '&') == ListParameters(ListOrder, page, perPage)
  {
    if query != "" then
      SearchUrlParameters(config, query, page, perPage);
      FetchSearch(config, query, page, perPage)
    else
      ListUrlParameters(config, ListOrder, page, perPage);
      FetchList(config, ListOrder, page, perPage)
  }

  /** A search request filters on images and a listing does not; the two never coincide. */
  lemma SearchAndListDiffer(config: BynderConfig, query: string, page: nat, perPage: nat)
    requires query != ""
    ensures "type=image" in SearchParameters(query, page, perPage)
    ensures "type=image" !in ListParameters(ListOrder, page, perPage)
    ensures Search(config, query, page, perPage) != Search(config, "", page, perPage)
  {
    var ls := ListParameters(ListOrder, page, perPage);
    assert ls[0][0] == 'o' && ls[1][0] == 'p' && ls[2][0] == 'l';
    assert |SearchParameters(query, page, perPage)| != |ls|;
  }

  /** Requests for different pages differ in their `page` parameter. */
  lemma PageIsInUrl(config: BynderConfig, query: string, p1: nat, p2: nat, perPage: nat)
    requires Search(config, query, p1, perPage) == Search(config, query, p2, perPage)
    ensures p1 == p2
  {
    var e := |Endpoint(config)|;
    var ps1 := Split(Search(config, query, p1, perPage).url[e..], '&');
    assert ps1[1] == "page=" + DecimalString(p1) == "page=" + DecimalString(p2);
    assert DecimalString(p1) == ("page=" + DecimalString(p1))[5..];
    assert DecimalString(p2) == ("page=" + DecimalString(p2))[5..];
    DecimalStringInjective(p1, p2);
  }

  /* ------------------------------------------------------------ Responses */

  /** A response as the client sees it; the JSON body is already a list of photos. */
  datatype HttpResponse = Received(ok: bool, body: seq<BynderPhoto>) | TransportFailure

  /** The errors a single fetch ends with. */
  datatype FetchError = ResponseNotOk | NetworkError {
    function Message(): string {
      match this
      case ResponseNotOk => "Network response was not ok"
      case NetworkError => "Failed to fetch"
    }
  }

  /** `fetchAsObservable`: a page of photos for an ok response, an error otherwise. */
  function FetchOutcome(response: HttpResponse): (r: Result<seq<BynderPhoto>, FetchError>)
    ensures r.Success? <==> response.Received? && response.ok
    ensures r.Success? ==> r.value == response.body
    ensures response.Received? && !response.ok ==> r == Failure(ResponseNotOk)
  {
    match response
    case Received(ok, body) => if ok then Success(body) else Failure(ResponseNotOk)
    case TransportFailure => Failure(NetworkError)
  }

  /** `fetchDownloadUrl`: the photo's transform URL; the configuration plays no part. */
  function FetchDownloadUrl(config: BynderConfig, photo: BynderPhoto): string {
    photo.transformBaseUrl
  }

  /* -------------------------------------------------------------- Stream */

  /** A value pushed into the query subject or the page subject. */
  datatype Emission = PageEmitted(page: nat) | QueryEmitted(query: string)

  /** A query emission together with the page it was paired with. */
  datatype Sampled = Sampled(query: string, page: nat)

  /** The page subject's latest value after `trace`, starting from `latest`. */
  function LatestPage(trace: seq<Emission>, latest: Option<nat>): (r: Option<nat>)
    ensures latest.Some? ==> r.Some?
    ensures |trace| > 0 && trace[|trace| - 1].PageEmitted? ==> r == Some(trace[|trace| - 1].page)
    ensures NoPageFrom(trace, 0) ==> r == latest
  {
    if |trace| == 0 then latest
    else LatestPage(trace[1..], if trace[0].PageEmitted? then Some(trace[0].page) else latest)
  }

  /** No page is emitted in `trace` at or after position `k`. */
  predicate NoPageFrom(trace: seq<Emission>, k: nat) {
    forall j :: k <= j < |trace| ==> !trace[j].PageEmitted?
  }

  /**
   * A `BehaviorSubject` holds the last value pushed into it: the latest page
   * is the last page emission of the trace, or the starting value when the
   * trace emits no page.
   */
  lemma {:induction false} LatestPageIsLastEmitted(trace: seq<Emission>, latest: Option<nat>)
    ensures NoPageFrom(trace, 0) ==> LatestPage(trace, latest) == latest
    ensures forall k :: (0 <= k < |trace| && trace[k].PageEmitted? && NoPageFrom(trace, k + 1)
                         ==> LatestPage(trace, latest) == Some(trace[k].page))
  {
    if |trace| > 0 {
      var rest := trace[1..];
      var next := if trace[0].PageEmitted? then Some(trace[0].page) else latest;
      LatestPageIsLastEmitted(rest, next);
      assert forall j :: 1 <= j < |trace| ==> trace[j] == rest[j - 1];
      forall k | 0 <= k < |trace| && trace[k].PageEmitted? && NoPageFrom(trace, k + 1)
        ensures LatestPage(trace, latest) == Some(trace[k].page)
      {
        if k == 0 {
          assert NoPageFrom(rest, 0);
        } else {
          assert rest[k - 1] == trace[k];
          assert NoPageFrom(rest, k);
        }
      }
    }
  }

  function QueryCount(trace: seq<Emission>): nat {
    if |trace| == 0 then 0 else (if trace[0].QueryEmitted? then 1 else 0) + QueryCount(trace[1..])
  }

  /**
   * `query.pipe(withLatestFrom(page))` without timing: each query emission
   * is paired with the latest page, and is dropped while no page has been
   * emitted; page emissions alone produce nothing.
   */
  function Sample(trace: seq<Emission>, latest: Option<nat>): (r: seq<Sampled>)
    ensures |r| <= QueryCount(trace)
    ensures latest.Some? ==> |r| == QueryCount(trace)
  {
    if |trace| == 0 then []
    else match trace[0]
      case PageEmitted(p) => Sample(trace[1..], Some(p))
      case QueryEmitted(q) =>
        (if latest.Some? then [Sampled(q, latest.value)] else []) + Sample(trace[1..], latest)
  }

  /** Emissions that end a trace are sampled against the page state the earlier emissions left. */
  lemma {:induction false} SampleAppend(t1: seq<Emission>, t2: seq<Emission>, latest: Option<nat>)
    ensures Sample(t1 + t2, latest) == Sample(t1, latest) + Sample(t2, LatestPage(t1, latest))
    ensures LatestPage(t1 + t2, latest) == LatestPage(t2, LatestPage(t1, latest))
  {
    if |t1| > 0 {
      assert (t1 + t2)[1..] == t1[1..] + t2;
      var next := if t1[0].PageEmitted? then Some(t1[0].page) else latest;
      SampleAppend(t1[1..], t2, next);
    } else {
      assert t1 + t2 == t2;
    }
  }

  /** A trace of page emissions alone samples nothing. */
  lemma {:induction false} PagesAloneSampleNothing(trace: seq<Emission>, latest: Option<nat>)
    requires forall k :: 0 <= k < |trace| ==> trace[k].PageEmitted?
    ensures Sample(trace, latest) == []
  {
    if |trace| > 0 {
      PagesAloneSampleNothing(trace[1..], Some(trace[0].page));
    }
  }

  /**
   * Reference reading of the pairing, scanning from the end: the last
   * emission, when it is a query, pairs with the page the earlier
   * emissions left behind.
   */
  ghost function SampleFromEnd(trace: seq<Emission>, latest: Option<nat>): seq<Sampled> {
    if |trace| == 0 then []
    else
      var before := trace[..|trace| - 1];
      var last := trace[|trace| - 1];
      var page := LatestPage(before, latest);
      SampleFromEnd(before, latest)
        + (if last.QueryEmitted? && page.Some? then [Sampled(last.query, page.value)] else [])
  }

  lemma {:induction false} SampleMatchesReference(trace: seq<Emission>, latest: Option<nat>)
    ensures Sample(trace, latest) == SampleFromEnd(trace, latest)
  {
    if |trace| > 0 {
      var before := trace[..|trace| - 1];
      var last := trace[|trace| - 1];
      assert trace == before + [last];
      SampleAppend(before, [last], latest);
      SampleMatchesReference(before, latest);
      var page := LatestPage(before, latest);
      assert [last][1..] == [];
    }
  }

  /** Every handler of the picker emits a page and then a query: that pair yields one request, for that page. */
  lemma SamplePageThenQuery(page: nat, query: string, latest: Option<nat>)
    ensures Sample([PageEmitted(page), QueryEmitted(query)], latest) == [Sampled(query, page)]
    ensures LatestPage([PageEmitted(page), QueryEmitted(query)], latest) == Some(page)
  {
    var t := [PageEmitted(page), QueryEmitted(query)];
    assert t[1..] == [QueryEmitted(query)];
  }
}
