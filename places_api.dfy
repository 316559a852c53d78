/**
  * The Google Places calls of the scraper: one Nearby Search page
  * (`get_nearby_search_places_page`), the three-page pagination of a hexagon
  * (`get_all_place_ids_for_hex`) and the Place Details lookup
  * (`get_place_details`). The HTTP service is a function from request to
  * parsed response; every call goes through the shared rate limiter and the
  * clock.
  */
module PlacesApi {
  import opened Wrappers
  import opened Text
  import opened Json
  import opened RateLimiting

  /** The parsed body of a Nearby Search response, or a failed request. */
  datatype SearchResponse =
    | SearchAnswer(status: Option<string>, results: Option<seq<Value>>, nextPageToken: Value)
    | SearchRequestFailed

  /** What `get_nearby_search_places_page` returns: results, next page token, status. */
  datatype SearchPage = SearchPage(results: seq<Value>, nextToken: Value, status: string)

  /** The parameters a hexagon's search is made with. */
  datatype SearchQuery = SearchQuery(keyword: string, businessType: string, latitude: Value, longitude: Value, radius: int)

  /** The query parameters of one request; an absent parameter is `None`. */
  datatype SearchRequest = SearchRequest(
    latitude: Value, longitude: Value, radius: int,
    keyword: Option<string>, placeType: Option<string>, pageToken: Option<Value>)

  /**
    * The request of one page: the keyword and the type are sent only when
    * they are not blank, the page token only when it is set.
    */
  function NearbySearchRequest(q: SearchQuery, token: Value): (r: SearchRequest)
    ensures r.keyword.Some? <==> Strip(q.keyword) != ""
    ensures r.placeType.Some? <==> Strip(q.businessType) != ""
    ensures r.pageToken.Some? <==> Truthy(token)
    ensures r.keyword.Some? ==> r.keyword.value == q.keyword
    ensures r.placeType.Some? ==> r.placeType.value == q.businessType
    ensures r.pageToken.Some? ==> r.pageToken.value == token
  {
    SearchRequest(
      q.latitude, q.longitude, q.radius,
      if Strip(q.keyword) != "" then Some(q.keyword) else None,
      if Strip(q.businessType) != "" then Some(q.businessType) else None,
      if Truthy(token) then Some(token) else None)
  }

  /** A blank keyword is never sent, whatever its whitespace. */
  lemma BlankKeywordOmitted(q: SearchQuery, token: Value)
    requires forall i :: 0 <= i < |q.keyword| ==> IsSpace(q.keyword[i])
    ensures NearbySearchRequest(q, token).keyword == None
  {
  }

  /** A keyword made of a no-break space and an ideographic space is blank too. */
  lemma UnicodeBlankKeywordOmitted(q: SearchQuery, token: Value)
    requires q.keyword == "\U{a0}\U{3000}"
    ensures NearbySearchRequest(q, token).keyword == None
  {
    BlankKeywordOmitted(q, token);
  }

  /**
    * How a response becomes a page: only an `OK` status yields results and a
    * next token; a missing status reads as `UNKNOWN_ERROR` and a failed
    * request as `REQUEST_EXCEPTION`.
    */
  function InterpretSearch(resp: SearchResponse): (r: SearchPage)
    ensures r.status != "OK" ==> r.results == [] && r.nextToken == Null
    ensures resp.SearchRequestFailed? ==> r.status == "REQUEST_EXCEPTION"
    ensures resp.SearchAnswer? && resp.status.None? ==> r.status == "UNKNOWN_ERROR"
    ensures resp.SearchAnswer? && resp.status.Some? ==> r.status == resp.status.value
    ensures resp.SearchAnswer? && resp.status == Some("OK") ==>
      r.nextToken == resp.nextPageToken &&
      r.results == (if resp.results.Some? then resp.results.value else [])
  {
    match resp
    case SearchRequestFailed => SearchPage([], Null, "REQUEST_EXCEPTION")
    case SearchAnswer(st, res, token) =>
      var status := if st.Some? then st.value else "UNKNOWN_ERROR";
      if status == "OK" then SearchPage(if res.Some? then res.value else [], token, status)
      else SearchPage([], Null, status)
  }

  /** A page without an `OK` status never asks for a further page. */
  lemma FailedPageEndsSearch(resp: SearchResponse)
    requires InterpretSearch(resp).status != "OK"
    ensures !Truthy(InterpretSearch(resp).nextToken)
  {
  }

  /** `time.sleep(d)` inside a request: the clock moves on, the limiter stays as it was. */
  method Pause(limiter: RateLimiter, clock: Clock, d: real)
    requires d >= 0.0
    requires limiter.Valid() && limiter.NotAfter(clock.now)
    modifies clock
    ensures limiter.Valid() && limiter.NotAfter(clock.now)
    ensures clock.now >= old(clock.now) + d
  {
    clock.Sleep(d);
  }

  /**
    * `get_nearby_search_places_page`: wait two seconds before asking for a
    * next page, pass the rate limiter, ask, and pause five seconds when the
    * service answers `OVER_QUERY_LIMIT`.
    */
  method GetNearbySearchPage(limiter: RateLimiter, clock: Clock, search: SearchRequest -> SearchResponse,
                             q: SearchQuery, token: Value) returns (page: SearchPage)
    requires limiter.Valid() && limiter.NotAfter(clock.now)
    modifies limiter, clock
    ensures limiter.Valid() && limiter.NotAfter(clock.now)
    ensures page == InterpretSearch(search(NearbySearchRequest(q, token)))
    ensures |limiter.history| == |old(limiter.history)| + 1
    ensures limiter.history[|limiter.history| - 1] >= old(clock.now) + (if Truthy(token) then 2.0 else 0.0)
    ensures clock.now >= old(clock.now) + (if Truthy(token) then 2.0 else 0.0)
      + (if page.status == "OVER_QUERY_LIMIT" then 5.0 else 0.0)
  {
    var request := NearbySearchRequest(q, token);
    if Truthy(token) {
      Pause(limiter, clock, 2.0);
    }
    page := Ask(limiter, clock, search, request);
  }

  /**
    * The request itself: pass the rate limiter, ask, and pause five seconds
    * when the service answers `OVER_QUERY_LIMIT`.
    */
  method Ask(limiter: RateLimiter, clock: Clock, search: SearchRequest -> SearchResponse, request: SearchRequest)
    returns (page: SearchPage)
    requires limiter.Valid() && limiter.NotAfter(clock.now)
    modifies limiter, clock
    ensures limiter.Valid() && limiter.NotAfter(clock.now)
    ensures page == InterpretSearch(search(request))
    ensures |limiter.history| == |old(limiter.history)| + 1
    ensures limiter.history[|limiter.history| - 1] >= old(clock.now)
    ensures clock.now >= old(clock.now) + (if page.status == "OVER_QUERY_LIMIT" then 5.0 else 0.0)
  {
    limiter.WaitIfNeeded(clock);
    page := InterpretSearch(search(request));
    if page.status == "OVER_QUERY_LIMIT" {
      Pause(limiter, clock, 5.0);
    }
  }

  /**
    * The pages a hexagon's search obtains, starting from `token` with at
    * most `budget` requests left: each page is requested with the previous
    * page's token, and the search stops after a page without one.
    */
  function Pages(search: SearchRequest -> SearchResponse, q: SearchQuery, token: Value, budget: nat): seq<SearchPage>
    decreases budget
  {
    if budget == 0 then []
    else
      var page := InterpretSearch(search(NearbySearchRequest(q, token)));
      if Truthy(page.nextToken) then [page] + Pages(search, q, page.nextToken, budget - 1)
      else [page]
  }

  /** The results of the pages, in page order. */
  function AllResults(pages: seq<SearchPage>): seq<Value>
  {
    if pages == [] then [] else AllResults(pages[..|pages| - 1]) + pages[|pages| - 1].results
  }

  /** At least one and at most `budget` requests are made. */
  lemma {:induction false} PagesCount(search: SearchRequest -> SearchResponse, q: SearchQuery, token: Value, budget: nat)
    requires budget >= 1
    ensures 1 <= |Pages(search, q, token, budget)| <= budget
    decreases budget
  {
    var page := InterpretSearch(search(NearbySearchRequest(q, token)));
    if Truthy(page.nextToken) && budget > 1 {
      PagesCount(search, q, page.nextToken, budget - 1);
    }
  }

  /** Every page but the last carries a next token. */
  lemma {:induction false} PagesCarryTokens(search: SearchRequest -> SearchResponse, q: SearchQuery, token: Value, budget: nat)
    ensures forall i :: 0 <= i < |Pages(search, q, token, budget)| - 1 ==> Truthy(Pages(search, q, token, budget)[i].nextToken)
    decreases budget
  {
    if budget > 0 {
      var page := InterpretSearch(search(NearbySearchRequest(q, token)));
      if Truthy(page.nextToken) {
        var ps := Pages(search, q, token, budget);
        var rest := Pages(search, q, page.nextToken, budget - 1);
        PagesCarryTokens(search, q, page.nextToken, budget - 1);
        assert ps == [page] + rest;
        assert ps[0] == page;
        forall i | 0 < i < |ps| - 1 ensures Truthy(ps[i].nextToken) {
          assert ps[i] == rest[i - 1];
        }
      }
    }
  }

  /** A run of pages shorter than its budget ends with a page without a next token. */
  predicate EndsWithoutToken(ps: seq<SearchPage>, budget: nat)
  {
    0 < |ps| < budget ==> !Truthy(ps[|ps| - 1].nextToken)
  }

  /** The last page has no next token unless the budget is used up: the search stops only for lack of one. */
  lemma {:induction false} PagesEndWithoutToken(search: SearchRequest -> SearchResponse, q: SearchQuery, token: Value, budget: nat)
    ensures EndsWithoutToken(Pages(search, q, token, budget), budget)
    decreases budget
  {
    var ps := Pages(search, q, token, budget);
    if budget == 1 {
      PagesCount(search, q, token, budget);
    } else if budget > 1 {
      var page := InterpretSearch(search(NearbySearchRequest(q, token)));
      if Truthy(page.nextToken) {
        var rest := Pages(search, q, page.nextToken, budget - 1);
        PagesEndWithoutToken(search, q, page.nextToken, budget - 1);
        PagesCount(search, q, page.nextToken, budget - 1);
        assert ps == [page] + rest;
        EndsWithoutTokenCons(page, rest, budget);
      } else {
        assert ps == [page];
      }
    }
  }

  /** A page put in front of a run that ends without a token, with one more request of budget, keeps that property. */
  lemma EndsWithoutTokenCons(page: SearchPage, rest: seq<SearchPage>, budget: nat)
    requires rest != [] && budget >= 1
    requires EndsWithoutToken(rest, budget - 1)
    ensures EndsWithoutToken([page] + rest, budget)
  {
    var ps := [page] + rest;
    assert ps[|ps| - 1] == rest[|rest| - 1];
  }

  /** Every page is the interpretation of a response: without `OK`, no results and no token. */
  lemma {:induction false} PagesInterpreted(search: SearchRequest -> SearchResponse, q: SearchQuery, token: Value, budget: nat)
    ensures forall page :: page in Pages(search, q, token, budget) && page.status != "OK" ==>
      page.results == [] && page.nextToken == Null
    decreases budget
  {
    if budget > 0 {
      var page := InterpretSearch(search(NearbySearchRequest(q, token)));
      if Truthy(page.nextToken) {
        PagesInterpreted(search, q, page.nextToken, budget - 1);
      }
    }
  }

  /** A page whose status is not `OK` is the last one. */
  lemma FailedPageIsLast(search: SearchRequest -> SearchResponse, q: SearchQuery, token: Value, budget: nat, i: nat)
    requires i < |Pages(search, q, token, budget)|
    requires Pages(search, q, token, budget)[i].status != "OK"
    ensures i == |Pages(search, q, token, budget)| - 1
  {
    var ps := Pages(search, q, token, budget);
    PagesCarryTokens(search, q, token, budget);
    PagesInterpreted(search, q, token, budget);
    assert ps[i] in ps;
    assert !Truthy(ps[i].nextToken);
  }

  /** One more page adds its results at the end. */
  lemma AllResultsPrefix(pages: seq<SearchPage>, i: nat)
    requires i < |pages|
    ensures AllResults(pages[..i + 1]) == AllResults(pages[..i]) + pages[i].results
  {
    assert pages[..i + 1][..i] == pages[..i];
  }

  /** The whole prefix is the sequence itself. */
  lemma AllResultsWhole(pages: seq<SearchPage>, n: nat)
    requires n == |pages|
    ensures AllResults(pages[..n]) == AllResults(pages)
  {
    assert pages[..n] == pages;
  }

  /** Page `i` of a search is the answer to the request made with the token of page `i - 1` (the starting token for the first). */
  lemma {:induction false} PageAt(search: SearchRequest -> SearchResponse, q: SearchQuery, token: Value, budget: nat, i: nat, t: Value)
    requires i < |Pages(search, q, token, budget)|
    requires i == 0 ==> t == token
    requires i > 0 ==> t == Pages(search, q, token, budget)[i - 1].nextToken
    ensures Pages(search, q, token, budget)[i] == InterpretSearch(search(NearbySearchRequest(q, t)))
    decreases budget
  {
    var page := InterpretSearch(search(NearbySearchRequest(q, token)));
    var ps := Pages(search, q, token, budget);
    assert budget > 0 && ps[0] == page;
    if i > 0 {
      var rest := Pages(search, q, page.nextToken, budget - 1);
      assert ps == [page] + rest;
      if i > 1 {
        assert ps[i - 1] == rest[i - 2];
      }
      PageAt(search, q, page.nextToken, budget - 1, i - 1, t);
      assert ps[i] == rest[i - 1];
    }
  }

  /**
    * The `i`-th request of a search, made with the token of page `i - 1`
    * (or none for the first), is answered by page `i` of the search: while
    * the budget lasts and the previous page had a token, there is one.
    */
  lemma PageAtCursor(search: SearchRequest -> SearchResponse, q: SearchQuery, budget: nat, i: nat, token: Value)
    requires i < budget
    requires var ps := Pages(search, q, Null, budget);
      && i <= |ps|
      && (i == 0 ==> token == Null)
      && (i > 0 ==> token == ps[i - 1].nextToken && Truthy(token))
    ensures var ps := Pages(search, q, Null, budget);
      i < |ps| && ps[i] == InterpretSearch(search(NearbySearchRequest(q, token)))
  {
    PagesCount(search, q, Null, budget);
    PagesEndWithoutToken(search, q, Null, budget);
    if i < |Pages(search, q, Null, budget)| {
      PageAt(search, q, Null, budget, i, token);
    }
  }

  /** A page without a next token is the last page of the search. */
  lemma LastPageAtCursor(search: SearchRequest -> SearchResponse, q: SearchQuery, budget: nat, i: nat)
    requires var ps := Pages(search, q, Null, budget);
      i < |ps| && !Truthy(ps[i].nextToken)
    ensures i == |Pages(search, q, Null, budget)| - 1
  {
    PagesCarryTokens(search, q, Null, budget);
  }

  /**
    * One turn of the pagination loop: page `i` adds its results, and a page
    * without a next token is the last one, so the results are complete.
    */
  lemma CursorStep(search: SearchRequest -> SearchResponse, q: SearchQuery, budget: nat, i: nat, results: seq<Value>)
    requires var ps := Pages(search, q, Null, budget);
      i < |ps| && results == AllResults(ps[..i])
    ensures var ps := Pages(search, q, Null, budget);
      && results + ps[i].results == AllResults(ps[..i + 1])
      && (!Truthy(ps[i].nextToken) ==> i + 1 == |ps| && results + ps[i].results == AllResults(ps))
  {
    var ps := Pages(search, q, Null, budget);
    AllResultsPrefix(ps, i);
    if !Truthy(ps[i].nextToken) {
      LastPageAtCursor(search, q, budget, i);
      AllResultsWhole(ps, i + 1);
    }
  }

  /** The number of pages `get_all_place_ids_for_hex` asks for. */
  const MaxPages: nat := 3

  /** The request made with the cursor of the pagination loop answers page `i` of the search. */
  method FetchPage(limiter: RateLimiter, clock: Clock, search: SearchRequest -> SearchResponse, q: SearchQuery, i: nat, token: Value)
    returns (page: SearchPage)
    requires limiter.Valid() && limiter.NotAfter(clock.now)
    requires i < MaxPages
    requires var ps := Pages(search, q, Null, MaxPages);
      && i <= |ps|
      && (i == 0 ==> token == Null)
      && (i > 0 ==> token == ps[i - 1].nextToken && Truthy(token))
    modifies limiter, clock
    ensures limiter.Valid() && limiter.NotAfter(clock.now)
    ensures |limiter.history| == |old(limiter.history)| + 1
    ensures i < |Pages(search, q, Null, MaxPages)| && page == Pages(search, q, Null, MaxPages)[i]
  {
    page := GetNearbySearchPage(limiter, clock, search, q, token);
    PageAtCursor(search, q, MaxPages, i, token);
  }

  /**
    * `get_all_place_ids_for_hex`: up to three pages, every request counted
    * whatever its status, stopping after the first page without a next
    * token; the results of all pages in order.
    */
  method GetAllPlaceIdsForHex(limiter: RateLimiter, clock: Clock, search: SearchRequest -> SearchResponse, q: SearchQuery)
    returns (results: seq<Value>, apiCalls: nat)
    requires limiter.Valid() && limiter.NotAfter(clock.now)
    modifies limiter, clock
    ensures limiter.Valid() && limiter.NotAfter(clock.now)
    ensures apiCalls == |Pages(search, q, Null, MaxPages)|
    ensures results == AllResults(Pages(search, q, Null, MaxPages))
    ensures |limiter.history| == |old(limiter.history)| + apiCalls
  {
    results := [];
    apiCalls := 0;
    var token := Null;
    ghost var all := Pages(search, q, Null, MaxPages);
    for i := 0 to MaxPages
      invariant limiter.Valid() && limiter.NotAfter(clock.now)
      invariant apiCalls == i <= |all|
      invariant results == AllResults(all[..i])
      invariant i == 0 ==> token == Null
      invariant i > 0 ==> token == all[i - 1].nextToken && Truthy(token)
      invariant |limiter.history| == |old(limiter.history)| + apiCalls
    {
      apiCalls := apiCalls + 1;
      var page := FetchPage(limiter, clock, search, q, i, token);
      CursorStep(search, q, MaxPages, i, results);
      if page.results != [] {
        results := results + page.results;
      } else {
        assert results + page.results == results;
      }
      token := page.nextToken;
      if !Truthy(token) {
        return;
      }
    }
    PagesCount(search, q, Null, MaxPages);
    AllResultsWhole(all, MaxPages);
  }

  /** The parsed body of a Place Details response, or a failed request. */
  datatype DetailsResponse =
    | DetailsAnswer(status: Option<string>, result: Option<map<string, Value>>)
    | DetailsRequestFailed

  /** The details of a place only come back with an `OK` status. */
  function InterpretDetails(resp: DetailsResponse): (r: Option<map<string, Value>>)
    ensures r.Some? ==> resp.DetailsAnswer? && resp.status == Some("OK") && resp.result == r
    ensures resp.DetailsAnswer? && resp.status == Some("OK") ==> r == resp.result
  {
    match resp
    case DetailsRequestFailed => None
    case DetailsAnswer(st, res) => if st == Some("OK") then res else None
  }

  /** `get_place_details`: pass the rate limiter, then ask for the place's details. */
  method GetPlaceDetails(limiter: RateLimiter, clock: Clock, details: Value -> DetailsResponse, placeId: Value)
    returns (r: Option<map<string, Value>>)
    requires limiter.Valid() && limiter.NotAfter(clock.now)
    modifies limiter, clock
    ensures limiter.Valid() && limiter.NotAfter(clock.now)
    ensures r == InterpretDetails(details(placeId))
    ensures |limiter.history| == |old(limiter.history)| + 1
  {
    limiter.WaitIfNeeded(clock);
    r := InterpretDetails(details(placeId));
  }
}
