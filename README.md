# Business scraper core, modelled in Dafny

This project models the core of `scraper_core.py`. That module finds businesses inside geographic boundaries with the Google Places "nearby search" API and enriches each new place by crawling its website for contact emails and social-profile links. It writes each enriched place as a CSV row to one of two files, according to whether an address was found.

The model covers:
- the adaptive search scheduler: a FIFO queue of H3 cells, where a dense cell is replaced by its children;
- the place deduplication against the ids already seen;
- the statistics counters and the two CSV outputs;
- the sliding-window API rate limiter;
- the three-page pagination loop;
- the tiling-strategy selection;
- the GeoJSON boundary loader;
- the website crawl (crawl-set construction, per-page extraction, aggregation);
- the email, social-link and URL helpers.

Modules, one per concern of the source:

| file | module | models |
|---|---|---|
| `json.dfy` | `Json` | JSON values as `json.load` produces them, `flatten_value` and `json.dumps` |
| `extraction.dfy` | `Extraction` | `is_hex_like_local_part`, `extract_emails_from_text`, `extract_social_links_from_text`, the `mailto:` targets |
| `urls.dfy` | `Urls` | `convert_subdomain_to_www`, `get_all_internal_links` |
| `crawler.dfy` | `Crawler` | `process_single_url`, `scrape_website_data` |
| `rate_limiter.dfy` | `RateLimiting` | a monotone clock and `APIRateLimiter` |
| `places_api.dfy` | `PlacesApi` | `get_nearby_search_places_page`, `get_all_place_ids_for_hex`, `get_place_details` |
| `hexagons.dfy` | `Hexagons` | `H3_RESOLUTIONS`, `get_search_radius_for_resolution`, the selection in `generate_hexagons_from_geojson`, `load_boundaries_from_geojson_data` |
| `scraping_rules.dfy` | `ScrapingRules` | the pure rules of `ScrapingManager`: counters, rows, the dedup filter, the density rule, the queue measure |
| `manager.dfy` | `Manager` | `process_place` and the `ScrapingManager` class |
| `wrappers.dfy`, `text.dfy` | `Wrappers`, `Text` | `Option`, sequence/set helpers, and the `str` operations the source uses (`split`, `strip`, `lower`, `startswith`) |

## How the libraries are modelled

Libraries are values the model is given, not code it contains:
- `urlparse`/`urlunparse`/`urljoin`/`tldextract` (`Urls.UrlLib`);
- the HTTP fetch, BeautifulSoup's `href` list and the regex `findall` results (`Crawler.WebEnv`);
- the Places search and details endpoints (functions from a request to a response);
- H3's `h3_to_children` and `h3_to_geo` (`ScrapingRules.H3Lib`);
- the two tiling generators and the coverage measure (`Hexagons.Tiler`).

The clock is a `Clock` object:
- `Sleep(d)` advances it by at least `d`;
- time may pass between calls;
- it never falls behind the last call the limiter recorded (`RateLimiter.NotAfter`).

The stateful parts are classes with `modifies` frames:
- `RateLimiter` has the `calls` list, plus a ghost history of every timestamp ever recorded;
- `ScrapingManager` has the stop flag, the seen-id set, the counters, and the rows appended to each CSV file.

### Behaviour of the code worth knowing

- **In-batch duplicates are both dispatched.** A business is not guaranteed to be enriched and written only once. The dedup filter at `scraper_core.py:616` compares results only with the ids seen before the batch, so one place listed twice in a single search result is dispatched twice (`ScrapingRules.InBatchDuplicateDispatchedTwice`).
- **Contact pages are not prioritised.** The code splits the candidates into contact-like pages and others, but the crawl list is `list(urls_to_process)[:max_links]` over a set, so the contact/other split has no effect on which pages are kept. `Crawler.ScrapeWebsiteData` promises only that the crawl list is a duplicate-free subset of the candidates of the stated size.
- **`mailto:` targets bypass the file-suffix and hex-token filters.** `Crawler.MailtoBypassesFilter` exhibits one.
- **A website that is a list or a dict is never crawled.** `convert_subdomain_to_www` is wrapped in `lru_cache`, which raises on an unhashable argument; the crawl's `except` then returns no addresses and no links (`Manager.Crawlable`). A number or a boolean reads as the empty URL.
- **`api_calls` counts only the search requests.** Place-details requests also pass the rate limiter but are not counted.
- **An enriched place may never be written.** Enriched places whose result is taken after the stop/target check are dropped, and a failed CSV append is only printed.

## Model

| member | source | states |
|---|---|---|
| Json.LookupLastBinding | scraper_core.py:468-470 | a JSON object's `get`: absent exactly when no field has the key; otherwise the value of the last binding of the key, as `json.load` keeps the last duplicate |
| Json.FlattenValue | scraper_core.py:243-245 | `flatten_value`: a string is kept as is; the result is empty exactly for `None` and `""`; lists and dicts become JSON text in brackets/braces |
| Json.DictKeys | scraper_core.py:243-245 | a dict written by `json.dumps` lists each key once, and exactly the keys the object binds |
| Json.LastIndex | scraper_core.py:243-245 | the value written for a key is the one `json.load` kept: the key's last binding |
| Json.DumpsRepeatedKey | scraper_core.py:243-245 | `{"a": 1, "b": 2, "a": 3}` is written as `{"a": 3, "b": 2}`: a repeated key once, at its first position, with its last value |
| Json.FlattenStringListRoundTrip | scraper_core.py:243-245 | the JSON text written for a list of strings decodes back to the same list |
| Extraction.HexLikeIgnoresDomain | scraper_core.py:76-78 | the hex-token test looks only at the part before the first `@` |
| Extraction.ExtractEmails | scraper_core.py:80-86 | empty text gives no address; otherwise an address is kept exactly when it was matched (plain or quoted) and passes the filter; every kept address has a top label outside `INVALID_TLDS` and is not a 16+ hex-digit local part |
| Extraction.FileSuffixRejected | scraper_core.py:85 | `ab@x.png` is rejected by the file-suffix filter |
| Extraction.FileSuffixRejectedInAnyCase | scraper_core.py:85 | the suffix test is case-insensitive: any `name@host.PNG` is rejected |
| Extraction.NoSocialLinks | scraper_core.py:89 | the empty result has an empty set per platform |
| Extraction.ExtractSocialLinks | scraper_core.py:88-90 | empty text gives four empty sets; otherwise each platform's set is exactly its matches |
| Extraction.MailtoAddresses | scraper_core.py:138-139 | every href starting with `mailto:` (any case) contributes the text after the prefix up to the first `?`, and nothing else is collected |
| Extraction.MailtoTargetOf | scraper_core.py:139 | `mailto:addr?query` yields `addr` |
| Urls.WithScheme | scraper_core.py:95 | the result has an `http(s)://` scheme, and equals the input exactly when the input already had one |
| Urls.ConvertSubdomainToWww | scraper_core.py:93-101 | empty input gives `""`; fails exactly when parsing fails; a `www` or empty subdomain leaves the (schemed) URL unchanged; any other subdomain rebuilds the URL with host `www.domain.suffix` |
| Urls.ConvertKeepsWwwUrl | scraper_core.py:98-101 | rewriting is idempotent on URLs that already have a `www` or no subdomain |
| Urls.LinkOf | scraper_core.py:124-129 | a kept link parses with scheme http/https and the root's host |
| Urls.CollectRaiseSticks | scraper_core.py:126-127 | once `urljoin`/`urlparse` raises on an anchor, the whole link extraction fails |
| Urls.CollectExactly | scraper_core.py:118-130 | a URL is collected exactly when some anchor yields it |
| Urls.InternalLinksSameHost | scraper_core.py:128-129 | every internal link is http/https on the root's host and comes from an anchor |
| Urls.InternalLinksComplete | scraper_core.py:123-129 | every anchor that passes the filter is in the result |
| Urls.CollectStep | scraper_core.py:126-129 | one more anchor adds its link, adds nothing, or makes the extraction fail |
| Urls.ResolveAnchor | scraper_core.py:124-129 | the handling of one anchor in the loop agrees with `LinkOf` |
| Urls.GetAllInternalLinks | scraper_core.py:118-130 | fails when the root does not parse; otherwise returns exactly the internal links of the anchors |
| Crawler.ProcessSingleUrl | scraper_core.py:132-142 | a page fails exactly when its fetch fails, and then contributes nothing; otherwise an address is kept exactly when the page text is non-empty and the address is a filtered (plain or quoted) match or a `mailto:` target; an empty page yields no address; a platform's link is kept exactly when the non-empty text matches it |
| Crawler.PageAnchors | scraper_core.py:136-137 | an empty page has no anchors |
| Crawler.MailtoBypassesFilter | scraper_core.py:139 | `ab@x.png` reaches the result through a `mailto:` link although the filter rejects it |
| Crawler.MergeSocialCommutes | scraper_core.py:168-169 | merging two pages' links does not depend on their order, so the order in which pages are pooled cannot change the result |
| Crawler.MergeSocialAssociates | scraper_core.py:168-169 | merging is associative, so the pooled links do not depend on how the pages are grouped |
| Crawler.PageEmails | scraper_core.py:165-167 | a failed page contributes no address |
| Crawler.PageSocial | scraper_core.py:165-169 | a failed page contributes no link |
| Crawler.PoolExactly | scraper_core.py:165-169 | the pooled set holds exactly what some crawled page contributes |
| Crawler.EmailsOfExactly | scraper_core.py:165-167 | an address is found exactly when some crawled page yields it |
| Crawler.SocialOfExactly | scraper_core.py:168-169 | a link is found for a platform exactly when some crawled page yields it |
| Crawler.MergeNothing | scraper_core.py:166-169 | merging a failed page's empty links changes nothing |
| Crawler.EmailsPoolStep | scraper_core.py:165-167 | aggregating one more page adds exactly that page's addresses |
| Crawler.SocialPoolStep | scraper_core.py:165-169 | aggregating one more page adds exactly that page's links, platform by platform |
| Crawler.PlatformPoolStep | scraper_core.py:168-169 | for one platform, aggregating one more page adds exactly that page's links |
| Crawler.RootUrl | scraper_core.py:148 | the root starts with `scheme://netloc`, ends with `/`, and is one character longer, so it is exactly `scheme://netloc/` |
| Crawler.Start | scraper_core.py:146-148 | the crawl starts from the rewritten URL and its root, and fails exactly when rewriting or parsing fails |
| Crawler.Candidates | scraper_core.py:150-156 | the candidate set holds the start URL and the root, and fails when the start fails |
| Crawler.CrawlStaysOnSite | scraper_core.py:150-156 | every candidate other than the URL and the root is an http/https link on the root's host |
| Crawler.NoSocialLists | scraper_core.py:173 | the fallback result has an empty list for each of the four platforms |
| Crawler.ToLists | scraper_core.py:171 | each platform's list holds its set's links, without duplicates |
| Crawler.CrawlList | scraper_core.py:158 | the crawl list is duplicate-free, drawn from the candidates, of length `min(max_links, #candidates)` |
| Crawler.PoolPages | scraper_core.py:159-169 | the loop's result equals the aggregation over the crawled pages |
| Crawler.ScrapeWebsiteData | scraper_core.py:144-173 | on any failure: no addresses and four empty link lists; otherwise the crawl list is a duplicate-free subset of the candidates of size `min(max_links, #candidates)`, the addresses are exactly those the crawled pages yield, and likewise the links per platform |
| RateLimiting.Clock.Sleep | scraper_core.py:191 | sleeping `d` advances the clock by at least `d` |
| RateLimiting.Recent | scraper_core.py:186 | the pruned list keeps exactly the timestamps less than one second old |
| RateLimiting.RecentIsSuffix | scraper_core.py:186 | on a sorted list, pruning drops a prefix of stale timestamps |
| RateLimiting.AllRecent | scraper_core.py:186-189 | when the oldest timestamp is recent, pruning keeps the whole sorted list |
| RateLimiting.RecentTwice | scraper_core.py:193 | pruning again at a later time equals pruning once at that time |
| RateLimiting.SlidingWindowBound | scraper_core.py:182-195 | when every recording kept its window within the limit, every one-second window of the history holds at most `max` timestamps |
| RateLimiting.SuffixSorted | scraper_core.py:186 | a suffix of a sorted history is sorted |
| RateLimiting.WindowsBoundedAppend | scraper_core.py:195 | recording a timestamp whose window is within the limit keeps every window within it |
| RateLimiting.RecordKeepsState | scraper_core.py:186-195 | pruning then appending the current time keeps the limiter's invariant |
| RateLimiting.FullWindowSleep | scraper_core.py:188-193 | after sleeping `1 - (now - calls[0])` the oldest call has expired, so the re-pruned list is strictly shorter |
| RateLimiting.StateBounds | scraper_core.py:186-195 | the limiter's invariant makes `calls` sorted and at most `max_calls_per_second` long |
| RateLimiting.RateLimiter.constructor | scraper_core.py:177-180 | a limiter starts with no calls |
| RateLimiting.RateLimiter.WaitIfNeeded | scraper_core.py:182-195 | no sleep when the window has room; after a full window, the clock is at least one second past the window's oldest call; appends exactly one timestamp, the current time, to the history; `calls` becomes the pruned list plus that time and stays sorted and within the limit |
| RateLimiting.RateLimiter.WindowNeverExceeded | scraper_core.py:182-195 | no one-second window of all calls ever made holds more than `max_calls_per_second` |
| PlacesApi.NearbySearchRequest | scraper_core.py:200-211 | keyword and type are sent exactly when not blank after stripping; the page token exactly when truthy |
| PlacesApi.BlankKeywordOmitted | scraper_core.py:203-204 | a keyword made only of characters `str.isspace()` accepts is not sent |
| PlacesApi.UnicodeBlankKeywordOmitted | scraper_core.py:203-204 | a keyword of a no-break space and an ideographic space is blank and not sent |
| PlacesApi.InterpretSearch | scraper_core.py:216-228 | a non-OK page has no results and no token; a failed request reads as `REQUEST_EXCEPTION`, a missing status as `UNKNOWN_ERROR`; an OK page carries the response's results and token |
| PlacesApi.FailedPageEndsSearch | scraper_core.py:220-228 | a page with any status but OK carries no next token |
| PlacesApi.Pause | scraper_core.py:212 | a sleep inside a request moves the clock on by at least its length and leaves the limiter's state as it was |
| PlacesApi.GetNearbySearchPage | scraper_core.py:197-228 | one limiter call per page, made at least 2s after entry when the page is requested with a token; the clock moves on at least 5s more after an `OVER_QUERY_LIMIT` page; the page is the interpreted response |
| PlacesApi.Ask | scraper_core.py:214-226 | one limiter call, then the interpreted response, then a pause of at least 5s after `OVER_QUERY_LIMIT` |
| PlacesApi.PagesCount | scraper_core.py:453-461 | between 1 and the budget of pages are requested |
| PlacesApi.PagesCarryTokens | scraper_core.py:461 | every page but the last has a next token |
| PlacesApi.PagesEndWithoutToken | scraper_core.py:453-461 | a search that stops before its budget is used up stops at a page without a next token |
| PlacesApi.EndsWithoutTokenCons | scraper_core.py:455-461 | a first page followed by a search that ended early without a token is a search that ended early without a token |
| PlacesApi.PagesInterpreted | scraper_core.py:220-228 | every non-OK page in a search has no results and no token |
| PlacesApi.FailedPageIsLast | scraper_core.py:455-461 | a non-OK page is always the last page requested |
| PlacesApi.PageAt | scraper_core.py:455-457 | page `i` of a search is the answer to the request made with page `i - 1`'s token, the first with none |
| PlacesApi.PageAtCursor | scraper_core.py:453-461 | while the budget lasts and the previous page had a token, the loop's next request is answered by the next page of the search |
| PlacesApi.LastPageAtCursor | scraper_core.py:461 | a page without a next token is the last page of the search |
| PlacesApi.AllResultsPrefix | scraper_core.py:460 | one more page appends its results after those of the pages before it |
| PlacesApi.CursorStep | scraper_core.py:460-461 | one loop turn extends the results by the page's results, and a page without a token completes them |
| PlacesApi.FetchPage | scraper_core.py:454-457 | the request the loop makes with its current token returns page `i` of the search and costs one limiter call |
| PlacesApi.GetAllPlaceIdsForHex | scraper_core.py:449-463 | `api_calls` is the number of pages requested (1 to 3, whatever their status); the results are all pages' results in order; the limiter sees one call per page |
| PlacesApi.InterpretDetails | scraper_core.py:236-241 | details are returned exactly when the status is OK |
| PlacesApi.GetPlaceDetails | scraper_core.py:230-241 | one limiter call, then the interpreted response |
| Hexagons.SearchRadius | scraper_core.py:248-249 | the table's radius for resolutions 5-11, 1000 otherwise |
| Hexagons.TableListsFiveToEleven | scraper_core.py:61-72 | the table covers exactly resolutions 5 to 11, including the default 7 |
| Hexagons.RadiusIsEdgeRoundedUp | scraper_core.py:61-69 | each radius is the average edge length in metres, rounded up |
| Hexagons.RadiusShrinksWithResolution | scraper_core.py:61-69 | a finer resolution has a strictly smaller positive radius |
| Hexagons.CoverageRatio | scraper_core.py:385-387 | coverage is non-negative and 0 for an empty list |
| Hexagons.GenerateHexagons | scraper_core.py:420-431 | the result is one of the two tilings |
| Hexagons.SelectionRule | scraper_core.py:424-431 | honeycomb is returned exactly when the primary list is non-empty, covers below 0.95, and honeycomb covers strictly more; otherwise the primary list |
| Hexagons.SelectionNeverWorse | scraper_core.py:424-431 | the chosen tiling covers at least as much as the primary one, and is empty exactly when the primary one is |
| Hexagons.FirstTruthy | scraper_core.py:473-479 | a truthy default always yields a truthy name |
| Hexagons.FirstTruthyPicksFirst | scraper_core.py:473-478 | the name is the first truthy property in key order |
| Hexagons.FirstTruthyFallsBack | scraper_core.py:479 | with no truthy property the name is the fallback (`Unnamed Boundary` in the loader) |
| Hexagons.FeatureOf | scraper_core.py:469-480 | a feature is skipped exactly when its properties or geometry are falsy; a loaded boundary has a truthy name and the feature's geometry |
| Hexagons.FeatureList | scraper_core.py:468 | a missing `features` key means no features; a non-empty list is the key's value |
| Hexagons.GatherFailureSticks | scraper_core.py:468-480 | once a feature raises, loading fails |
| Hexagons.GatherFailsExactly | scraper_core.py:468-480 | loading fails exactly when some feature raises |
| Hexagons.GatherExactly | scraper_core.py:468-480 | a boundary is loaded exactly when some feature yields it |
| Hexagons.BoundariesFailExactly | scraper_core.py:465-481 | loading fails exactly when some feature is malformed |
| Hexagons.BoundariesExactly | scraper_core.py:465-481 | the boundaries are exactly the loaded features, at most one per feature, each with a truthy name and geometry |
| Hexagons.LoadBoundaries | scraper_core.py:465-481 | the loop returns exactly the boundaries of the feature list |
| ScrapingRules.InitialStats | scraper_core.py:500-505 | the four counters start at 0 |
| ScrapingRules.InitialStatsBalanced | scraper_core.py:500-505 | with email + without email = processed holds at the start |
| ScrapingRules.AddStats | scraper_core.py:516-520 | updating never adds or removes a counter |
| ScrapingRules.AddStatsSums | scraper_core.py:516-520 | each counter grows by the sum of the values given for it |
| ScrapingRules.AddStatsIgnoresUnknown | scraper_core.py:519 | an unknown key changes nothing |
| ScrapingRules.AddStatsOne | scraper_core.py:518-520 | one known key adds its value to its counter only |
| ScrapingRules.RecordRowCounts | scraper_core.py:532-537 | a written row adds 1 to processed and 1 to exactly one of with/without email, as `has_emails` says; API calls are unchanged; the counters stay balanced |
| ScrapingRules.CountCallsKeepsBalance | scraper_core.py:605 | counting search requests adds them to `api_calls` and keeps the counters balanced |
| ScrapingRules.PlatformKeyIsColumn | scraper_core.py:58 | every platform key is a CSV column, and no two platforms share one |
| ScrapingRules.RowOf | scraper_core.py:650 | a row has exactly the CSV columns; a missing detail gives `""`, a string detail is written as is |
| ScrapingRules.EmailsColumnDecodes | scraper_core.py:650 | the `emails` column reads back as the list of addresses |
| ScrapingRules.NewPlaces | scraper_core.py:616 | the filter never adds results |
| ScrapingRules.NewPlacesExactly | scraper_core.py:616 | a result is dispatched exactly when its `place_id` is set and not seen before the batch |
| ScrapingRules.Ids | scraper_core.py:623-624 | the id set is exactly the ids of the places |
| ScrapingRules.InBatchDuplicateDispatchedTwice | scraper_core.py:616-624 | a new place listed twice in one search result is dispatched twice |
| ScrapingRules.Subdivide | scraper_core.py:610-612 | children are queued one resolution finer, never above 11 |
| ScrapingRules.QueueShrinks | scraper_core.py:587-613 | replacing the head task by its children (or by nothing) strictly decreases the work left, so the queue always runs dry |
| Manager.PlaceRecord | scraper_core.py:438-446 | the record's keys are the details' keys plus the location and contact columns; those columns hold the cell, location, boundary name, addresses and four link lists, later updates winning; every other detail is unchanged |
| Manager.LocationColumns | scraper_core.py:438 | the first update sets exactly `h3_index`, `search_lat`, `search_lng` and `city`, to the cell, the location and the boundary name |
| Manager.ContactColumns | scraper_core.py:441-446 | the second update sets exactly `emails` and the four platform keys, each to its JSON list |
| Manager.PlatformColumns | scraper_core.py:446 | each platform's column holds that platform's links |
| Manager.PlaceRecordRow | scraper_core.py:446-447 | the row written for a place carries its cell and boundary name, and its `emails` column reads back as the crawl's addresses |
| Manager.ProcessPlace | scraper_core.py:434-447 | no details (or empty ones) give nothing; otherwise the record above, where the website is crawled only when truthy and neither a list nor a dict, the crawl list is duplicate-free, drawn from the candidates, of length `min(max_links, #candidates)`, and the addresses and each platform's links are exactly those of the crawled pages |
| Manager.ResultRowIsPlaceRow | scraper_core.py:629-657 | the row written from looked-up result `i` is the row of the record of place `i`, with the addresses and links of a crawl of that place's site, and sits in the file its address list chose |
| Manager.ScrapingManager.constructor | scraper_core.py:485-507 | zero counters, no rows, no seen ids, a limiter of `max_concurrency` calls per second |
| Manager.ScrapingManager.StopScraping | scraper_core.py:509-510 | sets the stop flag |
| Manager.ScrapingManager.GetStats | scraper_core.py:512-514 | a copy of the counters, in which with + without = processed and each matches the rows written |
| Manager.ScrapingManager.UpdateStats | scraper_core.py:516-520 | the counters become the update of the old ones |
| Manager.ScrapingManager.WriteToCsv | scraper_core.py:522-540 | a successful append adds the row to the chosen file and counts it; a failed one changes nothing |
| Manager.ScrapingManager.ProcessPlaces | scraper_core.py:629-657 | every new row of the with-email file is `RowOf` the record of one of the places, with the addresses and links of a crawl of its site, the addresses non-empty; every new row of the other file likewise with no address; the new rows of each file come from places listed by strictly increasing index (so no place gets two rows, and a place's row goes to one file only), rows are only appended, API calls are unchanged, and nothing is written when the run must already stop on entry |
| Manager.ScrapingManager.MarkSeen | scraper_core.py:623-624 | the dispatched ids join the seen set |
| Manager.ScrapingManager.CountCalls | scraper_core.py:605 | only `api_calls` moves, by the number of requests, and the counters stay balanced |
| Manager.ScrapingManager.SearchTask | scraper_core.py:593-605 | the results are those of the search around the cell's centre, and `api_calls` grows by the number of pages requested |
| Manager.ScrapingManager.DispatchNewPlaces | scraper_core.py:616-627 | the dispatched places are exactly the new ones; their ids join the seen set; `api_calls` is unchanged, rows are only appended, and each new row is the record row of a dispatched place with a crawl's addresses and links, in the file its addresses choose |
| Manager.ScrapingManager.LookUpPlaces | scraper_core.py:631-638 | one result per place and one limiter call per place; result `i` is `None` exactly when place `i`'s details are missing or empty, and otherwise its record, whose addresses and links are exactly those of a crawl of its site (none when the website is not crawled) |
| Manager.ScrapingManager.LookUpPlace | scraper_core.py:633-636 | one place's result: `None` exactly when its details are missing or empty (then no addresses); otherwise its record, with a crawl list of the right size drawn from the site's candidates and exactly the addresses and links of its pages; one limiter call |
| Manager.ScrapingManager.WriteResults | scraper_core.py:640-657 | the new rows of the with-email file are, in order, `RowOf` the details of results listed by strictly increasing index, each with details and addresses; those of the other file likewise of results with details and none; so no result is written twice, rows are only appended, `api_calls` is unchanged, and nothing is written when the run must already stop |
| Manager.ScrapingManager.WriteResult | scraper_core.py:645-654 | a result without details writes nothing; otherwise its `RowOf` row is appended once the append succeeds, to the file `bool(emails)` chooses and to no other, and earlier rows are kept |
| Manager.ScrapingManager.Followups | scraper_core.py:608-613 | a task's follow-ups are one resolution finer and never above 11 |
| Manager.ScrapingManager.ProcessTask | scraper_core.py:591-627 | the requests are counted; a dense task enqueues exactly its children and changes no seen id and no row; otherwise nothing is enqueued, the dispatched places are exactly the new ones, their ids join the seen set, and each new row is the record row of a dispatched place with a crawl's addresses and links |
| Manager.ScrapingManager.ProcessKeywordInBoundary | scraper_core.py:570-627 | the queue loop terminates; the tasks queued are the boundary's cells followed by the follow-ups of each processed task in turn; the tasks processed are the first ones queued, in order; every queued task is processed unless the run must stop; every queued task is between the configured resolution and 11 when that is at most 11; `api_calls` grows by exactly the requests of the processed tasks; seen ids and rows only grow; when the run must already stop on entry, nothing is processed and nothing changes |
| Manager.ScrapingManager.Turn | scraper_core.py:587-613 | one turn of the queue: the head task is processed, its follow-ups go behind the rest, the tasks processed and still queued remain exactly the tasks queued so far and within the resolution bounds, `api_calls` grows by the head task's requests, and the work left strictly shrinks |
| Manager.ScrapingManager.EnqueuedStep | scraper_core.py:610-612 | processing one more task appends exactly its follow-ups to the tasks queued |
| ScrapingRules.RunsStep | scraper_core.py:547-568 | a next run after runs that all finished keeps the runs in order, and if it finishes too, every run has |
| Manager.ScrapingManager.ProcessBoundary | scraper_core.py:558-568 | the keywords are run in order; every run but the last empties its queue; all keywords are run dry unless the run must stop; `api_calls` grows by exactly the requests of every keyword run; seen ids and rows only grow; when the run must already stop on entry (stop flag set or target reached), no keyword is run and nothing changes |
| Manager.ScrapingManager.RunScraping | scraper_core.py:542-556 | the boundaries are visited in order; every visit but the last runs all keywords dry; every boundary is visited and run dry unless the run must stop; `api_calls` grows by exactly the requests of every visit; seen ids and rows only grow; when the run must already stop on entry, no boundary is visited and nothing changes |

## Left out

- HTTP: `fetch_page_advanced` (its three user agents, timeouts and redirects) is a function from a URL to content or failure. The Places endpoints are functions from a request to a response, and `response.json()` failing is not modelled.
- Threads, locks and `threading.Event`: the pools run their work one item after the other, and `as_completed` order is taken as submission order. The stop flag is an ordinary field that nothing sets during a run.
- Shapely geometry, the seed-grid loops and `validate_hexagon_coverage`'s area arithmetic are floating-point geometry over foreign libraries. The two tilings and their coverage are functions the model is given; only the empty-list rule of the coverage is kept.
- H3: `h3_to_children` returns a set in Python. It is modelled as the library's list, in the library's order.
- Regexes, BeautifulSoup and the `urllib`/`tldextract` internals are given as match lists, href lists and parse/split functions.
- Printing and the UI module `job_web.py` are not part of this model.
- Crawler.ScrapeWebsiteData: states which subset of the candidates is crawled only by its size and origin. Python's set order is not modelled, and neither is the (ineffective) contact-first partition.
- Manager.ScrapingManager.ProcessPlaces: states where each written row comes from, but not that every enriched place is written. Each CSV append may fail, and the stop/target check can end the batch at any result.
- Manager.ScrapingManager.ProcessBoundary: nothing sets the stop flag while a run is in progress, so it only stops a run that was stopped before it began (here and in RunScraping and ProcessKeywordInBoundary). The target check between keywords, boundaries and tasks is modelled as written.
- Manager.ProcessPlace: a details `result` that is truthy but not a JSON object is not modelled; details are a map or nothing.
- ScrapingRules.PlaceId: a search result that is not a JSON object reads as having no id. In Python `p.get` would raise and end the run.
- ScrapingRules.NewPlacesExactly: a truthy `place_id` that is a list or an object is dispatched like any other id. In Python the `not in self.existing_place_ids` test raises `TypeError` on an unhashable id, and the exception ends the whole run in `run_scraping`'s `except`. Ids are also compared as JSON values, so `true`, `1` and `1.0` are three ids here, where Python's set holds them as one. The Places API sends every `place_id` as a string, for which both agree.
- Manager.ScrapingManager.constructor: requires `max_concurrency >= 1`, for the limiter below.
- RateLimiting.RateLimiter.WaitIfNeeded: assumes a monotone clock that never falls behind the last recorded call, and a `time.sleep(d)` that moves `time.time()` forward by at least `d`. `time.time()` is the settable wall clock. If it steps back by S seconds, the pruning keeps every old timestamp and the sleep grows to about S + 1 seconds. `WindowNeverExceeded` holds only under the monotone clock.
- RateLimiting.RateLimiter.constructor: requires at least one call per second. With 0, `self.calls[0]` raises on the first call; the UI never passes less than 1.
- Float formatting in `flatten_value` is taken from a stored representation rather than computed.
