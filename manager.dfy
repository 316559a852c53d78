/**
  * `ScrapingManager`: for every boundary and keyword, tile the boundary
  * into H3 cells and work through a FIFO queue of search tasks. A dense
  * cell is replaced by its children; otherwise the places not seen before
  * are looked up, their websites crawled, and one CSV row written per place.
  *
  * The thread pools are modelled as running their work one item after the
  * other, the CSV files as the sequences of rows appended to them, and the
  * services (H3, tiling, Places, the web) as the functions of `Services`.
  */
module Manager {
  import opened Wrappers
  import opened Json
  import opened Extraction
  import opened Crawler
  import opened RateLimiting
  import opened PlacesApi
  import opened Hexagons
  import opened ScrapingRules

  datatype Services = Services(
    h3: H3Lib,
    tiler: Tiler,
    search: SearchRequest -> SearchResponse,
    details: Value -> DetailsResponse,
    web: WebEnv)

  /**
    * The URL `convert_subdomain_to_www` works on: it returns "" for a
    * website that is not a string (a number or a boolean).
    */
  function WebsiteUrl(website: Value): string
  {
    if website.Str? then website.s else ""
  }

  /**
    * Whether `process_place` crawls a website: it must be truthy and
    * hashable. A list or dict makes the `lru_cache` around
    * `convert_subdomain_to_www` raise, and the crawl's `except` then
    * returns no addresses and no links.
    */
  predicate Crawlable(website: Value)
  {
    Truthy(website) && !website.List? && !website.Object?
  }

  /** The keys of the first `update` in `process_place`: where the place was searched for. */
  const LocationKeys: set<string> := {"h3_index", "search_lat", "search_lng", "city"}

  /** The keys of the second `update`: what the crawl found. */
  const ContactKeys: set<string> := {"emails", "facebook", "instagram", "linkedin", "twitter_x"}

  /** The keys `process_place` sets on top of the place's details. */
  const AddedKeys: set<string> := LocationKeys + ContactKeys

  /** No key is set by both updates. */
  lemma KeyGroupsDisjoint()
    ensures LocationKeys !! ContactKeys
  {
  }

  /** The cell, the search location and the boundary name. */
  function LocationColumns(h3Index: string, lat: Value, lng: Value, city: Value): (m: map<string, Value>)
    ensures m.Keys == LocationKeys
    ensures m["h3_index"] == Str(h3Index) && m["search_lat"] == lat && m["search_lng"] == lng && m["city"] == city
  {
    map["h3_index" := Str(h3Index), "search_lat" := lat, "search_lng" := lng, "city" := city]
  }

  /** The crawl's addresses and the links of every platform, each as a JSON list. */
  function ContactColumns(emails: seq<string>, social: SocialLists): (m: map<string, Value>)
    ensures m.Keys == ContactKeys
    ensures m["emails"] == List(Strs(emails))
    ensures forall p :: PlatformKey(p) in m && m[PlatformKey(p)] == List(Strs(social[p]))
  {
    var m := map["emails" := List(Strs(emails)),
      "facebook" := List(Strs(social[Facebook])), "instagram" := List(Strs(social[Instagram])),
      "linkedin" := List(Strs(social[LinkedIn])), "twitter_x" := List(Strs(social[TwitterX]))];
    PlatformColumns(m, social);
    m
  }

  /**
    * The record of a place with details: its details, then the cell, the
    * search location and the boundary name, then the crawl's addresses and
    * links, each as a JSON list. Every other detail is kept as it was.
    */
  function PlaceRecord(d: map<string, Value>, h3Index: string, lat: Value, lng: Value, city: Value,
                       emails: seq<string>, social: SocialLists): (r: map<string, Value>)
    ensures r.Keys == d.Keys + AddedKeys
    ensures forall k :: k in d.Keys - AddedKeys ==> r[k] == d[k]
    ensures forall k :: k in LocationKeys ==> r[k] == LocationColumns(h3Index, lat, lng, city)[k]
    ensures forall k :: k in ContactKeys ==> r[k] == ContactColumns(emails, social)[k]
  {
    var location := LocationColumns(h3Index, lat, lng, city);
    var contact := ContactColumns(emails, social);
    KeyGroupsDisjoint();
    var r := d + location + contact;
    assert forall k :: k in LocationKeys ==> k !in contact && r[k] == location[k];
    r
  }

  /** The four link columns, one per platform, hold that platform's links. */
  lemma PlatformColumns(m: map<string, Value>, social: SocialLists)
    requires "facebook" in m && m["facebook"] == List(Strs(social[Facebook]))
    requires "instagram" in m && m["instagram"] == List(Strs(social[Instagram]))
    requires "linkedin" in m && m["linkedin"] == List(Strs(social[LinkedIn]))
    requires "twitter_x" in m && m["twitter_x"] == List(Strs(social[TwitterX]))
    ensures forall p :: PlatformKey(p) in m && m[PlatformKey(p)] == List(Strs(social[p]))
  {
    forall p: Platform ensures PlatformKey(p) in m && m[PlatformKey(p)] == List(Strs(social[p])) {
      match p
      case Facebook =>
      case Instagram =>
      case LinkedIn =>
      case TwitterX =>
    }
  }

  /**
    * The row written for a place carries the cell, the boundary name as the
    * city when it is a string, and an `emails` text that reads back as the
    * crawl's addresses.
    */
  lemma PlaceRecordRow(d: map<string, Value>, h3Index: string, lat: Value, lng: Value, city: Value,
                       emails: seq<string>, social: SocialLists)
    ensures var row := RowOf(PlaceRecord(d, h3Index, lat, lng, city, emails, social));
      && row["h3_index"] == h3Index
      && (city.Str? ==> row["city"] == city.s)
      && DecodeStringList(row["emails"]) == Some(emails)
  {
    var r := PlaceRecord(d, h3Index, lat, lng, city, emails, social);
    assert "h3_index" in Columns && "city" in Columns;
    EmailsColumnDecodes(r, emails);
  }

  /** A place's `website` detail; a missing one reads as null. */
  function Website(d: map<string, Value>): Value
  {
    if "website" in d then d["website"] else Null
  }

  /** The search location of a task's cell. */
  function Location(env: Services, t: Task): (Value, Value)
  {
    env.h3.center(t.cell)
  }

  /**
    * `process_place`: look the place up; with no details nothing comes
    * back. Otherwise the details get the cell, the search location and the
    * boundary name, the website (when there is one) is crawled, and its
    * addresses and links are stored under `emails` and the platform keys.
    */
  method ProcessPlace(limiter: RateLimiter, clock: Clock, env: Services, placeId: Value, h3Index: string,
                      lat: Value, lng: Value, boundaryName: Value, maxLinks: nat)
    returns (details: Option<map<string, Value>>, emails: seq<string>, ghost social: SocialLists, ghost crawled: seq<string>)
    requires limiter.Valid() && limiter.NotAfter(clock.now)
    modifies limiter, clock
    ensures limiter.Valid() && limiter.NotAfter(clock.now)
    ensures |limiter.history| == |old(limiter.history)| + 1
    ensures var fetched := InterpretDetails(env.details(placeId));
      && (details.None? <==> fetched.None? || fetched.value == map[])
      && (details.None? ==> emails == [])
      && (details.Some? ==> details.value == PlaceRecord(fetched.value, h3Index, lat, lng, boundaryName, emails, social))
      && (details.Some? && !Crawlable(Website(fetched.value)) ==> emails == [] && social == NoSocialLists())
      && (details.Some? && Crawlable(Website(fetched.value)) ==>
            var site := Candidates(WebsiteUrl(Website(fetched.value)), env.web);
            && (site.None? ==> emails == [] && social == NoSocialLists())
            && (site.Some? ==>
                  && Distinct(crawled) && Elements(crawled) <= site.value
                  && |crawled| == (if maxLinks < |site.value| then maxLinks else |site.value|)
                  && Elements(emails) == EmailsOf(crawled, env.web)
                  && forall p :: p in social ==> Elements(social[p]) == SocialOf(crawled, env.web)[p]))
  {
    var fetched := GetPlaceDetails(limiter, clock, env.details, placeId);
    social := NoSocialLists();
    crawled := [];
    if fetched.None? || fetched.value == map[] {
      return None, [], social, crawled;
    }
    var website := Website(fetched.value);
    var links := NoSocialLists();
    emails := [];
    if Crawlable(website) {
      emails, links, crawled := ScrapeWebsiteData(WebsiteUrl(website), maxLinks, env.web);
    }
    social := links;
    details := Some(PlaceRecord(fetched.value, h3Index, lat, lng, boundaryName, emails, links));
  }

  /**
    * The crawl `process_place` makes for a place with details `d`: a website
    * that is not crawled, or whose start fails, gives no addresses and no
    * links; otherwise `crawled` is the crawl list, duplicate-free, drawn
    * from the site's candidates and `min(max_links, #candidates)` long, and
    * the addresses and each platform's links are exactly those its pages yield.
    */
  ghost predicate CrawlOf(web: WebEnv, maxLinks: nat, d: map<string, Value>, crawled: seq<string>,
                          emails: seq<string>, social: SocialLists)
  {
    var site := Candidates(WebsiteUrl(Website(d)), web);
    if !Crawlable(Website(d)) || site.None? then emails == [] && social == NoSocialLists()
    else
      && Distinct(crawled) && Elements(crawled) <= site.value
      && |crawled| == (if maxLinks < |site.value| then maxLinks else |site.value|)
      && Elements(emails) == EmailsOf(crawled, web)
      && forall p :: p in social ==> Elements(social[p]) == SocialOf(crawled, web)[p]
  }

  /** Some crawl of the place's site gives these addresses and links. */
  ghost predicate Crawls(web: WebEnv, maxLinks: nat, d: map<string, Value>, emails: seq<string>, social: SocialLists)
  {
    exists crawled :: CrawlOf(web, maxLinks, d, crawled, emails, social)
  }

  /**
    * What `process_place` returned for a place: nothing without details;
    * else its record, with the addresses and links of the crawl `crawled`.
    */
  ghost predicate LookedUp(env: Services, maxLinks: nat, place: Value, h3Index: string, lat: Value, lng: Value,
                           boundaryName: Value, r: (Option<map<string, Value>>, seq<string>), social: SocialLists,
                           crawled: seq<string>)
  {
    var fetched := InterpretDetails(env.details(PlaceId(place)));
    && (r.0.None? <==> fetched.None? || fetched.value == map[])
    && (r.0.None? ==> r.1 == [])
    && (r.0.Some? ==> r.0.value == PlaceRecord(fetched.value, h3Index, lat, lng, boundaryName, r.1, social))
    && (r.0.Some? ==> CrawlOf(env.web, maxLinks, fetched.value, crawled, r.1, social))
  }

  /**
    * `row` is the row of result `i`, which has details, and whose addresses
    * are non-empty exactly when `hasEmails`.
    */
  ghost predicate ResultRow(row: Row, results: seq<(Option<map<string, Value>>, seq<string>)>, i: int, hasEmails: bool)
  {
    0 <= i < |results| && results[i].0.Some? && (results[i].1 != []) == hasEmails
    && row == RowOf(results[i].0.value)
  }

  /**
    * `row` is the row of the record of place `i`, which has details, with
    * the addresses and links of a crawl of its site; the addresses are
    * non-empty exactly when `hasEmails`.
    */
  ghost predicate PlaceRow(row: Row, env: Services, maxLinks: nat, places: seq<Value>, i: int, h3Index: string,
                           lat: Value, lng: Value, boundaryName: Value, hasEmails: bool)
  {
    && 0 <= i < |places|
    && InterpretDetails(env.details(PlaceId(places[i]))).Some?
    && InterpretDetails(env.details(PlaceId(places[i]))).value != map[]
    && exists emails: seq<string>, social: SocialLists ::
      && (emails != []) == hasEmails
      && Crawls(env.web, maxLinks, InterpretDetails(env.details(PlaceId(places[i]))).value, emails, social)
      && row == RowOf(PlaceRecord(InterpretDetails(env.details(PlaceId(places[i]))).value, h3Index, lat, lng,
                                  boundaryName, emails, social))
  }

  /** `row` is the row of the record of one of `places`, as `PlaceRow` says. */
  ghost predicate RowOfPlace(row: Row, env: Services, maxLinks: nat, places: seq<Value>, h3Index: string,
                             lat: Value, lng: Value, boundaryName: Value, hasEmails: bool)
  {
    exists i :: PlaceRow(row, env, maxLinks, places, i, h3Index, lat, lng, boundaryName, hasEmails)
  }

  /** Indices listed in strictly increasing order, so none twice. */
  ghost predicate Increasing(s: seq<int>)
  {
    forall j, k :: 0 <= j < k < |s| ==> s[j] < s[k]
  }

  /** Every index listed is below `bound`. */
  ghost predicate Below(s: seq<int>, bound: int)
  {
    forall j :: 0 <= j < |s| ==> s[j] < bound
  }

  /**
    * The rows of a file from index `from` on are the rows of the results
    * `idx` lists, in increasing order, all with or all without addresses.
    */
  ghost predicate ResultRows(rows: seq<Row>, from: nat, results: seq<(Option<map<string, Value>>, seq<string>)>,
                             idx: seq<int>, hasEmails: bool)
  {
    && |rows| == from + |idx| && Increasing(idx)
    && forall j :: 0 <= j < |idx| ==> ResultRow(rows[from + j], results, idx[j], hasEmails)
  }

  /**
    * The rows of a file from index `from` on are the record rows of the
    * places `idx` lists, in increasing order, as `PlaceRow` says.
    */
  ghost predicate PlaceRows(rows: seq<Row>, from: nat, env: Services, maxLinks: nat, places: seq<Value>, idx: seq<int>,
                            h3Index: string, lat: Value, lng: Value, boundaryName: Value, hasEmails: bool)
  {
    && |rows| == from + |idx| && Increasing(idx)
    && forall j :: 0 <= j < |idx| ==> PlaceRow(rows[from + j], env, maxLinks, places, idx[j], h3Index, lat, lng, boundaryName, hasEmails)
  }

  /** Appending the row of a later result keeps the listing. */
  lemma ResultRowsAppend(rows: seq<Row>, from: nat, results: seq<(Option<map<string, Value>>, seq<string>)>,
                         idx: seq<int>, i: int, hasEmails: bool)
    requires ResultRows(rows, from, results, idx, hasEmails) && Below(idx, i)
    requires 0 <= i < |results| && results[i].0.Some? && (results[i].1 != []) == hasEmails
    ensures ResultRows(rows + [RowOf(results[i].0.value)], from, results, idx + [i], hasEmails)
    ensures Below(idx + [i], i + 1)
  {
    var rows', idx' := rows + [RowOf(results[i].0.value)], idx + [i];
    forall j | 0 <= j < |idx'| ensures ResultRow(rows'[from + j], results, idx'[j], hasEmails) {
      if j < |idx| {
        assert rows'[from + j] == rows[from + j];
      }
    }
  }

  /** The row of looked-up result `i` is the row of the record of place `i`. */
  lemma ResultRowIsPlaceRow(row: Row, env: Services, maxLinks: nat, places: seq<Value>, h3Index: string,
                            lat: Value, lng: Value, boundaryName: Value,
                            results: seq<(Option<map<string, Value>>, seq<string>)>,
                            socials: seq<SocialLists>, crawls: seq<seq<string>>, i: int, hasEmails: bool)
    requires |results| == |places| && |socials| == |places| && |crawls| == |places|
    requires 0 <= i < |places|
    requires LookedUp(env, maxLinks, places[i], h3Index, lat, lng, boundaryName, results[i], socials[i], crawls[i])
    requires ResultRow(row, results, i, hasEmails)
    ensures PlaceRow(row, env, maxLinks, places, i, h3Index, lat, lng, boundaryName, hasEmails)
  {
    var emails, social := results[i].1, socials[i];
    var d := InterpretDetails(env.details(PlaceId(places[i]))).value;
    assert CrawlOf(env.web, maxLinks, d, crawls[i], emails, social);
    assert Crawls(env.web, maxLinks, d, emails, social);
    assert row == RowOf(PlaceRecord(d, h3Index, lat, lng, boundaryName, emails, social));
  }

  /** The rows written from looked-up results are the record rows of their places. */
  lemma ResultRowsArePlaceRows(rows: seq<Row>, from: nat, env: Services, maxLinks: nat, places: seq<Value>,
                               h3Index: string, lat: Value, lng: Value, boundaryName: Value,
                               results: seq<(Option<map<string, Value>>, seq<string>)>,
                               socials: seq<SocialLists>, crawls: seq<seq<string>>, idx: seq<int>, hasEmails: bool)
    requires |results| == |places| && |socials| == |places| && |crawls| == |places|
    requires forall i :: 0 <= i < |places| ==>
      LookedUp(env, maxLinks, places[i], h3Index, lat, lng, boundaryName, results[i], socials[i], crawls[i])
    requires ResultRows(rows, from, results, idx, hasEmails)
    ensures PlaceRows(rows, from, env, maxLinks, places, idx, h3Index, lat, lng, boundaryName, hasEmails)
  {
    forall j | 0 <= j < |idx|
      ensures PlaceRow(rows[from + j], env, maxLinks, places, idx[j], h3Index, lat, lng, boundaryName, hasEmails)
    {
      ResultRowIsPlaceRow(rows[from + j], env, maxLinks, places, h3Index, lat, lng, boundaryName,
                          results, socials, crawls, idx[j], hasEmails);
    }
  }

  /** Each row listed is the record row of one of the places. */
  lemma PlaceRowsOfPlaces(rows: seq<Row>, from: nat, env: Services, maxLinks: nat, places: seq<Value>, idx: seq<int>,
                          h3Index: string, lat: Value, lng: Value, boundaryName: Value, hasEmails: bool)
    requires PlaceRows(rows, from, env, maxLinks, places, idx, h3Index, lat, lng, boundaryName, hasEmails)
    ensures forall j :: from <= j < |rows| ==> RowOfPlace(rows[j], env, maxLinks, places, h3Index, lat, lng, boundaryName, hasEmails)
  {
    forall j | from <= j < |rows|
      ensures RowOfPlace(rows[j], env, maxLinks, places, h3Index, lat, lng, boundaryName, hasEmails)
    {
      assert PlaceRow(rows[from + (j - from)], env, maxLinks, places, idx[j - from], h3Index, lat, lng, boundaryName, hasEmails);
    }
  }

  class ScrapingManager {
    const boundaries: seq<Boundary>
    const keywords: seq<string>
    const businessType: string
    const h3Resolution: int
    const targetResults: int
    const maxLinks: nat
    const env: Services
    const rateLimiter: RateLimiter
    const clock: Clock

    var stopFlag: bool
    var existingPlaceIds: set<Value>
    var stats: map<string, int>
    /** The rows appended to the file of places with an address. */
    var rowsWithEmails: seq<Row>
    /** The rows appended to the file of places without one. */
    var rowsWithoutEmails: seq<Row>

    /** The counters agree with the rows written, and the shared limiter is sound. */
    ghost predicate Valid()
      reads this, rateLimiter, clock
    {
      && rateLimiter.Valid() && rateLimiter.NotAfter(clock.now)
      && Balanced(stats)
      && stats[WithEmail] == |rowsWithEmails|
      && stats[WithoutEmail] == |rowsWithoutEmails|
    }

    /**
      * The limiter allows `max_concurrency` requests per second. At least one
      * is required here: with 0, `wait_if_needed` raises at its first call.
      */
    constructor (boundaries: seq<Boundary>, keywords: seq<string>, businessType: string, h3Resolution: int,
                 targetResults: int, maxConcurrency: int, maxLinks: nat, env: Services, clock: Clock)
      requires maxConcurrency >= 1
      ensures Valid()
      ensures this.boundaries == boundaries && this.keywords == keywords && this.businessType == businessType
      ensures this.h3Resolution == h3Resolution && this.targetResults == targetResults && this.maxLinks == maxLinks
      ensures this.env == env && this.clock == clock
      ensures fresh(rateLimiter) && rateLimiter.maxCallsPerSecond == maxConcurrency
      ensures !stopFlag && existingPlaceIds == {} && stats == InitialStats()
      ensures rowsWithEmails == [] && rowsWithoutEmails == []
    {
      this.boundaries := boundaries;
      this.keywords := keywords;
      this.businessType := businessType;
      this.h3Resolution := h3Resolution;
      this.targetResults := targetResults;
      this.maxLinks := maxLinks;
      this.env := env;
      this.clock := clock;
      rateLimiter := new RateLimiter(maxConcurrency);
      stopFlag := false;
      existingPlaceIds := {};
      stats := InitialStats();
      rowsWithEmails := [];
      rowsWithoutEmails := [];
      InitialStatsBalanced();
    }

    /** `stop_scraping`. */
    method StopScraping()
      modifies this`stopFlag
      ensures stopFlag
    {
      stopFlag := true;
    }

    /** `get_stats`: a copy of the counters, which always balance. */
    method GetStats() returns (s: map<string, int>)
      requires Valid()
      ensures s == stats
      ensures s.Keys == StatKeys && s[WithEmail] + s[WithoutEmail] == s[PlacesProcessed]
      ensures s[WithEmail] == |rowsWithEmails| && s[WithoutEmail] == |rowsWithoutEmails|
    {
      s := stats;
    }

    /** `update_stats(**kwargs)`: add each value to its counter, ignoring unknown keys. */
    method UpdateStats(updates: seq<(string, int)>)
      modifies this`stats
      ensures stats == AddStats(old(stats), updates)
    {
      for i := 0 to |updates|
        invariant stats == AddStats(old(stats), updates[..i])
      {
        assert updates[..i + 1][..i] == updates[..i];
        var (key, value) := updates[i];
        if key in stats {
          stats := stats[key := stats[key] + value];
        }
      }
      assert updates[..|updates|] == updates;
    }

    /** Whether the run must stop: asked to, or enough places with an address. */
    predicate Done()
      reads this
      requires WithEmail in stats
    {
      stopFlag || stats[WithEmail] >= targetResults
    }

    /**
      * `write_to_csv`: append the row to the file of places with or
      * without an address; when the append succeeds, count the place.
      * A failed append changes nothing.
      */
    method WriteToCsv(row: Row, hasEmails: bool) returns (ghost written: bool)
      requires Valid()
      modifies this`stats, this`rowsWithEmails, this`rowsWithoutEmails
      ensures Valid()
      ensures written ==> stats == RecordRow(old(stats), hasEmails)
      ensures stats[ApiCalls] == old(stats[ApiCalls])
      ensures written ==> rowsWithEmails == old(rowsWithEmails) + (if hasEmails then [row] else [])
      ensures written ==> rowsWithoutEmails == old(rowsWithoutEmails) + (if hasEmails then [] else [row])
      ensures !written ==> stats == old(stats) && rowsWithEmails == old(rowsWithEmails) && rowsWithoutEmails == old(rowsWithoutEmails)
    {
      var appended: bool := *;  // whether opening and appending to the file succeeded
      written := appended;
      if appended {
        if hasEmails {
          rowsWithEmails := rowsWithEmails + [row];
        } else {
          rowsWithoutEmails := rowsWithoutEmails + [row];
        }
        RecordRowCounts(stats, hasEmails);
        UpdateStats([(EmailKey(hasEmails), 1)]);
        UpdateStats([(PlacesProcessed, 1)]);
      }
    }

    /**
      * The pool of `process_places`: every place is looked up and crawled,
      * one limiter call per place for its details.
      */
    method LookUpPlaces(places: seq<Value>, h3Index: string, lat: Value, lng: Value, boundaryName: Value)
      returns (results: seq<(Option<map<string, Value>>, seq<string>)>, ghost socials: seq<SocialLists>,
               ghost crawls: seq<seq<string>>)
      requires Valid()
      modifies rateLimiter, clock
      ensures Valid()
      ensures |results| == |places| && |socials| == |places| && |crawls| == |places|
      ensures forall i :: 0 <= i < |places| ==>
        LookedUp(env, maxLinks, places[i], h3Index, lat, lng, boundaryName, results[i], socials[i], crawls[i])
      ensures |rateLimiter.history| == |old(rateLimiter.history)| + |places|
    {
      results := [];
      socials := [];
      crawls := [];
      for i := 0 to |places|
        invariant Valid() && |results| == i && |socials| == i && |crawls| == i
        invariant forall k :: 0 <= k < i ==>
          LookedUp(env, maxLinks, places[k], h3Index, lat, lng, boundaryName, results[k], socials[k], crawls[k])
        invariant |rateLimiter.history| == |old(rateLimiter.history)| + i
      {
        var r;
        ghost var social, crawled;
        r, social, crawled := LookUpPlace(places[i], h3Index, lat, lng, boundaryName);
        results := results + [r];
        socials := socials + [social];
        crawls := crawls + [crawled];
      }
    }

    /** One task of the pool: `process_place` for one place, with the manager's limiter and crawl size. */
    method LookUpPlace(place: Value, h3Index: string, lat: Value, lng: Value, boundaryName: Value)
      returns (r: (Option<map<string, Value>>, seq<string>), ghost social: SocialLists, ghost crawled: seq<string>)
      requires Valid()
      modifies rateLimiter, clock
      ensures Valid()
      ensures LookedUp(env, maxLinks, place, h3Index, lat, lng, boundaryName, r, social, crawled)
      ensures |rateLimiter.history| == |old(rateLimiter.history)| + 1
    {
      var details, emails;
      details, emails, social, crawled := ProcessPlace(rateLimiter, clock, env, PlaceId(place), h3Index, lat, lng, boundaryName, maxLinks);
      r := (details, emails);
    }

    /**
      * The results of the pool taken one by one until the run must stop:
      * each result with details gets its row, in the file its addresses
      * choose. `withIdx` and `withoutIdx` list, in increasing order, the
      * results whose rows were appended to either file, so no result is
      * written twice.
      */
    method WriteResults(results: seq<(Option<map<string, Value>>, seq<string>)>)
      returns (ghost withIdx: seq<int>, ghost withoutIdx: seq<int>)
      requires Valid()
      modifies this`stats, this`rowsWithEmails, this`rowsWithoutEmails
      ensures Valid()
      ensures stats[ApiCalls] == old(stats[ApiCalls])
      ensures old(rowsWithEmails) <= rowsWithEmails && old(rowsWithoutEmails) <= rowsWithoutEmails
      ensures ResultRows(rowsWithEmails, |old(rowsWithEmails)|, results, withIdx, true)
      ensures ResultRows(rowsWithoutEmails, |old(rowsWithoutEmails)|, results, withoutIdx, false)
      ensures old(Done()) ==> stats == old(stats) && rowsWithEmails == old(rowsWithEmails) && rowsWithoutEmails == old(rowsWithoutEmails)
    {
      withIdx, withoutIdx := [], [];
      for i := 0 to |results|
        invariant Valid()
        invariant stats[ApiCalls] == old(stats[ApiCalls])
        invariant old(Done()) ==> stats == old(stats) && rowsWithEmails == old(rowsWithEmails) && rowsWithoutEmails == old(rowsWithoutEmails)
        invariant old(rowsWithEmails) <= rowsWithEmails && old(rowsWithoutEmails) <= rowsWithoutEmails
        invariant ResultRows(rowsWithEmails, |old(rowsWithEmails)|, results, withIdx, true) && Below(withIdx, i)
        invariant ResultRows(rowsWithoutEmails, |old(rowsWithoutEmails)|, results, withoutIdx, false) && Below(withoutIdx, i)
      {
        if Done() {
          break;
        }
        ghost var withRows, withoutRows := rowsWithEmails, rowsWithoutEmails;
        ghost var written := WriteResult(results, i);
        if written && results[i].1 != [] {
          ResultRowsAppend(withRows, |old(rowsWithEmails)|, results, withIdx, i, true);
          withIdx := withIdx + [i];
        } else if written {
          ResultRowsAppend(withoutRows, |old(rowsWithoutEmails)|, results, withoutIdx, i, false);
          withoutIdx := withoutIdx + [i];
        }
      }
    }

    /**
      * One result of the pool: with details, its row may be appended to the
      * file its addresses choose (when the append succeeds); nothing else
      * is written.
      */
    method WriteResult(results: seq<(Option<map<string, Value>>, seq<string>)>, i: nat) returns (ghost written: bool)
      requires Valid() && i < |results|
      modifies this`stats, this`rowsWithEmails, this`rowsWithoutEmails
      ensures Valid()
      ensures stats[ApiCalls] == old(stats[ApiCalls])
      ensures written ==> results[i].0.Some?
      ensures rowsWithEmails == old(rowsWithEmails) +
        (if written && results[i].1 != [] then [RowOf(results[i].0.value)] else [])
      ensures rowsWithoutEmails == old(rowsWithoutEmails) +
        (if written && results[i].1 == [] then [RowOf(results[i].0.value)] else [])
    {
      var (details, emails) := results[i];
      if details.None? {
        return false;
      }
      var row := RowOf(details.value);
      written := WriteToCsv(row, emails != []);
    }

    /**
      * `process_places`: look every place up, then write the rows. `withIdx`
      * and `withoutIdx` list, in increasing order, the places whose rows
      * were appended to either file, so no place is written twice.
      */
    method ProcessPlaces(places: seq<Value>, h3Index: string, lat: Value, lng: Value, boundaryName: Value)
      returns (ghost withIdx: seq<int>, ghost withoutIdx: seq<int>)
      requires Valid()
      modifies this`stats, this`rowsWithEmails, this`rowsWithoutEmails, rateLimiter, clock
      ensures Valid()
      ensures |rateLimiter.history| == |old(rateLimiter.history)| + |places|
      ensures stats[ApiCalls] == old(stats[ApiCalls])
      ensures old(rowsWithEmails) <= rowsWithEmails && old(rowsWithoutEmails) <= rowsWithoutEmails
      ensures PlaceRows(rowsWithEmails, |old(rowsWithEmails)|, env, maxLinks, places, withIdx, h3Index, lat, lng, boundaryName, true)
      ensures PlaceRows(rowsWithoutEmails, |old(rowsWithoutEmails)|, env, maxLinks, places, withoutIdx, h3Index, lat, lng, boundaryName, false)
      ensures old(Done()) ==> stats == old(stats) && rowsWithEmails == old(rowsWithEmails) && rowsWithoutEmails == old(rowsWithoutEmails)
    {
      var results, socials, crawls := LookUpPlaces(places, h3Index, lat, lng, boundaryName);
      withIdx, withoutIdx := WriteResults(results);
      ResultRowsArePlaceRows(rowsWithEmails, |old(rowsWithEmails)|, env, maxLinks, places, h3Index, lat, lng, boundaryName,
                             results, socials, crawls, withIdx, true);
      ResultRowsArePlaceRows(rowsWithoutEmails, |old(rowsWithoutEmails)|, env, maxLinks, places, h3Index, lat, lng, boundaryName,
                             results, socials, crawls, withoutIdx, false);
    }

    /** The ids of places about to be dispatched join the ids seen. */
    method MarkSeen(places: seq<Value>)
      modifies this`existingPlaceIds
      ensures existingPlaceIds == old(existingPlaceIds) + Ids(places)
    {
      for i := 0 to |places|
        invariant existingPlaceIds == old(existingPlaceIds) + Ids(places[..i])
      {
        assert Ids(places[..i + 1]) == Ids(places[..i]) + {PlaceId(places[i])} by {
          assert places[..i + 1] == places[..i] + [places[i]];
        }
        existingPlaceIds := existingPlaceIds + {PlaceId(places[i])};
      }
      assert places[..|places|] == places;
    }

    /** The search a task makes. */
    function TaskQuery(query: string, t: Task): SearchQuery
    {
      var (lat, lng) := Location(env, t);
      SearchQuery(query, businessType, lat, lng, SearchRadius(t.res))
    }

    /** The results of a task's search. */
    function TaskResults(query: string, t: Task): seq<Value>
    {
      AllResults(Pages(env.search, TaskQuery(query, t), Null, MaxPages))
    }

    /** How many search requests a task makes. */
    function TaskCalls(query: string, t: Task): nat
    {
      |Pages(env.search, TaskQuery(query, t), Null, MaxPages)|
    }

    /** Whether a task's cell is too dense to search in one go. */
    predicate TaskIsDense(query: string, t: Task)
    {
      Dense(|TaskResults(query, t)|, t.res)
    }

    /** What a task puts back on the queue: its children when dense, else nothing. */
    function Followups(query: string, t: Task): (r: seq<Task>)
      ensures forall c :: c in r ==> c.res == t.res + 1 && c.res <= MaxH3Resolution
    {
      if TaskIsDense(query, t) then Subdivide(env.h3, t) else []
    }

    /** The search requests the tasks `processed` made, in all. */
    function CallsOf(query: string, processed: seq<Task>): nat
    {
      if processed == [] then 0
      else CallsOf(query, processed[..|processed| - 1]) + TaskCalls(query, processed[|processed| - 1])
    }

    /** The search requests of the keyword runs `runs` on a boundary, in all. */
    function KeywordCalls(runs: seq<seq<Task>>): nat
    {
      if runs == [] then 0
      else
        var last := if |runs| <= |keywords| then CallsOf(keywords[|runs| - 1], runs[|runs| - 1]) else 0;
        KeywordCalls(runs[..|runs| - 1]) + last
    }

    /** The search requests of the boundary visits `visits`, in all. */
    function BoundaryCalls(visits: seq<seq<seq<Task>>>): nat
    {
      if visits == [] then 0 else BoundaryCalls(visits[..|visits| - 1]) + KeywordCalls(visits[|visits| - 1])
    }

    /** `update_stats(api_calls=...)`: only the request counter moves. */
    method CountCalls(calls: nat)
      requires Valid()
      modifies this`stats
      ensures Valid()
      ensures stats == old(stats)[ApiCalls := old(stats[ApiCalls]) + calls]
    {
      CountCallsKeepsBalance(stats, calls);
      AddStatsOne(stats, ApiCalls, calls);
      UpdateStats([(ApiCalls, calls)]);
    }

    /** A task's search around its cell's centre; its requests are added to the `api_calls` counter. */
    method SearchTask(query: string, t: Task) returns (results: seq<Value>)
      requires Valid()
      modifies this`stats, rateLimiter, clock
      ensures Valid()
      ensures results == TaskResults(query, t)
      ensures stats[ApiCalls] == old(stats[ApiCalls]) + TaskCalls(query, t)
    {
      var results', apiCalls := GetAllPlaceIdsForHex(rateLimiter, clock, env.search, TaskQuery(query, t));
      CountCalls(apiCalls);
      results := results';
    }

    /**
      * The places of a search not seen before, which have a `place_id`, are
      * marked as seen and then processed; nothing happens when there are none.
      */
    method DispatchNewPlaces(results: seq<Value>, h3Index: string, lat: Value, lng: Value, boundaryName: Value)
      returns (ghost dispatched: seq<Value>)
      requires Valid()
      modifies this`stats, this`rowsWithEmails, this`rowsWithoutEmails, this`existingPlaceIds, rateLimiter, clock
      ensures Valid()
      ensures dispatched == NewPlaces(results, old(existingPlaceIds))
      ensures existingPlaceIds == old(existingPlaceIds) + Ids(dispatched)
      ensures stats[ApiCalls] == old(stats[ApiCalls])
      ensures old(rowsWithEmails) <= rowsWithEmails && old(rowsWithoutEmails) <= rowsWithoutEmails
      ensures forall j :: |old(rowsWithEmails)| <= j < |rowsWithEmails| ==>
        RowOfPlace(rowsWithEmails[j], env, maxLinks, dispatched, h3Index, lat, lng, boundaryName, true)
      ensures forall j :: |old(rowsWithoutEmails)| <= j < |rowsWithoutEmails| ==>
        RowOfPlace(rowsWithoutEmails[j], env, maxLinks, dispatched, h3Index, lat, lng, boundaryName, false)
    {
      var unique := NewPlaces(results, existingPlaceIds);
      dispatched := unique;
      if unique == [] {
        return;
      }
      MarkSeen(unique);
      ghost var withIdx, withoutIdx := ProcessPlaces(unique, h3Index, lat, lng, boundaryName);
      PlaceRowsOfPlaces(rowsWithEmails, |old(rowsWithEmails)|, env, maxLinks, unique, withIdx, h3Index, lat, lng, boundaryName, true);
      PlaceRowsOfPlaces(rowsWithoutEmails, |old(rowsWithoutEmails)|, env, maxLinks, unique, withoutIdx, h3Index, lat, lng, boundaryName, false);
    }

    /**
      * One turn of the queue loop. The search's requests are counted.
      * A dense task is replaced by its children and nothing else happens;
      * otherwise the new places are marked as seen before they are
      * dispatched, and nothing is enqueued.
      */
    method ProcessTask(query: string, t: Task, boundaryName: Value) returns (next: seq<Task>, ghost dispatched: seq<Value>)
      requires Valid()
      modifies this`stats, this`rowsWithEmails, this`rowsWithoutEmails, this`existingPlaceIds, rateLimiter, clock
      ensures Valid()
      ensures stats[ApiCalls] == old(stats[ApiCalls]) + TaskCalls(query, t)
      ensures next == Followups(query, t)
      ensures TaskIsDense(query, t) ==>
        && dispatched == []
        && existingPlaceIds == old(existingPlaceIds)
        && rowsWithEmails == old(rowsWithEmails) && rowsWithoutEmails == old(rowsWithoutEmails)
      ensures !TaskIsDense(query, t) ==>
        && dispatched == NewPlaces(TaskResults(query, t), old(existingPlaceIds))
        && existingPlaceIds == old(existingPlaceIds) + Ids(dispatched)
      ensures forall p :: p in dispatched ==> PlaceId(p) in existingPlaceIds
      ensures old(existingPlaceIds) <= existingPlaceIds
      ensures old(rowsWithEmails) <= rowsWithEmails && old(rowsWithoutEmails) <= rowsWithoutEmails
      ensures forall j :: |old(rowsWithEmails)| <= j < |rowsWithEmails| ==>
        RowOfPlace(rowsWithEmails[j], env, maxLinks, dispatched, t.cell, Location(env, t).0, Location(env, t).1, boundaryName, true)
      ensures forall j :: |old(rowsWithoutEmails)| <= j < |rowsWithoutEmails| ==>
        RowOfPlace(rowsWithoutEmails[j], env, maxLinks, dispatched, t.cell, Location(env, t).0, Location(env, t).1, boundaryName, false)
    {
      var (lat, lng) := Location(env, t);
      var results := SearchTask(query, t);
      if |results| >= DensityThreshold && t.res < MaxH3Resolution {
        return Subdivide(env.h3, t), [];
      }
      next := [];
      dispatched := DispatchNewPlaces(results, t.cell, lat, lng, boundaryName);
    }

    /** The tasks a boundary starts with: its cells at the configured resolution. */
    function InitialTasks(boundary: Boundary): seq<Task>
    {
      TasksOf(GenerateHexagons(boundary.geometry, h3Resolution, env.tiler), h3Resolution)
    }

    /**
      * Every task queued for a keyword once the tasks `processed` have been
      * taken off the queue in turn: the boundary's cells, then the
      * follow-ups of each processed task, in order.
      */
    function Enqueued(boundary: Boundary, query: string, processed: seq<Task>): seq<Task>
    {
      if processed == [] then InitialTasks(boundary)
      else Enqueued(boundary, query, processed[..|processed| - 1]) + Followups(query, processed[|processed| - 1])
    }

    /** The queue is first-in first-out: the tasks processed are the first ones queued, in order. */
    ghost predicate Explored(boundary: Boundary, query: string, processed: seq<Task>)
    {
      processed <= Enqueued(boundary, query, processed)
    }

    /** Every task queued for the keyword was processed: the queue ran dry. */
    ghost predicate Exhausted(boundary: Boundary, query: string, processed: seq<Task>)
    {
      processed == Enqueued(boundary, query, processed)
    }

    /** Whether a keyword's run on the boundary took its tasks off the queue in order. */
    ghost function ExploredOn(boundary: Boundary): (string, seq<Task>) -> bool
    {
      (query, processed) => Explored(boundary, query, processed)
    }

    /** Whether a keyword's run on the boundary emptied the queue. */
    ghost function ExhaustedOn(boundary: Boundary): (string, seq<Task>) -> bool
    {
      (query, processed) => Exhausted(boundary, query, processed)
    }

    /** The keywords run on a boundary so far, in order: every run but the last emptied its queue. */
    ghost predicate KeywordRuns(boundary: Boundary, runs: seq<seq<Task>>)
    {
      RunsInOrder(keywords, runs, ExploredOn(boundary), ExhaustedOn(boundary))
    }

    /** Every keyword was run on the boundary until its queue ran dry. */
    ghost predicate BoundaryExhausted(boundary: Boundary, runs: seq<seq<Task>>)
    {
      AllExhausted(keywords, runs, ExhaustedOn(boundary))
    }

    /** Whether a boundary's keyword runs were made in order. */
    ghost function KeywordsRun(): (Boundary, seq<seq<Task>>) -> bool
    {
      (b, runs) => KeywordRuns(b, runs)
    }

    /** Whether every keyword was run dry on a boundary. */
    ghost function KeywordsExhausted(): (Boundary, seq<seq<Task>>) -> bool
    {
      (b, runs) => BoundaryExhausted(b, runs)
    }

    /** The boundaries visited so far, in order: every visit but the last ran all keywords dry. */
    ghost predicate BoundaryRuns(visits: seq<seq<seq<Task>>>)
    {
      RunsInOrder(boundaries, visits, KeywordsRun(), KeywordsExhausted())
    }

    /** Every boundary was visited and every keyword run dry on it. */
    ghost predicate EveryBoundaryExhausted(visits: seq<seq<seq<Task>>>)
    {
      AllExhausted(boundaries, visits, KeywordsExhausted())
    }

    /**
      * `process_keyword_in_boundary`: queue the boundary's cells at the
      * configured resolution and work through the queue, first in first
      * out, until it is empty or the run must stop. Every task ever queued
      * lies between the configured resolution and 11 when the configured
      * one is at most 11.
      */
    method ProcessKeywordInBoundary(boundary: Boundary, query: string)
      returns (ghost queued: seq<Task>, ghost processed: seq<Task>)
      requires Valid()
      modifies this`stats, this`rowsWithEmails, this`rowsWithoutEmails, this`existingPlaceIds, rateLimiter, clock
      ensures Valid()
      ensures old(existingPlaceIds) <= existingPlaceIds
      ensures old(rowsWithEmails) <= rowsWithEmails && old(rowsWithoutEmails) <= rowsWithoutEmails
      ensures queued == Enqueued(boundary, query, processed)
      ensures Explored(boundary, query, processed)
      ensures Exhausted(boundary, query, processed) || Done()
      ensures stats[ApiCalls] == old(stats[ApiCalls]) + CallsOf(query, processed)
      ensures h3Resolution <= MaxH3Resolution ==> forall t :: t in queued ==> h3Resolution <= t.res <= MaxH3Resolution
      ensures old(Done()) ==> processed == []
      ensures old(Done()) ==> stats == old(stats) && existingPlaceIds == old(existingPlaceIds) && rowsWithEmails == old(rowsWithEmails) && rowsWithoutEmails == old(rowsWithoutEmails)
    {
      var initial := GenerateHexagons(boundary.geometry, h3Resolution, env.tiler);
      queued := [];
      processed := [];
      if initial == [] {
        return;
      }
      var queue := TasksOf(initial, h3Resolution);
      while queue != [] && !stopFlag
        invariant Valid()
        invariant old(existingPlaceIds) <= existingPlaceIds
        invariant old(rowsWithEmails) <= rowsWithEmails && old(rowsWithoutEmails) <= rowsWithoutEmails
        invariant QueueAfter(boundary, query, processed, queue)
        invariant stats[ApiCalls] == old(stats[ApiCalls]) + CallsOf(query, processed)
        invariant old(Done()) ==> processed == []
        invariant processed == [] ==> stats == old(stats) && existingPlaceIds == old(existingPlaceIds) && rowsWithEmails == old(rowsWithEmails) && rowsWithoutEmails == old(rowsWithoutEmails)
        decreases QueueMeasure(env.h3, queue)
      {
        if stats[WithEmail] >= targetResults {
          break;
        }
        queue, processed := Turn(boundary, query, queue, processed, old(stats[ApiCalls]));
      }
      queued := processed + queue;
    }

    /**
      * The queue of a keyword once the tasks `processed` have been taken
      * off it: the two together are every task queued so far, each between
      * the configured resolution and 11 when the configured one is at most 11.
      */
    ghost predicate QueueAfter(boundary: Boundary, query: string, processed: seq<Task>, queue: seq<Task>)
    {
      && processed + queue == Enqueued(boundary, query, processed)
      && (h3Resolution <= MaxH3Resolution ==>
            forall t :: t in processed + queue ==> h3Resolution <= t.res <= MaxH3Resolution)
    }

    /**
      * One turn of the queue loop: the head task is processed, and its
      * follow-ups are queued behind the rest. The work left shrinks.
      */
    method Turn(boundary: Boundary, query: string, queue: seq<Task>, ghost processed: seq<Task>, ghost calls0: int)
      returns (queue': seq<Task>, ghost processed': seq<Task>)
      requires Valid() && queue != []
      requires QueueAfter(boundary, query, processed, queue)
      requires stats[ApiCalls] == calls0 + CallsOf(query, processed)
      modifies this`stats, this`rowsWithEmails, this`rowsWithoutEmails, this`existingPlaceIds, rateLimiter, clock
      ensures Valid()
      ensures old(existingPlaceIds) <= existingPlaceIds
      ensures old(rowsWithEmails) <= rowsWithEmails && old(rowsWithoutEmails) <= rowsWithoutEmails
      ensures stats[ApiCalls] == old(stats[ApiCalls]) + TaskCalls(query, queue[0])
      ensures stats[ApiCalls] == calls0 + CallsOf(query, processed')
      ensures processed' == processed + [queue[0]]
      ensures queue' == queue[1..] + Followups(query, queue[0])
      ensures QueueAfter(boundary, query, processed', queue')
      ensures QueueMeasure(env.h3, queue') < QueueMeasure(env.h3, queue)
    {
      var t := queue[0];
      var next;
      ghost var dispatched;
      next, dispatched := ProcessTask(query, t, boundary.name);
      QueueShrinks(env.h3, queue, TaskIsDense(query, t));
      EnqueuedStep(boundary, query, processed, t);
      CallsStep(query, processed, t);
      queue' := queue[1..] + next;
      processed' := processed + [t];
      MoveHead(processed, queue, next);
      assert t in processed + queue;
    }

    /** Taking one more task off the queue appends its follow-ups. */
    lemma {:induction false} EnqueuedStep(boundary: Boundary, query: string, processed: seq<Task>, t: Task)
      ensures Enqueued(boundary, query, processed + [t]) == Enqueued(boundary, query, processed) + Followups(query, t)
    {
      assert (processed + [t])[..|processed|] == processed;
    }

    /** Taking one more task off the queue adds its requests. */
    lemma {:induction false} CallsStep(query: string, processed: seq<Task>, t: Task)
      ensures CallsOf(query, processed + [t]) == CallsOf(query, processed) + TaskCalls(query, t)
    {
      assert (processed + [t])[..|processed|] == processed;
    }

    /** One more keyword run adds its requests. */
    lemma {:induction false} KeywordCallsStep(runs: seq<seq<Task>>, processed: seq<Task>)
      requires |runs| < |keywords|
      ensures KeywordCalls(runs + [processed]) == KeywordCalls(runs) + CallsOf(keywords[|runs|], processed)
    {
      assert (runs + [processed])[..|runs|] == runs;
    }

    /** One more boundary visit adds its requests. */
    lemma {:induction false} BoundaryCallsStep(visits: seq<seq<seq<Task>>>, runs: seq<seq<Task>>)
      ensures BoundaryCalls(visits + [runs]) == BoundaryCalls(visits) + KeywordCalls(runs)
    {
      assert (visits + [runs])[..|visits|] == visits;
    }

    /** Moving the head of the queue to the processed tasks keeps their concatenation. */
    static lemma MoveHead(processed: seq<Task>, queue: seq<Task>, next: seq<Task>)
      requires queue != []
      ensures processed + queue + next == (processed + [queue[0]]) + (queue[1..] + next)
    {
      assert queue == [queue[0]] + queue[1..];
    }

    /** `process_boundary`: every keyword in turn, until the run must stop. */
    method ProcessBoundary(boundary: Boundary) returns (ghost runs: seq<seq<Task>>)
      requires Valid()
      modifies this`stats, this`rowsWithEmails, this`rowsWithoutEmails, this`existingPlaceIds, rateLimiter, clock
      ensures Valid()
      ensures old(existingPlaceIds) <= existingPlaceIds
      ensures old(rowsWithEmails) <= rowsWithEmails && old(rowsWithoutEmails) <= rowsWithoutEmails
      ensures KeywordRuns(boundary, runs)
      ensures BoundaryExhausted(boundary, runs) || Done()
      ensures stats[ApiCalls] == old(stats[ApiCalls]) + KeywordCalls(runs)
      ensures old(Done()) ==> runs == []
      ensures old(Done()) ==> stats == old(stats) && existingPlaceIds == old(existingPlaceIds) && rowsWithEmails == old(rowsWithEmails) && rowsWithoutEmails == old(rowsWithoutEmails)
    {
      runs := [];
      for i := 0 to |keywords|
        invariant Valid()
        invariant old(existingPlaceIds) <= existingPlaceIds
        invariant |runs| == i && KeywordRuns(boundary, runs)
        invariant stats[ApiCalls] == old(stats[ApiCalls]) + KeywordCalls(runs)
        invariant Done() || ExhaustedSoFar(keywords, runs, ExhaustedOn(boundary))
        invariant old(Done()) ==> runs == []
        invariant old(Done()) ==> stats == old(stats) && existingPlaceIds == old(existingPlaceIds) && rowsWithEmails == old(rowsWithEmails) && rowsWithoutEmails == old(rowsWithoutEmails)
        invariant old(rowsWithEmails) <= rowsWithEmails && old(rowsWithoutEmails) <= rowsWithoutEmails
      {
        if Done() {
          break;
        }
        ghost var queued, processed := ProcessKeywordInBoundary(boundary, keywords[i]);
        RunsStep(keywords, runs, processed, ExploredOn(boundary), ExhaustedOn(boundary));
        KeywordCallsStep(runs, processed);
        runs := runs + [processed];
      }
    }

    /** `run_scraping`: every boundary in turn, until the run must stop. */
    method RunScraping() returns (ghost visits: seq<seq<seq<Task>>>)
      requires Valid()
      modifies this`stats, this`rowsWithEmails, this`rowsWithoutEmails, this`existingPlaceIds, rateLimiter, clock
      ensures Valid()
      ensures old(existingPlaceIds) <= existingPlaceIds
      ensures old(rowsWithEmails) <= rowsWithEmails && old(rowsWithoutEmails) <= rowsWithoutEmails
      ensures BoundaryRuns(visits)
      ensures EveryBoundaryExhausted(visits) || Done()
      ensures stats[ApiCalls] == old(stats[ApiCalls]) + BoundaryCalls(visits)
      ensures old(Done()) ==> visits == []
      ensures old(Done()) ==> stats == old(stats) && existingPlaceIds == old(existingPlaceIds) && rowsWithEmails == old(rowsWithEmails) && rowsWithoutEmails == old(rowsWithoutEmails)
    {
      visits := [];
      for i := 0 to |boundaries|
        invariant Valid()
        invariant old(existingPlaceIds) <= existingPlaceIds
        invariant |visits| == i && BoundaryRuns(visits)
        invariant stats[ApiCalls] == old(stats[ApiCalls]) + BoundaryCalls(visits)
        invariant Done() || ExhaustedSoFar(boundaries, visits, KeywordsExhausted())
        invariant old(Done()) ==> visits == []
        invariant old(Done()) ==> stats == old(stats) && existingPlaceIds == old(existingPlaceIds) && rowsWithEmails == old(rowsWithEmails) && rowsWithoutEmails == old(rowsWithoutEmails)
        invariant old(rowsWithEmails) <= rowsWithEmails && old(rowsWithoutEmails) <= rowsWithoutEmails
      {
        if Done() {
          break;
        }
        ghost var runs := ProcessBoundary(boundaries[i]);
        RunsStep(boundaries, visits, runs, KeywordsRun(), KeywordsExhausted());
        BoundaryCallsStep(visits, runs);
        visits := visits + [runs];
      }
    }
  }
}
