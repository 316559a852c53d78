/**
  * The contact crawler `scrape_website_data`: normalise the business's
  * website, fetch its root page, crawl at most `max_links` pages of the
  * same site and pool the addresses and social links found on the pages
  * that could be fetched.
  *
  * Fetching, HTML parsing and the regular expressions are library code and
  * are given as functions of a `WebEnv`. The thread pool is modelled as
  * processing the crawl list one page after the other; the pooled result
  * is a union and so does not depend on the order.
  */
module Crawler {
  import opened Wrappers
  import opened Text
  import opened Extraction
  import opened Urls

  /** What `fetch_page_advanced` returns: the page text, or an error message. */
  datatype Fetched = Content(text: string) | FetchFailed

  datatype WebEnv = WebEnv(
    urls: UrlLib,
    fetch: string -> Fetched,                    // fetch_page_advanced
    anchors: string -> seq<string>,              // hrefs of the <a href> tags of a page
    emailMatches: string -> seq<string>,         // EMAIL_REGEX.findall
    quotedMatches: string -> seq<string>,        // the quoted-address findall
    socialMatches: string -> Platform -> seq<string>) // SOCIAL_REGEX[p].findall

  /** What `process_single_url` reports for one page. */
  datatype PageResult = PageResult(emails: set<string>, social: SocialLinks, failed: bool)

  /**
    * `process_single_url`: a page that could not be fetched reports nothing
    * and an error; otherwise its filtered addresses, the targets of its
    * `mailto:` anchors and its social links.
    */
  function ProcessSingleUrl(u: string, env: WebEnv): (r: PageResult)
    ensures r.failed <==> env.fetch(u).FetchFailed?
    ensures r.failed ==> r.emails == {} && r.social == NoSocialLinks()
    ensures !r.failed ==> forall e :: e in r.emails <==>
      || (&& env.fetch(u).text != ""
          && (e in env.emailMatches(env.fetch(u).text) || e in env.quotedMatches(env.fetch(u).text))
          && KeepsAddress(e))
      || (env.fetch(u).text != "" && e in MailtoAddresses(env.anchors(env.fetch(u).text)))
    ensures !r.failed ==> forall e :: e in r.emails ==>
      KeepsAddress(e) || e in MailtoAddresses(env.anchors(env.fetch(u).text))
    ensures !r.failed && env.fetch(u).text == "" ==> r.emails == {}
    ensures !r.failed ==> forall p, l :: p in r.social ==>
      (l in r.social[p] <==> env.fetch(u).text != "" && l in env.socialMatches(env.fetch(u).text)(p))
  {
    match env.fetch(u)
    case FetchFailed => PageResult({}, NoSocialLinks(), true)
    case Content(t) =>
      PageResult(
        ExtractEmails(t, env.emailMatches(t), env.quotedMatches(t)) + MailtoAddresses(PageAnchors(t, env)),
        ExtractSocialLinks(t, env.socialMatches(t)),
        false)
  }

  /** The hrefs of a page's anchors; an empty page has none. */
  function PageAnchors(t: string, env: WebEnv): (r: seq<string>)
    ensures t == "" ==> r == []
  {
    if t == "" then [] else env.anchors(t)
  }

  /**
    * A `mailto:` anchor's address is reported even when the text filters
    * would reject it: `ab@x.png` names a file type, yet it is collected.
    */
  lemma MailtoBypassesFilter(u: string, env: WebEnv, query: string)
    requires env.fetch(u).Content? && env.fetch(u).text != ""
    requires "mailto:ab@x.png?" + query in env.anchors(env.fetch(u).text)
    ensures "ab@x.png" in ProcessSingleUrl(u, env).emails
    ensures !KeepsAddress("ab@x.png")
  {
    assert "mailto:ab@x.png?" + query == "mailto:" + "ab@x.png" + "?" + query;
    MailtoTargetOf("ab@x.png", query);
    FileSuffixRejected();
  }

  /** Every platform's links of `a` together with those of `b`. */
  function MergeSocial(a: SocialLinks, b: SocialLinks): (r: SocialLinks)
    ensures forall p :: p in r ==> r[p] == a[p] + b[p]
  {
    map p | p in AllPlatforms :: a[p] + b[p]
  }

  /** What one page adds to the pool: nothing when it could not be fetched. */
  function PageEmails(u: string, env: WebEnv): (r: set<string>)
    ensures env.fetch(u).FetchFailed? ==> r == {}
  {
    var p := ProcessSingleUrl(u, env);
    if p.failed then {} else p.emails
  }

  /** The social links one page adds to the pool: none when it could not be fetched. */
  function PageSocial(u: string, env: WebEnv): (r: SocialLinks)
    ensures env.fetch(u).FetchFailed? ==> r == NoSocialLinks()
  {
    var p := ProcessSingleUrl(u, env);
    if p.failed then NoSocialLinks() else p.social
  }

  /** The union of what each of the pages `urls` adds. */
  function Pool(urls: seq<string>, add: string -> set<string>): set<string>
  {
    if urls == [] then {}
    else Pool(urls[..|urls| - 1], add) + add(urls[|urls| - 1])
  }

  /** A value is pooled exactly when one of the pages adds it. */
  lemma {:induction false} PoolExactly(urls: seq<string>, add: string -> set<string>, x: string)
    ensures x in Pool(urls, add) <==> exists i :: 0 <= i < |urls| && x in add(urls[i])
  {
    if urls != [] {
      var init := urls[..|urls| - 1];
      PoolExactly(init, add, x);
      if x in Pool(init, add) {
        var i :| 0 <= i < |init| && x in add(init[i]);
        assert urls[i] == init[i];
      }
      if exists i :: 0 <= i < |urls| && x in add(urls[i]) {
        var i :| 0 <= i < |urls| && x in add(urls[i]);
        if i < |init| {
          assert init[i] == urls[i];
        }
      }
    }
  }

  /** The addresses pooled over the pages `urls`. */
  function EmailsOf(urls: seq<string>, env: WebEnv): set<string>
  {
    Pool(urls, u => PageEmails(u, env))
  }

  /** The social links pooled over the pages `urls`. */
  function SocialOf(urls: seq<string>, env: WebEnv): SocialLinks
  {
    map p | p in AllPlatforms :: PlatformLinks(urls, env, p)
  }

  /** The links of one platform pooled over the pages `urls`. */
  function PlatformLinks(urls: seq<string>, env: WebEnv, p: Platform): set<string>
  {
    EveryPlatformListed(p);
    Pool(urls, u => PageSocial(u, env)[p])
  }

  /** An address is pooled exactly when some page of the list adds it; failed pages add nothing. */
  lemma EmailsOfExactly(urls: seq<string>, env: WebEnv, e: string)
    ensures e in EmailsOf(urls, env) <==> exists i :: 0 <= i < |urls| && e in PageEmails(urls[i], env)
  {
    PoolExactly(urls, u => PageEmails(u, env), e);
  }

  /** A link is pooled for a platform exactly when some page of the list adds it there. */
  lemma SocialOfExactly(urls: seq<string>, env: WebEnv, p: Platform, s: string)
    ensures s in SocialOf(urls, env)[p] <==> exists i :: 0 <= i < |urls| && s in PageSocial(urls[i], env)[p]
  {
    EveryPlatformListed(p);
    PoolExactly(urls, u => PageSocial(u, env)[p], s);
  }

  lemma MergeNothing(a: SocialLinks)
    ensures MergeSocial(a, NoSocialLinks()) == a
  {
    var m := MergeSocial(a, NoSocialLinks());
    assert m.Keys == a.Keys;
    forall p | p in m ensures m[p] == a[p] {
      assert NoSocialLinks()[p] == {};
    }
  }

  /** The order in which two pages are merged does not matter. */
  lemma MergeSocialCommutes(a: SocialLinks, b: SocialLinks)
    ensures MergeSocial(a, b) == MergeSocial(b, a)
  {
    var ab := MergeSocial(a, b);
    var ba := MergeSocial(b, a);
    forall p | p in AllPlatforms ensures ab[p] == ba[p] {
      assert ab[p] == a[p] + b[p] && ba[p] == b[p] + a[p];
    }
    SameLinksSameMap(ab, ba);
  }

  /** Merging page by page gives the same links however the merges are grouped. */
  lemma MergeSocialAssociates(a: SocialLinks, b: SocialLinks, c: SocialLinks)
    ensures MergeSocial(MergeSocial(a, b), c) == MergeSocial(a, MergeSocial(b, c))
  {
    var left := MergeSocial(MergeSocial(a, b), c);
    var right := MergeSocial(a, MergeSocial(b, c));
    forall p | p in AllPlatforms ensures left[p] == right[p] {
      assert left[p] == a[p] + b[p] + c[p];
      assert right[p] == a[p] + (b[p] + c[p]);
    }
    SameLinksSameMap(left, right);
  }

  /** Pooling one more page adds that page's addresses. */
  lemma EmailsPoolStep(urls: seq<string>, env: WebEnv)
    requires urls != []
    ensures EmailsOf(urls, env) == EmailsOf(urls[..|urls| - 1], env) + PageEmails(urls[|urls| - 1], env)
  {
  }

  /** Pooling one more page merges in that page's social links. */
  lemma SocialPoolStep(urls: seq<string>, env: WebEnv)
    requires urls != []
    ensures SocialOf(urls, env) == MergeSocial(SocialOf(urls[..|urls| - 1], env), PageSocial(urls[|urls| - 1], env))
  {
    var pooled := SocialOf(urls, env);
    var merged := MergeSocial(SocialOf(urls[..|urls| - 1], env), PageSocial(urls[|urls| - 1], env));
    forall p | p in AllPlatforms ensures pooled[p] == merged[p] {
      PlatformPoolStep(urls, env, p);
    }
    SameLinksSameMap(pooled, merged);
  }

  /** Two link maps with the same links for every platform are equal. */
  lemma SameLinksSameMap(a: SocialLinks, b: SocialLinks)
    requires forall p :: p in AllPlatforms ==> a[p] == b[p]
    ensures a == b
  {
    assert a.Keys == b.Keys;
  }

  lemma PlatformPoolStep(urls: seq<string>, env: WebEnv, p: Platform)
    requires urls != []
    ensures SocialOf(urls, env)[p] == SocialOf(urls[..|urls| - 1], env)[p] + PageSocial(urls[|urls| - 1], env)[p]
  {
    EveryPlatformListed(p);
  }

  /** The root URL `f"{scheme}://{netloc}/"` of a parsed URL. */
  function RootUrl(p: Url): (r: string)
    ensures StartsWith(r, p.scheme + "://" + p.netloc) && r[|r| - 1] == '/'
    ensures |r| == |p.scheme| + |p.netloc| + 4
  {
    var r := p.scheme + "://" + p.netloc + "/";
    assert r[..|p.scheme + "://" + p.netloc|] == p.scheme + "://" + p.netloc;
    r
  }

  /** The site a crawl starts from: the normalised URL and its root, or `None` when normalising raised. */
  function Start(url: string, env: WebEnv): (r: Option<(string, string)>)
    ensures r.Some? ==> ConvertSubdomainToWww(url, env.urls) == Some(r.value.0)
    ensures r.Some? ==> env.urls.parse(r.value.0).Some? && r.value.1 == RootUrl(env.urls.parse(r.value.0).value)
    ensures r.None? <==> ConvertSubdomainToWww(url, env.urls).None? || env.urls.parse(ConvertSubdomainToWww(url, env.urls).value).None?
  {
    match ConvertSubdomainToWww(url, env.urls)
    case None => None
    case Some(u) =>
      match env.urls.parse(u)
      case None => None
      case Some(p) => Some((u, RootUrl(p)))
  }

  /** `get_all_internal_links` on the root page, `None` when a library call raised. */
  function RootLinks(root: string, hrefs: seq<string>, lib: UrlLib): Option<set<string>>
  {
    match lib.parse(root)
    case None => None
    case Some(p) => InternalLinks(root, p.netloc, hrefs, lib)
  }

  /**
    * The pages `scrape_website_data` may crawl: the normalised URL, the
    * root, and when the root page has content, every internal link on it.
    * `None` when a library call on the way raised.
    */
  function Candidates(url: string, env: WebEnv): (r: Option<set<string>>)
    ensures r.Some? ==> Start(url, env).Some? && Start(url, env).value.0 in r.value && Start(url, env).value.1 in r.value
    ensures Start(url, env).None? ==> r.None?
  {
    match Start(url, env)
    case None => None
    case Some((u, root)) =>
      match env.fetch(root)
      case FetchFailed => Some({u, root})
      case Content(t) =>
        if t == "" then Some({u, root})
        else match RootLinks(root, env.anchors(t), env.urls)
          case None => None
          case Some(links) => Some({u, root} + links)
  }

  /**
    * Every page the crawl may visit other than the starting URL and the root
    * is an http(s) page on the root's host: the crawl never leaves the site.
    */
  lemma CrawlStaysOnSite(url: string, env: WebEnv, c: string)
    requires Candidates(url, env).Some? && c in Candidates(url, env).value
    requires c != Start(url, env).value.0 && c != Start(url, env).value.1
    ensures env.urls.parse(Start(url, env).value.1).Some?
    ensures var host := env.urls.parse(Start(url, env).value.1).value.netloc;
      env.urls.parse(c).Some? && env.urls.parse(c).value.netloc == host &&
      env.urls.parse(c).value.scheme in {"http", "https"}
  {
    var (u, root) := Start(url, env).value;
    var t := env.fetch(root).text;
    assert env.urls.parse(root).Some?;
    var host := env.urls.parse(root).value.netloc;
    InternalLinksSameHost(root, host, env.anchors(t), env.urls, c);
  }

  /** The social lists returned when a crawl raised: every platform, each with no link. */
  type SocialLists = m: map<Platform, seq<string>> | m.Keys == AllPlatforms
    witness map p | p in AllPlatforms :: []

  function NoSocialLists(): (r: SocialLists)
    ensures forall p :: p in r ==> r[p] == []
  {
    map p | p in AllPlatforms :: []
  }

  /** `{p: list(l) for p, l in ...}`: every platform's set as a list, in no particular order. */
  method ToLists(s: SocialLinks) returns (r: SocialLists)
    ensures forall p :: p in r ==> Distinct(r[p]) && Elements(r[p]) == s[p]
  {
    var fb := SetToSeq(s[Facebook]);
    var ig := SetToSeq(s[Instagram]);
    var li := SetToSeq(s[LinkedIn]);
    var tx := SetToSeq(s[TwitterX]);
    r := map[Facebook := fb, Instagram := ig, LinkedIn := li, TwitterX := tx];
  }

  /**
    * `list(urls_to_process)[:max_links]`: at most `max_links` distinct
    * candidates, in the arbitrary order in which the set is listed.
    */
  method CrawlList(candidates: set<string>, maxLinks: nat) returns (r: seq<string>)
    ensures Distinct(r) && Elements(r) <= candidates
    ensures |r| == if maxLinks < |candidates| then maxLinks else |candidates|
  {
    var all := SetToSeq(candidates);
    r := if maxLinks < |all| then all[..maxLinks] else all;
    assert forall i :: 0 <= i < |r| ==> r[i] == all[i];
  }

  /** The loop over the page results: pool what every fetched page reports. */
  method PoolPages(pages: seq<string>, env: WebEnv) returns (emails: set<string>, social: SocialLinks)
    ensures emails == EmailsOf(pages, env)
    ensures social == SocialOf(pages, env)
  {
    emails := {};
    social := NoSocialLinks();
    for i := 0 to |pages|
      invariant emails == EmailsOf(pages[..i], env)
      invariant social == SocialOf(pages[..i], env)
    {
      EmailsPoolStep(pages[..i + 1], env);
      SocialPoolStep(pages[..i + 1], env);
      assert pages[..i + 1][..i] == pages[..i];
      var res := ProcessSingleUrl(pages[i], env);
      if !res.failed {
        emails := emails + res.emails;
        social := MergeSocial(social, res.social);
      } else {
        MergeNothing(social);
      }
    }
    assert pages[..|pages|] == pages;
  }

  /**
    * `scrape_website_data`. When a library call raised the result is no
    * address and the four platforms with no link. Otherwise the crawl list
    * holds `min(max_links, |candidates|)` distinct candidates, in the
    * arbitrary order of the set it is taken from, and the result pools the
    * addresses and links of the pages of that list that could be fetched.
    */
  method ScrapeWebsiteData(url: string, maxLinks: nat, env: WebEnv)
    returns (emails: seq<string>, social: SocialLists, ghost crawled: seq<string>)
    ensures Candidates(url, env).None? ==> emails == [] && social == NoSocialLists()
    ensures Candidates(url, env).Some? ==>
      && Distinct(crawled)
      && Elements(crawled) <= Candidates(url, env).value
      && |crawled| == (if maxLinks < |Candidates(url, env).value| then maxLinks else |Candidates(url, env).value|)
      && Distinct(emails) && Elements(emails) == EmailsOf(crawled, env)
      && forall p :: p in social ==> Distinct(social[p]) && Elements(social[p]) == SocialOf(crawled, env)[p]
  {
    crawled := [];
    var u := ConvertSubdomainToWww(url, env.urls);
    if u.None? {
      return [], NoSocialLists(), [];
    }
    var parsed := env.urls.parse(u.value);
    if parsed.None? {
      return [], NoSocialLists(), [];
    }
    var root := RootUrl(parsed.value);
    var toProcess := {u.value, root};
    var rootPage := env.fetch(root);
    if rootPage.Content? && rootPage.text != "" {
      var links := GetAllInternalLinks(root, env.anchors(rootPage.text), env.urls);
      if links.None? {
        return [], NoSocialLists(), [];
      }
      // The contact pages and the other pages go into the same set: the
      // split does not reach the crawl order.
      toProcess := toProcess + links.value;
    }
    assert Candidates(url, env) == Some(toProcess);
    var unique := CrawlList(toProcess, maxLinks);
    var emailsFound, socialFound := PoolPages(unique, env);
    crawled := unique;
    emails := SetToSeq(emailsFound);
    social := ToLists(socialFound);
  }
}
